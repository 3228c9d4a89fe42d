/**
 * Locating a column of the trip log by a keyword in its header: the first
 * header, from left to right, that contains one of the keywords.
 */
module Columns {
  import opened Wrappers

  // Keywords the pipeline looks for in the headers.
  const HandleKey: string := "ハンドル"
  const IdleKey: string := "アイドリング"
  const DateKey: string := "日付"
  const DriveDistanceKey: string := "走行距離"
  const SegmentDistanceKey: string := "区間距離"
  const DistanceKeys: seq<string> := [DriveDistanceKey, SegmentDistanceKey]

  /** `sub` occurs in `s` starting at position `i`. */
  predicate OccursAt(s: string, sub: string, i: int) {
    0 <= i && i + |sub| <= |s| && s[i..i + |sub|] == sub
  }

  /** Python's `sub in s` on strings: `sub` occurs somewhere in `s`. */
  predicate Contains(s: string, sub: string)
    ensures Contains(s, sub) ==> |sub| <= |s|
    ensures |sub| == 0 ==> Contains(s, sub)
    ensures sub == s ==> Contains(s, sub)
  {
    assert OccursAt(s, sub, 0) <== |sub| == 0 || sub == s;
    exists i | 0 <= i <= |s| - |sub| :: OccursAt(s, sub, i)
  }

  /** `s` contains at least one of the keywords. */
  predicate ContainsAny(s: string, keys: seq<string>) {
    exists k | 0 <= k < |keys| :: Contains(s, keys[k])
  }

  /** Position `i` holds the first header that contains one of the keywords. */
  predicate IsFirstMatch(headers: seq<string>, keys: seq<string>, i: int) {
    && 0 <= i < |headers|
    && ContainsAny(headers[i], keys)
    && forall j | 0 <= j < i :: !ContainsAny(headers[j], keys)
  }

  /** No header contains any of the keywords. */
  predicate NoMatch(headers: seq<string>, keys: seq<string>) {
    forall j | 0 <= j < |headers| :: !ContainsAny(headers[j], keys)
  }

  /**
   * `next((c for c in headers if <c contains a key>), None)`: the position
   * of the first matching header, or None when there is none.
   */
  function FindColumn(headers: seq<string>, keys: seq<string>): (r: Option<nat>)
    ensures r.Some? ==> IsFirstMatch(headers, keys, r.value)
    ensures r.None? ==> NoMatch(headers, keys)
  {
    if |headers| == 0 then None
    else if ContainsAny(headers[0], keys) then Some(0)
    else
      match FindColumn(headers[1..], keys)
      case None =>
        assert forall j | 1 <= j < |headers| :: headers[j] == headers[1..][j - 1];
        None
      case Some(j) =>
        assert forall m | 1 <= m < j + 1 :: headers[m] == headers[1..][m - 1];
        Some(j + 1)
  }

  /** The first match is unique: every characterisation of it gives the position FindColumn returns. */
  lemma FirstMatchUnique(headers: seq<string>, keys: seq<string>, i: int)
    requires IsFirstMatch(headers, keys, i)
    ensures FindColumn(headers, keys) == Some(i)
  {
  }

  /** The first header containing either distance keyword: 走行距離 and 区間距離 are accepted alike. */
  lemma DistanceEitherKeyword(headers: seq<string>, i: int)
    requires 0 <= i < |headers|
    requires Contains(headers[i], DriveDistanceKey) || Contains(headers[i], SegmentDistanceKey)
    requires forall j | 0 <= j < i ::
      !Contains(headers[j], DriveDistanceKey) && !Contains(headers[j], SegmentDistanceKey)
    ensures FindColumn(headers, DistanceKeys) == Some(i)
  {
    assert ContainsAny(headers[i], DistanceKeys) by {
      if Contains(headers[i], DriveDistanceKey) {
        assert Contains(headers[i], DistanceKeys[0]);
      } else {
        assert Contains(headers[i], DistanceKeys[1]);
      }
    }
    forall j | 0 <= j < i ensures !ContainsAny(headers[j], DistanceKeys) {
      assert !Contains(headers[j], DistanceKeys[0]) && !Contains(headers[j], DistanceKeys[1]);
    }
    FirstMatchUnique(headers, DistanceKeys, i);
  }
}
