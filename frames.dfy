/**
 * The part of a pandas DataFrame the trip-log pipeline uses: labelled
 * columns of equal length, selecting a column by its label, assigning a
 * column, renaming a label and keeping the rows a boolean mask selects.
 */
module Frames {

  /** A cell: text, a number, or the missing value (NaN or pd.NA alike). */
  datatype Cell = Text(text: string) | Num(x: real) | Missing

  /**
   * A table stored by column, as pandas stores it: `data[j]` is the column
   * labelled `columns[j]`, and every column has `height` cells.
   */
  datatype Table = Table(columns: seq<string>, data: seq<seq<Cell>>, height: nat)

  /** One column per label, and every column as long as the table is high. */
  predicate Shaped(t: Table) {
    && |t.data| == |t.columns|
    && forall j | 0 <= j < |t.data| :: |t.data[j]| == t.height
  }

  // ---------------------------------------------------------------------
  // Columns by label
  // ---------------------------------------------------------------------

  /** The position of the first column labelled `name`. */
  function IndexOf(cs: seq<string>, name: string): (i: nat)
    requires name in cs
    ensures i < |cs| && cs[i] == name
    ensures forall j | 0 <= j < i :: cs[j] != name
  {
    if cs[0] == name then 0 else 1 + IndexOf(cs[1..], name)
  }

  /** `df[name]`: the column labelled `name` (the first one, should the label repeat). */
  function Select(t: Table, name: string): (col: seq<Cell>)
    requires Shaped(t) && name in t.columns
    ensures |col| == t.height
  {
    t.data[IndexOf(t.columns, name)]
  }

  /** `df[name]` is the column at the first position labelled `name`, whatever the later labels. */
  lemma SelectFirst(t: Table, name: string, j: nat)
    requires Shaped(t) && j < |t.columns| && t.columns[j] == name
    requires forall i | 0 <= i < j :: t.columns[i] != name
    ensures Select(t, name) == t.data[j]
  {
    var i := IndexOf(t.columns, name);
    assert !(i < j) && !(j < i);
  }

  /** The labels after `df.rename(columns={from: to})`: every `from` becomes `to`. */
  function Renamed(cs: seq<string>, from: string, to: string): seq<string> {
    seq(|cs|, j requires 0 <= j < |cs| => if cs[j] == from then to else cs[j])
  }

  /** `df.rename(columns={from: to}, inplace=True)`: labels change, data does not. */
  function RenameColumn(t: Table, from: string, to: string): (r: Table)
    requires Shaped(t)
    ensures Shaped(r) && r.data == t.data && r.height == t.height
    ensures |r.columns| == |t.columns|
    ensures forall j | 0 <= j < |t.columns| :: r.columns[j] == if t.columns[j] == from then to else t.columns[j]
    ensures from in t.columns ==> to in r.columns
    ensures forall n | n in t.columns && n != from :: n in r.columns
  {
    var r := t.(columns := Renamed(t.columns, from, to));
    assert from in t.columns ==> r.columns[IndexOf(t.columns, from)] == to;
    assert forall n | n in t.columns && n != from :: r.columns[IndexOf(t.columns, n)] == n;
    r
  }

  /** The labels after assigning column `name`: unchanged if it is there, else `name` added at the end. */
  function WithName(cs: seq<string>, name: string): (r: seq<string>)
    ensures name in r && |cs| <= |r|
    ensures forall j | 0 <= j < |cs| :: r[j] == cs[j]
    ensures forall n | n in cs :: n in r
  {
    if name in cs then cs else cs + [name]
  }

  /**
   * `df[name] = vals`: the column labelled `name` now holds `vals` (it is
   * replaced where it exists and added at the end where it does not); every
   * other column keeps its label, its position and its cells.
   */
  function WithColumn(t: Table, name: string, vals: seq<Cell>): (r: Table)
    requires Shaped(t) && |vals| == t.height
    ensures Shaped(r) && r.height == t.height
    ensures r.columns == WithName(t.columns, name)
    ensures Select(r, name) == vals
    ensures forall n | n in t.columns && n != name :: Select(r, n) == Select(t, n)
    ensures forall j | 0 <= j < |t.columns| && t.columns[j] != name :: r.data[j] == t.data[j]
  {
    if name in t.columns then
      var r := t.(data := t.data[IndexOf(t.columns, name) := vals]);
      assert forall n | n in t.columns && n != name :: IndexOf(r.columns, n) != IndexOf(t.columns, name);
      r
    else
      var r := Table(t.columns + [name], t.data + [vals], t.height);
      assert IndexOf(r.columns, name) == |t.columns|;
      assert forall n | n in t.columns :: IndexOf(r.columns, n) == IndexOf(t.columns, n) by {
        forall n | n in t.columns ensures IndexOf(r.columns, n) == IndexOf(t.columns, n) {
          IndexOfPrefix(t.columns, [name], n);
        }
      }
      r
  }

  /** Appending labels does not move the first occurrence of a label already present. */
  lemma {:induction false} IndexOfPrefix(cs: seq<string>, more: seq<string>, name: string)
    requires name in cs
    ensures name in cs + more
    ensures IndexOf(cs + more, name) == IndexOf(cs, name)
  {
    var i := IndexOf(cs, name);
    assert (cs + more)[i] == name;
    var k := IndexOf(cs + more, name);
    assert k <= i;
    assert (cs + more)[k] == cs[k];
  }

  // ---------------------------------------------------------------------
  // Keeping the rows a mask selects
  // ---------------------------------------------------------------------

  /** The number of rows a mask keeps. */
  function CountTrue(m: seq<bool>): (n: nat)
    ensures n <= |m|
  {
    if |m| == 0 then 0 else CountTrue(m[..|m| - 1]) + (if m[|m| - 1] then 1 else 0)
  }

  /** The elements of `s` at the positions where `m` is true, in their order. */
  function FilterMask<T>(s: seq<T>, m: seq<bool>): (r: seq<T>)
    requires |s| == |m|
    ensures |r| == CountTrue(m)
  {
    if |s| == 0 then []
    else FilterMask(s[..|s| - 1], m[..|m| - 1]) + (if m[|m| - 1] then [s[|s| - 1]] else [])
  }

  /**
   * The positions where `m` is true, in increasing order: exactly the rows
   * a filter by `m` keeps.
   */
  function KeptIndices(m: seq<bool>): (r: seq<nat>)
    ensures |r| == CountTrue(m)
    ensures forall k | 0 <= k < |r| :: r[k] < |m| && m[r[k]]
    ensures forall k, l | 0 <= k < l < |r| :: r[k] < r[l]
    ensures forall i | 0 <= i < |m| && m[i] :: i in r
  {
    if |m| == 0 then []
    else
      var front := KeptIndices(m[..|m| - 1]);
      assert forall i | 0 <= i < |m| - 1 && m[i] :: i in front by {
        assert forall i | 0 <= i < |m| - 1 :: m[..|m| - 1][i] == m[i];
      }
      front + (if m[|m| - 1] then [|m| - 1] else [])
  }

  /** The k-th element a filter keeps is the element at the k-th kept position. */
  lemma {:induction false} FilterMaskAt<T>(s: seq<T>, m: seq<bool>, k: nat)
    requires |s| == |m| && k < CountTrue(m)
    ensures FilterMask(s, m)[k] == s[KeptIndices(m)[k]]
    decreases |s|
  {
    var n := |s| - 1;
    var front := FilterMask(s[..n], m[..n]);
    if k < |front| {
      FilterMaskAt(s[..n], m[..n], k);
      assert KeptIndices(m)[k] == KeptIndices(m[..n])[k];
      assert s[..n][KeptIndices(m[..n])[k]] == s[KeptIndices(m[..n])[k]];
    } else {
      assert m[n] && k == |front|;
    }
  }

  /** The mask `a` and `b`, position by position. */
  function And(a: seq<bool>, b: seq<bool>): (r: seq<bool>)
    requires |a| == |b|
    ensures |r| == |a| && forall i | 0 <= i < |a| :: r[i] == (a[i] && b[i])
  {
    seq(|a|, i requires 0 <= i < |a| => a[i] && b[i])
  }

  /** The last element is kept exactly when the last mask entry is true. */
  lemma FilterLast<T>(s: seq<T>, m: seq<bool>)
    requires |s| == |m| > 0
    ensures FilterMask(s, m) == FilterMask(s[..|s| - 1], m[..|m| - 1]) + FilterMask([s[|s| - 1]], [m[|m| - 1]])
  {
    var x, a := s[|s| - 1], m[|m| - 1];
    assert [x][..0] == [] && [a][..0] == [];
    assert FilterMask([x], [a]) == (if a then [x] else []);
  }

  /** Filtering distributes over concatenation. */
  lemma {:induction false} FilterConcat<T>(s: seq<T>, t: seq<T>, m: seq<bool>, n: seq<bool>)
    requires |s| == |m| && |t| == |n|
    ensures FilterMask(s + t, m + n) == FilterMask(s, m) + FilterMask(t, n)
    decreases |t|
  {
    if |t| == 0 {
      assert s + t == s && m + n == m;
    } else {
      var k := |t| - 1;
      assert (s + t)[..|s + t| - 1] == s + t[..k];
      assert (m + n)[..|m + n| - 1] == m + n[..k];
      FilterConcat(s, t[..k], m, n[..k]);
    }
  }

  /** A one-element sequence keeps its element exactly when its mask entry is true. */
  lemma FilterOne<T>(x: T, a: bool)
    ensures FilterMask([x], [a]) == if a then [x] else []
  {
    assert [x][..0] == [] && [a][..0] == [];
  }

  /** Filtering a single element twice keeps it when both tests hold. */
  lemma FilterSingle<T>(x: T, a: bool, b: bool)
    ensures FilterMask(FilterMask([x], [a]), FilterMask([b], [a])) == FilterMask([x], [a && b])
  {
    FilterOne(x, a);
    FilterOne(b, a);
    FilterOne(x, a && b);
    if a {
      FilterOne(x, b);
    } else {
      assert FilterMask([x], [a]) == [];
      assert FilterMask([b], [a]) == [];
    }
  }

  /**
   * Filtering twice — first by `m`, then by what a second test `q` says of
   * the survivors — keeps exactly the elements for which both hold.
   */
  lemma {:induction false} FilterFilter<T>(s: seq<T>, m: seq<bool>, q: seq<bool>)
    requires |s| == |m| == |q|
    ensures FilterMask(FilterMask(s, m), FilterMask(q, m)) == FilterMask(s, And(m, q))
    decreases |s|
  {
    if |s| > 0 {
      var n := |s| - 1;
      var mq := And(m, q);
      assert mq[..n] == And(m[..n], q[..n]);
      FilterFilter(s[..n], m[..n], q[..n]);
      FilterLast(s, m);
      FilterLast(q, m);
      FilterLast(s, mq);
      FilterConcat(FilterMask(s[..n], m[..n]), FilterMask([s[n]], [m[n]]),
                   FilterMask(q[..n], m[..n]), FilterMask([q[n]], [m[n]]));
      FilterSingle(s[n], m[n], q[n]);
    }
  }

  /** Filtering keeps exactly the elements of the kept positions, so a property of all of them survives. */
  lemma FilterMaskAll<T>(s: seq<T>, m: seq<bool>, p: T -> bool)
    requires |s| == |m|
    requires forall i | 0 <= i < |s| && m[i] :: p(s[i])
    ensures forall k | 0 <= k < |FilterMask(s, m)| :: p(FilterMask(s, m)[k])
  {
    forall k | 0 <= k < |FilterMask(s, m)| ensures p(FilterMask(s, m)[k]) {
      FilterMaskAt(s, m, k);
    }
  }

  /** `df[mask]` (and `dropna`, which builds a mask): every column keeps the rows the mask selects. */
  function Where(t: Table, keep: seq<bool>): (r: Table)
    requires Shaped(t) && |keep| == t.height
    ensures Shaped(r) && r.columns == t.columns && r.height == CountTrue(keep)
    ensures forall j | 0 <= j < |t.columns| :: r.data[j] == FilterMask(t.data[j], keep)
    ensures forall n | n in t.columns :: Select(r, n) == FilterMask(Select(t, n), keep)
  {
    Table(t.columns, seq(|t.data|, j requires 0 <= j < |t.data| => FilterMask(t.data[j], keep)), CountTrue(keep))
  }

  // ---------------------------------------------------------------------
  // The frame object
  // ---------------------------------------------------------------------

  /**
   * A DataFrame whose labels and columns change in place. `Value()` is the
   * table it holds; every method says what that table becomes.
   */
  class DataFrame {
    var columns: seq<string>
    var data: seq<seq<Cell>>
    var height: nat

    function Value(): Table
      reads this
    {
      Table(columns, data, height)
    }

    ghost predicate Valid()
      reads this
    {
      Shaped(Value())
    }

    constructor (t: Table)
      requires Shaped(t)
      ensures Valid() && Value() == t
    {
      columns, data, height := t.columns, t.data, t.height;
    }

    /** `df[name]` */
    function Column(name: string): (col: seq<Cell>)
      reads this
      requires Valid() && name in columns
      ensures |col| == height
    {
      Select(Value(), name)
    }

    /** `df.rename(columns={from: to}, inplace=True)` */
    method Rename(from: string, to: string)
      requires Valid()
      modifies this
      ensures Valid() && Value() == RenameColumn(old(Value()), from, to)
    {
      columns := Renamed(columns, from, to);
    }

    /** `df[name] = vals` */
    method Assign(name: string, vals: seq<Cell>)
      requires Valid() && |vals| == height
      modifies this
      ensures Valid() && Value() == WithColumn(old(Value()), name, vals)
    {
      if name in columns {
        data := data[IndexOf(columns, name) := vals];
      } else {
        columns, data := columns + [name], data + [vals];
      }
    }

    /** `df = df[keep]`: the frame now holds only the rows `keep` selects. */
    method Filter(keep: seq<bool>)
      requires Valid() && |keep| == height
      modifies this
      ensures Valid() && Value() == Where(old(Value()), keep)
    {
      var r := Where(Value(), keep);
      data, height := r.data, r.height;
    }
  }
}
