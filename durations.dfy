/**
 * The duration parser of the trip-log pipeline: a text such as "1:30" or
 * "1:30:30" is split on ':' and every part read as an integer; two parts
 * are hours and minutes, three parts hours, minutes and seconds. The result
 * is a number of minutes, or the missing value for anything else.
 */
module Durations {
  import opened Wrappers

  const Colon: char := ':'

  // ---------------------------------------------------------------------
  // Splitting on a separator, as Python's str.split(sep) does
  // ---------------------------------------------------------------------

  /** Glues parts back together with the separator between them. */
  function Join(parts: seq<string>, sep: char): string
    requires |parts| >= 1
  {
    if |parts| == 1 then parts[0] else parts[0] + [sep] + Join(parts[1..], sep)
  }

  /**
   * The parts of `s` between occurrences of `sep`: never empty, no part
   * holds the separator, and joining the parts gives `s` back.
   */
  function Split(s: string, sep: char): (parts: seq<string>)
    ensures |parts| >= 1
    ensures forall k | 0 <= k < |parts| :: sep !in parts[k]
    ensures Join(parts, sep) == s
  {
    if |s| == 0 then [""]
    else
      var rest := Split(s[1..], sep);
      if s[0] == sep then
        assert Join([""] + rest, sep) == [sep] + Join(rest, sep) by {
          assert ([""] + rest)[1..] == rest;
        }
        assert s == [sep] + s[1..];
        [""] + rest
      else
        var parts := [[s[0]] + rest[0]] + rest[1..];
        assert Join(parts, sep) == [s[0]] + Join(rest, sep) by {
          if |rest| > 1 {
            assert parts[1..] == rest[1..];
          }
        }
        assert s == [s[0]] + s[1..];
        parts
  }

  /** Splitting text that starts with a separator-free prefix `p` puts `p` in front of the first part. */
  lemma {:induction false} SplitPrefix(p: string, t: string, sep: char)
    requires sep !in p
    ensures Split(p + t, sep) == [p + Split(t, sep)[0]] + Split(t, sep)[1..]
    decreases |p|
  {
    if |p| > 0 {
      assert (p + t)[1..] == p[1..] + t;
      assert (p + t)[0] == p[0];
      SplitPrefix(p[1..], t, sep);
      assert [p[0]] + (p[1..] + Split(t, sep)[0]) == p + Split(t, sep)[0];
    } else {
      assert p + t == t;
      assert p + Split(t, sep)[0] == Split(t, sep)[0];
      assert Split(t, sep) == [Split(t, sep)[0]] + Split(t, sep)[1..];
    }
  }

  /** Splitting is the inverse of joining separator-free parts. */
  lemma {:induction false} SplitJoin(parts: seq<string>, sep: char)
    requires |parts| >= 1
    requires forall k | 0 <= k < |parts| :: sep !in parts[k]
    ensures Split(Join(parts, sep), sep) == parts
    decreases |parts|
  {
    if |parts| == 1 {
      SplitPrefix(parts[0], "", sep);
      assert parts[0] + "" == parts[0];
    } else {
      var rest := Join(parts[1..], sep);
      SplitJoin(parts[1..], sep);
      assert Split([sep] + rest, sep) == [""] + parts[1..] by {
        assert ([sep] + rest)[1..] == rest;
      }
      assert parts[0] + [sep] + rest == parts[0] + ([sep] + rest);
      SplitPrefix(parts[0], [sep] + rest, sep);
      assert parts[0] + "" == parts[0];
    }
  }

  // ---------------------------------------------------------------------
  // Reading an integer, as Python's int(str) does for plain decimal text
  // ---------------------------------------------------------------------

  predicate IsDigit(c: char) {
    '0' <= c <= '9'
  }

  predicate AllDigits(s: string) {
    forall k | 0 <= k < |s| :: IsDigit(s[k])
  }

  /** An integer literal: an optional '+' or '-' followed by one or more digits. */
  predicate IsIntLiteral(s: string) {
    || (|s| >= 1 && AllDigits(s))
    || (|s| >= 2 && (s[0] == '+' || s[0] == '-') && AllDigits(s[1..]))
  }

  /** The value of a string of digits, read most significant digit first. */
  function DigitsValue(s: string): nat
    requires AllDigits(s)
  {
    if |s| == 0 then 0
    else DigitsValue(s[..|s| - 1]) * 10 + ((s[|s| - 1] as int) - ('0' as int))
  }

  /**
   * Python int() on one piece of text: the integer the literal denotes, or
   * None (where Python raises ValueError) when the text is not a literal.
   */
  function ParseInt(s: string): (r: Option<int>)
    ensures r.Some? <==> IsIntLiteral(s)
    ensures r.Some? && s[0] == '-' ==> r.value <= 0
    ensures r.Some? && s[0] != '-' ==> r.value >= 0
    ensures r.Some? && AllDigits(s) ==> r.value == DigitsValue(s)
    ensures r.Some? && s[0] == '-' ==> r.value == 0 - DigitsValue(s[1..]) as int
    ensures r.Some? && s[0] == '+' ==> r.value == DigitsValue(s[1..])
  {
    if |s| >= 1 && AllDigits(s) then Some(DigitsValue(s))
    else if |s| >= 2 && s[0] == '-' && AllDigits(s[1..]) then Some(0 - DigitsValue(s[1..]) as int)
    else if |s| >= 2 && s[0] == '+' && AllDigits(s[1..]) then Some(DigitsValue(s[1..]))
    else None
  }

  /** The decimal text of a natural number, without leading zeros. */
  function ShowNat(n: nat): (s: string)
    ensures |s| >= 1 && AllDigits(s)
    ensures DigitsValue(s) == n
  {
    var d := [(('0' as int) + n % 10) as char];
    if n < 10 then
      assert DigitsValue(d) == n by { assert d[..0] == ""; }
      d
    else
      var s := ShowNat(n / 10) + d;
      assert s[..|s| - 1] == ShowNat(n / 10);
      s
  }

  /** The decimal text of an integer, with a '-' in front of a negative one, as Python's str(int). */
  function ShowInt(n: int): string {
    if n < 0 then "-" + ShowNat(-n) else ShowNat(n)
  }

  /** Reading the text of an integer gives the integer back. */
  lemma ParseShowInt(n: int)
    ensures ParseInt(ShowInt(n)) == Some(n)
    ensures Colon !in ShowInt(n)
  {
    var s := ShowInt(n);
    if n < 0 {
      assert s[1..] == ShowNat(-n);
      assert !AllDigits(s) by { assert !IsDigit(s[0]); }
    }
    assert forall k | 0 <= k < |s| :: s[k] != Colon by {
      forall k | 0 <= k < |s| ensures s[k] != Colon {
        if n < 0 && k > 0 {
          assert s[k] == ShowNat(-n)[k - 1];
        }
      }
    }
  }

  /** `k` zero digits. */
  function Zeros(k: nat): (s: string)
    ensures |s| == k && AllDigits(s)
  {
    seq(k, i => '0')
  }

  /** Zero digits denote zero. */
  lemma {:induction false} ZerosValue(k: nat)
    ensures DigitsValue(Zeros(k)) == 0
  {
    if k > 0 {
      assert Zeros(k)[..k - 1] == Zeros(k - 1);
      ZerosValue(k - 1);
    }
  }

  /** Leading zeros do not change the value of a string of digits. */
  lemma {:induction false} LeadingZeros(k: nat, s: string)
    requires AllDigits(s)
    ensures AllDigits(Zeros(k) + s)
    ensures DigitsValue(Zeros(k) + s) == DigitsValue(s)
  {
    var t := Zeros(k) + s;
    if |s| == 0 {
      assert t == Zeros(k);
      ZerosValue(k);
    } else {
      assert t[..|t| - 1] == Zeros(k) + s[..|s| - 1];
      assert t[|t| - 1] == s[|s| - 1];
      LeadingZeros(k, s[..|s| - 1]);
    }
  }

  /** A natural number written with `k` leading zeros, as in "05". */
  function Padded(k: nat, n: nat): string {
    Zeros(k) + ShowNat(n)
  }

  /** A zero-padded natural number reads as that number and holds no ':'. */
  lemma ParsePadded(k: nat, n: nat)
    ensures ParseInt(Padded(k, n)) == Some(n)
    ensures Colon !in Padded(k, n)
  {
    var s := Padded(k, n);
    LeadingZeros(k, ShowNat(n));
    assert forall c | c in s :: IsDigit(c) by {
      forall c | c in s ensures IsDigit(c) {
        var i :| 0 <= i < |s| && s[i] == c;
      }
    }
  }

  /** Python's `list(map(int, parts))`: all parts as integers, or None as soon as one is not. */
  function ParseAll(parts: seq<string>): (r: Option<seq<int>>)
    ensures r.Some? <==> forall k | 0 <= k < |parts| :: ParseInt(parts[k]).Some?
    ensures r.Some? ==> |r.value| == |parts|
    ensures r.Some? ==> forall k | 0 <= k < |parts| :: r.value[k] == ParseInt(parts[k]).value
  {
    if |parts| == 0 then Some([])
    else
      match (ParseInt(parts[0]), ParseAll(parts[1..]))
      case (Some(n), Some(ns)) => Some([n] + ns)
      case (None, _) => None
      case (_, None) =>
        assert forall k | 1 <= k < |parts| :: parts[k] == parts[1..][k - 1];
        None
  }

  // ---------------------------------------------------------------------
  // convert_time_to_minutes
  // ---------------------------------------------------------------------

  /** From the parsed parts to minutes: h*60 + m + s/60 for three parts, h*60 + m for two. */
  function MinutesOfParts(ns: seq<int>): Option<real> {
    if |ns| == 3 then Some((ns[0] * 60 + ns[1]) as real + ns[2] as real / 60.0)
    else if |ns| == 2 then Some((ns[0] * 60 + ns[1]) as real)
    else None
  }

  /**
   * "hh:mm" or "hh:mm:ss" to minutes; the missing value for every other
   * text. The parser is total: there is no input on which it fails.
   */
  function ConvertTimeToMinutes(s: string): (r: Option<real>)
    ensures r.Some? <==>
      (|Split(s, Colon)| == 2 || |Split(s, Colon)| == 3) &&
      forall k | 0 <= k < |Split(s, Colon)| :: IsIntLiteral(Split(s, Colon)[k])
  {
    match ParseAll(Split(s, Colon))
    case None => None
    case Some(ns) => MinutesOfParts(ns)
  }

  /** Whatever the text, the value is exactly the one its integer parts give. */
  lemma {:induction false} MinutesOfAnySplit(s: string, ns: seq<int>)
    requires |ns| == |Split(s, Colon)|
    requires forall k | 0 <= k < |ns| :: ParseInt(Split(s, Colon)[k]) == Some(ns[k])
    ensures |ns| == 3 ==> ConvertTimeToMinutes(s) == Some((ns[0] * 60 + ns[1]) as real + ns[2] as real / 60.0)
    ensures |ns| == 2 ==> ConvertTimeToMinutes(s) == Some((ns[0] * 60 + ns[1]) as real)
    ensures |ns| != 2 && |ns| != 3 ==> ConvertTimeToMinutes(s) == None
  {
    var parts := Split(s, Colon);
    assert ParseAll(parts).Some?;
    assert ParseAll(parts).value == ns;
  }

  /** Joining three parts puts the separator between each neighbouring pair. */
  lemma JoinThree(a: string, b: string, c: string, sep: char)
    ensures Join([a, b, c], sep) == a + [sep] + b + [sep] + c
  {
    var parts := [a, b, c];
    assert parts[1..] == [b, c];
    assert parts[1..][1..] == [c];
    assert Join(parts[1..], sep) == b + [sep] + c;
    assert a + [sep] + (b + [sep] + c) == a + [sep] + b + [sep] + c;
  }

  /** An integer literal holds no ':', so it is a whole part of a split on ':'. */
  lemma LiteralColonFree(s: string)
    requires IsIntLiteral(s)
    ensures Colon !in s
  {
    forall k | 0 <= k < |s| ensures s[k] != Colon {
      if !AllDigits(s) && k > 0 {
        assert s[k] == s[1..][k - 1];
      }
    }
  }

  /** Three integer literals joined by ':' are h*60 + m + s/60 minutes. */
  lemma ThreeLiteralsMinutes(a: string, b: string, c: string, h: int, m: int, sec: int)
    requires ParseInt(a) == Some(h) && ParseInt(b) == Some(m) && ParseInt(c) == Some(sec)
    ensures ConvertTimeToMinutes(a + [Colon] + b + [Colon] + c) == Some((h * 60 + m) as real + sec as real / 60.0)
  {
    LiteralColonFree(a);
    LiteralColonFree(b);
    LiteralColonFree(c);
    JoinThree(a, b, c, Colon);
    SplitJoin([a, b, c], Colon);
    MinutesOfAnySplit(a + [Colon] + b + [Colon] + c, [h, m, sec]);
  }

  /** Two integer literals joined by ':' are h*60 + m minutes. */
  lemma TwoLiteralsMinutes(a: string, b: string, h: int, m: int)
    requires ParseInt(a) == Some(h) && ParseInt(b) == Some(m)
    ensures ConvertTimeToMinutes(a + [Colon] + b) == Some((h * 60 + m) as real)
  {
    LiteralColonFree(a);
    LiteralColonFree(b);
    var parts := [a, b];
    assert Join(parts, Colon) == a + [Colon] + b by {
      assert parts[1..] == [b];
    }
    SplitJoin(parts, Colon);
    MinutesOfAnySplit(a + [Colon] + b, [h, m]);
  }

  /** Three integer parts h:m:s are h*60 + m + s/60 minutes. */
  lemma ThreePartsMinutes(h: int, m: int, sec: int)
    ensures ConvertTimeToMinutes(ShowInt(h) + [Colon] + ShowInt(m) + [Colon] + ShowInt(sec))
         == Some((h * 60 + m) as real + sec as real / 60.0)
  {
    ParseShowInt(h);
    ParseShowInt(m);
    ParseShowInt(sec);
    ThreeLiteralsMinutes(ShowInt(h), ShowInt(m), ShowInt(sec), h, m, sec);
  }

  /** Two integer parts h:m are h*60 + m minutes. */
  lemma TwoPartsMinutes(h: int, m: int)
    ensures ConvertTimeToMinutes(ShowInt(h) + [Colon] + ShowInt(m)) == Some((h * 60 + m) as real)
  {
    ParseShowInt(h);
    ParseShowInt(m);
    TwoLiteralsMinutes(ShowInt(h), ShowInt(m), h, m);
  }

  /** Zero-padded hours and minutes, as in "01:05", are h*60 + m minutes. */
  lemma PaddedTwoPartsMinutes(zh: nat, h: nat, zm: nat, m: nat)
    ensures ConvertTimeToMinutes(Padded(zh, h) + [Colon] + Padded(zm, m)) == Some((h * 60 + m) as real)
  {
    ParsePadded(zh, h);
    ParsePadded(zm, m);
    TwoLiteralsMinutes(Padded(zh, h), Padded(zm, m), h, m);
  }

  /** Zero-padded hours, minutes and seconds, as in "01:05:30", are h*60 + m + s/60 minutes. */
  lemma PaddedThreePartsMinutes(zh: nat, h: nat, zm: nat, m: nat, zs: nat, sec: nat)
    ensures ConvertTimeToMinutes(Padded(zh, h) + [Colon] + Padded(zm, m) + [Colon] + Padded(zs, sec))
         == Some((h * 60 + m) as real + sec as real / 60.0)
  {
    ParsePadded(zh, h);
    ParsePadded(zm, m);
    ParsePadded(zs, sec);
    ThreeLiteralsMinutes(Padded(zh, h), Padded(zm, m), Padded(zs, sec), h, m, sec);
  }

  /** A text whose split has neither two nor three parts is the missing value. */
  lemma WrongPartCount(s: string)
    requires |Split(s, Colon)| != 2 && |Split(s, Colon)| != 3
    ensures ConvertTimeToMinutes(s) == None
  {
  }

  /** A text with a part that is not an integer literal is the missing value. */
  lemma NonIntegerPart(s: string, k: nat)
    requires k < |Split(s, Colon)| && !IsIntLiteral(Split(s, Colon)[k])
    ensures ConvertTimeToMinutes(s) == None
  {
  }

  lemma ShowThirty()
    ensures ShowInt(1) == "1" && ShowInt(30) == "30"
  {
    assert ShowNat(3) == "3";
    assert ShowNat(30) == ShowNat(3) + "0";
  }

  /** "1:30" is 90 minutes. */
  lemma HourAndHalfExample()
    ensures ConvertTimeToMinutes("1:30") == Some(90.0)
  {
    ShowThirty();
    TwoPartsMinutes(1, 30);
    assert "1" + [Colon] + "30" == "1:30";
  }

  /** "1:30:30" is 90.5 minutes. */
  lemma HourAndHalfWithSecondsExample()
    ensures ConvertTimeToMinutes("1:30:30") == Some(90.5)
  {
    ShowThirty();
    ThreePartsMinutes(1, 30, 30);
    assert "1" + [Colon] + "30" + [Colon] + "30" == "1:30:30";
  }

  /** The empty text and "abc" have a part that is not an integer. */
  lemma NotIntegerExamples()
    ensures ConvertTimeToMinutes("") == None
    ensures ConvertTimeToMinutes("abc") == None
  {
    SplitJoin([""], Colon);
    NonIntegerPart("", 0);
    SplitJoin(["abc"], Colon);
    assert !IsDigit("abc"[0]);
    NonIntegerPart("abc", 0);
  }

  /** "90" has one part. */
  lemma OnePartExample()
    ensures ConvertTimeToMinutes("90") == None
  {
    SplitJoin(["90"], Colon);
    WrongPartCount("90");
  }

  /** "1:2:3:4" has four parts. */
  lemma FourPartsExample()
    ensures ConvertTimeToMinutes("1:2:3:4") == None
  {
    var four := ["1", "2", "3", "4"];
    assert Join(four, Colon) == "1:2:3:4" by {
      assert four[1..][1..][1..] == ["4"];
      assert Join(four[1..][1..], Colon) == "3:4";
      assert four[1..][1..] == ["3", "4"];
      assert Join(four[1..], Colon) == "2:3:4";
      assert four[1..] == ["2", "3", "4"];
    }
    SplitJoin(four, Colon);
    WrongPartCount("1:2:3:4");
  }

  /** "01:05", zero-padded as the "hh:mm" format usually is, is 65 minutes. */
  lemma ZeroPaddedExample()
    ensures ConvertTimeToMinutes("01:05") == Some(65.0)
  {
    PaddedTwoPartsMinutes(1, 1, 1, 5);
    assert ShowNat(1) == "1" && ShowNat(5) == "5" && Zeros(1) == "0";
    assert Padded(1, 1) + [Colon] + Padded(1, 5) == "01:05";
  }

  /** int() accepts a sign on each part: "+1:-30" is 60 - 30 = 30 minutes. */
  lemma SignedPartsExample()
    ensures ConvertTimeToMinutes("+1:-30") == Some(30.0)
  {
    assert "+1"[1..] == "1" && "-30"[1..] == "30" && "30"[..1] == "3";
    assert ParseInt("+1") == Some(1) && ParseInt("-30") == Some(-30);
    TwoLiteralsMinutes("+1", "-30", 1, -30);
    assert "+1" + [Colon] + "-30" == "+1:-30";
  }
}
