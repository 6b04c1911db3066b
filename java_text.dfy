/**
 * The three `java.lang` string operations the placeholder code relies on:
 * `String.valueOf(int)`, `Integer.parseInt(String)` and `String.split`
 * with a one-character, non-regex-special separator.
 */
module JavaText {
  import opened Common

  const INT_MIN: int := -0x8000_0000
  const INT_MAX: int := 0x7fff_ffff

  predicate IsDigit(c: char)
  {
    '0' <= c <= '9'
  }

  predicate AllDigits(s: string)
  {
    forall i | 0 <= i < |s| :: IsDigit(s[i])
  }

  function DigitChar(d: nat): (c: char)
    requires d < 10
    ensures IsDigit(c) && c as int - '0' as int == d
  {
    ('0' as int + d) as char
  }

  /** The number a run of decimal digits denotes, most significant digit first. */
  function DigitsValue(s: string): nat
    requires AllDigits(s)
    decreases |s|
  {
    if |s| == 0 then 0
    else 10 * DigitsValue(s[..|s| - 1]) + (s[|s| - 1] as int - '0' as int)
  }

  /** The shortest decimal spelling of `n`. */
  function NatToDigits(n: nat): (r: string)
    ensures |r| >= 1 && AllDigits(r)
    ensures r[0] == '0' ==> n == 0
  {
    if n < 10 then [DigitChar(n)] else NatToDigits(n / 10) + [DigitChar(n % 10)]
  }

  /** Reading back the digits of `n` gives `n`. */
  lemma {:induction false} DigitsRoundTrip(n: nat)
    ensures DigitsValue(NatToDigits(n)) == n
  {
    if n >= 10 {
      DigitsRoundTrip(n / 10);
      var s := NatToDigits(n / 10) + [DigitChar(n % 10)];
      assert s[..|s| - 1] == NatToDigits(n / 10);
    }
  }

  /** `String.valueOf(int)`: a minus sign for negatives, then the digits. */
  function IntToString(n: int): (r: string)
    ensures |r| >= 1
    ensures n >= 0 <==> IsDigit(r[0])
    ensures n < 0 <==> r[0] == '-'
  {
    if n < 0 then "-" + NatToDigits(-n) else NatToDigits(n)
  }

  /**
   * `Integer.parseInt(String)`: an optional `-` or `+`, then at least one
   * decimal digit, with a value inside the 32-bit range; anything else is a
   * `NumberFormatException`, here `None`.
   */
  function ParseInt(s: string): (r: Option<int>)
    ensures r.Some? ==> INT_MIN <= r.value <= INT_MAX
    ensures r.Some? ==> |s| >= 1 && (IsDigit(s[0]) || s[0] == '-' || s[0] == '+')
  {
    if |s| == 0 then None
    else
      var signed := s[0] == '-' || s[0] == '+';
      var digits := if signed then s[1..] else s;
      if |digits| == 0 || !AllDigits(digits) then None
      else
        var v: int := if s[0] == '-' then -(DigitsValue(digits) as int) else DigitsValue(digits);
        if INT_MIN <= v <= INT_MAX then Some(v) else None
  }

  /** Every 32-bit `int` survives `String.valueOf` followed by `Integer.parseInt`. */
  lemma IntToStringRoundTrip(n: int)
    requires INT_MIN <= n <= INT_MAX
    ensures ParseInt(IntToString(n)) == Some(n)
  {
    var s := IntToString(n);
    if n < 0 {
      var digits := NatToDigits(-n);
      DigitsRoundTrip(-n);
      assert s == "-" + digits && s[0] == '-' && s[1..] == digits;
    } else {
      DigitsRoundTrip(n);
      assert s == NatToDigits(n) && s[0] != '-' && s[0] != '+';
    }
  }

  /** Splits at every `sep`, keeping all pieces, empty ones included. */
  function SplitAll(s: string, sep: char): (parts: seq<string>)
    ensures |parts| >= 1
    ensures forall i | 0 <= i < |parts| :: sep !in parts[i]
    decreases |s|
  {
    if |s| == 0 then [""]
    else
      var rest := SplitAll(s[1..], sep);
      if s[0] == sep then [""] + rest else [[s[0]] + rest[0]] + rest[1..]
  }

  /** Glues pieces back together with `sep` between them. */
  function Join(parts: seq<string>, sep: char): string
    requires |parts| >= 1
    decreases |parts|
  {
    if |parts| == 1 then parts[0] else parts[0] + [sep] + Join(parts[1..], sep)
  }

  /** Splitting loses nothing: joining the pieces gives the string back. */
  lemma {:induction false} SplitJoin(s: string, sep: char)
    ensures Join(SplitAll(s, sep), sep) == s
    decreases |s|
  {
    if |s| > 0 {
      SplitJoin(s[1..], sep);
      var rest := SplitAll(s[1..], sep);
      if s[0] != sep {
        var parts := [[s[0]] + rest[0]] + rest[1..];
        if |rest| > 1 {
          assert parts[1..] == rest[1..];
          assert Join(rest, sep) == rest[0] + [sep] + Join(rest[1..], sep);
        }
      }
    }
  }

  /** The pieces before and after a first `sep`. */
  lemma {:induction false} SplitAtFirst(a: string, sep: char, b: string)
    requires sep !in a
    ensures SplitAll(a + [sep] + b, sep) == [a] + SplitAll(b, sep)
    decreases |a|
  {
    if |a| == 0 {
      assert a + [sep] + b == [sep] + b;
      assert ([sep] + b)[1..] == b;
    } else {
      SplitAtFirst(a[1..], sep, b);
      assert (a + [sep] + b)[1..] == a[1..] + [sep] + b;
      assert [a[0]] + a[1..] == a;
    }
  }

  /** A string without `sep` is one piece. */
  lemma {:induction false} SplitNone(a: string, sep: char)
    requires sep !in a
    ensures SplitAll(a, sep) == [a]
    decreases |a|
  {
    if |a| > 0 {
      SplitNone(a[1..], sep);
      assert [a[0]] + a[1..] == a;
    }
  }

  /** Drops the empty strings at the end, as `split` with limit 0 does. */
  function DropTrailingEmpty(parts: seq<string>): (r: seq<string>)
    ensures |r| <= |parts| && r == parts[..|r|]
    ensures |r| > 0 ==> r[|r| - 1] != ""
    ensures forall i | |r| <= i < |parts| :: parts[i] == ""
    decreases |parts|
  {
    if |parts| == 0 then []
    else if parts[|parts| - 1] == "" then DropTrailingEmpty(parts[..|parts| - 1])
    else parts
  }

  /**
   * `String.split(String.valueOf(sep))`: with no `sep` in `s` the result is
   * `s` alone; otherwise all pieces, minus the empty ones at the end.
   */
  function JavaSplit(s: string, sep: char): seq<string>
  {
    if sep !in s then [s] else DropTrailingEmpty(SplitAll(s, sep))
  }

  /** Dropping trailing empties keeps any prefix that ends with a non-empty piece. */
  lemma DropKeepsPrefix(a: seq<string>, b: seq<string>)
    requires |a| > 0 && a[|a| - 1] != ""
    ensures |DropTrailingEmpty(a + b)| >= |a|
    ensures DropTrailingEmpty(a + b)[..|a|] == a
  {
    assert (a + b)[|a| - 1] != "";
  }

  /**
   * `"p0_p1_p2"`, and `"p0_p1_p2_..."`, split into `p0`, `p1`, `p2` first
   * when the three have no separator and `p2` is not empty.
   */
  lemma SplitThree(p0: string, p1: string, p2: string, rest: string, sep: char)
    requires sep !in p0 && sep !in p1 && sep !in p2 && p2 != ""
    requires rest == [] || rest[0] == sep
    ensures var parts := JavaSplit(p0 + [sep] + p1 + [sep] + p2 + rest, sep);
      |parts| >= 3 && parts[0] == p0 && parts[1] == p1 && parts[2] == p2
  {
    var t := p2 + rest;
    var s := p0 + [sep] + p1 + [sep] + t;
    assert p0 + [sep] + p1 + [sep] + p2 + rest == s;
    assert s[|p0|] == sep;
    SplitTwoFirst(p0, p1, t, sep);
    var tail := SplitAll(t, sep);
    FirstPieceUpToSep(p2, rest, sep);
    assert [p0, p1] + tail == [p0, p1, p2] + tail[1..];
    DropKeepsPrefix([p0, p1, p2], tail[1..]);
  }

  /** The two pieces before two separators come first. */
  lemma SplitTwoFirst(p0: string, p1: string, t: string, sep: char)
    requires sep !in p0 && sep !in p1
    ensures SplitAll(p0 + [sep] + p1 + [sep] + t, sep) == [p0, p1] + SplitAll(t, sep)
  {
    assert p0 + [sep] + p1 + [sep] + t == p0 + [sep] + (p1 + [sep] + t);
    SplitAtFirst(p0, sep, p1 + [sep] + t);
    SplitAtFirst(p1, sep, t);
  }

  /** A trailing separator leaves no empty piece behind: `"a_b_"` splits into `a` and `b`. */
  lemma SplitTrailingSep(a: string, b: string, sep: char)
    requires sep !in a && sep !in b && b != ""
    ensures JavaSplit(a + [sep] + b + [sep], sep) == [a, b]
  {
    var s := a + [sep] + b + [sep];
    assert s[|a|] == sep && sep in s;
    assert s == a + [sep] + (b + [sep] + []);
    SplitAtFirst(a, sep, b + [sep] + []);
    SplitAtFirst(b, sep, []);
    assert SplitAll(s, sep) == [a, b, ""];
    assert [a, b, ""][..2] == [a, b];
    assert [a, b][1] != "";
    assert DropTrailingEmpty([a, b, ""]) == DropTrailingEmpty([a, b]);
  }

  /** The first piece of `a + rest` is `a` exactly when `rest` is empty or starts at a separator. */
  lemma {:induction false} FirstPieceUpToSep(a: string, rest: string, sep: char)
    requires sep !in a
    ensures SplitAll(a + rest, sep)[0] == a <==> rest == [] || rest[0] == sep
    decreases |a|
  {
    if |a| > 0 {
      FirstPieceUpToSep(a[1..], rest, sep);
      assert (a + rest)[1..] == a[1..] + rest;
    } else {
      assert a + rest == rest;
      if rest != [] && rest[0] != sep {
        assert |SplitAll(rest, sep)[0]| >= 1;
      }
    }
  }
}
