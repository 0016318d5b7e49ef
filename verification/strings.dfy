/** The handful of Python 2 `str` operations the conversion relies on:
    `split` on a separator, `isdigit`, `strip`, `int(...)` and `str(int)`. */
module Strings {
  import opened Results

  predicate IsDigit(c: char) {
    '0' <= c <= '9'
  }

  /** Python 2 `isspace` for a byte in the C locale: space, \t, \n, \v, \f, \r. */
  predicate IsSpace(c: char) {
    c == ' ' || '\t' <= c <= '\r'
  }

  predicate AllDigits(s: string) {
    forall i :: 0 <= i < |s| ==> IsDigit(s[i])
  }

  /** Python `s.isdigit()`: true only for a non-empty run of digits. */
  predicate IsDigitString(s: string) {
    |s| > 0 && AllDigits(s)
  }

  /** `s.split(c)[0]`: the text before the first `c`, or all of `s`. */
  function Before(s: string, c: char): (r: string)
    ensures r <= s
    ensures c !in r
    ensures |r| < |s| ==> s[|r|] == c
  {
    if |s| == 0 || s[0] == c then "" else [s[0]] + Before(s[1..], c)
  }

  /** `Before` is the longest prefix without `c`: a prefix free of `c`
      that ends at a `c` or at the end of `s` is it. */
  lemma BeforeIs(s: string, c: char, n: nat)
    requires n <= |s| && c !in s[..n] && (n < |s| ==> s[n] == c)
    ensures Before(s, c) == s[..n]
  {
  }

  /** `s.split(c, 1)[1]`: the text after the first `c`; `None` where Python
      would raise IndexError because `c` does not occur. */
  function After(s: string, c: char): (r: Option<string>)
    ensures r.Some? <==> c in s
    ensures r.Some? ==> s == Before(s, c) + [c] + r.value
  {
    var b := Before(s, c);
    if |b| < |s| then
      assert s == b + [c] + s[|b| + 1..];
      Some(s[|b| + 1..])
    else
      assert b == s;
      None
  }

  /** Removes leading whitespace. */
  function TrimLeft(s: string): (r: string)
    ensures |r| <= |s| && r == s[|s| - |r|..]
    ensures forall i :: 0 <= i < |s| - |r| ==> IsSpace(s[i])
    ensures |r| > 0 ==> !IsSpace(r[0])
  {
    if |s| > 0 && IsSpace(s[0]) then TrimLeft(s[1..]) else s
  }

  /** Removes trailing whitespace. */
  function TrimRight(s: string): (r: string)
    ensures |r| <= |s| && r == s[..|r|]
    ensures forall i :: |r| <= i < |s| ==> IsSpace(s[i])
    ensures |r| > 0 ==> !IsSpace(r[|r| - 1])
  {
    if |s| > 0 && IsSpace(s[|s| - 1]) then TrimRight(s[..|s| - 1]) else s
  }

  /** Python `s.strip()`. */
  function Strip(s: string): string {
    TrimRight(TrimLeft(s))
  }

  function DigitValue(c: char): nat
    requires IsDigit(c)
  {
    (c - '0') as nat
  }

  function DigitChar(d: nat): (c: char)
    requires d < 10
    ensures IsDigit(c) && DigitValue(c) == d
  {
    (d + '0' as int) as char
  }

  /** The number a digit string denotes in base 10 (most significant first). */
  function DigitsValue(s: string): nat
    requires AllDigits(s)
  {
    if |s| == 0 then 0 else DigitsValue(s[..|s| - 1]) * 10 + DigitValue(s[|s| - 1])
  }

  /** Python `str(n)` for a natural number: shortest base-10 digits. */
  function Decimal(n: nat): (r: string)
    ensures IsDigitString(r)
    ensures |r| > 1 ==> r[0] != '0'
  {
    if n < 10 then [DigitChar(n)] else Decimal(n / 10) + [DigitChar(n % 10)]
  }

  /** Python `str(i)` for any integer. */
  function Show(i: int): string {
    if i < 0 then "-" + Decimal(-i) else Decimal(i)
  }

  /** Python 2 `int(s)`: optional surrounding whitespace, an optional sign
      and at least one digit; anything else raises ValueError. */
  function ParseInt(s: string): (r: Result<int>)
    ensures r.Err? ==> r.error == MalformedNumber(s)
    ensures r.Ok? <==> IntLiteral(Strip(s))
  {
    var t := Strip(s);
    if !IntLiteral(t) then Err(MalformedNumber(s)) else Ok(LiteralValue(t))
  }

  /** The value of an optionally signed digit string. */
  function LiteralValue(t: string): int
    requires IntLiteral(t)
  {
    if t[0] == '-' then -(DigitsValue(t[1..]) as int)
    else if t[0] == '+' then DigitsValue(t[1..])
    else DigitsValue(t)
  }

  /** An optionally signed, non-empty digit string. */
  predicate IntLiteral(t: string) {
    || IsDigitString(t)
    || (|t| > 1 && (t[0] == '-' || t[0] == '+') && IsDigitString(t[1..]))
  }

  /** `strToInt` (makeCurrentGeoJSON.py:93-94): `int` of the text before the
      first '.', so a fractional part is truncated, never rounded. */
  function StrToInt(s: string): (r: Result<int>)
    ensures r.Ok? <==> IntLiteral(Strip(Before(s, '.')))
    ensures r.Err? ==> r.error == MalformedNumber(Before(s, '.'))
    // without a '.', it is plain `int`
    ensures '.' !in s ==> r == ParseInt(s)
  {
    var whole := Before(s, '.');
    assert '.' !in s ==> whole == s by {
      if '.' !in s {
        assert s[..|s|] == s;
        BeforeIs(s, '.', |s|);
      }
    }
    ParseInt(whole)
  }

  /** Zero-padded decimal of width at least `w`, as `%0<w>d` formats it. */
  function Pad(n: nat, w: nat): (r: string)
    ensures AllDigits(r) && DigitsValue(r) == n
    ensures |r| == if |Decimal(n)| < w then w else |Decimal(n)|
  {
    var d := Decimal(n);
    DecimalValue(n);
    if |d| >= w then d
    else
      ZerosValue(w - |d|, d);
      Zeros(w - |d|) + d
  }

  function Zeros(k: nat): (r: string)
    ensures |r| == k && forall i :: 0 <= i < k ==> r[i] == '0'
  {
    if k == 0 then "" else "0" + Zeros(k - 1)
  }

  function Pow10(k: nat): (p: nat)
    ensures p >= 1
  {
    if k == 0 then 1 else 10 * Pow10(k - 1)
  }

  // ---------------------------------------------------------------------
  // Lemmas: `int` and `str` are inverse to each other.
  // ---------------------------------------------------------------------

  /** Reading back the digits `str` writes gives the number. */
  lemma {:induction false} DecimalValue(n: nat)
    ensures DigitsValue(Decimal(n)) == n
  {
    if n >= 10 {
      var s := Decimal(n);
      assert s[..|s| - 1] == Decimal(n / 10);
      DecimalValue(n / 10);
    }
  }

  /** A digit string without a superfluous leading zero is what `str`
      writes for its value: the other half of the round trip. */
  lemma {:induction false} ValueDecimal(s: string)
    requires IsDigitString(s)
    requires |s| > 1 ==> s[0] != '0'
    ensures Decimal(DigitsValue(s)) == s
  {
    if |s| > 1 {
      var init := s[..|s| - 1];
      LeadingDigitPositive(init);
      ValueDecimal(init);
      var v := DigitsValue(s);
      assert v / 10 == DigitsValue(init) && v % 10 == DigitValue(s[|s| - 1]);
      assert s == init + [s[|s| - 1]];
    }
  }

  lemma {:induction false} LeadingDigitPositive(s: string)
    requires IsDigitString(s) && s[0] != '0'
    ensures DigitsValue(s) >= 1
  {
    if |s| > 1 {
      LeadingDigitPositive(s[..|s| - 1]);
    }
  }

  /** Leading zeros do not change the value of a digit string. */
  lemma {:induction false} ZerosValue(k: nat, d: string)
    requires AllDigits(d)
    ensures AllDigits(Zeros(k) + d) && DigitsValue(Zeros(k) + d) == DigitsValue(d)
  {
    if k == 0 {
      assert Zeros(k) + d == d;
    } else {
      var rest := Zeros(k - 1) + d;
      ZerosValue(k - 1, d);
      LeadingZero(rest);
      assert Zeros(k) + d == "0" + rest;
    }
  }

  lemma {:induction false} LeadingZero(s: string)
    requires AllDigits(s)
    ensures AllDigits("0" + s) && DigitsValue("0" + s) == DigitsValue(s)
  {
    if |s| > 0 {
      var z := "0" + s;
      assert z[..|z| - 1] == "0" + s[..|s| - 1];
      LeadingZero(s[..|s| - 1]);
    }
  }

  /** A number below 10^k needs at most k digits. */
  lemma {:induction false} DecimalLength(n: nat, k: nat)
    requires 1 <= k && n < Pow10(k)
    ensures |Decimal(n)| <= k
  {
    if n >= 10 {
      DecimalLength(n / 10, k - 1);
    }
  }

  /** `int(str(i)) == i` for every integer. */
  lemma ParseShow(i: int)
    ensures ParseInt(Show(i)) == Ok(i)
  {
    if i < 0 {
      var n: nat := -i;
      var d := Decimal(n);
      assert Show(i) == "-" + d;
      assert ParseInt("-" + d) == Ok(i) by {
        DecimalValue(n);
        ParseNegative(d);
      }
    } else {
      var d := Decimal(i);
      assert Show(i) == d;
      assert ParseInt(d) == Ok(i) by {
        DecimalValue(i);
        ParseDigits(d);
      }
    }
  }

  lemma ParseDigits(d: string)
    requires IsDigitString(d)
    ensures ParseInt(d) == Ok(DigitsValue(d))
  {
    NoSpaceStrip(d);
  }

  lemma ParseNegative(d: string)
    requires IsDigitString(d)
    ensures ParseInt("-" + d) == Ok(-(DigitsValue(d) as int))
  {
    var s := "-" + d;
    assert s[1..] == d;
    forall k | 0 <= k < |s|
      ensures !IsSpace(s[k])
    {
      if k > 0 {
        assert s[k] == d[k - 1];
      }
    }
    NoSpaceStrip(s);
    assert IntLiteral(s);
  }

  lemma NoSpaceStrip(s: string)
    requires forall i :: 0 <= i < |s| ==> !IsSpace(s[i])
    ensures Strip(s) == s
  {
  }

  /** Leading whitespace goes, up to the first other character. */
  lemma {:induction false} TrimLeftSpaces(w: string, t: string)
    requires forall i :: 0 <= i < |w| ==> IsSpace(w[i])
    requires |t| > 0 && !IsSpace(t[0])
    ensures TrimLeft(w + t) == t
    decreases |w|
  {
    if |w| == 0 {
      assert w + t == t;
    } else {
      assert (w + t)[0] == w[0];
      assert (w + t)[1..] == w[1..] + t;
      TrimLeftSpaces(w[1..], t);
    }
  }

  /** Trailing whitespace goes, back to the last other character. */
  lemma {:induction false} TrimRightSpaces(t: string, w: string)
    requires forall i :: 0 <= i < |w| ==> IsSpace(w[i])
    requires |t| > 0 && !IsSpace(t[|t| - 1])
    ensures TrimRight(t + w) == t
    decreases |w|
  {
    if |w| == 0 {
      assert t + w == t;
    } else {
      var init := w[..|w| - 1];
      assert (t + w)[|t + w| - 1] == w[|w| - 1];
      assert (t + w)[..|t + w| - 1] == t + init;
      TrimRightSpaces(t, init);
    }
  }

  /** `strip` removes exactly the surrounding whitespace. */
  lemma StripSpaces(w1: string, t: string, w2: string)
    requires forall i :: 0 <= i < |w1| ==> IsSpace(w1[i])
    requires forall i :: 0 <= i < |w2| ==> IsSpace(w2[i])
    requires |t| > 0 && !IsSpace(t[0]) && !IsSpace(t[|t| - 1])
    ensures Strip(w1 + t + w2) == t
  {
    assert w1 + t + w2 == w1 + (t + w2);
    assert (t + w2)[0] == t[0];
    TrimLeftSpaces(w1, t + w2);
    TrimRightSpaces(t, w2);
  }

  /** `int()` reads the number whatever surrounds it: whitespace on either
      side, a sign and leading zeros ("08", " +007 ", "-0012") keep its value. */
  lemma ParsePadded(w1: string, sign: string, k: nat, n: nat, w2: string)
    requires forall i :: 0 <= i < |w1| ==> IsSpace(w1[i])
    requires forall i :: 0 <= i < |w2| ==> IsSpace(w2[i])
    requires sign == "" || sign == "+" || sign == "-"
    ensures ParseInt(w1 + sign + Zeros(k) + Decimal(n) + w2) == Ok(if sign == "-" then -(n as int) else n as int)
  {
    var d := Zeros(k) + Decimal(n);
    assert IsDigitString(d) && DigitsValue(d) == n by {
      DecimalValue(n);
      ZerosValue(k, Decimal(n));
    }
    var t := sign + d;
    SignedValue(sign, d);
    var v := LiteralValue(t);
    assert v == if sign == "-" then -(n as int) else n as int;
    Regroup(w1, sign, Zeros(k), Decimal(n), w2);
    PaddedLiteral(w1, t, w2);
  }

  lemma Regroup(a: string, b: string, c: string, d: string, e: string)
    ensures a + b + c + d + e == a + (b + (c + d)) + e
  {
  }

  /** Whitespace around a literal leaves its value to `int()`. */
  lemma PaddedLiteral(w1: string, t: string, w2: string)
    requires forall i :: 0 <= i < |w1| ==> IsSpace(w1[i])
    requires forall i :: 0 <= i < |w2| ==> IsSpace(w2[i])
    requires IntLiteral(t)
    ensures ParseInt(w1 + t + w2) == Ok(LiteralValue(t))
  {
    assert IsDigit(t[|t| - 1]);
    StripSpaces(w1, t, w2);
  }

  /** The value of an optionally signed digit string is its digits' value,
      negated for '-'. */
  lemma SignedValue(sign: string, d: string)
    requires IsDigitString(d)
    requires sign == "" || sign == "+" || sign == "-"
    ensures IntLiteral(sign + d)
    ensures LiteralValue(sign + d) == if sign == "-" then -(DigitsValue(d) as int) else DigitsValue(d) as int
  {
    var t := sign + d;
    if sign == "" {
      assert t == d;
    } else {
      assert t[0] == sign[0] && t[1..] == d;
    }
  }

  /** `strToInt` is `int` of the text before the first '.': whatever
      follows that '.' is ignored. */
  lemma StrToIntWhole(w: string, f: string)
    requires '.' !in w
    ensures StrToInt(w + "." + f) == ParseInt(w)
  {
    BeforeConcat(w, "." + f, '.');
    assert w + "." + f == w + ("." + f);
  }

  /** Zero-padded fields such as MONTH "08", with or without a fractional
      part ("08.0"), read as the number their digits spell. */
  lemma ZeroPaddedField(k: nat, n: nat, f: string)
    ensures StrToInt(Zeros(k) + Decimal(n)) == Ok(n)
    ensures StrToInt(Zeros(k) + Decimal(n) + "." + f) == Ok(n)
  {
    var w := Zeros(k) + Decimal(n);
    PaddedDigits(k, n);
    StrToIntWhole(w, f);
  }

  /** Leading zeros in front of a natural number's digits: still a digit
      string, without a '.', that `int()` reads as the number. */
  lemma PaddedDigits(k: nat, n: nat)
    ensures IsDigitString(Zeros(k) + Decimal(n))
    ensures '.' !in Zeros(k) + Decimal(n)
    ensures ParseInt(Zeros(k) + Decimal(n)) == Ok(n)
  {
    var w := Zeros(k) + Decimal(n);
    assert IsDigitString(w) by {
      DecimalValue(n);
      ZerosValue(k, Decimal(n));
    }
    DigitsNoDot(w);
    assert "" + "" + Zeros(k) + Decimal(n) + "" == w;
    ParsePadded("", "", k, n, "");
  }

  lemma DigitsNoDot(w: string)
    requires IsDigitString(w)
    ensures '.' !in w
  {
  }

  /** `strToInt(str(i) + "." + f) == i` whatever the fractional text `f`:
      the part after the first '.' is discarded, never rounded. */
  lemma StrToIntTruncates(i: int, f: string)
    ensures StrToInt(Show(i) + "." + f) == Ok(i)
    ensures StrToInt(Show(i)) == Ok(i)
  {
    var s := Show(i);
    assert '.' !in s by {
      if i < 0 {
        assert s == "-" + Decimal(-i);
      }
    }
    assert Before(s + "." + f, '.') == s by {
      BeforeConcat(s, "." + f, '.');
      assert s + "." + f == s + ("." + f);
    }
    assert Before(s, '.') == s by {
      BeforeConcat(s, "", '.');
      assert s + "" == s;
    }
    ParseShow(i);
  }

  /** Splitting at `c` finds the first `c`: text before it is kept whole. */
  lemma {:induction false} BeforeConcat(s: string, t: string, c: char)
    requires c !in s && (|t| > 0 ==> t[0] == c)
    ensures Before(s + t, c) == s
  {
    if |s| > 0 {
      assert (s + t)[0] == s[0];
      assert (s + t)[1..] == s[1..] + t;
      BeforeConcat(s[1..], t, c);
      assert s == [s[0]] + s[1..];
    }
  }

  /** The sample pressure of the feed: "987.0" reads as 987. */
  lemma PressureExample()
    ensures StrToInt("987.0") == Ok(987)
  {
    var s := "987.0";
    assert s[0] == '9' && s[1] == '8' && s[2] == '7' && s[3] == '.';
    assert s[1..][1..][1..] == ".0";
    assert Before(s[1..][1..][1..], '.') == "";
    assert Before(s, '.') == "987";
    var t := "987";
    ParseDigits(t);
    assert t[..2] == "98" && t[..2][..1] == "9";
    assert DigitsValue("9") == 9;
    assert DigitsValue("98") == 98;
    assert DigitsValue(t) == 987;
  }

  /** A sample wind of the feed: "63.0" reads as 63. */
  lemma WindExample()
    ensures StrToInt("63.0") == Ok(63)
  {
    var s := "63.0";
    assert s[0] == '6' && s[1] == '3' && s[2] == '.';
    assert s[1..][1..] == ".0";
    assert Before(s[1..][1..], '.') == "";
    assert Before(s, '.') == "63";
    var t := "63";
    ParseDigits(t);
    assert t[..1] == "6";
    assert DigitsValue("6") == 6;
    assert DigitsValue(t) == 63;
  }
}
