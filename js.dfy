/**
 * The JavaScript value idioms the application's handlers rely on, stated
 * over Dafny values: `null`/`undefined` as an option, the `||` fallback on
 * strings, `String.prototype.split`, `Array.prototype.join`, `indexOf`,
 * number-to-text rendering, `parseFloat(v) || 0` on integer text, and the
 * ASCII part of `toLowerCase`.
 */
module Js {

  /** A value that may be `null` or `undefined`. */
  datatype Option<+T> = None | Some(value: T)

  /** `s || fallback` where `s` may be null: the empty string is falsy too. */
  function OrElse(s: Option<string>, fallback: string): (r: string)
    ensures r == fallback || (s.Some? && r == s.value)
    ensures r == fallback <==> s.None? || s.value == "" || s.value == fallback
  {
    if s.Some? && s.value != "" then s.value else fallback
  }

  /** `s || null` for a nullable string: the empty string becomes null. */
  function OrNull(s: Option<string>): (r: Option<string>)
    ensures r.Some? <==> s.Some? && s.value != ""
    ensures r.Some? ==> r == s
  {
    if s.Some? && s.value != "" then s else None
  }

  // ---------------------------------------------------------------------
  // split and join

  /** `s.split(d)` for a one-character separator: never empty; "" gives [""]. */
  function Split(s: string, d: char): (parts: seq<string>)
    ensures |parts| >= 1
    decreases |s|
  {
    if s == [] then [[]]
    else
      var rest := Split(s[1..], d);
      if s[0] == d then [[]] + rest
      else [[s[0]] + rest[0]] + rest[1..]
  }

  /** No piece holds the separator, and there is a single piece exactly when the text has no separator. */
  lemma {:induction false} SplitPieces(s: string, d: char)
    ensures var parts := Split(s, d);
      && (forall i :: 0 <= i < |parts| ==> d !in parts[i])
      && (|parts| == 1 <==> d !in s)
    decreases |s|
  {
    if s != [] {
      SplitPieces(s[1..], d);
      var rest := Split(s[1..], d);
      var parts := Split(s, d);
      assert s == [s[0]] + s[1..];
      if s[0] == d {
        assert parts == [[]] + rest;
        assert forall i :: 1 <= i < |parts| ==> parts[i] == rest[i - 1];
      } else {
        assert parts == [[s[0]] + rest[0]] + rest[1..];
        assert forall i :: 1 <= i < |parts| ==> parts[i] == rest[i];
        assert d in s <==> d in s[1..];
      }
    }
  }

  /** `parts.join(d)`; the empty array joins to "". */
  function Join(parts: seq<string>, d: char): string
  {
    if |parts| == 0 then []
    else if |parts| == 1 then parts[0]
    else parts[0] + [d] + Join(parts[1..], d)
  }

  /** Joining the pieces of a split gives back the original text. */
  lemma {:induction false} JoinSplit(s: string, d: char)
    ensures Join(Split(s, d), d) == s
    decreases |s|
  {
    if s != [] {
      JoinSplit(s[1..], d);
      var rest := Split(s[1..], d);
      if s[0] != d && |rest| > 1 {
        assert Join(rest, d) == rest[0] + [d] + Join(rest[1..], d);
        var parts := [[s[0]] + rest[0]] + rest[1..];
        assert parts[1..] == rest[1..];
        assert Join(parts, d) == [s[0]] + rest[0] + [d] + Join(rest[1..], d);
        assert s == [s[0]] + s[1..];
      } else if s[0] == d {
        var parts := [[]] + rest;
        assert parts[1..] == rest;
        assert s == [d] + s[1..];
      } else {
        assert s == [s[0]] + s[1..];
      }
    }
  }

  /** Splitting at a separator that was inserted between two texts. */
  lemma {:induction false} SplitAround(a: string, b: string, d: char)
    ensures Split(a + [d] + b, d) == Split(a, d) + Split(b, d)
    decreases |a|
  {
    var s := a + [d] + b;
    if a == [] {
      assert s[1..] == b;
    } else {
      assert s[0] == a[0];
      assert s[1..] == a[1..] + [d] + b;
      SplitAround(a[1..], b, d);
    }
  }

  /** Splitting a joined list of separator-free pieces gives the pieces back. */
  lemma {:induction false} SplitJoin(parts: seq<string>, d: char)
    requires |parts| >= 1
    requires forall i :: 0 <= i < |parts| ==> d !in parts[i]
    ensures Split(Join(parts, d), d) == parts
  {
    JoinSplit(parts[0], d);
    assert Split(parts[0], d) == [parts[0]];
    if |parts| > 1 {
      SplitJoin(parts[1..], d);
      SplitAround(parts[0], Join(parts[1..], d), d);
      assert [parts[0]] + parts[1..] == parts;
    }
  }

  /** Joining the pieces of a split from some piece on, and splitting again, gives those pieces back. */
  lemma SplitSuffixJoin(s: string, d: char, k: nat)
    requires k < |Split(s, d)|
    ensures Split(Join(Split(s, d)[k..], d), d) == Split(s, d)[k..]
  {
    var parts := Split(s, d);
    var rest := parts[k..];
    SplitPieces(s, d);
    forall i | 0 <= i < |rest|
      ensures d !in rest[i]
    {
      assert rest[i] == parts[k + i];
    }
    SplitJoin(rest, d);
  }

  /** `parts.pop()` on a non-empty array: its last element. */
  function Last<T>(parts: seq<T>): T
    requires |parts| >= 1
  {
    parts[|parts| - 1]
  }

  /** Without a separator, the split has one piece: the whole text. */
  lemma LastPieceWithoutSeparator(s: string, d: char)
    requires d !in s
    ensures Last(Split(s, d)) == s
  {
    JoinSplit(s, d);
  }

  /** A leading separator starts an empty first piece; the others are those of the rest. */
  lemma SplitLeadingSeparator(s: string, d: char)
    requires s != [] && s[0] == d
    ensures Split(s, d) == [[]] + Split(s[1..], d)
  {
  }

  /** A first character that is not a separator joins the first piece of the rest. */
  lemma SplitLeadingChar(s: string, d: char)
    requires s != [] && s[0] != d
    ensures var rest := Split(s[1..], d);
      Split(s, d) == [[s[0]] + rest[0]] + rest[1..]
  {
  }

  /** When a separator follows the first character, the last piece is that of the rest. */
  lemma LastPieceOfTail(s: string, d: char)
    requires s != [] && (s[0] == d || d in s[1..])
    ensures Last(Split(s, d)) == Last(Split(s[1..], d))
  {
    var rest := Split(s[1..], d);
    if s[0] == d {
      SplitLeadingSeparator(s, d);
    } else {
      SplitLeadingChar(s, d);
      assert |rest| > 1;
    }
  }

  /** The last piece of a split is the text after the last separator. */
  lemma {:induction false} LastPiece(s: string, d: char)
    ensures var r := Last(Split(s, d));
      && |r| <= |s| && r == s[|s| - |r|..]
      && d !in r
      && (d !in s ==> r == s)
      && (d in s ==> |r| < |s| && s[|s| - |r| - 1] == d)
    decreases |s|
  {
    if d !in s {
      LastPieceWithoutSeparator(s, d);
    } else {
      var t := s[1..];
      LastPieceOfTail(s, d);
      LastPiece(t, d);
      var r := Last(Split(t, d));
      assert s[|s| - |r|..] == t[|t| - |r|..];
      if d in t {
        assert s[|s| - |r| - 1] == t[|t| - |r| - 1];
      }
    }
  }

  /** `s.indexOf(x)`: the first position holding `x`, or -1. */
  function IndexOf<T(==)>(s: seq<T>, x: T): (i: int)
    ensures -1 <= i < |s|
    ensures i == -1 <==> x !in s
    ensures i >= 0 ==> s[i] == x && x !in s[..i]
  {
    if |s| == 0 then -1
    else if s[0] == x then 0
    else
      var j := IndexOf(s[1..], x);
      if j == -1 then -1
      else
        assert s[..j + 1] == [s[0]] + s[1..][..j];
        j + 1
  }

  // ---------------------------------------------------------------------
  // numbers as text

  predicate IsDigit(c: char) { '0' <= c <= '9' }

  function DigitChar(n: nat): (c: char)
    requires n < 10
    ensures IsDigit(c)
  {
    ['0', '1', '2', '3', '4', '5', '6', '7', '8', '9'][n]
  }

  function DigitValue(c: char): nat
    requires IsDigit(c)
  {
    (c as int) - ('0' as int)
  }

  /** Template-literal rendering of a non-negative integer, e.g. `${Date.now()}`. */
  function DecimalString(n: nat): (s: string)
    ensures |s| >= 1
    ensures forall i :: 0 <= i < |s| ==> IsDigit(s[i])
  {
    if n < 10 then [DigitChar(n)] else DecimalString(n / 10) + [DigitChar(n % 10)]
  }

  /** Template-literal rendering of an integer, with a leading '-' when negative. */
  function IntString(n: int): (s: string)
    ensures |s| >= 1
    ensures n < 0 <==> s[0] == '-'
  {
    if n < 0 then "-" + DecimalString(-n) else DecimalString(n)
  }

  /** The longest prefix of `s` made of decimal digits. */
  function DigitRun(s: string): (ds: string)
    ensures |ds| <= |s| && ds == s[..|ds|]
    ensures forall i :: 0 <= i < |ds| ==> IsDigit(s[i])
    ensures |ds| < |s| ==> !IsDigit(s[|ds|])
  {
    if |s| > 0 && IsDigit(s[0]) then [s[0]] + DigitRun(s[1..]) else []
  }

  /** The value of a run of decimal digits, read left to right. */
  function DigitsValue(ds: string): nat
    requires forall i :: 0 <= i < |ds| ==> IsDigit(ds[i])
  {
    if |ds| == 0 then 0 else DigitsValue(ds[..|ds| - 1]) * 10 + DigitValue(ds[|ds| - 1])
  }

  predicate IsSign(c: char) { c == '-' || c == '+' }

  /** Whether unsigned text starts with a number: a digit, or a point followed by a digit. */
  predicate StartsUnsigned(s: string)
  {
    (|s| > 0 && IsDigit(s[0])) || (|s| > 1 && s[0] == '.' && IsDigit(s[1]))
  }

  /** Whether `parseFloat` finds a number at the start of `s` (an optional sign, then a number). */
  predicate StartsNumeric(s: string)
  {
    StartsUnsigned(s) || (|s| > 0 && IsSign(s[0]) && StartsUnsigned(s[1..]))
  }

  /** `10` to the power `k`. */
  function Pow10(k: nat): (p: nat)
    ensures p >= 1
  {
    if k == 0 then 1 else 10 * Pow10(k - 1)
  }

  /** `m * 10^k`, shifting one decimal place at a time and truncating toward zero when `k` is negative. */
  function Scale(m: nat, k: int): (r: nat)
    ensures m == 0 ==> r == 0
    ensures k == 0 ==> r == m
    decreases if k >= 0 then k else -k
  {
    if k == 0 then m
    else if k > 0 then Scale(m * 10, k - 1)
    else Scale(m / 10, k + 1)
  }

  /** Shifting up by `k` places multiplies by `10^k`. */
  lemma {:induction false} ScaleUp(m: nat, k: nat)
    ensures Scale(m, k) == m * Pow10(k)
    decreases k
  {
    if k > 0 {
      ScaleUp(m * 10, k - 1);
      assert (m * 10) * Pow10(k - 1) == m * (10 * Pow10(k - 1));
    }
  }

  /** Shifting a mantissa up past some digits and back down drops exactly those digits. */
  lemma {:induction false} ScaleDownDrops(m: nat, ds: string)
    requires forall i :: 0 <= i < |ds| ==> IsDigit(ds[i])
    ensures Scale(Scale(m, |ds|) + DigitsValue(ds), -|ds|) == m
  {
    if |ds| > 0 {
      var init := ds[..|ds| - 1];
      var y := Scale(m, |init|) + DigitsValue(init);
      ScaleUp(m, |ds|);
      ScaleUp(m, |init|);
      assert Scale(m, |ds|) == Scale(m, |init|) * 10;
      var x := Scale(m, |ds|) + DigitsValue(ds);
      assert x == y * 10 + DigitValue(ds[|ds| - 1]);
      assert x / 10 == y;
      ScaleDownDrops(m, init);
    }
  }

  /**
   * The exponent `parseFloat` reads at the start of `s`: `e` or `E`, an
   * optional sign, then at least one digit; 0 when there is no such part.
   */
  function Exponent(s: string): (e: int)
    ensures |s| == 0 || (s[0] != 'e' && s[0] != 'E') ==> e == 0
  {
    if |s| > 0 && (s[0] == 'e' || s[0] == 'E') then
      var t := s[1..];
      var signed := |t| > 0 && IsSign(t[0]);
      var ds := DigitRun(if signed then t[1..] else t);
      if ds == [] then 0
      else if signed && t[0] == '-' then -(DigitsValue(ds) as int)
      else DigitsValue(ds)
    else 0
  }

  /** The fraction digits after a leading point, or none when there is no point. */
  function FractionDigits(rest: string): (fp: string)
    ensures forall i :: 0 <= i < |fp| ==> IsDigit(fp[i])
    ensures |fp| < |rest|  || fp == []
    ensures |rest| == 0 || rest[0] != '.' ==> fp == []
  {
    if |rest| > 0 && rest[0] == '.' then DigitRun(rest[1..]) else []
  }

  /** What follows the fraction, where an exponent may start. */
  function AfterFraction(rest: string): string
  {
    if |rest| > 0 && rest[0] == '.' then rest[1 + |FractionDigits(rest)|..] else rest
  }

  /**
   * The number made of integer digits `ip`, fraction digits `fp` and the
   * exponent `e`, truncated toward zero.
   */
  function Value(ip: string, fp: string, e: int): nat
    requires forall i :: 0 <= i < |ip| ==> IsDigit(ip[i])
    requires forall i :: 0 <= i < |fp| ==> IsDigit(fp[i])
  {
    Scale(Scale(DigitsValue(ip), |fp|) + DigitsValue(fp), e - |fp|)
  }

  /**
   * The value `parseFloat` reads at the start of unsigned text, truncated
   * toward zero: integer digits, an optional point and fraction digits,
   * then an optional exponent. Without any digit before the exponent the
   * value is 0.
   */
  function Magnitude(s: string): nat
  {
    var ip := DigitRun(s);
    var rest := s[|ip|..];
    Value(ip, FractionDigits(rest), Exponent(AfterFraction(rest)))
  }

  /**
   * `parseFloat(v) || 0`, truncated toward zero: an optional sign, then the
   * number at the start of the text; text that does not start with a number
   * parses to NaN, which `|| 0` turns into 0.
   */
  function ParseNumber(s: string): (r: int)
    ensures !StartsNumeric(s) ==> r == 0
    ensures r < 0 ==> s[0] == '-'
  {
    if |s| > 0 && IsSign(s[0]) then
      var v: int := Magnitude(s[1..]);
      if s[0] == '-' then -v else v
    else
      Magnitude(s)
  }

  /** The run of digits at the start of `ds + rest` is `ds` when `rest` does not start with a digit. */
  lemma {:induction false} DigitRunPrefix(ds: string, rest: string)
    requires forall i :: 0 <= i < |ds| ==> IsDigit(ds[i])
    requires rest == [] || !IsDigit(rest[0])
    ensures DigitRun(ds + rest) == ds
  {
    if |ds| > 0 {
      assert (ds + rest)[1..] == ds[1..] + rest;
      DigitRunPrefix(ds[1..], rest);
    }
  }

  lemma {:induction false} DigitsOfDecimal(n: nat)
    ensures DigitsValue(DecimalString(n)) == n
  {
    var s := DecimalString(n);
    if n < 10 {
      assert s[..0] == [];
    } else {
      DigitsOfDecimal(n / 10);
      assert s[..|s| - 1] == DecimalString(n / 10);
    }
  }

  /** Text without a sign parses to the number at its start. */
  lemma ParseUnsigned(s: string)
    requires |s| > 0 && !IsSign(s[0])
    ensures ParseNumber(s) == Magnitude(s)
  {
  }

  /** Text with a leading minus parses to the negated number after it. */
  lemma ParseNegative(s: string)
    requires |s| > 0 && s[0] == '-'
    ensures ParseNumber(s) == -(Magnitude(s[1..]) as int)
  {
  }

  /** Text that cannot continue a number: not a digit, a point or an exponent mark. */
  predicate EndsNumber(rest: string)
  {
    rest == [] || (!IsDigit(rest[0]) && rest[0] != '.' && rest[0] != 'e' && rest[0] != 'E')
  }

  /** Regrouping `a + b + c`, and dropping its first `|a|` characters, leaves `b + c`. */
  lemma DropFront(a: string, b: string, c: string)
    ensures a + b + c == a + (b + c)
    ensures (a + b + c)[|a|..] == b + c
  {
  }

  /** Text made of four parts starts with the first, continues with the rest, and ends with the last. */
  lemma FourParts(a: string, b: string, c: string, d: string)
    ensures var m := a + b + c + d;
      && m[..|a|] == a
      && m[|a|..] == b + (c + d)
      && m[|m| - |d|..] == d
  {
    var m := a + b + c + d;
    assert m == a + (b + (c + d));
    assert m == (a + b + c) + d;
  }

  /** The number at the start of `ds + rest`, read through the run of digits `ds` that `rest` does not continue. */
  lemma MagnitudeAfterDigits(s: string, ds: string, rest: string)
    requires forall i :: 0 <= i < |ds| ==> IsDigit(ds[i])
    requires rest == [] || !IsDigit(rest[0])
    requires s == ds + rest
    ensures Magnitude(s) == Value(ds, FractionDigits(rest), Exponent(AfterFraction(rest)))
  {
    DigitRunPrefix(ds, rest);
    assert s[|ds|..] == rest;
  }

  /** The number at the start of `ds + rest`, for a run of digits `ds` that `rest` does not continue. */
  lemma MagnitudeOfDigits(ds: string, rest: string)
    requires forall i :: 0 <= i < |ds| ==> IsDigit(ds[i])
    requires EndsNumber(rest)
    ensures Magnitude(ds + rest) == DigitsValue(ds)
  {
    assert FractionDigits(rest) == [] && AfterFraction(rest) == rest && Exponent(rest) == 0;
    assert Value(ds, [], 0) == DigitsValue(ds) by {
      assert DigitsValue([]) == 0;
    }
    MagnitudeAfterDigits(ds + rest, ds, rest);
  }

  /** Digits followed by text that does not continue them parse to their value. */
  lemma ParseDigitsPrefix(ds: string, rest: string)
    requires |ds| > 0 && forall i :: 0 <= i < |ds| ==> IsDigit(ds[i])
    requires EndsNumber(rest)
    ensures ParseNumber(ds + rest) == DigitsValue(ds)
  {
    assert (ds + rest)[0] == ds[0];
    ParseUnsigned(ds + rest);
    MagnitudeOfDigits(ds, rest);
  }

  /** A minus sign, then digits followed by text that does not continue them, parse to the negated value. */
  lemma ParseNegatedDigitsPrefix(ds: string, rest: string)
    requires forall i :: 0 <= i < |ds| ==> IsDigit(ds[i])
    requires EndsNumber(rest)
    ensures ParseNumber("-" + ds + rest) == -(DigitsValue(ds) as int)
  {
    DropFront("-", ds, rest);
    MagnitudeOfDigits(ds, rest);
    ParseNegative("-" + ds + rest);
  }

  /** A natural number written in decimal, followed by text that does not continue it, parses back to itself. */
  lemma ParseDecimalPrefix(m: nat, rest: string)
    requires EndsNumber(rest)
    ensures ParseNumber(DecimalString(m) + rest) == m
  {
    DigitsOfDecimal(m);
    ParseDigitsPrefix(DecimalString(m), rest);
  }

  /** The same behind a minus sign: the number parses back negated. */
  lemma ParseNegatedDecimalPrefix(m: nat, rest: string)
    requires EndsNumber(rest)
    ensures ParseNumber("-" + DecimalString(m) + rest) == -(m as int)
  {
    DigitsOfDecimal(m);
    ParseNegatedDigitsPrefix(DecimalString(m), rest);
  }

  /** A rendered integer followed by text that does not continue it parses back to the integer. */
  lemma ParseIntPrefix(n: int, rest: string)
    requires EndsNumber(rest)
    ensures ParseNumber(IntString(n) + rest) == n
  {
    if n < 0 {
      var m: nat := -n;
      assert IntString(n) == "-" + DecimalString(m);
      ParseNegatedDecimalPrefix(m, rest);
    } else {
      ParseDecimalPrefix(n, rest);
    }
  }

  /** Rendering an integer and parsing it back gives the same integer. */
  lemma ParseIntString(n: int)
    ensures ParseNumber(IntString(n)) == n
  {
    ParseIntPrefix(n, []);
    assert IntString(n) + [] == IntString(n);
  }

  /** An `e` followed by digits and nothing else is an exponent of their value. */
  lemma ExponentOfDigits(es: string)
    requires |es| > 0 && forall i :: 0 <= i < |es| ==> IsDigit(es[i])
    ensures Exponent("e" + es) == DigitsValue(es)
  {
    var tail := "e" + es;
    assert tail[1..] == es && !IsSign(es[0]);
    DigitRunPrefix(es, []);
    assert es + [] == es;
  }

  /** Digits, an `e` and more digits: the number with no fraction and that exponent. */
  lemma MagnitudeWithExponent(ds: string, es: string)
    requires forall i :: 0 <= i < |ds| ==> IsDigit(ds[i])
    requires |es| > 0 && forall i :: 0 <= i < |es| ==> IsDigit(es[i])
    ensures Magnitude(ds + "e" + es) == Value(ds, [], DigitsValue(es))
  {
    DropFront(ds, "e", es);
    MagnitudeAfterDigits(ds + "e" + es, ds, "e" + es);
    ExponentOfDigits(es);
  }

  /** The value of `<m>e<k>` once read: `m` shifted left by `k` places. */
  lemma ExponentValue(m: nat, k: nat)
    ensures Value(DecimalString(m), [], DigitsValue(DecimalString(k))) == m * Pow10(k)
  {
    DigitsOfDecimal(k);
    DigitsOfDecimal(m);
    assert Value(DecimalString(m), [], k) == Scale(m, k) by {
      assert DigitsValue([]) == 0;
    }
    ScaleUp(m, k);
  }

  /** `parseFloat("<m>e<k>")` is `m * 10^k`: the exponent scales the number. */
  lemma ExponentNotation(m: nat, k: nat)
    ensures ParseNumber(DecimalString(m) + "e" + DecimalString(k)) == m * Pow10(k)
  {
    var ds, es := DecimalString(m), DecimalString(k);
    var s := ds + "e" + es;
    assert s[0] == ds[0];
    ParseUnsigned(s);
    MagnitudeWithExponent(ds, es);
    ExponentValue(m, k);
  }

  /** A point followed by digits and nothing else is a fraction of those digits with nothing after it. */
  lemma FractionOfDigits(fs: string)
    requires forall i :: 0 <= i < |fs| ==> IsDigit(fs[i])
    ensures FractionDigits("." + fs) == fs
    ensures AfterFraction("." + fs) == []
  {
    var tail := "." + fs;
    assert tail[1..] == fs;
    DigitRunPrefix(fs, []);
    assert fs + [] == fs;
  }

  /** Digits, a point and more digits: the number with that fraction and no exponent. */
  lemma MagnitudeWithFraction(ds: string, fs: string)
    requires forall i :: 0 <= i < |ds| ==> IsDigit(ds[i])
    requires forall i :: 0 <= i < |fs| ==> IsDigit(fs[i])
    ensures Magnitude(ds + "." + fs) == Value(ds, fs, 0)
  {
    DropFront(ds, ".", fs);
    MagnitudeAfterDigits(ds + "." + fs, ds, "." + fs);
    FractionOfDigits(fs);
  }

  /** Without an exponent the fraction digits are dropped. */
  lemma ValueWithoutExponent(ds: string, fs: string)
    requires forall i :: 0 <= i < |ds| ==> IsDigit(ds[i])
    requires forall i :: 0 <= i < |fs| ==> IsDigit(fs[i])
    ensures Value(ds, fs, 0) == DigitsValue(ds)
  {
    ScaleDownDrops(DigitsValue(ds), fs);
  }

  /** `parseFloat("<m>.<f>")` truncated toward zero is `m`: the fraction is dropped. */
  lemma FractionTruncated(m: nat, f: nat)
    ensures ParseNumber(DecimalString(m) + "." + DecimalString(f)) == m
  {
    var ds, fs := DecimalString(m), DecimalString(f);
    var s := ds + "." + fs;
    MagnitudeWithFraction(ds, fs);
    assert s[0] == ds[0];
    ParseUnsigned(s);
    ValueWithoutExponent(ds, fs);
    DigitsOfDecimal(m);
  }

  // ---------------------------------------------------------------------
  // case-insensitive containment

  /** `toLowerCase` on one character (ASCII letters only). */
  function LowerChar(c: char): (r: char)
    ensures 'A' <= c <= 'Z' ==> 'a' <= r <= 'z'
    ensures !('A' <= c <= 'Z') ==> r == c
  {
    if 'A' <= c <= 'Z' then (c as int - 'A' as int + 'a' as int) as char else c
  }

  function Lower(s: string): (r: string)
    ensures |r| == |s|
    ensures forall i :: 0 <= i < |s| ==> r[i] == LowerChar(s[i])
  {
    if s == [] then [] else [LowerChar(s[0])] + Lower(s[1..])
  }

  /** `hay.includes(needle)`: `needle` occurs at some position of `hay`. */
  predicate Contains(hay: string, needle: string)
    decreases |hay|
  {
    needle <= hay || (|hay| > 0 && Contains(hay[1..], needle))
  }

  /** `needle` occurs in `hay` starting at position `i`. */
  predicate OccursAt(hay: string, needle: string, i: nat)
  {
    i + |needle| <= |hay| && hay[i..i + |needle|] == needle
  }

  /** `Contains` holds exactly when `needle` occurs at some position of `hay`. */
  lemma {:induction false} ContainsAt(hay: string, needle: string)
    ensures Contains(hay, needle) <==> exists i: nat :: OccursAt(hay, needle, i)
    decreases |hay|
  {
    if |hay| > 0 {
      ContainsAt(hay[1..], needle);
      if Contains(hay[1..], needle) {
        var i: nat :| OccursAt(hay[1..], needle, i);
        assert hay[1..][i..i + |needle|] == hay[i + 1..i + 1 + |needle|];
        assert OccursAt(hay, needle, i + 1);
      }
      if needle <= hay {
        assert OccursAt(hay, needle, 0);
      }
      if exists i: nat :: OccursAt(hay, needle, i) {
        var i: nat :| OccursAt(hay, needle, i);
        if i == 0 {
          assert needle <= hay;
        } else {
          assert hay[1..][i - 1..i - 1 + |needle|] == hay[i..i + |needle|];
          assert OccursAt(hay[1..], needle, i - 1);
        }
      }
    } else if needle == [] {
      assert OccursAt(hay, needle, 0);
    }
  }

  /** Case-insensitive containment, as `ilike '%needle%'` without wildcards in `needle`. */
  predicate ContainsIgnoringCase(hay: string, needle: string)
  {
    Contains(Lower(hay), Lower(needle))
  }

  /**
   * The page's search parameters. A key that the URL does not carry is
   * absent; a key it carries with an empty value is present with "".
   */
  type Params = map<string, string>

  /** `searchParams.<key> || ''`. */
  function Param(params: Params, key: string): (v: string)
    ensures key in params ==> v == params[key]
    ensures key !in params ==> v == ""
  {
    if key in params then params[key] else ""
  }

  /**
   * The search parameters a URL with these pairs carries: a key maps to the
   * value of its last pair.
   */
  function ToParams(pairs: seq<(string, string)>): Params
  {
    if pairs == [] then map[]
    else ToParams(pairs[..|pairs| - 1])[pairs[|pairs| - 1].0 := pairs[|pairs| - 1].1]
  }

  /** A key is present exactly when some pair has it, and then it maps to one of that key's values. */
  lemma {:induction false} ToParamsLookup(pairs: seq<(string, string)>, key: string)
    ensures key in ToParams(pairs) <==> exists v :: (key, v) in pairs
    ensures key in ToParams(pairs) ==> (key, ToParams(pairs)[key]) in pairs
  {
    if pairs != [] {
      var init := pairs[..|pairs| - 1];
      var last := pairs[|pairs| - 1];
      assert pairs == init + [last];
      ToParamsLookup(init, key);
      if exists v :: (key, v) in pairs {
        var v :| (key, v) in pairs;
        if (key, v) != last {
          assert (key, v) in init;
        }
      }
    }
  }
}
