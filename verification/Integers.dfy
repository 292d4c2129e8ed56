/** Integer tokens of Prolog text: digit separators, radix values, and the range of native integers, in reading and in printing. */
module Integers {
  import opened Terms
  import Decimal

  const INT_MIN := -0x1000_0000_0000_0000
  const INT_MAX := 0xFFF_FFFF_FFFF_FFFF

  predicate InRange(v: int) {
    INT_MIN <= v <= INT_MAX
  }

  predicate ValidDigits(ds: seq<nat>, base: nat) {
    2 <= base <= 36 && forall i :: 0 <= i < |ds| ==> ds[i] < base
  }

  /** The number that digits denote, most significant first. */
  function Magnitude(ds: seq<nat>, base: nat): nat {
    if ds == [] then 0 else Magnitude(ds[..|ds| - 1], base) * base + ds[|ds| - 1]
  }

  /** `iso_radix_value`: signed accumulation in native arithmetic; None is an overflow at some step. Both the product
      and the sum of a step are checked. */
  function Accumulate(ds: seq<nat>, base: nat, sign: int, n: int): Option<int> {
    if ds == [] then Some(n)
    else if !InRange(n * base) || !InRange(n * base + sign * ds[0]) then None
    else Accumulate(ds[1..], base, sign, n * base + sign * ds[0])
  }

  function Power(base: nat, k: nat): nat {
    if k == 0 then 1 else base * Power(base, k - 1)
  }

  lemma {:induction false} MagnitudeCons(d: nat, ds: seq<nat>, base: nat)
    ensures Magnitude([d] + ds, base) == d * Power(base, |ds|) + Magnitude(ds, base)
  {
    if ds == [] {
      assert ([d] + ds)[..0] == [];
    } else {
      var init, last := ds[..|ds| - 1], ds[|ds| - 1];
      MagnitudeCons(d, init, base);
      assert ([d] + ds)[..|ds|] == [d] + init;
      Distribute(d, Power(base, |init|), Magnitude(init, base), base);
    }
  }

  lemma Distribute(d: int, p: int, m: int, b: int)
    ensures (d * p + m) * b == d * (b * p) + m * b
  {
  }

  lemma {:induction false} PowerPositive(base: nat, k: nat)
    requires base >= 1
    ensures Power(base, k) >= 1
  {
    if k > 0 {
      PowerPositive(base, k - 1);
    }
  }

  /** Prefixes of a numeral are no larger in absolute value than the whole, so an overflow on the way is an overflow
      of the result, and the other way round. */
  lemma {:induction false} AccumulateExact(ds: seq<nat>, base: nat, sign: int, n: int)
    requires ValidDigits(ds, base) && (sign == 1 || sign == -1) && InRange(n) && n * sign >= 0
    ensures var v := n * Power(base, |ds|) + sign * Magnitude(ds, base);
            Accumulate(ds, base, sign, n) == if InRange(v) then Some(v) else None
  {
    if ds != [] {
      var rest, p := ds[1..], Power(base, |ds| - 1);
      var next := n * base + sign * ds[0];
      assert ds == [ds[0]] + rest;
      MagnitudeCons(ds[0], rest, base);
      PowerPositive(base, |ds| - 1);
      Regroup(n, base, p, sign, ds[0], Magnitude(rest, base));
      var v := n * Power(base, |ds|) + sign * Magnitude(ds, base);
      assert v == next * p + sign * Magnitude(rest, base);
      Grows(n, base, ds[0], sign, p, Magnitude(rest, base));
      if InRange(n * base) && InRange(next) {
        AccumulateExact(rest, base, sign, next);
      }
    }
  }

  lemma Regroup(n: int, base: int, p: int, sign: int, d: int, m: int)
    ensures n * (base * p) + sign * (d * p + m) == (n * base + sign * d) * p + sign * m
  {
    assert n * (base * p) == (n * base) * p;
    assert sign * (d * p) == (sign * d) * p;
  }

  /** Once out of range, always out of range, on the same side. */
  lemma Grows(n: int, base: nat, d: nat, sign: int, p: nat, m: nat)
    requires (sign == 1 || sign == -1) && n * sign >= 0 && p >= 1
    ensures var next := n * base + sign * d;
            && next * sign >= 0
            && (InRange(next * p + sign * m) ==> InRange(next) && InRange(n * base))
  {
    var a, next := n * base, n * base + sign * d;
    if sign == 1 {
      assert a >= 0 by { NonNegative(n, base); }
      assert next * p >= next by { AtLeast(next, p); }
    } else {
      assert -a >= 0 by { NonNegative(-n, base); assert (-n) * base == -(n * base); }
      assert (-next) * p >= -next by { AtLeast(-next, p); }
      assert (-next) * p == -(next * p);
    }
  }

  lemma NonNegative(x: int, y: int)
    requires x >= 0 && y >= 0
    ensures x * y >= 0
  {
  }

  lemma AtLeast(x: int, p: int)
    requires x >= 0 && p >= 1
    ensures x * p >= x
  {
    NonNegative(x, p - 1);
    assert x * p == x * (p - 1) + x;
  }

  /** An accepted integer token parses exactly when its mathematical value is a native integer, and to that value. */
  lemma ParsesIffFits(ds: seq<nat>, base: nat, sign: int)
    requires ValidDigits(ds, base) && (sign == 1 || sign == -1)
    ensures var v := sign * Magnitude(ds, base);
            Accumulate(ds, base, sign, 0) == if InRange(v) then Some(v) else None
  {
    AccumulateExact(ds, base, sign, 0);
  }

  // ---------- separators ----------

  predicate Layout(c: int) {
    c == 9 || c == 10 || c == 11 || c == 12 || c == 13 || c == 32
  }

  function SkipLayout(cs: seq<int>): (r: seq<int>)
    ensures |r| <= |cs|
  {
    if cs != [] && Layout(cs[0]) then SkipLayout(cs[1..]) else cs
  }

  function DigitOf(c: int): Option<nat> {
    if 48 <= c <= 57 then Some(c - 48)
    else if 97 <= c <= 122 then Some(c - 87)
    else if 65 <= c <= 90 then Some(c - 55)
    else None
  }

  /** `iso_radix_digits` and `iso_radix_tail`: a digit, then separators and digits. A separator is an underscore with
      any layout after it, or one space. */
  function RadixDigits(cs: seq<int>, base: nat): Option<seq<nat>>
    decreases |cs|
  {
    if cs == [] || DigitOf(cs[0]).None? || DigitOf(cs[0]).value >= base then None else
    var d, rest := DigitOf(cs[0]).value, cs[1..];
    if rest == [] then Some([d]) else
    var more := if rest[0] == 95 then RadixDigits(SkipLayout(rest[1..]), base)
                else if rest[0] == 32 then RadixDigits(rest[1..], base)
                else RadixDigits(rest, base);
    if more.None? then None else Some([d] + more.value)
  }

  /** The token without separators. */
  function OnlyDigits(cs: seq<int>): seq<int> {
    if cs == [] then []
    else (if DigitOf(cs[0]).Some? then [cs[0]] else []) + OnlyDigits(cs[1..])
  }

  function DigitValues(cs: seq<int>): seq<nat> {
    if cs == [] then []
    else (if DigitOf(cs[0]).Some? then [DigitOf(cs[0]).value] else []) + DigitValues(cs[1..])
  }

  lemma {:induction false} SkippedLayout(cs: seq<int>)
    ensures DigitValues(SkipLayout(cs)) == DigitValues(cs) && OnlyDigits(SkipLayout(cs)) == OnlyDigits(cs)
  {
    if cs != [] && Layout(cs[0]) {
      SkippedLayout(cs[1..]);
    }
  }

  /** One digit in front of a token: what both readings do with it. */
  lemma DigitValuesCons(c: int, cs: seq<int>)
    requires DigitOf(c).Some?
    ensures DigitValues([c] + cs) == [DigitOf(c).value] + DigitValues(cs)
    ensures OnlyDigits([c] + cs) == [c] + OnlyDigits(cs)
  {
    assert ([c] + cs)[1..] == cs;
  }

  lemma SeparatorDropped(c: int, cs: seq<int>)
    requires DigitOf(c).None?
    ensures DigitValues([c] + cs) == DigitValues(cs) && OnlyDigits([c] + cs) == OnlyDigits(cs)
  {
    assert ([c] + cs)[1..] == cs;
  }

  predicate Below(ds: seq<nat>, base: nat) {
    forall i :: 0 <= i < |ds| ==> ds[i] < base
  }

  /** An accepted token denotes its digits in order: separators add nothing and lose nothing. */
  lemma {:induction false} SeparatorsKeepDigits(cs: seq<int>, base: nat)
    requires RadixDigits(cs, base).Some?
    ensures RadixDigits(cs, base).value == DigitValues(cs) && DigitValues(cs) != [] && Below(DigitValues(cs), base)
    decreases |cs|
  {
    var rest := cs[1..];
    assert cs == [cs[0]] + rest;
    DigitValuesCons(cs[0], rest);
    if rest != [] {
      assert rest == [rest[0]] + rest[1..];
      if rest[0] == 95 {
        SkippedLayout(rest[1..]);
        SeparatorDropped(95, rest[1..]);
        SeparatorsKeepDigits(SkipLayout(rest[1..]), base);
      } else if rest[0] == 32 {
        SeparatorDropped(32, rest[1..]);
        SeparatorsKeepDigits(rest[1..], base);
      } else {
        SeparatorsKeepDigits(rest, base);
      }
    }
  }

  predicate PlainToken(cs: seq<int>, base: nat) {
    forall i :: 0 <= i < |cs| ==> DigitOf(cs[i]).Some? && DigitOf(cs[i]).value < base
  }

  lemma {:induction false} PlainDigits(cs: seq<int>, base: nat)
    requires cs != [] && PlainToken(cs, base)
    ensures RadixDigits(cs, base) == Some(DigitValues(cs))
  {
    var rest := cs[1..];
    assert cs == [cs[0]] + rest;
    DigitValuesCons(cs[0], rest);
    if rest != [] {
      assert DigitOf(rest[0]).Some?;
      assert forall i :: 0 <= i < |rest| ==> rest[i] == cs[i + 1];
      PlainDigits(rest, base);
    } else {
      assert DigitValues(cs) == [DigitOf(cs[0]).value];
    }
  }

  lemma {:induction false} OnlyDigitsAre(cs: seq<int>)
    ensures forall i :: 0 <= i < |OnlyDigits(cs)| ==> DigitOf(OnlyDigits(cs)[i]).Some?
    ensures DigitValues(OnlyDigits(cs)) == DigitValues(cs) && |OnlyDigits(cs)| == |DigitValues(cs)|
  {
    if cs != [] {
      assert cs == [cs[0]] + cs[1..];
      OnlyDigitsAre(cs[1..]);
      if DigitOf(cs[0]).Some? {
        DigitValuesCons(cs[0], cs[1..]);
        DigitValuesCons(cs[0], OnlyDigits(cs[1..]));
      } else {
        SeparatorDropped(cs[0], cs[1..]);
      }
    }
  }

  lemma {:induction false} ValuesAt(cs: seq<int>)
    requires forall i :: 0 <= i < |cs| ==> DigitOf(cs[i]).Some?
    ensures |DigitValues(cs)| == |cs| && forall i :: 0 <= i < |cs| ==> DigitValues(cs)[i] == DigitOf(cs[i]).value
  {
    if cs != [] {
      ValuesAt(cs[1..]);
    }
  }

  /** Removing the separators of an accepted token changes neither its acceptance nor its value. */
  lemma SeparatorsAreNeutral(cs: seq<int>, base: nat)
    requires RadixDigits(cs, base).Some?
    ensures RadixDigits(OnlyDigits(cs), base) == RadixDigits(cs, base)
  {
    SeparatorsKeepDigits(cs, base);
    OnlyDigitsAre(cs);
    ValuesAt(OnlyDigits(cs));
    assert forall i :: 0 <= i < |OnlyDigits(cs)| ==> DigitOf(OnlyDigits(cs)[i]).value == DigitValues(cs)[i] < base;
    PlainDigits(OnlyDigits(cs), base);
  }

  // ---------- printing and parsing ----------

  function Codes(s: string): seq<int> {
    seq(|s|, (i: int) => if 0 <= i < |s| then s[i] as int else 0)
  }

  /** Decimal integer tokens: an optional sign, then digits with separators. */
  function ParseDecimal(cs: seq<int>): Option<int> {
    var sign, body := if cs != [] && cs[0] == 45 then -1 else 1, if cs != [] && (cs[0] == 45 || cs[0] == 43) then cs[1..] else cs;
    match RadixDigits(body, 10)
    case None => None
    case Some(ds) => Accumulate(ds, 10, sign, 0)
  }

  function Print(v: int): seq<int> {
    if v < 0 then [45] + Codes(Decimal.Show(-v)) else Codes(Decimal.Show(v))
  }

  lemma ShownDigits(n: nat)
    ensures var cs := Codes(Decimal.Show(n));
            && RadixDigits(cs, 10) == Some(DigitValues(cs)) && ValidDigits(DigitValues(cs), 10)
            && Magnitude(DigitValues(cs), 10) == n
            && cs != [] && 48 <= cs[0] <= 57
  {
    var cs := Codes(Decimal.Show(n));
    forall i | 0 <= i < |cs| ensures DigitOf(cs[i]).Some? && DigitOf(cs[i]).value < 10 {
      assert Decimal.IsDigit(Decimal.Show(n)[i]);
    }
    PlainDigits(cs, 10);
    ValuesAt(cs);
    ShownMagnitude(n);
  }

  lemma {:induction false} ShownMagnitude(n: nat)
    ensures Magnitude(DigitValues(Codes(Decimal.Show(n))), 10) == n
  {
    var s := Decimal.Show(n);
    var cs := Codes(s);
    forall i | 0 <= i < |cs| ensures DigitOf(cs[i]).Some? {
      assert Decimal.IsDigit(s[i]);
    }
    ValuesAt(cs);
    var ds := DigitValues(cs);
    if n < 10 {
      assert ds[..0] == [];
      assert ds == [n];
    } else {
      var t := Codes(Decimal.Show(n / 10));
      ShownMagnitude(n / 10);
      forall i | 0 <= i < |t| ensures DigitOf(t[i]).Some? && t[i] == cs[i] {
        assert Decimal.IsDigit(Decimal.Show(n / 10)[i]);
      }
      ValuesAt(t);
      assert ds[..|ds| - 1] == DigitValues(t);
      assert ds[|ds| - 1] == n % 10;
    }
  }

  /** Printing and parsing returns every native integer, the smallest included. */
  lemma PrintParse(v: int)
    requires InRange(v)
    ensures ParseDecimal(Print(v)) == Some(v)
  {
    var n: nat := if v < 0 then -v else v;
    ShownDigits(n);
    var cs := Codes(Decimal.Show(n));
    ParsesIffFits(DigitValues(cs), 10, if v < 0 then -1 else 1);
    if v < 0 {
      assert Print(v)[1..] == cs;
    }
  }
}
