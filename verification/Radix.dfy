/** Integer tokens with a sign, a radix prefix, digits in letters of either case, and separators between the digits. Spelling
    is written down as a relation between characters and digits, so that a number can be read back in every way in which it
    can be written. */
module Radix {
  import opened Terms
  import opened Integers
  import Decimal

  const QUOTE := 39

  /** How many decimal digits the text begins with. */
  function DigitRun(cs: seq<int>): (n: nat)
    ensures n <= |cs| && forall i :: 0 <= i < n ==> 48 <= cs[i] <= 57
    ensures n < |cs| ==> !(48 <= cs[n] <= 57)
  {
    if cs != [] && 48 <= cs[0] <= 57 then 1 + DigitRun(cs[1..]) else 0
  }

  /** `iso_small_base`: it gives up as soon as the number is too large for a base. */
  function SmallBase(cs: seq<int>, n: int): Option<int> {
    if cs == [] then Some(n)
    else if n * 10 + cs[0] - 48 <= 36 then SmallBase(cs[1..], n * 10 + cs[0] - 48)
    else None
  }

  /** `iso_integer_base`: the base and what is left to read; a prefix that gives no base is no prefix. */
  function ReadBase(cs: seq<int>): (nat, seq<int>) {
    if |cs| >= 2 && cs[0] == 48 && cs[1] == 120 then (16, cs[2..])
    else if |cs| >= 2 && cs[0] == 48 && cs[1] == 111 then (8, cs[2..])
    else if |cs| >= 2 && cs[0] == 48 && cs[1] == 98 then (2, cs[2..])
    else
      var n := DigitRun(cs);
      if 1 <= n < |cs| && cs[n] == QUOTE && SmallBase(cs[..n], 0).Some? && 2 <= SmallBase(cs[..n], 0).value <= 36
      then (SmallBase(cs[..n], 0).value, cs[n + 1..])
      else (10, cs)
  }

  function ReadSign(cs: seq<int>): (int, seq<int>) {
    if cs != [] && cs[0] == 45 then (-1, cs[1..]) else if cs != [] && cs[0] == 43 then (1, cs[1..]) else (1, cs)
  }

  datatype Reading = NoInteger | Overflow | Integer(value: int)

  /** `iso_parse_number` on what is an integer token. */
  function ReadInteger(cs: seq<int>): Reading {
    var (sign, unsigned) := ReadSign(SkipLayout(cs));
    var (base, body) := ReadBase(unsigned);
    match RadixDigits(body, base)
    case None => NoInteger
    case Some(ds) => (match Accumulate(ds, base, sign, 0) case None => Overflow case Some(v) => Integer(v))
  }

  // ---------- spelling ----------

  /** A character that spells this digit: letters stand for the digits from ten on, in either case. */
  predicate Spells(c: int, d: nat) {
    if d < 10 then c == 48 + d else c == 97 + (d - 10) || c == 65 + (d - 10)
  }

  predicate SpellsAll(cs: seq<int>, ds: seq<nat>) {
    |cs| == |ds| && forall i :: 0 <= i < |cs| ==> Spells(cs[i], ds[i])
  }

  /** The texts that select a base. */
  function Prefixes(base: nat): set<seq<int>>
    requires 2 <= base <= 36
  {
    {Codes(Decimal.Show(base)) + [QUOTE]}
    + (if base == 16 then {[48, 120]} else {}) + (if base == 8 then {[48, 111]} else {}) + (if base == 2 then {[48, 98]} else {})
  }

  function Signs(sign: int): set<seq<int>> {
    if sign == -1 then {[45]} else {[], [43]}
  }

  lemma ShownBase(base: nat)
    requires 2 <= base <= 36
    ensures Codes(Decimal.Show(base)) == if base < 10 then [48 + base] else [48 + base / 10, 48 + base % 10]
  {
    var s := Decimal.Show(base);
    if base >= 10 {
      assert s == Decimal.Show(base / 10) + [Decimal.Digit(base % 10)];
      assert s[0] as int == 48 + base / 10 && s[1] as int == 48 + base % 10;
    }
  }

  lemma NumberedBase(base: nat, body: seq<int>)
    requires 2 <= base <= 36
    ensures ReadBase(Codes(Decimal.Show(base)) + [QUOTE] + body) == (base, body)
  {
    ShownBase(base);
    var p := Codes(Decimal.Show(base));
    var cs := p + [QUOTE] + body;
    assert |cs| >= 2 && 49 <= cs[0] <= 57;
    if base < 10 {
      assert DigitRun(cs) == 1 by { assert cs[1] == QUOTE; }
      assert cs[..1] == [48 + base] && cs[2..] == body && [48 + base][1..] == [];
      assert SmallBase([48 + base], 0) == Some(base);
    } else {
      assert DigitRun(cs) == 2 by { assert cs[1] == 48 + base % 10 && cs[2] == QUOTE && cs[1..][0] == cs[1] && cs[1..][1..][0] == QUOTE; }
      assert cs[..2] == p && cs[3..] == body;
      assert p[1..] == [48 + base % 10] && p[1..][1..] == [];
      assert SmallBase(p[1..], base / 10) == Some(base);
    }
  }

  lemma PrefixedBase(prefix: seq<int>, base: nat, body: seq<int>)
    requires 2 <= base <= 36 && prefix in Prefixes(base)
    ensures ReadBase(prefix + body) == (base, body)
    ensures prefix != [] && 48 <= prefix[0] <= 57
  {
    ShownBase(base);
    if prefix == Codes(Decimal.Show(base)) + [QUOTE] {
      NumberedBase(base, body);
    } else {
      assert (prefix + body)[2..] == body;
    }
  }

  // ---------- separators ----------

  /** What may stand between two digits: nothing, one space, or an underscore with any layout behind it. */
  predicate Gap(g: seq<int>) {
    g == [] || g == [32] || (g[0] == 95 && forall i :: 1 <= i < |g| ==> Layout(g[i]))
  }

  /** The digits with a gap behind each but the last. */
  function Spaced(cs: seq<int>, gaps: seq<seq<int>>): seq<int>
    requires |gaps| == |cs|
  {
    if cs == [] then [] else [cs[0]] + (if |cs| == 1 then [] else gaps[0] + Spaced(cs[1..], gaps[1..]))
  }

  lemma {:induction false} LayoutSkipped(g: seq<int>, rest: seq<int>)
    requires (forall i :: 0 <= i < |g| ==> Layout(g[i])) && (rest != [] ==> !Layout(rest[0]))
    ensures SkipLayout(g + rest) == rest
  {
    if g == [] {
      assert g + rest == rest;
    } else {
      assert (g + rest)[0] == g[0] && (g + rest)[1..] == g[1..] + rest;
      LayoutSkipped(g[1..], rest);
    }
  }

  lemma AfterGap(c: int, d: nat, g: seq<int>, rest: seq<int>, base: nat)
    requires DigitOf(c) == Some(d) && d < base && Gap(g) && rest != [] && DigitOf(rest[0]).Some?
    ensures RadixDigits([c] + (g + rest), base) ==
            match RadixDigits(rest, base) case None => None case Some(ds) => Some([d] + ds)
  {
    var all := [c] + (g + rest);
    assert all[0] == c && all[1..] == g + rest;
    if g == [] {
      assert g + rest == rest;
    } else {
      assert (g + rest)[0] == g[0] && (g + rest)[1..] == g[1..] + rest;
      if g == [32] {
        assert g[1..] + rest == rest;
      } else {
        LayoutSkipped(g[1..], rest);
      }
    }
  }

  /** Digits with gaps between them are read as these digits. */
  lemma {:induction false} SpacedIsRead(cs: seq<int>, ds: seq<nat>, gaps: seq<seq<int>>, base: nat)
    requires SpellsAll(cs, ds) && ValidDigits(ds, base) && ds != []
    requires |gaps| == |cs| && forall i :: 0 <= i < |gaps| ==> Gap(gaps[i])
    ensures RadixDigits(Spaced(cs, gaps), base) == Some(ds)
  {
    assert DigitOf(cs[0]) == Some(ds[0]);
    if |cs| == 1 {
      assert Spaced(cs, gaps) == [cs[0]] && [cs[0]][1..] == [];
      assert ds == [ds[0]];
    } else {
      SpacedIsRead(cs[1..], ds[1..], gaps[1..], base);
      var rest := Spaced(cs[1..], gaps[1..]);
      assert rest[0] == cs[1] && DigitOf(cs[1]) == Some(ds[1]);
      AfterGap(cs[0], ds[0], gaps[0], rest, base);
      assert ds == [ds[0]] + ds[1..];
    }
  }

  lemma {:induction false} LayoutFront(cs: seq<int>) returns (g: seq<int>)
    ensures cs == g + SkipLayout(cs) && forall i :: 0 <= i < |g| ==> Layout(g[i])
  {
    if cs != [] && Layout(cs[0]) {
      var rest := LayoutFront(cs[1..]);
      g := [cs[0]] + rest;
      assert cs == [cs[0]] + cs[1..];
    } else {
      g := [];
    }
  }

  lemma DigitSpelled(c: int)
    requires DigitOf(c).Some?
    ensures Spells(c, DigitOf(c).value)
  {
  }

  lemma ReadOn(c: int, behind: seq<int>, base: nat) returns (rest: seq<int>)
    requires RadixDigits([c] + behind, base).Some? && behind != []
    ensures rest == if behind[0] == 95 then SkipLayout(behind[1..]) else if behind[0] == 32 then behind[1..] else behind
    ensures RadixDigits(rest, base).Some? && rest != []
    ensures DigitOf(c).Some? && RadixDigits([c] + behind, base).value == [DigitOf(c).value] + RadixDigits(rest, base).value
  {
    hide SkipLayout, DigitOf;
    assert ([c] + behind)[1..] == behind;
    rest := if behind[0] == 95 then SkipLayout(behind[1..]) else if behind[0] == 32 then behind[1..] else behind;
  }

  /** The gap behind the first digit of an accepted token, and the rest of the token. */
  lemma FirstGap(cs: seq<int>, base: nat) returns (g: seq<int>, rest: seq<int>)
    requires RadixDigits(cs, base).Some? && |cs| > 1
    ensures Gap(g) && cs == [cs[0]] + (g + rest) && |rest| < |cs| && rest != [] && RadixDigits(rest, base).Some?
    ensures DigitOf(cs[0]).Some? && RadixDigits(cs, base).value == [DigitOf(cs[0]).value] + RadixDigits(rest, base).value
  {
    hide RadixDigits, SkipLayout, DigitOf;
    var behind := cs[1..];
    assert cs == [cs[0]] + behind;
    rest := ReadOn(cs[0], behind, base);
    g := GapOf(behind, rest);
  }

  lemma GapOf(behind: seq<int>, rest: seq<int>) returns (g: seq<int>)
    requires behind != []
    requires rest == if behind[0] == 95 then SkipLayout(behind[1..]) else if behind[0] == 32 then behind[1..] else behind
    ensures Gap(g) && behind == g + rest && |rest| <= |behind|
  {
    hide SkipLayout;
    if behind[0] == 95 {
      var layout := LayoutFront(behind[1..]);
      g := [95] + layout;
    } else if behind[0] == 32 {
      g := [32];
    } else {
      g := [];
    }
  }

  /** And nothing else is accepted: a token that is read is spelled digits with such gaps between them. */
  lemma {:induction false} ReadIsSpaced(token: seq<int>, base: nat) returns (cs: seq<int>, gaps: seq<seq<int>>)
    requires RadixDigits(token, base).Some?
    ensures var ds := RadixDigits(token, base).value;
            && ds != [] && SpellsAll(cs, ds) && |gaps| == |cs| && (forall i :: 0 <= i < |gaps| ==> Gap(gaps[i]))
            && (forall i :: 0 <= i < |ds| ==> ds[i] < base) && token == Spaced(cs, gaps)
    decreases |token|
  {
    DigitSpelled(token[0]);
    if |token| == 1 {
      cs, gaps := token, [[]];
    } else {
      var g, rest := FirstGap(token, base);
      var more, others := ReadIsSpaced(rest, base);
      cs, gaps := [token[0]] + more, [g] + others;
      assert cs[1..] == more && gaps[1..] == others;
      var ds, later := RadixDigits(token, base).value, RadixDigits(rest, base).value;
      assert forall i :: 0 < i < |ds| ==> ds[i] == later[i - 1] && cs[i] == more[i - 1];
    }
  }

  /** A number that is written with a sign, a prefix for its base, and digits in either case with separators between them reads
      as this number if it is a native integer, and as an overflow if it is not. */
  lemma WrittenIsRead(sign: int, base: nat, ds: seq<nat>, s: seq<int>, prefix: seq<int>, cs: seq<int>, gaps: seq<seq<int>>)
    requires (sign == 1 || sign == -1) && ValidDigits(ds, base) && ds != []
    requires s in Signs(sign) && prefix in Prefixes(base) && SpellsAll(cs, ds)
    requires |gaps| == |cs| && forall i :: 0 <= i < |gaps| ==> Gap(gaps[i])
    ensures ReadInteger(s + prefix + Spaced(cs, gaps)) == var v := sign * Magnitude(ds, base); if InRange(v) then Integer(v) else Overflow
  {
    hide RadixDigits, Accumulate, ReadBase, ReadSign, SkipLayout, Magnitude, Prefixes, Signs, Spaced, Gap, Spells;
    var body := Spaced(cs, gaps);
    var unsigned := prefix + body;
    PrefixedBase(prefix, base, body);
    assert s + prefix + body == s + unsigned;
    SignRead(sign, s, unsigned);
    SpacedIsRead(cs, ds, gaps, base);
    ParsesIffFits(ds, base, sign);
  }

  lemma SignRead(sign: int, s: seq<int>, unsigned: seq<int>)
    requires (sign == 1 || sign == -1) && s in Signs(sign) && unsigned != [] && 48 <= unsigned[0] <= 57
    ensures ReadSign(SkipLayout(s + unsigned)) == (sign, unsigned)
  {
    assert s != [] ==> (s + unsigned)[1..] == unsigned;
    assert s == [] ==> s + unsigned == unsigned;
  }

  // ---------- every number ----------

  /** The digits of n. */
  function DigitsOf(n: nat, base: nat): (ds: seq<nat>)
    requires base >= 2
    ensures ds != []
  {
    if n < base then [n]
    else
      Smaller(n, base);
      DigitsOf(n / base, base) + [n % base]
  }

  lemma Smaller(n: nat, base: nat)
    requires 2 <= base <= n
    ensures n / base < n
  {
    var q := n / base;
    Divided(n, base);
    NonNegative(q, base - 2);
    assert q * base == q * (base - 2) + q * 2;
  }

  lemma OneMoreDigit(ds: seq<nat>, d: nat, base: nat)
    requires ValidDigits(ds, base) && d < base
    ensures ValidDigits(ds + [d], base) && Magnitude(ds + [d], base) == Magnitude(ds, base) * base + d
  {
    assert (ds + [d])[..|ds|] == ds;
  }

  lemma {:induction false} DigitsDenote(n: nat, base: nat)
    requires 2 <= base <= 36
    ensures ValidDigits(DigitsOf(n, base), base) && Magnitude(DigitsOf(n, base), base) == n
  {
    hide Magnitude, ValidDigits;
    NoDigits(base);
    if n < base {
      OneMoreDigit([], n, base);
      assert [] + [n] == [n];
    } else {
      Smaller(n, base);
      Divided(n, base);
      DigitsDenote(n / base, base);
      OneMoreDigit(DigitsOf(n / base, base), n % base, base);
    }
  }

  lemma NoDigits(base: nat)
    requires 2 <= base <= 36
    ensures ValidDigits([], base) && Magnitude([], base) == 0
  {
  }

  lemma Divided(n: nat, base: nat)
    requires base > 0
    ensures (n / base) * base + n % base == n
  {
  }

  /** So every native integer can be written in every base, in letters of either case and with separators, and is read back. */
  lemma EveryIntegerIsRead(v: int, base: nat, prefix: seq<int>, cs: seq<int>, gaps: seq<seq<int>>)
    requires InRange(v) && 2 <= base <= 36 && prefix in Prefixes(base)
    requires SpellsAll(cs, DigitsOf(if v < 0 then -v else v, base))
    requires |gaps| == |cs| && forall i :: 0 <= i < |gaps| ==> Gap(gaps[i])
    ensures ReadInteger((if v < 0 then [45] else []) + prefix + Spaced(cs, gaps)) == Integer(v)
  {
    var n: nat := if v < 0 then -v else v;
    DigitsDenote(n, base);
    WrittenIsRead(if v < 0 then -1 else 1, base, DigitsOf(n, base), if v < 0 then [45] else [], prefix, cs, gaps);
  }
}
