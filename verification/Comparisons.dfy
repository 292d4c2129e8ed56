/** Which lines the ARM64 repair takes for comparisons. The recogniser goes through a line once, from left to right; here a
    comparison is written down as its parts with blanks between them, and the two are shown to agree in both directions.
    The same is done for the constants that a comparison can hold. */
module Comparisons {
  import opened Terms
  import opened Arm64
  import Decimal

  predicate AllBlank(s: string) {
    forall i :: 0 <= i < |s| ==> Blank(s[i])
  }

  predicate Digits(s: string) {
    s != "" && forall i :: 0 <= i < |s| ==> Decimal.IsDigit(s[i])
  }

  /** A comparison of x0 with an immediate, with its blanks. */
  function Written(a: string, b: string, c: string, negative: bool, ds: string, d: string): string {
    a + "cmp" + b + "x0," + c + "#" + (if negative then "-" else "") + ds + d
  }

  predicate WellWritten(a: string, b: string, c: string, ds: string, d: string) {
    AllBlank(a) && AllBlank(b) && b != "" && AllBlank(c) && Digits(ds) && AllBlank(d)
  }

  lemma {:induction false} BlanksSkipped(a: string, rest: string)
    requires AllBlank(a) && (rest != "" ==> !Blank(rest[0]))
    ensures SkipBlanks(a + rest) == rest
  {
    if a == "" {
      assert a + rest == rest;
    } else {
      assert (a + rest)[0] == a[0] && (a + rest)[1..] == a[1..] + rest;
      BlanksSkipped(a[1..], rest);
    }
  }

  lemma {:induction false} DigitsTaken(ds: string, rest: string)
    requires forall i :: 0 <= i < |ds| ==> Decimal.IsDigit(ds[i])
    requires rest != "" ==> !Decimal.IsDigit(rest[0])
    ensures TakeDigits(ds + rest) == (ds, rest)
  {
    if ds == "" {
      assert ds + rest == rest;
    } else {
      assert (ds + rest)[0] == ds[0] && (ds + rest)[1..] == ds[1..] + rest;
      DigitsTaken(ds[1..], rest);
      assert [ds[0]] + ds[1..] == ds;
    }
  }

  /** The number behind the sharp, and nothing but blanks behind it. */
  function Number(c: string): Option<int> {
    var negative := c != [] && c[0] == '-';
    var (ds, rest) := TakeDigits(if negative then c[1..] else c);
    if ds == [] || SkipBlanks(rest) != [] then None
    else Some(if negative then -Decimal.Value(ds) else Decimal.Value(ds))
  }

  lemma NumberRead(negative: bool, ds: string, d: string)
    requires Digits(ds) && AllBlank(d)
    ensures Number((if negative then "-" else "") + ds + d) == Some(if negative then -Decimal.Value(ds) else Decimal.Value(ds))
  {
    var text := (if negative then "-" else "") + ds + d;
    assert negative ==> text[0] == '-' && text[1..] == ds + d;
    assert !negative ==> text == ds + d && Decimal.IsDigit(text[0]);
    DigitsTaken(ds, d);
    BlanksSkipped(d, "");
    assert d + "" == d;
  }

  lemma ComparedBy(line: string)
    ensures Compared(line) ==
            match After(SkipBlanks(line), "cmp")
            case None => None
            case Some(a) =>
              if a == [] || !Blank(a[0]) then None else
              match After(SkipBlanks(a), "x0,")
              case None => None
              case Some(b) => (match After(SkipBlanks(b), "#") case None => None case Some(c) => Number(c))
  {
    hide SkipBlanks, TakeDigits, After;
  }

  lemma Begun(a: string, prefix: string, rest: string)
    requires AllBlank(a) && prefix != "" && !Blank(prefix[0])
    ensures After(SkipBlanks(a + (prefix + rest)), prefix) == Some(rest)
  {
    assert (prefix + rest)[0] == prefix[0];
    BlanksSkipped(a, prefix + rest);
    AfterIs(prefix, rest);
  }

  /** Every comparison of x0 with an immediate is recognised, with its constant. */
  lemma WrittenIsCompared(a: string, b: string, c: string, negative: bool, ds: string, d: string)
    requires WellWritten(a, b, c, ds, d)
    ensures Compared(Written(a, b, c, negative, ds, d)) == Some(if negative then -Decimal.Value(ds) else Decimal.Value(ds))
  {
    hide SkipBlanks, TakeDigits, After, Number;
    var number := (if negative then "-" else "") + ds + d;
    var third := c + ("#" + number);
    var second := b + ("x0," + third);
    assert Written(a, b, c, negative, ds, d) == a + ("cmp" + second);
    assert second[0] == b[0];
    Begun(a, "cmp", second);
    Begun(b, "x0,", third);
    Begun(c, "#", number);
    NumberRead(negative, ds, d);
    ComparedBy(a + ("cmp" + second));
  }

  lemma NoBlanks()
    ensures AllBlank("")
  {
  }

  lemma OneMoreBlank(b: char, a: string, rest: string)
    requires Blank(b) && AllBlank(a)
    ensures AllBlank([b] + a) && [b] + (a + rest) == [b] + a + rest
  {
  }

  lemma {:induction false} Blanks(s: string) returns (a: string)
    ensures AllBlank(a) && s == a + SkipBlanks(s)
  {
    hide AllBlank;
    NoBlanks();
    if s != "" && Blank(s[0]) {
      var rest := Blanks(s[1..]);
      a := [s[0]] + rest;
      OneMoreBlank(s[0], rest, SkipBlanks(s[1..]));
      assert s == [s[0]] + s[1..] && SkipBlanks(s) == SkipBlanks(s[1..]);
    } else {
      a := "";
      assert "" + s == s;
    }
  }

  lemma {:induction false} TakenDigits(s: string)
    ensures var (ds, rest) := TakeDigits(s); s == ds + rest && forall i :: 0 <= i < |ds| ==> Decimal.IsDigit(ds[i])
  {
    if s != [] && Decimal.IsDigit(s[0]) {
      TakenDigits(s[1..]);
      assert s == [s[0]] + s[1..];
    }
  }

  lemma Behind(s: string, prefix: string) returns (a: string, rest: string)
    requires After(SkipBlanks(s), prefix).Some?
    ensures AllBlank(a) && s == a + (prefix + rest) && After(SkipBlanks(s), prefix) == Some(rest)
  {
    a := Blanks(s);
    rest := After(SkipBlanks(s), prefix).value;
  }

  /** And nothing else is: a line that is recognised is such a comparison. */
  lemma ComparedIsWritten(line: string) returns (a: string, b: string, c: string, negative: bool, ds: string, d: string)
    requires Compared(line).Some?
    ensures WellWritten(a, b, c, ds, d) && line == Written(a, b, c, negative, ds, d)
  {
    hide SkipBlanks, After, Compared, Written;
    ComparedBy(line);
    var second, third, number;
    a, second := Behind(line, "cmp");
    b, third := Behind(second, "x0,");
    c, number := Behind(third, "#");
    BlankFront(b, third, second);
    negative := number != [] && number[0] == '-';
    var digits := if negative then number[1..] else number;
    TakenDigits(digits);
    ds := TakeDigits(digits).0;
    d := TakeDigits(digits).1;
    OnlyBlanks(d);
    assert number == (if negative then "-" else "") + ds + d;
    Assembled(a, b, c, negative, ds, d);
  }

  lemma Assembled(a: string, b: string, c: string, negative: bool, ds: string, d: string)
    ensures a + ("cmp" + (b + ("x0," + (c + ("#" + ((if negative then "-" else "") + ds + d)))))) == Written(a, b, c, negative, ds, d)
  {
  }

  lemma BlankFront(b: string, third: string, second: string)
    requires second == b + ("x0," + third) && second != "" && Blank(second[0])
    ensures b != ""
  {
    assert second[|b|] == 'x';
  }

  lemma OnlyBlanks(d: string)
    requires SkipBlanks(d) == []
    ensures AllBlank(d)
  {
    var a := Blanks(d);
    assert d == a;
  }

  /** What a comparison can hold: twelve bits, as they are or twelve places to the left (section C6.2 of the Arm Architecture
      Reference Manual). */
  lemma EncodableExactly(v: int)
    ensures Encodable(v) <==> exists imm: nat :: imm < 4096 && (v == imm || v == imm * 4096)
  {
    if Encodable(v) {
      var imm: nat := if v <= 4095 then v else v / 4096;
      assert imm < 4096 && (v == imm || v == imm * 4096);
    }
    if imm: nat :| imm < 4096 && (v == imm || v == imm * 4096) {
      assert v > 4095 ==> v % 4096 == 0;
    }
  }
}
