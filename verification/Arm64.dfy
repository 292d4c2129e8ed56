/** The build-time repair of generated ARM64 comparisons (section C6.2 of the Arm Architecture Reference Manual). */
module Arm64 {
  import opened Terms
  import Decimal

  const TWO64: int := 0x1_0000_0000_0000_0000

  /** An unsigned 12-bit immediate, optionally shifted left by 12. */
  predicate Encodable(v: int) {
    0 <= v <= 4095 || (0 <= v <= 4095 * 4096 && v % 4096 == 0)
  }

  // ---------- recognising a comparison ----------

  predicate Blank(c: char) {
    c == ' ' || c == '\t'
  }

  function SkipBlanks(s: string): (r: string)
    ensures |r| <= |s| && (r != [] ==> !Blank(r[0]))
  {
    if s != [] && Blank(s[0]) then SkipBlanks(s[1..]) else s
  }

  function After(s: string, prefix: string): Option<string> {
    if |s| >= |prefix| && s[..|prefix|] == prefix then Some(s[|prefix|..]) else None
  }

  /** The digits at the front and what follows them. */
  function TakeDigits(s: string): (string, string) {
    if s != [] && Decimal.IsDigit(s[0]) then
      var (ds, rest) := TakeDigits(s[1..]);
      ([s[0]] + ds, rest)
    else ([], s)
  }

  /** The constant of a line that compares x0 with an immediate. */
  function Compared(line: string): Option<int> {
    match After(SkipBlanks(line), "cmp")
    case None => None
    case Some(a) =>
      if a == [] || !Blank(a[0]) then None else
      match After(SkipBlanks(a), "x0,")
      case None => None
      case Some(b) =>
        match After(SkipBlanks(b), "#")
        case None => None
        case Some(c) =>
          var negative := c != [] && c[0] == '-';
          var (ds, rest) := TakeDigits(if negative then c[1..] else c);
          if ds == [] || SkipBlanks(rest) != [] then None
          else Some(if negative then -Decimal.Value(ds) else Decimal.Value(ds))
  }

  lemma AfterIs(prefix: string, s: string)
    ensures After(prefix + s, prefix) == Some(s)
  {
    assert (prefix + s)[..|prefix|] == prefix && (prefix + s)[|prefix|..] == s;
  }

  lemma OneBlank(s: string)
    requires s != "" && !Blank(s[0])
    ensures SkipBlanks(s) == s && SkipBlanks(" " + s) == s
  {
    assert (" " + s)[1..] == s;
  }

  // ---------- the replacement ----------

  datatype Instr = Movz(imm: nat) | Movk(imm: nat, shift: nat) | CompareRegister

  function Show(i: Instr): string {
    match i
    case Movz(imm) => "\tmovz x7, #" + Decimal.Show(imm)
    case Movk(imm, shift) => "\tmovk x7, #" + Decimal.Show(imm) + ", lsl #" + Decimal.Show(shift)
    case CompareRegister => "\tcmp x0, x7"
  }

  function Part(bits: nat, shift: nat): (p: nat)
    requires shift in {0, 16, 32, 48}
    ensures p < 0x1_0000
  {
    (if shift == 0 then bits else if shift == 16 then bits / 0x1_0000 else if shift == 32 then bits / 0x1_0000_0000
     else bits / 0x1_0000_0000_0000) % 0x1_0000
  }

  function Keep(bits: nat, shift: nat): seq<Instr>
    requires shift in {16, 32, 48}
  {
    if Part(bits, shift) != 0 then [Movk(Part(bits, shift), shift)] else []
  }

  function Load(v: int): seq<Instr> {
    var bits: nat := v % TWO64;
    [Movz(Part(bits, 0))] + Keep(bits, 16) + Keep(bits, 32) + Keep(bits, 48) + [CompareRegister]
  }

  function ShowAll(prog: seq<Instr>): seq<string> {
    if prog == [] then [] else [Show(prog[0])] + ShowAll(prog[1..])
  }

  function FixLine(line: string): seq<string> {
    var v := Compared(line);
    if v.None? || Encodable(v.value) then [line] else ShowAll(Load(v.value))
  }

  function FixAll(lines: seq<string>): seq<string> {
    if lines == [] then [] else FixLine(lines[0]) + FixAll(lines[1..])
  }

  function Replaced(lines: seq<string>): nat {
    if lines == [] then 0
    else (if Compared(lines[0]).Some? && !Encodable(Compared(lines[0]).value) then 1 else 0) + Replaced(lines[1..])
  }

  // ---------- what the replacement computes ----------

  /** The 64-bit scratch register and, once executed, the operand of the comparison. */
  datatype Machine = Machine(x7: int, compared: Option<int>)

  function Exec(m: Machine, i: Instr): Machine {
    match i
    case Movz(imm) => m.(x7 := imm)
    case Movk(imm, shift) =>
      if shift == 16 then m.(x7 := m.x7 - (m.x7 / 0x1_0000) % 0x1_0000 * 0x1_0000 + imm * 0x1_0000)
      else if shift == 32 then m.(x7 := m.x7 - (m.x7 / 0x1_0000_0000) % 0x1_0000 * 0x1_0000_0000 + imm * 0x1_0000_0000)
      else m.(x7 := m.x7 - (m.x7 / 0x1_0000_0000_0000) % 0x1_0000 * 0x1_0000_0000_0000 + imm * 0x1_0000_0000_0000)
    case CompareRegister => m.(compared := Some(m.x7))
  }

  function ExecAll(m: Machine, prog: seq<Instr>): Machine
    decreases |prog|
  {
    if prog == [] then m else ExecAll(Exec(m, prog[0]), prog[1..])
  }

  lemma {:induction false} ExecConcat(m: Machine, a: seq<Instr>, b: seq<Instr>)
    ensures ExecAll(m, a + b) == ExecAll(ExecAll(m, a), b)
    decreases |a|
  {
    if a == [] {
      assert a + b == b;
    } else {
      assert (a + b)[1..] == a[1..] + b;
      ExecConcat(Exec(m, a[0]), a[1..], b);
    }
  }

  lemma ExecOne(m: Machine, i: Instr)
    ensures ExecAll(m, [i]) == Exec(m, i)
  {
  }

  function Unit(shift: nat): nat {
    if shift == 16 then 0x1_0000 else if shift == 32 then 0x1_0000_0000 else 0x1_0000_0000_0000
  }

  lemma MovkAdds(m: Machine, imm: nat, shift: nat)
    requires shift in {16, 32, 48} && 0 <= m.x7 < Unit(shift)
    ensures Exec(m, Movk(imm, shift)) == m.(x7 := m.x7 + imm * Unit(shift))
  {
    if shift == 16 {
      assert m.x7 / 0x1_0000 == 0;
    } else if shift == 32 {
      assert m.x7 / 0x1_0000_0000 == 0;
    } else {
      assert m.x7 / 0x1_0000_0000_0000 == 0;
    }
  }

  /** What a part of the constant is worth. */
  function Weight(bits: nat, shift: nat): nat
    requires shift in {16, 32, 48}
  {
    Part(bits, shift) * Unit(shift)
  }

  /** A movk above everything loaded so far adds its part; leaving it out adds zero. */
  lemma KeepAdds(m: Machine, bits: nat, shift: nat)
    requires shift in {16, 32, 48} && 0 <= m.x7 < Unit(shift)
    ensures ExecAll(m, Keep(bits, shift)) == m.(x7 := m.x7 + Weight(bits, shift))
  {
    var p := Part(bits, shift);
    if p != 0 {
      ExecOne(m, Movk(p, shift));
      MovkAdds(m, p, shift);
    }
  }

  lemma PartsSum(bits: nat)
    requires bits < TWO64
    ensures Part(bits, 0) + Part(bits, 16) * 0x1_0000 + Part(bits, 32) * 0x1_0000_0000 + Part(bits, 48) * 0x1_0000_0000_0000 == bits
  {
    var a := bits / 0x1_0000;
    var b := a / 0x1_0000;
    var c := b / 0x1_0000;
    assert b == bits / 0x1_0000_0000 && c == bits / 0x1_0000_0000_0000;
    assert c < 0x1_0000;
  }

  /** Whatever the scratch register held, the replacement compares x0 with exactly the 64-bit two's-complement
      representation of the constant. */
  lemma LoadsConstant(v: int, m: Machine)
    ensures ExecAll(m, Load(v)) == Machine(v % TWO64, Some(v % TWO64))
  {
    hide ExecAll, Keep, Part, Weight;
    var bits: nat := v % TWO64;
    var p0 := [Movz(Part(bits, 0))];
    var p1 := p0 + Keep(bits, 16);
    var p2 := p1 + Keep(bits, 32);
    var p3 := p2 + Keep(bits, 48);
    PartsFit(bits);
    ExecOne(m, Movz(Part(bits, 0)));
    LoadsPart(m, p0, bits, 16, Part(bits, 0));
    LoadsPart(m, p1, bits, 32, Part(bits, 0) + Weight(bits, 16));
    LoadsPart(m, p2, bits, 48, Part(bits, 0) + Weight(bits, 16) + Weight(bits, 32));
    ExecConcat(m, p3, [CompareRegister]);
    ExecOne(m.(x7 := bits), CompareRegister);
  }

  lemma PartsFit(bits: nat)
    requires bits < TWO64
    ensures Part(bits, 0) < Unit(16) && Part(bits, 0) + Weight(bits, 16) < Unit(32)
    ensures Part(bits, 0) + Weight(bits, 16) + Weight(bits, 32) < Unit(48)
    ensures Part(bits, 0) + Weight(bits, 16) + Weight(bits, 32) + Weight(bits, 48) == bits
  {
    PartsSum(bits);
  }

  /** One more part on top of a program that has loaded x. */
  lemma LoadsPart(m: Machine, prog: seq<Instr>, bits: nat, shift: nat, x: int)
    requires shift in {16, 32, 48} && 0 <= x < Unit(shift) && ExecAll(m, prog) == m.(x7 := x)
    ensures ExecAll(m, prog + Keep(bits, shift)) == m.(x7 := x + Weight(bits, shift))
  {
    hide ExecAll, Keep, Part, Weight;
    ExecThen(m, prog, Keep(bits, shift), m.(x7 := x));
    KeepOn(m, bits, shift, x);
  }

  lemma ExecThen(m: Machine, a: seq<Instr>, b: seq<Instr>, after: Machine)
    requires ExecAll(m, a) == after
    ensures ExecAll(m, a + b) == ExecAll(after, b)
  {
    ExecConcat(m, a, b);
  }

  lemma KeepOn(m: Machine, bits: nat, shift: nat, x: int)
    requires shift in {16, 32, 48} && 0 <= x < Unit(shift)
    ensures ExecAll(m.(x7 := x), Keep(bits, shift)) == m.(x7 := x + Weight(bits, shift))
  {
    hide ExecAll, Keep, Part, Weight;
    KeepAdds(m.(x7 := x), bits, shift);
  }

  // ---------- the text as a whole ----------

  lemma MoveIsNotCompared(line: string)
    requires |line| >= 2 && line[0] == '\t' && line[1] == 'm'
    ensures Compared(line).None?
  {
    assert SkipBlanks(line) == SkipBlanks(line[1..]) == line[1..];
  }

  lemma RegistersAreNotCompared()
    ensures Compared(Show(CompareRegister)).None?
  {
    var b := "x7";
    var a := "x0," + (" " + b);
    var s := "cmp" + (" " + a);
    assert Show(CompareRegister) == "\t" + s && ("\t" + s)[1..] == s;
    OneBlank(s);
    OneBlank(a);
    OneBlank(b);
    AfterIs("cmp", " " + a);
    AfterIs("x0,", " " + b);
    assert After(b, "#").None? by {
      assert b[..1][0] != '#';
    }
  }

  /** No instruction that the repair emits is itself recognised as a comparison with an immediate. */
  lemma EmittedIsNotCompared(i: Instr)
    ensures Compared(Show(i)).None?
  {
    match i
    case CompareRegister => RegistersAreNotCompared();
    case _ => MoveIsNotCompared(Show(i));
  }

  lemma {:induction false} EmittedUnchanged(prog: seq<Instr>)
    ensures FixAll(ShowAll(prog)) == ShowAll(prog)
  {
    if prog != [] {
      EmittedIsNotCompared(prog[0]);
      EmittedUnchanged(prog[1..]);
      assert ShowAll(prog)[1..] == ShowAll(prog[1..]);
    }
  }

  lemma {:induction false} FixConcat(a: seq<string>, b: seq<string>)
    ensures FixAll(a + b) == FixAll(a) + FixAll(b)
  {
    if a == [] {
      assert a + b == b;
    } else {
      assert (a + b)[1..] == a[1..] + b;
      FixConcat(a[1..], b);
    }
  }

  lemma FixLineTwice(line: string)
    ensures FixAll(FixLine(line)) == FixLine(line)
  {
    var v := Compared(line);
    if v.Some? && !Encodable(v.value) {
      EmittedUnchanged(Load(v.value));
    } else {
      assert FixAll([line]) == FixLine(line) + FixAll([]);
    }
  }

  /** Repairing twice is repairing once. */
  lemma {:induction false} Idempotent(lines: seq<string>)
    ensures FixAll(FixAll(lines)) == FixAll(lines)
  {
    if lines != [] {
      FixLineTwice(lines[0]);
      Idempotent(lines[1..]);
      FixConcat(FixLine(lines[0]), FixAll(lines[1..]));
    }
  }

  /** Afterwards every remaining comparison with an immediate is encodable. */
  lemma {:induction false} OnlyEncodableLeft(lines: seq<string>)
    ensures forall l :: l in FixAll(lines) && Compared(l).Some? ==> Encodable(Compared(l).value)
  {
    if lines != [] {
      OnlyEncodableLeft(lines[1..]);
      var v := Compared(lines[0]);
      if v.Some? && !Encodable(v.value) {
        EmittedNotCompared(Load(v.value));
      }
    }
  }

  lemma {:induction false} EmittedNotCompared(prog: seq<Instr>)
    ensures forall l :: l in ShowAll(prog) ==> Compared(l).None?
  {
    if prog != [] {
      EmittedIsNotCompared(prog[0]);
      EmittedNotCompared(prog[1..]);
    }
  }

  /** The line is a comparison with a constant that the instruction cannot encode. */
  predicate Unencodable(line: string) {
    Compared(line).Some? && !Encodable(Compared(line).value)
  }

  /** What each line becomes. */
  function Blocks(lines: seq<string>): (r: seq<seq<string>>)
    ensures |r| == |lines| && forall i :: 0 <= i < |lines| ==> r[i] == FixLine(lines[i])
  {
    if lines == [] then [] else [FixLine(lines[0])] + Blocks(lines[1..])
  }

  function Concat(blocks: seq<seq<string>>): seq<string> {
    if blocks == [] then [] else blocks[0] + Concat(blocks[1..])
  }

  /** Where block i begins in the concatenation. */
  function Position(blocks: seq<seq<string>>, i: nat): nat
    requires i <= |blocks|
  {
    if i == 0 then 0 else |blocks[0]| + Position(blocks[1..], i - 1)
  }

  lemma {:induction false} PieceOf(blocks: seq<seq<string>>, i: nat)
    requires i < |blocks|
    ensures Position(blocks, i + 1) == Position(blocks, i) + |blocks[i]| <= |Concat(blocks)|
    ensures Concat(blocks)[Position(blocks, i)..Position(blocks, i + 1)] == blocks[i]
  {
    var first, rest := blocks[0], blocks[1..];
    if i > 0 {
      PieceOf(rest, i - 1);
      var p, q := Position(rest, i - 1), Position(rest, i);
      assert (first + Concat(rest))[|first| + p..|first| + q] == Concat(rest)[p..q];
    }
  }

  lemma {:induction false} PositionsEnd(blocks: seq<seq<string>>)
    ensures Position(blocks, |blocks|) == |Concat(blocks)|
  {
    if blocks != [] {
      PositionsEnd(blocks[1..]);
    }
  }

  lemma {:induction false} FixAllConcat(lines: seq<string>)
    ensures FixAll(lines) == Concat(Blocks(lines))
  {
    if lines != [] {
      FixAllConcat(lines[1..]);
      assert Blocks(lines)[1..] == Blocks(lines[1..]);
    }
  }

  /** Between its position and the next one the result has line i, or the block that replaces it. */
  predicate PieceAt(lines: seq<string>, i: nat)
    requires i < |lines|
  {
    var p, q, line := Position(Blocks(lines), i), Position(Blocks(lines), i + 1), lines[i];
    p < q <= |FixAll(lines)| &&
    FixAll(lines)[p..q] == if Unencodable(line) then ShowAll(Load(Compared(line).value)) else [line]
  }

  /** The result is the lines in order, each at an increasing position, with every unencodable comparison replaced by its
      own block and every other line kept; the pieces are adjacent and there is nothing else. */
  lemma OthersPreserved(lines: seq<string>)
    ensures Position(Blocks(lines), 0) == 0 && Position(Blocks(lines), |lines|) == |FixAll(lines)|
    ensures forall i :: 0 <= i < |lines| ==> PieceAt(lines, i)
  {
    FixAllConcat(lines);
    PositionsEnd(Blocks(lines));
    forall i | 0 <= i < |lines| ensures PieceAt(lines, i) {
      PieceOf(Blocks(lines), i);
      NotEmpty(lines[i]);
    }
  }

  lemma NotEmpty(line: string)
    ensures |FixLine(line)| >= 1
    ensures FixLine(line) == if Unencodable(line) then ShowAll(Load(Compared(line).value)) else [line]
  {
    if Unencodable(line) {
      assert Load(Compared(line).value) != [];
    }
  }

  /** The result so far and what is still to come. */
  predicate Fixed(lines: seq<string>, i: nat, out: seq<string>, count: nat)
    requires i <= |lines|
  {
    out + FixAll(lines[i..]) == FixAll(lines) && count + Replaced(lines[i..]) == Replaced(lines)
  }

  lemma FixStep(lines: seq<string>, i: nat, out: seq<string>, count: nat)
    requires i < |lines| && Fixed(lines, i, out, count)
    ensures Fixed(lines, i + 1, out + FixLine(lines[i]), count + if Unencodable(lines[i]) then 1 else 0)
  {
    assert lines[i..][1..] == lines[i + 1..];
    Associate(out, FixLine(lines[i]), FixAll(lines[i + 1..]));
  }

  lemma Associate(a: seq<string>, b: seq<string>, c: seq<string>)
    ensures a + (b + c) == a + b + c
  {
  }

  lemma NothingToFix()
    ensures FixAll([]) == [] && Replaced([]) == 0
  {
  }

  lemma FixStarts(lines: seq<string>)
    ensures Fixed(lines, 0, [], 0)
  {
    hide FixAll, Replaced;
    assert lines[0..] == lines;
    assert [] + FixAll(lines) == FixAll(lines);
  }

  lemma FixEnds(lines: seq<string>, out: seq<string>, count: nat)
    requires Fixed(lines, |lines|, out, count)
    ensures out == FixAll(lines) && count == Replaced(lines)
  {
    hide FixAll, Replaced;
    NothingToFix();
    assert lines[|lines|..] == [];
    assert out + [] == out;
  }

  /** `fix_arm64_comparisons` on the lines of the assembly text. */
  method Fix(lines: seq<string>) returns (out: seq<string>, count: nat)
    ensures out == FixAll(lines) && count == Replaced(lines)
  {
    hide FixAll, FixLine, Replaced, Fixed;
    out, count := [], 0;
    var i := 0;
    FixStarts(lines);
    while i < |lines|
      invariant i <= |lines| && Fixed(lines, i, out, count)
    {
      FixStep(lines, i, out, count);
      if Unencodable(lines[i]) {
        count := count + 1;
      }
      out := out + FixLine(lines[i]);
      i := i + 1;
    }
    FixEnds(lines, out, count);
  }

  // ---------- the file ----------

  /** Reading in text mode: a carriage return, with the newline after it if there is one, becomes a newline. */
  function ReadText(text: string): string
    decreases |text|
  {
    if text == "" then ""
    else if text[0] == '\r' then "\n" + ReadText(text[if |text| > 1 && text[1] == '\n' then 2 else 1..])
    else [text[0]] + ReadText(text[1..])
  }

  /** The lines of a text; there is one more than there are newlines. */
  function Split(text: string): (lines: seq<string>)
    ensures lines != []
  {
    if text == "" then [""] else
    var rest := Split(text[1..]);
    if text[0] == '\n' then [""] + rest else [[text[0]] + rest[0]] + rest[1..]
  }

  function Join(lines: seq<string>): string {
    if lines == [] then "" else if |lines| == 1 then lines[0] else lines[0] + "\n" + Join(lines[1..])
  }

  /** The file after the repair. */
  function Repaired(text: string): string {
    Join(FixAll(Split(ReadText(text))))
  }

  /** What the file should be: its own lines, with the unencodable comparisons replaced. */
  function InPlace(text: string): string {
    Join(FixAll(Split(text)))
  }

  predicate OneLine(line: string) {
    '\n' !in line
  }

  lemma {:induction false} SplitLines(text: string)
    ensures forall l :: l in Split(text) ==> OneLine(l)
    ensures Join(Split(text)) == text
  {
    if text != "" {
      SplitLines(text[1..]);
      var rest := Split(text[1..]);
      if text[0] == '\n' {
        assert Split(text)[1..] == rest;
      } else {
        assert Split(text)[1..] == rest[1..] && OneLine(rest[0]);
      }
    }
  }

  lemma {:induction false} SplitFirst(line: string, rest: string)
    requires OneLine(line)
    ensures Split(line) == [line]
    ensures Split(line + "\n" + rest) == [line] + Split(rest)
  {
    var text := line + "\n" + rest;
    if line == "" {
      assert text == "\n" + rest && text[1..] == rest;
    } else {
      var tail := line[1..];
      SplitFirst(tail, rest);
      assert text[0] == line[0] && text[1..] == tail + "\n" + rest && [line[0]] + tail == line;
      assert ([tail] + Split(rest))[1..] == Split(rest) && [tail][1..] == [];
      assert Split(line) == [[line[0]] + tail] + [];
      assert Split(text) == [[line[0]] + tail] + Split(rest);
    }
  }

  lemma {:induction false} SplitJoin(lines: seq<string>)
    requires lines != [] && forall l :: l in lines ==> OneLine(l)
    ensures Split(Join(lines)) == lines
  {
    if |lines| == 1 {
      SplitFirst(lines[0], "");
    } else {
      SplitJoin(lines[1..]);
      SplitFirst(lines[0], Join(lines[1..]));
    }
  }

  /** `fix_arm64_comparisons` on the text of the file. */
  method Repair(text: string) returns (repaired: string, count: nat)
    ensures repaired == Repaired(text) && count == Replaced(Split(ReadText(text)))
  {
    var lines;
    lines, count := Fix(Split(ReadText(text)));
    repaired := Join(lines);
  }

  // ---------- carriage returns ----------

  lemma {:induction false} ReadPlain(text: string)
    ensures '\r' !in ReadText(text)
    ensures '\r' !in text ==> ReadText(text) == text
    decreases |text|
  {
    if text != "" {
      ReadPlain(text[if text[0] == '\r' && |text| > 1 && text[1] == '\n' then 2 else 1..]);
    }
  }

  lemma {:induction false} JoinHas(lines: seq<string>, c: char)
    requires c != '\n'
    ensures c in Join(lines) <==> exists l :: l in lines && c in l
  {
    if |lines| > 1 {
      JoinHas(lines[1..], c);
    }
  }

  predicate Plain(line: string) {
    '\n' !in line && '\r' !in line
  }

  lemma {:induction false} DigitsPlain(s: string)
    ensures var (ds, rest) := TakeDigits(s); Plain(ds) && s == ds + rest
  {
    if s != [] && Decimal.IsDigit(s[0]) {
      DigitsPlain(s[1..]);
    }
  }

  lemma {:induction false} BlanksPlain(s: string)
    ensures Plain(s) <==> Plain(SkipBlanks(s))
  {
    if s != [] && Blank(s[0]) {
      BlanksPlain(s[1..]);
    }
  }

  lemma AfterPlain(s: string, prefix: string)
    requires After(s, prefix).Some? && Plain(prefix)
    ensures Plain(s) <==> Plain(After(s, prefix).value)
  {
    assert s == prefix + s[|prefix|..];
  }

  /** A comparison has nothing on its line but itself. */
  lemma ComparedPlain(line: string)
    requires Compared(line).Some?
    ensures Plain(line)
  {
    var a := After(SkipBlanks(line), "cmp").value;
    var b := After(SkipBlanks(a), "x0,").value;
    var c := After(SkipBlanks(b), "#").value;
    var negative := c != [] && c[0] == '-';
    var number := if negative then c[1..] else c;
    DigitsPlain(number);
    BlanksPlain(TakeDigits(number).1);
    assert Plain(number) && Plain(c) by {
      assert negative ==> c == "-" + number;
    }
    BlanksPlain(line);
    AfterPlain(SkipBlanks(line), "cmp");
    BlanksPlain(a);
    AfterPlain(SkipBlanks(a), "x0,");
    BlanksPlain(b);
    AfterPlain(SkipBlanks(b), "#");
  }

  lemma NumberPlain(n: nat)
    ensures Plain(Decimal.Show(n))
  {
  }

  lemma {:induction false} EmittedPlain(prog: seq<Instr>)
    ensures forall l :: l in ShowAll(prog) ==> Plain(l)
  {
    if prog != [] {
      EmittedPlain(prog[1..]);
      match prog[0]
      case Movz(imm) => NumberPlain(imm);
      case Movk(imm, shift) =>
        NumberPlain(imm);
        NumberPlain(shift);
      case CompareRegister =>
    }
  }

  /** The repair adds no carriage return and no newline within a line, and it takes none away. */
  lemma {:induction false} FixKeepsReturns(lines: seq<string>)
    requires forall l :: l in lines ==> OneLine(l)
    ensures forall l :: l in FixAll(lines) ==> OneLine(l)
    ensures (exists l :: l in FixAll(lines) && '\r' in l) <==> (exists l :: l in lines && '\r' in l)
    ensures lines != [] ==> FixAll(lines) != []
  {
    if lines != [] {
      FixKeepsReturns(lines[1..]);
      NotEmpty(lines[0]);
      if Unencodable(lines[0]) {
        EmittedPlain(Load(Compared(lines[0]).value));
        ComparedPlain(lines[0]);
      }
    }
  }

  lemma RepairedLines(text: string)
    ensures Split(Repaired(text)) == FixAll(Split(ReadText(text)))
    ensures '\r' !in Repaired(text)
    ensures '\r' in InPlace(text) <==> '\r' in text
  {
    var read := Split(ReadText(text));
    ReadPlain(text);
    SplitLines(ReadText(text));
    SplitLines(text);
    FixKeepsReturns(read);
    FixKeepsReturns(Split(text));
    SplitJoin(FixAll(read));
    JoinHas(read, '\r');
    JoinHas(FixAll(read), '\r');
    JoinHas(Split(text), '\r');
    JoinHas(FixAll(Split(text)), '\r');
  }

  /** The repair changes nothing but the unencodable comparisons, if and only if the file has no carriage return. */
  lemma BytesPreserved(text: string)
    ensures Repaired(text) == InPlace(text) <==> '\r' !in text
  {
    ReadPlain(text);
    RepairedLines(text);
  }

  /** Repairing a file twice is repairing it once. */
  lemma RepairedOnce(text: string)
    ensures Repaired(Repaired(text)) == Repaired(text)
  {
    RepairedLines(text);
    ReadPlain(Repaired(text));
    Idempotent(Split(ReadText(text)));
  }

  /** In the repaired file every comparison of x0 with an immediate is encodable. */
  lemma RepairedIsEncodable(text: string)
    ensures forall l :: l in Split(Repaired(text)) && Compared(l).Some? ==> Encodable(Compared(l).value)
  {
    RepairedLines(text);
    OnlyEncodableLeft(Split(ReadText(text)));
  }

  // ---------- a file that is changed elsewhere ----------

  lemma {:induction false} ReadReturn(a: string, b: string)
    requires '\r' !in a && '\r' !in b && (b == "" || b[0] != '\n')
    ensures ReadText(a + "\r" + b) == a + "\n" + b
  {
    var text := a + "\r" + b;
    if a == "" {
      ReadPlain(b);
      assert text[1..] == b;
    } else {
      var tail := a[1..];
      ReadReturn(tail, b);
      assert text[0] == a[0] && text[1..] == tail + "\r" + b;
      ReadOther(text);
      assert [a[0]] + (tail + "\n" + b) == [a[0]] + tail + "\n" + b && [a[0]] + tail == a;
    }
  }

  lemma ReadOther(text: string)
    requires text != "" && text[0] != '\r'
    ensures ReadText(text) == [text[0]] + ReadText(text[1..])
  {
  }

  const NOTE := "\t// a"

  lemma {:induction false} AllDigits(ds: string)
    requires forall i :: 0 <= i < |ds| ==> Decimal.IsDigit(ds[i])
    ensures TakeDigits(ds) == (ds, "")
  {
    if ds != "" {
      AllDigits(ds[1..]);
      assert [ds[0]] + ds[1..] == ds;
    }
  }

  function CompareWith(n: nat): string {
    "cmp" + (" " + ("x0," + (" " + ("#" + Decimal.Show(n)))))
  }

  lemma CompareWithIs(n: nat)
    ensures Compared(CompareWith(n)) == Some(n)
  {
    hide TakeDigits, SkipBlanks, After;
    var ds := Decimal.Show(n);
    var b := "#" + ds;
    var a := "x0," + (" " + b);
    OneBlank("cmp" + (" " + a));
    OneBlank(a);
    OneBlank(b);
    AfterIs("cmp", " " + a);
    AfterIs("x0,", " " + b);
    AfterIs("#", ds);
    AllDigits(ds);
    Decimal.ShowValue(n);
  }

  lemma NoteIsKept()
    ensures FixLine(NOTE) == [NOTE] && FixLine("") == [""]
  {
    assert NOTE[1..] == "// a" && SkipBlanks(NOTE) == "// a";
    assert "// a"[..3] != "cmp";
  }

  lemma TwoLines(a: string, b: string)
    requires OneLine(a) && OneLine(b)
    ensures Split(a + "\n") == [a, ""] && Split(a + "\n" + (b + "\n")) == [a, b, ""]
    ensures FixAll([a, ""]) == FixLine(a) + [""] && FixAll([a, b, ""]) == FixLine(a) + (FixLine(b) + [""])
    ensures Join([a, ""]) == a + "\n"
  {
    NoteIsKept();
    SplitFirst(a, "");
    SplitFirst(b, "");
    SplitFirst(a, b + "\n");
    assert a + "\n" + "" == a + "\n" && b + "\n" + "" == b + "\n";
    assert [a, ""][1..] == [""] && [a, b, ""][1..] == [b, ""] && [b, ""][1..] == [""] && [""][1..] == [];
    assert FixAll([""]) == [""];
  }

  lemma ComparedNumber(n: nat)
    ensures Plain(CompareWith(n)) && CompareWith(n) != "" && CompareWith(n)[0] == 'c'
  {
    CompareWithIs(n);
    ComparedPlain(CompareWith(n));
  }

  lemma WithReturn(a: string, b: string)
    requires OneLine(a) && OneLine(b)
    ensures var line := a + "\r" + b; OneLine(line) && FixLine(line) == [line]
  {
    var line := a + "\r" + b;
    assert line[|a|] == '\r';
    if Unencodable(line) {
      ComparedPlain(line);
    }
  }

  lemma JoinFirst(line: string, rest: seq<string>)
    requires rest != []
    ensures Join([line] + rest) == line + "\n" + Join(rest)
  {
  }

  /** One comment line, with a carriage return in it and a newline at its end. Its tail becomes a line, and that line
      becomes instructions. */
  lemma CommentIsTornApart(n: nat)
    requires !Encodable(n)
    ensures var text := NOTE + "\r" + CompareWith(n) + "\n";
            && InPlace(text) == text
            && Repaired(text) == NOTE + "\n" + Join(ShowAll(Load(n)) + [""])
  {
    hide ReadText, Split, Compared, Load;
    var tail := CompareWith(n);
    var line := NOTE + "\r" + tail;
    ComparedNumber(n);
    WithReturn(NOTE, tail);
    TwoLines(line, tail);
    NoteIsKept();
    assert line + "\n" == NOTE + "\r" + (tail + "\n");
    assert [line] + [""] == [line, ""];
    ReadReturn(NOTE, tail + "\n");
    TwoLines(NOTE, tail);
    CompareWithIs(n);
    JoinFirst(NOTE, ShowAll(Load(n)) + [""]);
  }
}
