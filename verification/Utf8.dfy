/** UTF-8 (sections 3 and 4 of RFC 3629): the decoder and the encoder of the worker and the validator of the controller
    must agree. They are written in different languages and go through their input differently: one by a table of ranges,
    one by accumulating six bits at a time. */
module Utf8 {
  import opened Terms

  /** Byte codes; the Prolog layer sees them as plain integers. */
  type Byte = int

  /** A code point that Prolog text may contain: no surrogate, no NUL. */
  predicate IsScalar(c: int) {
    0 < c <= 0x10FFFF && !(0xD800 <= c <= 0xDFFF)
  }

  predicate Cont(b: Byte) {
    128 <= b <= 191
  }

  /** The scalar at the front of a byte list and how many bytes it takes. */
  function DecodeFirst(s: seq<Byte>): (r: Option<(int, nat)>)
    requires s != []
    ensures r.Some? ==> 1 <= r.value.1 <= 4 && r.value.1 <= |s|
  {
    var b := s[0];
    if 0 < b < 128 then Some((b, 1))
    else if 194 <= b <= 223 && |s| >= 2 && Cont(s[1]) then Some(((b - 192) * 64 + s[1] - 128, 2))
    else if 224 <= b <= 239 && |s| >= 3 && Cont(s[1]) && Cont(s[2]) && (b == 224 ==> s[1] >= 160) && (b == 237 ==> s[1] < 160) then
      Some(((b - 224) * 4096 + (s[1] - 128) * 64 + s[2] - 128, 3))
    else if 240 <= b <= 244 && |s| >= 4 && Cont(s[1]) && Cont(s[2]) && Cont(s[3]) &&
            (b == 240 ==> s[1] >= 144) && (b == 244 ==> s[1] < 144) then
      Some(((b - 240) * 262144 + (s[1] - 128) * 4096 + (s[2] - 128) * 64 + s[3] - 128, 4))
    else None
  }

  /** `iso_utf8_decode`; None stands for its representation error. */
  function Decode(s: seq<Byte>): Option<seq<int>> {
    if s == [] then Some([]) else
    match DecodeFirst(s)
    case None => None
    case Some((c, n)) =>
      match Decode(s[n..])
      case None => None
      case Some(rest) => Some([c] + rest)
  }

  /** `iso_utf8_char`. */
  function EncodeOne(c: int): (r: seq<Byte>)
    requires IsScalar(c)
    ensures 1 <= |r| <= 4
  {
    if c < 128 then [c]
    else if c < 2048 then [192 + c / 64, 128 + c % 64]
    else if c < 65536 then [224 + c / 4096, 128 + (c / 64) % 64, 128 + c % 64]
    else [240 + c / 262144, 128 + (c / 4096) % 64, 128 + (c / 64) % 64, 128 + c % 64]
  }

  function Encode(cs: seq<int>): seq<Byte>
    requires forall i :: 0 <= i < |cs| ==> IsScalar(cs[i])
  {
    if cs == [] then [] else EncodeOne(cs[0]) + Encode(cs[1..])
  }

  lemma TwoBytesCanonical(s: seq<Byte>)
    requires |s| >= 2 && 194 <= s[0] <= 223 && Cont(s[1])
    ensures var c := (s[0] - 192) * 64 + s[1] - 128; IsScalar(c) && EncodeOne(c) == [s[0], s[1]]
  {
  }

  lemma ThreeBytesCanonical(s: seq<Byte>)
    requires |s| >= 3 && DecodeFirst(s).Some? && 224 <= s[0] <= 239
    ensures var c := (s[0] - 224) * 4096 + (s[1] - 128) * 64 + s[2] - 128;
            DecodeFirst(s).value == (c, 3) && IsScalar(c) && EncodeOne(c) == [s[0], s[1], s[2]]
  {
    var c := (s[0] - 224) * 4096 + (s[1] - 128) * 64 + s[2] - 128;
    assert c / 64 == (s[0] - 224) * 64 + (s[1] - 128);
  }

  lemma FourBytesCanonical(s: seq<Byte>)
    requires |s| >= 4 && DecodeFirst(s).Some? && 240 <= s[0] <= 244
    ensures var c := (s[0] - 240) * 262144 + (s[1] - 128) * 4096 + (s[2] - 128) * 64 + s[3] - 128;
            DecodeFirst(s).value == (c, 4) && IsScalar(c) && EncodeOne(c) == [s[0], s[1], s[2], s[3]]
  {
    var c := (s[0] - 240) * 262144 + (s[1] - 128) * 4096 + (s[2] - 128) * 64 + s[3] - 128;
    FourBytes(c, s[0] - 240, s[1] - 128, s[2] - 128, s[3] - 128);
  }

  /** A decoded scalar is legal and its encoding is the bytes it was decoded from: there is one spelling only. */
  lemma DecodedIsCanonical(s: seq<Byte>)
    requires s != [] && DecodeFirst(s).Some?
    ensures var (c, n) := DecodeFirst(s).value; IsScalar(c) && EncodeOne(c) == s[..n]
  {
    if s[0] < 128 {
      assert s[..1] == [s[0]];
    } else if s[0] < 224 {
      TwoBytesCanonical(s);
    } else if s[0] < 240 {
      ThreeBytesCanonical(s);
    } else {
      FourBytesCanonical(s);
    }
  }

  lemma FourBytes(c: int, a: int, x: int, y: int, z: int)
    requires 0 <= x < 64 && 0 <= y < 64 && 0 <= z < 64
    requires c == a * 262144 + x * 4096 + y * 64 + z
    ensures c / 262144 == a && (c / 4096) % 64 == x && (c / 64) % 64 == y && c % 64 == z
  {
    assert c / 64 == a * 4096 + x * 64 + y;
    assert c / 4096 == a * 64 + x;
  }

  lemma ThreeBytes(c: int)
    requires c >= 0
    ensures (c / 4096) * 4096 + ((c / 64) % 64) * 64 + c % 64 == c
  {
    var q := c / 64;
    assert c == q * 64 + c % 64;
    assert q == (q / 64) * 64 + q % 64;
    assert q / 64 == c / 4096;
  }

  lemma FourBytesBack(c: int)
    requires c >= 0
    ensures (c / 262144) * 262144 + ((c / 4096) % 64) * 4096 + ((c / 64) % 64) * 64 + c % 64 == c
  {
    ThreeBytes(c);
    var q := c / 4096;
    assert q == (q / 64) * 64 + q % 64;
    assert q / 64 == c / 262144;
  }

  /** Decoding looks at the first bytes only. */
  lemma DecodesPrefix(first: seq<Byte>, rest: seq<Byte>)
    requires first != [] && DecodeFirst(first).Some?
    ensures DecodeFirst(first + rest) == DecodeFirst(first)
  {
    var s := first + rest;
    assert forall i :: 0 <= i < |first| ==> s[i] == first[i];
  }

  lemma EncodedAlone(c: int)
    requires IsScalar(c)
    ensures DecodeFirst(EncodeOne(c)) == Some((c, |EncodeOne(c)|))
  {
    if 2048 <= c < 65536 {
      ThreeEncoded(c);
    } else if c >= 65536 {
      FourEncoded(c);
    }
  }

  lemma ThreeEncoded(c: int)
    requires IsScalar(c) && 2048 <= c < 65536
    ensures DecodeFirst(EncodeOne(c)) == Some((c, 3)) && |EncodeOne(c)| == 3
  {
    ThreeBytes(c);
  }

  lemma FourEncoded(c: int)
    requires IsScalar(c) && 65536 <= c
    ensures DecodeFirst(EncodeOne(c)) == Some((c, 4)) && |EncodeOne(c)| == 4
  {
    FourBytesBack(c);
  }

  /** An encoded scalar decodes to itself whatever follows it. */
  lemma EncodedDecodes(c: int, rest: seq<Byte>)
    requires IsScalar(c)
    ensures DecodeFirst(EncodeOne(c) + rest) == Some((c, |EncodeOne(c)|))
  {
    EncodedAlone(c);
    DecodesPrefix(EncodeOne(c), rest);
  }

  lemma DecodeStep(first: seq<Byte>, rest: seq<Byte>, c: int)
    requires first != [] && DecodeFirst(first + rest) == Some((c, |first|))
    ensures Decode(first + rest) == match Decode(rest) { case None => None case Some(cs) => Some([c] + cs) }
  {
    assert (first + rest)[|first|..] == rest;
  }

  /** Decoding after encoding is the identity. */
  lemma {:induction false} DecodeEncode(cs: seq<int>)
    requires forall i :: 0 <= i < |cs| ==> IsScalar(cs[i])
    ensures Decode(Encode(cs)) == Some(cs)
  {
    if cs != [] {
      DecodeEncode(cs[1..]);
      EncodedDecodes(cs[0], Encode(cs[1..]));
      DecodeStep(EncodeOne(cs[0]), Encode(cs[1..]), cs[0]);
      assert cs == [cs[0]] + cs[1..];
    }
  }

  predicate AllScalars(cs: seq<int>) {
    forall i :: 0 <= i < |cs| ==> IsScalar(cs[i])
  }

  lemma ConsScalars(c: int, cs: seq<int>)
    requires IsScalar(c) && AllScalars(cs)
    ensures AllScalars([c] + cs) && Encode([c] + cs) == EncodeOne(c) + Encode(cs)
  {
    assert ([c] + cs)[1..] == cs;
  }

  /** Encoding after decoding is the identity wherever decoding succeeds. */
  lemma {:induction false} EncodeDecode(s: seq<Byte>)
    requires Decode(s).Some?
    ensures AllScalars(Decode(s).value) && Encode(Decode(s).value) == s
  {
    hide DecodeFirst;
    if s != [] {
      var (c, n) := DecodeFirst(s).value;
      DecodedIsCanonical(s);
      EncodeDecode(s[n..]);
      ConsScalars(c, Decode(s[n..]).value);
      assert s == s[..n] + s[n..];
    }
  }

  /** How the controller classifies a lead byte: continuation bytes, payload of the lead byte, smallest legal value. */
  function Lead(b: Byte): Option<(nat, int, int)> {
    if 0xC2 <= b <= 0xDF then Some((1, b % 32, 0x80))
    else if 0xE0 <= b <= 0xEF then Some((2, b % 16, 0x800))
    else if 0xF0 <= b <= 0xF4 then Some((3, b % 8, 0x10000))
    else None
  }

  predicate ValueLegal(value: int, minimum: int) {
    !(value < minimum || value > 0x10FFFF || 0xD800 <= value <= 0xDFFF)
  }

  predicate NulFree(s: seq<Byte>) {
    forall i :: 0 <= i < |s| ==> 0 < s[i] < 256
  }

  predicate AllCont(s: seq<Byte>) {
    forall i :: 0 <= i < |s| ==> Cont(s[i])
  }

  /** What the validator checks of a multi-byte character at the front of s. */
  predicate MultiByteOk(s: seq<Byte>)
    requires s != []
  {
    Lead(s[0]).Some? &&
    var (n, payload, minimum) := Lead(s[0]).value;
    n < |s| && AllCont(s[1..n + 1]) && ValueLegal(Gather(payload, s[1..n + 1]), minimum)
  }

  /** Reading a multi-byte character by accumulating six bits at a time agrees with the decoder's range table. */
  lemma MultiByteAgrees(s: seq<Byte>)
    requires s != [] && 128 <= s[0] < 256
    ensures DecodeFirst(s).Some? <==> MultiByteOk(s)
    ensures DecodeFirst(s).Some? ==> DecodeFirst(s).value.1 == Lead(s[0]).value.0 + 1
  {
    hide DecodeFirst, ValueLegal, Gather;
    if Lead(s[0]).Some? && Lead(s[0]).value.0 < |s| {
      var (n, payload, minimum) := Lead(s[0]).value;
      var t := s[1..n + 1];
      GatherUpTo3(payload, t);
      if n == 1 {
        assert t == [s[1]];
        TwoByteAgrees(s);
      } else if n == 2 {
        assert t == [s[1], s[2]];
        ThreeByteAgrees(s);
      } else {
        assert t == [s[1], s[2], s[3]];
        FourByteAgrees(s);
      }
    } else {
      TooShort(s);
    }
  }

  lemma TooShort(s: seq<Byte>)
    requires s != [] && 128 <= s[0] < 256 && (Lead(s[0]).None? || |s| <= Lead(s[0]).value.0)
    ensures DecodeFirst(s).None?
  {
  }

  lemma TwoByteAgrees(s: seq<Byte>)
    requires |s| >= 2 && 0xC2 <= s[0] <= 0xDF
    ensures DecodeFirst(s).Some? <==> Cont(s[1])
    ensures DecodeFirst(s).Some? ==> DecodeFirst(s).value.1 == 2
    ensures Cont(s[1]) ==> ValueLegal((s[0] % 32) * 64 + s[1] % 64, 0x80)
  {
  }

  lemma ThreeByteAgrees(s: seq<Byte>)
    requires |s| >= 3 && 0xE0 <= s[0] <= 0xEF
    ensures Cont(s[1]) && Cont(s[2]) ==>
              (DecodeFirst(s).Some? <==> ValueLegal(((s[0] % 16) * 64 + s[1] % 64) * 64 + s[2] % 64, 0x800))
    ensures DecodeFirst(s).Some? ==> Cont(s[1]) && Cont(s[2]) && DecodeFirst(s).value.1 == 3
  {
  }

  lemma FourByteAgrees(s: seq<Byte>)
    requires |s| >= 4 && 0xF0 <= s[0] <= 0xF4
    ensures Cont(s[1]) && Cont(s[2]) && Cont(s[3]) ==>
              (DecodeFirst(s).Some? <==> ValueLegal((((s[0] % 8) * 64 + s[1] % 64) * 64 + s[2] % 64) * 64 + s[3] % 64, 0x10000))
    ensures DecodeFirst(s).Some? ==> Cont(s[1]) && Cont(s[2]) && Cont(s[3]) && DecodeFirst(s).value.1 == 4
  {
  }

  function Gather(value: int, s: seq<Byte>): int {
    if s == [] then value else Gather(value, s[..|s| - 1]) * 64 + s[|s| - 1] % 64
  }

  lemma GatherUpTo3(value: int, s: seq<Byte>)
    ensures |s| == 1 ==> Gather(value, s) == value * 64 + s[0] % 64
    ensures |s| == 2 ==> Gather(value, s) == (value * 64 + s[0] % 64) * 64 + s[1] % 64
    ensures |s| == 3 ==> Gather(value, s) == ((value * 64 + s[0] % 64) * 64 + s[1] % 64) * 64 + s[2] % 64
  {
    if 1 <= |s| <= 3 {
      assert |s| >= 2 ==> s[..|s| - 1][..|s| - 2] == s[..|s| - 2];
      assert |s| >= 3 ==> s[..|s| - 2][..|s| - 3] == s[..|s| - 3];
    }
  }

  lemma {:induction false} DecodeSplits(s: seq<Byte>, i: nat)
    requires i < |s| && NulFree(s)
    ensures Decode(s[i..]).Some? <==>
            DecodeFirst(s[i..]).Some? && Decode(s[i + DecodeFirst(s[i..]).value.1..]).Some?
  {
    if DecodeFirst(s[i..]).Some? {
      var n := DecodeFirst(s[i..]).value.1;
      assert s[i..][n..] == s[i + n..];
    }
  }

  lemma OneByteStep(s: seq<Byte>, i: nat)
    requires i < |s| && NulFree(s) && s[i] < 128
    ensures Decode(s[i..]).Some? <==> Decode(s[i + 1..]).Some?
  {
    DecodeSplits(s, i);
  }

  lemma MultiByteStep(s: seq<Byte>, i: nat)
    requires i < |s| && NulFree(s) && s[i] >= 128
    ensures Decode(s[i..]).Some? <==> MultiByteOk(s[i..]) && Decode(s[i + 1 + Lead(s[i]).value.0..]).Some?
  {
    hide Decode, DecodeFirst, Lead, ValueLegal;
    DecodeSplits(s, i);
    MultiByteAgrees(s[i..]);
  }

  lemma MultiByteParts(s: seq<Byte>, i: nat)
    requires i < |s|
    ensures MultiByteOk(s[i..]) <==>
            Lead(s[i]).Some? && i + 1 + Lead(s[i]).value.0 <= |s| &&
            var t := s[i + 1..i + 1 + Lead(s[i]).value.0];
            AllCont(t) && ValueLegal(Gather(Lead(s[i]).value.1, t), Lead(s[i]).value.2)
  {
    hide Lead, ValueLegal, Gather;
    if Lead(s[i]).Some? && i + 1 + Lead(s[i]).value.0 <= |s| {
      assert s[i..][1..Lead(s[i]).value.0 + 1] == s[i + 1..i + 1 + Lead(s[i]).value.0];
    }
  }

  /** `valid_utf8`: the controller's validator accepts a NUL-free byte string exactly when the Prolog decoder does. */
  method ValidUtf8(s: seq<Byte>) returns (valid: bool)
    requires NulFree(s)
    ensures valid <==> Decode(s).Some?
  {
    hide Decode, MultiByteOk, ValueLegal, Lead, Gather, AllCont, NulFree;
    var i := 0;
    assert s[0..] == s;
    while i < |s|
      invariant i <= |s|
      invariant Decode(s).Some? <==> Decode(s[i..]).Some?
    {
      var c := s[i];
      if c < 128 {
        OneByteStep(s, i);
        i := i + 1;
      } else {
        MultiByteStep(s, i);
        MultiByteParts(s, i);
        i := i + 1;
        var lead := Lead(c);
        if lead.None? {
          return false;
        }
        var (remaining, value, minimum) := lead.value;
        if remaining > |s| - i {
          return false;
        }
        var ok := true;
        ok, value := ReadContinuations(s, i, remaining, value);
        if !ok || !ValueLegal(value, minimum) {
          return false;
        }
        i := i + remaining;
      }
    }
    NothingDecodes(s);
    valid := true;
  }

  lemma NothingDecodes(s: seq<Byte>)
    ensures Decode(s[|s|..]).Some?
  {
    assert s[|s|..] == [];
  }

  lemma OneMoreByte(payload: int, t: seq<Byte>, c: Byte)
    requires AllCont(t) && c / 64 == 2
    ensures AllCont(t + [c]) && Gather(payload, t + [c]) == Gather(payload, t) * 64 + c % 64
  {
    assert (t + [c])[..|t|] == t;
  }

  method ReadContinuations(s: seq<Byte>, i: nat, n: nat, payload: int) returns (ok: bool, value: int)
    requires i + n <= |s|
    ensures ok <==> AllCont(s[i..i + n])
    ensures ok ==> value == Gather(payload, s[i..i + n])
  {
    value := payload;
    for k := 0 to n
      invariant AllCont(s[i..i + k])
      invariant value == Gather(payload, s[i..i + k])
    {
      var c := s[i + k];
      if c / 64 != 2 {
        assert s[i..i + n][k] == c;
        return false, value;
      }
      OneMoreByte(payload, s[i..i + k], c);
      assert s[i..i + k + 1] == s[i..i + k] + [c];
      value := value * 64 + c % 64;
    }
    ok := true;
  }
}
