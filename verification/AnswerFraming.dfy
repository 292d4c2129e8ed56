/** Answer pages on the wire: JSON lines (section 7 of RFC 8259) and the public Prolog bodies made of them. */
module AnswerFraming {
  import opened Terms
  import opened Wire

  const RESPONSE_CAP: nat := 1_048_576

  // ---------- writing ----------

  function HexDigit(d: nat): char
    requires d < 16
  {
    if d < 10 then '0' + d as char else 'a' + (d - 10) as char
  }

  function Escape(c: char): (e: string)
    ensures 1 <= |e| <= 6
  {
    if c == '\"' || c == '\\' then ['\\', c]
    else if c < ' ' then ['\\', 'u', '0', '0', HexDigit(c as int / 16), HexDigit(c as int % 16)]
    else [c]
  }

  function EscapeAll(s: string): string {
    if s == [] then [] else Escape(s[0]) + EscapeAll(s[1..])
  }

  /** `json_string`, on a C string. */
  function JsonString(s: string): string {
    ['\"'] + EscapeAll(CText(s)) + ['\"']
  }

  function JoinWith(parts: seq<string>, sep: string): string {
    if parts == [] then [] else if |parts| == 1 then parts[0] else parts[0] + sep + JoinWith(parts[1..], sep)
  }

  function JsonStrings(answers: seq<string>): (r: seq<string>)
    ensures |r| == |answers|
  {
    if answers == [] then [] else [JsonString(answers[0])] + JsonStrings(answers[1..])
  }

  /** A page line without its newline. */
  function Line(answers: seq<string>, more: bool): string {
    SUCCESS + JoinWith(JsonStrings(answers), ",") + "]" + if more then MORE else NO_MORE
  }

  lemma EscapeStep(out: string, t: string, i: nat)
    requires i < |t|
    ensures out + EscapeAll(t[i..]) == out + Escape(t[i]) + EscapeAll(t[i + 1..])
  {
    assert t[i..][1..] == t[i + 1..];
    assert out + (Escape(t[i]) + EscapeAll(t[i + 1..])) == out + Escape(t[i]) + EscapeAll(t[i + 1..]);
  }

  /** The worker's output loop for one string. */
  method WriteJsonString(s: string) returns (out: string)
    ensures out == JsonString(s)
  {
    out := ['\"'];
    var i := 0;
    ghost var t := CText(s);
    while i < |s| && s[i] != NUL
      invariant i <= |t| <= |s| && t <= s
      invariant out + EscapeAll(t[i..]) == ['\"'] + EscapeAll(t)
    {
      EscapeStep(out, t, i);
      out := out + Escape(s[i]);
      i := i + 1;
    }
    assert t[i..] == [] && out + EscapeAll([]) == out;
    out := out + ['\"'];
  }

  predicate NoControls(s: string) {
    forall i :: 0 <= i < |s| ==> s[i] >= ' '
  }

  lemma {:induction false} EscapedHasNoControls(s: string)
    ensures NoControls(EscapeAll(s))
  {
    if s != [] {
      EscapedHasNoControls(s[1..]);
      assert NoControls(Escape(s[0]));
    }
  }

  lemma {:induction false} JoinedHasNoControls(answers: seq<string>)
    ensures NoControls(JoinWith(JsonStrings(answers), ","))
  {
    if answers != [] {
      EscapedHasNoControls(CText(answers[0]));
      assert JsonStrings(answers)[1..] == JsonStrings(answers[1..]);
      JoinedHasNoControls(answers[1..]);
    }
  }

  lemma ConstantsHaveNoControls()
    ensures NoControls(SUCCESS) && NoControls("]") && NoControls(MORE) && NoControls(NO_MORE)
  {
  }

  lemma FourHaveNoControls(a: string, b: string, c: string, d: string)
    requires NoControls(a) && NoControls(b) && NoControls(c) && NoControls(d)
    ensures NoControls(a + b + c + d)
  {
  }

  /** A page line contains no control character, so the newline after it is the only one: framing is unambiguous
      whatever the answers contain. */
  lemma LineHasNoControls(answers: seq<string>, more: bool)
    ensures NoControls(Line(answers, more))
  {
    hide NoControls;
    JoinedHasNoControls(answers);
    ConstantsHaveNoControls();
    FourHaveNoControls(SUCCESS, JoinWith(JsonStrings(answers), ","), "]", if more then MORE else NO_MORE);
  }

  /** What RewriteOnce makes of a line is the line of the same answers without a continuation. */
  lemma OnceLine(answers: seq<string>)
    ensures var line := Line(answers, true); line[..|line| - |MORE|] + NO_MORE == Line(answers, false)
  {
  }

  // ---------- reading ----------

  function HexValue(c: char): int {
    if '0' <= c <= '9' then c as int - '0' as int
    else if 'a' <= c <= 'f' then c as int - 'a' as int + 10
    else if 'A' <= c <= 'F' then c as int - 'A' as int + 10
    else -1
  }

  /** The possibly escaped character at the front of s and how long its spelling is. */
  function ReadChar(s: string): (r: Option<(char, nat)>)
    requires s != []
    ensures r.Some? ==> 1 <= r.value.1 <= |s|
  {
    if s[0] != '\\' then Some((s[0], 1))
    else if |s| < 2 then None
    else if s[1] == 'u' then
      if |s| < 6 || s[2] != '0' || s[3] != '0' || HexValue(s[4]) < 0 || HexValue(s[5]) < 0 then None
      else Some(((HexValue(s[4]) * 16 + HexValue(s[5])) as char, 6))
    else if s[1] == '\"' || s[1] == '\\' then Some((s[1], 2))
    else None
  }

  /** What follows an opening quote: the decoded text up to the closing quote, and what stands behind it. */
  function ReadRest(s: string): (r: Option<(string, string)>)
    ensures r.Some? ==> |r.value.0| + |r.value.1| < |s|
  {
    if s == [] then None
    else if s[0] == '\"' then Some(([], s[1..]))
    else
      match ReadChar(s)
      case None => None
      case Some((c, n)) => Prepend([c], ReadRest(s[n..]))
  }

  function Prepend(t: string, r: Option<(string, string)>): Option<(string, string)> {
    match r
    case None => None
    case Some((u, rest)) => Some((t + u, rest))
  }

  lemma PrependTwice(a: string, b: string, r: Option<(string, string)>)
    ensures Prepend(a, Prepend(b, r)) == Prepend(a + b, r)
  {
    if r.Some? {
      assert a + (b + r.value.0) == a + b + r.value.0;
    }
  }

  lemma PrependNothing(r: Option<(string, string)>)
    ensures Prepend("", r) == r
  {
    if r.Some? {
      assert "" + r.value.0 == r.value.0;
    }
  }

  /** One step of reading, as positions in the line; `done` has been read before. */
  lemma ReadStep(line: string, p: nat, done: string, whole: Option<(string, string)>)
    requires p < |line| && line[p] != '\"' && whole == Prepend(done, ReadRest(line[p..]))
    ensures match ReadChar(line[p..])
            case None => whole.None?
            case Some((c, n)) => p + n <= |line| && whole == Prepend(done + [c], ReadRest(line[p + n..]))
  {
    var one := ReadChar(line[p..]);
    if one.Some? {
      assert line[p..][one.value.1..] == line[p + one.value.1..];
      PrependTwice(done, [one.value.0], ReadRest(line[p + one.value.1..]));
    }
  }

  /** Reads one character inside a string. */
  method NextChar(line: string, p: nat, ghost done: string, ghost whole: Option<(string, string)>)
    returns (c: char, next: nat, ok: bool)
    requires p < |line| && line[p] != '\"' && whole == Prepend(done, ReadRest(line[p..]))
    ensures if ok then p < next <= |line| && whole == Prepend(done + [c], ReadRest(line[next..])) else whole.None?
  {
    ReadStep(line, p, done, whole);
    var one := ReadChar(line[p..]);
    if one.None? {
      return ' ', p, false;
    }
    c, next, ok := one.value.0, p + one.value.1, true;
  }

  lemma ReadEnd(line: string, p: nat, done: string, whole: Option<(string, string)>)
    requires p <= |line| && whole == Prepend(done, ReadRest(line[p..]))
    ensures p == |line| ==> whole.None?
    ensures p < |line| && line[p] == '\"' ==> whole == Some((done, line[p + 1..]))
  {
    if p < |line| && line[p] == '\"' {
      assert line[p..][1..] == line[p + 1..];
      assert done + [] == done;
    }
  }

  /** A JSON string with this text starts at p and ends before `next`. */
  predicate TextAt(line: string, p: nat, text: string, next: nat) {
    p < |line| && line[p] == '\"' && next <= |line| && ReadRest(line[p + 1..]) == Some((text, line[next..]))
  }

  predicate NoTextAt(line: string, p: nat) {
    p < |line| && (line[p] != '\"' || ReadRest(line[p + 1..]).None?)
  }

  method Put(buffer: array<char>, o: nat, c: char)
    requires o < buffer.Length
    modifies buffer
    ensures buffer[..o + 1] == old(buffer[..o]) + [c]
  {
    buffer[o] := c;
  }

  /** `json_text` on its own buffer: the decoded text never outgrows what is left of the line. */
  method JsonText(line: string, p: nat) returns (text: string, next: nat, ok: bool)
    requires p < |line|
    ensures if ok then TextAt(line, p, text, next) else NoTextAt(line, p)
  {
    text, next, ok := [], p + 1, false;
    if line[p] != '\"' {
      return;
    }
    var buffer := new char[|line| - next + 1];
    var o: nat := 0;
    ghost var whole, done := ReadRest(line[p + 1..]), "";
    PrependNothing(whole);
    while next < |line| && line[next] != '\"'
      invariant p < next <= |line| && |done| == o <= next - (p + 1) && buffer[..o] == done
      invariant whole == Prepend(done, ReadRest(line[next..]))
      decreases |line| - next
    {
      var c, after, good := NextChar(line, next, done, whole);
      if !good {
        return;
      }
      Put(buffer, o, c);
      done, o, next := done + [c], o + 1, after;
    }
    ReadEnd(line, next, done, whole);
    if next < |line| {
      text, next, ok := buffer[..o], next + 1, true;
    }
  }

  /** The answers of a success line: texts separated by commas up to the closing bracket. */
  function ReadAnswers(s: string, first: bool): Option<(string, string)>
    decreases |s|
  {
    if s == [] then None
    else if s[0] == ']' then Some(([], s))
    else if !first && s[0] != ',' then None
    else ReadAnswer(if first then s else s[1..], if first then "" else ",")
  }

  function ReadAnswer(s: string, sep: string): Option<(string, string)>
    decreases |s|, 0
  {
    if s == [] || s[0] != '\"' then None else
    match ReadRest(s[1..])
    case None => None
    case Some((text, rest)) => Prepend(sep + CText(text), ReadAnswers(rest, false))
  }

  function Closing(more: bool): string {
    if more then "],true).\n" else "],false).\n"
  }

  /** The line that the body is made of: once=true takes the promise of more answers back. */
  function Effective(line: string, once: bool): string {
    if once && EndsWith(line, MORE) then line[..|line| - |MORE|] + NO_MORE else line
  }

  /** The public Prolog body of a success line; None when the line is malformed. */
  function Body(line: string, once: bool): Option<string> {
    var text := Effective(line, once);
    if !StartsWith(text, SUCCESS) then None else
    match ReadAnswers(text[|SUCCESS|..], true)
    case None => None
    case Some((terms, _)) => Some("success([" + terms + Closing(EndsWith(line, MORE) && !once))
  }

  const JSON_SUCCESS := "{\"type\":\"success\",\"data\":["
  const JSON_ERROR := "{\"type\":\"error\",\"data\":"

  /** The public JSON body: the two prefixes are renamed. */
  function JsonBody(text: string): string {
    if StartsWith(text, SUCCESS) then JSON_SUCCESS + text[|SUCCESS|..] + "\n"
    else if StartsWith(text, ERROR) then JSON_ERROR + text[|ERROR|..] + "\n"
    else text + "\n"
  }

  /** `public_body`: the body of a reply in either format; None when the line is malformed. */
  function Public(line: string, prolog: bool, once: bool): Option<string> {
    var text := Effective(line, once);
    if !prolog then Some(JsonBody(text))
    else if text == FAILURE then Some("failure.\n")
    else if StartsWith(text, ERROR) then ErrorBody(text)
    else Body(line, once)
  }

  /** In the line buffer, once=true turns `more:true` into `more:false`; one byte longer, and still inside the buffer. */
  method RewriteOnce(line: array<char>, n: nat)
    requires line.Length == RESPONSE_CAP + 4 && n < RESPONSE_CAP && EndsWith(line[..n], MORE)
    modifies line
    ensures line[..n + 1] == old(line[..n - |MORE|]) + NO_MORE
    ensures line[n + 1] == 0 as char
    ensures line[n + 2..] == old(line[n + 2..])
  {
    var at := n - |MORE|;
    for i := 0 to |NO_MORE|
      invariant line[..at] == old(line[..at]) && line[at..at + i] == NO_MORE[..i]
      invariant line[n + 2..] == old(line[n + 2..])
    {
      line[at + i] := NO_MORE[i];
    }
    line[n + 1] := 0 as char;
    assert line[..n + 1] == line[..at] + line[at..n + 1];
  }

  /** One step over the answers, as positions in the line; `done` has been read before. */
  lemma AnswerStep(line: string, p: nat, first: bool, text: string, next: nat, done: string, whole: Option<(string, string)>)
    requires p < |line| && line[p] != ']' && (first || line[p] == ',')
    requires TextAt(line, if first then p else p + 1, text, next)
    requires whole == Prepend(done, ReadAnswers(line[p..], first))
    ensures p + |(if first then "" else ",") + CText(text)| + 2 <= next
    ensures whole == Prepend(done + ((if first then "" else ",") + CText(text)), ReadAnswers(line[next..], false))
  {
    var q := if first then p else p + 1;
    assert line[p..][1..] == line[p + 1..] && line[q..][1..] == line[q + 1..];
    PrependTwice(done, (if first then "" else ",") + CText(text), ReadAnswers(line[next..], false));
  }

  lemma NoAnswer(line: string, p: nat, first: bool)
    requires p < |line| && line[p] != ']'
    requires var q := if first then p else p + 1; (!first && line[p] != ',') || q == |line| || NoTextAt(line, q)
    ensures ReadAnswers(line[p..], first).None?
  {
    var q := if first then p else p + 1;
    assert line[p..][1..] == line[p + 1..];
    if q < |line| {
      assert line[q..][1..] == line[q + 1..];
    }
  }

  /** The part of `public_body` that builds a Prolog success answer, in a buffer 32 bytes longer than the line. */
  method SuccessBody(line: string, more: bool) returns (body: Option<string>)
    requires StartsWith(line, SUCCESS)
    ensures body == match ReadAnswers(line[|SUCCESS|..], true)
                    case None => None
                    case Some((terms, _)) => Some("success([" + terms + Closing(more))
  {
    var buffer := new char[|line| + 32];
    var used: nat := Append(buffer, 0, OPENING);
    assert buffer[..used] == OPENING;
    var terms, ok := CopyAnswers(line, buffer, used);
    if !ok {
      return None;
    }
    used := Append(buffer, used + terms, Closing(more));
    body := Some(buffer[..used]);
  }

  /** The part that builds a Prolog error. */
  method ErrorReply(line: string) returns (body: Option<string>)
    requires StartsWith(line, ERROR)
    ensures body == ErrorBody(line)
  {
    if |line| == |ERROR| {
      return None;
    }
    assert line[|ERROR|..][0] == line[|ERROR|] && line[|ERROR|..][1..] == line[|ERROR| + 1..];
    var term, _, ok := JsonText(line, |ERROR|);
    body := if ok then Some("error(" + CText(term) + ").\n") else None;
  }

  /** `strlen` on a buffer that holds n characters and a NUL behind them. */
  method Length(line: array<char>, n: nat) returns (size: nat)
    requires n <= line.Length
    ensures size <= n && line[..size] == CText(line[..n])
  {
    ghost var text := CText(line[..n]);
    size := 0;
    while size < n && line[size] != NUL
      invariant size <= |text| <= n
    {
      size := size + 1;
    }
  }

  /** `public_body` on the controller's line buffer, which holds n characters: the flag for a kept continuation, the
      rewriting for once=true, the kind of line, and the body. */
  method PublicBody(line: array<char>, n: nat, prolog: bool, once: bool) returns (body: Option<string>, more: bool)
    requires line.Length == RESPONSE_CAP + 4 && n < RESPONSE_CAP
    modifies line
    ensures more == (EndsWith(CText(old(line[..n])), MORE) && !once)
    ensures body == Public(CText(old(line[..n])), prolog, once)
  {
    var length := Length(line, n);
    body, more := BodyOfText(line, length, prolog, once);
  }

  method BodyOfText(line: array<char>, n: nat, prolog: bool, once: bool) returns (body: Option<string>, more: bool)
    requires line.Length == RESPONSE_CAP + 4 && n < RESPONSE_CAP
    modifies line
    ensures more == (EndsWith(old(line[..n]), MORE) && !once)
    ensures body == Public(old(line[..n]), prolog, once)
  {
    var size := n;
    more := EndsWith(line[..n], MORE);
    if once && more {
      assert line[..n][..n - |MORE|] == line[..n - |MORE|];
      RewriteOnce(line, n);
      size, more := n + 1, false;
    }
    var text := line[..size];
    if !prolog {
      return Some(JsonBody(text)), more;
    }
    if text == FAILURE {
      return Some("failure.\n"), more;
    }
    if StartsWith(text, ERROR) {
      body := ErrorReply(text);
      return;
    }
    if !StartsWith(text, SUCCESS) {
      return None, more;
    }
    body := SuccessBody(text, more);
  }

  const OPENING := "success(["

  /** Reads one answer, with the comma before it unless it is the first. */
  method NextAnswer(line: string, p: nat, first: bool, ghost done: string, ghost whole: Option<(string, string)>)
    returns (part: string, next: nat, ok: bool)
    requires p < |line| && line[p] != ']' && whole == Prepend(done, ReadAnswers(line[p..], first))
    ensures if ok then next <= |line| && p + |part| + 2 <= next && whole == Prepend(done + part, ReadAnswers(line[next..], false))
            else whole.None?
  {
    var q := if first then p else p + 1;
    if (!first && line[p] != ',') || q == |line| {
      NoAnswer(line, p, first);
      return "", p, false;
    }
    part, next, ok := JsonText(line, q);
    if !ok {
      NoAnswer(line, p, first);
      return;
    }
    AnswerStep(line, p, first, part, next, done, whole);
    part := (if first then "" else ",") + CText(part);
  }

  /** The loop over the answers: their texts and the commas between them go behind what the buffer holds. */
  method CopyAnswers(line: string, buffer: array<char>, start: nat) returns (copied: nat, ok: bool)
    requires StartsWith(line, SUCCESS) && buffer.Length == |line| + 32 && start == |OPENING|
    modifies buffer
    ensures ok <==> ReadAnswers(line[|SUCCESS|..], true).Some?
    ensures ok ==> start + copied + 20 <= buffer.Length
    ensures ok ==> buffer[..start + copied] == old(buffer[..start]) + ReadAnswers(line[|SUCCESS|..], true).value.0
  {
    var p, first := |SUCCESS|, true;
    var used := start;
    ghost var opening := buffer[..start];
    ghost var whole, done := ReadAnswers(line[p..], true), "";
    PrependNothing(whole);
    while p < |line| && line[p] != ']'
      invariant |SUCCESS| <= p <= |line| && used <= |OPENING| + (p - |SUCCESS|)
      invariant used == start + |done| && buffer[..used] == opening + done
      invariant whole == Prepend(done, ReadAnswers(line[p..], first))
      decreases |line| - p
    {
      var part, next, good := NextAnswer(line, p, first, done, whole);
      if !good {
        return 0, false;
      }
      used := CopyPart(buffer, used, part, opening, done);
      p, first, done := next, false, done + part;
    }
    if p == |line| {
      return 0, false;
    }
    assert done + [] == done;
    copied, ok := used - start, true;
  }

  method CopyPart(buffer: array<char>, used: nat, part: string, ghost opening: string, ghost done: string) returns (now: nat)
    requires used + |part| <= buffer.Length && buffer[..used] == opening + done
    modifies buffer
    ensures now == used + |part| && buffer[..now] == opening + (done + part)
  {
    now := Append(buffer, used, part);
    assert opening + done + part == opening + (done + part);
  }

  /** memcpy behind what is already in the buffer. */
  method Append(buffer: array<char>, used: nat, s: string) returns (now: nat)
    requires used + |s| <= buffer.Length
    modifies buffer
    ensures now == used + |s| && buffer[..now] == old(buffer[..used]) + s
  {
    for i := 0 to |s|
      invariant buffer[..used + i] == old(buffer[..used]) + s[..i]
    {
      buffer[used + i] := s[i];
    }
    now := used + |s|;
  }

  // ---------- round trip ----------

  lemma HexRoundTrip(c: char)
    requires c < ' '
    ensures (HexValue(HexDigit(c as int / 16)) * 16 + HexValue(HexDigit(c as int % 16))) as char == c
    ensures HexValue(HexDigit(c as int / 16)) >= 0 && HexValue(HexDigit(c as int % 16)) >= 0
  {
  }

  lemma ReadEscape(c: char, post: string)
    ensures ReadChar(Escape(c) + post) == Some((c, |Escape(c)|))
    ensures (Escape(c) + post)[0] != '\"'
  {
    if c < ' ' {
      HexRoundTrip(c);
    }
  }

  lemma ReadOneEscaped(c: char, rest: string, t: string, post: string)
    requires ReadRest(rest) == Some((t, post))
    ensures ReadRest(Escape(c) + rest) == Some(([c] + t, post))
  {
    var e := Escape(c);
    ReadEscape(c, rest);
    assert (e + rest)[|e|..] == rest;
  }

  lemma {:induction false} ReadEscaped(s: string, post: string)
    ensures ReadRest(EscapeAll(s) + (['\"'] + post)) == Some((s, post))
  {
    var end := ['\"'] + post;
    if s == [] {
      assert EscapeAll(s) + end == end && end[1..] == post;
    } else {
      hide ReadRest, Escape;
      var rest := EscapeAll(s[1..]) + end;
      ReadEscaped(s[1..], post);
      ReadOneEscaped(s[0], rest, s[1..], post);
      Associate(Escape(s[0]), EscapeAll(s[1..]), end);
      assert s == [s[0]] + s[1..];
    }
  }

  /** One written answer reads back as itself, whatever follows. */
  lemma ReadWritten(s: string, sep: string, post: string)
    ensures ReadAnswer(JsonString(s) + post, sep) == Prepend(sep + CText(s), ReadAnswers(post, false))
  {
    var whole := JsonString(s) + post;
    assert whole[0] == '\"' && whole[1..] == EscapeAll(CText(s)) + (['\"'] + post);
    ReadEscaped(CText(s), post);
    CTextWhole(CText(s));
  }

  /** Texts that follow another one, each after a comma. */
  function Tail(parts: seq<string>): string {
    if parts == [] then [] else "," + (parts[0] + Tail(parts[1..]))
  }

  /** The texts as C sees them; texts without NUL are unchanged. */
  function Seen(answers: seq<string>): (r: seq<string>)
    ensures |r| == |answers| && forall i :: 0 <= i < |answers| ==> r[i] == CText(answers[i])
  {
    if answers == [] then [] else [CText(answers[0])] + Seen(answers[1..])
  }

  lemma SeenWhole(answers: seq<string>)
    requires forall a :: a in answers ==> NUL !in a
    ensures Seen(answers) == answers
  {
    forall i | 0 <= i < |answers| ensures Seen(answers)[i] == answers[i] {
      CTextWhole(answers[i]);
    }
  }

  lemma {:induction false} ReadTail(answers: seq<string>, post: string)
    ensures ReadAnswers(Tail(JsonStrings(answers)) + ("]" + post), false) == Some((Tail(Seen(answers)), "]" + post))
  {
    if answers == [] {
      assert [] + ("]" + post) == "]" + post;
    } else {
      ReadTail(answers[1..], post);
      ReadTailStep(answers, "]" + post, Tail(Seen(answers[1..])));
    }
  }

  lemma ReadTailStep(answers: seq<string>, end: string, read: string)
    requires answers != [] && ReadAnswers(Tail(JsonStrings(answers[1..])) + end, false) == Some((read, end))
    ensures ReadAnswers(Tail(JsonStrings(answers)) + end, false) == Some(("," + (CText(answers[0]) + read), end))
  {
    hide ReadAnswers, JsonString, CText, Tail;
    assert JsonStrings(answers)[1..] == JsonStrings(answers[1..]);
    TailUnfolds(JsonStrings(answers), end);
    ReadComma(answers[0], Tail(JsonStrings(answers[1..])) + end);
    Associate(",", CText(answers[0]), read);
  }

  lemma TailUnfolds(parts: seq<string>, end: string)
    requires parts != []
    ensures Tail(parts) + end == "," + (parts[0] + (Tail(parts[1..]) + end))
  {
  }

  lemma ReadComma(s: string, after: string)
    ensures ReadAnswers("," + (JsonString(s) + after), false) == Prepend("," + CText(s), ReadAnswers(after, false))
  {
    var here := JsonString(s) + after;
    assert ("," + here)[1..] == here;
    ReadWritten(s, ",", after);
  }

  lemma {:induction false} JoinIsTail(parts: seq<string>)
    requires parts != []
    ensures JoinWith(parts, ",") == parts[0] + Tail(parts[1..])
  {
    if |parts| == 1 {
      assert parts[0] + "" == parts[0];
    } else {
      JoinIsTail(parts[1..]);
      assert parts[0] + "," + JoinWith(parts[1..], ",") == parts[0] + ("," + JoinWith(parts[1..], ","));
    }
  }

  lemma LineSuffix(answers: seq<string>, more: bool)
    ensures EndsWith(Line(answers, more), MORE) <==> more
    ensures StartsWith(Line(answers, more), SUCCESS)
  {
    var line := Line(answers, more);
    var suffix := if more then MORE else NO_MORE;
    assert line[|line| - |suffix|..] == suffix;
    assert line[|line| - 2] == suffix[|suffix| - 2];
    assert line[|line| - 3] == suffix[|suffix| - 3];
    assert MORE[|MORE| - 3] == 'u' && NO_MORE[|NO_MORE| - 3] == 's';
    if EndsWith(line, MORE) {
      assert line[|line| - 3] == MORE[|MORE| - 3];
    }
    assert line[..|SUCCESS|] == SUCCESS;
  }

  lemma LineBody(answers: seq<string>, more: bool)
    ensures Line(answers, more)[|SUCCESS|..] == JoinWith(JsonStrings(answers), ",") + ("]" + if more then MORE else NO_MORE)
  {
    var j, end := JoinWith(JsonStrings(answers), ","), if more then MORE else NO_MORE;
    assert SUCCESS + j + "]" + end == SUCCESS + (j + ("]" + end));
  }

  /** The public body of a worker's page is exactly the comma-joined original answers, whatever bytes they contain; of an
      answer with a NUL only what is before it is printed. */
  lemma PageRoundTrip(answers: seq<string>, more: bool, once: bool)
    requires answers != []
    ensures Body(Line(answers, more), once) == Some("success([" + JoinWith(Seen(answers), ",") + Closing(more && !once))
    ensures (forall a :: a in answers ==> NUL !in a) ==>
              Body(Line(answers, more), once) == Some("success([" + JoinWith(answers, ",") + Closing(more && !once))
  {
    if forall a :: a in answers ==> NUL !in a {
      SeenWhole(answers);
    }
    LineSuffix(answers, more);
    LineSuffix(answers, more && !once);
    if once && more {
      OnceLine(answers);
    }
    AnswersOfLine(answers, more && !once);
  }

  lemma AnswersOfLine(answers: seq<string>, more: bool)
    requires answers != []
    ensures ReadAnswers(Line(answers, more)[|SUCCESS|..], true) == Some((JoinWith(Seen(answers), ","), "]" + if more then MORE else NO_MORE))
  {
    LineBody(answers, more);
    ReadJoined(answers, if more then MORE else NO_MORE);
  }

  lemma ReadJoined(answers: seq<string>, suffix: string)
    requires answers != []
    ensures ReadAnswers(JoinWith(JsonStrings(answers), ",") + ("]" + suffix), true) ==
            Some((JoinWith(Seen(answers), ","), "]" + suffix))
  {
    hide ReadAnswers, JsonString, CText, JoinWith, Tail;
    var first, end := JsonString(answers[0]), "]" + suffix;
    var rest := Tail(JsonStrings(answers[1..])) + end;
    assert JsonStrings(answers)[1..] == JsonStrings(answers[1..]) && Seen(answers)[1..] == Seen(answers[1..]);
    JoinIsTail(JsonStrings(answers));
    JoinIsTail(Seen(answers));
    Associate(first, Tail(JsonStrings(answers[1..])), end);
    ReadFirst(answers[0], rest);
    ReadTail(answers[1..], suffix);
  }

  lemma ReadFirst(s: string, rest: string)
    ensures ReadAnswers(JsonString(s) + rest, true) == Prepend(CText(s), ReadAnswers(rest, false))
  {
    ReadWritten(s, "", rest);
    assert (JsonString(s) + rest)[0] == '\"';
    assert "" + CText(s) == CText(s);
  }

  // ---------- errors ----------

  function ErrorLine(term: string): string {
    ERROR + JsonString(term) + "}"
  }

  /** The public Prolog body of an error line. */
  function ErrorBody(line: string): Option<string> {
    if !StartsWith(line, ERROR) then None else
    var rest := line[|ERROR|..];
    if rest == [] || rest[0] != '\"' then None else
    match ReadRest(rest[1..])
    case None => None
    case Some((term, _)) => Some("error(" + CText(term) + ").\n")
  }

  lemma ErrorTextReads(term: string)
    ensures var rest := JsonString(term) + "}";
            rest != [] && rest[0] == '\"' && ReadRest(rest[1..]) == Some((CText(term), "}"))
  {
    var rest := JsonString(term) + "}";
    assert rest[1..] == EscapeAll(CText(term)) + (['\"'] + "}");
    ReadEscaped(CText(term), "}");
  }

  /** An error term reaches the client as the worker rendered it, up to a NUL, and an error line is never taken for a
      success. */
  lemma ErrorRoundTrip(term: string)
    ensures ErrorBody(ErrorLine(term)) == Some("error(" + CText(term) + ").\n")
    ensures NUL !in term ==> ErrorBody(ErrorLine(term)) == Some("error(" + term + ").\n")
    ensures Body(ErrorLine(term), false).None?
  {
    hide ReadRest, JsonString, ErrorLine, CText, StartsWith, ReadAnswers;
    ErrorTextReads(term);
    ErrorLineSplits(term);
    CTextWhole(CText(term));
    if NUL !in term {
      CTextWhole(term);
    }
  }

  lemma ErrorLineSplits(term: string)
    ensures StartsWith(ErrorLine(term), ERROR) && ErrorLine(term)[|ERROR|..] == JsonString(term) + "}"
    ensures !StartsWith(ErrorLine(term), SUCCESS)
  {
    var line := ErrorLine(term);
    assert line == ERROR + (JsonString(term) + "}");
    assert line[9] == ERROR[9] && SUCCESS[9] != ERROR[9];
    if |line| >= |SUCCESS| {
      assert line[..|SUCCESS|][9] == line[9];
    }
  }
}
