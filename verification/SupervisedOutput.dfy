/** What the supervisor writes, byte by byte: how much of the worker's output it is at any time, what a spent activation still
    adds to it, where reads may be split, and how it ends when a write stops midway. The theorems about whole runs are in
    the module `SupervisedRuns`. */
module SupervisedOutput {
  import opened Terms
  import opened Wire
  import opened Supervisor

  /** The bytes of the worker's output that are on the pipe, newlines included. */
  function Forwarded(out: seq<Output>): string {
    if out == [] then "" else Forwarded(out[..|out| - 1]) + Bytes(out[|out| - 1])
  }

  function Bytes(o: Output): string {
    match o
    case Frame(text, _) => text + "\n"
    case Torn(part) => part
    case Event(_) => ""
  }

  function Chars(bytes: seq<Stamped>): string {
    if bytes == [] then "" else [bytes[0].c] + Chars(bytes[1..])
  }

  function WrittenIn(i: Input): string {
    if i.Read? then Chars(i.chunk) else ""
  }

  /** Everything the worker wrote during a run. */
  function Written(inputs: seq<Input>): string {
    if inputs == [] then "" else WrittenIn(inputs[0]) + Written(inputs[1..])
  }

  /** While the query runs, what was written is forwarded up to the frame being collected; after its end, what was
      forwarded is a beginning of what was written. */
  predicate Faithful(s: State, written: string) {
    if s.done then Forwarded(s.out) <= written else Forwarded(s.out) + s.frame == written
  }

  lemma ForwardedAppend(out: seq<Output>, o: Output)
    ensures Forwarded(out + [o]) == Forwarded(out) + Bytes(o)
  {
    assert (out + [o])[..|out|] == out;
  }

  lemma QuietIsFaithful(s: State, t: State, written: string)
    requires Faithful(s, written) && Quiet(s, t) && (t.done || t.frame == s.frame)
    requires t.out != s.out ==> t.out[|s.out|].Event?
    ensures Faithful(t, written)
  {
    if t.out != s.out {
      assert t.out == s.out + [t.out[|s.out|]];
      ForwardedAppend(s.out, t.out[|s.out|]);
    }
  }

  lemma PrefixGrows(a: string, b: string, c: string)
    requires a <= b
    ensures a <= b + c
  {
  }

  lemma ByteIsFaithful(k: Config, s: State, b: Stamped, written: string)
    requires Faithful(s, written)
    ensures Faithful(TakeByte(k, s, b), written + [b.c])
  {
    var after := TakeByte(k, s, b);
    ByteCases(k, s, b);
    if after.active != s.active {
      ForwardedAppend(s.out, Frame(s.frame, b.now));
      assert Forwarded(s.out) + (s.frame + "\n") == Forwarded(s.out) + s.frame + "\n";
    } else if after.done && Midway(k, s, b) {
      var part := Cut(s.frame + "\n", b.emission.written);
      ForwardedAppend(s.out, Torn(part));
      assert Forwarded(s.out) + (s.frame + "\n") == written + [b.c];
      assert Forwarded(s.out) + part <= Forwarded(s.out) + (s.frame + "\n");
    } else if after.done {
      QuietIsFaithful(s, after, written);
      PrefixGrows(Forwarded(after.out), written, [b.c]);
    } else {
      assert Forwarded(s.out) + (s.frame + [b.c]) == written + [b.c];
    }
  }

  lemma {:induction false} FeedIsFaithful(k: Config, s: State, bytes: seq<Stamped>, written: string)
    requires Faithful(s, written)
    ensures Faithful(Feed(k, s, bytes), written + Chars(bytes))
    decreases |bytes|
  {
    if bytes == [] {
      assert written + [] == written;
    } else {
      hide TakeByte, Faithful;
      ByteIsFaithful(k, s, bytes[0], written);
      FeedIsFaithful(k, TakeByte(k, s, bytes[0]), bytes[1..], written + [bytes[0].c]);
      assert written + ([bytes[0].c] + Chars(bytes[1..])) == written + [bytes[0].c] + Chars(bytes[1..]);
    }
  }

  lemma CommandIsFaithful(s: State, c: char, now: int, written: bool, text: string)
    requires Faithful(s, text)
    ensures Faithful(TakeCommandByte(s, c, now, written), text)
  {
    hide PageCommand, CText, Forwarded;
    var after := TakeCommandByte(s, c, now, written);
    if after.active == s.active {
      QuietIsFaithful(s, after, text);
    }
  }

  lemma StepIsFaithful(k: Config, s: State, i: Input, written: string)
    requires Faithful(s, written)
    ensures Faithful(Step(k, s, i), written + WrittenIn(i))
  {
    assert written + "" == written;
    match i {
      case Read(chunk) => FeedIsFaithful(k, s, chunk, written);
      case Command(c, now, ok) => CommandIsFaithful(s, c, now, ok, written);
      case Tick(now, memory) => QuietIsFaithful(s, Check(k, s, now, memory), written);
      case Lost(reason) => QuietIsFaithful(s, Lose(s, reason), written);
    }
  }

  lemma {:induction false} FeedSplits(k: Config, s: State, a: seq<Stamped>, b: seq<Stamped>)
    ensures Feed(k, s, a + b) == Feed(k, Feed(k, s, a), b)
    decreases |a|
  {
    if a == [] {
      assert a + b == b;
    } else {
      assert (a + b)[1..] == a[1..] + b;
      FeedSplits(k, TakeByte(k, s, a[0]), a[1..], b);
    }
  }

  predicate NotBefore(bytes: seq<Stamped>, now: int) {
    forall i :: 0 <= i < |bytes| ==> bytes[i].now >= now
  }

  predicate InputNotBefore(i: Input, now: int) {
    match i
    case Read(chunk) => NotBefore(chunk, now)
    case Command(_, at, _) => at >= now
    case Tick(at, _) => at >= now
    case Lost(_) => true
  }

  predicate InputsNotBefore(inputs: seq<Input>, now: int) {
    forall i :: 0 <= i < |inputs| ==> InputNotBefore(inputs[i], now)
  }

  /** The activation is over without another frame: the query has ended or its budget is used up. */
  predicate Spent(s: State, now: int) {
    s.active && (s.done || s.remaining - (now - s.started) <= 0)
  }

  lemma SpentByte(k: Config, s: State, now: int, b: Stamped)
    requires Spent(s, now) && b.now >= now
    ensures Spent(TakeByte(k, s, b), now) && Frames(TakeByte(k, s, b).out) == Frames(s.out)
  {
    var t := TakeByte(k, s, b);
    ByteCases(k, s, b);
    if t.out != s.out {
      assert t.out == s.out + [t.out[|s.out|]];
      FramesAppend(s.out, t.out[|s.out|]);
    }
  }

  lemma {:induction false} SpentBytes(k: Config, s: State, now: int, bytes: seq<Stamped>)
    requires Spent(s, now) && NotBefore(bytes, now)
    ensures Spent(Feed(k, s, bytes), now) && Frames(Feed(k, s, bytes).out) == Frames(s.out)
    decreases |bytes|
  {
    if bytes != [] {
      SpentByte(k, s, now, bytes[0]);
      SpentBytes(k, TakeByte(k, s, bytes[0]), now, bytes[1..]);
    }
  }

  lemma SpentStep(k: Config, s: State, now: int, i: Input)
    requires Spent(s, now) && InputNotBefore(i, now)
    ensures Spent(Step(k, s, i), now) && Frames(Step(k, s, i).out) == Frames(s.out)
  {
    match i
    case Read(chunk) => SpentBytes(k, s, now, chunk);
    case _ =>
      var t := Step(k, s, i);
      if t.out != s.out {
        assert t.out == s.out + [t.out[|s.out|]];
        FramesAppend(s.out, t.out[|s.out|]);
      }
  }

  function Singles(chunk: seq<Stamped>): seq<Input> {
    if chunk == [] then [] else [Read([chunk[0]])] + Singles(chunk[1..])
  }

  lemma {:induction false} SinglesNotBefore(chunk: seq<Stamped>, now: int)
    requires NotBefore(chunk, now)
    ensures InputsNotBefore(Singles(chunk), now)
  {
    if chunk != [] {
      assert NotBefore([chunk[0]], now);
      SinglesNotBefore(chunk[1..], now);
    }
  }

  lemma {:induction false} RunSplits(k: Config, s: State, a: seq<Input>, b: seq<Input>)
    ensures Run(k, s, a + b) == Run(k, Run(k, s, a), b)
    decreases |a|
  {
    if a == [] {
      assert a + b == b;
    } else {
      assert (a + b)[1..] == a[1..] + b;
      RunSplits(k, Step(k, s, a[0]), a[1..], b);
    }
  }

  lemma {:induction false} SinglesRun(k: Config, s: State, chunk: seq<Stamped>)
    ensures Run(k, s, Singles(chunk)) == Feed(k, s, chunk)
    decreases |chunk|
  {
    if chunk != [] {
      var one := [chunk[0]];
      assert one[1..] == [];
      assert Feed(k, TakeByte(k, s, chunk[0]), one[1..]) == TakeByte(k, s, chunk[0]);
      assert Step(k, s, Read(one)) == TakeByte(k, s, chunk[0]);
      SinglesRun(k, TakeByte(k, s, chunk[0]), chunk[1..]);
    }
  }

  /** Nothing follows an event or a torn frame, and that is a proper and not empty beginning of a valid line. */
  ghost predicate TornLast(s: State) {
    forall i :: 0 <= i < |s.out| && !s.out[i].Frame? ==>
      i == |s.out| - 1 && s.done && (s.out[i].Torn? ==> ProperPart(s.out[i].part))
  }

  ghost predicate ProperPart(part: string) {
    part != "" && exists text: string :: ValidEvent(text) && PartOf(part, text)
  }

  predicate PartOf(part: string, text: string) {
    |part| <= |text| && part == (text + "\n")[..|part|]
  }

  predicate HasTorn(out: seq<Output>) {
    exists i :: 0 <= i < |out| && out[i].Torn?
  }

  predicate FeedMidway(k: Config, s: State, bytes: seq<Stamped>)
    decreases |bytes|
  {
    bytes != [] && (Midway(k, s, bytes[0]) || FeedMidway(k, TakeByte(k, s, bytes[0]), bytes[1..]))
  }

  /** Some output in the run stops midway. */
  predicate RunMidway(k: Config, s: State, inputs: seq<Input>)
    decreases |inputs|
  {
    inputs != [] && ((inputs[0].Read? && FeedMidway(k, s, inputs[0].chunk)) || RunMidway(k, Step(k, s, inputs[0]), inputs[1..]))
  }

  lemma AppendKeepsTorn(s: State, t: State, o: Output)
    requires TornLast(s) && !s.done && t.out == s.out + [o] && (!o.Frame? ==> t.done) && (o.Torn? ==> ProperPart(o.part))
    ensures TornLast(t) && !HasTorn(s.out) && (HasTorn(t.out) <==> o.Torn?)
  {
    if o.Torn? {
      assert t.out[|s.out|].Torn?;
    }
  }

  lemma TornByte(k: Config, s: State, b: Stamped)
    requires TornLast(s)
    ensures var t := TakeByte(k, s, b); TornLast(t) && (HasTorn(t.out) <==> HasTorn(s.out) || Midway(k, s, b))
  {
    var t := TakeByte(k, s, b);
    ByteCases(k, s, b);
    if t.out != s.out {
      var o := t.out[|s.out|];
      assert t.out == s.out + [o];
      if Midway(k, s, b) {
        var part := Cut(s.frame + "\n", b.emission.written);
        CutShort(s.frame + "\n", b.emission.written);
        assert PartOf(part, s.frame);
      }
      AppendKeepsTorn(s, t, o);
    }
  }

  lemma {:induction false} TornFeed(k: Config, s: State, bytes: seq<Stamped>)
    requires TornLast(s)
    ensures var t := Feed(k, s, bytes); TornLast(t) && (HasTorn(t.out) <==> HasTorn(s.out) || FeedMidway(k, s, bytes))
    decreases |bytes|
  {
    if bytes != [] {
      TornByte(k, s, bytes[0]);
      TornFeed(k, TakeByte(k, s, bytes[0]), bytes[1..]);
    }
  }

  lemma TornOther(k: Config, s: State, i: Input)
    requires TornLast(s) && !i.Read?
    ensures TornLast(Step(k, s, i)) && (HasTorn(Step(k, s, i).out) <==> HasTorn(s.out))
  {
    var t := Step(k, s, i);
    if t.out != s.out {
      AppendKeepsTorn(s, t, t.out[|s.out|]);
    }
  }

  lemma {:induction false} TornRun(k: Config, s: State, inputs: seq<Input>)
    requires TornLast(s)
    ensures var t := Run(k, s, inputs); TornLast(t) && (HasTorn(t.out) <==> HasTorn(s.out) || RunMidway(k, s, inputs))
    decreases |inputs|
  {
    if inputs != [] {
      if inputs[0].Read? {
        TornFeed(k, s, inputs[0].chunk);
      } else {
        TornOther(k, s, inputs[0]);
      }
      TornRun(k, Step(k, s, inputs[0]), inputs[1..]);
    }
  }

  /** All forwarded frames, each with its newline. */
  function Lines(frames: seq<Output>): string {
    if frames == [] then "" else Lines(frames[..|frames| - 1]) + Bytes(frames[|frames| - 1])
  }

  lemma LinesAppend(frames: seq<Output>, o: Output)
    ensures Lines(frames + [o]) == Lines(frames) + Bytes(o)
  {
    assert (frames + [o])[..|frames|] == frames;
  }

  /** What one more output does to the bytes and the lines. */
  lemma OneMore(init: seq<Output>, o: Output)
    ensures Forwarded(init + [o]) == Forwarded(init) + Bytes(o)
    ensures Lines(Frames(init + [o])) == Lines(Frames(init)) + if o.Frame? then Bytes(o) else ""
  {
    ForwardedAppend(init, o);
    FramesAppend(init, o);
    if o.Frame? {
      LinesAppend(Frames(init), o);
    } else {
      assert Frames(init) + [] == Frames(init) && Lines(Frames(init)) + "" == Lines(Frames(init));
    }
  }

  predicate Untorn(out: seq<Output>) {
    forall i :: 0 <= i < |out| ==> !out[i].Torn?
  }

  lemma {:induction false} UntornLines(out: seq<Output>)
    requires Untorn(out)
    ensures Forwarded(out) == Lines(Frames(out))
  {
    if out != [] {
      var init, o := out[..|out| - 1], out[|out| - 1];
      UntornLines(init);
      assert out == init + [o];
      OneMore(init, o);
    }
  }

  function EventText(reason: string): string {
    ERROR + "\"" + reason + "\"}"
  }

  lemma EventIsValid(reason: string)
    ensures ValidEvent(EventText(reason))
  {
    assert StartsWith(EventText(reason), ERROR);
  }

  /** What is on the pipe after the last whole frame. An event of the supervisor is written whole, or `cut` bytes of it. */
  function Rest(out: seq<Output>, cut: Option<nat>): string {
    if out == [] then "" else
    match out[|out| - 1]
    case Frame(_, _) => ""
    case Torn(part) => part
    case Event(reason) =>
      match cut
      case None => EventText(reason) + "\n"
      case Some(n) => Cut(EventText(reason) + "\n", n)
  }

  /** Everything on the pipe: whole outputs, and the last one as far as it got. */
  function OnPipe(out: seq<Output>, cut: Option<nat>): string {
    if out == [] then "" else Forwarded(out[..|out| - 1]) + if out[|out| - 1].Frame? then Bytes(out[|out| - 1]) else Rest(out, cut)
  }

  /** The supervisor's own event stops midway, too. */
  predicate EventMidway(out: seq<Output>, cut: Option<nat>) {
    out != [] && out[|out| - 1].Event? && cut.Some? && cut.value > 0
  }

  lemma EventRest(out: seq<Output>, reason: string, cut: Option<nat>)
    requires out != [] && out[|out| - 1] == Event(reason)
    ensures if EventMidway(out, cut) then ProperPart(Rest(out, cut))
            else Rest(out, cut) == if cut == Some(0) then "" else EventText(reason) + "\n"
  {
    EventIsValid(reason);
    if cut.Some? {
      CutShort(EventText(reason) + "\n", cut.value);
      assert PartOf(Rest(out, cut), EventText(reason));
    }
  }

  lemma Nothing(a: string)
    ensures a + "" == a
  {
  }

  lemma PipeOneMore(init: seq<Output>, o: Output, cut: Option<nat>)
    requires Untorn(init)
    ensures OnPipe(init + [o], cut) == Lines(Frames(init + [o])) + Rest(init + [o], cut)
  {
    var out := init + [o];
    assert out[..|init|] == init && out[|init|] == o;
    UntornLines(init);
    OneMore(init, o);
    Nothing(Lines(Frames(out)));
    if !o.Frame? {
      Nothing(Lines(Frames(init)));
    }
  }

  lemma EmptyPipe(cut: Option<nat>)
    ensures OnPipe([], cut) == Lines(Frames([])) + Rest([], cut)
  {
  }

  lemma PipeLines(out: seq<Output>, cut: Option<nat>)
    requires forall i :: 0 <= i < |out| && !out[i].Frame? ==> i == |out| - 1
    ensures OnPipe(out, cut) == Lines(Frames(out)) + Rest(out, cut)
  {
    hide OnPipe, Lines, Frames, Rest;
    if out == [] {
      EmptyPipe(cut);
    } else {
      var init, o := out[..|out| - 1], out[|out| - 1];
      assert Untorn(init);
      assert init + [o] == out;
      PipeOneMore(init, o, cut);
    }
  }

  lemma TornIsLast(t: State)
    requires TornLast(t)
    ensures HasTorn(t.out) <==> t.out != [] && t.out[|t.out| - 1].Torn?
  {
  }

  lemma LastRest(t: State, cut: Option<nat>)
    requires TornLast(t)
    ensures if HasTorn(t.out) || EventMidway(t.out, cut) then t.done && ProperPart(Rest(t.out, cut))
            else Rest(t.out, cut) == "" || WholeEvent(t, Rest(t.out, cut))
  {
    TornIsLast(t);
    if t.out != [] && t.out[|t.out| - 1].Event? {
      EventRest(t.out, t.out[|t.out| - 1].reason, cut);
    }
  }

  predicate WholeEvent(t: State, line: string) {
    t.done && t.out != [] && t.out[|t.out| - 1].Event? && line == EventText(t.out[|t.out| - 1].reason) + "\n"
  }

  lemma TornFailure(k: Config, s: State, last: Stamped)
    requires s.active && !s.done && s.frame == FAILURE && s.out == [] && k.maxOutput >= 100
    requires last.c == '\n' && last.memory.None? && last.emission == Stopped(5, None) && s.remaining - (last.now - s.started) > 0
    ensures Forwarded(TakeByte(k, s, last).out) == FAILURE[..5]
  {
    hide CText, Forwarded;
    FailureIsValid();
    assert Cut(FAILURE + "\n", 5) == FAILURE[..5];
    assert TakeByte(k, s, last).out == [] + [Torn(FAILURE[..5])];
    ForwardedAppend([], Torn(FAILURE[..5]));
    NothingForwarded();
    assert "" + FAILURE[..5] == FAILURE[..5];
  }

  lemma NothingForwarded()
    ensures Forwarded([]) == ""
  {
  }

  lemma FailureIsValid()
    ensures ValidEvent(FAILURE) && |FAILURE| < 100
  {
    assert FAILURE[|FAILURE| - 1] == '}';
    assert NUL !in FAILURE;
    CTextWhole(FAILURE);
  }

  function Stamp(text: string, now: int): seq<Stamped> {
    if text == "" then [] else [Stamped(text[0], now, None, Entire(now))] + Stamp(text[1..], now)
  }

  lemma {:induction false} CollectPlain(k: Config, s: State, text: string, now: int)
    requires !s.done && |s.frame| + |text| <= k.maxOutput && forall i :: 0 <= i < |text| ==> text[i] != '\n'
    ensures Feed(k, s, Stamp(text, now)) == s.(frame := s.frame + text)
    decreases |text|
  {
    if text == "" {
      assert s.frame + text == s.frame;
    } else {
      var t := s.(frame := s.frame + [text[0]]);
      CollectPlain(k, t, text[1..], now);
      assert t.frame + text[1..] == s.frame + text;
    }
  }
}
