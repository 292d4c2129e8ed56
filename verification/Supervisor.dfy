/** One supervised query: framing of worker output, commands, and the active-time budget. The event loop is a state machine
    over bytes of output, bytes of commands and checks; its invariant holds in every run, and the state in memory follows
    it step by step. */
module Supervisor {
  import opened Terms
  import opened Wire

  const COMMAND_SIZE: nat := 32

  predicate ValidEvent(s: string) {
    s != [] && s[|s| - 1] == '}' && (StartsWith(s, SUCCESS) || StartsWith(s, ERROR) || CText(s) == FAILURE)
  }

  /** What reaches the controller: a worker frame, with the clock reading at its end; the beginning of a frame whose
      output stopped midway; or an event of the supervisor. */
  datatype Output = Frame(text: string, at: int) | Torn(part: string) | Event(reason: string)

  /** A command written to the worker, and the clock reading after it. */
  datatype Sent = Sent(line: string, at: int)

  datatype Config = Config(maxOutput: nat, timeLimit: int, idleLimit: int)

  datatype State = State(active: bool, done: bool, frame: string, remaining: int, started: int, idleStarted: int,
                         command: string, out: seq<Output>, sent: seq<Sent>)

  /** How `emit` ends; `after` is the clock then. It writes in pieces and stops after a second without progress, on a signal, on an error, or when
      the memory monitor finds a fault; `written` bytes are on the pipe by then. A fault found before the first byte is
      reported as an event. */
  datatype Emission = Entire(after: int) | Stopped(written: nat, late: Option<string>)

  /** A byte of worker output with what happens if it ends a frame: the clock reading, the memory monitor's verdict, and
      how the output of the frame ends. */
  datatype Stamped = Stamped(c: char, now: int, memory: Option<string>, emission: Emission)

  function Initial(k: Config, now: int): State {
    State(true, false, "", k.timeLimit, now, 0, "", [], [])
  }

  function Fail(s: State, reason: string): State {
    s.(out := s.out + [Event(reason)], done := true)
  }

  /** One byte of worker output. */
  function TakeByte(k: Config, s: State, b: Stamped): State {
    if s.done then s
    else if |s.frame| >= k.maxOutput then Fail(s, "output_limit_exceeded")
    else if b.c != '\n' then s.(frame := s.frame + [b.c])
    else if !s.active || !ValidEvent(s.frame) then Fail(s, "worker_protocol_error")
    else if b.memory.Some? then Fail(s, b.memory.value)
    else
      var left := s.remaining - (b.now - s.started);
      var spent := s.(remaining := left);
      if left <= 0 then Fail(spent, "time_limit_exceeded")
      else if b.emission.Stopped? then Interrupt(spent, b.emission)
      else spent.(frame := "", active := false, idleStarted := b.emission.after, done := !EndsWith(s.frame, MORE),
                  out := s.out + [Frame(s.frame, b.now)])
  }

  /** Output of the collected frame stopped before its end. */
  function Interrupt(s: State, e: Emission): State
    requires e.Stopped?
  {
    var part := Cut(s.frame + "\n", e.written);
    s.(done := true,
       out := s.out + if part != "" then [Torn(part)] else if e.late.Some? then [Event(e.late.value)] else [])
  }

  /** The first n bytes of a line, but never the whole line. */
  function Cut(line: string, n: nat): string {
    if line == "" then "" else if n < |line| then line[..n] else line[..|line| - 1]
  }

  function Feed(k: Config, s: State, bytes: seq<Stamped>): State
    decreases |bytes|
  {
    if bytes == [] then s else Feed(k, TakeByte(k, s, bytes[0]), bytes[1..])
  }

  /** The check at the top of the event loop. */
  function Check(k: Config, s: State, now: int, memory: Option<string>): State {
    if s.done then s
    else if memory.Some? then Fail(s, memory.value)
    else if s.active && s.remaining - (now - s.started) <= 0 then Fail(s, "time_limit_exceeded")
    else if !s.active && k.idleLimit - (now - s.idleStarted) <= 0 then Fail(s, "continuation_expired")
    else s
  }

  function Lose(s: State, reason: Option<string>): State {
    if s.done then s else if reason.Some? then Fail(s, reason.value) else s.(done := true)
  }

  // ---------- commands ----------

  predicate Space(c: char) {
    c == ' ' || '\t' <= c <= '\r'
  }

  function Digits(s: string, n: nat): (nat, string) {
    if s != [] && '0' <= s[0] <= '9' then Digits(s[1..], n * 10 + (s[0] as int - '0' as int)) else (n, s)
  }

  function SkipSpace(s: string): string {
    if s != [] && Space(s[0]) then SkipSpace(s[1..]) else s
  }

  /** `strtol`: the number at the front and what is left; without digits nothing is consumed. */
  function StrToL(s: string): (int, string) {
    var t := SkipSpace(s);
    var signed := t != [] && (t[0] == '-' || t[0] == '+');
    var u := if signed then t[1..] else t;
    if u == [] || !('0' <= u[0] <= '9') then (0, s)
    else
      var (n: int, rest) := Digits(u, 0);
      (if signed && t[0] == '-' then 0 - n else n as int, rest)
  }

  predicate PageCommand(c: string) {
    c == "next" || (StartsWith(c, "next ") && var (n, rest) := StrToL(c[5..]); rest == "" && 0 <= n <= MAX_PAGE)
  }

  /** One byte of controller input. `written` says whether a complete command reached the worker. */
  function TakeCommandByte(s: State, c: char, now: int, written: bool): State {
    if s.done then s
    else if |s.command| >= COMMAND_SIZE - 1 then Fail(s, "protocol_error")
    else if c != '\n' then s.(command := s.command + [c])
    else
      var t := s.(command := "");
      var line := CText(s.command);
      if line == "stop" then Fail(t, "cancelled")
      else if s.active || !PageCommand(line) then Fail(t, "protocol_error")
      else if !written then Fail(t, "worker_exit")
      else t.(active := true, started := now, sent := s.sent + [Sent(line + "\n", now)])
  }

  /** What the event loop meets: worker output, a byte of a command, a check at its top, or its end, by the loss of the
      worker or the controller or, without an event, by a signal. */
  datatype Input =
    | Read(chunk: seq<Stamped>)
    | Command(c: char, now: int, written: bool)
    | Tick(now: int, memory: Option<string>)
    | Lost(reason: Option<string>)

  function Step(k: Config, s: State, i: Input): State {
    match i
    case Read(chunk) => Feed(k, s, chunk)
    case Command(c, now, written) => TakeCommandByte(s, c, now, written)
    case Tick(now, memory) => Check(k, s, now, memory)
    case Lost(reason) => Lose(s, reason)
  }

  function Run(k: Config, s: State, inputs: seq<Input>): State
    decreases |inputs|
  {
    if inputs == [] then s else Run(k, Step(k, s, inputs[0]), inputs[1..])
  }

  // ---------- invariants of all runs ----------

  function Frames(out: seq<Output>): seq<Output> {
    if out == [] then [] else Frames(out[..|out| - 1]) + if out[|out| - 1].Frame? then [out[|out| - 1]] else []
  }

  predicate GoodFrame(k: Config, f: Output) {
    f.Frame? && ValidEvent(f.text) && |f.text| + 1 <= k.maxOutput
  }

  predicate AllGood(k: Config, out: seq<Output>) {
    forall i :: 0 <= i < |out| && out[i].Frame? ==> GoodFrame(k, out[i])
  }

  /** When activation n began: the first at t0, each later one with the command that asked for it. */
  function Began(t0: int, sent: seq<Sent>, n: nat): int
    requires n <= |sent|
  {
    if n == 0 then t0 else sent[n - 1].at
  }

  /** The time from the beginning of each of the first n activations to the end of its frame; idle time between a
      frame and the next command is not part of it. */
  function ActiveTime(t0: int, sent: seq<Sent>, frames: seq<Output>, n: nat): int
    requires n <= |frames| <= |sent| + 1 && forall i :: 0 <= i < n ==> frames[i].Frame?
  {
    if n == 0 then 0 else ActiveTime(t0, sent, frames, n - 1) + (frames[n - 1].at - Began(t0, sent, n - 1))
  }

  lemma {:induction false} ActiveTimeKept(t0: int, sent: seq<Sent>, moreSent: seq<Sent>, frames: seq<Output>, more: seq<Output>, n: nat)
    requires n <= |frames| <= |sent| + 1 && |frames + more| <= |sent + moreSent| + 1
    requires forall i :: 0 <= i < n ==> frames[i].Frame?
    ensures ActiveTime(t0, sent + moreSent, frames + more, n) == ActiveTime(t0, sent, frames, n)
  {
    if n > 0 {
      ActiveTimeKept(t0, sent, moreSent, frames, more, n - 1);
    }
  }

  /** Frames and activations: at most one frame per activation, the remaining budget is what the activations so far
      have not used, and every forwarded frame came before the budget was used up. */
  predicate Timed(k: Config, t0: int, sent: seq<Sent>, frames: seq<Output>, s: State) {
    && (forall i :: 0 <= i < |frames| ==> frames[i].Frame?)
    && |frames| <= 1 + |sent|
    && (s.active && !s.done ==> |frames| == |sent| && s.started == Began(t0, sent, |sent|))
    && (!s.active ==> |frames| == 1 + |sent|)
    && (!s.done ==> s.remaining == k.timeLimit - ActiveTime(t0, sent, frames, |frames|))
    && forall n :: 1 <= n <= |frames| ==> ActiveTime(t0, sent, frames, n) < k.timeLimit
  }

  /** Every command written to the worker fits the worker's line buffer and is one that it accepts. */
  predicate AllAccepted(sent: seq<Sent>) {
    forall i :: 0 <= i < |sent| ==> |sent[i].line| < COMMAND_SIZE && WorkerAccepts(sent[i].line)
  }

  /** Forwarded frames are whole, valid and bounded, and keep to the time budget. */
  predicate Inv(k: Config, t0: int, s: State) {
    && AllGood(k, s.out) && AllAccepted(s.sent)
    && Timed(k, t0, s.sent, Frames(s.out), s)
    && |s.frame| <= k.maxOutput && |s.command| <= COMMAND_SIZE - 1
  }

  lemma FramesAppend(out: seq<Output>, o: Output)
    ensures Frames(out + [o]) == Frames(out) + if o.Frame? then [o] else []
  {
    assert (out + [o])[..|out|] == out;
  }

  /** A step that neither forwards a frame nor starts an activation; it may end the query with an event or midway in a
      frame. */
  predicate Quiet(s: State, t: State) {
    && (t.out == s.out || (|t.out| == |s.out| + 1 && t.out[..|s.out|] == s.out && !t.out[|s.out|].Frame? && t.done))
    && t.sent == s.sent && t.active == s.active && t.started == s.started
    && (t.done || (!s.done && t.remaining == s.remaining))
  }

  lemma QuietKeepsInv(k: Config, t0: int, s: State, t: State)
    requires Inv(k, t0, s) && Quiet(s, t)
    requires |t.frame| <= k.maxOutput && |t.command| <= COMMAND_SIZE - 1
    ensures Inv(k, t0, t) && Frames(t.out) == Frames(s.out)
  {
    if t.out != s.out {
      assert t.out == s.out + [t.out[|s.out|]];
      FramesAppend(s.out, t.out[|s.out|]);
      assert Frames(s.out) + [] == Frames(s.out);
    }
    assert Frames(t.out) == Frames(s.out) && t.sent == s.sent;
    assert Timed(k, t0, s.sent, Frames(s.out), t);
  }

  /** Forwarding a frame within the budget. */
  lemma FrameKeepsTime(k: Config, t0: int, sent: seq<Sent>, frames: seq<Output>, s: State, f: Output, after: State)
    requires Timed(k, t0, sent, frames, s) && s.active && !s.done && f.Frame?
    requires after.remaining == s.remaining - (f.at - s.started) > 0 && !after.active
    ensures Timed(k, t0, sent, frames + [f], after)
  {
    var all, m := frames + [f], |frames|;
    assert all[m] == f && forall i :: 0 <= i < |all| ==> all[i].Frame?;
    forall n | 0 <= n <= m ensures ActiveTime(t0, sent, all, n) == ActiveTime(t0, sent, frames, n) {
      ActiveTimeKept(t0, sent, [], frames, [f], n);
      assert sent + [] == sent;
    }
    assert ActiveTime(t0, sent, all, m + 1) == ActiveTime(t0, sent, frames, m) + (f.at - s.started);
    assert ActiveTime(t0, sent, all, |all|) == k.timeLimit - after.remaining;
  }

  /** The byte ends a frame that is to be forwarded. */
  predicate Emits(k: Config, s: State, b: Stamped) {
    !s.done && |s.frame| < k.maxOutput && b.c == '\n' && s.active && ValidEvent(s.frame) && b.memory.None? &&
    s.remaining - (b.now - s.started) > 0
  }

  /** Its output stops after the first byte and before the last. */
  predicate Midway(k: Config, s: State, b: Stamped) {
    Emits(k, s, b) && b.emission.Stopped? && b.emission.written > 0
  }

  /** A byte that changes the activation state completes a frame that is forwarded; every other byte is quiet. */
  lemma ByteCases(k: Config, s: State, b: Stamped)
    ensures var t := TakeByte(k, s, b);
            && t.command == s.command
            && (t.active == s.active ==> Quiet(s, t) && |t.frame| <= if |s.frame| < k.maxOutput then k.maxOutput else |s.frame|)
            && (t.active == s.active && !t.done ==> t.frame == s.frame + [b.c] && t.out == s.out)
            && (Midway(k, s, b) ==>
                  && t.active == s.active && t.done && t.out == s.out + [Torn(Cut(s.frame + "\n", b.emission.written))])
            && (t.active == s.active && !Midway(k, s, b) && t.out != s.out ==> t.out[|s.out|].Event?)
            && (t.active != s.active ==>
                  && s.active && !s.done && t.out == s.out + [Frame(s.frame, b.now)] && t.sent == s.sent && b.c == '\n'
                  && t.frame == "" && ValidEvent(s.frame) && |s.frame| < k.maxOutput
                  && t.remaining == s.remaining - (b.now - s.started) > 0)
  {
    if Emits(k, s, b) && b.emission.Stopped? {
      CutShort(s.frame + "\n", b.emission.written);
    }
  }

  lemma CutShort(line: string, n: nat)
    requires line != ""
    ensures |Cut(line, n)| < |line| && Cut(line, n) == line[..|Cut(line, n)|]
    ensures |line| >= 2 ==> (Cut(line, n) != "" <==> n > 0)
  {
  }

  lemma ByteKeepsInv(k: Config, t0: int, s: State, b: Stamped)
    requires Inv(k, t0, s)
    ensures Inv(k, t0, TakeByte(k, s, b))
  {
    var after := TakeByte(k, s, b);
    ByteCases(k, s, b);
    if after.active == s.active {
      QuietKeepsInv(k, t0, s, after);
    } else {
      ForwardKeepsInv(k, t0, s, Frame(s.frame, b.now), after);
    }
  }

  lemma ForwardKeepsInv(k: Config, t0: int, s: State, f: Output, after: State)
    requires Inv(k, t0, s) && s.active && !s.done && GoodFrame(k, f)
    requires after.out == s.out + [f] && after.sent == s.sent && after.frame == "" && after.command == s.command
    requires after.remaining == s.remaining - (f.at - s.started) > 0 && !after.active
    ensures Inv(k, t0, after)
  {
    FramesAppend(s.out, f);
    FrameKeepsTime(k, t0, s.sent, Frames(s.out), s, f, after);
  }

  lemma {:induction false} FeedKeepsInv(k: Config, t0: int, s: State, bytes: seq<Stamped>)
    requires Inv(k, t0, s)
    ensures Inv(k, t0, Feed(k, s, bytes))
    decreases |bytes|
  {
    if bytes != [] {
      ByteKeepsInv(k, t0, s, bytes[0]);
      FeedKeepsInv(k, t0, TakeByte(k, s, bytes[0]), bytes[1..]);
    }
  }

  /** Starting an activation. */
  lemma CommandKeepsTime(k: Config, t0: int, sent: seq<Sent>, frames: seq<Output>, s: State, command: Sent, after: State)
    requires Timed(k, t0, sent, frames, s) && !s.active && !s.done
    requires after.active && after.remaining == s.remaining && after.started == command.at
    ensures Timed(k, t0, sent + [command], frames, after)
  {
    forall n | 0 <= n <= |frames| ensures ActiveTime(t0, sent + [command], frames, n) == ActiveTime(t0, sent, frames, n) {
      ActiveTimeKept(t0, sent, [command], frames, [], n);
      assert frames + [] == frames;
    }
  }

  lemma CommandKeepsInv(k: Config, t0: int, s: State, c: char, now: int, written: bool)
    requires Inv(k, t0, s)
    ensures Inv(k, t0, TakeCommandByte(s, c, now, written))
  {
    hide PageCommand, WorkerAccepts, CText, Frames;
    var after := TakeCommandByte(s, c, now, written);
    if after.active == s.active {
      QuietKeepsInv(k, t0, s, after);
    } else {
      PassedOnIsAccepted(CText(s.command));
      CommandKeepsTime(k, t0, s.sent, Frames(s.out), s, Sent(CText(s.command) + "\n", now), after);
    }
  }

  lemma CheckKeepsInv(k: Config, t0: int, s: State, now: int, memory: Option<string>)
    requires Inv(k, t0, s)
    ensures Inv(k, t0, Check(k, s, now, memory))
  {
    QuietKeepsInv(k, t0, s, Check(k, s, now, memory));
  }

  /** Every run of the event loop, under any interleaving of output chunks, command bytes and checks. */
  lemma {:induction false} RunKeepsInv(k: Config, t0: int, s: State, inputs: seq<Input>)
    requires Inv(k, t0, s)
    ensures Inv(k, t0, Run(k, s, inputs))
    decreases |inputs|
  {
    if inputs != [] {
      match inputs[0] {
        case Read(chunk) => FeedKeepsInv(k, t0, s, chunk);
        case Command(c, now, written) => CommandKeepsInv(k, t0, s, c, now, written);
        case Tick(now, memory) => CheckKeepsInv(k, t0, s, now, memory);
        case Lost(reason) => QuietKeepsInv(k, t0, s, Lose(s, reason));
      }
      RunKeepsInv(k, t0, Step(k, s, inputs[0]), inputs[1..]);
    }
  }

  lemma {:induction false} DoneStays(k: Config, s: State, bytes: seq<Stamped>)
    requires s.done
    ensures Feed(k, s, bytes) == s
  {
    if bytes != [] {
      DoneStays(k, s, bytes[1..]);
    }
  }

  // ---------- commands that reach the worker ----------

  /** What the worker accepts of a command line. */
  predicate WorkerAccepts(line: string) {
    line == "next\n" || (StartsWith(line, "next ") && var (n, rest) := StrToL(line[5..]); rest == "\n" && 0 <= n <= MAX_PAGE)
  }

  lemma {:induction false} DigitsNewline(s: string, n: nat)
    ensures Digits(s + "\n", n) == (Digits(s, n).0, Digits(s, n).1 + "\n")
  {
    if s != [] && '0' <= s[0] <= '9' {
      assert (s + "\n")[1..] == s[1..] + "\n";
      DigitsNewline(s[1..], n * 10 + (s[0] as int - '0' as int));
    }
  }

  lemma {:induction false} SkipSpaceNewline(s: string)
    ensures SkipSpace(s) != [] ==> SkipSpace(s + "\n") == SkipSpace(s) + "\n"
    ensures SkipSpace(s) == [] ==> SkipSpace(s + "\n") == []
  {
    if s == [] {
      assert s + "\n" == "\n";
      assert "\n"[1..] == [];
    } else {
      assert (s + "\n")[1..] == s[1..] + "\n";
      if Space(s[0]) {
        SkipSpaceNewline(s[1..]);
      }
    }
  }

  lemma StrToLNewline(s: string)
    ensures StrToL(s + "\n").0 == StrToL(s).0 && StrToL(s + "\n").1 == StrToL(s).1 + "\n"
  {
    var t := SkipSpace(s);
    SkipSpaceNewline(s);
    if t != [] {
      assert (t + "\n")[0] == t[0];
      assert (t + "\n")[1..] == t[1..] + "\n";
      var u := if t[0] == '-' || t[0] == '+' then t[1..] else t;
      DigitsNewline(u, 0);
      assert u != [] ==> (u + "\n")[0] == u[0];
      assert u == [] ==> u + "\n" == "\n";
    }
  }

  /** The supervisor and the worker agree on page commands: what is passed on is accepted. */
  lemma PassedOnIsAccepted(c: string)
    requires PageCommand(c)
    ensures WorkerAccepts(c + "\n")
  {
    if c != "next" {
      assert (c + "\n")[..5] == c[..5];
      assert (c + "\n")[5..] == c[5..] + "\n";
      StrToLNewline(c[5..]);
      assert "" + "\n" == "\n";
    }
  }

  // ---------- the event loop's state in memory ----------

  class EventLoop {
    const config: Config
    const buffer: array<char>      // one byte longer than the longest frame
    var used: nat
    var active: bool
    var done: bool
    var remaining: int
    var started: int
    var idleStarted: int
    var command: string
    var out: seq<Output>
    var sent: seq<Sent>

    ghost predicate Valid()
      reads this
    {
      buffer.Length == config.maxOutput + 2 && used <= config.maxOutput
    }

    function Now(): State
      reads this, buffer
      requires used <= buffer.Length
    {
      State(active, done, buffer[..used], remaining, started, idleStarted, command, out, sent)
    }

    constructor (config: Config, now: int)
      ensures Valid() && fresh(buffer) && this.config == config && Now() == Initial(config, now)
    {
      this.config := config;
      buffer := new char[config.maxOutput + 2];
      used, active, done := 0, true, false;
      remaining, started, idleStarted := config.timeLimit, now, 0;
      command, out, sent := "", [], [];
    }

    method Fails(reason: string)
      requires Valid()
      modifies `out, `done
      ensures Valid() && Now() == Fail(old(Now()), reason)
    {
      out := out + [Event(reason)];
      done := true;
    }

    method HandleByte(b: Stamped)
      requires Valid() && !done
      modifies this, buffer
      ensures Valid() && Now() == TakeByte(config, old(Now()), b)
    {
      hide ValidEvent, Cut, EndsWith;
      if used >= config.maxOutput {
        Fails("output_limit_exceeded");
        return;
      }
      if b.c != '\n' {
        buffer[used] := b.c;
        assert buffer[..used + 1] == old(buffer[..used]) + [b.c];
        used := used + 1;
        return;
      }
      var text := buffer[..used];
      if !active || !ValidEvent(text) {
        Fails("worker_protocol_error");
        return;
      }
      if b.memory.Some? {
        Fails(b.memory.value);
        return;
      }
      remaining := remaining - (b.now - started);
      if remaining <= 0 {
        Fails("time_limit_exceeded");
        return;
      }
      if b.emission.Stopped? {
        var part := Cut(text + "\n", b.emission.written);
        if part != "" {
          out := out + [Torn(part)];
        } else if b.emission.late.Some? {
          out := out + [Event(b.emission.late.value)];
        }
        done := true;
        return;
      }
      out := out + [Frame(text, b.now)];
      used, active, idleStarted := 0, false, b.emission.after;
      done := !EndsWith(text, MORE);
    }

    /** One read of worker output: every byte of the chunk, until the query is over. */
    method HandleChunk(chunk: seq<Stamped>)
      requires Valid()
      modifies this, buffer
      ensures Valid() && Now() == Feed(config, old(Now()), chunk)
    {
      var i := 0;
      while i < |chunk| && !done
        modifies this, buffer
        invariant i <= |chunk| && Valid()
        invariant Feed(config, Now(), chunk[i..]) == Feed(config, old(Now()), chunk)
      {
        assert chunk[i..][1..] == chunk[i + 1..];
        HandleByte(chunk[i]);
        i := i + 1;
      }
      if done {
        DoneStays(config, Now(), chunk[i..]);
      }
    }

    method HandleCommandByte(c: char, now: int, written: bool)
      requires Valid() && !done
      modifies this
      ensures Valid() && Now() == TakeCommandByte(old(Now()), c, now, written)
    {
      if |command| >= COMMAND_SIZE - 1 {
        Fails("protocol_error");
        return;
      }
      if c != '\n' {
        command := command + [c];
        return;
      }
      var line := CText(command);
      command := "";
      if line == "stop" {
        Fails("cancelled");
      } else if active || !PageCommand(line) {
        Fails("protocol_error");
      } else if !written {
        Fails("worker_exit");
      } else {
        sent := sent + [Sent(line + "\n", now)];
        active, started := true, now;
      }
    }

    method CheckLimits(now: int, memory: Option<string>)
      requires Valid() && !done
      modifies `out, `done
      ensures Valid() && Now() == Check(config, old(Now()), now, memory)
    {
      if memory.Some? {
        Fails(memory.value);
        return;
      }
      var left := if active then remaining - (now - started) else config.idleLimit - (now - idleStarted);
      if left <= 0 {
        Fails(if active then "time_limit_exceeded" else "continuation_expired");
      }
    }
  }
}
