/** What the controller can rely on in every run of a supervised query. */
module SupervisedRuns {
  import opened Terms
  import opened Wire
  import opened Supervisor
  import opened SupervisedOutput

  lemma SupervisedRunsAreFramed(k: Config, now: int, inputs: seq<Input>)
    ensures Inv(k, now, Run(k, Initial(k, now), inputs))
  {
    RunKeepsInv(k, now, Initial(k, now), inputs);
  }

  /** In every run the supervisor alters, reorders and invents nothing: it forwards a beginning of what the worker
      wrote, and all of it up to the current frame as long as the query runs. */
  lemma {:induction false} RunIsFaithful(k: Config, s: State, inputs: seq<Input>, written: string)
    requires Faithful(s, written)
    ensures Faithful(Run(k, s, inputs), written + Written(inputs))
    decreases |inputs|
  {
    if inputs == [] {
      assert written + [] == written;
    } else {
      var t := Step(k, s, inputs[0]);
      StepIsFaithful(k, s, inputs[0], written);
      RunIsFaithful(k, t, inputs[1..], written + WrittenIn(inputs[0]));
      Associate(written, WrittenIn(inputs[0]), Written(inputs[1..]));
    }
  }

  // ---------- independence of how output is read ----------

  /** Nothing that comes later makes a spent activation forward a frame. */
  lemma {:induction false} SpentForwardsNothing(k: Config, s: State, now: int, rest: seq<Input>)
    requires Spent(s, now) && InputsNotBefore(rest, now)
    ensures Frames(Run(k, s, rest).out) == Frames(s.out)
    decreases |rest|
  {
    if rest != [] {
      SpentStep(k, s, now, rest[0]);
      SpentForwardsNothing(k, Step(k, s, rest[0]), now, rest[1..]);
    }
  }

  /** A deadline check during an activation does not change what a run forwards, whatever follows it. */
  lemma CheckIsHarmless(k: Config, s: State, now: int, rest: seq<Input>)
    requires s.active && InputsNotBefore(rest, now)
    ensures Frames(Run(k, Check(k, s, now, None), rest).out) == Frames(Run(k, s, rest).out)
  {
    var checked := Check(k, s, now, None);
    if checked != s {
      FramesAppend(s.out, checked.out[|s.out|]);
      SpentForwardsNothing(k, checked, now, rest);
      SpentForwardsNothing(k, s, now, rest);
    }
  }

  /** The clock does not run backwards past a check. */
  predicate Ordered(inputs: seq<Input>) {
    inputs == [] || ((inputs[0].Tick? ==> InputsNotBefore(inputs[1..], inputs[0].now)) && Ordered(inputs[1..]))
  }

  /** What a run depends on: its bytes one by one, its commands, and its checks except for the deadline checks that it
      makes during an activation. */
  function Essential(k: Config, s: State, inputs: seq<Input>): seq<Input>
    decreases |inputs|
  {
    if inputs == [] then [] else
    var rest := Essential(k, Step(k, s, inputs[0]), inputs[1..]);
    match inputs[0]
    case Read(chunk) => Singles(chunk) + rest
    case Tick(_, memory) => if s.active && memory.None? then rest else [inputs[0]] + rest
    case _ => [inputs[0]] + rest
  }

  lemma {:induction false} EssentialNotBefore(k: Config, s: State, inputs: seq<Input>, now: int)
    requires InputsNotBefore(inputs, now)
    ensures InputsNotBefore(Essential(k, s, inputs), now)
    decreases |inputs|
  {
    if inputs != [] {
      EssentialNotBefore(k, Step(k, s, inputs[0]), inputs[1..], now);
      if inputs[0].Read? {
        assert InputNotBefore(inputs[0], now);
        SinglesNotBefore(inputs[0].chunk, now);
      }
    }
  }

  lemma {:induction false} EssentialRun(k: Config, s: State, inputs: seq<Input>)
    requires Ordered(inputs)
    ensures Frames(Run(k, s, Essential(k, s, inputs)).out) == Frames(Run(k, s, inputs).out)
    decreases |inputs|
  {
    if inputs != [] {
      var next := Step(k, s, inputs[0]);
      var rest := Essential(k, next, inputs[1..]);
      EssentialRun(k, next, inputs[1..]);
      match inputs[0]
      case Read(chunk) =>
        SinglesRun(k, s, chunk);
        RunSplits(k, s, Singles(chunk), rest);
      case Tick(now, memory) =>
        if s.active && memory.None? {
          EssentialNotBefore(k, next, inputs[1..], now);
          CheckIsHarmless(k, s, now, rest);
        } else {
          assert ([inputs[0]] + rest)[1..] == rest;
        }
      case _ => assert ([inputs[0]] + rest)[1..] == rest;
    }
  }

  /** Where reads end, and when deadlines are checked during an activation, does not matter: two runs with the same bytes,
      commands and other checks in the same order forward the same frames. */
  lemma ReadsDoNotMatter(k: Config, now: int, a: seq<Input>, b: seq<Input>)
    requires Ordered(a) && Ordered(b)
    requires Essential(k, Initial(k, now), a) == Essential(k, Initial(k, now), b)
    ensures Frames(Run(k, Initial(k, now), a).out) == Frames(Run(k, Initial(k, now), b).out)
  {
    EssentialRun(k, Initial(k, now), a);
    EssentialRun(k, Initial(k, now), b);
  }

  // ---------- output that stops midway ----------

  /** All that the controller can read, events included, is whole lines followed by at most one proper beginning of a
      valid line. It is there exactly if some output stopped midway, and nothing follows it. */
  lemma ForwardedIsFramed(k: Config, now: int, inputs: seq<Input>, cut: Option<nat>)
    ensures var t := Run(k, Initial(k, now), inputs);
            var rest := Rest(t.out, cut);
            && Inv(k, now, t)
            && OnPipe(t.out, cut) == Lines(Frames(t.out)) + rest
            && (if RunMidway(k, Initial(k, now), inputs) || EventMidway(t.out, cut) then t.done && ProperPart(rest)
                else rest == "" || WholeEvent(t, rest))
  {
    var t := Run(k, Initial(k, now), inputs);
    SupervisedRunsAreFramed(k, now, inputs);
    TornRun(k, Initial(k, now), inputs);
    PipeLines(t.out, cut);
    LastRest(t, cut);
  }

  /** So the output need not be whole frames. A worker's failure line whose output stops after five bytes: */
  lemma OutputCanBeTorn(k: Config, now: int)
    requires k.maxOutput >= 100 && k.timeLimit > 0
    ensures var chunk := Stamp(FAILURE, now) + [Stamped('\n', now, None, Stopped(5, None))];
            Forwarded(Run(k, Initial(k, now), [Read(chunk)]).out) == FAILURE[..5]
  {
    var s := Initial(k, now);
    var last := Stamped('\n', now, None, Stopped(5, None));
    CollectPlain(k, s, FAILURE, now);
    Nothing(FAILURE);
    assert s.frame + FAILURE == FAILURE;
    FeedSplits(k, s, Stamp(FAILURE, now), [last]);
    TornFailure(k, s.(frame := FAILURE), last);
    assert [last][1..] == [];
  }

}
