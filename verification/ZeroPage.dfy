/** The one case in which a resumed page is not the fresh one. */
module ZeroPage {
  import opened Terms
  import opened Wire
  import opened Paging
  import opened Registry
  import opened Protocol
  import opened CacheSafety
  import opened CacheTransparency
  import CacheKey

  /** The call that begins in this step will be resumed: after expiry and enforcement an idle continuation of its job
      stands at its offset. */
  ghost predicate Hits(k: Config, nd: Node, s: Step)
    requires s.BeginStep?
  {
    var slots := Sweep(k, nd, s.clock, s.oracle).table.slots;
    exists j :: 0 <= j < |slots| && Idle(slots[j]) && slots[j].job == s.req.job && slots[j].offset == s.req.offset
  }

  /** An accepted call remembers what was asked for, and it is resumed exactly if it hits. */
  lemma CallRemembers(k: Config, w: Queries, nd: Node, s: Step, i: nat)
    requires Inv(w, nd) && s.BeginStep? && Enabled(nd, s)
    requires var (next, reply) := Take1(k, w, nd, s); reply.None? && i in next.calls && i !in nd.calls
    ensures var c := Take1(k, w, nd, s).0.calls[i];
            Sent(c) == s.req && c.asked == s.req.limit && (c.resumed <==> Hits(k, nd, s))
  {
    hide SlotsOk, SlotOk, Books, Ownership, CallOk;
    SweepKeepsInv(k, w, nd, s.clock, s.oracle);
    var e := Enforce(k, Expire(nd.table, s.clock, 0), s.oracle, nd.tick);
    HitExactly(w, nd.(table := e.table, tick := e.tick), s.req);
  }

  /** Over a run: a page that a worker delivers for a call equals what a fresh query gives, if and only if the request
      asked for at least one answer or no continuation was there for it when the call began. */
  lemma PageIsFreshExactly(k: Config, w: Queries, n: nat, states: seq<Node>, steps: seq<Step>, t: nat, u: nat, i: nat)
    requires Sound(w) && IsRun(k, w, n, states, steps) && t < u < |steps|
    requires steps[t].BeginStep? && i in states[t + 1].calls && i !in states[t].calls
    requires Enabled(states[t], steps[t]) && Take1(k, w, states[t], steps[t]).1.None?
    requires steps[u].FinishStep? && steps[u].slot == i && steps[u].outcome.FromWorker?
    requires forall x :: t < x < u ==> !(steps[x].FinishStep? && steps[x].slot == i)
    ensures Enabled(states[u], steps[u])
    ensures var reply := Take1(k, w, states[u], steps[u]).1;
            reply.Some? && reply.value.Paged? ==>
              (reply.value.page == Fresh(w, steps[t].req) <==> steps[t].req.limit >= 1 || !Hits(k, states[t], steps[t]))
  {
    ReachableAt(k, w, n, states, steps, t);
    ReachableAt(k, w, n, states, steps, u);
    assert states[t + 1] == Take1(k, w, states[t], steps[t]).0;
    CallRemembers(k, w, states[t], steps[t], i);
    CallOwnsSlot(k, w, n, states, steps, i, t + 1, u);
    var s := steps[u];
    assert Enabled(states[u], s);
    ReplyTransparent(k, w, states[u], i, s.abandoned, s.stopping, s.expires, s.oracle);
  }

  // ---------- a request that shows the difference ----------

  const CONFIG := Config(0, 0)
  const JOB := Job("g", "t", "", "prolog", false)
  const TWICE: Stream := i => if i < 2 then Answer("a") else Exhausted
  const QUERIES := Queries(j => TWICE, j => None)
  const SAMPLES: Oracle := (t, p) => Some(0)
  const CLOCK: nat -> int := i => 0

  const FIRST := BeginStep(0, Request(JOB, 0, 1), CLOCK, SAMPLES, true, true)
  const PAGE := FinishStep(0, FromWorker, false, false, 1, SAMPLES)
  const SECOND := BeginStep(0, Request(JOB, 1, 0), CLOCK, SAMPLES, true, true)

  lemma SampleIsZero(slots: seq<Slot>, i: nat, t: nat)
    requires |slots| == 1 && i <= 1 && slots[0].memory == 0
    ensures SampleFrom(CONFIG, slots, i, 0, 0, SAMPLES, t) == Sampled(true, slots, 0, 0)
    decreases 1 - i
  {
    if i == 0 {
      assert slots[0 := slots[0].(memory := 0)] == slots;
      SampleIsZero(slots, 1, t);
    }
  }

  /** Samples of nothing shed nothing. */
  lemma NothingShed(tb: Table, resume: int, t: nat)
    requires |tb.slots| == 1 && tb.slots[0].memory == 0
    ensures Enforce(CONFIG, tb, SAMPLES, t) == Shed(tb, None, t + 1)
    ensures Admit(CONFIG, tb, resume, SAMPLES, t) == Shed(tb, None, t + 1)
  {
    SampleIsZero(tb.slots, 0, t);
    EnforceUnfolds(CONFIG, tb, SAMPLES, t);
    AdmitUnfolds(CONFIG, tb, resume, SAMPLES, t);
  }

  lemma NothingExpired(tb: Table)
    requires |tb.slots| == 1 && (Idle(tb.slots[0]) ==> tb.slots[0].expires > 0)
    ensures Expire(tb, CLOCK, 0) == tb
  {
    assert Expire(tb, CLOCK, 1) == tb;
  }

  /** The slot of the first call while it runs, and once its continuation is kept. */
  function Running(): Slot {
    FREE.(pid := 1, busy := true, key := CacheKey.KeyFor(JOB), job := JOB, cursor := 0)
  }

  function Kept(): Slot {
    Running().(busy := false, offset := 1, expires := 1, order := 1, cursor := 1)
  }

  function AfterFirst(): Node {
    Node(Table([Running()], []), 0, 1, 2, map[0 := Call(0, Request(JOB, 0, 1), 1, false)])
  }

  function AfterPage(): Node {
    Node(Table([Kept()], []), 1, 1, 3, map[])
  }

  function AfterSecond(): Node {
    Node(Table([Kept().(busy := true)], []), 1, 1, 5, map[0 := Call(0, Request(JOB, 1, MAX_PAGE), 0, true)])
  }

  lemma FirstStep()
    ensures Begin(CONFIG, Initial(1), 0, Request(JOB, 0, 1), CLOCK, SAMPLES, true, true) == (AfterFirst(), None)
  {
    var nd := Initial(1);
    assert nd.table.slots == [FREE];
    NothingExpired(nd.table);
    NothingShed(nd.table, -1, 0);
    NothingShed(nd.table, -1, 1);
    assert FindMatch(nd.table.slots, 0, CacheKey.KeyFor(JOB), 0) == -1;
    assert FirstFree(nd.table.slots, 0) == 0;
    assert nd.table.slots[0 := Running()] == [Running()];
    assert nd.calls[0 := Call(0, Request(JOB, 0, 1), 1, false)] == map[0 := Call(0, Request(JOB, 0, 1), 1, false)];
  }

  lemma TwiceIs()
    ensures Steady(TWICE) && Replay(TWICE, 0, 1) == Success(["a"], true) && Replay(TWICE, 1, MAX_PAGE) == Success(["a"], false)
  {
    assert Take(TWICE, 1, 0) == [] && Take(TWICE, 0, 1) == ["a"];
    assert Take(TWICE, 2, MAX_PAGE - 1) == [] && Take(TWICE, 1, MAX_PAGE) == ["a"];
  }

  lemma PageStep()
    ensures Finish(CONFIG, QUERIES, AfterFirst(), 0, FromWorker, false, false, 1, SAMPLES) ==
            (AfterPage(), Some(Paged(Success(["a"], true))))
  {
    var nd := AfterFirst();
    NothingShed(nd.table, -1, 2);
    TwiceIs();
    assert nd.table.slots[0 := Kept()] == [Kept()];
    assert nd.calls - {0} == map[];
  }

  lemma SecondStep()
    ensures Begin(CONFIG, AfterPage(), 0, Request(JOB, 1, 0), CLOCK, SAMPLES, true, true) == (AfterSecond(), None)
  {
    var nd := AfterPage();
    NothingExpired(nd.table);
    NothingShed(nd.table, 0, 3);
    NothingShed(nd.table, 0, 4);
    assert FindMatch(nd.table.slots, 1, CacheKey.KeyFor(JOB), 0) == 0;
    assert nd.table.slots[0 := Kept().(busy := true)] == [Kept().(busy := true)];
    assert nd.calls[0 := Call(0, Request(JOB, 1, MAX_PAGE), 0, true)] == map[0 := Call(0, Request(JOB, 1, MAX_PAGE), 0, true)];
  }

  lemma LastStep()
    ensures Finish(CONFIG, QUERIES, AfterSecond(), 0, FromWorker, false, false, 1, SAMPLES).1 == Some(Paged(Success(["a"], false)))
  {
    NothingShed(AfterSecond().table, -1, 5);
    TwiceIs();
  }

  lemma FourSteps(k: Config, w: Queries, n: nat, a: Node, b: Node, c: Node, d: Node, e: Node, p: Step, q: Step, r: Step, s: Step)
    requires a == Initial(n) && Enabled(a, p) && b == Take1(k, w, a, p).0 && Enabled(b, q) && c == Take1(k, w, b, q).0
    requires Enabled(c, r) && d == Take1(k, w, c, r).0 && Enabled(d, s) && e == Take1(k, w, d, s).0
    ensures IsRun(k, w, n, [a, b, c, d, e], [p, q, r, s])
  {
    var states, steps := [a, b, c, d, e], [p, q, r, s];
    forall i | 0 <= i < |steps| ensures Enabled(states[i], steps[i]) && states[i + 1] == Take1(k, w, states[i], steps[i]).0 {
      if i == 0 {
      } else if i == 1 {
      } else if i == 2 {
      } else {
      }
    }
  }

  lemma StepsAre()
    ensures Enabled(Initial(1), FIRST) && Take1(CONFIG, QUERIES, Initial(1), FIRST) == (AfterFirst(), None)
    ensures Enabled(AfterFirst(), PAGE) && Take1(CONFIG, QUERIES, AfterFirst(), PAGE) == (AfterPage(), Some(Paged(Success(["a"], true))))
    ensures Enabled(AfterPage(), SECOND) && Take1(CONFIG, QUERIES, AfterPage(), SECOND) == (AfterSecond(), None)
    ensures Enabled(AfterSecond(), PAGE) && Take1(CONFIG, QUERIES, AfterSecond(), PAGE).1 == Some(Paged(Success(["a"], false)))
  {
    FirstStep();
    PageStep();
    SecondStep();
    LastStep();
  }

  lemma QueriesSound()
    ensures Sound(QUERIES) && Fresh(QUERIES, Request(JOB, 1, 0)) == Failure
  {
    TwiceIs();
  }

  const RUN: seq<Step> := [FIRST, PAGE, SECOND, PAGE]

  /** A client takes a first page of one answer and then asks for zero answers from offset 1. In the state in which the
      last step finishes that call, it gets the second answer; a fresh query for the same page fails without running. */
  lemma ZeroPageDiffers() returns (states: seq<Node>)
    ensures Sound(QUERIES) && IsRun(CONFIG, QUERIES, 1, states, RUN) && states[3] == AfterSecond()
    ensures Enabled(AfterSecond(), PAGE) && Take1(CONFIG, QUERIES, AfterSecond(), PAGE).1 == Some(Paged(Success(["a"], false)))
    ensures Fresh(QUERIES, Request(JOB, 1, 0)) == Failure
  {
    hide Take1, AfterPage, Initial, Fresh;
    QueriesSound();
    StepsAre();
    var last := Take1(CONFIG, QUERIES, AfterSecond(), PAGE).0;
    states := [Initial(1), AfterFirst(), AfterPage(), AfterSecond(), last];
    FourSteps(CONFIG, QUERIES, 1, Initial(1), AfterFirst(), AfterPage(), AfterSecond(), last, FIRST, PAGE, SECOND, PAGE);
  }
}
