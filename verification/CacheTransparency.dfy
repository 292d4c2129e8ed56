/** What clients can rely on: cached answers, owned slots, no lost process. */
module CacheTransparency {
  import opened Terms
  import opened Paging
  import opened Registry
  import opened Shedding
  import opened Footprints
  import opened Protocol
  import opened CacheSafety
  import opened CallOwnership
  import CacheKey

  /** The request as the client sent it. */
  function Sent(c: Call): Request {
    c.req.(limit := c.asked)
  }

  /** A page delivered by a worker equals the page of a fresh replay, except for one case: a resumed page of limit 0,
      which is served as a page of maximal size although a fresh one never runs the goal. */
  lemma ReplyTransparent(k: Config, w: Queries, nd: Node, i: nat, abandoned: bool, stopping: bool, expires: int, o: Oracle)
    requires Sound(w) && Inv(w, nd) && i in nd.calls
    ensures var c := nd.calls[i];
            var (_, reply) := Finish(k, w, nd, i, FromWorker, abandoned, stopping, expires, o);
            reply.Some? && reply.value.Paged? ==>
              (reply.value.page == Fresh(w, Sent(c)) <==> c.asked >= 1 || !c.resumed)
  {
    hide Enforce, SlotsOk, Books, Take;
    EnforceKeepsInv(k, w, nd, o);
    var c, e := nd.calls[i], Enforce(k, nd.table, o, nd.tick);
    var q := e.table.slots[i];
    assert CallOk(w, q, c);
    var st := w.stream(q.job);
    assert Steady(st);
    AlikeReplay(st, q.cursor, c.req.offset, c.req.limit);
    assert At(st, q.cursor, 0) == At(st, c.req.offset, 0);
  }

  /** Cache transparency over whole runs: in every interleaving, a worker's page answers limit >= 1 as a replay would. */
  lemma CacheTransparency(k: Config, w: Queries, n: nat, states: seq<Node>, steps: seq<Step>, t: nat)
    requires Sound(w) && IsRun(k, w, n, states, steps) && t < |steps|
    requires steps[t].FinishStep? && steps[t].outcome.FromWorker?
    ensures var c := states[t].calls[steps[t].slot];
            var reply := Take1(k, w, states[t], steps[t]).1;
            reply.Some? && reply.value.Paged? && c.asked >= 1 ==> reply.value.page == Fresh(w, Sent(c))
  {
    ReachableInv(k, w, n, states, steps);
    var s := steps[t];
    assert Enabled(states[t], s);
    ReplyTransparent(k, w, states[t], s.slot, s.abandoned, s.stopping, s.expires, s.oracle);
  }

  // ---------- ownership ----------

  lemma OthersKeepOwnership(k: Config, w: Queries, nd: Node, s: Step, i: nat)
    requires Sound(w) && Inv(w, nd) && Enabled(nd, s) && i in nd.calls
    requires s.FinishStep? ==> s.slot != i
    ensures StillOwned(nd, Take1(k, w, nd, s).0, i)
  {
    hide Begin, Sweep, Finish, Inv, Sound;
    match s
    case SweepStep(clock, o) => SweepKeepsOwnership(k, w, nd, clock, o, i);
    case BeginStep(client, req, clock, o, wrote, started) =>
      BeginKeepsOwnership(k, w, nd, client, req, clock, o, wrote, started, i);
    case FinishStep(j, out, abandoned, stopping, expires, o) =>
      FinishKeepsOwnership(k, w, nd, j, out, abandoned, stopping, expires, o, i);
  }

  /** Over a run: between the two lock regions of a call, its slot keeps its process, key, job and position. */
  lemma {:induction false} CallOwnsSlot(k: Config, w: Queries, n: nat, states: seq<Node>, steps: seq<Step>, i: nat,
                                        from: nat, until: nat)
    requires Sound(w) && IsRun(k, w, n, states, steps) && from <= until < |states|
    requires i in states[from].calls
    requires forall t :: from <= t < until ==> !(steps[t].FinishStep? && steps[t].slot == i)
    ensures StillOwned(states[from], states[until], i)
    decreases until
  {
    hide Inv, Begin, Enforce, Expire, Sound, Finish;
    if from < until {
      CallOwnsSlot(k, w, n, states, steps, i, from, until - 1);
      OwnershipStep(k, w, n, states, steps, i, until - 1);
      StillOwnedTransitive(states[from], states[until - 1], states[until], i);
    } else {
      ReachableAt(k, w, n, states, steps, from);
      StillOwnedItself(w, states[from], i);
    }
  }

  lemma ReachableAt(k: Config, w: Queries, n: nat, states: seq<Node>, steps: seq<Step>, t: nat)
    requires Sound(w) && IsRun(k, w, n, states, steps) && t < |states|
    ensures Inv(w, states[t])
  {
    ReachableInv(k, w, n, states, steps);
  }

  lemma OwnershipStep(k: Config, w: Queries, n: nat, states: seq<Node>, steps: seq<Step>, i: nat, t: nat)
    requires Sound(w) && IsRun(k, w, n, states, steps) && t < |steps|
    requires i in states[t].calls && !(steps[t].FinishStep? && steps[t].slot == i)
    ensures StillOwned(states[t], states[t + 1], i)
  {
    ReachableAt(k, w, n, states, steps, t);
    assert Enabled(states[t], steps[t]);
    OthersKeepOwnership(k, w, states[t], steps[t], i);
  }

  // ---------- hits, kept continuations and expiry ----------

  lemma {:induction false} MissedAll(slots: seq<Slot>, offset: nat, key: string, i: nat)
    requires i <= |slots| && FindMatch(slots, offset, key, i) == -1
    ensures forall j :: i <= j < |slots| ==> !(Idle(slots[j]) && slots[j].offset == offset && slots[j].key == key)
    decreases |slots| - i
  {
    if i < |slots| {
      MissedAll(slots, offset, key, i + 1);
    }
  }

  /** A request is resumed exactly when an idle continuation of the same job stands at its offset. */
  lemma HitExactly(w: Queries, nd: Node, req: Request)
    requires Inv(w, nd)
    ensures var slots := nd.table.slots;
            var m := FindMatch(slots, req.offset, CacheKey.KeyFor(req.job), 0);
            && (m >= 0 <==> exists j :: 0 <= j < |slots| && Idle(slots[j]) && slots[j].job == req.job && slots[j].offset == req.offset)
            && (m >= 0 ==> slots[m].job == req.job)
  {
    var slots, key := nd.table.slots, CacheKey.KeyFor(req.job);
    var m := FindMatch(slots, req.offset, key, 0);
    forall j | 0 <= j < |slots| && Idle(slots[j]) ensures slots[j].key == key <==> slots[j].job == req.job {
      assert SlotOk(w, nd.cacheOrder, slots[j]);
      if slots[j].key == key {
        CacheKey.KeyInjective(slots[j].job, req.job);
      }
    }
    if m == -1 {
      MissedAll(slots, req.offset, key, 0);
    }
  }

  /** The client is told that there is more exactly when the continuation is kept (unless the node is stopping): the
      same process, under the same job, at the next offset. Otherwise the slot is free. */
  lemma MoreMeansKept(k: Config, w: Queries, nd: Node, i: nat, out: Outcome, abandoned: bool, stopping: bool, expires: int,
                      o: Oracle)
    requires Sound(w) && Inv(w, nd) && i in nd.calls
    ensures var (next, reply) := Finish(k, w, nd, i, out, abandoned, stopping, expires, o);
            var q, was, c := next.table.slots[i], nd.table.slots[i], nd.calls[i];
            && (Idle(q) <==> !stopping && reply.Some? && reply.value.Paged? && reply.value.page.Success? && reply.value.page.more)
            && (Idle(q) ==> q.pid == was.pid && q.job == c.req.job && q.offset == c.req.offset + c.req.limit && q.expires == expires)
            && (!Idle(q) ==> q == FREE)
  {
    EnforceKeepsInv(k, w, nd, o);
    var e := Enforce(k, nd.table, o, nd.tick);
    EnforceSheds(k, nd.table, o, nd.tick);
    assert MayBecome(nd.table.slots[i], e.table.slots[i]);
    assert SlotOk(w, nd.cacheOrder, e.table.slots[i]) && CallOk(w, e.table.slots[i], nd.calls[i]);
  }

  /** Expiry frees exactly the idle continuations whose time has come. */
  lemma {:induction false} ExpireExactly(tb: Table, clock: nat -> int, i: nat)
    requires i <= |tb.slots|
    ensures forall j :: 0 <= j < |tb.slots| ==>
              Expire(tb, clock, i).slots[j] ==
              if j >= i && Idle(tb.slots[j]) && tb.slots[j].expires <= clock(j) then FREE else tb.slots[j]
    decreases |tb.slots| - i
  {
    if i < |tb.slots| {
      var next := if Idle(tb.slots[i]) && tb.slots[i].expires <= clock(i) then Release(tb, i) else tb;
      ExpireExactly(next, clock, i + 1);
      assert forall j :: 0 <= j < |tb.slots| && j != i ==> next.slots[j] == tb.slots[j];
    }
  }

  // ---------- the cache as a first-in-first-out queue ----------

  /** A kept continuation goes to the back of the queue: it is newer than every other idle one. */
  lemma RecachedIsNewest(k: Config, w: Queries, nd: Node, i: nat, out: Outcome, abandoned: bool, stopping: bool,
                         expires: int, o: Oracle, j: nat)
    requires Sound(w) && Inv(w, nd) && i in nd.calls && j < |nd.table.slots| && j != i
    ensures var next := Finish(k, w, nd, i, out, abandoned, stopping, expires, o).0.table.slots;
            Idle(next[i]) && Idle(next[j]) ==> next[j].order < next[i].order
  {
    EnforceKeepsInv(k, w, nd, o);
    var e := Enforce(k, nd.table, o, nd.tick);
    assert SlotOk(w, nd.cacheOrder, e.table.slots[j]) && CallOk(w, e.table.slots[i], nd.calls[i]);
  }

  /** A new query takes over a slot of another query only when no slot is free, and then that of the idle query at the
      front of the queue. */
  lemma StartEvictsFront(nd: Node, client: nat, req: Request, started: bool, j: nat)
    requires DistinctOrders(nd.table.slots) && j < |nd.table.slots| && nd.table.slots[j].pid != 0
    requires Start(nd, client, req, started).0.table.slots[j] != nd.table.slots[j]
    ensures Idle(nd.table.slots[j])
    ensures forall i :: 0 <= i < |nd.table.slots| ==> nd.table.slots[i].pid != 0
    ensures forall i :: 0 <= i < |nd.table.slots| && i != j && Idle(nd.table.slots[i]) ==>
                        nd.table.slots[j].order < nd.table.slots[i].order
  {
    var slots := nd.table.slots;
    OldestIs(slots, |slots|, -1);
    forall i | 0 <= i < |slots| && i != j && Idle(slots[i]) ensures slots[j].order < slots[i].order {
      assert slots[j].order != slots[i].order;
    }
  }

  /** A new query is refused for lack of slots exactly when every slot is in use by a call. */
  lemma RefusedOnlyWhenAllBusy(nd: Node, client: nat, req: Request, started: bool)
    requires forall i :: 0 <= i < |nd.table.slots| && nd.table.slots[i].busy ==> nd.table.slots[i].pid != 0
    ensures Start(nd, client, req, started).1 == Some(Refused("query_limit_exceeded")) <==>
            forall i :: 0 <= i < |nd.table.slots| ==> nd.table.slots[i].busy
  {
    OldestIs(nd.table.slots, |nd.table.slots|, -1);
    assert "query_limit_exceeded"[0] != "worker_start_failed"[0];
  }

  // ---------- processes ----------

  lemma {:induction false} ReleaseAllFrees(tb: Table, i: nat)
    requires i <= |tb.slots|
    ensures forall j :: 0 <= j < |tb.slots| ==> ReleaseAll(tb, i).slots[j] == (if j >= i && tb.slots[j].pid != 0 then FREE else tb.slots[j])
    ensures forall p: nat :: Accounted(p, ReleaseAll(tb, i)) == Accounted(p, tb)
    decreases |tb.slots| - i
  {
    if i < |tb.slots| {
      ReleaseAllFrees(Release(tb, i), i + 1);
      forall p: nat ensures Accounted(p, Release(tb, i)) == Accounted(p, tb) {
        ReleaseAccounts(p, tb, i);
      }
    }
  }

  lemma {:induction false} LiveFree(p: nat, slots: seq<Slot>)
    requires forall j :: 0 <= j < |slots| ==> slots[j].pid == 0
    ensures Live(p, slots) == 0
  {
    if slots != [] {
      LiveFree(p, slots[1..]);
    }
  }

  /** After shutdown no process is left, and every process ever spawned has been waited for exactly once. */
  lemma ShutdownReapsAll(w: Queries, nd: Node)
    requires Inv(w, nd)
    ensures var end := ReleaseAll(nd.table, 0);
            && (forall j :: 0 <= j < |end.slots| ==> end.slots[j].pid == 0)
            && forall p: nat :: Times(p, end.reaped) == if 1 <= p <= nd.spawned then 1 else 0
  {
    var end := ReleaseAll(nd.table, 0);
    ReleaseAllFrees(nd.table, 0);
    forall p: nat ensures Times(p, end.reaped) == if 1 <= p <= nd.spawned then 1 else 0 {
      assert Accounted(p, end) == Accounted(p, nd.table);
      LiveFree(p, end.slots);
    }
  }

  lemma {:induction false} LiveOnce(p: nat, slots: seq<Slot>, i: nat)
    requires i < |slots| && Counted(slots[i]) && slots[i].pid == p
    ensures Live(p, slots) >= 1
  {
    if i > 0 {
      LiveOnce(p, slots[1..], i - 1);
    }
  }

  /** In every reachable state, no process stands in two slots, and none that stands in a slot has been waited for. */
  lemma RunningProcessesAreDistinct(w: Queries, nd: Node, i: nat, j: nat)
    requires Inv(w, nd) && i < |nd.table.slots| && j < |nd.table.slots| && i != j
    requires Counted(nd.table.slots[i]) && Counted(nd.table.slots[j])
    ensures nd.table.slots[i].pid != nd.table.slots[j].pid
    ensures Times(nd.table.slots[i].pid, nd.table.reaped) == 0
  {
    var slots, p := nd.table.slots, nd.table.slots[i].pid;
    assert Accounted(p, nd.table) <= 1;
    LiveOnce(p, slots, i);
    if slots[j].pid == p {
      LiveUpdate(p, slots, i, FREE);
      LiveOnce(p, slots[i := FREE], j);
    }
  }
}
