/** Invariants of every reachable registry state, and transparency of the continuation cache. */
module CacheSafety {
  import opened Terms
  import opened Wire
  import opened Paging
  import opened Registry
  import opened Shedding
  import opened Footprints
  import opened CacheKey
  import opened Protocol

  /** What makes an idle entry a faithful cache entry: its process stands where skipping `offset` answers leads, and
      an answer or an exception is pending. */
  ghost predicate Resumable(w: Queries, q: Slot) {
    && Alike(w.stream(q.job), q.cursor, q.offset)
    && !w.stream(q.job)(q.cursor).Exhausted?
    && w.stream(q.job)(0).Answer?
    && !q.job.once
  }

  ghost predicate SlotOk(w: Queries, bound: nat, q: Slot) {
    && (q.pid == 0 ==> q.(memory := 0) == FREE)
    && (q.pid != 0 ==> q.key == KeyFor(q.job))
    && (q.terminated ==> q.busy)
    && (q.terminated <==> q.reason.Some?)
    && (Idle(q) ==> Resumable(w, q) && q.order <= bound)
  }

  /** A call and the busy slot it owns. */
  ghost predicate CallOk(w: Queries, q: Slot, c: Call) {
    && q.pid != 0 && q.busy && q.job == c.req.job
    && Alike(w.stream(q.job), q.cursor, c.req.offset)
    && c.req.limit == (if c.resumed && c.asked == 0 then MAX_PAGE else c.asked)
    && (c.resumed ==> !w.stream(q.job)(q.cursor).Exhausted? && w.stream(q.job)(0).Answer? && !q.job.once)
  }

  ghost predicate Books(nd: Node) {
    forall p: nat :: Accounted(p, nd.table) == if 1 <= p <= nd.spawned then 1 else 0
  }

  ghost predicate SlotsOk(w: Queries, bound: nat, slots: seq<Slot>) {
    forall i :: 0 <= i < |slots| ==> SlotOk(w, bound, slots[i])
  }

  /** Exactly the busy slots are owned, each by one call of one client. */
  ghost predicate Ownership(w: Queries, slots: seq<Slot>, calls: map<nat, Call>) {
    && (forall i: nat :: i in calls <==> i < |slots| && slots[i].busy)
    && (forall i :: i in calls ==> CallOk(w, slots[i], calls[i]))
    && (forall i, j :: i in calls && j in calls && i != j ==> calls[i].client != calls[j].client)
  }

  ghost predicate Inv(w: Queries, nd: Node) {
    && SlotsOk(w, nd.cacheOrder, nd.table.slots)
    && DistinctOrders(nd.table.slots)
    && Ownership(w, nd.table.slots, nd.calls)
    && Books(nd)
  }

  // ---------- shedding and expiry ----------

  lemma SlotOkKept(w: Queries, bound: nat, a: Slot, b: Slot)
    requires SlotOk(w, bound, a) && MayBecome(a, b)
    ensures SlotOk(w, bound, b)
  {
  }

  lemma CallOkKept(w: Queries, a: Slot, b: Slot, c: Call)
    requires CallOk(w, a, c) && MayBecome(a, b)
    ensures CallOk(w, b, c)
  {
  }

  /** Shedding by any thread keeps the invariant and every call's ownership of its slot. */
  lemma ShedKeepsInv(w: Queries, nd: Node, tb: Table, tick: nat)
    requires Inv(w, nd) && OnlyShed(nd.table.slots, tb.slots)
    requires forall p: nat :: Accounted(p, tb) == Accounted(p, nd.table)
    ensures Inv(w, nd.(table := tb, tick := tick))
  {
    var a, b := nd.table.slots, tb.slots;
    forall i | 0 <= i < |b| ensures SlotOk(w, nd.cacheOrder, b[i]) && b[i].busy == a[i].busy {
      assert MayBecome(a[i], b[i]);
      SlotOkKept(w, nd.cacheOrder, a[i], b[i]);
    }
    forall i | i in nd.calls ensures CallOk(w, b[i], nd.calls[i]) {
      assert MayBecome(a[i], b[i]);
      CallOkKept(w, a[i], b[i], nd.calls[i]);
    }
    DistinctAfter(a, b);
  }

  lemma {:induction false} ExpireSheds(tb: Table, clock: nat -> int, i: nat)
    requires i <= |tb.slots|
    ensures OnlyShed(tb.slots, Expire(tb, clock, i).slots)
    ensures forall p: nat :: Accounted(p, Expire(tb, clock, i)) == Accounted(p, tb)
    decreases |tb.slots| - i
  {
    hide Accounted, OnlyShed;
    if i == |tb.slots| {
      NothingShed(tb.slots);
    } else {
      var next := if Idle(tb.slots[i]) && tb.slots[i].expires <= clock(i) then Release(tb, i) else tb;
      ExpireOne(tb, clock, i);
      ExpireSheds(next, clock, i + 1);
      OnlyShedTransitive(tb.slots, next.slots, Expire(next, clock, i + 1).slots);
    }
  }

  lemma NothingShed(slots: seq<Slot>)
    ensures OnlyShed(slots, slots)
  {
  }

  lemma ExpireOne(tb: Table, clock: nat -> int, i: nat)
    requires i < |tb.slots|
    ensures var next := if Idle(tb.slots[i]) && tb.slots[i].expires <= clock(i) then Release(tb, i) else tb;
            OnlyShed(tb.slots, next.slots) && forall p: nat :: Accounted(p, next) == Accounted(p, tb)
  {
    hide Accounted;
    var next := if Idle(tb.slots[i]) && tb.slots[i].expires <= clock(i) then Release(tb, i) else tb;
    forall p: nat ensures Accounted(p, next) == Accounted(p, tb) {
      ReleaseAccounts(p, tb, i);
    }
  }

  lemma SweepKeepsInv(k: Config, w: Queries, nd: Node, clock: nat -> int, o: Oracle)
    requires Inv(w, nd)
    ensures Inv(w, Sweep(k, nd, clock, o)) && OnlyShed(nd.table.slots, Sweep(k, nd, clock, o).table.slots)
  {
    var x := Expire(nd.table, clock, 0);
    var e := Enforce(k, x, o, nd.tick);
    ExpireSheds(nd.table, clock, 0);
    EnforceSheds(k, x, o, nd.tick);
    OnlyShedTransitive(nd.table.slots, x.slots, e.table.slots);
    forall p: nat ensures Accounted(p, e.table) == Accounted(p, nd.table) {
      EnforceAccounts(p, k, x, o, nd.tick);
    }
    ShedKeepsInv(w, nd, e.table, e.tick);
  }

  lemma EnforceKeepsInv(k: Config, w: Queries, nd: Node, o: Oracle)
    requires Inv(w, nd)
    ensures var e := Enforce(k, nd.table, o, nd.tick);
            Inv(w, nd.(table := e.table, tick := e.tick)) && OnlyShed(nd.table.slots, e.table.slots)
  {
    var e := Enforce(k, nd.table, o, nd.tick);
    EnforceSheds(k, nd.table, o, nd.tick);
    forall p: nat ensures Accounted(p, e.table) == Accounted(p, nd.table) {
      EnforceAccounts(p, k, nd.table, o, nd.tick);
    }
    ShedKeepsInv(w, nd, e.table, e.tick);
  }

  lemma AdmitKeepsInv(k: Config, w: Queries, nd: Node, resume: int, o: Oracle)
    requires Inv(w, nd)
    ensures var a := Admit(k, nd.table, resume, o, nd.tick);
            && Inv(w, nd.(table := a.table, tick := a.tick)) && OnlyShed(nd.table.slots, a.table.slots)
            && Untouched(nd.table.slots, a.table.slots, resume)
  {
    var a := Admit(k, nd.table, resume, o, nd.tick);
    AdmitSheds(k, nd.table, resume, o, nd.tick);
    forall p: nat ensures Accounted(p, a.table) == Accounted(p, nd.table) {
      AdmitAccounts(p, k, nd.table, resume, o, nd.tick);
    }
    ShedKeepsInv(w, nd, a.table, a.tick);
  }

  // ---------- changing one slot ----------

  lemma UpdateSlots(w: Queries, bound: nat, a: seq<Slot>, i: nat, q: Slot, larger: nat)
    requires SlotsOk(w, bound, a) && DistinctOrders(a) && i < |a| && larger >= bound
    requires SlotOk(w, larger, q) && (Idle(q) ==> q.order > bound)
    ensures SlotsOk(w, larger, a[i := q]) && DistinctOrders(a[i := q])
  {
    var b := a[i := q];
    forall j | 0 <= j < |b| ensures SlotOk(w, larger, b[j]) {
      assert SlotOk(w, bound, a[j]);
    }
    forall x, y | 0 <= x < y < |b| && Idle(b[x]) && Idle(b[y]) ensures b[x].order != b[y].order {
      assert SlotOk(w, bound, a[x]) && SlotOk(w, bound, a[y]);
    }
  }

  lemma UpdateCalls(w: Queries, slots: seq<Slot>, calls: map<nat, Call>, i: nat, q: Slot, next: map<nat, Call>)
    requires Ownership(w, slots, calls) && i < |slots|
    requires next.Keys == if q.busy then calls.Keys + {i} else calls.Keys - {i}
    requires forall j :: j in next && j != i ==> next[j] == calls[j]
    requires q.busy ==> CallOk(w, q, next[i]) && forall j :: j in calls && j != i ==> calls[j].client != next[i].client
    ensures Ownership(w, slots[i := q], next)
  {
    var b := slots[i := q];
    forall j | j in next ensures CallOk(w, b[j], next[j]) {
      if j != i {
        assert CallOk(w, slots[j], calls[j]);
      }
    }
    forall j: nat ensures j in next <==> j < |b| && b[j].busy {
      assert j in next.Keys <==> j in next;
      assert j in calls.Keys <==> j in calls;
    }
  }

  /** Replacing slot i, and the call on it, keeps the invariant when the new slot and call fit. */
  lemma UpdateKeepsInv(w: Queries, nd: Node, i: nat, q: Slot, next: Node)
    requires Inv(w, nd) && i < |nd.table.slots|
    requires next.table.slots == nd.table.slots[i := q] && next.cacheOrder >= nd.cacheOrder && Books(next)
    requires SlotOk(w, next.cacheOrder, q)
    requires Idle(q) ==> q.order > nd.cacheOrder
    requires next.calls.Keys == if q.busy then nd.calls.Keys + {i} else nd.calls.Keys - {i}
    requires forall j :: j in next.calls && j != i ==> next.calls[j] == nd.calls[j]
    requires q.busy ==> CallOk(w, q, next.calls[i]) && forall j :: j in nd.calls && j != i ==> nd.calls[j].client != next.calls[i].client
    ensures Inv(w, next)
  {
    UpdateSlots(w, nd.cacheOrder, nd.table.slots, i, q, next.cacheOrder);
    UpdateCalls(w, nd.table.slots, nd.calls, i, q, next.calls);
  }

  lemma ReleaseBooks(nd: Node, i: nat, next: Node)
    requires Books(nd) && i < |nd.table.slots| && next.table == Release(nd.table, i) && next.spawned == nd.spawned
    ensures Books(next)
  {
    forall p: nat ensures Accounted(p, next.table) == if 1 <= p <= next.spawned then 1 else 0 {
      ReleaseAccounts(p, nd.table, i);
    }
  }

  lemma ReleaseKeepsInv(w: Queries, nd: Node, i: nat, next: Node)
    requires Inv(w, nd) && i < |nd.table.slots|
    requires next == nd.(table := Release(nd.table, i), calls := nd.calls - {i})
    ensures Inv(w, next)
  {
    ReleaseBooks(nd, i, next);
    var q := nd.table.slots[i];
    assert SlotOk(w, nd.cacheOrder, q);
    UpdateKeepsInv(w, nd, i, if q.pid == 0 then q else FREE, next);
  }

  /** The books after replacing slot i by one that counts the same process or, for a new one, one more. */
  lemma ReplaceBooks(nd: Node, i: nat, q: Slot, next: Node)
    requires Books(nd) && i < |nd.table.slots| && next.table == nd.table.(slots := nd.table.slots[i := q])
    requires (next.spawned == nd.spawned && SameCounted(nd.table.slots[i], q)) ||
             (next.spawned == nd.spawned + 1 && !Counted(nd.table.slots[i]) && Counted(q) && q.pid == nd.spawned + 1)
    ensures Books(next)
  {
    forall p: nat ensures Accounted(p, next.table) == if 1 <= p <= next.spawned then 1 else 0 {
      assert Accounted(p, nd.table) == if 1 <= p <= nd.spawned then 1 else 0;
      LiveUpdate(p, nd.table.slots, i, q);
    }
  }

  lemma ResumeKeepsInv(w: Queries, nd: Node, m: nat, client: nat, req: Request, wrote: bool)
    requires Inv(w, nd) && m < |nd.table.slots|
    requires forall j :: j in nd.calls ==> nd.calls[j].client != client
    requires var q := nd.table.slots[m]; Idle(q) && q.offset == req.offset && q.key == KeyFor(req.job)
    ensures Inv(w, Resume(nd, m, client, req, wrote).0)
  {
    var q := nd.table.slots[m];
    assert SlotOk(w, nd.cacheOrder, q);
    KeyInjective(q.job, req.job);
    var next := Resume(nd, m, client, req, wrote).0;
    if wrote {
      ReplaceBooks(nd, m, q.(busy := true), next);
      UpdateKeepsInv(w, nd, m, q.(busy := true), next);
    } else {
      assert m !in nd.calls;
      assert nd.calls - {m} == nd.calls;
      assert next == nd.(table := Release(nd.table, m), calls := nd.calls - {m});
      ReleaseKeepsInv(w, nd, m, next);
    }
  }

  /** Spawning a worker into a free slot. */
  lemma SpawnKeepsInv(w: Queries, nd: Node, i: nat, client: nat, req: Request, next: Node)
    requires Inv(w, nd) && i < |nd.table.slots| && nd.table.slots[i].pid == 0
    requires forall j :: j in nd.calls ==> nd.calls[j].client != client
    requires next.spawned == nd.spawned + 1 && next.cacheOrder == nd.cacheOrder
    requires next.calls == nd.calls[i := Call(client, req, req.limit, false)]
    requires next.table == nd.table.(slots := nd.table.slots[i := Spawned(nd, req)])
    ensures Inv(w, next)
  {
    assert SlotOk(w, nd.cacheOrder, nd.table.slots[i]);
    ReplaceBooks(nd, i, Spawned(nd, req), next);
    UpdateKeepsInv(w, nd, i, Spawned(nd, req), next);
  }

  lemma EvictIdleKeepsInv(w: Queries, nd: Node, v: nat)
    requires Inv(w, nd) && v < |nd.table.slots| && Idle(nd.table.slots[v])
    ensures Inv(w, nd.(table := Release(nd.table, v)))
    ensures Release(nd.table, v).slots == nd.table.slots[v := FREE]
  {
    assert v !in nd.calls;
    assert nd.calls - {v} == nd.calls;
    ReleaseKeepsInv(w, nd, v, nd.(table := Release(nd.table, v)));
  }

  lemma StartKeepsInv(w: Queries, nd: Node, client: nat, req: Request, started: bool)
    requires Inv(w, nd)
    requires forall j :: j in nd.calls ==> nd.calls[j].client != client
    ensures Inv(w, Start(nd, client, req, started).0)
  {
    hide Inv, Oldest, FirstFree;
    var slots := nd.table.slots;
    var free, v := FirstFree(slots, 0), Oldest(slots, |slots|, -1);
    var next := Start(nd, client, req, started).0;
    OldestIs(slots, |slots|, -1);
    if free >= 0 {
      if started {
        SpawnKeepsInv(w, nd, free, client, req, next);
      }
    } else if v >= 0 {
      EvictIdleKeepsInv(w, nd, v);
      if started {
        SpawnKeepsInv(w, nd.(table := Release(nd.table, v)), v, client, req, next);
      }
    }
  }

  lemma BeginKeepsInv(k: Config, w: Queries, nd: Node, client: nat, req: Request, clock: nat -> int, o: Oracle,
                      wrote: bool, started: bool)
    requires Inv(w, nd)
    requires forall j :: j in nd.calls ==> nd.calls[j].client != client
    ensures Inv(w, Begin(k, nd, client, req, clock, o, wrote, started).0)
  {
    hide Inv, Enforce, Expire, Admit, FindMatch;
    SweepKeepsInv(k, w, nd, clock, o);
    var e := Enforce(k, Expire(nd.table, clock, 0), o, nd.tick);
    var swept := nd.(table := e.table, tick := e.tick);
    if e.verdict.None? {
      var m := FindMatch(e.table.slots, req.offset, KeyFor(req.job), 0);
      AdmitKeepsInv(k, w, swept, m, o);
      var a := Admit(k, e.table, m, o, e.tick);
      var admitted := nd.(table := a.table, tick := a.tick);
      if a.verdict.None? {
        if m >= 0 {
          assert a.table.slots[m].(memory := 0) == e.table.slots[m].(memory := 0);
          ResumeKeepsInv(w, admitted, m, client, req, wrote);
        } else {
          StartKeepsInv(w, admitted, client, req, started);
        }
      }
    }
  }

  // ---------- finishing a call ----------

  lemma {:induction false} AnswerBefore(st: Stream, i: nat)
    requires Steady(st) && st(i).Answer?
    ensures st(0).Answer?
  {
    if i > 0 {
      AnswerBefore(st, i - 1);
    }
  }

  /** A kept continuation stands where the advanced offset says, even after a short page. */
  lemma KeptIsResumable(w: Queries, q: Slot, c: Call, kept: Slot)
    requires Sound(w) && CallOk(w, q, c)
    requires var p := Public(c.req.job.once, WorkerPage(w, q, c));
             p.Success? && p.more && kept.job == q.job && kept.cursor == q.cursor + |p.answers| && kept.offset == c.req.offset + c.req.limit
    ensures Resumable(w, kept)
  {
    hide Steady;
    var st, n := w.stream(q.job), c.req.limit;
    assert Steady(st);
    var short := q.cursor + |Take(st, q.cursor, n)|;
    assert kept.cursor == short;
    ShortPageAlike(st, q.cursor, n);
    AlikeAdvance(st, q.cursor, c.req.offset, n);
    AlikeTransitive(st, short, q.cursor + n, c.req.offset + n);
    AnswerBefore(st, q.cursor);
  }

  lemma AlikeTransitive(st: Stream, i: nat, j: nat, l: nat)
    requires Alike(st, i, j) && Alike(st, j, l)
    ensures Alike(st, i, l)
  {
    forall k: nat ensures At(st, i, k) == At(st, l, k) {
      assert At(st, i, k) == At(st, j, k) == At(st, l, k);
    }
  }

  lemma FinishKeepsInv(k: Config, w: Queries, nd: Node, i: nat, out: Outcome, abandoned: bool, stopping: bool,
                       expires: int, o: Oracle)
    requires Sound(w) && Inv(w, nd) && i in nd.calls
    ensures Inv(w, Finish(k, w, nd, i, out, abandoned, stopping, expires, o).0)
  {
    EnforceKeepsInv(k, w, nd, o);
    var c := nd.calls[i];
    var e := Enforce(k, nd.table, o, nd.tick);
    var mid := nd.(table := e.table, tick := e.tick);
    var q := e.table.slots[i];
    assert SlotOk(w, nd.cacheOrder, q) && CallOk(w, q, c);
    var page := PageOf(w, q, c, out);
    var next := Finish(k, w, nd, i, out, abandoned, stopping, expires, o).0;
    if q.reason.None? && page.Some? && page.value.Success? && page.value.more && !abandoned && !stopping {
      var kept := next.table.slots[i];
      KeptIsResumable(w, q, c, kept);
      ReplaceBooks(mid, i, kept, next);
      UpdateKeepsInv(w, mid, i, kept, next);
    } else {
      ReleaseKeepsInv(w, mid, i, next);
    }
  }

  lemma {:induction false} LiveNone(p: nat, n: nat)
    ensures Live(p, seq(n, _ => FREE)) == 0
  {
    if n > 0 {
      assert seq(n, (_: int) => FREE)[1..] == seq(n - 1, (_: int) => FREE);
      LiveNone(p, n - 1);
    }
  }

  lemma InitialInv(w: Queries, n: nat)
    ensures Inv(w, Initial(n))
  {
    forall p: nat ensures Accounted(p, Initial(n).table) == 0 {
      LiveNone(p, n);
    }
  }

  lemma StepKeepsInv(k: Config, w: Queries, nd: Node, s: Step)
    requires Sound(w) && Inv(w, nd) && Enabled(nd, s)
    ensures Inv(w, Take1(k, w, nd, s).0)
  {
    match s
    case SweepStep(clock, o) => SweepKeepsInv(k, w, nd, clock, o);
    case BeginStep(client, req, clock, o, wrote, started) => BeginKeepsInv(k, w, nd, client, req, clock, o, wrote, started);
    case FinishStep(i, out, abandoned, stopping, expires, o) => FinishKeepsInv(k, w, nd, i, out, abandoned, stopping, expires, o);
  }

  /** The invariant holds in every state of every run, whatever the interleaving of requests, evictions, expiries and
      shedding. */
  lemma {:induction false} ReachableInv(k: Config, w: Queries, n: nat, states: seq<Node>, steps: seq<Step>)
    requires Sound(w) && IsRun(k, w, n, states, steps)
    ensures forall i :: 0 <= i < |states| ==> Inv(w, states[i])
  {
    InitialInv(w, n);
    for i := 0 to |steps|
      invariant forall j :: 0 <= j <= i ==> Inv(w, states[j])
    {
      StepKeepsInv(k, w, states[i], steps[i]);
    }
  }
}
