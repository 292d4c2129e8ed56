/** The cache as an abstract first-in-first-out queue of continuations, refined by every step. */
module CacheQueue {
  import opened Terms
  import opened Paging
  import opened Registry
  import opened Shedding
  import opened Footprints
  import opened Protocol
  import opened CacheSafety
  import opened CacheTransparency
  import opened Queues
  import CacheKey

  /** How many of the first n slots no call owns. */
  function Places(slots: seq<Slot>, n: nat): nat
    requires n <= |slots|
  {
    if n == 0 then 0 else Places(slots, n - 1) + if slots[n - 1].busy then 0 else 1
  }

  /** What a step with a given reply does to the queue, which has room for `places` entries. A turn of the main loop drops the expired entries and a front part
      of the rest. A call does that first; then it may drop a further front part of other entries to make room; then it
      takes out the entry that it resumes, or, to start a query in a full table, the front entry. The end of a call drops
      a front part, and appends the call's own continuation at the back exactly if it promises more. */
  ghost predicate QueueStep(places: nat, s: Step, reply: Option<Reply>, q: seq<Entry>, next: seq<Entry>) {
    match s
    case SweepStep(clock, _) => DroppedFront(Unexpired(q, clock), next)
    case BeginStep(_, req, clock, _, _, _) =>
      exists swept: seq<Entry> :: DroppedFront(Unexpired(q, clock), swept) && Began(places, req, reply.None?, swept, next)
    case FinishStep(i, _, _, stopping, expires, _) =>
      if !stopping && Promises(reply) then exists kept: seq<Entry>, e: Entry :: DroppedFront(q, kept) && AppendedOwn(i, expires, kept, e, next)
      else DroppedFront(q, next)
  }

  predicate Promises(reply: Option<Reply>) {
    reply.Some? && reply.value.Paged? && reply.value.page.Success? && reply.value.page.more
  }

  predicate DroppedFront(q: seq<Entry>, next: seq<Entry>) {
    exists d: nat :: d <= |q| && next == q[d..]
  }

  predicate AppendedOwn(i: nat, expires: int, kept: seq<Entry>, e: Entry, next: seq<Entry>) {
    e.slot == i && e.expires == expires && next == kept + [e]
  }

  /** A call whose queue is `swept` when it looks for its continuation. A refused call may stop there. */
  ghost predicate Began(places: nat, req: Request, accepted: bool, swept: seq<Entry>, next: seq<Entry>) {
    (!accepted && next == swept) || exists d: nat, m: int :: Room(places, req, accepted, swept, d, m, next)
  }

  /** Room is made by dropping d entries other than m; then m is resumed, or, only if every place is taken, the front goes
      for the new query. An entry m is there to be resumed exactly if the queue has one for the job and offset. */
  predicate Room(places: nat, req: Request, accepted: bool, swept: seq<Entry>, d: nat, m: int, next: seq<Entry>) {
    var q := Drop(swept, d, m);
    if m >= 0 then
      && (exists e :: e in swept && e.slot == m && e.job == req.job && e.offset == req.offset)
      && (next == Without(q, m) || (!accepted && next == q))
    else
      && (forall e :: e in swept ==> !(e.job == req.job && e.offset == req.offset))
      && Taken(places, accepted, q, next)
  }

  /** A new query takes a place of its own if there is one, and else that of the front entry. One that is refused may have
      changed nothing. */
  predicate Taken(places: nat, accepted: bool, q: seq<Entry>, next: seq<Entry>) {
    if |q| < places then next == q
    else |q| == places && ((q != [] && next == q[1..]) || (!accepted && next == q))
  }

  // ---------- places ----------

  function Idles(slots: seq<Slot>, n: nat): nat
    requires n <= |slots|
  {
    if n == 0 then 0 else Idles(slots, n - 1) + if Idle(slots[n - 1]) then 1 else 0
  }

  lemma {:induction false} IdlesUpdate(slots: seq<Slot>, n: nat, v: nat)
    requires n <= |slots| && v < |slots| && Idle(slots[v])
    ensures Idles(slots, n) == Idles(slots[v := FREE], n) + if v < n then 1 else 0
  {
    if n > 0 {
      IdlesUpdate(slots, n - 1, v);
    }
  }

  lemma {:induction false} NoIdles(slots: seq<Slot>, n: nat)
    requires n <= |slots| && forall j :: 0 <= j < |slots| ==> !Idle(slots[j])
    ensures Idles(slots, n) == 0
  {
    if n > 0 {
      NoIdles(slots, n - 1);
    }
  }

  lemma {:induction false} QueueLength(slots: seq<Slot>)
    ensures |Queue(slots)| == Idles(slots, |slots|)
    decreases Sheddable(slots)
  {
    var v := Oldest(slots, |slots|, -1);
    OldestIs(slots, |slots|, -1);
    if v < 0 {
      NoIdles(slots, |slots|);
    } else {
      QueueIs(slots, v);
      QueueLength(slots[v := FREE]);
      IdlesUpdate(slots, |slots|, v);
    }
  }

  lemma {:induction false} PlacesTaken(slots: seq<Slot>, n: nat)
    requires n <= |slots| && forall i :: 0 <= i < |slots| && slots[i].pid == 0 ==> !slots[i].busy
    ensures Idles(slots, n) <= Places(slots, n)
    ensures Idles(slots, n) == Places(slots, n) <==> forall i :: 0 <= i < n ==> slots[i].pid != 0
  {
    if n > 0 {
      PlacesTaken(slots, n - 1);
    }
  }

  lemma {:induction false} PlacesKept(a: seq<Slot>, b: seq<Slot>, n: nat)
    requires |a| == |b| && n <= |a| && forall i :: 0 <= i < |a| ==> a[i].busy == b[i].busy
    ensures Places(a, n) == Places(b, n)
  {
    if n > 0 {
      PlacesKept(a, b, n - 1);
    }
  }

  lemma ShedKeepsPlaces(a: seq<Slot>, b: seq<Slot>)
    requires OnlyShed(a, b)
    ensures Places(a, |a|) == Places(b, |b|)
  {
    forall i | 0 <= i < |a| ensures a[i].busy == b[i].busy {
      assert MayBecome(a[i], b[i]);
    }
    PlacesKept(a, b, |a|);
  }

  /** Every place is taken exactly if no slot is free. */
  lemma FullQueue(w: Queries, nd: Node)
    requires Inv(w, nd)
    ensures var slots := nd.table.slots;
            && |Queue(slots)| <= Places(slots, |slots|)
            && (|Queue(slots)| == Places(slots, |slots|) <==> FirstFree(slots, 0) == -1)
  {
    var slots := nd.table.slots;
    forall i | 0 <= i < |slots| && slots[i].pid == 0 ensures !slots[i].busy {
      assert SlotOk(w, nd.cacheOrder, slots[i]);
    }
    QueueLength(slots);
    PlacesTaken(slots, |slots|);
  }

  // ---------- the steps ----------

  lemma SweepQueue(k: Config, w: Queries, nd: Node, clock: nat -> int, o: Oracle)
    requires Inv(w, nd)
    ensures DroppedFront(Unexpired(Queue(nd.table.slots), clock), Queue(Sweep(k, nd, clock, o).table.slots))
    ensures DistinctOrders(Sweep(k, nd, clock, o).table.slots)
  {
    ExpireQueue(nd.table, clock, 0);
    UnexpiredFromStart(Queue(nd.table.slots), clock);
    var d := EnforceQueue(k, Expire(nd.table, clock, 0), o, nd.tick);
  }

  lemma ResumeQueue(nd: Node, m: nat, client: nat, req: Request, wrote: bool)
    requires DistinctOrders(nd.table.slots) && m < |nd.table.slots| && Idle(nd.table.slots[m])
    ensures Queue(Resume(nd, m, client, req, wrote).0.table.slots) == Without(Queue(nd.table.slots), m)
  {
    var slots, taken := nd.table.slots, nd.table.slots[m].(busy := true);
    QueueRemove(slots, m, taken);
    QueueRemove(slots, m, FREE);
    assert slots[m := taken][m := FREE] == slots[m := FREE];
  }

  lemma StartTakes(nd: Node, client: nat, req: Request, started: bool, places: nat)
    requires DistinctOrders(nd.table.slots) && |Queue(nd.table.slots)| <= places
    requires |Queue(nd.table.slots)| == places <==> FirstFree(nd.table.slots, 0) == -1
    ensures var (next, reply) := Start(nd, client, req, started);
            Taken(places, reply.None?, Queue(nd.table.slots), Queue(next.table.slots))
  {
    var slots := nd.table.slots;
    var free, v := FirstFree(slots, 0), Oldest(slots, |slots|, -1);
    FrontOfQueue(slots);
    OldestIs(slots, |slots|, -1);
    if free >= 0 {
      QueueSame(slots, slots[free := Spawned(nd, req)]);
    } else if v >= 0 {
      QueueSame(slots[v := FREE], slots[v := Spawned(nd, req)]);
      assert slots[v := FREE][v := Spawned(nd, req)] == slots[v := Spawned(nd, req)];
    }
  }

  /** What becomes of a call whose table has been swept, up to the end of its first lock region. */
  function Served(k: Config, nd: Node, client: nat, req: Request, o: Oracle, wrote: bool, started: bool): (Node, Option<Reply>) {
    var m := FindMatch(nd.table.slots, req.offset, CacheKey.KeyFor(req.job), 0);
    var a := Admit(k, nd.table, m, o, nd.tick);
    var admitted := nd.(table := a.table, tick := a.tick);
    if a.verdict.Some? then (admitted, Some(Refused(a.verdict.value)))
    else if m >= 0 then Resume(admitted, m, client, req, wrote)
    else Start(admitted, client, req, started)
  }

  lemma BeginServes(k: Config, nd: Node, client: nat, req: Request, clock: nat -> int, o: Oracle, wrote: bool, started: bool)
    ensures var e := Enforce(k, Expire(nd.table, clock, 0), o, nd.tick);
            Begin(k, nd, client, req, clock, o, wrote, started) ==
            if e.verdict.Some? then (Sweep(k, nd, clock, o), Some(Refused(e.verdict.value)))
            else Served(k, Sweep(k, nd, clock, o), client, req, o, wrote, started)
  {
  }

  lemma ServedResumes(k: Config, w: Queries, nd: Node, client: nat, req: Request, o: Oracle, wrote: bool, started: bool)
    requires Inv(w, nd)
    ensures var m := FindMatch(nd.table.slots, req.offset, CacheKey.KeyFor(req.job), 0);
            var a := Admit(k, nd.table, m, o, nd.tick);
            var next := Served(k, nd, client, req, o, wrote, started).0;
            m >= 0 && a.verdict.None? ==> Queue(next.table.slots) == Without(Queue(a.table.slots), m)
  {
    var m := FindMatch(nd.table.slots, req.offset, CacheKey.KeyFor(req.job), 0);
    var a := Admit(k, nd.table, m, o, nd.tick);
    if m >= 0 && a.verdict.None? {
      AdmitKeepsInv(k, w, nd, m, o);
      assert MayBecome(nd.table.slots[m], a.table.slots[m]) && Idle(a.table.slots[m]);
      ResumeQueue(nd.(table := a.table, tick := a.tick), m, client, req, wrote);
    }
  }

  lemma ServedStarts(k: Config, w: Queries, nd: Node, client: nat, req: Request, o: Oracle, wrote: bool, started: bool)
    requires Inv(w, nd)
    ensures var m := FindMatch(nd.table.slots, req.offset, CacheKey.KeyFor(req.job), 0);
            var a := Admit(k, nd.table, m, o, nd.tick);
            var (next, reply) := Served(k, nd, client, req, o, wrote, started);
            m < 0 && a.verdict.None? ==>
              Taken(Places(nd.table.slots, |nd.table.slots|), reply.None?, Queue(a.table.slots), Queue(next.table.slots))
  {
    var m := FindMatch(nd.table.slots, req.offset, CacheKey.KeyFor(req.job), 0);
    var a := Admit(k, nd.table, m, o, nd.tick);
    var admitted := nd.(table := a.table, tick := a.tick);
    if m < 0 && a.verdict.None? {
      AdmitKeepsInv(k, w, nd, m, o);
      ShedKeepsPlaces(nd.table.slots, a.table.slots);
      FullQueue(w, admitted);
      StartTakes(admitted, client, req, started, Places(nd.table.slots, |nd.table.slots|));
    }
  }

  lemma AdmittedFits(k: Config, w: Queries, nd: Node, m: int, o: Oracle)
    requires Inv(w, nd)
    ensures var a := Admit(k, nd.table, m, o, nd.tick).table.slots; |Queue(a)| <= Places(nd.table.slots, |nd.table.slots|)
  {
    var a := Admit(k, nd.table, m, o, nd.tick);
    AdmitKeepsInv(k, w, nd, m, o);
    ShedKeepsPlaces(nd.table.slots, a.table.slots);
    FullQueue(w, nd.(table := a.table, tick := a.tick));
  }

  lemma ServedQueue(k: Config, w: Queries, nd: Node, client: nat, req: Request, o: Oracle, wrote: bool, started: bool)
    requires Inv(w, nd)
    ensures var (next, reply) := Served(k, nd, client, req, o, wrote, started);
            Began(Places(nd.table.slots, |nd.table.slots|), req, reply.None?, Queue(nd.table.slots), Queue(next.table.slots))
  {
    var places, q := Places(nd.table.slots, |nd.table.slots|), Queue(nd.table.slots);
    var m := FindMatch(nd.table.slots, req.offset, CacheKey.KeyFor(req.job), 0);
    var (next, reply) := Served(k, nd, client, req, o, wrote, started);
    var d := AdmitQueue(k, nd.table, m, o, nd.tick);
    MatchInQueue(w, nd, req);
    AdmittedFits(k, w, nd, m, o);
    ServedResumes(k, w, nd, client, req, o, wrote, started);
    ServedStarts(k, w, nd, client, req, o, wrote, started);
    assert Room(places, req, reply.None?, q, d, m, Queue(next.table.slots));
  }

  lemma BeginQueue(k: Config, w: Queries, nd: Node, client: nat, req: Request, clock: nat -> int, o: Oracle, wrote: bool,
                   started: bool)
    requires Inv(w, nd)
    ensures var swept := Queue(Sweep(k, nd, clock, o).table.slots);
            var (next, reply) := Begin(k, nd, client, req, clock, o, wrote, started);
            Began(Places(nd.table.slots, |nd.table.slots|), req, reply.None?, swept, Queue(next.table.slots))
  {
    SweepKeepsInv(k, w, nd, clock, o);
    ShedKeepsPlaces(nd.table.slots, Sweep(k, nd, clock, o).table.slots);
    BeginServes(k, nd, client, req, clock, o, wrote, started);
    ServedQueue(k, w, Sweep(k, nd, clock, o), client, req, o, wrote, started);
  }

  lemma {:induction false} QueueHasAll(slots: seq<Slot>, i: nat)
    requires i < |slots| && Idle(slots[i])
    ensures EntryAt(slots, i) in Queue(slots)
    decreases Sheddable(slots)
  {
    var v := Oldest(slots, |slots|, -1);
    OldestIs(slots, |slots|, -1);
    if v != i {
      SheddableUpdate(slots, v, FREE);
      QueueHasAll(slots[v := FREE], i);
    }
  }

  lemma MatchInQueue(w: Queries, nd: Node, req: Request)
    requires Inv(w, nd)
    ensures var q, m := Queue(nd.table.slots), FindMatch(nd.table.slots, req.offset, CacheKey.KeyFor(req.job), 0);
            && (m >= 0 ==> exists e :: e in q && e.slot == m && e.job == req.job && e.offset == req.offset)
            && (m < 0 ==> forall e :: e in q ==> !(e.job == req.job && e.offset == req.offset))
  {
    var slots := nd.table.slots;
    var m := FindMatch(slots, req.offset, CacheKey.KeyFor(req.job), 0);
    HitExactly(w, nd, req);
    QueueMembers(slots);
    if m >= 0 {
      QueueHasAll(slots, m);
      assert EntryAt(slots, m).slot == m;
    }
  }

  lemma FinishQueue(k: Config, w: Queries, nd: Node, i: nat, out: Outcome, abandoned: bool, stopping: bool, expires: int, o: Oracle)
    requires Sound(w) && Inv(w, nd) && i in nd.calls
    ensures var (next, reply) := Finish(k, w, nd, i, out, abandoned, stopping, expires, o);
            QueueStep(Places(nd.table.slots, |nd.table.slots|), FinishStep(i, out, abandoned, stopping, expires, o), reply, Queue(nd.table.slots), Queue(next.table.slots))
  {
    hide SlotOk, Enforce, Queue, Admit, Begin, Expire;
    var e := Enforce(k, nd.table, o, nd.tick).table.slots;
    var d := EnforceQueue(k, nd.table, o, nd.tick);
    var next := Finish(k, w, nd, i, out, abandoned, stopping, expires, o).0.table.slots;
    assert DroppedFront(Queue(nd.table.slots), Queue(e));
    FinishEnqueues(k, w, nd, i, out, abandoned, stopping, expires, o);
    MoreMeansKept(k, w, nd, i, out, abandoned, stopping, expires, o);
    if Idle(next[i]) {
      assert AppendedOwn(i, expires, Queue(e), EntryAt(next, i), Queue(next));
    } else {
      assert Queue(e) + [] == Queue(e);
    }
  }

  lemma FinishTouchesOne(k: Config, w: Queries, nd: Node, i: nat, out: Outcome, abandoned: bool, stopping: bool, expires: int, o: Oracle)
    requires i in nd.calls && i < |nd.table.slots|
    ensures var e := Enforce(k, nd.table, o, nd.tick).table.slots;
            var next := Finish(k, w, nd, i, out, abandoned, stopping, expires, o).0.table.slots;
            |next| == |e| && next == e[i := next[i]]
  {
  }

  /** After enforcement, the end of a call appends the call's continuation if it is kept, and changes nothing otherwise. */
  lemma FinishEnqueues(k: Config, w: Queries, nd: Node, i: nat, out: Outcome, abandoned: bool, stopping: bool, expires: int, o: Oracle)
    requires Sound(w) && Inv(w, nd) && i in nd.calls
    ensures var e := Enforce(k, nd.table, o, nd.tick).table.slots;
            var next := Finish(k, w, nd, i, out, abandoned, stopping, expires, o).0.table.slots;
            && Queue(next) == Queue(e) + (if Idle(next[i]) then [EntryAt(next, i)] else [])
            && (Idle(next[i]) ==> next[i].expires == expires)
  {
    hide Enforce, Finish, Sound, Idle;
    var e := Enforce(k, nd.table, o, nd.tick).table.slots;
    var next := Finish(k, w, nd, i, out, abandoned, stopping, expires, o).0.table.slots;
    MoreMeansKept(k, w, nd, i, out, abandoned, stopping, expires, o);
    FinishTouchesOne(k, w, nd, i, out, abandoned, stopping, expires, o);
    StillBusy(k, w, nd, i, o);
    if Idle(next[i]) {
      RecachedLast(k, w, nd, i, out, abandoned, stopping, expires, o);
      QueueAppend(e, i, next[i]);
    } else {
      QueueSame(e, next);
    }
  }

  lemma StillBusy(k: Config, w: Queries, nd: Node, i: nat, o: Oracle)
    requires Inv(w, nd) && i in nd.calls
    ensures var e := Enforce(k, nd.table, o, nd.tick).table.slots; DistinctOrders(e) && !Idle(e[i])
  {
    EnforceKeepsInv(k, w, nd, o);
    var e := Enforce(k, nd.table, o, nd.tick).table.slots;
    assert CallOk(w, e[i], nd.calls[i]);
  }

  lemma RecachedLast(k: Config, w: Queries, nd: Node, i: nat, out: Outcome, abandoned: bool, stopping: bool, expires: int, o: Oracle)
    requires Sound(w) && Inv(w, nd) && i in nd.calls
    requires Idle(Finish(k, w, nd, i, out, abandoned, stopping, expires, o).0.table.slots[i])
    ensures var e := Enforce(k, nd.table, o, nd.tick).table.slots;
            forall j :: 0 <= j < |e| && Idle(e[j]) ==>
              e[j].order < Finish(k, w, nd, i, out, abandoned, stopping, expires, o).0.table.slots[i].order
  {
    EnforceKeepsInv(k, w, nd, o);
    var e := Enforce(k, nd.table, o, nd.tick).table.slots;
    forall j | 0 <= j < |e| && Idle(e[j])
      ensures e[j].order < Finish(k, w, nd, i, out, abandoned, stopping, expires, o).0.table.slots[i].order
    {
      assert SlotOk(w, nd.cacheOrder, e[j]);
    }
  }

  /** The controller refines the queue: in every run, every step does to the queue what such a step may do. */
  lemma StepsRefineQueue(k: Config, w: Queries, n: nat, states: seq<Node>, steps: seq<Step>, t: nat)
    requires Sound(w) && IsRun(k, w, n, states, steps) && t < |steps|
    ensures Enabled(states[t], steps[t])
    ensures QueueStep(Places(states[t].table.slots, |states[t].table.slots|), steps[t], Take1(k, w, states[t], steps[t]).1,
                      Queue(states[t].table.slots), Queue(states[t + 1].table.slots))
  {
    ReachableAt(k, w, n, states, steps, t);
    var nd := states[t];
    assert Enabled(nd, steps[t]) && states[t + 1] == Take1(k, w, nd, steps[t]).0;
    match steps[t]
    case SweepStep(clock, o) => SweepQueue(k, w, nd, clock, o);
    case BeginStep(client, req, clock, o, wrote, started) =>
      SweepQueue(k, w, nd, clock, o);
      BeginQueue(k, w, nd, client, req, clock, o, wrote, started);
    case FinishStep(i, out, abandoned, stopping, expires, o) => FinishQueue(k, w, nd, i, out, abandoned, stopping, expires, o);
  }

  // ---------- the shortest front part ----------

  lemma NothingOlder(slots: seq<Slot>, v: nat)
    requires DistinctOrders(slots) && Oldest(slots, |slots|, -1) == v
    ensures SameIdle(slots, OlderGone(slots, v, -1))
  {
    OldestStrictly(slots);
  }

  lemma FrontIsOlder(slots: seq<Slot>, v: nat, i: nat)
    requires DistinctOrders(slots) && Oldest(slots, |slots|, -1) == v && i < |slots| && i != v && Idle(slots[i])
    ensures SameIdle(OlderGone(slots[v := FREE], i, -1), OlderGone(slots, i, -1))
  {
    OldestStrictly(slots);
  }

  /** What is left once everything cached before entry j is gone. */
  lemma {:induction false} QueueFrom(slots: seq<Slot>, j: nat)
    requires DistinctOrders(slots) && j < |Queue(slots)|
    ensures var i := Queue(slots)[j].slot;
            i < |slots| && Queue(OlderGone(slots, i, -1)) == Queue(slots)[j..]
    decreases Sheddable(slots)
  {
    hide Oldest, Sheddable, DistinctOrders, Queue;
    var v := Oldest(slots, |slots|, -1);
    FrontOfQueue(slots);
    QueueIs(slots, v);
    var rest := slots[v := FREE];
    if j == 0 {
      NothingOlder(slots, v);
      QueueSame(slots, OlderGone(slots, v, -1));
    } else {
      QueueFrom(rest, j - 1);
      QueueMembers(rest);
      var i := Queue(rest)[j - 1].slot;
      assert Queue(slots)[j] == Queue(rest)[j - 1] && Queue(slots)[j..] == Queue(rest)[j - 1..];
      FrontIsOlder(slots, v, i);
      QueueSame(OlderGone(rest, i, -1), OlderGone(slots, i, -1));
    }
  }

  /** With constant footprints, enforcement drops the shortest front part that brings usage within budget, or everything:
      entry j goes exactly if the usage left after dropping only those before it is still over budget. */
  lemma EnforceDropsShortest(c: Config, tb: Table, o: Oracle, t: nat, m: Footprint, j: nat)
    requires Constant(o, m) && NoOverflow(c, m, tb.slots) && DistinctOrders(tb.slots) && j < |Queue(tb.slots)|
    ensures var q, after := Queue(tb.slots), Queue(Enforce(c, tb, o, t).table.slots);
            var i := q[j].slot;
            && i < |tb.slots| && Queue(OlderGone(tb.slots, i, -1)) == q[j..]
            && (q[j] !in after <==> Usage(m, m, OlderGone(tb.slots, i, -1)) > c.total)
  {
    var q, after := Queue(tb.slots), Enforce(c, tb, o, t).table.slots;
    var i := q[j].slot;
    QueueFrom(tb.slots, j);
    QueueMembers(tb.slots);
    QueueMembers(after);
    EnforceSheds(c, tb, o, t);
    assert MayBecome(tb.slots[i], after[i]);
    EnforceEvictsShortestPrefix(c, tb, o, t, m, i);
    if Idle(after[i]) {
      QueueHasAll(after, i);
    }
  }

  /** The same for admission, with charges and the reservation of a new query, for every entry but the resumed one. */
  lemma AdmitDropsShortest(c: Config, tb: Table, resume: int, o: Oracle, t: nat, m: Footprint, j: nat)
    requires Constant(o, m) && NoOverflow(c, m, tb.slots) && DistinctOrders(tb.slots) && j < |Queue(tb.slots)|
    requires Queue(tb.slots)[j].slot != resume
    ensures var q, after := Queue(tb.slots), Queue(Admit(c, tb, resume, o, t).table.slots);
            var i := q[j].slot;
            && i < |tb.slots|
            && (q[j] !in after <==>
                  Usage(m, Charged(c, m), OlderGone(tb.slots, i, resume)) + (if resume >= 0 then 0 else c.reserve) > c.total)
  {
    var q, after := Queue(tb.slots), Admit(c, tb, resume, o, t).table.slots;
    var i := q[j].slot;
    QueueMembers(tb.slots);
    QueueMembers(after);
    AdmitSheds(c, tb, resume, o, t);
    assert MayBecome(tb.slots[i], after[i]);
    AdmitEvictsShortestPrefix(c, tb, resume, o, t, m, i);
    if Idle(after[i]) {
      QueueHasAll(after, i);
    }
  }

  /** The table that the enforcement of a turn, or of the end of a call, starts from, and its samples. */
  function Enforced(nd: Node, s: Step): (Table, Oracle)
    requires !s.BeginStep?
  {
    match s
    case SweepStep(clock, o) => (Expire(nd.table, clock, 0), o)
    case FinishStep(_, _, _, _, _, o) => (nd.table, o)
  }

  lemma ExpiredIsDistinct(w: Queries, nd: Node, s: Step)
    requires Inv(w, nd) && !s.BeginStep?
    ensures DistinctOrders(Enforced(nd, s).0.slots)
  {
    if s.SweepStep? {
      ExpireQueue(nd.table, s.clock, 0);
    }
  }

  lemma EndKeepsOthers(k: Config, w: Queries, nd: Node, i: nat, out: Outcome, abandoned: bool, stopping: bool, expires: int,
                       o: Oracle, e: Entry)
    requires Sound(w) && Inv(w, nd) && i in nd.calls && e in Queue(nd.table.slots)
    ensures e in Queue(Finish(k, w, nd, i, out, abandoned, stopping, expires, o).0.table.slots) <==>
            e in Queue(Enforce(k, nd.table, o, nd.tick).table.slots)
  {
    QueueMembers(nd.table.slots);
    FinishEnqueues(k, w, nd, i, out, abandoned, stopping, expires, o);
    assert nd.table.slots[i].busy;
  }

  /** In every run, a turn and the end of a call drop the shortest front part that brings usage within budget: an entry goes
      exactly if the usage left without those before it is still over budget. */
  lemma StepsDropShortest(k: Config, w: Queries, n: nat, states: seq<Node>, steps: seq<Step>, t: nat, m: Footprint, j: nat)
    requires Sound(w) && IsRun(k, w, n, states, steps) && t < |steps| && !steps[t].BeginStep?
    requires var (tb, o) := Enforced(states[t], steps[t]);
             Constant(o, m) && NoOverflow(k, m, tb.slots) && j < |Queue(tb.slots)|
    ensures var tb := Enforced(states[t], steps[t]).0;
            var e := Queue(tb.slots)[j];
            && e.slot < |tb.slots|
            && (e !in Queue(states[t + 1].table.slots) <==> Usage(m, m, OlderGone(tb.slots, e.slot, -1)) > k.total)
  {
    ReachableAt(k, w, n, states, steps, t);
    var nd := states[t];
    var (tb, o) := Enforced(nd, steps[t]);
    assert Enabled(nd, steps[t]) && states[t + 1] == Take1(k, w, nd, steps[t]).0;
    ExpiredIsDistinct(w, nd, steps[t]);
    EnforceDropsShortest(k, tb, o, nd.tick, m, j);
    if steps[t].FinishStep? {
      var s := steps[t];
      EndKeepsOthers(k, w, nd, s.slot, s.outcome, s.abandoned, s.stopping, s.expires, o, Queue(tb.slots)[j]);
    }
  }
}
