/** The continuation cache as a state machine whose steps are the regions run under the lock. */
module Protocol {
  import opened Terms
  import opened Wire
  import opened Paging
  import opened Registry
  import CacheKey

  /** What the workers would enumerate. Every query with the same job enumerates the same stream; `rejected` is the
      error with which a goal is refused before it runs, if it is. */
  datatype Queries = Queries(stream: Job -> Stream, rejected: Job -> Option<string>)

  ghost predicate Sound(w: Queries) {
    forall j :: Steady(w.stream(j)) && (w.rejected(j).Some? ==> w.stream(j)(0) == Raised(w.rejected(j).value))
  }

  datatype Request = Request(job: Job, offset: nat, limit: nat)

  /** A call in progress: the client thread that owns the slot, its request, the limit that it originally asked for. */
  datatype Call = Call(client: nat, req: Request, asked: nat, resumed: bool)

  /** The registry, the processes spawned so far (numbered from 1), and the calls between their two lock regions. */
  datatype Node = Node(table: Table, cacheOrder: nat, spawned: nat, tick: nat, calls: map<nat, Call>)

  datatype Reply = Refused(reason: string) | Interrupted(reason: string) | Paged(page: Page)

  /** What came out of the query process before the deadline. */
  datatype Outcome = FromWorker | FromSupervisor(reason: string) | Silence

  /** The public form of a page: with once=true a page never promises more. */
  function Public(once: bool, p: Page): Page {
    if once && p.Success? then p.(more := false) else p
  }

  /** What a node without a cache would answer: start the query, skip, give one page. */
  function Fresh(w: Queries, req: Request): Page {
    Public(req.job.once, if req.limit == 0 then EmptyPage(w.rejected(req.job)) else Replay(w.stream(req.job), req.offset, req.limit))
  }

  // ---------- the steps ----------

  function Expire(tb: Table, clock: nat -> int, i: nat): (r: Table)
    requires i <= |tb.slots|
    ensures |r.slots| == |tb.slots|
    decreases |tb.slots| - i
  {
    if i == |tb.slots| then tb
    else Expire(if Idle(tb.slots[i]) && tb.slots[i].expires <= clock(i) then Release(tb, i) else tb, clock, i + 1)
  }

  /** The first idle slot that continues exactly this request. */
  function FindMatch(slots: seq<Slot>, offset: nat, key: string, i: nat): (r: int)
    requires i <= |slots|
    ensures -1 <= r < |slots|
    ensures r >= 0 ==> Idle(slots[r]) && slots[r].offset == offset && slots[r].key == key
    decreases |slots| - i
  {
    if i == |slots| then -1
    else if Idle(slots[i]) && slots[i].offset == offset && slots[i].key == key then i
    else FindMatch(slots, offset, key, i + 1)
  }

  function FirstFree(slots: seq<Slot>, i: nat): (r: int)
    requires i <= |slots|
    ensures -1 <= r < |slots|
    ensures r >= 0 ==> slots[r].pid == 0
    ensures r == -1 ==> forall j :: i <= j < |slots| ==> slots[j].pid != 0
    decreases |slots| - i
  {
    if i == |slots| then -1 else if slots[i].pid == 0 then i else FirstFree(slots, i + 1)
  }

  function Resume(nd: Node, m: nat, client: nat, req: Request, wrote: bool): (Node, Option<Reply>)
    requires m < |nd.table.slots|
  {
    var tb := nd.table.(slots := nd.table.slots[m := nd.table.slots[m].(busy := true)]);
    if wrote then
      var limit := if req.limit == 0 then MAX_PAGE else req.limit;
      (nd.(table := tb, calls := nd.calls[m := Call(client, req.(limit := limit), req.limit, true)]), None)
    else (nd.(table := Release(tb, m)), Some(Refused("worker_start_failed")))
  }

  /** The slot of a newly started worker. */
  function Spawned(nd: Node, req: Request): Slot {
    FREE.(pid := nd.spawned + 1, busy := true, key := CacheKey.KeyFor(req.job), job := req.job, cursor := req.offset)
  }

  /** A new query takes a free slot, or the slot of the idle query cached first. */
  function Start(nd: Node, client: nat, req: Request, started: bool): (Node, Option<Reply>) {
    var slots := nd.table.slots;
    var free, v := FirstFree(slots, 0), Oldest(slots, |slots|, -1);
    if free == -1 && v == -1 then (nd, Some(Refused("query_limit_exceeded")))
    else
      var i := if free >= 0 then free else v;
      var tb := if free >= 0 then nd.table else Release(nd.table, v);
      if started then
        (nd.(table := tb.(slots := tb.slots[i := Spawned(nd, req)]), spawned := nd.spawned + 1,
             calls := nd.calls[i := Call(client, req, req.limit, false)]), None)
      else (nd.(table := tb), Some(Refused("worker_start_failed")))
  }

  /** First lock region of a call. */
  function Begin(k: Config, nd: Node, client: nat, req: Request, clock: nat -> int, o: Oracle, wrote: bool, started: bool):
    (Node, Option<Reply>)
  {
    var e := Enforce(k, Expire(nd.table, clock, 0), o, nd.tick);
    if e.verdict.Some? then (nd.(table := e.table, tick := e.tick), Some(Refused(e.verdict.value)))
    else
      var m := FindMatch(e.table.slots, req.offset, CacheKey.KeyFor(req.job), 0);
      var a := Admit(k, e.table, m, o, e.tick);
      var admitted := nd.(table := a.table, tick := a.tick);
      if a.verdict.Some? then (admitted, Some(Refused(a.verdict.value)))
      else if m >= 0 then Resume(admitted, m, client, req, wrote)
      else Start(admitted, client, req, started)
  }

  /** The page that the process behind slot i writes for its current command. */
  function WorkerPage(w: Queries, q: Slot, c: Call): Page {
    if c.req.limit == 0 then EmptyPage(w.rejected(q.job)) else Replay(w.stream(q.job), q.cursor, c.req.limit)
  }

  function PageOf(w: Queries, q: Slot, c: Call, out: Outcome): Option<Page> {
    match out
    case FromWorker => Some(Public(c.req.job.once, WorkerPage(w, q, c)))
    case FromSupervisor(r) => Some(Error(r))
    case Silence => None
  }

  /** Second lock region of a call: keep the continuation, or release the slot; then reply. */
  function Finish(k: Config, w: Queries, nd: Node, i: nat, out: Outcome, abandoned: bool, stopping: bool, expires: int,
                  o: Oracle): (Node, Option<Reply>)
    requires i in nd.calls && i < |nd.table.slots|
  {
    var c := nd.calls[i];
    var e := Enforce(k, nd.table, o, nd.tick);
    var q := e.table.slots[i];
    var page := PageOf(w, q, c, out);
    var reply := if abandoned then None else if q.reason.Some? then Some(Interrupted(q.reason.value))
                 else if page.Some? then Some(Paged(page.value)) else Some(Interrupted("timeout_or_worker_failure"));
    var rest := nd.(tick := e.tick, calls := nd.calls - {i});
    if q.reason.None? && page.Some? && page.value.Success? && page.value.more && !abandoned && !stopping then
      var kept := q.(busy := false, offset := c.req.offset + c.req.limit, expires := expires, order := nd.cacheOrder + 1,
                     cursor := q.cursor + |page.value.answers|);
      (rest.(table := e.table.(slots := e.table.slots[i := kept]), cacheOrder := nd.cacheOrder + 1), reply)
    else (rest.(table := Release(e.table, i)), reply)
  }

  /** One turn of the main loop. */
  function Sweep(k: Config, nd: Node, clock: nat -> int, o: Oracle): Node {
    var e := Enforce(k, Expire(nd.table, clock, 0), o, nd.tick);
    nd.(table := e.table, tick := e.tick)
  }

  function ReleaseAll(tb: Table, i: nat): (r: Table)
    requires i <= |tb.slots|
    ensures |r.slots| == |tb.slots|
    decreases |tb.slots| - i
  {
    if i == |tb.slots| then tb else ReleaseAll(Release(tb, i), i + 1)
  }

  datatype Step =
    | SweepStep(clock: nat -> int, oracle: Oracle)
    | BeginStep(client: nat, req: Request, clock: nat -> int, oracle: Oracle, wrote: bool, started: bool)
    | FinishStep(slot: nat, outcome: Outcome, abandoned: bool, stopping: bool, expires: int, oracle: Oracle)

  /** A client thread makes one call at a time; only the owner of a call finishes it. */
  predicate Enabled(nd: Node, s: Step) {
    match s
    case SweepStep(_, _) => true
    case BeginStep(client, _, _, _, _, _) => forall i :: i in nd.calls ==> nd.calls[i].client != client
    case FinishStep(i, _, _, _, _, _) => i in nd.calls && i < |nd.table.slots|
  }

  function Take1(k: Config, w: Queries, nd: Node, s: Step): (Node, Option<Reply>)
    requires Enabled(nd, s)
  {
    match s
    case SweepStep(clock, o) => (Sweep(k, nd, clock, o), None)
    case BeginStep(client, req, clock, o, wrote, started) => Begin(k, nd, client, req, clock, o, wrote, started)
    case FinishStep(i, out, abandoned, stopping, expires, o) => Finish(k, w, nd, i, out, abandoned, stopping, expires, o)
  }

  function Initial(n: nat): Node {
    Node(Table(seq(n, _ => FREE), []), 0, 0, 0, map[])
  }

  /** States reached by a run, newest last; a step that is not enabled is not part of any run. */
  predicate IsRun(k: Config, w: Queries, n: nat, states: seq<Node>, steps: seq<Step>) {
    && |states| == |steps| + 1 && states[0] == Initial(n)
    && forall i :: 0 <= i < |steps| ==> Enabled(states[i], steps[i]) && states[i + 1] == Take1(k, w, states[i], steps[i]).0
  }
}
