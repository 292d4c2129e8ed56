/** The RPC client walks the pages of a remote query. */
module Rpc {
  import opened Terms
  import opened Paging
  import opened Registry
  import opened Protocol
  import opened CacheSafety
  import opened CacheTransparency

  /** The largest offset that a node accepts in a request; a larger one is answered with an HTTP error status. */
  const MAX_OFFSET: nat := 1_000_000_000

  /** `StatusError` is the client's own error when a node answers with an HTTP error status. */
  datatype RunEnding = Complete | Threw(error: string) | StatusError

  /** What the caller of rpc/2-3 sees on backtracking. */
  datatype RemoteRun = RemoteRun(answers: seq<string>, ending: RunEnding)

  /** Page t of a walk, requested at a given offset. The node may serve every page from a different cache state. */
  type Server = (nat, nat) -> Page

  /** The query has at most n answers. */
  ghost predicate EndsBy(st: Stream, n: nat) {
    Steady(st) && !st(n).Answer?
  }

  /** Every page that a node serves equals the page of a node without a cache. */
  ghost predicate Serves(serve: Server, st: Stream, limit: nat, once: bool) {
    forall t: nat, offset: nat :: offset <= MAX_OFFSET ==> serve(t, offset) == Public(once, Replay(st, offset, limit))
  }

  lemma AnswersComeEarly(st: Stream, i: nat, n: nat)
    requires EndsBy(st, n) && st(i).Answer?
    ensures i < n
  {
    if i >= n {
      EndedForGood(st, n, i - n);
    }
  }

  lemma PageCount(st: Stream, offset: nat, limit: nat, n: nat)
    requires EndsBy(st, n) && limit >= 1
    ensures st(offset).Answer? ==> offset < n && 1 <= |Take(st, offset, limit)| <= n - offset
  {
    if st(offset).Answer? {
      TakeIs(st, offset, limit);
      var last := |Take(st, offset, limit)| - 1;
      assert st(offset + last) == Answer(Take(st, offset, limit)[last]);
      AnswersComeEarly(st, offset + last, n);
      AnswersComeEarly(st, offset, n);
    }
  }

  /** `iso_rpc_pages`: the next page starts behind the answers received, not behind the limit asked for. The walk ends
      because the offset approaches the end of the query. */
  ghost function Walk(serve: Server, st: Stream, n: nat, t: nat, offset: nat, limit: nat, once: bool): RemoteRun
    requires EndsBy(st, n) && limit >= 1 && Serves(serve, st, limit, once)
    decreases n - offset
  {
    if offset > MAX_OFFSET then RemoteRun([], StatusError) else
    match serve(t, offset)
    case Failure => RemoteRun([], Complete)
    case Error(e) => RemoteRun([], Threw(e))
    case Success(slice, more) =>
      if more && !once && |slice| > 0 then
        PageCount(st, offset, limit, n);
        var rest := Walk(serve, st, n, t + 1, offset + |slice|, limit, once);
        RemoteRun(slice + rest.answers, rest.ending)
      else RemoteRun(slice, Complete)
  }

  function EndingOf(e: Event): RunEnding {
    if e.Raised? then Threw(e.error) else Complete
  }

  lemma {:induction false} TakeSplit(st: Stream, from: nat, a: nat, b: nat)
    requires |Take(st, from, a)| == a
    ensures Take(st, from, a + b) == Take(st, from, a) + Take(st, from + a, b)
    decreases a
  {
    if a > 0 {
      TakeSplit(st, from + 1, a - 1, b);
    }
  }

  lemma {:induction false} TakeNone(st: Stream, from: nat, n: nat)
    requires !st(from).Answer?
    ensures Take(st, from, n) == []
  {
  }

  lemma {:induction false} ShorterTake(st: Stream, from: nat, n: nat, c: nat)
    requires c <= |Take(st, from, n)|
    ensures Take(st, from, c) == Take(st, from, n)[..c]
    decreases c
  {
    if c > 0 {
      ShorterTake(st, from + 1, n - 1, c - 1);
    }
  }

  // ---------- walks and the offset bound ----------

  /** The query has exactly n answers. */
  ghost predicate EndsAt(st: Stream, n: nat) {
    EndsBy(st, n) && (n > 0 ==> st(n - 1).Answer?)
  }

  /** The last offset that a walk from `offset` over n answers asks for. A pending exception costs one more page. */
  function LastOffset(offset: nat, n: nat, limit: nat, raised: bool): (last: nat)
    requires limit >= 1 && offset <= n
    ensures offset <= last <= n
    decreases n - offset
  {
    if offset + limit < n then LastOffset(offset + limit, n, limit, raised) else if raised then n else offset
  }

  /** The first offset beyond the bound that the walk asks for, if its last one is beyond it. */
  function FirstBeyond(offset: nat, n: nat, limit: nat): (first: nat)
    requires limit >= 1 && offset <= n
    ensures offset <= first <= n
    decreases n - offset
  {
    if offset > MAX_OFFSET then offset else if offset + limit < n then FirstBeyond(offset + limit, n, limit) else n
  }

  lemma {:induction false} TakeAll(st: Stream, n: nat, from: nat, count: nat)
    requires EndsAt(st, n) && from <= n
    ensures |Take(st, from, count)| == if count < n - from then count else n - from
    decreases count
  {
    if count > 0 && from < n {
      if !st(from).Answer? {
        EndedForGood(st, from, n - 1 - from);
      }
      TakeAll(st, n, from + 1, count - 1);
    } else if from == n {
      TakeNone(st, from, count);
    }
  }

  /** One page of a walk within the bound. */
  lemma PageStep(serve: Server, st: Stream, n: nat, t: nat, offset: nat, limit: nat)
    requires EndsAt(st, n) && limit >= 1 && Serves(serve, st, limit, false) && offset < n && offset <= MAX_OFFSET
    ensures var page := Take(st, offset, limit);
            var next := offset + |page|;
            && next == (if offset + limit < n then offset + limit else n)
            && Walk(serve, st, n, t, offset, limit, false) ==
               if next == n && !st(n).Raised? then RemoteRun(page, Complete)
               else var rest := Walk(serve, st, n, t + 1, next, limit, false); RemoteRun(page + rest.answers, rest.ending)
  {
    assert serve(t, offset) == Public(false, Replay(st, offset, limit));
    TakeAll(st, n, offset, limit);
    TakeAll(st, n, offset, 1);
    TakeAll(st, n, offset + |Take(st, offset, limit)|, 1);
  }

  /** What a walk gives up to a later position: the page and what follows it. */
  lemma PageAndLater(st: Stream, n: nat, offset: nat, limit: nat, until: nat)
    requires EndsAt(st, n) && offset + |Take(st, offset, limit)| <= until <= n
    ensures var page := Take(st, offset, limit);
            Take(st, offset, until - offset) == page + Take(st, offset + |page|, until - offset - |page|)
  {
    var count := |Take(st, offset, limit)|;
    ShorterTake(st, offset, limit, count);
    TakeSplit(st, offset, count, until - offset - count);
  }

  /** The run, complete if the walk's last offset is within the bound; otherwise the answers before the first offset
      beyond the bound, and the node's status error. */
  function UpToBound(st: Stream, n: nat, offset: nat, limit: nat): RemoteRun
    requires limit >= 1 && offset <= n
  {
    if LastOffset(offset, n, limit, st(n).Raised?) <= MAX_OFFSET then RemoteRun(Take(st, offset, n - offset), EndingOf(st(n)))
    else RemoteRun(Take(st, offset, FirstBeyond(offset, n, limit) - offset), StatusError)
  }

  lemma BoundStep(st: Stream, n: nat, offset: nat, limit: nat)
    requires EndsAt(st, n) && limit >= 1 && offset < n && offset <= MAX_OFFSET
    ensures var page := Take(st, offset, limit);
            var next := offset + |page|;
            && next <= n
            && UpToBound(st, n, offset, limit) ==
               if next == n && !st(n).Raised? then RemoteRun(page, Complete)
               else RemoteRun(page + UpToBound(st, n, next, limit).answers, UpToBound(st, n, next, limit).ending)
  {
    hide Take, EndsAt;
    TakeAll(st, n, offset, limit);
    var page := Take(st, offset, limit);
    var next := offset + |page|;
    PageAndLater(st, n, offset, limit, n);
    PageAndLater(st, n, offset, limit, FirstBeyond(next, n, limit));
    assert page + [] == page;
    assert Take(st, n, 0) == [];
    if next < n {
      assert LastOffset(offset, n, limit, st(n).Raised?) == LastOffset(next, n, limit, st(n).Raised?);
      assert FirstBeyond(offset, n, limit) == FirstBeyond(next, n, limit);
    }
  }

  lemma WalkEnds(serve: Server, st: Stream, n: nat, t: nat, offset: nat, limit: nat)
    requires EndsAt(st, n) && limit >= 1 && Serves(serve, st, limit, false) && offset <= n
    requires offset > MAX_OFFSET || offset == n
    ensures Walk(serve, st, n, t, offset, limit, false) == UpToBound(st, n, offset, limit)
  {
    assert offset <= MAX_OFFSET ==> serve(t, offset) == Public(false, Replay(st, offset, limit));
  }

  /** A page and the run that follows it. */
  function After(page: seq<string>, rest: RemoteRun): RemoteRun {
    RemoteRun(page + rest.answers, rest.ending)
  }

  /** The page at an offset ends the walk, or both the walk and the run within the bound go on behind it. */
  lemma StepAlike(serve: Server, st: Stream, n: nat, t: nat, offset: nat, limit: nat) returns (next: nat)
    requires EndsAt(st, n) && limit >= 1 && Serves(serve, st, limit, false) && offset < n && offset <= MAX_OFFSET
    ensures offset < next <= n
    ensures next == n && !st(n).Raised? ==> Walk(serve, st, n, t, offset, limit, false) == UpToBound(st, n, offset, limit)
    ensures next < n || st(n).Raised? ==>
              var page := Take(st, offset, limit);
              && Walk(serve, st, n, t, offset, limit, false) == After(page, Walk(serve, st, n, t + 1, next, limit, false))
              && UpToBound(st, n, offset, limit) == After(page, UpToBound(st, n, next, limit))
  {
    hide Walk, Serves, EndsAt, Take, UpToBound;
    PageStep(serve, st, n, t, offset, limit);
    BoundStep(st, n, offset, limit);
    next := offset + |Take(st, offset, limit)|;
  }

  /** A walk of any length gives what lies within the bound. */
  lemma {:induction false} WalkExactly(serve: Server, st: Stream, n: nat, t: nat, offset: nat, limit: nat)
    requires EndsAt(st, n) && limit >= 1 && Serves(serve, st, limit, false) && offset <= n
    requires offset == n > 0 ==> st(n).Raised?
    ensures Walk(serve, st, n, t, offset, limit, false) == UpToBound(st, n, offset, limit)
    decreases n - offset
  {
    if offset > MAX_OFFSET || offset == n {
      WalkEnds(serve, st, n, t, offset, limit);
    } else {
      var next := StepAlike(serve, st, n, t, offset, limit);
      if next < n || st(n).Raised? {
        WalkExactly(serve, st, n, t + 1, next, limit);
      }
    }
  }

  /** Client and caching server together: for every query with n answers, optionally ending in an exception, and every
      page limit >= 1, the caller of rpc gets what lies within the offset bound, whichever pages hit the cache and
      whatever other clients do in between. */
  lemma RpcEnumeratesRemoteQuery(k: Config, w: Queries, job: Job, n: nat, limit: nat, serve: Server)
    requires Sound(w) && !job.once && limit >= 1 && EndsAt(w.stream(job), n)
    requires forall t: nat, offset: nat :: offset <= MAX_OFFSET ==> Served(k, w, Request(job, offset, limit), serve(t, offset))
    ensures Serves(serve, w.stream(job), limit, false)
    ensures Walk(serve, w.stream(job), n, 0, 0, limit, false) == UpToBound(w.stream(job), n, 0, limit)
    ensures n <= MAX_OFFSET ==> Walk(serve, w.stream(job), n, 0, 0, limit, false) == Whole(w.stream(job), n)
  {
    forall t: nat, offset: nat | offset <= MAX_OFFSET ensures serve(t, offset) == Public(false, Replay(w.stream(job), offset, limit)) {
      ServedIsFresh(k, w, Request(job, offset, limit), serve(t, offset));
    }
    WalkExactly(serve, w.stream(job), n, 0, 0, limit);
  }

  /** All answers of a query and its ending. */
  function Whole(st: Stream, n: nat): RemoteRun {
    RemoteRun(Take(st, 0, n), EndingOf(st(n)))
  }

  /** Exactly when the bound matters: the caller gets all answers and the ending if and only if no page beyond the bound
      has to be asked for. */
  lemma RpcEnumeratesExactly(k: Config, w: Queries, job: Job, n: nat, limit: nat, serve: Server)
    requires Sound(w) && !job.once && limit >= 1 && EndsAt(w.stream(job), n)
    requires forall t: nat, offset: nat :: offset <= MAX_OFFSET ==> Served(k, w, Request(job, offset, limit), serve(t, offset))
    ensures Serves(serve, w.stream(job), limit, false)
    ensures Walk(serve, w.stream(job), n, 0, 0, limit, false) == Whole(w.stream(job), n)
            <==> LastOffset(0, n, limit, w.stream(job)(n).Raised?) <= MAX_OFFSET
  {
    RpcEnumeratesRemoteQuery(k, w, job, n, limit, serve);
  }

  /** With once(true), one page is all. */
  lemma RpcOnceIsOnePage(k: Config, w: Queries, job: Job, n: nat, limit: nat, serve: Server)
    requires Sound(w) && job.once && limit >= 1
    requires EndsBy(w.stream(job), n)
    requires forall t: nat, offset: nat :: offset <= MAX_OFFSET ==> Served(k, w, Request(job, offset, limit), serve(t, offset))
    ensures Serves(serve, w.stream(job), limit, true)
    ensures Walk(serve, w.stream(job), n, 0, 0, limit, true) ==
            RemoteRun(Take(w.stream(job), 0, limit), if w.stream(job)(0).Raised? then Threw(w.stream(job)(0).error) else Complete)
  {
    forall t: nat, offset: nat | offset <= MAX_OFFSET ensures serve(t, offset) == Public(true, Replay(w.stream(job), offset, limit)) {
      ServedIsFresh(k, w, Request(job, offset, limit), serve(t, offset));
    }
  }

  /** A page that the node delivers for a request in some state with the invariant of all reachable states. */
  ghost predicate Served(k: Config, w: Queries, req: Request, page: Page) {
    exists nd: Node, i: nat, abandoned, stopping, expires, o ::
      Inv(w, nd) && i in nd.calls && Sent(nd.calls[i]) == req &&
      Finish(k, w, nd, i, FromWorker, abandoned, stopping, expires, o).1 == Some(Paged(page))
  }

  lemma ServedIsFresh(k: Config, w: Queries, req: Request, page: Page)
    requires Sound(w) && Served(k, w, req, page) && req.limit >= 1
    ensures page == Public(req.job.once, Replay(w.stream(req.job), req.offset, req.limit))
  {
    var nd: Node, i: nat, abandoned, stopping, expires, o :|
      Inv(w, nd) && i in nd.calls && Sent(nd.calls[i]) == req &&
      Finish(k, w, nd, i, FromWorker, abandoned, stopping, expires, o).1 == Some(Paged(page));
    ReplyTransparent(k, w, nd, i, abandoned, stopping, expires, o);
  }
}
