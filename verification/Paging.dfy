/** Answer streams, pages, and the worker's paging loop. */
module Paging {
  import opened Terms

  /** One step of the underlying enumeration. Answers are kept abstract: they are compared up to variable renaming. */
  datatype Event = Answer(text: string) | Exhausted | Raised(error: string)

  /** Event i of a query. An enumeration may be infinite; once it has ended it stays ended. */
  type Stream = nat -> Event

  ghost predicate Steady(st: Stream) {
    forall i: nat :: !st(i).Answer? ==> st(i + 1) == st(i)
  }

  /** A page event on the wire between worker and controller. */
  datatype Page = Success(answers: seq<string>, more: bool) | Failure | Error(term: string)

  /** The answers at positions from, from+1, ... up to n of them. */
  function Take(st: Stream, from: nat, n: nat): (r: seq<string>)
    ensures |r| <= n
    decreases n
  {
    if n == 0 || !st(from).Answer? then [] else [st(from).text] + Take(st, from + 1, n - 1)
  }

  /** Take gives the answers in order and stops early only where the enumeration ends. */
  lemma {:induction false} TakeIs(st: Stream, from: nat, n: nat)
    ensures forall i :: 0 <= i < |Take(st, from, n)| ==> st(from + i) == Answer(Take(st, from, n)[i])
    ensures |Take(st, from, n)| < n ==> !st(from + |Take(st, from, n)|).Answer?
    decreases n
  {
    if n > 0 && st(from).Answer? {
      TakeIs(st, from + 1, n - 1);
      forall i | 0 <= i < |Take(st, from, n)| ensures st(from + i) == Answer(Take(st, from, n)[i]) {
        if i > 0 {
          assert st(from + 1 + (i - 1)) == Answer(Take(st, from + 1, n - 1)[i - 1]);
        }
      }
    }
  }

  /** The page a fresh replay gives: restart the enumeration, skip `offset` answers, give up to `limit`. */
  function Replay(st: Stream, offset: nat, limit: nat): Page {
    match st(offset)
    case Raised(e) => Error(e)
    case Exhausted => Failure
    case Answer(_) =>
      var answers := Take(st, offset, limit);
      Success(answers, !st(offset + |answers|).Exhausted?)
  }

  function At(st: Stream, i: nat, k: nat): Event {
    st(i + k)
  }

  /** Two positions from which the enumeration continues alike. */
  ghost predicate Alike(st: Stream, i: nat, j: nat) {
    forall k: nat :: At(st, i, k) == At(st, j, k)
  }

  lemma {:induction false} EndedForGood(st: Stream, i: nat, k: nat)
    requires Steady(st) && !st(i).Answer?
    ensures st(i + k) == st(i)
  {
    if k > 0 {
      EndedForGood(st, i, k - 1);
    }
  }

  /** Skipping saturates at the end of the enumeration. */
  lemma SkipSaturates(st: Stream, i: nat, left: nat)
    requires Steady(st) && !st(i).Answer?
    ensures Alike(st, i, i + left)
  {
    var j := i + left;
    forall k: nat ensures At(st, i, k) == At(st, j, k) {
      EndedForGood(st, i, k);
      EndedForGood(st, i, left + k);
    }
  }

  /** A page that stopped early leaves the worker where skipping the full limit would have led. */
  lemma ShortPageAlike(st: Stream, from: nat, limit: nat)
    requires Steady(st)
    ensures Alike(st, from + |Take(st, from, limit)|, from + limit)
  {
    var n := |Take(st, from, limit)|;
    TakeIs(st, from, limit);
    if n < limit {
      SkipSaturates(st, from + n, limit - n);
    }
  }

  lemma AlikeAdvance(st: Stream, i: nat, j: nat, n: nat)
    requires Alike(st, i, j)
    ensures Alike(st, i + n, j + n)
  {
    var i1, j1 := i + n, j + n;
    forall k: nat ensures At(st, i1, k) == At(st, j1, k) {
      assert At(st, i, n + k) == At(st, j, n + k);
    }
  }

  lemma {:induction false} AlikeTake(st: Stream, i: nat, j: nat, n: nat)
    requires Alike(st, i, j)
    ensures Take(st, i, n) == Take(st, j, n)
    decreases n
  {
    assert At(st, i, 0) == At(st, j, 0);
    if n > 0 && st(i).Answer? {
      AlikeAdvance(st, i, j, 1);
      AlikeTake(st, i + 1, j + 1, n - 1);
    }
  }

  lemma AlikeReplay(st: Stream, i: nat, j: nat, n: nat)
    requires Alike(st, i, j)
    ensures Replay(st, i, n) == Replay(st, j, n)
  {
    AlikeTake(st, i, j, n);
    assert At(st, i, 0) == At(st, j, 0);
    assert At(st, i, |Take(st, i, n)|) == At(st, j, |Take(st, i, n)|);
  }

  /** One query worker. `status` is the event at `cursor`: the answer that is buffered ahead of each page. */
  class Worker {
    const stream: Stream
    var status: Event
    var cursor: nat
    var running: bool

    ghost predicate Valid()
      reads this
    {
      Steady(stream) && status == stream(cursor)
    }

    /** Start the goal and skip answers. The skip stops early at the end of the enumeration or at an exception. */
    constructor (stream: Stream, offset: nat)
      requires Steady(stream)
      ensures Valid() && this.stream == stream && running
      ensures Alike(stream, cursor, offset)
    {
      this.stream := stream;
      status := stream(0);
      cursor := 0;
      running := true;
      new;
      var left := offset;
      while left > 0 && status.Answer?
        invariant Valid() && running && this.stream == stream
        invariant cursor + left == offset
        decreases left
      {
        left := left - 1;
        cursor := cursor + 1;
        status := stream(cursor);
      }
      if left > 0 {
        SkipSaturates(stream, cursor, left);
      }
    }

    /** Write one page. Answers are written before the enumeration advances; the worker stays suspended unless the
        enumeration is exhausted. */
    method WritePage(limit: nat) returns (page: Page)
      requires Valid() && running && limit >= 1
      modifies this
      ensures Valid()
      ensures page == Replay(stream, old(cursor), limit)
      ensures cursor == old(cursor) + if page.Success? then |page.answers| else 0
      ensures running <==> page.Success? && page.more
    {
      match status
      case Raised(e) =>
        page := Error(e);
        running := false;
      case Exhausted =>
        page := Failure;
        running := false;
      case Answer(_) =>
        var answers := WriteAnswers(limit);
        running := !status.Exhausted?;
        page := Success(answers, running);
    }

    /** The do-while loop over the answers of a page. */
    method WriteAnswers(limit: nat) returns (answers: seq<string>)
      requires Valid() && limit >= 1 && status.Answer?
      modifies `cursor, `status
      ensures Valid()
      ensures answers == Take(stream, old(cursor), limit)
      ensures cursor == old(cursor) + |answers|
    {
      answers := [];
      var more := true;
      ghost var page := Take(stream, cursor, limit);
      while more
        invariant Valid()
        invariant |answers| <= limit && cursor == old(cursor) + |answers|
        invariant page == answers + Take(stream, cursor, limit - |answers|)
        invariant more <==> |answers| < limit && status.Answer?
        decreases limit - |answers|
      {
        ghost var rest := Take(stream, cursor + 1, limit - |answers| - 1);
        assert page == answers + ([status.text] + rest) == answers + [status.text] + rest;
        answers := answers + [status.text];
        cursor := cursor + 1;
        status := stream(cursor);
        more := |answers| < limit && status.Answer?;
      }
    }

    /** The `next N` command. A resumed zero page ends the query. */
    method Next(n: nat) returns (page: Page)
      requires Valid() && running
      modifies this
      ensures Valid()
      ensures page == if n == 0 then Failure else Replay(stream, old(cursor), n)
      ensures n == 0 ==> !running && cursor == old(cursor)
      ensures n >= 1 ==> cursor == old(cursor) + (if page.Success? then |page.answers| else 0)
                         && (running <==> page.Success? && page.more)
    {
      if n == 0 {
        running := false;
        page := Failure;
      } else {
        page := WritePage(n);
      }
    }
  }

  /** What a worker started with an empty page prints: the goal is checked but never run. */
  function EmptyPage(rejected: Option<string>): Page {
    match rejected
    case Some(e) => Error(e)
    case None => Failure
  }
}
