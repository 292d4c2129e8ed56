/** What a client is told, and when. */
module Replies {
  import opened Terms
  import opened Wire
  import opened Paging
  import opened Registry
  import opened Protocol
  import opened CacheSafety
  import opened CacheTransparency
  import opened Shedding
  import CacheKey
  import Delivery
  import AnswerFraming
  import SupervisedOutput

  /** The slot of the call that ends in this step, as its thread finds it once the memory budget has been enforced. */
  function Mine(k: Config, nd: Node, s: Step): Slot
    requires s.FinishStep? && Enabled(nd, s)
  {
    Enforce(k, nd.table, s.oracle, nd.tick).table.slots[s.slot]
  }

  /** What the end of a call says, given what came out of the query process and whether another thread has stopped it. */
  ghost predicate Tells(w: Queries, c: Call, stopped: Option<string>, out: Outcome, reply: Reply) {
    if stopped.Some? then reply == Interrupted(stopped.value)
    else
      match out
      case Silence => reply == Interrupted("timeout_or_worker_failure")
      case FromSupervisor(reason) => reply == Paged(Error(reason))
      case FromWorker => reply.Paged? && (c.asked >= 1 || !c.resumed ==> reply.page == Fresh(w, Sent(c)))
  }

  /** Over a run: a client that has not gone away is told what happened to its call. If memory enforcement stopped its query,
      the reason for that; otherwise the supervisor's error, a timeout if nothing came in time, or the page of the request. */
  lemma ToldWhatHappened(k: Config, w: Queries, n: nat, states: seq<Node>, steps: seq<Step>, t: nat)
    requires Sound(w) && IsRun(k, w, n, states, steps) && t < |steps| && steps[t].FinishStep?
    ensures Enabled(states[t], steps[t])
    ensures var nd, s := states[t], steps[t];
            var reply := Take1(k, w, nd, s).1;
            && (reply.None? <==> s.abandoned)
            && (reply.Some? ==> Tells(w, nd.calls[s.slot], Mine(k, nd, s).reason, s.outcome, reply.value))
  {
    hide Sound, Inv, Enforce;
    var nd, s := states[t], steps[t];
    ReachableAt(k, w, n, states, steps, t);
    assert Enabled(nd, s);
    if s.outcome.FromWorker? {
      ReplyTransparent(k, w, nd, s.slot, s.abandoned, s.stopping, s.expires, s.oracle);
    }
  }

  // ---------- why a query is stopped ----------

  predicate KnownReason(q: Slot) {
    q.reason.Some? ==> q.reason.value == TOTAL_EXCEEDED || q.reason.value == MONITOR_FAILED
  }

  predicate KnownReasons(slots: seq<Slot>) {
    forall i :: 0 <= i < |slots| ==> KnownReason(slots[i])
  }

  lemma SampledReasons(c: Config, slots: seq<Slot>, o: Oracle, t: nat)
    requires KnownReasons(slots)
    ensures KnownReasons(Sample(c, slots, o, t).slots)
  {
    SampleShape(c, slots, o, t);
    var s := Sample(c, slots, o, t).slots;
    forall i | 0 <= i < |s| ensures KnownReason(s[i]) {
      assert slots[i].(memory := 0) == s[i].(memory := 0);
    }
  }

  lemma {:induction false} StopReasons(tb: Table, i: nat)
    requires i <= |tb.slots| && KnownReasons(tb.slots)
    ensures KnownReasons(StopAll(tb, i).slots)
    decreases |tb.slots| - i
  {
    if i < |tb.slots| {
      var next := if tb.slots[i].pid == 0 then tb
                  else if tb.slots[i].busy then Abort(tb, i, MONITOR_FAILED) else Release(tb, i);
      StopReasons(next, i + 1);
    }
  }

  lemma {:induction false} EnforceReasons(c: Config, tb: Table, o: Oracle, t: nat)
    requires KnownReasons(tb.slots)
    ensures KnownReasons(Enforce(c, tb, o, t).table.slots)
    decreases Sheddable(tb.slots)
  {
    hide Sample, Oldest, Largest, Enforce;
    SampledReasons(c, tb.slots, o, t);
    StopReasons(tb.(slots := Sample(c, tb.slots, o, t).slots), 0);
    var r := EnforceRound(c, tb, o, t);
    assert KnownReasons(r.table.slots);
    EnforceUnfolds(c, tb, o, t);
    if r.Again? {
      EnforceReasons(c, r.table, o, t + 1);
    }
  }

  lemma {:induction false} AdmitReasons(c: Config, tb: Table, resume: int, o: Oracle, t: nat)
    requires KnownReasons(tb.slots)
    ensures KnownReasons(Admit(c, tb, resume, o, t).table.slots)
    decreases Sheddable(tb.slots)
  {
    hide Sample, Oldest, Admit;
    SampledReasons(c, tb.slots, o, t);
    var r := AdmitRound(c, tb, resume, o, t);
    assert KnownReasons(r.table.slots);
    AdmitUnfolds(c, tb, resume, o, t);
    if r.Again? {
      AdmitReasons(c, r.table, resume, o, t + 1);
    }
  }

  lemma ExpireReasons(tb: Table, clock: nat -> int)
    requires KnownReasons(tb.slots)
    ensures KnownReasons(Expire(tb, clock, 0).slots)
  {
    ExpireExactly(tb, clock, 0);
  }

  lemma BeginReasons(k: Config, nd: Node, client: nat, req: Request, clock: nat -> int, o: Oracle, wrote: bool, started: bool)
    requires KnownReasons(nd.table.slots)
    ensures KnownReasons(Begin(k, nd, client, req, clock, o, wrote, started).0.table.slots)
  {
    hide Enforce, Expire, Admit, FindMatch, FirstFree, Oldest;
    ExpireReasons(nd.table, clock);
    EnforceReasons(k, Expire(nd.table, clock, 0), o, nd.tick);
    var e := Enforce(k, Expire(nd.table, clock, 0), o, nd.tick);
    AdmitReasons(k, e.table, FindMatch(e.table.slots, req.offset, CacheKey.KeyFor(req.job), 0), o, e.tick);
  }

  lemma StepReasons(k: Config, w: Queries, nd: Node, s: Step)
    requires KnownReasons(nd.table.slots) && Enabled(nd, s)
    ensures KnownReasons(Take1(k, w, nd, s).0.table.slots)
  {
    hide Enforce, Expire, Begin, PageOf;
    match s
    case SweepStep(clock, o) =>
      ExpireReasons(nd.table, clock);
      EnforceReasons(k, Expire(nd.table, clock, 0), o, nd.tick);
    case BeginStep(client, req, clock, o, wrote, started) => BeginReasons(k, nd, client, req, clock, o, wrote, started);
    case FinishStep(i, out, abandoned, stopping, expires, o) => EnforceReasons(k, nd.table, o, nd.tick);
  }

  lemma {:induction false} RunReasons(k: Config, w: Queries, n: nat, states: seq<Node>, steps: seq<Step>, t: nat)
    requires IsRun(k, w, n, states, steps) && t < |states|
    ensures KnownReasons(states[t].table.slots)
  {
    if t > 0 {
      RunReasons(k, w, n, states, steps, t - 1);
      assert Enabled(states[t - 1], steps[t - 1]);
      StepReasons(k, w, states[t - 1], steps[t - 1]);
    }
  }

  /** Over a run: a query that has been stopped has been stopped for memory, and its client is told for which reason. */
  lemma StoppedForMemory(k: Config, w: Queries, n: nat, states: seq<Node>, steps: seq<Step>, t: nat)
    requires Sound(w) && IsRun(k, w, n, states, steps) && t < |steps| && steps[t].FinishStep? && !steps[t].abandoned
    ensures Enabled(states[t], steps[t])
    ensures var reply, mine := Take1(k, w, states[t], steps[t]).1, Mine(k, states[t], steps[t]);
            mine.terminated ==> reply == Some(Interrupted("total_memory_limit_exceeded")) || reply == Some(Interrupted("memory_monitor_failed"))
  {
    hide Sound, Enforce, Take1;
    var nd, s := states[t], steps[t];
    ToldWhatHappened(k, w, n, states, steps, t);
    RunReasons(k, w, n, states, steps, t);
    EnforceReasons(k, nd.table, s.oracle, nd.tick);
    ReachableAt(k, w, n, states, steps, t);
    EnforceKeepsInv(k, w, nd, s.oracle);
    assert SlotOk(w, nd.cacheOrder, Mine(k, nd, s)) && KnownReason(Mine(k, nd, s));
  }

  // ---------- failures ----------

  /** The page after an answer that the client has seen is never a failure. */
  lemma ResumedIsNoFailure(w: Queries, q: Slot, c: Call)
    requires Sound(w) && CallOk(w, q, c) && c.resumed && c.asked == 0
    ensures !WorkerPage(w, q, c).Failure?
  {
  }

  /** Over a run: nobody is told that a query has failed unless it has no answer on that page. */
  lemma FailureIsFailure(k: Config, w: Queries, n: nat, states: seq<Node>, steps: seq<Step>, t: nat)
    requires Sound(w) && IsRun(k, w, n, states, steps) && t < |steps| && Enabled(states[t], steps[t])
    requires Take1(k, w, states[t], steps[t]).1 == Some(Paged(Failure))
    ensures steps[t].FinishStep? && steps[t].outcome.FromWorker?
    ensures Fresh(w, Sent(states[t].calls[steps[t].slot])) == Failure
  {
    hide Sound, Enforce, SlotsOk, Books, Fresh, WorkerPage;
    var nd, s := states[t], steps[t];
    ReachableAt(k, w, n, states, steps, t);
    OnlyFinishPages(k, w, nd, s);
    ReplyTransparent(k, w, nd, s.slot, s.abandoned, s.stopping, s.expires, s.oracle);
    EnforceKeepsInv(k, w, nd, s.oracle);
    var c := nd.calls[s.slot];
    if c.resumed && c.asked == 0 {
      ResumedIsNoFailure(w, Mine(k, nd, s), c);
    }
  }

  lemma OnlyFinishPages(k: Config, w: Queries, nd: Node, s: Step)
    requires Enabled(nd, s) && Take1(k, w, nd, s).1.Some? && Take1(k, w, nd, s).1.value.Paged?
    ensures s.FinishStep? && (Take1(k, w, nd, s).1.value.page == Failure ==> s.outcome.FromWorker?)
  {
    hide Enforce, Expire, Admit, FindMatch, WorkerPage, Public;
  }

  /** A fresh query for no answers: the goal is checked, and if it is admitted the page is a failure. */
  lemma NothingAskedFor(w: Queries, req: Request)
    requires req.limit == 0
    ensures Fresh(w, req) == match w.rejected(req.job) case Some(e) => Error(e) case None => Failure
  {
  }

  // ---------- on the wire ----------

  predicate Unescaped(s: string) {
    forall i :: 0 <= i < |s| ==> s[i] >= ' ' && s[i] != '\"' && s[i] != '\\'
  }

  lemma {:induction false} NothingToEscape(s: string)
    requires Unescaped(s)
    ensures AnswerFraming.EscapeAll(s) == s
  {
    if s != "" {
      NothingToEscape(s[1..]);
    }
  }

  /** An event of the supervisor is the line of an error page, and the client gets its reason. */
  lemma EventArrives(reason: string, once: bool)
    requires Unescaped(reason)
    ensures SupervisedOutput.EventText(reason) == Delivery.PageLine(Error(reason))
    ensures AnswerFraming.Public(SupervisedOutput.EventText(reason), true, once) == Some("error(" + reason + ").\n")
    ensures AnswerFraming.Public(SupervisedOutput.EventText(reason), false, once) == Some("{\"type\":\"error\",\"data\":\"" + reason + "\"}\n")
  {
    hide AnswerFraming.Public;
    hide JsonPage;
    ReasonIsWritten(reason);
    Delivery.PageArrives(Error(reason), once);
    JsonPageArrives(Error(reason), once);
    ReasonInJson(reason);
    CTextWhole(reason);
  }

  lemma ReasonIsWritten(reason: string)
    requires Unescaped(reason)
    ensures AnswerFraming.JsonString(reason) == ['\"'] + reason + ['\"']
    ensures SupervisedOutput.EventText(reason) == AnswerFraming.ErrorLine(reason)
  {
    CTextWhole(reason);
    NothingToEscape(reason);
    assert ERROR + "\"" + reason + "\"}" == ERROR + (['\"'] + reason + ['\"']) + "}";
  }

  lemma ReasonInJson(reason: string)
    requires Unescaped(reason)
    ensures JsonPage(Error(reason)) == "{\"type\":\"error\",\"data\":\"" + reason + "\"}\n"
  {
    hide AnswerFraming.JsonString;
    ReasonIsWritten(reason);
    assert "{\"type\":\"error\",\"data\":\"" == "{\"type\":\"error\",\"data\":" + ['\"'] && "\"}\n" == ['\"'] + "}\n";
    assert JsonPage(Error(reason)) == "{\"type\":\"error\",\"data\":" + ['\"'] + reason + (['\"'] + "}\n");
  }

  /** The public JSON text of a page. */
  function JsonPage(p: Page): string {
    match p
    case Success(answers, more) =>
      "{\"type\":\"success\",\"data\":[" + AnswerFraming.JoinWith(AnswerFraming.JsonStrings(answers), ",") +
      "],\"more\":" + (if more then "true}\n" else "false}\n")
    case Failure => "{\"type\":\"failure\"}\n"
    case Error(term) => "{\"type\":\"error\",\"data\":" + AnswerFraming.JsonString(term) + "}\n"
  }

  lemma JsonSuccess(answers: seq<string>, more: bool)
    ensures AnswerFraming.JsonBody(AnswerFraming.Line(answers, more)) == JsonPage(Success(answers, more))
  {
    hide AnswerFraming.Line, AnswerFraming.JoinWith, AnswerFraming.JsonStrings;
    AnswerFraming.LineSuffix(answers, more);
    AnswerFraming.LineBody(answers, more);
    var j := AnswerFraming.JoinWith(AnswerFraming.JsonStrings(answers), ",");
    var end := if more then MORE else NO_MORE;
    assert "],\"more\":" + (if more then "true}\n" else "false}\n") == "]" + end + "\n";
    Associate("{\"type\":\"success\",\"data\":[", j, "]" + end);
    Associate("{\"type\":\"success\",\"data\":[" + j, "]" + end, "\n");
    Associate("{\"type\":\"success\",\"data\":[" + j, "],\"more\":", if more then "true}\n" else "false}\n");
  }

  lemma JsonError(term: string)
    ensures AnswerFraming.JsonBody(AnswerFraming.ErrorLine(term)) == JsonPage(Error(term))
  {
    hide AnswerFraming.ErrorLine, AnswerFraming.JsonString;
    AnswerFraming.ErrorLineSplits(term);
    Associate("{\"type\":\"error\",\"data\":", AnswerFraming.JsonString(term) + "}", "\n");
    Associate("{\"type\":\"error\",\"data\":", AnswerFraming.JsonString(term), "}");
    Associate("{\"type\":\"error\",\"data\":" + AnswerFraming.JsonString(term), "}", "\n");
    assert "}" + "\n" == "}\n";
  }

  lemma JsonFailure()
    ensures AnswerFraming.JsonBody(FAILURE) == JsonPage(Failure)
  {
    assert FAILURE[9] != SUCCESS[9] && FAILURE[9] != ERROR[9];
    Delivery.FailureLine();
  }

  /** The default format: the body made of a page's line is the JSON text of the page that is replied. */
  lemma JsonPageArrives(p: Page, once: bool)
    ensures AnswerFraming.Public(Delivery.PageLine(p), false, once) == Some(JsonPage(Public(once, p)))
  {
    hide AnswerFraming.JsonBody, JsonPage, AnswerFraming.Line, AnswerFraming.ErrorLine;
    Delivery.PageIsOneEvent(p);
    match p
    case Success(answers, more) =>
      JsonSuccess(answers, more && !once);
      if once && more {
        AnswerFraming.OnceLine(answers);
      }
    case Failure => JsonFailure();
    case Error(term) => JsonError(term);
  }

  /** The public Prolog text of a page; of an answer with a NUL the controller sees what is before it. */
  function PrologPage(p: Page): string {
    match p
    case Success(answers, more) =>
      "success([" + AnswerFraming.JoinWith(AnswerFraming.Seen(answers), ",") + (if more then "],true).\n" else "],false).\n")
    case Failure => "failure.\n"
    case Error(term) => "error(" + CText(term) + ").\n"
  }

  /** The Prolog format, likewise: a page of answers arrives with its commas and its promise, once=true included. */
  lemma PrologPageArrives(p: Page, once: bool)
    requires p.Success? ==> p.answers != []
    ensures AnswerFraming.Public(Delivery.PageLine(p), true, once) == Some(PrologPage(Public(once, p)))
  {
    hide AnswerFraming.Public, AnswerFraming.JoinWith, AnswerFraming.Seen, CText;
    Delivery.PageArrives(p, once);
  }
}
