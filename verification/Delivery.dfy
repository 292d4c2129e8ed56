/** The way of a page from the worker through the supervisor to the body of the reply. */
module Delivery {
  import opened Terms
  import opened Wire
  import opened Paging
  import opened AnswerFraming
  import opened Supervisor
  import opened SupervisedOutput
  import opened Registry
  import Protocol

  /** The line that the worker writes for a page. */
  function PageLine(p: Page): string {
    match p
    case Success(answers, more) => Line(answers, more)
    case Failure => FAILURE
    case Error(term) => ErrorLine(term)
  }

  /** The public Prolog text of a page. */
  function PageBody(p: Page): string {
    match p
    case Success(answers, more) => "success([" + JoinWith(Seen(answers), ",") + Closing(more)
    case Failure => "failure.\n"
    case Error(term) => "error(" + CText(term) + ").\n"
  }

  predicate Continues(p: Page) {
    p.Success? && p.more
  }

  // ---------- the line ----------

  lemma SameEnd(s: string, end: string)
    requires EndsWith(s, end) && |end| >= 2
    ensures s[|s| - 2] == end[|end| - 2]
  {
    assert s[|s| - |end|..][|end| - 2] == s[|s| - 2];
  }

  lemma OtherEnd(s: string, end: string)
    requires |s| >= 2 && |end| >= 2 && s[|s| - 2] != end[|end| - 2]
    ensures !EndsWith(s, end)
  {
    if EndsWith(s, end) {
      SameEnd(s, end);
    }
  }

  lemma SameStart(s: string, prefix: string)
    requires StartsWith(s, prefix) && |prefix| > 9
    ensures s[9] == prefix[9]
  {
    assert s[..|prefix|][9] == s[9];
  }

  lemma OtherStart(s: string, prefix: string, other: string)
    requires StartsWith(s, prefix) && |prefix| > 9 && |other| > 9 && prefix[9] != other[9]
    ensures !StartsWith(s, other) && s != other
  {
    SameStart(s, prefix);
    if StartsWith(s, other) {
      SameStart(s, other);
    }
  }

  lemma Marks()
    ensures |SUCCESS| > 9 && |ERROR| > 9 && |FAILURE| > 9 && SUCCESS[9] == 's' && ERROR[9] == 'e' && FAILURE[9] == 'f'
    ensures |MORE| >= 2 && MORE[|MORE| - 2] == 'e' && MORE[|MORE| - 1] == '}' && FAILURE[|FAILURE| - 2] == '\"'
  {
  }

  lemma LineEnds(answers: seq<string>, more: bool)
    ensures Line(answers, more) != "" && Line(answers, more)[|Line(answers, more)| - 1] == '}'
  {
    var end := if more then MORE else NO_MORE;
    assert end[|end| - 1] == '}';
  }

  lemma SuccessLine(answers: seq<string>, more: bool)
    ensures ValidEvent(Line(answers, more)) && (EndsWith(Line(answers, more), MORE) <==> more)
    ensures NoControls(Line(answers, more)) && Line(answers, more) != FAILURE && !StartsWith(Line(answers, more), ERROR)
  {
    hide Line, EndsWith, NoControls, StartsWith, CText;
    var line := Line(answers, more);
    LineSuffix(answers, more);
    LineHasNoControls(answers, more);
    LineEnds(answers, more);
    Marks();
    OtherStart(line, SUCCESS, FAILURE);
    OtherStart(line, SUCCESS, ERROR);
  }

  lemma FailureHasNoControls()
    ensures NoControls(FAILURE)
  {
  }

  lemma FailureLine()
    ensures ValidEvent(FAILURE) && !EndsWith(FAILURE, MORE) && NoControls(FAILURE)
  {
    hide NoControls, EndsWith, ValidEvent;
    FailureIsValid();
    FailureHasNoControls();
    Marks();
    OtherEnd(FAILURE, MORE);
  }

  lemma ErrorEnds(term: string)
    ensures var line := ErrorLine(term); |line| >= 2 && line[|line| - 2] == '\"' && line[|line| - 1] == '}'
  {
    hide EscapeAll, CText;
    assert JsonString(term)[|JsonString(term)| - 1] == '\"';
  }

  lemma ErrorEvent(term: string)
    ensures ValidEvent(ErrorLine(term)) && !EndsWith(ErrorLine(term), MORE) && NoControls(ErrorLine(term))
    ensures ErrorLine(term) != FAILURE
  {
    hide ErrorLine, EndsWith, NoControls, StartsWith, CText;
    var line := ErrorLine(term);
    ErrorLineSplits(term);
    ErrorHasNoControls(term);
    ErrorEnds(term);
    Marks();
    OtherEnd(line, MORE);
    OtherStart(line, ERROR, FAILURE);
  }

  lemma ErrorHasNoControls(term: string)
    ensures NoControls(ErrorLine(term))
  {
    hide NoControls, EscapeAll, CText;
    EscapedHasNoControls(CText(term));
    PlainPrefix();
    FourHaveNoControls(ERROR + ['\"'], EscapeAll(CText(term)), ['\"'], "}");
    Associate(ERROR, ['\"'], EscapeAll(CText(term)));
    Associate(ERROR, ['\"'] + EscapeAll(CText(term)), ['\"']);
  }

  lemma PlainPrefix()
    ensures NoControls(ERROR + ['\"']) && NoControls(['\"']) && NoControls("}")
  {
  }

  /** Every page is one line that the supervisor takes for an event; it asks for a continuation exactly if the page
      promises more. */
  lemma PageIsOneEvent(p: Page)
    ensures ValidEvent(PageLine(p)) && NoControls(PageLine(p))
    ensures EndsWith(PageLine(p), MORE) <==> Continues(p)
  {
    match p
    case Success(answers, more) => SuccessLine(answers, more);
    case Failure => FailureLine();
    case Error(term) => ErrorEvent(term);
  }

  // ---------- the supervisor ----------

  /** A page that is written in time and fits is forwarded as one frame, and the query goes on exactly if the page promises
      more. */
  lemma PageIsForwarded(k: Supervisor.Config, s: State, p: Page, now: int)
    requires s.active && !s.done && s.frame == "" && |PageLine(p)| < k.maxOutput && s.remaining - (now - s.started) > 0
    ensures var after := Feed(k, s, Stamp(PageLine(p) + "\n", now));
            && after.out == s.out + [Frame(PageLine(p), now)] && after.frame == ""
            && (after.done <==> !Continues(p))
  {
    hide PageLine, Feed, TakeByte, EndsWith, ValidEvent;
    var line := PageLine(p);
    var end := [Stamped('\n', now, None, Entire(now))];
    PageIsOneEvent(p);
    NoNewline(line);
    CollectPlain(k, s, line, now);
    StampSplits(line, now);
    FeedSplits(k, s, Stamp(line, now), end);
    assert s.frame + line == line;
    FeedOne(k, s.(frame := line), end[0]);
    FrameEnds(k, s.(frame := line), now);
  }

  lemma NoNewline(line: string)
    requires NoControls(line)
    ensures forall i :: 0 <= i < |line| ==> line[i] != '\n'
  {
  }

  lemma FeedOne(k: Supervisor.Config, s: State, b: Stamped)
    ensures Feed(k, s, [b]) == TakeByte(k, s, b)
  {
    assert [b][1..] == [];
  }

  lemma FrameEnds(k: Supervisor.Config, s: State, now: int)
    requires s.active && !s.done && |s.frame| < k.maxOutput && ValidEvent(s.frame) && s.remaining - (now - s.started) > 0
    ensures var after := TakeByte(k, s, Stamped('\n', now, None, Entire(now)));
            && after.out == s.out + [Frame(s.frame, now)] && after.frame == ""
            && (after.done <==> !EndsWith(s.frame, MORE))
  {
  }

  lemma {:induction false} StampSplits(line: string, now: int)
    ensures Stamp(line + "\n", now) == Stamp(line, now) + [Stamped('\n', now, None, Entire(now))]
  {
    if line == "" {
      assert "" + "\n" == "\n" && "\n"[1..] == "";
      assert Stamp("\n", now) == [Stamped('\n', now, None, Entire(now))] + Stamp("", now);
    } else {
      StampSplits(line[1..], now);
      assert (line + "\n")[1..] == line[1..] + "\n";
    }
  }

  // ---------- the reply ----------

  /** What the controller makes of the forwarded line is the text of the page that it replies. */
  lemma PageArrives(p: Page, once: bool)
    requires p.Success? ==> p.answers != []
    ensures AnswerFraming.Public(PageLine(p), true, once) == Some(PageBody(Protocol.Public(once, p)))
  {
    PageIsOneEvent(p);
    match p
    case Success(answers, more) => SuccessArrives(answers, more, once);
    case Failure =>
    case Error(term) =>
      ErrorEvent(term);
      ErrorLineSplits(term);
      ErrorRoundTrip(term);
  }

  lemma SuccessArrives(answers: seq<string>, more: bool, once: bool)
    requires answers != []
    ensures AnswerFraming.Public(Line(answers, more), true, once) ==
            Some("success([" + JoinWith(Seen(answers), ",") + Closing(more && !once))
  {
    SuccessLine(answers, more);
    SuccessLine(answers, more && !once);
    PageRoundTrip(answers, more, once);
    if once && more {
      OnceLine(answers);
    }
  }

  lemma PagesHaveAnswers(w: Protocol.Queries, q: Slot, c: Protocol.Call)
    ensures var p := Protocol.WorkerPage(w, q, c); p.Success? ==> p.answers != []
  {
  }

  /** The end of a call, whatever the other threads do: when the reply is a page, its body is what the controller makes of
      the line that the worker wrote for this call. */
  lemma ReplyIsWhatTheWorkerWrote(k: Registry.Config, w: Protocol.Queries, nd: Protocol.Node, i: nat, abandoned: bool,
                                  stopping: bool, expires: int, o: Oracle)
    requires i in nd.calls && i < |nd.table.slots|
    ensures var q, c := Enforce(k, nd.table, o, nd.tick).table.slots[i], nd.calls[i];
            var reply := Protocol.Finish(k, w, nd, i, Protocol.FromWorker, abandoned, stopping, expires, o).1;
            reply.Some? && reply.value.Paged? ==>
              AnswerFraming.Public(PageLine(Protocol.WorkerPage(w, q, c)), true, c.req.job.once) == Some(PageBody(reply.value.page))
  {
    var q, c := Enforce(k, nd.table, o, nd.tick).table.slots[i], nd.calls[i];
    PagesHaveAnswers(w, q, c);
    PageArrives(Protocol.WorkerPage(w, q, c), c.req.job.once);
  }
}
