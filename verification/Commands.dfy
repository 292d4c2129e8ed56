/** Page commands from the controller through the supervisor to the worker. */
module Commands {
  import opened Terms
  import opened Wire
  import opened Supervisor
  import opened SupervisedOutput
  import Decimal
  import Delivery
  import Protocol

  // ---------- what is accepted ----------

  /** The supervisor passes on exactly what the worker accepts. */
  lemma CommandsAgree(c: string)
    requires NUL !in c && '\n' !in c
    ensures PageCommand(c) <==> WorkerAccepts(c + "\n")
  {
    hide StrToL;
    if c == "next" || c + "\n" == "next\n" {
      SameLine(c, "next");
    } else if StartsWith(c, "next ") {
      SameFront(c);
      StrToLNewline(c[5..]);
      SameLine(StrToL(c[5..]).1, "");
    } else if StartsWith(c + "\n", "next ") {
      SameFront(c);
    }
  }

  lemma SameLine(a: string, b: string)
    ensures a == b <==> a + "\n" == b + "\n"
  {
    if a + "\n" == b + "\n" {
      assert a == (a + "\n")[..|a|] && b == (b + "\n")[..|b|];
    }
  }

  lemma SameFront(c: string)
    ensures StartsWith(c, "next ") <==> StartsWith(c + "\n", "next ")
    ensures StartsWith(c, "next ") ==> (c + "\n")[5..] == c[5..] + "\n"
  {
    var line := c + "\n";
    if |c| >= 5 {
      assert line[..5] == c[..5];
    } else if |c| == 4 {
      assert line[..5][4] == '\n' && "next "[4] == ' ';
    }
  }

  // ---------- what the controller writes ----------

  /** `snprintf(next, sizeof next, "next %ld\n", limit)`, without the newline. */
  function NextCommand(limit: nat): string {
    "next " + Decimal.Show(limit)
  }

  lemma {:induction false} DigitsSplit(s: string, d: char, n: nat)
    requires Decimal.IsDigit(d) && forall i :: 0 <= i < |s| ==> Decimal.IsDigit(s[i])
    ensures Digits(s + [d], n) == (Digits(s, n).0 * 10 + (d as int - '0' as int), "") && Digits(s, n).1 == ""
  {
    if s == "" {
      assert "" + [d] == [d] && [d][1..] == "";
      assert Digits("", n * 10 + (d as int - '0' as int)) == (n * 10 + (d as int - '0' as int), "");
    } else {
      assert (s + [d])[1..] == s[1..] + [d];
      DigitsSplit(s[1..], d, n * 10 + (s[0] as int - '0' as int));
    }
  }

  /** A numeral reads as its number. */
  lemma {:induction false} ShownReads(n: nat)
    ensures Digits(Decimal.Show(n), 0) == (n, "")
  {
    if n < 10 {
      DigitsSplit("", Decimal.Digit(n), 0);
      assert "" + [Decimal.Digit(n)] == [Decimal.Digit(n)];
    } else {
      ShownReads(n / 10);
      DigitsSplit(Decimal.Show(n / 10), Decimal.Digit(n % 10), 0);
    }
  }

  /** The command for a page is accepted exactly if the page is not larger than the largest one. */
  lemma NextIsAccepted(n: nat)
    ensures NUL !in NextCommand(n) && '\n' !in NextCommand(n)
    ensures PageCommand(NextCommand(n)) <==> n <= MAX_PAGE
    ensures WorkerAccepts(NextCommand(n) + "\n") <==> n <= MAX_PAGE
  {
    var c, digits := NextCommand(n), Decimal.Show(n);
    assert c[..5] == "next " && c[5..] == digits;
    assert Decimal.IsDigit(digits[0]);
    ShownReads(n);
    assert forall i :: 0 <= i < |c| ==> c[i] == (if i < 5 then "next "[i] else digits[i - 5]);
    assert StrToL(digits) == (n, "");
    assert c != "next";
    CommandsAgree(c);
  }

  lemma {:induction false} ShownSize(n: nat, k: nat, bound: nat)
    requires 1 <= k && n < bound && bound == Power(k)
    ensures |Decimal.Show(n)| <= k
  {
    if n >= 10 {
      ShownSize(n / 10, k - 1, bound / 10);
    }
  }

  function Power(k: nat): nat {
    if k == 0 then 1 else 10 * Power(k - 1)
  }

  /** It fits into the supervisor's command buffer. */
  lemma NextFits(n: nat)
    requires n <= MAX_PAGE
    ensures |NextCommand(n)| <= 16
  {
    assert Power(11) == 100_000_000_000;
    ShownSize(n, 11, Power(11));
  }

  /** The controller resumes with a command that is accepted, whatever page was asked for. */
  lemma ResumedCommandIsAccepted(nd: Protocol.Node, m: nat, client: nat, req: Protocol.Request, wrote: bool)
    requires m < |nd.table.slots| && req.limit <= MAX_PAGE
    ensures var (next, reply) := Protocol.Resume(nd, m, client, req, wrote);
            reply.None? ==> m in next.calls && next.calls[m].req.limit == (if req.limit == 0 then MAX_PAGE else req.limit) &&
                            WorkerAccepts(NextCommand(next.calls[m].req.limit) + "\n")
  {
    NextIsAccepted(if req.limit == 0 then MAX_PAGE else req.limit);
  }

  // ---------- how it gets there ----------

  /** The bytes of a line arrive one by one, byte i at time at(i); before each the event loop makes its checks. */
  function Arriving(line: string, at: nat -> int, i: nat): seq<Input>
    requires i <= |line|
    decreases |line| - i
  {
    if i == |line| then [] else [Tick(at(i), None), Command(line[i], at(i), true)] + Arriving(line, at, i + 1)
  }

  /** Between two activations, with this much of a command collected. */
  predicate Waiting(s: State, collected: string) {
    !s.active && !s.done && s.command == collected
  }

  lemma {:induction false} Collected(k: Config, s: State, line: string, at: nat -> int, i: nat)
    requires i < |line| <= COMMAND_SIZE && Waiting(s, line[..i])
    requires forall j :: i <= j < |line| ==> k.idleLimit - (at(j) - s.idleStarted) > 0
    requires forall j :: 0 <= j < |line| - 1 ==> line[j] != '\n'
    ensures Run(k, s, Arriving(line, at, i)) ==
            TakeCommandByte(s.(command := line[..|line| - 1]), line[|line| - 1], at(|line| - 1), true)
    decreases |line| - i
  {
    hide CText, PageCommand;
    var rest := Arriving(line, at, i + 1);
    var tick, byte := Tick(at(i), None), Command(line[i], at(i), true);
    assert [tick, byte] + rest == [tick] + ([byte] + rest);
    assert ([tick] + ([byte] + rest))[1..] == [byte] + rest && ([byte] + rest)[1..] == rest;
    assert Step(k, s, tick) == s;
    if i < |line| - 1 {
      assert line[..i] + [line[i]] == line[..i + 1];
      var next := s.(command := line[..i + 1]);
      assert Step(k, s, byte) == next;
      Collected(k, next, line, at, i + 1);
      assert next.(command := line[..|line| - 1]) == s.(command := line[..|line| - 1]);
    } else {
      assert rest == [] && ([byte] + rest)[0] == byte;
      assert Run(k, s, [byte] + rest) == Run(k, Step(k, s, byte), rest) == Step(k, s, byte);
      assert s.(command := line[..|line| - 1]) == s;
    }
  }

  /** An idle supervisor that gets the command for a page, byte by byte and before its idle limit, starts an activation and has
      passed on exactly this line, if the worker takes it. */
  lemma NextIsSent(k: Config, s: State, n: nat, at: nat -> int)
    requires n <= MAX_PAGE && Waiting(s, "")
    requires forall j :: 0 <= j <= |NextCommand(n)| ==> k.idleLimit - (at(j) - s.idleStarted) > 0
    ensures var line := NextCommand(n) + "\n";
            var t := Run(k, s, Arriving(line, at, 0));
            && t.active && !t.done && t.command == "" && t.started == at(|line| - 1)
            && t.sent == s.sent + [Sent(line, at(|line| - 1))]
            && t.out == s.out && t.frame == s.frame && t.remaining == s.remaining
  {
    hide PageCommand, WorkerAccepts, CText, NextCommand;
    var c := NextCommand(n);
    var line := c + "\n";
    NextIsAccepted(n);
    NextFits(n);
    assert line[..|line| - 1] == c && line[|line| - 1] == '\n' && line[..0] == "";
    Collected(k, s, line, at, 0);
    CTextWhole(c);
    StopIsNoPage(c);
  }

  lemma StopIsNoPage(c: string)
    requires PageCommand(c)
    ensures c != "stop"
  {
    assert "stop"[0] != "next"[0];
    assert StartsWith(c, "next ") ==> c[..5][0] == 'n';
  }

  /** What an idle supervisor makes of any line that fits into its buffer, if the worker takes what it is given: it passes the line
      on exactly if the worker accepts it; `stop` ends the query, and everything else is a protocol error. */
  lemma CommandIsJudged(k: Config, s: State, c: string, at: nat -> int)
    requires NUL !in c && '\n' !in c && |c| < COMMAND_SIZE && Waiting(s, "")
    requires forall j :: 0 <= j <= |c| ==> k.idleLimit - (at(j) - s.idleStarted) > 0
    ensures var t := Run(k, s, Arriving(c + "\n", at, 0));
            if |c| == COMMAND_SIZE - 1 then t.done && t.out == s.out + [Event("protocol_error")] && t.sent == s.sent
            else if c == "stop" then t.done && t.out == s.out + [Event("cancelled")] && t.sent == s.sent
            else if WorkerAccepts(c + "\n") then t.active && !t.done && t.out == s.out && t.sent == s.sent + [Sent(c + "\n", at(|c|))]
            else t.done && t.out == s.out + [Event("protocol_error")] && t.sent == s.sent
  {
    hide PageCommand, WorkerAccepts, CText;
    var line := c + "\n";
    assert line[..|line| - 1] == c && line[|line| - 1] == '\n' && line[..0] == "";
    Collected(k, s, line, at, 0);
    CTextWhole(c);
    CommandsAgree(c);
  }

  // ---------- what ends a query ----------

  /** Without a fault the checks end a query exactly when its time is up, and say which time: that for computing or that for
      waiting. */
  lemma ChecksEndInTime(k: Config, s: State, now: int)
    requires !s.done
    ensures var t := Check(k, s, now, None);
            && (t.done <==> now >= if s.active then s.started + s.remaining else s.idleStarted + k.idleLimit)
            && (t.done ==> t.out == s.out + [Event(if s.active then "time_limit_exceeded" else "continuation_expired")])
            && (!t.done ==> t == s)
  {
  }

  lemma {:induction false} StampJoins(a: string, b: string, now: int)
    ensures Stamp(a + b, now) == Stamp(a, now) + Stamp(b, now)
  {
    if a == "" {
      assert a + b == b;
    } else {
      assert (a + b)[1..] == a[1..] + b;
      StampJoins(a[1..], b, now);
    }
  }

  lemma TooLong(k: Config, s: State, line: string, now: int)
    requires !s.done && s.frame == "" && '\n' !in line && |line| >= k.maxOutput
    ensures var t := Feed(k, s, Stamp(line + "\n", now)); t.done && t.out == s.out + [Event("output_limit_exceeded")]
  {
    var text := line + "\n";
    var front, rest := text[..k.maxOutput], text[k.maxOutput..];
    assert front == line[..k.maxOutput] && text == front + rest && "" + front == front;
    StampJoins(front, rest, now);
    CollectPlain(k, s, front, now);
    FeedSplits(k, s, Stamp(front, now), Stamp(rest, now));
    DoneStays(k, Fail(s.(frame := front), "output_limit_exceeded"), Stamp(rest, now)[1..]);
  }

  lemma Ends(k: Config, s: State, line: string, now: int)
    requires !s.done && s.frame == "" && '\n' !in line && |line| < k.maxOutput
    ensures Feed(k, s, Stamp(line + "\n", now)) == TakeByte(k, s.(frame := line), Stamped('\n', now, None, Entire(now)))
  {
    hide TakeByte, Feed, Stamp;
    var end := Stamped('\n', now, None, Entire(now));
    assert "" + line == line;
    Delivery.StampSplits(line, now);
    CollectPlain(k, s, line, now);
    FeedSplits(k, s, Stamp(line, now), [end]);
    Delivery.FeedOne(k, s.(frame := line), end);
  }

  /** What the supervisor makes of any line of worker output, if nothing fails: too long, out of turn or no event, too late, or
      forwarded as it is; then the query goes on exactly if the line promises more. */
  lemma LineIsJudged(k: Config, s: State, line: string, now: int)
    requires !s.done && s.frame == "" && '\n' !in line
    ensures var t := Feed(k, s, Stamp(line + "\n", now));
            if |line| >= k.maxOutput then t.done && t.out == s.out + [Event("output_limit_exceeded")]
            else if !s.active || !ValidEvent(line) then t.done && t.out == s.out + [Event("worker_protocol_error")]
            else if now >= s.started + s.remaining then t.done && t.out == s.out + [Event("time_limit_exceeded")]
            else
              && t.out == s.out + [Frame(line, now)] && (t.done <==> !EndsWith(line, MORE))
              && !t.active && t.frame == "" && t.command == s.command && t.sent == s.sent
              && t.idleStarted == now && t.remaining == s.remaining - (now - s.started)
  {
    if |line| >= k.maxOutput {
      TooLong(k, s, line, now);
    } else {
      Ends(k, s, line, now);
    }
  }
}
