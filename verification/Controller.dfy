/** The HTTP controller's registry as it is kept in memory: an array of slots updated in place. Each method is one
    lock-held operation and is proved against the corresponding function on slot tables. */
module Controller {
  import opened Terms
  import opened Wire
  import opened Paging
  import opened Registry
  import opened Protocol
  import CacheKey

  class Controller {
    const queries: array<Slot>
    const config: Config
    var reaped: seq<nat>         // processes waited for, oldest first
    var cacheOrder: nat
    var spawned: nat
    var tick: nat                // memory samples taken so far
    var calls: map<nat, Call>    // the client threads between their two lock regions

    function Tab(): Table
      reads this, queries
    {
      Table(queries[..], reaped)
    }

    function State(): Node
      reads this, queries
    {
      Node(Tab(), cacheOrder, spawned, tick, calls)
    }

    constructor (n: nat, config: Config)
      ensures State() == Initial(n) && fresh(queries) && this.config == config
    {
      queries := new Slot[n](_ => FREE);
      this.config := config;
      reaped, cacheOrder, spawned, tick, calls := [], 0, 0, 0, map[];
    }

    method ReleaseSlot(i: nat)
      requires i < queries.Length
      modifies queries, `reaped
      ensures Tab() == Release(old(Tab()), i)
    {
      var q := queries[i];
      if q.pid == 0 {
        return;
      }
      if !q.terminated {
        reaped := reaped + [q.pid];
      }
      queries[i] := FREE;
      assert queries[..] == old(queries[..])[i := FREE];
    }

    method AbortQuery(i: nat, why: string)
      requires i < queries.Length
      modifies queries, `reaped
      ensures Tab() == Abort(old(Tab()), i, why)
    {
      var q := queries[i];
      if q.terminated {
        return;
      }
      reaped := reaped + [q.pid];
      queries[i] := q.(reason := Some(why), terminated := true, memory := 0);
      assert queries[..] == old(queries[..])[i := q.(reason := Some(why), terminated := true, memory := 0)];
    }

    method OldestIdle(kept: int) returns (oldest: int)
      ensures oldest == Oldest(queries[..], queries.Length, kept)
    {
      oldest := -1;
      for i := 0 to queries.Length
        invariant oldest == Oldest(queries[..], i, kept)
      {
        var q := queries[i];
        if q.pid != 0 && !q.busy && i != kept && (oldest == -1 || q.order < queries[oldest].order) {
          oldest := i;
        }
      }
    }

    method LargestActive() returns (largest: int)
      ensures largest == Largest(queries[..], queries.Length)
    {
      largest := -1;
      for i := 0 to queries.Length
        invariant largest == Largest(queries[..], i)
      {
        var q := queries[i];
        if q.pid != 0 && q.busy && !q.terminated && (largest == -1 || q.memory > queries[largest].memory) {
          largest := i;
        }
      }
    }

    method SampleMemory(o: Oracle) returns (ok: bool, actual: nat, charged: nat)
      modifies queries, `tick
      ensures tick == old(tick) + 1
      ensures var s := Sample(config, old(queries[..]), o, old(tick));
              ok == s.ok && queries[..] == s.slots && (ok ==> actual == s.actual && charged == s.charged)
    {
      ghost var t := tick;
      var own := o(tick, 0);
      tick := tick + 1;
      if own.None? {
        return false, 0, 0;
      }
      actual, charged := own.value, own.value;
      ghost var result := SampleFrom(config, queries[..], 0, actual, charged, o, t);
      var i := 0;
      while i < queries.Length
        modifies queries
        invariant i <= queries.Length && tick == t + 1
        invariant SampleFrom(config, queries[..], i, actual, charged, o, t) == result
      {
        var q := queries[i];
        if q.pid != 0 && !q.terminated {
          var m := o(tick - 1, q.pid);
          if m.None? {
            return false, actual, charged;
          }
          ghost var before := queries[..];
          queries[i] := q.(memory := m.value);
          assert queries[..] == before[i := q.(memory := m.value)];
          var charge := if m.value > config.reserve then m.value else config.reserve;
          if m.value > UINT64_MAX - actual || charge > UINT64_MAX - charged {
            return false, actual, charged;
          }
          actual, charged := actual + m.value, charged + charge;
        }
        i := i + 1;
      }
      ok := true;
    }

    method StopEverything()
      modifies queries, `reaped
      ensures Tab() == StopAll(old(Tab()), 0)
    {
      hide Release, Abort;
      var i := 0;
      while i < queries.Length
        modifies queries, `reaped
        invariant i <= queries.Length
        invariant StopAll(Tab(), i) == StopAll(old(Tab()), 0)
      {
        if queries[i].pid != 0 {
          if queries[i].busy {
            AbortQuery(i, MONITOR_FAILED);
          } else {
            ReleaseSlot(i);
          }
        }
        i := i + 1;
      }
    }

    method EnforceMemory(o: Oracle) returns (verdict: Option<string>)
      modifies queries, `reaped, `tick
      ensures Shed(Tab(), verdict, tick) == Enforce(config, old(Tab()), o, old(tick))
    {
      hide Enforce, EnforceRound, Sheddable;
      var again := true;
      verdict := None;
      while again
        modifies queries, `reaped, `tick
        invariant again ==> Enforce(config, Tab(), o, tick) == Enforce(config, old(Tab()), o, old(tick))
        invariant !again ==> Shed(Tab(), verdict, tick) == Enforce(config, old(Tab()), o, old(tick))
        decreases again, Sheddable(queries[..])
      {
        EnforceUnfolds(config, Tab(), o, tick);
        again, verdict := EnforceOnce(o);
      }
    }

    /** The body of the loop of `enforce_memory`. */
    method EnforceOnce(o: Oracle) returns (again: bool, verdict: Option<string>)
      modifies queries, `reaped, `tick
      ensures tick == old(tick) + 1
      ensures (if again then Again(Tab()) else Stop(Tab(), verdict)) == EnforceRound(config, old(Tab()), o, old(tick))
    {
      var ok, actual, _ := SampleMemory(o);
      if !ok {
        StopEverything();
        return false, Some(MONITOR_FAILED);
      }
      if actual <= config.total {
        return false, None;
      }
      var victim := OldestIdle(-1);
      if victim >= 0 {
        ReleaseSlot(victim);
        return true, None;
      }
      victim := LargestActive();
      if victim < 0 {
        return false, Some(TOTAL_EXCEEDED);
      }
      AbortQuery(victim, TOTAL_EXCEEDED);
      again, verdict := true, None;
    }

    method AdmitMemory(resume: int, o: Oracle) returns (verdict: Option<string>)
      modifies queries, `reaped, `tick
      ensures Shed(Tab(), verdict, tick) == Admit(config, old(Tab()), resume, o, old(tick))
    {
      hide Admit, AdmitRound, Sheddable;
      var again := true;
      verdict := None;
      while again
        modifies queries, `reaped, `tick
        invariant again ==> Admit(config, Tab(), resume, o, tick) == Admit(config, old(Tab()), resume, o, old(tick))
        invariant !again ==> Shed(Tab(), verdict, tick) == Admit(config, old(Tab()), resume, o, old(tick))
        decreases again, Sheddable(queries[..])
      {
        AdmitUnfolds(config, Tab(), resume, o, tick);
        again, verdict := AdmitOnce(resume, o);
      }
    }

    /** The body of the loop of `admit_memory`. */
    method AdmitOnce(resume: int, o: Oracle) returns (again: bool, verdict: Option<string>)
      modifies queries, `reaped, `tick
      ensures tick == old(tick) + 1
      ensures (if again then Again(Tab()) else Stop(Tab(), verdict)) == AdmitRound(config, old(Tab()), resume, o, old(tick))
    {
      var ok, _, charged := SampleMemory(o);
      if !ok {
        return false, Some(MONITOR_FAILED);
      }
      var reserve := if resume >= 0 then 0 else config.reserve;
      if charged <= config.total && reserve <= config.total - charged {
        return false, None;
      }
      var victim := OldestIdle(resume);
      if victim < 0 {
        return false, Some(TOTAL_EXCEEDED);
      }
      ReleaseSlot(victim);
      again, verdict := true, None;
    }

    method ExpireIdle(clock: nat -> int)
      modifies queries, `reaped
      ensures Tab() == Expire(old(Tab()), clock, 0)
    {
      var i := 0;
      while i < queries.Length
        modifies queries, `reaped
        invariant i <= queries.Length
        invariant Expire(Tab(), clock, i) == Expire(old(Tab()), clock, 0)
      {
        if queries[i].pid != 0 && !queries[i].busy && queries[i].expires <= clock(i) {
          ReleaseSlot(i);
        }
        i := i + 1;
      }
    }

    method FindContinuation(offset: nat, key: string) returns (found: int)
      ensures found == FindMatch(queries[..], offset, key, 0)
    {
      var i := 0;
      while i < queries.Length
        invariant i <= queries.Length
        invariant FindMatch(queries[..], offset, key, i) == FindMatch(queries[..], offset, key, 0)
      {
        var q := queries[i];
        if q.pid != 0 && !q.busy && q.offset == offset && q.key == key {
          return i;
        }
        i := i + 1;
      }
      found := -1;
    }

    method FindFree() returns (found: int)
      ensures found == FirstFree(queries[..], 0)
    {
      var i := 0;
      while i < queries.Length
        invariant i <= queries.Length
        invariant FirstFree(queries[..], i) == FirstFree(queries[..], 0)
      {
        if queries[i].pid == 0 {
          return i;
        }
        i := i + 1;
      }
      found := -1;
    }

    /** The main loop's turn. */
    method Turn(clock: nat -> int, o: Oracle)
      modifies this, queries
      ensures State() == Sweep(config, old(State()), clock, o)
    {
      ExpireIdle(clock);
      var _ := EnforceMemory(o);
    }

    method ResumeQuery(m: nat, client: nat, req: Request, wrote: bool) returns (reply: Option<Reply>)
      requires m < queries.Length
      modifies this, queries
      ensures (State(), reply) == Resume(old(State()), m, client, req, wrote)
    {
      var limit := req.limit;
      if limit == 0 {
        limit := MAX_PAGE;
      }
      queries[m] := queries[m].(busy := true);
      assert queries[..] == old(queries[..])[m := old(queries[m]).(busy := true)];
      if wrote {
        calls := calls[m := Call(client, req.(limit := limit), req.limit, true)];
        reply := None;
      } else {
        ReleaseSlot(m);
        reply := Some(Refused("worker_start_failed"));
      }
    }

    method StartQuery(client: nat, req: Request, started: bool) returns (reply: Option<Reply>)
      modifies this, queries
      ensures (State(), reply) == Start(old(State()), client, req, started)
    {
      var i := FindFree();
      if i < 0 {
        i := OldestIdle(-1);
        if i < 0 {
          return Some(Refused("query_limit_exceeded"));
        }
        ReleaseSlot(i);
      }
      if !started {
        return Some(Refused("worker_start_failed"));
      }
      ghost var before := State();
      queries[i] := FREE.(pid := spawned + 1, busy := true, key := CacheKey.KeyFor(req.job), job := req.job, cursor := req.offset);
      assert queries[..] == before.table.slots[i := Spawned(before, req)];
      spawned := spawned + 1;
      calls := calls[i := Call(client, req, req.limit, false)];
      reply := None;
    }

    /** First lock region of a call. */
    method BeginCall(client: nat, req: Request, clock: nat -> int, o: Oracle, wrote: bool, started: bool)
      returns (reply: Option<Reply>)
      modifies this, queries
      ensures (State(), reply) == Begin(config, old(State()), client, req, clock, o, wrote, started)
    {
      ExpireIdle(clock);
      var why := EnforceMemory(o);
      if why.Some? {
        return Some(Refused(why.value));
      }
      var m := FindContinuation(req.offset, CacheKey.KeyFor(req.job));
      why := AdmitMemory(m, o);
      if why.Some? {
        return Some(Refused(why.value));
      }
      if m >= 0 {
        reply := ResumeQuery(m, client, req, wrote);
      } else {
        reply := StartQuery(client, req, started);
      }
    }

    /** Second lock region of a call. */
    method FinishCall(w: Queries, i: nat, out: Outcome, abandoned: bool, stopping: bool, expires: int, o: Oracle)
      returns (reply: Option<Reply>)
      requires i in calls && i < queries.Length
      modifies this, queries
      ensures (State(), reply) == Finish(config, w, old(State()), i, out, abandoned, stopping, expires, o)
    {
      hide Enforce, Release, PageOf;
      var c := calls[i];
      var _ := EnforceMemory(o);
      var q := queries[i];
      var page := PageOf(w, q, c, out);
      calls := calls - {i};
      ghost var before := queries[..];
      if q.reason.None? && page.Some? && page.value.Success? && page.value.more && !abandoned && !stopping {
        cacheOrder := cacheOrder + 1;
        queries[i] := q.(busy := false, offset := c.req.offset + c.req.limit, expires := expires, order := cacheOrder,
                         cursor := q.cursor + |page.value.answers|);
        assert queries[..] == before[i := queries[i]];
      } else {
        ReleaseSlot(i);
      }
      if abandoned {
        reply := None;
      } else if q.reason.Some? {
        reply := Some(Interrupted(q.reason.value));
      } else if page.Some? {
        reply := Some(Paged(page.value));
      } else {
        reply := Some(Interrupted("timeout_or_worker_failure"));
      }
    }

    /** The end of the main program, once every client thread is done. */
    method Shutdown()
      modifies queries, `reaped
      ensures Tab() == ReleaseAll(old(Tab()), 0)
    {
      var i := 0;
      while i < queries.Length
        modifies queries, `reaped
        invariant i <= queries.Length
        invariant ReleaseAll(Tab(), i) == ReleaseAll(old(Tab()), 0)
      {
        ReleaseSlot(i);
        i := i + 1;
      }
    }
  }
}
