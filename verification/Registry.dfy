/** The query registry and its memory policy, as functions on the slot table. Every function describes what one
    lock-held operation of the controller does to the table. */
module Registry {
  import opened Terms

  const UINT64_MAX: nat := 0xFFFF_FFFF_FFFF_FFFF
  const MONITOR_FAILED := "memory_monitor_failed"
  const TOTAL_EXCEEDED := "total_memory_limit_exceeded"

  /** What was asked for; a worker process is started for one job. */
  datatype Job = Job(goal: string, template: string, source: string, format: string, once: bool)

  /** One registry entry. A free entry has pid 0. `job` and `cursor` describe the worker process behind the entry:
      what it runs and how many answers it has been asked to produce. */
  datatype Slot = Slot(pid: nat, busy: bool, terminated: bool, offset: nat, expires: int, order: nat, memory: nat,
                       reason: Option<string>, key: string, job: Job, cursor: nat)

  const NO_JOB := Job("", "", "", "", false)
  const FREE := Slot(0, false, false, 0, 0, 0, 0, None, "", NO_JOB, 0)

  /** The table and the processes waited for so far, oldest first. */
  datatype Table = Table(slots: seq<Slot>, reaped: seq<nat>)

  datatype Config = Config(total: nat, reserve: nat)

  /** A memory sample may differ at every tick and may fail. Process 0 is the controller itself. */
  type Oracle = (nat, nat) -> Option<nat>

  predicate Idle(q: Slot) {
    q.pid != 0 && !q.busy
  }

  predicate Active(q: Slot) {
    q.pid != 0 && q.busy && !q.terminated
  }

  predicate Counted(q: Slot) {
    q.pid != 0 && !q.terminated
  }

  // ---------- the operations ----------

  function Release(tb: Table, i: nat): Table
    requires i < |tb.slots|
  {
    var q := tb.slots[i];
    if q.pid == 0 then tb
    else Table(tb.slots[i := FREE], if q.terminated then tb.reaped else tb.reaped + [q.pid])
  }

  function Abort(tb: Table, i: nat, why: string): Table
    requires i < |tb.slots|
  {
    var q := tb.slots[i];
    if q.terminated then tb
    else Table(tb.slots[i := q.(reason := Some(why), terminated := true, memory := 0)], tb.reaped + [q.pid])
  }

  /** The index of the idle query cached first among slots [0..n), not counting `kept`; -1 if there is none. */
  function Oldest(slots: seq<Slot>, n: nat, kept: int): (r: int)
    requires n <= |slots|
    ensures -1 <= r < n
  {
    if n == 0 then -1 else
    var b := Oldest(slots, n - 1, kept);
    var q := slots[n - 1];
    if Idle(q) && n - 1 != kept && (b == -1 || q.order < slots[b].order) then n - 1 else b
  }

  /** The index of the active query with the largest last sample; -1 if there is none. */
  function Largest(slots: seq<Slot>, n: nat): (r: int)
    requires n <= |slots|
    ensures -1 <= r < n
  {
    if n == 0 then -1 else
    var b := Largest(slots, n - 1);
    var q := slots[n - 1];
    if Active(q) && (b == -1 || q.memory > slots[b].memory) then n - 1 else b
  }

  datatype Sampled = Sampled(ok: bool, slots: seq<Slot>, actual: nat, charged: nat)

  function Charge(c: Config, memory: nat): nat {
    if memory > c.reserve then memory else c.reserve
  }

  /** Samples slots [i..) on top of the sums so far, with the overflow guards of the unsigned additions. */
  function SampleFrom(c: Config, slots: seq<Slot>, i: nat, actual: nat, charged: nat, o: Oracle, t: nat): (r: Sampled)
    requires i <= |slots|
    ensures |r.slots| == |slots|
    decreases |slots| - i
  {
    if i == |slots| then Sampled(true, slots, actual, charged) else
    var q := slots[i];
    if !Counted(q) then SampleFrom(c, slots, i + 1, actual, charged, o, t) else
    match o(t, q.pid)
    case None => Sampled(false, slots, actual, charged)
    case Some(m) =>
      var updated := slots[i := q.(memory := m)];
      if m > UINT64_MAX - actual || Charge(c, m) > UINT64_MAX - charged then Sampled(false, updated, actual, charged)
      else SampleFrom(c, updated, i + 1, actual + m, charged + Charge(c, m), o, t)
  }

  function Sample(c: Config, slots: seq<Slot>, o: Oracle, t: nat): (r: Sampled)
    ensures |r.slots| == |slots|
  {
    match o(t, 0)
    case None => Sampled(false, slots, 0, 0)
    case Some(m) => SampleFrom(c, slots, 0, m, m, o, t)
  }

  /** Two tables differ at most in remembered samples. */
  predicate SameButMemory(a: seq<Slot>, b: seq<Slot>) {
    |a| == |b| && forall i :: 0 <= i < |a| ==> a[i].(memory := 0) == b[i].(memory := 0)
  }

  lemma {:induction false} SampleFromShape(c: Config, slots: seq<Slot>, i: nat, actual: nat, charged: nat, o: Oracle, t: nat)
    requires i <= |slots|
    ensures SameButMemory(slots, SampleFrom(c, slots, i, actual, charged, o, t).slots)
    decreases |slots| - i
  {
    if i < |slots| {
      var q := slots[i];
      if !Counted(q) {
        SampleFromShape(c, slots, i + 1, actual, charged, o, t);
      } else if o(t, q.pid).Some? {
        var m := o(t, q.pid).value;
        var updated := slots[i := q.(memory := m)];
        assert SameButMemory(slots, updated);
        SampleFromShape(c, updated, i + 1, actual + m, charged + Charge(c, m), o, t);
      }
    }
  }

  lemma SampleShape(c: Config, slots: seq<Slot>, o: Oracle, t: nat)
    ensures SameButMemory(slots, Sample(c, slots, o, t).slots)
  {
    if o(t, 0).Some? {
      SampleFromShape(c, slots, 0, o(t, 0).value, o(t, 0).value, o, t);
    }
  }

  /** Queries that shedding can still remove: the termination measure of the shedding loops. */
  function Sheddable(slots: seq<Slot>): nat {
    if slots == [] then 0
    else (if Idle(slots[0]) || Active(slots[0]) then 1 else 0) + Sheddable(slots[1..])
  }

  lemma {:induction false} SheddableUpdate(slots: seq<Slot>, i: nat, q: Slot)
    requires i < |slots|
    ensures Sheddable(slots[i := q]) == Sheddable(slots) - (if Idle(slots[i]) || Active(slots[i]) then 1 else 0)
                                        + (if Idle(q) || Active(q) then 1 else 0)
  {
    if i == 0 {
      assert slots[0 := q][1..] == slots[1..];
    } else {
      assert slots[i := q][1..] == slots[1..][i - 1 := q];
      SheddableUpdate(slots[1..], i - 1, q);
    }
  }

  lemma {:induction false} SheddableSame(a: seq<Slot>, b: seq<Slot>)
    requires SameButMemory(a, b)
    ensures Sheddable(a) == Sheddable(b)
  {
    if a != [] {
      assert a[0].(memory := 0) == b[0].(memory := 0);
      assert forall i :: 0 <= i < |a[1..]| ==> a[1..][i] == a[i + 1] && b[1..][i] == b[i + 1];
      SheddableSame(a[1..], b[1..]);
    }
  }

  lemma {:induction false} OldestIs(slots: seq<Slot>, n: nat, kept: int)
    requires n <= |slots|
    ensures var r := Oldest(slots, n, kept);
            if r == -1 then forall i :: 0 <= i < n && i != kept ==> !Idle(slots[i])
            else Idle(slots[r]) && r != kept &&
                 forall i :: 0 <= i < n && i != kept && Idle(slots[i]) ==> slots[r].order <= slots[i].order
  {
    if n > 0 {
      OldestIs(slots, n - 1, kept);
    }
  }

  lemma {:induction false} LargestIs(slots: seq<Slot>, n: nat)
    requires n <= |slots|
    ensures var r := Largest(slots, n);
            if r == -1 then forall i :: 0 <= i < n ==> !Active(slots[i])
            else Active(slots[r]) && forall i :: 0 <= i < n && Active(slots[i]) ==> slots[i].memory <= slots[r].memory
  {
    if n > 0 {
      LargestIs(slots, n - 1);
    }
  }

  /** When accounting fails, everything is stopped: idle queries go, busy ones are left terminated for their owner. */
  function StopAll(tb: Table, i: nat): (r: Table)
    requires i <= |tb.slots|
    ensures |r.slots| == |tb.slots|
    decreases |tb.slots| - i
  {
    if i == |tb.slots| then tb
    else if tb.slots[i].pid == 0 then StopAll(tb, i + 1)
    else if tb.slots[i].busy then StopAll(Abort(tb, i, MONITOR_FAILED), i + 1)
    else StopAll(Release(tb, i), i + 1)
  }

  datatype Shed = Shed(table: Table, verdict: Option<string>, tick: nat)

  lemma ReleaseShrinks(tb: Table, slots: seq<Slot>, i: nat)
    requires SameButMemory(tb.slots, slots) && i < |slots| && Idle(slots[i])
    ensures Sheddable(Release(tb.(slots := slots), i).slots) < Sheddable(tb.slots)
  {
    SheddableSame(tb.slots, slots);
    SheddableUpdate(slots, i, FREE);
  }

  lemma AbortShrinks(tb: Table, slots: seq<Slot>, i: nat, why: string)
    requires SameButMemory(tb.slots, slots) && i < |slots| && Active(slots[i])
    ensures Sheddable(Abort(tb.(slots := slots), i, why).slots) < Sheddable(tb.slots)
  {
    SheddableSame(tb.slots, slots);
    SheddableUpdate(slots, i, slots[i].(reason := Some(why), terminated := true, memory := 0));
  }

  /** One round of a shedding loop: it returns, or it has stopped one more query and goes round again. */
  datatype Round = Stop(table: Table, verdict: Option<string>) | Again(table: Table)

  function EnforceRound(c: Config, tb: Table, o: Oracle, t: nat): (r: Round)
    ensures |r.table.slots| == |tb.slots|
  {
    var s := Sample(c, tb.slots, o, t);
    var now := tb.(slots := s.slots);
    if !s.ok then Stop(StopAll(now, 0), Some(MONITOR_FAILED))
    else if s.actual <= c.total then Stop(now, None)
    else
      var v := Oldest(s.slots, |s.slots|, -1);
      if v >= 0 then Again(Release(now, v))
      else
        var l := Largest(s.slots, |s.slots|);
        if l >= 0 then Again(Abort(now, l, TOTAL_EXCEEDED)) else Stop(now, Some(TOTAL_EXCEEDED))
  }

  function AdmitRound(c: Config, tb: Table, resume: int, o: Oracle, t: nat): (r: Round)
    ensures |r.table.slots| == |tb.slots|
  {
    var s := Sample(c, tb.slots, o, t);
    var now := tb.(slots := s.slots);
    var reserve := if resume >= 0 then 0 else c.reserve;
    if !s.ok then Stop(now, Some(MONITOR_FAILED))
    else if s.charged <= c.total && reserve <= c.total - s.charged then Stop(now, None)
    else
      var v := Oldest(s.slots, |s.slots|, resume);
      if v >= 0 then Again(Release(now, v)) else Stop(now, Some(TOTAL_EXCEEDED))
  }

  lemma EnforceRoundShrinks(c: Config, tb: Table, o: Oracle, t: nat)
    ensures EnforceRound(c, tb, o, t).Again? ==> Sheddable(EnforceRound(c, tb, o, t).table.slots) < Sheddable(tb.slots)
  {
    var s := Sample(c, tb.slots, o, t);
    SampleShape(c, tb.slots, o, t);
    var v, l := Oldest(s.slots, |s.slots|, -1), Largest(s.slots, |s.slots|);
    OldestIs(s.slots, |s.slots|, -1);
    LargestIs(s.slots, |s.slots|);
    if v >= 0 {
      ReleaseShrinks(tb, s.slots, v);
    } else if l >= 0 {
      AbortShrinks(tb, s.slots, l, TOTAL_EXCEEDED);
    }
  }

  lemma AdmitRoundShrinks(c: Config, tb: Table, resume: int, o: Oracle, t: nat)
    ensures AdmitRound(c, tb, resume, o, t).Again? ==> Sheddable(AdmitRound(c, tb, resume, o, t).table.slots) < Sheddable(tb.slots)
  {
    var s := Sample(c, tb.slots, o, t);
    SampleShape(c, tb.slots, o, t);
    var v := Oldest(s.slots, |s.slots|, resume);
    OldestIs(s.slots, |s.slots|, resume);
    if v >= 0 {
      ReleaseShrinks(tb, s.slots, v);
    }
  }

  /** `enforce_memory`. Terminates for every oracle: each round stops one more query. */
  function Enforce(c: Config, tb: Table, o: Oracle, t: nat): (r: Shed)
    ensures |r.table.slots| == |tb.slots|
    decreases Sheddable(tb.slots)
  {
    EnforceRoundShrinks(c, tb, o, t);
    match EnforceRound(c, tb, o, t)
    case Stop(now, verdict) => Shed(now, verdict, t + 1)
    case Again(now) => Enforce(c, now, o, t + 1)
  }

  /** `admit_memory`: make room for a new query, or for resuming the query in slot `resume` (-1 for a new one). */
  function Admit(c: Config, tb: Table, resume: int, o: Oracle, t: nat): (r: Shed)
    ensures |r.table.slots| == |tb.slots|
    decreases Sheddable(tb.slots)
  {
    AdmitRoundShrinks(c, tb, resume, o, t);
    match AdmitRound(c, tb, resume, o, t)
    case Stop(now, verdict) => Shed(now, verdict, t + 1)
    case Again(now) => Admit(c, now, resume, o, t + 1)
  }

  lemma EnforceUnfolds(c: Config, tb: Table, o: Oracle, t: nat)
    ensures var r := EnforceRound(c, tb, o, t);
            if r.Again? then Sheddable(r.table.slots) < Sheddable(tb.slots) && Enforce(c, tb, o, t) == Enforce(c, r.table, o, t + 1)
            else Enforce(c, tb, o, t) == Shed(r.table, r.verdict, t + 1)
  {
    EnforceRoundShrinks(c, tb, o, t);
  }

  lemma AdmitUnfolds(c: Config, tb: Table, resume: int, o: Oracle, t: nat)
    ensures var r := AdmitRound(c, tb, resume, o, t);
            if r.Again? then Sheddable(r.table.slots) < Sheddable(tb.slots) && Admit(c, tb, resume, o, t) == Admit(c, r.table, resume, o, t + 1)
            else Admit(c, tb, resume, o, t) == Shed(r.table, r.verdict, t + 1)
  {
    AdmitRoundShrinks(c, tb, resume, o, t);
  }
}
