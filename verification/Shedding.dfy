/** What the memory policy guarantees, whatever the memory samples are. */
module Shedding {
  import opened Terms
  import opened Registry

  // ---------- what shedding may touch ----------

  /** Slot a may have become b: free entries stay free, an idle query may go, an active one may be marked terminated,
      and a busy entry keeps its process, its pipes' owner and its key. */
  predicate MayBecome(a: Slot, b: Slot) {
    if a.pid == 0 || (a.busy && a.terminated) then b.(memory := 0) == a.(memory := 0)
    else if !a.busy then b.(memory := 0) == FREE || b.(memory := 0) == a.(memory := 0)
    else b.(memory := 0) == a.(memory := 0) ||
         (b.terminated && b.reason.Some? && b.(memory := 0, reason := a.reason, terminated := false) == a.(memory := 0))
  }

  predicate OnlyShed(a: seq<Slot>, b: seq<Slot>) {
    |a| == |b| && forall i :: 0 <= i < |a| ==> MayBecome(a[i], b[i])
  }

  lemma OnlyShedTransitive(a: seq<Slot>, b: seq<Slot>, c: seq<Slot>)
    requires OnlyShed(a, b) && OnlyShed(b, c)
    ensures OnlyShed(a, c)
  {
    forall i | 0 <= i < |a| ensures MayBecome(a[i], c[i]) {
      assert MayBecome(a[i], b[i]) && MayBecome(b[i], c[i]);
    }
  }

  lemma {:induction false} StopAllSheds(tb: Table, i: nat)
    requires i <= |tb.slots|
    ensures var r := StopAll(tb, i);
            && OnlyShed(tb.slots, r.slots)
            && forall j :: i <= j < |r.slots| ==> !Idle(r.slots[j]) && !Active(r.slots[j])
    decreases |tb.slots| - i
  {
    if i < |tb.slots| {
      var next := if tb.slots[i].pid == 0 then tb
                  else if tb.slots[i].busy then Abort(tb, i, MONITOR_FAILED) else Release(tb, i);
      StopAllSheds(next, i + 1);
      assert OnlyShed(tb.slots, next.slots);
      OnlyShedTransitive(tb.slots, next.slots, StopAll(next, i + 1).slots);
      assert MayBecome(next.slots[i], StopAll(next, i + 1).slots[i]);
    }
  }

  lemma SampleSheds(c: Config, slots: seq<Slot>, o: Oracle, t: nat)
    ensures OnlyShed(slots, Sample(c, slots, o, t).slots)
  {
    SampleShape(c, slots, o, t);
    var s := Sample(c, slots, o, t).slots;
    forall i | 0 <= i < |slots| ensures MayBecome(slots[i], s[i]) {
      assert slots[i].(memory := 0) == s[i].(memory := 0);
    }
  }

  predicate WithinBudget(c: Config, slots: seq<Slot>, o: Oracle, t: nat) {
    var s := Sample(c, slots, o, t);
    s.ok && s.actual <= c.total
  }

  predicate Quiet(slots: seq<Slot>) {
    forall i :: 0 <= i < |slots| ==> !Idle(slots[i]) && !Active(slots[i])
  }

  lemma EnforceRoundSheds(c: Config, tb: Table, o: Oracle, t: nat)
    ensures OnlyShed(tb.slots, EnforceRound(c, tb, o, t).table.slots)
  {
    var s := Sample(c, tb.slots, o, t);
    SampleSheds(c, tb.slots, o, t);
    OldestIs(s.slots, |s.slots|, -1);
    LargestIs(s.slots, |s.slots|);
    StopAllSheds(tb.(slots := s.slots), 0);
    OnlyShedTransitive(tb.slots, s.slots, EnforceRound(c, tb, o, t).table.slots);
  }

  /** Enforcement never frees a busy entry or hands it over; at most it marks it terminated for its owner. */
  lemma {:induction false} EnforceSheds(c: Config, tb: Table, o: Oracle, t: nat)
    ensures OnlyShed(tb.slots, Enforce(c, tb, o, t).table.slots)
    decreases Sheddable(tb.slots)
  {
    var r := EnforceRound(c, tb, o, t);
    EnforceRoundSheds(c, tb, o, t);
    EnforceRoundShrinks(c, tb, o, t);
    if r.Again? {
      EnforceSheds(c, r.table, o, t + 1);
      OnlyShedTransitive(tb.slots, r.table.slots, Enforce(c, r.table, o, t + 1).table.slots);
    }
  }

  /** The table that the last round of an enforcement starts from. */
  function LastRound(c: Config, tb: Table, o: Oracle, t: nat): Table
    decreases Sheddable(tb.slots)
  {
    var r := EnforceRound(c, tb, o, t);
    EnforceRoundShrinks(c, tb, o, t);
    if r.Again? then LastRound(c, r.table, o, t + 1) else tb
  }

  /** How an enforcement ends whose last round, at sample t, starts from `before`. */
  predicate EnforceEnds(c: Config, before: Table, slots: seq<Slot>, verdict: Option<string>, o: Oracle, t: nat) {
    match verdict
    case None => WithinBudget(c, slots, o, t)
    case Some(why) =>
      && Quiet(slots)
      && ((why == TOTAL_EXCEEDED && OverBudget(c, slots, o, t)) || (why == MONITOR_FAILED && StoppedFrom(c, before, slots, o, t)))
  }

  predicate OverBudget(c: Config, slots: seq<Slot>, o: Oracle, t: nat) {
    var s := Sample(c, slots, o, t);
    s.ok && s.actual > c.total
  }

  /** Sampling failed, and everything was stopped for that. */
  predicate StoppedFrom(c: Config, before: Table, slots: seq<Slot>, o: Oracle, t: nat) {
    var s := Sample(c, before.slots, o, t);
    !s.ok && slots == StopAll(before.(slots := s.slots), 0).slots
  }

  lemma EnforceRoundVerdict(c: Config, tb: Table, o: Oracle, t: nat)
    ensures var r := EnforceRound(c, tb, o, t); r.Stop? ==> EnforceEnds(c, tb, r.table.slots, r.verdict, o, t)
  {
    var s := Sample(c, tb.slots, o, t);
    SampleTwice(c, tb.slots, o, t);
    StopAllSheds(tb.(slots := s.slots), 0);
    OldestIs(s.slots, |s.slots|, -1);
    LargestIs(s.slots, |s.slots|);
  }

  /** Enforcement ends, whatever the samples are, in one of three ways: the last sample was within budget; it failed and
      every query has been stopped for that; or it was over budget and no query is left to stop. */
  lemma {:induction false} EnforceVerdict(c: Config, tb: Table, o: Oracle, t: nat)
    ensures var r := Enforce(c, tb, o, t);
            r.tick > t && EnforceEnds(c, LastRound(c, tb, o, t), r.table.slots, r.verdict, o, r.tick - 1)
    decreases Sheddable(tb.slots)
  {
    EnforceRoundVerdict(c, tb, o, t);
    EnforceRoundShrinks(c, tb, o, t);
    if EnforceRound(c, tb, o, t).Again? {
      EnforceVerdict(c, EnforceRound(c, tb, o, t).table, o, t + 1);
    }
  }

  lemma {:induction false} SampleFromTwice(c: Config, a: seq<Slot>, b: seq<Slot>, i: nat, actual: nat, charged: nat, o: Oracle, t: nat)
    requires i <= |a| && SameButMemory(a, b)
    ensures var r, q := SampleFrom(c, a, i, actual, charged, o, t), SampleFrom(c, b, i, actual, charged, o, t);
            r.ok == q.ok && r.actual == q.actual && r.charged == q.charged
    decreases |a| - i
  {
    if i < |a| {
      assert a[i].(memory := 0) == b[i].(memory := 0);
      if Counted(a[i]) && o(t, a[i].pid).Some? {
        var m := o(t, a[i].pid).value;
        var a1, b1 := a[i := a[i].(memory := m)], b[i := b[i].(memory := m)];
        assert SameButMemory(a1, b1);
        SampleFromTwice(c, a1, b1, i + 1, actual + m, charged + Charge(c, m), o, t);
      } else {
        SampleFromTwice(c, a, b, i + 1, actual, charged, o, t);
      }
    }
  }

  lemma SampleTwice(c: Config, slots: seq<Slot>, o: Oracle, t: nat)
    ensures var r := Sample(c, slots, o, t);
            var q := Sample(c, r.slots, o, t);
            r.ok == q.ok && r.actual == q.actual && r.charged == q.charged
  {
    SampleShape(c, slots, o, t);
    if o(t, 0).Some? {
      var m := o(t, 0).value;
      SampleFromTwice(c, slots, Sample(c, slots, o, t).slots, 0, m, m, o, t);
    }
  }

  predicate Untouched(a: seq<Slot>, b: seq<Slot>, kept: int) {
    |a| == |b| && forall i :: 0 <= i < |a| && (a[i].busy || i == kept) ==> b[i].(memory := 0) == a[i].(memory := 0)
  }

  /** The guarded additions never wrap: all sums of a sample are unsigned 64-bit numbers. */
  lemma {:induction false} SampleStaysUnsigned(c: Config, slots: seq<Slot>, i: nat, actual: nat, charged: nat, o: Oracle, t: nat)
    requires i <= |slots| && actual <= UINT64_MAX && charged <= UINT64_MAX
    ensures var r := SampleFrom(c, slots, i, actual, charged, o, t); r.actual <= UINT64_MAX && r.charged <= UINT64_MAX
    ensures var r := SampleFrom(c, slots, i, actual, charged, o, t);
            r.ok && actual <= charged ==> r.actual <= r.charged
    decreases |slots| - i
  {
    if i < |slots| {
      var q := slots[i];
      if !Counted(q) {
        SampleStaysUnsigned(c, slots, i + 1, actual, charged, o, t);
      } else if o(t, q.pid).Some? {
        var m := o(t, q.pid).value;
        if m <= UINT64_MAX - actual && Charge(c, m) <= UINT64_MAX - charged {
          SampleStaysUnsigned(c, slots[i := q.(memory := m)], i + 1, actual + m, charged + Charge(c, m), o, t);
        }
      }
    }
  }

  /** Admission never touches a busy or protected slot. */
  lemma {:induction false} AdmitSheds(c: Config, tb: Table, resume: int, o: Oracle, t: nat)
    ensures var r := Admit(c, tb, resume, o, t);
            OnlyShed(tb.slots, r.table.slots) && Untouched(tb.slots, r.table.slots, resume)
    decreases Sheddable(tb.slots)
  {
    hide Sample, Sheddable;
    var s := Sample(c, tb.slots, o, t);
    var r := AdmitRound(c, tb, resume, o, t);
    SampleShape(c, tb.slots, o, t);
    SampleSheds(c, tb.slots, o, t);
    OldestIs(s.slots, |s.slots|, resume);
    AdmitRoundShrinks(c, tb, resume, o, t);
    OnlyShedTransitive(tb.slots, s.slots, r.table.slots);
    if r.Again? {
      AdmitSheds(c, r.table, resume, o, t + 1);
      OnlyShedTransitive(tb.slots, r.table.slots, Admit(c, r.table, resume, o, t + 1).table.slots);
    }
  }

  predicate Fits(c: Config, slots: seq<Slot>, o: Oracle, t: nat, reserve: nat) {
    var s := Sample(c, slots, o, t);
    s.ok && s.charged + reserve <= c.total
  }

  predicate NoIdleBut(slots: seq<Slot>, kept: int) {
    forall i :: 0 <= i < |slots| && i != kept ==> !Idle(slots[i])
  }

  predicate AdmitEnds(c: Config, slots: seq<Slot>, resume: int, verdict: Option<string>, o: Oracle, t: nat) {
    match verdict
    case None => Fits(c, slots, o, t, if resume >= 0 then 0 else c.reserve)
    case Some(why) =>
      var s := Sample(c, slots, o, t);
      if why == MONITOR_FAILED then !s.ok
      else why == TOTAL_EXCEEDED && s.ok && s.charged + (if resume >= 0 then 0 else c.reserve) > c.total && NoIdleBut(slots, resume)
  }

  /** Admission succeeds exactly with charge plus reservation within budget on the last sample; it refuses when the last
      sample failed, or when it did not fit and no other idle query is left to evict. */
  lemma {:induction false} AdmitVerdict(c: Config, tb: Table, resume: int, o: Oracle, t: nat)
    ensures var r := Admit(c, tb, resume, o, t); r.tick > t && AdmitEnds(c, r.table.slots, resume, r.verdict, o, r.tick - 1)
    decreases Sheddable(tb.slots)
  {
    var s := Sample(c, tb.slots, o, t);
    var r := AdmitRound(c, tb, resume, o, t);
    SampleTwice(c, tb.slots, o, t);
    OldestIs(s.slots, |s.slots|, resume);
    AdmitRoundShrinks(c, tb, resume, o, t);
    if r.Again? {
      AdmitVerdict(c, r.table, resume, o, t + 1);
    }
  }

  // ---------- every process is waited for exactly once ----------

  function Times(p: nat, pids: seq<nat>): nat {
    if pids == [] then 0 else Times(p, pids[..|pids| - 1]) + if pids[|pids| - 1] == p then 1 else 0
  }

  /** How many entries hold process p while it runs and has not been waited for. */
  function Live(p: nat, slots: seq<Slot>): nat {
    if slots == [] then 0 else (if Counted(slots[0]) && slots[0].pid == p then 1 else 0) + Live(p, slots[1..])
  }

  /** Running entries of process p plus waits for it. */
  function Accounted(p: nat, tb: Table): nat {
    Times(p, tb.reaped) + Live(p, tb.slots)
  }

  lemma {:induction false} LiveUpdate(p: nat, slots: seq<Slot>, i: nat, q: Slot)
    requires i < |slots|
    ensures Live(p, slots[i := q]) == Live(p, slots) - (if Counted(slots[i]) && slots[i].pid == p then 1 else 0)
                                      + (if Counted(q) && q.pid == p then 1 else 0)
  {
    if i == 0 {
      assert slots[0 := q][1..] == slots[1..];
    } else {
      assert slots[i := q][1..] == slots[1..][i - 1 := q];
      LiveUpdate(p, slots[1..], i - 1, q);
    }
  }

  lemma {:induction false} LiveSame(p: nat, a: seq<Slot>, b: seq<Slot>)
    requires SameButMemory(a, b)
    ensures Live(p, a) == Live(p, b)
  {
    if a != [] {
      assert a[0].(memory := 0) == b[0].(memory := 0);
      assert forall i :: 0 <= i < |a[1..]| ==> a[1..][i] == a[i + 1] && b[1..][i] == b[i + 1];
      LiveSame(p, a[1..], b[1..]);
    }
  }

  lemma ReleaseAccounts(p: nat, tb: Table, i: nat)
    requires i < |tb.slots|
    ensures Accounted(p, Release(tb, i)) == Accounted(p, tb)
  {
    LiveUpdate(p, tb.slots, i, FREE);
    assert (tb.reaped + [tb.slots[i].pid])[..|tb.reaped|] == tb.reaped;
  }

  lemma AbortAccounts(p: nat, tb: Table, i: nat, why: string)
    requires i < |tb.slots| && tb.slots[i].pid != 0
    ensures Accounted(p, Abort(tb, i, why)) == Accounted(p, tb)
  {
    LiveUpdate(p, tb.slots, i, tb.slots[i].(reason := Some(why), terminated := true, memory := 0));
    assert (tb.reaped + [tb.slots[i].pid])[..|tb.reaped|] == tb.reaped;
  }

  lemma {:induction false} StopAllAccounts(p: nat, tb: Table, i: nat)
    requires i <= |tb.slots|
    ensures Accounted(p, StopAll(tb, i)) == Accounted(p, tb)
    decreases |tb.slots| - i
  {
    if i < |tb.slots| {
      if tb.slots[i].pid == 0 {
        StopAllAccounts(p, tb, i + 1);
      } else if tb.slots[i].busy {
        AbortAccounts(p, tb, i, MONITOR_FAILED);
        StopAllAccounts(p, Abort(tb, i, MONITOR_FAILED), i + 1);
      } else {
        ReleaseAccounts(p, tb, i);
        StopAllAccounts(p, Release(tb, i), i + 1);
      }
    }
  }

  /** Enforcement conserves processes: each one it stops is waited for, and waited for once. */
  lemma {:induction false} EnforceAccounts(p: nat, c: Config, tb: Table, o: Oracle, t: nat)
    ensures Accounted(p, Enforce(c, tb, o, t).table) == Accounted(p, tb)
    decreases Sheddable(tb.slots)
  {
    var s := Sample(c, tb.slots, o, t);
    var now := tb.(slots := s.slots);
    SampleShape(c, tb.slots, o, t);
    LiveSame(p, tb.slots, s.slots);
    StopAllAccounts(p, now, 0);
    var v, l := Oldest(s.slots, |s.slots|, -1), Largest(s.slots, |s.slots|);
    OldestIs(s.slots, |s.slots|, -1);
    LargestIs(s.slots, |s.slots|);
    if v >= 0 {
      ReleaseAccounts(p, now, v);
    } else if l >= 0 {
      AbortAccounts(p, now, l, TOTAL_EXCEEDED);
    }
    EnforceRoundShrinks(c, tb, o, t);
    if EnforceRound(c, tb, o, t).Again? {
      EnforceAccounts(p, c, EnforceRound(c, tb, o, t).table, o, t + 1);
    }
  }

  lemma {:induction false} AdmitAccounts(p: nat, c: Config, tb: Table, resume: int, o: Oracle, t: nat)
    ensures Accounted(p, Admit(c, tb, resume, o, t).table) == Accounted(p, tb)
    decreases Sheddable(tb.slots)
  {
    var s := Sample(c, tb.slots, o, t);
    var now := tb.(slots := s.slots);
    SampleShape(c, tb.slots, o, t);
    LiveSame(p, tb.slots, s.slots);
    var v := Oldest(s.slots, |s.slots|, resume);
    if v >= 0 {
      ReleaseAccounts(p, now, v);
    }
    AdmitRoundShrinks(c, tb, resume, o, t);
    if AdmitRound(c, tb, resume, o, t).Again? {
      AdmitAccounts(p, c, AdmitRound(c, tb, resume, o, t).table, resume, o, t + 1);
    }
  }
}
