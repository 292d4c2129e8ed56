/** Which queries the memory policy stops, when every process keeps one footprint for the duration of the call. */
module Footprints {
  import opened Terms
  import opened Registry
  import opened Shedding

  type Footprint = nat -> nat

  ghost predicate Constant(o: Oracle, m: Footprint) {
    forall t, p :: o(t, p) == Some(m(p))
  }

  /** Sum of f over the running processes of slots [i..). */
  function Sum(f: Footprint, slots: seq<Slot>, i: nat): nat
    requires i <= |slots|
    decreases |slots| - i
  {
    if i == |slots| then 0 else (if Counted(slots[i]) then f(slots[i].pid) else 0) + Sum(f, slots, i + 1)
  }

  function Charged(c: Config, m: Footprint): Footprint {
    p => Charge(c, m(p))
  }

  /** The controller plus all running queries; the sums stay below the overflow guards. */
  function Usage(m: Footprint, f: Footprint, slots: seq<Slot>): nat {
    m(0) + Sum(f, slots, 0)
  }

  predicate SameCounted(a: Slot, b: Slot) {
    Counted(a) == Counted(b) && (Counted(a) ==> a.pid == b.pid)
  }

  lemma {:induction false} SumSame(f: Footprint, a: seq<Slot>, b: seq<Slot>, i: nat)
    requires i <= |a| == |b|
    requires forall j :: i <= j < |a| ==> SameCounted(a[j], b[j])
    ensures Sum(f, a, i) == Sum(f, b, i)
    decreases |a| - i
  {
    if i < |a| {
      assert SameCounted(a[i], b[i]);
      SumSame(f, a, b, i + 1);
    }
  }

  /** Stopping queries never increases a sum. */
  lemma {:induction false} SumFewer(f: Footprint, a: seq<Slot>, b: seq<Slot>, i: nat)
    requires i <= |a| == |b|
    requires forall j :: i <= j < |a| ==> SameCounted(a[j], b[j]) || !Counted(b[j])
    ensures Sum(f, b, i) <= Sum(f, a, i)
    decreases |a| - i
  {
    if i < |a| {
      assert SameCounted(a[i], b[i]) || !Counted(b[i]);
      SumFewer(f, a, b, i + 1);
    }
  }

  predicate Recorded(m: Footprint, slots: seq<Slot>, i: nat) {
    forall j :: i <= j < |slots| && Counted(slots[j]) ==> slots[j].memory == m(slots[j].pid)
  }

  lemma {:induction false} SampleFromPrefix(c: Config, slots: seq<Slot>, i: nat, actual: nat, charged: nat, o: Oracle, t: nat)
    requires i <= |slots|
    ensures forall j :: 0 <= j < i ==> SampleFrom(c, slots, i, actual, charged, o, t).slots[j] == slots[j]
    decreases |slots| - i
  {
    if i < |slots| {
      var q := slots[i];
      if !Counted(q) {
        SampleFromPrefix(c, slots, i + 1, actual, charged, o, t);
      } else if o(t, q.pid).Some? {
        var m := o(t, q.pid).value;
        SampleFromPrefix(c, slots[i := q.(memory := m)], i + 1, actual + m, charged + Charge(c, m), o, t);
      }
    }
  }

  lemma {:induction false} SampleFromConstant(c: Config, slots: seq<Slot>, i: nat, actual: nat, charged: nat, o: Oracle,
                                              t: nat, m: Footprint)
    requires Constant(o, m) && i <= |slots| && actual <= charged
    requires charged + Sum(Charged(c, m), slots, i) <= UINT64_MAX
    ensures var r := SampleFrom(c, slots, i, actual, charged, o, t);
            r.ok && r.actual == actual + Sum(m, slots, i) && r.charged == charged + Sum(Charged(c, m), slots, i)
    decreases |slots| - i
  {
    hide Counted;
    if i < |slots| {
      var q := slots[i];
      if Counted(q) {
        var v := m(q.pid);
        assert o(t, q.pid) == Some(v);
        var updated := slots[i := q.(memory := v)];
        SumSame(m, slots, updated, i + 1);
        SumSame(Charged(c, m), slots, updated, i + 1);
        SampleFromConstant(c, updated, i + 1, actual + v, charged + Charge(c, v), o, t, m);
      } else {
        SampleFromConstant(c, slots, i + 1, actual, charged, o, t, m);
      }
    }
  }

  /** A completed sample remembers the footprint of every running query. */
  lemma {:induction false} SampleFromRecords(c: Config, slots: seq<Slot>, i: nat, actual: nat, charged: nat, o: Oracle,
                                             t: nat, m: Footprint)
    requires Constant(o, m) && i <= |slots|
    ensures var r := SampleFrom(c, slots, i, actual, charged, o, t); r.ok ==> Recorded(m, r.slots, i)
    decreases |slots| - i
  {
    if i < |slots| {
      var q := slots[i];
      if Counted(q) {
        var v := m(q.pid);
        assert o(t, q.pid) == Some(v);
        var updated := slots[i := q.(memory := v)];
        SampleFromRecords(c, updated, i + 1, actual + v, charged + Charge(c, v), o, t, m);
        SampleFromPrefix(c, updated, i + 1, actual + v, charged + Charge(c, v), o, t);
      } else {
        SampleFromRecords(c, slots, i + 1, actual, charged, o, t, m);
        SampleFromPrefix(c, slots, i + 1, actual, charged, o, t);
      }
    }
  }

  predicate NoOverflow(c: Config, m: Footprint, slots: seq<Slot>) {
    Usage(m, Charged(c, m), slots) <= UINT64_MAX
  }

  lemma SampleConstant(c: Config, slots: seq<Slot>, o: Oracle, t: nat, m: Footprint)
    requires Constant(o, m) && NoOverflow(c, m, slots)
    ensures var r := Sample(c, slots, o, t);
            && r.ok && r.actual == Usage(m, m, slots) && r.charged == Usage(m, Charged(c, m), slots)
            && Recorded(m, r.slots, 0) && SameButMemory(slots, r.slots)
  {
    assert o(t, 0) == Some(m(0));
    SampleFromConstant(c, slots, 0, m(0), m(0), o, t, m);
    SampleFromRecords(c, slots, 0, m(0), m(0), o, t, m);
    SampleShape(c, slots, o, t);
  }

  // ---------- idle queries: the shortest oldest-first prefix ----------

  /** Idle queries have distinct cache positions. */
  predicate DistinctOrders(slots: seq<Slot>) {
    forall i, j :: 0 <= i < j < |slots| && Idle(slots[i]) && Idle(slots[j]) ==> slots[i].order != slots[j].order
  }

  /** The table once every evictable query cached before slot i is gone. */
  function OlderGone(slots: seq<Slot>, i: nat, kept: int): (r: seq<Slot>)
    requires i < |slots|
    ensures |r| == |slots|
    ensures forall j :: 0 <= j < |slots| ==>
              r[j] == if Idle(slots[j]) && j != kept && slots[j].order < slots[i].order then FREE else slots[j]
  {
    seq(|slots|, (j: int) => if 0 <= j < |slots| && !(Idle(slots[j]) && j != kept && slots[j].order < slots[i].order)
                             then slots[j] else FREE)
  }

  /** One eviction of the oldest query does not change what is left once everything older than slot i is gone. */
  lemma OlderGoneAfterEviction(f: Footprint, tb: Table, sampled: seq<Slot>, v: nat, i: nat, kept: int)
    requires SameButMemory(tb.slots, sampled) && DistinctOrders(tb.slots)
    requires v == Oldest(sampled, |sampled|, kept) < |sampled|
    requires i < |sampled| && i != v && i != kept && Idle(sampled[i])
    ensures Sum(f, OlderGone(Release(tb.(slots := sampled), v).slots, i, kept), 0) == Sum(f, OlderGone(tb.slots, i, kept), 0)
  {
    OldestIs(sampled, |sampled|, kept);
    var a, b := OlderGone(Release(tb.(slots := sampled), v).slots, i, kept), OlderGone(tb.slots, i, kept);
    assert SamePoint(tb.slots[v], sampled[v]) && SamePoint(tb.slots[i], sampled[i]);
    forall j | 0 <= j < |a| ensures SameCounted(a[j], b[j]) {
      assert SamePoint(tb.slots[j], sampled[j]);
    }
    SumSame(f, a, b, 0);
  }

  predicate SamePoint(a: Slot, b: Slot) {
    a.(memory := 0) == b.(memory := 0)
  }

  lemma DistinctAfter(a: seq<Slot>, b: seq<Slot>)
    requires DistinctOrders(a) && OnlyShed(a, b)
    ensures DistinctOrders(b)
  {
    forall i, j | 0 <= i < j < |b| && Idle(b[i]) && Idle(b[j]) ensures b[i].order != b[j].order {
      assert MayBecome(a[i], b[i]) && MayBecome(a[j], b[j]);
    }
  }

  lemma NoOverflowAfter(c: Config, m: Footprint, a: seq<Slot>, b: seq<Slot>)
    requires NoOverflow(c, m, a) && OnlyShed(a, b)
    ensures NoOverflow(c, m, b)
  {
    forall j | 0 <= j < |a| ensures SameCounted(a[j], b[j]) || !Counted(b[j]) {
      assert MayBecome(a[j], b[j]);
    }
    SumFewer(Charged(c, m), a, b, 0);
  }

  lemma OlderGoneFewer(f: Footprint, slots: seq<Slot>, i: nat, kept: int)
    requires i < |slots|
    ensures Sum(f, OlderGone(slots, i, kept), 0) <= Sum(f, slots, 0)
  {
    SumFewer(f, slots, OlderGone(slots, i, kept), 0);
  }

  /** Nothing evictable is older than the oldest: its own prefix is empty. */
  lemma OldestPrefix(f: Footprint, slots: seq<Slot>, sampled: seq<Slot>, v: nat, kept: int)
    requires SameButMemory(slots, sampled) && v == Oldest(sampled, |sampled|, kept) < |sampled|
    ensures Sum(f, OlderGone(slots, v, kept), 0) == Sum(f, slots, 0)
  {
    OldestIs(sampled, |sampled|, kept);
    assert SamePoint(slots[v], sampled[v]);
    var a := OlderGone(slots, v, kept);
    forall j | 0 <= j < |a| ensures SameCounted(a[j], slots[j]) {
      assert SamePoint(slots[j], sampled[j]);
    }
    SumSame(f, a, slots, 0);
  }

  /** An idle query is evicted by enforcement exactly when the usage left after evicting every query cached before it
      is still over budget. */
  lemma {:induction false} EnforceEvictsShortestPrefix(c: Config, tb: Table, o: Oracle, t: nat, m: Footprint, i: nat)
    requires Constant(o, m) && NoOverflow(c, m, tb.slots) && DistinctOrders(tb.slots)
    requires i < |tb.slots| && Idle(tb.slots[i])
    ensures Enforce(c, tb, o, t).table.slots[i].pid == 0 <==> Usage(m, m, OlderGone(tb.slots, i, -1)) > c.total
    decreases Sheddable(tb.slots)
  {
    hide Oldest, OlderGone, Sheddable, Constant, Sum;
    var s := Sample(c, tb.slots, o, t);
    SampleConstant(c, tb.slots, o, t, m);
    assert SamePoint(tb.slots[i], s.slots[i]);
    OlderGoneFewer(m, tb.slots, i, -1);
    if s.actual > c.total {
      OldestIs(s.slots, |s.slots|, -1);
      var v := Oldest(s.slots, |s.slots|, -1);
      var r := EnforceRound(c, tb, o, t);
      EnforceRoundSheds(c, tb, o, t);
      EnforceRoundShrinks(c, tb, o, t);
      if v == i {
        EnforceSheds(c, r.table, o, t + 1);
        assert MayBecome(r.table.slots[i], Enforce(c, r.table, o, t + 1).table.slots[i]);
        OldestPrefix(m, tb.slots, s.slots, v, -1);
      } else {
        NoOverflowAfter(c, m, tb.slots, r.table.slots);
        DistinctAfter(tb.slots, r.table.slots);
        EnforceEvictsShortestPrefix(c, r.table, o, t + 1, m, i);
        OlderGoneAfterEviction(m, tb, s.slots, v, i, -1);
      }
    }
  }

  /** The same for admission, with charges in place of measured usage and the new query's reservation added: exactly
      the shortest first-in-first-out prefix that makes room is evicted. */
  lemma {:induction false} AdmitEvictsShortestPrefix(c: Config, tb: Table, resume: int, o: Oracle, t: nat, m: Footprint, i: nat)
    requires Constant(o, m) && NoOverflow(c, m, tb.slots) && DistinctOrders(tb.slots)
    requires i < |tb.slots| && i != resume && Idle(tb.slots[i])
    ensures Admit(c, tb, resume, o, t).table.slots[i].pid == 0 <==>
            Usage(m, Charged(c, m), OlderGone(tb.slots, i, resume)) + (if resume >= 0 then 0 else c.reserve) > c.total
    decreases Sheddable(tb.slots)
  {
    hide Oldest, OlderGone, Sheddable, Constant, Charged;
    var f := Charged(c, m);
    var s := Sample(c, tb.slots, o, t);
    SampleConstant(c, tb.slots, o, t, m);
    assert SamePoint(tb.slots[i], s.slots[i]);
    OlderGoneFewer(f, tb.slots, i, resume);
    var r := AdmitRound(c, tb, resume, o, t);
    if r.Again? || r.verdict.Some? {
      OldestIs(s.slots, |s.slots|, resume);
      var v := Oldest(s.slots, |s.slots|, resume);
      AdmitRoundShrinks(c, tb, resume, o, t);
      AdmitRoundSheds(c, tb, resume, o, t);
      if v == i {
        AdmitSheds(c, r.table, resume, o, t + 1);
        assert MayBecome(r.table.slots[i], Admit(c, r.table, resume, o, t + 1).table.slots[i]);
        OldestPrefix(f, tb.slots, s.slots, v, resume);
      } else {
        NoOverflowAfter(c, m, tb.slots, r.table.slots);
        DistinctAfter(tb.slots, r.table.slots);
        AdmitEvictsShortestPrefix(c, r.table, resume, o, t + 1, m, i);
        OlderGoneAfterEviction(f, tb, s.slots, v, i, resume);
      }
    }
  }

  lemma AdmitRoundSheds(c: Config, tb: Table, resume: int, o: Oracle, t: nat)
    ensures OnlyShed(tb.slots, AdmitRound(c, tb, resume, o, t).table.slots)
  {
    var s := Sample(c, tb.slots, o, t);
    SampleSheds(c, tb.slots, o, t);
    OldestIs(s.slots, |s.slots|, resume);
    OnlyShedTransitive(tb.slots, s.slots, AdmitRound(c, tb, resume, o, t).table.slots);
  }

  // ---------- active queries: the fewest possible ----------

  /** Footprint of the active queries of slots [0..n) that are not in `gone`. */
  function ActiveSum(m: Footprint, slots: seq<Slot>, gone: set<nat>, n: nat): nat
    requires n <= |slots|
  {
    if n == 0 then 0
    else ActiveSum(m, slots, gone, n - 1) + if Active(slots[n - 1]) && n - 1 !in gone then m(slots[n - 1].pid) else 0
  }

  lemma {:induction false} ActiveSumOut(m: Footprint, slots: seq<Slot>, gone: set<nat>, x: nat, n: nat)
    requires n <= |slots| && x < |slots| && x !in gone && Active(slots[x])
    ensures ActiveSum(m, slots, gone, n) == ActiveSum(m, slots, gone + {x}, n) + if x < n then m(slots[x].pid) else 0
  {
    if n > 0 {
      ActiveSumOut(m, slots, gone, x, n - 1);
    }
  }

  lemma {:induction false} ActiveSumSame(m: Footprint, a: seq<Slot>, g: set<nat>, b: seq<Slot>, h: set<nat>, n: nat)
    requires n <= |a| == |b|
    requires forall j :: 0 <= j < n ==> (Active(a[j]) && j !in g <==> Active(b[j]) && j !in h)
    requires forall j :: 0 <= j < n && Active(a[j]) && j !in g ==> a[j].pid == b[j].pid
    ensures ActiveSum(m, a, g, n) == ActiveSum(m, b, h, n)
  {
    if n > 0 {
      ActiveSumSame(m, a, g, b, h, n - 1);
    }
  }

  lemma {:induction false} SumSplit(f: Footprint, slots: seq<Slot>, i: nat)
    requires i <= |slots|
    requires forall j :: 0 <= j < |slots| ==> !Idle(slots[j])
    ensures ActiveSum(f, slots, {}, i) + Sum(f, slots, i) == Sum(f, slots, 0)
  {
    if i > 0 {
      SumSplit(f, slots, i - 1);
    }
  }

  function Actives(slots: seq<Slot>): set<nat> {
    set i: nat | i < |slots| && Active(slots[i])
  }

  /** The active queries that a call stopped. */
  function Killed(before: seq<Slot>, after: seq<Slot>): set<nat>
    requires |before| == |after|
  {
    set i: nat | i < |before| && Active(before[i]) && !Active(after[i])
  }

  /** Stopping the largest query is never a mistake: from any plan that would bring usage within budget, one query can
      be taken out once the largest has been stopped. */
  lemma Exchange(c: Config, m: Footprint, slots: seq<Slot>, next: seq<Slot>, l: nat, plan: set<nat>) returns (rest: set<nat>)
    requires |slots| == |next| && l < |slots| && Active(slots[l]) && !Active(next[l])
    requires forall j :: 0 <= j < |slots| && j != l ==> Active(slots[j]) == Active(next[j]) && slots[j].pid == next[j].pid
    requires forall j :: 0 <= j < |slots| && Active(slots[j]) ==> m(slots[j].pid) <= m(slots[l].pid)
    requires plan <= Actives(slots) && plan != {}
    ensures rest <= Actives(next) && |rest| == |plan| - 1
    ensures ActiveSum(m, next, rest, |next|) <= ActiveSum(m, slots, plan, |slots|)
  {
    var x := l;
    if l !in plan {
      x :| x in plan;
    }
    rest := plan - {x};
    ActiveSumOut(m, slots, rest, x, |slots|);
    assert rest + {x} == plan;
    ActiveSumOut(m, slots, rest, l, |slots|);
    ActiveSumSame(m, slots, rest + {l}, next, rest, |slots|);
  }

  lemma KilledStep(a: seq<Slot>, b: seq<Slot>, d: seq<Slot>)
    requires OnlyShed(a, b) && OnlyShed(b, d)
    ensures Killed(a, d) == Killed(a, b) + Killed(b, d) && Killed(a, b) !! Killed(b, d)
  {
    forall i | 0 <= i < |a| ensures MayBecome(a[i], b[i]) && MayBecome(b[i], d[i]) {
    }
  }

  /** Enforcement stops as few active queries as possible: any set of active queries whose removal, after all idle
      ones, brings usage within budget is at least as large. */
  lemma {:induction false} EnforceKillsFewest(c: Config, tb: Table, o: Oracle, t: nat, m: Footprint, plan: set<nat>)
    requires Constant(o, m) && NoOverflow(c, m, tb.slots)
    requires Sufficient(c, m, tb.slots, plan)
    ensures |Killed(tb.slots, Enforce(c, tb, o, t).table.slots)| <= |plan|
    decreases Sheddable(tb.slots)
  {
    var r := EnforceRound(c, tb, o, t);
    EnforceRoundSheds(c, tb, o, t);
    EnforceRoundShrinks(c, tb, o, t);
    if r.Again? {
      NoOverflowAfter(c, m, tb.slots, r.table.slots);
      EnforceSheds(c, r.table, o, t + 1);
      KilledStep(tb.slots, r.table.slots, Enforce(c, r.table, o, t + 1).table.slots);
      var rest := PlanAfterRound(c, tb, o, t, m, plan);
      EnforceKillsFewest(c, r.table, o, t + 1, m, rest);
    } else {
      StopKillsNone(c, tb, o, t, m);
    }
  }

  /** A round that returns has not stopped an active query, since constant samples never fail. */
  lemma StopKillsNone(c: Config, tb: Table, o: Oracle, t: nat, m: Footprint)
    requires Constant(o, m) && NoOverflow(c, m, tb.slots)
    requires EnforceRound(c, tb, o, t).Stop?
    ensures Killed(tb.slots, EnforceRound(c, tb, o, t).table.slots) == {}
  {
    SampleConstant(c, tb.slots, o, t, m);
    var s := Sample(c, tb.slots, o, t);
    forall j | 0 <= j < |s.slots| ensures SamePoint(tb.slots[j], s.slots[j]) {
    }
  }

  predicate Sufficient(c: Config, m: Footprint, slots: seq<Slot>, plan: set<nat>) {
    plan <= Actives(slots) && m(0) + ActiveSum(m, slots, plan, |slots|) <= c.total
  }

  /** Evicting an idle query leaves the active ones, and so every plan, as they are. */
  lemma PlanAfterEviction(c: Config, slots: seq<Slot>, next: seq<Slot>, m: Footprint, plan: set<nat>)
    requires Sufficient(c, m, slots, plan) && |slots| == |next|
    requires forall j :: 0 <= j < |slots| ==> Active(slots[j]) == Active(next[j])
    requires forall j :: 0 <= j < |slots| && Active(slots[j]) ==> slots[j].pid == next[j].pid
    ensures Sufficient(c, m, next, plan) && Killed(slots, next) == {}
  {
    ActiveSumSame(m, slots, plan, next, plan, |slots|);
  }

  lemma PlanAfterKill(c: Config, slots: seq<Slot>, next: seq<Slot>, l: nat, m: Footprint, plan: set<nat>) returns (rest: set<nat>)
    requires Sufficient(c, m, slots, plan)
    requires Usage(m, m, slots) > c.total && forall j :: 0 <= j < |slots| ==> !Idle(slots[j])
    requires |slots| == |next| && l < |slots| && Active(slots[l]) && !Active(next[l])
    requires forall j :: 0 <= j < |slots| && j != l ==> Active(slots[j]) == Active(next[j]) && slots[j].pid == next[j].pid
    requires forall j :: 0 <= j < |slots| && Active(slots[j]) ==> m(slots[j].pid) <= m(slots[l].pid)
    ensures Sufficient(c, m, next, rest) && |rest| + |Killed(slots, next)| == |plan|
  {
    assert Killed(slots, next) == {l};
    if plan == {} {
      SumSplit(m, slots, |slots|);
      assert false;
    }
    rest := Exchange(c, m, slots, next, l, plan);
  }

  /** After one more round, a sufficient plan stays sufficient with as many fewer members as queries were stopped. */
  lemma PlanAfterRound(c: Config, tb: Table, o: Oracle, t: nat, m: Footprint, plan: set<nat>) returns (rest: set<nat>)
    requires Constant(o, m) && NoOverflow(c, m, tb.slots)
    requires Sufficient(c, m, tb.slots, plan)
    requires EnforceRound(c, tb, o, t).Again?
    ensures var next := EnforceRound(c, tb, o, t).table.slots;
            Sufficient(c, m, next, rest) && |rest| + |Killed(tb.slots, next)| == |plan|
  {
    hide Sample, Usage, Largest, Constant, Killed, Oldest;
    var s := Sample(c, tb.slots, o, t).slots;
    var next := EnforceRound(c, tb, o, t).table.slots;
    SampleConstant(c, tb.slots, o, t, m);
    forall j | 0 <= j < |s| ensures SamePoint(tb.slots[j], s[j]) {
    }
    OldestIs(s, |s|, -1);
    LargestIs(s, |s|);
    if Oldest(s, |s|, -1) >= 0 {
      PlanAfterEviction(c, tb.slots, next, m, plan);
      rest := plan;
    } else {
      var l := Largest(s, |s|);
      forall j | 0 <= j < |s| && Active(tb.slots[j]) ensures m(tb.slots[j].pid) <= m(tb.slots[l].pid) {
        assert SamePoint(tb.slots[j], s[j]) && SamePoint(tb.slots[l], s[l]);
        assert s[j].memory == m(s[j].pid) && s[l].memory == m(s[l].pid);
      }
      rest := PlanAfterKill(c, tb.slots, next, l, m, plan);
    }
  }

  lemma NoIdleAfter(c: Config, tb: Table, o: Oracle, t: nat)
    requires NoIdleBut(tb.slots, -1)
    ensures NoIdleBut(Enforce(c, tb, o, t).table.slots, -1)
  {
    EnforceSheds(c, tb, o, t);
    var r := Enforce(c, tb, o, t).table.slots;
    forall j | 0 <= j < |r| ensures !Idle(r[j]) {
      assert MayBecome(tb.slots[j], r[j]);
    }
  }

  /** A round that stops an active query leaves no idle one. */
  lemma RoundKillsOnlyWithoutIdle(c: Config, tb: Table, o: Oracle, t: nat, i: nat)
    requires i < |tb.slots| && Active(tb.slots[i]) && !Active(EnforceRound(c, tb, o, t).table.slots[i])
    ensures NoIdleBut(EnforceRound(c, tb, o, t).table.slots, -1)
  {
    var s := Sample(c, tb.slots, o, t).slots;
    SampleShape(c, tb.slots, o, t);
    assert SamePoint(tb.slots[i], s[i]);
    OldestIs(s, |s|, -1);
    LargestIs(s, |s|);
    StopAllSheds(tb.(slots := s), 0);
  }

  /** An active query is stopped only when no idle query remains. */
  lemma {:induction false} KillsOnlyWithoutIdle(c: Config, tb: Table, o: Oracle, t: nat, i: nat)
    requires i < |tb.slots| && Active(tb.slots[i]) && !Active(Enforce(c, tb, o, t).table.slots[i])
    ensures NoIdleBut(Enforce(c, tb, o, t).table.slots, -1)
    decreases Sheddable(tb.slots)
  {
    var r := EnforceRound(c, tb, o, t);
    EnforceRoundShrinks(c, tb, o, t);
    if !Active(r.table.slots[i]) {
      RoundKillsOnlyWithoutIdle(c, tb, o, t, i);
    }
    if r.Again? {
      if Active(r.table.slots[i]) {
        KillsOnlyWithoutIdle(c, r.table, o, t + 1, i);
      } else {
        NoIdleAfter(c, r.table, o, t + 1);
      }
    }
  }
}
