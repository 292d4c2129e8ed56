/** What an admitted query may rely on, in terms of what the processes use. */
module Admission {
  import opened Terms
  import opened Registry
  import opened Shedding
  import opened Footprints
  import opened Protocol
  import CacheKey

  // ---------- a sample ----------

  /** What a process uses at sample t. */
  function Used(o: Oracle, t: nat, p: nat): nat {
    match o(t, p) case None => 0 case Some(m) => m
  }

  function Use(o: Oracle, t: nat): Footprint {
    p => Used(o, t, p)
  }

  /** Its use, or the reserve while it uses less. */
  function Reserved(c: Config, o: Oracle, t: nat): Footprint {
    p => if Used(o, t, p) < c.reserve then c.reserve else Used(o, t, p)
  }

  /** The number of running queries. */
  function Running(slots: seq<Slot>): nat {
    Sum(EACH, slots, 0)
  }

  const EACH: Footprint := p => 1

  predicate SampledFrom(slots: seq<Slot>, i: nat, o: Oracle, t: nat) {
    forall j :: i <= j < |slots| && Counted(slots[j]) ==> o(t, slots[j].pid).Some?
  }

  lemma {:induction false} SampleFromIs(c: Config, slots: seq<Slot>, i: nat, actual: nat, charged: nat, o: Oracle, t: nat)
    requires i <= |slots| && actual <= UINT64_MAX && charged <= UINT64_MAX
    ensures var r := SampleFrom(c, slots, i, actual, charged, o, t);
            var use, reserved := actual + Sum(Use(o, t), slots, i), charged + Sum(Reserved(c, o, t), slots, i);
            && (r.ok <==> SampledFrom(slots, i, o, t) && use <= UINT64_MAX && reserved <= UINT64_MAX)
            && (r.ok ==> r.actual == use && r.charged == reserved)
    decreases |slots| - i
  {
    if i < |slots| {
      var q := slots[i];
      if !Counted(q) {
        SampleFromIs(c, slots, i + 1, actual, charged, o, t);
      } else if o(t, q.pid).Some? {
        var m := o(t, q.pid).value;
        var updated := slots[i := q.(memory := m)];
        SumSame(Use(o, t), slots, updated, i + 1);
        SumSame(Reserved(c, o, t), slots, updated, i + 1);
        assert SampledFrom(updated, i + 1, o, t) == SampledFrom(slots, i, o, t);
        if m <= UINT64_MAX - actual && Charge(c, m) <= UINT64_MAX - charged {
          SampleFromIs(c, updated, i + 1, actual + m, charged + Charge(c, m), o, t);
        }
      }
    }
  }

  lemma {:induction false} SampleFromOk(c: Config, slots: seq<Slot>, i: nat, actual: nat, charged: nat, o: Oracle, t: nat)
    requires i <= |slots| && SampleFrom(c, slots, i, actual, charged, o, t).ok
    ensures SampledFrom(slots, i, o, t)
    ensures SampleFrom(c, slots, i, actual, charged, o, t).actual == actual + Sum(Use(o, t), slots, i)
    ensures SampleFrom(c, slots, i, actual, charged, o, t).charged == charged + Sum(Reserved(c, o, t), slots, i)
    decreases |slots| - i
  {
    if i < |slots| {
      var q := slots[i];
      if !Counted(q) {
        SampleFromOk(c, slots, i + 1, actual, charged, o, t);
      } else {
        var m := o(t, q.pid).value;
        var updated := slots[i := q.(memory := m)];
        SumSame(Use(o, t), slots, updated, i + 1);
        SumSame(Reserved(c, o, t), slots, updated, i + 1);
        SampleFromOk(c, updated, i + 1, actual + m, charged + Charge(c, m), o, t);
        assert forall j :: i < j < |slots| ==> updated[j] == slots[j];
      }
    }
  }

  /** A sample succeeds exactly if every process can be sampled and neither sum overflows; it then gives what the controller
      and all running queries use, and the same with every query that uses less than the reserve counted as the reserve. */
  lemma SampledExactly(c: Config, slots: seq<Slot>, o: Oracle, t: nat)
    ensures var r := Sample(c, slots, o, t);
            var own := Use(o, t)(0);
            var use, reserved := own + Sum(Use(o, t), slots, 0), own + Sum(Reserved(c, o, t), slots, 0);
            && (own <= UINT64_MAX ==>
                  (r.ok <==> o(t, 0).Some? && SampledFrom(slots, 0, o, t) && use <= UINT64_MAX && reserved <= UINT64_MAX))
            && (r.ok ==> o(t, 0).Some? && r.actual == use && r.charged == reserved)
  {
    if o(t, 0).Some? {
      var m := o(t, 0).value;
      if m <= UINT64_MAX {
        SampleFromIs(c, slots, 0, m, m, o, t);
      }
      if SampleFrom(c, slots, 0, m, m, o, t).ok {
        SampleFromOk(c, slots, 0, m, m, o, t);
      }
    }
  }

  lemma {:induction false} UseIsReserved(c: Config, slots: seq<Slot>, i: nat, o: Oracle, t: nat)
    requires i <= |slots|
    ensures Sum(Use(o, t), slots, i) <= Sum(Reserved(c, o, t), slots, i)
    decreases |slots| - i
  {
    if i < |slots| {
      UseIsReserved(c, slots, i + 1, o, t);
    }
  }

  lemma {:induction false} ReserveForEach(c: Config, slots: seq<Slot>, i: nat, o: Oracle, t: nat)
    requires i <= |slots|
    ensures c.reserve * Sum(EACH, slots, i) <= Sum(Reserved(c, o, t), slots, i)
    decreases |slots| - i
  {
    if i < |slots| {
      ReserveForEach(c, slots, i + 1, o, t);
      OneMore(slots, i);
      Distribute(c.reserve, Sum(EACH, slots, i + 1));
      assert Counted(slots[i]) ==> Reserved(c, o, t)(slots[i].pid) >= c.reserve;
    }
  }

  lemma OneMore(slots: seq<Slot>, i: nat)
    requires i < |slots|
    ensures Sum(EACH, slots, i) == (if Counted(slots[i]) then 1 else 0) + Sum(EACH, slots, i + 1)
  {
  }

  lemma Distribute(a: nat, n: nat)
    ensures a * (n + 1) == a * n + a
  {
  }

  // ---------- admission ----------

  /** Room for so many queries at the reserve, and for what is used now plus `more`. */
  predicate Room(c: Config, slots: seq<Slot>, o: Oracle, t: nat, queries: nat, more: nat) {
    && o(t, 0).Some?
    && o(t, 0).value + c.reserve * queries <= c.total
    && o(t, 0).value + Sum(Use(o, t), slots, 0) + more <= c.total
  }

  /** A query that is admitted leaves room: all running queries, and it if it is new, could use their reserve, and what is used
      now plus the reserve of a new one is within the total. */
  lemma AdmittedFits(c: Config, tb: Table, resume: int, o: Oracle, t: nat)
    requires Admit(c, tb, resume, o, t).verdict.None?
    ensures var r := Admit(c, tb, resume, o, t);
            r.tick > t && if resume >= 0 then Room(c, r.table.slots, o, r.tick - 1, Running(r.table.slots), 0)
                          else Room(c, r.table.slots, o, r.tick - 1, Running(r.table.slots) + 1, c.reserve)
  {
    hide Admit, Sample;
    var r := Admit(c, tb, resume, o, t);
    AdmitVerdict(c, tb, resume, o, t);
    SampledExactly(c, r.table.slots, o, r.tick - 1);
    UseIsReserved(c, r.table.slots, 0, o, r.tick - 1);
    ReserveForEach(c, r.table.slots, 0, o, r.tick - 1);
    Distribute(c.reserve, Running(r.table.slots));
  }

  /** And a query that is refused for lack of memory would not have fitted, although no other idle query was left. */
  lemma RefusedDoesNotFit(c: Config, tb: Table, resume: int, o: Oracle, t: nat)
    requires Admit(c, tb, resume, o, t).verdict == Some(TOTAL_EXCEEDED)
    ensures var r := Admit(c, tb, resume, o, t);
            && r.tick > t && NoIdleBut(r.table.slots, resume)
            && Use(o, r.tick - 1)(0) + Sum(Reserved(c, o, r.tick - 1), r.table.slots, 0) + (if resume >= 0 then 0 else c.reserve) > c.total
  {
    hide Admit, Sample;
    var r := Admit(c, tb, resume, o, t);
    AdmitVerdict(c, tb, resume, o, t);
    SampledExactly(c, r.table.slots, o, r.tick - 1);
    assert TOTAL_EXCEEDED[0] != MONITOR_FAILED[0];
  }

  // ---------- runs ----------

  lemma SumWith(f: Footprint, slots: seq<Slot>, i: nat, q: Slot, j: nat)
    requires j <= i < |slots|
    ensures Sum(f, slots[i := q], j) == Sum(f, slots, j) - (if Counted(slots[i]) then f(slots[i].pid) else 0)
                                        + (if Counted(q) then f(q.pid) else 0)
    decreases i - j
  {
    if j < i {
      SumWith(f, slots, i, q, j + 1);
    } else {
      SumSame(f, slots, slots[i := q], i + 1);
    }
  }

  /** After a call has begun, in any state: the controller's use and the reserve of every running query, the called one
      included, are within the total, on the last sample taken. If the query is new, so is all that the others use then plus
      its reserve. */
  lemma BegunWithRoom(k: Config, w: Queries, nd: Node, s: Step) returns (i: nat)
    requires s.BeginStep? && Enabled(nd, s) && Take1(k, w, nd, s).1.None?
    ensures var next := Take1(k, w, nd, s).0;
            && i in next.calls && i < |next.table.slots| && next.calls[i].client == s.client && next.calls - {i} == nd.calls - {i}
            && next.tick > 0 && RoomFor(k, next.table.slots, s.oracle, next.tick - 1, i, next.calls[i].resumed)
  {
    hide Enforce, Expire, Admit, FindMatch, Room;
    var e := Enforce(k, Expire(nd.table, s.clock, 0), s.oracle, nd.tick);
    var m := FindMatch(e.table.slots, s.req.offset, CacheKey.KeyFor(s.req.job), 0);
    var a := Admit(k, e.table, m, s.oracle, e.tick);
    AdmittedFits(k, e.table, m, s.oracle, e.tick);
    var admitted := nd.(table := a.table, tick := a.tick);
    if m >= 0 {
      i := m;
      ResumedWithRoom(k, admitted, m, s.client, s.req, s.wrote, s.oracle, a.tick - 1);
    } else {
      i := StartedWithRoom(k, admitted, s.client, s.req, s.started, s.oracle, a.tick - 1);
    }
  }

  predicate RoomFor(k: Config, slots: seq<Slot>, o: Oracle, t: nat, i: nat, resumed: bool)
    requires i < |slots|
  {
    && o(t, 0).Some?
    && o(t, 0).value + k.reserve * Running(slots) <= k.total
    && (!resumed ==> o(t, 0).value + Sum(Use(o, t), slots[i := FREE], 0) + k.reserve <= k.total)
  }

  lemma ResumedWithRoom(k: Config, nd: Node, m: nat, client: nat, req: Request, wrote: bool, o: Oracle, t: nat)
    requires m < |nd.table.slots| && Resume(nd, m, client, req, wrote).1.None?
    requires Room(k, nd.table.slots, o, t, Running(nd.table.slots), 0)
    ensures var next := Resume(nd, m, client, req, wrote).0;
            m in next.calls && next.calls - {m} == nd.calls - {m} && next.calls[m].resumed && RoomFor(k, next.table.slots, o, t, m, true)
  {
    SumSame(EACH, nd.table.slots, Resume(nd, m, client, req, wrote).0.table.slots, 0);
  }

  lemma MoreRunning(a: nat, m: nat, n: nat)
    requires m <= n
    ensures a * m <= a * n
  {
  }

  /** A new query takes one slot and leaves the others alone. */
  lemma StartedAt(nd: Node, client: nat, req: Request, started: bool) returns (i: nat)
    requires Start(nd, client, req, started).1.None?
    ensures var next := Start(nd, client, req, started).0;
            && i < |nd.table.slots| && next.table.slots == nd.table.slots[i := Spawned(nd, req)]
            && next.calls == nd.calls[i := Call(client, req, req.limit, false)]
  {
    var slots := nd.table.slots;
    var free := FirstFree(slots, 0);
    i := if free >= 0 then free else Oldest(slots, |slots|, -1);
  }

  lemma StartedWithRoom(k: Config, nd: Node, client: nat, req: Request, started: bool, o: Oracle, t: nat) returns (i: nat)
    requires Start(nd, client, req, started).1.None?
    requires Room(k, nd.table.slots, o, t, Running(nd.table.slots) + 1, k.reserve)
    ensures var next := Start(nd, client, req, started).0;
            && i < |next.table.slots| && i in next.calls && next.calls - {i} == nd.calls - {i} && !next.calls[i].resumed
            && next.calls[i].client == client && RoomFor(k, next.table.slots, o, t, i, false)
  {
    hide Start;
    i := StartedAt(nd, client, req, started);
    var slots, next := nd.table.slots, Start(nd, client, req, started).0.table.slots;
    SumWith(EACH, slots, i, Spawned(nd, req), 0);
    MoreRunning(k.reserve, Running(next), Running(slots) + 1);
    assert next[i := FREE] == slots[i := FREE];
    SumWith(Use(o, t), slots, i, FREE, 0);
  }
}
