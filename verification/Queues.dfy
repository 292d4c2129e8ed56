/** The continuations of a slot table as a queue in the order in which they were cached, and what the parts of a controller
    operation do to it: expiry and shedding take entries out, and a kept continuation goes to the back. */
module Queues {
  import opened Registry
  import opened Footprints
  import opened Protocol

  /** A continuation: the slot it is kept in, what it continues, and when it expires. */
  datatype Entry = Entry(slot: nat, job: Job, offset: nat, expires: int)

  function EntryAt(slots: seq<Slot>, i: nat): Entry
    requires i < |slots|
  {
    Entry(i, slots[i].job, slots[i].offset, slots[i].expires)
  }

  /** The idle entries, the one cached first in front. */
  function Queue(slots: seq<Slot>): seq<Entry>
    decreases Sheddable(slots)
  {
    var v := Oldest(slots, |slots|, -1);
    if v < 0 then [] else
    OldestIs(slots, |slots|, -1);
    SheddableUpdate(slots, v, FREE);
    [EntryAt(slots, v)] + Queue(slots[v := FREE])
  }

  function Without(q: seq<Entry>, i: int): seq<Entry> {
    if q == [] then [] else (if q[0].slot == i then [] else [q[0]]) + Without(q[1..], i)
  }

  /** Drops the first d entries, passing over the one in slot `kept`. */
  function Drop(q: seq<Entry>, d: nat, kept: int): seq<Entry>
    decreases |q|
  {
    if d == 0 || q == [] then q
    else if q[0].slot == kept then [q[0]] + Drop(q[1..], d, kept)
    else Drop(q[1..], d - 1, kept)
  }

  /** The entries that have time left on the given clock readings. */
  function Unexpired(q: seq<Entry>, clock: nat -> int): seq<Entry> {
    if q == [] then []
    else (if q[0].expires <= clock(q[0].slot) then [] else [q[0]]) + Unexpired(q[1..], clock)
  }

  // ---------- the queue of a table ----------

  /** The two tables have the same continuations. */
  predicate SameIdle(a: seq<Slot>, b: seq<Slot>) {
    |a| == |b| && forall i :: 0 <= i < |a| ==> SameEntry(a[i], b[i])
  }

  predicate SameEntry(a: Slot, b: Slot) {
    Idle(a) == Idle(b) && (Idle(a) ==> a.order == b.order && a.job == b.job && a.offset == b.offset && a.expires == b.expires)
  }

  lemma {:induction false} OldestSame(a: seq<Slot>, b: seq<Slot>, n: nat, kept: int)
    requires SameIdle(a, b) && n <= |a|
    ensures Oldest(a, n, kept) == Oldest(b, n, kept)
  {
    OldestIs(a, n, kept);
    if n > 0 {
      OldestSame(a, b, n - 1, kept);
      OldestIs(a, n - 1, kept);
      assert SameEntry(a[n - 1], b[n - 1]);
      if Oldest(a, n - 1, kept) >= 0 {
        assert SameEntry(a[Oldest(a, n - 1, kept)], b[Oldest(a, n - 1, kept)]);
      }
    }
  }

  lemma {:induction false} QueueSame(a: seq<Slot>, b: seq<Slot>)
    requires SameIdle(a, b)
    ensures Queue(a) == Queue(b)
    decreases Sheddable(a)
  {
    OldestSame(a, b, |a|, -1);
    var v := Oldest(a, |a|, -1);
    if v >= 0 {
      OldestIs(a, |a|, -1);
      SheddableUpdate(a, v, FREE);
      assert SameEntry(a[v], b[v]);
      QueueSame(a[v := FREE], b[v := FREE]);
    }
  }

  lemma {:induction false} QueueMembers(slots: seq<Slot>)
    ensures forall e :: e in Queue(slots) ==> e.slot < |slots| && Idle(slots[e.slot]) && e == EntryAt(slots, e.slot)
    decreases Sheddable(slots)
  {
    var v := Oldest(slots, |slots|, -1);
    if v >= 0 {
      OldestIs(slots, |slots|, -1);
      SheddableUpdate(slots, v, FREE);
      QueueMembers(slots[v := FREE]);
    }
  }

  lemma {:induction false} WithoutAbsent(q: seq<Entry>, i: int)
    requires forall e :: e in q ==> e.slot != i
    ensures Without(q, i) == q
  {
    if q != [] {
      WithoutAbsent(q[1..], i);
    }
  }

  lemma DistinctWithout(slots: seq<Slot>, i: nat, x: Slot)
    requires DistinctOrders(slots) && i < |slots| && !Idle(x)
    ensures DistinctOrders(slots[i := x])
  {
  }

  /** The front is the same in two tables if it is idle in both and oldest in the larger one. */
  lemma FrontStays(slots: seq<Slot>, other: seq<Slot>, v: nat)
    requires DistinctOrders(other) && |other| == |slots| && v < |slots| && Idle(other[v])
    requires forall j :: 0 <= j < |other| && j != v && Idle(other[j]) ==> other[v].order < other[j].order
    ensures Oldest(other, |other|, -1) == v
  {
    OldestIs(other, |other|, -1);
  }

  lemma OldestStrictly(slots: seq<Slot>)
    requires DistinctOrders(slots)
    ensures var v := Oldest(slots, |slots|, -1);
            if v < 0 then forall j :: 0 <= j < |slots| ==> !Idle(slots[j])
            else Idle(slots[v]) && forall j :: 0 <= j < |slots| && j != v && Idle(slots[j]) ==> slots[v].order < slots[j].order
  {
    var v := Oldest(slots, |slots|, -1);
    OldestIs(slots, |slots|, -1);
    if v >= 0 {
      forall j | 0 <= j < |slots| && j != v && Idle(slots[j]) ensures slots[v].order < slots[j].order {
        assert slots[v].order != slots[j].order;
      }
    }
  }

  lemma NoneIdle(slots: seq<Slot>)
    requires forall j :: 0 <= j < |slots| ==> !Idle(slots[j])
    ensures Queue(slots) == []
  {
    OldestIs(slots, |slots|, -1);
  }

  lemma QueueIs(slots: seq<Slot>, v: nat)
    requires Oldest(slots, |slots|, -1) == v
    ensures Queue(slots) == [EntryAt(slots, v)] + Queue(slots[v := FREE])
    ensures Sheddable(slots[v := FREE]) < Sheddable(slots)
  {
    OldestIs(slots, |slots|, -1);
    SheddableUpdate(slots, v, FREE);
  }

  lemma WithoutCons(e: Entry, q: seq<Entry>, i: int)
    ensures Without([e] + q, i) == (if e.slot == i then [] else [e]) + Without(q, i)
  {
    assert ([e] + q)[1..] == q;
  }

  lemma RemoveFront(slots: seq<Slot>, v: nat, x: Slot)
    requires Oldest(slots, |slots|, -1) == v && !Idle(x)
    ensures Queue(slots[v := x]) == Without(Queue(slots), v)
  {
    var rest := slots[v := FREE];
    QueueIs(slots, v);
    QueueMembers(rest);
    WithoutAbsent(Queue(rest), v);
    WithoutCons(EntryAt(slots, v), Queue(rest), v);
    assert [] + Queue(rest) == Queue(rest);
    QueueSame(slots[v := x], rest);
  }

  /** A slot that stops being idle leaves the queue. */
  lemma {:induction false} QueueRemove(slots: seq<Slot>, m: nat, x: Slot)
    requires DistinctOrders(slots) && m < |slots| && !Idle(x)
    ensures Queue(slots[m := x]) == Without(Queue(slots), m)
    decreases Sheddable(slots)
  {
    var v := Oldest(slots, |slots|, -1);
    OldestStrictly(slots);
    if v < 0 {
      NoneIdle(slots[m := x]);
    } else if v == m {
      RemoveFront(slots, v, x);
    } else {
      QueueIs(slots, v);
      DistinctWithout(slots, v, FREE);
      QueueRemove(slots[v := FREE], m, x);
      RemoveLater(slots, v, m, x);
    }
  }

  lemma RemoveLater(slots: seq<Slot>, v: nat, m: nat, x: Slot)
    requires DistinctOrders(slots) && m < |slots| && !Idle(x) && Oldest(slots, |slots|, -1) == v && v != m
    requires Queue(slots[v := FREE][m := x]) == Without(Queue(slots[v := FREE]), m)
    ensures Queue(slots[m := x]) == Without(Queue(slots), m)
  {
    OldestStrictly(slots);
    DistinctWithout(slots, m, x);
    FrontStays(slots, slots[m := x], v);
    QueueIs(slots, v);
    QueueIs(slots[m := x], v);
    WithoutCons(EntryAt(slots, v), Queue(slots[v := FREE]), m);
    assert slots[m := x][v := FREE] == slots[v := FREE][m := x];
  }

  /** A slot that becomes idle with the highest position goes to the back. */
  lemma {:induction false} QueueAppend(slots: seq<Slot>, i: nat, x: Slot)
    requires DistinctOrders(slots) && i < |slots| && !Idle(slots[i]) && Idle(x)
    requires forall j :: 0 <= j < |slots| && Idle(slots[j]) ==> slots[j].order < x.order
    ensures Queue(slots[i := x]) == Queue(slots) + [EntryAt(slots[i := x], i)]
    decreases Sheddable(slots)
  {
    var v := Oldest(slots, |slots|, -1);
    OldestStrictly(slots);
    if v < 0 {
      AppendFirst(slots, i, x);
    } else {
      QueueIs(slots, v);
      DistinctWithout(slots, v, FREE);
      QueueAppend(slots[v := FREE], i, x);
      AppendLater(slots, v, i, x);
    }
  }

  lemma AppendFirst(slots: seq<Slot>, i: nat, x: Slot)
    requires i < |slots| && Idle(x) && forall j :: 0 <= j < |slots| ==> !Idle(slots[j])
    ensures Queue(slots[i := x]) == Queue(slots) + [EntryAt(slots[i := x], i)]
  {
    FrontStays(slots, slots[i := x], i);
    QueueIs(slots[i := x], i);
    NoneIdle(slots);
    NoneIdle(slots[i := x][i := FREE]);
  }

  lemma AppendLater(slots: seq<Slot>, v: nat, i: nat, x: Slot)
    requires DistinctOrders(slots) && i < |slots| && !Idle(slots[i]) && Idle(x) && Oldest(slots, |slots|, -1) == v
    requires forall j :: 0 <= j < |slots| && Idle(slots[j]) ==> slots[j].order < x.order
    requires Queue(slots[v := FREE][i := x]) == Queue(slots[v := FREE]) + [EntryAt(slots[i := x], i)]
    ensures Queue(slots[i := x]) == Queue(slots) + [EntryAt(slots[i := x], i)]
  {
    hide Oldest, Queue, DistinctOrders;
    OldestStrictly(slots);
    DistinctAppend(slots, i, x);
    FrontStays(slots, slots[i := x], v);
    QueueIs(slots, v);
    QueueIs(slots[i := x], v);
    assert slots[i := x][v := FREE] == slots[v := FREE][i := x];
  }

  lemma DistinctAppend(slots: seq<Slot>, i: nat, x: Slot)
    requires DistinctOrders(slots) && i < |slots|
    requires forall j :: 0 <= j < |slots| && Idle(slots[j]) ==> slots[j].order < x.order
    ensures DistinctOrders(slots[i := x])
  {
  }

  // ---------- expiry ----------

  /** Expiry as it goes over the slots from i on. */
  function UnexpiredFrom(q: seq<Entry>, clock: nat -> int, i: nat): seq<Entry> {
    if q == [] then []
    else (if q[0].slot >= i && q[0].expires <= clock(q[0].slot) then [] else [q[0]]) + UnexpiredFrom(q[1..], clock, i)
  }

  lemma {:induction false} UnexpiredFromStart(q: seq<Entry>, clock: nat -> int)
    ensures UnexpiredFrom(q, clock, 0) == Unexpired(q, clock)
  {
    if q != [] {
      UnexpiredFromStart(q[1..], clock);
    }
  }

  lemma {:induction false} UnexpiredPast(q: seq<Entry>, clock: nat -> int, i: nat)
    requires forall e :: e in q ==> e.slot < i
    ensures UnexpiredFrom(q, clock, i) == q
  {
    if q != [] {
      UnexpiredPast(q[1..], clock, i);
    }
  }

  /** Going one slot further takes out the entry of that slot if its time has come. */
  lemma {:induction false} UnexpiredStep(q: seq<Entry>, clock: nat -> int, i: nat, gone: bool)
    requires forall e :: e in q && e.slot == i ==> (e.expires <= clock(i)) == gone
    ensures UnexpiredFrom(q, clock, i) == UnexpiredFrom(if gone then Without(q, i) else q, clock, i + 1)
  {
    if q != [] {
      UnexpiredStep(q[1..], clock, i, gone);
      if gone && q[0].slot != i {
        var rest := Without(q[1..], i);
        assert Without(q, i) == [q[0]] + rest && ([q[0]] + rest)[1..] == rest;
      } else if gone {
        assert Without(q, i) == Without(q[1..], i);
      }
    }
  }

  lemma {:induction false} ExpireQueue(tb: Table, clock: nat -> int, i: nat)
    requires DistinctOrders(tb.slots) && i <= |tb.slots|
    ensures Queue(Expire(tb, clock, i).slots) == UnexpiredFrom(Queue(tb.slots), clock, i)
    ensures DistinctOrders(Expire(tb, clock, i).slots)
    decreases |tb.slots| - i
  {
    QueueMembers(tb.slots);
    if i == |tb.slots| {
      UnexpiredPast(Queue(tb.slots), clock, i);
    } else {
      var q := tb.slots[i];
      var gone := Idle(q) && q.expires <= clock(i);
      UnexpiredStep(Queue(tb.slots), clock, i, gone);
      if gone {
        QueueRemove(tb.slots, i, FREE);
        DistinctWithout(tb.slots, i, FREE);
        ExpireQueue(Release(tb, i), clock, i + 1);
      } else {
        ExpireQueue(tb, clock, i + 1);
      }
    }
  }

  // ---------- shedding ----------

  lemma SampleSameIdle(c: Config, slots: seq<Slot>, o: Oracle, t: nat)
    ensures SameIdle(slots, Sample(c, slots, o, t).slots)
    ensures DistinctOrders(slots) ==> DistinctOrders(Sample(c, slots, o, t).slots)
  {
    SampleShape(c, slots, o, t);
    var r := Sample(c, slots, o, t).slots;
    forall i | 0 <= i < |slots| ensures SameEntry(slots[i], r[i]) {
      assert slots[i].(memory := 0) == r[i].(memory := 0);
    }
    if DistinctOrders(slots) {
      forall i, j | 0 <= i < j < |r| && Idle(r[i]) && Idle(r[j]) ensures r[i].order != r[j].order {
        assert SameEntry(slots[i], r[i]) && SameEntry(slots[j], r[j]);
      }
    }
  }

  lemma {:induction false} StopAllIdle(tb: Table, i: nat)
    requires i <= |tb.slots| && forall j :: 0 <= j < i ==> !Idle(tb.slots[j])
    ensures forall j :: 0 <= j < |tb.slots| ==> !Idle(StopAll(tb, i).slots[j])
    decreases |tb.slots| - i
  {
    if i < |tb.slots| {
      StopAllIdle(if tb.slots[i].pid == 0 then tb else if tb.slots[i].busy then Abort(tb, i, MONITOR_FAILED) else Release(tb, i), i + 1);
    }
  }

  lemma FrontOfQueue(slots: seq<Slot>)
    requires DistinctOrders(slots)
    ensures var v := Oldest(slots, |slots|, -1);
            && (v >= 0 <==> Queue(slots) != [])
            && (v >= 0 ==> Queue(slots)[0].slot == v && Queue(slots[v := FREE]) == Queue(slots)[1..] && DistinctOrders(slots[v := FREE]))
  {
    OldestIs(slots, |slots|, -1);
  }

  lemma DropsJoin(q: seq<Entry>, d: nat)
    requires q != [] && d <= |q[1..]|
    ensures q[1..][d..] == q[d + 1..]
  {
  }

  /** Enforcement takes entries off the front. */
  lemma {:induction false} EnforceQueue(c: Config, tb: Table, o: Oracle, t: nat) returns (d: nat)
    requires DistinctOrders(tb.slots)
    ensures d <= |Queue(tb.slots)| && Queue(Enforce(c, tb, o, t).table.slots) == Queue(tb.slots)[d..]
    ensures DistinctOrders(Enforce(c, tb, o, t).table.slots)
    decreases Sheddable(tb.slots)
  {
    var s := Sample(c, tb.slots, o, t);
    var now := tb.(slots := s.slots);
    var q := Queue(tb.slots);
    EnforceUnfolds(c, tb, o, t);
    SampleSameIdle(c, tb.slots, o, t);
    QueueSame(tb.slots, s.slots);
    d := 0;
    if !s.ok {
      StopAllIdle(now, 0);
      NoneIdle(StopAll(now, 0).slots);
      d := |q|;
    } else if s.actual > c.total {
      FrontOfQueue(s.slots);
      var v, l := Oldest(s.slots, |s.slots|, -1), Largest(s.slots, |s.slots|);
      OldestIs(s.slots, |s.slots|, -1);
      LargestIs(s.slots, |s.slots|);
      if v >= 0 {
        d := EnforceQueue(c, Release(now, v), o, t + 1);
        DropsJoin(q, d);
        d := d + 1;
      } else if l >= 0 {
        KillKeepsQueue(now, l);
        d := EnforceQueue(c, Abort(now, l, TOTAL_EXCEEDED), o, t + 1);
      }
    }
  }

  lemma KillKeepsQueue(tb: Table, l: nat)
    requires l < |tb.slots| && Active(tb.slots[l]) && DistinctOrders(tb.slots)
    ensures Queue(Abort(tb, l, TOTAL_EXCEEDED).slots) == Queue(tb.slots) && DistinctOrders(Abort(tb, l, TOTAL_EXCEEDED).slots)
  {
    QueueSame(tb.slots, Abort(tb, l, TOTAL_EXCEEDED).slots);
  }

  // ---------- admission ----------

  /** The victim of an admission that protects a slot is the first other entry. */
  lemma {:induction false} OldestKept(slots: seq<Slot>, n: nat, m: nat)
    requires n <= |slots| && m < |slots|
    ensures Oldest(slots, n, m) == Oldest(slots[m := FREE], n, -1)
  {
    if n > 0 {
      OldestKept(slots, n - 1, m);
      OldestIs(slots, n - 1, m);
    }
  }

  lemma {:induction false} OldestOutside(slots: seq<Slot>, n: nat, kept: int)
    requires n <= |slots| && !(0 <= kept < |slots|)
    ensures Oldest(slots, n, kept) == Oldest(slots, n, -1)
  {
    if n > 0 {
      OldestOutside(slots, n - 1, kept);
    }
  }

  lemma {:induction false} DropOne(q: seq<Entry>, v: nat, kept: int)
    requires v != kept && Without(q, kept) != [] && Without(q, kept)[0].slot == v
    requires forall i, j :: 0 <= i < j < |q| ==> q[i].slot != q[j].slot
    ensures Without(q, v) == Drop(q, 1, kept)
  {
    if q[0].slot == kept {
      assert forall i, j :: 0 <= i < j < |q[1..]| ==> q[1..][i] == q[i + 1] && q[1..][j] == q[j + 1];
      DropOne(q[1..], v, kept);
    } else {
      forall e | e in q[1..] ensures e.slot != v {
        var j :| 0 <= j < |q[1..]| && q[1..][j] == e;
        assert q[j + 1] == e;
      }
      WithoutAbsent(q[1..], v);
    }
  }

  lemma {:induction false} DropMore(q: seq<Entry>, d: nat, kept: int)
    ensures Drop(Drop(q, 1, kept), d, kept) == Drop(q, d + 1, kept)
    decreases |q|
  {
    if q != [] && q[0].slot == kept {
      DropMore(q[1..], d, kept);
      var rest := Drop(q[1..], 1, kept);
      assert ([q[0]] + rest)[1..] == rest;
      if d == 0 {
        assert Drop(rest, 0, kept) == rest;
      }
    }
  }

  lemma {:induction false} QueueDistinct(slots: seq<Slot>)
    ensures forall i, j :: 0 <= i < j < |Queue(slots)| ==> Queue(slots)[i].slot != Queue(slots)[j].slot
    decreases Sheddable(slots)
  {
    hide Oldest;
    var v := Oldest(slots, |slots|, -1);
    if v >= 0 {
      OldestIs(slots, |slots|, -1);
      SheddableUpdate(slots, v, FREE);
      var rest := slots[v := FREE];
      QueueDistinct(rest);
      QueueMembers(rest);
      DistinctFront(EntryAt(slots, v), Queue(rest));
    }
  }

  lemma DistinctFront(first: Entry, rest: seq<Entry>)
    requires forall i, j :: 0 <= i < j < |rest| ==> rest[i].slot != rest[j].slot
    requires forall e :: e in rest ==> e.slot != first.slot
    ensures var q := [first] + rest; forall i, j :: 0 <= i < j < |q| ==> q[i].slot != q[j].slot
  {
    var q := [first] + rest;
    forall i, j | 0 <= i < j < |q| ensures q[i].slot != q[j].slot {
      assert q[j] == rest[j - 1] && rest[j - 1] in rest;
    }
  }

  lemma VictimIsFirst(slots: seq<Slot>, kept: int)
    requires DistinctOrders(slots)
    ensures var v := Oldest(slots, |slots|, kept);
            v >= 0 ==> Idle(slots[v]) && v != kept && Without(Queue(slots), kept) != [] && Without(Queue(slots), kept)[0].slot == v
  {
    OldestIs(slots, |slots|, kept);
    if 0 <= kept < |slots| {
      OldestKept(slots, |slots|, kept);
      QueueRemove(slots, kept, FREE);
      DistinctWithout(slots, kept, FREE);
      FrontOfQueue(slots[kept := FREE]);
    } else {
      OldestOutside(slots, |slots|, kept);
      QueueMembers(slots);
      WithoutAbsent(Queue(slots), kept);
      FrontOfQueue(slots);
    }
  }

  /** Admission takes entries off the front, passing over the one that is to be resumed. */
  lemma {:induction false} AdmitQueue(c: Config, tb: Table, resume: int, o: Oracle, t: nat) returns (d: nat)
    requires DistinctOrders(tb.slots)
    ensures Queue(Admit(c, tb, resume, o, t).table.slots) == Drop(Queue(tb.slots), d, resume)
    ensures DistinctOrders(Admit(c, tb, resume, o, t).table.slots)
    decreases Sheddable(tb.slots)
  {
    var s := Sample(c, tb.slots, o, t);
    var r := AdmitRound(c, tb, resume, o, t);
    AdmitUnfolds(c, tb, resume, o, t);
    SampleSameIdle(c, tb.slots, o, t);
    QueueSame(tb.slots, s.slots);
    d := 0;
    if r.Again? {
      var v := Oldest(s.slots, |s.slots|, resume);
      VictimIsFirst(s.slots, resume);
      QueueDistinct(s.slots);
      DropOne(Queue(s.slots), v, resume);
      QueueRemove(s.slots, v, FREE);
      DistinctWithout(s.slots, v, FREE);
      d := AdmitQueue(c, r.table, resume, o, t + 1);
      DropMore(Queue(s.slots), d, resume);
      d := d + 1;
    }
  }
}
