/** Outstanding promises: what every run of the slot table keeps. */
module Transport {
  import opened Terms
  import opened TransportSteps

  function Initial(): State {
    State(seq(SLOTS, _ => CLEAR), FIRST_ID, Prolog, 0, [], [])
  }

  predicate IsRun(states: seq<State>, steps: seq<Step>) {
    && |states| == |steps| + 1 && states[0] == Initial()
    && forall i :: 0 <= i < |steps| ==> Follows(states, steps, i)
  }

  predicate Follows(states: seq<State>, steps: seq<Step>, i: nat) {
    i < |steps| && i + 1 < |states| && Enabled(states[i], steps[i]) && states[i + 1] == Take(states[i], steps[i])
  }

  /** In every interleaving of the owner with its network threads: live references are distinct and have ten digits,
      a slot's thread has ended exactly when its response is there, responses are handed over at most once, looked at or
      consumed, and every body handed to Prolog is NUL-free and at most 1 MiB. */
  lemma {:induction false} EveryRunIsSafe(states: seq<State>, steps: seq<Step>)
    requires IsRun(states, steps)
    ensures forall i :: 0 <= i < |states| ==> AllInv(states[i])
  {
    for i := 0 to |steps|
      invariant forall j :: 0 <= j <= i ==> AllInv(states[j])
    {
      assert Follows(states, steps, i);
      StepKeepsInv(states[i], steps[i]);
      StepConsumesOnce(states[i], steps[i]);
      StepHandsOnce(states[i], steps[i]);
      StepResultsOk(states[i], steps[i]);
    }
  }

  // ---------- the life of a request ----------

  /** Request `serial` stands in slot i. */
  predicate Stands(s: State, i: nat, serial: nat) {
    i < |s.slots| && s.slots[i].id != 0 && s.slots[i].serial == serial
  }

  lemma StepAt(states: seq<State>, steps: seq<Step>, t: nat)
    requires IsRun(states, steps) && t < |steps|
    ensures AllInv(states[t]) && AllInv(states[t + 1])
    ensures Enabled(states[t], steps[t]) && states[t + 1] == Take(states[t], steps[t])
  {
    EveryRunIsSafe(states, steps);
    assert Follows(states, steps, t);
  }

  lemma NothingEnded(i: nat)
    ensures i < |Initial().slots| ==> Initial().slots[i].id == 0
  {
  }

  /** A thread ends by finishing its transfer, or has ended before. */
  lemma EndedOrFinishes(s: State, t: Step, i: nat)
    requires AllInv(s) && Enabled(s, t) && i < |Take(s, t).slots|
    requires Take(s, t).slots[i].id != 0 && Take(s, t).slots[i].thread.Ended?
    ensures Stands(s, i, Take(s, t).slots[i].serial)
    ensures t == Finish(i, Take(s, t).slots[i].error) || (s.slots[i].thread.Ended? && s.slots[i].error == Take(s, t).slots[i].error)
  {
  }

  /** A thread that has ended has finished its transfer in this very request, with the outcome that stands in its slot. */
  lemma {:induction false} EndedHasFinished(states: seq<State>, steps: seq<Step>, t: nat, i: nat) returns (u: nat)
    requires IsRun(states, steps) && t < |states| && i < |states[t].slots|
    requires states[t].slots[i].id != 0 && states[t].slots[i].thread.Ended?
    ensures u < t && steps[u] == Finish(i, states[t].slots[i].error) && Stands(states[u], i, states[t].slots[i].serial)
    decreases t
  {
    hide Take, Enabled, AllInv;
    NothingEnded(i);
    assert t > 0;
    u := t - 1;
    StepAt(states, steps, u);
    EndedOrFinishes(states[u], steps[u], i);
    if steps[u] != Finish(i, states[t].slots[i].error) {
      u := EndedHasFinished(states, steps, t - 1, i);
    }
  }

  /** A slot is cleared only after the thread of its request has ended: between the start of a request and the clearing
      of its slot its transfer has been finished. */
  lemma ClearedAfterItsThread(states: seq<State>, steps: seq<Step>, t: nat, i: nat) returns (u: nat)
    requires IsRun(states, steps) && t < |steps| && i < |states[t].slots|
    requires states[t].slots[i].id != 0 && i < |states[t + 1].slots| && states[t + 1].slots[i].id == 0
    ensures u < t && steps[u].Finish? && steps[u].slot == i && Stands(states[u], i, states[t].slots[i].serial)
  {
    StepAt(states, steps, t);
    u := EndedHasFinished(states, steps, t, i);
  }

  /** The reference that a start returns is that of the new request: it finds its slot. */
  lemma StartedIsFound(s: State, id: nat)
    requires AllInv(s) && Enabled(s, Start(id, true))
    ensures var n := Take(s, Start(id, true));
            && n.results == s.results + [Started(id)] && n.started == s.started + 1
            && Lookup(n.slots, id, 0) >= 0 && Stands(n, Lookup(n.slots, id, 0), s.started)
            && !n.slots[Lookup(n.slots, id, 0)].done && n.slots[Lookup(n.slots, id, 0)].body == ""
  {
    var i, n := Lookup(s.slots, 0, 0), Take(s, Start(id, true));
    assert n.slots[i].id == id;
  }

  /** A response is handed over with the outcome of the request's own transfer: the error with which it ended, if it did, and
      otherwise what has arrived. */
  lemma DeliveredOutcome(states: seq<State>, steps: seq<Step>, t: nat) returns (u: nat)
    requires IsRun(states, steps) && t < |steps| && steps[t].Wake?
    ensures var s, r := states[t], states[t + 1].results;
            && Follows(states, steps, t) && u < t && steps[u].Finish? && steps[u].slot == s.owner.slot
            && Stands(states[u], s.owner.slot, s.slots[s.owner.slot].serial) && |r| == |s.results| + 1
            && r[|r| - 1] == Delivered(s.slots[s.owner.slot].serial, steps[u].error,
                                       if steps[u].error.Some? then "" else Arrived(states, steps, s.owner.slot, t))
  {
    StepAt(states, steps, t);
    DeliveredIsWhatArrived(states, steps, t);
    var s := states[t];
    WakesEnded(s);
    u := EndedHasFinished(states, steps, t, s.owner.slot);
  }

  lemma WakesEnded(s: State)
    requires AllInv(s) && Enabled(s, Wake)
    ensures s.slots[s.owner.slot].id != 0 && s.slots[s.owner.slot].thread.Ended?
  {
    assert SlotOk(s.slots[s.owner.slot], s.started);
  }

  /** The owner is done with request k: its slot is being cleared, or has been. */
  predicate Retired(s: State, k: nat) {
    k < s.started && forall i :: 0 <= i < |s.slots| && Stands(s, i, k) ==> s.owner == Joining(i)
  }

  /** The owner gives request k up in this step: by a wait that consumes the response, by yield/2 after it has looked at a
      response that matches or is an error, or by cancelling. */
  predicate Retires(s: State, t: Step, k: nat)
    requires Enabled(s, t)
  {
    match t
    case Wake => s.owner.consume && Stands(s, s.owner.slot, k)
    case Settle(verdict) => !verdict.Unmatched? && Stands(s, s.owner.slot, k)
    case Cancel(id) => Lookup(s.slots, id, 0) >= 0 && Stands(s, Lookup(s.slots, id, 0), k)
    case _ => false
  }

  /** The step hands the response of request k to Prolog. */
  predicate Delivers(s: State, t: Step, k: nat)
    requires Enabled(s, t)
  {
    t.Wake? && Stands(s, s.owner.slot, k)
  }

  lemma RetiredAfter(s: State, t: Step, k: nat)
    requires AllInv(s) && Enabled(s, t) && (Retired(s, k) || Retires(s, t, k))
    ensures Retired(Take(s, t), k)
  {
    var n := Take(s, t);
    if Retires(s, t, k) {
      var i := if t.Wake? || t.Settle? then s.owner.slot else Lookup(s.slots, t.id, 0);
      assert SlotOk(s.slots[i], s.started);
      forall j | 0 <= j < |n.slots| && Stands(n, j, k) ensures n.owner == Joining(j) {
        assert Stands(s, j, k);
      }
    } else {
      forall j | 0 <= j < |n.slots| && Stands(n, j, k) ensures n.owner == Joining(j) {
        assert Stands(s, j, k);
      }
    }
  }

  /** Once given up, by consuming or by cancelling, a request is never delivered again. */
  lemma {:induction false} RetiredForGood(states: seq<State>, steps: seq<Step>, t: nat, u: nat, k: nat)
    requires IsRun(states, steps) && t < u < |steps|
    requires Follows(states, steps, t) && Retires(states[t], steps[t], k)
    ensures Retired(states[u], k) && Follows(states, steps, u) && !Delivers(states[u], steps[u], k)
    decreases u
  {
    hide Take, Enabled, AllInv, Retired, Retires, Delivers;
    StepAt(states, steps, u);
    StepAt(states, steps, u - 1);
    if u - 1 > t {
      RetiredForGood(states, steps, t, u - 1, k);
    }
    RetiredAfter(states[u - 1], steps[u - 1], k);
    RetiredIsSilent(states[u], steps[u], k);
  }

  lemma RetiredIsSilent(s: State, t: Step, k: nat)
    requires Retired(s, k) && Enabled(s, t)
    ensures !Delivers(s, t, k)
  {
  }

  lemma {:induction false} HandedOverStays(states: seq<State>, steps: seq<Step>, t: nat, u: nat, k: nat)
    requires IsRun(states, steps) && t <= u <= |steps| && HandedOver(states[t].results, k)
    ensures HandedOver(states[u].results, k)
    decreases u
  {
    if t < u {
      HandedOverStays(states, steps, t, u - 1, k);
      StepAt(states, steps, u - 1);
      OneResult(states[u - 1], steps[u - 1]);
      var i :| 0 <= i < |states[u - 1].results| && states[u - 1].results[i].Delivered? && states[u - 1].results[i].serial == k;
      assert states[u].results[i] == states[u - 1].results[i];
    }
  }

  /** In every run, each response is handed to Prolog at most once, whether a wait consumes it or yield/2 looks at it. */
  lemma HandedOverOnce(states: seq<State>, steps: seq<Step>, t: nat, u: nat, k: nat)
    requires IsRun(states, steps) && t < u < |steps|
    requires Follows(states, steps, t) && Delivers(states[t], steps[t], k)
    ensures Follows(states, steps, u) && !Delivers(states[u], steps[u], k)
  {
    StepAt(states, steps, t);
    StepAt(states, steps, u);
    OneResult(states[t], steps[t]);
    var r := states[t + 1].results;
    assert r[|r| - 1].Delivered? && r[|r| - 1].serial == k;
    HandedOverStays(states, steps, t + 1, u, k);
    if Delivers(states[u], steps[u], k) {
      WakesLive(states[u]);
    }
  }

  predicate RetiresAt(states: seq<State>, steps: seq<Step>, x: nat, k: nat) {
    Follows(states, steps, x) && Retires(states[x], steps[x], k)
  }

  /** Between two steps nothing gives request k up. */
  predicate NotGivenUp(states: seq<State>, steps: seq<Step>, t: nat, u: nat, k: nat)
    requires IsRun(states, steps) && t <= u <= |steps|
  {
    forall x :: t <= x < u ==> !RetiresAt(states, steps, x, k)
  }

  lemma StandsStill(s: State, t: Step, i: nat, k: nat)
    requires AllInv(s) && Enabled(s, t) && Stands(s, i, k) && s.owner != Joining(i) && !Retires(s, t, k)
    ensures Stands(Take(s, t), i, k) && Take(s, t).slots[i].id == s.slots[i].id && Take(s, t).owner != Joining(i)
  {
  }

  lemma {:induction false} KeptUntilGivenUp(states: seq<State>, steps: seq<Step>, t: nat, u: nat, i: nat, k: nat)
    requires IsRun(states, steps) && t <= u <= |steps| && NotGivenUp(states, steps, t, u, k)
    requires Stands(states[t], i, k) && states[t].owner != Joining(i)
    ensures Stands(states[u], i, k) && states[u].slots[i].id == states[t].slots[i].id && states[u].owner != Joining(i)
    decreases u
  {
    if t < u {
      KeptUntilGivenUp(states, steps, t, u - 1, i, k);
      StepAt(states, steps, u - 1);
      assert !RetiresAt(states, steps, u - 1, k);
      StandsStill(states[u - 1], steps[u - 1], i, k);
    }
  }

  /** From the moment the owner waits until it wakes, it waits for the same slot. */
  lemma {:induction false} WaitsOn(states: seq<State>, steps: seq<Step>, t: nat, u: nat)
    requires IsRun(states, steps) && t <= u <= |steps| && states[t].owner.Waiting?
    requires forall x :: t <= x < u ==> !steps[x].Wake? && !steps[x].TimeOut?
    ensures states[u].owner == states[t].owner
    decreases u
  {
    if t < u {
      WaitsOn(states, steps, t, u - 1);
      StepAt(states, steps, u - 1);
    }
  }

  /** A wait that times out costs nothing: unless the request is cancelled or consumed in between, a later wait on its
      reference that ends with a response delivers the response of this request. */
  lemma TimedOutIsDeliveredLater(states: seq<State>, steps: seq<Step>, t: nat, u: nat, x: nat, k: nat)
    requires IsRun(states, steps) && t < u < x < |steps|
    requires steps[t].TimeOut? && states[t].owner.Waiting? && Stands(states[t], states[t].owner.slot, k)
    requires steps[u].WaitFor? && steps[u].id == states[t].slots[states[t].owner.slot].id
    requires steps[x].Wake? && forall y :: u < y < x ==> !steps[y].Wake? && !steps[y].TimeOut?
    requires NotGivenUp(states, steps, t, x, k)
    ensures Follows(states, steps, x) && Delivers(states[x], steps[x], k)
  {
    var i := states[t].owner.slot;
    KeptUntilGivenUp(states, steps, t, u, i, k);
    KeptUntilGivenUp(states, steps, t, x, i, k);
    StepAt(states, steps, u);
    StepAt(states, steps, x);
    assert Lookup(states[u].slots, steps[u].id, 0) == i;
    WaitsOn(states, steps, u + 1, x);
  }

  /** A wait that times out says so, and leaves the request as it is; if the response has come meanwhile, the wait goes on. */
  lemma TimeOutIsTold(states: seq<State>, steps: seq<Step>, t: nat, k: nat)
    requires IsRun(states, steps) && t < |steps| && steps[t].TimeOut?
    requires states[t].owner.Waiting? && Stands(states[t], states[t].owner.slot, k)
    ensures Follows(states, steps, t) && states[t + 1].slots == states[t].slots && states[t + 1].consumed == states[t].consumed
    ensures if states[t].slots[states[t].owner.slot].done then states[t + 1] == states[t]
            else states[t + 1].results == states[t].results + [TimedOut(k)] && states[t + 1].owner == Prolog
  {
    assert Follows(states, steps, t);
  }

  /** What has been received in slot i after a step, if `before` had been received before it. */
  function Received(s: State, t: Step, i: nat, before: string): string {
    match t
    case Start(_, spawned) => if spawned && Lookup(s.slots, 0, 0) == i then "" else before
    case Chunk(j, bytes) => if j == i then before + bytes else before
    case _ => before
  }

  /** What the network has sent for the request in slot i, up to step t of a run. */
  function Arrived(states: seq<State>, steps: seq<Step>, i: nat, t: nat): string
    requires IsRun(states, steps) && t <= |steps|
  {
    if t == 0 then "" else Received(states[t - 1], steps[t - 1], i, Arrived(states, steps, i, t - 1))
  }

  lemma BodyStep(s: State, t: Step, i: nat, before: string)
    requires Enabled(s, t) && i < |s.slots|
    requires s.slots[i].id != 0 && !s.slots[i].oversized ==> s.slots[i].body == before
    ensures |Take(s, t).slots| == |s.slots|
    ensures var q := Take(s, t).slots[i]; q.id != 0 && !q.oversized ==> q.body == Received(s, t, i, before)
  {
  }

  lemma {:induction false} BodyIsWhatArrived(states: seq<State>, steps: seq<Step>, i: nat, t: nat)
    requires IsRun(states, steps) && t <= |steps| && i < SLOTS
    ensures |states[t].slots| == SLOTS
    ensures var q := states[t].slots[i]; q.id != 0 && !q.oversized ==> q.body == Arrived(states, steps, i, t)
  {
    if t > 0 {
      BodyIsWhatArrived(states, steps, i, t - 1);
      assert Follows(states, steps, t - 1);
      hide Received, Take;
      BodyStep(states[t - 1], steps[t - 1], i, Arrived(states, steps, i, t - 1));
    }
  }

  /** What arrived is more than fits, or not a text. */
  predicate TooMuch(arrived: string) {
    |arrived| > BODY_MAX || !NulFree(arrived)
  }

  lemma OversizedStep(s: State, t: Step, i: nat, before: string)
    requires Enabled(s, t) && i < |s.slots| && Take(s, t).slots[i].id != 0
    requires s.slots[i].id != 0 ==> if s.slots[i].oversized then TooMuch(before) else s.slots[i].body == before && !TooMuch(before)
    ensures Take(s, t).slots[i].oversized <==> TooMuch(Received(s, t, i, before))
  {
    if t.Chunk? && t.slot == i {
      var q := s.slots[i];
      var all := q.body + t.bytes;
      if Receive(q, t.bytes).oversized && !NulFree(t.bytes) {
        var j :| 0 <= j < |t.bytes| && t.bytes[j] == '\0';
        assert all[|q.body| + j] == '\0';
      }
    }
  }

  /** Over a run: a transfer is stopped exactly if what has arrived for its request has a NUL or more than 1 MiB. */
  lemma {:induction false} StoppedExactly(states: seq<State>, steps: seq<Step>, i: nat, t: nat)
    requires IsRun(states, steps) && t <= |steps| && i < SLOTS
    ensures |states[t].slots| == SLOTS
    ensures states[t].slots[i].id != 0 ==> (states[t].slots[i].oversized <==> TooMuch(Arrived(states, steps, i, t)))
  {
    BodyIsWhatArrived(states, steps, i, t);
    if t > 0 {
      var s := states[t - 1];
      StoppedExactly(states, steps, i, t - 1);
      BodyIsWhatArrived(states, steps, i, t - 1);
      assert Follows(states, steps, t - 1);
      hide Received, Take, TooMuch;
      if states[t].slots[i].id != 0 {
        OversizedStep(s, steps[t - 1], i, Arrived(states, steps, i, t - 1));
      }
    }
  }

  /** A response handed over without an error is exactly what the network sent for that request, in order. */
  lemma DeliveredIsWhatArrived(states: seq<State>, steps: seq<Step>, t: nat)
    requires IsRun(states, steps) && t < |steps| && steps[t].Wake?
    ensures var s, r := states[t], states[t + 1].results;
            && Follows(states, steps, t) && |r| == |s.results| + 1
            && var q := s.slots[s.owner.slot];
            r[|r| - 1] == Delivered(q.serial, q.error, if q.error.Some? then "" else Arrived(states, steps, s.owner.slot, t))
  {
    EveryRunIsSafe(states, steps);
    var s := states[t];
    assert Follows(states, steps, t) && AllInv(s);
    assert SlotOk(s.slots[s.owner.slot], s.started);
    BodyIsWhatArrived(states, steps, s.owner.slot, t);
  }

  // ---------- the slot table in memory ----------

  class Pool {
    const requests: array<Slot>
    var nextId: nat
    var owner: Owner
    var started: nat
    var results: seq<TransportSteps.Result>
    var consumed: seq<nat>

    function Now(): State
      reads this, requests
    {
      State(requests[..], nextId, owner, started, results, consumed)
    }

    constructor ()
      ensures Now() == Initial() && fresh(requests)
    {
      requests := new Slot[SLOTS](_ => CLEAR);
      nextId, owner, started, results, consumed := FIRST_ID, Prolog, 0, [], [];
    }

    method Find(id: nat) returns (found: int)
      ensures found == Lookup(requests[..], id, 0)
    {
      var i := 0;
      while i < requests.Length
        invariant i <= requests.Length
        invariant Lookup(requests[..], id, i) == Lookup(requests[..], id, 0)
      {
        if requests[i].id == id {
          return i;
        }
        i := i + 1;
      }
      found := -1;
    }

    /** The search for an unused reference ends: every rejected candidate is in use, candidates do not repeat within
        one search, and there are only SLOTS slots. */
    method PickId() returns (id: nat)
      requires Inv(Now())
      modifies `nextId
      ensures FreshId(old(Now()), id) && nextId == id + 1 && FIRST_ID <= nextId <= LAST_ID + 1
    {
      ghost var tried: set<nat> := {};
      ghost var k: nat := 0;
      ghost var from := nextId;
      UntriedBound(requests[..]);
      while true
        invariant FIRST_ID <= nextId <= LAST_ID + 1
        invariant k + Untried(requests[..], tried) <= SLOTS
        invariant forall c :: c in tried ==> exists j: nat :: j < k && c == Candidate(from, j)
        invariant (if nextId > LAST_ID then FIRST_ID else nextId) == Candidate(from, k)
        decreases Untried(requests[..], tried)
      {
        if nextId > LAST_ID {
          nextId := FIRST_ID;
        }
        id := nextId;
        nextId := nextId + 1;
        var found := Find(id);
        if found < 0 {
          return;
        }
        assert requests[..][found].id == id;
        if id in tried {
          var j: nat :| j < k && id == Candidate(from, j);
          CandidatesDiffer(from, j, k);
          assert false;
        }
        UntriedShrinks(requests[..], tried, id);
        tried := tried + {id};
        assert forall c :: c in tried ==> exists j: nat :: j < k + 1 && c == Candidate(from, j);
        k := k + 1;
      }
    }

    /** `iso_net_start`, once the request has passed the outbound checks. */
    method NetStart(spawned: bool)
      requires Inv(Now()) && owner.Prolog?
      modifies this, requests
      ensures Lookup(old(requests[..]), 0, 0) < 0 ==> Now() == old(Now()).(results := old(results) + [NotStarted("promise_limit_exceeded")])
      ensures Lookup(old(requests[..]), 0, 0) >= 0 ==>
                exists id :: Enabled(old(Now()), Start(id, spawned)) && Now() == Take(old(Now()), Start(id, spawned))
    {
      var i := Find(0);
      if i < 0 {
        results := results + [NotStarted("promise_limit_exceeded")];
        return;
      }
      ghost var before := Now();
      var id := PickId();
      if spawned {
        requests[i] := CLEAR.(id := id, serial := started, thread := Running);
        assert requests[..] == before.slots[i := CLEAR.(id := id, serial := before.started, thread := Running)];
        started := started + 1;
        results := results + [Started(id)];
      } else {
        results := results + [NotStarted("transport_initialization_failed")];
      }
      assert Enabled(before, Start(id, spawned)) && Now() == Take(before, Start(id, spawned));
    }

    /** A network thread receives bytes. */
    method ReceiveBody(i: nat, chunk: string)
      requires Enabled(Now(), Chunk(i, chunk))
      modifies requests
      ensures Now() == Take(old(Now()), Chunk(i, chunk))
    {
      var q := requests[i];
      if |chunk| > BODY_MAX - |q.body| || !NulFree(chunk) {
        requests[i] := q.(oversized := true);
      } else {
        requests[i] := q.(body := q.body + chunk);
      }
      assert requests[..] == old(requests[..])[i := requests[i]];
    }

    /** A network thread publishes its outcome and ends. */
    method Complete(i: nat, error: Option<string>)
      requires Enabled(Now(), Finish(i, error))
      modifies requests
      ensures Now() == Take(old(Now()), Finish(i, error))
    {
      requests[i] := requests[i].(error := error, done := true, thread := Ended);
      assert requests[..] == old(requests[..])[i := requests[i]];
    }

    /** The owner wakes up with a finished response. */
    method Deliver()
      requires Enabled(Now(), Wake)
      modifies this, requests
      ensures Now() == Take(old(Now()), Wake)
    {
      var i := owner.slot;
      var q := requests[i];
      results := results + [Delivered(q.serial, q.error, if q.error.Some? then "" else q.body)];
      if owner.consume {
        consumed := consumed + [q.serial];
        requests[i] := q.(cancel := true);
        assert requests[..] == old(requests[..])[i := q.(cancel := true)];
        owner := Joining(i);
      } else {
        owner := Peeked(i);
      }
    }

    /** The end of yield/2: a response that matches is consumed, an error is raised, and on any other the owner blocks. */
    method SettlePeek(verdict: Verdict)
      requires Enabled(Now(), Settle(verdict))
      modifies this, requests
      ensures Now() == Take(old(Now()), Settle(verdict))
    {
      var i := owner.slot;
      var q := requests[i];
      if verdict.Unmatched? {
        owner := Blocked(i);
        return;
      }
      if verdict.Matched? {
        consumed := consumed + [q.serial];
      }
      requests[i] := q.(cancel := true);
      assert requests[..] == old(requests[..])[i := q.(cancel := true)];
      owner := Joining(i);
    }

    /** The joined slot is cleared. */
    method ClearJoined()
      requires Enabled(Now(), Join)
      modifies this, requests
      ensures Now() == Take(old(Now()), Join)
    {
      var i := owner.slot;
      requests[i] := CLEAR;
      assert requests[..] == old(requests[..])[i := CLEAR];
      owner := Prolog;
    }
  }
}
