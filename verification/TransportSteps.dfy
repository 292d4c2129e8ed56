/** One step of the promise table: the slots, each with one network thread, the owning Prolog thread, and what every step of
    either keeps. yield/2 is a step of its own for the owner: it looks at a response and then settles what becomes of it. */
module TransportSteps {
  import opened Terms

  const SLOTS: nat := 16
  const BODY_MAX: nat := 1_048_576
  const FIRST_ID: nat := 1_000_000_000
  const LAST_ID: nat := 9_999_999_999

  datatype Thread = NoThread | Running | Ended

  /** One slot. Free slots have id 0. `serial` numbers the requests of this worker. */
  datatype Slot = Slot(id: nat, serial: nat, thread: Thread, done: bool, cancel: bool, oversized: bool,
                       error: Option<string>, body: string)

  const CLEAR := Slot(0, 0, NoThread, false, false, false, None, "")

  /** The owner runs Prolog, waits for a response, or joins a thread before clearing its slot. In yield/2 it has looked at
      a response without consuming it, and settles what becomes of it before anything else; if the response does not match,
      it stays blocked. */
  datatype Owner = Prolog | Waiting(slot: nat, consume: bool) | Peeked(slot: nat) | Blocked(slot: nat) | Joining(slot: nat)

  /** What yield/2 finds: the response matches, it is an error, or it does not match. */
  datatype Verdict = Matched | Refused | Unmatched

  /** What a transport call returned: the status and the body that goes with `ok`. */
  datatype Result =
    | Started(id: nat)
    | NotStarted(status: string)
    | Missing
    | TimedOut(serial: nat)
    | Delivered(serial: nat, error: Option<string>, body: string)

  /** `results` lists what the transport calls returned; `consumed` lists the requests whose response was handed over for good, in order. */
  datatype State = State(slots: seq<Slot>, nextId: nat, owner: Owner, started: nat, results: seq<Result>, consumed: seq<nat>)

  /** `lookup`: the slot of a reference. */
  function Lookup(slots: seq<Slot>, id: nat, i: nat): (r: int)
    requires i <= |slots|
    ensures -1 <= r < |slots|
    ensures r >= 0 ==> i <= r && slots[r].id == id
    ensures r == -1 ==> forall j :: i <= j < |slots| ==> slots[j].id != id
    decreases |slots| - i
  {
    if i == |slots| then -1 else if slots[i].id == id then i else Lookup(slots, id, i + 1)
  }

  /** The id that follows in the cyclic numbering, k ids after `next`. */
  function Candidate(next: nat, k: nat): nat
    requires FIRST_ID <= next <= LAST_ID + 1 && k <= SLOTS
  {
    var n := if next > LAST_ID then FIRST_ID else next;
    if n + k > LAST_ID then n + k - (LAST_ID + 1 - FIRST_ID) else n + k
  }

  lemma CandidatesDiffer(next: nat, j: nat, k: nat)
    requires FIRST_ID <= next <= LAST_ID + 1 && j < k <= SLOTS
    ensures Candidate(next, j) != Candidate(next, k)
    ensures FIRST_ID <= Candidate(next, k) <= LAST_ID
  {
  }

  /** Slots whose id has not been tried yet: the measure of the id search. */
  function Untried(slots: seq<Slot>, tried: set<nat>): nat {
    if slots == [] then 0 else (if slots[0].id in tried then 0 else 1) + Untried(slots[1..], tried)
  }

  lemma {:induction false} UntriedShrinks(slots: seq<Slot>, tried: set<nat>, c: nat)
    ensures Untried(slots, tried + {c}) <= Untried(slots, tried)
    ensures c !in tried && (exists i :: 0 <= i < |slots| && slots[i].id == c) ==> Untried(slots, tried + {c}) < Untried(slots, tried)
  {
    if slots != [] {
      UntriedShrinks(slots[1..], tried, c);
      if exists i :: 0 <= i < |slots| && slots[i].id == c {
        var i :| 0 <= i < |slots| && slots[i].id == c;
        assert i > 0 ==> slots[1..][i - 1].id == c;
      }
    }
  }

  lemma {:induction false} UntriedBound(slots: seq<Slot>)
    ensures Untried(slots, {}) == |slots|
  {
    if slots != [] {
      UntriedBound(slots[1..]);
    }
  }

  // ---------- steps ----------

  predicate NulFree(s: string) {
    forall i :: 0 <= i < |s| ==> s[i] != '\0'
  }

  /** `receive_body`: a chunk is kept whole or the transfer is stopped. */
  function Receive(q: Slot, chunk: string): Slot {
    if |chunk| > BODY_MAX - |q.body| || !NulFree(chunk) then q.(oversized := true) else q.(body := q.body + chunk)
  }

  datatype Step =
    | Start(id: nat, spawned: bool)
    | Reject(status: string)
    | Chunk(slot: nat, bytes: string)
    | Finish(slot: nat, error: Option<string>)
    | WaitFor(id: nat, consume: bool)
    | Wake
    | TimeOut
    | Settle(verdict: Verdict)
    | Cancel(id: nat)
    | Join

  /** Ids that the search for a new reference may end with: in range and not in use. */
  predicate FreshId(s: State, id: nat) {
    FIRST_ID <= id <= LAST_ID && forall j :: 0 <= j < |s.slots| ==> s.slots[j].id != id
  }

  predicate Enabled(s: State, t: Step) {
    match t
    case Start(id, _) => s.owner.Prolog? && Lookup(s.slots, 0, 0) >= 0 && FreshId(s, id)
    case Reject(_) => s.owner.Prolog?
    case Chunk(i, _) => i < |s.slots| && s.slots[i].thread.Running? && !s.slots[i].oversized
    case Finish(i, error) => i < |s.slots| && s.slots[i].thread.Running? && (s.slots[i].oversized ==> error.Some?)
    case WaitFor(id, _) => s.owner.Prolog? && id != 0
    case Wake => s.owner.Waiting? && s.owner.slot < |s.slots| && s.slots[s.owner.slot].done
    case TimeOut => s.owner.Waiting? && s.owner.consume && s.owner.slot < |s.slots|
    case Settle(_) => s.owner.Peeked? && s.owner.slot < |s.slots|
    case Cancel(id) => s.owner.Prolog? && id != 0
    case Join => s.owner.Joining? && s.owner.slot < |s.slots| && s.slots[s.owner.slot].thread.Ended?
  }

  function Take(s: State, t: Step): State
    requires Enabled(s, t)
  {
    match t
    case Start(id, spawned) =>
      var i := Lookup(s.slots, 0, 0);
      if spawned then
        s.(slots := s.slots[i := CLEAR.(id := id, serial := s.started, thread := Running)], nextId := id + 1,
           started := s.started + 1, results := s.results + [Started(id)])
      else s.(nextId := id + 1, results := s.results + [NotStarted("transport_initialization_failed")])
    case Reject(status) => s.(results := s.results + [NotStarted(status)])
    case Chunk(i, bytes) => s.(slots := s.slots[i := Receive(s.slots[i], bytes)])
    case Finish(i, error) => s.(slots := s.slots[i := s.slots[i].(error := error, done := true, thread := Ended)])
    case WaitFor(id, consume) =>
      var i := Lookup(s.slots, id, 0);
      if i < 0 then s.(results := s.results + [Missing]) else s.(owner := Waiting(i, consume))
    case Wake =>
      var i, q := s.owner.slot, s.slots[s.owner.slot];
      var r := Delivered(q.serial, q.error, if q.error.Some? then "" else q.body);
      var told := s.(results := s.results + [r]);
      if s.owner.consume then
        told.(slots := s.slots[i := q.(cancel := true)], owner := Joining(i), consumed := s.consumed + [q.serial])
      else told.(owner := Peeked(i))
    case Settle(verdict) =>
      var i, q := s.owner.slot, s.slots[s.owner.slot];
      if verdict.Unmatched? then s.(owner := Blocked(i))
      else s.(slots := s.slots[i := q.(cancel := true)], owner := Joining(i),
              consumed := s.consumed + if verdict.Matched? then [q.serial] else [])
    case TimeOut =>
      var q := s.slots[s.owner.slot];
      if q.done then s else s.(results := s.results + [TimedOut(q.serial)], owner := Prolog)
    case Cancel(id) =>
      var i := Lookup(s.slots, id, 0);
      if i < 0 then s else s.(slots := s.slots[i := s.slots[i].(cancel := true)], owner := Joining(i))
    case Join => s.(slots := s.slots[s.owner.slot := CLEAR], owner := Prolog)
  }

  // ---------- invariants ----------

  predicate SlotOk(q: Slot, started: nat) {
    if q.id == 0 then q == CLEAR
    else FIRST_ID <= q.id <= LAST_ID && q.serial < started && !q.thread.NoThread? && (q.done <==> q.thread.Ended?) &&
         |q.body| <= BODY_MAX && NulFree(q.body) && (q.error.None? && q.done ==> !q.oversized)
  }

  /** Live slots are well formed and have distinct references. */
  predicate SlotsOk(slots: seq<Slot>, started: nat) {
    && (forall i :: 0 <= i < |slots| ==> SlotOk(slots[i], started))
    && (forall i, j :: 0 <= i < j < |slots| && slots[i].id != 0 && slots[j].id != 0 ==>
          slots[i].id != slots[j].id && slots[i].serial != slots[j].serial)
  }

  lemma UpdateOk(slots: seq<Slot>, i: nat, q: Slot, before: nat, started: nat)
    requires SlotsOk(slots, before) && i < |slots| && before <= started && SlotOk(q, started)
    requires q.id == 0 || (q.id == slots[i].id && q.serial == slots[i].serial) ||
             (q.serial == before && forall j :: 0 <= j < |slots| ==> slots[j].id != q.id)
    ensures SlotsOk(slots[i := q], started)
  {
    var u := slots[i := q];
    forall j | 0 <= j < |slots| ensures SlotOk(u[j], started) {
      assert SlotOk(slots[j], before);
    }
  }

  predicate Inv(s: State) {
    && |s.slots| == SLOTS
    && SlotsOk(s.slots, s.started)
    && FIRST_ID <= s.nextId <= LAST_ID + 1
    && (!s.owner.Prolog? ==> s.owner.slot < |s.slots| && s.slots[s.owner.slot].id != 0)
  }

  /** Every response is consumed at most once, and a request whose slot is not being cleared has not been consumed. */
  predicate ConsumedOnce(s: State) {
    && (forall i, j :: 0 <= i < j < |s.consumed| ==> s.consumed[i] != s.consumed[j])
    && (forall i :: 0 <= i < |s.consumed| ==> s.consumed[i] < s.started)
    && (forall i :: 0 <= i < |s.slots| && s.slots[i].id != 0 && s.owner != Joining(i) ==> s.slots[i].serial !in s.consumed)
  }

  /** The owner is done with slot i, or is about to be. */
  predicate Settling(owner: Owner, i: nat) {
    owner == Peeked(i) || owner == Blocked(i) || owner == Joining(i)
  }

  predicate HandedOver(results: seq<Result>, serial: nat) {
    exists i :: 0 <= i < |results| && results[i].Delivered? && results[i].serial == serial
  }

  /** Every response has been handed to Prolog at most once. */
  predicate HandedOnce(s: State) {
    && (forall i, j :: 0 <= i < j < |s.results| && s.results[i].Delivered? && s.results[j].Delivered? ==>
          s.results[i].serial != s.results[j].serial)
    && (forall i :: 0 <= i < |s.results| && s.results[i].Delivered? ==> s.results[i].serial < s.started)
    && (forall i :: 0 <= i < |s.slots| && s.slots[i].id != 0 && !Settling(s.owner, i) ==> !HandedOver(s.results, s.slots[i].serial))
  }

  predicate ResultOk(r: Result) {
    match r
    case Started(id) => FIRST_ID <= id <= LAST_ID
    case Delivered(_, _, body) => |body| <= BODY_MAX && NulFree(body)
    case _ => true
  }

  predicate ResultsOk(s: State) {
    forall i :: 0 <= i < |s.results| ==> ResultOk(s.results[i])
  }

  predicate AllInv(s: State) {
    Inv(s) && ConsumedOnce(s) && HandedOnce(s) && ResultsOk(s)
  }

  lemma StepKeepsInv(s: State, t: Step)
    requires Inv(s) && Enabled(s, t)
    ensures Inv(Take(s, t))
  {
    var n := Take(s, t);
    match t
    case Start(id, spawned) =>
      if spawned {
        var i := Lookup(s.slots, 0, 0);
        UpdateOk(s.slots, i, n.slots[i], s.started, n.started);
      }
    case Chunk(i, bytes) => UpdateOk(s.slots, i, n.slots[i], s.started, s.started);
    case Finish(i, error) => UpdateOk(s.slots, i, n.slots[i], s.started, s.started);
    case Wake => UpdateOk(s.slots, s.owner.slot, n.slots[s.owner.slot], s.started, s.started);
    case Settle(_) => UpdateOk(s.slots, s.owner.slot, n.slots[s.owner.slot], s.started, s.started);
    case Cancel(id) =>
      if n.owner.Joining? {
        UpdateOk(s.slots, n.owner.slot, n.slots[n.owner.slot], s.started, s.started);
      }
    case Join => UpdateOk(s.slots, s.owner.slot, CLEAR, s.started, s.started);
    case _ =>
  }

  /** What a step adds to the results. */
  function Added(s: State, t: Step): seq<Result>
    requires Enabled(s, t)
  {
    var r := Take(s, t).results;
    if |r| > |s.results| then [r[|s.results|]] else []
  }

  lemma OneResult(s: State, t: Step)
    requires Enabled(s, t)
    ensures Take(s, t).results == s.results + Added(s, t)
    ensures forall r :: r in Added(s, t) && r.Delivered? ==> t.Wake? && r.serial == s.slots[s.owner.slot].serial
    ensures t.Wake? ==> Settling(Take(s, t).owner, s.owner.slot) && |Added(s, t)| == 1
  {
  }

  lemma SlotsAfter(s: State, t: Step, i: nat)
    requires Inv(s) && Enabled(s, t) && i < |Take(s, t).slots| && Take(s, t).slots[i].id != 0 && !Settling(Take(s, t).owner, i)
    ensures i < |s.slots|
    ensures (s.slots[i].id != 0 && s.slots[i].serial == Take(s, t).slots[i].serial && !Settling(s.owner, i)) ||
            (t.Start? && Take(s, t).slots[i].serial == s.started)
    ensures t.Wake? ==> i != s.owner.slot
  {
  }

  /** No step hands a response over a second time. */
  lemma StepHandsOnce(s: State, t: Step)
    requires Inv(s) && HandedOnce(s) && Enabled(s, t)
    ensures HandedOnce(Take(s, t))
  {
    hide Take, Enabled;
    var n := Take(s, t);
    OneResult(s, t);
    StartedGrows(s, t);
    if t.Wake? {
      WakesLive(s);
    }
    forall i | 0 <= i < |n.slots| && n.slots[i].id != 0 && !Settling(n.owner, i)
      ensures !HandedOver(n.results, n.slots[i].serial)
    {
      SlotsAfter(s, t, i);
    }
  }

  lemma StartedGrows(s: State, t: Step)
    requires Enabled(s, t)
    ensures s.started <= Take(s, t).started
  {
  }

  /** A step that consumes a response is about to clear its slot. */
  lemma OneConsumed(s: State, t: Step)
    requires Enabled(s, t)
    ensures var n := Take(s, t);
            n.consumed == s.consumed ||
            ((t.Wake? || t.Settle?) && n.consumed == s.consumed + [s.slots[s.owner.slot].serial] && n.owner == Joining(s.owner.slot))
  {
  }

  lemma SlotsOfOthers(s: State, t: Step, i: nat)
    requires Inv(s) && Enabled(s, t) && i < |Take(s, t).slots| && Take(s, t).slots[i].id != 0 && Take(s, t).owner != Joining(i)
    ensures i < |s.slots|
    ensures (s.slots[i].id != 0 && s.slots[i].serial == Take(s, t).slots[i].serial && s.owner != Joining(i)) ||
            (t.Start? && Take(s, t).slots[i].serial == s.started)
  {
  }

  lemma OwnSlot(s: State)
    requires Inv(s) && ConsumedOnce(s) && (s.owner.Waiting? || s.owner.Peeked?)
    ensures var q := s.slots[s.owner.slot]; q.serial < s.started && q.serial !in s.consumed
    ensures forall j :: 0 <= j < |s.slots| && j != s.owner.slot && s.slots[j].id != 0 ==>
              s.slots[j].serial != s.slots[s.owner.slot].serial
  {
    assert SlotOk(s.slots[s.owner.slot], s.started);
  }

  lemma OwnerStands(s: State, t: Step)
    requires Enabled(s, t) && (t.Wake? || t.Settle?)
    ensures s.owner.Waiting? || s.owner.Peeked?
  {
  }

  /** No step consumes a response a second time. */
  lemma StepConsumesOnce(s: State, t: Step)
    requires Inv(s) && ConsumedOnce(s) && Enabled(s, t)
    ensures ConsumedOnce(Take(s, t))
  {
    hide Take, Enabled, Inv;
    var n := Take(s, t);
    OneConsumed(s, t);
    StartedGrows(s, t);
    if t.Wake? || t.Settle? {
      OwnerStands(s, t);
      OwnSlot(s);
    }
    forall i | 0 <= i < |n.slots| && n.slots[i].id != 0 && n.owner != Joining(i) ensures n.slots[i].serial !in n.consumed {
      SlotsOfOthers(s, t, i);
    }
  }

  lemma WakesLive(s: State)
    requires Inv(s) && HandedOnce(s) && Enabled(s, Wake)
    ensures var q := s.slots[s.owner.slot]; q.serial < s.started && !HandedOver(s.results, q.serial)
    ensures forall j :: 0 <= j < |s.slots| && j != s.owner.slot && s.slots[j].id != 0 ==>
              s.slots[j].serial != s.slots[s.owner.slot].serial
  {
    var q := s.slots[s.owner.slot];
    assert SlotOk(q, s.started) && !Settling(s.owner, s.owner.slot);
  }

  lemma StepResultsOk(s: State, t: Step)
    requires Inv(s) && ResultsOk(s) && Enabled(s, t)
    ensures ResultsOk(Take(s, t))
  {
    if t.Wake? {
      assert SlotOk(s.slots[s.owner.slot], s.started);
    }
  }
}
