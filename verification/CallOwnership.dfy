/** A call and the slot that it owns: none of the things that another thread does under the lock takes the slot away or changes
    it, except for a termination mark. Sweeping, beginning a call by resuming or starting a query, and finishing another
    call are treated one by one. */
module CallOwnership {
  import opened Terms
  import opened Paging
  import opened Registry
  import opened Shedding
  import opened Footprints
  import opened Protocol
  import opened CacheSafety
  import CacheKey

  /** The part of a busy slot that belongs to the client calling on it. */
  function Owned(q: Slot): Slot {
    q.(memory := 0, terminated := false, reason := None)
  }

  /** No other step frees, reuses or changes a slot that a call owns; it can at most mark it terminated. */
  ghost predicate StillOwned(a: Node, b: Node, i: nat) {
    && i in a.calls && i in b.calls && b.calls[i] == a.calls[i]
    && i < |a.table.slots| == |b.table.slots|
    && Owned(b.table.slots[i]) == Owned(a.table.slots[i])
    && (a.table.slots[i].terminated ==> b.table.slots[i].terminated && b.table.slots[i].reason == a.table.slots[i].reason)
  }

  lemma StillOwnedTransitive(a: Node, b: Node, c: Node, i: nat)
    requires StillOwned(a, b, i) && StillOwned(b, c, i)
    ensures StillOwned(a, c, i)
  {
  }

  lemma StillOwnedItself(w: Queries, nd: Node, i: nat)
    requires Inv(w, nd) && i in nd.calls
    ensures StillOwned(nd, nd, i)
  {
    assert i in nd.calls <==> i < |nd.table.slots| && nd.table.slots[i].busy;
  }

  lemma ResumeKeepsOwnership(nd: Node, m: nat, client: nat, req: Request, wrote: bool, i: nat)
    requires i in nd.calls && i < |nd.table.slots| && nd.table.slots[i].busy
    requires m < |nd.table.slots| && Idle(nd.table.slots[m])
    ensures StillOwned(nd, Resume(nd, m, client, req, wrote).0, i)
  {
  }

  lemma StartKeepsOwnership(nd: Node, client: nat, req: Request, started: bool, i: nat)
    requires i in nd.calls && i < |nd.table.slots| && nd.table.slots[i].busy && nd.table.slots[i].pid != 0
    ensures StillOwned(nd, Start(nd, client, req, started).0, i)
  {
    OldestIs(nd.table.slots, |nd.table.slots|, -1);
  }

  lemma BeginKeepsOwnership(k: Config, w: Queries, nd: Node, client: nat, req: Request, clock: nat -> int, o: Oracle,
                            wrote: bool, started: bool, i: nat)
    requires Sound(w) && Inv(w, nd) && i in nd.calls
    requires forall j :: j in nd.calls ==> nd.calls[j].client != client
    ensures StillOwned(nd, Begin(k, nd, client, req, clock, o, wrote, started).0, i)
  {
    hide Inv, Sound, StillOwned, Enforce, Expire, Admit, FindMatch;
    var e := Enforce(k, Expire(nd.table, clock, 0), o, nd.tick);
    var swept := Sweep(k, nd, clock, o);
    SweepKeepsInv(k, w, nd, clock, o);
    SweepKeepsOwnership(k, w, nd, clock, o, i);
    if e.verdict.None? {
      var m := FindMatch(e.table.slots, req.offset, CacheKey.KeyFor(req.job), 0);
      var a := Admit(k, e.table, m, o, e.tick);
      var admitted := nd.(table := a.table, tick := a.tick);
      StillCalled(nd, swept, i);
      AdmitKeepsOwnership(k, w, swept, m, o, i);
      StillOwnedTransitive(nd, swept, admitted, i);
      if a.verdict.None? {
        if m >= 0 {
          ResumeKeepsOwnership(admitted, m, client, req, wrote, i);
        } else {
          StartKeepsOwnership(admitted, client, req, started, i);
        }
        StillOwnedTransitive(nd, admitted, Begin(k, nd, client, req, clock, o, wrote, started).0, i);
      }
    }
  }

  lemma StillCalled(a: Node, b: Node, i: nat)
    requires StillOwned(a, b, i)
    ensures i in b.calls
  {
  }

  /** Admission leaves an owned slot busy, and the slot that is to be resumed idle. */
  lemma AdmitKeepsOwnership(k: Config, w: Queries, nd: Node, m: int, o: Oracle, i: nat)
    requires Inv(w, nd) && i in nd.calls && -1 <= m < |nd.table.slots| && (m >= 0 ==> Idle(nd.table.slots[m]))
    ensures var a := Admit(k, nd.table, m, o, nd.tick);
            var admitted := nd.(table := a.table, tick := a.tick);
            && StillOwned(nd, admitted, i)
            && i < |a.table.slots| && a.table.slots[i].pid != 0 && a.table.slots[i].busy
            && (m >= 0 ==> m < |a.table.slots| && Idle(a.table.slots[m]))
  {
    hide Admit;
    AdmitKeepsInv(k, w, nd, m, o);
    var a := Admit(k, nd.table, m, o, nd.tick);
    assert MayBecome(nd.table.slots[i], a.table.slots[i]);
    assert CallOk(w, a.table.slots[i], nd.calls[i]);
    assert m >= 0 ==> a.table.slots[m].(memory := 0) == nd.table.slots[m].(memory := 0);
  }

  lemma SweepKeepsOwnership(k: Config, w: Queries, nd: Node, clock: nat -> int, o: Oracle, i: nat)
    requires Inv(w, nd) && i in nd.calls
    ensures StillOwned(nd, Sweep(k, nd, clock, o), i)
  {
    hide Enforce, Expire;
    SweepKeepsInv(k, w, nd, clock, o);
    assert MayBecome(nd.table.slots[i], Sweep(k, nd, clock, o).table.slots[i]);
  }

  lemma FinishKeepsOwnership(k: Config, w: Queries, nd: Node, j: nat, out: Outcome, abandoned: bool, stopping: bool,
                             expires: int, o: Oracle, i: nat)
    requires Inv(w, nd) && i in nd.calls && j in nd.calls && j < |nd.table.slots| && i != j
    ensures StillOwned(nd, Finish(k, w, nd, j, out, abandoned, stopping, expires, o).0, i)
  {
    hide Enforce, SlotsOk, SlotOk;
    EnforceKeepsInv(k, w, nd, o);
    assert MayBecome(nd.table.slots[i], Enforce(k, nd.table, o, nd.tick).table.slots[i]);
  }
}
