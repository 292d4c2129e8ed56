/** Which goals the policy treats in a way of their own, as tables. */
module Tables {
  import opened Terms
  import opened Policy

  /** Native control structures and constructs around one goal. */
  const CONTROLS: map<(Keyword, nat), Control> := map[
    (CommaK, 2) := And, (SemicolonK, 2) := Or, (ArrowK, 2) := Then, (CatchK, 3) := Catching,
    (OnceK, 1) := Opaque(OnceO), (NotK, 1) := Opaque(NotO), (TimeK, 1) := Opaque(TimeO),
    (CallNthK, 2) := Opaque(CallNthO), (FindallK, 3) := Opaque(FindallO)
  ]

  /** Wrappers that check their goals when they are invoked. */
  const WRAPPED: map<(Keyword, nat), DeferredKind> := map[
    (BagofK, 3) := BagofD, (SetofK, 3) := SetofD,
    (PhraseK, 2) := PhraseD, (PhraseK, 3) := PhraseD,
    (ClauseK, 2) := ClauseD,
    (RpcK, 2) := RpcD, (RpcK, 3) := RpcD,
    (PromiseK, 3) := PromiseD, (PromiseK, 4) := PromiseD,
    (YieldK, 3) := YieldD
  ]

  /** Wrappers that take additional arguments: from so many arguments to so many. */
  const WIDE: map<Keyword, (nat, nat, DeferredKind)> := map[
    MaplistK := (2, 5, MaplistD), FoldlK := (4, 7, FoldlD), CallK := (1, 8, CallD)
  ]

  lemma ControlTable(f: Name, n: nat)
    ensures ControlOf(f, n) == if f.Key? && (f.k, n) in CONTROLS then Some(CONTROLS[(f.k, n)]) else None
  {
  }

  lemma WrapperTable(f: Name, n: nat)
    ensures DeferredOf(f, n) ==
            if !f.Key? then None
            else if (f.k, n) in WRAPPED then Some(WRAPPED[(f.k, n)])
            else if f.k in WIDE && WIDE[f.k].0 <= n <= WIDE[f.k].1 then Some(WIDE[f.k].2)
            else None
  {
    if f.Key? && f.k !in WIDE {
      NarrowTable(f.k, n);
    }
  }

  lemma NarrowTable(k: Keyword, n: nat)
    requires k !in WIDE
    ensures DeferredOf(Key(k), n) == if (k, n) in WRAPPED then Some(WRAPPED[(k, n)]) else None
  {
  }

  /** Which argument is the goal, for each construct around one goal. */
  lemma GoalArguments(f: Name, n: nat)
    requires ControlOf(f, n).Some? && ControlOf(f, n).value.Opaque?
    ensures GoalIndex(ControlOf(f, n).value.kind) == if f == Key(FindallK) then 1 else 0
  {
  }

  /** The rewriter treats every goal in exactly one way, and an ordinary goal in none of these. */
  lemma OneTreatment(f: Name, n: nat)
    ensures !(ControlOf(f, n).Some? && DeferredOf(f, n).Some?)
    ensures ComputedOf(f, n).Some? ==> ControlOf(f, n).None? && DeferredOf(f, n).None?
    ensures ComputedOf(f, n) ==
            if n == 2 && f == Key(IsK) then Some(EvaluateC) else if n == 2 && f == Key(TermVariablesK) then Some(VariablesC) else None
    ensures !f.Key? ==> ControlOf(f, n).None? && DeferredOf(f, n).None? && ComputedOf(f, n).None?
  {
  }
}
