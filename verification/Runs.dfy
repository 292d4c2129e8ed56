/** Runs of goals: the ordered answers a goal gives on backtracking and how the enumeration ends. The control constructs
    of the language are operations on runs, so that two interpreters can share them. */
module Runs {
  import opened Terms
  import opened Policy

  /** `Cut` means that a cut was executed after the last answer, so the enclosing clause has no further alternatives.
      `Starved` means that the fuel ran out; `Escaped` that a predicate outside the policy was dispatched. `Regrouped`
      is used by the strict reference only: the run has come to a bagof/3 or setof/3 that the rewriter does not keep. */
  datatype Ending = Done | Cut | Raise(ball: Ball) | Starved | Escaped(name: Name, arity: nat) | Regrouped

  datatype Run<S> = Run(answers: seq<S>, ending: Ending)

  function Fails<S>(): Run<S> {
    Run([], Done)
  }

  function Once<S>(s: S): Run<S> {
    Run([s], Done)
  }

  function Throws<S>(b: Ball): Run<S> {
    Run([], Raise(b))
  }

  /** Conjunction: k is run on every answer of r, in order. */
  function Bind<S>(r: Run<S>, k: S -> Run<S>): Run<S>
    decreases |r.answers|
  {
    if r.answers == [] then r
    else
      var first := k(r.answers[0]);
      if first.ending != Done then first
      else
        var rest := Bind(Run(r.answers[1..], r.ending), k);
        Run(first.answers + rest.answers, rest.ending)
  }

  /** Disjunction: the second run is reached only when the first is exhausted. */
  function Else<S>(a: Run<S>, b: Run<S>): Run<S> {
    if a.ending == Done then Run(a.answers + b.answers, b.ending) else a
  }

  /** A cut inside is local: the enumeration just ends. */
  function Barrier<S>(r: Run<S>): Run<S> {
    if r.ending == Cut then Run(r.answers, Done) else r
  }

  /** If-then-else: the condition is committed to its first answer. */
  function Choose<S>(c: Run<S>, k: S -> Run<S>, otherwise: Run<S>): Run<S> {
    if c.answers != [] then k(c.answers[0])
    else if c.ending == Done || c.ending == Cut then otherwise
    else c
  }

  lemma {:induction false} BindCong<S(!new)>(r: Run<S>, k1: S -> Run<S>, k2: S -> Run<S>)
    requires forall s :: k1(s) == k2(s)
    ensures Bind(r, k1) == Bind(r, k2)
    decreases |r.answers|
  {
    if r.answers != [] {
      BindCong(Run(r.answers[1..], r.ending), k1, k2);
    }
  }

  /** Run a step on every answer, then continue on every answer of that step. */
  function Chain<S>(r: Run<S>, step: S -> Run<S>, next: S -> Run<S>): Run<S> {
    Bind(r, s => Bind(step(s), next))
  }

  lemma ChainCong<S(!new)>(r: Run<S>, a1: S -> Run<S>, n1: S -> Run<S>, a2: S -> Run<S>, n2: S -> Run<S>)
    requires forall s :: a1(s) == a2(s)
    requires forall s :: n1(s) == n2(s)
    ensures Chain(r, a1, n1) == Chain(r, a2, n2)
  {
    var k1 := s => Bind(a1(s), n1);
    var k2 := s => Bind(a2(s), n2);
    forall s ensures k1(s) == k2(s) {
      BindCong(a1(s), n1, n2);
    }
    BindCong(r, k1, k2);
  }

  predicate Contained<S>(r: Run<S>) {
    !r.ending.Escaped?
  }

  lemma {:induction false} BindContained<S(!new)>(r: Run<S>, k: S -> Run<S>)
    requires Contained(r)
    requires forall s :: Contained(k(s))
    ensures Contained(Bind(r, k))
    decreases |r.answers|
  {
    if r.answers != [] {
      BindContained(Run(r.answers[1..], r.ending), k);
    }
  }

  lemma {:induction false} ChainContained<S(!new)>(r: Run<S>, step: S -> Run<S>, next: S -> Run<S>)
    requires Contained(r)
    requires forall s :: Contained(step(s))
    requires forall s :: Contained(next(s))
    ensures Contained(Chain(r, step, next))
  {
    var k := s => Bind(step(s), next);
    forall s ensures Contained(k(s)) {
      BindContained(step(s), next);
    }
    BindContained(r, k);
  }
}

/** The native runtime, as far as the policy relies on it: bindings, unification and the admitted library predicates.
    What a theorem needs to know of them is stated with it. */
module Runtime {
  import opened Terms
  import opened Policy
  import opened Runs

  datatype LibOutcome = Finished | Failed(ball: Ball) | Running

  /** Library answers; `Running` says that more answers exist than the fuel allows to enumerate. */
  datatype LibRun<S> = LibRun(answers: seq<S>, outcome: LibOutcome)

  datatype NetReply<S> = Reply(run: LibRun<S>) | Callback(goal: Term)

  datatype World<!S> = World(
    deref: (S, Term) -> Term,                              // outermost bindings only
    resolve: (S, Term) -> Option<Term>,                    // all bindings; None for a cyclic term
    unify: (S, seq<Term>, seq<Term>) -> Option<S>,         // pairwise, left to right
    newFrame: S -> (nat, S),                               // a frame of variables not used so far
    bind: (S, Term, Term) -> S,                            // sets a variable up, with a value, at its first occurrence
    recover: (S, Term, Ball) -> Option<S>,                 // unify a catcher with a copied ball
    collect: (S, Term, seq<S>) -> (seq<Term>, S),          // copies of a template, one per answer
    compute: (ComputedKind, S, Term) -> Result<Term, Ball>,   // evaluation; the variables of a term
    lib: (nat, Name, seq<Term>, S) -> LibRun<S>,           // an admitted or guarded predicate
    before: (Term, Term) -> bool,                          // standard order of terms
    alike: (Term, Term) -> bool,                           // equal up to the names of variables
    expand: (S, seq<Term>) -> Result<Term, Ball>,          // phrase/2-3 to a goal
    remote: (DeferredKind, seq<Term>, seq<Clause>, S) -> NetReply<S>)

  function FromLib<S>(r: LibRun<S>): Run<S> {
    Run(r.answers, match r.outcome { case Finished => Done case Failed(b) => Raise(b) case Running => Starved })
  }

  /** What an opaque construct makes of its goal's run. */
  function Post<S>(w: World<S>, k: OpaqueKind, args: seq<Term>, s: S, r: Run<S>): Run<S>
    requires |args| == OpaqueArity(k)
  {
    match k
    case OnceO => if r.answers != [] then Runs.Once(r.answers[0]) else r
    case NotO => if r.answers != [] then Fails() else if r.ending == Done then Runs.Once(s) else r
    case TimeO => r
    case CallNthO => CallNth(w, args[1], s, r)
    case FindallO =>
      if r.ending != Done then Run([], r.ending) else
      var (all, s1) := w.collect(s, args[0], r.answers);
      UnifyOnce(w, s1, [args[2]], [ListOf(all)])
  }

  /** The same for an emitted construct: findall/3 leaves its list in the result variable. */
  function PostEmitted<S>(w: World<S>, k: OpaqueKind, args: seq<Term>, s: S, r: Run<S>): Run<S>
    requires |args| == OpaqueArity(k)
  {
    if !k.FindallO? then Post(w, k, args, s, r)
    else if r.ending != Done then Run([], r.ending)
    else
      var (all, s1) := w.collect(s, args[0], r.answers);
      Runs.Once(w.bind(s1, args[2], ListOf(all)))
  }

  /** A computation, with its result unified with `out` or left in a result variable. */
  function Compute<S>(w: World<S>, c: ComputedKind, input: Term, out: Term, s: S): Run<S> {
    match w.compute(c, s, input)
    case Err(b) => Throws(b)
    case Ok(x) => UnifyOnce(w, s, [out], [x])
  }

  function ComputeEmitted<S>(w: World<S>, c: ComputedKind, input: Term, result: Term, s: S): Run<S> {
    match w.compute(c, s, input)
    case Err(b) => Throws(b)
    case Ok(x) => Runs.Once(w.bind(s, result, x))
  }

  function ListOf(ts: seq<Term>): Term {
    if ts == [] then Nil() else Cons(ts[0], ListOf(ts[1..]))
  }

  function UnifyOnce<S>(w: World<S>, s: S, a: seq<Term>, b: seq<Term>): Run<S> {
    match w.unify(s, a, b)
    case None => Fails()
    case Some(s1) => Runs.Once(s1)
  }

  function CallNth<S>(w: World<S>, n: Term, s: S, r: Run<S>): Run<S> {
    match w.deref(s, n)
    case Var(_, _) => Run(Numbered(w, n, r.answers, 1), r.ending)
    case Aux(_, _, _) => Run(Numbered(w, n, r.answers, 1), r.ending)
    case Int(i) =>
      if i <= 0 then Throws(NegativeCount(i))
      else if i <= |r.answers| then Runs.Once(r.answers[i - 1])
      else Run([], r.ending)
    case Struct(_, _) => Throws(BadCount(n))
  }

  function Numbered<S>(w: World<S>, n: Term, answers: seq<S>, i: nat): seq<S> {
    if answers == [] then []
    else UnifyOnce(w, answers[0], [n], [Int(i)]).answers + Numbered(w, n, answers[1..], i + 1)
  }

  /** Original clauses, as clause/2 and source export see them. */
  datatype Originals = Originals(names: Names, local: seq<Clause>, shared: seq<Clause>)

  type Exec<!S> = (Scope, Term, S) -> Run<S>

  predicate IsGrouping(k: DeferredKind) {
    k.BagofD? || k.SetofD?
  }

  /** The deferred wrappers that do not group. Goals are handed to `exec` together with the scope the wrapper was created in. */
  function RunDeferred<S>(fuel: nat, w: World<S>, o: Originals, k: DeferredKind, sc: Scope, args: seq<Term>, s: S,
                          exec: Exec<S>): Run<S>
    requires !IsGrouping(k)
  {
    match k
    case ExecuteD => if |args| == 1 then exec(sc, args[0], s) else Fails()
    case CallD => if |args| >= 1 then Apply(w, sc, args[0], args[1..], s, exec) else Fails()
    case MaplistD => if |args| >= 1 then Maplist(fuel, w, sc, args[0], args[1..], s, exec) else Fails()
    case FoldlD =>
      if |args| < 3 then Fails() else
      Foldl(fuel, w, sc, args[0], args[1..|args| - 2], args[|args| - 2], args[|args| - 1], s, exec)
    case ClauseD => if |args| == 2 then ClauseOf(w, o, sc, args[0], args[1], s) else Fails()
    case PhraseD =>
      (match w.expand(s, args)
       case Err(b) => Throws(b)
       case Ok(goal) => exec(sc, goal, s))
    case _ =>
      (match w.remote(k, args, Exported(o, sc), s)
       case Reply(r) => FromLib(r)
       case Callback(goal) => exec(sc, goal, s))
  }

  /** call/N: build the goal from the closure and run it. */
  function Apply<S>(w: World<S>, sc: Scope, closure: Term, extra: seq<Term>, s: S, exec: Exec<S>): Run<S> {
    match w.deref(s, closure)
    case Var(_, _) => Throws(Instantiation(CallK))
    case Aux(_, _, _) => Throws(Instantiation(CallK))
    case Int(i) => Throws(BadClosure(Int(i), extra != []))
    case Struct(f, args) => exec(sc, Struct(f, args + extra), s)
  }

  function Repeat(t: Term, n: nat): (ts: seq<Term>)
    ensures |ts| == n
  {
    seq(n, _ => t)
  }

  function Heads(frame: nat, n: nat): seq<Term> {
    seq(n, (i: int) => if i >= 0 then Var(frame, i) else Nil())
  }

  function Tails(frame: nat, n: nat): seq<Term> {
    seq(n, (i: int) => if i >= 0 then Var(frame, n + i) else Nil())
  }

  function Cells(frame: nat, n: nat): seq<Term> {
    seq(n, (i: int) => if i >= 0 then Cons(Var(frame, i), Var(frame, n + i)) else Nil())
  }

  /** Both alternatives are tried, which enumerates open lists relationally. */
  function Maplist<S>(fuel: nat, w: World<S>, sc: Scope, c: Term, lists: seq<Term>, s: S, exec: Exec<S>): Run<S>
    decreases fuel
  {
    var n := |lists|;
    var empty := UnifyOnce(w, s, lists, Repeat(Nil(), n));
    if fuel == 0 then Else(empty, Run([], Starved)) else
    var (k, s1) := w.newFrame(s);
    Else(empty,
         Chain(UnifyOnce(w, s1, lists, Cells(k, n)),
               s2 => Apply(w, sc, c, Heads(k, n), s2, exec),
               s3 => Maplist(fuel - 1, w, sc, c, Tails(k, n), s3, exec)))
  }

  function Foldl<S>(fuel: nat, w: World<S>, sc: Scope, c: Term, lists: seq<Term>, v0: Term, v: Term, s: S,
                    exec: Exec<S>): Run<S>
    decreases fuel, 1
  {
    var n := |lists|;
    var empty := UnifyOnce(w, s, [v0] + lists, [v] + Repeat(Nil(), n));
    if fuel == 0 then Else(empty, Run([], Starved)) else
    var (k, s1) := w.newFrame(s);
    Else(empty, FoldlRest(fuel, w, sc, c, lists, v0, v, k, s1, exec))
  }

  /** The second alternative of a fold: take the heads of the lists, apply the closure, go on with the tails. */
  function FoldlRest<S>(fuel: nat, w: World<S>, sc: Scope, c: Term, lists: seq<Term>, v0: Term, v: Term, k: nat, s: S,
                        exec: Exec<S>): Run<S>
    requires fuel > 0
    decreases fuel, 0
  {
    var n := |lists|;
    var v1 := Var(k, 2 * n);
    Chain(UnifyOnce(w, s, lists, Cells(k, n)),
          s2 => Apply(w, sc, c, Heads(k, n) + [v0, v1], s2, exec),
          s3 => Foldl(fuel - 1, w, sc, c, Tails(k, n), v1, v, s3, exec))
  }

  /** clause/2: local source is visible in local scope only and shadows shared clauses. */
  function ClauseOf<S>(w: World<S>, o: Originals, sc: Scope, h: Term, b: Term, s: S): Run<S> {
    match w.deref(s, h)
    case Var(_, _) => Throws(Instantiation(ClauseK))
    case Aux(_, _, _) => Throws(Instantiation(ClauseK))
    case Int(_) => Throws(ClauseAccess(h))
    case Struct(f, args) =>
      if sc == Local && (f, |args|) in o.names.owned then Enumerate(w, o.local, h, b, s)
      else if (f, |args|) in o.names.shared then Enumerate(w, o.shared, h, b, s)
      else Throws(ClauseAccess(h))
  }

  function Enumerate<S>(w: World<S>, cs: seq<Clause>, h: Term, b: Term, s: S): Run<S> {
    if cs == [] then Fails() else
    var (k, s1) := w.newFrame(s);
    Else(UnifyOnce(w, s1, [Rename(cs[0].head, k), Rename(cs[0].body, k)], [h, b]), Enumerate(w, cs[1..], h, b, s))
  }

  /** Source that a remote call may carry along: owned clauses, and only from local scope. */
  function Exported(o: Originals, sc: Scope): seq<Clause> {
    if sc == Local then o.local else []
  }

  /** Two programs look the same from a scope: always in their shared part, in local scope in everything. */
  predicate SameView(o1: Originals, o2: Originals, sc: Scope) {
    && o1.shared == o2.shared
    && o1.names.shared == o2.names.shared && o1.names.pure == o2.names.pure && o1.names.guarded == o2.names.guarded
    && (sc == Local ==> o1 == o2)
  }

  // The wrappers see their goals only through `exec`, and only in their own scope.

  lemma ApplyCong<S(!new)>(w: World<S>, sc: Scope, c: Term, extra: seq<Term>, e1: Exec<S>, e2: Exec<S>)
    requires forall g, t :: e1(sc, g, t) == e2(sc, g, t)
    ensures forall s :: Apply(w, sc, c, extra, s, e1) == Apply(w, sc, c, extra, s, e2)
  {
  }

  lemma {:induction false} MaplistCong<S(!new)>(fuel: nat, w: World<S>, sc: Scope, c: Term, lists: seq<Term>, s: S,
                                                e1: Exec<S>, e2: Exec<S>)
    requires forall g, t :: e1(sc, g, t) == e2(sc, g, t)
    ensures Maplist(fuel, w, sc, c, lists, s, e1) == Maplist(fuel, w, sc, c, lists, s, e2)
    decreases fuel
  {
    if fuel > 0 {
      var n := |lists|;
      var (k, s1) := w.newFrame(s);
      var n1 := s3 => Maplist(fuel - 1, w, sc, c, Tails(k, n), s3, e1);
      var n2 := s3 => Maplist(fuel - 1, w, sc, c, Tails(k, n), s3, e2);
      forall s3 ensures n1(s3) == n2(s3) {
        MaplistCong(fuel - 1, w, sc, c, Tails(k, n), s3, e1, e2);
      }
      ApplyCong(w, sc, c, Heads(k, n), e1, e2);
      ChainCong(UnifyOnce(w, s1, lists, Cells(k, n)),
                s2 => Apply(w, sc, c, Heads(k, n), s2, e1), n1, s2 => Apply(w, sc, c, Heads(k, n), s2, e2), n2);
    }
  }

  lemma {:induction false} FoldlCong<S(!new)>(fuel: nat, w: World<S>, sc: Scope, c: Term, lists: seq<Term>, v0: Term, v: Term,
                                              s: S, e1: Exec<S>, e2: Exec<S>)
    requires forall g, t :: e1(sc, g, t) == e2(sc, g, t)
    ensures Foldl(fuel, w, sc, c, lists, v0, v, s, e1) == Foldl(fuel, w, sc, c, lists, v0, v, s, e2)
    decreases fuel, 1
  {
    if fuel > 0 {
      var (k, s1) := w.newFrame(s);
      FoldlRestCong(fuel, w, sc, c, lists, v0, v, k, s1, e1, e2);
    }
  }

  lemma {:induction false} FoldlRestCong<S(!new)>(fuel: nat, w: World<S>, sc: Scope, c: Term, lists: seq<Term>, v0: Term, v: Term,
                                                  k: nat, s: S, e1: Exec<S>, e2: Exec<S>)
    requires fuel > 0
    requires forall g, t :: e1(sc, g, t) == e2(sc, g, t)
    ensures FoldlRest(fuel, w, sc, c, lists, v0, v, k, s, e1) == FoldlRest(fuel, w, sc, c, lists, v0, v, k, s, e2)
    decreases fuel, 0
  {
    var n := |lists|;
    var v1 := Var(k, 2 * n);
    var n1 := s3 => Foldl(fuel - 1, w, sc, c, Tails(k, n), v1, v, s3, e1);
    var n2 := s3 => Foldl(fuel - 1, w, sc, c, Tails(k, n), v1, v, s3, e2);
    forall s3 ensures n1(s3) == n2(s3) {
      FoldlCong(fuel - 1, w, sc, c, Tails(k, n), v1, v, s3, e1, e2);
    }
    ApplyCong(w, sc, c, Heads(k, n) + [v0, v1], e1, e2);
    ChainCong(UnifyOnce(w, s, lists, Cells(k, n)),
              s2 => Apply(w, sc, c, Heads(k, n) + [v0, v1], s2, e1), n1,
              s2 => Apply(w, sc, c, Heads(k, n) + [v0, v1], s2, e2), n2);
  }

  lemma DeferredCong<S(!new)>(fuel: nat, w: World<S>, o1: Originals, o2: Originals, k: DeferredKind, sc: Scope,
                              args: seq<Term>, s: S, e1: Exec<S>, e2: Exec<S>)
    requires SameView(o1, o2, sc) && !IsGrouping(k)
    requires forall g, t :: e1(sc, g, t) == e2(sc, g, t)
    ensures RunDeferred(fuel, w, o1, k, sc, args, s, e1) == RunDeferred(fuel, w, o2, k, sc, args, s, e2)
  {
    match k
    case CallD => if |args| >= 1 { ApplyCong(w, sc, args[0], args[1..], e1, e2); }
    case MaplistD => if |args| >= 1 { MaplistCong(fuel, w, sc, args[0], args[1..], s, e1, e2); }
    case FoldlD =>
      if |args| >= 3 {
        FoldlCong(fuel, w, sc, args[0], args[1..|args| - 2], args[|args| - 2], args[|args| - 1], s, e1, e2);
      }
    case _ =>
  }

  // Wrappers never leave the policy unless a goal they run does.

  lemma {:induction false} MaplistContained<S(!new)>(fuel: nat, w: World<S>, sc: Scope, c: Term, lists: seq<Term>, s: S,
                                                     e: Exec<S>)
    requires forall g, t :: Contained(e(sc, g, t))
    ensures Contained(Maplist(fuel, w, sc, c, lists, s, e))
    decreases fuel
  {
    if fuel > 0 {
      var n := |lists|;
      var (k, s1) := w.newFrame(s);
      var next := s3 => Maplist(fuel - 1, w, sc, c, Tails(k, n), s3, e);
      forall s3 ensures Contained(next(s3)) {
        MaplistContained(fuel - 1, w, sc, c, Tails(k, n), s3, e);
      }
      ChainContained(UnifyOnce(w, s1, lists, Cells(k, n)), s2 => Apply(w, sc, c, Heads(k, n), s2, e), next);
    }
  }

  lemma {:induction false} FoldlContained<S(!new)>(fuel: nat, w: World<S>, sc: Scope, c: Term, lists: seq<Term>, v0: Term,
                                                   v: Term, s: S, e: Exec<S>)
    requires forall g, t :: Contained(e(sc, g, t))
    ensures Contained(Foldl(fuel, w, sc, c, lists, v0, v, s, e))
    decreases fuel, 1
  {
    if fuel > 0 {
      var (k, s1) := w.newFrame(s);
      FoldlRestContained(fuel, w, sc, c, lists, v0, v, k, s1, e);
    }
  }

  lemma {:induction false} FoldlRestContained<S(!new)>(fuel: nat, w: World<S>, sc: Scope, c: Term, lists: seq<Term>, v0: Term,
                                                       v: Term, k: nat, s: S, e: Exec<S>)
    requires fuel > 0
    requires forall g, t :: Contained(e(sc, g, t))
    ensures Contained(FoldlRest(fuel, w, sc, c, lists, v0, v, k, s, e))
    decreases fuel, 0
  {
    var n := |lists|;
    var v1 := Var(k, 2 * n);
    var next := s3 => Foldl(fuel - 1, w, sc, c, Tails(k, n), v1, v, s3, e);
    forall s3 ensures Contained(next(s3)) {
      FoldlContained(fuel - 1, w, sc, c, Tails(k, n), v1, v, s3, e);
    }
    ChainContained(UnifyOnce(w, s, lists, Cells(k, n)), s2 => Apply(w, sc, c, Heads(k, n) + [v0, v1], s2, e), next);
  }

  lemma {:induction false} EnumerateContained<S>(w: World<S>, cs: seq<Clause>, h: Term, b: Term, s: S)
    ensures Contained(Enumerate(w, cs, h, b, s))
  {
    if cs != [] {
      EnumerateContained(w, cs[1..], h, b, s);
    }
  }

  lemma DeferredContained<S(!new)>(fuel: nat, w: World<S>, o: Originals, k: DeferredKind, sc: Scope, args: seq<Term>, s: S,
                                   e: Exec<S>)
    requires !IsGrouping(k)
    requires forall g, t :: Contained(e(sc, g, t))
    ensures Contained(RunDeferred(fuel, w, o, k, sc, args, s, e))
  {
    match k
    case MaplistD => if |args| >= 1 { MaplistContained(fuel, w, sc, args[0], args[1..], s, e); }
    case FoldlD =>
      if |args| >= 3 {
        FoldlContained(fuel, w, sc, args[0], args[1..|args| - 2], args[|args| - 2], args[|args| - 1], s, e);
      }
    case ClauseD =>
      if |args| == 2 {
        EnumerateContained(w, o.local, args[0], args[1], s);
        EnumerateContained(w, o.shared, args[0], args[1], s);
      }
    case _ =>
  }
}
