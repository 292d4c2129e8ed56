/** Two meanings of a goal. `Solve` interprets original goals and resolves every name in the scope the goal belongs to;
    `Native` runs rewritten goals on one flat clause database, as the worker does. */
module Interpreters {
  import opened Terms
  import opened Policy
  import opened Runs
  import opened Runtime
  import opened Grouping

  /** An admitted native predicate. */
  function Builtin<S>(fuel: nat, w: World<S>, f: Name, args: seq<Term>, s: S): Run<S> {
    if f == Key(CutK) && args == [] then Run([s], Cut)
    else if f == Key(TrueK) && args == [] then Runs.Once(s)
    else if f == Key(FailK) && args == [] then Fails()
    else if f == Key(EqualsK) && |args| == 2 then UnifyOnce(w, s, [args[0]], [args[1]])
    else FromLib(w.lib(fuel, f, args, s))
  }

  // ---------- scope-resolving reference interpreter ----------

  /** Runs goal g, written in scope sc. Variables of g in goal position are invoked, not inspected. With `strict`, the run
      stops as `Regrouped` at a bagof/3 or setof/3 whose goal the rewriter gives additional free variables. */
  function Solve<S>(fuel: nat, w: World<S>, o: Originals, strict: bool, sc: Scope, g: Term, s: S): Run<S>
    decreases fuel, 1, g
  {
    match g
    case Var(_, _) => SolveDeferred(fuel, w, o, strict, ExecuteD, sc, [g], s)
    case Aux(_, _, _) => SolveDeferred(fuel, w, o, strict, ExecuteD, sc, [g], s)
    case Int(_) => Throws(NotCallable(g))
    case Struct(f, args) =>
      match ControlOf(f, |args|)
      case Some(And) => Bind(Solve(fuel, w, o, strict, sc, args[0], s), s1 => Solve(fuel, w, o, strict, sc, args[1], s1))
      case Some(Or) =>
        if IsArrow(args[0]) then
          Choose(Solve(fuel, w, o, strict, sc, args[0].args[0], s), s1 => Solve(fuel, w, o, strict, sc, args[0].args[1], s1),
                 Solve(fuel, w, o, strict, sc, args[1], s))
        else Else(Solve(fuel, w, o, strict, sc, args[0], s), Solve(fuel, w, o, strict, sc, args[1], s))
      case Some(Then) =>
        Choose(Solve(fuel, w, o, strict, sc, args[0], s), s1 => Solve(fuel, w, o, strict, sc, args[1], s1), Fails())
      case Some(Catching) =>
        Caught(w, args[1], s, Barrier(Solve(fuel, w, o, strict, sc, args[0], s)), s1 => Solve(fuel, w, o, strict, sc, args[2], s1))
      case Some(Opaque(k)) => Post(w, k, args, s, Barrier(Solve(fuel, w, o, strict, sc, args[GoalIndex(k)], s)))
      case None =>
        match DeferredOf(f, |args|)
        case Some(k) => SolveDeferred(fuel, w, o, strict, k, sc, args, s)
        case None =>
          match ComputedOf(f, |args|)
          case Some(c) => Compute(w, c, args[InputIndex(c)], args[1 - InputIndex(c)], s)
          case None =>
            var n := |args|;
            if (f, n) in o.names.guarded then FromLib(w.lib(fuel, Iso(Guarded(f)), args, s))
            else if sc == Local && (f, n) in o.names.owned then
              if fuel == 0 then Run([], Starved) else SolveClauses(fuel - 1, w, o, strict, Local, Matching(o.local, f, n), args, s)
            else if (f, n) in o.names.shared then
              if fuel == 0 then Run([], Starved) else SolveClauses(fuel - 1, w, o, strict, Shared, Matching(o.shared, f, n), args, s)
            else if (f, n) in o.names.pure then Builtin(fuel, w, f, args, s)
            else Throws(Permission(f, n))
  }

  /** catch/3: the recovery goal runs when the protected goal raises a ball that unifies with the catcher. */
  function Caught<S>(w: World<S>, catcher: Term, s: S, r: Run<S>, recovery: S -> Run<S>): Run<S> {
    if !r.ending.Raise? then r else
    match w.recover(s, catcher, r.ending.ball)
    case None => r
    case Some(s1) =>
      var h := Barrier(recovery(s1));
      Run(r.answers + h.answers, h.ending)
  }

  /** Tries the clauses of a predicate in order; their bodies belong to the scope the predicate was defined in. */
  function SolveClauses<S>(fuel: nat, w: World<S>, o: Originals, strict: bool, sc: Scope, cs: seq<Clause>, args: seq<Term>,
                           s: S): Run<S>
    decreases fuel, 2, |cs|
  {
    if cs == [] then Fails()
    else Barrier(Else(SolveClause(fuel, w, o, strict, sc, cs[0], args, s), SolveClauses(fuel, w, o, strict, sc, cs[1..], args, s)))
  }

  function SolveClause<S>(fuel: nat, w: World<S>, o: Originals, strict: bool, sc: Scope, c: Clause, args: seq<Term>, s: S): Run<S>
    decreases fuel, 2, 0
  {
    var (k, s1) := w.newFrame(s);
    match w.unify(s1, Arguments(Rename(c.head, k)), args)
    case None => Fails()
    case Some(s2) => Solve(fuel, w, o, strict, sc, Rename(c.body, k), s2)
  }

  function Arguments(head: Term): seq<Term> {
    if head.Struct? then head.args else []
  }

  /** Invokes a goal known only at run time: it must be instantiated, finite and free of forbidden subgoals. The
      invocation has a frame of its own. */
  function SolveCall<S>(fuel: nat, w: World<S>, o: Originals, strict: bool, sc: Scope, g: Term, s: S): Run<S>
    decreases fuel, 2
  {
    match w.resolve(s, g)
    case None => Throws(CyclicTerm)
    case Some(t) =>
      if t.Variable() then Throws(Instantiation(ExecuteK)) else
      match FirstForbidden(o.names, sc, t)
      case Some(b) => Throws(b)
      case None => Barrier(Solve(fuel, w, o, strict, sc, t, w.newFrame(s).1))
  }

  function SolveDeferred<S>(fuel: nat, w: World<S>, o: Originals, strict: bool, k: DeferredKind, sc: Scope, args: seq<Term>,
                            s: S): Run<S>
    decreases fuel, 0
  {
    if fuel == 0 then Run([], Starved)
    else if IsGrouping(k) then SolveGroup(fuel - 1, w, o, strict, k, sc, args, s)
    else RunDeferred(fuel - 1, w, o, k, sc, args, s, SolveExec(fuel - 1, w, o, strict))
  }

  function SolveExec<S>(fuel: nat, w: World<S>, o: Originals, strict: bool): Exec<S>
    decreases fuel, 3
  {
    (sc, g, s) => SolveCall(fuel, w, o, strict, sc, g, s)
  }

  /** bagof/3 and setof/3 group by the free variables of the goal as it was written. */
  function SolveGroup<S>(fuel: nat, w: World<S>, o: Originals, strict: bool, k: DeferredKind, sc: Scope, args: seq<Term>,
                         s: S): Run<S>
    decreases fuel, 2
  {
    if |args| != 3 then Fails() else
    if w.resolve(s, args[0]).None? || w.resolve(s, args[1]).None? then Throws(CyclicTerm) else
    var template, goal := w.resolve(s, args[0]).value, w.resolve(s, args[1]).value;
    var body := StripCaret(goal);
    match FirstForbidden(o.names, sc, body)
    case Some(b) => Throws(b)
    case None =>
      if strict && Adds(body) then Run([], Regrouped) else
      var s1 := w.newFrame(s).1;
      GroupRun(w, k, template, FreeVariables(template, Quantified(goal), body), args[2], s1,
               Barrier(Solve(fuel, w, o, strict, sc, body, s1)))
  }

  lemma SolveDeferredIs<S>(fuel: nat, w: World<S>, o: Originals, strict: bool, k: DeferredKind, sc: Scope, args: seq<Term>, s: S)
    requires fuel > 0 && !IsGrouping(k)
    ensures SolveDeferred(fuel, w, o, strict, k, sc, args, s) ==
            RunDeferred(fuel - 1, w, o, k, sc, args, s, SolveExec(fuel - 1, w, o, strict))
  {
  }

  lemma SolveStarved<S>(w: World<S>, o: Originals, strict: bool, k: DeferredKind, sc: Scope, args: seq<Term>, s: S)
    ensures SolveDeferred(0, w, o, strict, k, sc, args, s) == Run([], Starved)
  {
  }

  lemma SolveComputed<S>(fuel: nat, w: World<S>, o: Originals, strict: bool, sc: Scope, g: Term, s: S)
    requires g.Struct? && ComputedOf(g.functor, |g.args|).Some?
    ensures var c := ComputedOf(g.functor, |g.args|).value;
            Solve(fuel, w, o, strict, sc, g, s) == Compute(w, c, g.args[InputIndex(c)], g.args[1 - InputIndex(c)], s)
  {
  }

  function SolveCalled<S>(fuel: nat, w: World<S>, o: Originals, strict: bool, sc: Scope, cs: seq<Clause>, args: seq<Term>, s: S): Run<S> {
    if fuel == 0 then Run([], Starved) else SolveClauses(fuel - 1, w, o, strict, sc, cs, args, s)
  }

  /** What the reference does with an ordinary goal. */
  lemma SolveResolved<S>(fuel: nat, w: World<S>, o: Originals, strict: bool, sc: Scope, g: Term, s: S)
    requires g.Struct? && ControlOf(g.functor, |g.args|).None? && DeferredOf(g.functor, |g.args|).None?
    requires ComputedOf(g.functor, |g.args|).None?
    ensures var f, n := g.functor, |g.args|;
            Solve(fuel, w, o, strict, sc, g, s) ==
            if (f, n) in o.names.guarded then FromLib(w.lib(fuel, Iso(Guarded(f)), g.args, s))
            else if sc == Local && (f, n) in o.names.owned then SolveCalled(fuel, w, o, strict, Local, Matching(o.local, f, n), g.args, s)
            else if (f, n) in o.names.shared then SolveCalled(fuel, w, o, strict, Shared, Matching(o.shared, f, n), g.args, s)
            else if (f, n) in o.names.pure then Builtin(fuel, w, f, g.args, s)
            else Throws(Permission(f, n))
  {
    hide Matching, Builtin, FromLib;
  }

  // ---------- native execution of rewritten goals ----------

  /** The worker's clause database: rewritten local and shared clauses side by side, plus declared-empty predicates. */
  datatype Database = Database(defined: set<PI>, clauses: seq<Clause>)

  /** Native control: the emitted functors of the opaque constructs replace their source names. */
  function NativeControl(f: Name, n: nat): (c: Option<Control>)
    ensures c.Some? ==> n == match c.value { case Opaque(k) => OpaqueArity(k) case Catching => 3 case _ => 2 }
  {
    if f.Iso? && f.guard.Inner? && n == OpaqueArity(f.guard.opaqueKind) then Some(Opaque(f.guard.opaqueKind))
    else
      match ControlOf(f, n)
      case Some(Opaque(k)) => if k.OnceO? || k.NotO? then Some(Opaque(k)) else None
      case c => c
  }

  predicate IsNativeArrow(t: Term) {
    t.Struct? && NativeControl(t.functor, |t.args|) == Some(Then)
  }

  /** Wrappers and native predicates, which need no clause: a run, if it is one of them. */
  function Primitive<S>(fuel: nat, w: World<S>, f: Name, args: seq<Term>, s: S): Option<Run<S>> {
    if f.Iso? && f.guard.Guarded? then Some(FromLib(w.lib(fuel, f, args, s)))
    else if f == Iso(NativeKey) && |args| == 2 then Some(UnifyOnce(w, s, [args[0]], [args[1]]))
    else if f == Computing(EvaluateC) && |args| == 2 then Some(ComputeEmitted(w, EvaluateC, args[0], args[1], s))
    else if f == Computing(VariablesC) && |args| == 2 then Some(ComputeEmitted(w, VariablesC, args[0], args[1], s))
    else None
  }

  function Native<S>(fuel: nat, w: World<S>, o: Originals, db: Database, g: Term, s: S): Run<S>
    decreases fuel, 1, g
  {
    match g
    case Var(_, _) => Run([], Escaped(Key(CallK), 1))
    case Aux(_, _, _) => Run([], Escaped(Key(CallK), 1))
    case Int(_) => Throws(NotCallable(g))
    case Struct(f, args) =>
      match NativeControl(f, |args|)
      case Some(And) => Bind(Native(fuel, w, o, db, args[0], s), s1 => Native(fuel, w, o, db, args[1], s1))
      case Some(Or) =>
        if IsNativeArrow(args[0]) then
          Choose(Native(fuel, w, o, db, args[0].args[0], s), s1 => Native(fuel, w, o, db, args[0].args[1], s1),
                 Native(fuel, w, o, db, args[1], s))
        else Else(Native(fuel, w, o, db, args[0], s), Native(fuel, w, o, db, args[1], s))
      case Some(Then) => Choose(Native(fuel, w, o, db, args[0], s), s1 => Native(fuel, w, o, db, args[1], s1), Fails())
      case Some(Catching) =>
        Caught(w, args[1], s, Barrier(Native(fuel, w, o, db, args[0], s)), s1 => Native(fuel, w, o, db, args[2], s1))
      case Some(Opaque(k)) => PostEmitted(w, k, args, s, Barrier(Native(fuel, w, o, db, args[GoalIndex(k)], s)))
      case None =>
        var n := |args|;
        if f.Iso? && f.guard.Deferred? then NativeDeferred(fuel, w, o, db, f.guard.kind, f.guard.scope, args, s)
        else if Primitive(fuel, w, f, args, s).Some? then Primitive(fuel, w, f, args, s).value
        else if (f, n) in db.defined then
          if fuel == 0 then Run([], Starved) else NativeClauses(fuel - 1, w, o, db, Matching(db.clauses, f, n), args, s)
        else if (f, n) in o.names.pure then Builtin(fuel, w, f, args, s)
        else Run([], Escaped(f, n))
  }

  function NativeClauses<S>(fuel: nat, w: World<S>, o: Originals, db: Database, cs: seq<Clause>, args: seq<Term>, s: S): Run<S>
    decreases fuel, 2, |cs|
  {
    if cs == [] then Fails()
    else Barrier(Else(NativeClause(fuel, w, o, db, cs[0], args, s), NativeClauses(fuel, w, o, db, cs[1..], args, s)))
  }

  function NativeClause<S>(fuel: nat, w: World<S>, o: Originals, db: Database, c: Clause, args: seq<Term>, s: S): Run<S>
    decreases fuel, 2, 0
  {
    var (k, s1) := w.newFrame(s);
    match w.unify(s1, Arguments(Rename(c.head, k)), args)
    case None => Fails()
    case Some(s2) => Native(fuel, w, o, db, Rename(c.body, k), s2)
  }

  /** `iso_execute_in(Scope, Goal)`: rewrite the goal as it is now bound and call the result. Result variables that the
      rewriting adds belong to the frame of the invocation. */
  function NativeCall<S>(fuel: nat, w: World<S>, o: Originals, db: Database, sc: Scope, g: Term, s: S): Run<S>
    decreases fuel, 2
  {
    match w.resolve(s, g)
    case None => Throws(CyclicTerm)
    case Some(t) =>
      if t.Variable() then Throws(Instantiation(ExecuteK)) else
      var (k, s1) := w.newFrame(s);
      match Rewrite(o.names, sc, t, k, 1)
      case Err(b) => Throws(b)
      case Ok(safe) => Barrier(Native(fuel, w, o, db, safe, s1))
  }

  function NativeDeferred<S>(fuel: nat, w: World<S>, o: Originals, db: Database, k: DeferredKind, sc: Scope,
                             args: seq<Term>, s: S): Run<S>
    decreases fuel, 0
  {
    if fuel == 0 then Run([], Starved)
    else if IsGrouping(k) then NativeGroup(fuel - 1, w, o, db, k, sc, args, s)
    else RunDeferred(fuel - 1, w, o, k, sc, args, s, NativeExec(fuel - 1, w, o, db))
  }

  function NativeExec<S>(fuel: nat, w: World<S>, o: Originals, db: Database): Exec<S>
    decreases fuel, 3
  {
    (sc, g, s) => NativeCall(fuel, w, o, db, sc, g, s)
  }

  /** `iso_bagof_in` and `iso_setof_in`: the goal behind its quantifiers is rewritten, and native grouping sees the free
      variables of the rewritten goal. */
  function NativeGroup<S>(fuel: nat, w: World<S>, o: Originals, db: Database, k: DeferredKind, sc: Scope, args: seq<Term>,
                          s: S): Run<S>
    decreases fuel, 2
  {
    if |args| != 3 then Fails() else
    if w.resolve(s, args[0]).None? || w.resolve(s, args[1]).None? then Throws(CyclicTerm) else
    var template, goal := w.resolve(s, args[0]).value, w.resolve(s, args[1]).value;
    var (frame, s1) := w.newFrame(s);
    match Rewrite(o.names, sc, StripCaret(goal), frame, 1)
    case Err(b) => Throws(b)
    case Ok(safe) =>
      GroupRun(w, k, template, FreeVariables(template, Quantified(goal), safe), args[2], s1,
               Barrier(Native(fuel, w, o, db, safe, s1)))
  }

  lemma NativeDeferredIs<S>(fuel: nat, w: World<S>, o: Originals, db: Database, k: DeferredKind, sc: Scope, args: seq<Term>, s: S)
    requires fuel > 0 && !IsGrouping(k)
    ensures NativeDeferred(fuel, w, o, db, k, sc, args, s) ==
            RunDeferred(fuel - 1, w, o, k, sc, args, s, NativeExec(fuel - 1, w, o, db))
  {
  }

  lemma NativeStarved<S>(w: World<S>, o: Originals, db: Database, k: DeferredKind, sc: Scope, args: seq<Term>, s: S)
    ensures NativeDeferred(0, w, o, db, k, sc, args, s) == Run([], Starved)
  {
  }

  lemma NativeComputed<S>(fuel: nat, w: World<S>, o: Originals, db: Database, c: ComputedKind, input: Term, result: Term, t: S)
    ensures Native(fuel, w, o, db, Struct(Computing(c), [input, result]), t) == ComputeEmitted(w, c, input, result, t)
  {
  }

  function NativeCalled<S>(fuel: nat, w: World<S>, o: Originals, db: Database, cs: seq<Clause>, args: seq<Term>, s: S): Run<S> {
    if fuel == 0 then Run([], Starved) else NativeClauses(fuel - 1, w, o, db, cs, args, s)
  }
}
