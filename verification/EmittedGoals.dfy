/** How the worker runs the goals that the rewriter emits: computations that leave their result in a variable of their own
    and then unify it, predicates under their flat names, and groupings. Result variables are hidden from everything else,
    which is what is required of the native operations here. */
module EmittedGoals {
  import opened Terms
  import opened Policy
  import opened Runs
  import opened Runtime
  import opened Grouping
  import opened Interpreters
  import opened Compilation
  import opened Simulation

  /** A result variable hides its value from everything but the unification it was added for. */
  predicate ResultLaw<S>(w: World<S>, v: View<S>, s: S, t: S, frame: nat, at: nat, x: Term, y: Term) {
    v.same(s, t) && Clear(v.hidden, x) && Clear(v.hidden, y) ==>
      var result := Aux(ResultRole, frame, at);
      v.same(s, w.bind(t, result, x)) && SameOption(v, w.unify(s, [y], [x]), w.unify(w.bind(t, result, x), [y], [result]))
  }

  /** What meaning preservation needs to know of the native operations. */
  ghost predicate HidesResults<S(!new)>(w: World<S>, v: View<S>) {
    && Respects(w, v) && v.hidden == SOURCE_FREE && v.stop
    && forall s, t, frame, at, x, y :: ResultLaw(w, v, s, t, frame, at, x, y)
  }

  lemma Lawful<S(!new)>(w: World<S>, v: View<S>)
    requires HidesResults(w, v)
    ensures Respects(w, v) && v.hidden == SOURCE_FREE && v.stop
  {
  }

  lemma BindOnce<S>(s: S, k: S -> Run<S>)
    ensures Bind(Runs.Once(s), k) == k(s)
  {
    assert Bind(Run([], Done), k) == Run([], Done);
    assert k(s).answers + [] == k(s).answers;
  }

  lemma NativeEquals<S>(fuel: nat, w: World<S>, o: Originals, db: Database, a: Term, b: Term, t: S)
    requires LoadedAt(o, db, Key(EqualsK), 2) && CallsArePure(o.names)
    ensures Native(fuel, w, o, db, Struct(Key(EqualsK), [a, b]), t) == UnifyOnce(w, t, [a], [b])
  {
    hide Matching, NativeDeferred, ControlOf, NativeClauses, Agrees, UnifyOnce;
    EqualsIsNoControl();
  }

  lemma EqualsIsNoControl()
    ensures ControlOf(Key(EqualsK), 2).None?
  {
  }

  lemma UnifiedAlike<S>(w: World<S>, v: View<S>, s: S, t: S, a: seq<Term>, b: seq<Term>, c: seq<Term>)
    requires SameOption(v, w.unify(s, a, b), w.unify(t, a, c))
    ensures Follows(v, UnifyOnce(w, s, a, b), UnifyOnce(w, t, a, c))
  {
  }

  /** The unification that follows an emitted computation. */
  lemma ResultUnified<S(!new)>(fuel: nat, w: World<S>, v: View<S>, o: Originals, db: Database, out: Term, frame: nat, at: nat,
                               x: Term, s: S, t: S)
    requires HidesResults(w, v) && Loaded(o, db) && v.same(s, t) && Clear(v.hidden, x) && Clear(v.hidden, out)
    ensures var result := Aux(ResultRole, frame, at);
            Follows(v, UnifyOnce(w, s, [out], [x]), Native(fuel, w, o, db, Struct(Key(EqualsK), [out, result]), w.bind(t, result, x)))
  {
    hide Native, Follows;
    var result := Aux(ResultRole, frame, at);
    assert ResultLaw(w, v, s, t, frame, at, x, out);
    LoadedHere(o, db, Key(EqualsK), 2);
    NativeEquals(fuel, w, o, db, out, result, w.bind(t, result, x));
    UnifiedAlike(w, v, s, w.bind(t, result, x), [out], [x], [result]);
  }

  /** A computation that leaves x in its result variable, followed by the unification, is the original one. */
  lemma ThenUnified<S(!new)>(fuel: nat, w: World<S>, v: View<S>, o: Originals, db: Database, goal: Term, out: Term,
                             frame: nat, at: nat, x: Term, s: S, t: S, t1: S)
    requires HidesResults(w, v) && Loaded(o, db) && v.same(s, t) && Clear(v.hidden, x) && Clear(v.hidden, out)
    requires Native(fuel, w, o, db, goal, t1) == Runs.Once(w.bind(t, Aux(ResultRole, frame, at), x))
    ensures Follows(v, UnifyOnce(w, s, [out], [x]), Native(fuel, w, o, db, ThenUnify(goal, out, Aux(ResultRole, frame, at)), t1))
  {
    hide HidesResults, Loaded, Follows, NativeDeferred;
    var result := Aux(ResultRole, frame, at);
    var eq := Struct(Key(EqualsK), [out, result]);
    ResultUnified(fuel, w, v, o, db, out, frame, at, x, s, t);
    BindOnce(w.bind(t, result, x), t2 => Native(fuel, w, o, db, eq, t2));
  }

  lemma ThenNothing<S(!new)>(fuel: nat, w: World<S>, o: Originals, db: Database, goal: Term, out: Term, result: Term, t: S)
    requires Native(fuel, w, o, db, goal, t).answers == []
    ensures Native(fuel, w, o, db, ThenUnify(goal, out, result), t) == Native(fuel, w, o, db, goal, t)
  {
  }

  lemma DoneAlike<S>(v: View<S>, p: Run<S>, q: Run<S>)
    requires Follows(v, p, q) && p.ending == Done
    ensures q.ending == Done && |p.answers| == |q.answers| && Begins(v, p.answers, q.answers)
  {
  }

  lemma StoppedAlike<S>(v: View<S>, p: Run<S>, q: Run<S>, r: Run<S>)
    requires Follows(v, p, q) && p.ending != Done && (q.ending == Done || r == Run([], q.ending))
    ensures Follows(v, Run([], p.ending), r)
  {
  }

  /** findall/3 by way of a result variable, once its goals run alike. */
  lemma FindallFollows<S(!new)>(fuel: nat, w: World<S>, v: View<S>, o: Originals, db: Database, args: seq<Term>, goal: Term,
                                frame: nat, at: nat, s: S, t: S, p: Run<S>, q: Run<S>)
    requires HidesResults(w, v) && Loaded(o, db) && v.same(s, t) && |args| == 3 && ClearAll(v.hidden, args) && Follows(v, p, q)
    requires goal.Struct? && |goal.args| == 3 && goal.args[0] == args[0] && goal.args[2] == Aux(ResultRole, frame, at)
    requires Native(fuel, w, o, db, goal, t) == PostEmitted(w, FindallO, goal.args, t, q)
    ensures Follows(v, Post(w, FindallO, args, s, p), Native(fuel, w, o, db, ThenUnify(goal, args[2], Aux(ResultRole, frame, at)), t))
  {
    hide HidesResults, Loaded, Native, Follows;
    Lawful(w, v);
    var result := Aux(ResultRole, frame, at);
    if p.ending == Done {
      var x, y := w.collect(s, args[0], p.answers), w.collect(t, args[0], q.answers);
      DoneAlike(v, p, q);
      CollectedSame(w, v, s, t, args[0], p.answers, q.answers);
      ListClear(v.hidden, x.0);
      ThenUnified(fuel, w, v, o, db, goal, args[2], frame, at, ListOf(x.0), x.1, y.1, t);
    } else if q.ending == Done {
      StoppedAlike(v, p, q, Native(fuel, w, o, db, ThenUnify(goal, args[2], result), t));
    } else {
      StoppedAlike(v, p, q, Run([], q.ending));
      ThenNothing(fuel, w, o, db, goal, args[2], result, t);
    }
  }

  lemma SolveFindall<S>(fuel: nat, w: World<S>, o: Originals, sc: Scope, g: Term, s: S)
    requires g.Struct? && ControlOf(g.functor, |g.args|) == Some(Opaque(FindallO))
    ensures Solve(fuel, w, o, true, sc, g, s) == Post(w, FindallO, g.args, s, Barrier(Solve(fuel, w, o, true, sc, g.args[1], s)))
  {
  }

  lemma NativeFindall<S>(fuel: nat, w: World<S>, o: Originals, db: Database, args: seq<Term>, t: S)
    requires |args| == 3
    ensures Native(fuel, w, o, db, Struct(Iso(Inner(FindallO)), args), t) ==
            PostEmitted(w, FindallO, args, t, Barrier(Native(fuel, w, o, db, args[1], t)))
  {
  }

  /** What the worker does with the goal that it has been rewritten to. */
  lemma NativeResolved<S>(fuel: nat, w: World<S>, o: Originals, db: Database, sc: Scope, f: Name, args: seq<Term>, t: S)
    requires LoadedAt(o, db, f, |args|) && Resolve(o.names, sc, f, args).Ok?
    requires ControlOf(f, |args|).None? && DeferredOf(f, |args|).None? && ComputedOf(f, |args|).None?
    ensures var n, safe := |args|, Resolve(o.names, sc, f, args).value;
            Native(fuel, w, o, db, safe, t) ==
            if (f, n) in o.names.guarded then FromLib(w.lib(fuel, Iso(Guarded(f)), args, t))
            else if sc == Local && (f, n) in o.names.owned then NativeCalled(fuel, w, o, db, Matching(db.clauses, f, n), args, t)
            else if (f, n) in o.names.shared then NativeCalled(fuel, w, o, db, Matching(db.clauses, Internal(f), n), args, t)
            else Builtin(fuel, w, f, args, t)
  {
    hide Matching, Builtin, FromLib;
    EmittedControl(f, |args|);
  }

  lemma GroupIllFormed<S(!new)>(fuel: nat, w: World<S>, v: View<S>, o: Originals, db: Database, k: DeferredKind, sc: Scope,
                                args: seq<Term>, s: S, t: S)
    requires fuel > 0 && IsGrouping(k)
    requires |args| == 3 ==> exists i :: 0 <= i < 2 && w.resolve(s, args[i]).None? && w.resolve(t, args[i]).None?
    ensures Follows(v, SolveDeferred(fuel, w, o, true, k, sc, args, s), NativeDeferred(fuel, w, o, db, k, sc, args, t))
  {
    hide Follows, RunDeferred, GroupRun, Rewrite;
    if |args| != 3 {
      EndsAlike(v, Done);
    } else {
      EndsAlike(v, Raise(CyclicTerm));
    }
  }

  lemma GroupRefused<S(!new)>(fuel: nat, w: World<S>, v: View<S>, o: Originals, db: Database, k: DeferredKind, sc: Scope,
                              args: seq<Term>, goal: Term, s: S, t: S)
    requires fuel > 0 && IsGrouping(k) && |args| == 3 && w.resolve(s, args[0]).Some? && w.resolve(t, args[0]).Some?
    requires w.resolve(s, args[1]) == w.resolve(t, args[1]) == Some(goal)
    requires var r := Rewrite(o.names, sc, StripCaret(goal), w.newFrame(t).0, 1);
             r.Err? && FirstForbidden(o.names, sc, StripCaret(goal)) == Some(r.error)
    ensures Follows(v, SolveDeferred(fuel, w, o, true, k, sc, args, s), NativeDeferred(fuel, w, o, db, k, sc, args, t))
  {
  }

  lemma GroupStops<S(!new)>(fuel: nat, w: World<S>, v: View<S>, o: Originals, db: Database, k: DeferredKind, sc: Scope,
                            args: seq<Term>, goal: Term, s: S, t: S)
    requires fuel > 0 && IsGrouping(k) && |args| == 3 && v.stop && w.resolve(s, args[0]).Some?
    requires w.resolve(s, args[1]) == Some(goal) && FirstForbidden(o.names, sc, StripCaret(goal)).None? && Adds(StripCaret(goal))
    ensures Follows(v, SolveDeferred(fuel, w, o, true, k, sc, args, s), NativeDeferred(fuel, w, o, db, k, sc, args, t))
  {
    assert SolveDeferred(fuel, w, o, true, k, sc, args, s) == Run([], Regrouped);
  }

  lemma GroupTaken<S(!new)>(fuel: nat, w: World<S>, v: View<S>, o: Originals, db: Database, k: DeferredKind, sc: Scope,
                            args: seq<Term>, template: Term, goal: Term, s: S, t: S)
    requires fuel > 0 && IsGrouping(k) && |args| == 3 && w.newFrame(s).0 == w.newFrame(t).0
    requires w.resolve(s, args[0]) == w.resolve(t, args[0]) == Some(template)
    requires w.resolve(s, args[1]) == w.resolve(t, args[1]) == Some(goal)
    requires FirstForbidden(o.names, sc, StripCaret(goal)).None? && !Adds(StripCaret(goal))
    requires var body, frame := StripCaret(goal), w.newFrame(s).0;
             var r := Rewrite(o.names, sc, body, frame, 1);
             r.Ok? &&
             Follows(v, GroupRun(w, k, template, FreeVariables(template, Quantified(goal), body), args[2], w.newFrame(s).1,
                                 Barrier(Solve(fuel - 1, w, o, true, sc, body, w.newFrame(s).1))),
                     GroupRun(w, k, template, FreeVariables(template, Quantified(goal), r.value), args[2], w.newFrame(t).1,
                              Barrier(Native(fuel - 1, w, o, db, r.value, w.newFrame(t).1))))
    ensures Follows(v, SolveDeferred(fuel, w, o, true, k, sc, args, s), NativeDeferred(fuel, w, o, db, k, sc, args, t))
  {
  }
}
