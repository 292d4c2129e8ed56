/** Rewritten goals run as the original goals mean. */
module Preservation {
  import opened Terms
  import opened Policy
  import opened Runs
  import opened Runtime
  import opened Grouping
  import opened Interpreters
  import opened Compilation
  import opened Simulation
  import opened EmittedGoals

  /** Meaning preservation. */
  lemma {:induction false} Preserves<S(!new)>(fuel: nat, w: World<S>, v: View<S>, o: Originals, db: Database, sc: Scope, g: Term,
                                              frame: nat, at: nat, s: S, t: S)
    requires HidesResults(w, v) && Loaded(o, db) && v.same(s, t)
    requires Clear(v.hidden, g) && Rewrite(o.names, sc, g, frame, at).Ok?
    ensures Follows(v, Solve(fuel, w, o, true, sc, g, s), Native(fuel, w, o, db, Rewrite(o.names, sc, g, frame, at).value, t))
    decreases fuel, 1, g, 1
  {
    hide HidesResults, Loaded, SolveDeferred, NativeDeferred, Follows;
    match g
    case Var(_, _) => PreservesDeferred(fuel, w, v, o, db, ExecuteD, sc, [g], s, t);
    case Aux(_, _, _) => PreservesDeferred(fuel, w, v, o, db, ExecuteD, sc, [g], s, t);
    case Int(_) => EndsAlike(v, Raise(NotCallable(g)));
    case Struct(f, args) =>
      EmittedControl(f, |args|);
      assert ClearAll(v.hidden, args);
      match ControlOf(f, |args|)
      case Some(And) => PreservesAnd(fuel, w, v, o, db, sc, g, frame, at, s, t);
      case Some(Or) => PreservesOr(fuel, w, v, o, db, sc, g, frame, at, s, t);
      case Some(Then) => PreservesThen(fuel, w, v, o, db, sc, g, frame, at, s, t);
      case Some(Catching) => PreservesCatch(fuel, w, v, o, db, sc, g, frame, at, s, t);
      case Some(Opaque(k)) =>
        if k.FindallO? {
          PreservesFindall(fuel, w, v, o, db, sc, g, frame, at, s, t);
        } else {
          PreservesOpaque(fuel, w, v, o, db, sc, g, k, frame, at, s, t);
        }
      case None =>
        if DeferredOf(f, |args|).Some? {
          PreservesDeferred(fuel, w, v, o, db, DeferredOf(f, |args|).value, sc, args, s, t);
        } else if ComputedOf(f, |args|).Some? {
          PreservesComputed(fuel, w, v, o, db, sc, g, frame, at, s, t);
        } else {
          PreservesResolved(fuel, w, v, o, db, sc, g, frame, at, s, t);
        }
  }

  lemma {:induction false} PreservesEach<S(!new)>(fuel: nat, w: World<S>, v: View<S>, o: Originals, db: Database, sc: Scope,
                                                  g: Term, frame: nat, at: nat)
    requires HidesResults(w, v) && Loaded(o, db)
    requires Clear(v.hidden, g) && Rewrite(o.names, sc, g, frame, at).Ok?
    ensures forall s, t :: v.same(s, t) ==>
              Follows(v, Solve(fuel, w, o, true, sc, g, s), Native(fuel, w, o, db, Rewrite(o.names, sc, g, frame, at).value, t))
    decreases fuel, 1, g, 2
  {
    forall s, t | v.same(s, t)
      ensures Follows(v, Solve(fuel, w, o, true, sc, g, s), Native(fuel, w, o, db, Rewrite(o.names, sc, g, frame, at).value, t))
    {
      Preserves(fuel, w, v, o, db, sc, g, frame, at, s, t);
    }
  }

  lemma {:induction false} PreservesAnd<S(!new)>(fuel: nat, w: World<S>, v: View<S>, o: Originals, db: Database, sc: Scope,
                                                 g: Term, frame: nat, at: nat, s: S, t: S)
    requires HidesResults(w, v) && Loaded(o, db) && v.same(s, t)
    requires Clear(v.hidden, g) && Rewrite(o.names, sc, g, frame, at).Ok?
    requires g.Struct? && ControlOf(g.functor, |g.args|) == Some(And)
    ensures Follows(v, Solve(fuel, w, o, true, sc, g, s), Native(fuel, w, o, db, Rewrite(o.names, sc, g, frame, at).value, t))
    decreases fuel, 1, g, 0
  {
    hide HidesResults, Loaded, SolveDeferred, NativeDeferred, Follows;
    var safe, b := Rewrite(o.names, sc, g, frame, at).value, g.args[1];
    var b' := safe.args[1];
    EmittedControl(g.functor, 2);
    Preserves(fuel, w, v, o, db, sc, g.args[0], frame, 2 * at, s, t);
    PreservesEach(fuel, w, v, o, db, sc, b, frame, 2 * at + 1);
    BindFollows(v, Solve(fuel, w, o, true, sc, g.args[0], s), Native(fuel, w, o, db, safe.args[0], t),
                x => Solve(fuel, w, o, true, sc, b, x), x => Native(fuel, w, o, db, b', x));
  }

  lemma {:induction false} PreservesOr<S(!new)>(fuel: nat, w: World<S>, v: View<S>, o: Originals, db: Database, sc: Scope,
                                                g: Term, frame: nat, at: nat, s: S, t: S)
    requires HidesResults(w, v) && Loaded(o, db) && v.same(s, t)
    requires Clear(v.hidden, g) && Rewrite(o.names, sc, g, frame, at).Ok?
    requires g.Struct? && ControlOf(g.functor, |g.args|) == Some(Or)
    ensures Follows(v, Solve(fuel, w, o, true, sc, g, s), Native(fuel, w, o, db, Rewrite(o.names, sc, g, frame, at).value, t))
    decreases fuel, 1, g, 0
  {
    hide HidesResults, Loaded, SolveDeferred, NativeDeferred, Follows;
    var safe, a := Rewrite(o.names, sc, g, frame, at).value, g.args[0];
    EmittedControl(g.functor, 2);
    ArrowsAgree(o.names, sc, a, frame, 2 * at);
    Preserves(fuel, w, v, o, db, sc, g.args[1], frame, 2 * at + 1, s, t);
    if IsArrow(a) {
      PreservesChoice(fuel, w, v, o, db, sc, a, frame, 2 * at, s, t, Solve(fuel, w, o, true, sc, g.args[1], s),
                      Native(fuel, w, o, db, safe.args[1], t));
    } else {
      Preserves(fuel, w, v, o, db, sc, a, frame, 2 * at, s, t);
      ElseFollows(v, Solve(fuel, w, o, true, sc, a, s), Native(fuel, w, o, db, safe.args[0], t),
                  Solve(fuel, w, o, true, sc, g.args[1], s), Native(fuel, w, o, db, safe.args[1], t));
    }
  }

  /** An arrow with what happens when its condition fails. */
  lemma {:induction false} PreservesChoice<S(!new)>(fuel: nat, w: World<S>, v: View<S>, o: Originals, db: Database, sc: Scope,
                                                    a: Term, frame: nat, at: nat, s: S, t: S, c: Run<S>, d: Run<S>)
    requires HidesResults(w, v) && Loaded(o, db) && v.same(s, t) && Follows(v, c, d)
    requires Clear(v.hidden, a) && Rewrite(o.names, sc, a, frame, at).Ok? && IsArrow(a)
    ensures var safe := Rewrite(o.names, sc, a, frame, at).value;
            && safe.Struct? && |safe.args| == 2
            && Follows(v, Choose(Solve(fuel, w, o, true, sc, a.args[0], s), x => Solve(fuel, w, o, true, sc, a.args[1], x), c),
                       Choose(Native(fuel, w, o, db, safe.args[0], t), x => Native(fuel, w, o, db, safe.args[1], x), d))
    decreases fuel, 1, a, 0
  {
    hide HidesResults, Loaded, SolveDeferred, NativeDeferred, Follows;
    var safe := Rewrite(o.names, sc, a, frame, at).value;
    var b, b' := a.args[1], safe.args[1];
    assert ClearAll(v.hidden, a.args);
    Preserves(fuel, w, v, o, db, sc, a.args[0], frame, 2 * at, s, t);
    PreservesEach(fuel, w, v, o, db, sc, b, frame, 2 * at + 1);
    ChooseFollows(v, Solve(fuel, w, o, true, sc, a.args[0], s), Native(fuel, w, o, db, safe.args[0], t),
                  x => Solve(fuel, w, o, true, sc, b, x), x => Native(fuel, w, o, db, b', x), c, d);
  }

  lemma {:induction false} PreservesThen<S(!new)>(fuel: nat, w: World<S>, v: View<S>, o: Originals, db: Database, sc: Scope,
                                                  g: Term, frame: nat, at: nat, s: S, t: S)
    requires HidesResults(w, v) && Loaded(o, db) && v.same(s, t)
    requires Clear(v.hidden, g) && Rewrite(o.names, sc, g, frame, at).Ok?
    requires g.Struct? && ControlOf(g.functor, |g.args|) == Some(Then)
    ensures Follows(v, Solve(fuel, w, o, true, sc, g, s), Native(fuel, w, o, db, Rewrite(o.names, sc, g, frame, at).value, t))
    decreases fuel, 1, g, 0
  {
    hide HidesResults, Loaded, SolveDeferred, NativeDeferred, Follows;
    EmittedControl(g.functor, 2);
    var safe, b := Rewrite(o.names, sc, g, frame, at).value, g.args[1];
    var b' := safe.args[1];
    Preserves(fuel, w, v, o, db, sc, g.args[0], frame, 2 * at, s, t);
    PreservesEach(fuel, w, v, o, db, sc, b, frame, 2 * at + 1);
    ChooseFollows(v, Solve(fuel, w, o, true, sc, g.args[0], s), Native(fuel, w, o, db, safe.args[0], t),
                  x => Solve(fuel, w, o, true, sc, b, x), x => Native(fuel, w, o, db, b', x), Fails(), Fails());
  }

  lemma {:induction false} PreservesCatch<S(!new)>(fuel: nat, w: World<S>, v: View<S>, o: Originals, db: Database, sc: Scope,
                                                   g: Term, frame: nat, at: nat, s: S, t: S)
    requires HidesResults(w, v) && Loaded(o, db) && v.same(s, t)
    requires Clear(v.hidden, g) && Rewrite(o.names, sc, g, frame, at).Ok?
    requires g.Struct? && ControlOf(g.functor, |g.args|) == Some(Catching)
    ensures Follows(v, Solve(fuel, w, o, true, sc, g, s), Native(fuel, w, o, db, Rewrite(o.names, sc, g, frame, at).value, t))
    decreases fuel, 1, g, 0
  {
    hide HidesResults, Loaded, SolveDeferred, NativeDeferred, Follows;
    Lawful(w, v);
    EmittedControl(g.functor, 3);
    var safe, b := Rewrite(o.names, sc, g, frame, at).value, g.args[2];
    var b' := safe.args[2];
    var p, q := Solve(fuel, w, o, true, sc, g.args[0], s), Native(fuel, w, o, db, safe.args[0], t);
    Preserves(fuel, w, v, o, db, sc, g.args[0], frame, 2 * at, s, t);
    PreservesEach(fuel, w, v, o, db, sc, b, frame, 2 * at + 1);
    BarrierFollows(v, p, q);
    CaughtFollows(w, v, g.args[1], s, t, Barrier(p), Barrier(q),
                  x => Solve(fuel, w, o, true, sc, b, x), x => Native(fuel, w, o, db, b', x));
  }

  lemma {:induction false} PreservesOpaque<S(!new)>(fuel: nat, w: World<S>, v: View<S>, o: Originals, db: Database, sc: Scope,
                                                    g: Term, k: OpaqueKind, frame: nat, at: nat, s: S, t: S)
    requires HidesResults(w, v) && Loaded(o, db) && v.same(s, t)
    requires Clear(v.hidden, g) && Rewrite(o.names, sc, g, frame, at).Ok?
    requires g.Struct? && ControlOf(g.functor, |g.args|) == Some(Opaque(k)) && !k.FindallO?
    ensures Follows(v, Solve(fuel, w, o, true, sc, g, s), Native(fuel, w, o, db, Rewrite(o.names, sc, g, frame, at).value, t))
    decreases fuel, 1, g, 0
  {
    hide HidesResults, Loaded, SolveDeferred, NativeDeferred, Follows;
    Lawful(w, v);
    EmittedControl(g.functor, |g.args|);
    assert ClearAll(v.hidden, g.args);
    var i, safe := GoalIndex(k), Rewrite(o.names, sc, g, frame, at).value;
    var p, q := Solve(fuel, w, o, true, sc, g.args[i], s), Native(fuel, w, o, db, safe.args[i], t);
    Preserves(fuel, w, v, o, db, sc, g.args[i], frame, 2 * at, s, t);
    BarrierFollows(v, p, q);
    PostFollows(w, v, k, g.args, s, t, Barrier(p), Barrier(q));
    assert Post(w, k, safe.args, t, Barrier(q)) == Post(w, k, g.args, t, Barrier(q));
  }

  lemma {:induction false} PreservesFindall<S(!new)>(fuel: nat, w: World<S>, v: View<S>, o: Originals, db: Database, sc: Scope,
                                                     g: Term, frame: nat, at: nat, s: S, t: S)
    requires HidesResults(w, v) && Loaded(o, db) && v.same(s, t)
    requires Clear(v.hidden, g) && Rewrite(o.names, sc, g, frame, at).Ok?
    requires g.Struct? && ControlOf(g.functor, |g.args|) == Some(Opaque(FindallO))
    ensures Follows(v, Solve(fuel, w, o, true, sc, g, s), Native(fuel, w, o, db, Rewrite(o.names, sc, g, frame, at).value, t))
    decreases fuel, 1, g, 0
  {
    hide HidesResults, Loaded, Solve, Native, Follows;
    var inner := Rewrite(o.names, sc, g.args[1], frame, 2 * at).value;
    var goal := Struct(Iso(Inner(FindallO)), g.args[1 := inner][2 := Aux(ResultRole, frame, at)]);
    assert Rewrite(o.names, sc, g, frame, at).value == ThenUnify(goal, g.args[2], Aux(ResultRole, frame, at));
    assert ClearAll(v.hidden, g.args);
    var p, q := Solve(fuel, w, o, true, sc, g.args[1], s), Native(fuel, w, o, db, inner, t);
    Preserves(fuel, w, v, o, db, sc, g.args[1], frame, 2 * at, s, t);
    BarrierFollows(v, p, q);
    SolveFindall(fuel, w, o, sc, g, s);
    NativeFindall(fuel, w, o, db, goal.args, t);
    FindallFollows(fuel, w, v, o, db, g.args, goal, frame, at, s, t, Barrier(p), Barrier(q));
  }

  lemma {:induction false} PreservesComputed<S(!new)>(fuel: nat, w: World<S>, v: View<S>, o: Originals, db: Database, sc: Scope,
                                                      g: Term, frame: nat, at: nat, s: S, t: S)
    requires HidesResults(w, v) && Loaded(o, db) && v.same(s, t)
    requires Clear(v.hidden, g) && Rewrite(o.names, sc, g, frame, at).Ok?
    requires g.Struct? && ComputedOf(g.functor, |g.args|).Some?
    ensures Follows(v, Solve(fuel, w, o, true, sc, g, s), Native(fuel, w, o, db, Rewrite(o.names, sc, g, frame, at).value, t))
    decreases fuel, 1, g, 0
  {
    hide HidesResults, Loaded, Solve, Native, Follows;
    Lawful(w, v);
    var c, result := ComputedOf(g.functor, |g.args|).value, Aux(ResultRole, frame, at);
    var input, out := g.args[InputIndex(c)], g.args[1 - InputIndex(c)];
    var goal := Struct(Computing(c), [input, result]);
    assert ClearAll(v.hidden, g.args);
    ComputedSame(w, v, c, s, t, input);
    SolveComputed(fuel, w, o, true, sc, g, s);
    NativeComputed(fuel, w, o, db, c, input, result, t);
    if w.compute(c, s, input).Ok? {
      ThenUnified(fuel, w, v, o, db, goal, out, frame, at, w.compute(c, s, input).value, s, t, t);
    } else {
      ThenNothing(fuel, w, o, db, goal, out, result, t);
      EndsAlike(v, Raise(w.compute(c, s, input).error));
    }
  }

  /** Ordinary goals: the flat name that native execution looks up denotes the predicate the scope resolves to. */
  lemma {:induction false} PreservesResolved<S(!new)>(fuel: nat, w: World<S>, v: View<S>, o: Originals, db: Database, sc: Scope,
                                                      g: Term, frame: nat, at: nat, s: S, t: S)
    requires HidesResults(w, v) && Loaded(o, db) && v.same(s, t)
    requires Clear(v.hidden, g) && Rewrite(o.names, sc, g, frame, at).Ok?
    requires g.Struct? && ControlOf(g.functor, |g.args|).None? && DeferredOf(g.functor, |g.args|).None?
    requires ComputedOf(g.functor, |g.args|).None?
    ensures Follows(v, Solve(fuel, w, o, true, sc, g, s), Native(fuel, w, o, db, Rewrite(o.names, sc, g, frame, at).value, t))
    decreases fuel, 1, g, 0
  {
    hide HidesResults, Loaded, Solve, Native, Follows, Matching;
    Lawful(w, v);
    var f, n, ns, safe := g.functor, |g.args|, o.names, Rewrite(o.names, sc, g, frame, at).value;
    assert Resolve(ns, sc, f, g.args) == Ok(safe) && ClearAll(v.hidden, g.args);
    LoadedHere(o, db, f, n);
    MatchingClear(v.hidden, o.local, f, n);
    MatchingClear(v.hidden, o.shared, f, n);
    SolveResolved(fuel, w, o, true, sc, g, s);
    NativeResolved(fuel, w, o, db, sc, f, g.args, t);
    if (f, n) in ns.guarded {
      CallLibFollows(w, v, fuel, Iso(Guarded(f)), g.args, s, t);
    } else if sc == Local && (f, n) in ns.owned {
      PreservesCalled(fuel, w, v, o, db, Local, Matching(o.local, f, n), Matching(db.clauses, f, n), g.args, s, t);
    } else if (f, n) in ns.shared {
      PreservesCalled(fuel, w, v, o, db, Shared, Matching(o.shared, f, n), Matching(db.clauses, Internal(f), n), g.args, s, t);
    } else {
      BuiltinFollows(fuel, w, v, f, g.args, s, t);
    }
  }

  lemma {:induction false} PreservesCalled<S(!new)>(fuel: nat, w: World<S>, v: View<S>, o: Originals, db: Database, sc: Scope,
                                                    source: seq<Clause>, native: seq<Clause>, args: seq<Term>, s: S, t: S)
    requires HidesResults(w, v) && Loaded(o, db) && v.same(s, t) && ClearAll(v.hidden, args)
    requires ClearClauses(v.hidden, source) && Agrees(o.names, sc, source, native)
    ensures Follows(v, SolveCalled(fuel, w, o, true, sc, source, args, s), NativeCalled(fuel, w, o, db, native, args, t))
    decreases fuel, 0
  {
    hide HidesResults, Loaded, Follows, Agrees, SolveClauses, NativeClauses;
    if fuel == 0 {
      EndsAlike(v, Starved);
    } else {
      PreservesClauses(fuel - 1, w, v, o, db, sc, source, native, args, s, t);
    }
  }

  lemma {:induction false} PreservesClauses<S(!new)>(fuel: nat, w: World<S>, v: View<S>, o: Originals, db: Database, sc: Scope,
                                                     source: seq<Clause>, native: seq<Clause>, args: seq<Term>, s: S, t: S)
    requires HidesResults(w, v) && Loaded(o, db) && v.same(s, t) && ClearAll(v.hidden, args)
    requires ClearClauses(v.hidden, source) && Agrees(o.names, sc, source, native)
    ensures Follows(v, SolveClauses(fuel, w, o, true, sc, source, args, s), NativeClauses(fuel, w, o, db, native, args, t))
    decreases fuel, 2, |source|
  {
    hide HidesResults, Loaded, SolveDeferred, NativeDeferred, Follows;
    Lawful(w, v);
    if source == [] {
      EmptyFails(fuel, w, o, db, o.names, sc, native, args, t);
      EndsAlike(v, Done);
    } else {
      var a, b := SolveClause(fuel, w, o, true, sc, source[0], args, s), NativeClause(fuel, w, o, db, native[0], args, t);
      var c, d := SolveClauses(fuel, w, o, true, sc, source[1..], args, s), NativeClauses(fuel, w, o, db, native[1..], args, t);
      PreservesClause(fuel, w, v, o, db, sc, source[0], native[0], args, s, t);
      PreservesClauses(fuel, w, v, o, db, sc, source[1..], native[1..], args, s, t);
      ElseFollows(v, a, b, c, d);
      BarrierFollows(v, Else(a, c), Else(b, d));
    }
  }

  lemma {:induction false} PreservesClause<S(!new)>(fuel: nat, w: World<S>, v: View<S>, o: Originals, db: Database, sc: Scope,
                                                    c: Clause, native: Clause, args: seq<Term>, s: S, t: S)
    requires HidesResults(w, v) && Loaded(o, db) && v.same(s, t) && ClearAll(v.hidden, args)
    requires Clear(v.hidden, c.head) && Clear(v.hidden, c.body)
    requires c.head.Struct? && native.head.Struct? && c.head.args == native.head.args
    requires Rewrite(o.names, sc, c.body, 0, 1) == Ok(native.body)
    ensures Follows(v, SolveClause(fuel, w, o, true, sc, c, args, s), NativeClause(fuel, w, o, db, native, args, t))
    decreases fuel, 2, 0
  {
    hide HidesResults, Loaded, SolveDeferred, NativeDeferred, Follows;
    Lawful(w, v);
    var k, s1, t1 := w.newFrame(s).0, w.newFrame(s).1, w.newFrame(t).1;
    FrameSame(w, v, s, t);
    RewriteCommutesWithRename(o.names, sc, c.body, 0, 1, k);
    RenameClear(v.hidden, c.head, k);
    RenameClear(v.hidden, c.body, k);
    PreservesEach(fuel, w, v, o, db, sc, Rename(c.body, k), k, 1);
    var actual := Arguments(Rename(c.head, k));
    assert actual == Arguments(Rename(native.head, k)) && ClearAll(v.hidden, actual);
    UnifyFollows(w, v, s1, t1, actual, args);
  }

  lemma {:induction false} PreservesCall<S(!new)>(fuel: nat, w: World<S>, v: View<S>, o: Originals, db: Database, sc: Scope,
                                                  g: Term, s: S, t: S)
    requires HidesResults(w, v) && Loaded(o, db) && v.same(s, t) && Clear(v.hidden, g)
    ensures Follows(v, SolveCall(fuel, w, o, true, sc, g, s), NativeCall(fuel, w, o, db, sc, g, t))
    decreases fuel, 2
  {
    hide HidesResults, Loaded, SolveDeferred, NativeDeferred, Follows;
    Lawful(w, v);
    var r := w.resolve(s, g);
    ResolveSame(w, v, s, t, g);
    if r.None? {
      EndsAlike(v, Raise(CyclicTerm));
    } else if r.value.Variable() {
      EndsAlike(v, Raise(Instantiation(ExecuteK)));
    } else {
      var k, s1, t1 := w.newFrame(s).0, w.newFrame(s).1, w.newFrame(t).1;
      FrameSame(w, v, s, t);
      RewriteRejects(o.names, sc, r.value, k, 1);
      if Rewrite(o.names, sc, r.value, k, 1).Err? {
        EndsAlike(v, Raise(Rewrite(o.names, sc, r.value, k, 1).error));
      } else {
        Preserves(fuel, w, v, o, db, sc, r.value, k, 1, s1, t1);
        BarrierFollows(v, Solve(fuel, w, o, true, sc, r.value, s1),
                       Native(fuel, w, o, db, Rewrite(o.names, sc, r.value, k, 1).value, t1));
      }
    }
  }

  /** bagof/3 and setof/3: where rewriting the goal adds no variable, both sides group by the same variables. */
  lemma {:induction false} PreservesGroup<S(!new)>(fuel: nat, w: World<S>, v: View<S>, o: Originals, db: Database, k: DeferredKind,
                                                   sc: Scope, args: seq<Term>, s: S, t: S)
    requires HidesResults(w, v) && Loaded(o, db) && v.same(s, t) && ClearAll(v.hidden, args) && fuel > 0 && IsGrouping(k)
    ensures Follows(v, SolveDeferred(fuel, w, o, true, k, sc, args, s), NativeDeferred(fuel, w, o, db, k, sc, args, t))
    decreases fuel - 1, 5
  {
    hide HidesResults, Loaded, SolveDeferred, NativeDeferred, Follows, Solve, Native, GroupRun, Adds, Rewrite;
    Lawful(w, v);
    if |args| != 3 {
      GroupIllFormed(fuel, w, v, o, db, k, sc, args, s, t);
    } else {
      ResolveSame(w, v, s, t, args[0]);
      ResolveSame(w, v, s, t, args[1]);
      FrameSame(w, v, s, t);
      var template, goal, frame := w.resolve(s, args[0]), w.resolve(s, args[1]), w.newFrame(s).0;
      if template.None? || goal.None? {
        GroupIllFormed(fuel, w, v, o, db, k, sc, args, s, t);
      } else {
        PartsClear(v.hidden, goal.value);
        RewriteRejects(o.names, sc, StripCaret(goal.value), frame, 1);
        if Rewrite(o.names, sc, StripCaret(goal.value), frame, 1).Err? {
          GroupRefused(fuel, w, v, o, db, k, sc, args, goal.value, s, t);
        } else if Adds(StripCaret(goal.value)) {
          GroupStops(fuel, w, v, o, db, k, sc, args, goal.value, s, t);
        } else {
          PreservesKeptGroup(fuel - 1, w, v, o, db, k, sc, template.value, goal.value, args[2], frame, w.newFrame(s).1, w.newFrame(t).1);
          GroupTaken(fuel, w, v, o, db, k, sc, args, template.value, goal.value, s, t);
        }
      }
    }
  }

  lemma {:induction false} PreservesKeptGroup<S(!new)>(fuel: nat, w: World<S>, v: View<S>, o: Originals, db: Database,
                                                       k: DeferredKind, sc: Scope, template: Term, goal: Term, out: Term,
                                                       frame: nat, s: S, t: S)
    requires HidesResults(w, v) && Loaded(o, db) && v.same(s, t)
    requires Clear(v.hidden, template) && Clear(v.hidden, StripCaret(goal)) && Clear(v.hidden, out)
    requires Rewrite(o.names, sc, StripCaret(goal), frame, 1).Ok? && !Adds(StripCaret(goal))
    ensures var body := StripCaret(goal);
            var safe := Rewrite(o.names, sc, body, frame, 1).value;
            Follows(v, GroupRun(w, k, template, FreeVariables(template, Quantified(goal), body), out, s,
                                Barrier(Solve(fuel, w, o, true, sc, body, s))),
                    GroupRun(w, k, template, FreeVariables(template, Quantified(goal), safe), out, t,
                             Barrier(Native(fuel, w, o, db, safe, t))))
    decreases fuel, 1, StripCaret(goal), 3
  {
    hide HidesResults, Loaded, SolveDeferred, NativeDeferred, Follows;
    Lawful(w, v);
    var body := StripCaret(goal);
    var safe := Rewrite(o.names, sc, body, frame, 1).value;
    RewriteKeepsVariables(o.names, sc, body, frame, 1);
    FreeClear(v.hidden, template, Quantified(goal), body);
    Preserves(fuel, w, v, o, db, sc, body, frame, 1, s, t);
    BarrierFollows(v, Solve(fuel, w, o, true, sc, body, s), Native(fuel, w, o, db, safe, t));
    GroupRunFollows(w, v, k, template, FreeVariables(template, Quantified(goal), body), out, s, t,
                    Barrier(Solve(fuel, w, o, true, sc, body, s)), Barrier(Native(fuel, w, o, db, safe, t)));
  }

  lemma {:induction false} PreservesDeferred<S(!new)>(fuel: nat, w: World<S>, v: View<S>, o: Originals, db: Database,
                                                      k: DeferredKind, sc: Scope, args: seq<Term>, s: S, t: S)
    requires HidesResults(w, v) && Loaded(o, db) && v.same(s, t) && ClearAll(v.hidden, args)
    ensures Follows(v, SolveDeferred(fuel, w, o, true, k, sc, args, s), NativeDeferred(fuel, w, o, db, k, sc, args, t))
    decreases fuel, 0
  {
    if fuel == 0 {
      SolveStarved(w, o, true, k, sc, args, s);
      NativeStarved(w, o, db, k, sc, args, t);
    } else if IsGrouping(k) {
      PreservesGroup(fuel, w, v, o, db, k, sc, args, s, t);
    } else {
      PreservesUngrouped(fuel, w, v, o, db, k, sc, args, s, t);
    }
  }

  lemma {:induction false} PreservesUngrouped<S(!new)>(fuel: nat, w: World<S>, v: View<S>, o: Originals, db: Database,
                                                       k: DeferredKind, sc: Scope, args: seq<Term>, s: S, t: S)
    requires HidesResults(w, v) && Loaded(o, db) && v.same(s, t) && ClearAll(v.hidden, args) && fuel > 0 && !IsGrouping(k)
    ensures Follows(v, SolveDeferred(fuel, w, o, true, k, sc, args, s), NativeDeferred(fuel, w, o, db, k, sc, args, t))
    decreases fuel - 1, 5
  {
    PreservesWrapper(fuel - 1, w, v, o, db, k, sc, args, s, t);
    SolveDeferredIs(fuel, w, o, true, k, sc, args, s);
    NativeDeferredIs(fuel, w, o, db, k, sc, args, t);
  }

  lemma {:induction false} PreservesWrapper<S(!new)>(fuel: nat, w: World<S>, v: View<S>, o: Originals, db: Database,
                                                     k: DeferredKind, sc: Scope, args: seq<Term>, s: S, t: S)
    requires HidesResults(w, v) && Loaded(o, db) && v.same(s, t) && ClearAll(v.hidden, args) && !IsGrouping(k)
    ensures Follows(v, RunDeferred(fuel, w, o, k, sc, args, s, SolveExec(fuel, w, o, true)),
                    RunDeferred(fuel, w, o, k, sc, args, t, NativeExec(fuel, w, o, db)))
    decreases fuel, 4
  {
    PreservesExec(fuel, w, v, o, db, sc);
    DeferredFollows(fuel, w, v, o, k, sc, args, s, t, SolveExec(fuel, w, o, true), NativeExec(fuel, w, o, db));
  }

  lemma {:induction false} PreservesExec<S(!new)>(fuel: nat, w: World<S>, v: View<S>, o: Originals, db: Database, sc: Scope)
    requires HidesResults(w, v) && Loaded(o, db)
    ensures ExecFollows(v, sc, SolveExec(fuel, w, o, true), NativeExec(fuel, w, o, db))
    decreases fuel, 3
  {
    var e, f := SolveExec(fuel, w, o, true), NativeExec(fuel, w, o, db);
    forall g, x, y | v.same(x, y) && Clear(v.hidden, g) ensures Follows(v, e(sc, g, x), f(sc, g, y)) {
      PreservesCall(fuel, w, v, o, db, sc, g, x, y);
    }
  }
}
