/** The strict reference run stops where grouping would change; as far as it goes it is the plain reference run. Both
    interpret the original clauses, and they differ only in what they do before a grouping. */
module Reference {
  import opened Terms
  import opened Policy
  import opened Runs
  import opened Runtime
  import opened Grouping
  import opened Interpreters
  import opened Simulation

  lemma {:induction false} StrictGoal<S(!new)>(fuel: nat, w: World<S>, v: View<S>, o: Originals, sc: Scope, g: Term, s: S, t: S)
    requires Respects(w, v) && v.stop && v.same(s, t) && Clear(v.hidden, g)
    requires ClearClauses(v.hidden, o.local) && ClearClauses(v.hidden, o.shared)
    ensures Follows(v, Solve(fuel, w, o, true, sc, g, s), Solve(fuel, w, o, false, sc, g, t))
    decreases fuel, 1, g, 1
  {
    hide Respects, SolveDeferred, Follows;
    match g
    case Var(_, _) => StrictDeferred(fuel, w, v, o, ExecuteD, sc, [g], s, t);
    case Aux(_, _, _) => StrictDeferred(fuel, w, v, o, ExecuteD, sc, [g], s, t);
    case Int(_) => EndsAlike(v, Raise(NotCallable(g)));
    case Struct(f, args) =>
      assert ClearAll(v.hidden, args);
      if ControlOf(f, |args|).Some? {
        StrictControl(fuel, w, v, o, sc, g, s, t);
      } else if DeferredOf(f, |args|).Some? {
        StrictDeferred(fuel, w, v, o, DeferredOf(f, |args|).value, sc, args, s, t);
      } else if ComputedOf(f, |args|).Some? {
        SolveComputed(fuel, w, o, true, sc, g, s);
        SolveComputed(fuel, w, o, false, sc, g, t);
        StrictComputed(w, v, ComputedOf(f, |args|).value, args, s, t);
      } else {
        StrictResolved(fuel, w, v, o, sc, g, s, t);
      }
  }

  lemma StrictComputed<S(!new)>(w: World<S>, v: View<S>, c: ComputedKind, args: seq<Term>, s: S, t: S)
    requires Respects(w, v) && v.same(s, t) && ClearAll(v.hidden, args) && |args| == 2
    ensures Follows(v, Compute(w, c, args[InputIndex(c)], args[1 - InputIndex(c)], s), Compute(w, c, args[InputIndex(c)], args[1 - InputIndex(c)], t))
  {
    var input, out := args[InputIndex(c)], args[1 - InputIndex(c)];
    hide Respects, Follows;
    ComputedSame(w, v, c, s, t, input);
    if w.compute(c, s, input).Ok? {
      UnifyFollows(w, v, s, t, [out], [w.compute(c, s, input).value]);
    } else {
      EndsAlike(v, Raise(w.compute(c, s, input).error));
    }
  }

  lemma {:induction false} StrictEach<S(!new)>(fuel: nat, w: World<S>, v: View<S>, o: Originals, sc: Scope, g: Term)
    requires Respects(w, v) && v.stop && Clear(v.hidden, g)
    requires ClearClauses(v.hidden, o.local) && ClearClauses(v.hidden, o.shared)
    ensures forall s, t :: v.same(s, t) ==> Follows(v, Solve(fuel, w, o, true, sc, g, s), Solve(fuel, w, o, false, sc, g, t))
    decreases fuel, 1, g, 2
  {
    forall s, t | v.same(s, t) ensures Follows(v, Solve(fuel, w, o, true, sc, g, s), Solve(fuel, w, o, false, sc, g, t)) {
      StrictGoal(fuel, w, v, o, sc, g, s, t);
    }
  }

  lemma {:induction false} StrictControl<S(!new)>(fuel: nat, w: World<S>, v: View<S>, o: Originals, sc: Scope, g: Term, s: S, t: S)
    requires Respects(w, v) && v.stop && v.same(s, t) && Clear(v.hidden, g)
    requires ClearClauses(v.hidden, o.local) && ClearClauses(v.hidden, o.shared)
    requires g.Struct? && ControlOf(g.functor, |g.args|).Some?
    ensures Follows(v, Solve(fuel, w, o, true, sc, g, s), Solve(fuel, w, o, false, sc, g, t))
    decreases fuel, 1, g, 0
  {
    hide Respects, SolveDeferred, Follows;
    var args := g.args;
    assert ClearAll(v.hidden, args);
    match ControlOf(g.functor, |args|).value
    case And =>
      StrictGoal(fuel, w, v, o, sc, args[0], s, t);
      StrictEach(fuel, w, v, o, sc, args[1]);
      BindFollows(v, Solve(fuel, w, o, true, sc, args[0], s), Solve(fuel, w, o, false, sc, args[0], t),
                  x => Solve(fuel, w, o, true, sc, args[1], x), x => Solve(fuel, w, o, false, sc, args[1], x));
    case Or =>
      var c, d := Solve(fuel, w, o, true, sc, args[1], s), Solve(fuel, w, o, false, sc, args[1], t);
      StrictGoal(fuel, w, v, o, sc, args[1], s, t);
      if IsArrow(args[0]) {
        StrictChoice(fuel, w, v, o, sc, args[0].args, s, t, c, d);
      } else {
        StrictGoal(fuel, w, v, o, sc, args[0], s, t);
        ElseFollows(v, Solve(fuel, w, o, true, sc, args[0], s), Solve(fuel, w, o, false, sc, args[0], t), c, d);
      }
    case Then =>
      EndsAlike(v, Done);
      StrictChoice(fuel, w, v, o, sc, args, s, t, Fails(), Fails());
    case Catching =>
      var p, q := Solve(fuel, w, o, true, sc, args[0], s), Solve(fuel, w, o, false, sc, args[0], t);
      StrictGoal(fuel, w, v, o, sc, args[0], s, t);
      StrictEach(fuel, w, v, o, sc, args[2]);
      BarrierFollows(v, p, q);
      CaughtFollows(w, v, args[1], s, t, Barrier(p), Barrier(q),
                    x => Solve(fuel, w, o, true, sc, args[2], x), x => Solve(fuel, w, o, false, sc, args[2], x));
    case Opaque(k) =>
      var i := GoalIndex(k);
      var p, q := Solve(fuel, w, o, true, sc, args[i], s), Solve(fuel, w, o, false, sc, args[i], t);
      StrictGoal(fuel, w, v, o, sc, args[i], s, t);
      BarrierFollows(v, p, q);
      PostFollows(w, v, k, args, s, t, Barrier(p), Barrier(q));
  }

  lemma {:induction false} StrictChoice<S(!new)>(fuel: nat, w: World<S>, v: View<S>, o: Originals, sc: Scope, arrow: seq<Term>,
                                                 s: S, t: S, c: Run<S>, d: Run<S>)
    requires Respects(w, v) && v.stop && v.same(s, t) && |arrow| == 2 && ClearAll(v.hidden, arrow) && Follows(v, c, d)
    requires ClearClauses(v.hidden, o.local) && ClearClauses(v.hidden, o.shared)
    ensures Follows(v, Choose(Solve(fuel, w, o, true, sc, arrow[0], s), x => Solve(fuel, w, o, true, sc, arrow[1], x), c),
                    Choose(Solve(fuel, w, o, false, sc, arrow[0], t), x => Solve(fuel, w, o, false, sc, arrow[1], x), d))
    decreases fuel, 1, arrow, 2
  {
    hide Respects, SolveDeferred, Follows;
    StrictGoal(fuel, w, v, o, sc, arrow[0], s, t);
    StrictEach(fuel, w, v, o, sc, arrow[1]);
    ChooseFollows(v, Solve(fuel, w, o, true, sc, arrow[0], s), Solve(fuel, w, o, false, sc, arrow[0], t),
                  x => Solve(fuel, w, o, true, sc, arrow[1], x), x => Solve(fuel, w, o, false, sc, arrow[1], x), c, d);
  }

  lemma {:induction false} StrictResolved<S(!new)>(fuel: nat, w: World<S>, v: View<S>, o: Originals, sc: Scope, g: Term, s: S, t: S)
    requires Respects(w, v) && v.stop && v.same(s, t) && Clear(v.hidden, g)
    requires ClearClauses(v.hidden, o.local) && ClearClauses(v.hidden, o.shared)
    requires g.Struct? && ControlOf(g.functor, |g.args|).None? && DeferredOf(g.functor, |g.args|).None?
    requires ComputedOf(g.functor, |g.args|).None?
    ensures Follows(v, Solve(fuel, w, o, true, sc, g, s), Solve(fuel, w, o, false, sc, g, t))
    decreases fuel, 1, g, 0
  {
    hide Respects, Solve, Follows, Matching;
    var f, args := g.functor, g.args;
    assert ClearAll(v.hidden, args);
    CallLibFollows(w, v, fuel, Iso(Guarded(f)), args, s, t);
    BuiltinFollows(fuel, w, v, f, args, s, t);
    EndsAlike(v, Raise(Permission(f, |args|)));
    MatchingClear(v.hidden, o.local, f, |args|);
    MatchingClear(v.hidden, o.shared, f, |args|);
    StrictCalled(fuel, w, v, o, Local, Matching(o.local, f, |args|), args, s, t);
    StrictCalled(fuel, w, v, o, Shared, Matching(o.shared, f, |args|), args, s, t);
    SolveResolved(fuel, w, o, true, sc, g, s);
    SolveResolved(fuel, w, o, false, sc, g, t);
  }

  lemma {:induction false} StrictCalled<S(!new)>(fuel: nat, w: World<S>, v: View<S>, o: Originals, sc: Scope, cs: seq<Clause>,
                                                 args: seq<Term>, s: S, t: S)
    requires Respects(w, v) && v.stop && v.same(s, t) && ClearClauses(v.hidden, cs) && ClearAll(v.hidden, args)
    requires ClearClauses(v.hidden, o.local) && ClearClauses(v.hidden, o.shared)
    ensures Follows(v, SolveCalled(fuel, w, o, true, sc, cs, args, s), SolveCalled(fuel, w, o, false, sc, cs, args, t))
    decreases fuel, 0
  {
    hide Respects, Follows, SolveClauses;
    if fuel == 0 {
      EndsAlike(v, Starved);
    } else {
      StrictClauses(fuel - 1, w, v, o, sc, cs, args, s, t);
    }
  }

  lemma {:induction false} StrictClauses<S(!new)>(fuel: nat, w: World<S>, v: View<S>, o: Originals, sc: Scope, cs: seq<Clause>,
                                                  args: seq<Term>, s: S, t: S)
    requires Respects(w, v) && v.stop && v.same(s, t) && ClearClauses(v.hidden, cs) && ClearAll(v.hidden, args)
    requires ClearClauses(v.hidden, o.local) && ClearClauses(v.hidden, o.shared)
    ensures Follows(v, SolveClauses(fuel, w, o, true, sc, cs, args, s), SolveClauses(fuel, w, o, false, sc, cs, args, t))
    decreases fuel, 2, |cs|
  {
    hide Respects, SolveDeferred, Follows;
    if cs == [] {
      EndsAlike(v, Done);
    } else {
      var a, b := SolveClause(fuel, w, o, true, sc, cs[0], args, s), SolveClause(fuel, w, o, false, sc, cs[0], args, t);
      var c, d := SolveClauses(fuel, w, o, true, sc, cs[1..], args, s), SolveClauses(fuel, w, o, false, sc, cs[1..], args, t);
      StrictClause(fuel, w, v, o, sc, cs[0], args, s, t);
      StrictClauses(fuel, w, v, o, sc, cs[1..], args, s, t);
      ElseFollows(v, a, b, c, d);
      BarrierFollows(v, Else(a, c), Else(b, d));
    }
  }

  lemma {:induction false} StrictClause<S(!new)>(fuel: nat, w: World<S>, v: View<S>, o: Originals, sc: Scope, c: Clause,
                                                 args: seq<Term>, s: S, t: S)
    requires Respects(w, v) && v.stop && v.same(s, t) && Clear(v.hidden, c.head) && Clear(v.hidden, c.body) && ClearAll(v.hidden, args)
    requires ClearClauses(v.hidden, o.local) && ClearClauses(v.hidden, o.shared)
    ensures Follows(v, SolveClause(fuel, w, o, true, sc, c, args, s), SolveClause(fuel, w, o, false, sc, c, args, t))
    decreases fuel, 2, 0
  {
    hide Respects, SolveDeferred, Follows;
    var k := w.newFrame(s).0;
    FrameSame(w, v, s, t);
    RenameClear(v.hidden, c.head, k);
    RenameClear(v.hidden, c.body, k);
    StrictEach(fuel, w, v, o, sc, Rename(c.body, k));
    assert ClearAll(v.hidden, Arguments(Rename(c.head, k)));
    UnifyFollows(w, v, w.newFrame(s).1, w.newFrame(t).1, Arguments(Rename(c.head, k)), args);
    EndsAlike(v, Done);
  }

  lemma {:induction false} StrictCall<S(!new)>(fuel: nat, w: World<S>, v: View<S>, o: Originals, sc: Scope, g: Term, s: S, t: S)
    requires Respects(w, v) && v.stop && v.same(s, t) && Clear(v.hidden, g)
    requires ClearClauses(v.hidden, o.local) && ClearClauses(v.hidden, o.shared)
    ensures Follows(v, SolveCall(fuel, w, o, true, sc, g, s), SolveCall(fuel, w, o, false, sc, g, t))
    decreases fuel, 2
  {
    hide Respects, SolveDeferred, Follows;
    ResolveSame(w, v, s, t, g);
    FrameSame(w, v, s, t);
    if w.resolve(s, g).None? {
      EndsAlike(v, Raise(CyclicTerm));
    } else {
      var x, s1, t1 := w.resolve(s, g).value, w.newFrame(s).1, w.newFrame(t).1;
      EndsAlike(v, Raise(Instantiation(ExecuteK)));
      if FirstForbidden(o.names, sc, x).Some? {
        EndsAlike(v, Raise(FirstForbidden(o.names, sc, x).value));
      }
      StrictGoal(fuel, w, v, o, sc, x, s1, t1);
      BarrierFollows(v, Solve(fuel, w, o, true, sc, x, s1), Solve(fuel, w, o, false, sc, x, t1));
    }
  }

  lemma {:induction false} StrictGroup<S(!new)>(fuel: nat, w: World<S>, v: View<S>, o: Originals, k: DeferredKind, sc: Scope,
                                                args: seq<Term>, s: S, t: S)
    requires Respects(w, v) && v.stop && v.same(s, t) && ClearAll(v.hidden, args) && fuel > 0 && IsGrouping(k)
    requires ClearClauses(v.hidden, o.local) && ClearClauses(v.hidden, o.shared)
    ensures Follows(v, SolveDeferred(fuel, w, o, true, k, sc, args, s), SolveDeferred(fuel, w, o, false, k, sc, args, t))
    decreases fuel - 1, 5
  {
    hide Respects, Follows, Solve, GroupRun, FreeVariables, RunDeferred;
    EndsAlike(v, Done);
    EndsAlike(v, Raise(CyclicTerm));
    if |args| == 3 {
      ResolveSame(w, v, s, t, args[0]);
      ResolveSame(w, v, s, t, args[1]);
      FrameSame(w, v, s, t);
      if w.resolve(s, args[0]).Some? && w.resolve(s, args[1]).Some? {
        var template, goal, s1, t1 := w.resolve(s, args[0]).value, w.resolve(s, args[1]).value, w.newFrame(s).1, w.newFrame(t).1;
        PartsClear(v.hidden, goal);
        if FirstForbidden(o.names, sc, StripCaret(goal)).Some? {
          EndsAlike(v, Raise(FirstForbidden(o.names, sc, StripCaret(goal)).value));
        } else if Adds(StripCaret(goal)) {
          StopsHere(v, SolveDeferred(fuel, w, o, false, k, sc, args, t));
        } else {
          StrictTaken(fuel - 1, w, v, o, k, sc, template, StripCaret(goal), Quantified(goal), args[2], s1, t1);
        }
      }
    }
  }

  lemma StopsHere<S>(v: View<S>, r: Run<S>)
    requires v.stop
    ensures Follows(v, Run([], Regrouped), r)
  {
  }

  lemma {:induction false} StrictTaken<S(!new)>(fuel: nat, w: World<S>, v: View<S>, o: Originals, k: DeferredKind, sc: Scope,
                                                template: Term, body: Term, quantified: seq<Term>, out: Term, s: S, t: S)
    requires Respects(w, v) && v.stop && v.same(s, t) && Clear(v.hidden, template) && Clear(v.hidden, body) && Clear(v.hidden, out)
    requires ClearClauses(v.hidden, o.local) && ClearClauses(v.hidden, o.shared)
    ensures Follows(v, GroupRun(w, k, template, FreeVariables(template, quantified, body), out, s,
                                Barrier(Solve(fuel, w, o, true, sc, body, s))),
                    GroupRun(w, k, template, FreeVariables(template, quantified, body), out, t,
                             Barrier(Solve(fuel, w, o, false, sc, body, t))))
    decreases fuel, 1, body, 3
  {
    hide Respects, Follows, Solve, GroupRun;
    var p, q := Solve(fuel, w, o, true, sc, body, s), Solve(fuel, w, o, false, sc, body, t);
    StrictGoal(fuel, w, v, o, sc, body, s, t);
    BarrierFollows(v, p, q);
    FreeClear(v.hidden, template, quantified, body);
    GroupRunFollows(w, v, k, template, FreeVariables(template, quantified, body), out, s, t, Barrier(p), Barrier(q));
  }

  lemma {:induction false} StrictDeferred<S(!new)>(fuel: nat, w: World<S>, v: View<S>, o: Originals, k: DeferredKind, sc: Scope,
                                                   args: seq<Term>, s: S, t: S)
    requires Respects(w, v) && v.stop && v.same(s, t) && ClearAll(v.hidden, args)
    requires ClearClauses(v.hidden, o.local) && ClearClauses(v.hidden, o.shared)
    ensures Follows(v, SolveDeferred(fuel, w, o, true, k, sc, args, s), SolveDeferred(fuel, w, o, false, k, sc, args, t))
    decreases fuel, 0
  {
    if fuel == 0 {
      SolveStarved(w, o, true, k, sc, args, s);
      SolveStarved(w, o, false, k, sc, args, t);
    } else if IsGrouping(k) {
      StrictGroup(fuel, w, v, o, k, sc, args, s, t);
    } else {
      StrictUngrouped(fuel, w, v, o, k, sc, args, s, t);
    }
  }

  lemma {:induction false} StrictUngrouped<S(!new)>(fuel: nat, w: World<S>, v: View<S>, o: Originals, k: DeferredKind, sc: Scope,
                                                    args: seq<Term>, s: S, t: S)
    requires Respects(w, v) && v.stop && v.same(s, t) && ClearAll(v.hidden, args) && fuel > 0 && !IsGrouping(k)
    requires ClearClauses(v.hidden, o.local) && ClearClauses(v.hidden, o.shared)
    ensures Follows(v, SolveDeferred(fuel, w, o, true, k, sc, args, s), SolveDeferred(fuel, w, o, false, k, sc, args, t))
    decreases fuel - 1, 5
  {
    StrictWrapper(fuel - 1, w, v, o, k, sc, args, s, t);
    SolveDeferredIs(fuel, w, o, true, k, sc, args, s);
    SolveDeferredIs(fuel, w, o, false, k, sc, args, t);
  }

  lemma {:induction false} StrictWrapper<S(!new)>(fuel: nat, w: World<S>, v: View<S>, o: Originals, k: DeferredKind, sc: Scope,
                                                  args: seq<Term>, s: S, t: S)
    requires Respects(w, v) && v.stop && v.same(s, t) && ClearAll(v.hidden, args) && !IsGrouping(k)
    requires ClearClauses(v.hidden, o.local) && ClearClauses(v.hidden, o.shared)
    ensures Follows(v, RunDeferred(fuel, w, o, k, sc, args, s, SolveExec(fuel, w, o, true)),
                    RunDeferred(fuel, w, o, k, sc, args, t, SolveExec(fuel, w, o, false)))
    decreases fuel, 4
  {
    StrictExec(fuel, w, v, o, sc);
    DeferredFollows(fuel, w, v, o, k, sc, args, s, t, SolveExec(fuel, w, o, true), SolveExec(fuel, w, o, false));
  }

  lemma {:induction false} StrictExec<S(!new)>(fuel: nat, w: World<S>, v: View<S>, o: Originals, sc: Scope)
    requires Respects(w, v) && v.stop && ClearClauses(v.hidden, o.local) && ClearClauses(v.hidden, o.shared)
    ensures ExecFollows(v, sc, SolveExec(fuel, w, o, true), SolveExec(fuel, w, o, false))
    decreases fuel, 3
  {
    var e, f := SolveExec(fuel, w, o, true), SolveExec(fuel, w, o, false);
    forall g, x, y | v.same(x, y) && Clear(v.hidden, g) ensures Follows(v, e(sc, g, x), f(sc, g, y)) {
      StrictCall(fuel, w, v, o, sc, g, x, y);
    }
  }

  // ---------- equality of stores ----------

  /** Nothing is hidden, and only a store itself is the same. */
  ghost function Exactly<S>(): View<S> {
    View((s: S, t: S) => s == t, {}, true)
  }

  lemma {:induction false} AllClear(t: Term)
    ensures Clear({}, t)
  {
    if t.Struct? {
      forall i | 0 <= i < |t.args| ensures Clear({}, t.args[i]) {
        AllClear(t.args[i]);
      }
      assert ClearAll({}, t.args);
    }
  }

  lemma ExactlyRespected<S(!new)>(w: World<S>)
    ensures Respects(w, Exactly())
    ensures forall t :: Clear({}, t)
  {
    forall t ensures Clear({}, t) {
      AllClear(t);
    }
    var v := Exactly<S>();
    forall s, t, x, a: seq<S>, b: seq<S> ensures CollectLaw(w, v, s, t, x, a, b) {
      if |a| == |b| && Begins(v, a, b) {
        assert a == b;
      }
    }
    forall k, a, cs, s, t ensures RemoteLaw(w, v, k, a, cs, s, t) {
      if w.remote(k, a, cs, s).Callback? {
        AllClear(w.remote(k, a, cs, s).goal);
      }
    }
  }

  /** The strict run is the plain run, unless it stops before a grouping whose goal gets additional free variables. */
  lemma StrictIsPlain<S(!new)>(fuel: nat, w: World<S>, o: Originals, sc: Scope, g: Term, s: S)
    ensures var strict, plain := SolveCall(fuel, w, o, true, sc, g, s), SolveCall(fuel, w, o, false, sc, g, s);
            if strict.ending == Regrouped then strict.answers <= plain.answers else strict == plain
  {
    var v := Exactly<S>();
    ExactlyRespected(w);
    StrictCall(fuel, w, v, o, sc, g, s, s);
  }
}
