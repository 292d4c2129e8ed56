/** What stores mean, and that a run never forgets: every answer has all the bindings that its goal was called with. */
module Meanings {
  import opened Terms
  import opened Policy
  import opened Runs
  import opened Runtime
  import opened Grouping
  import opened Interpreters

  datatype Meaning<!S> = Meaning(
    possible: S -> bool,               // the store has a solution
    equal: (S, Term, Term) -> bool,    // its bindings make these two terms equal
    free: (S, Term) -> bool,           // it says nothing about this variable
    grown: (S, S) -> bool,             // the second store has all bindings of the first
    kept: (S, S) -> bool)              // and says no more about the variables that the first one has

  // ---------- native operations only add bindings ----------

  predicate GrownLaw<S>(m: Meaning<S>, s: S, t: S, u: S) {
    m.grown(s, s) && (m.grown(s, t) && m.grown(t, u) ==> m.grown(s, u))
  }

  predicate UnifyGrows<S>(w: World<S>, m: Meaning<S>, s: S, a: seq<Term>, b: seq<Term>) {
    w.unify(s, a, b).Some? ==> m.grown(s, w.unify(s, a, b).value)
  }

  predicate FrameGrows<S>(w: World<S>, m: Meaning<S>, s: S) {
    m.grown(s, w.newFrame(s).1)
  }

  predicate RecoverGrows<S>(w: World<S>, m: Meaning<S>, s: S, x: Term, ball: Ball) {
    w.recover(s, x, ball).Some? ==> m.grown(s, w.recover(s, x, ball).value)
  }

  predicate CollectGrows<S>(w: World<S>, m: Meaning<S>, s: S, x: Term, answers: seq<S>) {
    m.grown(s, w.collect(s, x, answers).1)
  }

  predicate LibGrows<S>(w: World<S>, m: Meaning<S>, fuel: nat, f: Name, args: seq<Term>, s: S) {
    AllGrown(m, s, w.lib(fuel, f, args, s).answers)
  }

  predicate RemoteGrows<S>(w: World<S>, m: Meaning<S>, k: DeferredKind, args: seq<Term>, cs: seq<Clause>, s: S) {
    w.remote(k, args, cs, s).Reply? ==> AllGrown(m, s, w.remote(k, args, cs, s).run.answers)
  }

  ghost predicate OnlyGrows<S(!new)>(w: World<S>, m: Meaning<S>) {
    && (forall s, t, u :: GrownLaw(m, s, t, u))
    && (forall s, a, b :: UnifyGrows(w, m, s, a, b))
    && (forall s :: FrameGrows(w, m, s))
    && (forall s, x, ball :: RecoverGrows(w, m, s, x, ball))
    && (forall s, x, answers :: CollectGrows(w, m, s, x, answers))
    && (forall fuel, f, args, s :: LibGrows(w, m, fuel, f, args, s))
    && (forall k, args, cs, s :: RemoteGrows(w, m, k, args, cs, s))
  }

  predicate AllGrown<S>(m: Meaning<S>, s: S, answers: seq<S>) {
    forall i :: 0 <= i < |answers| ==> m.grown(s, answers[i])
  }

  /** All answers of a run that starts from s. */
  predicate Grown<S>(m: Meaning<S>, s: S, r: Run<S>) {
    AllGrown(m, s, r.answers)
  }

  // ---------- control ----------

  lemma GrownItself<S(!new)>(w: World<S>, m: Meaning<S>, s: S)
    requires OnlyGrows(w, m)
    ensures m.grown(s, s)
  {
    assert GrownLaw(m, s, s, s);
  }

  lemma GrownSince<S(!new)>(w: World<S>, m: Meaning<S>, s: S, t: S, r: Run<S>)
    requires OnlyGrows(w, m) && m.grown(s, t) && Grown(m, t, r)
    ensures Grown(m, s, r)
  {
    forall i | 0 <= i < |r.answers| ensures m.grown(s, r.answers[i]) {
      assert GrownLaw(m, s, t, r.answers[i]);
    }
  }

  lemma FrameGrown<S(!new)>(w: World<S>, m: Meaning<S>, s: S)
    requires OnlyGrows(w, m)
    ensures m.grown(s, w.newFrame(s).1)
  {
    assert FrameGrows(w, m, s);
  }

  lemma UnifyGrown<S(!new)>(w: World<S>, m: Meaning<S>, s: S, a: seq<Term>, b: seq<Term>)
    requires OnlyGrows(w, m)
    ensures Grown(m, s, UnifyOnce(w, s, a, b))
    ensures w.unify(s, a, b).Some? ==> m.grown(s, w.unify(s, a, b).value)
  {
    assert UnifyGrows(w, m, s, a, b);
  }

  lemma LibGrown<S(!new)>(w: World<S>, m: Meaning<S>, fuel: nat, f: Name, args: seq<Term>, s: S)
    requires OnlyGrows(w, m)
    ensures Grown(m, s, FromLib(w.lib(fuel, f, args, s)))
  {
    assert LibGrows(w, m, fuel, f, args, s);
  }

  lemma {:induction false} BindGrown<S(!new)>(w: World<S>, m: Meaning<S>, s: S, r: Run<S>, k: S -> Run<S>)
    requires OnlyGrows(w, m) && Grown(m, s, r) && forall t :: Grown(m, t, k(t))
    ensures Grown(m, s, Bind(r, k))
    decreases |r.answers|
  {
    hide OnlyGrows;
    if r.answers != [] {
      BindGrown(w, m, s, Run(r.answers[1..], r.ending), k);
      GrownSince(w, m, s, r.answers[0], k(r.answers[0]));
    }
  }

  lemma ChainGrown<S(!new)>(w: World<S>, m: Meaning<S>, s: S, r: Run<S>, step: S -> Run<S>, next: S -> Run<S>)
    requires OnlyGrows(w, m) && Grown(m, s, r) && (forall t :: Grown(m, t, step(t))) && forall t :: Grown(m, t, next(t))
    ensures Grown(m, s, Chain(r, step, next))
  {
    var k := t => Bind(step(t), next);
    forall t ensures Grown(m, t, k(t)) {
      BindGrown(w, m, t, step(t), next);
    }
    BindGrown(w, m, s, r, k);
  }

  lemma ChooseGrown<S(!new)>(w: World<S>, m: Meaning<S>, s: S, c: Run<S>, k: S -> Run<S>, otherwise: Run<S>)
    requires OnlyGrows(w, m) && Grown(m, s, c) && Grown(m, s, otherwise) && forall t :: Grown(m, t, k(t))
    ensures Grown(m, s, Choose(c, k, otherwise))
  {
    if c.answers != [] {
      GrownSince(w, m, s, c.answers[0], k(c.answers[0]));
    }
  }

  lemma CaughtGrown<S(!new)>(w: World<S>, m: Meaning<S>, x: Term, s: S, r: Run<S>, recovery: S -> Run<S>)
    requires OnlyGrows(w, m) && Grown(m, s, r) && forall t :: Grown(m, t, recovery(t))
    ensures Grown(m, s, Caught(w, x, s, r, recovery))
  {
    if r.ending.Raise? && w.recover(s, x, r.ending.ball).Some? {
      assert RecoverGrows(w, m, s, x, r.ending.ball);
      GrownSince(w, m, s, w.recover(s, x, r.ending.ball).value, recovery(w.recover(s, x, r.ending.ball).value));
    }
  }

  lemma {:induction false} NumberedGrown<S(!new)>(w: World<S>, m: Meaning<S>, n: Term, s: S, answers: seq<S>, i: nat)
    requires OnlyGrows(w, m) && AllGrown(m, s, answers)
    ensures AllGrown(m, s, Numbered(w, n, answers, i))
  {
    hide OnlyGrows, UnifyOnce;
    if answers != [] {
      NumberedGrown(w, m, n, s, answers[1..], i + 1);
      UnifyGrown(w, m, answers[0], [n], [Int(i)]);
      GrownSince(w, m, s, answers[0], UnifyOnce(w, answers[0], [n], [Int(i)]));
    }
  }

  lemma PostGrown<S(!new)>(w: World<S>, m: Meaning<S>, k: OpaqueKind, args: seq<Term>, s: S, r: Run<S>)
    requires OnlyGrows(w, m) && |args| == OpaqueArity(k) && Grown(m, s, r)
    ensures Grown(m, s, Post(w, k, args, s, r))
  {
    hide OnlyGrows, Numbered;
    GrownItself(w, m, s);
    match k
    case CallNthO => NumberedGrown(w, m, args[1], s, r.answers, 1);
    case FindallO => CollectedGrown(w, m, s, args[0], r.answers, [args[2]]);
    case _ =>
  }

  lemma CollectedGrown<S(!new)>(w: World<S>, m: Meaning<S>, s: S, x: Term, answers: seq<S>, out: seq<Term>)
    requires OnlyGrows(w, m)
    ensures m.grown(s, w.collect(s, x, answers).1)
    ensures Grown(m, s, UnifyOnce(w, w.collect(s, x, answers).1, out, [ListOf(w.collect(s, x, answers).0)]))
  {
    var s1 := w.collect(s, x, answers).1;
    var list := [ListOf(w.collect(s, x, answers).0)];
    assert CollectGrows(w, m, s, x, answers);
    UnifyGrown(w, m, s1, out, list);
    GrownSince(w, m, s, s1, UnifyOnce(w, s1, out, list));
  }

  lemma {:induction false} GroupsGrown<S(!new)>(w: World<S>, m: Meaning<S>, k: DeferredKind, free: seq<Term>, out: Term, s: S, xs: seq<Solution>)
    requires OnlyGrows(w, m)
    ensures AllGrown(m, s, Groups(w, k, free, out, s, xs))
    decreases |xs|
  {
    hide OnlyGrows, UnifyOnce;
    if xs != [] {
      UnifyGrown(w, m, s, free + [out], xs[0].key + [Listed(w, k, [xs[0]] + Sharing(w, xs[0], xs[1..], true))]);
      GroupsGrown(w, m, k, free, out, s, Sharing(w, xs[0], xs[1..], false));
    }
  }

  lemma GroupRunGrown<S(!new)>(w: World<S>, m: Meaning<S>, k: DeferredKind, template: Term, free: seq<Term>, out: Term, s: S, r: Run<S>)
    requires OnlyGrows(w, m)
    ensures Grown(m, s, GroupRun(w, k, template, free, out, s, r))
  {
    hide OnlyGrows, Groups;
    if r.ending == Done {
      var c := w.collect(s, Tuple([template] + free), r.answers);
      CollectedGrown(w, m, s, Tuple([template] + free), r.answers, []);
      GroupsGrown(w, m, k, free, out, c.1, SortByKey(w, Solutions(c.0)));
      GrownSince(w, m, s, c.1, GroupRun(w, k, template, free, out, s, r));
    }
  }

  // ---------- wrappers ----------

  ghost predicate ExecGrows<S(!new)>(m: Meaning<S>, e: Exec<S>) {
    forall sc, g, s :: Grown(m, s, e(sc, g, s))
  }

  lemma {:induction false} MaplistGrown<S(!new)>(fuel: nat, w: World<S>, m: Meaning<S>, sc: Scope, c: Term, lists: seq<Term>, s: S, e: Exec<S>)
    requires OnlyGrows(w, m) && ExecGrows(m, e)
    ensures Grown(m, s, Maplist(fuel, w, sc, c, lists, s, e))
    decreases fuel
  {
    hide OnlyGrows, UnifyOnce, Chain;
    var n := |lists|;
    UnifyGrown(w, m, s, lists, Repeat(Nil(), n));
    if fuel > 0 {
      var (k, s1) := w.newFrame(s);
      var step, next := t => Apply(w, sc, c, Heads(k, n), t, e), t => Maplist(fuel - 1, w, sc, c, Tails(k, n), t, e);
      forall t ensures Grown(m, t, next(t)) {
        MaplistGrown(fuel - 1, w, m, sc, c, Tails(k, n), t, e);
      }
      FrameGrown(w, m, s);
      UnifyGrown(w, m, s1, lists, Cells(k, n));
      ChainGrown(w, m, s1, UnifyOnce(w, s1, lists, Cells(k, n)), step, next);
      GrownSince(w, m, s, s1, Chain(UnifyOnce(w, s1, lists, Cells(k, n)), step, next));
    }
  }

  lemma {:induction false} FoldlGrown<S(!new)>(fuel: nat, w: World<S>, m: Meaning<S>, sc: Scope, c: Term, lists: seq<Term>, v0: Term, v: Term,
                                               s: S, e: Exec<S>)
    requires OnlyGrows(w, m) && ExecGrows(m, e)
    ensures Grown(m, s, Foldl(fuel, w, sc, c, lists, v0, v, s, e))
    decreases fuel, 1
  {
    hide OnlyGrows, UnifyOnce, FoldlRest;
    UnifyGrown(w, m, s, [v0] + lists, [v] + Repeat(Nil(), |lists|));
    if fuel > 0 {
      var (k, s1) := w.newFrame(s);
      FrameGrown(w, m, s);
      FoldlRestGrown(fuel, w, m, sc, c, lists, v0, v, k, s1, e);
      GrownSince(w, m, s, s1, FoldlRest(fuel, w, sc, c, lists, v0, v, k, s1, e));
    }
  }

  lemma {:induction false} FoldlRestGrown<S(!new)>(fuel: nat, w: World<S>, m: Meaning<S>, sc: Scope, c: Term, lists: seq<Term>, v0: Term,
                                                   v: Term, k: nat, s: S, e: Exec<S>)
    requires fuel > 0 && OnlyGrows(w, m) && ExecGrows(m, e)
    ensures Grown(m, s, FoldlRest(fuel, w, sc, c, lists, v0, v, k, s, e))
    decreases fuel, 0
  {
    hide OnlyGrows, UnifyOnce, Chain, Foldl;
    var n := |lists|;
    var v1 := Var(k, 2 * n);
    var step := t => Apply(w, sc, c, Heads(k, n) + [v0, v1], t, e);
    var next := t => Foldl(fuel - 1, w, sc, c, Tails(k, n), v1, v, t, e);
    forall t ensures Grown(m, t, next(t)) {
      FoldlGrown(fuel - 1, w, m, sc, c, Tails(k, n), v1, v, t, e);
    }
    UnifyGrown(w, m, s, lists, Cells(k, n));
    ChainGrown(w, m, s, UnifyOnce(w, s, lists, Cells(k, n)), step, next);
  }

  lemma {:induction false} EnumerateGrown<S(!new)>(w: World<S>, m: Meaning<S>, cs: seq<Clause>, h: Term, b: Term, s: S)
    requires OnlyGrows(w, m)
    ensures Grown(m, s, Enumerate(w, cs, h, b, s))
  {
    hide OnlyGrows, UnifyOnce;
    if cs != [] {
      var (k, s1) := w.newFrame(s);
      var copy := [Rename(cs[0].head, k), Rename(cs[0].body, k)];
      FrameGrown(w, m, s);
      UnifyGrown(w, m, s1, copy, [h, b]);
      GrownSince(w, m, s, s1, UnifyOnce(w, s1, copy, [h, b]));
      EnumerateGrown(w, m, cs[1..], h, b, s);
    }
  }

  lemma DeferredGrown<S(!new)>(fuel: nat, w: World<S>, m: Meaning<S>, o: Originals, k: DeferredKind, sc: Scope, args: seq<Term>, s: S, e: Exec<S>)
    requires OnlyGrows(w, m) && ExecGrows(m, e) && !IsGrouping(k)
    ensures Grown(m, s, RunDeferred(fuel, w, o, k, sc, args, s, e))
  {
    hide OnlyGrows, Maplist, Foldl, Enumerate;
    match k
    case MaplistD => if |args| >= 1 { MaplistGrown(fuel, w, m, sc, args[0], args[1..], s, e); }
    case FoldlD =>
      if |args| >= 3 {
        FoldlGrown(fuel, w, m, sc, args[0], args[1..|args| - 2], args[|args| - 2], args[|args| - 1], s, e);
      }
    case ClauseD =>
      if |args| == 2 {
        EnumerateGrown(w, m, o.local, args[0], args[1], s);
        EnumerateGrown(w, m, o.shared, args[0], args[1], s);
      }
    case RpcD => RemoteGrown(w, m, k, args, Exported(o, sc), s);
    case PromiseD => RemoteGrown(w, m, k, args, Exported(o, sc), s);
    case YieldD => RemoteGrown(w, m, k, args, Exported(o, sc), s);
    case _ =>
  }

  lemma RemoteGrown<S(!new)>(w: World<S>, m: Meaning<S>, k: DeferredKind, args: seq<Term>, cs: seq<Clause>, s: S)
    requires OnlyGrows(w, m)
    ensures w.remote(k, args, cs, s).Reply? ==> Grown(m, s, FromLib(w.remote(k, args, cs, s).run))
  {
    assert RemoteGrows(w, m, k, args, cs, s);
  }

  // ---------- goals ----------

  lemma {:induction false} SolveGrown<S(!new)>(fuel: nat, w: World<S>, m: Meaning<S>, o: Originals, strict: bool, sc: Scope, g: Term, s: S)
    requires OnlyGrows(w, m)
    ensures Grown(m, s, Solve(fuel, w, o, strict, sc, g, s))
    decreases fuel, 1, g, 1
  {
    hide OnlyGrows, SolveDeferred, Grown, Compute;
    match g
    case Var(_, _) => SolveDeferredGrown(fuel, w, m, o, strict, ExecuteD, sc, [g], s);
    case Aux(_, _, _) => SolveDeferredGrown(fuel, w, m, o, strict, ExecuteD, sc, [g], s);
    case Int(_) => NothingGrown(m, s, Raise(NotCallable(g)));
    case Struct(f, args) =>
      if ControlOf(f, |args|).Some? {
        ControlGrown(fuel, w, m, o, strict, sc, g, s);
      } else if DeferredOf(f, |args|).Some? {
        SolveDeferredGrown(fuel, w, m, o, strict, DeferredOf(f, |args|).value, sc, args, s);
      } else if ComputedOf(f, |args|).Some? {
        SolveComputed(fuel, w, o, strict, sc, g, s);
        ComputeGrown(w, m, ComputedOf(f, |args|).value, args, s);
      } else {
        ResolvedGrown(fuel, w, m, o, strict, sc, g, s);
      }
  }

  lemma NothingGrown<S>(m: Meaning<S>, s: S, e: Ending)
    ensures Grown(m, s, Run([], e))
  {
  }

  lemma ComputeGrown<S(!new)>(w: World<S>, m: Meaning<S>, c: ComputedKind, args: seq<Term>, s: S)
    requires OnlyGrows(w, m) && |args| == 2
    ensures Grown(m, s, Compute(w, c, args[InputIndex(c)], args[1 - InputIndex(c)], s))
  {
    var input, out := args[InputIndex(c)], args[1 - InputIndex(c)];
    if w.compute(c, s, input).Ok? {
      UnifyGrown(w, m, s, [out], [w.compute(c, s, input).value]);
    }
  }

  lemma {:induction false} SolveEachGrown<S(!new)>(fuel: nat, w: World<S>, m: Meaning<S>, o: Originals, strict: bool, sc: Scope, g: Term)
    requires OnlyGrows(w, m)
    ensures forall s :: Grown(m, s, Solve(fuel, w, o, strict, sc, g, s))
    decreases fuel, 1, g, 2
  {
    forall s ensures Grown(m, s, Solve(fuel, w, o, strict, sc, g, s)) {
      SolveGrown(fuel, w, m, o, strict, sc, g, s);
    }
  }

  lemma {:induction false} ControlGrown<S(!new)>(fuel: nat, w: World<S>, m: Meaning<S>, o: Originals, strict: bool, sc: Scope, g: Term, s: S)
    requires OnlyGrows(w, m) && g.Struct? && ControlOf(g.functor, |g.args|).Some?
    ensures Grown(m, s, Solve(fuel, w, o, strict, sc, g, s))
    decreases fuel, 1, g, 0
  {
    hide OnlyGrows, SolveDeferred, Bind, Choose, Caught, Post;
    var args := g.args;
    match ControlOf(g.functor, |args|).value
    case And =>
      SolveGrown(fuel, w, m, o, strict, sc, args[0], s);
      SolveEachGrown(fuel, w, m, o, strict, sc, args[1]);
      BindGrown(w, m, s, Solve(fuel, w, o, strict, sc, args[0], s), x => Solve(fuel, w, o, strict, sc, args[1], x));
    case Or =>
      SolveGrown(fuel, w, m, o, strict, sc, args[1], s);
      if IsArrow(args[0]) {
        ArrowGrown(fuel, w, m, o, strict, sc, args[0].args, s, Solve(fuel, w, o, strict, sc, args[1], s));
      } else {
        SolveGrown(fuel, w, m, o, strict, sc, args[0], s);
      }
    case Then => ArrowGrown(fuel, w, m, o, strict, sc, args, s, Fails());
    case Catching =>
      SolveGrown(fuel, w, m, o, strict, sc, args[0], s);
      SolveEachGrown(fuel, w, m, o, strict, sc, args[2]);
      CaughtGrown(w, m, args[1], s, Barrier(Solve(fuel, w, o, strict, sc, args[0], s)), x => Solve(fuel, w, o, strict, sc, args[2], x));
    case Opaque(k) =>
      SolveGrown(fuel, w, m, o, strict, sc, args[GoalIndex(k)], s);
      PostGrown(w, m, k, args, s, Barrier(Solve(fuel, w, o, strict, sc, args[GoalIndex(k)], s)));
  }

  lemma {:induction false} ArrowGrown<S(!new)>(fuel: nat, w: World<S>, m: Meaning<S>, o: Originals, strict: bool, sc: Scope, arrow: seq<Term>,
                                               s: S, otherwise: Run<S>)
    requires OnlyGrows(w, m) && |arrow| == 2 && Grown(m, s, otherwise)
    ensures Grown(m, s, Choose(Solve(fuel, w, o, strict, sc, arrow[0], s), x => Solve(fuel, w, o, strict, sc, arrow[1], x), otherwise))
    decreases fuel, 1, arrow, 2
  {
    SolveGrown(fuel, w, m, o, strict, sc, arrow[0], s);
    SolveEachGrown(fuel, w, m, o, strict, sc, arrow[1]);
    ChooseGrown(w, m, s, Solve(fuel, w, o, strict, sc, arrow[0], s), x => Solve(fuel, w, o, strict, sc, arrow[1], x), otherwise);
  }

  lemma {:induction false} ResolvedGrown<S(!new)>(fuel: nat, w: World<S>, m: Meaning<S>, o: Originals, strict: bool, sc: Scope, g: Term, s: S)
    requires OnlyGrows(w, m)
    requires g.Struct? && ControlOf(g.functor, |g.args|).None? && DeferredOf(g.functor, |g.args|).None?
    requires ComputedOf(g.functor, |g.args|).None?
    ensures Grown(m, s, Solve(fuel, w, o, strict, sc, g, s))
    decreases fuel, 1, g, 0
  {
    hide OnlyGrows, Solve, Matching, Grown, FromLib;
    var f, args := g.functor, g.args;
    LibGrown(w, m, fuel, Iso(Guarded(f)), args, s);
    BuiltinGrown(fuel, w, m, f, args, s);
    NothingGrown(m, s, Raise(Permission(f, |args|)));
    CalledGrown(fuel, w, m, o, strict, Local, Matching(o.local, f, |args|), args, s);
    CalledGrown(fuel, w, m, o, strict, Shared, Matching(o.shared, f, |args|), args, s);
    SolveResolved(fuel, w, o, strict, sc, g, s);
  }

  lemma BuiltinGrown<S(!new)>(fuel: nat, w: World<S>, m: Meaning<S>, f: Name, args: seq<Term>, s: S)
    requires OnlyGrows(w, m)
    ensures Grown(m, s, Builtin(fuel, w, f, args, s))
  {
    GrownItself(w, m, s);
    LibGrown(w, m, fuel, f, args, s);
    if |args| == 2 {
      UnifyGrown(w, m, s, [args[0]], [args[1]]);
    }
  }

  lemma {:induction false} CalledGrown<S(!new)>(fuel: nat, w: World<S>, m: Meaning<S>, o: Originals, strict: bool, sc: Scope, cs: seq<Clause>,
                                                args: seq<Term>, s: S)
    requires OnlyGrows(w, m)
    ensures Grown(m, s, SolveCalled(fuel, w, o, strict, sc, cs, args, s))
    decreases fuel, 0
  {
    if fuel > 0 {
      ClausesGrown(fuel - 1, w, m, o, strict, sc, cs, args, s);
    }
  }

  lemma {:induction false} ClausesGrown<S(!new)>(fuel: nat, w: World<S>, m: Meaning<S>, o: Originals, strict: bool, sc: Scope, cs: seq<Clause>,
                                                 args: seq<Term>, s: S)
    requires OnlyGrows(w, m)
    ensures Grown(m, s, SolveClauses(fuel, w, o, strict, sc, cs, args, s))
    decreases fuel, 2, |cs|
  {
    if cs != [] {
      ClauseGrown(fuel, w, m, o, strict, sc, cs[0], args, s);
      ClausesGrown(fuel, w, m, o, strict, sc, cs[1..], args, s);
    }
  }

  lemma {:induction false} ClauseGrown<S(!new)>(fuel: nat, w: World<S>, m: Meaning<S>, o: Originals, strict: bool, sc: Scope, c: Clause,
                                                args: seq<Term>, s: S)
    requires OnlyGrows(w, m)
    ensures Grown(m, s, SolveClause(fuel, w, o, strict, sc, c, args, s))
    decreases fuel, 2, 0
  {
    hide OnlyGrows, Solve;
    var (k, s1) := w.newFrame(s);
    FrameGrown(w, m, s);
    UnifyGrown(w, m, s1, Arguments(Rename(c.head, k)), args);
    if w.unify(s1, Arguments(Rename(c.head, k)), args).Some? {
      var s2 := w.unify(s1, Arguments(Rename(c.head, k)), args).value;
      var r := Solve(fuel, w, o, strict, sc, Rename(c.body, k), s2);
      SolveGrown(fuel, w, m, o, strict, sc, Rename(c.body, k), s2);
      GrownSince(w, m, s1, s2, r);
      GrownSince(w, m, s, s1, r);
    }
  }

  /** Whatever goal is called: every answer has the bindings that were there before. */
  lemma {:induction false} CallGrown<S(!new)>(fuel: nat, w: World<S>, m: Meaning<S>, o: Originals, strict: bool, sc: Scope, g: Term, s: S)
    requires OnlyGrows(w, m)
    ensures Grown(m, s, SolveCall(fuel, w, o, strict, sc, g, s))
    decreases fuel, 2
  {
    hide OnlyGrows, Solve;
    FrameGrown(w, m, s);
    if w.resolve(s, g).Some? {
      var x, s1 := w.resolve(s, g).value, w.newFrame(s).1;
      SolveGrown(fuel, w, m, o, strict, sc, x, s1);
      GrownSince(w, m, s, s1, Solve(fuel, w, o, strict, sc, x, s1));
    }
  }

  lemma {:induction false} SolveDeferredGrown<S(!new)>(fuel: nat, w: World<S>, m: Meaning<S>, o: Originals, strict: bool, k: DeferredKind,
                                                       sc: Scope, args: seq<Term>, s: S)
    requires OnlyGrows(w, m)
    ensures Grown(m, s, SolveDeferred(fuel, w, o, strict, k, sc, args, s))
    decreases fuel, 0
  {
    hide OnlyGrows, SolveGroup, RunDeferred;
    if fuel > 0 {
      if IsGrouping(k) {
        GroupGrown(fuel - 1, w, m, o, strict, k, sc, args, s);
      } else {
        ExecGrown(fuel - 1, w, m, o, strict);
        DeferredGrown(fuel - 1, w, m, o, k, sc, args, s, SolveExec(fuel - 1, w, o, strict));
      }
    }
  }

  lemma {:induction false} ExecGrown<S(!new)>(fuel: nat, w: World<S>, m: Meaning<S>, o: Originals, strict: bool)
    requires OnlyGrows(w, m)
    ensures ExecGrows(m, SolveExec(fuel, w, o, strict))
    decreases fuel, 3
  {
    var e := SolveExec(fuel, w, o, strict);
    forall sc, g, s ensures Grown(m, s, e(sc, g, s)) {
      CallGrown(fuel, w, m, o, strict, sc, g, s);
    }
  }

  lemma {:induction false} GroupGrown<S(!new)>(fuel: nat, w: World<S>, m: Meaning<S>, o: Originals, strict: bool, k: DeferredKind, sc: Scope,
                                               args: seq<Term>, s: S)
    requires OnlyGrows(w, m)
    ensures Grown(m, s, SolveGroup(fuel, w, o, strict, k, sc, args, s))
    decreases fuel, 2
  {
    hide OnlyGrows, Solve, GroupRun, FreeVariables;
    if |args| == 3 && w.resolve(s, args[0]).Some? && w.resolve(s, args[1]).Some? {
      var template, goal, s1 := w.resolve(s, args[0]).value, w.resolve(s, args[1]).value, w.newFrame(s).1;
      var body := StripCaret(goal);
      FrameGrown(w, m, s);
      var free, r := FreeVariables(template, Quantified(goal), body), Barrier(Solve(fuel, w, o, strict, sc, body, s1));
      GroupRunGrown(w, m, k, template, free, args[2], s1, r);
      GrownSince(w, m, s, s1, GroupRun(w, k, template, free, args[2], s1, r));
    }
  }
}
