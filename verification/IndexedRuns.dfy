/** Runs on a database in which wide integer keys have been moved out of clause heads into equations. The stores of the two
    runs differ in the key variables, which nothing else sees. */
module IndexedRuns {
  import opened Terms
  import opened Policy
  import opened Runs
  import opened Runtime
  import opened Grouping
  import opened Interpreters
  import opened Simulation
  import opened EmittedGoals
  import opened WideKeys

  function IndexSafeAll(cs: seq<Clause>): (r: seq<Clause>)
    ensures |r| == |cs| && forall i :: 0 <= i < |cs| ==> r[i] == IndexSafe(cs[i])
  {
    if cs == [] then [] else [IndexSafe(cs[0])] + IndexSafeAll(cs[1..])
  }

  /** Clause by clause the same, except that some keys have been moved. */
  predicate KeysMoved(cs: seq<Clause>, safe: seq<Clause>) {
    |cs| == |safe| && forall i :: 0 <= i < |cs| ==> safe[i] == cs[i] || safe[i] == IndexSafe(cs[i])
  }

  /** Unifies a head whose first argument is the key variable, and then the key variable with its constant. */
  function UnifyThenKey<S>(w: World<S>, s: S, key: Term, x: int, rest: seq<Term>, args: seq<Term>): Option<S> {
    match w.unify(s, [key] + rest, args)
    case None => None
    case Some(s1) => w.unify(s1, [key], [Int(x)])
  }

  /** A key variable of a new activation stands for the argument that it meets in the head. */
  predicate KeyLaw<S>(w: World<S>, v: View<S>, s: S, t: S, x: int, rest: seq<Term>, args: seq<Term>) {
    v.same(s, t) && ClearAll(v.hidden, rest) && ClearAll(v.hidden, args) ==>
      SameOption(v, w.unify(w.newFrame(s).1, [Int(x)] + rest, args),
                 UnifyThenKey(w, w.newFrame(t).1, Aux(KeyRole, w.newFrame(t).0, 0), x, rest, args))
  }

  predicate BindLaw<S>(w: World<S>, v: View<S>, s: S, t: S, result: Term, x: Term) {
    v.same(s, t) && Clear(v.hidden, result) && Clear(v.hidden, x) ==> v.same(w.bind(s, result, x), w.bind(t, result, x))
  }

  /** What is required of the native operations: they do not see key variables, in stores that differ in nothing else. */
  ghost predicate HidesKeys<S(!new)>(w: World<S>, v: View<S>) {
    && Respects(w, v) && v.hidden == {KeyRole} && !v.stop
    && (forall s, t, x, rest, args :: KeyLaw(w, v, s, t, x, rest, args))
    && (forall s, t, result, x :: BindLaw(w, v, s, t, result, x))
  }

  lemma {:induction false} MovedMatching(cs: seq<Clause>, safe: seq<Clause>, f: Name, n: nat)
    requires KeysMoved(cs, safe)
    ensures KeysMoved(Matching(cs, f, n), Matching(safe, f, n))
  {
    if cs != [] {
      assert HasFunctor(IndexSafe(cs[0]).head, f, n) <==> HasFunctor(cs[0].head, f, n);
      MovedMatching(cs[1..], safe[1..], f, n);
    }
  }

  // ---------- rewritten goals have no key variables ----------

  lemma {:induction false} RewriteUnkeyed(ns: Names, sc: Scope, g: Term, frame: nat, at: nat)
    requires Clear({KeyRole}, g) && Rewrite(ns, sc, g, frame, at).Ok?
    ensures Clear({KeyRole}, Rewrite(ns, sc, g, frame, at).value)
    decreases g, 1
  {
    var h := {KeyRole};
    if g.Struct? {
      assert ClearAll(h, g.args);
      match ControlOf(g.functor, |g.args|)
      case Some(Catching) => BothUnkeyed(ns, sc, g, 0, 2, frame, at);
      case Some(Opaque(k)) =>
        var i := GoalIndex(k);
        RewriteUnkeyed(ns, sc, g.args[i], frame, 2 * at);
        OpaqueUnkeyed(g.functor, k, g.args, Rewrite(ns, sc, g.args[i], frame, 2 * at).value, Aux(ResultRole, frame, at));
      case Some(_) => BothUnkeyed(ns, sc, g, 0, 1, frame, at);
      case None =>
        if ComputedOf(g.functor, |g.args|).Some? {
          var c := ComputedOf(g.functor, |g.args|).value;
          UnifyUnkeyed(Struct(Computing(c), [g.args[InputIndex(c)], Aux(ResultRole, frame, at)]), g.args[1 - InputIndex(c)],
                       Aux(ResultRole, frame, at));
        } else {
          assert forall f :: Clear(h, Struct(f, g.args));
        }
    } else {
      assert ClearAll(h, [g]);
    }
  }

  lemma UnifyUnkeyed(goal: Term, out: Term, result: Term)
    requires goal.Struct? && ClearAll({KeyRole}, goal.args) && Clear({KeyRole}, out) && Clear({KeyRole}, result)
    ensures Clear({KeyRole}, ThenUnify(goal, out, result))
  {
    var eq := Struct(Key(EqualsK), [out, result]);
    assert ClearAll({KeyRole}, [out, result]) && Clear({KeyRole}, eq) && Clear({KeyRole}, goal);
    assert ClearAll({KeyRole}, [goal, eq]);
  }

  lemma OpaqueUnkeyed(f: Name, k: OpaqueKind, args: seq<Term>, safe: Term, result: Term)
    requires |args| == OpaqueArity(k) && ClearAll({KeyRole}, args) && Clear({KeyRole}, safe) && Clear({KeyRole}, result)
    ensures Clear({KeyRole}, EmitOpaque(f, k, args, safe, result))
  {
    var goal := Struct(Emitted(f, k), args[GoalIndex(k) := safe]);
    assert ClearAll({KeyRole}, goal.args);
    if k.FindallO? {
      assert ClearAll({KeyRole}, goal.args[2 := result]);
      UnifyUnkeyed(goal.(args := goal.args[2 := result]), args[2], result);
    }
  }

  lemma {:induction false} BothUnkeyed(ns: Names, sc: Scope, g: Term, i: nat, j: nat, frame: nat, at: nat)
    requires g.Struct? && i < j < |g.args| && ClearAll({KeyRole}, g.args) && RewriteBoth(ns, sc, g, i, j, frame, at).Ok?
    ensures Clear({KeyRole}, RewriteBoth(ns, sc, g, i, j, frame, at).value)
    decreases g, 0
  {
    RewriteUnkeyed(ns, sc, g.args[i], frame, 2 * at);
    RewriteUnkeyed(ns, sc, g.args[j], frame, 2 * at + 1);
    var r := RewriteBoth(ns, sc, g, i, j, frame, at).value;
    assert ClearAll({KeyRole}, r.args);
  }

  // ---------- whole runs ----------

  /** Two databases for the same program that differ in moved keys. */
  predicate Moved(o: Originals, db: Database, safe: Database) {
    && safe.defined == db.defined && KeysMoved(db.clauses, safe.clauses) && ClearClauses({KeyRole}, db.clauses)
    && ClearClauses({KeyRole}, o.local) && ClearClauses({KeyRole}, o.shared)
  }

  lemma KeyLawful<S(!new)>(w: World<S>, v: View<S>)
    requires HidesKeys(w, v)
    ensures Respects(w, v) && v.hidden == {KeyRole}
  {
  }

  lemma {:induction false} MovedNative<S(!new)>(fuel: nat, w: World<S>, v: View<S>, o: Originals, db: Database, safe: Database,
                                                g: Term, s: S, t: S)
    requires HidesKeys(w, v) && Moved(o, db, safe) && v.same(s, t) && Clear({KeyRole}, g)
    ensures Follows(v, Native(fuel, w, o, db, g, s), Native(fuel, w, o, safe, g, t))
    decreases fuel, 1, g, 1
  {
    hide HidesKeys, NativeDeferred, Follows;
    KeyLawful(w, v);
    if g.Int? {
      EndsAlike(v, Raise(NotCallable(g)));
    } else if g.Variable() {
      EndsAlike(v, Escaped(Key(CallK), 1));
    } else {
      assert ClearAll({KeyRole}, g.args);
      if NativeControl(g.functor, |g.args|).Some? {
        MovedControl(fuel, w, v, o, db, safe, g, s, t);
      } else {
        MovedDispatch(fuel, w, v, o, db, safe, g, s, t);
      }
    }
  }

  lemma {:induction false} MovedEach<S(!new)>(fuel: nat, w: World<S>, v: View<S>, o: Originals, db: Database, safe: Database, g: Term)
    requires HidesKeys(w, v) && Moved(o, db, safe) && Clear({KeyRole}, g)
    ensures forall s, t :: v.same(s, t) ==> Follows(v, Native(fuel, w, o, db, g, s), Native(fuel, w, o, safe, g, t))
    decreases fuel, 1, g, 2
  {
    forall s, t | v.same(s, t) ensures Follows(v, Native(fuel, w, o, db, g, s), Native(fuel, w, o, safe, g, t)) {
      MovedNative(fuel, w, v, o, db, safe, g, s, t);
    }
  }

  lemma {:induction false} MovedControl<S(!new)>(fuel: nat, w: World<S>, v: View<S>, o: Originals, db: Database, safe: Database,
                                                 g: Term, s: S, t: S)
    requires HidesKeys(w, v) && Moved(o, db, safe) && v.same(s, t) && Clear({KeyRole}, g)
    requires g.Struct? && NativeControl(g.functor, |g.args|).Some?
    ensures Follows(v, Native(fuel, w, o, db, g, s), Native(fuel, w, o, safe, g, t))
    decreases fuel, 1, g, 0
  {
    hide HidesKeys, NativeDeferred, Follows;
    KeyLawful(w, v);
    EndsAlike(v, Done);
    var args := g.args;
    assert ClearAll({KeyRole}, args);
    match NativeControl(g.functor, |args|).value
    case And =>
      MovedNative(fuel, w, v, o, db, safe, args[0], s, t);
      MovedEach(fuel, w, v, o, db, safe, args[1]);
      BindFollows(v, Native(fuel, w, o, db, args[0], s), Native(fuel, w, o, safe, args[0], t),
                  x => Native(fuel, w, o, db, args[1], x), x => Native(fuel, w, o, safe, args[1], x));
    case Or =>
      var c, d := Native(fuel, w, o, db, args[1], s), Native(fuel, w, o, safe, args[1], t);
      MovedNative(fuel, w, v, o, db, safe, args[1], s, t);
      if IsNativeArrow(args[0]) {
        MovedChoice(fuel, w, v, o, db, safe, args[0].args, s, t, c, d);
      } else {
        MovedNative(fuel, w, v, o, db, safe, args[0], s, t);
        ElseFollows(v, Native(fuel, w, o, db, args[0], s), Native(fuel, w, o, safe, args[0], t), c, d);
      }
    case Then => MovedChoice(fuel, w, v, o, db, safe, args, s, t, Fails(), Fails());
    case Catching =>
      var p, q := Native(fuel, w, o, db, args[0], s), Native(fuel, w, o, safe, args[0], t);
      MovedNative(fuel, w, v, o, db, safe, args[0], s, t);
      MovedEach(fuel, w, v, o, db, safe, args[2]);
      BarrierFollows(v, p, q);
      CaughtFollows(w, v, args[1], s, t, Barrier(p), Barrier(q),
                    x => Native(fuel, w, o, db, args[2], x), x => Native(fuel, w, o, safe, args[2], x));
    case Opaque(k) =>
      var i := GoalIndex(k);
      var p, q := Native(fuel, w, o, db, args[i], s), Native(fuel, w, o, safe, args[i], t);
      MovedNative(fuel, w, v, o, db, safe, args[i], s, t);
      BarrierFollows(v, p, q);
      EmittedFollows(w, v, k, args, s, t, Barrier(p), Barrier(q));
  }

  lemma EmittedFollows<S(!new)>(w: World<S>, v: View<S>, k: OpaqueKind, args: seq<Term>, s: S, t: S, a: Run<S>, b: Run<S>)
    requires HidesKeys(w, v) && v.same(s, t) && |args| == OpaqueArity(k) && ClearAll(v.hidden, args) && Follows(v, a, b)
    ensures Follows(v, PostEmitted(w, k, args, s, a), PostEmitted(w, k, args, t, b))
  {
    hide Respects, Follows;
    PostFollows(w, v, k, args, s, t, a, b);
    if k.FindallO? {
      EmittedFindall(w, v, args, s, t, a, b);
    }
  }

  lemma EmittedFindall<S(!new)>(w: World<S>, v: View<S>, args: seq<Term>, s: S, t: S, a: Run<S>, b: Run<S>)
    requires HidesKeys(w, v) && v.same(s, t) && |args| == 3 && ClearAll(v.hidden, args) && Follows(v, a, b)
    ensures Follows(v, PostEmitted(w, FindallO, args, s, a), PostEmitted(w, FindallO, args, t, b))
  {
    if a.ending == Done {
      var x, y := w.collect(s, args[0], a.answers), w.collect(t, args[0], b.answers);
      CollectedSame(w, v, s, t, args[0], a.answers, b.answers);
      ListClear(v.hidden, x.0);
      assert BindLaw(w, v, x.1, y.1, args[2], ListOf(x.0));
    }
  }

  lemma {:induction false} MovedChoice<S(!new)>(fuel: nat, w: World<S>, v: View<S>, o: Originals, db: Database, safe: Database,
                                                arrow: seq<Term>, s: S, t: S, c: Run<S>, d: Run<S>)
    requires HidesKeys(w, v) && Moved(o, db, safe) && v.same(s, t) && |arrow| == 2 && ClearAll({KeyRole}, arrow) && Follows(v, c, d)
    ensures Follows(v, Choose(Native(fuel, w, o, db, arrow[0], s), x => Native(fuel, w, o, db, arrow[1], x), c),
                    Choose(Native(fuel, w, o, safe, arrow[0], t), x => Native(fuel, w, o, safe, arrow[1], x), d))
    decreases fuel, 1, arrow, 2
  {
    hide HidesKeys, NativeDeferred, Follows;
    MovedNative(fuel, w, v, o, db, safe, arrow[0], s, t);
    MovedEach(fuel, w, v, o, db, safe, arrow[1]);
    ChooseFollows(v, Native(fuel, w, o, db, arrow[0], s), Native(fuel, w, o, safe, arrow[0], t),
                  x => Native(fuel, w, o, db, arrow[1], x), x => Native(fuel, w, o, safe, arrow[1], x), c, d);
  }

  lemma PrimitiveFollows<S(!new)>(fuel: nat, w: World<S>, v: View<S>, f: Name, args: seq<Term>, s: S, t: S)
    requires HidesKeys(w, v) && v.same(s, t) && ClearAll(v.hidden, args)
    ensures Primitive(fuel, w, f, args, s).Some? <==> Primitive(fuel, w, f, args, t).Some?
    ensures Primitive(fuel, w, f, args, s).Some? ==>
              Follows(v, Primitive(fuel, w, f, args, s).value, Primitive(fuel, w, f, args, t).value)
  {
    hide HidesKeys, Respects, Follows;
    KeyLawful(w, v);
    CallLibFollows(w, v, fuel, f, args, s, t);
    if |args| == 2 {
      UnifyFollows(w, v, s, t, [args[0]], [args[1]]);
      ComputeFollows(w, v, EvaluateC, args[0], args[1], s, t);
      ComputeFollows(w, v, VariablesC, args[0], args[1], s, t);
    }
  }

  lemma ComputeFollows<S(!new)>(w: World<S>, v: View<S>, c: ComputedKind, input: Term, result: Term, s: S, t: S)
    requires HidesKeys(w, v) && v.same(s, t) && Clear(v.hidden, input) && Clear(v.hidden, result)
    ensures Follows(v, ComputeEmitted(w, c, input, result, s), ComputeEmitted(w, c, input, result, t))
  {
    assert ComputeLaw(w, v, c, s, t, input);
    if w.compute(c, s, input).Ok? {
      assert BindLaw(w, v, s, t, result, w.compute(c, s, input).value);
    }
  }

  lemma {:induction false} MovedDispatch<S(!new)>(fuel: nat, w: World<S>, v: View<S>, o: Originals, db: Database, safe: Database,
                                                  g: Term, s: S, t: S)
    requires HidesKeys(w, v) && Moved(o, db, safe) && v.same(s, t) && g.Struct? && ClearAll({KeyRole}, g.args)
    requires NativeControl(g.functor, |g.args|).None?
    ensures Follows(v, Native(fuel, w, o, db, g, s), Native(fuel, w, o, safe, g, t))
    decreases fuel, 1, g, 0
  {
    hide HidesKeys, NativeDeferred, Follows, Builtin, Primitive, Matching, KeysMoved;
    KeyLawful(w, v);
    EndsAlike(v, Starved);
    EndsAlike(v, Escaped(g.functor, |g.args|));
    var f, args, n := g.functor, g.args, |g.args|;
    PrimitiveFollows(fuel, w, v, f, args, s, t);
    BuiltinFollows(fuel, w, v, f, args, s, t);
    if f.Iso? && f.guard.Deferred? {
      MovedDeferred(fuel, w, v, o, db, safe, f.guard.kind, f.guard.scope, args, s, t);
    } else if fuel > 0 {
      MovedMatching(db.clauses, safe.clauses, f, n);
      MatchingClear({KeyRole}, db.clauses, f, n);
      MovedClauses(fuel - 1, w, v, o, db, safe, Matching(db.clauses, f, n), Matching(safe.clauses, f, n), args, s, t);
    }
  }

  lemma {:induction false} MovedClauses<S(!new)>(fuel: nat, w: World<S>, v: View<S>, o: Originals, db: Database, safe: Database,
                                                 cs: seq<Clause>, moved: seq<Clause>, args: seq<Term>, s: S, t: S)
    requires HidesKeys(w, v) && Moved(o, db, safe) && v.same(s, t)
    requires KeysMoved(cs, moved) && ClearClauses({KeyRole}, cs) && ClearAll({KeyRole}, args)
    ensures Follows(v, NativeClauses(fuel, w, o, db, cs, args, s), NativeClauses(fuel, w, o, safe, moved, args, t))
    decreases fuel, 2, |cs|
  {
    hide HidesKeys, NativeDeferred, Follows;
    if cs == [] {
      EndsAlike(v, Done);
    } else {
      var a, b := NativeClause(fuel, w, o, db, cs[0], args, s), NativeClause(fuel, w, o, safe, moved[0], args, t);
      var c, d := NativeClauses(fuel, w, o, db, cs[1..], args, s), NativeClauses(fuel, w, o, safe, moved[1..], args, t);
      if moved[0] == cs[0] {
        UnmovedClause(fuel, w, v, o, db, safe, cs[0], args, s, t);
      } else {
        MovedClause(fuel, w, v, o, db, safe, cs[0], args, s, t);
      }
      MovedClauses(fuel, w, v, o, db, safe, cs[1..], moved[1..], args, s, t);
      ElseFollows(v, a, b, c, d);
      BarrierFollows(v, Else(a, c), Else(b, d));
    }
  }

  lemma {:induction false} UnmovedClause<S(!new)>(fuel: nat, w: World<S>, v: View<S>, o: Originals, db: Database, safe: Database,
                                                  c: Clause, args: seq<Term>, s: S, t: S)
    requires HidesKeys(w, v) && Moved(o, db, safe) && v.same(s, t) && Unkeyed(c) && ClearAll({KeyRole}, args)
    ensures Follows(v, NativeClause(fuel, w, o, db, c, args, s), NativeClause(fuel, w, o, safe, c, args, t))
    decreases fuel, 2, 0
  {
    hide HidesKeys, NativeDeferred, Follows;
    KeyLawful(w, v);
    EndsAlike(v, Done);
    var k := w.newFrame(s).0;
    FrameSame(w, v, s, t);
    RenameClear({KeyRole}, c.head, k);
    RenameClear({KeyRole}, c.body, k);
    MovedEach(fuel, w, v, o, db, safe, Rename(c.body, k));
    assert ClearAll({KeyRole}, Arguments(Rename(c.head, k)));
    UnifyFollows(w, v, w.newFrame(s).1, w.newFrame(t).1, Arguments(Rename(c.head, k)), args);
  }

  /** A clause whose key has been moved contributes the same solutions in the same order, with the same cut. */
  lemma {:induction false} MovedClause<S(!new)>(fuel: nat, w: World<S>, v: View<S>, o: Originals, db: Database, safe: Database,
                                                c: Clause, args: seq<Term>, s: S, t: S)
    requires HidesKeys(w, v) && Moved(o, db, safe) && v.same(s, t) && Unkeyed(c) && ClearAll({KeyRole}, args)
    requires NeedsKey(c)
    ensures Follows(v, NativeClause(fuel, w, o, db, c, args, s), NativeClause(fuel, w, o, safe, IndexSafe(c), args, t))
    decreases fuel, 2, 0
  {
    hide HidesKeys, Native, Follows, IndexSafe;
    KeyLawful(w, v);
    var k, s1, t1 := w.newFrame(s).0, w.newFrame(s).1, w.newFrame(t).1;
    FrameSame(w, v, s, t);
    var x, rest, key, body := c.head.args[0].value, RenameAll(c.head.args[1..], k), Aux(KeyRole, k, 0), Rename(c.body, k);
    RenameMoved(c, k);
    RestUnkeyed(c, k);
    MovedEach(fuel, w, v, o, db, safe, body);
    KeyUnifies(w, v, s, t, x, rest, args);
    MovedUnify(fuel, w, v, o, db, safe, x, rest, key, body, args, s1, t1);
  }

  lemma RestUnkeyed(c: Clause, k: nat)
    requires Unkeyed(c) && NeedsKey(c)
    ensures ClearAll({KeyRole}, RenameAll(c.head.args[1..], k)) && Clear({KeyRole}, Rename(c.body, k))
  {
    var rest := c.head.args[1..];
    RenameClear({KeyRole}, c.body, k);
    assert ClearAll({KeyRole}, c.head.args);
    forall i | 0 <= i < |rest| ensures Clear({KeyRole}, RenameAll(rest, k)[i]) {
      assert rest[i] == c.head.args[i + 1];
      RenameClear({KeyRole}, rest[i], k);
    }
  }

  lemma KeyUnifies<S(!new)>(w: World<S>, v: View<S>, s: S, t: S, x: int, rest: seq<Term>, args: seq<Term>)
    requires HidesKeys(w, v) && v.same(s, t) && ClearAll({KeyRole}, rest) && ClearAll({KeyRole}, args)
    ensures SameOption(v, w.unify(w.newFrame(s).1, [Int(x)] + rest, args),
                       UnifyThenKey(w, w.newFrame(t).1, Aux(KeyRole, w.newFrame(t).0, 0), x, rest, args))
  {
    assert KeyLaw(w, v, s, t, x, rest, args);
  }

  /** Head unification with the constant, and with the key variable and then the equation. */
  lemma MovedUnify<S(!new)>(fuel: nat, w: World<S>, v: View<S>, o: Originals, db: Database, safe: Database, x: int,
                            rest: seq<Term>, key: Term, body: Term, args: seq<Term>, s: S, t: S)
    requires SameOption(v, w.unify(s, [Int(x)] + rest, args), UnifyThenKey(w, t, key, x, rest, args))
    requires forall y, z :: v.same(y, z) ==> Follows(v, Native(fuel, w, o, db, body, y), Native(fuel, w, o, safe, body, z))
    ensures Follows(v, match w.unify(s, [Int(x)] + rest, args) { case None => Fails() case Some(s2) => Native(fuel, w, o, db, body, s2) },
                    match w.unify(t, [key] + rest, args)
                    case None => Fails()
                    case Some(t2) =>
                      Native(fuel, w, o, safe, Struct(Key(CommaK), [Struct(Iso(NativeKey), [key, Int(x)]), body]), t2))
  {
    hide Native, Follows;
    EndsAlike(v, Done);
    var t1 := w.unify(t, [key] + rest, args);
    if t1.Some? {
      KeyGoal(fuel, w, o, safe, key, x, body, t1.value);
      var t2 := w.unify(t1.value, [key], [Int(x)]);
      if t2.None? {
        assert w.unify(s, [Int(x)] + rest, args).None?;
      } else {
        assert v.same(w.unify(s, [Int(x)] + rest, args).value, t2.value);
      }
    }
  }

  lemma RenameMoved(c: Clause, k: nat)
    requires NeedsKey(c)
    ensures var x, rest, key := c.head.args[0].value, RenameAll(c.head.args[1..], k), Aux(KeyRole, k, 0);
            && Arguments(Rename(c.head, k)) == [Int(x)] + rest
            && Arguments(Rename(IndexSafe(c).head, k)) == [key] + rest
            && Rename(IndexSafe(c).body, k) == Struct(Key(CommaK), [Struct(Iso(NativeKey), [key, Int(x)]), Rename(c.body, k)])
  {
    assert ([KEY] + c.head.args[1..])[1..] == c.head.args[1..];
    var equation := [KEY, c.head.args[0]];
    assert RenameAll(equation, k) == [Aux(KeyRole, k, 0), c.head.args[0]];
    assert RenameAll([Struct(Iso(NativeKey), equation), c.body], k) ==
           [Rename(Struct(Iso(NativeKey), equation), k), Rename(c.body, k)];
  }

  lemma KeyGoal<S(!new)>(fuel: nat, w: World<S>, o: Originals, db: Database, key: Term, x: int, body: Term, s: S)
    ensures Native(fuel, w, o, db, Struct(Key(CommaK), [Struct(Iso(NativeKey), [key, Int(x)]), body]), s) ==
            match w.unify(s, [key], [Int(x)]) { case None => Fails() case Some(s1) => Native(fuel, w, o, db, body, s1) }
  {
    hide NativeDeferred, Matching, Builtin;
    var equation := Struct(Iso(NativeKey), [key, Int(x)]);
    assert Native(fuel, w, o, db, equation, s) == UnifyOnce(w, s, [key], [Int(x)]);
    if w.unify(s, [key], [Int(x)]).Some? {
      BindOnce(w.unify(s, [key], [Int(x)]).value, s1 => Native(fuel, w, o, db, body, s1));
    }
  }

  lemma {:induction false} MovedCall<S(!new)>(fuel: nat, w: World<S>, v: View<S>, o: Originals, db: Database, safe: Database,
                                              sc: Scope, g: Term, s: S, t: S)
    requires HidesKeys(w, v) && Moved(o, db, safe) && v.same(s, t) && Clear({KeyRole}, g)
    ensures Follows(v, NativeCall(fuel, w, o, db, sc, g, s), NativeCall(fuel, w, o, safe, sc, g, t))
    decreases fuel, 2
  {
    hide HidesKeys, NativeDeferred, Follows;
    KeyLawful(w, v);
    var r := w.resolve(s, g);
    ResolveSame(w, v, s, t, g);
    FrameSame(w, v, s, t);
    EndsAlike(v, Raise(CyclicTerm));
    EndsAlike(v, Raise(Instantiation(ExecuteK)));
    if r.Some? && Rewrite(o.names, sc, r.value, w.newFrame(s).0, 1).Err? {
      EndsAlike(v, Raise(Rewrite(o.names, sc, r.value, w.newFrame(s).0, 1).error));
    } else if r.Some? && Rewrite(o.names, sc, r.value, w.newFrame(s).0, 1).Ok? {
      var x, s1, t1 := Rewrite(o.names, sc, r.value, w.newFrame(s).0, 1).value, w.newFrame(s).1, w.newFrame(t).1;
      RewriteUnkeyed(o.names, sc, r.value, w.newFrame(s).0, 1);
      MovedNative(fuel, w, v, o, db, safe, x, s1, t1);
      BarrierFollows(v, Native(fuel, w, o, db, x, s1), Native(fuel, w, o, safe, x, t1));
    }
  }

  lemma {:induction false} MovedGroup<S(!new)>(fuel: nat, w: World<S>, v: View<S>, o: Originals, db: Database, safe: Database,
                                               k: DeferredKind, sc: Scope, args: seq<Term>, s: S, t: S)
    requires HidesKeys(w, v) && Moved(o, db, safe) && v.same(s, t) && ClearAll({KeyRole}, args) && fuel > 0 && IsGrouping(k)
    ensures Follows(v, NativeDeferred(fuel, w, o, db, k, sc, args, s), NativeDeferred(fuel, w, o, safe, k, sc, args, t))
    decreases fuel - 1, 5
  {
    hide HidesKeys, Follows, Native, GroupRun, FreeVariables, RunDeferred, Rewrite;
    KeyLawful(w, v);
    EndsAlike(v, Done);
    EndsAlike(v, Raise(CyclicTerm));
    if |args| == 3 {
      ResolveSame(w, v, s, t, args[0]);
      ResolveSame(w, v, s, t, args[1]);
      FrameSame(w, v, s, t);
      if w.resolve(s, args[0]).Some? && w.resolve(s, args[1]).Some? {
        var template, goal, s1, t1 := w.resolve(s, args[0]).value, w.resolve(s, args[1]).value, w.newFrame(s).1, w.newFrame(t).1;
        var r := Rewrite(o.names, sc, StripCaret(goal), w.newFrame(s).0, 1);
        PartsClear({KeyRole}, goal);
        if r.Err? {
          EndsAlike(v, Raise(r.error));
        } else {
          RewriteUnkeyed(o.names, sc, StripCaret(goal), w.newFrame(s).0, 1);
          MovedTaken(fuel - 1, w, v, o, db, safe, k, template, r.value, Quantified(goal), args[2], s1, t1);
        }
      }
    }
  }

  lemma {:induction false} MovedTaken<S(!new)>(fuel: nat, w: World<S>, v: View<S>, o: Originals, db: Database, safe: Database,
                                               k: DeferredKind, template: Term, body: Term, quantified: seq<Term>, out: Term, s: S, t: S)
    requires HidesKeys(w, v) && Moved(o, db, safe) && v.same(s, t)
    requires Clear({KeyRole}, template) && Clear({KeyRole}, body) && Clear({KeyRole}, out)
    ensures var free := FreeVariables(template, quantified, body);
            Follows(v, GroupRun(w, k, template, free, out, s, Barrier(Native(fuel, w, o, db, body, s))),
                    GroupRun(w, k, template, free, out, t, Barrier(Native(fuel, w, o, safe, body, t))))
    decreases fuel, 1, body, 3
  {
    hide HidesKeys, Follows, Native, GroupRun;
    KeyLawful(w, v);
    var p, q := Native(fuel, w, o, db, body, s), Native(fuel, w, o, safe, body, t);
    MovedNative(fuel, w, v, o, db, safe, body, s, t);
    BarrierFollows(v, p, q);
    FreeClear({KeyRole}, template, quantified, body);
    GroupRunFollows(w, v, k, template, FreeVariables(template, quantified, body), out, s, t, Barrier(p), Barrier(q));
  }

  lemma {:induction false} MovedDeferred<S(!new)>(fuel: nat, w: World<S>, v: View<S>, o: Originals, db: Database, safe: Database,
                                                  k: DeferredKind, sc: Scope, args: seq<Term>, s: S, t: S)
    requires HidesKeys(w, v) && Moved(o, db, safe) && v.same(s, t) && ClearAll({KeyRole}, args)
    ensures Follows(v, NativeDeferred(fuel, w, o, db, k, sc, args, s), NativeDeferred(fuel, w, o, safe, k, sc, args, t))
    decreases fuel, 0
  {
    if fuel == 0 {
      NativeStarved(w, o, db, k, sc, args, s);
      NativeStarved(w, o, safe, k, sc, args, t);
    } else if IsGrouping(k) {
      MovedGroup(fuel, w, v, o, db, safe, k, sc, args, s, t);
    } else {
      MovedUngrouped(fuel, w, v, o, db, safe, k, sc, args, s, t);
    }
  }

  lemma {:induction false} MovedUngrouped<S(!new)>(fuel: nat, w: World<S>, v: View<S>, o: Originals, db: Database, safe: Database,
                                                   k: DeferredKind, sc: Scope, args: seq<Term>, s: S, t: S)
    requires HidesKeys(w, v) && Moved(o, db, safe) && v.same(s, t) && ClearAll({KeyRole}, args) && fuel > 0 && !IsGrouping(k)
    ensures Follows(v, NativeDeferred(fuel, w, o, db, k, sc, args, s), NativeDeferred(fuel, w, o, safe, k, sc, args, t))
    decreases fuel - 1, 5
  {
    MovedWrapper(fuel - 1, w, v, o, db, safe, k, sc, args, s, t);
    NativeDeferredIs(fuel, w, o, db, k, sc, args, s);
    NativeDeferredIs(fuel, w, o, safe, k, sc, args, t);
  }

  lemma {:induction false} MovedWrapper<S(!new)>(fuel: nat, w: World<S>, v: View<S>, o: Originals, db: Database, safe: Database,
                                                 k: DeferredKind, sc: Scope, args: seq<Term>, s: S, t: S)
    requires HidesKeys(w, v) && Moved(o, db, safe) && v.same(s, t) && ClearAll({KeyRole}, args) && !IsGrouping(k)
    ensures Follows(v, RunDeferred(fuel, w, o, k, sc, args, s, NativeExec(fuel, w, o, db)),
                    RunDeferred(fuel, w, o, k, sc, args, t, NativeExec(fuel, w, o, safe)))
    decreases fuel, 4
  {
    MovedExec(fuel, w, v, o, db, safe, sc);
    DeferredFollows(fuel, w, v, o, k, sc, args, s, t, NativeExec(fuel, w, o, db), NativeExec(fuel, w, o, safe));
  }

  lemma {:induction false} MovedExec<S(!new)>(fuel: nat, w: World<S>, v: View<S>, o: Originals, db: Database, safe: Database, sc: Scope)
    requires HidesKeys(w, v) && Moved(o, db, safe)
    ensures ExecFollows(v, sc, NativeExec(fuel, w, o, db), NativeExec(fuel, w, o, safe))
    decreases fuel, 3
  {
    var e, f := NativeExec(fuel, w, o, db), NativeExec(fuel, w, o, safe);
    forall g, x, y | v.same(x, y) && Clear(v.hidden, g) ensures Follows(v, e(sc, g, x), f(sc, g, y)) {
      MovedCall(fuel, w, v, o, db, safe, sc, g, x, y);
    }
  }
}
