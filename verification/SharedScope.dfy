/** What the runs of a scope depend on. Two loaded workers that a scope cannot tell apart, because they agree on all that it
    may see, give its goals equal runs; in shared scope the private sources may differ. */
module SharedScope {
  import opened Terms
  import opened Policy
  import opened Runs
  import opened Runtime
  import opened Grouping
  import opened Interpreters
  import opened Compilation
  import opened Monitoring

  /** Rewriting in shared scope does not look at owned predicates. */
  lemma {:induction false} SharedRewrite(n1: Names, n2: Names, g: Term, frame: nat, at: nat)
    requires n1.shared == n2.shared && n1.pure == n2.pure && n1.guarded == n2.guarded
    ensures Rewrite(n1, Shared, g, frame, at) == Rewrite(n2, Shared, g, frame, at)
  {
    if g.Struct? {
      match ControlOf(g.functor, |g.args|)
      case Some(Catching) =>
        SharedRewrite(n1, n2, g.args[0], frame, 2 * at);
        SharedRewrite(n1, n2, g.args[2], frame, 2 * at + 1);
      case Some(Opaque(k)) =>
        SharedRewrite(n1, n2, g.args[GoalIndex(k)], frame, 2 * at);
      case Some(_) =>
        SharedRewrite(n1, n2, g.args[0], frame, 2 * at);
        SharedRewrite(n1, n2, g.args[1], frame, 2 * at + 1);
      case None =>
    }
  }

  /** Two loaded workers that a scope cannot tell apart: in shared scope their private sources may differ. */
  ghost predicate ScopeAlike(o1: Originals, db1: Database, o2: Originals, db2: Database, sc: Scope) {
    Loaded(o1, db1) && Loaded(o2, db2) && SameView(o1, o2, sc)
  }

  lemma ScopedRewrite(o1: Originals, o2: Originals, sc: Scope, g: Term, frame: nat, at: nat)
    requires SameView(o1, o2, sc)
    ensures Rewrite(o1.names, sc, g, frame, at) == Rewrite(o2.names, sc, g, frame, at)
  {
    if sc == Shared {
      SharedRewrite(o1.names, o2.names, g, frame, at);
    }
  }

  lemma {:induction false} ScopedNative<S(!new)>(fuel: nat, w: World<S>, o1: Originals, db1: Database, o2: Originals,
                                                 db2: Database, sc: Scope, g: Term, s: S)
    requires ScopeAlike(o1, db1, o2, db2, sc) && SafeGoal(o1.names, sc, g)
    ensures Native(fuel, w, o1, db1, g, s) == Native(fuel, w, o2, db2, g, s)
    decreases fuel, 1, g, 1
  {
    hide NativeDeferred, NativeControl, RunDeferred, ScopeAlike, Loaded;
    var f, args := g.functor, g.args;
    match NativeControl(f, |args|)
    case Some(And) =>
      ScopedNative(fuel, w, o1, db1, o2, db2, sc, args[0], s);
      ScopedNativeEach(fuel, w, o1, db1, o2, db2, sc, args[1]);
      BindCong(Native(fuel, w, o1, db1, args[0], s), s1 => Native(fuel, w, o1, db1, args[1], s1), s1 => Native(fuel, w, o2, db2, args[1], s1));
    case Some(Or) =>
      ScopedNative(fuel, w, o1, db1, o2, db2, sc, args[1], s);
      if IsNativeArrow(args[0]) {
        ScopedNative(fuel, w, o1, db1, o2, db2, sc, args[0].args[0], s);
        ScopedNativeEach(fuel, w, o1, db1, o2, db2, sc, args[0].args[1]);
      } else {
        ScopedNative(fuel, w, o1, db1, o2, db2, sc, args[0], s);
      }
    case Some(Then) =>
      ScopedNative(fuel, w, o1, db1, o2, db2, sc, args[0], s);
      ScopedNativeEach(fuel, w, o1, db1, o2, db2, sc, args[1]);
    case Some(Catching) =>
      ScopedNative(fuel, w, o1, db1, o2, db2, sc, args[0], s);
      ScopedNativeEach(fuel, w, o1, db1, o2, db2, sc, args[2]);
    case Some(Opaque(k)) =>
      ScopedNative(fuel, w, o1, db1, o2, db2, sc, args[GoalIndex(k)], s);
    case None => ScopedDispatch(fuel, w, o1, db1, o2, db2, sc, g, s);
  }

  lemma {:induction false} ScopedNativeEach<S(!new)>(fuel: nat, w: World<S>, o1: Originals, db1: Database, o2: Originals,
                                                     db2: Database, sc: Scope, g: Term)
    requires ScopeAlike(o1, db1, o2, db2, sc) && SafeGoal(o1.names, sc, g)
    ensures forall s :: Native(fuel, w, o1, db1, g, s) == Native(fuel, w, o2, db2, g, s)
    decreases fuel, 1, g, 2
  {
    forall s ensures Native(fuel, w, o1, db1, g, s) == Native(fuel, w, o2, db2, g, s) {
      ScopedNative(fuel, w, o1, db1, o2, db2, sc, g, s);
    }
  }

  lemma {:induction false} ScopedDispatch<S(!new)>(fuel: nat, w: World<S>, o1: Originals, db1: Database, o2: Originals,
                                                   db2: Database, sc: Scope, g: Term, s: S)
    requires ScopeAlike(o1, db1, o2, db2, sc) && SafeGoal(o1.names, sc, g) && NativeControl(g.functor, |g.args|).None?
    ensures Native(fuel, w, o1, db1, g, s) == Native(fuel, w, o2, db2, g, s)
    decreases fuel, 1, g, 0
  {
    hide Loaded, NativeDeferred, Matching, Agrees;
    var f, args, n := g.functor, g.args, |g.args|;
    LoadedHere(o1, db1, f, n);
    LoadedHere(o2, db2, f, n);
    if f.Internal? {
      LoadedHere(o1, db1, f.of, n);
      LoadedHere(o2, db2, f.of, n);
    }
    if f.Iso? && f.guard.Deferred? {
      ScopedDeferred(fuel, w, o1, db1, o2, db2, sc, f.guard.kind, args, s);
    } else if Primitive(fuel, w, f, args, s).None? && (f, n) in db1.defined && fuel > 0 {
      var source := if f.Internal? then Matching(o1.shared, f.of, n) else Matching(o1.local, f, n);
      ScopedClauses(fuel - 1, w, o1, db1, o2, db2, ScopeOf(f), source, Matching(db1.clauses, f, n),
                    Matching(db2.clauses, f, n), args, s);
    }
  }

  lemma {:induction false} ScopedClauses<S(!new)>(fuel: nat, w: World<S>, o1: Originals, db1: Database, o2: Originals,
                                                  db2: Database, sc: Scope, source: seq<Clause>, cs1: seq<Clause>, cs2: seq<Clause>,
                                                  args: seq<Term>, s: S)
    requires ScopeAlike(o1, db1, o2, db2, sc)
    requires Agrees(o1.names, sc, source, cs1) && Agrees(o2.names, sc, source, cs2)
    ensures NativeClauses(fuel, w, o1, db1, cs1, args, s) == NativeClauses(fuel, w, o2, db2, cs2, args, s)
    decreases fuel, 2, |source|
  {
    if source == [] {
      EmptyFails(fuel, w, o1, db1, o1.names, sc, cs1, args, s);
      EmptyFails(fuel, w, o2, db2, o2.names, sc, cs2, args, s);
    } else {
      ScopedClauses(fuel, w, o1, db1, o2, db2, sc, source[1..], cs1[1..], cs2[1..], args, s);
      ScopedRewrite(o1, o2, sc, source[0].body, 0, 1);
      LoadedIsPlain(o1, db1);
      RewriteSafe(o1.names, sc, source[0].body, 0, 1);
      ScopedClause(fuel, w, o1, db1, o2, db2, sc, cs1[0], cs2[0], args, s);
    }
  }

  lemma {:induction false} ScopedClause<S(!new)>(fuel: nat, w: World<S>, o1: Originals, db1: Database, o2: Originals,
                                                 db2: Database, sc: Scope, c1: Clause, c2: Clause, args: seq<Term>, s: S)
    requires ScopeAlike(o1, db1, o2, db2, sc) && SafeGoal(o1.names, sc, c1.body)
    requires c1.head.Struct? && c2.head.Struct? && c1.head.args == c2.head.args && c1.body == c2.body
    ensures NativeClause(fuel, w, o1, db1, c1, args, s) == NativeClause(fuel, w, o2, db2, c2, args, s)
    decreases fuel, 2, 0
  {
    hide Native, SafeGoal, Loaded;
    var (k, s1) := w.newFrame(s);
    RenameSafe(o1.names, sc, c1.body, k);
    ScopedNativeEach(fuel, w, o1, db1, o2, db2, sc, Rename(c1.body, k));
    assert Arguments(Rename(c1.head, k)) == Arguments(Rename(c2.head, k));
  }

  lemma {:induction false} ScopedCall<S(!new)>(fuel: nat, w: World<S>, o1: Originals, db1: Database, o2: Originals,
                                               db2: Database, sc: Scope, g: Term, s: S)
    requires ScopeAlike(o1, db1, o2, db2, sc)
    ensures NativeCall(fuel, w, o1, db1, sc, g, s) == NativeCall(fuel, w, o2, db2, sc, g, s)
    decreases fuel, 2
  {
    var r := w.resolve(s, g);
    if r.Some? {
      var (k, s1) := w.newFrame(s);
      ScopedRewrite(o1, o2, sc, r.value, k, 1);
      LoadedIsPlain(o1, db1);
      RewriteSafe(o1.names, sc, r.value, k, 1);
      if Rewrite(o1.names, sc, r.value, k, 1).Ok? {
        ScopedNative(fuel, w, o1, db1, o2, db2, sc, Rewrite(o1.names, sc, r.value, k, 1).value, s1);
      }
    }
  }

  lemma {:induction false} ScopedGroup<S(!new)>(fuel: nat, w: World<S>, o1: Originals, db1: Database, o2: Originals,
                                                db2: Database, sc: Scope, k: DeferredKind, args: seq<Term>, s: S)
    requires ScopeAlike(o1, db1, o2, db2, sc)
    ensures NativeGroup(fuel, w, o1, db1, k, sc, args, s) == NativeGroup(fuel, w, o2, db2, k, sc, args, s)
    decreases fuel, 2
  {
    hide Native, Loaded, Rewrite, RunDeferred, StripCaret;
    if |args| == 3 && w.resolve(s, args[1]).Some? {
      var (frame, s1) := w.newFrame(s);
      var body := StripCaret(w.resolve(s, args[1]).value);
      ScopedRewrite(o1, o2, sc, body, frame, 1);
      LoadedIsPlain(o1, db1);
      RewriteSafe(o1.names, sc, body, frame, 1);
      if Rewrite(o1.names, sc, body, frame, 1).Ok? {
        ScopedNative(fuel, w, o1, db1, o2, db2, sc, Rewrite(o1.names, sc, body, frame, 1).value, s1);
      }
    }
  }

  lemma {:induction false} ScopedDeferred<S(!new)>(fuel: nat, w: World<S>, o1: Originals, db1: Database, o2: Originals,
                                                   db2: Database, sc: Scope, k: DeferredKind, args: seq<Term>, s: S)
    requires ScopeAlike(o1, db1, o2, db2, sc)
    ensures NativeDeferred(fuel, w, o1, db1, k, sc, args, s) == NativeDeferred(fuel, w, o2, db2, k, sc, args, s)
    decreases fuel, 0
  {
    hide Native, Loaded, RunDeferred, NativeExec, IsGrouping;
    if fuel > 0 && IsGrouping(k) {
      ScopedGroup(fuel - 1, w, o1, db1, o2, db2, sc, k, args, s);
    } else if fuel > 0 {
      ScopedExec(fuel - 1, w, o1, db1, o2, db2, sc);
      ScopedWrapper(fuel - 1, w, o1, o2, k, sc, args, s, NativeExec(fuel - 1, w, o1, db1), NativeExec(fuel - 1, w, o2, db2));
    }
  }

  ghost predicate EqualPair<S(!new)>(sc: Scope, e1: Exec<S>, e2: Exec<S>) {
    forall g, t :: e1(sc, g, t) == e2(sc, g, t)
  }

  lemma ScopedWrapper<S(!new)>(fuel: nat, w: World<S>, o1: Originals, o2: Originals, k: DeferredKind, sc: Scope, args: seq<Term>, s: S,
                               e1: Exec<S>, e2: Exec<S>)
    requires SameView(o1, o2, sc) && !IsGrouping(k) && EqualPair(sc, e1, e2)
    ensures RunDeferred(fuel, w, o1, k, sc, args, s, e1) == RunDeferred(fuel, w, o2, k, sc, args, s, e2)
  {
    DeferredCong(fuel, w, o1, o2, k, sc, args, s, e1, e2);
  }

  lemma {:induction false} ScopedExec<S(!new)>(fuel: nat, w: World<S>, o1: Originals, db1: Database, o2: Originals, db2: Database, sc: Scope)
    requires ScopeAlike(o1, db1, o2, db2, sc)
    ensures EqualPair(sc, NativeExec(fuel, w, o1, db1), NativeExec(fuel, w, o2, db2))
    decreases fuel, 3
  {
    var e1, e2 := NativeExec(fuel, w, o1, db1), NativeExec(fuel, w, o2, db2);
    forall g, t ensures e1(sc, g, t) == e2(sc, g, t) {
      ScopedCall(fuel, w, o1, db1, o2, db2, sc, g, t);
    }
  }
}
