/** Native execution under a monitor that knows in whose scope each goal runs. What the rewriter makes is safe in its scope,
    safe goals stay safe when clauses are used, and so the monitor has nothing to stop: it changes no run. */
module Monitoring {
  import opened Terms
  import opened Policy
  import opened Runs
  import opened Runtime
  import opened Grouping
  import opened Interpreters
  import opened Compilation

  // ---------- safe goals ----------

  /** What may be dispatched in a scope: a wrapper of that scope, a guarded library predicate, a shared predicate under
      its internal name, an admitted native predicate and, in local scope only, an owned predicate. */
  predicate Permitted(ns: Names, sc: Scope, f: Name, n: nat) {
    match f
    case Iso(Deferred(_, own)) => own == sc
    case Iso(Guarded(of)) => (of, n) in ns.guarded
    case Iso(Evaluate) => n == 2
    case Iso(_) => false
    case Internal(of) => (of, n) in ns.shared
    case _ => (sc == Local && (f, n) in ns.owned) || (f, n) in ns.pure
  }

  /** Every goal position of a rewritten goal holds native control or something permitted. */
  predicate SafeGoal(ns: Names, sc: Scope, g: Term) {
    g.Struct? &&
    match NativeControl(g.functor, |g.args|)
    case Some(Catching) => SafeGoal(ns, sc, g.args[0]) && SafeGoal(ns, sc, g.args[2])
    case Some(Opaque(k)) => SafeGoal(ns, sc, g.args[GoalIndex(k)])
    case Some(_) => SafeGoal(ns, sc, g.args[0]) && SafeGoal(ns, sc, g.args[1])
    case None => Permitted(ns, sc, g.functor, |g.args|)
  }

  ghost predicate PlainOwners(ns: Names) {
    forall f, n :: (f, n) in ns.owned || (f, n) in ns.pure ==> !f.Iso? && !f.Internal?
  }

  /** The rewriter makes safe goals. */
  lemma {:induction false} RewriteSafe(ns: Names, sc: Scope, g: Term, frame: nat, at: nat)
    requires CallsArePure(ns) && PlainOwners(ns)
    ensures Rewrite(ns, sc, g, frame, at).Ok? ==> SafeGoal(ns, sc, Rewrite(ns, sc, g, frame, at).value)
    decreases g, 1
  {
    if g.Struct? && Rewrite(ns, sc, g, frame, at).Ok? {
      var f, n := g.functor, |g.args|;
      EmittedControl(f, n);
      match ControlOf(f, n)
      case Some(Catching) => BothSafe(ns, sc, g, 0, 2, frame, at);
      case Some(Opaque(k)) =>
        RewriteSafe(ns, sc, g.args[GoalIndex(k)], frame, 2 * at);
        OpaqueSafe(ns, sc, f, k, g.args, Rewrite(ns, sc, g.args[GoalIndex(k)], frame, 2 * at).value, Aux(ResultRole, frame, at));
      case Some(_) => BothSafe(ns, sc, g, 0, 1, frame, at);
      case None =>
        if ComputedOf(f, n).Some? {
          ComputedSafe(ns, sc, ComputedOf(f, n).value, g.args, Aux(ResultRole, frame, at));
        }
    }
  }

  lemma UnifySafe(ns: Names, sc: Scope, goal: Term, out: Term, result: Term)
    requires CallsArePure(ns) && SafeGoal(ns, sc, goal)
    ensures SafeGoal(ns, sc, ThenUnify(goal, out, result))
  {
    assert SafeGoal(ns, sc, Struct(Key(EqualsK), [out, result]));
  }

  lemma OpaqueSafe(ns: Names, sc: Scope, f: Name, k: OpaqueKind, args: seq<Term>, safe: Term, result: Term)
    requires CallsArePure(ns) && SafeGoal(ns, sc, safe) && ControlOf(f, |args|) == Some(Opaque(k))
    ensures SafeGoal(ns, sc, EmitOpaque(f, k, args, safe, result))
  {
    EmittedControl(f, |args|);
    var goal := Struct(Emitted(f, k), args[GoalIndex(k) := safe]);
    if k.FindallO? {
      var collecting := goal.(args := goal.args[2 := result]);
      assert collecting.args[1] == safe;
      UnifySafe(ns, sc, collecting, args[2], result);
    }
  }

  lemma ComputedSafe(ns: Names, sc: Scope, c: ComputedKind, args: seq<Term>, result: Term)
    requires CallsArePure(ns) && |args| == 2
    ensures SafeGoal(ns, sc, EmitComputed(c, args, result))
  {
    UnifySafe(ns, sc, Struct(Computing(c), [args[InputIndex(c)], result]), args[1 - InputIndex(c)], result);
  }

  lemma {:induction false} BothSafe(ns: Names, sc: Scope, g: Term, i: nat, j: nat, frame: nat, at: nat)
    requires CallsArePure(ns) && PlainOwners(ns) && g.Struct? && i < j < |g.args|
    ensures var r := RewriteBoth(ns, sc, g, i, j, frame, at);
            r.Ok? ==> r.value.Struct? && r.value.functor == g.functor && |r.value.args| == |g.args| &&
                      SafeGoal(ns, sc, r.value.args[i]) && SafeGoal(ns, sc, r.value.args[j])
    decreases g, 0
  {
    RewriteSafe(ns, sc, g.args[i], frame, 2 * at);
    RewriteSafe(ns, sc, g.args[j], frame, 2 * at + 1);
  }

  /** Clause resolution runs a body under a renaming: safe goals stay safe. */
  lemma {:induction false} RenameSafe(ns: Names, sc: Scope, g: Term, k: nat)
    ensures SafeGoal(ns, sc, Rename(g, k)) == SafeGoal(ns, sc, g)
  {
    if g.Struct? {
      match NativeControl(g.functor, |g.args|)
      case Some(Catching) =>
        RenameSafe(ns, sc, g.args[0], k);
        RenameSafe(ns, sc, g.args[2], k);
      case Some(Opaque(o)) =>
        RenameSafe(ns, sc, g.args[GoalIndex(o)], k);
      case Some(_) =>
        RenameSafe(ns, sc, g.args[0], k);
        RenameSafe(ns, sc, g.args[1], k);
      case None =>
    }
  }

  /** All clauses that a loaded database offers for a predicate of this scope have safe bodies. */
  predicate SafeBodies(ns: Names, sc: Scope, cs: seq<Clause>) {
    forall i :: 0 <= i < |cs| ==> SafeGoal(ns, sc, cs[i].body)
  }

  lemma LoadedBodiesSafe(ns: Names, sc: Scope, source: seq<Clause>, native: seq<Clause>)
    requires CallsArePure(ns) && PlainOwners(ns) && Agrees(ns, sc, source, native)
    ensures SafeBodies(ns, sc, native)
  {
    EmittedControl(Key(FailK), 0);
    forall i | 0 <= i < |native| ensures SafeGoal(ns, sc, native[i].body) {
      if Compiled(ns, sc, source, native) {
        RewriteSafe(ns, sc, source[i].body, 0, 1);
      }
    }
  }

  lemma LoadedIsPlain(o: Originals, db: Database)
    requires Loaded(o, db)
    ensures CallsArePure(o.names) && PlainOwners(o.names)
  {
    forall f, n | (f, n) in o.names.owned || (f, n) in o.names.pure ensures !f.Iso? && !f.Internal? {
      assert LoadedAt(o, db, f, n);
    }
  }

  // ---------- the monitor ----------

  /** The scope in which the clauses of a native predicate run. */
  function ScopeOf(f: Name): Scope {
    if f.Internal? then Shared else Local
  }

  /** Native execution under a monitor that knows the scope of the running clause and ends the run as `Escaped` as soon
      as something is dispatched that is not permitted in that scope. */
  function Monitored<S>(fuel: nat, w: World<S>, o: Originals, db: Database, sc: Scope, g: Term, s: S): Run<S>
    decreases fuel, 1, g
  {
    match g
    case Var(_, _) => Run([], Escaped(Key(CallK), 1))
    case Aux(_, _, _) => Run([], Escaped(Key(CallK), 1))
    case Int(_) => Throws(NotCallable(g))
    case Struct(f, args) =>
      match NativeControl(f, |args|)
      case Some(And) => Bind(Monitored(fuel, w, o, db, sc, args[0], s), s1 => Monitored(fuel, w, o, db, sc, args[1], s1))
      case Some(Or) =>
        if IsNativeArrow(args[0]) then
          Choose(Monitored(fuel, w, o, db, sc, args[0].args[0], s), s1 => Monitored(fuel, w, o, db, sc, args[0].args[1], s1),
                 Monitored(fuel, w, o, db, sc, args[1], s))
        else Else(Monitored(fuel, w, o, db, sc, args[0], s), Monitored(fuel, w, o, db, sc, args[1], s))
      case Some(Then) =>
        Choose(Monitored(fuel, w, o, db, sc, args[0], s), s1 => Monitored(fuel, w, o, db, sc, args[1], s1), Fails())
      case Some(Catching) =>
        Caught(w, args[1], s, Barrier(Monitored(fuel, w, o, db, sc, args[0], s)), s1 => Monitored(fuel, w, o, db, sc, args[2], s1))
      case Some(Opaque(k)) => PostEmitted(w, k, args, s, Barrier(Monitored(fuel, w, o, db, sc, args[GoalIndex(k)], s)))
      case None =>
        var n := |args|;
        if !Permitted(o.names, sc, f, n) then Run([], Escaped(f, n))
        else if f.Iso? && f.guard.Deferred? then MonitoredDeferred(fuel, w, o, db, f.guard.kind, f.guard.scope, args, s)
        else if Primitive(fuel, w, f, args, s).Some? then Primitive(fuel, w, f, args, s).value
        else if (f, n) in db.defined then
          if fuel == 0 then Run([], Starved) else MonitoredClauses(fuel - 1, w, o, db, ScopeOf(f), Matching(db.clauses, f, n), args, s)
        else if (f, n) in o.names.pure then Builtin(fuel, w, f, args, s)
        else Run([], Escaped(f, n))
  }

  function MonitoredClauses<S>(fuel: nat, w: World<S>, o: Originals, db: Database, sc: Scope, cs: seq<Clause>, args: seq<Term>,
                               s: S): Run<S>
    decreases fuel, 2, |cs|
  {
    if cs == [] then Fails()
    else Barrier(Else(MonitoredClause(fuel, w, o, db, sc, cs[0], args, s), MonitoredClauses(fuel, w, o, db, sc, cs[1..], args, s)))
  }

  function MonitoredClause<S>(fuel: nat, w: World<S>, o: Originals, db: Database, sc: Scope, c: Clause, args: seq<Term>, s: S): Run<S>
    decreases fuel, 2, 0
  {
    var (k, s1) := w.newFrame(s);
    match w.unify(s1, Arguments(Rename(c.head, k)), args)
    case None => Fails()
    case Some(s2) => Monitored(fuel, w, o, db, sc, Rename(c.body, k), s2)
  }

  function MonitoredCall<S>(fuel: nat, w: World<S>, o: Originals, db: Database, sc: Scope, g: Term, s: S): Run<S>
    decreases fuel, 2
  {
    match w.resolve(s, g)
    case None => Throws(CyclicTerm)
    case Some(t) =>
      if t.Variable() then Throws(Instantiation(ExecuteK)) else
      var (k, s1) := w.newFrame(s);
      match Rewrite(o.names, sc, t, k, 1)
      case Err(b) => Throws(b)
      case Ok(safe) => Barrier(Monitored(fuel, w, o, db, sc, safe, s1))
  }

  function MonitoredDeferred<S>(fuel: nat, w: World<S>, o: Originals, db: Database, k: DeferredKind, sc: Scope,
                                args: seq<Term>, s: S): Run<S>
    decreases fuel, 0
  {
    if fuel == 0 then Run([], Starved)
    else if IsGrouping(k) then MonitoredGroup(fuel - 1, w, o, db, k, sc, args, s)
    else RunDeferred(fuel - 1, w, o, k, sc, args, s, MonitoredExec(fuel - 1, w, o, db))
  }

  function MonitoredExec<S>(fuel: nat, w: World<S>, o: Originals, db: Database): Exec<S>
    decreases fuel, 3
  {
    (sc, g, s) => MonitoredCall(fuel, w, o, db, sc, g, s)
  }

  function MonitoredGroup<S>(fuel: nat, w: World<S>, o: Originals, db: Database, k: DeferredKind, sc: Scope, args: seq<Term>,
                             s: S): Run<S>
    decreases fuel, 2
  {
    if |args| != 3 then Fails() else
    if w.resolve(s, args[0]).None? || w.resolve(s, args[1]).None? then Throws(CyclicTerm) else
    var template, goal := w.resolve(s, args[0]).value, w.resolve(s, args[1]).value;
    var (frame, s1) := w.newFrame(s);
    match Rewrite(o.names, sc, StripCaret(goal), frame, 1)
    case Err(b) => Throws(b)
    case Ok(safe) =>
      GroupRun(w, k, template, FreeVariables(template, Quantified(goal), safe), args[2], s1,
               Barrier(Monitored(fuel, w, o, db, sc, safe, s1)))
  }

  // ---------- confinement ----------

  /** The monitor never fires on a safe goal: its run is the native one, and it has not escaped. */
  lemma {:induction false} MonitorIsSilent<S(!new)>(fuel: nat, w: World<S>, o: Originals, db: Database, sc: Scope, g: Term, s: S)
    requires Loaded(o, db) && SafeGoal(o.names, sc, g)
    ensures Monitored(fuel, w, o, db, sc, g, s) == Native(fuel, w, o, db, g, s)
    ensures Contained(Native(fuel, w, o, db, g, s))
    decreases fuel, 1, g, 1
  {
    hide Loaded, NativeDeferred, MonitoredDeferred;
    var f, args := g.functor, g.args;
    match NativeControl(f, |args|)
    case Some(And) => SilentAnd(fuel, w, o, db, sc, g, s);
    case Some(Or) => SilentOr(fuel, w, o, db, sc, g, s);
    case Some(Then) =>
      MonitorIsSilent(fuel, w, o, db, sc, args[0], s);
      SilentEach(fuel, w, o, db, sc, args[1]);
    case Some(Catching) => SilentCatch(fuel, w, o, db, sc, g, s);
    case Some(Opaque(k)) => SilentOpaque(fuel, w, o, db, sc, g, k, s);
    case None => SilentDispatch(fuel, w, o, db, sc, g, s);
  }

  lemma {:induction false} SilentAnd<S(!new)>(fuel: nat, w: World<S>, o: Originals, db: Database, sc: Scope, g: Term, s: S)
    requires Loaded(o, db) && SafeGoal(o.names, sc, g) && NativeControl(g.functor, |g.args|) == Some(And)
    ensures Monitored(fuel, w, o, db, sc, g, s) == Native(fuel, w, o, db, g, s)
    ensures Contained(Native(fuel, w, o, db, g, s))
    decreases fuel, 1, g, 0
  {
    hide Loaded, Permitted, NativeDeferred, MonitoredDeferred;
    var b, r := g.args[1], Native(fuel, w, o, db, g.args[0], s);
    MonitorIsSilent(fuel, w, o, db, sc, g.args[0], s);
    SilentEach(fuel, w, o, db, sc, b);
    BindCong(r, s1 => Monitored(fuel, w, o, db, sc, b, s1), s1 => Native(fuel, w, o, db, b, s1));
    BindContained(r, s1 => Native(fuel, w, o, db, b, s1));
  }

  lemma {:induction false} SilentCatch<S(!new)>(fuel: nat, w: World<S>, o: Originals, db: Database, sc: Scope, g: Term, s: S)
    requires Loaded(o, db) && SafeGoal(o.names, sc, g) && NativeControl(g.functor, |g.args|) == Some(Catching)
    ensures Monitored(fuel, w, o, db, sc, g, s) == Native(fuel, w, o, db, g, s)
    ensures Contained(Native(fuel, w, o, db, g, s))
    decreases fuel, 1, g, 0
  {
    hide Loaded, Permitted, SafeBodies, NativeDeferred, MonitoredDeferred;
    MonitorIsSilent(fuel, w, o, db, sc, g.args[0], s);
    SilentEach(fuel, w, o, db, sc, g.args[2]);
  }

  lemma {:induction false} SilentOpaque<S(!new)>(fuel: nat, w: World<S>, o: Originals, db: Database, sc: Scope, g: Term,
                                                 k: OpaqueKind, s: S)
    requires Loaded(o, db) && SafeGoal(o.names, sc, g) && NativeControl(g.functor, |g.args|) == Some(Opaque(k))
    ensures Monitored(fuel, w, o, db, sc, g, s) == Native(fuel, w, o, db, g, s)
    ensures Contained(Native(fuel, w, o, db, g, s))
    decreases fuel, 1, g, 0
  {
    hide Loaded, Permitted, NativeDeferred, MonitoredDeferred;
    MonitorIsSilent(fuel, w, o, db, sc, g.args[GoalIndex(k)], s);
  }

  lemma {:induction false} SilentOr<S(!new)>(fuel: nat, w: World<S>, o: Originals, db: Database, sc: Scope, g: Term, s: S)
    requires Loaded(o, db) && SafeGoal(o.names, sc, g) && NativeControl(g.functor, |g.args|) == Some(Or)
    ensures Monitored(fuel, w, o, db, sc, g, s) == Native(fuel, w, o, db, g, s)
    ensures Contained(Native(fuel, w, o, db, g, s))
    decreases fuel, 1, g, 0
  {
    hide Loaded, Permitted, NativeDeferred, MonitoredDeferred;
    var a := g.args[0];
    MonitorIsSilent(fuel, w, o, db, sc, g.args[1], s);
    if IsNativeArrow(a) {
      MonitorIsSilent(fuel, w, o, db, sc, a.args[0], s);
      SilentEach(fuel, w, o, db, sc, a.args[1]);
    } else {
      MonitorIsSilent(fuel, w, o, db, sc, a, s);
    }
  }

  lemma {:induction false} SilentEach<S(!new)>(fuel: nat, w: World<S>, o: Originals, db: Database, sc: Scope, g: Term)
    requires Loaded(o, db) && SafeGoal(o.names, sc, g)
    ensures forall s :: Monitored(fuel, w, o, db, sc, g, s) == Native(fuel, w, o, db, g, s)
    ensures forall s :: Contained(Native(fuel, w, o, db, g, s))
    decreases fuel, 1, g, 2
  {
    forall s ensures Monitored(fuel, w, o, db, sc, g, s) == Native(fuel, w, o, db, g, s) && Contained(Native(fuel, w, o, db, g, s)) {
      MonitorIsSilent(fuel, w, o, db, sc, g, s);
    }
  }

  lemma {:induction false} SilentDispatch<S(!new)>(fuel: nat, w: World<S>, o: Originals, db: Database, sc: Scope, g: Term, s: S)
    requires Loaded(o, db) && SafeGoal(o.names, sc, g) && NativeControl(g.functor, |g.args|).None?
    ensures Monitored(fuel, w, o, db, sc, g, s) == Native(fuel, w, o, db, g, s)
    ensures Contained(Native(fuel, w, o, db, g, s))
    decreases fuel, 1, g, 0
  {
    hide Loaded, NativeDeferred, MonitoredDeferred, SafeBodies, Matching;
    var f, args, n := g.functor, g.args, |g.args|;
    LoadedHere(o, db, f, n);
    if f.Internal? {
      LoadedHere(o, db, f.of, n);
    }
    if f.Iso? && f.guard.Deferred? {
      SilentDeferred(fuel, w, o, db, f.guard.kind, sc, args, s);
    } else if Primitive(fuel, w, f, args, s).None? && (f, n) in db.defined && fuel > 0 {
      LoadedIsPlain(o, db);
      var source := if f.Internal? then Matching(o.shared, f.of, n) else Matching(o.local, f, n);
      LoadedBodiesSafe(o.names, ScopeOf(f), source, Matching(db.clauses, f, n));
      SilentClauses(fuel - 1, w, o, db, ScopeOf(f), Matching(db.clauses, f, n), args, s);
    }
  }

  lemma {:induction false} SilentClauses<S(!new)>(fuel: nat, w: World<S>, o: Originals, db: Database, sc: Scope,
                                                  cs: seq<Clause>, args: seq<Term>, s: S)
    requires Loaded(o, db) && SafeBodies(o.names, sc, cs)
    ensures MonitoredClauses(fuel, w, o, db, sc, cs, args, s) == NativeClauses(fuel, w, o, db, cs, args, s)
    ensures Contained(NativeClauses(fuel, w, o, db, cs, args, s))
    decreases fuel, 2, |cs|
  {
    if cs != [] {
      SilentClauses(fuel, w, o, db, sc, cs[1..], args, s);
      SilentClause(fuel, w, o, db, sc, cs[0], args, s);
    }
  }

  lemma {:induction false} SilentClause<S(!new)>(fuel: nat, w: World<S>, o: Originals, db: Database, sc: Scope,
                                                 c: Clause, args: seq<Term>, s: S)
    requires Loaded(o, db) && SafeGoal(o.names, sc, c.body)
    ensures MonitoredClause(fuel, w, o, db, sc, c, args, s) == NativeClause(fuel, w, o, db, c, args, s)
    ensures Contained(NativeClause(fuel, w, o, db, c, args, s))
    decreases fuel, 2, 0
  {
    hide Loaded, Native, Monitored, SafeGoal;
    var (k, s1) := w.newFrame(s);
    RenameSafe(o.names, sc, c.body, k);
    SilentEach(fuel, w, o, db, sc, Rename(c.body, k));
  }

  lemma {:induction false} SilentCall<S(!new)>(fuel: nat, w: World<S>, o: Originals, db: Database, sc: Scope, g: Term, s: S)
    requires Loaded(o, db)
    ensures MonitoredCall(fuel, w, o, db, sc, g, s) == NativeCall(fuel, w, o, db, sc, g, s)
    ensures Contained(NativeCall(fuel, w, o, db, sc, g, s))
    decreases fuel, 2
  {
    var r := w.resolve(s, g);
    if r.Some? {
      var (k, s1) := w.newFrame(s);
      LoadedIsPlain(o, db);
      RewriteSafe(o.names, sc, r.value, k, 1);
      if Rewrite(o.names, sc, r.value, k, 1).Ok? {
        MonitorIsSilent(fuel, w, o, db, sc, Rewrite(o.names, sc, r.value, k, 1).value, s1);
      }
    }
  }

  lemma {:induction false} SilentGroup<S(!new)>(fuel: nat, w: World<S>, o: Originals, db: Database, k: DeferredKind, sc: Scope,
                                                args: seq<Term>, s: S)
    requires Loaded(o, db)
    ensures MonitoredGroup(fuel, w, o, db, k, sc, args, s) == NativeGroup(fuel, w, o, db, k, sc, args, s)
    ensures Contained(NativeGroup(fuel, w, o, db, k, sc, args, s))
    decreases fuel, 2
  {
    hide Loaded, Native, Monitored, SafeGoal, Rewrite, GroupRun, FreeVariables, Caught;
    if |args| == 3 && w.resolve(s, args[1]).Some? {
      var (frame, s1) := w.newFrame(s);
      var body := StripCaret(w.resolve(s, args[1]).value);
      var r := Rewrite(o.names, sc, body, frame, 1);
      LoadedIsPlain(o, db);
      RewriteSafe(o.names, sc, body, frame, 1);
      if r.Ok? {
        MonitorIsSilent(fuel, w, o, db, sc, r.value, s1);
        var goal := w.resolve(s, args[1]).value;
        var inner := Barrier(Native(fuel, w, o, db, r.value, s1));
        if w.resolve(s, args[0]).Some? {
          var template := w.resolve(s, args[0]).value;
          GroupRunContained(w, k, template, FreeVariables(template, Quantified(goal), r.value), args[2], s1, inner);
        }
      }
    }
  }

  lemma {:induction false} SilentDeferred<S(!new)>(fuel: nat, w: World<S>, o: Originals, db: Database, k: DeferredKind,
                                                   sc: Scope, args: seq<Term>, s: S)
    requires Loaded(o, db)
    ensures MonitoredDeferred(fuel, w, o, db, k, sc, args, s) == NativeDeferred(fuel, w, o, db, k, sc, args, s)
    ensures Contained(NativeDeferred(fuel, w, o, db, k, sc, args, s))
    decreases fuel, 0
  {
    hide Loaded, NativeGroup, MonitoredGroup, RunDeferred;
    if fuel > 0 && IsGrouping(k) {
      SilentGroup(fuel - 1, w, o, db, k, sc, args, s);
    } else if fuel > 0 {
      SilentExec(fuel - 1, w, o, db, sc);
      SilentWrapper(fuel - 1, w, o, k, sc, args, s, MonitoredExec(fuel - 1, w, o, db), NativeExec(fuel - 1, w, o, db));
    }
  }

  lemma {:induction false} SilentExec<S(!new)>(fuel: nat, w: World<S>, o: Originals, db: Database, sc: Scope)
    requires Loaded(o, db)
    ensures SilentPair(sc, MonitoredExec(fuel, w, o, db), NativeExec(fuel, w, o, db))
    decreases fuel, 3
  {
    var e1, e2 := MonitoredExec(fuel, w, o, db), NativeExec(fuel, w, o, db);
    forall g, t ensures e1(sc, g, t) == e2(sc, g, t) && Contained(e2(sc, g, t)) {
      SilentCall(fuel, w, o, db, sc, g, t);
    }
  }

  ghost predicate SilentPair<S(!new)>(sc: Scope, e1: Exec<S>, e2: Exec<S>) {
    forall g, t :: e1(sc, g, t) == e2(sc, g, t) && Contained(e2(sc, g, t))
  }

  lemma SilentWrapper<S(!new)>(fuel: nat, w: World<S>, o: Originals, k: DeferredKind, sc: Scope, args: seq<Term>, s: S,
                               e1: Exec<S>, e2: Exec<S>)
    requires !IsGrouping(k)
    requires SilentPair(sc, e1, e2)
    ensures RunDeferred(fuel, w, o, k, sc, args, s, e1) == RunDeferred(fuel, w, o, k, sc, args, s, e2)
    ensures Contained(RunDeferred(fuel, w, o, k, sc, args, s, e2))
  {
    DeferredCong(fuel, w, o, o, k, sc, args, s, e1, e2);
    DeferredContained(fuel, w, o, k, sc, args, s, e2);
  }
}
