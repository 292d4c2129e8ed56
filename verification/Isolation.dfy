/** Confinement and non-interference of whole runs. */
module Isolation {
  import opened Terms
  import opened Policy
  import opened Runs
  import opened Runtime
  import opened Interpreters
  import opened Compilation
  import opened Monitoring
  import opened SharedScope

  /** Confinement: in no run of a rewritten goal, for any store and fuel, is anything dispatched that is not permitted
      in the scope of the clause it stands in, however goals are assembled at run time. In particular no shared clause
      reaches an owned predicate. */
  lemma Confined<S(!new)>(fuel: nat, w: World<S>, o: Originals, db: Database, sc: Scope, g: Term, frame: nat, at: nat, s: S)
    requires Loaded(o, db) && Rewrite(o.names, sc, g, frame, at).Ok?
    ensures var safe := Rewrite(o.names, sc, g, frame, at).value;
            Monitored(fuel, w, o, db, sc, safe, s) == Native(fuel, w, o, db, safe, s) &&
            !Native(fuel, w, o, db, safe, s).ending.Escaped?
  {
    LoadedIsPlain(o, db);
    RewriteSafe(o.names, sc, g, frame, at);
    MonitorIsSilent(fuel, w, o, db, sc, Rewrite(o.names, sc, g, frame, at).value, s);
  }

  /** The same for a goal submitted as a query, which is rewritten after its bindings are known. */
  lemma QueryConfined<S(!new)>(fuel: nat, w: World<S>, o: Originals, db: Database, sc: Scope, g: Term, s: S)
    requires Loaded(o, db)
    ensures MonitoredCall(fuel, w, o, db, sc, g, s) == NativeCall(fuel, w, o, db, sc, g, s)
    ensures !NativeCall(fuel, w, o, db, sc, g, s).ending.Escaped?
  {
    SilentCall(fuel, w, o, db, sc, g, s);
  }

  /** The monitor does fire where it should: a shared clause that names an owned predicate is stopped. */
  lemma MonitorFires<S>(fuel: nat, w: World<S>, o: Originals, db: Database, f: Name, args: seq<Term>, s: S)
    requires Loaded(o, db) && (f, |args|) in o.names.owned && NativeControl(f, |args|).None?
    ensures Monitored(fuel, w, o, db, Shared, Struct(f, args), s).ending == Escaped(f, |args|)
  {
    assert LoadedAt(o, db, f, |args|);
  }

  /** Non-interference: whatever private source is loaded beside it, a shared predicate called with the same arguments
      (goals and closures included) has the same run. */
  lemma SharedRunsIgnorePrivateSource<S(!new)>(fuel: nat, w: World<S>, o1: Originals, db1: Database, o2: Originals,
                                               db2: Database, f: Name, args: seq<Term>, s: S)
    requires Loaded(o1, db1) && Loaded(o2, db2) && SameView(o1, o2, Shared)
    requires (f, |args|) in o1.names.shared
    ensures Native(fuel, w, o1, db1, Struct(Internal(f), args), s) == Native(fuel, w, o2, db2, Struct(Internal(f), args), s)
  {
    ScopedDispatch(fuel, w, o1, db1, o2, db2, Shared, Struct(Internal(f), args), s);
  }

  /** A whole goal belonging to the shared scope, for instance the body of a shared rule. */
  lemma SharedGoalsIgnorePrivateSource<S(!new)>(fuel: nat, w: World<S>, o1: Originals, db1: Database, o2: Originals,
                                                db2: Database, g: Term, s: S)
    requires Loaded(o1, db1) && Loaded(o2, db2) && SameView(o1, o2, Shared)
    ensures NativeCall(fuel, w, o1, db1, Shared, g, s) == NativeCall(fuel, w, o2, db2, Shared, g, s)
  {
    ScopedCall(fuel, w, o1, db1, o2, db2, Shared, g, s);
  }

  /** A worker's runs depend on its program only: two databases that hold its rewritten form, however they represent it,
      give every goal the same runs. */
  lemma SameProgramSameRuns<S(!new)>(fuel: nat, w: World<S>, o: Originals, db1: Database, db2: Database, sc: Scope, g: Term, s: S)
    requires Loaded(o, db1) && Loaded(o, db2)
    ensures NativeCall(fuel, w, o, db1, sc, g, s) == NativeCall(fuel, w, o, db2, sc, g, s)
  {
    ScopedCall(fuel, w, o, db1, o, db2, sc, g, s);
  }
}
