/** What loading a source establishes: the native database holds the rewritten clauses of every registered predicate, in
    source order, and a registered predicate without clauses fails. */
module Compilation {
  import opened Terms
  import opened Policy
  import opened Runs
  import opened Runtime
  import opened Interpreters

  /** The clauses of one source with their bodies rewritten in its scope. */
  function RewriteBodies(ns: Names, sc: Scope, cs: seq<Clause>): Result<seq<Clause>, Ball> {
    if cs == [] then Ok([]) else
    match Rewrite(ns, sc, cs[0].body, 0, 1)
    case Err(b) => Err(b)
    case Ok(body) =>
      match RewriteBodies(ns, sc, cs[1..])
      case Err(b) => Err(b)
      case Ok(rest) => Ok([Clause(cs[0].head, body)] + rest)
  }

  /** Clauses of a rewritten predicate agree with the source ones: same heads up to the predicate's name, rewritten
      bodies, same order. */
  predicate Compiled(ns: Names, sc: Scope, source: seq<Clause>, native: seq<Clause>) {
    |source| == |native| &&
    forall i :: 0 <= i < |source| ==>
      source[i].head.Struct? && native[i].head.Struct? && source[i].head.args == native[i].head.args &&
      Rewrite(ns, sc, source[i].body, 0, 1) == Ok(native[i].body)
  }

  /** An empty predicate may also be emitted as one clause that fails. */
  predicate FailsOnly(source: seq<Clause>, native: seq<Clause>) {
    source == [] && |native| == 1 && native[0].head.Struct? && native[0].body == Struct(Key(FailK), [])
  }

  predicate Agrees(ns: Names, sc: Scope, source: seq<Clause>, native: seq<Clause>) {
    Compiled(ns, sc, source, native) || FailsOnly(source, native)
  }

  /** The native predicates that rewritten goals and emitted clauses call are admitted. */
  predicate CallsArePure(ns: Names) {
    (Key(FailK), 0) in ns.pure && (Key(EqualsK), 2) in ns.pure && (Computing(VariablesC), 2) in ns.pure
  }

  const SOURCE_FREE: set<Role> := {ResultRole, KeyRole}

  /** Every variable of a source text is an ordinary one. */
  predicate SourceClauses(cs: seq<Clause>) {
    ClearClauses(SOURCE_FREE, cs)
  }

  /** What the database holds for one predicate: its rewritten form if it is registered, and nothing under an admitted
      native name. */
  predicate LoadedAt(o: Originals, db: Database, f: Name, n: nat) {
    && ((f, n) in o.names.owned ==>
          !f.Iso? && !f.Internal? && (f, n) in db.defined &&
          Agrees(o.names, Local, Matching(o.local, f, n), Matching(db.clauses, f, n)))
    && ((f, n) in o.names.shared ==>
          (Internal(f), n) in db.defined &&
          Agrees(o.names, Shared, Matching(o.shared, f, n), Matching(db.clauses, Internal(f), n)))
    && ((f, n) in o.names.pure ==> !f.Iso? && !f.Internal? && (f, n) !in db.defined)
  }

  ghost predicate Loaded(o: Originals, db: Database) {
    && CallsArePure(o.names)
    && SourceClauses(o.local) && SourceClauses(o.shared)
    && forall f, n :: LoadedAt(o, db, f, n)
  }

  lemma EmittedControl(f: Name, n: nat)
    ensures ControlOf(f, n).None? ==> NativeControl(f, n).None? || f.Iso?
    ensures ControlOf(f, n).Some? && !ControlOf(f, n).value.Opaque? ==> NativeControl(f, n) == ControlOf(f, n)
    ensures ControlOf(f, n).Some? && ControlOf(f, n).value.Opaque? ==>
              NativeControl(Emitted(f, ControlOf(f, n).value.kind), n) == ControlOf(f, n)
  {
  }

  /** Arrows are what native execution takes them for: rewriting left of `;` cannot change which branch is an
      if-then-else. */
  lemma ArrowsAgree(ns: Names, sc: Scope, g: Term, frame: nat, at: nat)
    requires Rewrite(ns, sc, g, frame, at).Ok?
    ensures IsNativeArrow(Rewrite(ns, sc, g, frame, at).value) <==> IsArrow(g)
  {
    if g.Struct? {
      EmittedControl(g.functor, |g.args|);
    }
  }

  /** A predicate without clauses fails, however it is represented. */
  lemma EmptyFails<S(!new)>(fuel: nat, w: World<S>, o: Originals, db: Database, ns: Names, sc: Scope, native: seq<Clause>,
                      args: seq<Term>, s: S)
    requires Loaded(o, db) && Agrees(ns, sc, [], native)
    ensures NativeClauses(fuel, w, o, db, native, args, s) == Fails()
  {
    if native != [] {
      var (k, s1) := w.newFrame(s);
      var fail := Struct(Key(FailK), []);
      EmittedControl(Key(FailK), 0);
      assert native[1..] == [] && LoadedAt(o, db, Key(FailK), 0);
      assert Rename(fail, k) == fail;
      assert forall t :: Native(fuel, w, o, db, fail, t) == Fails();
      assert NativeClause(fuel, w, o, db, native[0], args, s) == Fails();
    }
  }

  lemma LoadedHere(o: Originals, db: Database, f: Name, n: nat)
    requires Loaded(o, db)
    ensures LoadedAt(o, db, f, n) && ClearClauses(SOURCE_FREE, o.local) && ClearClauses(SOURCE_FREE, o.shared)
  {
    assert LoadedAt(o, db, f, n);
  }
}
