/** The database that a compiled node really has, and its agreement with a snapshot node. */
module EmittedNodes {
  import opened Terms
  import opened Policy
  import opened Runtime
  import opened Interpreters
  import opened Compilation
  import opened Simulation
  import opened Source
  import CompiledDatabase
  import opened IndexedRuns

  /** The database of a compiled node as it is emitted: shared clauses grouped and index-safe, private ones as loaded. */
  function EmittedDb(rs: Reserved, sharedTerms: seq<Read>, l: Source.Loaded): Database
    requires Prepare(rs, sharedTerms).Ok?
  {
    var o := l.program;
    var shared := RewriteBodies(o.names, Shared, o.shared);
    var local := RewriteBodies(o.names, Local, o.local);
    var emitted := CompiledDatabase.Emit(CompiledDatabase.Registry(Prepare(rs, sharedTerms).value),
                                         if shared.Ok? then InternalHeads(shared.value) else []);
    Database(l.db.defined, IndexSafeAll(emitted) + if local.Ok? then local.value else [])
  }

  lemma {:induction false} BodiesUnkeyed(ns: Names, sc: Scope, cs: seq<Clause>)
    requires ClearClauses({KeyRole}, cs) && RewriteBodies(ns, sc, cs).Ok?
    ensures ClearClauses({KeyRole}, RewriteBodies(ns, sc, cs).value)
  {
    if cs != [] {
      RewriteUnkeyed(ns, sc, cs[0].body, 0, 1);
      BodiesUnkeyed(ns, sc, cs[1..]);
    }
  }

  lemma InternalUnkeyed(cs: seq<Clause>)
    requires ClearClauses({KeyRole}, cs)
    ensures ClearClauses({KeyRole}, InternalHeads(cs))
  {
    forall i | 0 <= i < |cs| ensures Clear({KeyRole}, InternalHeads(cs)[i].head) {
      if cs[i].head.Struct? {
        assert ClearAll({KeyRole}, cs[i].head.args);
      }
    }
  }

  lemma {:induction false} EmitUnkeyed(pis: seq<PI>, cs: seq<Clause>)
    requires ClearClauses({KeyRole}, cs)
    ensures ClearClauses({KeyRole}, CompiledDatabase.Emit(pis, cs))
  {
    if pis != [] {
      EmitUnkeyed(pis[1..], cs);
      MatchingClear({KeyRole}, cs, Internal(pis[0].0), pis[0].1);
      assert ClearAll({KeyRole}, CompiledDatabase.Blank(pis[0].1));
    }
  }

  lemma SourceUnkeyed(cs: seq<Clause>)
    requires SourceClauses(cs)
    ensures ClearClauses({KeyRole}, cs)
  {
    forall i | 0 <= i < |cs| ensures Clear({KeyRole}, cs[i].head) && Clear({KeyRole}, cs[i].body) {
      ClearFewer(cs[i].head);
      ClearFewer(cs[i].body);
    }
  }

  lemma {:induction false} ClearFewer(t: Term)
    requires Clear(SOURCE_FREE, t)
    ensures Clear({KeyRole}, t)
  {
    if t.Struct? {
      assert ClearAll(SOURCE_FREE, t.args);
      forall i | 0 <= i < |t.args| ensures Clear({KeyRole}, t.args[i]) {
        ClearFewer(t.args[i]);
      }
    }
  }

  /** Every query has the same run (answers, order, ending, cut) on a snapshot node and on the database that is really
      emitted, in stores that differ at most in key variables. */
  lemma EmittedNodesAgree<S(!new)>(fuel: nat, w: World<S>, v: View<S>, pol: Names, rs: Reserved, sharedTerms: seq<Read>,
                                   localTerms: seq<Read>, sc: Scope, g: Ordinary, s: S, t: S)
    requires Admissible(pol, rs) && HidesKeys(w, v) && v.same(s, t)
    requires Load(pol, rs, sharedTerms, localTerms).Ok?
    ensures var l := Load(pol, rs, sharedTerms, localTerms).value;
            Follows(v, NativeCall(fuel, w, l.program, l.db, sc, g, s),
                    NativeCall(fuel, w, l.program, EmittedDb(rs, sharedTerms, l), sc, g, t))
  {
    var l := Load(pol, rs, sharedTerms, localTerms).value;
    var compiled, emitted := CompiledDatabase.CompiledDb(rs, sharedTerms, l), EmittedDb(rs, sharedTerms, l);
    CompiledDatabase.BackEndsAgree(fuel, w, pol, rs, sharedTerms, localTerms, sc, g, s);
    EmittedIsMoved(pol, rs, sharedTerms, localTerms);
    ClearFewer(g);
    MovedCall(fuel, w, v, l.program, compiled, emitted, sc, g, s, t);
  }

  lemma LoadPrepares(pol: Names, rs: Reserved, sharedTerms: seq<Read>, localTerms: seq<Read>)
    requires Load(pol, rs, sharedTerms, localTerms).Ok?
    ensures Prepare(rs, sharedTerms).Ok?
  {
  }

  lemma EmittedIsMoved(pol: Names, rs: Reserved, sharedTerms: seq<Read>, localTerms: seq<Read>)
    requires Admissible(pol, rs) && Load(pol, rs, sharedTerms, localTerms).Ok?
    ensures var l := Load(pol, rs, sharedTerms, localTerms).value;
            Moved(l.program, CompiledDatabase.CompiledDb(rs, sharedTerms, l), EmittedDb(rs, sharedTerms, l))
  {
    hide Admissible, Rewrite, Load, Prepare, RewriteBodies;
    LoadPrepares(pol, rs, sharedTerms, localTerms);
    var l := Load(pol, rs, sharedTerms, localTerms).value;
    var o := l.program;
    LoadEstablishes(pol, rs, sharedTerms, localTerms);
    SourceUnkeyed(o.local);
    SourceUnkeyed(o.shared);
    if RewriteBodies(o.names, Shared, o.shared).Ok? {
      BodiesUnkeyed(o.names, Shared, o.shared);
      InternalUnkeyed(RewriteBodies(o.names, Shared, o.shared).value);
    }
    if RewriteBodies(o.names, Local, o.local).Ok? {
      BodiesUnkeyed(o.names, Local, o.local);
    }
    var safe := if RewriteBodies(o.names, Shared, o.shared).Ok? then InternalHeads(RewriteBodies(o.names, Shared, o.shared).value) else [];
    EmitUnkeyed(CompiledDatabase.Registry(Prepare(rs, sharedTerms).value), safe);
  }
}
