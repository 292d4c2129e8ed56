/** The second back end: the shared database emitted as native clauses at build time. */
module CompiledDatabase {
  import opened Terms
  import opened Policy
  import opened Runtime
  import opened Interpreters
  import opened Compilation
  import opened Isolation
  import opened Source

  /** The registered predicates in the order of their first registration. */
  function Registry(items: seq<Item>): (r: seq<PI>)
    ensures forall p :: p in r <==> p in Registered(items)
    ensures forall i, j :: 0 <= i < j < |r| ==> r[i] != r[j]
  {
    if items == [] then [] else
    var init := items[..|items| - 1];
    var last := PIOf(items[|items| - 1]);
    assert forall i :: 0 <= i < |init| ==> PIOf(items[i]) == PIOf(init[i]);
    assert PIOf(items[|items| - 1]) in Registered(items);
    assert forall p :: p in Registered(items) <==> p in Registered(init) || p == last;
    if last in Registry(init) then Registry(init) else Registry(init) + [last]
  }

  function Blank(n: nat): seq<Term> {
    seq(n, (i: int) => if i >= 0 then Var(0, i) else Nil())
  }

  function FailClause(f: Name, n: nat): Clause {
    Clause(Struct(Internal(f), Blank(n)), Struct(Key(FailK), []))
  }

  function Chunk(p: PI, safe: seq<Clause>): seq<Clause> {
    var cs := Matching(safe, Internal(p.0), p.1);
    if cs == [] then [FailClause(p.0, p.1)] else cs
  }

  /** `iso_write_native_clauses`: grouped by predicate; a declared-empty predicate becomes one failing clause. */
  function Emit(pis: seq<PI>, safe: seq<Clause>): seq<Clause> {
    if pis == [] then [] else Chunk(pis[0], safe) + Emit(pis[1..], safe)
  }

  lemma ChunkHeads(p: PI, safe: seq<Clause>)
    ensures forall c :: c in Chunk(p, safe) ==> HasFunctor(c.head, Internal(p.0), p.1)
  {
    MatchingAll(safe, Internal(p.0), p.1);
  }

  lemma {:induction false} MatchingSelf(cs: seq<Clause>, f: Name, n: nat)
    requires forall c :: c in cs ==> HasFunctor(c.head, f, n)
    ensures Matching(cs, f, n) == cs
  {
    if cs != [] {
      MatchingSelf(cs[1..], f, n);
    }
  }

  /** Grouping keeps the order of the clauses of every predicate. */
  lemma {:induction false} EmitKeepsOrder(pis: seq<PI>, safe: seq<Clause>, p: PI)
    requires forall i, j :: 0 <= i < j < |pis| ==> pis[i] != pis[j]
    ensures Matching(Emit(pis, safe), Internal(p.0), p.1) == if p in pis then Chunk(p, safe) else []
  {
    if pis != [] {
      var c := Chunk(pis[0], safe);
      EmitKeepsOrder(pis[1..], safe, p);
      MatchingConcat(c, Emit(pis[1..], safe), Internal(p.0), p.1);
      ChunkHeads(pis[0], safe);
      if p == pis[0] {
        MatchingSelf(c, Internal(p.0), p.1);
        assert p !in pis[1..];
      } else {
        NoMatch(c, Internal(p.0), p.1);
        assert p in pis <==> p in pis[1..];
      }
    }
  }

  function Empties(pis: seq<PI>, safe: seq<Clause>): seq<Clause> {
    if pis == [] then [] else
    Filler(pis[0], safe) + Empties(pis[1..], safe)
  }

  predicate Covers(pis: seq<PI>, c: Clause) {
    c.head.Struct? && c.head.functor.Internal? && (c.head.functor.of, |c.head.args|) in pis
  }

  function Uncovered(pis: seq<PI>, safe: seq<Clause>): seq<Clause> {
    if safe == [] then [] else (if Covers(pis, safe[0]) then [] else [safe[0]]) + Uncovered(pis, safe[1..])
  }

  lemma UncoveredStep(pis: seq<PI>, c: Clause, cs: seq<Clause>)
    ensures multiset(Uncovered(pis, [c] + cs)) == (if Covers(pis, c) then multiset{} else multiset{c}) + multiset(Uncovered(pis, cs))
  {
    assert ([c] + cs)[1..] == cs;
  }

  lemma MatchingStep(f: Name, n: nat, c: Clause, cs: seq<Clause>)
    ensures multiset(Matching([c] + cs, f, n)) ==
            (if HasFunctor(c.head, f, n) then multiset{c} else multiset{}) + multiset(Matching(cs, f, n))
  {
    assert ([c] + cs)[1..] == cs;
  }

  lemma {:induction false} SplitOff(p: PI, rest: seq<PI>, safe: seq<Clause>)
    requires p !in rest
    ensures multiset(Uncovered(rest, safe)) ==
            multiset(Matching(safe, Internal(p.0), p.1)) + multiset(Uncovered([p] + rest, safe))
  {
    if safe != [] {
      var c := safe[0];
      SplitOff(p, rest, safe[1..]);
      assert safe == [c] + safe[1..];
      SplitOne(p, rest, c, safe[1..]);
    }
  }

  lemma SplitOne(p: PI, rest: seq<PI>, c: Clause, safe: seq<Clause>)
    requires p !in rest
    requires multiset(Uncovered(rest, safe)) ==
             multiset(Matching(safe, Internal(p.0), p.1)) + multiset(Uncovered([p] + rest, safe))
    ensures multiset(Uncovered(rest, [c] + safe)) ==
            multiset(Matching([c] + safe, Internal(p.0), p.1)) + multiset(Uncovered([p] + rest, [c] + safe))
  {
    hide Uncovered, Matching, Covers;
    UncoveredStep(rest, c, safe);
    UncoveredStep([p] + rest, c, safe);
    MatchingStep(Internal(p.0), p.1, c, safe);
    CoveredOnce(p, rest, c);
  }

  lemma CoveredOnce(p: PI, rest: seq<PI>, c: Clause)
    requires p !in rest
    ensures Covers([p] + rest, c) <==> HasFunctor(c.head, Internal(p.0), p.1) || Covers(rest, c)
    ensures !(HasFunctor(c.head, Internal(p.0), p.1) && Covers(rest, c))
  {
  }

  /** The failing clause of a predicate without clauses. */
  function Filler(p: PI, safe: seq<Clause>): seq<Clause> {
    if Matching(safe, Internal(p.0), p.1) == [] then [FailClause(p.0, p.1)] else []
  }

  lemma EmitStep(p: PI, rest: seq<PI>, safe: seq<Clause>)
    ensures multiset(Emit([p] + rest, safe)) ==
            multiset(Matching(safe, Internal(p.0), p.1)) + multiset(Filler(p, safe)) + multiset(Emit(rest, safe))
    ensures multiset(Empties([p] + rest, safe)) == multiset(Filler(p, safe)) + multiset(Empties(rest, safe))
  {
    assert ([p] + rest)[1..] == rest && ([p] + rest)[0] == p;
    assert Matching(safe, Internal(p.0), p.1) + Filler(p, safe) == Chunk(p, safe);
  }

  lemma {:induction false} EmitMultiset(pis: seq<PI>, safe: seq<Clause>)
    requires forall i, j :: 0 <= i < j < |pis| ==> pis[i] != pis[j]
    ensures multiset(Emit(pis, safe)) + multiset(Uncovered(pis, safe)) == multiset(safe) + multiset(Empties(pis, safe))
  {
    if pis == [] {
      UncoveredByNone(safe);
    } else {
      var p, rest := pis[0], pis[1..];
      EmitMultiset(rest, safe);
      assert [p] + rest == pis;
      SplitOff(p, rest, safe);
      EmitStep(p, rest, safe);
      Shuffle(multiset(Matching(safe, Internal(p.0), p.1)), multiset(Filler(p, safe)), multiset(Emit(rest, safe)),
              multiset(Uncovered(pis, safe)), multiset(safe), multiset(Empties(rest, safe)));
    }
  }

  lemma Shuffle<T>(m: multiset<T>, empty: multiset<T>, emitted: multiset<T>, uncovered: multiset<T>, safe: multiset<T>,
                   empties: multiset<T>)
    requires emitted + (m + uncovered) == safe + empties
    ensures m + empty + emitted + uncovered == safe + (empty + empties)
  {
    assert m + empty + emitted + uncovered == empty + (emitted + (m + uncovered));
  }

  lemma {:induction false} UncoveredByNone(safe: seq<Clause>)
    ensures Uncovered([], safe) == safe
  {
    if safe != [] {
      UncoveredByNone(safe[1..]);
    }
  }

  lemma {:induction false} AllCovered(pis: seq<PI>, safe: seq<Clause>)
    requires forall c :: c in safe ==> Covers(pis, c)
    ensures Uncovered(pis, safe) == []
  {
    if safe != [] {
      AllCovered(pis, safe[1..]);
    }
  }

  /** Nothing is lost, invented or duplicated: native emission is a permutation of the rewritten shared clauses, plus
      one failing clause for every predicate without clauses. */
  lemma EmitIsPermutation(ns: Names, items: seq<Item>, cs: seq<Clause>)
    requires cs == ClausesOf(items) && RewriteBodies(ns, Shared, cs).Ok?
    requires forall c :: c in cs ==> c.head.Struct?
    ensures var safe := InternalHeads(RewriteBodies(ns, Shared, cs).value);
            multiset(Emit(Registry(items), safe)) == multiset(safe) + multiset(Empties(Registry(items), safe))
  {
    var safe := InternalHeads(RewriteBodies(ns, Shared, cs).value);
    var pis := Registry(items);
    HeadsKept(ns, Shared, cs);
    forall c | c in safe ensures Covers(pis, c) {
      var i :| 0 <= i < |safe| && safe[i] == c;
      ClausesOfItems(items);
      assert Defined(cs[i]) in items;
      var j :| 0 <= j < |items| && items[j] == Defined(cs[i]);
      assert PIOf(items[j]) in Registered(items);
    }
    AllCovered(pis, safe);
    EmitMultiset(pis, safe);
  }

  /** The database of a compiled node: natively emitted shared clauses, private clauses loaded as usual. */
  function CompiledDb(rs: Reserved, sharedTerms: seq<Read>, l: Source.Loaded): Database
    requires Prepare(rs, sharedTerms).Ok?
  {
    var o := l.program;
    var shared := RewriteBodies(o.names, Shared, o.shared);
    var local := RewriteBodies(o.names, Local, o.local);
    Database(l.db.defined,
             Emit(Registry(Prepare(rs, sharedTerms).value), if shared.Ok? then InternalHeads(shared.value) else []) +
             if local.Ok? then local.value else [])
  }

  lemma CompiledIsLoaded(pol: Names, rs: Reserved, sharedTerms: seq<Read>, localTerms: seq<Read>)
    requires Admissible(pol, rs)
    requires Load(pol, rs, sharedTerms, localTerms).Ok?
    ensures var l := Load(pol, rs, sharedTerms, localTerms).value;
            Compilation.Loaded(l.program, CompiledDb(rs, sharedTerms, l))
  {
    LoadEstablishes(pol, rs, sharedTerms, localTerms);
    var l := Load(pol, rs, sharedTerms, localTerms).value;
    var o, items := l.program, Prepare(rs, sharedTerms).value;
    var prepared := Prepare(rs, localTerms).value;
    var n1 := Names({}, Registered(items), pol.pure, pol.guarded);
    RewriteBodiesEarly(n1, o.names, o.shared);
    AcceptedMayDefine(rs, sharedTerms);
    AcceptedMayDefine(rs, localTerms);
    EffectiveSubset(prepared, prepared, n1.shared);
    ItemHeads(rs, items);
    ItemHeads(rs, Effective(prepared, prepared, n1.shared));
    var safe, localSafe := InternalHeads(RewriteBodies(o.names, Shared, o.shared).value), RewriteBodies(o.names, Local, o.local).value;
    var db := CompiledDb(rs, sharedTerms, l);
    forall f: Name, n: nat ensures LoadedAt(o, db, f, n) {
      assert LoadedAt(o, l.db, f, n);
      if (f, n) in o.names.shared {
        SharedAgree(o, items, safe, localSafe, f, n);
      }
      if (f, n) in o.names.owned {
        LocalAgree(o, items, safe, localSafe, f, n);
      }
    }
  }

  lemma SharedAgree(o: Originals, items: seq<Item>, safe: seq<Clause>, localSafe: seq<Clause>, f: Name, n: nat)
    requires RewriteBodies(o.names, Shared, o.shared).Ok? && safe == InternalHeads(RewriteBodies(o.names, Shared, o.shared).value)
    requires RewriteBodies(o.names, Local, o.local) == Ok(localSafe)
    requires forall c :: c in o.shared || c in o.local ==> c.head.Struct? && !c.head.functor.Internal?
    requires (f, n) in Registered(items)
    ensures Agrees(o.names, Shared, Matching(o.shared, f, n), Matching(Emit(Registry(items), safe) + localSafe, Internal(f), n))
  {
    var e := Emit(Registry(items), safe);
    HeadsKept(o.names, Local, o.local);
    NoMatch(localSafe, Internal(f), n);
    MatchingConcat(e, localSafe, Internal(f), n);
    EmitKeepsOrder(Registry(items), safe, (f, n));
    InternalMatching(o.names, Shared, o.shared, f, n);
    assert Matching(e + localSafe, Internal(f), n) == Chunk((f, n), safe);
  }

  lemma {:induction false} EmitHeads(pis: seq<PI>, safe: seq<Clause>)
    ensures forall c :: c in Emit(pis, safe) ==> c.head.Struct? && c.head.functor.Internal?
  {
    if pis != [] {
      EmitHeads(pis[1..], safe);
      ChunkHeads(pis[0], safe);
    }
  }

  lemma LocalAgree(o: Originals, items: seq<Item>, safe: seq<Clause>, localSafe: seq<Clause>, f: Name, n: nat)
    requires RewriteBodies(o.names, Local, o.local) == Ok(localSafe)
    requires forall c :: c in o.local ==> c.head.Struct?
    requires !f.Internal?
    ensures Agrees(o.names, Local, Matching(o.local, f, n), Matching(Emit(Registry(items), safe) + localSafe, f, n))
  {
    var e := Emit(Registry(items), safe);
    EmitHeads(Registry(items), safe);
    NoMatch(e, f, n);
    MatchingConcat(e, localSafe, f, n);
    RewrittenMatching(o.names, Local, o.local, f, n);
    assert Matching(e + localSafe, f, n) == Matching(localSafe, f, n);
  }

  /** Snapshot and compiled nodes agree: every query has the same run on both. */
  lemma BackEndsAgree<S(!new)>(fuel: nat, w: World<S>, pol: Names, rs: Reserved, sharedTerms: seq<Read>,
                               localTerms: seq<Read>, sc: Scope, g: Term, s: S)
    requires Admissible(pol, rs)
    requires Load(pol, rs, sharedTerms, localTerms).Ok?
    ensures var l := Load(pol, rs, sharedTerms, localTerms).value;
            NativeCall(fuel, w, l.program, CompiledDb(rs, sharedTerms, l), sc, g, s) ==
            NativeCall(fuel, w, l.program, l.db, sc, g, s)
  {
    var l := Load(pol, rs, sharedTerms, localTerms).value;
    LoadEstablishes(pol, rs, sharedTerms, localTerms);
    CompiledIsLoaded(pol, rs, sharedTerms, localTerms);
    SameProgramSameRuns(fuel, w, l.program, CompiledDb(rs, sharedTerms, l), l.db, sc, g, s);
  }
}
