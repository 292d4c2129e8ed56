/** Loading, from the terms of two source files to a database. */
module Source {
  import opened Terms
  import opened Policy
  import opened Runs
  import opened Runtime
  import opened Interpreters
  import opened Compilation
  import opened Simulation
  import opened EmittedGoals
  import opened Reference
  import opened Preservation
  import opened Monitoring
  import opened SharedScope
  import opened Isolation

  /** A term that comes from outside has ordinary variables only. */
  type Ordinary = t: Term | Clear(SOURCE_FREE, t) witness Int(0)

  datatype Spec = Indicator(name: Term, arity: Term) | Malformed(culprit: Term)

  /** A term read from a source file. Directives carry their predicate specifications. */
  datatype Read = Rule(head: Ordinary, body: Ordinary) | Fact(term: Ordinary) | Declaration(specs: seq<Spec>) | Directive(goal: Term)

  datatype LoadError =
    | NotCallableHead(culprit: Term)
    | Redefines(name: Name, arity: nat)
    | BadIndicator
    | ArityTooLarge
    | DirectiveDenied(goal: Term)
    | Rejected(ball: Ball)

  datatype Item = Declared(name: Name, arity: nat) | Defined(clause: Clause)

  /** Names reserved for the public wrappers, and the runtime's own definitions. */
  datatype Reserved = Reserved(wrappers: set<PI>, runtime: set<PI>, hooks: set<Name>, maxArity: nat)

  predicate MayDefine(rs: Reserved, f: Name, n: nat) {
    !f.Iso? && !f.Internal? && !f.Dollar? && f !in rs.hooks && (f, n) !in rs.wrappers && (f, n) !in rs.runtime
  }

  function PrepareClause(rs: Reserved, head: Term, body: Term): Result<Item, LoadError> {
    if !head.Struct? then Err(NotCallableHead(head))
    else if !MayDefine(rs, head.functor, |head.args|) then Err(Redefines(head.functor, |head.args|))
    else Ok(Defined(Clause(head, body)))
  }

  function PrepareSpecs(rs: Reserved, specs: seq<Spec>): Result<seq<Item>, LoadError> {
    if specs == [] then Ok([]) else
    var p := specs[0];
    if p.Malformed? || !p.name.Struct? || p.name.args != [] || !p.arity.Int? || p.arity.value < 0 then Err(BadIndicator)
    else if p.arity.value > rs.maxArity then Err(ArityTooLarge)
    else if !MayDefine(rs, p.name.functor, p.arity.value) then Err(Redefines(p.name.functor, p.arity.value))
    else
      match PrepareSpecs(rs, specs[1..])
      case Err(e) => Err(e)
      case Ok(rest) => Ok([Declared(p.name.functor, p.arity.value)] + rest)
  }

  /** `iso_prepare_source`: everything is validated before anything is installed, and no directive is executed. */
  function Prepare(rs: Reserved, terms: seq<Read>): Result<seq<Item>, LoadError> {
    if terms == [] then Ok([]) else
    var here: Result<seq<Item>, LoadError> :=
      match terms[0]
      case Directive(g) => Err(DirectiveDenied(g))
      case Declaration(specs) => PrepareSpecs(rs, specs)
      case Fact(t) => (match PrepareClause(rs, t, Struct(Key(TrueK), [])) case Err(e) => Err(e) case Ok(i) => Ok([i]))
      case Rule(h, b) => (match PrepareClause(rs, h, b) case Err(e) => Err(e) case Ok(i) => Ok([i]));
    match here
    case Err(e) => Err(e)
    case Ok(items) =>
      match Prepare(rs, terms[1..])
      case Err(e) => Err(e)
      case Ok(rest) => Ok(items + rest)
  }

  function PIOf(i: Item): PI {
    match i
    case Declared(f, n) => (f, n)
    case Defined(c) => if c.head.Struct? then (c.head.functor, |c.head.args|) else (Key(NilK), 0)
  }

  predicate Defines(items: seq<Item>, p: PI) {
    exists i :: 0 <= i < |items| && items[i].Defined? && PIOf(items[i]) == p
  }

  /** `iso_filter_declarations`: a declaration without local clauses does not shadow a shared predicate. */
  function Effective(items: seq<Item>, all: seq<Item>, shared: set<PI>): seq<Item> {
    if items == [] then [] else
    (if items[0].Declared? && PIOf(items[0]) in shared && !Defines(all, PIOf(items[0])) then [] else [items[0]])
    + Effective(items[1..], all, shared)
  }

  function Registered(items: seq<Item>): set<PI> {
    set i | 0 <= i < |items| :: PIOf(items[i])
  }

  function ClausesOf(items: seq<Item>): seq<Clause> {
    if items == [] then []
    else (if items[0].Defined? then [items[0].clause] else []) + ClausesOf(items[1..])
  }

  function InternalHeads(cs: seq<Clause>): (r: seq<Clause>)
    ensures |r| == |cs|
    ensures forall i :: 0 <= i < |cs| ==> r[i] == Clause(if cs[i].head.Struct? then Struct(Internal(cs[i].head.functor), cs[i].head.args) else cs[i].head, cs[i].body)
  {
    if cs == [] then []
    else [Clause(if cs[0].head.Struct? then Struct(Internal(cs[0].head.functor), cs[0].head.args) else cs[0].head, cs[0].body)]
         + InternalHeads(cs[1..])
  }

  function InternalPIs(ps: set<PI>): set<PI> {
    set p | p in ps :: (Internal(p.0), p.1)
  }

  /** A worker's state once both sources are loaded: the shared one first, then the private one. */
  datatype Loaded = Loaded(program: Originals, db: Database)

  function Load(pol: Names, rs: Reserved, sharedTerms: seq<Read>, localTerms: seq<Read>): Result<Loaded, LoadError> {
    match Prepare(rs, sharedTerms)
    case Err(e) => Err(e)
    case Ok(sharedItems) =>
      var n1 := Names({}, Registered(sharedItems), pol.pure, pol.guarded);
      match RewriteBodies(n1, Shared, ClausesOf(sharedItems))
      case Err(b) => Err(Rejected(b))
      case Ok(sharedSafe) =>
        match Prepare(rs, localTerms)
        case Err(e) => Err(e)
        case Ok(prepared) =>
          var localItems := Effective(prepared, prepared, n1.shared);
          var n2 := n1.(owned := Registered(localItems));
          match RewriteBodies(n2, Local, ClausesOf(localItems))
          case Err(b) => Err(Rejected(b))
          case Ok(localSafe) =>
            Ok(Loaded(Originals(n2, ClausesOf(localItems), ClausesOf(sharedItems)),
                      Database(n2.owned + InternalPIs(n1.shared), InternalHeads(sharedSafe) + localSafe)))
  }

  // ---------- what acceptance guarantees ----------

  predicate ClauseOk(c: Clause) {
    c.head.Struct? && Clear(SOURCE_FREE, c.head) && Clear(SOURCE_FREE, c.body)
  }

  predicate AllMayDefine(rs: Reserved, items: seq<Item>) {
    forall i :: 0 <= i < |items| ==>
      MayDefine(rs, PIOf(items[i]).0, PIOf(items[i]).1) && (items[i].Defined? ==> ClauseOk(items[i].clause))
  }

  lemma {:induction false} SpecsMayDefine(rs: Reserved, specs: seq<Spec>)
    ensures PrepareSpecs(rs, specs).Ok? ==> AllMayDefine(rs, PrepareSpecs(rs, specs).value)
  {
    if specs != [] {
      SpecsMayDefine(rs, specs[1..]);
    }
  }

  /** No accepted source defines or declares a runtime predicate, a wrapper or an internal name. */
  lemma {:induction false} AcceptedMayDefine(rs: Reserved, terms: seq<Read>)
    ensures Prepare(rs, terms).Ok? ==> AllMayDefine(rs, Prepare(rs, terms).value)
  {
    if terms != [] {
      AcceptedMayDefine(rs, terms[1..]);
      if terms[0].Declaration? {
        SpecsMayDefine(rs, terms[0].specs);
      }
    }
  }

  lemma {:induction false} EffectiveSubset(items: seq<Item>, all: seq<Item>, shared: set<PI>)
    ensures forall x :: x in Effective(items, all, shared) <==>
                        x in items && !(x.Declared? && PIOf(x) in shared && !Defines(all, PIOf(x)))
  {
    if items != [] {
      EffectiveSubset(items[1..], all, shared);
    }
  }

  /** Shadowing: after filtering, a private source owns a predicate exactly when it defines it, or declares it and no
      shared predicate of that name exists. */
  lemma OwnedExactly(items: seq<Item>, shared: set<PI>, p: PI)
    ensures p in Registered(Effective(items, items, shared)) <==>
            Defines(items, p) || (p !in shared && exists i :: 0 <= i < |items| && PIOf(items[i]) == p)
  {
    var e := Effective(items, items, shared);
    EffectiveSubset(items, items, shared);
    if Defines(items, p) {
      var i :| 0 <= i < |items| && items[i].Defined? && PIOf(items[i]) == p;
      assert items[i] in e;
      var j :| 0 <= j < |e| && e[j] == items[i];
      assert PIOf(e[j]) in Registered(e);
    } else if p !in shared && exists i :: 0 <= i < |items| && PIOf(items[i]) == p {
      var i :| 0 <= i < |items| && PIOf(items[i]) == p;
      assert items[i] in e;
      var j :| 0 <= j < |e| && e[j] == items[i];
      assert PIOf(e[j]) in Registered(e);
    }
    if p in Registered(e) {
      var j :| 0 <= j < |e| && PIOf(e[j]) == p;
      assert e[j] in items;
      var i :| 0 <= i < |items| && items[i] == e[j];
      assert PIOf(items[i]) == p;
    }
  }

  lemma {:induction false} ClausesOfItems(items: seq<Item>)
    ensures forall c :: c in ClausesOf(items) <==> Defined(c) in items
  {
    if items != [] {
      ClausesOfItems(items[1..]);
    }
  }

  // ---------- the loaded database implements the program ----------

  lemma {:induction false} RewrittenMatching(ns: Names, sc: Scope, cs: seq<Clause>, f: Name, n: nat)
    requires RewriteBodies(ns, sc, cs).Ok?
    requires forall c :: c in cs ==> c.head.Struct?
    ensures Compiled(ns, sc, Matching(cs, f, n), Matching(RewriteBodies(ns, sc, cs).value, f, n))
  {
    if cs != [] {
      var rest := RewriteBodies(ns, sc, cs[1..]).value;
      RewrittenMatching(ns, sc, cs[1..], f, n);
      var first := RewriteBodies(ns, sc, cs).value[0];
      assert RewriteBodies(ns, sc, cs).value == [first] + rest && ([first] + rest)[1..] == rest;
      OneMoreCompiled(ns, sc, cs[0], first, Matching(cs[1..], f, n), Matching(rest, f, n));
    }
  }

  lemma OneMoreCompiled(ns: Names, sc: Scope, c: Clause, d: Clause, source: seq<Clause>, native: seq<Clause>)
    requires Compiled(ns, sc, source, native) && c.head.Struct? && d.head == c.head && Rewrite(ns, sc, c.body, 0, 1) == Ok(d.body)
    ensures Compiled(ns, sc, [c] + source, [d] + native)
  {
  }

  lemma OneMoreInternal(ns: Names, sc: Scope, c: Clause, d: Clause, source: seq<Clause>, native: seq<Clause>)
    requires Compiled(ns, sc, source, native) && c.head.Struct? && d.head.Struct? && d.head.args == c.head.args
    requires Rewrite(ns, sc, c.body, 0, 1) == Ok(d.body)
    ensures Compiled(ns, sc, [c] + source, [d] + native)
  {
  }

  lemma {:induction false} InternalMatching(ns: Names, sc: Scope, cs: seq<Clause>, f: Name, n: nat)
    requires RewriteBodies(ns, sc, cs).Ok?
    requires forall c :: c in cs ==> c.head.Struct?
    ensures Compiled(ns, sc, Matching(cs, f, n), Matching(InternalHeads(RewriteBodies(ns, sc, cs).value), Internal(f), n))
  {
    if cs != [] {
      var safe := RewriteBodies(ns, sc, cs).value;
      var rest := RewriteBodies(ns, sc, cs[1..]).value;
      InternalMatching(ns, sc, cs[1..], f, n);
      assert safe == [safe[0]] + rest && safe[1..] == rest;
      var one := InternalHeads(safe)[0];
      assert InternalHeads(safe) == [one] + InternalHeads(rest);
      OneMoreInternal(ns, sc, cs[0], one, Matching(cs[1..], f, n), Matching(InternalHeads(rest), Internal(f), n));
    }
  }

  lemma {:induction false} HeadsKept(ns: Names, sc: Scope, cs: seq<Clause>)
    requires RewriteBodies(ns, sc, cs).Ok?
    ensures var safe := RewriteBodies(ns, sc, cs).value;
            |safe| == |cs| && forall i :: 0 <= i < |cs| ==> safe[i].head == cs[i].head
  {
    if cs != [] {
      HeadsKept(ns, sc, cs[1..]);
    }
  }

  lemma {:induction false} NoMatch(cs: seq<Clause>, f: Name, n: nat)
    requires forall c :: c in cs ==> !HasFunctor(c.head, f, n)
    ensures Matching(cs, f, n) == []
  {
    if cs != [] {
      NoMatch(cs[1..], f, n);
    }
  }

  /** Shared rewriting does not look at owned predicates, so rewriting before the private source is known is safe. */
  lemma {:induction false} RewriteBodiesEarly(n1: Names, n2: Names, cs: seq<Clause>)
    requires n1.shared == n2.shared && n1.pure == n2.pure && n1.guarded == n2.guarded
    ensures RewriteBodies(n1, Shared, cs) == RewriteBodies(n2, Shared, cs)
  {
    if cs != [] {
      SharedRewrite(n1, n2, cs[0].body, 0, 1);
      RewriteBodiesEarly(n1, n2, cs[1..]);
    }
  }

  /** The runtime defines every admitted predicate itself, `fail` included, and none has an iso_ name. */
  ghost predicate Admissible(pol: Names, rs: Reserved) {
    CallsArePure(pol) && forall f, n :: (f, n) in pol.pure ==> !f.Iso? && !f.Internal? && (f, n) in rs.runtime
  }

  lemma ItemHeads(rs: Reserved, items: seq<Item>)
    requires AllMayDefine(rs, items)
    ensures forall c :: c in ClausesOf(items) ==> c.head.Struct? && !c.head.functor.Internal?
    ensures SourceClauses(ClausesOf(items))
    ensures forall p :: p in Registered(items) ==> MayDefine(rs, p.0, p.1)
  {
    ClausesOfItems(items);
    forall c | c in ClausesOf(items) ensures c.head.Struct? && !c.head.functor.Internal? {
      var i :| 0 <= i < |items| && items[i] == Defined(c);
      assert MayDefine(rs, PIOf(items[i]).0, PIOf(items[i]).1);
    }
    forall j | 0 <= j < |ClausesOf(items)| ensures ClauseOk(ClausesOf(items)[j]) {
      assert ClausesOf(items)[j] in ClausesOf(items);
      var i :| 0 <= i < |items| && items[i] == Defined(ClausesOf(items)[j]);
    }
  }

  /** Loading establishes the invariant on which meaning preservation, confinement and non-interference rest. */
  lemma LoadEstablishes(pol: Names, rs: Reserved, sharedTerms: seq<Read>, localTerms: seq<Read>)
    requires Admissible(pol, rs)
    ensures var r := Load(pol, rs, sharedTerms, localTerms);
            r.Ok? ==> Compilation.Loaded(r.value.program, r.value.db)
  {
    var r := Load(pol, rs, sharedTerms, localTerms);
    if r.Ok? {
      var sharedItems, prepared := Prepare(rs, sharedTerms).value, Prepare(rs, localTerms).value;
      var o, db := r.value.program, r.value.db;
      var n1 := Names({}, Registered(sharedItems), pol.pure, pol.guarded);
      var localItems := Effective(prepared, prepared, n1.shared);
      AcceptedMayDefine(rs, sharedTerms);
      AcceptedMayDefine(rs, localTerms);
      EffectiveSubset(prepared, prepared, n1.shared);
      ItemHeads(rs, sharedItems);
      ItemHeads(rs, localItems);
      RewriteBodiesEarly(n1, o.names, o.shared);
      var sharedSafe, localSafe := RewriteBodies(o.names, Shared, o.shared).value, RewriteBodies(o.names, Local, o.local).value;
      assert db == Database(o.names.owned + InternalPIs(o.names.shared), InternalHeads(sharedSafe) + localSafe);
      HalvesAreLoaded(pol, rs, o, sharedSafe, localSafe);
    }
  }

  lemma HalvesAreLoaded(pol: Names, rs: Reserved, o: Originals, sharedSafe: seq<Clause>, localSafe: seq<Clause>)
    requires Admissible(pol, rs) && o.names.pure == pol.pure
    requires forall p :: p in o.names.owned || p in o.names.shared ==> MayDefine(rs, p.0, p.1)
    requires RewriteBodies(o.names, Shared, o.shared) == Ok(sharedSafe)
    requires RewriteBodies(o.names, Local, o.local) == Ok(localSafe)
    requires forall c :: c in o.shared || c in o.local ==> c.head.Struct? && !c.head.functor.Internal?
    requires SourceClauses(o.shared) && SourceClauses(o.local)
    ensures Compilation.Loaded(o, Database(o.names.owned + InternalPIs(o.names.shared), InternalHeads(sharedSafe) + localSafe))
  {
    var db := Database(o.names.owned + InternalPIs(o.names.shared), InternalHeads(sharedSafe) + localSafe);
    forall f: Name, n: nat ensures LoadedAt(o, db, f, n) {
      var p := (f, n);
      BothHalvesAt(o, sharedSafe, localSafe, f, n);
      assert p in o.names.shared ==> (Internal(p.0), p.1) in InternalPIs(o.names.shared);
      assert p in o.names.owned ==> MayDefine(rs, p.0, p.1);
      assert p in pol.pure && p in db.defined ==> p in o.names.owned;
    }
  }

  lemma BothHalvesAt(o: Originals, sharedSafe: seq<Clause>, localSafe: seq<Clause>, f: Name, n: nat)
    requires RewriteBodies(o.names, Shared, o.shared) == Ok(sharedSafe)
    requires RewriteBodies(o.names, Local, o.local) == Ok(localSafe)
    requires forall c :: c in o.shared || c in o.local ==> c.head.Struct? && !c.head.functor.Internal?
    ensures Compiled(o.names, Shared, Matching(o.shared, f, n), Matching(InternalHeads(sharedSafe) + localSafe, Internal(f), n))
    ensures !f.Internal? ==> Compiled(o.names, Local, Matching(o.local, f, n), Matching(InternalHeads(sharedSafe) + localSafe, f, n))
  {
    var a, b := InternalHeads(sharedSafe), localSafe;
    InternalMatching(o.names, Shared, o.shared, f, n);
    RewrittenMatching(o.names, Local, o.local, f, n);
    assert Matching(a + b, Internal(f), n) == Matching(a, Internal(f), n) by {
      HeadsKept(o.names, Local, o.local);
      NoMatch(b, Internal(f), n);
      MatchingConcat(a, b, Internal(f), n);
    }
    if !f.Internal? {
      assert Matching(a + b, f, n) == Matching(b, f, n) by {
        HeadsKept(o.names, Shared, o.shared);
        NoMatch(a, f, n);
        MatchingConcat(a, b, f, n);
      }
    }
  }

  /** End to end, for any accepted sources: a query stays within the policy, and behaves as scope-resolving interpretation
      of the original clauses says, unless that comes to a grouping whose goal gets additional free variables; up to
      there the answers are the same. */
  lemma LoadedQueriesBehave<S(!new)>(fuel: nat, w: World<S>, v: View<S>, pol: Names, rs: Reserved, sharedTerms: seq<Read>,
                                     localTerms: seq<Read>, g: Ordinary, s: S, t: S)
    requires Admissible(pol, rs) && HidesResults(w, v) && v.same(s, t)
    requires Load(pol, rs, sharedTerms, localTerms).Ok?
    ensures var l := Load(pol, rs, sharedTerms, localTerms).value;
            var strict, plain := SolveCall(fuel, w, l.program, true, Local, g, s), SolveCall(fuel, w, l.program, false, Local, g, s);
            var native := NativeCall(fuel, w, l.program, l.db, Local, g, t);
            && MonitoredCall(fuel, w, l.program, l.db, Local, g, t) == native && !native.ending.Escaped?
            && Begins(v, strict.answers, native.answers) && strict.answers <= plain.answers
            && (strict.ending != Regrouped ==>
                  plain == strict && native.ending == plain.ending && |native.answers| == |plain.answers|)
  {
    var l := Load(pol, rs, sharedTerms, localTerms).value;
    LoadEstablishes(pol, rs, sharedTerms, localTerms);
    PreservesCall(fuel, w, v, l.program, l.db, Local, g, s, t);
    StrictIsPlain(fuel, w, l.program, Local, g, s);
    QueryConfined(fuel, w, l.program, l.db, Local, g, t);
  }

  /** Two workers with the same shared database and any two accepted private sources give shared predicates the same
      runs. */
  lemma LoadedSharedRunsAgree<S(!new)>(fuel: nat, w: World<S>, pol: Names, rs: Reserved, sharedTerms: seq<Read>,
                                       local1: seq<Read>, local2: seq<Read>, f: Name, args: seq<Term>, s: S)
    requires Admissible(pol, rs)
    requires Load(pol, rs, sharedTerms, local1).Ok? && Load(pol, rs, sharedTerms, local2).Ok?
    requires (f, |args|) in Registered(Prepare(rs, sharedTerms).value)
    ensures var l1, l2 := Load(pol, rs, sharedTerms, local1).value, Load(pol, rs, sharedTerms, local2).value;
            Native(fuel, w, l1.program, l1.db, Struct(Internal(f), args), s) ==
            Native(fuel, w, l2.program, l2.db, Struct(Internal(f), args), s)
  {
    var l1, l2 := Load(pol, rs, sharedTerms, local1).value, Load(pol, rs, sharedTerms, local2).value;
    LoadEstablishes(pol, rs, sharedTerms, local1);
    LoadEstablishes(pol, rs, sharedTerms, local2);
    SharedRunsIgnorePrivateSource(fuel, w, l1.program, l1.db, l2.program, l2.db, f, args, s);
  }
}
