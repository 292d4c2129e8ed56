/** What a source text gives, term by term and in file order. */
module SourceOrder {
  import opened Terms
  import opened Policy
  import opened Runtime
  import opened Compilation
  import opened Source

  // ---------- what the terms of a source say ----------

  predicate IsClause(t: Read) {
    t.Rule? || t.Fact?
  }

  /** The clause that a rule or a fact is. */
  function ClauseIn(t: Read): Clause
    requires IsClause(t)
  {
    if t.Rule? then Clause(t.head, t.body) else Clause(t.term, Struct(Key(TrueK), []))
  }

  predicate HasHead(t: Read) {
    IsClause(t) && ClauseIn(t).head.Struct?
  }

  function HeadOf(t: Read): PI
    requires HasHead(t)
  {
    (ClauseIn(t).head.functor, |ClauseIn(t).head.args|)
  }

  predicate IsIndicator(s: Spec) {
    s.Indicator? && s.name.Struct? && s.name.args == [] && s.arity.Int? && s.arity.value >= 0
  }

  function IndicatorOf(s: Spec): PI
    requires IsIndicator(s)
  {
    (s.name.functor, s.arity.value)
  }

  /** The j-th specification of term i is an indicator. */
  predicate DeclaresAt(terms: seq<Read>, i: int, j: int) {
    0 <= i < |terms| && terms[i].Declaration? && 0 <= j < |terms[i].specs| && IsIndicator(terms[i].specs[j])
  }

  /** The predicates that the clauses of a source define, and those that its declarations list. */
  function DefinedBy(terms: seq<Read>): set<PI> {
    set i | 0 <= i < |terms| && HasHead(terms[i]) :: HeadOf(terms[i])
  }

  function DeclaredBy(terms: seq<Read>): set<PI> {
    set i, j | 0 <= i < |terms| && 0 <= j < Size(terms[i]) && DeclaresAt(terms, i, j) :: IndicatorOf(terms[i].specs[j])
  }

  function Size(t: Read): nat {
    if t.Declaration? then |t.specs| else 0
  }

  // ---------- acceptance ----------

  predicate AdmittedSpec(rs: Reserved, s: Spec) {
    IsIndicator(s) && s.arity.value <= rs.maxArity && MayDefine(rs, s.name.functor, s.arity.value)
  }

  predicate Admitted(rs: Reserved, t: Read) {
    match t
    case Directive(_) => false
    case Declaration(specs) => forall j :: 0 <= j < |specs| ==> AdmittedSpec(rs, specs[j])
    case _ => var h := ClauseIn(t).head; h.Struct? && MayDefine(rs, h.functor, |h.args|)
  }

  predicate AllAdmitted(rs: Reserved, terms: seq<Read>) {
    forall i :: 0 <= i < |terms| ==> Admitted(rs, terms[i])
  }

  predicate SpecRefused(rs: Reserved, s: Spec, e: LoadError) {
    if !IsIndicator(s) then e == BadIndicator
    else if s.arity.value > rs.maxArity then e == ArityTooLarge
    else e == Redefines(s.name.functor, s.arity.value)
  }

  predicate FirstSpecRefused(rs: Reserved, specs: seq<Spec>, j: int, e: LoadError) {
    && 0 <= j < |specs| && !AdmittedSpec(rs, specs[j]) && SpecRefused(rs, specs[j], e)
    && forall i :: 0 <= i < j ==> AdmittedSpec(rs, specs[i])
  }

  /** The error for a term that is not admitted; of a declaration, that of its first indicator that is not. */
  predicate Refused(rs: Reserved, t: Read, e: LoadError) {
    match t
    case Directive(g) => e == DirectiveDenied(g)
    case Declaration(specs) =>
      exists j :: 0 <= j < |specs| && FirstSpecRefused(rs, specs, j, e)
    case _ =>
      var h := ClauseIn(t).head;
      e == if h.Struct? then Redefines(h.functor, |h.args|) else NotCallableHead(h)
  }

  lemma {:induction false} SpecsAccepted(rs: Reserved, specs: seq<Spec>)
    ensures var r := PrepareSpecs(rs, specs);
            && (r.Ok? <==> forall j :: 0 <= j < |specs| ==> AdmittedSpec(rs, specs[j]))
            && (r.Err? ==> Refused(rs, Declaration(specs), r.error))
  {
    if specs != [] {
      var rest := specs[1..];
      SpecsAccepted(rs, rest);
      assert forall j :: 0 < j < |specs| ==> specs[j] == rest[j - 1];
      if AdmittedSpec(rs, specs[0]) && PrepareSpecs(rs, rest).Err? {
        var e := PrepareSpecs(rs, rest).error;
        var j :| 0 <= j < |rest| && FirstSpecRefused(rs, rest, j, e);
        assert specs[j + 1] == rest[j] && forall i :: 0 <= i < j + 1 ==> AdmittedSpec(rs, specs[i]);
        assert FirstSpecRefused(rs, specs, j + 1, e);
      } else if !AdmittedSpec(rs, specs[0]) {
        assert FirstSpecRefused(rs, specs, 0, PrepareSpecs(rs, specs).error);
      }
    }
  }

  lemma OneAccepted(rs: Reserved, t: Read)
    ensures Prepare(rs, [t]).Ok? <==> Admitted(rs, t)
    ensures Prepare(rs, [t]).Err? ==> Refused(rs, t, Prepare(rs, [t]).error)
  {
    hide PrepareSpecs, MayDefine;
    assert [t][1..] == [];
    if t.Declaration? {
      SpecsAccepted(rs, t.specs);
    }
  }

  lemma TermByTerm(rs: Reserved, terms: seq<Read>)
    requires terms != []
    ensures Prepare(rs, terms) ==
            match Prepare(rs, [terms[0]])
            case Err(e) => Err(e)
            case Ok(items) => (match Prepare(rs, terms[1..]) case Err(e) => Err(e) case Ok(rest) => Ok(items + rest))
  {
    hide PrepareSpecs, MayDefine;
    assert [terms[0]][1..] == [];
    assert Prepare(rs, []) == Ok([]);
    assert forall items: seq<Item> :: items + [] == items;
  }

  /** The first term that is not admitted, and its error. */
  predicate FirstRefused(rs: Reserved, terms: seq<Read>, i: int, e: LoadError) {
    0 <= i < |terms| && AllAdmitted(rs, terms[..i]) && !Admitted(rs, terms[i]) && Refused(rs, terms[i], e)
  }

  lemma RefusedLater(rs: Reserved, terms: seq<Read>, i: int, e: LoadError)
    requires terms != [] && Admitted(rs, terms[0]) && FirstRefused(rs, terms[1..], i, e)
    ensures FirstRefused(rs, terms, i + 1, e)
  {
    hide Admitted, Refused;
    assert terms[..i + 1] == [terms[0]] + terms[1..][..i];
  }

  /** A source is accepted exactly if every one of its terms is admitted; otherwise the first one that is not decides the
      error. */
  lemma {:induction false} AcceptedExactly(rs: Reserved, terms: seq<Read>)
    ensures Prepare(rs, terms).Ok? <==> AllAdmitted(rs, terms)
    ensures Prepare(rs, terms).Err? ==> exists i :: FirstRefused(rs, terms, i, Prepare(rs, terms).error)
  {
    if terms != [] {
      hide Admitted, Refused, Prepare;
      var rest := terms[1..];
      AcceptedExactly(rs, rest);
      OneAccepted(rs, terms[0]);
      TermByTerm(rs, terms);
      assert forall i :: 0 < i < |terms| ==> terms[i] == rest[i - 1];
      if !Admitted(rs, terms[0]) {
        assert FirstRefused(rs, terms, 0, Prepare(rs, terms).error);
      } else if Prepare(rs, rest).Err? {
        var i :| FirstRefused(rs, rest, i, Prepare(rs, rest).error);
        RefusedLater(rs, terms, i, Prepare(rs, rest).error);
      }
    }
  }

  /** In particular: a source that defines or declares a name beginning with `iso_` or `$`, a hook, a public wrapper or a predicate
      of the runtime is refused. */
  lemma ReservedIsRefused(rs: Reserved, terms: seq<Read>, p: PI)
    requires p in DefinedBy(terms) || p in DeclaredBy(terms)
    requires p.0.Iso? || p.0.Internal? || p.0.Dollar? || p.0 in rs.hooks || p in rs.wrappers || p in rs.runtime
    ensures Prepare(rs, terms).Err?
  {
    AcceptedExactly(rs, terms);
    if p in DefinedBy(terms) {
      var i :| 0 <= i < |terms| && HasHead(terms[i]) && p == HeadOf(terms[i]);
      assert !Admitted(rs, terms[i]);
    } else {
      var i, j :| 0 <= i < |terms| && 0 <= j < Size(terms[i]) && DeclaresAt(terms, i, j) && p == IndicatorOf(terms[i].specs[j]);
      assert !AdmittedSpec(rs, terms[i].specs[j]);
    }
  }

  // ---------- order ----------

  /** A place in a file: the term, and for a declaration the indicator in it. */
  datatype Place = Place(term: nat, spec: nat)

  predicate Before(p: Place, q: Place) {
    p.term < q.term || (p.term == q.term && p.spec < q.spec)
  }

  predicate IsPlace(terms: seq<Read>, p: Place) {
    p.term < |terms| && if terms[p.term].Declaration? then p.spec < |terms[p.term].specs| else p.spec == 0
  }

  /** What stands at a place. */
  predicate StandsAt(terms: seq<Read>, p: Place, x: Item)
    requires IsPlace(terms, p)
  {
    match terms[p.term]
    case Directive(_) => false
    case Declaration(specs) => x.Declared? && specs[p.spec] == Indicator(Struct(x.name, []), Int(x.arity))
    case _ => x == Defined(ClauseIn(terms[p.term]))
  }

  /** The items are what stands at the places of the file, all of them, in file order. */
  ghost predicate InFileOrder(terms: seq<Read>, items: seq<Item>, places: seq<Place>) {
    && |places| == |items|
    && (forall i :: 0 <= i < |items| ==> IsPlace(terms, places[i]) && StandsAt(terms, places[i], items[i]))
    && (forall i, j :: 0 <= i < j < |places| ==> Before(places[i], places[j]))
    && (forall p :: IsPlace(terms, p) ==> p in places)
  }

  function Down(places: seq<Place>): (r: seq<Place>)
    ensures |r| == |places| && forall i :: 0 <= i < |places| ==> r[i] == Place(places[i].term + 1, places[i].spec)
  {
    seq(|places|, i requires 0 <= i < |places| => Place(places[i].term + 1, places[i].spec))
  }

  lemma LowerDown(terms: seq<Read>, p: Place)
    requires terms != []
    ensures IsPlace(terms[1..], p) ==> IsPlace(terms, Place(p.term + 1, p.spec))
    ensures IsPlace(terms[1..], p) ==> forall x :: StandsAt(terms[1..], p, x) ==> StandsAt(terms, Place(p.term + 1, p.spec), x)
    ensures IsPlace([terms[0]], p) ==> p.term == 0 && IsPlace(terms, p) && forall x :: StandsAt([terms[0]], p, x) ==> StandsAt(terms, p, x)
  {
  }

  lemma FrontStands(terms: seq<Read>, first: seq<Item>, here: seq<Place>, rest: seq<Item>, places: seq<Place>)
    requires terms != [] && InFileOrder([terms[0]], first, here) && InFileOrder(terms[1..], rest, places)
    ensures var items, all := first + rest, here + Down(places);
            |items| == |all| && forall i :: 0 <= i < |items| ==> IsPlace(terms, all[i]) && StandsAt(terms, all[i], items[i])
  {
    hide StandsAt, IsPlace, Before;
    var items, all := first + rest, here + Down(places);
    forall i | 0 <= i < |items| ensures IsPlace(terms, all[i]) && StandsAt(terms, all[i], items[i]) {
      if i < |first| {
        assert IsPlace([terms[0]], here[i]) && StandsAt([terms[0]], here[i], first[i]);
        LowerDown(terms, here[i]);
      } else {
        var j := i - |first|;
        assert IsPlace(terms[1..], places[j]) && StandsAt(terms[1..], places[j], rest[j]);
        LowerDown(terms, places[j]);
      }
    }
  }

  lemma FrontBefore(terms: seq<Read>, first: seq<Item>, here: seq<Place>, rest: seq<Item>, places: seq<Place>)
    requires terms != [] && InFileOrder([terms[0]], first, here) && InFileOrder(terms[1..], rest, places)
    ensures var all := here + Down(places); forall i, j :: 0 <= i < j < |all| ==> Before(all[i], all[j])
  {
    hide StandsAt, IsPlace;
    var all := here + Down(places);
    forall i, j | 0 <= i < j < |all| ensures Before(all[i], all[j]) {
      if i < |here| <= j {
        assert IsPlace([terms[0]], here[i]);
        LowerDown(terms, here[i]);
      } else if |here| <= i {
        assert Before(places[i - |here|], places[j - |here|]);
      }
    }
  }

  lemma FrontComplete(terms: seq<Read>, first: seq<Item>, here: seq<Place>, rest: seq<Item>, places: seq<Place>, p: Place)
    requires terms != [] && InFileOrder([terms[0]], first, here) && InFileOrder(terms[1..], rest, places) && IsPlace(terms, p)
    ensures p in here + Down(places)
  {
    hide StandsAt, Before;
    if p.term == 0 {
      assert IsPlace([terms[0]], p);
    } else {
      var q := Place(p.term - 1, p.spec);
      assert IsPlace(terms[1..], q);
      var i :| 0 <= i < |places| && places[i] == q;
      assert Down(places)[i] == p;
    }
  }

  lemma InFront(terms: seq<Read>, first: seq<Item>, here: seq<Place>, rest: seq<Item>, places: seq<Place>)
    requires terms != [] && InFileOrder([terms[0]], first, here) && InFileOrder(terms[1..], rest, places)
    ensures InFileOrder(terms, first + rest, here + Down(places))
  {
    hide StandsAt, IsPlace, Before;
    FrontStands(terms, first, here, rest, places);
    FrontBefore(terms, first, here, rest, places);
    forall p | IsPlace(terms, p) ensures p in here + Down(places) {
      FrontComplete(terms, first, here, rest, places, p);
    }
  }

  function PlacesFrom(n: nat): (r: seq<Place>)
    ensures |r| == n && forall i :: 0 <= i < n ==> r[i] == Place(0, i)
  {
    seq(n, i requires 0 <= i < n => Place(0, i))
  }

  lemma {:induction false} SpecsListed(rs: Reserved, specs: seq<Spec>)
    requires PrepareSpecs(rs, specs).Ok?
    ensures var items := PrepareSpecs(rs, specs).value;
            |items| == |specs| && forall j :: 0 <= j < |specs| ==>
              items[j].Declared? && specs[j] == Indicator(Struct(items[j].name, []), Int(items[j].arity))
  {
    if specs != [] {
      SpecsListed(rs, specs[1..]);
    }
  }

  lemma OneTerm(rs: Reserved, t: Read) returns (items: seq<Item>, here: seq<Place>)
    requires Admitted(rs, t)
    ensures InFileOrder([t], items, here)
    ensures Prepare(rs, [t]) == Ok(items)
  {
    assert [t][1..] == [];
    assert Prepare(rs, []) == Ok([]);
    assert forall items: seq<Item> :: items + [] == items;
    if t.Declaration? {
      SpecsAccepted(rs, t.specs);
      SpecsListed(rs, t.specs);
      items, here := PrepareSpecs(rs, t.specs).value, PlacesFrom(|t.specs|);
      forall p | IsPlace([t], p) ensures p in here {
        assert here[p.spec] == p;
      }
    } else {
      items, here := [Defined(ClauseIn(t))], [Place(0, 0)];
      forall p | IsPlace([t], p) ensures p in here {
        assert here[0] == p;
      }
    }
  }

  /** An accepted source gives its clauses and its declarations, every one of them once and in file order. */
  lemma {:induction false} PreparedInOrder(rs: Reserved, terms: seq<Read>) returns (places: seq<Place>)
    requires Prepare(rs, terms).Ok?
    ensures InFileOrder(terms, Prepare(rs, terms).value, places)
  {
    AcceptedExactly(rs, terms);
    if terms == [] {
      places := [];
    } else {
      AcceptedExactly(rs, terms[1..]);
      assert Admitted(rs, terms[0]);
      var rest := PreparedInOrder(rs, terms[1..]);
      var items, here := OneTerm(rs, terms[0]);
      TermByTerm(rs, terms);
      OneAccepted(rs, terms[0]);
      InFront(terms, items, here, Prepare(rs, terms[1..]).value, rest);
      places := here + Down(rest);
    }
  }

  // ---------- clauses ----------

  predicate ClausesAt(terms: seq<Read>, cs: seq<Clause>, at: seq<nat>) {
    |at| == |cs| && forall i :: 0 <= i < |cs| ==> at[i] < |terms| && IsClause(terms[at[i]]) && cs[i] == ClauseIn(terms[at[i]])
  }

  /** These are the clauses of the file, all of them, in its order: clause i is that of term at[i]. */
  ghost predicate ClausesInOrder(terms: seq<Read>, cs: seq<Clause>, at: seq<nat>) {
    && ClausesAt(terms, cs, at) && Ascending(at)
    && (forall t: nat :: t < |terms| && IsClause(terms[t]) ==> t in at)
  }

  /** The terms in which clauses stand, among these places. */
  function TermsOf(items: seq<Item>, places: seq<Place>): (r: seq<nat>)
    requires |places| == |items|
    ensures |r| == |ClausesOf(items)|
  {
    if items == [] then [] else (if items[0].Defined? then [places[0].term] else []) + TermsOf(items[1..], places[1..])
  }

  lemma OneMoreClause(terms: seq<Read>, c: Clause, t: nat, cs: seq<Clause>, at: seq<nat>)
    requires ClausesAt(terms, cs, at) && t < |terms| && IsClause(terms[t]) && c == ClauseIn(terms[t])
    ensures ClausesAt(terms, [c] + cs, [t] + at)
  {
  }

  lemma {:induction false} TermsOfClauses(terms: seq<Read>, items: seq<Item>, places: seq<Place>)
    requires |places| == |items|
    requires forall i :: 0 <= i < |items| ==> IsPlace(terms, places[i]) && StandsAt(terms, places[i], items[i])
    ensures ClausesAt(terms, ClausesOf(items), TermsOf(items, places))
    ensures forall t: nat :: t < |terms| && IsClause(terms[t]) && Place(t, 0) in places ==> t in TermsOf(items, places)
  {
    if items != [] {
      hide ClausesAt, IsClause;
      TermsOfClauses(terms, items[1..], places[1..]);
      assert IsPlace(terms, places[0]) && StandsAt(terms, places[0], items[0]);
      StandsAsClause(terms, places[0], items[0]);
      assert forall p :: p in places ==> p == places[0] || p in places[1..];
      var cs, at := ClausesOf(items[1..]), TermsOf(items[1..], places[1..]);
      assert [] + cs == cs && [] + at == at;
      if items[0].Defined? {
        OneMoreClause(terms, items[0].clause, places[0].term, cs, at);
      }
    } else {
      assert ClausesAt(terms, [], []);
    }
  }

  lemma StandsAsClause(terms: seq<Read>, p: Place, x: Item)
    requires IsPlace(terms, p) && StandsAt(terms, p, x)
    ensures x.Defined? <==> IsClause(terms[p.term])
    ensures x.Defined? ==> p.spec == 0 && x.clause == ClauseIn(terms[p.term])
  {
  }

  predicate Ascending(at: seq<nat>) {
    forall i, j :: 0 <= i < j < |at| ==> at[i] < at[j]
  }

  lemma AscendingFront(t: nat, rest: seq<nat>)
    requires Ascending(rest) && forall u :: u in rest ==> t < u
    ensures Ascending([t] + rest)
  {
    var at := [t] + rest;
    forall i, j | 0 <= i < j < |at| ensures at[i] < at[j] {
      assert at[j] == rest[j - 1] && rest[j - 1] in rest;
    }
  }

  lemma {:induction false} TermsInPlaces(terms: seq<Read>, items: seq<Item>, places: seq<Place>)
    requires |places| == |items|
    requires forall i :: 0 <= i < |items| ==> IsPlace(terms, places[i]) && StandsAt(terms, places[i], items[i])
    ensures forall t :: t in TermsOf(items, places) ==> Place(t, 0) in places
  {
    hide StandsAt, IsPlace, ClausesOf;
    if items != [] {
      TermsInPlaces(terms, items[1..], places[1..]);
      assert IsPlace(terms, places[0]) && StandsAt(terms, places[0], items[0]);
      StandsAsClause(terms, places[0], items[0]);
      assert items[0].Defined? ==> Place(places[0].term, 0) == places[0];
    }
  }

  lemma {:induction false} TermsAscend(terms: seq<Read>, items: seq<Item>, places: seq<Place>)
    requires |places| == |items|
    requires forall i :: 0 <= i < |items| ==> IsPlace(terms, places[i]) && StandsAt(terms, places[i], items[i])
    requires forall i, j :: 0 <= i < j < |places| ==> Before(places[i], places[j])
    ensures Ascending(TermsOf(items, places))
  {
    hide StandsAt, IsPlace, ClausesOf, Ascending;
    if items == [] {
      NothingAscends();
    } else {
      var rest := TermsOf(items[1..], places[1..]);
      TermsAscend(terms, items[1..], places[1..]);
      TermsInPlaces(terms, items[1..], places[1..]);
      assert IsPlace(terms, places[0]) && StandsAt(terms, places[0], items[0]);
      StandsAsClause(terms, places[0], items[0]);
      if items[0].Defined? {
        forall u | u in rest ensures places[0].term < u {
          assert Place(u, 0) in places[1..];
          assert Before(places[0], Place(u, 0));
        }
        AscendingFront(places[0].term, rest);
      } else {
        assert [] + rest == rest;
      }
    }
  }

  lemma NothingAscends()
    ensures Ascending([])
  {
  }

  /** The same for the clauses alone. */
  lemma PreparedClauses(rs: Reserved, terms: seq<Read>) returns (at: seq<nat>)
    requires Prepare(rs, terms).Ok?
    ensures ClausesInOrder(terms, ClausesOf(Prepare(rs, terms).value), at)
  {
    var places := PreparedInOrder(rs, terms);
    at := TermsOf(Prepare(rs, terms).value, places);
    TermsOfClauses(terms, Prepare(rs, terms).value, places);
    TermsAscend(terms, Prepare(rs, terms).value, places);
    forall t: nat | t < |terms| && IsClause(terms[t]) ensures t in at {
      assert IsPlace(terms, Place(t, 0));
    }
  }

  lemma {:induction false} NotBefore(at: seq<nat>, i: nat)
    requires i < |at| && Ascending(at)
    ensures at[i] >= i
  {
    if i > 0 {
      NotBefore(at, i - 1);
    }
  }

  lemma {:induction false} AllInOrder(at: seq<nat>, n: nat, k: nat)
    requires Ascending(at)
    requires forall t: nat :: t in at <==> t < n
    requires k <= n
    ensures k <= |at| && forall i :: 0 <= i < k ==> at[i] == i
  {
    if k > 0 {
      AllInOrder(at, n, k - 1);
      assert k - 1 in at;
      var i: nat :| i < |at| && at[i] == k - 1;
      NotBefore(at, i);
      assert k - 1 <= i;
    }
  }

  /** In particular: of a source without declarations, clause i is that of term i. */
  lemma ClauseByClause(terms: seq<Read>, cs: seq<Clause>, at: seq<nat>)
    requires ClausesInOrder(terms, cs, at) && forall i :: 0 <= i < |terms| ==> IsClause(terms[i])
    ensures |cs| == |terms| && forall i :: 0 <= i < |terms| ==> cs[i] == ClauseIn(terms[i])
  {
    AllInOrder(at, |terms|, |terms|);
    assert forall t: nat :: t in at <==> t < |terms|;
    if at != [] {
      NotBefore(at, |at| - 1);
      assert at[|at| - 1] in at;
    }
  }

  // ---------- loading ----------

  lemma {:induction false} FilteringKeepsClauses(items: seq<Item>, all: seq<Item>, shared: set<PI>)
    ensures ClausesOf(Effective(items, all, shared)) == ClausesOf(items)
  {
    if items != [] {
      var rest := Effective(items[1..], all, shared);
      FilteringKeepsClauses(items[1..], all, shared);
      assert ([items[0]] + rest)[1..] == rest;
      assert [] + rest == rest;
    }
  }

  lemma PlaceDefined(terms: seq<Read>, items: seq<Item>, places: seq<Place>, i: nat)
    requires InFileOrder(terms, items, places) && AllHeads(items) && i < |items|
    ensures PIOf(items[i]) in if items[i].Defined? then DefinedBy(terms) else DeclaredBy(terms)
  {
    var p := places[i];
    assert IsPlace(terms, p) && StandsAt(terms, p, items[i]);
    if items[i].Defined? {
      assert HasHead(terms[p.term]);
    } else {
      assert terms[p.term].specs[p.spec] == Indicator(Struct(items[i].name, []), Int(items[i].arity));
      assert DeclaresAt(terms, p.term, p.spec);
    }
  }

  predicate AllHeads(items: seq<Item>) {
    forall i :: 0 <= i < |items| && items[i].Defined? ==> items[i].clause.head.Struct?
  }

  lemma DefinedPlace(terms: seq<Read>, items: seq<Item>, places: seq<Place>, p: PI)
    requires InFileOrder(terms, items, places) && AllHeads(items) && p in DefinedBy(terms)
    ensures Defines(items, p)
  {
    var t :| 0 <= t < |terms| && HasHead(terms[t]) && p == HeadOf(terms[t]);
    assert IsPlace(terms, Place(t, 0));
    var i :| 0 <= i < |places| && places[i] == Place(t, 0);
    assert StandsAt(terms, places[i], items[i]);
  }

  lemma DeclaredPlace(terms: seq<Read>, items: seq<Item>, places: seq<Place>, p: PI) returns (i: nat)
    requires InFileOrder(terms, items, places) && p in DeclaredBy(terms)
    ensures i < |items| && PIOf(items[i]) == p
  {
    var t, j :| 0 <= t < |terms| && 0 <= j < Size(terms[t]) && DeclaresAt(terms, t, j) && p == IndicatorOf(terms[t].specs[j]);
    assert IsPlace(terms, Place(t, j));
    i :| 0 <= i < |places| && places[i] == Place(t, j);
    assert StandsAt(terms, places[i], items[i]);
  }

  /** Which predicates an accepted source defines, and which it names at all. */
  lemma NamesOfSource(rs: Reserved, terms: seq<Read>)
    requires Prepare(rs, terms).Ok?
    ensures var items := Prepare(rs, terms).value;
            && (forall p :: Defines(items, p) <==> p in DefinedBy(terms))
            && Registered(items) == DefinedBy(terms) + DeclaredBy(terms)
  {
    var items := Prepare(rs, terms).value;
    var places := PreparedInOrder(rs, terms);
    AcceptedMayDefine(rs, terms);
    assert AllHeads(items) by {
      forall i | 0 <= i < |items| && items[i].Defined? ensures items[i].clause.head.Struct? {
        assert ClauseOk(items[i].clause);
      }
    }
    forall p | Defines(items, p) ensures p in DefinedBy(terms) {
      var i :| 0 <= i < |items| && items[i].Defined? && PIOf(items[i]) == p;
      PlaceDefined(terms, items, places, i);
    }
    forall p | p in DefinedBy(terms) ensures Defines(items, p) && p in Registered(items) {
      DefinedPlace(terms, items, places, p);
      var i :| 0 <= i < |items| && items[i].Defined? && PIOf(items[i]) == p;
    }
    forall p | p in DeclaredBy(terms) ensures p in Registered(items) {
      var i := DeclaredPlace(terms, items, places, p);
    }
    forall p | p in Registered(items) ensures p in DefinedBy(terms) + DeclaredBy(terms) {
      var i :| 0 <= i < |items| && PIOf(items[i]) == p;
      PlaceDefined(terms, items, places, i);
    }
  }

  /** The names in force once both sources are loaded: a private declaration alone does not hide a shared predicate. */
  function SharedNames(pol: Names, sharedTerms: seq<Read>): Names {
    Names({}, DefinedBy(sharedTerms) + DeclaredBy(sharedTerms), pol.pure, pol.guarded)
  }

  function LoadedNames(pol: Names, sharedTerms: seq<Read>, localTerms: seq<Read>): Names {
    var ns := SharedNames(pol, sharedTerms);
    ns.(owned := DefinedBy(localTerms) + (DeclaredBy(localTerms) - ns.shared))
  }

  lemma OwnedNames(rs: Reserved, terms: seq<Read>, shared: set<PI>)
    requires Prepare(rs, terms).Ok?
    ensures var items := Prepare(rs, terms).value;
            Registered(Effective(items, items, shared)) == DefinedBy(terms) + (DeclaredBy(terms) - shared)
  {
    var items := Prepare(rs, terms).value;
    NamesOfSource(rs, terms);
    forall p ensures p in Registered(Effective(items, items, shared)) <==> p in DefinedBy(terms) + (DeclaredBy(terms) - shared) {
      OwnedExactly(items, shared, p);
      assert p in Registered(items) <==> exists i :: 0 <= i < |items| && PIOf(items[i]) == p;
    }
  }

  /** No clause body has a goal that is forbidden in its scope. */
  predicate BodiesAllowed(ns: Names, sc: Scope, terms: seq<Read>) {
    forall t :: 0 <= t < |terms| && IsClause(terms[t]) ==> FirstForbidden(ns, sc, ClauseIn(terms[t]).body).None?
  }

  lemma {:induction false} BodiesRewritten(ns: Names, sc: Scope, cs: seq<Clause>)
    ensures RewriteBodies(ns, sc, cs).Ok? <==> forall i :: 0 <= i < |cs| ==> FirstForbidden(ns, sc, cs[i].body).None?
  {
    if cs != [] {
      RewriteRejects(ns, sc, cs[0].body, 0, 1);
      BodiesRewritten(ns, sc, cs[1..]);
      assert forall i :: 0 < i < |cs| ==> cs[i] == cs[1..][i - 1];
    }
  }

  lemma SourceRewritten(ns: Names, sc: Scope, terms: seq<Read>, cs: seq<Clause>, at: seq<nat>)
    requires ClausesInOrder(terms, cs, at)
    ensures RewriteBodies(ns, sc, cs).Ok? <==> BodiesAllowed(ns, sc, terms)
  {
    BodiesRewritten(ns, sc, cs);
    if BodiesAllowed(ns, sc, terms) {
      forall i | 0 <= i < |cs| ensures FirstForbidden(ns, sc, cs[i].body).None? {
        assert IsClause(terms[at[i]]);
      }
    } else {
      var t :| 0 <= t < |terms| && IsClause(terms[t]) && FirstForbidden(ns, sc, ClauseIn(terms[t]).body).Some?;
      assert t in at;
      var i :| 0 <= i < |at| && at[i] == t;
      assert cs[i] == ClauseIn(terms[t]);
    }
  }

  /** Two sources are loaded exactly if all their terms are admitted and all their clause bodies are allowed. */
  lemma LoadedExactly(pol: Names, rs: Reserved, sharedTerms: seq<Read>, localTerms: seq<Read>)
    ensures Load(pol, rs, sharedTerms, localTerms).Ok? <==>
            && AllAdmitted(rs, sharedTerms) && BodiesAllowed(SharedNames(pol, sharedTerms), Shared, sharedTerms)
            && AllAdmitted(rs, localTerms) && BodiesAllowed(LoadedNames(pol, sharedTerms, localTerms), Local, localTerms)
  {
    hide Prepare, RewriteBodies, DefinedBy, DeclaredBy, Registered, Effective, ClausesOf, BodiesAllowed, AllAdmitted, ClausesInOrder;
    AcceptedExactly(rs, sharedTerms);
    AcceptedExactly(rs, localTerms);
    if Prepare(rs, sharedTerms).Ok? {
      var a := PreparedClauses(rs, sharedTerms);
      NamesOfSource(rs, sharedTerms);
      SourceRewritten(SharedNames(pol, sharedTerms), Shared, sharedTerms, ClausesOf(Prepare(rs, sharedTerms).value), a);
      if Prepare(rs, localTerms).Ok? {
        var items, shared := Prepare(rs, localTerms).value, SharedNames(pol, sharedTerms).shared;
        var b := PreparedClauses(rs, localTerms);
        OwnedNames(rs, localTerms, shared);
        FilteringKeepsClauses(items, items, shared);
        SourceRewritten(LoadedNames(pol, sharedTerms, localTerms), Local, localTerms, ClausesOf(items), b);
      }
    }
  }

  /** What is loaded: the clauses of both files, each in its file order, under exactly these names. */
  lemma LoadedInOrder(pol: Names, rs: Reserved, sharedTerms: seq<Read>, localTerms: seq<Read>) returns (a: seq<nat>, b: seq<nat>)
    requires Load(pol, rs, sharedTerms, localTerms).Ok?
    ensures var o := Load(pol, rs, sharedTerms, localTerms).value.program;
            && ClausesInOrder(sharedTerms, o.shared, a) && ClausesInOrder(localTerms, o.local, b)
            && o.names == LoadedNames(pol, sharedTerms, localTerms)
  {
    hide Prepare, RewriteBodies, DefinedBy, DeclaredBy, Registered, Effective, ClausesOf, ClausesInOrder;
    var items, shared := Prepare(rs, localTerms).value, SharedNames(pol, sharedTerms).shared;
    a := PreparedClauses(rs, sharedTerms);
    b := PreparedClauses(rs, localTerms);
    NamesOfSource(rs, sharedTerms);
    OwnedNames(rs, localTerms, shared);
    FilteringKeepsClauses(items, items, shared);
  }
}
