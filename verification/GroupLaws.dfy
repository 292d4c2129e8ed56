/** What bagof/3 and setof/3 make of the solutions of their goal: by which variables these are grouped, that the groups are
    a partition in the order of their keys, and what is listed in each. The order of terms is the native one, of which only
    that it is a strict total order is used. */
module GroupLaws {
  import opened Terms
  import opened Policy
  import opened Runs
  import opened Runtime
  import opened Grouping
  import opened GoalLaws

  // ---------- order ----------

  /** The native order of terms is a strict total order. */
  ghost predicate Ordered<S>(w: World<S>) {
    && (forall a, b :: w.before(a, b) ==> !w.before(b, a))
    && (forall a, b, c :: w.before(a, b) && w.before(b, c) ==> w.before(a, c))
    && (forall a, b :: a == b || w.before(a, b) || w.before(b, a))
  }

  predicate Ascending<S>(w: World<S>, ts: seq<Term>) {
    forall i, j :: 0 <= i < j < |ts| ==> w.before(ts[i], ts[j])
  }

  lemma {:induction false} InsertedOnce<S>(w: World<S>, x: Term, sorted: seq<Term>)
    requires Ordered(w) && Ascending(w, sorted)
    ensures var r := InsertOnce(w, x, sorted);
            Ascending(w, r) && forall y :: y in r <==> y == x || y in sorted
  {
    if sorted != [] && x != sorted[0] {
      var rest := sorted[1..];
      assert Ascending(w, rest);
      if w.before(sorted[0], x) {
        InsertedOnce(w, x, rest);
        var r := InsertOnce(w, x, rest);
        forall j | 0 <= j < |r| ensures w.before(sorted[0], r[j]) {
          assert r[j] in r;
        }
      } else {
        assert w.before(x, sorted[0]);
      }
    }
  }

  /** The list of setof/3 has every value once, in ascending order. */
  lemma {:induction false} SetofListed<S>(w: World<S>, xs: seq<Term>)
    requires Ordered(w)
    ensures var r := SortOnce(w, xs);
            Ascending(w, r) && forall y :: y in r <==> y in xs
  {
    if xs != [] {
      SetofListed(w, xs[1..]);
      InsertedOnce(w, xs[0], SortOnce(w, xs[1..]));
    }
  }

  /** Solutions by ascending key; those with the same key stay in their order. */
  predicate ByKey<S>(w: World<S>, xs: seq<Solution>) {
    forall i, j :: 0 <= i < j < |xs| ==> !w.before(Tuple(xs[j].key), Tuple(xs[i].key))
  }

  function WithKey(xs: seq<Solution>, key: seq<Term>): seq<Solution> {
    if xs == [] then [] else (if xs[0].key == key then [xs[0]] else []) + WithKey(xs[1..], key)
  }

  /** One more solution in front of those with a key. */
  lemma InFront(x: Solution, xs: seq<Solution>, key: seq<Term>)
    ensures WithKey([x] + xs, key) == (if x.key == key then [x] else []) + WithKey(xs, key)
  {
    assert ([x] + xs)[1..] == xs;
  }

  /** Solutions with different keys can change places. */
  lemma Exchange(x: Solution, y: Solution, r: seq<Solution>, rest: seq<Solution>, key: seq<Term>)
    requires x.key != y.key && WithKey(r, key) == (if x.key == key then [x] else []) + WithKey(rest, key)
    ensures WithKey([y] + r, key) == (if x.key == key then [x] else []) + WithKey([y] + rest, key)
  {
    hide WithKey;
    InFront(y, r, key);
    InFront(y, rest, key);
  }

  lemma {:induction false} InsertedByKey<S>(w: World<S>, x: Solution, sorted: seq<Solution>)
    requires Ordered(w) && ByKey(w, sorted)
    ensures var r := InsertByKey(w, x, sorted);
            && multiset(r) == multiset{x} + multiset(sorted) && ByKey(w, r)
            && forall key :: WithKey(r, key) == (if x.key == key then [x] else []) + WithKey(sorted, key)
  {
    hide WithKey, ByKey, Ordered;
    if sorted == [] || !w.before(Tuple(sorted[0].key), Tuple(x.key)) {
      FrontFits(w, x, sorted);
      forall key ensures WithKey([x] + sorted, key) == (if x.key == key then [x] else []) + WithKey(sorted, key) {
        InFront(x, sorted, key);
      }
    } else {
      var rest := sorted[1..];
      assert sorted == [sorted[0]] + rest;
      RestByKey(w, sorted);
      InsertedByKey(w, x, rest);
      var r := InsertByKey(w, x, rest);
      FrontIsLeast(w, sorted, x, r);
      forall key ensures WithKey([sorted[0]] + r, key) == (if x.key == key then [x] else []) + WithKey(sorted, key) {
        Exchange(x, sorted[0], r, rest, key);
      }
    }
  }

  lemma RestByKey<S>(w: World<S>, sorted: seq<Solution>)
    requires ByKey(w, sorted) && sorted != []
    ensures ByKey(w, sorted[1..])
  {
  }

  lemma FrontIsLeast<S>(w: World<S>, sorted: seq<Solution>, x: Solution, r: seq<Solution>)
    requires Ordered(w) && sorted != [] && ByKey(w, sorted) && ByKey(w, r) && w.before(Tuple(sorted[0].key), Tuple(x.key))
    requires multiset(r) == multiset{x} + multiset(sorted[1..])
    ensures ByKey(w, [sorted[0]] + r) && x.key != sorted[0].key
  {
    forall j | 0 <= j < |r| ensures !w.before(Tuple(r[j].key), Tuple(sorted[0].key)) {
      assert r[j] in multiset(r);
      if r[j] != x {
        assert r[j] in sorted[1..];
      }
    }
  }

  lemma FrontFits<S>(w: World<S>, x: Solution, sorted: seq<Solution>)
    requires Ordered(w) && ByKey(w, sorted) && (sorted != [] ==> !w.before(Tuple(sorted[0].key), Tuple(x.key)))
    ensures ByKey(w, [x] + sorted)
  {
    forall j | 0 <= j < |sorted| ensures !w.before(Tuple(sorted[j].key), Tuple(x.key)) {
      assert j > 0 ==> !w.before(Tuple(sorted[j].key), Tuple(sorted[0].key));
    }
  }

  /** Solutions are sorted by key: none is lost or added, and the sort is stable. */
  lemma {:induction false} SortedByKey<S>(w: World<S>, xs: seq<Solution>)
    requires Ordered(w)
    ensures var r := SortByKey(w, xs);
            multiset(r) == multiset(xs) && ByKey(w, r) && forall key :: WithKey(r, key) == WithKey(xs, key)
  {
    if xs != [] {
      SortedByKey(w, xs[1..]);
      InsertedByKey(w, xs[0], SortByKey(w, xs[1..]));
      assert xs == [xs[0]] + xs[1..];
    }
  }

  // ---------- groups ----------

  /** Two solutions belong to one answer. */
  predicate Together<S>(w: World<S>, x: Solution, y: Solution) {
    w.alike(Tuple(y.key), Tuple(x.key))
  }

  lemma SharingFirst<S>(w: World<S>, x: Solution, y: Solution, rest: seq<Solution>, shared: bool)
    ensures Sharing(w, x, [y] + rest, shared) ==
            if Together(w, x, y) == shared then [y] + Sharing(w, x, rest, shared) else Sharing(w, x, rest, shared)
  {
    assert ([y] + rest)[1..] == rest;
    assert [] + Sharing(w, x, rest, shared) == Sharing(w, x, rest, shared);
  }

  lemma {:induction false} SharedSplit<S>(w: World<S>, x: Solution, xs: seq<Solution>)
    ensures multiset(Sharing(w, x, xs, true)) + multiset(Sharing(w, x, xs, false)) == multiset(xs)
  {
    if xs != [] {
      SharedSplit(w, x, xs[1..]);
      SharedFront(w, x, xs[0], xs[1..]);
      assert xs == [xs[0]] + xs[1..];
    }
  }

  lemma SharedFront<S>(w: World<S>, x: Solution, y: Solution, rest: seq<Solution>)
    requires multiset(Sharing(w, x, rest, true)) + multiset(Sharing(w, x, rest, false)) == multiset(rest)
    ensures multiset(Sharing(w, x, [y] + rest, true)) + multiset(Sharing(w, x, [y] + rest, false)) == multiset([y] + rest)
  {
    hide Sharing, Together;
    SharingFirst(w, x, y, rest, true);
    SharingFirst(w, x, y, rest, false);
  }

  lemma {:induction false} SharedTogether<S>(w: World<S>, x: Solution, xs: seq<Solution>, shared: bool)
    ensures forall y :: y in Sharing(w, x, xs, shared) ==> Together(w, x, y) == shared
  {
    if xs != [] {
      SharedTogether(w, x, xs[1..], shared);
    }
  }

  /** The groups of the solutions: they are all there, each group is headed by a solution that its members go together with,
      and no later solution goes with the head of an earlier group. */
  ghost predicate AreGroups<S>(w: World<S>, groups: seq<seq<Solution>>, xs: seq<Solution>) {
    && multiset(Flat(groups)) == multiset(xs)
    && (forall g :: 0 <= g < |groups| ==> Headed(w, groups[g]))
    && (forall g, h :: 0 <= g < h < |groups| ==> Apart(w, groups[g], groups[h]))
  }

  predicate Headed<S>(w: World<S>, group: seq<Solution>) {
    group != [] && forall y :: y in group[1..] ==> Together(w, group[0], y)
  }

  predicate Apart<S>(w: World<S>, group: seq<Solution>, later: seq<Solution>) {
    group != [] && forall y :: y in later ==> !Together(w, group[0], y)
  }

  /** What the groups answer, one after another. */
  function Answered<S>(w: World<S>, k: DeferredKind, free: seq<Term>, out: Term, s: S, groups: seq<seq<Solution>>): seq<S>
    requires forall g :: 0 <= g < |groups| ==> groups[g] != []
  {
    if groups == [] then []
    else UnifyOnce(w, s, free + [out], groups[0][0].key + [Listed(w, k, groups[0])]).answers + Answered(w, k, free, out, s, groups[1..])
  }

  lemma {:induction false} InFlat<T>(parts: seq<seq<T>>, i: nat, y: T)
    requires i < |parts| && y in parts[i]
    ensures y in Flat(parts)
  {
    if i > 0 {
      InFlat(parts[1..], i - 1, y);
    }
  }

  lemma FirstApart<S>(w: World<S>, xs: seq<Solution>, groups: seq<seq<Solution>>, h: nat)
    requires xs != [] && h < |groups| && AreGroups(w, groups, Sharing(w, xs[0], xs[1..], false))
    ensures Apart(w, [xs[0]] + Sharing(w, xs[0], xs[1..], true), groups[h])
  {
    SharedTogether(w, xs[0], xs[1..], false);
    forall y | y in groups[h] ensures !Together(w, xs[0], y) {
      InFlat(groups, h, y);
      assert y in multiset(Flat(groups));
      assert y in Sharing(w, xs[0], xs[1..], false);
    }
  }

  lemma FirstGroup<S>(w: World<S>, xs: seq<Solution>, groups: seq<seq<Solution>>)
    requires xs != [] && AreGroups(w, groups, Sharing(w, xs[0], xs[1..], false))
    ensures AreGroups(w, [[xs[0]] + Sharing(w, xs[0], xs[1..], true)] + groups, xs)
  {
    hide Apart, Headed;
    var first := [xs[0]] + Sharing(w, xs[0], xs[1..], true);
    var all := [first] + groups;
    FirstMembers(w, xs, groups);
    forall g, h | 0 <= g < h < |all| ensures Apart(w, all[g], all[h]) {
      assert all[h] == groups[h - 1];
      if g == 0 {
        FirstApart(w, xs, groups, h - 1);
      } else {
        assert all[g] == groups[g - 1];
      }
    }
  }

  lemma FirstMembers<S>(w: World<S>, xs: seq<Solution>, groups: seq<seq<Solution>>)
    requires xs != [] && multiset(Flat(groups)) == multiset(Sharing(w, xs[0], xs[1..], false))
    ensures var first := [xs[0]] + Sharing(w, xs[0], xs[1..], true);
            Headed(w, first) && multiset(Flat([first] + groups)) == multiset(xs)
  {
    hide Sharing, Together;
    var shared := Sharing(w, xs[0], xs[1..], true);
    var first := [xs[0]] + shared;
    SharedSplit(w, xs[0], xs[1..]);
    SharedTogether(w, xs[0], xs[1..], true);
    assert first[1..] == shared && xs == [xs[0]] + xs[1..];
    assert Flat([first] + groups) == first + Flat(groups) by { assert ([first] + groups)[1..] == groups; }
  }

  /** bagof/3 and setof/3 answer once for each group of their solutions, in order. */
  lemma {:induction false} AnsweredByGroups<S>(w: World<S>, k: DeferredKind, free: seq<Term>, out: Term, s: S, xs: seq<Solution>)
    returns (groups: seq<seq<Solution>>)
    ensures AreGroups(w, groups, xs) && Groups(w, k, free, out, s, xs) == Answered(w, k, free, out, s, groups)
    decreases |xs|
  {
    if xs == [] {
      groups := [];
    } else {
      var rest := AnsweredByGroups(w, k, free, out, s, Sharing(w, xs[0], xs[1..], false));
      groups := [[xs[0]] + Sharing(w, xs[0], xs[1..], true)] + rest;
      FirstGroup(w, xs, rest);
      assert groups[1..] == rest;
    }
  }

  // ---------- no free variables ----------

  /** Copies of a template that stands alone. */
  predicate Alone(copies: seq<Term>, values: seq<Term>) {
    |copies| == |values| && forall i :: 0 <= i < |copies| ==> copies[i] == Tuple([values[i]])
  }

  lemma {:induction false} AloneSolutions(copies: seq<Term>, values: seq<Term>)
    requires Alone(copies, values)
    ensures |Solutions(copies)| == |values| && forall i :: 0 <= i < |values| ==> Solutions(copies)[i] == Solution([], values[i])
  {
    if copies != [] {
      AloneSolutions(copies[1..], values[1..]);
      assert [values[0]][1..] == [];
    }
  }

  lemma {:induction false} AloneSorted<S>(w: World<S>, xs: seq<Solution>)
    requires !w.before(Tuple([]), Tuple([])) && forall i :: 0 <= i < |xs| ==> xs[i].key == []
    ensures SortByKey(w, xs) == xs
  {
    if xs != [] {
      AloneSorted(w, xs[1..]);
    }
  }

  lemma {:induction false} AloneShared<S>(w: World<S>, x: Solution, xs: seq<Solution>)
    requires w.alike(Tuple([]), Tuple([])) && x.key == [] && forall i :: 0 <= i < |xs| ==> xs[i].key == []
    ensures Sharing(w, x, xs, true) == xs && Sharing(w, x, xs, false) == []
  {
    if xs != [] {
      AloneShared(w, x, xs[1..]);
    }
  }

  lemma {:induction false} ValuesOf(xs: seq<Solution>, values: seq<Term>)
    requires |xs| == |values| && forall i :: 0 <= i < |xs| ==> xs[i].value == values[i]
    ensures Values(xs) == values
  {
    if xs != [] {
      ValuesOf(xs[1..], values[1..]);
    }
  }

  /** Without free variables there is one answer with the list of all values: for bagof/3 in the order in which they were found,
      for setof/3 sorted. Without a solution there is none. */
  lemma AllTogether<S>(w: World<S>, k: DeferredKind, template: Term, out: Term, s: S, r: Run<S>, values: seq<Term>)
    requires r.ending == Done && Alone(w.collect(s, Tuple([template]), r.answers).0, values)
    requires w.alike(Tuple([]), Tuple([])) && !w.before(Tuple([]), Tuple([]))
    ensures GroupRun(w, k, template, [], out, s, r) ==
            if values == [] then Fails()
            else UnifyOnce(w, w.collect(s, Tuple([template]), r.answers).1, [out], [ListOf(if k.SetofD? then SortOnce(w, values) else values)])
  {
    var (copies, s1) := w.collect(s, Tuple([template]), r.answers);
    var xs := Solutions(copies);
    assert [template] + [] == [template];
    AloneSolutions(copies, values);
    AloneSorted(w, xs);
    if values != [] {
      AloneShared(w, xs[0], xs[1..]);
      assert [xs[0]] + xs[1..] == xs;
      ValuesOf(xs, values);
      OneAnswer(w, k, out, s1, xs);
    }
  }

  lemma OneAnswer<S>(w: World<S>, k: DeferredKind, out: Term, s: S, xs: seq<Solution>)
    requires xs != [] && xs[0].key == [] && Sharing(w, xs[0], xs[1..], true) == xs[1..] && Sharing(w, xs[0], xs[1..], false) == []
    ensures Run(Groups(w, k, [], out, s, xs), Done) == UnifyOnce(w, s, [out], [Listed(w, k, xs)])
  {
    assert [xs[0]] + xs[1..] == xs && [] + [out] == [out] && [] + [Listed(w, k, xs)] == [Listed(w, k, xs)];
    var u := UnifyOnce(w, s, [out], [Listed(w, k, xs)]);
    assert u.answers + [] == u.answers;
  }

  // ---------- free variables ----------

  /** The goal with a variable quantified. */
  function Caret(v: Term, goal: Term): Term {
    Struct(Key(CaretK), [v, goal])
  }

  /** Solutions are grouped by the variables of the goal that neither the template nor a quantifier in front of it mentions. */
  lemma {:induction false} GroupedBy(template: Term, quantifiers: seq<Term>, goal: Term, v: Term)
    requires StripCaret(goal) == goal
    ensures var g := Quantify(quantifiers, goal);
            && StripCaret(g) == goal
            && (v in FreeVariables(template, Quantified(g), StripCaret(g)) <==>
                  v in Occurrences(goal) && v !in Occurrences(template) && forall i :: 0 <= i < |quantifiers| ==> v !in Occurrences(quantifiers[i]))
  {
    QuantifiersAre(quantifiers, goal);
    OccursInSome(quantifiers, v);
    UnboundIs(Occurrences(goal), Occurrences(template) + OccurrencesAll(quantifiers));
  }

  function Quantify(quantifiers: seq<Term>, goal: Term): Term {
    if quantifiers == [] then goal else Caret(quantifiers[0], Quantify(quantifiers[1..], goal))
  }

  lemma {:induction false} QuantifiersAre(quantifiers: seq<Term>, goal: Term)
    requires StripCaret(goal) == goal
    ensures var g := Quantify(quantifiers, goal); StripCaret(g) == goal && Quantified(g) == quantifiers
  {
    if quantifiers == [] {
      NotQuantified(goal);
    } else {
      QuantifiersAre(quantifiers[1..], goal);
      assert [quantifiers[0]] + quantifiers[1..] == quantifiers;
    }
  }

  lemma NotQuantified(goal: Term)
    requires StripCaret(goal) == goal
    ensures Quantified(goal) == []
  {
    if HasFunctor(goal, Key(CaretK), 2) {
      assert goal.args[1] < goal;
      assert StripCaret(goal) == StripCaret(goal.args[1]);
    }
  }

  lemma {:induction false} OccursInSome(ts: seq<Term>, v: Term)
    ensures v in OccurrencesAll(ts) <==> exists i :: 0 <= i < |ts| && v in Occurrences(ts[i])
  {
    if ts != [] {
      OccursInSome(ts[1..], v);
      assert forall i :: 0 < i < |ts| ==> ts[i] == ts[1..][i - 1];
      if v in OccurrencesAll(ts[1..]) {
        var i :| 0 <= i < |ts[1..]| && v in Occurrences(ts[1..][i]);
        assert ts[i + 1] == ts[1..][i];
      }
    }
  }
}
