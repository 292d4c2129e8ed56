/** What call/N, maplist and foldl call, and in which order. */
module Closures {
  import opened Terms
  import opened Policy
  import opened Runs
  import opened Runtime
  import opened Interpreters
  import opened Meanings

  // ---------- call/N ----------

  /** call(C, B1, ..., Bm) with C bound to f(A1, ..., Ak) is the call of f(A1, ..., Ak, B1, ..., Bm), in the scope of the text
      that it stands in; any other C is an error. */
  lemma CallRuns<S>(fuel: nat, w: World<S>, o: Originals, strict: bool, sc: Scope, c: Term, extra: seq<Term>, s: S)
    requires fuel > 0 && |extra| <= 7
    ensures Solve(fuel, w, o, strict, sc, Struct(Key(CallK), [c] + extra), s) ==
            match w.deref(s, c)
            case Struct(f, args) => SolveCall(fuel - 1, w, o, strict, sc, Struct(f, args + extra), s)
            case Int(i) => Throws(BadClosure(Int(i), extra != []))
            case _ => Throws(Instantiation(CallK))
  {
    hide SolveCall;
    var args := [c] + extra;
    assert args[1..] == extra;
    SolveWrapper(fuel, w, o, strict, CallD, sc, CallK, args, s);
  }

  lemma SolveWrapper<S>(fuel: nat, w: World<S>, o: Originals, strict: bool, k: DeferredKind, sc: Scope, key: Keyword, args: seq<Term>, s: S)
    requires fuel > 0 && !IsGrouping(k) && ControlOf(Key(key), |args|).None? && DeferredOf(Key(key), |args|) == Some(k)
    ensures Solve(fuel, w, o, strict, sc, Struct(Key(key), args), s) ==
            RunDeferred(fuel - 1, w, o, k, sc, args, s, SolveExec(fuel - 1, w, o, strict))
  {
    hide RunDeferred, SolveDeferred;
    SolveDeferredIs(fuel, w, o, strict, k, sc, args, s);
  }

  // ---------- what taking lists apart means ----------

  predicate EqualLaw<S>(m: Meaning<S>, s: S, t: S, x: Term, y: Term, z: Term) {
    && (m.equal(s, x, y) ==> m.equal(s, y, x) && (m.equal(s, y, z) ==> m.equal(s, x, z)))
    && (m.grown(s, t) && m.equal(s, x, y) ==> m.equal(t, x, y))
  }

  predicate KeptLaw<S>(m: Meaning<S>, s: S, t: S) {
    (m.kept(s, t) ==> m.grown(s, t)) && (m.grown(s, t) && m.possible(s) ==> m.possible(t))
  }

  predicate AllEqual<S>(m: Meaning<S>, s: S, xs: seq<Term>, ys: seq<Term>) {
    |xs| == |ys| && forall i :: 0 <= i < |xs| ==> m.equal(s, xs[i], ys[i])
  }

  /** Compound terms are equal exactly if they have the same functor and equal arguments. */
  predicate StructLaw<S>(m: Meaning<S>, s: S, f: Name, xs: seq<Term>, ys: seq<Term>) {
    m.possible(s) && |xs| == |ys| ==> (m.equal(s, Struct(f, xs), Struct(f, ys)) <==> AllEqual(m, s, xs, ys))
  }

  predicate DerefLaw<S>(w: World<S>, m: Meaning<S>, s: S, x: Term, f: Name, args: seq<Term>) {
    m.possible(s) && m.equal(s, x, Struct(f, args)) ==>
      HasFunctor(w.deref(s, x), f, |args|) && m.equal(s, w.deref(s, x), Struct(f, args))
  }

  /** Terms with different functors do not unify. */
  predicate ClashLaw<S>(w: World<S>, m: Meaning<S>, s: S, a: seq<Term>, b: seq<Term>, i: nat, f: Name, xs: seq<Term>) {
    i < |a| && |a| == |b| && m.equal(s, a[i], Struct(f, xs)) && b[i].Struct? && !HasFunctor(b[i], f, |xs|) ==> w.unify(s, a, b) == None
  }

  /** The lists are cells with these heads and tails. */
  predicate AreCells<S>(m: Meaning<S>, s: S, lists: seq<Term>, heads: seq<Term>, tails: seq<Term>) {
    |heads| == |lists| && |tails| == |lists| && forall i :: 0 <= i < |lists| ==> m.equal(s, lists[i], Cons(heads[i], tails[i]))
  }

  predicate AreEmpty<S>(m: Meaning<S>, s: S, lists: seq<Term>) {
    forall i :: 0 <= i < |lists| ==> m.equal(s, lists[i], Nil())
  }

  /** Cells are taken apart into new variables, and nothing else is said about anything. */
  predicate TakeLaw<S>(w: World<S>, m: Meaning<S>, s: S, lists: seq<Term>, heads: seq<Term>, tails: seq<Term>) {
    m.possible(s) && AreCells(m, s, lists, heads, tails) ==>
      var (k, s1) := w.newFrame(s);
      var n := |lists|;
      var t := w.unify(s1, lists, Cells(k, n));
      && t.Some? && m.kept(s, t.value) && AreCells(m, t.value, lists, Heads(k, n), Tails(k, n))
      && m.free(t.value, Var(k, 2 * n)) && m.equal(t.value, Var(k, 2 * n), Var(k, 2 * n))
  }

  /** Unifying empty lists with the empty list says nothing; what is unified beside them is. */
  predicate EndLaw<S>(w: World<S>, m: Meaning<S>, s: S, lists: seq<Term>, x: Term, y: Term) {
    m.possible(s) && AreEmpty(m, s, lists) ==>
      var nils := Repeat(Nil(), |lists|);
      && w.unify(s, lists, nils).Some? && m.kept(s, w.unify(s, lists, nils).value)
      && match (w.unify(s, [x], [y]), w.unify(s, [x] + lists, [y] + nils))
         case (None, None) => true
         case (Some(t), Some(u)) => m.kept(t, u)
         case _ => false
  }

  /** What the order of calls depends on. */
  ghost predicate TakesLists<S(!new)>(w: World<S>, m: Meaning<S>) {
    && OnlyGrows(w, m)
    && (forall s, t, x, y, z :: EqualLaw(m, s, t, x, y, z))
    && (forall s, t :: KeptLaw(m, s, t))
    && (forall s, f, xs, ys :: StructLaw(m, s, f, xs, ys))
    && (forall s, x, f, args :: DerefLaw(w, m, s, x, f, args))
    && (forall s, a, b, i, f, xs :: ClashLaw(w, m, s, a, b, i, f, xs))
    && (forall s, lists, heads, tails :: TakeLaw(w, m, s, lists, heads, tails))
    && (forall s, lists, x, y :: EndLaw(w, m, s, lists, x, y))
  }

  // ---------- conjunctions of calls ----------

  /** The answers of these runs one after another, one run for each answer of the first; the first one that does not just end
      ends it all. */
  function Joined<S>(first: Run<S>, parts: seq<Run<S>>): Run<S>
    requires |parts| == |first.answers|
    decreases |parts|
  {
    if parts == [] then first
    else if parts[0].ending != Done then parts[0]
    else
      var rest := Joined(Run(first.answers[1..], first.ending), parts[1..]);
      Run(parts[0].answers + rest.answers, rest.ending)
  }

  function Parts<S>(answers: seq<S>, k: S -> Run<S>): (r: seq<Run<S>>)
    ensures |r| == |answers| && forall i :: 0 <= i < |answers| ==> r[i] == k(answers[i])
  {
    if answers == [] then [] else [k(answers[0])] + Parts(answers[1..], k)
  }

  lemma {:induction false} BindJoins<S>(r: Run<S>, k: S -> Run<S>)
    ensures Bind(r, k) == Joined(r, Parts(r.answers, k))
    decreases |r.answers|
  {
    if r.answers != [] {
      BindJoins(Run(r.answers[1..], r.ending), k);
    }
  }

  /** A goal that the bindings make equal to this one is called, once new variables have been set up, and what follows is run
      for each of its answers. */
  ghost predicate Calls<S>(m: Meaning<S>, sc: Scope, exec: Exec<S>, goal: Term, s: S, t: S, g: Term, r: Run<S>, parts: seq<Run<S>>) {
    m.kept(s, t) && m.equal(t, g, goal) && |parts| == |exec(sc, g, t).answers| && r == Joined(exec(sc, g, t), parts)
  }

  ghost predicate Finishes<S>(m: Meaning<S>, s: S, t: S, r: Run<S>) {
    m.kept(s, t) && r == Runs.Once(t)
  }

  /** r is the run of the goals in this order, each called for every answer of those before. */
  ghost predicate Conjunction<S(!new)>(m: Meaning<S>, sc: Scope, exec: Exec<S>, goals: seq<Term>, s: S, r: Run<S>)
    decreases |goals|
  {
    if goals == [] then exists t :: Finishes(m, s, t, r)
    else exists t, g, parts ::
      Calls(m, sc, exec, goals[0], s, t, g, r, parts) &&
      forall i :: 0 <= i < |parts| ==> Conjunction(m, sc, exec, goals[1..], exec(sc, g, t).answers[i], parts[i])
  }

  /** A variable that is new after s, and unbound in t. */
  predicate IsNew<S>(w: World<S>, m: Meaning<S>, s: S, t: S, x: Term) {
    x.Var? && x.frame == w.newFrame(s).0 && m.free(t, x)
  }

  /** The end of a fold: the accumulator is unified with the result. */
  ghost predicate Unifies<S(!new)>(w: World<S>, m: Meaning<S>, s: S, x: Term, y: Term, r: Run<S>) {
    match w.unify(s, [x], [y])
    case None => r == Fails()
    case Some(t) => exists u :: Finishes(m, t, u, r)
  }

  /** r is the run of the goals f(args, row, accumulator, next accumulator), one for each row in this order, from v0 to v. */
  ghost predicate Threaded<S(!new)>(w: World<S>, m: Meaning<S>, sc: Scope, exec: Exec<S>, f: Name, args: seq<Term>, rows: seq<seq<Term>>,
                                    v0: Term, v: Term, s: S, r: Run<S>)
    decreases |rows|
  {
    if rows == [] then Unifies(w, m, s, v0, v, r)
    else exists t, g, v1, parts ::
      Calls(m, sc, exec, Struct(f, args + rows[0] + [v0, v1]), s, t, g, r, parts) && IsNew(w, m, s, t, v1) &&
      forall i :: 0 <= i < |parts| ==> Threaded(w, m, sc, exec, f, args, rows[1..], v1, v, exec(sc, g, t).answers[i], parts[i])
  }

  // ---------- proper lists ----------

  /** The lists are proper, with n elements each. */
  predicate AreLists<S>(m: Meaning<S>, s: S, lists: seq<Term>, columns: seq<seq<Term>>, n: nat) {
    |columns| == |lists| && forall j :: 0 <= j < |lists| ==> |columns[j]| == n && m.equal(s, lists[j], ListOf(columns[j]))
  }

  /** The i-th elements of the lists. */
  function Row(columns: seq<seq<Term>>, i: nat): (r: seq<Term>)
    requires forall j :: 0 <= j < |columns| ==> i < |columns[j]|
    ensures |r| == |columns| && forall j :: 0 <= j < |columns| ==> r[j] == columns[j][i]
  {
    seq(|columns|, j requires 0 <= j < |columns| => columns[j][i])
  }

  function Rows(columns: seq<seq<Term>>, n: nat): (r: seq<seq<Term>>)
    requires forall j :: 0 <= j < |columns| ==> |columns[j]| == n
    ensures |r| == n && forall i :: 0 <= i < n ==> r[i] == Row(columns, i)
  {
    seq(n, i requires 0 <= i < n => Row(columns, i))
  }

  /** f(args, row) for each row. */
  function Goals(f: Name, args: seq<Term>, rows: seq<seq<Term>>): (r: seq<Term>)
    ensures |r| == |rows| && forall i :: 0 <= i < |rows| ==> r[i] == Struct(f, args + rows[i])
  {
    seq(|rows|, i requires 0 <= i < |rows| => Struct(f, args + rows[i]))
  }

  /** The lists without their first elements. */
  function Shorter(columns: seq<seq<Term>>): (r: seq<seq<Term>>)
    requires forall j :: 0 <= j < |columns| ==> |columns[j]| > 0
    ensures |r| == |columns| && forall j :: 0 <= j < |columns| ==> r[j] == columns[j][1..]
  {
    seq(|columns|, j requires 0 <= j < |columns| => columns[j][1..])
  }

  lemma RowsShorter(columns: seq<seq<Term>>, n: nat)
    requires n > 0 && forall j :: 0 <= j < |columns| ==> |columns[j]| == n
    ensures Rows(columns, n)[0] == Row(columns, 0) && Rows(columns, n)[1..] == Rows(Shorter(columns), n - 1)
  {
    var rows, rest := Rows(columns, n), Rows(Shorter(columns), n - 1);
    forall i | 0 <= i < n - 1 ensures rows[i + 1] == rest[i] {
      assert rows[i + 1] == Row(columns, i + 1) && rest[i] == Row(Shorter(columns), i);
      assert Row(columns, i + 1) == Row(Shorter(columns), i);
    }
  }

  lemma GoalsShorter(f: Name, args: seq<Term>, rows: seq<seq<Term>>)
    requires rows != []
    ensures Goals(f, args, rows)[0] == Struct(f, args + rows[0]) && Goals(f, args, rows)[1..] == Goals(f, args, rows[1..])
  {
  }

  // ---------- one step ----------

  lemma EqualLater<S(!new)>(w: World<S>, m: Meaning<S>, s: S, t: S, x: Term, y: Term)
    requires TakesLists(w, m) && m.grown(s, t) && m.equal(s, x, y)
    ensures m.equal(t, x, y)
  {
    assert EqualLaw(m, s, t, x, y, y);
  }

  lemma EqualBoth<S(!new)>(w: World<S>, m: Meaning<S>, s: S, x: Term, y: Term, z: Term)
    requires TakesLists(w, m) && m.equal(s, x, y) && m.equal(s, x, z)
    ensures m.equal(s, y, z)
  {
    assert EqualLaw(m, s, s, x, y, z);
    assert EqualLaw(m, s, s, y, x, z);
  }

  lemma LaterStores<S(!new)>(w: World<S>, m: Meaning<S>, s: S, t: S)
    requires TakesLists(w, m) && m.possible(s)
    ensures m.kept(s, t) ==> m.grown(s, t)
    ensures m.grown(s, t) ==> m.possible(t)
  {
    assert KeptLaw(m, s, t);
  }

  lemma ArgumentsEqual<S(!new)>(w: World<S>, m: Meaning<S>, s: S, f: Name, xs: seq<Term>, ys: seq<Term>)
    requires TakesLists(w, m) && m.possible(s) && |xs| == |ys|
    ensures m.equal(s, Struct(f, xs), Struct(f, ys)) <==> AllEqual(m, s, xs, ys)
  {
    assert StructLaw(m, s, f, xs, ys);
  }

  lemma ListsLater<S(!new)>(w: World<S>, m: Meaning<S>, s: S, t: S, lists: seq<Term>, columns: seq<seq<Term>>, n: nat)
    requires TakesLists(w, m) && m.grown(s, t) && AreLists(m, s, lists, columns, n)
    ensures AreLists(m, t, lists, columns, n)
  {
    hide TakesLists;
    forall j | 0 <= j < |lists| ensures m.equal(t, lists[j], ListOf(columns[j])) {
      EqualLater(w, m, s, t, lists[j], ListOf(columns[j]));
    }
  }

  /** The goal that is built of a closure and arguments is called. */
  lemma ApplyCalls<S(!new)>(w: World<S>, m: Meaning<S>, sc: Scope, exec: Exec<S>, c: Term, f: Name, args: seq<Term>, extra: seq<Term>,
                            row: seq<Term>, t: S) returns (g: Term)
    requires TakesLists(w, m) && m.possible(t) && m.equal(t, c, Struct(f, args)) && AllEqual(m, t, extra, row)
    ensures Apply(w, sc, c, extra, t, exec) == exec(sc, g, t) && m.equal(t, g, Struct(f, args + row))
  {
    assert DerefLaw(w, m, t, c, f, args);
    hide TakesLists;
    var d := w.deref(t, c);
    g := Struct(f, d.args + extra);
    ArgumentsEqual(w, m, t, f, d.args, args);
    ArgumentsEqual(w, m, t, f, d.args + extra, args + row);
  }

  /** Non-empty lists are taken apart. */
  lemma TakeApart<S(!new)>(w: World<S>, m: Meaning<S>, s: S, lists: seq<Term>, columns: seq<seq<Term>>, n: nat) returns (t: S)
    requires TakesLists(w, m) && m.possible(s) && AreLists(m, s, lists, columns, n) && n > 0
    ensures var (k, s1) := w.newFrame(s);
            var l := |lists|;
            && w.unify(s1, lists, Cells(k, l)) == Some(t) && m.kept(s, t) && m.grown(s, t) && m.possible(t)
            && AllEqual(m, t, Heads(k, l), Row(columns, 0)) && AreLists(m, t, Tails(k, l), Shorter(columns), n - 1)
            && IsNew(w, m, s, t, Var(k, 2 * l)) && m.equal(t, Var(k, 2 * l), Var(k, 2 * l))
  {
    var (k, s1) := w.newFrame(s);
    var l := |lists|;
    var heads, tails := Row(columns, 0), seq(l, j requires 0 <= j < l => ListOf(columns[j][1..]));
    assert AreCells(m, s, lists, heads, tails);
    assert TakeLaw(w, m, s, lists, heads, tails);
    t := w.unify(s1, lists, Cells(k, l)).value;
    hide TakesLists;
    LaterStores(w, m, s, t);
    forall j | 0 <= j < l ensures m.equal(t, Heads(k, l)[j], heads[j]) && m.equal(t, Tails(k, l)[j], tails[j]) {
      assert m.equal(t, lists[j], Cons(Heads(k, l)[j], Tails(k, l)[j]));
      EqualLater(w, m, s, t, lists[j], Cons(heads[j], tails[j]));
      EqualBoth(w, m, t, lists[j], Cons(Heads(k, l)[j], Tails(k, l)[j]), Cons(heads[j], tails[j]));
      ArgumentsEqual(w, m, t, Key(ListK), [Heads(k, l)[j], Tails(k, l)[j]], [heads[j], tails[j]]);
      assert [Heads(k, l)[j], Tails(k, l)[j]][0] == Heads(k, l)[j] && [Heads(k, l)[j], Tails(k, l)[j]][1] == Tails(k, l)[j];
    }
  }

  lemma NotEmpty<S(!new)>(w: World<S>, m: Meaning<S>, s: S, lists: seq<Term>, columns: seq<seq<Term>>, n: nat, x: Term, y: Term)
    requires TakesLists(w, m) && AreLists(m, s, lists, columns, n) && lists != [] && n > 0
    ensures w.unify(s, lists, Repeat(Nil(), |lists|)) == None && w.unify(s, [x] + lists, [y] + Repeat(Nil(), |lists|)) == None
  {
    var nils := Repeat(Nil(), |lists|);
    var cell := [columns[0][0], ListOf(columns[0][1..])];
    assert ListOf(columns[0]) == Struct(Key(ListK), cell);
    assert ClashLaw(w, m, s, lists, nils, 0, Key(ListK), cell);
    assert ([x] + lists)[1] == lists[0] && ([y] + nils)[1] == nils[0];
    assert ClashLaw(w, m, s, [x] + lists, [y] + nils, 1, Key(ListK), cell);
  }

  lemma NoCells<S(!new)>(w: World<S>, m: Meaning<S>, s: S, lists: seq<Term>, columns: seq<seq<Term>>)
    requires TakesLists(w, m) && AreLists(m, s, lists, columns, 0) && lists != []
    ensures w.unify(w.newFrame(s).1, lists, Cells(w.newFrame(s).0, |lists|)) == None
  {
    var (k, s1) := w.newFrame(s);
    FrameGrown(w, m, s);
    ListsLater(w, m, s, s1, lists, columns, 0);
    assert ListOf(columns[0]) == Struct(Key(NilK), []);
    assert Cells(k, |lists|)[0] == Cons(Var(k, 0), Var(k, |lists|));
    assert ClashLaw(w, m, s1, lists, Cells(k, |lists|), 0, Key(NilK), []);
  }

  lemma Alternatives<S>(a: Run<S>)
    ensures Else(Fails(), a) == a
    ensures a.ending == Done ==> Else(a, Fails()) == a
  {
    assert [] + a.answers == a.answers && a.answers + [] == a.answers;
  }

  lemma ChainOnce<S>(t: S, step: S -> Run<S>, next: S -> Run<S>)
    ensures Chain(Runs.Once(t), step, next) == Bind(step(t), next)
  {
    var k := s => Bind(step(s), next);
    assert Chain(Runs.Once(t), step, next) == Bind(Runs.Once(t), k);
    assert Runs.Once(t).answers[1..] == [] && Bind(Run([], Done), k) == Run([], Done);
    assert k(t).answers + [] == k(t).answers;
  }

  // ---------- maplist ----------

  lemma MaplistEnds<S(!new)>(fuel: nat, w: World<S>, m: Meaning<S>, sc: Scope, exec: Exec<S>, c: Term, lists: seq<Term>, columns: seq<seq<Term>>, s: S)
    requires TakesLists(w, m) && m.possible(s) && lists != [] && AreLists(m, s, lists, columns, 0) && fuel > 0
    ensures Conjunction(m, sc, exec, [], s, Maplist(fuel, w, sc, c, lists, s, exec))
  {
    assert EndLaw(w, m, s, lists, Nil(), Nil());
    NoCells(w, m, s, lists, columns);
    hide TakesLists;
    var t := w.unify(s, lists, Repeat(Nil(), |lists|)).value;
    Alternatives(Runs.Once(t));
    assert Finishes(m, s, t, Maplist(fuel, w, sc, c, lists, s, exec));
  }

  lemma MaplistStep<S(!new)>(fuel: nat, w: World<S>, m: Meaning<S>, sc: Scope, exec: Exec<S>, c: Term, lists: seq<Term>, columns: seq<seq<Term>>,
                             n: nat, s: S, t: S)
    requires TakesLists(w, m) && m.possible(s) && lists != [] && AreLists(m, s, lists, columns, n) && n > 0 && fuel > 0
    requires w.unify(w.newFrame(s).1, lists, Cells(w.newFrame(s).0, |lists|)) == Some(t)
    ensures var k, l := w.newFrame(s).0, |lists|;
            Maplist(fuel, w, sc, c, lists, s, exec) ==
            Bind(Apply(w, sc, c, Heads(k, l), t, exec), u => Maplist(fuel - 1, w, sc, c, Tails(k, l), u, exec))
  {
    hide TakesLists, Apply;
    var k, l := w.newFrame(s).0, |lists|;
    var step, next := u => Apply(w, sc, c, Heads(k, l), u, exec), u => Maplist(fuel - 1, w, sc, c, Tails(k, l), u, exec);
    NotEmpty(w, m, s, lists, columns, n, Nil(), Nil());
    ChainOnce(t, step, next);
    Alternatives(Chain(Runs.Once(t), step, next));
  }

  lemma OneCall<S(!new)>(m: Meaning<S>, sc: Scope, exec: Exec<S>, goals: seq<Term>, s: S, t: S, g: Term, r: Run<S>, parts: seq<Run<S>>)
    requires goals != [] && Calls(m, sc, exec, goals[0], s, t, g, r, parts)
    requires forall i :: 0 <= i < |parts| ==> Conjunction(m, sc, exec, goals[1..], exec(sc, g, t).answers[i], parts[i])
    ensures Conjunction(m, sc, exec, goals, s, r)
  {
  }

  /** After a call the closure and the rest of the lists are what they were. */
  lemma StillThere<S(!new)>(w: World<S>, m: Meaning<S>, t: S, r: Run<S>, i: nat, c: Term, d: Term, lists: seq<Term>, columns: seq<seq<Term>>, n: nat)
    requires TakesLists(w, m) && m.possible(t) && m.equal(t, c, d) && AreLists(m, t, lists, columns, n)
    requires Grown(m, t, r) && i < |r.answers|
    ensures var u := r.answers[i]; m.grown(t, u) && m.possible(u) && m.equal(u, c, d) && AreLists(m, u, lists, columns, n)
  {
    hide TakesLists, AreLists;
    LaterStores(w, m, t, r.answers[i]);
    EqualLater(w, m, t, r.answers[i], c, d);
    ListsLater(w, m, t, r.answers[i], lists, columns, n);
  }

  lemma CallsThen<S(!new)>(m: Meaning<S>, sc: Scope, exec: Exec<S>, goal: Term, s: S, t: S, g: Term, r: Run<S>, next: S -> Run<S>)
    requires m.kept(s, t) && m.equal(t, g, goal) && r == Bind(exec(sc, g, t), next)
    ensures Calls(m, sc, exec, goal, s, t, g, r, Parts(exec(sc, g, t).answers, next))
  {
    BindJoins(exec(sc, g, t), next);
  }

  /** maplist over proper lists of length n is the conjunction of n calls, the i-th with the i-th elements. */
  lemma {:induction false} MaplistCalls<S(!new)>(fuel: nat, w: World<S>, m: Meaning<S>, sc: Scope, exec: Exec<S>, c: Term, f: Name, args: seq<Term>,
                                                 lists: seq<Term>, columns: seq<seq<Term>>, n: nat, s: S)
    requires TakesLists(w, m) && ExecGrows(m, exec) && m.possible(s) && m.equal(s, c, Struct(f, args))
    requires lists != [] && AreLists(m, s, lists, columns, n) && fuel > n
    ensures Conjunction(m, sc, exec, Goals(f, args, Rows(columns, n)), s, Maplist(fuel, w, sc, c, lists, s, exec))
    decreases n
  {
    hide TakesLists, Maplist, Apply, Conjunction, Calls, AllEqual, IsNew;
    var goals := Goals(f, args, Rows(columns, n));
    if n == 0 {
      MaplistEnds(fuel, w, m, sc, exec, c, lists, columns, s);
      assert goals == [];
    } else {
      var k, l := w.newFrame(s).0, |lists|;
      var t := TakeApart(w, m, s, lists, columns, n);
      EqualLater(w, m, s, t, c, Struct(f, args));
      var g := ApplyCalls(w, m, sc, exec, c, f, args, Heads(k, l), Row(columns, 0), t);
      var next := u => Maplist(fuel - 1, w, sc, c, Tails(k, l), u, exec);
      var r, first := Maplist(fuel, w, sc, c, lists, s, exec), exec(sc, g, t);
      var parts := Parts(first.answers, next);
      MaplistStep(fuel, w, m, sc, exec, c, lists, columns, n, s, t);
      RowsShorter(columns, n);
      GoalsShorter(f, args, Rows(columns, n));
      CallsThen(m, sc, exec, goals[0], s, t, g, r, next);
      assert Grown(m, t, first);
      forall i | 0 <= i < |parts| ensures Conjunction(m, sc, exec, goals[1..], first.answers[i], parts[i]) {
        StillThere(w, m, t, first, i, c, Struct(f, args), Tails(k, l), Shorter(columns), n - 1);
        MaplistCalls(fuel - 1, w, m, sc, exec, c, f, args, Tails(k, l), Shorter(columns), n - 1, first.answers[i]);
      }
      OneCall(m, sc, exec, goals, s, t, g, r, parts);
    }
  }

  /** The same for the goal: each element row is called with the closure's own arguments in front. */
  lemma MaplistRuns<S(!new)>(fuel: nat, w: World<S>, m: Meaning<S>, o: Originals, strict: bool, sc: Scope, c: Term, f: Name, args: seq<Term>,
                             lists: seq<Term>, columns: seq<seq<Term>>, n: nat, s: S)
    requires TakesLists(w, m) && m.possible(s) && m.equal(s, c, Struct(f, args))
    requires 1 <= |lists| <= 4 && AreLists(m, s, lists, columns, n) && fuel > n + 1
    ensures Conjunction(m, sc, SolveExec(fuel - 1, w, o, strict), Goals(f, args, Rows(columns, n)), s,
                        Solve(fuel, w, o, strict, sc, Struct(Key(MaplistK), [c] + lists), s))
  {
    hide Conjunction, Maplist, Solve, AreLists, SolveExec;
    var goal := [c] + lists;
    assert goal[1..] == lists;
    SolveWrapper(fuel, w, o, strict, MaplistD, sc, MaplistK, goal, s);
    ExecGrown(fuel - 1, w, m, o, strict);
    MaplistCalls(fuel - 1, w, m, sc, SolveExec(fuel - 1, w, o, strict), c, f, args, lists, columns, n, s);
  }

  // ---------- foldl ----------

  lemma FoldlEnds<S(!new)>(fuel: nat, w: World<S>, m: Meaning<S>, sc: Scope, exec: Exec<S>, c: Term, lists: seq<Term>, columns: seq<seq<Term>>,
                           v0: Term, v: Term, s: S)
    requires TakesLists(w, m) && m.possible(s) && lists != [] && AreLists(m, s, lists, columns, 0) && fuel > 0
    ensures Unifies(w, m, s, v0, v, Foldl(fuel, w, sc, c, lists, v0, v, s, exec))
  {
    assert EndLaw(w, m, s, lists, v0, v);
    NoCells(w, m, s, lists, columns);
    hide TakesLists;
    var r := Foldl(fuel, w, sc, c, lists, v0, v, s, exec);
    var end := w.unify(s, [v0] + lists, [v] + Repeat(Nil(), |lists|));
    var (k, s1) := w.newFrame(s);
    assert FoldlRest(fuel, w, sc, c, lists, v0, v, k, s1, exec) == Fails();
    Alternatives(Fails<S>());
    if end.Some? {
      Alternatives(Runs.Once(end.value));
      assert Finishes(m, w.unify(s, [v0], [v]).value, end.value, r);
    }
  }

  lemma FoldlTakes<S(!new)>(fuel: nat, w: World<S>, m: Meaning<S>, sc: Scope, exec: Exec<S>, c: Term, lists: seq<Term>, columns: seq<seq<Term>>,
                            n: nat, v0: Term, v: Term, s: S, t: S)
    requires TakesLists(w, m) && m.possible(s) && lists != [] && AreLists(m, s, lists, columns, n) && n > 0 && fuel > 0
    requires w.unify(w.newFrame(s).1, lists, Cells(w.newFrame(s).0, |lists|)) == Some(t)
    ensures var k, l := w.newFrame(s).0, |lists|;
            var v1 := Var(k, 2 * l);
            Foldl(fuel, w, sc, c, lists, v0, v, s, exec) ==
            Bind(Apply(w, sc, c, Heads(k, l) + [v0, v1], t, exec), u => Foldl(fuel - 1, w, sc, c, Tails(k, l), v1, v, u, exec))
  {
    hide TakesLists, Apply;
    var k, l := w.newFrame(s).0, |lists|;
    var v1 := Var(k, 2 * l);
    var step := u => Apply(w, sc, c, Heads(k, l) + [v0, v1], u, exec);
    var next := u => Foldl(fuel - 1, w, sc, c, Tails(k, l), v1, v, u, exec);
    NotEmpty(w, m, s, lists, columns, n, v0, v);
    ChainOnce(t, step, next);
    Alternatives(Chain(Runs.Once(t), step, next));
  }

  lemma OneThread<S(!new)>(w: World<S>, m: Meaning<S>, sc: Scope, exec: Exec<S>, f: Name, args: seq<Term>, rows: seq<seq<Term>>, v0: Term, v1: Term,
                           v: Term, s: S, t: S, g: Term, r: Run<S>, parts: seq<Run<S>>)
    requires rows != [] && Calls(m, sc, exec, Struct(f, args + rows[0] + [v0, v1]), s, t, g, r, parts) && IsNew(w, m, s, t, v1)
    requires forall i :: 0 <= i < |parts| ==> Threaded(w, m, sc, exec, f, args, rows[1..], v1, v, exec(sc, g, t).answers[i], parts[i])
    ensures Threaded(w, m, sc, exec, f, args, rows, v0, v, s, r)
  {
  }

  lemma WithAccumulators<S(!new)>(w: World<S>, m: Meaning<S>, s: S, t: S, xs: seq<Term>, ys: seq<Term>, v0: Term, v1: Term)
    requires TakesLists(w, m) && m.grown(s, t) && m.equal(s, v0, v0) && m.equal(t, v1, v1) && AllEqual(m, t, xs, ys)
    ensures AllEqual(m, t, xs + [v0, v1], ys + [v0, v1])
  {
    EqualLater(w, m, s, t, v0, v0);
  }

  /** foldl over proper lists of length n is the conjunction of n calls, each with the accumulator of the one before and a new
      variable for the next; the last accumulator is unified with the result. */
  lemma {:induction false} FoldlCalls<S(!new)>(fuel: nat, w: World<S>, m: Meaning<S>, sc: Scope, exec: Exec<S>, c: Term, f: Name, args: seq<Term>,
                                               lists: seq<Term>, columns: seq<seq<Term>>, n: nat, v0: Term, v: Term, s: S)
    requires TakesLists(w, m) && ExecGrows(m, exec) && m.possible(s) && m.equal(s, c, Struct(f, args)) && m.equal(s, v0, v0)
    requires lists != [] && AreLists(m, s, lists, columns, n) && fuel > n
    ensures Threaded(w, m, sc, exec, f, args, Rows(columns, n), v0, v, s, Foldl(fuel, w, sc, c, lists, v0, v, s, exec))
    decreases n
  {
    hide TakesLists, Foldl, Apply, Threaded, Calls, AllEqual, IsNew;
    var rows := Rows(columns, n);
    if n == 0 {
      FoldlEnds(fuel, w, m, sc, exec, c, lists, columns, v0, v, s);
      NoRows(w, m, sc, exec, f, args, v0, v, s, Foldl(fuel, w, sc, c, lists, v0, v, s, exec));
      assert rows == [];
    } else {
      var k, l := w.newFrame(s).0, |lists|;
      var v1 := Var(k, 2 * l);
      var t := TakeApart(w, m, s, lists, columns, n);
      EqualLater(w, m, s, t, c, Struct(f, args));
      WithAccumulators(w, m, s, t, Heads(k, l), Row(columns, 0), v0, v1);
      var g := ApplyCalls(w, m, sc, exec, c, f, args, Heads(k, l) + [v0, v1], Row(columns, 0) + [v0, v1], t);
      assert args + (Row(columns, 0) + [v0, v1]) == args + Row(columns, 0) + [v0, v1];
      var next := u => Foldl(fuel - 1, w, sc, c, Tails(k, l), v1, v, u, exec);
      var r, first := Foldl(fuel, w, sc, c, lists, v0, v, s, exec), exec(sc, g, t);
      var parts := Parts(first.answers, next);
      FoldlTakes(fuel, w, m, sc, exec, c, lists, columns, n, v0, v, s, t);
      RowsShorter(columns, n);
      CallsThen(m, sc, exec, Struct(f, args + rows[0] + [v0, v1]), s, t, g, r, next);
      assert Grown(m, t, first);
      forall i | 0 <= i < |parts| ensures Threaded(w, m, sc, exec, f, args, rows[1..], v1, v, first.answers[i], parts[i]) {
        StillThere(w, m, t, first, i, c, Struct(f, args), Tails(k, l), Shorter(columns), n - 1);
        EqualLater(w, m, t, first.answers[i], v1, v1);
        FoldlCalls(fuel - 1, w, m, sc, exec, c, f, args, Tails(k, l), Shorter(columns), n - 1, v1, v, first.answers[i]);
      }
      OneThread(w, m, sc, exec, f, args, rows, v0, v1, v, s, t, g, r, parts);
    }
  }

  lemma NoRows<S(!new)>(w: World<S>, m: Meaning<S>, sc: Scope, exec: Exec<S>, f: Name, args: seq<Term>, v0: Term, v: Term, s: S, r: Run<S>)
    requires Unifies(w, m, s, v0, v, r)
    ensures Threaded(w, m, sc, exec, f, args, [], v0, v, s, r)
  {
  }

  /** The same for the goal foldl(C, L1, ..., Lm, V0, V). */
  lemma FoldlRuns<S(!new)>(fuel: nat, w: World<S>, m: Meaning<S>, o: Originals, strict: bool, sc: Scope, c: Term, f: Name, args: seq<Term>,
                           lists: seq<Term>, columns: seq<seq<Term>>, n: nat, v0: Term, v: Term, s: S)
    requires TakesLists(w, m) && m.possible(s) && m.equal(s, c, Struct(f, args)) && m.equal(s, v0, v0)
    requires 1 <= |lists| <= 4 && AreLists(m, s, lists, columns, n) && fuel > n + 1
    ensures Threaded(w, m, sc, SolveExec(fuel - 1, w, o, strict), f, args, Rows(columns, n), v0, v, s,
                     Solve(fuel, w, o, strict, sc, Struct(Key(FoldlK), [c] + lists + [v0, v]), s))
  {
    hide Threaded, Foldl, Solve, AreLists, SolveExec;
    var goal := [c] + lists + [v0, v];
    assert goal[1..|goal| - 2] == lists;
    SolveWrapper(fuel, w, o, strict, FoldlD, sc, FoldlK, goal, s);
    ExecGrown(fuel - 1, w, m, o, strict);
    FoldlCalls(fuel - 1, w, m, sc, SolveExec(fuel - 1, w, o, strict), c, f, args, lists, columns, n, v0, v, s);
  }
}
