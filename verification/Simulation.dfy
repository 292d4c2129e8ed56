/** When two runs are the same for every observer: their answers correspond, in order, in stores that differ at most in
    hidden variables, and they end alike. Control and the wrappers keep this, if the native operations respect it and the
    goals that they run do. */
module Simulation {
  import opened Terms
  import opened Policy
  import opened Runs
  import opened Runtime
  import opened Grouping
  import opened Interpreters

  /** `same` relates stores that differ at most in variables of the hidden roles. With `stop`, the first run is a strict
      reference run and may stop early as `Regrouped`. */
  datatype View<!S> = View(same: (S, S) -> bool, hidden: set<Role>, stop: bool)

  predicate Begins<S>(v: View<S>, a: seq<S>, b: seq<S>) {
    |a| <= |b| && forall i :: 0 <= i < |a| ==> v.same(a[i], b[i])
  }

  predicate Follows<S>(v: View<S>, a: Run<S>, b: Run<S>) {
    Begins(v, a.answers, b.answers) &&
    ((v.stop && a.ending == Regrouped) || (a.ending == b.ending && |a.answers| == |b.answers|))
  }

  predicate SameOption<S>(v: View<S>, a: Option<S>, b: Option<S>) {
    a.Some? == b.Some? && (a.Some? ==> v.same(a.value, b.value))
  }

  predicate SameLib<S>(v: View<S>, a: LibRun<S>, b: LibRun<S>) {
    a.outcome == b.outcome && |a.answers| == |b.answers| && Begins(v, a.answers, b.answers)
  }

  predicate SameReply<S>(v: View<S>, a: NetReply<S>, b: NetReply<S>) {
    match (a, b)
    case (Reply(r), Reply(q)) => SameLib(v, r, q)
    case (Callback(g), Callback(h)) => g == h && Clear(v.hidden, g)
    case _ => false
  }

  // ---------- what is required of the native operations ----------

  predicate FrameLaw<S>(w: World<S>, v: View<S>, s: S, t: S) {
    v.same(s, t) ==> w.newFrame(s).0 == w.newFrame(t).0 && v.same(w.newFrame(s).1, w.newFrame(t).1)
  }

  predicate UnifyLaw<S>(w: World<S>, v: View<S>, s: S, t: S, a: seq<Term>, b: seq<Term>) {
    v.same(s, t) && ClearAll(v.hidden, a) && ClearAll(v.hidden, b) ==> SameOption(v, w.unify(s, a, b), w.unify(t, a, b))
  }

  predicate DerefLaw<S>(w: World<S>, v: View<S>, s: S, t: S, x: Term) {
    v.same(s, t) && Clear(v.hidden, x) ==> w.deref(s, x) == w.deref(t, x) && Clear(v.hidden, w.deref(s, x))
  }

  predicate ResolveLaw<S>(w: World<S>, v: View<S>, s: S, t: S, x: Term) {
    v.same(s, t) && Clear(v.hidden, x) ==>
      w.resolve(s, x) == w.resolve(t, x) && (w.resolve(s, x).Some? ==> Clear(v.hidden, w.resolve(s, x).value))
  }

  predicate ComputeLaw<S>(w: World<S>, v: View<S>, c: ComputedKind, s: S, t: S, x: Term) {
    v.same(s, t) && Clear(v.hidden, x) ==>
      w.compute(c, s, x) == w.compute(c, t, x) && (w.compute(c, s, x).Ok? ==> Clear(v.hidden, w.compute(c, s, x).value))
  }

  predicate CollectLaw<S>(w: World<S>, v: View<S>, s: S, t: S, x: Term, a: seq<S>, b: seq<S>) {
    v.same(s, t) && Clear(v.hidden, x) && |a| == |b| && Begins(v, a, b) ==>
      && w.collect(s, x, a).0 == w.collect(t, x, b).0 && ClearAll(v.hidden, w.collect(s, x, a).0)
      && v.same(w.collect(s, x, a).1, w.collect(t, x, b).1)
  }

  predicate RecoverLaw<S>(w: World<S>, v: View<S>, s: S, t: S, x: Term, ball: Ball) {
    v.same(s, t) && Clear(v.hidden, x) ==> SameOption(v, w.recover(s, x, ball), w.recover(t, x, ball))
  }

  predicate LibLaw<S>(w: World<S>, v: View<S>, fuel: nat, f: Name, a: seq<Term>, s: S, t: S) {
    v.same(s, t) && ClearAll(v.hidden, a) ==> SameLib(v, w.lib(fuel, f, a, s), w.lib(fuel, f, a, t))
  }

  predicate ExpandLaw<S>(w: World<S>, v: View<S>, s: S, t: S, a: seq<Term>) {
    v.same(s, t) && ClearAll(v.hidden, a) ==>
      w.expand(s, a) == w.expand(t, a) && (w.expand(s, a).Ok? ==> Clear(v.hidden, w.expand(s, a).value))
  }

  predicate RemoteLaw<S>(w: World<S>, v: View<S>, k: DeferredKind, a: seq<Term>, cs: seq<Clause>, s: S, t: S) {
    v.same(s, t) && ClearAll(v.hidden, a) && ClearClauses(v.hidden, cs) ==>
      SameReply(v, w.remote(k, a, cs, s), w.remote(k, a, cs, t))
  }

  /** The native operations cannot tell related stores apart, and make no terms with hidden variables out of terms
      without. */
  ghost predicate Respects<S(!new)>(w: World<S>, v: View<S>) {
    && (forall s, t :: FrameLaw(w, v, s, t))
    && (forall s, t, a, b :: UnifyLaw(w, v, s, t, a, b))
    && (forall s, t, x :: DerefLaw(w, v, s, t, x))
    && (forall s, t, x :: ResolveLaw(w, v, s, t, x))
    && (forall c, s, t, x :: ComputeLaw(w, v, c, s, t, x))
    && (forall s, t, x, a, b :: CollectLaw(w, v, s, t, x, a, b))
    && (forall s, t, x, ball :: RecoverLaw(w, v, s, t, x, ball))
    && (forall fuel, f, a, s, t :: LibLaw(w, v, fuel, f, a, s, t))
    && (forall s, t, a :: ExpandLaw(w, v, s, t, a))
    && (forall k, a, cs, s, t :: RemoteLaw(w, v, k, a, cs, s, t))
  }

  lemma FrameSame<S(!new)>(w: World<S>, v: View<S>, s: S, t: S)
    requires Respects(w, v) && v.same(s, t)
    ensures w.newFrame(s).0 == w.newFrame(t).0 && v.same(w.newFrame(s).1, w.newFrame(t).1)
  {
    assert FrameLaw(w, v, s, t);
  }

  lemma ResolveSame<S(!new)>(w: World<S>, v: View<S>, s: S, t: S, x: Term)
    requires Respects(w, v) && v.same(s, t) && Clear(v.hidden, x)
    ensures w.resolve(s, x) == w.resolve(t, x) && (w.resolve(s, x).Some? ==> Clear(v.hidden, w.resolve(s, x).value))
  {
    assert ResolveLaw(w, v, s, t, x);
  }

  lemma ComputedSame<S(!new)>(w: World<S>, v: View<S>, c: ComputedKind, s: S, t: S, x: Term)
    requires Respects(w, v) && v.same(s, t) && Clear(v.hidden, x)
    ensures w.compute(c, s, x) == w.compute(c, t, x) && (w.compute(c, s, x).Ok? ==> Clear(v.hidden, w.compute(c, s, x).value))
  {
    assert ComputeLaw(w, v, c, s, t, x);
  }

  lemma CollectedSame<S(!new)>(w: World<S>, v: View<S>, s: S, t: S, x: Term, a: seq<S>, b: seq<S>)
    requires Respects(w, v) && v.same(s, t) && Clear(v.hidden, x) && |a| == |b| && Begins(v, a, b)
    ensures w.collect(s, x, a).0 == w.collect(t, x, b).0 && ClearAll(v.hidden, w.collect(s, x, a).0)
    ensures v.same(w.collect(s, x, a).1, w.collect(t, x, b).1)
  {
    assert CollectLaw(w, v, s, t, x, a, b);
  }

  lemma CallLibFollows<S(!new)>(w: World<S>, v: View<S>, fuel: nat, f: Name, args: seq<Term>, s: S, t: S)
    requires Respects(w, v) && v.same(s, t) && ClearAll(v.hidden, args)
    ensures Follows(v, FromLib(w.lib(fuel, f, args, s)), FromLib(w.lib(fuel, f, args, t)))
  {
    assert LibLaw(w, v, fuel, f, args, s, t);
    LibFollows(v, w.lib(fuel, f, args, s), w.lib(fuel, f, args, t));
  }

  lemma EndsAlike<S>(v: View<S>, e: Ending)
    ensures Follows(v, Run([], e), Run([], e))
  {
  }

  // ---------- control ----------

  lemma {:induction false} BindFollows<S(!new)>(v: View<S>, a: Run<S>, b: Run<S>, k: S -> Run<S>, l: S -> Run<S>)
    requires Follows(v, a, b)
    requires forall s, t :: v.same(s, t) ==> Follows(v, k(s), l(t))
    ensures Follows(v, Bind(a, k), Bind(b, l))
    decreases |a.answers|
  {
    if a.answers != [] {
      assert v.same(a.answers[0], b.answers[0]);
      BindFollows(v, Run(a.answers[1..], a.ending), Run(b.answers[1..], b.ending), k, l);
    }
  }

  lemma ElseFollows<S>(v: View<S>, a: Run<S>, b: Run<S>, c: Run<S>, d: Run<S>)
    requires Follows(v, a, b) && Follows(v, c, d)
    ensures Follows(v, Else(a, c), Else(b, d))
  {
  }

  lemma BarrierFollows<S>(v: View<S>, a: Run<S>, b: Run<S>)
    requires Follows(v, a, b)
    ensures Follows(v, Barrier(a), Barrier(b))
  {
  }

  lemma ChooseFollows<S(!new)>(v: View<S>, a: Run<S>, b: Run<S>, k: S -> Run<S>, l: S -> Run<S>, c: Run<S>, d: Run<S>)
    requires Follows(v, a, b) && Follows(v, c, d)
    requires forall s, t :: v.same(s, t) ==> Follows(v, k(s), l(t))
    ensures Follows(v, Choose(a, k, c), Choose(b, l, d))
  {
    if a.answers != [] {
      assert v.same(a.answers[0], b.answers[0]);
    }
  }

  lemma ChainFollows<S(!new)>(v: View<S>, a: Run<S>, b: Run<S>, k: S -> Run<S>, l: S -> Run<S>, m: S -> Run<S>, n: S -> Run<S>)
    requires Follows(v, a, b)
    requires forall s, t :: v.same(s, t) ==> Follows(v, k(s), l(t))
    requires forall s, t :: v.same(s, t) ==> Follows(v, m(s), n(t))
    ensures Follows(v, Chain(a, k, m), Chain(b, l, n))
  {
    var p := s => Bind(k(s), m);
    var q := s => Bind(l(s), n);
    forall s, t | v.same(s, t) ensures Follows(v, p(s), q(t)) {
      BindFollows(v, k(s), l(t), m, n);
    }
    BindFollows(v, a, b, p, q);
  }

  lemma CaughtFollows<S(!new)>(w: World<S>, v: View<S>, catcher: Term, s: S, t: S, a: Run<S>, b: Run<S>, k: S -> Run<S>,
                               l: S -> Run<S>)
    requires Respects(w, v) && v.same(s, t) && Clear(v.hidden, catcher)
    requires Follows(v, a, b)
    requires forall x, y :: v.same(x, y) ==> Follows(v, k(x), l(y))
    ensures Follows(v, Caught(w, catcher, s, a, k), Caught(w, catcher, t, b, l))
  {
    if a.ending.Raise? {
      var x, y := w.recover(s, catcher, a.ending.ball), w.recover(t, catcher, a.ending.ball);
      assert RecoverLaw(w, v, s, t, catcher, a.ending.ball);
      if x.Some? {
        BarrierFollows(v, k(x.value), l(y.value));
      }
    }
  }

  // ---------- native operations ----------

  lemma UnifyFollows<S(!new)>(w: World<S>, v: View<S>, s: S, t: S, a: seq<Term>, b: seq<Term>)
    requires Respects(w, v) && v.same(s, t) && ClearAll(v.hidden, a) && ClearAll(v.hidden, b)
    ensures SameOption(v, w.unify(s, a, b), w.unify(t, a, b))
    ensures Follows(v, UnifyOnce(w, s, a, b), UnifyOnce(w, t, a, b))
  {
    assert UnifyLaw(w, v, s, t, a, b);
  }

  lemma LibFollows<S>(v: View<S>, a: LibRun<S>, b: LibRun<S>)
    requires SameLib(v, a, b)
    ensures Follows(v, FromLib(a), FromLib(b))
  {
  }

  lemma BuiltinFollows<S(!new)>(fuel: nat, w: World<S>, v: View<S>, f: Name, args: seq<Term>, s: S, t: S)
    requires Respects(w, v) && v.same(s, t) && ClearAll(v.hidden, args)
    ensures Follows(v, Builtin(fuel, w, f, args, s), Builtin(fuel, w, f, args, t))
  {
    assert LibLaw(w, v, fuel, f, args, s, t);
    if f == Key(EqualsK) && |args| == 2 {
      UnifyFollows(w, v, s, t, [args[0]], [args[1]]);
    }
  }

  lemma {:induction false} NumberedFollows<S(!new)>(w: World<S>, v: View<S>, n: Term, a: seq<S>, b: seq<S>, i: nat)
    requires Respects(w, v) && Clear(v.hidden, n) && Begins(v, a, b)
    ensures Begins(v, Numbered(w, n, a, i), Numbered(w, n, b, i))
    ensures |a| == |b| ==> |Numbered(w, n, a, i)| == |Numbered(w, n, b, i)|
  {
    if a != [] {
      UnifyFollows(w, v, a[0], b[0], [n], [Int(i)]);
      NumberedFollows(w, v, n, a[1..], b[1..], i + 1);
    }
  }

  lemma {:induction false} ListClear(h: set<Role>, ts: seq<Term>)
    requires ClearAll(h, ts)
    ensures Clear(h, ListOf(ts))
  {
    if ts != [] {
      ListClear(h, ts[1..]);
    }
  }

  lemma CallNthFollows<S(!new)>(w: World<S>, v: View<S>, n: Term, s: S, t: S, a: Run<S>, b: Run<S>)
    requires Respects(w, v) && v.same(s, t) && Clear(v.hidden, n) && Follows(v, a, b)
    ensures Follows(v, CallNth(w, n, s, a), CallNth(w, n, t, b))
  {
    assert DerefLaw(w, v, s, t, n);
    hide Respects, Numbered;
    NumberedFollows(w, v, n, a.answers, b.answers, 1);
  }

  lemma PostFollows<S(!new)>(w: World<S>, v: View<S>, k: OpaqueKind, args: seq<Term>, s: S, t: S, a: Run<S>, b: Run<S>)
    requires Respects(w, v) && v.same(s, t) && |args| == OpaqueArity(k) && Follows(v, a, b)
    requires forall i :: 0 <= i < |args| && i != GoalIndex(k) ==> Clear(v.hidden, args[i])
    ensures Follows(v, Post(w, k, args, s, a), Post(w, k, args, t, b))
  {
    match k
    case CallNthO => CallNthFollows(w, v, args[1], s, t, a, b);
    case FindallO =>
      if a.ending == Done && b.ending == Done {
        var x, y := w.collect(s, args[0], a.answers), w.collect(t, args[0], b.answers);
        assert CollectLaw(w, v, s, t, args[0], a.answers, b.answers);
        ListClear(v.hidden, x.0);
        UnifyFollows(w, v, x.1, y.1, [args[2]], [ListOf(x.0)]);
      }
    case _ =>
  }

  // ---------- deferred wrappers ----------

  /** Two ways to run goals that cannot be told apart on goals without hidden variables. */
  ghost predicate ExecFollows<S(!new)>(v: View<S>, sc: Scope, e: Exec<S>, f: Exec<S>) {
    forall g, s, t :: v.same(s, t) && Clear(v.hidden, g) ==> Follows(v, e(sc, g, s), f(sc, g, t))
  }

  lemma ApplyFollows<S(!new)>(w: World<S>, v: View<S>, sc: Scope, c: Term, extra: seq<Term>, s: S, t: S, e: Exec<S>, f: Exec<S>)
    requires Respects(w, v) && ExecFollows(v, sc, e, f)
    requires v.same(s, t) && Clear(v.hidden, c) && ClearAll(v.hidden, extra)
    ensures Follows(v, Apply(w, sc, c, extra, s, e), Apply(w, sc, c, extra, t, f))
  {
    var d := w.deref(s, c);
    assert DerefLaw(w, v, s, t, c);
    if d.Struct? {
      assert ClearAll(v.hidden, d.args) && ClearAll(v.hidden, d.args + extra);
      assert Clear(v.hidden, Struct(d.functor, d.args + extra));
    }
  }

  lemma {:induction false} MaplistFollows<S(!new)>(fuel: nat, w: World<S>, v: View<S>, sc: Scope, c: Term, lists: seq<Term>,
                                                   s: S, t: S, e: Exec<S>, f: Exec<S>)
    requires Respects(w, v) && ExecFollows(v, sc, e, f)
    requires v.same(s, t) && Clear(v.hidden, c) && ClearAll(v.hidden, lists)
    ensures Follows(v, Maplist(fuel, w, sc, c, lists, s, e), Maplist(fuel, w, sc, c, lists, t, f))
    decreases fuel
  {
    hide Follows, Chain, UnifyOnce, Tails, Apply;
    var n := |lists|;
    CellsClear(v.hidden, 0, n);
    UnifyFollows(w, v, s, t, lists, Repeat(Nil(), n));
    ElseFollows(v, UnifyOnce(w, s, lists, Repeat(Nil(), n)), UnifyOnce(w, t, lists, Repeat(Nil(), n)), Run([], Starved), Run([], Starved));
    if fuel > 0 {
      var k, s1, t1 := w.newFrame(s).0, w.newFrame(s).1, w.newFrame(t).1;
      assert FrameLaw(w, v, s, t);
      CellsClear(v.hidden, k, n);
      UnifyFollows(w, v, s1, t1, lists, Cells(k, n));
      var a1, a2 := x => Apply(w, sc, c, Heads(k, n), x, e), x => Apply(w, sc, c, Heads(k, n), x, f);
      var n1, n2 := x => Maplist(fuel - 1, w, sc, c, Tails(k, n), x, e), x => Maplist(fuel - 1, w, sc, c, Tails(k, n), x, f);
      forall x, y | v.same(x, y) ensures Follows(v, a1(x), a2(y)) && Follows(v, n1(x), n2(y)) {
        ApplyFollows(w, v, sc, c, Heads(k, n), x, y, e, f);
        MaplistFollows(fuel - 1, w, v, sc, c, Tails(k, n), x, y, e, f);
      }
      var u1, u2 := UnifyOnce(w, s1, lists, Cells(k, n)), UnifyOnce(w, t1, lists, Cells(k, n));
      ChainFollows(v, u1, u2, a1, a2, n1, n2);
      ElseFollows(v, UnifyOnce(w, s, lists, Repeat(Nil(), n)), UnifyOnce(w, t, lists, Repeat(Nil(), n)), Chain(u1, a1, n1), Chain(u2, a2, n2));
    }
  }

  lemma ConsClear(h: set<Role>, head: Term, tail: Term)
    requires Clear(h, head) && Clear(h, tail)
    ensures Clear(h, Cons(head, tail))
  {
    assert ClearAll(h, [head, tail]);
  }

  lemma CellsClear(h: set<Role>, k: nat, n: nat)
    ensures ClearAll(h, Cells(k, n)) && ClearAll(h, Heads(k, n)) && ClearAll(h, Tails(k, n)) && ClearAll(h, Repeat(Nil(), n))
  {
    forall i | 0 <= i < n ensures Clear(h, Cells(k, n)[i]) {
      assert Cells(k, n)[i] == Cons(Var(k, i), Var(k, n + i));
      ConsClear(h, Var(k, i), Var(k, n + i));
    }
  }

  lemma {:induction false} FoldlFollows<S(!new)>(fuel: nat, w: World<S>, v: View<S>, sc: Scope, c: Term, lists: seq<Term>, v0: Term,
                                                 vn: Term, s: S, t: S, e: Exec<S>, f: Exec<S>)
    requires Respects(w, v) && ExecFollows(v, sc, e, f) && v.same(s, t)
    requires Clear(v.hidden, c) && ClearAll(v.hidden, lists) && Clear(v.hidden, v0) && Clear(v.hidden, vn)
    ensures Follows(v, Foldl(fuel, w, sc, c, lists, v0, vn, s, e), Foldl(fuel, w, sc, c, lists, v0, vn, t, f))
    decreases fuel, 1
  {
    var n := |lists|;
    var nil, last := [v0] + lists, [vn] + Repeat(Nil(), n);
    CellsClear(v.hidden, 0, n);
    UnifyFollows(w, v, s, t, nil, last);
    ElseFollows(v, UnifyOnce(w, s, nil, last), UnifyOnce(w, t, nil, last), Run([], Starved), Run([], Starved));
    if fuel > 0 {
      var k, s1, t1 := w.newFrame(s).0, w.newFrame(s).1, w.newFrame(t).1;
      assert FrameLaw(w, v, s, t);
      FoldlStep(fuel, w, v, sc, c, lists, v0, vn, k, s1, t1, e, f);
      ElseFollows(v, UnifyOnce(w, s, nil, last), UnifyOnce(w, t, nil, last), FoldlRest(fuel, w, sc, c, lists, v0, vn, k, s1, e),
                  FoldlRest(fuel, w, sc, c, lists, v0, vn, k, t1, f));
    }
  }

  lemma {:induction false} FoldlStep<S(!new)>(fuel: nat, w: World<S>, v: View<S>, sc: Scope, c: Term, lists: seq<Term>, v0: Term,
                                              vn: Term, k: nat, s: S, t: S, e: Exec<S>, f: Exec<S>)
    requires fuel > 0 && Respects(w, v) && ExecFollows(v, sc, e, f) && v.same(s, t)
    requires Clear(v.hidden, c) && ClearAll(v.hidden, lists) && Clear(v.hidden, v0) && Clear(v.hidden, vn)
    ensures Follows(v, FoldlRest(fuel, w, sc, c, lists, v0, vn, k, s, e), FoldlRest(fuel, w, sc, c, lists, v0, vn, k, t, f))
    decreases fuel, 0
  {
    var n := |lists|;
    var v1 := Var(k, 2 * n);
    var extra := Heads(k, n) + [v0, v1];
    CellsClear(v.hidden, k, n);
    UnifyFollows(w, v, s, t, lists, Cells(k, n));
    var a1, a2 := x => Apply(w, sc, c, Heads(k, n) + [v0, v1], x, e), x => Apply(w, sc, c, Heads(k, n) + [v0, v1], x, f);
    var n1, n2 := x => Foldl(fuel - 1, w, sc, c, Tails(k, n), v1, vn, x, e), x => Foldl(fuel - 1, w, sc, c, Tails(k, n), v1, vn, x, f);
    forall x, y | v.same(x, y) ensures Follows(v, a1(x), a2(y)) && Follows(v, n1(x), n2(y)) {
      ApplyFollows(w, v, sc, c, extra, x, y, e, f);
      FoldlFollows(fuel - 1, w, v, sc, c, Tails(k, n), v1, vn, x, y, e, f);
    }
    ChainFollows(v, UnifyOnce(w, s, lists, Cells(k, n)), UnifyOnce(w, t, lists, Cells(k, n)), a1, a2, n1, n2);
  }

  lemma {:induction false} EnumerateFollows<S(!new)>(w: World<S>, v: View<S>, cs: seq<Clause>, h: Term, b: Term, s: S, t: S)
    requires Respects(w, v) && v.same(s, t) && ClearClauses(v.hidden, cs) && Clear(v.hidden, h) && Clear(v.hidden, b)
    ensures Follows(v, Enumerate(w, cs, h, b, s), Enumerate(w, cs, h, b, t))
  {
    hide Follows, UnifyOnce, Respects;
    if cs != [] {
      EnumerateFollows(w, v, cs[1..], h, b, s, t);
      var k, s1, t1 := w.newFrame(s).0, w.newFrame(s).1, w.newFrame(t).1;
      FrameSame(w, v, s, t);
      RenameClear(v.hidden, cs[0].head, k);
      RenameClear(v.hidden, cs[0].body, k);
      var copy := [Rename(cs[0].head, k), Rename(cs[0].body, k)];
      UnifyFollows(w, v, s1, t1, copy, [h, b]);
      ElseFollows(v, UnifyOnce(w, s1, copy, [h, b]), UnifyOnce(w, t1, copy, [h, b]), Enumerate(w, cs[1..], h, b, s),
                  Enumerate(w, cs[1..], h, b, t));
    } else {
      EndsAlike(v, Done);
    }
  }

  lemma ClauseOfFollows<S(!new)>(w: World<S>, v: View<S>, o: Originals, sc: Scope, h: Term, b: Term, s: S, t: S)
    requires Respects(w, v) && v.same(s, t) && ClearClauses(v.hidden, o.local) && ClearClauses(v.hidden, o.shared)
    requires Clear(v.hidden, h) && Clear(v.hidden, b)
    ensures Follows(v, ClauseOf(w, o, sc, h, b, s), ClauseOf(w, o, sc, h, b, t))
  {
    assert DerefLaw(w, v, s, t, h);
    EnumerateFollows(w, v, o.local, h, b, s, t);
    EnumerateFollows(w, v, o.shared, h, b, s, t);
  }

  lemma DeferredFollows<S(!new)>(fuel: nat, w: World<S>, v: View<S>, o: Originals, k: DeferredKind, sc: Scope, args: seq<Term>,
                                 s: S, t: S, e: Exec<S>, f: Exec<S>)
    requires Respects(w, v) && ExecFollows(v, sc, e, f) && !IsGrouping(k)
    requires v.same(s, t) && ClearAll(v.hidden, args) && ClearClauses(v.hidden, o.local) && ClearClauses(v.hidden, o.shared)
    ensures Follows(v, RunDeferred(fuel, w, o, k, sc, args, s, e), RunDeferred(fuel, w, o, k, sc, args, t, f))
  {
    match k
    case CallD => if |args| >= 1 { ApplyFollows(w, v, sc, args[0], args[1..], s, t, e, f); }
    case MaplistD => if |args| >= 1 { MaplistFollows(fuel, w, v, sc, args[0], args[1..], s, t, e, f); }
    case FoldlD =>
      if |args| >= 3 {
        FoldlFollows(fuel, w, v, sc, args[0], args[1..|args| - 2], args[|args| - 2], args[|args| - 1], s, t, e, f);
      }
    case ClauseD => if |args| == 2 { ClauseOfFollows(w, v, o, sc, args[0], args[1], s, t); }
    case PhraseD => assert ExpandLaw(w, v, s, t, args);
    case ExecuteD =>
    case _ => RemoteFollows(w, v, o, k, sc, args, s, t, e, f);
  }

  lemma RemoteFollows<S(!new)>(w: World<S>, v: View<S>, o: Originals, k: DeferredKind, sc: Scope, args: seq<Term>, s: S, t: S,
                               e: Exec<S>, f: Exec<S>)
    requires Respects(w, v) && ExecFollows(v, sc, e, f) && v.same(s, t) && ClearAll(v.hidden, args) && ClearClauses(v.hidden, o.local)
    ensures var x, y := w.remote(k, args, Exported(o, sc), s), w.remote(k, args, Exported(o, sc), t);
            match x
            case Reply(r) => y.Reply? && Follows(v, FromLib(r), FromLib(y.run))
            case Callback(goal) => y == x && Follows(v, e(sc, goal, s), f(sc, goal, t))
  {
    assert RemoteLaw(w, v, k, args, Exported(o, sc), s, t);
  }

  // ---------- grouping ----------

  lemma {:induction false} GroupsFollow<S(!new)>(w: World<S>, v: View<S>, k: DeferredKind, free: seq<Term>, out: Term, s: S, t: S,
                                                 xs: seq<Solution>)
    requires Respects(w, v) && v.same(s, t) && ClearAll(v.hidden, free) && Clear(v.hidden, out)
    requires ClearSolutions(v.hidden, xs)
    ensures var a, b := Groups(w, k, free, out, s, xs), Groups(w, k, free, out, t, xs); |a| == |b| && Begins(v, a, b)
    decreases |xs|
  {
    if xs != [] {
      var group, others := [xs[0]] + Sharing(w, xs[0], xs[1..], true), Sharing(w, xs[0], xs[1..], false);
      SharingClear(w, v.hidden, xs[0], xs[1..], true);
      SharingClear(w, v.hidden, xs[0], xs[1..], false);
      ListedClear(w, v.hidden, k, group);
      UnifyFollows(w, v, s, t, free + [out], xs[0].key + [Listed(w, k, group)]);
      GroupsFollow(w, v, k, free, out, s, t, others);
    }
  }

  predicate ClearSolutions(h: set<Role>, xs: seq<Solution>) {
    forall i :: 0 <= i < |xs| ==> ClearAll(h, xs[i].key) && Clear(h, xs[i].value)
  }

  lemma {:induction false} SharingClear<S>(w: World<S>, h: set<Role>, x: Solution, xs: seq<Solution>, shared: bool)
    requires ClearSolutions(h, xs)
    ensures ClearSolutions(h, Sharing(w, x, xs, shared))
  {
    if xs != [] {
      SharingClear(w, h, x, xs[1..], shared);
    }
  }

  lemma {:induction false} ValuesClear(h: set<Role>, xs: seq<Solution>)
    requires ClearSolutions(h, xs)
    ensures ClearAll(h, Values(xs))
  {
    if xs != [] {
      ValuesClear(h, xs[1..]);
    }
  }

  lemma {:induction false} InsertOnceClear<S>(w: World<S>, h: set<Role>, x: Term, sorted: seq<Term>)
    requires Clear(h, x) && ClearAll(h, sorted)
    ensures ClearAll(h, InsertOnce(w, x, sorted))
  {
    if sorted != [] {
      InsertOnceClear(w, h, x, sorted[1..]);
    }
  }

  lemma {:induction false} SortOnceClear<S>(w: World<S>, h: set<Role>, xs: seq<Term>)
    requires ClearAll(h, xs)
    ensures ClearAll(h, SortOnce(w, xs))
  {
    if xs != [] {
      SortOnceClear(w, h, xs[1..]);
      InsertOnceClear(w, h, xs[0], SortOnce(w, xs[1..]));
    }
  }

  lemma ListedClear<S>(w: World<S>, h: set<Role>, k: DeferredKind, xs: seq<Solution>)
    requires ClearSolutions(h, xs)
    ensures Clear(h, Listed(w, k, xs))
  {
    ValuesClear(h, xs);
    SortOnceClear(w, h, Values(xs));
    ListClear(h, if k.SetofD? then SortOnce(w, Values(xs)) else Values(xs));
  }

  lemma {:induction false} SolutionsClear(h: set<Role>, copies: seq<Term>)
    requires ClearAll(h, copies)
    ensures ClearSolutions(h, Solutions(copies))
  {
    if copies != [] {
      SolutionsClear(h, copies[1..]);
      var x, rest := SolutionOf(copies[0]), Solutions(copies[1..]);
      assert Clear(h, copies[0]) && (copies[0].Struct? ==> ClearAll(h, copies[0].args));
      assert Solutions(copies) == [x] + rest;
    }
  }

  lemma {:induction false} InsertByKeyClear<S>(w: World<S>, h: set<Role>, x: Solution, sorted: seq<Solution>)
    requires ClearSolutions(h, [x]) && ClearSolutions(h, sorted)
    ensures ClearSolutions(h, InsertByKey(w, x, sorted))
  {
    assert [x][0] == x;
    if sorted != [] {
      InsertByKeyClear(w, h, x, sorted[1..]);
    }
  }

  lemma {:induction false} SortByKeyClear<S>(w: World<S>, h: set<Role>, xs: seq<Solution>)
    requires ClearSolutions(h, xs)
    ensures ClearSolutions(h, SortByKey(w, xs))
  {
    if xs != [] {
      SortByKeyClear(w, h, xs[1..]);
      InsertByKeyClear(w, h, xs[0], SortByKey(w, xs[1..]));
    }
  }

  lemma GroupRunFollows<S(!new)>(w: World<S>, v: View<S>, k: DeferredKind, template: Term, free: seq<Term>, out: Term, s: S, t: S,
                                 a: Run<S>, b: Run<S>)
    requires Respects(w, v) && v.same(s, t) && Follows(v, a, b)
    requires Clear(v.hidden, template) && ClearAll(v.hidden, free) && Clear(v.hidden, out)
    ensures Follows(v, GroupRun(w, k, template, free, out, s, a), GroupRun(w, k, template, free, out, t, b))
  {
    if a.ending == Done && b.ending == Done {
      var pair := Tuple([template] + free);
      var x, y := w.collect(s, pair, a.answers), w.collect(t, pair, b.answers);
      assert ClearAll(v.hidden, [template] + free) && Clear(v.hidden, pair);
      assert CollectLaw(w, v, s, t, pair, a.answers, b.answers);
      SolutionsClear(v.hidden, x.0);
      SortByKeyClear(w, v.hidden, Solutions(x.0));
      GroupsFollow(w, v, k, free, out, x.1, y.1, SortByKey(w, Solutions(x.0)));
    }
  }

  lemma {:induction false} UnboundClear(h: set<Role>, vs: seq<Term>, bound: seq<Term>)
    requires ClearAll(h, vs)
    ensures ClearAll(h, Unbound(vs, bound))
  {
    if vs != [] {
      UnboundClear(h, vs[1..], if vs[0] in bound then bound else [vs[0]] + bound);
    }
  }

  lemma FreeClear(h: set<Role>, template: Term, quantified: seq<Term>, body: Term)
    requires Clear(h, body)
    ensures ClearAll(h, FreeVariables(template, quantified, body))
  {
    ClearOccurrences(h, body);
    UnboundClear(h, Occurrences(body), Occurrences(template) + OccurrencesAll(quantified));
  }
}
