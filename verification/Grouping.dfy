/** bagof/3 and setof/3: answers are grouped by the variables that occur free in the goal. */
module Grouping {
  import opened Terms
  import opened Policy
  import opened Runs
  import opened Runtime

  function StripCaret(t: Term): (r: Term)
    ensures r == t || r < t
  {
    if t.Struct? && t.functor == Key(CaretK) && |t.args| == 2 then StripCaret(t.args[1]) else t
  }

  /** The terms before each `^` in front of a goal. */
  function Quantified(t: Term): seq<Term> {
    if t.Struct? && t.functor == Key(CaretK) && |t.args| == 2 then [t.args[0]] + Quantified(t.args[1]) else []
  }

  /** The variables of a term in the order of their occurrences. */
  function Occurrences(t: Term): seq<Term> {
    match t
    case Var(_, _) => [t]
    case Aux(_, _, _) => [t]
    case Int(_) => []
    case Struct(_, args) => OccurrencesAll(args)
  }

  function OccurrencesAll(ts: seq<Term>): seq<Term> {
    if ts == [] then [] else Occurrences(ts[0]) + OccurrencesAll(ts[1..])
  }

  /** Of these variables, every one that is not bound, once. */
  function Unbound(vs: seq<Term>, bound: seq<Term>): seq<Term> {
    if vs == [] then []
    else if vs[0] in bound then Unbound(vs[1..], bound)
    else [vs[0]] + Unbound(vs[1..], [vs[0]] + bound)
  }

  /** The free variables of `body` with respect to a template and the quantified terms (section 7.1.1.4 of
      ISO/IEC 13211-1). */
  function FreeVariables(template: Term, quantified: seq<Term>, body: Term): seq<Term> {
    Unbound(Occurrences(body), Occurrences(template) + OccurrencesAll(quantified))
  }

  // ---------- grouping ----------

  /** One solution: the values of the free variables and an instance of the template. */
  datatype Solution = Solution(key: seq<Term>, value: Term)

  function Tuple(ts: seq<Term>): Term {
    Struct(Key(TupleK), ts)
  }

  function SolutionOf(copy: Term): Solution {
    if copy.Struct? && copy.args != [] then Solution(copy.args[1..], copy.args[0]) else Solution([], copy)
  }

  function Solutions(copies: seq<Term>): seq<Solution> {
    if copies == [] then [] else [SolutionOf(copies[0])] + Solutions(copies[1..])
  }

  function InsertByKey<S>(w: World<S>, x: Solution, sorted: seq<Solution>): seq<Solution> {
    if sorted == [] || !w.before(Tuple(sorted[0].key), Tuple(x.key)) then [x] + sorted
    else [sorted[0]] + InsertByKey(w, x, sorted[1..])
  }

  /** A stable sort by key. */
  function SortByKey<S>(w: World<S>, xs: seq<Solution>): seq<Solution> {
    if xs == [] then [] else InsertByKey(w, xs[0], SortByKey(w, xs[1..]))
  }

  /** The solutions that share the key of x, or those that do not. */
  function Sharing<S>(w: World<S>, x: Solution, xs: seq<Solution>, shared: bool): (r: seq<Solution>)
    ensures |r| <= |xs|
  {
    if xs == [] then []
    else (if w.alike(Tuple(xs[0].key), Tuple(x.key)) == shared then [xs[0]] else []) + Sharing(w, x, xs[1..], shared)
  }

  function Values(xs: seq<Solution>): seq<Term> {
    if xs == [] then [] else [xs[0].value] + Values(xs[1..])
  }

  function InsertOnce<S>(w: World<S>, x: Term, sorted: seq<Term>): seq<Term> {
    if sorted == [] then [x]
    else if x == sorted[0] then sorted
    else if w.before(sorted[0], x) then [sorted[0]] + InsertOnce(w, x, sorted[1..])
    else [x] + sorted
  }

  function SortOnce<S>(w: World<S>, xs: seq<Term>): seq<Term> {
    if xs == [] then [] else InsertOnce(w, xs[0], SortOnce(w, xs[1..]))
  }

  function Listed<S>(w: World<S>, k: DeferredKind, xs: seq<Solution>): Term {
    ListOf(if k.SetofD? then SortOnce(w, Values(xs)) else Values(xs))
  }

  /** One answer per group: the free variables get the key of the group, the result its list. */
  function Groups<S>(w: World<S>, k: DeferredKind, free: seq<Term>, out: Term, s: S, xs: seq<Solution>): seq<S>
    decreases |xs|
  {
    if xs == [] then [] else
    UnifyOnce(w, s, free + [out], xs[0].key + [Listed(w, k, [xs[0]] + Sharing(w, xs[0], xs[1..], true))]).answers
    + Groups(w, k, free, out, s, Sharing(w, xs[0], xs[1..], false))
  }

  /** The answers of bagof/3 or setof/3 whose goal has the run r. */
  function GroupRun<S>(w: World<S>, k: DeferredKind, template: Term, free: seq<Term>, out: Term, s: S, r: Run<S>): Run<S> {
    if r.ending != Done then Run([], r.ending) else
    var (copies, s1) := w.collect(s, Tuple([template] + free), r.answers);
    Run(Groups(w, k, free, out, s1, SortByKey(w, Solutions(copies))), Done)
  }

  lemma GroupRunContained<S>(w: World<S>, k: DeferredKind, template: Term, free: seq<Term>, out: Term, s: S, r: Run<S>)
    requires Contained(r)
    ensures Contained(GroupRun(w, k, template, free, out, s, r))
  {
  }

  // ---------- what rewriting does to the free variables ----------

  /** Some goal position holds a predicate that is rewritten with a variable of its own: findall/3, is/2 or
      term_variables/2. */
  predicate Adds(g: Term) {
    g.Struct? &&
    match ControlOf(g.functor, |g.args|)
    case Some(Catching) => Adds(g.args[0]) || Adds(g.args[2])
    case Some(Opaque(k)) => k.FindallO? || Adds(g.args[GoalIndex(k)])
    case Some(_) => Adds(g.args[0]) || Adds(g.args[1])
    case None => ComputedOf(g.functor, |g.args|).Some?
  }

  lemma {:induction false} OccurrencesUpdate(ts: seq<Term>, i: nat, t: Term)
    requires i < |ts| && Occurrences(t) == Occurrences(ts[i])
    ensures OccurrencesAll(ts[i := t]) == OccurrencesAll(ts)
  {
    if i == 0 {
      assert ts[0 := t][1..] == ts[1..];
    } else {
      assert ts[i := t][1..] == ts[1..][i - 1 := t];
      OccurrencesUpdate(ts[1..], i - 1, t);
    }
  }

  /** A goal that adds nothing keeps its variables, in their order. */
  lemma {:induction false} RewriteKeepsVariables(ns: Names, sc: Scope, g: Term, frame: nat, at: nat)
    requires Rewrite(ns, sc, g, frame, at).Ok? && !Adds(g)
    ensures Occurrences(Rewrite(ns, sc, g, frame, at).value) == Occurrences(g)
    decreases g, 1
  {
    if g.Struct? {
      match ControlOf(g.functor, |g.args|)
      case Some(Catching) => BothKeepVariables(ns, sc, g, 0, 2, frame, at);
      case Some(Opaque(k)) =>
        RewriteKeepsVariables(ns, sc, g.args[GoalIndex(k)], frame, 2 * at);
        OccurrencesUpdate(g.args, GoalIndex(k), Rewrite(ns, sc, g.args[GoalIndex(k)], frame, 2 * at).value);
      case Some(_) => BothKeepVariables(ns, sc, g, 0, 1, frame, at);
      case None =>
    } else {
      assert Occurrences(Defer(ExecuteD, sc, [g])) == OccurrencesAll([g]) == Occurrences(g) + OccurrencesAll([]);
    }
  }

  lemma {:induction false} BothKeepVariables(ns: Names, sc: Scope, g: Term, i: nat, j: nat, frame: nat, at: nat)
    requires g.Struct? && i < j < |g.args|
    requires RewriteBoth(ns, sc, g, i, j, frame, at).Ok? && !Adds(g.args[i]) && !Adds(g.args[j])
    ensures Occurrences(RewriteBoth(ns, sc, g, i, j, frame, at).value) == Occurrences(g)
    decreases g, 0
  {
    RewriteKeepsVariables(ns, sc, g.args[i], frame, 2 * at);
    RewriteKeepsVariables(ns, sc, g.args[j], frame, 2 * at + 1);
    var a, b := Rewrite(ns, sc, g.args[i], frame, 2 * at).value, Rewrite(ns, sc, g.args[j], frame, 2 * at + 1).value;
    OccurrencesUpdate(g.args, i, a);
    OccurrencesUpdate(g.args[i := a], j, b);
  }

  predicate IsResult(v: Term) {
    v.Aux? && v.role.ResultRole?
  }

  lemma {:induction false} OccursIn(ts: seq<Term>, i: nat, v: Term)
    requires i < |ts| && v in Occurrences(ts[i])
    ensures v in OccurrencesAll(ts)
  {
    if i > 0 {
      OccursIn(ts[1..], i - 1, v);
    }
  }

  lemma UnifyOccurs(goal: Term, out: Term, result: Term)
    requires result.Variable()
    ensures result in Occurrences(ThenUnify(goal, out, result))
  {
    var eq := Struct(Key(EqualsK), [out, result]);
    OccursIn([out, result], 1, result);
    OccursIn([goal, eq], 1, result);
  }

  /** A goal that adds something has a result variable in its rewritten form. */
  lemma {:induction false} RewriteAddsVariable(ns: Names, sc: Scope, g: Term, frame: nat, at: nat) returns (v: Term)
    requires Rewrite(ns, sc, g, frame, at).Ok? && Adds(g)
    ensures IsResult(v) && v in Occurrences(Rewrite(ns, sc, g, frame, at).value)
  {
    var safe := Rewrite(ns, sc, g, frame, at).value;
    v := Aux(ResultRole, frame, at);
    match ControlOf(g.functor, |g.args|)
    case Some(Opaque(k)) =>
      if k.FindallO? {
        UnifyOccurs(safe.args[0], g.args[2], v);
      } else {
        v := RewriteAddsVariable(ns, sc, g.args[GoalIndex(k)], frame, 2 * at);
        OccursIn(safe.args, GoalIndex(k), v);
      }
    case Some(c) =>
      var j := if c.Catching? then 2 else 1;
      if Adds(g.args[0]) {
        v := RewriteAddsVariable(ns, sc, g.args[0], frame, 2 * at);
        OccursIn(safe.args, 0, v);
      } else {
        v := RewriteAddsVariable(ns, sc, g.args[j], frame, 2 * at + 1);
        OccursIn(safe.args, j, v);
      }
    case None =>
      UnifyOccurs(safe.args[0], g.args[1 - InputIndex(ComputedOf(g.functor, |g.args|).value)], v);
  }

  lemma {:induction false} ClearOccurrences(h: set<Role>, t: Term)
    requires Clear(h, t)
    ensures ClearAll(h, Occurrences(t))
  {
    if t.Struct? {
      ClearOccurrencesAll(h, t.args);
    }
  }

  lemma {:induction false} ClearOccurrencesAll(h: set<Role>, ts: seq<Term>)
    requires ClearAll(h, ts)
    ensures ClearAll(h, OccurrencesAll(ts))
  {
    if ts != [] {
      ClearOccurrences(h, ts[0]);
      ClearOccurrencesAll(h, ts[1..]);
    }
  }

  lemma {:induction false} UnboundIs(vs: seq<Term>, bound: seq<Term>)
    ensures forall v :: v in Unbound(vs, bound) <==> v in vs && v !in bound
  {
    if vs != [] {
      UnboundIs(vs[1..], if vs[0] in bound then bound else [vs[0]] + bound);
    }
  }

  /** Grouping is kept exactly when rewriting the goal adds no variable: then, and only then, the rewritten goal has the
      free variables of the original one. */
  lemma GroupingKept(ns: Names, sc: Scope, template: Term, goal: Term, frame: nat, at: nat)
    requires Clear({ResultRole}, template) && Clear({ResultRole}, goal)
    requires Rewrite(ns, sc, StripCaret(goal), frame, at).Ok?
    ensures var body := StripCaret(goal);
            var safe := Rewrite(ns, sc, body, frame, at).value;
            (FreeVariables(template, Quantified(goal), safe) == FreeVariables(template, Quantified(goal), body)) <==> !Adds(body)
  {
    var body := StripCaret(goal);
    var safe := Rewrite(ns, sc, body, frame, at).value;
    if Adds(body) {
      var v := RewriteAddsVariable(ns, sc, body, frame, at);
      var bound := Occurrences(template) + OccurrencesAll(Quantified(goal));
      PartsClear({ResultRole}, goal);
      ClearOccurrences({ResultRole}, template);
      ClearOccurrencesAll({ResultRole}, Quantified(goal));
      ClearOccurrences({ResultRole}, body);
      UnboundIs(Occurrences(safe), bound);
      UnboundIs(Occurrences(body), bound);
      assert v in FreeVariables(template, Quantified(goal), safe);
      assert v !in FreeVariables(template, Quantified(goal), body);
    } else {
      RewriteKeepsVariables(ns, sc, body, frame, at);
    }
  }

  lemma {:induction false} PartsClear(h: set<Role>, t: Term)
    requires Clear(h, t)
    ensures ClearAll(h, Quantified(t)) && Clear(h, StripCaret(t))
  {
    if t.Struct? && t.functor == Key(CaretK) && |t.args| == 2 {
      PartsClear(h, t.args[1]);
    }
  }
}
