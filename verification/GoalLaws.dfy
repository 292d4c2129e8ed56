/** Laws of goals: what the meaning of the control constructs comes to. */
module GoalLaws {
  import opened Terms
  import opened Policy
  import opened Runs
  import opened Runtime
  import opened Interpreters

  // ---------- runs ----------

  lemma {:induction false} BindConcat<S>(a: seq<S>, b: seq<S>, e: Ending, k: S -> Run<S>)
    ensures var f, g := Bind(Run(a, Done), k), Bind(Run(b, e), k);
            Bind(Run(a + b, e), k) == if f.ending != Done then f else Run(f.answers + g.answers, g.ending)
  {
    if a == [] {
      assert a + b == b && [] + Bind(Run(b, e), k).answers == Bind(Run(b, e), k).answers;
    } else {
      assert (a + b)[0] == a[0] && (a + b)[1..] == a[1..] + b;
      BindConcat(a[1..], b, e, k);
      var first := k(a[0]);
      if first.ending == Done {
        var f, g := Bind(Run(a[1..], Done), k), Bind(Run(b, e), k);
        assert first.answers + (f.answers + g.answers) == first.answers + f.answers + g.answers;
      }
    }
  }

  lemma {:induction false} BindEnds<S>(r: Run<S>, k: S -> Run<S>)
    requires r.ending != Done
    ensures Bind(r, k).ending != Done
    decreases |r.answers|
  {
    if r.answers != [] && k(r.answers[0]).ending == Done {
      BindEnds(Run(r.answers[1..], r.ending), k);
    }
  }

  lemma {:induction false} BindTwice<S(!new)>(r: Run<S>, k: S -> Run<S>, l: S -> Run<S>, both: S -> Run<S>)
    requires forall s :: both(s) == Bind(k(s), l)
    ensures Bind(Bind(r, k), l) == Bind(r, both)
    decreases |r.answers|
  {
    if r.answers != [] {
      var first, rest := k(r.answers[0]), Run(r.answers[1..], r.ending);
      BindTwice(rest, k, l, both);
      if first.ending != Done {
        BindEnds(first, l);
      } else {
        BindConcat(first.answers, Bind(rest, k).answers, Bind(rest, k).ending, l);
      }
    }
  }

  lemma {:induction false} BindUnit<S(!new)>(r: Run<S>, k: S -> Run<S>)
    requires forall s :: k(s) == Runs.Once(s)
    ensures Bind(r, k) == r
    decreases |r.answers|
  {
    if r.answers != [] {
      BindUnit(Run(r.answers[1..], r.ending), k);
      assert [r.answers[0]] + r.answers[1..] == r.answers;
    }
  }

  lemma BindOne<S>(s: S, e: Ending, k: S -> Run<S>)
    ensures Bind(Run([s], e), k) == if k(s).ending != Done then k(s) else Run(k(s).answers, e)
  {
    assert [s][1..] == [] && Bind(Run([], e), k) == Run([], e);
    assert k(s).answers + [] == k(s).answers;
  }

  lemma BindElse<S>(a: Run<S>, b: Run<S>, k: S -> Run<S>)
    ensures Bind(Else(a, b), k) == Else(Bind(a, k), Bind(b, k))
  {
    if a.ending == Done {
      BindConcat(a.answers, b.answers, b.ending, k);
    } else {
      BindEnds(a, k);
    }
  }

  lemma ElseTwice<S>(a: Run<S>, b: Run<S>, c: Run<S>)
    ensures Else(Else(a, b), c) == Else(a, Else(b, c))
  {
    assert a.answers + b.answers + c.answers == a.answers + (b.answers + c.answers);
  }

  // ---------- goals ----------

  function Conj(a: Term, b: Term): Term {
    Struct(Key(CommaK), [a, b])
  }

  function Disj(a: Term, b: Term): Term {
    Struct(Key(SemicolonK), [a, b])
  }

  function IfThen(a: Term, b: Term): Term {
    Struct(Key(ArrowK), [a, b])
  }

  function Atom(k: Keyword): Term {
    Struct(Key(k), [])
  }

  /** The scope does not redefine this native predicate. */
  predicate IsNative(ns: Names, sc: Scope, k: Keyword, n: nat) {
    (Key(k), n) in ns.pure && (Key(k), n) !in ns.guarded && (Key(k), n) !in ns.shared && (sc == Local ==> (Key(k), n) !in ns.owned)
  }

  lemma SolveConj<S>(fuel: nat, w: World<S>, o: Originals, strict: bool, sc: Scope, a: Term, b: Term, s: S)
    ensures Solve(fuel, w, o, strict, sc, Conj(a, b), s) ==
            Bind(Solve(fuel, w, o, strict, sc, a, s), s1 => Solve(fuel, w, o, strict, sc, b, s1))
  {
    hide SolveDeferred, Bind;
  }

  lemma SolveDisj<S>(fuel: nat, w: World<S>, o: Originals, strict: bool, sc: Scope, a: Term, b: Term, s: S)
    requires !IsArrow(a)
    ensures Solve(fuel, w, o, strict, sc, Disj(a, b), s) ==
            Else(Solve(fuel, w, o, strict, sc, a, s), Solve(fuel, w, o, strict, sc, b, s))
  {
    hide SolveDeferred, Bind, Else;
  }

  lemma SolveAtom<S>(fuel: nat, w: World<S>, o: Originals, strict: bool, sc: Scope, k: Keyword, s: S)
    requires IsNative(o.names, sc, k, 0) && (k.CutK? || k.TrueK? || k.FailK?)
    ensures Solve(fuel, w, o, strict, sc, Atom(k), s) ==
            match k case CutK => Run([s], Cut) case TrueK => Runs.Once(s) case _ => Fails()
  {
    SolveResolved(fuel, w, o, strict, sc, Atom(k), s);
  }

  lemma SolveOpaque<S>(fuel: nat, w: World<S>, o: Originals, strict: bool, sc: Scope, key: Keyword, k: OpaqueKind, args: seq<Term>, s: S)
    requires ControlOf(Key(key), |args|) == Some(Opaque(k))
    ensures Solve(fuel, w, o, strict, sc, Struct(Key(key), args), s) ==
            Post(w, k, args, s, Barrier(Solve(fuel, w, o, strict, sc, args[GoalIndex(k)], s)))
  {
    hide SolveDeferred, Bind, Post, Barrier;
  }

  lemma SolveIfThen<S>(fuel: nat, w: World<S>, o: Originals, strict: bool, sc: Scope, a: Term, b: Term, c: Term, s: S)
    ensures var cond, goal := Solve(fuel, w, o, strict, sc, a, s), s1 => Solve(fuel, w, o, strict, sc, b, s1);
            && Solve(fuel, w, o, strict, sc, IfThen(a, b), s) == Choose(cond, goal, Fails())
            && Solve(fuel, w, o, strict, sc, Disj(IfThen(a, b), c), s) == Choose(cond, goal, Solve(fuel, w, o, strict, sc, c, s))
  {
    hide SolveDeferred, Bind, Post, Choose;
    assert IsArrow(IfThen(a, b)) && IfThen(a, b).args[0] == a && IfThen(a, b).args[1] == b;
  }

  /** Conjunction is associative. */
  lemma ConjunctionAssociates<S(!new)>(fuel: nat, w: World<S>, o: Originals, strict: bool, sc: Scope, a: Term, b: Term, c: Term, s: S)
    ensures Solve(fuel, w, o, strict, sc, Conj(Conj(a, b), c), s) == Solve(fuel, w, o, strict, sc, Conj(a, Conj(b, c)), s)
  {
    hide Solve, Bind;
    var k, l := s1 => Solve(fuel, w, o, strict, sc, b, s1), s1 => Solve(fuel, w, o, strict, sc, c, s1);
    var both := s1 => Solve(fuel, w, o, strict, sc, Conj(b, c), s1);
    forall t ensures both(t) == Bind(k(t), l) {
      SolveConj(fuel, w, o, strict, sc, b, c, t);
    }
    SolveConj(fuel, w, o, strict, sc, Conj(a, b), c, s);
    SolveConj(fuel, w, o, strict, sc, a, b, s);
    SolveConj(fuel, w, o, strict, sc, a, Conj(b, c), s);
    BindTwice(Solve(fuel, w, o, strict, sc, a, s), k, l, both);
  }

  /** `true` is its unit, on either side. */
  lemma TrueIsUnit<S(!new)>(fuel: nat, w: World<S>, o: Originals, strict: bool, sc: Scope, a: Term, s: S)
    requires IsNative(o.names, sc, TrueK, 0)
    ensures Solve(fuel, w, o, strict, sc, Conj(Atom(TrueK), a), s) == Solve(fuel, w, o, strict, sc, a, s)
    ensures Solve(fuel, w, o, strict, sc, Conj(a, Atom(TrueK)), s) == Solve(fuel, w, o, strict, sc, a, s)
  {
    hide Solve, Bind;
    var before, after := s1 => Solve(fuel, w, o, strict, sc, a, s1), s1 => Solve(fuel, w, o, strict, sc, Atom(TrueK), s1);
    forall t ensures after(t) == Runs.Once(t) {
      SolveAtom(fuel, w, o, strict, sc, TrueK, t);
    }
    SolveConj(fuel, w, o, strict, sc, Atom(TrueK), a, s);
    SolveConj(fuel, w, o, strict, sc, a, Atom(TrueK), s);
    SolveAtom(fuel, w, o, strict, sc, TrueK, s);
    BindOne(s, Done, before);
    BindUnit(Solve(fuel, w, o, strict, sc, a, s), after);
  }

  /** Disjunction is associative, unless an alternative is an if-then; `fail` is its unit. */
  lemma DisjunctionAssociates<S>(fuel: nat, w: World<S>, o: Originals, strict: bool, sc: Scope, a: Term, b: Term, c: Term, s: S)
    requires !IsArrow(a) && !IsArrow(b)
    ensures Solve(fuel, w, o, strict, sc, Disj(Disj(a, b), c), s) == Solve(fuel, w, o, strict, sc, Disj(a, Disj(b, c)), s)
    ensures IsNative(o.names, sc, FailK, 0) ==>
              && Solve(fuel, w, o, strict, sc, Disj(Atom(FailK), c), s) == Solve(fuel, w, o, strict, sc, c, s)
              && Solve(fuel, w, o, strict, sc, Disj(a, Atom(FailK)), s) == Solve(fuel, w, o, strict, sc, a, s)
  {
    hide Solve;
    SolveDisj(fuel, w, o, strict, sc, Disj(a, b), c, s);
    SolveDisj(fuel, w, o, strict, sc, a, b, s);
    SolveDisj(fuel, w, o, strict, sc, a, Disj(b, c), s);
    SolveDisj(fuel, w, o, strict, sc, b, c, s);
    var p, q, r := Solve(fuel, w, o, strict, sc, a, s), Solve(fuel, w, o, strict, sc, b, s), Solve(fuel, w, o, strict, sc, c, s);
    ElseTwice(p, q, r);
    if IsNative(o.names, sc, FailK, 0) {
      SolveAtom(fuel, w, o, strict, sc, FailK, s);
      SolveDisj(fuel, w, o, strict, sc, Atom(FailK), c, s);
      SolveDisj(fuel, w, o, strict, sc, a, Atom(FailK), s);
      assert [] + r.answers == r.answers && p.answers + [] == p.answers;
    }
  }

  /** Conjunction distributes over the alternatives before it. */
  lemma ConjunctionDistributes<S(!new)>(fuel: nat, w: World<S>, o: Originals, strict: bool, sc: Scope, a: Term, b: Term, c: Term, s: S)
    requires !IsArrow(a)
    ensures Solve(fuel, w, o, strict, sc, Conj(Disj(a, b), c), s) == Solve(fuel, w, o, strict, sc, Disj(Conj(a, c), Conj(b, c)), s)
  {
    hide Solve, Bind;
    SolveDisj(fuel, w, o, strict, sc, a, b, s);
    SolveConj(fuel, w, o, strict, sc, Disj(a, b), c, s);
    SolveConj(fuel, w, o, strict, sc, a, c, s);
    SolveConj(fuel, w, o, strict, sc, b, c, s);
    SolveDisj(fuel, w, o, strict, sc, Conj(a, c), Conj(b, c), s);
    BindElse(Solve(fuel, w, o, strict, sc, a, s), Solve(fuel, w, o, strict, sc, b, s), s1 => Solve(fuel, w, o, strict, sc, c, s1));
  }

  /** A cut drops the alternatives of its disjunction and the later clauses of its predicate, but none of its own answers. */
  lemma CutCommits<S(!new)>(fuel: nat, w: World<S>, o: Originals, strict: bool, sc: Scope, a: Term, b: Term, s: S)
    requires IsNative(o.names, sc, CutK, 0)
    ensures Solve(fuel, w, o, strict, sc, Disj(Conj(Atom(CutK), a), b), s) == Solve(fuel, w, o, strict, sc, Conj(Atom(CutK), a), s)
    ensures var cut, alone := Solve(fuel, w, o, strict, sc, Conj(Atom(CutK), a), s), Solve(fuel, w, o, strict, sc, a, s);
            cut.answers == alone.answers && cut.ending == if alone.ending == Done then Cut else alone.ending
  {
    hide Solve, Bind;
    SolveAtom(fuel, w, o, strict, sc, CutK, s);
    SolveConj(fuel, w, o, strict, sc, Atom(CutK), a, s);
    BindOne(s, Cut, s1 => Solve(fuel, w, o, strict, sc, a, s1));
    SolveDisj(fuel, w, o, strict, sc, Conj(Atom(CutK), a), b, s);
  }

  /** So of the clauses of a predicate only the first that matches counts, if it begins with a cut. */
  lemma CutClause<S(!new)>(fuel: nat, w: World<S>, o: Originals, strict: bool, sc: Scope, cs: seq<Clause>, a: Term, args: seq<Term>, s: S)
    requires IsNative(o.names, sc, CutK, 0) && cs != [] && cs[0].body == Conj(Atom(CutK), a)
    ensures var (k, s1) := w.newFrame(s);
            SolveClauses(fuel, w, o, strict, sc, cs, args, s) ==
            match w.unify(s1, Arguments(Rename(cs[0].head, k)), args)
            case None => SolveClauses(fuel, w, o, strict, sc, cs[1..], args, s)
            case Some(s2) => Barrier(Solve(fuel, w, o, strict, sc, Rename(a, k), s2))
  {
    hide Solve;
    var (k, s1) := w.newFrame(s);
    var u := w.unify(s1, Arguments(Rename(cs[0].head, k)), args);
    var rest := SolveClauses(fuel, w, o, strict, sc, cs[1..], args, s);
    RenamedCut(a, k);
    if u.Some? {
      CutCommits(fuel, w, o, strict, sc, Rename(a, k), Atom(FailK), u.value);
    } else {
      assert [] + rest.answers == rest.answers;
      NoCutEscapes(fuel, w, o, strict, sc, cs[1..], args, s);
    }
  }

  lemma RenamedCut(a: Term, k: nat)
    ensures Rename(Conj(Atom(CutK), a), k) == Conj(Atom(CutK), Rename(a, k))
  {
    assert RenameAll([Atom(CutK), a], k) == [Rename(Atom(CutK), k), Rename(a, k)];
  }

  lemma NoCutEscapes<S>(fuel: nat, w: World<S>, o: Originals, strict: bool, sc: Scope, cs: seq<Clause>, args: seq<Term>, s: S)
    ensures !SolveClauses(fuel, w, o, strict, sc, cs, args, s).ending.Cut?
  {
  }

  /** once(G) is G cut to its first answer, which is what (G -> true) gives; \+ G succeeds where that fails. */
  lemma OnceAndNot<S(!new)>(fuel: nat, w: World<S>, o: Originals, strict: bool, sc: Scope, g: Term, s: S)
    requires IsNative(o.names, sc, TrueK, 0) && IsNative(o.names, sc, FailK, 0)
    ensures Solve(fuel, w, o, strict, sc, Struct(Key(OnceK), [g]), s) == Solve(fuel, w, o, strict, sc, IfThen(g, Atom(TrueK)), s)
    ensures Solve(fuel, w, o, strict, sc, Struct(Key(NotK), [g]), s) ==
            Solve(fuel, w, o, strict, sc, Disj(IfThen(g, Atom(FailK)), Atom(TrueK)), s)
  {
    hide Solve;
    var r := Solve(fuel, w, o, strict, sc, g, s);
    SolveOpaque(fuel, w, o, strict, sc, OnceK, OnceO, [g], s);
    SolveOpaque(fuel, w, o, strict, sc, NotK, NotO, [g], s);
    SolveIfThen(fuel, w, o, strict, sc, g, Atom(TrueK), Atom(TrueK), s);
    SolveIfThen(fuel, w, o, strict, sc, g, Atom(FailK), Atom(TrueK), s);
    if r.answers != [] {
      SolveAtom(fuel, w, o, strict, sc, TrueK, r.answers[0]);
      SolveAtom(fuel, w, o, strict, sc, FailK, r.answers[0]);
    }
    SolveAtom(fuel, w, o, strict, sc, TrueK, s);
  }

  // ---------- call_nth and clause ----------

  function Flat<S>(parts: seq<seq<S>>): seq<S> {
    if parts == [] then [] else parts[0] + Flat(parts[1..])
  }

  /** Each answer with the counter set to its number. */
  function Counted<S>(w: World<S>, n: Term, answers: seq<S>, i: nat): (r: seq<seq<S>>)
    ensures |r| == |answers| && forall j :: 0 <= j < |answers| ==> r[j] == UnifyOnce(w, answers[j], [n], [Int(i + j)]).answers
  {
    seq(|answers|, j requires 0 <= j < |answers| => UnifyOnce(w, answers[j], [n], [Int(i + j)]).answers)
  }

  lemma {:induction false} NumberedEach<S>(w: World<S>, n: Term, answers: seq<S>, i: nat)
    ensures Numbered(w, n, answers, i) == Flat(Counted(w, n, answers, i))
  {
    if answers != [] {
      NumberedEach(w, n, answers[1..], i + 1);
      assert Counted(w, n, answers, i)[1..] == Counted(w, n, answers[1..], i + 1);
    }
  }

  /** call_nth(G, N) with an unbound counter gives, one after another, what it gives for each number from 1, with N set to that
      number; for a number it gives that answer of G, if there is one. */
  lemma CallNthCounts<S>(fuel: nat, w: World<S>, o: Originals, strict: bool, sc: Scope, g: Term, n: Term, s: S)
    requires w.deref(s, n).Variable() && forall i: int :: w.deref(s, Int(i)) == Int(i)
    ensures var r, counted := Barrier(Solve(fuel, w, o, strict, sc, g, s)), Solve(fuel, w, o, strict, sc, Struct(Key(CallNthK), [g, n]), s);
            && counted.ending == r.ending
            && counted.answers == Flat(Counted(w, n, r.answers, 1))
            && forall j :: 0 <= j < |r.answers| ==>
                 Solve(fuel, w, o, strict, sc, Struct(Key(CallNthK), [g, Int(1 + j)]), s) == Runs.Once(r.answers[j])
  {
    hide Solve, Flat, CallNth, Post, Counted;
    var r := Barrier(Solve(fuel, w, o, strict, sc, g, s));
    SolveOpaque(fuel, w, o, strict, sc, CallNthK, CallNthO, [g, n], s);
    PostCounts(w, g, n, s, r);
    Unbounded(w, n, s, r);
    forall j | 0 <= j < |r.answers|
      ensures Solve(fuel, w, o, strict, sc, Struct(Key(CallNthK), [g, Int(1 + j)]), s) == Runs.Once(r.answers[j])
    {
      SolveOpaque(fuel, w, o, strict, sc, CallNthK, CallNthO, [g, Int(1 + j)], s);
      PostCounts(w, g, Int(1 + j), s, r);
      Bounded(w, j, s, r);
    }
  }

  lemma PostCounts<S>(w: World<S>, g: Term, n: Term, s: S, r: Run<S>)
    ensures Post(w, CallNthO, [g, n], s, r) == CallNth(w, n, s, r)
  {
    hide CallNth;
  }

  lemma Unbounded<S>(w: World<S>, n: Term, s: S, r: Run<S>)
    requires w.deref(s, n).Variable()
    ensures CallNth(w, n, s, r) == Run(Flat(Counted(w, n, r.answers, 1)), r.ending)
  {
    hide Numbered, Flat;
    NumberedEach(w, n, r.answers, 1);
  }

  lemma Bounded<S>(w: World<S>, j: nat, s: S, r: Run<S>)
    requires j < |r.answers| && w.deref(s, Int(1 + j)) == Int(1 + j)
    ensures CallNth(w, Int(1 + j), s, r) == Runs.Once(r.answers[j])
  {
  }

  /** A copy of the clause with new variables is unified with head and body. */
  function Copied<S>(w: World<S>, c: Clause, h: Term, b: Term, s: S): Option<S> {
    var (k, s1) := w.newFrame(s);
    w.unify(s1, [Rename(c.head, k), Rename(c.body, k)], [h, b])
  }

  /** What each clause gives: one answer if it matches. */
  function Matches<S>(w: World<S>, cs: seq<Clause>, h: Term, b: Term, s: S): (r: seq<seq<S>>)
    ensures |r| == |cs|
    ensures forall i :: 0 <= i < |cs| ==> r[i] == match Copied(w, cs[i], h, b, s) case None => [] case Some(t) => [t]
  {
    seq(|cs|, i requires 0 <= i < |cs| => match Copied(w, cs[i], h, b, s) case None => [] case Some(t) => [t])
  }

  lemma {:induction false} Enumerated<S>(w: World<S>, cs: seq<Clause>, h: Term, b: Term, s: S)
    ensures Enumerate(w, cs, h, b, s) == Run(Flat(Matches(w, cs, h, b, s)), Done)
  {
    if cs != [] {
      Enumerated(w, cs[1..], h, b, s);
      assert Matches(w, cs, h, b, s)[1..] == Matches(w, cs[1..], h, b, s);
    }
  }

  /** clause/2 gives the clauses that match, in source order: those of the private source for a predicate that it owns, if the
      goal stands in local text; otherwise those of the shared database. */
  lemma ClausesInOrder<S>(fuel: nat, w: World<S>, o: Originals, strict: bool, sc: Scope, h: Term, b: Term, s: S)
    requires fuel > 0
    ensures var r := Solve(fuel, w, o, strict, sc, Struct(Key(ClauseK), [h, b]), s);
            var head := w.deref(s, h);
            if head.Variable() then r == Throws(Instantiation(ClauseK))
            else if head.Struct? && sc == Local && (head.functor, |head.args|) in o.names.owned then
              r == Run(Flat(Matches(w, o.local, h, b, s)), Done)
            else if head.Struct? && (head.functor, |head.args|) in o.names.shared then
              r == Run(Flat(Matches(w, o.shared, h, b, s)), Done)
            else r == Throws(ClauseAccess(h))
  {
    hide Enumerate, Flat, Matches;
    SolveDeferredIs(fuel, w, o, strict, ClauseD, sc, [h, b], s);
    Enumerated(w, o.local, h, b, s);
    Enumerated(w, o.shared, h, b, s);
  }

  // ---------- the other constructs ----------

  function Catch(g: Term, catcher: Term, recovery: Term): Term {
    Struct(Key(CatchK), [g, catcher, recovery])
  }

  lemma SolveCatch<S>(fuel: nat, w: World<S>, o: Originals, strict: bool, sc: Scope, g: Term, catcher: Term, recovery: Term, s: S)
    ensures Solve(fuel, w, o, strict, sc, Catch(g, catcher, recovery), s) ==
            Caught(w, catcher, s, Barrier(Solve(fuel, w, o, strict, sc, g, s)), s1 => Solve(fuel, w, o, strict, sc, recovery, s1))
  {
    hide SolveDeferred, Caught, Barrier;
  }

  /** catch/3: the answers of the goal come first; then, if it raised something that the catcher unifies with, those of the
      recovery, called with the bindings from before the goal. Neither lets a cut out. */
  lemma CatchRuns<S(!new)>(fuel: nat, w: World<S>, o: Originals, strict: bool, sc: Scope, g: Term, catcher: Term, recovery: Term, s: S)
    ensures var r, goal := Solve(fuel, w, o, strict, sc, Catch(g, catcher, recovery), s), Solve(fuel, w, o, strict, sc, g, s);
            && goal.answers <= r.answers && !r.ending.Cut?
            && (!goal.ending.Raise? ==> r.answers == goal.answers && (goal.ending.Cut? || r.ending == goal.ending))
            && (goal.ending.Raise? ==>
                  match w.recover(s, catcher, goal.ending.ball)
                  case None => r == goal
                  case Some(s1) =>
                    var h := Solve(fuel, w, o, strict, sc, recovery, s1);
                    r.answers == goal.answers + h.answers && (h.ending.Cut? || r.ending == h.ending))
  {
    hide Solve;
    SolveCatch(fuel, w, o, strict, sc, g, catcher, recovery, s);
  }

  /** findall/3 gives one answer, with the list of all copies in the order of the goal's answers, if the goal just ends; the end
      of a goal that does not is its own. */
  lemma FindallRuns<S>(fuel: nat, w: World<S>, o: Originals, strict: bool, sc: Scope, template: Term, g: Term, list: Term, s: S)
    ensures var r, goal := Solve(fuel, w, o, strict, sc, Struct(Key(FindallK), [template, g, list]), s), Solve(fuel, w, o, strict, sc, g, s);
            if goal.ending.Done? || goal.ending.Cut? then
              var (copies, s1) := w.collect(s, template, goal.answers);
              r == match w.unify(s1, [list], [ListOf(copies)]) case None => Fails() case Some(t) => Runs.Once(t)
            else r == Run([], goal.ending)
  {
    hide Solve;
    SolveOpaque(fuel, w, o, strict, sc, FindallK, FindallO, [template, g, list], s);
  }

  lemma {:induction false} ListOfIs(ts: seq<Term>)
    ensures ts == [] ==> ListOf(ts) == Struct(Key(NilK), [])
    ensures forall i :: 0 <= i < |ts| ==> Nth(ListOf(ts), i) == Some(ts[i])
    ensures Nth(ListOf(ts), |ts|) == None
  {
    if ts != [] {
      ListOfIs(ts[1..]);
      forall i | 0 <= i < |ts| ensures Nth(ListOf(ts), i) == Some(ts[i]) {
        if i > 0 {
          assert Nth(ListOf(ts[1..]), i - 1) == Some(ts[1..][i - 1]);
        }
      }
    }
  }

  /** The i-th element of a list. */
  function Nth(t: Term, i: nat): Option<Term> {
    if !HasFunctor(t, Key(ListK), 2) then None
    else if i == 0 then Some(t.args[0]) else Nth(t.args[1], i - 1)
  }

  /** `A is E` unifies A with the value of E; term_variables(T, L) unifies L with the variables of T. */
  lemma ComputedRuns<S>(fuel: nat, w: World<S>, o: Originals, strict: bool, sc: Scope, a: Term, b: Term, s: S)
    ensures Solve(fuel, w, o, strict, sc, Struct(Key(IsK), [a, b]), s) ==
            match w.compute(EvaluateC, s, b) case Err(ball) => Throws(ball) case Ok(x) => UnifyOnce(w, s, [a], [x])
    ensures Solve(fuel, w, o, strict, sc, Struct(Key(TermVariablesK), [a, b]), s) ==
            match w.compute(VariablesC, s, a) case Err(ball) => Throws(ball) case Ok(x) => UnifyOnce(w, s, [b], [x])
  {
    hide Solve;
    SolveComputed(fuel, w, o, strict, sc, Struct(Key(IsK), [a, b]), s);
    SolveComputed(fuel, w, o, strict, sc, Struct(Key(TermVariablesK), [a, b]), s);
  }

  /** A remote call gets the private clauses along only from local text, and what it calls back runs in the scope of that text.
      phrase/2-3 runs the goal that the grammar body is translated to, likewise. */
  lemma RemoteRuns<S>(fuel: nat, w: World<S>, o: Originals, strict: bool, sc: Scope, k: DeferredKind, args: seq<Term>, s: S)
    requires fuel > 0
    ensures k.RpcD? || k.PromiseD? || k.YieldD? ==>
              SolveDeferred(fuel, w, o, strict, k, sc, args, s) ==
              match w.remote(k, args, if sc == Local then o.local else [], s)
              case Reply(r) => FromLib(r)
              case Callback(g) => SolveCall(fuel - 1, w, o, strict, sc, g, s)
    ensures k.PhraseD? ==>
              SolveDeferred(fuel, w, o, strict, k, sc, args, s) ==
              match w.expand(s, args) case Err(b) => Throws(b) case Ok(g) => SolveCall(fuel - 1, w, o, strict, sc, g, s)
  {
    hide SolveCall, FromLib;
    if !IsGrouping(k) {
      SolveDeferredIs(fuel, w, o, strict, k, sc, args, s);
    }
  }

  /** Only variables of frame k occur. */
  predicate OfFrame(t: Term, k: nat) {
    match t
    case Var(f, _) => f == k
    case Aux(_, f, _) => f == k
    case Int(_) => true
    case Struct(_, args) => forall i :: 0 <= i < |args| ==> OfFrame(args[i], k)
  }

  /** The copy of a clause term that an activation works on is the term with other variables: renaming them back gives the term. */
  lemma {:induction false} CopyIsFaithful(t: Term, home: nat, k: nat)
    requires OfFrame(t, home)
    ensures OfFrame(Rename(t, k), k) && Rename(Rename(t, k), home) == t
  {
    if t.Struct? {
      var copy := RenameAll(t.args, k);
      forall i | 0 <= i < |t.args| ensures OfFrame(copy[i], k) && Rename(copy[i], home) == t.args[i] {
        CopyIsFaithful(t.args[i], home, k);
      }
      assert RenameAll(copy, home) == t.args;
    }
  }
}
