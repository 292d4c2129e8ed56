/** A query whose meaning the rewriter changes: setof(Y, X^(member(X,[1,2,3]), Y is X*X), L). Its rewritten goal has one more
    free variable, the result variable of is/2, and native grouping splits the answers by it. */
module Regrouping {
  import opened Terms
  import opened Policy
  import opened Runs
  import opened Runtime
  import opened Grouping
  import opened Interpreters
  import opened WideKeys
  import opened Herbrand
  import StandardPolicy

  const L := Var(0, 0)
  const X := Var(0, 1)
  const Y := Var(0, 2)
  const SQUARE := Struct(TIMES, [X, X])
  const NUMBERS := ListOf([Int(1), Int(2), Int(3)])
  const MEMBERS := Struct(MEMBER, [X, NUMBERS])
  const IS := Struct(Key(IsK), [Y, SQUARE])
  const BODY := Struct(Key(CommaK), [MEMBERS, IS])
  const QUERY := Struct(Key(SetofK), [Y, Struct(Key(CaretK), [X, BODY]), L])

  /** A policy that admits member/2 and =/2 as they are. */
  predicate Suitable(ns: Names) {
    && ns.owned == {} && ns.shared == {}
    && (MEMBER, 2) in ns.pure && (Key(EqualsK), 2) in ns.pure
    && (MEMBER, 2) !in ns.guarded && (Key(EqualsK), 2) !in ns.guarded
  }

  function Program(ns: Names): Originals {
    Originals(ns, [], [])
  }

  const NOTHING := Database({}, [])

  /** Any valuation solves the equations collected so far. */
  ghost predicate Free(s: Store) {
    forall a: Assignment :: s.holds(a)
  }

  lemma OpenedFree(s: Store, frames: nat)
    requires Free(s)
    ensures Free(Opened(s, frames))
  {
    forall a: Assignment ensures Opened(s, frames).holds(a) {
      assert s.holds(a) && AgreeBelow(s.next, a, a);
    }
  }

  // ---------- values of terms ----------

  lemma {:induction false} InstGround(a: Assignment, t: Term)
    requires Ground(t)
    ensures Inst(a, t) == t
  {
    if t.Struct? {
      InstAllGround(a, t.args);
    }
  }

  lemma {:induction false} InstAllGround(a: Assignment, ts: seq<Term>)
    requires forall i :: 0 <= i < |ts| ==> Ground(ts[i])
    ensures InstAll(a, ts) == ts
  {
    if ts != [] {
      InstGround(a, ts[0]);
      InstAllGround(a, ts[1..]);
    }
  }

  lemma {:induction false} ListGround(ts: seq<Term>)
    requires forall i :: 0 <= i < |ts| ==> Ground(ts[i])
    ensures Ground(ListOf(ts))
  {
    if ts != [] {
      ListGround(ts[1..]);
    }
  }

  lemma GroundValue(s: Store, t: Term)
    requires Free(s) && Ground(t)
    ensures Value(s, t) == t
  {
    var a: Assignment := (x: Term) => t;
    assert s.holds(a);
    forall b: Assignment | s.holds(b) ensures Inst(b, t) == t {
      InstGround(b, t);
    }
    DeterminedOnce(s, t, t);
  }

  lemma OpenValue(s: Store, t: Term, a: Assignment, b: Assignment)
    requires s.holds(a) && s.holds(b) && Inst(a, t) != Inst(b, t) && Open(s, t)
    ensures Value(s, t) == t
  {
    forall u ensures !Determined(s, t, u) {
    }
  }

  function Constantly(n: int): Assignment {
    (x: Term) => Int(n)
  }

  lemma FreeIsOpen(s: Store, t: Term)
    requires Free(s)
    ensures Open(s, t)
  {
    var a, b := Constantly(0), Constantly(1);
    assert s.holds(a) && s.holds(b);
    forall v | v in Occurrences(t) ensures !Bound(s, v) {
      assert !SameShape(a(v), b(v));
    }
  }

  lemma QueryValues(s: Store)
    requires Free(s)
    ensures Value(s, QUERY) == QUERY && Value(s, Y) == Y && Value(s, QUERY.args[1]) == QUERY.args[1]
  {
    var a, b := Constantly(0), Constantly(1);
    FreeIsOpen(s, Y);
    FreeIsOpen(s, QUERY);
    FreeIsOpen(s, QUERY.args[1]);
    OpenValue(s, Y, a, b);
    var goal := QUERY.args[1];
    assert InstAll(a, goal.args)[0] == Int(0) && InstAll(b, goal.args)[0] == Int(1);
    OpenValue(s, goal, a, b);
    assert InstAll(a, QUERY.args)[0] == Int(0) && InstAll(b, QUERY.args)[0] == Int(1);
    OpenValue(s, QUERY, a, b);
  }

  // ---------- the inner goal ----------

  lemma NumbersAre()
    ensures Ground(NUMBERS) && Elements(NUMBERS) == [Int(1), Int(2), Int(3)]
  {
    var ts := [Int(1), Int(2), Int(3)];
    ListGround(ts);
    assert ts[1..] == [Int(2), Int(3)] && ts[1..][1..] == [Int(3)] && ts[1..][1..][1..] == [];
    assert Elements(ListOf([])) == [];
    assert Elements(ListOf([Int(3)])) == [Int(3)];
    assert Elements(ListOf([Int(2), Int(3)])) == [Int(2), Int(3)];
  }

  /** The store in which member/2 has answered i. */
  ghost predicate Chosen(s: Store, i: int, m: Store) {
    m == Store((a: Assignment) => s.holds(a) && InstAll(a, [X]) == InstAll(a, [Int(i)]), s.next)
  }

  ghost function Choice(s: Store, i: int): Store {
    Store((a: Assignment) => s.holds(a) && InstAll(a, [X]) == InstAll(a, [Int(i)]), s.next)
  }

  lemma UnifyChoice(s: Store, i: int)
    requires Free(s)
    ensures Unify(s, [X], [Int(i)]) == Some(Choice(s, i))
  {
    var a := Constantly(i);
    assert s.holds(a) && InstAll(a, [X]) == InstAll(a, [Int(i)]);
  }

  lemma MemberAnswers(fuel: nat, s: Store)
    requires Free(s)
    ensures Builtin(fuel, Solving(), MEMBER, MEMBERS.args, s) == Run([Choice(s, 1), Choice(s, 2), Choice(s, 3)], Done)
  {
    hide Free, Value, ListOf, Elements;
    NumbersAre();
    GroundValue(s, NUMBERS);
    MembersChosen(s);
    assert Library(MEMBER, MEMBERS.args, s) == LibRun([Choice(s, 1), Choice(s, 2), Choice(s, 3)], Finished);
  }

  lemma MembersChosen(s: Store)
    requires Free(s)
    ensures Members(X, [Int(1), Int(2), Int(3)], s) == [Choice(s, 1), Choice(s, 2), Choice(s, 3)]
  {
    hide Unify, Choice, Free;
    UnifyChoice(s, 1);
    UnifyChoice(s, 2);
    UnifyChoice(s, 3);
    var ts := [Int(1), Int(2), Int(3)];
    assert ts[1..] == [Int(2), Int(3)] && ts[1..][1..] == [Int(3)] && ts[1..][1..][1..] == [];
    assert Members(X, [], s) == [];
    assert Members(X, [Int(3)], s) == [Choice(s, 3)];
    assert Members(X, [Int(2), Int(3)], s) == [Choice(s, 2), Choice(s, 3)];
  }

  /** X is i; everything else is the square of i. */
  function Squares(i: int): Assignment {
    (x: Term) => if x == X then Int(i) else Int(i * i)
  }

  lemma ChoiceSquare(s: Store, i: int)
    requires Free(s)
    ensures Herbrand.Compute(EvaluateC, Choice(s, i), SQUARE) == Ok(Int(i * i))
  {
    var m, u := Choice(s, i), Struct(TIMES, [Int(i), Int(i)]);
    InstOne(Squares(i), X);
    InstOne(Squares(i), Int(i));
    assert m.holds(Squares(i));
    forall a: Assignment | m.holds(a) ensures Inst(a, SQUARE) == u {
      assert InstAll(a, [X]) == [a(X)] && InstAll(a, [Int(i)]) == [Int(i)];
      assert InstAll(a, [X, X]) == [a(X), a(X)];
    }
    DeterminedOnce(m, SQUARE, u);
  }

  /** The result variable of is/2 at its place in the body, rewritten in a frame. */
  function Result(frame: nat): Term {
    Aux(ResultRole, frame, 3)
  }

  function SafeIs(frame: nat): Term {
    ThenUnify(Struct(Iso(Evaluate), [SQUARE, Result(frame)]), Y, Result(frame))
  }

  function SafeBody(frame: nat): Term {
    Struct(Key(CommaK), [MEMBERS, SafeIs(frame)])
  }

  lemma BodyRewritten(ns: Names, frame: nat)
    requires Suitable(ns)
    ensures Rewrite(ns, Local, BODY, frame, 1) == Ok(SafeBody(frame))
  {
    assert Rewrite(ns, Local, MEMBERS, frame, 2) == Ok(MEMBERS);
    assert Rewrite(ns, Local, IS, frame, 3) == Ok(SafeIs(frame));
    assert BODY.args[0 := MEMBERS][1 := SafeIs(frame)] == [MEMBERS, SafeIs(frame)];
  }

  /** What is left after is/2: Y and, natively, the result variable have the square. */
  ghost predicate Squared(s: Store, vs: seq<Term>, i: int) {
    (exists a: Assignment :: s.holds(a)) &&
    forall a: Assignment, j :: s.holds(a) && 0 <= j < |vs| ==> a(vs[j]) == Int(i * i)
  }

  lemma EvaluateStep(ns: Names, fuel: nat, s: Store, v: Term, i: int)
    requires Suitable(ns)
    requires Free(s)
    ensures Native(fuel, Solving(), Program(ns), NOTHING, Struct(Iso(Evaluate), [SQUARE, v]), Choice(s, i)) ==
            Runs.Once(SetUp(Choice(s, i), v, Int(i * i)))
  {
    ChoiceSquare(s, i);
  }

  lemma EqualStep(ns: Names, fuel: nat, y: Term, v: Term, s: Store, t: Store)
    requires Suitable(ns)
    requires Unify(s, [y], [v]) == Some(t)
    ensures Native(fuel, Solving(), Program(ns), NOTHING, Struct(Key(EqualsK), [y, v]), s) == Runs.Once(t)
  {
    hide Matching, NativeDeferred, Unify, ControlOf;
    EqualsIsOrdinary();
  }

  lemma EqualsIsOrdinary()
    ensures ControlOf(Key(EqualsK), 2).None?
  {
  }

  lemma ThenSteps(ns: Names, fuel: nat, goal: Term, y: Term, v: Term, r: Store, s: Store, t: Store)
    requires Suitable(ns)
    requires Native(fuel, Solving(), Program(ns), NOTHING, goal, r) == Runs.Once(s) && Unify(s, [y], [v]) == Some(t)
    ensures Native(fuel, Solving(), Program(ns), NOTHING, ThenUnify(goal, y, v), r) == Runs.Once(t)
  {
    EqualStep(ns, fuel, y, v, s, t);
    var eq := Struct(Key(EqualsK), [y, v]);
    OnceThenOnce(s, t, x => Native(fuel, Solving(), Program(ns), NOTHING, eq, x));
  }

  lemma SquareStores(s: Store, v: Term, i: int) returns (t: Store)
    requires Free(s) && v.Aux?
    ensures Unify(SetUp(Choice(s, i), v, Int(i * i)), [Y], [v]) == Some(t)
    ensures Squared(t, [Y, v], i)
  {
    var m, solution := Choice(s, i), Squares(i);
    var b := SetUp(m, v, Int(i * i));
    InstOne(solution, X);
    InstOne(solution, Int(i));
    InstOne(solution, Y);
    InstOne(solution, v);
    assert m.holds(solution) && AgreeExcept(v, solution, solution) && b.holds(solution);
    t := Unify(b, [Y], [v]).value;
    assert t.holds(solution);
    forall a: Assignment | t.holds(a) ensures a(Y) == Int(i * i) && a(v) == Int(i * i) {
      InstOne(a, Y);
      InstOne(a, v);
    }
  }

  lemma NativeIs(ns: Names, fuel: nat, s: Store, frame: nat, i: int) returns (t: Store)
    requires Suitable(ns)
    requires Free(s)
    ensures Native(fuel, Solving(), Program(ns), NOTHING, SafeIs(frame), Choice(s, i)) == Runs.Once(t)
    ensures Squared(t, [Y, Result(frame)], i)
  {
    t := SquareStores(s, Result(frame), i);
    EvaluateStep(ns, fuel, s, Result(frame), i);
    ThenSteps(ns, fuel, Struct(Iso(Evaluate), [SQUARE, Result(frame)]), Y, Result(frame), Choice(s, i),
              SetUp(Choice(s, i), Result(frame), Int(i * i)), t);
  }

  lemma OnceThenOnce(s: Store, t: Store, k: Store -> Run<Store>)
    requires k(s) == Runs.Once(t)
    ensures Bind(Runs.Once(s), k) == Runs.Once(t)
  {
    assert Bind(Run([], Done), k) == Run([], Done);
  }

  lemma PlainSquare(s: Store, i: int) returns (t: Store)
    requires Free(s)
    ensures Unify(Choice(s, i), [Y], [Int(i * i)]) == Some(t)
    ensures Squared(t, [Y], i)
  {
    var m, solution := Choice(s, i), Squares(i);
    InstOne(solution, X);
    InstOne(solution, Int(i));
    assert m.holds(solution) && InstAll(solution, [Y]) == InstAll(solution, [Int(i * i)]);
    t := Unify(m, [Y], [Int(i * i)]).value;
    assert t.holds(solution);
    forall a: Assignment | t.holds(a) ensures a(Y) == Int(i * i) {
      InstOne(a, Y);
    }
  }

  lemma SolveIs(ns: Names, fuel: nat, s: Store, strict: bool, i: int) returns (t: Store)
    requires Suitable(ns)
    requires Free(s)
    ensures Solve(fuel, Solving(), Program(ns), strict, Local, IS, Choice(s, i)) == Runs.Once(t)
    ensures Squared(t, [Y], i)
  {
    t := PlainSquare(s, i);
    ChoiceSquare(s, i);
    assert Runtime.Compute(Solving(), EvaluateC, SQUARE, Y, Choice(s, i)) == Runs.Once(t);
    assert ComputedOf(IS.functor, |IS.args|) == Some(EvaluateC);
  }

  lemma ThreeAnswers(a: Store, b: Store, c: Store, x: Store, y: Store, z: Store, k: Store -> Run<Store>)
    requires k(a) == Runs.Once(x) && k(b) == Runs.Once(y) && k(c) == Runs.Once(z)
    ensures Bind(Run([a, b, c], Done), k) == Run([x, y, z], Done)
  {
    assert Bind(Run([], Done), k) == Run([], Done);
    assert [c][1..] == [] && [b, c][1..] == [c] && [a, b, c][1..] == [b, c];
    assert Bind(Run([c], Done), k) == Run([z], Done);
    assert Bind(Run([b, c], Done), k) == Run([y, z], Done);
  }

  /** The answers of the inner goal, on either side. */
  ghost predicate Answered(r: Run<Store>, vs: seq<Term>) {
    r.ending == Done && |r.answers| == 3 && forall i :: 0 <= i < 3 ==> Squared(r.answers[i], vs, i + 1)
  }

  lemma NativeAnswers(ns: Names, fuel: nat, s: Store, frame: nat)
    requires Suitable(ns)
    requires Free(s)
    ensures Answered(Native(fuel, Solving(), Program(ns), NOTHING, SafeBody(frame), s), [Y, Result(frame)])
  {
    var x := NativeIs(ns, fuel, s, frame, 1);
    var y := NativeIs(ns, fuel, s, frame, 2);
    var z := NativeIs(ns, fuel, s, frame, 3);
    NativeMembers(ns, fuel, s);
    NativeThree(ns, fuel, s, MEMBERS, SafeIs(frame), Choice(s, 1), Choice(s, 2), Choice(s, 3), x, y, z);
    AnsweredBy(x, y, z, [Y, Result(frame)]);
  }

  lemma MemberIsOrdinary()
    ensures ControlOf(MEMBER, 2).None? && DeferredOf(MEMBER, 2).None? && ComputedOf(MEMBER, 2).None?
    ensures NativeControl(MEMBER, 2).None? && MEMBER != Computing(VariablesC)
    ensures |MEMBERS.args| == 2 && MEMBERS == Struct(MEMBER, MEMBERS.args)
  {
  }

  lemma NativeMembers(ns: Names, fuel: nat, s: Store)
    requires Suitable(ns)
    requires Free(s)
    ensures Native(fuel, Solving(), Program(ns), NOTHING, MEMBERS, s) == Run([Choice(s, 1), Choice(s, 2), Choice(s, 3)], Done)
  {
    hide Native, Builtin, Solving, Free, Choice;
    MemberIsOrdinary();
    MemberAnswers(fuel, s);
    PureNative(ns, fuel, s, MEMBER, MEMBERS.args);
  }

  lemma PureNative(ns: Names, fuel: nat, s: Store, f: Name, args: seq<Term>)
    requires Suitable(ns)
    requires (f, |args|) in ns.pure && NativeControl(f, |args|).None? && !f.Iso? && f != Computing(VariablesC)
    ensures Native(fuel, Solving(), Program(ns), NOTHING, Struct(f, args), s) == Builtin(fuel, Solving(), f, args, s)
  {
  }

  lemma PureSolve(ns: Names, fuel: nat, s: Store, strict: bool, f: Name, args: seq<Term>)
    requires Suitable(ns)
    requires (f, |args|) in ns.pure && (f, |args|) !in ns.guarded
    requires ControlOf(f, |args|).None? && DeferredOf(f, |args|).None? && ComputedOf(f, |args|).None?
    ensures Solve(fuel, Solving(), Program(ns), strict, Local, Struct(f, args), s) == Builtin(fuel, Solving(), f, args, s)
  {
  }

  lemma NativeThree(ns: Names, fuel: nat, s: Store, g: Term, h: Term, a: Store, b: Store, c: Store, x: Store, y: Store, z: Store)
    requires Suitable(ns)
    requires Native(fuel, Solving(), Program(ns), NOTHING, g, s) == Run([a, b, c], Done)
    requires Native(fuel, Solving(), Program(ns), NOTHING, h, a) == Runs.Once(x)
    requires Native(fuel, Solving(), Program(ns), NOTHING, h, b) == Runs.Once(y)
    requires Native(fuel, Solving(), Program(ns), NOTHING, h, c) == Runs.Once(z)
    ensures Native(fuel, Solving(), Program(ns), NOTHING, Struct(Key(CommaK), [g, h]), s) == Run([x, y, z], Done)
  {
    ThreeAnswers(a, b, c, x, y, z, t => Native(fuel, Solving(), Program(ns), NOTHING, h, t));
    NativeBoth(ns, fuel, s, g, h);
  }

  lemma NativeBoth(ns: Names, fuel: nat, s: Store, a: Term, b: Term)
    requires Suitable(ns)
    ensures Native(fuel, Solving(), Program(ns), NOTHING, Struct(Key(CommaK), [a, b]), s) ==
            Bind(Native(fuel, Solving(), Program(ns), NOTHING, a, s), t => Native(fuel, Solving(), Program(ns), NOTHING, b, t))
  {
  }

  lemma SolveAnswers(ns: Names, fuel: nat, s: Store, strict: bool)
    requires Suitable(ns)
    requires Free(s)
    ensures Answered(Solve(fuel, Solving(), Program(ns), strict, Local, BODY, s), [Y])
  {
    var x := SolveIs(ns, fuel, s, strict, 1);
    var y := SolveIs(ns, fuel, s, strict, 2);
    var z := SolveIs(ns, fuel, s, strict, 3);
    SolveMembers(ns, fuel, s, strict);
    SolveThree(ns, fuel, s, strict, MEMBERS, IS, Choice(s, 1), Choice(s, 2), Choice(s, 3), x, y, z);
    AnsweredBy(x, y, z, [Y]);
  }

  lemma AnsweredBy(x: Store, y: Store, z: Store, vs: seq<Term>)
    requires Squared(x, vs, 1) && Squared(y, vs, 2) && Squared(z, vs, 3)
    ensures Answered(Run([x, y, z], Done), vs)
  {
  }

  lemma SolveThree(ns: Names, fuel: nat, s: Store, strict: bool, g: Term, h: Term, a: Store, b: Store, c: Store, x: Store, y: Store, z: Store)
    requires Suitable(ns)
    requires Solve(fuel, Solving(), Program(ns), strict, Local, g, s) == Run([a, b, c], Done)
    requires Solve(fuel, Solving(), Program(ns), strict, Local, h, a) == Runs.Once(x)
    requires Solve(fuel, Solving(), Program(ns), strict, Local, h, b) == Runs.Once(y)
    requires Solve(fuel, Solving(), Program(ns), strict, Local, h, c) == Runs.Once(z)
    ensures Solve(fuel, Solving(), Program(ns), strict, Local, Struct(Key(CommaK), [g, h]), s) == Run([x, y, z], Done)
  {
    ThreeAnswers(a, b, c, x, y, z, t => Solve(fuel, Solving(), Program(ns), strict, Local, h, t));
    SolveBoth(ns, fuel, s, strict, g, h);
  }

  lemma SolveMembers(ns: Names, fuel: nat, s: Store, strict: bool)
    requires Suitable(ns)
    requires Free(s)
    ensures Solve(fuel, Solving(), Program(ns), strict, Local, MEMBERS, s) == Run([Choice(s, 1), Choice(s, 2), Choice(s, 3)], Done)
  {
    hide Solve, Builtin, Solving, Free, Choice;
    MemberIsOrdinary();
    MemberAnswers(fuel, s);
    PureSolve(ns, fuel, s, strict, MEMBER, MEMBERS.args);
  }

  lemma SolveBoth(ns: Names, fuel: nat, s: Store, strict: bool, a: Term, b: Term)
    requires Suitable(ns)
    ensures Solve(fuel, Solving(), Program(ns), strict, Local, Struct(Key(CommaK), [a, b]), s) ==
            Bind(Solve(fuel, Solving(), Program(ns), strict, Local, a, s), t => Solve(fuel, Solving(), Program(ns), strict, Local, b, t))
  {
  }

  // ---------- grouping ----------

  function Several(n: int, count: nat): (r: seq<Term>)
    ensures |r| == count
  {
    seq(count, _ => Int(n))
  }

  lemma SquaredValue(s: Store, vs: seq<Term>, i: int)
    requires Squared(s, vs, i) && forall j :: 0 <= j < |vs| ==> vs[j].Variable()
    ensures Value(s, Tuple(vs)) == Tuple(Several(i * i, |vs|))
  {
    forall a: Assignment | s.holds(a) ensures Inst(a, Tuple(vs)) == Tuple(Several(i * i, |vs|)) {
      assert InstAll(a, vs) == Several(i * i, |vs|);
    }
    DeterminedOnce(s, Tuple(vs), Tuple(Several(i * i, |vs|)));
  }

  lemma SeveralRenamed(n: int, count: nat, frame: nat)
    ensures Rename(Tuple(Several(n, count)), frame) == Tuple(Several(n, count))
  {
    assert RenameAll(Several(n, count), frame) == Several(n, count);
  }

  lemma CopyIs(s: Store, vs: seq<Term>, i: int, frame: nat)
    requires Squared(s, vs, i) && forall j :: 0 <= j < |vs| ==> vs[j].Variable()
    ensures Rename(Value(s, Tuple(vs)), frame) == Tuple(Several(i * i, |vs|))
  {
    SquaredValue(s, vs, i);
    SeveralRenamed(i * i, |vs|, frame);
  }

  lemma CopiesAre(r: Run<Store>, vs: seq<Term>, frame: nat)
    requires Answered(r, vs) && forall j :: 0 <= j < |vs| ==> vs[j].Variable()
    ensures Copies(Tuple(vs), r.answers, frame) == [Tuple(Several(1, |vs|)), Tuple(Several(4, |vs|)), Tuple(Several(9, |vs|))]
  {
    var a := r.answers;
    CopyIs(a[0], vs, 1, frame);
    CopyIs(a[1], vs, 2, frame + 1);
    CopyIs(a[2], vs, 3, frame + 2);
    assert a[1..][1..][1..] == [];
    assert Copies(Tuple(vs), a[1..][1..][1..], frame + 3) == [];
    assert Copies(Tuple(vs), a[1..][1..], frame + 2) == [Tuple(Several(9, |vs|))];
    assert Copies(Tuple(vs), a[1..], frame + 1) == [Tuple(Several(4, |vs|)), Tuple(Several(9, |vs|))];
  }

  /** The solutions that grouping sees: the squares, each with `keys` copies of itself as its key. */
  function Found(n: int, keys: nat): Solution {
    Solution(Several(n, keys), Int(n))
  }

  lemma SolutionsAre(count: nat)
    requires count >= 1
    ensures Solutions([Tuple(Several(1, count)), Tuple(Several(4, count)), Tuple(Several(9, count))]) ==
            [Found(1, count - 1), Found(4, count - 1), Found(9, count - 1)]
  {
    forall n: int ensures SolutionOf(Tuple(Several(n, count))) == Found(n, count - 1) {
      assert Several(n, count)[1..] == Several(n, count - 1);
    }
    var c := [Tuple(Several(1, count)), Tuple(Several(4, count)), Tuple(Several(9, count))];
    assert c[1..][1..][1..] == [] && c[1..][1..] == [c[2]] && c[1..] == [c[1], c[2]];
    assert Solutions([]) == [];
    assert Solutions([c[2]]) == [Found(9, count - 1)];
    assert Solutions([c[1], c[2]]) == [Found(4, count - 1), Found(9, count - 1)];
  }

  lemma SortedAlready(keys: nat)
    requires keys <= 1
    ensures var xs := [Found(1, keys), Found(4, keys), Found(9, keys)]; SortByKey(Solving(), xs) == xs
  {
    var w, a, b, c := Solving(), Found(1, keys), Found(4, keys), Found(9, keys);
    assert [a, b, c][1..] == [b, c] && [b, c][1..] == [c] && [c][1..] == [];
    assert !Before(Tuple(b.key), Tuple(a.key)) && !Before(Tuple(c.key), Tuple(b.key));
    assert SortByKey(w, []) == [];
    assert SortByKey(w, [c]) == [c];
    assert SortByKey(w, [b, c]) == [b, c];
  }

  /** The result list is n, ..., and nothing else. */
  ghost predicate Lists(s: Store, numbers: seq<Term>) {
    Determined(s, L, ListOf(numbers))
  }

  lemma GroupAnswer(s: Store, free: seq<Term>, n: int, numbers: seq<Term>) returns (t: Store)
    requires Free(s) && |free| <= 1 && (forall j :: 0 <= j < |free| ==> free[j].Aux?)
    requires forall i :: 0 <= i < |numbers| ==> Ground(numbers[i])
    ensures UnifyOnce(Solving(), s, free + [L], Several(n, |free|) + [ListOf(numbers)]) == Runs.Once(t)
    ensures Lists(t, numbers)
  {
    var list, xs, ys := ListOf(numbers), free + [L], Several(n, |free|) + [ListOf(numbers)];
    var a: Assignment := (x: Term) => if x == L then list else Int(n);
    ListGround(numbers);
    forall b: Assignment ensures InstAll(b, ys) == ys && InstAll(b, xs)[|free|] == b(L) {
      InstAllGround(b, ys);
    }
    assert InstAll(a, xs) == ys;
    assert s.holds(a);
    t := Unify(s, xs, ys).value;
    assert t.holds(a);
    forall b: Assignment | t.holds(b) ensures Inst(b, L) == list {
      assert InstAll(b, xs)[|free|] == ys[|free|];
    }
  }

  /** A solution that is its own key. */
  function Own(n: int): Solution {
    Solution([Int(n)], Int(n))
  }

  lemma FoundIsOwn(n: int)
    ensures Found(n, 1) == Own(n)
  {
  }

  /** A solution that no other one shares its key with is a group of its own. */
  lemma GroupStep(s: Store, v: Term, n: int, others: seq<Solution>) returns (t: Store)
    requires Free(s) && v.Aux?
    requires forall i :: 0 <= i < |others| ==> others[i].key != [Int(n)]
    ensures Groups(Solving(), SetofD, [v], L, s, [Own(n)] + others) == [t] + Groups(Solving(), SetofD, [v], L, s, others)
    ensures Lists(t, [Int(n)])
  {
    hide Solving, Free, Lists, ListOf, Sharing, Listed;
    var x := Own(n);
    t := GroupAnswer(s, [v], n, [Int(n)]);
    SharingNone(x, others);
    Singleton(x);
    assert Several(n, 1) == [Int(n)];
    assert ([x] + others)[1..] == others && [x] + [] == [x];
    assert [v] + [L] == [v, L];
  }

  lemma {:induction false} SharingNone(x: Solution, others: seq<Solution>)
    requires forall i :: 0 <= i < |others| ==> others[i].key != x.key
    ensures Sharing(Solving(), x, others, true) == [] && Sharing(Solving(), x, others, false) == others
  {
    if others != [] {
      assert Tuple(others[0].key).args != Tuple(x.key).args;
      SharingNone(x, others[1..]);
    }
  }

  lemma NoGroups(s: Store, v: Term)
    ensures Groups(Solving(), SetofD, [v], L, s, []) == []
  {
  }

  lemma TwoGroups(s: Store, v: Term) returns (y: Store, z: Store)
    requires Free(s) && v.Aux?
    ensures Groups(Solving(), SetofD, [v], L, s, [Own(4)] + [Own(9)]) == [y, z]
    ensures Lists(y, [Int(4)]) && Lists(z, [Int(9)])
  {
    hide Solving, Free, Lists, Groups;
    NoGroups(s, v);
    y := GroupStep(s, v, 4, [Own(9)]);
    z := GroupStep(s, v, 9, []);
    assert [Own(9)] + [] == [Own(9)];
  }

  lemma ThreeGroups(s: Store, v: Term) returns (x: Store, y: Store, z: Store)
    requires Free(s) && v.Aux?
    ensures Groups(Solving(), SetofD, [v], L, s, [Own(1)] + ([Own(4)] + [Own(9)])) == [x, y, z]
    ensures Lists(x, [Int(1)]) && Lists(y, [Int(4)]) && Lists(z, [Int(9)])
  {
    hide Solving, Free, Lists, Groups;
    y, z := TwoGroups(s, v);
    x := GroupStep(s, v, 1, [Own(4)] + [Own(9)]);
  }

  /** One key each: three groups. */
  lemma SplitGroups(s: Store, v: Term) returns (x: Store, y: Store, z: Store)
    requires Free(s) && v.Aux?
    ensures Groups(Solving(), SetofD, [v], L, s, [Found(1, 1), Found(4, 1), Found(9, 1)]) == [x, y, z]
    ensures Lists(x, [Int(1)]) && Lists(y, [Int(4)]) && Lists(z, [Int(9)])
  {
    FoundIsOwn(1);
    FoundIsOwn(4);
    FoundIsOwn(9);
    assert [Found(1, 1), Found(4, 1), Found(9, 1)] == [Own(1)] + ([Own(4)] + [Own(9)]);
    x, y, z := ThreeGroups(s, v);
  }

  lemma Singleton(x: Solution)
    ensures Listed(Solving(), SetofD, [x]) == ListOf([x.value]) && Listed(Solving(), SetofD, [x] + []) == ListOf([x.value])
  {
    assert [x][1..] == [] && [x] + [] == [x];
    assert Values([]) == [] && Values([x]) == [x.value];
    assert SortOnce(Solving(), []) == [];
    assert [x.value][1..] == [];
  }

  /** No key: one group. */
  lemma OneGroup(s: Store) returns (x: Store)
    requires Free(s)
    ensures Groups(Solving(), SetofD, [], L, s, [Found(1, 0), Found(4, 0), Found(9, 0)]) == [x]
    ensures Lists(x, [Int(1), Int(4), Int(9)])
  {
    hide Solving, Free, Lists, ListOf, Sharing, SortOnce;
    var w, a, b, c := Solving(), Found(1, 0), Found(4, 0), Found(9, 0);
    x := GroupAnswer(s, [], 1, [Int(1), Int(4), Int(9)]);
    assert [a, b, c][1..] == [b, c];
    SharedByAll();
    assert [a] + [b, c] == [a, b, c];
    FoundValues();
    SortedSquares();
    assert Several(1, 0) + [ListOf([Int(1), Int(4), Int(9)])] == a.key + [ListOf([Int(1), Int(4), Int(9)])];
    assert Groups(w, SetofD, [], L, s, []) == [];
  }

  lemma SharedByAll()
    ensures Sharing(Solving(), Found(1, 0), [Found(4, 0), Found(9, 0)], true) == [Found(4, 0), Found(9, 0)]
    ensures Sharing(Solving(), Found(1, 0), [Found(4, 0), Found(9, 0)], false) == []
  {
    var w, a, b, c := Solving(), Found(1, 0), Found(4, 0), Found(9, 0);
    assert [b, c][1..] == [c] && [c][1..] == [];
    assert Sharing(w, a, [], true) == [] && Sharing(w, a, [c], true) == [c];
    assert Sharing(w, a, [], false) == [] && Sharing(w, a, [c], false) == [];
  }

  lemma FoundValues()
    ensures Values([Found(1, 0), Found(4, 0), Found(9, 0)]) == [Int(1), Int(4), Int(9)]
  {
    var a, b, c := Found(1, 0), Found(4, 0), Found(9, 0);
    assert [a, b, c][1..] == [b, c] && [b, c][1..] == [c] && [c][1..] == [];
    assert Values([]) == [] && Values([c]) == [Int(9)] && Values([b, c]) == [Int(4), Int(9)];
  }

  lemma SortedSquares()
    ensures SortOnce(Solving(), [Int(1), Int(4), Int(9)]) == [Int(1), Int(4), Int(9)]
  {
    var w, a, b, c := Solving(), Int(1), Int(4), Int(9);
    assert [a, b, c][1..] == [b, c] && [b, c][1..] == [c] && [c][1..] == [];
    assert SortOnce(w, []) == [];
    assert SortOnce(w, [c]) == [c];
    assert SortOnce(w, [b, c]) == [b, c];
  }

  // ---------- the two meanings ----------

  lemma FreeAre(frame: nat)
    ensures FreeVariables(Y, [X], BODY) == []
    ensures FreeVariables(Y, [X], SafeBody(frame)) == [Result(frame)]
  {
    OccurrencesAre(frame);
    OccurrencesOne(X);
    UnboundSource(X, Y);
    UnboundNative(X, Y, Result(frame));
  }

  lemma OccurrencesOne(x: Term)
    requires x.Variable()
    ensures OccurrencesAll([x]) == [x]
  {
    assert [x][1..] == [];
  }

  lemma UnboundSource(x: Term, y: Term)
    ensures Unbound([x] + [y, x, x], [y] + [x]) == []
  {
    UnboundStep(x, [y, x, x], [y] + [x]);
    assert [y, x, x] == [y] + [x, x] && [x, x] == [x] + [x] && [x] == [x] + [];
    UnboundStep(y, [x, x], [y] + [x]);
    UnboundStep(x, [x], [y] + [x]);
    UnboundStep(x, [], [y] + [x]);
  }

  lemma UnboundNative(x: Term, y: Term, v: Term)
    requires v != x && v != y
    ensures Unbound([x] + [x, x, v, y, v], [y] + [x]) == [v]
  {
    var bound, r5 := [y] + [x], [v] + [];
    var r4 := [y] + r5;
    var r3 := [v] + r4;
    var r2 := [x] + r3;
    var r1 := [x] + r2;
    assert [x] + [x, x, v, y, v] == [x] + r1;
    FiveSteps(x, y, v, r1, r2, r3, r4, r5);
  }

  lemma FiveSteps(x: Term, y: Term, v: Term, r1: seq<Term>, r2: seq<Term>, r3: seq<Term>, r4: seq<Term>, r5: seq<Term>)
    requires v != x && v != y
    requires r1 == [x] + r2 && r2 == [x] + r3 && r3 == [v] + r4 && r4 == [y] + r5 && r5 == [v] + []
    ensures Unbound([x] + r1, [y] + [x]) == [v]
  {
    hide Unbound;
    var bound := [v] + ([y] + [x]);
    UnboundStep(x, r1, [y] + [x]);
    UnboundStep(x, r2, [y] + [x]);
    UnboundStep(x, r3, [y] + [x]);
    UnboundStep(v, r4, [y] + [x]);
    UnboundStep(y, r5, bound);
    UnboundStep(v, [], bound);
    UnboundNothing(bound);
  }

  lemma UnboundNothing(bound: seq<Term>)
    ensures Unbound([], bound) == []
  {
  }

  lemma UnboundStep(x: Term, vs: seq<Term>, bound: seq<Term>)
    ensures Unbound([x] + vs, bound) == if x in bound then Unbound(vs, bound) else [x] + Unbound(vs, [x] + bound)
  {
    assert ([x] + vs)[1..] == vs;
  }

  lemma OccurrencesTwo(f: Name, a: Term, b: Term)
    ensures Occurrences(Struct(f, [a, b])) == Occurrences(a) + Occurrences(b)
  {
    assert [a, b][1..] == [b] && [b][1..] == [];
    assert OccurrencesAll([b]) == Occurrences(b) + OccurrencesAll([]);
  }

  lemma {:induction false} GroundOccurrences(t: Term)
    requires Ground(t)
    ensures Occurrences(t) == []
  {
    if t.Struct? {
      GroundOccurrencesAll(t.args);
    }
  }

  lemma {:induction false} GroundOccurrencesAll(ts: seq<Term>)
    requires forall i :: 0 <= i < |ts| ==> Ground(ts[i])
    ensures OccurrencesAll(ts) == []
  {
    if ts != [] {
      GroundOccurrences(ts[0]);
      GroundOccurrencesAll(ts[1..]);
    }
  }

  lemma OccurrencesAre(frame: nat)
    ensures var v := Result(frame);
            Occurrences(SafeBody(frame)) == [X] + [X, X, v, Y, v] && Occurrences(BODY) == [X] + [Y, X, X]
  {
    var v := Result(frame);
    NumbersAre();
    GroundOccurrences(NUMBERS);
    OccurrencesIn(X, Y, v, NUMBERS);
  }

  lemma OccurrencesIn(x: Term, y: Term, v: Term, list: Term)
    requires x.Variable() && y.Variable() && v.Variable() && Occurrences(list) == []
    ensures var square := Struct(TIMES, [x, x]);
            var members, native := Struct(MEMBER, [x, list]), ThenUnify(Struct(Iso(Evaluate), [square, v]), y, v);
            && Occurrences(Struct(Key(CommaK), [members, native])) == [x] + [x, x, v, y, v]
            && Occurrences(Struct(Key(CommaK), [members, Struct(Key(IsK), [y, square])])) == [x] + [y, x, x]
  {
    var square := Struct(TIMES, [x, x]);
    var members, evaluate, equal := Struct(MEMBER, [x, list]), Struct(Iso(Evaluate), [square, v]), Struct(Key(EqualsK), [y, v]);
    OccurrencesTwo(MEMBER, x, list);
    OccurrencesTwo(TIMES, x, x);
    OccurrencesTwo(Iso(Evaluate), square, v);
    OccurrencesTwo(Key(EqualsK), y, v);
    OccurrencesTwo(Key(CommaK), evaluate, equal);
    OccurrencesTwo(Key(CommaK), members, ThenUnify(evaluate, y, v));
    OccurrencesTwo(Key(IsK), y, square);
    OccurrencesTwo(Key(CommaK), members, Struct(Key(IsK), [y, square]));
  }

  /** What the solutions of the inner goal look like to grouping. */
  lemma GroupInput(s: Store, r: Run<Store>, vs: seq<Term>, keys: nat)
    requires Answered(r, vs) && |vs| == keys + 1 && keys <= 1 && forall j :: 0 <= j < |vs| ==> vs[j].Variable()
    ensures SortByKey(Solving(), Solutions(Copies(Tuple(vs), r.answers, s.next))) == [Found(1, keys), Found(4, keys), Found(9, keys)]
  {
    CopiesAre(r, vs, s.next);
    SolutionsAre(keys + 1);
    SortedAlready(keys);
  }

  lemma GroupRunIs(s: Store, r: Run<Store>, free: seq<Term>)
    requires r.ending == Done
    ensures GroupRun(Solving(), SetofD, Y, free, L, s, r) ==
            Run(Groups(Solving(), SetofD, free, L, Opened(s, |r.answers|),
                       SortByKey(Solving(), Solutions(Copies(Tuple([Y] + free), r.answers, s.next)))), Done)
  {
  }

  lemma SplitRun(s: Store, r: Run<Store>, v: Term) returns (x: Store, y: Store, z: Store)
    requires Free(s) && v.Aux? && Answered(r, [Y, v])
    ensures GroupRun(Solving(), SetofD, Y, [v], L, s, r) == Run([x, y, z], Done)
    ensures Lists(x, [Int(1)]) && Lists(y, [Int(4)]) && Lists(z, [Int(9)])
  {
    OpenedFree(s, 3);
    assert [Y] + [v] == [Y, v];
    GroupInput(s, r, [Y, v], 1);
    GroupRunIs(s, r, [v]);
    x, y, z := SplitGroups(Opened(s, 3), v);
  }

  lemma WholeRun(s: Store, r: Run<Store>) returns (x: Store)
    requires Free(s) && Answered(r, [Y])
    ensures GroupRun(Solving(), SetofD, Y, [], L, s, r) == Run([x], Done)
    ensures Lists(x, [Int(1), Int(4), Int(9)])
  {
    OpenedFree(s, 3);
    assert [Y] + [] == [Y];
    GroupInput(s, r, [Y], 0);
    GroupRunIs(s, r, []);
    x := OneGroup(Opened(s, 3));
  }

  lemma QueryParts(ns: Names)
    requires Suitable(ns)
    ensures |QUERY.args| == 3 && QUERY.args[0] == Y && QUERY.args[2] == L
    ensures Quantified(QUERY.args[1]) == [X] && StripCaret(QUERY.args[1]) == BODY
    ensures FirstForbidden(ns, Local, BODY) == None && Adds(BODY)
  {
    hide Suitable, FirstForbidden;
    assert Quantified(BODY) == [];
    MemberIsOrdinary();
    NoneForbidden(ns);
    assert Adds(IS);
  }

  lemma NoneForbidden(ns: Names)
    requires Suitable(ns)
    ensures FirstForbidden(ns, Local, BODY) == None
  {
    MemberIsOrdinary();
    assert FirstForbidden(ns, Local, MEMBERS) == None && FirstForbidden(ns, Local, IS) == None;
  }

  lemma NativeGrouped(ns: Names, fuel: nat, s: Store) returns (x: Store, y: Store, z: Store)
    requires Suitable(ns)
    requires Free(s)
    ensures NativeGroup(fuel, Solving(), Program(ns), NOTHING, SetofD, Local, QUERY.args, s) == Run([x, y, z], Done)
    ensures Lists(x, [Int(1)]) && Lists(y, [Int(4)]) && Lists(z, [Int(9)])
  {
    var frame, s1 := s.next, Opened(s, 1);
    QueryValues(s);
    QueryParts(ns);
    OpenedFree(s, 1);
    BodyRewritten(ns, frame);
    FreeAre(frame);
    NativeAnswers(ns, fuel, s1, frame);
    x, y, z := SplitRun(s1, Barrier(Native(fuel, Solving(), Program(ns), NOTHING, SafeBody(frame), s1)), Result(frame));
  }

  lemma SolveGrouped(ns: Names, fuel: nat, s: Store) returns (x: Store)
    requires Suitable(ns)
    requires Free(s)
    ensures SolveGroup(fuel, Solving(), Program(ns), false, SetofD, Local, QUERY.args, s) == Run([x], Done)
    ensures Lists(x, [Int(1), Int(4), Int(9)])
  {
    var s1 := Opened(s, 1);
    QueryValues(s);
    QueryParts(ns);
    OpenedFree(s, 1);
    FreeAre(0);
    SolveAnswers(ns, fuel, s1, false);
    x := WholeRun(s1, Barrier(Solve(fuel, Solving(), Program(ns), false, Local, BODY, s1)));
  }

  lemma StrictStops(ns: Names, fuel: nat, s: Store)
    requires Suitable(ns)
    requires Free(s)
    ensures SolveGroup(fuel, Solving(), Program(ns), true, SetofD, Local, QUERY.args, s) == Run([], Regrouped)
  {
    QueryValues(s);
    QueryParts(ns);
  }

  const START := Store((a: Assignment) => true, 1)

  lemma QueryIsGrouping()
    ensures DeferredOf(Key(SetofK), 3) == Some(SetofD) && ControlOf(Key(SetofK), 3).None?
    ensures QUERY == Struct(Key(SetofK), QUERY.args) && |QUERY.args| == 3 && !QUERY.Variable()
  {
  }

  lemma GroupingSolves(fuel: nat, o: Originals, strict: bool, args: seq<Term>, s: Store)
    requires |args| == 3 && DeferredOf(Key(SetofK), 3) == Some(SetofD) && ControlOf(Key(SetofK), 3).None?
    ensures Solve(fuel + 1, Solving(), o, strict, Local, Struct(Key(SetofK), args), s) ==
            SolveGroup(fuel, Solving(), o, strict, SetofD, Local, args, s)
    ensures FirstForbidden(o.names, Local, Struct(Key(SetofK), args)) == None
  {
    hide Solving, SolveGroup, RunDeferred;
  }

  lemma GroupingRuns(fuel: nat, o: Originals, db: Database, args: seq<Term>, s: Store, frame: nat)
    requires |args| == 3 && DeferredOf(Key(SetofK), 3) == Some(SetofD) && ControlOf(Key(SetofK), 3).None?
    ensures Rewrite(o.names, Local, Struct(Key(SetofK), args), frame, 1) == Ok(Defer(SetofD, Local, args))
    ensures Native(fuel + 1, Solving(), o, db, Defer(SetofD, Local, args), s) ==
            NativeGroup(fuel, Solving(), o, db, SetofD, Local, args, s)
  {
    hide Solving, NativeGroup, RunDeferred;
  }

  lemma StartFrame()
    ensures Solving().newFrame(START) == (1, Opened(START, 1)) && Solving().resolve(START, QUERY) == Some(Value(START, QUERY))
  {
  }

  lemma QuerySolves(ns: Names, strict: bool)
    requires Suitable(ns)
    ensures SolveCall(2, Solving(), Program(ns), strict, Local, QUERY, START) ==
            Barrier(SolveGroup(1, Solving(), Program(ns), strict, SetofD, Local, QUERY.args, Opened(START, 1)))
  {
    hide Solving, Solve, SolveGroup, FirstForbidden, Opened;
    QueryValues(START);
    QueryIsGrouping();
    StartFrame();
    GroupingSolves(1, Program(ns), strict, QUERY.args, Opened(START, 1));
  }

  lemma QueryRuns(ns: Names)
    requires Suitable(ns)
    ensures NativeCall(2, Solving(), Program(ns), NOTHING, Local, QUERY, START) ==
            Barrier(NativeGroup(1, Solving(), Program(ns), NOTHING, SetofD, Local, QUERY.args, Opened(START, 1)))
  {
    hide Solving, Native, NativeGroup, Rewrite, Opened;
    QueryValues(START);
    QueryIsGrouping();
    StartFrame();
    GroupingRuns(1, Program(ns), NOTHING, QUERY.args, Opened(START, 1), 1);
  }

  /** The query has one answer, L = [1,4,9]. The worker gives three: [1], [4] and [9]. The strict reference stops. */
  lemma SplitsUnder(ns: Names) returns (whole: Store, x: Store, y: Store, z: Store)
    requires Suitable(ns)
    ensures SolveCall(2, Solving(), Program(ns), false, Local, QUERY, START) == Run([whole], Done)
    ensures Lists(whole, [Int(1), Int(4), Int(9)])
    ensures NativeCall(2, Solving(), Program(ns), NOTHING, Local, QUERY, START) == Run([x, y, z], Done)
    ensures Lists(x, [Int(1)]) && Lists(y, [Int(4)]) && Lists(z, [Int(9)])
    ensures SolveCall(2, Solving(), Program(ns), true, Local, QUERY, START).ending == Regrouped
  {
    QuerySolves(ns, false);
    QuerySolves(ns, true);
    QueryRuns(ns);
    OpenedFree(START, 1);
    whole := SolveGrouped(ns, 1, Opened(START, 1));
    x, y, z := NativeGrouped(ns, 1, Opened(START, 1));
    StrictStops(ns, 1, Opened(START, 1));
  }

  lemma DeployedIsSuitable()
    ensures Suitable(StandardPolicy.TABLES)
  {
    assert (MEMBER, 2) in StandardPolicy.CORE && (Key(EqualsK), 2) in StandardPolicy.CORE;
  }

  /** So it is under the deployed policy. */
  lemma SetofSplits() returns (whole: Store, x: Store, y: Store, z: Store)
    ensures var o := Program(StandardPolicy.TABLES);
            && SolveCall(2, Solving(), o, false, Local, QUERY, START) == Run([whole], Done)
            && NativeCall(2, Solving(), o, NOTHING, Local, QUERY, START) == Run([x, y, z], Done)
            && SolveCall(2, Solving(), o, true, Local, QUERY, START).ending == Regrouped
    ensures Lists(whole, [Int(1), Int(4), Int(9)])
    ensures Lists(x, [Int(1)]) && Lists(y, [Int(4)]) && Lists(z, [Int(9)])
  {
    DeployedIsSuitable();
    whole, x, y, z := SplitsUnder(StandardPolicy.TABLES);
  }

  /** An added key can also reorder the groups, even where it splits none: each of the two keys below has one solution, with
      the added value in front. */
  lemma AddedKeysReorder(x: Term, y: Term)
    ensures SortByKey(Solving(), [Solution([Int(1)], x), Solution([Int(2)], y)]) == [Solution([Int(1)], x), Solution([Int(2)], y)]
    ensures SortByKey(Solving(), [Solution([Int(2), Int(1)], x), Solution([Int(1), Int(2)], y)]) ==
            [Solution([Int(1), Int(2)], y), Solution([Int(2), Int(1)], x)]
  {
    SortsTwo(Solution([Int(1)], x), Solution([Int(2)], y));
    SortsTwo(Solution([Int(2), Int(1)], x), Solution([Int(1), Int(2)], y));
  }

  lemma SortsTwo(a: Solution, b: Solution)
    ensures SortByKey(Solving(), [a, b]) == if Before(Tuple(b.key), Tuple(a.key)) then [b, a] else [a, b]
  {
    assert [a, b][1..] == [b] && [b][1..] == [];
    assert SortByKey(Solving(), []) == [];
    assert InsertByKey(Solving(), a, []) == [a] && InsertByKey(Solving(), b, []) == [b];
    assert SortByKey(Solving(), [b]) == [b];
    assert [b] + [a] == [b, a] && [a] + [b] == [a, b] && [b][1..] == [];
  }
}
