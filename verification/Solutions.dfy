/** There is a runtime in which lists are taken apart as the order of calls requires: the one whose stores are sets of
    solutions. Terms are equal in a store if all its solutions make them so, a store has grown if each of its solutions is
    one of the earlier store on the variables that this one has, and a list that is taken apart sets the variables of a new
    frame to the parts of its cell. */
module Solutions {
  import opened Terms
  import opened Policy
  import opened Runs
  import opened Runtime
  import opened Grouping
  import opened Simulation
  import opened WideKeys
  import opened Herbrand
  import opened Meanings
  import Closures

  ghost predicate Possible(s: Store) {
    exists a: Assignment :: s.holds(a)
  }

  ghost predicate Equals(s: Store, x: Term, y: Term) {
    Within(s.next, x) && Within(s.next, y) && Equal(s, x, y)
  }

  ghost predicate Free(s: Store, x: Term) {
    forall a: Assignment, u: Term :: s.holds(a) ==> s.holds(Updated(a, x, u))
  }

  /** Up to the variables of frames before k, the solution a is one of t. */
  ghost predicate SolvesBelow(k: nat, t: Store, a: Assignment) {
    exists b: Assignment :: t.holds(b) && AgreeBelow(k, a, b)
  }

  ghost predicate Grows(s: Store, t: Store) {
    && s.next <= t.next && (Possible(s) ==> Possible(t))
    && forall a: Assignment :: t.holds(a) ==> SolvesBelow(s.next, s, a)
  }

  ghost predicate Keeps(s: Store, t: Store) {
    Grows(s, t) && forall a: Assignment :: s.holds(a) ==> SolvesBelow(s.next, t, a)
  }

  ghost function Solved(): Meaning<Store> {
    Meaning(
      possible := (s: Store) => Possible(s),
      equal := (s: Store, x: Term, y: Term) => Equals(s, x, y),
      free := (s: Store, x: Term) => Free(s, x),
      grown := (s: Store, t: Store) => Grows(s, t),
      kept := (s: Store, t: Store) => Keeps(s, t))
  }

  // ---------- growth ----------

  lemma InItself(k: nat, t: Store, a: Assignment)
    requires t.holds(a)
    ensures SolvesBelow(k, t, a)
  {
    assert AgreeBelow(k, a, a);
  }

  lemma GrowsItself(s: Store)
    ensures Grows(s, s) && Keeps(s, s)
  {
    forall a: Assignment | s.holds(a) ensures SolvesBelow(s.next, s, a) {
      InItself(s.next, s, a);
    }
  }

  lemma Below(k: nat, t: Store, a: Assignment) returns (b: Assignment)
    requires SolvesBelow(k, t, a)
    ensures t.holds(b) && AgreeBelow(k, a, b)
  {
    b :| t.holds(b) && AgreeBelow(k, a, b);
  }

  lemma GrowsTwice(s: Store, t: Store, u: Store)
    requires Grows(s, t) && Grows(t, u)
    ensures Grows(s, u)
  {
    forall a: Assignment | u.holds(a) ensures SolvesBelow(s.next, s, a) {
      var b := Below(t.next, t, a);
      var c := Below(s.next, s, b);
      assert AgreeBelow(s.next, a, c);
    }
  }

  lemma UnifyGrowing(s: Store, a: seq<Term>, b: seq<Term>)
    requires Solvable(s, a, b)
    ensures Grows(s, Unify(s, a, b).value)
  {
    var t := Unify(s, a, b).value;
    var x: Assignment :| s.holds(x) && InstAll(x, a) == InstAll(x, b);
    assert t.holds(x);
    forall x: Assignment | t.holds(x) ensures SolvesBelow(s.next, s, x) {
      InItself(s.next, s, x);
    }
  }

  lemma OpenedGrows(s: Store, frames: nat)
    ensures Grows(s, Opened(s, frames))
  {
    var t := Opened(s, frames);
    if a: Assignment :| s.holds(a) {
      assert AgreeBelow(s.next, a, a) && t.holds(a);
    }
  }

  lemma {:induction false} MembersGrow(x: Term, elements: seq<Term>, s: Store)
    ensures AllGrown(Solved(), s, Members(x, elements, s))
  {
    if elements != [] {
      MembersGrow(x, elements[1..], s);
      if Solvable(s, [x], [elements[0]]) {
        UnifyGrowing(s, [x], [elements[0]]);
      }
    }
  }

  lemma OperationsGrow()
    ensures OnlyGrows(Solving(), Solved())
  {
    var w, m := Solving(), Solved();
    forall s, t, u ensures GrownLaw(m, s, t, u) {
      GrowsItself(s);
      if Grows(s, t) && Grows(t, u) { GrowsTwice(s, t, u); }
    }
    forall s, a, b ensures UnifyGrows(w, m, s, a, b) {
      if Solvable(s, a, b) { UnifyGrowing(s, a, b); }
    }
    forall s ensures FrameGrows(w, m, s) { OpenedGrows(s, 1); }
    forall s, x, ball ensures RecoverGrows(w, m, s, x, ball) { RecoverGrowing(s, x, ball); }
    forall s, x, answers ensures CollectGrows(w, m, s, x, answers) { OpenedGrows(s, |answers|); }
    forall fuel, f, args, s ensures LibGrows(w, m, fuel, f, args, s) {
      if f == MEMBER && |args| == 2 { MembersGrow(args[0], Elements(Value(s, args[1])), s); }
    }
    forall k, args, cs, s ensures RemoteGrows(w, m, k, args, cs, s) {
    }
  }

  lemma RecoverGrowing(s: Store, x: Term, ball: Ball)
    ensures RecoverGrows(Solving(), Solved(), s, x, ball)
  {
    var t, b := Opened(s, 1), [BallTerm(ball, s.next)];
    if Solvable(t, [x], b) {
      OpenedGrows(s, 1);
      UnifyGrowing(t, [x], b);
      GrowsTwice(s, t, Unify(t, [x], b).value);
    }
  }

  // ---------- equality ----------

  lemma {:induction false} InstWithin(k: nat, a: Assignment, b: Assignment, t: Term)
    requires AgreeBelow(k, a, b) && Within(k, t)
    ensures Inst(a, t) == Inst(b, t)
  {
    if t.Struct? {
      InstAllWithin(k, a, b, t.args);
    }
  }

  lemma {:induction false} InstAllWithin(k: nat, a: Assignment, b: Assignment, ts: seq<Term>)
    requires AgreeBelow(k, a, b) && forall i :: 0 <= i < |ts| ==> Within(k, ts[i])
    ensures InstAll(a, ts) == InstAll(b, ts)
  {
    forall i | 0 <= i < |ts| ensures Inst(a, ts[i]) == Inst(b, ts[i]) {
      InstWithin(k, a, b, ts[i]);
    }
  }

  lemma {:induction false} WithinLater(k: nat, l: nat, t: Term)
    requires Within(k, t) && k <= l
    ensures Within(l, t)
  {
    if t.Struct? {
      forall i | 0 <= i < |t.args| ensures Within(l, t.args[i]) {
        WithinLater(k, l, t.args[i]);
      }
    }
  }

  lemma EqualsLater(s: Store, t: Store, x: Term, y: Term)
    requires Grows(s, t) && Equals(s, x, y)
    ensures Equals(t, x, y)
  {
    WithinLater(s.next, t.next, x);
    WithinLater(s.next, t.next, y);
    forall a: Assignment | t.holds(a) ensures Inst(a, x) == Inst(a, y) {
      var b := Below(s.next, s, a);
      InstWithin(s.next, a, b, x);
      InstWithin(s.next, a, b, y);
    }
  }

  lemma EqualityHolds(s: Store, t: Store, x: Term, y: Term, z: Term)
    ensures Closures.EqualLaw(Solved(), s, t, x, y, z)
  {
    if Grows(s, t) && Equals(s, x, y) {
      EqualsLater(s, t, x, y);
    }
  }

  lemma StructsEqual(s: Store, f: Name, xs: seq<Term>, ys: seq<Term>)
    requires |xs| == |ys|
    ensures Equals(s, Struct(f, xs), Struct(f, ys)) <==> forall i :: 0 <= i < |xs| ==> Equals(s, xs[i], ys[i])
  {
    if Equals(s, Struct(f, xs), Struct(f, ys)) {
      forall i | 0 <= i < |xs| ensures Equals(s, xs[i], ys[i]) {
        forall a: Assignment | s.holds(a) ensures Inst(a, xs[i]) == Inst(a, ys[i]) {
          assert Inst(a, Struct(f, xs)) == Inst(a, Struct(f, ys));
          assert InstAll(a, xs)[i] == InstAll(a, ys)[i];
        }
      }
    }
    if forall i :: 0 <= i < |xs| ==> Equals(s, xs[i], ys[i]) {
      forall a: Assignment | s.holds(a) ensures Inst(a, Struct(f, xs)) == Inst(a, Struct(f, ys)) {
        forall i | 0 <= i < |xs| ensures InstAll(a, xs)[i] == InstAll(a, ys)[i] {
          assert Equals(s, xs[i], ys[i]);
        }
      }
    }
  }

  lemma {:induction false} GroundWithin(k: nat, t: Term)
    requires Ground(t)
    ensures Within(k, t)
  {
    if t.Struct? {
      forall i | 0 <= i < |t.args| ensures Within(k, t.args[i]) {
        GroundWithin(k, t.args[i]);
      }
    }
  }

  lemma GroundInst(a: Assignment, t: Term)
    requires Ground(t)
    ensures Inst(a, t) == t
  {
    if t.Struct? {
      forall i | 0 <= i < |t.args| ensures InstAll(a, t.args)[i] == t.args[i] {
        GroundInst(a, t.args[i]);
      }
    }
  }

  /** A term that is equal to a compound term is dereferenced to one. */
  lemma CompoundValue(s: Store, x: Term, f: Name, args: seq<Term>)
    requires Possible(s) && Equals(s, x, Struct(f, args))
    ensures HasFunctor(Value(s, x), f, |args|) && Equals(s, Value(s, x), Struct(f, args))
  {
    var a: Assignment :| s.holds(a);
    assert Inst(a, x) == Inst(a, Struct(f, args));
    if u :| Determined(s, x, u) {
      DeterminedOnce(s, x, u);
      GroundWithin(s.next, u);
      forall b: Assignment | s.holds(b) ensures Inst(b, u) == Inst(b, Struct(f, args)) {
        GroundInst(b, u);
      }
    } else {
      CompoundOpen(s, x, f, args, a);
    }
  }

  lemma CompoundOpen(s: Store, x: Term, f: Name, args: seq<Term>, a: Assignment)
    requires s.holds(a) && Equals(s, x, Struct(f, args)) && !exists u :: Determined(s, x, u)
    ensures HasFunctor(Value(s, x), f, |args|) && Equals(s, Value(s, x), Struct(f, args))
  {
    var y := Struct(f, args);
    assert Inst(a, x) == Inst(a, y);
    if x.Variable() {
      BoundIsNotOpen(s, x, y);
      if Forms(s, x) == iset{} && y !in Compounds(s, x) {
        OrdinaryTerms(s.next, y);
        assert false;
      }
    }
    var r := Value(s, x);
    assert Inst(a, r) == Inst(a, y);
    if r.Variable() {
      BoundIsNotOpen(s, r, y);
    }
  }

  lemma {:induction false} OrdinaryTerms(k: nat, t: Term)
    requires Within(k, t)
    ensures forall h: set<Role> :: Clear(h, t)
  {
    if t.Struct? {
      forall h: set<Role> ensures Clear(h, t) {
        forall i | 0 <= i < |t.args| ensures Clear(h, t.args[i]) {
          OrdinaryTerms(k, t.args[i]);
        }
        assert ClearAll(h, t.args);
      }
    }
  }

  // ---------- unification ----------

  lemma Clashes(s: Store, a: seq<Term>, b: seq<Term>, i: nat, f: Name, xs: seq<Term>)
    ensures Closures.ClashLaw(Solving(), Solved(), s, a, b, i, f, xs)
  {
    if i < |a| && |a| == |b| && Equals(s, a[i], Struct(f, xs)) && b[i].Struct? && !HasFunctor(b[i], f, |xs|) {
      forall x: Assignment | s.holds(x) ensures InstAll(x, a)[i] != InstAll(x, b)[i] {
        assert Inst(x, a[i]) == Inst(x, Struct(f, xs));
      }
    }
  }

  /** The parts of a cell. */
  function Part(t: Term, i: nat): Term {
    if t.Struct? && i < |t.args| then t.args[i] else t
  }

  /** The solution with the variables of frame k set to the heads and tails of the lists. */
  ghost function Taken(a: Assignment, lists: seq<Term>, k: nat): Assignment {
    (x: Term) =>
      if !x.Var? || x.frame != k then a(x)
      else if x.index < |lists| then Part(Inst(a, lists[x.index]), 0)
      else if x.index < 2 * |lists| then Part(Inst(a, lists[x.index - |lists|]), 1)
      else a(x)
  }

  ghost predicate Cellular(s: Store, lists: seq<Term>) {
    forall i :: 0 <= i < |lists| ==> Within(s.next, lists[i]) && AlwaysCell(s, lists[i])
  }

  ghost predicate AlwaysCell(s: Store, x: Term) {
    forall a: Assignment :: s.holds(a) ==> HasFunctor(Inst(a, x), Key(ListK), 2)
  }

  lemma TakenSolves(s: Store, a: Assignment, lists: seq<Term>)
    requires s.holds(a) && Cellular(s, lists)
    ensures var b := Taken(a, lists, s.next);
            Opened(s, 1).holds(b) && AgreeBelow(s.next, a, b) && InstAll(b, lists) == InstAll(b, Runtime.Cells(s.next, |lists|))
  {
    hide Inst, InstAll, Within, Runtime.Cells, Cellular;
    var k, n := s.next, |lists|;
    var b := Taken(a, lists, k);
    assert AgreeBelow(k, b, a) && AgreeBelow(k, a, b);
    CellsSize(k, n);
    forall i | 0 <= i < n ensures Inst(b, lists[i]) == Inst(b, Runtime.Cells(k, n)[i]) {
      CellAt(s, a, lists, i);
      InstWithin(k, b, a, lists[i]);
      InstCell(b, k, n, i);
    }
    InstsEqual(b, b, lists, Runtime.Cells(k, n));
  }

  lemma InstsEqual(a: Assignment, b: Assignment, xs: seq<Term>, ys: seq<Term>)
    requires |xs| == |ys| && forall i :: 0 <= i < |xs| ==> Inst(a, xs[i]) == Inst(b, ys[i])
    ensures InstAll(a, xs) == InstAll(b, ys)
  {
    hide Inst, InstAll;
  }

  lemma CellsSize(k: nat, n: nat)
    ensures |Runtime.Cells(k, n)| == n
  {
  }

  lemma CellAt(s: Store, a: Assignment, lists: seq<Term>, i: nat)
    requires s.holds(a) && Cellular(s, lists) && i < |lists|
    ensures Within(s.next, lists[i])
    ensures var x := Inst(a, lists[i]); x == Cons(Part(x, 0), Part(x, 1))
  {
    hide Inst, Within;
    assert AlwaysCell(s, lists[i]);
    var x := Inst(a, lists[i]);
    assert x.args == [x.args[0], x.args[1]];
  }

  lemma InstCell(a: Assignment, k: nat, n: nat, i: nat)
    requires i < n
    ensures Runtime.Cells(k, n)[i] == Cons(Var(k, i), Var(k, n + i))
    ensures Inst(a, Runtime.Cells(k, n)[i]) == Cons(a(Var(k, i)), a(Var(k, n + i)))
  {
    InstPair(a, Var(k, i), Var(k, n + i));
  }

  lemma InstPair(a: Assignment, x: Term, y: Term)
    ensures Inst(a, Cons(x, y)) == Cons(Inst(a, x), Inst(a, y))
  {
    assert InstAll(a, [x, y]) == [Inst(a, x), Inst(a, y)];
  }

  lemma CellsAreCellular(s: Store, lists: seq<Term>, heads: seq<Term>, tails: seq<Term>)
    requires Closures.AreCells(Solved(), s, lists, heads, tails)
    ensures Cellular(s, lists)
  {
    forall i | 0 <= i < |lists| ensures Within(s.next, lists[i]) && AlwaysCell(s, lists[i]) {
      assert Equals(s, lists[i], Cons(heads[i], tails[i]));
      forall a: Assignment | s.holds(a) ensures HasFunctor(Inst(a, lists[i]), Key(ListK), 2) {
        InstPair(a, heads[i], tails[i]);
      }
    }
  }

  lemma CellsWithin(k: nat, n: nat, i: nat)
    requires i < n
    ensures Within(k + 1, Var(k, i)) && Within(k + 1, Var(k, n + i)) && Within(k + 1, Cons(Var(k, i), Var(k, n + i)))
  {
    var pair := [Var(k, i), Var(k, n + i)];
    assert forall j :: 0 <= j < |pair| ==> Within(k + 1, pair[j]);
  }

  lemma TakenApart(s: Store, lists: seq<Term>)
    requires Possible(s) && Cellular(s, lists)
    ensures var k, s1 := s.next, Opened(s, 1);
            var cells := Runtime.Cells(k, |lists|);
            Solvable(s1, lists, cells) && Unify(s1, lists, cells).Some? && Keeps(s, Unify(s1, lists, cells).value)
  {
    var k, s1 := s.next, Opened(s, 1);
    var cells := Runtime.Cells(k, |lists|);
    var a: Assignment :| s.holds(a);
    TakenSolves(s, a, lists);
    assert s1.holds(Taken(a, lists, k));
    var t := Unify(s1, lists, cells).value;
    OpenedGrows(s, 1);
    UnifyGrowing(s1, lists, cells);
    GrowsTwice(s, s1, t);
    forall a: Assignment | s.holds(a) ensures SolvesBelow(k, t, a) {
      TakenSolves(s, a, lists);
      assert t.holds(Taken(a, lists, k));
    }
  }

  lemma ListWithin(s: Store, lists: seq<Term>, i: nat)
    requires Cellular(s, lists) && i < |lists|
    ensures Within(s.next, lists[i]) && Within(s.next + 1, lists[i])
  {
    WithinLater(s.next, s.next + 1, lists[i]);
  }

  lemma CellKnown(s: Store, lists: seq<Term>, cells: seq<Term>, i: nat)
    requires Solvable(s, lists, cells) && i < |lists| == |cells|
    ensures Equal(Unify(s, lists, cells).value, lists[i], cells[i])
  {
    hide Inst, InstAll;
    var t := Unify(s, lists, cells).value;
    forall a: Assignment | t.holds(a) ensures Inst(a, lists[i]) == Inst(a, cells[i]) {
      assert InstAll(a, lists)[i] == InstAll(a, cells)[i];
    }
  }

  lemma CellsKnown(s: Store, lists: seq<Term>)
    requires Cellular(s, lists) && Solvable(Opened(s, 1), lists, Runtime.Cells(s.next, |lists|))
    ensures var k, n := s.next, |lists|;
            Closures.AreCells(Solved(), Unify(Opened(s, 1), lists, Runtime.Cells(k, n)).value, lists, Heads(k, n), Tails(k, n))
  {
    hide Inst, InstAll, Within, Runtime.Cells, Cellular, Solvable, Equal;
    var k, n := s.next, |lists|;
    CellsSize(k, n);
    forall i | 0 <= i < n
      ensures Equals(Unify(Opened(s, 1), lists, Runtime.Cells(k, n)).value, lists[i], Cons(Heads(k, n)[i], Tails(k, n)[i]))
    {
      CellsWithin(k, n, i);
      ListWithin(s, lists, i);
      InstCell((x: Term) => x, k, n, i);
      CellKnown(Opened(s, 1), lists, Runtime.Cells(k, n), i);
    }
  }

  lemma CellsInst(a: Assignment, b: Assignment, k: nat, n: nat, x: Term)
    requires x == Var(k, 2 * n) && forall y :: y != x ==> a(y) == b(y)
    ensures InstAll(a, Runtime.Cells(k, n)) == InstAll(b, Runtime.Cells(k, n))
  {
    hide Inst, InstAll, Runtime.Cells;
    var cells := Runtime.Cells(k, n);
    CellsSize(k, n);
    forall i | 0 <= i < n ensures Inst(a, cells[i]) == Inst(b, cells[i]) {
      InstCell(a, k, n, i);
      InstCell(b, k, n, i);
    }
    InstsEqual(a, b, cells, cells);
  }

  lemma NextIsFree(s: Store, lists: seq<Term>)
    requires Cellular(s, lists) && Solvable(Opened(s, 1), lists, Runtime.Cells(s.next, |lists|))
    ensures var k, n := s.next, |lists|;
            var t := Unify(Opened(s, 1), lists, Runtime.Cells(k, n)).value;
            Free(t, Var(k, 2 * n)) && Equals(t, Var(k, 2 * n), Var(k, 2 * n))
  {
    hide InstAll, Runtime.Cells, Cellular;
    var k, n := s.next, |lists|;
    var cells, x := Runtime.Cells(k, n), Var(k, 2 * n);
    var t := Unify(Opened(s, 1), lists, cells).value;
    forall i | 0 <= i < |lists| ensures Within(k, lists[i]) {
      ListWithin(s, lists, i);
    }
    forall a: Assignment, u: Term | t.holds(a) ensures t.holds(Updated(a, x, u)) {
      UpdateStays(s, lists, a, u);
    }
  }

  lemma UpdateStays(s: Store, lists: seq<Term>, a: Assignment, u: Term)
    requires forall i :: 0 <= i < |lists| ==> Within(s.next, lists[i])
    requires Opened(s, 1).holds(a) && InstAll(a, lists) == InstAll(a, Runtime.Cells(s.next, |lists|))
    ensures var b := Updated(a, Var(s.next, 2 * |lists|), u);
            Opened(s, 1).holds(b) && InstAll(b, lists) == InstAll(b, Runtime.Cells(s.next, |lists|))
  {
    hide InstAll, Runtime.Cells, Within;
    var k, x := s.next, Var(s.next, 2 * |lists|);
    var b := Updated(a, x, u);
    var c: Assignment :| s.holds(c) && AgreeBelow(k, a, c);
    assert AgreeBelow(k, b, c) && AgreeBelow(k, a, b);
    InstAllWithin(k, a, b, lists);
    CellsInst(a, b, k, |lists|, x);
  }

  lemma Takes(s: Store, lists: seq<Term>, heads: seq<Term>, tails: seq<Term>)
    ensures Closures.TakeLaw(Solving(), Solved(), s, lists, heads, tails)
  {
    hide Unify, Opened, Equals, Free, Keeps, Cellular, Solvable, Possible;
    if Possible(s) && Closures.AreCells(Solved(), s, lists, heads, tails) {
      CellsAreCellular(s, lists, heads, tails);
      TakenApart(s, lists);
      CellsKnown(s, lists);
      NextIsFree(s, lists);
    }
  }

  lemma NilsHold(s: Store, lists: seq<Term>, a: Assignment)
    requires Closures.AreEmpty(Solved(), s, lists) && s.holds(a)
    ensures InstAll(a, lists) == InstAll(a, Repeat(Nil(), |lists|))
  {
    forall i | 0 <= i < |lists| ensures InstAll(a, lists)[i] == InstAll(a, Repeat(Nil(), |lists|))[i] {
      assert Equals(s, lists[i], Nil());
    }
  }

  lemma InstAfter(a: Assignment, x: Term, ts: seq<Term>)
    ensures InstAll(a, [x] + ts) == [Inst(a, x)] + InstAll(a, ts) && InstAll(a, [x]) == [Inst(a, x)]
  {
    assert ([x] + ts)[1..] == ts;
  }

  lemma NilsBeside(s: Store, lists: seq<Term>, x: Term, y: Term, a: Assignment)
    requires Closures.AreEmpty(Solved(), s, lists) && s.holds(a)
    ensures InstAll(a, [x] + lists) == InstAll(a, [y] + Repeat(Nil(), |lists|)) <==> InstAll(a, [x]) == InstAll(a, [y])
  {
    NilsHold(s, lists, a);
    InstAfter(a, x, lists);
    InstAfter(a, y, Repeat(Nil(), |lists|));
  }

  lemma SameSolutions(s: Store, t: Store)
    requires s.next == t.next && forall a: Assignment :: s.holds(a) <==> t.holds(a)
    ensures Keeps(s, t)
  {
    forall a: Assignment | s.holds(a) ensures SolvesBelow(s.next, s, a) && SolvesBelow(s.next, t, a) {
      InItself(s.next, s, a);
      InItself(s.next, t, a);
    }
  }

  lemma EmptyUnify(s: Store, lists: seq<Term>)
    requires Possible(s) && Closures.AreEmpty(Solved(), s, lists)
    ensures Solvable(s, lists, Repeat(Nil(), |lists|)) && Keeps(s, Unify(s, lists, Repeat(Nil(), |lists|)).value)
  {
    forall a: Assignment | s.holds(a) ensures InstAll(a, lists) == InstAll(a, Repeat(Nil(), |lists|)) {
      NilsHold(s, lists, a);
    }
    SameSolutions(s, Unify(s, lists, Repeat(Nil(), |lists|)).value);
  }

  lemma EndsBeside(s: Store, lists: seq<Term>, x: Term, y: Term)
    requires Closures.AreEmpty(Solved(), s, lists)
    ensures var a, b := [x] + lists, [y] + Repeat(Nil(), |lists|);
            && (Solvable(s, a, b) <==> Solvable(s, [x], [y]))
            && (Solvable(s, a, b) ==> Keeps(Unify(s, [x], [y]).value, Unify(s, a, b).value))
  {
    hide Inst, InstAll, Keeps, Closures.AreEmpty;
    var a, b := [x] + lists, [y] + Repeat(Nil(), |lists|);
    forall z: Assignment | s.holds(z) ensures InstAll(z, a) == InstAll(z, b) <==> InstAll(z, [x]) == InstAll(z, [y]) {
      NilsBeside(s, lists, x, y, z);
    }
    if Solvable(s, a, b) {
      SameSolutions(Unify(s, [x], [y]).value, Unify(s, a, b).value);
    }
  }

  lemma Ends(s: Store, lists: seq<Term>, x: Term, y: Term)
    ensures Closures.EndLaw(Solving(), Solved(), s, lists, x, y)
  {
    hide Keeps, Solvable, Possible, Closures.AreEmpty;
    if Possible(s) && Closures.AreEmpty(Solved(), s, lists) {
      EmptyUnify(s, lists);
      EndsBeside(s, lists, x, y);
    }
  }

  /** The store of a runtime with one library predicate: bindings only add up, and lists are taken apart. */
  lemma ListsCanBeTaken()
    ensures Closures.TakesLists(Solving(), Solved())
    ensures Solved().possible(EMPTY)
  {
    var w, m := Solving(), Solved();
    assert EMPTY.holds((x: Term) => x);
    OperationsGrow();
    forall s, t, x, y, z ensures Closures.EqualLaw(m, s, t, x, y, z) { EqualityHolds(s, t, x, y, z); }
    forall s, t ensures Closures.KeptLaw(m, s, t) {
    }
    forall s, f, xs, ys ensures Closures.StructLaw(m, s, f, xs, ys) {
      if |xs| == |ys| { StructsEqual(s, f, xs, ys); }
    }
    forall s, x, f, args ensures Closures.DerefLaw(w, m, s, x, f, args) {
      if Possible(s) && Equals(s, x, Struct(f, args)) { CompoundValue(s, x, f, args); }
    }
    forall s, a, b, i, f, xs ensures Closures.ClashLaw(w, m, s, a, b, i, f, xs) { Clashes(s, a, b, i, f, xs); }
    forall s, lists, heads, tails ensures Closures.TakeLaw(w, m, s, lists, heads, tails) { Takes(s, lists, heads, tails); }
    forall s, lists, x, y ensures Closures.EndLaw(w, m, s, lists, x, y) { Ends(s, lists, x, y); }
  }
}
