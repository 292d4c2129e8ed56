/** A native runtime that meets every requirement the theorems make: a store is the set of solutions of the equations
    collected so far, and two stores are the same to an observer if their solutions agree on what is not hidden. */
module Herbrand {
  import opened Terms
  import opened Policy
  import opened Runtime
  import opened Grouping
  import opened Simulation
  import opened EmittedGoals
  import opened Compilation
  import opened WideKeys
  import opened IndexedRuns

  datatype Store = Store(holds: Assignment -> bool, next: nat)

  const EMPTY := Store((a: Assignment) => true, 0)

  predicate Ground(t: Term) {
    match t
    case Var(_, _) => false
    case Aux(_, _, _) => false
    case Int(_) => true
    case Struct(_, args) => forall i :: 0 <= i < |args| ==> Ground(args[i])
  }

  // ---------- the operations ----------

  /** Variables of the frames from `next` on may have any value. */
  ghost predicate AgreeBelow(k: nat, a: Assignment, b: Assignment) {
    forall x: Term :: x.Variable() && x.frame < k ==> a(x) == b(x)
  }

  ghost function Opened(s: Store, frames: nat): Store {
    Store((a: Assignment) => exists b: Assignment :: s.holds(b) && AgreeBelow(s.next, a, b), s.next + frames)
  }

  ghost predicate Solvable(s: Store, a: seq<Term>, b: seq<Term>) {
    exists x: Assignment :: s.holds(x) && InstAll(x, a) == InstAll(x, b)
  }

  ghost function Unify(s: Store, a: seq<Term>, b: seq<Term>): Option<Store> {
    if Solvable(s, a, b) then Some(Store((x: Assignment) => s.holds(x) && InstAll(x, a) == InstAll(x, b), s.next)) else None
  }

  ghost predicate AgreeExcept(x: Term, a: Assignment, b: Assignment) {
    forall y: Term :: y.Variable() && y != x ==> a(y) == b(y)
  }

  ghost function SetUp(s: Store, x: Term, value: Term): Store {
    Store((a: Assignment) => a(x) == Inst(a, value) && exists b: Assignment :: s.holds(b) && AgreeExcept(x, a, b), s.next)
  }

  /** The store leaves one value for x. */
  ghost predicate Determined(s: Store, x: Term, u: Term) {
    Ground(u) && (exists a: Assignment :: s.holds(a)) && forall a: Assignment :: s.holds(a) ==> Inst(a, x) == u
  }

  predicate SameShape(a: Term, b: Term) {
    match (a, b)
    case (Int(i), Int(j)) => i == j
    case (Struct(f, xs), Struct(g, ys)) => f == g && |xs| == |ys|
    case _ => false
  }

  /** All solutions give the variable the same principal functor. */
  ghost predicate Bound(s: Store, v: Term) {
    forall a: Assignment, b: Assignment :: s.holds(a) && s.holds(b) ==> SameShape(a(v), b(v))
  }

  /** Nothing in the term is bound to more than a variable. */
  ghost predicate Open(s: Store, x: Term) {
    forall v :: v in Occurrences(x) ==> !Bound(s, v)
  }

  ghost predicate Equal(s: Store, x: Term, y: Term) {
    forall a: Assignment :: s.holds(a) ==> Inst(a, x) == Inst(a, y)
  }

  /** Every variable is an ordinary one of a frame before k. */
  predicate Within(k: nat, t: Term) {
    match t
    case Var(f, _) => f < k
    case Aux(_, _, _) => false
    case Int(_) => true
    case Struct(_, args) => forall i :: 0 <= i < |args| ==> Within(k, args[i])
  }

  /** The term has added variables of those roles only that x has, and of the frames so far if x has. */
  ghost predicate NothingNew(k: nat, x: Term, y: Term) {
    (forall h: set<Role> :: Clear(h, x) ==> Clear(h, y)) && (Within(k, x) ==> Within(k, y))
  }

  /** The terms that x stands for, with all bindings applied. */
  ghost function Forms(s: Store, x: Term): iset<Term> {
    iset y: Term | Equal(s, x, y) && Open(s, y) && NothingNew(s.next, x, y)
  }

  /** The compound terms that a variable stands for, with at least its own binding applied. */
  ghost function Compounds(s: Store, x: Term): iset<Term> {
    iset y: Term | x.Variable() && y.Struct? && Equal(s, x, y) && NothingNew(s.next, x, y)
  }

  ghost function Pick(ys: iset<Term>): (y: Term)
    requires ys != iset{}
    ensures y in ys
  {
    var y :| y in ys; y
  }

  /** A term with its bindings applied. Where there is a choice of variables, one is made; a term that has no bound
      variable stays as it is. */
  ghost function Value(s: Store, x: Term): Term {
    if exists u :: Determined(s, x, u) then var u :| Determined(s, x, u); u
    else if Open(s, x) then x
    else if Forms(s, x) != iset{} then Pick(Forms(s, x))
    else if Compounds(s, x) != iset{} then Pick(Compounds(s, x))
    else x
  }

  ghost function Undetermined(s: Store, xs: seq<Term>): seq<Term> {
    if xs == [] then [] else (if exists u :: Determined(s, xs[0], u) then [] else [xs[0]]) + Undetermined(s, xs[1..])
  }

  const TIMES := Key(TimesK)
  const MEMBER := Key(MemberK)

  function Evaluate(t: Term): Result<Term, Ball> {
    match t
    case Int(_) => Ok(t)
    case Struct(f, args) =>
      if f == TIMES && |args| == 2 && args[0].Int? && args[1].Int? then Ok(Int(args[0].value * args[1].value))
      else Err(BadCount(Nil()))
    case _ => Err(Instantiation(IsK))
  }

  ghost function Compute(c: ComputedKind, s: Store, x: Term): Result<Term, Ball> {
    match c
    case EvaluateC => Evaluate(Value(s, x))
    case VariablesC => Ok(ListOf(Undetermined(s, Unbound(Occurrences(x), []))))
  }

  ghost function Copies(x: Term, answers: seq<Store>, frame: nat): seq<Term> {
    if answers == [] then [] else [Rename(Value(answers[0], x), frame)] + Copies(x, answers[1..], frame + 1)
  }

  /** The elements of a list, as far as it is one. */
  function Elements(t: Term): seq<Term>
    decreases t
  {
    if t.Struct? && t.functor == Key(ListK) && |t.args| == 2 then [t.args[0]] + Elements(t.args[1]) else []
  }

  ghost function Members(x: Term, elements: seq<Term>, s: Store): seq<Store> {
    if elements == [] then []
    else (match Unify(s, [x], [elements[0]]) case None => [] case Some(s1) => [s1]) + Members(x, elements[1..], s)
  }

  ghost function Library(f: Name, args: seq<Term>, s: Store): LibRun<Store> {
    if f == MEMBER && |args| == 2 then LibRun(Members(args[0], Elements(Value(s, args[1])), s), Finished)
    else LibRun([], Finished)
  }

  function BallTerm(ball: Ball, frame: nat): Term {
    match ball
    case UserBall(t) => if Clear(SOURCE_FREE, t) then Rename(t, frame) else Nil()
    case _ => Nil()
  }

  function Before(a: Term, b: Term): bool {
    if a.Int? && b.Int? then a.value < b.value
    else a.Struct? && b.Struct? && a.args != [] && b.args != [] && a.args[0].Int? && b.args[0].Int? &&
         a.args[0].value < b.args[0].value
  }

  /** Deterministic, lawful, and with a library of one predicate. */
  ghost function Solving(): World<Store> {
    World(
      deref := (s: Store, x: Term) => Value(s, x),
      resolve := (s: Store, x: Term) => Some(Value(s, x)),
      unify := (s: Store, a: seq<Term>, b: seq<Term>) => Unify(s, a, b),
      newFrame := (s: Store) => (s.next, Opened(s, 1)),
      bind := (s: Store, x: Term, value: Term) => SetUp(s, x, value),
      recover := (s: Store, x: Term, ball: Ball) => Unify(Opened(s, 1), [x], [BallTerm(ball, s.next)]),
      collect := (s: Store, x: Term, answers: seq<Store>) => (Copies(x, answers, s.next), Opened(s, |answers|)),
      compute := (c: ComputedKind, s: Store, x: Term) => Compute(c, s, x),
      lib := (fuel: nat, f: Name, args: seq<Term>, s: Store) => Library(f, args, s),
      before := (a: Term, b: Term) => Before(a, b),
      alike := (a: Term, b: Term) => a == b,
      expand := (s: Store, args: seq<Term>) => Err(Instantiation(PhraseK)),
      remote := (k: DeferredKind, args: seq<Term>, cs: seq<Clause>, s: Store) => Reply(LibRun([], Failed(Instantiation(RpcK)))))
  }

  // ---------- stores that agree on what is not hidden ----------

  ghost predicate AgreeOff(h: set<Role>, a: Assignment, b: Assignment) {
    forall x: Term :: x.Variable() && Clear(h, x) ==> a(x) == b(x)
  }

  ghost predicate Covered(h: set<Role>, t: Store, a: Assignment) {
    exists b: Assignment :: t.holds(b) && AgreeOff(h, a, b)
  }

  ghost predicate Covers(h: set<Role>, s: Store, t: Store) {
    forall a: Assignment :: s.holds(a) ==> Covered(h, t, a)
  }

  ghost predicate Same(h: set<Role>, s: Store, t: Store) {
    s.next == t.next && Covers(h, s, t) && Covers(h, t, s)
  }

  ghost function Looking(h: set<Role>, stop: bool): View<Store> {
    View((s: Store, t: Store) => Same(h, s, t), h, stop)
  }

  lemma {:induction false} InstAgree(h: set<Role>, a: Assignment, b: Assignment, t: Term)
    requires AgreeOff(h, a, b) && Clear(h, t)
    ensures Inst(a, t) == Inst(b, t)
  {
    if t.Struct? {
      InstAllAgree(h, a, b, t.args);
    }
  }

  lemma {:induction false} InstAllAgree(h: set<Role>, a: Assignment, b: Assignment, ts: seq<Term>)
    requires AgreeOff(h, a, b) && ClearAll(h, ts)
    ensures InstAll(a, ts) == InstAll(b, ts)
  {
    if ts != [] {
      InstAgree(h, a, b, ts[0]);
      InstAllAgree(h, a, b, ts[1..]);
    }
  }

  lemma {:induction false} GroundClear(h: set<Role>, t: Term)
    requires Ground(t)
    ensures Clear(h, t)
  {
    if t.Struct? {
      forall i | 0 <= i < |t.args| ensures Clear(h, t.args[i]) {
        GroundClear(h, t.args[i]);
      }
      assert ClearAll(h, t.args);
    }
  }

  lemma Cover(h: set<Role>, s: Store, t: Store, a: Assignment) returns (b: Assignment)
    requires Covers(h, s, t) && s.holds(a)
    ensures t.holds(b) && AgreeOff(h, a, b)
  {
    assert Covered(h, t, a);
    b :| t.holds(b) && AgreeOff(h, a, b);
  }

  lemma UnifyCovers(h: set<Role>, s: Store, t: Store, a: seq<Term>, b: seq<Term>)
    requires Covers(h, s, t) && ClearAll(h, a) && ClearAll(h, b) && Solvable(s, a, b)
    ensures Solvable(t, a, b) && Covers(h, Unify(s, a, b).value, Unify(t, a, b).value)
  {
    var s1 := Unify(s, a, b).value;
    forall x: Assignment | s.holds(x) && InstAll(x, a) == InstAll(x, b)
      ensures exists y: Assignment :: t.holds(y) && InstAll(y, a) == InstAll(y, b) && AgreeOff(h, x, y)
    {
      var y := Cover(h, s, t, x);
      InstAllAgree(h, x, y, a);
      InstAllAgree(h, x, y, b);
    }
    var t1 := Unify(t, a, b).value;
    forall x: Assignment | s1.holds(x) ensures Covered(h, t1, x) {
      var y: Assignment :| t.holds(y) && InstAll(y, a) == InstAll(y, b) && AgreeOff(h, x, y);
      assert t1.holds(y);
    }
  }

  lemma UnifySame(h: set<Role>, s: Store, t: Store, a: seq<Term>, b: seq<Term>)
    requires Same(h, s, t) && ClearAll(h, a) && ClearAll(h, b)
    ensures SameOption(Looking(h, true), Unify(s, a, b), Unify(t, a, b))
  {
    if Solvable(s, a, b) {
      UnifyCovers(h, s, t, a, b);
    }
    if Solvable(t, a, b) {
      UnifyCovers(h, t, s, a, b);
    }
  }

  lemma OpenedCovers(h: set<Role>, s: Store, t: Store, frames: nat)
    requires Covers(h, s, t) && s.next == t.next
    ensures Covers(h, Opened(s, frames), Opened(t, frames))
  {
    var s1, t1, k := Opened(s, frames), Opened(t, frames), s.next;
    forall a: Assignment | s1.holds(a) ensures Covered(h, t1, a) {
      var b: Assignment :| s.holds(b) && AgreeBelow(k, a, b);
      var c := Cover(h, s, t, b);
      var d: Assignment := (x: Term) => if x.Variable() && x.frame < k then c(x) else a(x);
      assert AgreeBelow(k, d, c) && t1.holds(d) && AgreeOff(h, a, d);
    }
  }

  lemma OpenedSame(h: set<Role>, s: Store, t: Store, frames: nat)
    requires Same(h, s, t)
    ensures Same(h, Opened(s, frames), Opened(t, frames))
  {
    OpenedCovers(h, s, t, frames);
    OpenedCovers(h, t, s, frames);
  }

  lemma DeterminedCovers(h: set<Role>, s: Store, t: Store, x: Term, u: Term)
    requires Same(h, s, t) && Clear(h, x) && Determined(s, x, u)
    ensures Determined(t, x, u)
  {
    var a: Assignment :| s.holds(a);
    var b := Cover(h, s, t, a);
    forall c: Assignment | t.holds(c) ensures Inst(c, x) == u {
      var d := Cover(h, t, s, c);
      InstAgree(h, c, d, x);
    }
  }

  lemma DeterminedOnce(s: Store, x: Term, u: Term)
    requires Determined(s, x, u)
    ensures Value(s, x) == u
  {
    var a: Assignment :| s.holds(a);
  }

  lemma {:induction false} OccurrencesAreVariables(t: Term)
    ensures forall v :: v in Occurrences(t) ==> v.Variable()
  {
    if t.Struct? {
      AllOccurrencesAreVariables(t.args);
    }
  }

  lemma {:induction false} AllOccurrencesAreVariables(ts: seq<Term>)
    ensures forall v :: v in OccurrencesAll(ts) ==> v.Variable()
  {
    if ts != [] {
      OccurrencesAreVariables(ts[0]);
      AllOccurrencesAreVariables(ts[1..]);
    }
  }

  lemma BoundCovers(h: set<Role>, s: Store, t: Store, v: Term)
    requires Same(h, s, t) && v.Variable() && Clear(h, v) && Bound(s, v)
    ensures Bound(t, v)
  {
    forall a: Assignment, b: Assignment | t.holds(a) && t.holds(b) ensures SameShape(a(v), b(v)) {
      var c := Cover(h, t, s, a);
      var d := Cover(h, t, s, b);
      assert a(v) == c(v) && b(v) == d(v);
    }
  }

  lemma OpenCovers(h: set<Role>, s: Store, t: Store, x: Term)
    requires Same(h, s, t) && Clear(h, x) && Open(s, x)
    ensures Open(t, x)
  {
    OccurrencesAreVariables(x);
    ClearOccurrences(h, x);
    forall v | v in Occurrences(x) ensures !Bound(t, v) {
      if Bound(t, v) {
        BoundCovers(h, t, s, v);
      }
    }
  }

  lemma EqualCovers(h: set<Role>, s: Store, t: Store, x: Term, y: Term)
    requires Same(h, s, t) && Clear(h, x) && Clear(h, y) && Equal(s, x, y)
    ensures Equal(t, x, y)
  {
    forall a: Assignment | t.holds(a) ensures Inst(a, x) == Inst(a, y) {
      var b := Cover(h, t, s, a);
      InstAgree(h, a, b, x);
      InstAgree(h, a, b, y);
    }
  }

  lemma FormsSame(h: set<Role>, s: Store, t: Store, x: Term)
    requires Same(h, s, t) && Clear(h, x)
    ensures Forms(s, x) == Forms(t, x)
    ensures forall y :: y in Forms(s, x) ==> Clear(h, y)
  {
    forall y | y in Forms(s, x) ensures y in Forms(t, x) {
      EqualCovers(h, s, t, x, y);
      OpenCovers(h, s, t, y);
    }
    forall y | y in Forms(t, x) ensures y in Forms(s, x) {
      EqualCovers(h, t, s, x, y);
      OpenCovers(h, t, s, y);
    }
  }

  lemma CompoundsSame(h: set<Role>, s: Store, t: Store, x: Term)
    requires Same(h, s, t) && Clear(h, x)
    ensures Compounds(s, x) == Compounds(t, x)
    ensures forall y :: y in Compounds(s, x) ==> Clear(h, y)
  {
    forall y | y in Compounds(s, x) ensures y in Compounds(t, x) {
      EqualCovers(h, s, t, x, y);
    }
    forall y | y in Compounds(t, x) ensures y in Compounds(s, x) {
      EqualCovers(h, t, s, x, y);
    }
  }

  /** A variable that is bound is resolved: a goal called through it may have unbound variables of its own. */
  lemma BoundIsResolved(s: Store, x: Term, y: Term)
    requires x.Variable() && y in Forms(s, x) && y.Struct? && exists a: Assignment :: s.holds(a)
    ensures var r := Value(s, x); r.Struct? && r.functor == y.functor && |r.args| == |y.args|
  {
    var a: Assignment :| s.holds(a);
    assert Inst(a, x) == Inst(a, y);
    if u :| Determined(s, x, u) {
      DeterminedOnce(s, x, u);
    } else {
      BoundIsNotOpen(s, x, y);
      FormIsStruct(s, x, y, Value(s, x), a);
    }
  }

  lemma FormIsStruct(s: Store, x: Term, y: Term, r: Term, a: Assignment)
    requires s.holds(a) && Equal(s, x, y) && y.Struct? && Equal(s, x, r) && Open(s, r)
    ensures r.Struct? && r.functor == y.functor && |r.args| == |y.args|
  {
    assert Inst(a, r) == Inst(a, x) == Inst(a, y);
    if r.Variable() {
      assert Equal(s, r, y);
      BoundIsNotOpen(s, r, y);
    }
  }

  lemma BoundIsNotOpen(s: Store, x: Term, y: Term)
    requires x.Variable() && Equal(s, x, y) && y.Struct?
    ensures Bound(s, x) && !Open(s, x)
  {
    assert x in Occurrences(x);
  }

  lemma ValueSame(h: set<Role>, s: Store, t: Store, x: Term)
    requires Same(h, s, t) && Clear(h, x)
    ensures Value(s, x) == Value(t, x) && Clear(h, Value(s, x))
    ensures (exists u :: Determined(s, x, u)) <==> exists u :: Determined(t, x, u)
  {
    hide Forms, Compounds, Open;
    FormsSame(h, s, t, x);
    CompoundsSame(h, s, t, x);
    if Open(s, x) {
      OpenCovers(h, s, t, x);
    } else if Open(t, x) {
      OpenCovers(h, t, s, x);
    }
    if u :| Determined(s, x, u) {
      DeterminedCovers(h, s, t, x, u);
      DeterminedOnce(s, x, u);
      DeterminedOnce(t, x, u);
      GroundClear(h, u);
    } else if u :| Determined(t, x, u) {
      DeterminedCovers(h, t, s, x, u);
    }
  }

  lemma {:induction false} CopiesSame(h: set<Role>, x: Term, a: seq<Store>, b: seq<Store>, frame: nat)
    requires Clear(h, x) && |a| == |b| && forall i :: 0 <= i < |a| ==> Same(h, a[i], b[i])
    ensures Copies(x, a, frame) == Copies(x, b, frame) && ClearAll(h, Copies(x, a, frame))
  {
    hide Same, Clear, Value;
    if a != [] {
      ValueSame(h, a[0], b[0], x);
      RenameClear(h, Value(a[0], x), frame);
      CopiesSame(h, x, a[1..], b[1..], frame + 1);
    }
  }

  lemma {:induction false} UndeterminedSame(h: set<Role>, s: Store, t: Store, xs: seq<Term>)
    requires Same(h, s, t) && ClearAll(h, xs)
    ensures Undetermined(s, xs) == Undetermined(t, xs) && ClearAll(h, Undetermined(s, xs))
  {
    hide Same, Clear, Value, Determined;
    if xs != [] {
      ValueSame(h, s, t, xs[0]);
      UndeterminedSame(h, s, t, xs[1..]);
    }
  }

  lemma ComputeSame(h: set<Role>, c: ComputedKind, s: Store, t: Store, x: Term)
    requires Same(h, s, t) && Clear(h, x)
    ensures Compute(c, s, x) == Compute(c, t, x) && (Compute(c, s, x).Ok? ==> Clear(h, Compute(c, s, x).value))
  {
    hide Same, Value, Determined, Occurrences, Unbound, Undetermined;
    if c.EvaluateC? {
      ValueSame(h, s, t, x);
    } else {
      ClearOccurrences(h, x);
      UnboundClear(h, Occurrences(x), []);
      UndeterminedSame(h, s, t, Unbound(Occurrences(x), []));
      ListClear(h, Undetermined(s, Unbound(Occurrences(x), [])));
    }
  }

  lemma {:induction false} ElementsClear(h: set<Role>, t: Term)
    requires Clear(h, t)
    ensures ClearAll(h, Elements(t))
  {
    if t.Struct? && t.functor == Key(ListK) && |t.args| == 2 {
      assert ClearAll(h, t.args);
      ElementsClear(h, t.args[1]);
    }
  }

  lemma {:induction false} MembersSame(h: set<Role>, x: Term, elements: seq<Term>, s: Store, t: Store)
    requires Same(h, s, t) && Clear(h, x) && ClearAll(h, elements)
    ensures var a, b := Members(x, elements, s), Members(x, elements, t);
            |a| == |b| && Begins(Looking(h, true), a, b)
  {
    hide Same, Clear, Unify;
    if elements != [] {
      UnifySame(h, s, t, [x], [elements[0]]);
      MembersSame(h, x, elements[1..], s, t);
    }
  }

  lemma LibrarySame(h: set<Role>, f: Name, args: seq<Term>, s: Store, t: Store)
    requires Same(h, s, t) && ClearAll(h, args)
    ensures SameLib(Looking(h, true), Library(f, args, s), Library(f, args, t))
  {
    hide Same, Value, Members, Elements;
    if |args| == 2 {
      ValueSame(h, s, t, args[1]);
      ElementsClear(h, Value(s, args[1]));
      MembersSame(h, args[0], Elements(Value(s, args[1])), s, t);
    }
  }

  lemma {:induction false} SourceClear(h: set<Role>, t: Term)
    requires Clear(SOURCE_FREE, t)
    ensures Clear(h, t)
  {
    forall r: Role ensures r in SOURCE_FREE {
      match r {
        case ResultRole =>
        case KeyRole =>
      }
    }
    if t.Struct? {
      assert ClearAll(SOURCE_FREE, t.args);
      forall i | 0 <= i < |t.args| ensures Clear(h, t.args[i]) {
        SourceClear(h, t.args[i]);
      }
      assert ClearAll(h, t.args);
    }
  }

  lemma RecoverSame(h: set<Role>, s: Store, t: Store, x: Term, ball: Ball)
    requires Same(h, s, t) && Clear(h, x)
    ensures SameOption(Looking(h, true), Solving().recover(s, x, ball), Solving().recover(t, x, ball))
  {
    if ball.UserBall? && Clear(SOURCE_FREE, ball.ball) {
      SourceClear(h, ball.ball);
      RenameClear(h, ball.ball, s.next);
    }
    assert Clear(h, Nil());
    OpenedSame(h, s, t, 1);
    UnifySame(h, Opened(s, 1), Opened(t, 1), [x], [BallTerm(ball, s.next)]);
  }

  lemma ViewsAlike(h: set<Role>, stop: bool)
    ensures forall a, b :: SameOption(Looking(h, stop), a, b) <==> SameOption(Looking(h, true), a, b)
    ensures forall a, b :: SameLib(Looking(h, stop), a, b) <==> SameLib(Looking(h, true), a, b)
    ensures forall a, b :: Begins(Looking(h, stop), a, b) <==> Begins(Looking(h, true), a, b)
  {
  }

  /** The operations respect every choice of hidden variables. */
  lemma OperationsRespect(h: set<Role>, stop: bool)
    ensures Respects(Solving(), Looking(h, stop))
  {
    var w, v := Solving(), Looking(h, stop);
    ViewsAlike(h, stop);
    forall s, t ensures FrameLaw(w, v, s, t) {
      if Same(h, s, t) { OpenedSame(h, s, t, 1); }
    }
    forall s, t, a, b ensures UnifyLaw(w, v, s, t, a, b) {
      if Same(h, s, t) && ClearAll(h, a) && ClearAll(h, b) { UnifySame(h, s, t, a, b); }
    }
    forall s, t, x ensures DerefLaw(w, v, s, t, x) {
      if Same(h, s, t) && Clear(h, x) { ValueSame(h, s, t, x); }
    }
    forall s, t, x ensures ResolveLaw(w, v, s, t, x) {
      if Same(h, s, t) && Clear(h, x) { ValueSame(h, s, t, x); }
    }
    forall c, s, t, x ensures ComputeLaw(w, v, c, s, t, x) {
      if Same(h, s, t) && Clear(h, x) { ComputeSame(h, c, s, t, x); }
    }
    forall s, t, x, a, b ensures CollectLaw(w, v, s, t, x, a, b) {
      if Same(h, s, t) && Clear(h, x) && |a| == |b| && Begins(v, a, b) {
        CopiesSame(h, x, a, b, s.next);
        OpenedSame(h, s, t, |a|);
      }
    }
    forall s, t, x, ball ensures RecoverLaw(w, v, s, t, x, ball) {
      if Same(h, s, t) && Clear(h, x) { RecoverSame(h, s, t, x, ball); }
    }
    forall fuel, f, a, s, t ensures LibLaw(w, v, fuel, f, a, s, t) {
      if Same(h, s, t) && ClearAll(h, a) { LibrarySame(h, f, a, s, t); }
    }
    forall s, t, a ensures ExpandLaw(w, v, s, t, a) {
    }
    forall k, a, cs, s, t ensures RemoteLaw(w, v, k, a, cs, s, t) {
    }
  }

  // ---------- result variables ----------

  function Updated(a: Assignment, x: Term, u: Term): Assignment {
    y => if y == x then u else a(y)
  }

  lemma UpdatedOff(h: set<Role>, a: Assignment, x: Term, u: Term)
    requires x.Aux? && x.role in h
    ensures AgreeOff(h, a, Updated(a, x, u)) && AgreeOff(h, Updated(a, x, u), a) && AgreeExcept(x, Updated(a, x, u), a)
  {
  }

  lemma AgreeTransitive(h: set<Role>, a: Assignment, b: Assignment, c: Assignment)
    requires AgreeOff(h, a, b) && AgreeOff(h, b, c)
    ensures AgreeOff(h, a, c)
  {
  }

  lemma SetUpAdds(h: set<Role>, s: Store, t: Store, x: Term, value: Term)
    requires Covers(h, s, t) && x.Aux? && x.role in h && Clear(h, value)
    ensures Covers(h, s, SetUp(t, x, value))
  {
    forall a: Assignment | s.holds(a) ensures Covered(h, SetUp(t, x, value), a) {
      var b := Cover(h, s, t, a);
      var u := Inst(b, value);
      UpdatedOff(h, b, x, u);
      InstAgree(h, Updated(b, x, u), b, value);
      AgreeTransitive(h, a, b, Updated(b, x, u));
      assert SetUp(t, x, value).holds(Updated(b, x, u));
    }
  }

  lemma ExceptOff(h: set<Role>, x: Term, a: Assignment, b: Assignment)
    requires x.Aux? && x.role in h && AgreeExcept(x, a, b)
    ensures AgreeOff(h, a, b)
  {
  }

  lemma SetUpDrops(h: set<Role>, s: Store, t: Store, x: Term, value: Term)
    requires Covers(h, t, s) && x.Aux? && x.role in h
    ensures Covers(h, SetUp(t, x, value), s)
  {
    forall c: Assignment | SetUp(t, x, value).holds(c) ensures Covered(h, s, c) {
      var b: Assignment :| t.holds(b) && AgreeExcept(x, c, b);
      var a := Cover(h, t, s, b);
      ExceptOff(h, x, c, b);
      AgreeTransitive(h, c, b, a);
    }
  }

  lemma SetUpHidden(h: set<Role>, s: Store, t: Store, x: Term, value: Term)
    requires Same(h, s, t) && x.Aux? && x.role in h && Clear(h, value)
    ensures Same(h, s, SetUp(t, x, value))
  {
    SetUpAdds(h, s, t, x, value);
    SetUpDrops(h, s, t, x, value);
  }

  lemma InstOne(a: Assignment, t: Term)
    ensures InstAll(a, [t]) == [Inst(a, t)]
  {
  }

  lemma ResultEquivalent(t: Store, x: Term, value: Term, y: Term)
    requires x.Variable()
    ensures Equivalent(SetUp(t, x, value), [y], [value], [y], [x])
  {
    var t1 := SetUp(t, x, value);
    forall a: Assignment | t1.holds(a) ensures InstAll(a, [y]) == InstAll(a, [value]) <==> InstAll(a, [y]) == InstAll(a, [x]) {
      InstOne(a, value);
      InstOne(a, x);
    }
  }

  lemma ResultSame(h: set<Role>, s: Store, t: Store, x: Term, value: Term, y: Term)
    requires Same(h, s, t) && x.Aux? && x.role in h && Clear(h, value) && Clear(h, y)
    ensures SameOption(Looking(h, true), Unify(s, [y], [value]), Unify(SetUp(t, x, value), [y], [x]))
  {
    var t1 := SetUp(t, x, value);
    SetUpHidden(h, s, t, x, value);
    UnifySame(h, s, t1, [y], [value]);
    ResultEquivalent(t, x, value, y);
    SolutionsSame(h, t1, [y], [value], [y], [x]);
    OptionTransitive(h, Unify(s, [y], [value]), Unify(t1, [y], [value]), Unify(t1, [y], [x]));
  }

  lemma OptionTransitive(h: set<Role>, p: Option<Store>, q: Option<Store>, r: Option<Store>)
    requires SameOption(Looking(h, true), p, q) && SameOption(Looking(h, true), q, r)
    ensures SameOption(Looking(h, true), p, r)
  {
    if p.Some? {
      SameTransitive(h, p.value, q.value, r.value);
    }
  }

  /** Two pairs of term lists that unify under the same solutions. */
  ghost predicate Equivalent(s: Store, a: seq<Term>, b: seq<Term>, c: seq<Term>, d: seq<Term>) {
    forall x: Assignment :: s.holds(x) ==> (InstAll(x, a) == InstAll(x, b) <==> InstAll(x, c) == InstAll(x, d))
  }

  lemma EquivalentCovers(h: set<Role>, s: Store, a: seq<Term>, b: seq<Term>, c: seq<Term>, d: seq<Term>)
    requires Equivalent(s, a, b, c, d) && Solvable(s, a, b)
    ensures Solvable(s, c, d) && Covers(h, Unify(s, a, b).value, Unify(s, c, d).value)
  {
    var x: Assignment :| s.holds(x) && InstAll(x, a) == InstAll(x, b);
    assert InstAll(x, c) == InstAll(x, d);
    forall y: Assignment | Unify(s, a, b).value.holds(y) ensures Covered(h, Unify(s, c, d).value, y) {
      assert AgreeOff(h, y, y) && Unify(s, c, d).value.holds(y);
    }
  }

  lemma SolutionsSame(h: set<Role>, s: Store, a: seq<Term>, b: seq<Term>, c: seq<Term>, d: seq<Term>)
    requires Equivalent(s, a, b, c, d)
    ensures SameOption(Looking(h, true), Unify(s, a, b), Unify(s, c, d))
  {
    if Solvable(s, a, b) {
      EquivalentCovers(h, s, a, b, c, d);
    }
    if Solvable(s, c, d) {
      EquivalentCovers(h, s, c, d, a, b);
    }
  }

  lemma SameTransitive(h: set<Role>, r: Store, s: Store, t: Store)
    requires Same(h, r, s) && Same(h, s, t)
    ensures Same(h, r, t)
  {
    CoversTransitive(h, r, s, t);
    CoversTransitive(h, t, s, r);
  }

  lemma CoversTransitive(h: set<Role>, r: Store, s: Store, t: Store)
    requires Covers(h, r, s) && Covers(h, s, t)
    ensures Covers(h, r, t)
  {
    forall a: Assignment | r.holds(a) ensures Covered(h, t, a) {
      var b := Cover(h, r, s, a);
      var c := Cover(h, s, t, b);
      assert AgreeOff(h, a, c);
    }
  }

  lemma SameReflexive(h: set<Role>, s: Store)
    ensures Same(h, s, s)
  {
    forall a: Assignment | s.holds(a) ensures Covered(h, s, a) {
      assert AgreeOff(h, a, a);
    }
  }

  /** There is a runtime as meaning preservation requires it. */
  lemma ResultsCanBeHidden()
    ensures HidesResults(Solving(), Looking(SOURCE_FREE, true))
    ensures forall s: Store :: Looking(SOURCE_FREE, true).same(s, s)
  {
    var w, v, h := Solving(), Looking(SOURCE_FREE, true), SOURCE_FREE;
    OperationsRespect(h, true);
    forall s, t, frame, at, x, y ensures ResultLaw(w, v, s, t, frame, at, x, y) {
      if Same(h, s, t) && Clear(h, x) && Clear(h, y) {
        var result := Aux(ResultRole, frame, at);
        SetUpHidden(h, s, t, result, x);
        ResultSame(h, s, t, result, x, y);
      }
    }
    forall s: Store ensures v.same(s, s) {
      SameReflexive(h, s);
    }
  }

  // ---------- key variables ----------

  lemma SetUpCovers(h: set<Role>, s: Store, t: Store, x: Term, value: Term)
    requires Covers(h, s, t) && Clear(h, value)
    ensures Covers(h, SetUp(s, x, value), SetUp(t, x, value))
  {
    var s1, t1 := SetUp(s, x, value), SetUp(t, x, value);
    forall a: Assignment | s1.holds(a) ensures Covered(h, t1, a) {
      var b: Assignment :| s.holds(b) && AgreeExcept(x, a, b);
      var c := Cover(h, s, t, b);
      var d := Updated(c, x, a(x));
      assert AgreeOff(h, a, d) && AgreeExcept(x, d, c);
      InstAgree(h, a, d, value);
      assert t1.holds(d);
    }
  }

  lemma KeySolution(t: Store, t1: Store, a: Assignment, x: int)
    requires t1 == Opened(t, 1) && t1.holds(a)
    ensures t1.holds(Updated(a, Aux(KeyRole, t.next, 0), Int(x)))
  {
    var key := Aux(KeyRole, t.next, 0);
    var b: Assignment :| t.holds(b) && AgreeBelow(t.next, a, b);
    assert AgreeBelow(t.next, Updated(a, key, Int(x)), b);
  }

  lemma InstCons(a: Assignment, t: Term, rest: seq<Term>)
    ensures InstAll(a, [t] + rest) == [Inst(a, t)] + InstAll(a, rest)
  {
    assert ([t] + rest)[1..] == rest;
  }

  /** A solution of the head equations with the constant in place. */
  ghost predicate Plainly(s: Store, x: int, rest: seq<Term>, args: seq<Term>, a: Assignment) {
    s.holds(a) && [Int(x)] + InstAll(a, rest) == InstAll(a, args)
  }

  /** A solution of the head equations with the key, and of the key equation. */
  ghost predicate Keyed(t: Store, key: Term, x: int, rest: seq<Term>, args: seq<Term>, a: Assignment) {
    t.holds(a) && [a(key)] + InstAll(a, rest) == InstAll(a, args) && a(key) == Int(x)
  }

  lemma KeyDown(h: set<Role>, s: Store, t: Store, x: int, rest: seq<Term>, args: seq<Term>, a: Assignment) returns (b: Assignment)
    requires h == {KeyRole} && Covers(h, Opened(s, 1), Opened(t, 1)) && ClearAll(h, rest) && ClearAll(h, args)
    requires Plainly(Opened(s, 1), x, rest, args, a)
    ensures Keyed(Opened(t, 1), Aux(KeyRole, t.next, 0), x, rest, args, b) && AgreeOff(h, a, b)
  {
    var key := Aux(KeyRole, t.next, 0);
    var c := Cover(h, Opened(s, 1), Opened(t, 1), a);
    b := Updated(c, key, Int(x));
    KeySolution(t, Opened(t, 1), c, x);
    UpdatedOff(h, c, key, Int(x));
    AgreeTransitive(h, a, c, b);
    InstAllAgree(h, a, b, rest);
    InstAllAgree(h, a, b, args);
  }

  lemma KeyUp(h: set<Role>, s1: Store, t1: Store, key: Term, x: int, rest: seq<Term>, args: seq<Term>, b: Assignment)
    returns (a: Assignment)
    requires Covers(h, t1, s1) && ClearAll(h, rest) && ClearAll(h, args) && Keyed(t1, key, x, rest, args, b)
    ensures Plainly(s1, x, rest, args, a) && AgreeOff(h, b, a)
  {
    a := Cover(h, t1, s1, b);
    InstAllAgree(h, b, a, rest);
    InstAllAgree(h, b, a, args);
  }

  lemma PlainSolutions(s: Store, x: int, rest: seq<Term>, args: seq<Term>)
    ensures var r := Unify(s, [Int(x)] + rest, args);
            && (r.Some? <==> exists a: Assignment :: Plainly(s, x, rest, args, a))
            && (r.Some? ==> r.value.next == s.next && forall a: Assignment :: r.value.holds(a) <==> Plainly(s, x, rest, args, a))
  {
    var r := Unify(s, [Int(x)] + rest, args);
    forall a: Assignment ensures InstAll(a, [Int(x)] + rest) == [Int(x)] + InstAll(a, rest) {
      InstCons(a, Int(x), rest);
    }
    if r.Some? {
      var a: Assignment :| s.holds(a) && InstAll(a, [Int(x)] + rest) == InstAll(a, args);
      assert Plainly(s, x, rest, args, a);
    }
    if a: Assignment :| Plainly(s, x, rest, args, a) {
      assert s.holds(a) && InstAll(a, [Int(x)] + rest) == InstAll(a, args);
      assert Solvable(s, [Int(x)] + rest, args);
    }
  }

  /** A solution of the head equations with the key as it stands. */
  ghost predicate HeadHolds(t: Store, key: Term, rest: seq<Term>, args: seq<Term>, a: Assignment) {
    t.holds(a) && [a(key)] + InstAll(a, rest) == InstAll(a, args)
  }

  lemma HeadSolutions(t: Store, key: Term, rest: seq<Term>, args: seq<Term>)
    requires key.Aux?
    ensures var r := Unify(t, [key] + rest, args);
            && (r.Some? <==> exists a: Assignment :: HeadHolds(t, key, rest, args, a))
            && (r.Some? ==> r.value.next == t.next && forall a: Assignment :: r.value.holds(a) <==> HeadHolds(t, key, rest, args, a))
  {
    forall a: Assignment ensures InstAll(a, [key] + rest) == [a(key)] + InstAll(a, rest) {
      InstCons(a, key, rest);
    }
    var r := Unify(t, [key] + rest, args);
    if r.Some? {
      var a: Assignment :| t.holds(a) && InstAll(a, [key] + rest) == InstAll(a, args);
      assert HeadHolds(t, key, rest, args, a);
    }
    if a: Assignment :| HeadHolds(t, key, rest, args, a) {
      assert t.holds(a) && InstAll(a, [key] + rest) == InstAll(a, args);
      assert Solvable(t, [key] + rest, args);
    }
  }

  lemma KeySolutions(s: Store, key: Term, x: int)
    requires key.Aux?
    ensures var r := Unify(s, [key], [Int(x)]);
            && (r.Some? <==> exists a: Assignment :: s.holds(a) && a(key) == Int(x))
            && (r.Some? ==> r.value.next == s.next && forall a: Assignment :: r.value.holds(a) <==> s.holds(a) && a(key) == Int(x))
  {
    forall a: Assignment ensures InstAll(a, [key]) == [a(key)] && InstAll(a, [Int(x)]) == [Int(x)] {
      InstOne(a, key);
      InstOne(a, Int(x));
    }
    if a: Assignment :| s.holds(a) && a(key) == Int(x) {
      assert s.holds(a) && InstAll(a, [key]) == InstAll(a, [Int(x)]);
      assert Solvable(s, [key], [Int(x)]);
    }
  }

  lemma KeyedSolutions(t: Store, key: Term, x: int, rest: seq<Term>, args: seq<Term>)
    requires key.Aux?
    ensures var r := UnifyThenKey(Solving(), t, key, x, rest, args);
            && (r.Some? <==> exists a: Assignment :: Keyed(t, key, x, rest, args, a))
            && (r.Some? ==> r.value.next == t.next && forall a: Assignment :: r.value.holds(a) <==> Keyed(t, key, x, rest, args, a))
  {
    HeadSolutions(t, key, rest, args);
    var p := Unify(t, [key] + rest, args);
    if p.Some? {
      KeySolutions(p.value, key, x);
      if a: Assignment :| p.value.holds(a) && a(key) == Int(x) {
        assert Keyed(t, key, x, rest, args, a);
      }
    }
    if a: Assignment :| Keyed(t, key, x, rest, args, a) {
      assert HeadHolds(t, key, rest, args, a);
    }
  }

  lemma PlainIntoKeyed(h: set<Role>, s: Store, t: Store, x: int, rest: seq<Term>, args: seq<Term>)
    requires h == {KeyRole} && Covers(h, Opened(s, 1), Opened(t, 1)) && ClearAll(h, rest) && ClearAll(h, args)
    ensures var p := Unify(Opened(s, 1), [Int(x)] + rest, args);
            var q := UnifyThenKey(Solving(), Opened(t, 1), Aux(KeyRole, t.next, 0), x, rest, args);
            p.Some? ==> q.Some? && Covers(h, p.value, q.value)
  {
    var s1, t1, key := Opened(s, 1), Opened(t, 1), Aux(KeyRole, t.next, 0);
    var p, q := Unify(s1, [Int(x)] + rest, args), UnifyThenKey(Solving(), t1, key, x, rest, args);
    PlainSolutions(s1, x, rest, args);
    KeyedSolutions(t1, key, x, rest, args);
    if p.Some? {
      var a: Assignment :| Plainly(s1, x, rest, args, a);
      var b := KeyDown(h, s, t, x, rest, args, a);
      forall c: Assignment | p.value.holds(c) ensures Covered(h, q.value, c) {
        var d := KeyDown(h, s, t, x, rest, args, c);
      }
    }
  }

  lemma KeyedIntoPlain(h: set<Role>, s1: Store, t1: Store, key: Term, x: int, rest: seq<Term>, args: seq<Term>)
    requires Covers(h, t1, s1) && ClearAll(h, rest) && ClearAll(h, args) && key.Aux?
    ensures var p, q := Unify(s1, [Int(x)] + rest, args), UnifyThenKey(Solving(), t1, key, x, rest, args);
            q.Some? ==> p.Some? && Covers(h, q.value, p.value)
  {
    var p, q := Unify(s1, [Int(x)] + rest, args), UnifyThenKey(Solving(), t1, key, x, rest, args);
    PlainSolutions(s1, x, rest, args);
    KeyedSolutions(t1, key, x, rest, args);
    if q.Some? {
      var b: Assignment :| Keyed(t1, key, x, rest, args, b);
      var a := KeyUp(h, s1, t1, key, x, rest, args, b);
      forall d: Assignment | q.value.holds(d) ensures Covered(h, p.value, d) {
        var c := KeyUp(h, s1, t1, key, x, rest, args, d);
      }
    }
  }

  lemma KeySame(h: set<Role>, s: Store, t: Store, x: int, rest: seq<Term>, args: seq<Term>)
    requires h == {KeyRole} && Same(h, s, t) && ClearAll(h, rest) && ClearAll(h, args)
    ensures SameOption(Looking(h, true), Unify(Opened(s, 1), [Int(x)] + rest, args),
                       UnifyThenKey(Solving(), Opened(t, 1), Aux(KeyRole, t.next, 0), x, rest, args))
  {
    var key := Aux(KeyRole, t.next, 0);
    OpenedSame(h, s, t, 1);
    PlainIntoKeyed(h, s, t, x, rest, args);
    KeyedIntoPlain(h, Opened(s, 1), Opened(t, 1), key, x, rest, args);
    PlainSolutions(Opened(s, 1), x, rest, args);
    KeyedSolutions(Opened(t, 1), key, x, rest, args);
  }

  /** There is a runtime as the agreement of the back ends requires it. */
  lemma KeysCanBeHidden()
    ensures HidesKeys(Solving(), Looking({KeyRole}, false))
    ensures forall s: Store :: Looking({KeyRole}, false).same(s, s)
  {
    var w, v, h := Solving(), Looking({KeyRole}, false), {KeyRole};
    OperationsRespect(h, false);
    ViewsAlike(h, false);
    forall s, t, x, rest, args ensures KeyLaw(w, v, s, t, x, rest, args) {
      if Same(h, s, t) && ClearAll(h, rest) && ClearAll(h, args) { KeySame(h, s, t, x, rest, args); }
    }
    forall s, t, result, x ensures BindLaw(w, v, s, t, result, x) {
      if Same(h, s, t) && Clear(h, x) {
        SetUpCovers(h, s, t, result, x);
        SetUpCovers(h, t, s, result, x);
      }
    }
    forall s: Store ensures v.same(s, s) {
      SameReflexive(h, s);
    }
  }
}
