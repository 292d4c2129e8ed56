/** Clauses with a wide integer as their first argument are kept out of the native integer index. */
module WideKeys {
  import opened Terms

  const KEY_LIMIT := 1_000_000_000

  predicate Wide(v: int) {
    v < -KEY_LIMIT || v > KEY_LIMIT
  }

  /** The variable that stands for a moved key. No clause mentions it before. */
  const KEY := Aux(KeyRole, 0, 0)

  /** Clauses that the emitter gets: they have no key variables. */
  predicate Unkeyed(c: Clause) {
    Clear({KeyRole}, c.head) && Clear({KeyRole}, c.body)
  }

  predicate NeedsKey(c: Clause) {
    c.head.Struct? && c.head.args != [] && c.head.args[0].Int? && Wide(c.head.args[0].value)
  }

  /** `iso_native_index_safe`. */
  function IndexSafe(c: Clause): Clause {
    if NeedsKey(c) then
      Clause(Struct(c.head.functor, [KEY] + c.head.args[1..]),
             Struct(Key(CommaK), [Struct(Iso(NativeKey), [KEY, c.head.args[0]]), c.body]))
    else c
  }

  /** A clause is changed exactly if its first argument is an integer beyond a thousand million in absolute value; it stays a clause
      of its predicate, with all its other arguments. */
  lemma MovedExactly(c: Clause)
    ensures IndexSafe(c) != c <==>
            c.head.Struct? && c.head.args != [] && c.head.args[0].Int? &&
            (c.head.args[0].value > 1_000_000_000 || c.head.args[0].value < -1_000_000_000)
    ensures c.head.Struct? ==>
              HasFunctor(IndexSafe(c).head, c.head.functor, |c.head.args|) &&
              forall i :: 1 <= i < |c.head.args| ==> IndexSafe(c).head.args[i] == c.head.args[i]
  {
    if NeedsKey(c) {
      assert IndexSafe(c).head.args[0] == KEY;
    }
  }

  /** Values of variables. */
  type Assignment = Term -> Term

  function InstAll(a: Assignment, ts: seq<Term>): (r: seq<Term>)
    ensures |r| == |ts| && forall i :: 0 <= i < |ts| ==> r[i] == Inst(a, ts[i])
  {
    if ts == [] then [] else [Inst(a, ts[0])] + InstAll(a, ts[1..])
  }

  function Inst(a: Assignment, t: Term): Term {
    match t
    case Var(_, _) => a(t)
    case Aux(_, _, _) => a(t)
    case Int(_) => t
    case Struct(f, args) => Struct(f, InstAll(a, args))
  }

  function With(a: Assignment, v: Term, x: Term): Assignment {
    t => if t == v then x else a(t)
  }

  lemma {:induction false} InstFresh(a: Assignment, x: Term, t: Term)
    requires Clear({KeyRole}, t)
    ensures Inst(With(a, KEY, x), t) == Inst(a, t)
  {
    if t.Struct? {
      InstAllFresh(a, x, t.args);
    }
  }

  lemma {:induction false} InstAllFresh(a: Assignment, x: Term, ts: seq<Term>)
    requires ClearAll({KeyRole}, ts)
    ensures InstAll(With(a, KEY, x), ts) == InstAll(a, ts)
  {
    if ts != [] {
      InstFresh(a, x, ts[0]);
      InstAllFresh(a, x, ts[1..]);
    }
  }

  /** The moved constant holds: the first goal of the transformed body is an equation between its two arguments. */
  predicate KeyHolds(a: Assignment, c: Clause) {
    var safe := IndexSafe(c);
    safe.body.Struct? && |safe.body.args| == 2 && safe.body.args[0].Struct? && |safe.body.args[0].args| == 2 &&
    Inst(a, safe.body.args[0].args[0]) == Inst(a, safe.body.args[0].args[1])
  }

  /** For every call with the given actual arguments: an assignment answers the original head exactly when some value
      of the key variable answers the transformed head and its first goal; that value is unique and the rest of the
      body is the same instance. */
  lemma IndexSafeSolutions(a: Assignment, c: Clause, actual: seq<Term>)
    requires NeedsKey(c) && Unkeyed(c)
    ensures InstAll(a, c.head.args) == actual <==>
            exists x :: InstAll(With(a, KEY, x), IndexSafe(c).head.args) == actual && KeyHolds(With(a, KEY, x), c)
    ensures forall x :: KeyHolds(With(a, KEY, x), c) ==> x == c.head.args[0]
    ensures forall x :: Inst(With(a, KEY, x), IndexSafe(c).body.args[1]) == Inst(a, c.body)
  {
    var v, rest := c.head.args[0], c.head.args[1..];
    assert c.head.args == [v] + rest && ClearAll({KeyRole}, c.head.args);
    forall x
      ensures InstAll(With(a, KEY, x), IndexSafe(c).head.args) == [x] + InstAll(a, rest)
      ensures Inst(With(a, KEY, x), c.body) == Inst(a, c.body)
    {
      InstAllFresh(a, x, rest);
      InstFresh(a, x, c.body);
      assert ([KEY] + rest)[1..] == rest;
    }
    assert InstAll(a, c.head.args) == [v] + InstAll(a, rest);
    if InstAll(a, c.head.args) == actual {
      assert InstAll(With(a, KEY, v), IndexSafe(c).head.args) == actual && KeyHolds(With(a, KEY, v), c);
    }
  }

  /** Conversion to a C `int`. */
  function ToInt32(v: int): int {
    (v + 0x8000_0000) % 0x1_0000_0000 - 0x8000_0000
  }

  /** Every integer key left in a head survives the truncation of the index, and the subtraction by which the index
      sorts keys has the right sign for every pair of them. */
  lemma IndexKeysFit(c: Clause, d: Clause)
    requires IndexSafe(c).head.Struct? && IndexSafe(c).head.args != [] && IndexSafe(c).head.args[0].Int?
    requires IndexSafe(d).head.Struct? && IndexSafe(d).head.args != [] && IndexSafe(d).head.args[0].Int?
    ensures var x, y := IndexSafe(c).head.args[0].value, IndexSafe(d).head.args[0].value;
            && ToInt32(x) == x
            && ToInt32(ToInt32(x) - ToInt32(y)) == x - y
  {
  }
}
