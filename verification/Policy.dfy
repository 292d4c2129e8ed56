/** The goal rewriter, a compiler from Prolog goals to guarded goals. */
module Policy {
  import opened Terms

  datatype Ball =
    | Instantiation(where: Keyword)
    | CyclicTerm
    | Permission(name: Name, arity: nat)
    | NotCallable(culprit: Term)
    | BadClosure(culprit: Term, atomWanted: bool)
    | ClauseAccess(culprit: Term)
    | BadCount(culprit: Term)
    | NegativeCount(count: int)
    | UserBall(ball: Term)

  /** Which names the policy knows. `owned` and `shared` are the registered predicates of the two sources, `pure` the
      admitted native predicates and `guarded` the native predicates replaced by a guarded library version. */
  datatype Names = Names(owned: set<PI>, shared: set<PI>, pure: set<PI>, guarded: set<PI>)

  datatype Control = And | Or | Then | Catching | Opaque(kind: OpaqueKind)

  function OpaqueArity(k: OpaqueKind): nat {
    match k
    case CallNthO => 2
    case FindallO => 3
    case _ => 1
  }

  function GoalIndex(k: OpaqueKind): (i: nat)
    ensures i < OpaqueArity(k)
  {
    if k.FindallO? then 1 else 0
  }

  function ControlOf(f: Name, n: nat): (c: Option<Control>)
    ensures c.Some? ==> f.Key?
    ensures c.Some? ==> n == match c.value { case Opaque(k) => OpaqueArity(k) case Catching => 3 case _ => 2 }
  {
    if !f.Key? then None else
    match f.k
    case CommaK => if n == 2 then Some(And) else None
    case SemicolonK => if n == 2 then Some(Or) else None
    case ArrowK => if n == 2 then Some(Then) else None
    case CatchK => if n == 3 then Some(Catching) else None
    case OnceK => if n == 1 then Some(Opaque(OnceO)) else None
    case NotK => if n == 1 then Some(Opaque(NotO)) else None
    case TimeK => if n == 1 then Some(Opaque(TimeO)) else None
    case CallNthK => if n == 2 then Some(Opaque(CallNthO)) else None
    case FindallK => if n == 3 then Some(Opaque(FindallO)) else None
    case _ => None
  }

  function DeferredOf(f: Name, n: nat): (d: Option<DeferredKind>)
    ensures d.Some? ==> f.Key? && n >= 1
  {
    if !f.Key? then None else
    match f.k
    case BagofK => if n == 3 then Some(BagofD) else None
    case SetofK => if n == 3 then Some(SetofD) else None
    case PhraseK => if n == 2 || n == 3 then Some(PhraseD) else None
    case ClauseK => if n == 2 then Some(ClauseD) else None
    case RpcK => if n == 2 || n == 3 then Some(RpcD) else None
    case PromiseK => if n == 3 || n == 4 then Some(PromiseD) else None
    case YieldK => if n == 3 then Some(YieldD) else None
    case MaplistK => if 2 <= n <= 5 then Some(MaplistD) else None
    case FoldlK => if 4 <= n <= 7 then Some(FoldlD) else None
    case CallK => if 1 <= n <= 8 then Some(CallD) else None
    case _ => None
  }

  function ComputedOf(f: Name, n: nat): (c: Option<ComputedKind>)
    ensures c.Some? ==> f.Key? && n == 2 && ControlOf(f, n).None? && DeferredOf(f, n).None?
  {
    if f == Key(IsK) && n == 2 then Some(EvaluateC)
    else if f == Key(TermVariablesK) && n == 2 then Some(VariablesC)
    else None
  }

  /** Which argument a computation reads; its result goes to the other one. */
  function InputIndex(c: ComputedKind): (i: nat)
    ensures i < 2
  {
    if c.EvaluateC? then 1 else 0
  }

  /** The predicate that an emitted computation calls. */
  function Computing(c: ComputedKind): Name {
    if c.EvaluateC? then Iso(Evaluate) else Key(TermVariablesK)
  }

  function Defer(kind: DeferredKind, sc: Scope, args: seq<Term>): Term {
    Struct(Iso(Deferred(kind, sc)), args)
  }

  /** The functor under which an opaque construct is emitted: once/1 and \+/1 stay native. */
  function Emitted(f: Name, k: OpaqueKind): Name {
    if k.OnceO? || k.NotO? then f else Iso(Inner(k))
  }

  /** A goal that leaves its result in a variable of its own, and the unification of the caller's argument with it. */
  function ThenUnify(goal: Term, out: Term, result: Term): Term {
    Struct(Key(CommaK), [goal, Struct(Key(EqualsK), [out, result])])
  }

  /** `iso_rewrite_in(Scope, G, Safe)`. The result variables that the rewriter adds belong to the given frame and are
      numbered by position: the goals inside the goal at position p are at 2p and 2p + 1. */
  function Rewrite(ns: Names, sc: Scope, g: Term, frame: nat, at: nat): Result<Term, Ball>
    decreases g, 1
  {
    match g
    case Var(_, _) => Ok(Defer(ExecuteD, sc, [g]))
    case Aux(_, _, _) => Ok(Defer(ExecuteD, sc, [g]))
    case Int(_) => Err(NotCallable(g))
    case Struct(f, args) =>
      match ControlOf(f, |args|)
      case Some(Catching) => RewriteBoth(ns, sc, g, 0, 2, frame, at)
      case Some(Opaque(k)) =>
        (match Rewrite(ns, sc, args[GoalIndex(k)], frame, 2 * at)
         case Err(e) => Err(e)
         case Ok(safe) => Ok(EmitOpaque(f, k, args, safe, Aux(ResultRole, frame, at))))
      case Some(_) => RewriteBoth(ns, sc, g, 0, 1, frame, at)
      case None =>
        match DeferredOf(f, |args|)
        case Some(kind) => Ok(Defer(kind, sc, args))
        case None =>
          match ComputedOf(f, |args|)
          case Some(c) => Ok(EmitComputed(c, args, Aux(ResultRole, frame, at)))
          case None => Resolve(ns, sc, f, args)
  }

  /** An opaque construct around its rewritten goal; findall/3 collects into a variable of its own first. */
  function EmitOpaque(f: Name, k: OpaqueKind, args: seq<Term>, safe: Term, result: Term): Term
    requires |args| == OpaqueArity(k)
  {
    var goal := Struct(Emitted(f, k), args[GoalIndex(k) := safe]);
    if k.FindallO? then ThenUnify(goal.(args := goal.args[2 := result]), args[2], result) else goal
  }

  function EmitComputed(c: ComputedKind, args: seq<Term>, result: Term): Term
    requires |args| == 2
  {
    ThenUnify(Struct(Computing(c), [args[InputIndex(c)], result]), args[1 - InputIndex(c)], result)
  }

  /** Rewrites the goals at positions i and j of a control construct, left to right. */
  function RewriteBoth(ns: Names, sc: Scope, g: Term, i: nat, j: nat, frame: nat, at: nat): Result<Term, Ball>
    requires g.Struct? && i < j < |g.args|
    decreases g, 0
  {
    match Rewrite(ns, sc, g.args[i], frame, 2 * at)
    case Err(e) => Err(e)
    case Ok(a) =>
      match Rewrite(ns, sc, g.args[j], frame, 2 * at + 1)
      case Err(e) => Err(e)
      case Ok(b) => Ok(Struct(g.functor, g.args[i := a][j := b]))
  }

  /** Name resolution of an ordinary goal: guarded library, then owned (local scope only), then shared, then pure. */
  function Resolve(ns: Names, sc: Scope, f: Name, args: seq<Term>): Result<Term, Ball> {
    var n := |args|;
    if (f, n) in ns.guarded then Ok(Struct(Iso(Guarded(f)), args))
    else if sc == Local && (f, n) in ns.owned then Ok(Struct(f, args))
    else if (f, n) in ns.shared then Ok(Struct(Internal(f), args))
    else if (f, n) in ns.pure then Ok(Struct(f, args))
    else Err(Permission(f, n))
  }

  /** What the policy promises about a goal, said without the rewriting: the leftmost subgoal in a goal position that
      names nothing callable in this scope, if there is one. */
  function FirstForbidden(ns: Names, sc: Scope, g: Term): Option<Ball> {
    match g
    case Var(_, _) => None
    case Aux(_, _, _) => None
    case Int(_) => Some(NotCallable(g))
    case Struct(f, args) =>
      match ControlOf(f, |args|)
      case Some(Catching) => FirstOf(FirstForbidden(ns, sc, args[0]), FirstForbidden(ns, sc, args[2]))
      case Some(Opaque(k)) => FirstForbidden(ns, sc, args[GoalIndex(k)])
      case Some(_) => FirstOf(FirstForbidden(ns, sc, args[0]), FirstForbidden(ns, sc, args[1]))
      case None =>
        if DeferredOf(f, |args|).Some? || ComputedOf(f, |args|).Some? || Known(ns, sc, f, |args|) then None
        else Some(Permission(f, |args|))
  }

  function FirstOf(a: Option<Ball>, b: Option<Ball>): Option<Ball> {
    if a.Some? then a else b
  }

  predicate Known(ns: Names, sc: Scope, f: Name, n: nat) {
    (f, n) in ns.guarded || (sc == Local && (f, n) in ns.owned) || (f, n) in ns.shared || (f, n) in ns.pure
  }

  /** The rewriter rejects a goal exactly when some subgoal is forbidden, and with the leftmost one's error. */
  lemma {:induction false} RewriteRejects(ns: Names, sc: Scope, g: Term, frame: nat, at: nat)
    ensures Rewrite(ns, sc, g, frame, at).Ok? <==> FirstForbidden(ns, sc, g).None?
    ensures Rewrite(ns, sc, g, frame, at).Err? ==> FirstForbidden(ns, sc, g) == Some(Rewrite(ns, sc, g, frame, at).error)
  {
    if g.Struct? {
      match ControlOf(g.functor, |g.args|)
      case Some(Catching) =>
        RewriteRejects(ns, sc, g.args[0], frame, 2 * at);
        RewriteRejects(ns, sc, g.args[2], frame, 2 * at + 1);
      case Some(Opaque(k)) =>
        RewriteRejects(ns, sc, g.args[GoalIndex(k)], frame, 2 * at);
      case Some(_) =>
        RewriteRejects(ns, sc, g.args[0], frame, 2 * at);
        RewriteRejects(ns, sc, g.args[1], frame, 2 * at + 1);
      case None =>
    }
  }

  predicate IsArrow(t: Term) {
    t.Struct? && ControlOf(t.functor, |t.args|) == Some(Then)
  }

  /** Rewriting neither creates nor destroys an if-then-else: the result is an arrow exactly when the goal was. */
  lemma RewriteKeepsArrows(ns: Names, sc: Scope, g: Term, frame: nat, at: nat)
    requires Rewrite(ns, sc, g, frame, at).Ok?
    ensures IsArrow(Rewrite(ns, sc, g, frame, at).value) <==> IsArrow(g)
  {
  }

  /** Rewriting commutes with giving a clause fresh variables, so rewriting once at load time is enough. */
  lemma {:induction false} RewriteCommutesWithRename(ns: Names, sc: Scope, g: Term, frame: nat, at: nat, k: nat)
    ensures Rewrite(ns, sc, g, frame, at).Ok? ==>
              Rewrite(ns, sc, Rename(g, k), k, at) == Ok(Rename(Rewrite(ns, sc, g, frame, at).value, k))
    ensures Rewrite(ns, sc, g, frame, at).Err? ==> Rewrite(ns, sc, Rename(g, k), k, at).Err?
    decreases g, 1
  {
    if g.Variable() {
      assert RenameAll([g], k) == [Rename(g, k)];
    } else if g.Struct? {
      var n := |g.args|;
      match ControlOf(g.functor, n)
      case Some(Catching) =>
        RenameBoth(ns, sc, g, 0, 2, frame, at, k);
      case Some(Opaque(o)) =>
        var i := GoalIndex(o);
        RewriteCommutesWithRename(ns, sc, g.args[i], frame, 2 * at, k);
        if Rewrite(ns, sc, g, frame, at).Ok? {
          RenameOpaque(g.functor, o, g.args, Rewrite(ns, sc, g.args[i], frame, 2 * at).value, frame, at, k);
        }
      case Some(_) =>
        RenameBoth(ns, sc, g, 0, 1, frame, at, k);
      case None =>
        if ComputedOf(g.functor, n).Some? {
          RenameComputed(ComputedOf(g.functor, n).value, g.args, frame, at, k);
        }
    }
  }

  lemma RenameUnify(goal: Term, out: Term, result: Term, k: nat)
    ensures Rename(ThenUnify(goal, out, result), k) == ThenUnify(Rename(goal, k), Rename(out, k), Rename(result, k))
  {
    var eq := Struct(Key(EqualsK), [out, result]);
    assert RenameAll([out, result], k) == [Rename(out, k), Rename(result, k)];
    assert RenameAll([goal, eq], k) == [Rename(goal, k), Rename(eq, k)];
  }

  lemma RenameOpaque(f: Name, o: OpaqueKind, args: seq<Term>, safe: Term, frame: nat, at: nat, k: nat)
    requires |args| == OpaqueArity(o)
    ensures Rename(EmitOpaque(f, o, args, safe, Aux(ResultRole, frame, at)), k) ==
            EmitOpaque(f, o, RenameAll(args, k), Rename(safe, k), Aux(ResultRole, k, at))
  {
    var i, v, renamed := GoalIndex(o), Aux(ResultRole, frame, at), RenameAll(args, k);
    assert RenameAll(args[i := safe], k) == renamed[i := Rename(safe, k)];
    if o.FindallO? {
      assert RenameAll(args[i := safe][2 := v], k) == renamed[i := Rename(safe, k)][2 := Rename(v, k)];
      RenameUnify(Struct(Emitted(f, o), args[i := safe][2 := v]), args[2], v, k);
    }
  }

  lemma RenameComputed(c: ComputedKind, args: seq<Term>, frame: nat, at: nat, k: nat)
    requires |args| == 2
    ensures Rename(EmitComputed(c, args, Aux(ResultRole, frame, at)), k) ==
            EmitComputed(c, RenameAll(args, k), Aux(ResultRole, k, at))
  {
    var v, input := Aux(ResultRole, frame, at), args[InputIndex(c)];
    assert RenameAll([input, v], k) == [Rename(input, k), Rename(v, k)];
    RenameUnify(Struct(Computing(c), [input, v]), args[1 - InputIndex(c)], v, k);
  }

  lemma RenameTwo(args: seq<Term>, i: nat, j: nat, a: Term, b: Term, k: nat)
    requires i < j < |args|
    ensures RenameAll(args[i := a][j := b], k) == RenameAll(args, k)[i := Rename(a, k)][j := Rename(b, k)]
  {
  }

  lemma {:induction false} RenameBoth(ns: Names, sc: Scope, g: Term, i: nat, j: nat, frame: nat, at: nat, k: nat)
    requires g.Struct? && i < j < |g.args|
    ensures RewriteBoth(ns, sc, g, i, j, frame, at).Ok? ==>
              RewriteBoth(ns, sc, Rename(g, k), i, j, k, at) == Ok(Rename(RewriteBoth(ns, sc, g, i, j, frame, at).value, k))
    ensures RewriteBoth(ns, sc, g, i, j, frame, at).Err? ==> RewriteBoth(ns, sc, Rename(g, k), i, j, k, at).Err?
    decreases g, 0
  {
    hide Rewrite;
    RewriteCommutesWithRename(ns, sc, g.args[i], frame, 2 * at, k);
    RewriteCommutesWithRename(ns, sc, g.args[j], frame, 2 * at + 1, k);
    if RewriteBoth(ns, sc, g, i, j, frame, at).Ok? {
      var a, b := Rewrite(ns, sc, g.args[i], frame, 2 * at).value, Rewrite(ns, sc, g.args[j], frame, 2 * at + 1).value;
      RenameTwo(g.args, i, j, a, b, k);
    }
  }
}
