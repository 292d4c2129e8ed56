/** Prolog terms as the execution policy sees them.

    Atoms are interned symbols: every atom that the policy mentions by name has its own constructor, so that a prefix
    test of the source program becomes a test of the constructor. */
module Terms {

  datatype Option<+T> = None | Some(value: T)

  datatype Result<+T, +E> = Ok(value: T) | Err(error: E)

  /** The two resolution contexts: request-local source and the shared database. */
  datatype Scope = Local | Shared

  datatype Keyword =
    | CommaK | SemicolonK | ArrowK | CutK | TrueK | FailK | CaretK
    | OnceK | NotK | TimeK | CallNthK | CatchK | FindallK
    | BagofK | SetofK | PhraseK | CallK | MaplistK | FoldlK | ClauseK | RpcK | PromiseK | YieldK
    | IsK | TermVariablesK | EqualsK | MemberK | TimesK | NilK | ListK | TupleK | ExecuteK

  /** Constructs whose goal argument is run behind a cut barrier and whose answers are then post-processed. */
  datatype OpaqueKind = OnceO | NotO | TimeO | CallNthO | FindallO

  /** Predicates that compute one result from the bindings and unify it with their other argument. */
  datatype ComputedKind = EvaluateC | VariablesC

  /** Constructs that keep their goal argument unrewritten and check it when they are invoked. */
  datatype DeferredKind =
    | ExecuteD | CallD | MaplistD | FoldlD | BagofD | SetofD | PhraseD | ClauseD | RpcD | PromiseD | YieldD

  /** The `iso_` predicates of the runtime. The scope is always a constant of the rewritten text, so it is carried
      in the name. */
  datatype Guard =
    | Deferred(kind: DeferredKind, scope: Scope)
    | Inner(opaqueKind: OpaqueKind)
    | Guarded(of: Name)
    | Evaluate             // iso_eval/2
    | NativeKey            // iso_native_key/2, the equation that emitted clauses may begin with
    | OtherIso(rest: string)

  datatype Name =
    | Key(k: Keyword)
    | Plain(text: string)
    | Internal(of: Name)     // '$shared$' followed by the name of a shared predicate
    | Dollar(text: string)   // any other atom that begins with '$'
    | Iso(guard: Guard)      // atoms that begin with iso_

  type PI = (Name, nat)

  /** What a variable that no source text mentions is for: it holds a result until the caller's argument is unified with
      it, or it stands for a key that was moved out of a clause head. */
  datatype Role = ResultRole | KeyRole

  /** Variables carry the activation frame that created them; clause variables are renamed by changing the frame.
      Variables that the rewriter and the emitter add are told apart by their role. */
  datatype Term =
    | Var(frame: nat, index: nat)
    | Aux(role: Role, frame: nat, index: nat)
    | Int(value: int)
    | Struct(functor: Name, args: seq<Term>)
  {
    predicate Variable() {
      Var? || Aux?
    }
  }

  datatype Clause = Clause(head: Term, body: Term)

  function Nil(): Term {
    Struct(Key(NilK), [])
  }

  function Cons(head: Term, tail: Term): Term {
    Struct(Key(ListK), [head, tail])
  }

  function RenameAll(ts: seq<Term>, frame: nat): (r: seq<Term>)
    ensures |r| == |ts| && forall i :: 0 <= i < |ts| ==> r[i] == Rename(ts[i], frame)
  {
    if ts == [] then [] else [Rename(ts[0], frame)] + RenameAll(ts[1..], frame)
  }

  /** A copy of a clause term with variables of its own. */
  function Rename(t: Term, frame: nat): Term {
    match t
    case Var(_, i) => Var(frame, i)
    case Aux(r, _, i) => Aux(r, frame, i)
    case Int(_) => t
    case Struct(f, args) => Struct(f, RenameAll(args, frame))
  }

  /** No variable of these roles occurs in the term. */
  predicate Clear(hidden: set<Role>, t: Term) {
    match t
    case Var(_, _) => true
    case Aux(r, _, _) => r !in hidden
    case Int(_) => true
    case Struct(_, args) => ClearAll(hidden, args)
  }

  predicate ClearAll(hidden: set<Role>, ts: seq<Term>) {
    forall i :: 0 <= i < |ts| ==> Clear(hidden, ts[i])
  }

  predicate ClearClauses(hidden: set<Role>, cs: seq<Clause>) {
    forall i :: 0 <= i < |cs| ==> Clear(hidden, cs[i].head) && Clear(hidden, cs[i].body)
  }

  lemma {:induction false} RenameClear(hidden: set<Role>, t: Term, frame: nat)
    ensures Clear(hidden, Rename(t, frame)) == Clear(hidden, t)
  {
    if t.Struct? {
      forall i | 0 <= i < |t.args| ensures Clear(hidden, Rename(t.args[i], frame)) == Clear(hidden, t.args[i]) {
        RenameClear(hidden, t.args[i], frame);
      }
      assert Clear(hidden, Rename(t, frame)) == ClearAll(hidden, RenameAll(t.args, frame));
      assert ClearAll(hidden, RenameAll(t.args, frame)) <==> ClearAll(hidden, t.args) by {
        var r := RenameAll(t.args, frame);
        assert forall i :: 0 <= i < |r| ==> r[i] == Rename(t.args[i], frame);
        if ClearAll(hidden, r) {
          forall i | 0 <= i < |t.args| ensures Clear(hidden, t.args[i]) {
            assert Clear(hidden, r[i]);
          }
        }
      }
    }
  }

  /** The functor of a clause head; `current_predicate` and clause selection compare it. */
  predicate HasFunctor(t: Term, f: Name, n: nat) {
    t.Struct? && t.functor == f && |t.args| == n
  }

  /** The clauses of one predicate, in source order. */
  function Matching(cs: seq<Clause>, f: Name, n: nat): seq<Clause> {
    if cs == [] then []
    else (if HasFunctor(cs[0].head, f, n) then [cs[0]] else []) + Matching(cs[1..], f, n)
  }

  lemma {:induction false} MatchingConcat(a: seq<Clause>, b: seq<Clause>, f: Name, n: nat)
    ensures Matching(a + b, f, n) == Matching(a, f, n) + Matching(b, f, n)
  {
    if a == [] {
      assert a + b == b;
    } else {
      assert (a + b)[1..] == a[1..] + b && (a + b)[0] == a[0];
      MatchingConcat(a[1..], b, f, n);
      var own := if HasFunctor(a[0].head, f, n) then [a[0]] else [];
      assert own + (Matching(a[1..], f, n) + Matching(b, f, n)) == own + Matching(a[1..], f, n) + Matching(b, f, n);
    }
  }

  lemma {:induction false} MatchingClear(hidden: set<Role>, cs: seq<Clause>, f: Name, n: nat)
    requires ClearClauses(hidden, cs)
    ensures ClearClauses(hidden, Matching(cs, f, n))
  {
    if cs != [] {
      MatchingClear(hidden, cs[1..], f, n);
    }
  }

  lemma {:induction false} MatchingAll(cs: seq<Clause>, f: Name, n: nat)
    ensures forall c :: c in Matching(cs, f, n) <==> c in cs && HasFunctor(c.head, f, n)
  {
    if cs != [] {
      MatchingAll(cs[1..], f, n);
    }
  }
}
