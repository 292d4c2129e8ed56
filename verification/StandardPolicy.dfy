/** The tables of the deployed policy. */
module StandardPolicy {
  import opened Terms
  import opened Policy
  import opened Source

  /** Predicates whose names are ordinary atoms. */
  function Plains(names: set<(string, nat)>): set<PI> {
    set p | p in names :: (Plain(p.0), p.1)
  }

  /** `iso_pure`: native predicates that may be called as they are. */
  const PURE: set<PI> := CORE + Plains(PURE_NAMES)

  const CORE: set<PI> := {
    (Key(TrueK), 0), (Key(FailK), 0), (Key(CutK), 0), (Key(EqualsK), 2), (Key(TermVariablesK), 2), (Key(IsK), 2), (Key(MemberK), 2)
  }

  const PURE_NAMES: set<(string, nat)> := {
    ("false", 0), ("repeat", 0), ("throw", 1), ("unify_with_occurs_check", 2), ("\\=", 2),
    ("subsumes_term", 2), ("var", 1), ("atom", 1), ("integer", 1), ("float", 1), ("atomic", 1), ("compound", 1),
    ("nonvar", 1), ("number", 1), ("callable", 1), ("ground", 1), ("acyclic_term", 1), ("@=<", 2), ("==", 2),
    ("\\==", 2), ("@<", 2), ("@>", 2), ("@>=", 2), ("compare", 3), ("sort", 2), ("keysort", 2), ("functor", 3),
    ("arg", 3), ("=..", 2), ("copy_term", 2), ("=:=", 2), ("=\\=", 2), ("<", 2),
    ("=<", 2), (">", 2), (">=", 2), ("atom_length", 2), ("atom_concat", 3), ("sub_atom", 5), ("atom_chars", 2),
    ("atom_codes", 2), ("char_code", 2), ("number_chars", 2), ("number_codes", 2), ("append", 3),
    ("length", 2), ("between", 3), ("select", 3), ("succ", 2), ("nth", 3)
  }

  /** Predicates that are always replaced by a guarded library version, before any table is consulted. */
  const GUARDED: set<PI> := {(Key(YieldK), 2)} + Plains(GUARDED_NAMES)

  const GUARDED_NAMES: set<(string, nat)> := {
    ("throw", 1), ("succ", 2), ("between", 3), ("length", 2), ("atom_length", 2),
    ("atom_codes", 2), ("atom_chars", 2), ("char_code", 2), ("number_codes", 2),
    ("number_chars", 2), ("atom_concat", 3), ("sub_atom", 5),
    ("sort", 2), ("keysort", 2), ("=..", 2), ("arg", 3),
    ("=:=", 2), ("=\\=", 2), ("<", 2), ("=<", 2), (">", 2), (">=", 2),
    ("nth0", 3), ("nth1", 3), ("nth0", 4), ("nth1", 4), ("runtime_property", 1),
    ("promise_cleanup", 1)
  }

  /** `iso_rpc_reserved`. */
  const WRAPPERS: set<PI> := {
    (Key(RpcK), 2), (Key(RpcK), 3), (Key(PromiseK), 3), (Key(PromiseK), 4), (Key(YieldK), 2), (Key(YieldK), 3),
    (Plain("promise_cleanup"), 1), (Plain("nth0"), 3), (Plain("nth0"), 4), (Plain("nth1"), 3), (Plain("nth1"), 4),
    (Key(CallNthK), 2), (Key(TimeK), 1), (Plain("runtime_property"), 1)
  }

  const HOOKS: set<Name> := {
    Plain("term_expansion"), Plain("goal_expansion"), Plain(":-"), Plain("?-"), Plain(":")
  }

  const TABLES := Names({}, {}, PURE, GUARDED)

  lemma CoreIsKeys()
    ensures forall f: Name, n: nat :: (f, n) in CORE ==> f.Key?
    ensures (Key(FailK), 0) in CORE && (Key(EqualsK), 2) in CORE && (Key(TermVariablesK), 2) in CORE
  {
  }

  lemma KeysAndPlainsAdmissible(core: set<PI>, names: set<(string, nat)>, ns: Names, rs: Reserved)
    requires ns.pure == core + Plains(names) && ns.pure <= rs.runtime
    requires forall f: Name, n: nat :: (f, n) in core ==> f.Key?
    requires (Key(FailK), 0) in core && (Key(EqualsK), 2) in core && (Key(TermVariablesK), 2) in core
    ensures Admissible(ns, rs)
  {
  }

  /** The deployed tables satisfy what the theorems ask of a policy, on any runtime that defines the pure predicates. */
  lemma TablesAreAdmissible(runtime: set<PI>, maxArity: nat)
    requires PURE <= runtime
    ensures Admissible(TABLES, Reserved(WRAPPERS, runtime, HOOKS, maxArity))
  {
    CoreIsKeys();
    KeysAndPlainsAdmissible(CORE, PURE_NAMES, TABLES, Reserved(WRAPPERS, runtime, HOOKS, maxArity));
  }
}
