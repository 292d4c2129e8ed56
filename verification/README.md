# ISOBASE: a verified model of the query node

ISOBASE answers Prolog queries over HTTP. A query goal is compiled to a guarded goal and run by a worker process; a
supervisor bounds the worker; a controller keeps suspended workers as a cache of continuations and sheds them under
memory pressure; a Prolog client walks the pages of a remote query through a small table of transport slots. This
project models these parts and proves what they promise; `dafny verify dfyconfig.toml` verifies all of it.

The code that computes by clauses (`policy.pl`, `source.pl`, `compile_shared.pl`, `text.pl`, `rpc.pl`) is modelled by
functions. The code that changes state in place is modelled by classes and methods (`Worker`, `Controller`, `Pool`,
`EventLoop`, the spine walk, the JSON and UTF-8 scanners, the ARM64 pass). Each of those methods is proved equal to a
function, and the theorems about whole runs are about these functions.

| part | modules |
|---|---|
| goals, rewriting, the two interpreters | `Terms`, `Policy`, `Tables`, `Runs`, `Runtime`, `Grouping`, `Interpreters` |
| what goals come to | `GoalLaws`, `GroupLaws`, `Meanings`, `Closures`, `Solutions` |
| when two runs are the same | `Simulation`, `Herbrand` |
| meaning, confinement, non-interference | `Compilation`, `EmittedGoals`, `Preservation`, `Reference`, `Regrouping`, `Monitoring`, `SharedScope`, `Isolation`, `Source`, `SourceOrder`, `StandardPolicy` |
| the second back end | `CompiledDatabase`, `WideKeys`, `IndexedRuns`, `EmittedNodes` |
| memory shedding | `Registry`, `Shedding`, `Footprints`, `Admission` |
| the continuation cache | `Paging`, `Decimal`, `CacheKey`, `Protocol`, `CacheSafety`, `CallOwnership`, `CacheTransparency`, `Queues`, `CacheQueue`, `ZeroPage`, `Replies`, `Rpc`, `Controller` |
| other state machines | `Spine`, `TransportSteps`, `Transport`, `Supervisor`, `SupervisedOutput`, `SupervisedRuns`, `Commands` |
| codecs | `Wire`, `AnswerFraming`, `Delivery`, `Utf8`, `Integers`, `Radix`, `Arm64`, `Comparisons` |

## How the model is set up

* **Two interpreters.** `Interpreters.Solve` runs original goals and resolves each name in the scope (`Local` or
  `Shared`) that the goal belongs to. `Interpreters.Native` runs rewritten goals on the worker's flat clause database
  and knows no scopes. Both return the ordered answers and an ending: finished, cut, exception, out of fuel, or
  `Escaped` when something outside the policy was dispatched. A theorem stated for every fuel is a theorem about every
  finite prefix of the computation.
* **Added variables.** The rewriter puts new variables into findall/3, is/2 and term_variables/2, and the emitter of the
  compiled form puts one into a clause whose first argument is a wide integer. Both are terms of the model
  (`Terms.Aux`). So two runs that should be the same go through stores that differ in these variables.
  `Simulation.Follows` says that the answers correspond one by one, in order, in stores that differ in nothing else, and
  that the runs end alike.
* **Native operations are parameters.** The record `Runtime.World` holds unification, dereferencing, copying, library
  predicates, DCG expansion and remote calls. Confinement, non-interference and the agreement of snapshot and compiled
  databases hold for every choice of them. Where stores differ in added variables, the operations must not be able to tell
  (`Simulation.Respects`), and the one unification that an added variable is for must be the one it replaces
  (`EmittedGoals.HidesResults`, `IndexedRuns.HidesKeys`). Module `Herbrand` builds a concrete world, whose stores are
  sets of solutions, and proves that it meets both requirements. Goals that are bound to terms with unbound variables are
  resolved and run in it (`Herbrand.BoundIsResolved`).
* **What goals come to.** Both interpreters use the same functions for control, wrappers and grouping, so their
  agreement says nothing about these. What they come to is stated on runs of the reference interpreter: laws of control
  (`GoalLaws`), the goals that call/N, maplist and foldl call and their order (`Closures`), the groups of bagof/3 and setof/3
  (`GroupLaws`), and the tables of names (`Tables`). `Closures` needs to know of stores which terms their bindings make equal
  (`Meanings.Meaning`); `Meanings` proves that a run only adds bindings, and `Solutions` that the world of `Herbrand` meets
  all that is asked for.
* **A monitor.** Native execution has no scopes, so confinement is stated against `Monitoring.Monitored`, which runs the
  same goals, knows the scope of the running clause and stops with `Escaped` at the first dispatch that is not permitted
  in that scope. Theorem: the monitored run is the native run.
* **Steps under the lock.** In `Protocol` one step is one region that the controller runs under its mutex: the main
  loop's turn, the first and the second region of a call. Runs are arbitrary interleavings. Clock readings, memory
  samples, the success of writes and spawns, and what a process sends before the deadline are arbitrary inputs.

## Where the code does not do what is wanted

* **bagof/3 and setof/3 over rewritten goals** (`isobase/policy.pl:36`, `:53`, `:58`, `:94-98`). The added variables of
  findall/3, term_variables/2 and is/2 are free in the goal that is passed to native bagof/3 and setof/3, which group by
  free variables. `Regrouping.SetofSplits` runs `setof(Y, X^(member(X,[1,2,3]), Y is X*X), L)`: it means `[1,4,9]` and
  the worker answers `[1]`, `[4]` and `[9]`, under the deployed policy. `Grouping.GroupingKept` says exactly when the free variables stay the same:
  when no goal position of the quantified goal holds one of the three (`Grouping.Adds`). The *strict* reference run ends
  as `Regrouped` where such a goal is about to be grouped; meaning preservation is stated against it, and
  `Reference.StrictIsPlain` says that otherwise it is the plain reference run. Nothing less will do for a condition that can
  be read off the goal: an added value can reorder groups even where it splits none (`Regrouping.AddedKeysReorder`).
* **A resumed page with limit 0** (`isobase/http.c:369-370`) is served as a page of maximal size, although a fresh query
  with limit 0 fails without running. `ZeroPage.PageIsFreshExactly` says when a reply is the fresh one, in terms of the
  request and the state before the call; `ZeroPage.ZeroPageDiffers` is a run in which it is not.
* **Output of the supervisor can be torn** (`isobase/supervisor.c:55-71`). A frame is written in pieces, and the writer
  gives up on backpressure, errors, signals and memory failures. `SupervisedRuns.ForwardedIsFramed` says that what is on the
  pipe then ends with one proper beginning of a valid frame, exactly if some write stopped midway;
  `SupervisedRuns.OutputCanBeTorn` is an input for which it does.
* **The ARM64 repair changes carriage returns** (`isobase/build_shared.py:41-43`). The file is read in text mode, which turns
  every carriage return into a newline. `Arm64.BytesPreserved` says that nothing but the unencodable comparisons is changed
  if and only if the file has no carriage return; `Arm64.CommentIsTornApart` is a comment line whose tail becomes code.

## Model

| member | source | states |
|---|---|---|
| Policy.RewriteRejects | isobase/policy.pl:26-92 | rewriting succeeds if and only if no goal position holds a name unknown to the scope; otherwise it reports the leftmost offender's error |
| Tables.ControlTable | isobase/policy.pl:28-36 | which goals are control structures or constructs around one goal, as a table of names and arities |
| Tables.WrapperTable | isobase/policy.pl:37-83 | which goals are wrappers that check their goal when it is invoked: bagof against setof, maplist/2-5, foldl/4-7, call/1-8 and the rest, as tables |
| Tables.OneTreatment | isobase/policy.pl:26-92 | no goal is treated in two ways; is/2 and term_variables/2 are the computations |
| Policy.RewriteKeepsArrows | isobase/policy.pl:29-31 | a rewritten goal is an if-then exactly when the goal was, so the left of `;` keeps its reading |
| Policy.RewriteCommutesWithRename | isobase/policy.pl:26-92 | rewriting a clause body once and renaming it for an activation is the same as renaming first |
| Preservation.Preserves | isobase/policy.pl:20-119 | whenever rewriting succeeds, native execution has the same answers in the same order, the same exception and the same cut effect as scope-resolving interpretation of the original goal, in stores that differ at most in added variables; only a grouping whose goal gets added variables ends the comparison |
| Compilation.ArrowsAgree | isobase/policy.pl:30-31 | what native execution takes for an if-then-else is what the source goal has there |
| Preservation.PreservesAnd | isobase/policy.pl:29 | conjunction: a cut on either side ends the clause in both executions |
| Preservation.PreservesOr | isobase/policy.pl:30 | disjunction and if-then-else agree |
| Preservation.PreservesCatch | isobase/policy.pl:34-35 | catch/3: same exceptions caught, same recovery run, barrier for cuts |
| Preservation.PreservesOpaque | isobase/policy.pl:32-33 | once, `\+`, call_nth and time agree |
| Preservation.PreservesFindall | isobase/policy.pl:36 | findall/3 agrees, although the list goes through an added variable and is unified afterwards |
| Preservation.PreservesComputed | isobase/policy.pl:53-58 | so do is/2 and term_variables/2 |
| Preservation.PreservesKeptGroup | isobase/policy.pl:94-98 | bagof/3 and setof/3 over a goal that gets no added variables form the same groups in the same order |
| Preservation.PreservesResolved | isobase/policy.pl:84-88 | the flat name that native execution looks up denotes the predicate the scope resolves to: guarded, owned, shared, native, in this order |
| Preservation.PreservesClauses | isobase/source.pl:43-55 | trying the installed clauses of a predicate, cut barrier included, equals trying the original ones in their own scope |
| Preservation.PreservesCall | isobase/policy.pl:20-24 | a goal checked when it is invoked: instantiation, cyclic and permission errors and the run itself agree |
| Preservation.PreservesDeferred | isobase/policy.pl:94-131 | call/N, maplist, foldl, bagof, setof, phrase, clause and remote calls run their goals in the scope they were written in; bagof and setof with the goal that each side really passes (which goals these are: Closures, GoalLaws, GroupLaws) |
| Closures.CallRuns | isobase/policy.pl:100-105 | call(C,B1..Bm) with C bound to f(A1..Ak) is the call of f(A1..Ak,B1..Bm) in the same scope; with C unbound or a number it is the error |
| Closures.MaplistRuns | isobase/policy.pl:108-111 | over proper lists of length n, maplist is the conjunction of exactly n calls in order, the i-th of f(A1..Ak) extended by the i-th elements; nothing else is bound |
| Closures.FoldlRuns | isobase/policy.pl:112-119 | over proper lists of length n, foldl is the conjunction of n calls in order, each with the accumulator of the one before and a new variable for the next; the last one is unified with the result |
| Closures.MaplistCalls | isobase/policy.pl:108-119 | the same for any way of calling goals that only adds bindings |
| Meanings.CallGrown | isobase/policy.pl:20-24 | whatever goal is called, every answer keeps all bindings that were there before |
| Solutions.ListsCanBeTaken | isobase/policy.pl:116-119 | there is a runtime in which lists are taken apart as these statements require |
| GoalLaws.ClausesInOrder | isobase/policy.pl:127-131 | clause/2 gives the matching clauses in source order: the private ones for an owned predicate and local text, else the shared ones, else the error |
| GoalLaws.RemoteRuns | isobase/policy.pl:67-74 | a remote call takes private clauses along only from local text; what it calls back, and the goal of phrase/2-3, run in the scope of the text |
| GoalLaws.ConjunctionAssociates | isobase/policy.pl:29 | conjunction is associative |
| GoalLaws.TrueIsUnit | isobase/policy.pl:29 | true is its unit on both sides |
| GoalLaws.DisjunctionAssociates | isobase/policy.pl:30 | disjunction without if-then is associative, with fail as its unit |
| GoalLaws.ConjunctionDistributes | isobase/policy.pl:29-30 | conjunction distributes over the alternatives before it |
| GoalLaws.CutCommits | isobase/policy.pl:26-31 | a cut drops the later alternatives and no answer of its own branch |
| GoalLaws.CutClause | isobase/policy.pl:26-31 | of the clauses of a predicate only the first that matches counts if its body begins with a cut |
| GoalLaws.OnceAndNot | isobase/policy.pl:32-33 | `once(G)` is `(G -> true)`, and `\+ G` is `(G -> fail ; true)` |
| GoalLaws.CatchRuns | isobase/policy.pl:34-35 | catch/3: the answers before the exception, then those of the recovery from the bindings before the goal, if the catcher matches |
| GoalLaws.FindallRuns | isobase/policy.pl:36 | findall/3: one answer with all copies in order if the goal just ends, its ending otherwise |
| GoalLaws.ComputedRuns | isobase/policy.pl:53-58 | is/2 computes its second and binds its first argument, term_variables/2 the other way round |
| GoalLaws.CallNthCounts | isobase/prologue.pl:23-28 | call_nth with an unbound counter gives one after another what it gives for 1, 2, ...; for a number it gives that answer |
| GoalLaws.CopyIsFaithful | isobase/source.pl:43-55 | the copy of a clause that an activation works on is the clause up to the names of its variables |
| GroupLaws.GroupedBy | isobase/policy.pl:94-98 | solutions are grouped by exactly the variables of the goal that neither the template nor a quantifier mentions |
| GroupLaws.AnsweredByGroups | isobase/policy.pl:97-98 | bagof/3 and setof/3 answer once for each group; the groups are a partition of the solutions by equal keys |
| GroupLaws.SortedByKey | isobase/policy.pl:97-98 | solutions are sorted by key: a stable permutation |
| GroupLaws.SetofListed | isobase/policy.pl:98 | the list of setof/3 has every value once, ascending |
| GroupLaws.AllTogether | isobase/policy.pl:97-98 | without free variables there is one answer with all values, in their order for bagof/3 and sorted for setof/3; none without a solution |
| Grouping.GroupingKept | isobase/policy.pl:94-98 | the rewritten goal has the free variables of the original one if and only if no goal position holds findall/3, is/2 or term_variables/2 |
| Regrouping.SetofSplits | isobase/policy.pl:94-98 | under the deployed policy, a query over is/2 whose one list of three values the worker splits into three answers |
| Regrouping.AddedKeysReorder | isobase/policy.pl:94-98 | an added value in the key can reverse two groups, each of one solution |
| Reference.StrictIsPlain | isobase/policy.pl:94-98 | the reference run used for meaning preservation is the plain one unless it comes to a grouping that changes; up to there its answers are a beginning of the plain ones |
| Runtime.DeferredCong | isobase/policy.pl:94-131 | the wrappers depend on the database only through the goals they invoke in their own scope and the clauses visible there |
| Monitoring.RewriteSafe | isobase/policy.pl:26-92 | every goal position of a rewritten goal holds native control or something permitted in its scope; owned predicates in local scope only |
| Monitoring.RenameSafe | isobase/source.pl:43-55 | an installed clause body stays as safe as it is when it is given new variables |
| Monitoring.MonitorIsSilent | isobase/policy.pl:20-119 | a safe goal runs under the scope monitor exactly as it runs without, through clauses, closures and goals assembled at run time |
| Isolation.MonitorFires | isobase/policy.pl:84-88 | the monitor stops a shared clause that dispatches an owned predicate |
| Isolation.Confined | isobase/policy.pl:26-105 | no run of a rewritten goal, in any store, dispatches anything that is not permitted in the scope of the clause it stands in; no shared clause reaches an owned predicate |
| Isolation.QueryConfined | isobase/policy.pl:20-24 | the same for every submitted goal |
| SharedScope.SharedRewrite | isobase/policy.pl:84-88 | rewriting in shared scope does not consult owned predicates |
| Isolation.SharedRunsIgnorePrivateSource | isobase/policy.pl:84-88 | under two different private sources a shared predicate called with the same arguments, goals and closures included, has the same run |
| Isolation.SharedGoalsIgnorePrivateSource | isobase/policy.pl:127-131 | the same for any goal invoked in shared scope, including through variables, call/N and clause/2 |
| Source.AcceptedMayDefine | isobase/source.pl:62-102 | an accepted source defines and declares no runtime predicate, wrapper, hook, `iso_` name or `$` name |
| SourceOrder.AcceptedExactly | isobase/source.pl:62-102 | a source is accepted if and only if every term is admitted: a clause with a callable head that is not reserved, or a declaration of such indicators; otherwise the first term that is not decides the error |
| SourceOrder.ReservedIsRefused | isobase/source.pl:95-110 | a source that defines or declares a reserved name is refused |
| SourceOrder.PreparedInOrder | isobase/source.pl:64-88 | an accepted source gives its clauses and its declared indicators, all of them, each once, in file order |
| SourceOrder.PreparedClauses | isobase/source.pl:64-72 | the clauses of an accepted source are those of its terms, in file order |
| SourceOrder.ClauseByClause | isobase/source.pl:64-72 | without declarations, clause i is that of term i |
| SourceOrder.LoadedExactly | isobase/source.pl:7-17 | two files are loaded if and only if all their terms are admitted and no clause body has a goal forbidden in its scope |
| SourceOrder.LoadedInOrder | isobase/source.pl:7-60 | what is loaded: the clauses of both files, each in file order, under exactly the names that they define, and those that they declare unless a shared predicate would be hidden |
| Source.OwnedExactly | isobase/source.pl:19-32 | a private source owns a predicate if and only if it has a clause for it, or declares it and no shared predicate has that name |
| Source.RewrittenMatching | isobase/source.pl:43-55 | the installed clauses of a predicate are its rewritten source clauses in source order |
| Source.RewriteBodiesEarly | isobase/source.pl:7-17 | shared clauses may be rewritten before the private source is known |
| Source.LoadEstablishes | isobase/source.pl:7-60 | loading a shared and then a private source establishes the invariant that the execution theorems need |
| Source.LoadedQueriesBehave | isobase/source.pl:7-17 | end to end: after any accepted pair of sources every query stays confined, and behaves as the original clauses say unless it comes to a grouping whose goal gets added variables; up to there the answers are the same (which clauses are loaded, and in which order: SourceOrder.LoadedInOrder) |
| Source.LoadedSharedRunsAgree | isobase/source.pl:34-56 | end to end: two workers with the same shared file and any accepted private files agree on every shared predicate |
| StandardPolicy.TablesAreAdmissible | isobase/policy.pl:133-189 | the deployed tables satisfy what the theorems ask of a policy |
| CompiledDatabase.EmitKeepsOrder | isobase/compile_shared.pl:26-37 | grouping by predicate keeps the clause order of every predicate; a declared-empty one becomes a single failing clause |
| CompiledDatabase.EmitIsPermutation | isobase/compile_shared.pl:26-37 | emission neither loses nor duplicates a rewritten clause and adds only the failing clauses |
| CompiledDatabase.CompiledIsLoaded | isobase/compile_shared.pl:2-12 | the emitted database satisfies the same invariant as a loaded one |
| CompiledDatabase.BackEndsAgree | isobase/compile_shared.pl:13-37 | every query has the same run on a snapshot node and on the grouped database, before wide keys are moved |
| Isolation.SameProgramSameRuns | isobase/compile_shared.pl:2-12 | runs depend on the program, not on how the database represents it |
| WideKeys.IndexSafeSolutions | isobase/compile_shared.pl:44-47 | moving a wide first argument into an initial equation keeps, for every call, exactly the answers of head and body |
| WideKeys.IndexKeysFit | isobase/compile_shared.pl:38-40 | the integer keys left in heads survive truncation to `int`, and their differences do not overflow it |
| WideKeys.MovedExactly | isobase/compile_shared.pl:44-47 | a clause is changed if and only if its first argument is an integer beyond 1000000000 in absolute value; name, arity and the other arguments stay |
| IndexedRuns.MovedClause | isobase/compile_shared.pl:41-47 | a call tried on a clause whose key has been moved has the same solutions in the same order as on the original clause, and the same cut |
| IndexedRuns.MovedNative | isobase/compile_shared.pl:34-47 | every goal has the same run on a database in which any of the wide keys have been moved, in stores that differ at most in key variables |
| EmittedNodes.EmittedNodesAgree | isobase/compile_shared.pl:2-47 | every query has the same run on a snapshot node and on the database that is really emitted: answers, order, ending and cut |
| Registry.EnforceRoundShrinks | isobase/http.c:137-156 | each round of enforcement that goes on has stopped one more query, so it terminates for every sampling oracle |
| Registry.OldestIs | isobase/http.c:114-121 | the victim is the unprotected idle query cached first; none is found only if there is none |
| Registry.LargestIs | isobase/http.c:149-152 | the victim is an active query of largest sample |
| Shedding.EnforceVerdict | isobase/http.c:137-156 | enforcement ends in one of three ways: the last sample was within budget; it failed, and every query of the table that the last round started from has been stopped for that; it was over budget and no query is left to stop |
| Shedding.EnforceSheds | isobase/http.c:137-156 | enforcement frees idle slots and marks busy ones terminated with a reason; it changes nothing else |
| Shedding.AdmitVerdict | isobase/http.c:157-167 | admission ends with charge plus reservation within budget on the last sample; or that sample failed; or it did not fit and no other idle query is left (in terms of what processes use: Admission.AdmittedFits) |
| Admission.SampledExactly | isobase/http.c:125-136 | a sample succeeds if and only if every process can be sampled and no sum overflows; it gives what the controller and the running queries use, and the same with each query counted as at least the reserve |
| Admission.AdmittedFits | isobase/http.c:157-168 | after admission all running queries, and the new one, could use the reserve within the total; what is used now plus the reserve of a new one is within the total |
| Admission.RefusedDoesNotFit | isobase/http.c:157-168 | a query refused for lack of memory would not have fitted, and no other idle query was left |
| Admission.BegunWithRoom | isobase/http.c:359-386 | every call that begins leaves room for the reserve of all running queries, itself included |
| Shedding.AdmitSheds | isobase/http.c:157-167 | admission never stops a busy query or the one being resumed |
| Shedding.SampleStaysUnsigned | isobase/http.c:125-136 | the sums of a successful sample stay within 64 bits |
| Shedding.EnforceAccounts | isobase/http.c:98-113 | enforcement keeps the number of times each process is running or has been waited for |
| Shedding.AdmitAccounts | isobase/http.c:98-104 | so does admission |
| Footprints.SampleConstant | isobase/http.c:125-136 | with constant footprints a sample is the sum over the counted queries |
| Footprints.EnforceEvictsShortestPrefix | isobase/http.c:137-148 | an idle query is evicted if and only if evicting all queries cached before it leaves usage over budget |
| Footprints.AdmitEvictsShortestPrefix | isobase/http.c:157-167 | admission evicts exactly the shortest first-in-first-out prefix that makes the charges and the reservation fit |
| Footprints.KillsOnlyWithoutIdle | isobase/http.c:147-154 | an active query is stopped only when no idle query remains |
| Footprints.Exchange | isobase/http.c:149-154 | from any plan that suffices, one member can be dropped after the largest query has been stopped |
| Footprints.EnforceKillsFewest | isobase/http.c:149-154 | enforcement stops no more active queries than any set whose removal would suffice |
| Paging.SkipSaturates | isobase/worker.c:144-147 | skipping past the end or past an exception changes nothing more |
| Paging.ShortPageAlike | isobase/worker.c:154-164 | after a short page the worker stands where skipping the full limit leads |
| Paging.AlikeReplay | isobase/worker.c:143-164 | positions that continue alike give equal pages |
| Paging.Worker.constructor | isobase/worker.c:144-147 | start and offset skip: the worker stands at a position that continues like the offset |
| Paging.Worker.WritePage | isobase/worker.c:148-164 | a page is the replayed page at the cursor; the worker stays suspended exactly when the page says `more`, pending exceptions included |
| Paging.Worker.WriteAnswers | isobase/worker.c:154-160 | the answer loop writes the next answers in order and stops at the limit or at the end, one answer ahead |
| Paging.Worker.Next | isobase/worker.c:165-177 | `next N`; zero ends the query |
| CacheKey.PrefixedSplits | isobase/http.c:239-243 | a counted text splits off in one way only, whatever it contains |
| CacheKey.KeyInjective | isobase/http.c:239-243 | different goals, templates, sources, formats or once flags have different keys |
| CacheSafety.StepKeepsInv | isobase/http.c:359-409 | every lock region of every thread keeps: faithful idle entries, ownership, distinct cache positions, process accounting |
| CacheSafety.ReachableInv | isobase/http.c:359-409 | the invariant holds in every state of every interleaving |
| CacheSafety.BeginKeepsInv | isobase/http.c:361-385 | expiry, enforcement, lookup, admission, resuming, eviction and start keep the invariant |
| CacheSafety.FinishKeepsInv | isobase/http.c:401-408 | re-caching or releasing after a page keeps the invariant |
| CacheSafety.KeptIsResumable | isobase/http.c:404 | a re-keyed entry continues exactly like the next offset, even after a short page with a pending exception |
| CacheTransparency.ReplyTransparent | isobase/http.c:365-370 | a delivered page equals a fresh replay if and only if the limit was at least 1 or the query was not resumed |
| CacheTransparency.CacheTransparency | isobase/http.c:359-409 | in every run, a worker's page for limit >= 1 is what a node without a cache answers |
| ZeroPage.CallRemembers | isobase/http.c:361-385 | an accepted call keeps what was asked for, and is resumed exactly if an idle continuation of its job stands at its offset after expiry and enforcement |
| ZeroPage.PageIsFreshExactly | isobase/http.c:359-409 | over a run: the page delivered for a call is the fresh one if and only if the request asked for at least one answer or found no continuation |
| ZeroPage.ZeroPageDiffers | isobase/http.c:369-370 | a run of four steps at whose end a resumed zero page succeeds where a fresh one fails |
| Replies.ToldWhatHappened | isobase/http.c:399-408 | over a run: a client that has not gone away is told the reason if its query was stopped, otherwise the error of the supervisor, timeout_or_worker_failure if nothing came in time, or the fresh page of its request |
| Replies.StoppedForMemory | isobase/http.c:106-112 | over a run: a query is stopped only for the memory total or a failed monitor, and its client is told which |
| Replies.FailureIsFailure | isobase/http.c:401-407 | over a run: nobody is told of a failure unless the fresh page of the request is one |
| Replies.EventArrives | isobase/supervisor.c:74-78 | an event of the supervisor arrives as the error with its reason, in either format |
| Replies.JsonPageArrives | isobase/http.c:340-346 | in the default format the body made of a page line is the JSON text of the page, once=true included |
| Replies.PrologPageArrives | isobase/http.c:347-358 | in the Prolog format the body made of a page line is the text of the page, once=true included |
| CacheTransparency.OthersKeepOwnership | isobase/http.c:105-113 | no step of another thread frees, reuses or changes a slot owned by a call, except for a termination mark |
| CacheTransparency.CallOwnsSlot | isobase/http.c:385-402 | over a run, a call's slot keeps its process, key, job and position until its own second region |
| CacheTransparency.HitExactly | isobase/http.c:365 | a request is resumed if and only if an idle continuation of the same job stands at its offset |
| CacheTransparency.MoreMeansKept | isobase/http.c:401-407 | the client is told `more` if and only if the continuation is kept (a stopping node aside): same process and job, next offset, new expiry; otherwise the slot is free |
| CacheTransparency.ExpireExactly | isobase/http.c:362 | expiry frees exactly the idle continuations whose time has come |
| CacheTransparency.RecachedIsNewest | isobase/http.c:376-379 | a kept continuation is newer than every other idle one |
| CacheTransparency.StartEvictsFront | isobase/http.c:374-381 | a new query displaces another only when no slot is free, and then the idle one cached first |
| CacheTransparency.RefusedOnlyWhenAllBusy | isobase/http.c:374-382 | `query_limit_exceeded` if and only if every slot is busy |
| CacheTransparency.ShutdownReapsAll | isobase/http.c:526-529 | after shutdown no process is left and every spawned process has been waited for exactly once |
| CacheTransparency.RunningProcessesAreDistinct | isobase/http.c:98-113 | no process stands in two slots, and no running one has been waited for |
| CacheQueue.StepsRefineQueue | isobase/http.c:359-409 | the controller refines a queue: in every run a turn drops the expired entries and then a front part; the start of a call does so too, drops a further front part for memory, and takes out the resumed entry or, exactly if a query is started in a full table, the front (a start that fails may have released it); the end of a call drops a front part and appends the kept continuation at the back |
| CacheQueue.FullQueue | isobase/http.c:374-381 | no slot is free exactly if the queue has an entry for every slot that no call owns |
| CacheQueue.StepsDropShortest | isobase/http.c:515-517 | in every run, with constant footprints, a turn and the end of a call drop the shortest front part that brings usage within budget |
| CacheQueue.EnforceDropsShortest | isobase/http.c:137-148 | with constant footprints the front part that enforcement drops is the shortest that brings usage within budget |
| CacheQueue.AdmitDropsShortest | isobase/http.c:157-167 | so it is for admission, with charges and the reservation |
| CacheQueue.FinishEnqueues | isobase/http.c:401-408 | the end of a call appends its own continuation with its new expiry, or nothing |
| Rpc.WalkExactly | isobase/rpc.pl:18-26 | a walk of any length yields exactly the remaining answers and the ending, offsets advancing by what was received; beyond the node's offset bound it ends with the status error, which no remote exception is taken for |
| Rpc.RpcEnumeratesRemoteQuery | isobase/rpc.pl:10-26 | client and caching server together enumerate the remote query, whichever pages hit the cache: completely if it has at most 1000000000 answers |
| Rpc.RpcEnumeratesExactly | isobase/http.c:226 | the enumeration is complete if and only if no page beyond the offset bound has to be asked for |
| Rpc.RpcOnceIsOnePage | isobase/rpc.pl:21-26 | with once(true) exactly one page is fetched |
| Controller.Controller.ReleaseSlot | isobase/http.c:98-104 | frees the slot in the array and waits for its process unless it was already stopped |
| Controller.Controller.AbortQuery | isobase/http.c:107-113 | marks a slot terminated with a reason, once |
| Controller.Controller.OldestIdle | isobase/http.c:114-121 | the scan returns the function's victim |
| Controller.Controller.LargestActive | isobase/http.c:149-152 | so does this scan |
| Controller.Controller.SampleMemory | isobase/http.c:125-136 | the loop records and sums samples as `Registry.Sample` does, overflow guards included (what a sample is: Admission.SampledExactly) |
| Controller.Controller.StopEverything | isobase/http.c:141-143 | the monitor-failure loop equals `Registry.StopAll` |
| Controller.Controller.EnforceMemory | isobase/http.c:137-156 | the loop on the array equals `Registry.Enforce` |
| Controller.Controller.EnforceOnce | isobase/http.c:139-154 | one iteration equals `Registry.EnforceRound` |
| Controller.Controller.AdmitMemory | isobase/http.c:157-167 | the loop on the array equals `Registry.Admit` |
| Controller.Controller.AdmitOnce | isobase/http.c:159-165 | one iteration equals `Registry.AdmitRound` |
| Controller.Controller.ExpireIdle | isobase/http.c:362 | the expiry loop equals `Protocol.Expire` |
| Controller.Controller.FindContinuation | isobase/http.c:365 | the lookup loop equals `Protocol.FindMatch` |
| Controller.Controller.FindFree | isobase/http.c:374 | the search for a free slot equals `Protocol.FirstFree` |
| Controller.Controller.ResumeQuery | isobase/http.c:368-372 | resuming in place equals `Protocol.Resume` |
| Controller.Controller.StartQuery | isobase/http.c:373-384 | starting in place equals `Protocol.Start` |
| Controller.Controller.BeginCall | isobase/http.c:360-386 | the whole first lock region equals `Protocol.Begin` |
| Controller.Controller.FinishCall | isobase/http.c:401-408 | the whole second lock region equals `Protocol.Finish` (what it tells the client: Replies.ToldWhatHappened) |
| Controller.Controller.Turn | isobase/http.c:515-517 | one turn of the main loop equals `Protocol.Sweep` |
| Controller.Controller.Shutdown | isobase/http.c:526-529 | the final loop equals `Protocol.ReleaseAll` |
| Spine.SpineKind | isobase/terms.c:5-23 | the two-pointer walk ends on every finite heap, reports `cyclic` if and only if the tail chain never ends, and otherwise the class of the final tail |
| Spine.Meeting | isobase/terms.c:13-21 | on a chain that never ends the two pointers meet |
| Spine.SamePlaceCycles | isobase/terms.c:20-21 | pointers in the same cell prove that the chain never ends |
| Spine.KindUnique | isobase/terms.c:5-10 | the final tail of a chain is unique |
| Transport.EveryRunIsSafe | isobase/transport.c:152-204 | in every interleaving of owner and threads: live ids are distinct and have ten digits, each response is handed to Prolog at most once, bodies are NUL-free and at most 1 MiB |
| TransportSteps.StepConsumesOnce | isobase/transport.c:186-204 | no step consumes a response a second time |
| Transport.HandedOverOnce | isobase/rpc.pl:43-48 | in every run each response is handed to Prolog at most once, whether a wait consumes it or yield/2 looks at it; yield/2 then cancels, or blocks for good |
| Transport.ClearedAfterItsThread | isobase/transport.c:158-162 | over a run: before the slot of a request is cleared, the transfer of that very request has finished |
| Transport.RetiredForGood | isobase/transport.c:186-204 | over a run: a request that a wait or yield/2 has consumed or that has been cancelled is never delivered again |
| Transport.KeptUntilGivenUp | isobase/transport.c:186-204 | over a run: a request keeps its slot and reference until it is consumed or cancelled |
| Transport.TimedOutIsDeliveredLater | isobase/transport.c:186-204 | over a run: after a timed-out wait, a later wait on the same reference that ends with a response delivers the response of that request, unless it was consumed or cancelled in between |
| Transport.TimeOutIsTold | isobase/transport.c:188-199 | over a run: a wait that times out says so and changes nothing else; one that finds the response there goes on |
| Transport.BodyIsWhatArrived | isobase/transport.c:79-84 | in every run the body of a live request is the concatenation of the chunks received for it |
| Transport.StoppedExactly | isobase/transport.c:79-84 | over a run: a transfer is stopped if and only if what has arrived for it has a NUL or more than 1 MiB |
| Transport.DeliveredIsWhatArrived | isobase/transport.c:198-203 | a response handed over without an error is exactly what the network sent for that request, in order |
| Transport.DeliveredOutcome | isobase/transport.c:138-153 | over a run: a response is handed over with the outcome of its own transfer: the error with which that ended, otherwise exactly what arrived |
| Transport.StartedIsFound | isobase/transport.c:169-184 | the reference that a start returns finds the slot of the new request |
| Transport.Pool.Find | isobase/transport.c:155-157 | the loop over the slots equals the lookup function |
| Transport.Pool.PickId | isobase/transport.c:172-176 | the id search ends with an unused id in range |
| Transport.Pool.NetStart | isobase/transport.c:169-184 | starting a request in place is a start step with some unused id, or is refused because the table is full |
| Transport.Pool.ReceiveBody | isobase/transport.c:79-84 | a chunk is kept whole or the transfer is stopped |
| Transport.Pool.Complete | isobase/transport.c:152-153 | a finished thread publishes its outcome |
| Transport.Pool.Deliver | isobase/transport.c:198-203 | a finished response is handed over, and consumed if asked |
| Transport.Pool.SettlePeek | isobase/rpc.pl:43-48 | the end of yield/2: a matching response is consumed, an error cancels, any other blocks |
| Transport.Pool.ClearJoined | isobase/transport.c:158-162 | the slot is cleared after the join |
| SupervisedRuns.SupervisedRunsAreFramed | isobase/supervisor.c:160-216 | in every run, output is whole valid frames within the bound, except for a last one whose writing stopped midway; at most one frame per activation; for each of them the time from the start of every activation to the end of its frame, idle time excluded, sums to less than the budget; commands written to the worker fit its line buffer and are ones it accepts |
| SupervisedRuns.ForwardedIsFramed | isobase/supervisor.c:55-77 | in every run everything on the pipe, the supervisor's own events included, is whole valid lines and at most one proper beginning of a valid line; it is there if and only if some write stopped midway, and nothing follows it |
| SupervisedRuns.OutputCanBeTorn | isobase/supervisor.c:55-71 | a frame whose writing stops after five bytes leaves those five bytes |
| SupervisedRuns.RunIsFaithful | isobase/supervisor.c:173-193 | in every run the forwarded bytes are a beginning of what the worker wrote, and all of it up to the frame being collected while the query runs |
| SupervisedRuns.CheckIsHarmless | isobase/supervisor.c:164-167 | a deadline check during an activation changes no forwarded frame, whatever follows it |
| SupervisedRuns.ReadsDoNotMatter | isobase/supervisor.c:160-216 | two runs with the same bytes, commands and idle-time checks in the same order forward the same frames, wherever reads end and whenever deadlines are checked during activations |
| SupervisedRuns.SpentForwardsNothing | isobase/supervisor.c:185-186 | past its deadline an activation forwards nothing, whatever the rest of the run is |
| Supervisor.PassedOnIsAccepted | isobase/supervisor.c:204-212 | every command that the supervisor passes on is one the worker accepts |
| Commands.CommandsAgree | isobase/supervisor.c:204-212 | the supervisor passes on a line if and only if the worker accepts it |
| Commands.NextIsAccepted | isobase/http.c:371 | the command that the controller writes for a page of n answers is accepted if and only if n is at most the largest page |
| Commands.ResumedCommandIsAccepted | isobase/http.c:369-371 | so every resumed call is, the largest page in place of 0 |
| Commands.NextIsSent | isobase/supervisor.c:194-215 | an idle supervisor fed this command byte by byte before its idle limit becomes active and has passed on exactly this line |
| Commands.CommandIsJudged | isobase/supervisor.c:194-215 | of any line that an idle supervisor gets: passed on, cancelled or a protocol error, and which |
| Commands.LineIsJudged | isobase/supervisor.c:173-193 | of any line that the worker writes: too long, out of turn or no event, too late, or forwarded as it is |
| Commands.ChecksEndInTime | isobase/supervisor.c:164-167 | without a fault the checks end a query exactly when its time is up, and say whether for computing or for waiting |
| Supervisor.EventLoop.HandleByte | isobase/supervisor.c:177-192 | one byte of worker output in place |
| Supervisor.EventLoop.HandleChunk | isobase/supervisor.c:173-193 | the loop over a read |
| Supervisor.EventLoop.HandleCommandByte | isobase/supervisor.c:194-215 | one byte of controller input in place (what becomes of whole lines: Commands.CommandIsJudged) |
| Supervisor.EventLoop.CheckLimits | isobase/supervisor.c:164-167 | the checks at the top of the loop |
| AnswerFraming.WriteJsonString | isobase/worker.c:15-23 | the output loop writes the escaped string |
| AnswerFraming.LineHasNoControls | isobase/worker.c:154-161 | a page line has no byte below 32, so the newline ends it unambiguously |
| AnswerFraming.PageRoundTrip | isobase/http.c:335-358 | for every non-empty page the public body is exactly the comma-joined original answers, each up to a NUL if it has one |
| AnswerFraming.ErrorRoundTrip | isobase/http.c:348-351 | an error term arrives as rendered, up to a NUL if it has one, and its line is never taken for a success |
| AnswerFraming.JsonText | isobase/http.c:323-334 | the in-place decoder agrees with the JSON string reader and stays inside its buffer; its callers see the text up to a NUL |
| AnswerFraming.NextChar | isobase/http.c:327-331 | one step of the decoder, escapes included |
| AnswerFraming.RewriteOnce | isobase/http.c:337-339 | the rewrite to `more:false` stays inside the line buffer and touches nothing else |
| AnswerFraming.OnceLine | isobase/http.c:337-339 | its result is the line of the same answers without a continuation |
| AnswerFraming.CopyAnswers | isobase/http.c:353-357 | the copy loop fits into a buffer 32 bytes longer than the line, and fails exactly on malformed lines |
| AnswerFraming.SuccessBody | isobase/http.c:353-357 | the assembled success body |
| AnswerFraming.PublicBody | isobase/http.c:335-358 | the whole function on the line buffer: the line up to a NUL, continuation flag, rewriting for once=true, kind of line, body in either format |
| Delivery.PageIsOneEvent | isobase/worker.c:150-161 | every page is one line that the supervisor takes for an event, and it asks for a continuation exactly if the page promises more |
| Delivery.PageIsForwarded | isobase/supervisor.c:173-193 | a page written in time that fits is forwarded as one frame, and the query ends exactly if the page promises no more |
| Delivery.PageArrives | isobase/http.c:335-358 | what the controller makes of a page's line is the text of the page that it replies, once=true included |
| Delivery.ReplyIsWhatTheWorkerWrote | isobase/http.c:399-409 | whatever other threads do: when the reply of a call is a page, its body is what the controller makes of the line that the worker wrote for it |
| AnswerFraming.ErrorReply | isobase/http.c:348-351 | the body of an error, none exactly if its text does not decode |
| Utf8.DecodeEncode | isobase/text.pl:83-108 | decoding after encoding is the identity on all sequences of nonzero scalars |
| Utf8.EncodeDecode | isobase/text.pl:83-108 | encoding after decoding is the identity wherever decoding succeeds |
| Utf8.DecodedIsCanonical | isobase/text.pl:84-93 | a decoded scalar is legal and has one spelling |
| Utf8.MultiByteAgrees | isobase/http.c:184-193 | accumulating six bits at a time agrees with the range table of the decoder |
| Utf8.ValidUtf8 | isobase/http.c:180-196 | the controller's validator accepts a NUL-free byte string if and only if the Prolog decoder does |
| Integers.AccumulateExact | isobase/text.pl:201-203 | signed accumulation overflows at some step if and only if the full value is out of range |
| Integers.ParsesIffFits | isobase/text.pl:144-148 | an accepted token parses exactly when its value is a native integer |
| Integers.SeparatorsKeepDigits | isobase/text.pl:192-197 | an accepted token denotes its digits in order |
| Integers.SeparatorsAreNeutral | isobase/text.pl:170-197 | removing separators changes neither acceptance nor value |
| Integers.PrintParse | isobase/text.pl:143-148 | printing and parsing returns every native integer, the smallest included |
| Radix.WrittenIsRead | isobase/text.pl:144-203 | a number written with a sign, a prefix for its base and digits in letters of either case, with separators between them, is read as this number, or as an overflow if it is no native integer |
| Radix.EveryIntegerIsRead | isobase/text.pl:176-203 | every native integer can be written so in every base from 2 to 36, and is read back |
| Radix.SpacedIsRead | isobase/text.pl:192-200 | between two digits nothing, one space, or an underscore with any layout behind it is accepted and adds nothing |
| Radix.ReadIsSpaced | isobase/text.pl:192-200 | and nothing else is: every accepted token is spelled digits with such gaps |
| Arm64.LoadsConstant | isobase/build_shared.py:32-38 | the emitted instructions compare with exactly the 64-bit constant of the replaced instruction |
| Comparisons.WrittenIsCompared | isobase/build_shared.py:42 | every line that compares x0 with an immediate is recognised, whatever its blanks, with its signed constant |
| Comparisons.ComparedIsWritten | isobase/build_shared.py:42 | and nothing else is |
| Comparisons.EncodableExactly | isobase/build_shared.py:30 | a comparison holds exactly the values of twelve bits, as they are or twelve places to the left |
| Arm64.EmittedIsNotCompared | isobase/build_shared.py:33-38 | no emitted line is itself a compare with an immediate |
| Arm64.Idempotent | isobase/build_shared.py:39-44 | a second pass over the lines changes nothing |
| Arm64.OnlyEncodableLeft | isobase/build_shared.py:30 | every immediate compare left is encodable |
| Arm64.OthersPreserved | isobase/build_shared.py:42 | for all lines: they stand at increasing positions, each unencodable compare replaced by its own block, every other line kept, with nothing in between |
| Arm64.BytesPreserved | isobase/build_shared.py:39-43 | the repaired file is the file with exactly its unencodable comparisons replaced if and only if it has no carriage return |
| Arm64.CommentIsTornApart | isobase/build_shared.py:41 | a comment line with a carriage return, in whose tail every unencodable constant becomes code |
| Arm64.RepairedOnce | isobase/build_shared.py:39-44 | repairing a file twice is repairing it once |
| Arm64.RepairedIsEncodable | isobase/build_shared.py:30 | every immediate compare in the repaired file is encodable |
| Arm64.Fix | isobase/build_shared.py:20-44 | the pass computes these lines and counts the replacements |
| Arm64.Repair | isobase/build_shared.py:20-44 | the whole function on the text of the file |

## Left out

- EmittedNodes.EmittedNodesAgree: native operations are required not to tell apart stores that differ only in key variables (`HidesKeys`); this is proved of the world in `Herbrand`, not of the runtime's own unification, which is not part of the repository.
- Preservation.Preserves: the same for result variables (`HidesResults`); an emitted goal that is given its result variable sets it up with `World.bind`, since no earlier goal mentions it.
- Preservation.Preserves: the comparison ends at every grouping whose goal gets added variables, also where the groups and their order happen to agree; that depends on the values in the answers and not on the goal.
- Arm64.BytesPreserved: characters are the bytes of the file (its encoding is one byte a character).
- WideKeys.IndexSafeSolutions: answers are compared as ground assignments of the clause variables; the statement about runs is EmittedNodes.EmittedNodesAgree.
- Rpc.RpcEnumeratesRemoteQuery: covers delivered pages; a page that a node refuses or interrupts ends the walk with that error.
- StandardPolicy.TablesAreAdmissible: assumes that the runtime itself defines the admitted native predicates, so that no source can define them.
- Supervisor.PassedOnIsAccepted: `strtol` without its overflow error; a number of more than nineteen digits is outside the page range anyway.
- Transport.EveryRunIsSafe: references are looked up for nonzero ids only, since free slots have id 0.
- Atoms are symbols with a constructor for each reserved family (`iso_`, `$shared$`, other `$` names); the prefix tests on their text are not modelled, and internal naming is injective by construction.
- Wrapped library predicates (`length/2`, `between/3`, text and arithmetic predicates, ...) are arbitrary functions of the arguments and the store; their own definitions are not modelled.
- DCG translation, remote calls and source export are parameters of the runtime record, which see only what their scope allows.
- Floats and strings are not terms of the model; the text syntax of floats is not modelled.
- SourceOrder.PreparedInOrder: a grammar rule of a file stands in it as the clause that it is translated to; the translation is a parameter.
- Closures.MaplistRuns: for proper lists; open lists are enumerated by the same function, and nothing is stated about how far.
- Closures.CallRuns: for call/1 to call/8 as the rewriter knows them.
- Unification, the reader, the printer with its escapes, and native arithmetic are not part of the repository.
- Rendering of variables with a serial per worker: answers are abstract texts.
- How the worker renders answers as JSON bindings; the answers of a page are abstract texts in either format.
- HTTP parsing, tokens, credentials, outbound policy and percent escaping: shallow case distinctions.
- The option lists of `rpc/3` and `promise/4` and the composition of the request text.
- Processes, pipes, files and signals appear as abstract events; memory samples and clocks are arbitrary inputs.
- The timeout parameter of a call and the polling loop are one arbitrary outcome: a page, a supervisor event, or silence.
- Startup validation of the shared file and the table of client connections.
- Wall-clock liveness: nothing is said about how soon an idle query expires.
- The JSON, diagnostic and benchmark scripts, and the prologue's one-line wrappers.
