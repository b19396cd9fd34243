# Kernox: verified model

A Dafny model of the Kernox composition kernel: the capability graph resolver, the
transactional lifecycle executor with its capability registry, the scope tree and serverless
admission, the Tokio task supervisor, identifier validation and the paired-median performance
gate. Apart from the concrete counterexamples, every statement is for all inputs, all hook outcomes
or all interleavings.

- **Resolver** (`Ordering`, `Model`, `Composition`, `Selection`, `Inputs`, `Requirements`,
  `CycleSearch`, `Topology`, `Resolver`, `GraphFacts`, `Permutation`, `ErrorOrder`, `Report`).
  `Composition` states declaratively when a composition is sound and what its graph is. The methods follow the
  loops of the source; `Resolver.Resolve` is proved to succeed exactly on sound compositions, with
  exactly that graph and the lexicographically least startup order.
- **Lifecycle** (`Provisions`, `LifecycleTrace`, `PluginHooks`, `Lifecycle`). Hooks are arbitrary:
  each answers success or any failure, and logs that it was called. The executor extends a ghost
  trace of (plugin, phase, scope state, failure) that is kept equal to that log and those answers;
  `LifecycleTrace` proves what any such trace means.
- **Scopes and serverless admission** (`ScopeTree`, `ScopeClosure`, `ScopeRuns`, `ScopeStates`,
  `ScopeFinish`, `ScopeProgress`, `Serverless`, `ServerlessProof`, `ServerlessRuns`,
  `ServerlessOutcomes`). Each atomic operation and each step of a critical section is one step of
  a state machine, with any number of threads, scopes and calls. The serverless host runs its
  calls on that same scope tree.
- **Task supervisor** (`Supervisor`, `SupervisorSteps`, `SupervisorProof`, `SupervisorRuns`,
  `SupervisorOutcomes`, `LostFailures`). A class whose methods are the locked sections, and a state
  machine in which spawners, tasks, quiescing calls and drains interleave.
- **Identifiers** and **Gate**.

Conventions. An identifier is represented by its rank in byte order; `Identifiers` proves that
this rank exists and is faithful. A version requirement is an arbitrary predicate on versions. A
`BTreeMap` or `BTreeSet` is a `map` or `set` walked by repeatedly taking its least element. A
capability marker type is a number compared for equality. Atomics are sequentially consistent.
The source sorts the resolved requirements at the end; they are proved to be produced already in
strict order, so the model does not sort them again. The `f64` of the gate is `real`.

Which *error* an unsound composition returns can depend on the order of the inputs, as in the
source; `ErrorOrder` proves exactly when it does. Whether it fails, and the graph if it does not,
cannot (`Permutation`).

`dafny verify dfyconfig.toml` checks the project.

## Model

| member | source | states |
|---|---|---|
| Resolver.Resolve | crates/kernox-core/src/graph.rs:353-459 | Ok exactly when the declarative composition spec holds, and the value is then the one graph of that spec with the least topological startup order; an error names a check that really fails and whose earlier checks passed |
| Topology.TopologicalOrder | crates/kernox-core/src/graph.rs:741-782 | Ok exactly when the distinct provider-to-consumer relation is acyclic; the order is then a permutation of the plugins, respects every edge and is lexicographically least; otherwise the error path is a genuine simple cycle, and which one is determined by the relation |
| Topology.BuildAdjacency | crates/kernox-core/src/graph.rs:745-757 | the adjacency is the inverse of the distinct-provider relation and every in-degree is the number of distinct providers, so parallel capabilities between two plugins count once |
| Topology.Release | crates/kernox-core/src/graph.rs:764-773 | releasing the consumers of an emitted plugin decrements only positive in-degrees, keeps each equal to the number of providers not yet emitted, and readies exactly those that reach zero |
| Topology.GreedyIsLeast | crates/kernox-core/src/graph.rs:761-773 | repeatedly taking the least ready plugin gives an order no other topological order precedes lexicographically |
| Topology.GreedyIsLeastTopological | crates/kernox-core/src/graph.rs:761-773 | a greedy topological order is the least topological order |
| Topology.LeastTopologicalUnique | crates/kernox-core/src/graph.rs:741-782 | the least topological order is unique, so the startup order is a function of the dependency relation alone |
| Topology.TopologicalIsAcyclic | crates/kernox-core/src/graph.rs:775-782 | any order with providers first rules out every cycle |
| Topology.SortSucceeds | crates/kernox-core/src/graph.rs:775-782 | nothing ready and everything emitted: the relation is acyclic and the order is the least topological one |
| Topology.SortIsStuck | crates/kernox-core/src/graph.rs:775-782 | nothing ready and plugins left: every plugin left has a predecessor among those left, so a cycle exists among them |
| Topology.CycleLength | crates/kernox-core/src/graph.rs:636-650 | with self-dependencies rejected, the reported cycle path has at least three entries |
| CycleSearch.FindCycle | crates/kernox-core/src/graph.rs:784-853 | the iterative search terminates; it returns a simple cycle (first equals last, consecutive entries are edges, interior distinct) exactly when the remaining plugins contain a cycle, in particular whenever every one has a remaining predecessor, so the fallback is never reached; and it is always the cycle that the depth-first search over the ascending neighbour lists meets first |
| Topology.StuckIsStalled | crates/kernox-core/src/graph.rs:775-782 | the cycle found after a stuck sort is a function of the dependency relation: the search over the plugins that no order can emit, those in some set whose members wait for each other |
| CycleSearch.Explore | crates/kernox-core/src/graph.rs:814-849 | one explicit-stack search from an unvisited start either returns a simple cycle or finishes everything it reached, sinks first, and keeps finished plugins finished |
| CycleSearch.Neighbours | crates/kernox-core/src/graph.rs:794-806 | the arcs followed from a plugin are its outgoing ones that remain, in ascending order |
| CycleSearch.SinksFirstHasNoCycle | crates/kernox-core/src/graph.rs:821-827 | plugins finished sinks-first contain no closed walk |
| CycleSearch.SinksFirstHasSource | crates/kernox-core/src/graph.rs:850-853 | a non-empty set finished sinks-first has a plugin without predecessor in it, which contradicts a stuck sort |
| CycleSearch.BackArcClosesCycle | crates/kernox-core/src/graph.rs:833-839 | an arc to a plugin on the search path closes a simple cycle |
| Selection.SelectionMeetsSpec | crates/kernox-core/src/graph.rs:652-739 | selection succeeds exactly when the requirement is selectable, which is stated for each of the four cardinalities, bound or not, by the number of compatible providers; the providers are the bound one, or the compatible ones in ascending identity order; each failure has the error its branch promises |
| Resolver.MissingProviderIsRequired | crates/kernox-core/src/graph.rs:697-739 | a missing or incompatible provider is reported only for an unbound requirement for exactly one or at least one provider that no installed offer satisfies, and which of the two says whether there is an offer at all |
| Selection.CompatibleAreFiltered | crates/kernox-core/src/graph.rs:687-691 | filtering the candidate list by version gives exactly the compatible providers, ascending |
| Inputs.IndexPlugins | crates/kernox-core/src/graph.rs:358-373 | accepts exactly plugin lists with distinct ids and capability counts within the limit; otherwise reports the first offending plugin of the list |
| Inputs.ValidatedBindings | crates/kernox-core/src/graph.rs:461-486 | accepts exactly bindings with known ends and one provider for each consumer and capability; otherwise reports the first offending binding of the list |
| Inputs.ValidateConflicts | crates/kernox-core/src/graph.rs:620-634 | fails exactly when an installed plugin declares an installed conflict, and reports the least such pair |
| Inputs.ValidateNoSelfDependencies | crates/kernox-core/src/graph.rs:636-650 | fails exactly when a plugin requires a capability it offers, and reports the least such pair |
| Requirements.CollectCandidates | crates/kernox-core/src/graph.rs:378-386 | each capability lists all its offers in ascending plugin order, and only those |
| Requirements.InsertEdges | crates/kernox-core/src/graph.rs:410-422 | adds one edge for each selected provider, or stops at the first one past the limit and then always reports the limit plus one |
| Requirements.ResolvePlugin | crates/kernox-core/src/graph.rs:394-431 | resolves the requirements of one plugin in capability order, up to the first that fails |
| Requirements.ResolveRequirements | crates/kernox-core/src/graph.rs:390-431 | all requirements are resolved in consumer and capability order with their edges, or the least failing key is reported |
| Resolver.GraphDiagnostics | crates/kernox-core/src/graph.rs:488-519 | strictly sorted; exactly the requirements without a provider and the offers no edge selects |
| Resolver.FindUnused | crates/kernox-core/src/graph.rs:433-439 | reports the least binding that no requirement used, if there is one |
| Resolver.ValidateLimits | crates/kernox-core/src/graph.rs:354-356 | accepts exactly the supported schema, configured limits within the absolute maxima and a plugin count within its limit; otherwise reports a limit that is really exceeded |
| Resolver.Assemble | crates/kernox-core/src/graph.rs:378-449 | the requirements, edges and diagnostics are those of the spec, or the error is the one of the first failing check |
| Permutation.ResolutionIsOrderIndependent | crates/kernox-core/src/graph.rs:353-459 | for any rearrangement of the plugin list and of the binding list, one resolves exactly when the other does, and to the same graph, diagnostics and startup order included |
| Permutation.ComposableTransfers | crates/kernox-core/src/graph.rs:353-459 | the composition spec does not depend on the order of the inputs |
| Permutation.GraphUnique | crates/kernox-core/src/graph.rs:353-459 | a composition has at most one resolved graph |
| ErrorOrder.ErrorIsDetermined | crates/kernox-core/src/graph.rs:353-459 | for one order of the inputs the error is determined, the reported cycle included |
| ErrorOrder.InsertionOrderDecidesError | crates/kernox-core/src/graph.rs:370-372 | the error of a failing composition can depend on insertion order: a concrete rearrangement of the plugins reports a different duplicate |
| ErrorOrder.BindingOrderDecidesError | crates/kernox-core/src/graph.rs:466-484 | ... and a concrete rearrangement of the bindings reports a different unknown consumer |
| ErrorOrder.PluginErrorsAreFaults | crates/kernox-core/src/graph.rs:358-373 | the errors reported over all orders of a failing plugin list are exactly its faults: a descriptor over the capability limit, or two within it with one identity |
| ErrorOrder.PluginOrderMattersIff | crates/kernox-core/src/graph.rs:358-373 | that error is the same for every order exactly when the list has one fault |
| ErrorOrder.BindingErrorsAreFaults | crates/kernox-core/src/graph.rs:466-484 | the errors reported over all orders of a failing binding list are exactly its faults: an unknown end, or two known bindings for one consumer and capability |
| ErrorOrder.BindingOrderMattersIff | crates/kernox-core/src/graph.rs:466-484 | that error is the same for every order exactly when the list has one fault |
| ErrorOrder.OtherErrorsAreOrderIndependent | crates/kernox-core/src/graph.rs:353-459 | every error found after or before the two list scans is the same for every order of the inputs, the reported cycle included |
| GraphFacts.RequirementsAreKeys | crates/kernox-core/src/graph.rs:394-446 | resolved requirements are strictly increasing by consumer, then capability, and are exactly the declared ones |
| GraphFacts.RequirementIsFactual | crates/kernox-core/src/graph.rs:666-738 | every provider of a resolved requirement is an installed, compatible offer and their number fits the cardinality |
| GraphFacts.SearchIsScan | crates/kernox-core/src/graph.rs:285-299 | on strictly ordered requirements the binary search returns what a linear scan returns, for every key |
| GraphFacts.LookupFindsDeclared | crates/kernox-core/src/graph.rs:285-299 | lookup finds a requirement exactly when it is declared, and the entry is the only one with that key |
| GraphFacts.EdgesFlattenRequirements | crates/kernox-core/src/graph.rs:410-448 | the edge list is strictly increasing by provider, then consumer, then capability, and is the flattening of all requirements' providers |
| GraphFacts.EdgeCountIsProviderCount | crates/kernox-core/src/graph.rs:410-422 | conservation: the number of edges is the sum of the provider counts and at most `max_edges` |
| GraphFacts.DiagnosticsAreExact | crates/kernox-core/src/graph.rs:488-519 | on a resolved graph a diagnostic is listed exactly for a requirement with zero providers and for an offer without a selected edge, the former first and each kind by plugin and capability |
| GraphFacts.ProvidersStartFirst | crates/kernox-core/src/graph.rs:741-782 | the startup order of a resolved graph lists every plugin once and each selected provider before its consumer |
| Report.Accept | crates/kernox-core/src/graph.rs:557-610 | accepts exactly the consistent reports, unchanged: schema, limits, distinct plugins, startup of the same length naming only them, teardown its exact reverse, only declared plugins in every relation; an error names the failing check |
| Report.ResolvedReportIsConsistent | crates/kernox-core/src/graph.rs:327-344 | every report of a resolved graph is consistent, so it is accepted |
| Report.ReportIsProjection | crates/kernox-core/src/graph.rs:327-344 | field by field: every plugin once in identity order with its version, the relations of the graph, its startup order, and that order backwards as teardown order |
| Report.AcceptedIsPermutationIff | crates/kernox-core/src/graph.rs:557-596 | an accepted startup order is a permutation of the plugins exactly when it has no repeat |
| Report.RepeatedStartupIsAccepted | crates/kernox-core/src/graph.rs:567-569 | acceptance does not force a permutation: a report over two plugins that starts the first one twice is accepted |
| Provisions.StagingIsExact | crates/kernox-runtime/src/capability.rs:97-111 | staging a list of provisions succeeds exactly when every contract is valid and no capability repeats, and then holds exactly those entries; otherwise the error is that of the first entry that does not fit |
| Provisions.Registry.Commit | crates/kernox-runtime/src/capability.rs:125-164 | succeeds exactly when the staged capabilities and versions are the declared offers; then publishes all of them under the plugin, otherwise leaves the registry as it was with a true reason |
| Provisions.Validate | crates/kernox-runtime/src/capability.rs:131-155 | the two checking loops report a missing or mismatched declared offer, or an undeclared one, exactly when there is one |
| Provisions.CommitExtendsKeys | crates/kernox-runtime/src/capability.rs:125-164 | after the k-th successful initialization the keys are the declared offers of the first k plugins in startup order |
| Provisions.PrefixCommitsDependencies | crates/kernox-runtime/src/app.rs:207-267 | when the next plugin of a resolved graph initializes, all providers it may ask are committed |
| Provisions.AccessNeverMisses | crates/kernox-runtime/src/capability.rs:239-303 | with the dependencies committed, the results of `require`, `optional` and `all` are determined: they fail exactly for an invalid marker, an undeclared capability, the wrong accessor or a marker that does not match, never with a missing provision; otherwise they give the committed provisions of the selected providers, none for an `optional` without a provider |
| Provisions.GraphCardinalities | crates/kernox-runtime/src/capability.rs:239-303 | in a resolved graph the number of providers of a requirement fits its cardinality |
| Lifecycle.ResolvedApp.Start | crates/kernox-runtime/src/app.rs:178-192 | for any answers of the hooks: Ok exactly when every initialize hook stages its declared offers and every start hook succeeds; then all plugins come up in order and the registry holds what the initialize hooks staged, in the very trace of this run, or the run ends in a complete rollback, the failure that caused it and the recorded cleanup failures |
| Lifecycle.ResolvedApp.InitializeAll | crates/kernox-runtime/src/app.rs:194-205 | Ok exactly when every initialize hook stages its declared offers; all plugins initialized in startup order, or the run stops at the first failure with everything attempted disposed |
| Lifecycle.ResolvedApp.InitializeOne | crates/kernox-runtime/src/app.rs:207-282 | the next plugin is initialized and exactly what its hook staged is committed, if and only if that is its declared offers; otherwise everything attempted is disposed in reverse and the primary failure returned; the trace is what the hooks logged, with the failures they answered |
| Lifecycle.ResolvedApp.StartAll | crates/kernox-runtime/src/app.rs:284-295 | all plugins started in order, exactly when every start hook succeeds, or the run stops at the first failure with the rollback done |
| Lifecycle.ResolvedApp.StartOne | crates/kernox-runtime/src/app.rs:297-326 | the next plugin is started exactly when its hook succeeds; otherwise those attempted are quiesced and stopped and all are disposed |
| Lifecycle.ResolvedApp.RollbackDispose | crates/kernox-runtime/src/app.rs:350-355 | disposes the given plugins last first, with the scope closing before and closed after |
| Lifecycle.ResolvedApp.RollbackStart | crates/kernox-runtime/src/app.rs:357-368 | quiesces then stops those whose start was attempted, then disposes all, each last first |
| Lifecycle.ResolvedApp.RunCleanups | crates/kernox-runtime/src/app.rs:334-348 | every hook of every phase is attempted and recorded; the failures are exactly the failing hooks in call order |
| Lifecycle.RunCleanupHooks | crates/kernox-runtime/src/app.rs:339-347 | the cleanup loops: the hooks log exactly these calls, and each failure is the one its hook answered |
| Lifecycle.RunCleanupHook | crates/kernox-runtime/src/app.rs:548-583 | one cleanup hook is called once; its failure is returned under its plugin, phase, tag and message |
| Lifecycle.PrimaryIsFirstFailure | crates/kernox-runtime/src/app.rs:207-326 | a failed run reports the first hook that failed: every earlier one succeeded, and the record carries that plugin, phase, tag and message |
| PluginHooks.EndIsFirstFailure | crates/kernox-runtime/src/app.rs:178-326 | whatever the hooks answer, a run ends at the first initialize that fails or stages the wrong offers, else at the first start that fails, else it comes up |
| PluginHooks.SafeTag | crates/kernox-runtime/src/app.rs:615-623 | the tag of a record is always well formed, and is the given tag exactly when that is |
| Lifecycle.RunningApp.Shutdown | crates/kernox-runtime/src/app.rs:478-509 | quiesce, stop and dispose of all plugins, each phase last first, while the scope is closing; the report lists exactly the failing hooks in call order; a repeated call returns the first report and runs no hook |
| Lifecycle.RunningApp.CapabilityFrom | crates/kernox-runtime/src/app.rs:464-472 | unavailable exactly after shutdown; before it an invalid marker, a plugin or capability without an offer and a mismatched marker each give their error, and any other call gives the committed provision |
| LifecycleTrace.CleanupMatchesAttempts | crates/kernox-runtime/src/app.rs:178-368 | over a failed start, or a start and a shutdown, each plugin is disposed exactly as often as its initialize was attempted, quiesced and stopped exactly as often as its start was, and never twice |
| LifecycleTrace.CallsAreOrdered | crates/kernox-runtime/src/app.rs:334-368 | no hook of a phase runs before the previous phase is over, and cleanup phases run in reverse startup order |
| LifecycleTrace.CleanupSeesClosing | crates/kernox-runtime/src/app.rs:334-368 | initialize and start hooks see the open scope, every cleanup hook sees it closing |
| LifecycleTrace.EarlierPluginsAreUp | crates/kernox-runtime/src/app.rs:178-368 | whenever a hook of a plugin runs, every plugin before it in startup order has initialized and is not disposed |
| LifecycleTrace.ProvidersAreUp | crates/kernox-runtime/src/app.rs:194-368 | in every run over a resolved graph, whenever any hook of a plugin executes, rollback included, all its selected providers have initialized successfully and none has been disposed |
| ScopeClosure.NextKeepsInv | crates/kernox-runtime/src/scope.rs:74-141 | every atomic operation of `child`, `begin_close` and `finish_close` by any thread on any tree keeps the tree, closure, lock and stack invariants |
| ScopeClosure.PushKeepsInv | crates/kernox-runtime/src/scope.rs:89-96 | a push under the lock after the re-check cannot hit a scope whose children were already snapshotted |
| ScopeClosure.UnregisterKeepsInv | crates/kernox-runtime/src/scope.rs:132-140 | pruning the parent's list by identity keeps the invariant |
| ScopeClosure.UnregisterKeepsOthers | crates/kernox-runtime/src/scope.rs:132-140 | the pruned list loses exactly the closed scope and scopes already released; every other list stays as it is |
| ScopeRuns.ClosedSubtreeStaysClosed | crates/kernox-runtime/src/scope.rs:113-124 | in every interleaving, once `begin_close` has returned, in every later state all live registered descendants are closing or closed |
| ScopeRuns.NoChildAfterClose | crates/kernox-runtime/src/scope.rs:74-97 | ... and no later `child` call on the scope or a live descendant succeeds |
| ScopeRuns.NeverOpenAgain | crates/kernox-runtime/src/scope.rs:113-141 | a scope that is not open never becomes open again |
| ScopeStates.ClosedLeavesIff | crates/kernox-runtime/src/scope.rs:113-118 | an operation takes a closed scope out of the closed state exactly when it is the swap of a repeated `begin_close` of that scope |
| ScopeStates.ClosedIsRestored | crates/kernox-runtime/src/scope.rs:113-118 | in every later state of a run a scope that was closed is closed, or some thread is about to store the closed state again |
| ScopeStates.MonotoneIffNoRepeatedClose | crates/kernox-runtime/src/scope.rs:113-118 | over a run the state of a scope never goes back exactly when no `begin_close` swaps it while it is closed |
| ScopeStates.RepeatedCloseReopensClosing | crates/kernox-runtime/src/scope.rs:113-118 | a run from the initial state in which a scope is closed and then closing again |
| ScopeStates.StateAfter | crates/kernox-runtime/src/scope.rs:74-141 | no operation changes the closure state of a scope except the swap of its own `begin_close` and the two stores of the closed state |
| ScopeProgress.ChildTurnsAwayIff | crates/kernox-runtime/src/scope.rs:74-97 | a `child` call comes to refuse exactly at one of its two checks, when the receiver is not open there, and to succeed exactly by listing its child last |
| ScopeProgress.ChildSucceeds | crates/kernox-runtime/src/scope.rs:74-97 | on an open scope whose list is not locked, the thread's own steps return a new open child with the next identity, last in the list |
| ScopeProgress.ChildRefuses | crates/kernox-runtime/src/scope.rs:74-77 | on a scope that is not open it returns an error and leaves everything as it was |
| ScopeProgress.BeginCloseReturns | crates/kernox-runtime/src/scope.rs:113-124 | on any tree, run alone, `begin_close` returns; its scope is closing, or closed if it was, and otherwise only open scopes below it become closing |
| ScopeProgress.FinishCloseReturns | crates/kernox-runtime/src/scope.rs:126-140 | on any tree, run alone, `finish_close` returns; its scope is closed, off its live parent's list and without live entries in its own, its live children are closed, and nothing changes except below it |
| ScopeFinish.NextKeepsFin | crates/kernox-runtime/src/scope.rs:126-140 | every operation keeps: a live child is listed or finished, and the live children of a finished scope are finished |
| ScopeFinish.FinishedSubtreeStaysClosed | crates/kernox-runtime/src/scope.rs:126-140 | in every interleaving, once `finish_close` has stored a scope as closed, all its live registered descendants are closed in every later state, unless a repeated `begin_close` is between its swap and its store |
| ScopeRuns.IdentitiesAreDistinct | crates/kernox-runtime/src/scope.rs:60-97 | all scopes of one application have distinct identities and keep them |
| ServerlessRuns.StepKeepsInv | crates/kernox-host-serverless/src/lib.rs:138-235 | every operation of every concurrent admission, rollback, lease drop and of shutdown keeps the host invariant over the scope tree |
| ServerlessRuns.CapacityBound | crates/kernox-host-serverless/src/lib.rs:138-172 | in every interleaving, registered invocation scopes <= `active` <= the configured bound, and `active` is the number of live leases plus calls past the `fetch_update` |
| ServerlessRuns.ActiveNeverWraps | crates/kernox-host-serverless/src/lib.rs:231-235 | `active` changes by one exactly at the reservation, the rollback and the release, and a decrement never acts on zero |
| ServerlessRuns.ListIsOutstandingGuards | crates/kernox-runtime/src/app.rs:541-546 | with no operation in flight the application's child list holds exactly the scopes of the outstanding guards, once each, and `active` is their number |
| ServerlessRuns.LeasesHaveDistinctScopes | crates/kernox-runtime/src/app.rs:449-453 | two live leases have scopes with different identities |
| ServerlessRuns.NothingAdmittedAfterShutdown | crates/kernox-host-serverless/src/lib.rs:204-207 | from the start of shutdown on, `active` is zero, no lease is live and the application scope has no child, for ever |
| ServerlessOutcomes.RejectionHasCause | crates/kernox-host-serverless/src/lib.rs:138-172 | in every interleaving, since it entered, a call is rejected for its deadline exactly when its deadline step found it passed, for capacity exactly when its update found `active` at the bound, and turned away as closed exactly when one of its four checks found the host not accepting or the application scope not open |
| ServerlessOutcomes.AdmitsWhenItMay | crates/kernox-host-serverless/src/lib.rs:138-172 | with the host accepting, the application scope open and not locked, capacity left and the deadline not passed, the call's own steps end in a lease on a new scope, with `active` one higher |
| ServerlessOutcomes.RejectsWhenNotAccepting | crates/kernox-host-serverless/src/lib.rs:142-144 | a host that does not accept rejects at once |
| ServerlessOutcomes.RejectsWhenElapsed | crates/kernox-host-serverless/src/lib.rs:146-148 | a passed deadline rejects before any capacity is taken |
| ServerlessOutcomes.RejectsWhenFull | crates/kernox-host-serverless/src/lib.rs:150-154 | at the bound a call is rejected and nothing else changes |
| ServerlessOutcomes.RejectsWhenScopeClosed | crates/kernox-host-serverless/src/lib.rs:161-171 | with the application scope no longer open the capacity is given back and the call rejected as closed |
| ServerlessOutcomes.LeaseDropReturns | crates/kernox-runtime/src/app.rs:541-546 | run alone, a dropped lease leaves its scope closed, off the application's list and released, and `active` one lower |
| ServerlessOutcomes.ShutdownReturns | crates/kernox-host-serverless/src/lib.rs:204-207 | run alone with every call over, shutdown returns with the host not accepting and the application scope closed |
| Supervisor.TaskSupervisor.Spawn | crates/kernox-host-tokio/src/lib.rs:487-513 | closed before missing runtime before capacity; a failure changes nothing; success gives a fresh identity, at most `max_tasks` records, and a record with the abort handle of its own task |
| Supervisor.TaskSupervisor.RecordPanic | crates/kernox-host-tokio/src/lib.rs:397-411 | closes admission and the tracker and cancels; records this task under its spawn name unless a failure is already recorded |
| Supervisor.TaskSupervisor.DropRegistration | crates/kernox-host-tokio/src/lib.rs:385-394 | removes exactly this task's record |
| Supervisor.TaskSupervisor.Quiesce | crates/kernox-host-tokio/src/lib.rs:436-441 | closes admission and the tracker and cancels; nothing else changes |
| Supervisor.TaskSupervisor.AbortHandles | crates/kernox-host-tokio/src/lib.rs:460-473 | the handles to abort are those of exactly the unfinished tasks, in identity order |
| Supervisor.TaskSupervisor.PendingTasks | crates/kernox-host-tokio/src/lib.rs:519-528 | one entry for each unfinished task with its name, in identity order |
| Supervisor.TaskSupervisor.ClaimDrainReport | crates/kernox-host-tokio/src/lib.rs:475-483 | only the first claim succeeds |
| SupervisorProof.NextKeepsInv | crates/kernox-host-tokio/src/lib.rs:313-513 | every operation of every concurrent spawn, task, quiesce and drain keeps the supervisor invariant |
| SupervisorRuns.FreeLockShowsOrder | crates/kernox-host-tokio/src/lib.rs:487-513 | whenever the lock is free there are at most `max_tasks` records, all identities are below the counter, every record has its own abort handle, and a recorded failure has closed admission |
| SupervisorRuns.RecordsAreLiveTasks | crates/kernox-host-tokio/src/lib.rs:385-411 | the records are exactly the registrations of live tasks, so a panicking task always finds its own and the fallback name is unreachable |
| SupervisorRuns.ClosedAdmissionIsSticky | crates/kernox-host-tokio/src/lib.rs:397-441 | closed admission stays closed and admits no task again; the first terminal failure is never overwritten |
| SupervisorRuns.IdentitiesAreUnique | crates/kernox-host-tokio/src/lib.rs:495-496 | no two admitted tasks get the same identity |
| SupervisorRuns.AtMostOneDrainError | crates/kernox-host-tokio/src/lib.rs:313-356 | over any number of concurrent stop and dispose calls at most one drain returns an error, and a task failure in it is the first one |
| SupervisorRuns.NoFailureIsLost | crates/kernox-host-tokio/src/lib.rs:313-356 | if a drain begun after a quiesce claimed the report without an error, then no task has failed or ever will, and no task is left |
| SupervisorRuns.SealedDrainIsSafe | crates/kernox-host-tokio/src/lib.rs:313-323 | a drain begun after a quiesce never arms a timer without a runtime, and its abort reaches every task that still has a record |
| SupervisorOutcomes.DrainReportsWhatItSaw | crates/kernox-host-tokio/src/lib.rs:313-356 | in every interleaving, what a finished drain reports is decided by what it saw: nothing if the report was taken, the missing runtime if it found tasks without one, else the failure it read, else the tasks recorded when its budget had elapsed, else nothing; when it last looked the tracker was empty, and closed if it had waited |
| SupervisorOutcomes.TimeoutIff | crates/kernox-host-tokio/src/lib.rs:341-355 | a drain that claims the report and reads no failure times out exactly when its budget elapsed while tasks were recorded, and names exactly those |
| SupervisorOutcomes.SpawnSucceeds | crates/kernox-host-tokio/src/lib.rs:487-513 | with the lock free, admission open, a runtime, capacity and identities left, `spawn` ends in a running task with the next identity and its own abort handle |
| SupervisorOutcomes.SpawnRefuses | crates/kernox-host-tokio/src/lib.rs:487-496 | otherwise it changes nothing: closed before missing runtime before exhausted capacity or identities |
| SupervisorOutcomes.QuiesceCloses | crates/kernox-host-tokio/src/lib.rs:436-441 | `quiesce` closes admission and the tracker and cancels, and changes nothing else |
| SupervisorOutcomes.TaskEnds | crates/kernox-host-tokio/src/lib.rs:385-394 | a task that ends has its record removed and leaves the tracker |
| SupervisorOutcomes.TaskPanics | crates/kernox-host-tokio/src/lib.rs:397-411 | a task that panics is recorded unless a failure is, closes admission and the tracker, cancels, and leaves |
| SupervisorOutcomes.DrainFindsNothing | crates/kernox-host-tokio/src/lib.rs:447-449 | with the tracker empty a drain returns at once, with the report if nobody has it |
| SupervisorOutcomes.DrainTimesOut | crates/kernox-host-tokio/src/lib.rs:451-457 | when its budget elapses a drain aborts every recorded task and goes on waiting with those pending |
| SupervisorOutcomes.TimedOutDrainReports | crates/kernox-host-tokio/src/lib.rs:324-356 | once the closed tracker is empty that drain reports the failure, or else the pending tasks |
| SupervisorOutcomes.DrainWithoutRuntime | crates/kernox-host-tokio/src/lib.rs:313-323 | with tasks and no runtime a drain aborts every recorded task and reports the missing runtime if nobody has the report |
| LostFailures.FailureIsPossibleIff | crates/kernox-host-tokio/src/lib.rs:313-513 | from a state that satisfies the invariant some continuation records a terminal failure exactly when one is recorded, a task may still panic, a `spawn` is past admission, or admission is open with a positive bound and identities left |
| LostFailures.SilentDrainLosesIff | crates/kernox-host-tokio/src/lib.rs:313-356 | in any run, a drain that claimed the report and returned no error misses a failure in some continuation exactly under that condition |
| LostFailures.WaitedDrainIsFinal | crates/kernox-host-tokio/src/lib.rs:447-457 | once the closed tracker is empty no unrecorded failure can follow, so a drain that waited for it loses none |
| LostFailures.EarlyReturnLosesIff | crates/kernox-host-tokio/src/lib.rs:447-449 | at the guard: the early return on an empty tracker can use up the report and miss a failure exactly when admission is still open or a `spawn` is under way |
| LostFailures.UnsealedDrainCanLoseFailure | crates/kernox-host-tokio/src/lib.rs:324-330 | a drain of a new supervisor without the quiesce can use up the one report and miss a later panic, exactly when the supervisor admits any task at all |
| Identifiers.ValidateIdentifier | crates/kernox-core/src/id.rs:11-66 | accepts exactly the identifiers of the grammar; otherwise the error is the true one |
| Identifiers.ReportIsUnique | crates/kernox-core/src/id.rs:11-66 | at most one error is true of a string, so the contract determines the result |
| Identifiers.OffsetsPointAtTheFault | crates/kernox-core/src/id.rs:38-62 | a reported offset is inside the string, in the reported segment, and names the offending byte; every earlier segment is valid |
| Identifiers.GrammarsAgree | crates/kernox-core/src/id.rs:24-66 | the segment-wise grammar is the byte-wise one: which byte may follow which, and no 64 bytes in a row without a dot |
| Identifiers.CheckSegment | crates/kernox-core/src/id.rs:26-60 | the checks of one segment accept exactly valid ones and report the first failing check |
| Identifiers.IdentifierOrderIsRankOrder | crates/kernox-core/src/id.rs:71-72 | identifiers are ordered and distinguished as their ranks are, which justifies numbering them in the graph modules |
| Gate.EvaluateRuns | xtask/src/bench_budget.rs:168-265 | Ok exactly for at least five runs whose times form one strictly increasing chain, all at or after the start; the outcome passes exactly when the median paired delta is at most 0.02, whatever the overlap; an error names the first run that breaks the chain and how |
| Gate.ChecksAreChain | xtask/src/bench_budget.rs:181-211 | the run by run time checks hold exactly when the whole interleaved timeline is one strict chain |
| Gate.Median | xtask/src/bench_budget.rs:267-276 | the result is the middle order statistic, or the midpoint of the two middle ones |
| Gate.MedianIsUnique | xtask/src/bench_budget.rs:267-276 | the order-statistic definition determines the median |
| Gate.OddGateIsMajority | xtask/src/bench_budget.rs:212-255 | for an odd number of runs the gate passes exactly when more than half of the paired deltas are at most 0.02 |
| Gate.EvenGateIsMajorityOrBoundary | xtask/src/bench_budget.rs:212-255 | for an even number of runs the gate passes exactly when more than half of the paired deltas are at most 0.02, or exactly half are and the mean of the greatest delta within and the least one beyond is at most 0.02 |
| Gate.MinorityCannotMoveMedian | xtask/src/bench_budget.rs:267-276 | altering any minority of an odd number of deltas leaves the median between two unaltered ones |
| Gate.DeltaIsRelativeOverhead | xtask/src/bench_budget.rs:212-255 | the delta of a pair is the one d with Kernox = direct * (1 + d); it is zero exactly for equal points and positive exactly when Kernox is slower |
| Gate.ScalingShiftsMedian | docs/performance.md:127-129 | scaling every Kernox point by r > 0 maps the paired median m to r*m + (r - 1) |
| Gate.Overlap | xtask/src/bench_budget.rs:246-248 | the ranges overlap exactly when some interval of each side starts no later than some interval of the other ends |

## Left out

- Command line, JSON and DOT rendering, bounded file reading, serde derives and the parsing of estimates: input and output.
- Semantic-version parsing and matching: a requirement is an arbitrary predicate.
- Descriptor builders, host-requirement negotiation, contract attribution, conformance checks and error tags: single-branch facts.
- `TypeId` and `Any` downcasts: a marker value compared for equality.
- Futures, panics and unwinding: a panicking hook is a failing hook; a task is an identity that finishes or panics.
- Observation events and durations: they do not influence control flow.
- A shutdown future dropped before it completes: the statements about exactly-once cleanup are about completed shutdowns.
- Deadlines and the drain budget as clocks: whether they have elapsed is an arbitrary choice at each step.
- Weak memory ordering and mutex poisoning: each atomic operation is one step, and a poisoned lock is an ordinary lock, as in the source.
- Integer widths of counters other than the task identity and the serverless decrement: they are unbounded.
- Plugin hooks during the application shutdown of a serverless host: only its scope operations are interleaved there.
- The rejection of a zero capacity by the serverless and task configurations: with zero capacity the model admits nothing.
- The scope allocated by a `child` call that fails its re-check stays allocated until a separate release step, without an owner.
- The four interval bounds in the gate's outcome: they are printed only; their overlap is modelled.
- The finiteness checks of the gate: over the reals every value is finite.
- ScopeTree, ServerlessHost and the interleaved supervisor as classes: their operations interleave, so they are state machines over values; the locked sections of the supervisor are also class methods.
- The library sort inside the median: it is modelled by insertion into a sequence, since only its result matters.
- The text of a failure record for a rejected commit: the record carries the tag and an empty text.
- ServerlessRuns.ListIsOutstandingGuards: states the list exactly only when no operation is in flight; in flight `ServerlessRuns.CapacityBound` gives the inequality.
