/** The plugins as the executor sees them: hooks it calls and the answers they give. */
module PluginHooks {
  import opened Model
  import opened Composition
  import opened GraphFacts
  import opened Provisions
  import opened LifecycleTrace

  datatype PluginError = PluginError(tag: string, message: string)

  /** What each hook answers. No hook of a plugin is called twice (`CleanupMatchesAttempts`), so
      one answer for each is any behaviour at all; a hook that unwinds answers with a failure. */
  datatype Answers = Answers(
    initialize: PluginId -> Result<ProvisionSet, PluginError>,
    later: (PluginId, Phase) -> Option<PluginError>)

  /** The boxed plugins. `log` records the calls as they are made. */
  class HookSet {
    const answers: Answers
    ghost var log: seq<Call>

    constructor (answers: Answers)
      ensures this.answers == answers && log == []
    {
      this.answers := answers;
      log := [];
    }

    /** An initialize hook runs only when every dependency it may look up is committed. */
    method Initialize(graph: ResolvedGraph, committed: Committed, consumer: PluginId, scope: ScopeState)
        returns (r: Result<ProvisionSet, PluginError>)
      requires CardinalitiesHold(graph) && DependenciesCommitted(graph, committed, consumer)
      modifies this`log
      ensures r == answers.initialize(consumer)
      ensures log == old(log) + [Call(consumer, Phase.Initialize, scope)]
    {
      log := log + [Call(consumer, Phase.Initialize, scope)];
      r := answers.initialize(consumer);
    }

    method Run(plugin: PluginId, phase: Phase, scope: ScopeState) returns (r: Option<PluginError>)
      requires !phase.Initialize?
      modifies this`log
      ensures r == answers.later(plugin, phase)
      ensures log == old(log) + [Call(plugin, phase, scope)]
    {
      log := log + [Call(plugin, phase, scope)];
      r := answers.later(plugin, phase);
    }
  }

  // ----- failure records

  predicate IsLower(c: char) {
    'a' <= c <= 'z'
  }

  predicate IsTag(tag: string) {
    && 1 <= |tag| <= 127 && IsLower(tag[0]) && IsLower(tag[|tag| - 1])
    && forall i :: 0 <= i < |tag| ==> IsLower(tag[i]) || tag[i] == '.' || tag[i] == '-'
  }

  const INVALID_TAG := "plugin.invalid-error-tag"

  /** A tag that is not well formed is replaced. */
  function SafeTag(tag: string): (r: string)
    ensures IsTag(r) && (r == tag <==> IsTag(tag))
  {
    if IsTag(tag) then tag else INVALID_TAG
  }

  function Record(plugin: PluginId, phase: Phase, error: PluginError): FailureRecord {
    FailureRecord(phase, plugin, SafeTag(error.tag), error.message)
  }

  function CommitTag(error: ProvisionError): string {
    match error
    case InvalidProvisionContract(InvalidIdentifier) => "contract.invalid-identifier"
    case InvalidProvisionContract(InvalidVersion) => "contract.invalid-version"
    case DuplicateProvision(_) => "provision.duplicate"
    case UndeclaredProvision(_, _) => "provision.undeclared"
    case VersionMismatch(_, _, _, _) => "provision.version-mismatch"
    case MissingOffer(_, _) => "provision.missing"
  }

  // ----- what the answers decide

  /** `p` initializes and stages exactly its declared offers. */
  ghost predicate Brings(a: Answers, plugins: Plugins, p: PluginId) {
    p in plugins && a.initialize(p).Ok? && Matches(plugins[p], a.initialize(p).value)
  }

  /** Every plugin initializes, commits and starts. */
  ghost predicate ComesUp(a: Answers, plugins: Plugins, order: seq<PluginId>) {
    && (forall i :: 0 <= i < |order| ==> Brings(a, plugins, order[i]))
    && (forall i :: 0 <= i < |order| ==> a.later(order[i], Phase.Start).None?)
  }

  /** Why `p` did not initialize: its own failure, or the offer its staged set breaks. */
  ghost predicate InitializeRecord(a: Answers, plugins: Plugins, p: PluginId, record: FailureRecord) {
    && p in plugins && record.phase == Phase.Initialize && record.plugin == p
    && match a.initialize(p)
       case Err(e) => record.tag == SafeTag(e.tag) && record.message == e.message
       case Ok(staged) => exists c :: CommitFails(p, plugins[p], staged, c) && record.tag == CommitTag(c)
  }

  /** The event has the failure its hook answered, under its plugin, phase, tag and message. */
  ghost predicate Told(a: Answers, plugins: Plugins, e: Event) {
    if e.phase.Initialize? then
      && (e.failure.None? <==> Brings(a, plugins, e.plugin))
      && (e.failure.Some? ==> InitializeRecord(a, plugins, e.plugin, e.failure.value))
    else
      match a.later(e.plugin, e.phase)
      case None => e.failure == None
      case Some(error) => e.failure == Some(FailureRecord(e.phase, e.plugin, SafeTag(error.tag), error.message))
  }

  ghost predicate Truthful(a: Answers, plugins: Plugins, trace: seq<Event>) {
    forall i :: 0 <= i < |trace| ==> Told(a, plugins, trace[i])
  }

  /** Everything committed is what an initialize hook staged. */
  ghost predicate Published(a: Answers, committed: Committed) {
    forall p: PluginId, c: CapabilityId :: (p, c) in committed ==>
      a.initialize(p).Ok? && c in a.initialize(p).value && committed[(p, c)] == a.initialize(p).value[c]
  }

  lemma PublishedAfterCommit(a: Answers, committed: Committed, p: PluginId)
    requires Published(a, committed) && a.initialize(p).Ok?
    ensures Published(a, AfterCommit(committed, p, a.initialize(p).value))
  {
  }

  lemma TruthfulConcat(a: Answers, plugins: Plugins, s: seq<Event>, t: seq<Event>)
    ensures Truthful(a, plugins, s + t) <==> Truthful(a, plugins, s) && Truthful(a, plugins, t)
  {
    hide Told;
    if Truthful(a, plugins, s + t) {
      forall i | 0 <= i < |s| ensures Told(a, plugins, s[i]) { assert s[i] == (s + t)[i]; }
      forall i | 0 <= i < |t| ensures Told(a, plugins, t[i]) { assert t[i] == (s + t)[|s| + i]; }
    }
  }

  /** The `i`th event of the forward part: its call, and whether it failed. */
  lemma ForwardEvent(trace: seq<Event>, order: seq<PluginId>, end: End, i: nat)
    requires Follows(trace, order, end) && i < |ForwardCalls(order, end)|
    ensures i < |trace|
    ensures ForwardCalls(order, end)[i] == Call(trace[i].plugin, trace[i].phase, trace[i].scope)
    ensures trace[i].failure.Some? <==>
              (end.InitializeFailed? || end.StartFailed?) && i == |ForwardCalls(order, end)| - 1
  {
    FollowsCalls(trace, order, end);
    hide ForwardCalls, CleanupCalls, Calls;
    CallAt(trace, i);
  }

  lemma InitializeCallAt(order: seq<PluginId>, end: End, j: nat)
    requires EndsWithin(order, end) && j < if end.InitializeFailed? then end.at + 1 else |order|
    ensures var calls := ForwardCalls(order, end);
            && j < |calls| && calls[j] == Call(order[j], Phase.Initialize, Open)
            && (end.InitializeFailed? ==> (j == |calls| - 1 <==> j == end.at))
            && (end.StartFailed? ==> j < |calls| - 1)
  {
  }

  lemma StartCallAt(order: seq<PluginId>, end: End, j: nat)
    requires EndsWithin(order, end) && !end.InitializeFailed? && j < if end.StartFailed? then end.at + 1 else |order|
    ensures var calls := ForwardCalls(order, end);
            && |order| + j < |calls| && calls[|order| + j] == Call(order[j], Phase.Start, Open)
            && (end.StartFailed? ==> (|order| + j == |calls| - 1 <==> j == end.at))
  {
  }

  lemma BringsUnlessLast(a: Answers, plugins: Plugins, trace: seq<Event>, order: seq<PluginId>, end: End, j: nat)
    requires Follows(trace, order, end) && Truthful(a, plugins, trace)
    requires j < if end.InitializeFailed? then end.at + 1 else |order|
    ensures Brings(a, plugins, order[j]) <==> !(end.InitializeFailed? && j == end.at)
  {
    hide Follows, ForwardCalls, Brings, InitializeRecord;
    FollowsCalls(trace, order, end);
    InitializeCallAt(order, end, j);
    ForwardEvent(trace, order, end, j);
    assert Told(a, plugins, trace[j]);
  }

  lemma StartsUnlessLast(a: Answers, plugins: Plugins, trace: seq<Event>, order: seq<PluginId>, end: End, j: nat)
    requires Follows(trace, order, end) && Truthful(a, plugins, trace)
    requires !end.InitializeFailed? && j < if end.StartFailed? then end.at + 1 else |order|
    ensures a.later(order[j], Phase.Start).None? <==> !(end.StartFailed? && j == end.at)
  {
    hide Follows, ForwardCalls, Brings, InitializeRecord;
    FollowsCalls(trace, order, end);
    StartCallAt(order, end, j);
    ForwardEvent(trace, order, end, |order| + j);
    assert Told(a, plugins, trace[|order| + j]);
  }

  /** In a truthful run the end is where the first hook failed, or nowhere. */
  lemma EndIsFirstFailure(a: Answers, plugins: Plugins, trace: seq<Event>, order: seq<PluginId>, end: End)
    requires Follows(trace, order, end) && Truthful(a, plugins, trace)
    ensures match end
            case InitializeFailed(k) =>
              (forall j :: 0 <= j < k ==> Brings(a, plugins, order[j])) && !Brings(a, plugins, order[k])
            case StartFailed(k) =>
              && (forall j :: 0 <= j < |order| ==> Brings(a, plugins, order[j]))
              && (forall j :: 0 <= j < k ==> a.later(order[j], Phase.Start).None?)
              && a.later(order[k], Phase.Start).Some?
            case _ => ComesUp(a, plugins, order)
  {
    FollowsCalls(trace, order, end);
    hide Brings, Follows, Truthful, ForwardCalls, CleanupCalls, Calls;
    forall j: nat | j < if end.InitializeFailed? then end.at + 1 else |order|
      ensures Brings(a, plugins, order[j]) <==> !(end.InitializeFailed? && j == end.at)
    {
      BringsUnlessLast(a, plugins, trace, order, end, j);
    }
    if !end.InitializeFailed? {
      forall j: nat | j < if end.StartFailed? then end.at + 1 else |order|
        ensures a.later(order[j], Phase.Start).None? <==> !(end.StartFailed? && j == end.at)
      {
        StartsUnlessLast(a, plugins, trace, order, end, j);
      }
    }
  }
}
