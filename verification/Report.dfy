/** The inspection report of a graph and the acceptor of decoded reports. */
module Report {
  import opened Model
  import opened Ordering
  import opened Topology
  import opened Composition
  import opened GraphFacts

  datatype PluginSummary = PluginSummary(id: PluginId, version: Version)

  datatype GraphReport = GraphReport(
    schemaVersion: nat,
    plugins: seq<PluginSummary>,
    requirements: seq<ResolvedRequirement>,
    edges: seq<ResolvedEdge>,
    diagnostics: seq<Diagnostic>,
    startupOrder: seq<PluginId>,
    teardownOrder: seq<PluginId>)

  datatype ReportError =
    | UnsupportedReportSchemaVersion(actual: nat, supported: nat)
    | DuplicateReportPlugin(plugin: PluginId)
    | UnknownReportPlugin(plugin: PluginId)
    | InconsistentReportLifecycle

  function SummaryIds(plugins: seq<PluginSummary>): (r: seq<PluginId>)
    ensures |r| == |plugins|
  {
    seq(|plugins|, i requires 0 <= i < |plugins| => plugins[i].id)
  }

  /** The versioned projection of a graph. */
  ghost function ReportOf(g: ResolvedGraph): GraphReport
    requires Keyed(g.plugins)
  {
    IdOrder();
    AscendProperties(IdLess, g.plugins.Keys);
    var ids := Ascend(IdLess, g.plugins.Keys);
    GraphReport(GRAPH_REPORT_SCHEMA_VERSION,
                seq(|ids|, i requires 0 <= i < |ids| =>
                   assert ids[i] in ids; PluginSummary(g.plugins[ids[i]].id, g.plugins[ids[i]].version)),
                g.requirements, g.edges, g.diagnostics, g.startupOrder, Reversed(g.startupOrder))
  }

  // ----- acceptance

  function RequirementPlugins(rs: seq<ResolvedRequirement>): seq<PluginId> {
    if rs == [] then [] else [rs[0].consumer] + rs[0].providers + RequirementPlugins(rs[1..])
  }

  function EdgePlugins(es: seq<ResolvedEdge>): seq<PluginId> {
    if es == [] then [] else [es[0].provider, es[0].consumer] + EdgePlugins(es[1..])
  }

  function DiagnosticPlugin(d: Diagnostic): PluginId {
    match d
    case OptionalProviderMissing(consumer, _) => consumer
    case UnselectedOffer(provider, _) => provider
  }

  function DiagnosticPlugins(ds: seq<Diagnostic>): seq<PluginId> {
    if ds == [] then [] else [DiagnosticPlugin(ds[0])] + DiagnosticPlugins(ds[1..])
  }

  /** Every plugin a relation of the report names, in reading order. */
  function RelationPlugins(report: GraphReport): seq<PluginId> {
    RequirementPlugins(report.requirements) + EdgePlugins(report.edges) + DiagnosticPlugins(report.diagnostics)
  }

  /** No relation names a plugin outside `known`. */
  ghost predicate RelationsKnown(report: GraphReport, known: set<PluginId>) {
    && (forall i :: 0 <= i < |report.requirements| ==>
          report.requirements[i].consumer in known && forall q :: q in report.requirements[i].providers ==> q in known)
    && (forall i :: 0 <= i < |report.edges| ==> report.edges[i].provider in known && report.edges[i].consumer in known)
    && (forall i :: 0 <= i < |report.diagnostics| ==> DiagnosticPlugin(report.diagnostics[i]) in known)
  }

  ghost predicate Consistent(report: GraphReport) {
    var known := Elements(SummaryIds(report.plugins));
    && report.schemaVersion == GRAPH_REPORT_SCHEMA_VERSION
    && NoRepeats(SummaryIds(report.plugins))
    && |report.startupOrder| == |report.plugins|
    && (forall p :: p in report.startupOrder ==> p in known)
    && report.teardownOrder == Reversed(report.startupOrder)
    && RelationsKnown(report, known)
  }

  ghost predicate FirstOutside(s: seq<PluginId>, known: set<PluginId>, p: PluginId) {
    exists i :: 0 <= i < |s| && s[i] == p && p !in known && forall j :: 0 <= j < i ==> s[j] in known
  }

  /** The error of an inconsistent report. */
  ghost predicate ReportFails(report: GraphReport, e: ReportError) {
    var ids := SummaryIds(report.plugins);
    var known, startup := Elements(ids), report.startupOrder;
    if report.schemaVersion != GRAPH_REPORT_SCHEMA_VERSION then
      e == UnsupportedReportSchemaVersion(report.schemaVersion, GRAPH_REPORT_SCHEMA_VERSION)
    else if !NoRepeats(ids) then
      exists i :: 0 <= i < |ids| && NoRepeats(ids[..i]) && ids[i] in ids[..i] && e == DuplicateReportPlugin(ids[i])
    else if exists p :: p in startup && p !in known then
      e.UnknownReportPlugin? && FirstOutside(startup, known, e.plugin)
    else if |startup| != |ids| then
      if exists p :: p in known && p !in startup
      then e.UnknownReportPlugin? && IsLeast(IdLess, known - Elements(startup), e.plugin)
      else e == InconsistentReportLifecycle
    else if report.teardownOrder != Reversed(startup) then
      e == InconsistentReportLifecycle
    else
      e.UnknownReportPlugin? && FirstOutside(RelationPlugins(report), known, e.plugin)
  }

  method FindOutside(s: seq<PluginId>, known: set<PluginId>) returns (r: Option<PluginId>)
    ensures r.None? ==> forall p :: p in s ==> p in known
    ensures r.Some? ==> r.value in s && FirstOutside(s, known, r.value)
  {
    for i := 0 to |s|
      invariant forall j :: 0 <= j < i ==> s[j] in known
    {
      if s[i] !in known { return Some(s[i]); }
    }
    return None;
  }

  method CollectIds(plugins: seq<PluginSummary>) returns (r: Result<set<PluginId>, ReportError>)
    ensures r.Ok? ==> NoRepeats(SummaryIds(plugins)) && r.value == Elements(SummaryIds(plugins))
    ensures r.Ok? ==> |r.value| == |plugins|
    ensures r.Err? ==> var ids := SummaryIds(plugins);
              exists i :: 0 <= i < |ids| && NoRepeats(ids[..i]) && ids[i] in ids[..i]
                  && r.error == DuplicateReportPlugin(ids[i])
  {
    var known: set<PluginId> := {};
    ghost var ids := SummaryIds(plugins);
    for i := 0 to |plugins|
      invariant known == Elements(ids[..i]) && NoRepeats(ids[..i]) && |known| == i
    {
      assert ids[..i + 1] == ids[..i] + [ids[i]];
      if plugins[i].id in known {
        return Err(DuplicateReportPlugin(plugins[i].id));
      }
      known := known + {plugins[i].id};
    }
    assert ids[..|plugins|] == ids;
    return Ok(known);
  }

  /** Accepts exactly the consistent reports, unchanged. */
  method Accept(report: GraphReport) returns (r: Result<GraphReport, ReportError>)
    ensures r.Ok? <==> Consistent(report)
    ensures r.Ok? ==> r.value == report
    ensures r.Err? ==> ReportFails(report, r.error)
  {
    hide FirstOutside, RelationsKnown, NoRepeats;
    if report.schemaVersion != GRAPH_REPORT_SCHEMA_VERSION {
      return Err(UnsupportedReportSchemaVersion(report.schemaVersion, GRAPH_REPORT_SCHEMA_VERSION));
    }
    var collected := CollectIds(report.plugins);
    if collected.Err? {
      RepeatIsRepeat(SummaryIds(report.plugins));
      return Err(collected.error);
    }
    var known := collected.value;
    var unknown := FindOutside(report.startupOrder, known);
    if |report.startupOrder| != |known| || unknown.Some? {
      if unknown.Some? { return Err(UnknownReportPlugin(unknown.value)); }
      var missing := set p | p in known && p !in report.startupOrder;
      assert missing == known - Elements(report.startupOrder);
      if missing != {} {
        var p := First(missing);
        return Err(UnknownReportPlugin(p));
      }
      assert forall p :: p in known ==> p !in missing;
      return Err(InconsistentReportLifecycle);
    }
    if |report.teardownOrder| != |report.startupOrder| {
      return Err(InconsistentReportLifecycle);
    }
    assert |report.startupOrder| == |SummaryIds(report.plugins)|;
    for i := 0 to |report.teardownOrder|
      invariant forall j :: 0 <= j < i ==> report.teardownOrder[j] == Reversed(report.startupOrder)[j]
    {
      if report.teardownOrder[i] != report.startupOrder[|report.startupOrder| - 1 - i] {
        assert report.teardownOrder[i] != Reversed(report.startupOrder)[i];
        return Err(InconsistentReportLifecycle);
      }
    }
    assert report.teardownOrder == Reversed(report.startupOrder);
    RelationsAreListed(report, known);
    var related := FindOutside(RelationPlugins(report), known);
    if related.Some? { return Err(UnknownReportPlugin(related.value)); }
    return Ok(report);
  }

  lemma RepeatIsRepeat(s: seq<PluginId>)
    ensures (exists i :: 0 <= i < |s| && s[i] in s[..i]) ==> !NoRepeats(s)
  {
  }

  lemma {:induction false} RequirementPluginsAre(rs: seq<ResolvedRequirement>, p: PluginId)
    ensures p in RequirementPlugins(rs) <==> exists i :: 0 <= i < |rs| && (p == rs[i].consumer || p in rs[i].providers)
  {
    if rs != [] {
      RequirementPluginsAre(rs[1..], p);
      assert forall i :: 0 < i < |rs| ==> rs[i] == rs[1..][i - 1];
      if i :| 0 <= i < |rs[1..]| && (p == rs[1..][i].consumer || p in rs[1..][i].providers) {
        assert p == rs[i + 1].consumer || p in rs[i + 1].providers;
      }
    }
  }

  lemma {:induction false} EdgePluginsAre(es: seq<ResolvedEdge>, p: PluginId)
    ensures p in EdgePlugins(es) <==> exists i :: 0 <= i < |es| && (p == es[i].provider || p == es[i].consumer)
  {
    if es != [] {
      EdgePluginsAre(es[1..], p);
      assert forall i :: 0 < i < |es| ==> es[i] == es[1..][i - 1];
      if i :| 0 <= i < |es[1..]| && (p == es[1..][i].provider || p == es[1..][i].consumer) {
        assert p == es[i + 1].provider || p == es[i + 1].consumer;
      }
    }
  }

  lemma {:induction false} DiagnosticPluginsAre(ds: seq<Diagnostic>, p: PluginId)
    ensures p in DiagnosticPlugins(ds) <==> exists i :: 0 <= i < |ds| && p == DiagnosticPlugin(ds[i])
  {
    if ds != [] {
      DiagnosticPluginsAre(ds[1..], p);
      assert forall i :: 0 < i < |ds| ==> ds[i] == ds[1..][i - 1];
      if i :| 0 <= i < |ds[1..]| && p == DiagnosticPlugin(ds[1..][i]) {
        assert p == DiagnosticPlugin(ds[i + 1]);
      }
    }
  }

  lemma RelationsAreListed(report: GraphReport, known: set<PluginId>)
    ensures RelationsKnown(report, known) <==> forall p :: p in RelationPlugins(report) ==> p in known
    ensures (exists p :: FirstOutside(RelationPlugins(report), known, p)) ==> !RelationsKnown(report, known)
  {
    forall p: PluginId
      ensures p in RelationPlugins(report) <==>
              p in RequirementPlugins(report.requirements) || p in EdgePlugins(report.edges)
                  || p in DiagnosticPlugins(report.diagnostics)
    {
    }
    forall p: PluginId
      ensures p in RequirementPlugins(report.requirements) <==>
              exists i :: 0 <= i < |report.requirements|
                  && (p == report.requirements[i].consumer || p in report.requirements[i].providers)
      ensures p in EdgePlugins(report.edges) <==>
              exists i :: 0 <= i < |report.edges| && (p == report.edges[i].provider || p == report.edges[i].consumer)
      ensures p in DiagnosticPlugins(report.diagnostics) <==>
              exists i :: 0 <= i < |report.diagnostics| && p == DiagnosticPlugin(report.diagnostics[i])
    {
      RequirementPluginsAre(report.requirements, p);
      EdgePluginsAre(report.edges, p);
      DiagnosticPluginsAre(report.diagnostics, p);
    }
  }

  // ----- reports of resolved graphs

  /** Field by field: each plugin once, in identity order and with its version; the relations of
      the graph; its startup order, and that order backwards. */
  lemma ReportIsProjection(spec: CompositionSpec, g: ResolvedGraph)
    requires ResolvedFrom(spec, g)
    ensures Keyed(g.plugins)
    ensures var report := ReportOf(g);
            && report.schemaVersion == GRAPH_REPORT_SCHEMA_VERSION
            && (forall i, j :: 0 <= i < j < |report.plugins| ==> report.plugins[i].id < report.plugins[j].id)
            && (forall p, v :: PluginSummary(p, v) in report.plugins <==> p in g.plugins && g.plugins[p].version == v)
            && report.requirements == g.requirements && report.edges == g.edges
            && report.diagnostics == g.diagnostics
            && |report.startupOrder| == |report.teardownOrder| == |g.plugins|
            && forall i :: 0 <= i < |g.plugins| ==>
                 report.startupOrder[i] == report.teardownOrder[|g.plugins| - 1 - i] == g.startupOrder[i]
  {
    hide SelectionOk, Acyclic, IsGraphOf, GraphDependencies, Conflicts, SelfDependencies, UnusedBindings;
    IndexFacts(spec);
    GraphPlugins(spec, g);
    ProvidersStartFirst(spec, g);
    SameLength(g.startupOrder, g.plugins.Keys);
    SummariesArePlugins(g);
  }

  lemma SummariesArePlugins(g: ResolvedGraph)
    requires Keyed(g.plugins)
    ensures var ps := ReportOf(g).plugins;
            && (forall i, j :: 0 <= i < j < |ps| ==> ps[i].id < ps[j].id)
            && forall p, v :: PluginSummary(p, v) in ps <==> p in g.plugins && g.plugins[p].version == v
  {
    IdOrder();
    AscendProperties(IdLess, g.plugins.Keys);
    var ids, ps := Ascend(IdLess, g.plugins.Keys), ReportOf(g).plugins;
    forall i | 0 <= i < |ids|
      ensures ids[i] in g.plugins && ps[i] == PluginSummary(ids[i], g.plugins[ids[i]].version)
    {
      assert ids[i] in ids;
    }
    forall i, j | 0 <= i < j < |ps| ensures ps[i].id < ps[j].id { assert IdLess(ids[i], ids[j]); }
    forall p, v | p in g.plugins && g.plugins[p].version == v
      ensures PluginSummary(p, v) in ps
    {
      var i :| 0 <= i < |ids| && ids[i] == p;
      assert ps[i] == PluginSummary(p, v);
    }
  }

  /** Every report of a resolved graph is accepted. */
  lemma ResolvedReportIsConsistent(spec: CompositionSpec, g: ResolvedGraph)
    requires ResolvedFrom(spec, g)
    ensures Keyed(g.plugins) && Consistent(ReportOf(g))
  {
    hide SelectionOk, Acyclic, IsGraphOf, GraphDependencies, Conflicts, SelfDependencies, UnusedBindings;
    IndexFacts(spec);
    GraphPlugins(spec, g);
    ReportIds(g);
    ProvidersStartFirst(spec, g);
    SameLength(g.startupOrder, g.plugins.Keys);
    SameLength(SummaryIds(ReportOf(g).plugins), g.plugins.Keys);
    ResolvedRelationsKnown(spec, g);
  }

  lemma GraphPlugins(spec: CompositionSpec, g: ResolvedGraph)
    requires IsResolution(spec, g)
    ensures g.plugins == Index(spec.plugins)
  {
  }

  lemma SameLength(s: seq<PluginId>, ids: set<PluginId>)
    requires NoRepeats(s) && forall p :: p in s <==> p in ids
    ensures |s| == |ids|
  {
    NoRepeatsCount(s);
    assert Elements(s) == ids;
  }

  lemma ReportIds(g: ResolvedGraph)
    requires Keyed(g.plugins)
    ensures NoRepeats(SummaryIds(ReportOf(g).plugins))
    ensures Elements(SummaryIds(ReportOf(g).plugins)) == g.plugins.Keys
  {
    IdOrder();
    AscendProperties(IdLess, g.plugins.Keys);
    var ids := Ascend(IdLess, g.plugins.Keys);
    forall i | 0 <= i < |ids|
      ensures SummaryIds(ReportOf(g).plugins)[i] == ids[i]
    {
      assert ids[i] in ids;
    }
    assert SummaryIds(ReportOf(g).plugins) == ids;
    forall i, j | 0 <= i < j < |ids| ensures ids[i] != ids[j] { assert IdLess(ids[i], ids[j]); }
  }

  lemma ResolvedRelationsKnown(spec: CompositionSpec, g: ResolvedGraph)
    requires ResolvedFrom(spec, g) && Keyed(g.plugins)
    ensures RelationsKnown(ReportOf(g), g.plugins.Keys)
  {
    hide Composable, IsResolution, ReportOf;
    assert ReportOf(g).requirements == g.requirements && ReportOf(g).edges == g.edges
        && ReportOf(g).diagnostics == g.diagnostics by {
      ReportRelations(g);
    }
    forall i | 0 <= i < |g.requirements|
      ensures g.requirements[i].consumer in g.plugins && forall q :: q in g.requirements[i].providers ==> q in g.plugins
    {
      RequirementIsFactual(spec, g, i);
    }
    forall i | 0 <= i < |g.edges|
      ensures g.edges[i].provider in g.plugins && g.edges[i].consumer in g.plugins
    {
      assert g.edges[i] in g.edges;
      EdgeIsFlattened(spec, g, g.edges[i]);
    }
    forall i | 0 <= i < |g.diagnostics|
      ensures DiagnosticPlugin(g.diagnostics[i]) in g.plugins
    {
      assert g.diagnostics[i] in g.diagnostics;
      match g.diagnostics[i]
      case OptionalProviderMissing(p, c) => DiagnosticsAreExact(spec, g, p, c);
      case UnselectedOffer(p, c) => DiagnosticsAreExact(spec, g, p, c);
    }
  }

  lemma ReportRelations(g: ResolvedGraph)
    requires Keyed(g.plugins)
    ensures ReportOf(g).requirements == g.requirements && ReportOf(g).edges == g.edges
    ensures ReportOf(g).diagnostics == g.diagnostics
  {
  }

  // ----- what acceptance does not force

  ghost predicate IsPermutationOfPlugins(report: GraphReport) {
    NoRepeats(report.startupOrder) && forall p :: p in report.startupOrder <==> p in SummaryIds(report.plugins)
  }

  /** An accepted startup order is a permutation of the plugins exactly when it has no repeats. */
  lemma AcceptedIsPermutationIff(report: GraphReport)
    requires Consistent(report)
    ensures IsPermutationOfPlugins(report) <==> NoRepeats(report.startupOrder)
  {
    if NoRepeats(report.startupOrder) {
      NoRepeatsCount(report.startupOrder);
      NoRepeatsCount(SummaryIds(report.plugins));
      SubsetSize(Elements(report.startupOrder), Elements(SummaryIds(report.plugins)));
      assert forall p :: p in report.startupOrder <==> p in Elements(report.startupOrder);
      assert forall p :: p in SummaryIds(report.plugins) <==> p in Elements(SummaryIds(report.plugins));
    }
  }

  /** A report over two plugins that starts the first one twice is accepted. */
  lemma RepeatedStartupIsAccepted(v: Version)
    ensures var report := GraphReport(GRAPH_REPORT_SCHEMA_VERSION, [PluginSummary(0, v), PluginSummary(1, v)], [], [],
        [], [0, 0], [0, 0]);
            Consistent(report) && !IsPermutationOfPlugins(report)
  {
    var report := GraphReport(GRAPH_REPORT_SCHEMA_VERSION, [PluginSummary(0, v), PluginSummary(1, v)], [], [], [],
        [0, 0], [0, 0]);
    assert SummaryIds(report.plugins) == [0, 1];
    assert Reversed(report.startupOrder) == [0, 0];
    assert report.startupOrder[0] == report.startupOrder[1];
  }
}
