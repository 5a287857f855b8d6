/** Tenant policy resolution: a policy compiled against an execution plan, and the checks made
  later against the compiled snapshot alone.

  The questions answered here: does the two-stage decision (compile, then check the snapshot)
  say the same as asking the policy and the plan directly, and how does it move when rules
  are added?
 */
module TenantPolicy {
  import opened Lists
  import opened Results

  // ---- Policies ----

  datatype RiskLevel = L0 | L1 | L2 | L3 | L4

  datatype Operation = Commit | Invoke | Preview

  datatype ToolRule = ToolRule(
    toolName: string,
    versions: Option<seq<string>>,
    operations: seq<Operation>,
    maxRisk: Option<RiskLevel>,
    reasonCode: Option<string>)

  datatype ModelRule = ModelRule(modelId: string, provider: Option<string>, reasonCode: Option<string>)

  datatype HandoffRule = HandoffRule(
    flowId: string,
    versions: Option<seq<nat>>,
    planRefs: Option<seq<string>>,
    reasonCode: Option<string>)

  /** The integer budget fields; `maxCost` is the one optional field of a budget. */
  datatype Limit = Segments | ModelTurns | ToolCalls | InputTokens | OutputTokens
                 | TotalTokens | DurationMs | Handoffs | ContextBytes

  datatype Budget = Budget(
    maxSegments: nat, maxModelTurns: nat, maxToolCalls: nat,
    maxInputTokens: nat, maxOutputTokens: nat, maxTotalTokens: nat,
    maxDurationMs: nat, maxHandoffs: nat, maxContextBytes: nat,
    maxCost: Option<real>)
  {
    function Get(f: Limit): nat {
      match f
      case Segments => maxSegments
      case ModelTurns => maxModelTurns
      case ToolCalls => maxToolCalls
      case InputTokens => maxInputTokens
      case OutputTokens => maxOutputTokens
      case TotalTokens => maxTotalTokens
      case DurationMs => maxDurationMs
      case Handoffs => maxHandoffs
      case ContextBytes => maxContextBytes
    }

    /** What the budget schema accepts. */
    predicate Valid() {
      && maxSegments > 0 && maxModelTurns > 0 && maxTotalTokens > 0
      && maxDurationMs > 0 && maxContextBytes > 0
      && (maxCost.Some? ==> maxCost.value >= 0.0)
    }
  }

  datatype BudgetCap = BudgetCap(
    maxSegments: Option<nat>, maxModelTurns: Option<nat>, maxToolCalls: Option<nat>,
    maxInputTokens: Option<nat>, maxOutputTokens: Option<nat>, maxTotalTokens: Option<nat>,
    maxDurationMs: Option<nat>, maxHandoffs: Option<nat>, maxContextBytes: Option<nat>,
    maxCost: Option<real>)
  {
    function Get(f: Limit): Option<nat> {
      match f
      case Segments => maxSegments
      case ModelTurns => maxModelTurns
      case ToolCalls => maxToolCalls
      case InputTokens => maxInputTokens
      case OutputTokens => maxOutputTokens
      case TotalTokens => maxTotalTokens
      case DurationMs => maxDurationMs
      case Handoffs => maxHandoffs
      case ContextBytes => maxContextBytes
    }

    /** What the cap schema accepts. */
    predicate Valid() {
      && maxSegments != Some(0) && maxModelTurns != Some(0) && maxTotalTokens != Some(0)
      && maxDurationMs != Some(0) && maxContextBytes != Some(0)
      && (maxCost.Some? ==> maxCost.value >= 0.0)
    }
  }

  datatype PolicyRules = PolicyRules(
    allowedTools: seq<ToolRule>, deniedTools: seq<ToolRule>,
    allowedModels: seq<ModelRule>, deniedModels: seq<ModelRule>,
    allowedHandoffs: seq<HandoffRule>, deniedHandoffs: seq<HandoffRule>,
    budgetCap: BudgetCap,
    maxConcurrentAgentRuns: nat)

  // ---- Execution plans ----

  datatype PlanTool = PlanTool(toolName: string, toolVersion: string, risk: RiskLevel)

  datatype Target = Target(targetId: string, modelId: string)

  /** One model policy as a plan names it; `versionRef` and `hashRef` are the formatted
    `id@version` and `id@version#hash`. */
  datatype ModelIdentity = ModelIdentity(
    displayPolicy: string, policyId: string, versionRef: string, hashRef: string, targets: seq<Target>)

  datatype FlowAgent = FlowAgent(model: ModelIdentity, allowedHandoffs: seq<string>)

  datatype Plan =
    | FlowPlan(planRef: string, planHash: string, tools: seq<PlanTool>, agents: seq<FlowAgent>,
               maxSteps: nat, maxTokens: nat)
    | AgentPlan(planRef: string, planHash: string, tools: seq<PlanTool>, model: ModelIdentity,
                allowedHandoffs: seq<string>, budget: Budget)

  // ---- Rule matching ----

  function RiskRank(r: RiskLevel): nat {
    match r case L0 => 0 case L1 => 1 case L2 => 2 case L3 => 3 case L4 => 4
  }

  predicate MatchesVersion(rule: ToolRule, version: string) {
    rule.versions.None? || rule.versions.value == [] || version in rule.versions.value
  }

  predicate MatchesTool(rule: ToolRule, name: string, version: string) {
    rule.toolName == name && MatchesVersion(rule, version)
  }

  predicate RiskWithin(risk: RiskLevel, rule: ToolRule) {
    rule.maxRisk.None? || RiskRank(risk) <= RiskRank(rule.maxRisk.value)
  }

  predicate ToolDenied(name: string, version: string, policy: PolicyRules) {
    exists r :: r in policy.deniedTools && MatchesTool(r, name, version)
  }

  predicate ToolAllowed(tool: PlanTool, policy: PolicyRules) {
    && !ToolDenied(tool.toolName, tool.toolVersion, policy)
    && exists r :: r in policy.allowedTools && MatchesTool(r, tool.toolName, tool.toolVersion) && RiskWithin(tool.risk, r)
  }

  predicate Grants(policy: PolicyRules, name: string, version: string, op: Operation) {
    exists r :: r in policy.allowedTools && MatchesTool(r, name, version) && op in r.operations
  }

  /** The union of the operations of the matching rules, without repetition, in name order. */
  function OperationsFor(tool: PlanTool, policy: PolicyRules): seq<Operation> {
    (if Grants(policy, tool.toolName, tool.toolVersion, Commit) then [Commit] else [])
    + (if Grants(policy, tool.toolName, tool.toolVersion, Invoke) then [Invoke] else [])
    + (if Grants(policy, tool.toolName, tool.toolVersion, Preview) then [Preview] else [])
  }

  predicate HandoffMatches(rule: HandoffRule, handoff: string) {
    || (rule.planRefs.Some? && handoff in rule.planRefs.value)
    || rule.flowId == handoff
  }

  predicate HandoffAllowed(handoff: string, policy: PolicyRules) {
    && !(exists r :: r in policy.deniedHandoffs && HandoffMatches(r, handoff))
    && exists r :: r in policy.allowedHandoffs && HandoffMatches(r, handoff)
  }

  // ---- The models of a plan ----

  datatype ModelEntry = ModelEntry(modelId: string, aliases: set<string>)

  predicate ModelAllowed(m: ModelEntry, policy: PolicyRules) {
    var names := {m.modelId} + m.aliases;
    && !(exists r :: r in policy.deniedModels && r.modelId in names)
    && exists r :: r in policy.allowedModels && r.modelId in names
  }

  function TargetEntry(id: ModelIdentity, t: Target): ModelEntry {
    ModelEntry(t.modelId, {id.displayPolicy, id.policyId, id.versionRef, id.hashRef, t.targetId, t.modelId})
  }

  function TargetEntries(id: ModelIdentity, targets: seq<Target>): seq<ModelEntry> {
    seq(|targets|, i requires 0 <= i < |targets| => TargetEntry(id, targets[i]))
  }

  /** Without resolved targets the policy itself stands for the model, and its bare id is no alias. */
  function IdentityEntries(id: ModelIdentity): seq<ModelEntry> {
    if id.targets == [] then [ModelEntry(id.hashRef, {id.displayPolicy, id.versionRef, id.hashRef})]
    else TargetEntries(id, id.targets)
  }

  function AgentEntries(agents: seq<FlowAgent>): seq<ModelEntry> {
    if agents == [] then [] else AgentEntries(agents[..|agents| - 1]) + IdentityEntries(agents[|agents| - 1].model)
  }

  function RawModelEntries(plan: Plan): seq<ModelEntry> {
    match plan
    case FlowPlan(_, _, _, agents, _, _) => AgentEntries(agents)
    case AgentPlan(_, _, _, model, _, _) => IdentityEntries(model)
  }

  /** Position of `id` in an insertion-ordered map, or its size. */
  function Find(m: seq<ModelEntry>, id: string): (i: nat)
    ensures i <= |m| && (i < |m| ==> m[i].modelId == id)
    ensures forall j :: 0 <= j < i ==> m[j].modelId != id
  {
    if m == [] || m[0].modelId == id then 0 else 1 + Find(m[1..], id)
  }

  /** `byPrimary.set(id, old aliases + new aliases)` */
  function SetAliases(m: seq<ModelEntry>, e: ModelEntry): seq<ModelEntry> {
    var i := Find(m, e.modelId);
    if i < |m| then m[i := ModelEntry(e.modelId, m[i].aliases + e.aliases)] else m + [e]
  }

  function MergeEntries(entries: seq<ModelEntry>): seq<ModelEntry> {
    if entries == [] then []
    else SetAliases(MergeEntries(entries[..|entries| - 1]), entries[|entries| - 1])
  }

  method PlanModelEntries(plan: Plan) returns (byPrimary: seq<ModelEntry>)
    ensures byPrimary == MergeEntries(RawModelEntries(plan))
  {
    var entries := RawModelEntries(plan);
    byPrimary := [];
    for i := 0 to |entries|
      invariant byPrimary == MergeEntries(entries[..i])
    {
      var k := Find(byPrimary, entries[i].modelId);
      if k < |byPrimary| {
        byPrimary := byPrimary[k := ModelEntry(entries[i].modelId, byPrimary[k].aliases + entries[i].aliases)];
      } else {
        byPrimary := byPrimary + [entries[i]];
      }
      assert entries[..i + 1][..i] == entries[..i];
    }
    assert entries[..|entries|] == entries;
  }

  ghost predicate HasId(entries: seq<ModelEntry>, id: string) {
    exists e :: e in entries && e.modelId == id
  }

  ghost predicate NamedBy(entries: seq<ModelEntry>, id: string, alias: string) {
    exists e :: e in entries && e.modelId == id && alias in e.aliases
  }

  ghost predicate OnePerId(m: seq<ModelEntry>) {
    forall i, j :: 0 <= i < j < |m| ==> m[i].modelId != m[j].modelId
  }

  ghost predicate SameNames(m: seq<ModelEntry>, entries: seq<ModelEntry>) {
    && (forall id :: HasId(m, id) <==> HasId(entries, id))
    && (forall id, a :: NamedBy(m, id, a) <==> NamedBy(entries, id, a))
  }

  lemma SetAliasesAdds(m: seq<ModelEntry>, e: ModelEntry)
    requires OnePerId(m)
    ensures OnePerId(SetAliases(m, e))
    ensures forall id :: HasId(SetAliases(m, e), id) <==> HasId(m, id) || id == e.modelId
    ensures forall id, a :: NamedBy(SetAliases(m, e), id, a)
                            <==> NamedBy(m, id, a) || (id == e.modelId && a in e.aliases)
  {
    var r := SetAliases(m, e);
    var i := Find(m, e.modelId);
    assert r[i].modelId == e.modelId && e.aliases <= r[i].aliases;
    forall j | 0 <= j < |m| ensures r[j].modelId == m[j].modelId && m[j].aliases <= r[j].aliases {}
    forall id, a | NamedBy(m, id, a) ensures NamedBy(r, id, a) {
      var x :| x in m && x.modelId == id && a in x.aliases;
      var j :| 0 <= j < |m| && m[j] == x;
      assert r[j] in r;
    }
    forall id | HasId(m, id) ensures HasId(r, id) {
      var x :| x in m && x.modelId == id;
      var j :| 0 <= j < |m| && m[j] == x;
      assert r[j] in r;
    }
    assert r[i] in r;
  }

  /** Merging keeps one entry per model id, carrying every alias any entry of that id had, and no other. */
  lemma {:induction false} MergeMeaning(entries: seq<ModelEntry>)
    ensures OnePerId(MergeEntries(entries)) && SameNames(MergeEntries(entries), entries)
  {
    if entries != [] {
      var init, last := entries[..|entries| - 1], entries[|entries| - 1];
      MergeMeaning(init);
      SetAliasesAdds(MergeEntries(init), last);
      assert entries == init + [last];
      forall id ensures HasId(entries, id) <==> HasId(init, id) || id == last.modelId {
        assert last in entries;
      }
      forall id, a ensures NamedBy(entries, id, a) <==> NamedBy(init, id, a) || (id == last.modelId && a in last.aliases) {
        assert last in entries;
      }
    }
  }

  lemma MergedAliases(entries: seq<ModelEntry>, m: ModelEntry, a: string)
    requires m in MergeEntries(entries)
    ensures a in m.aliases <==> NamedBy(entries, m.modelId, a)
  {
    MergeMeaning(entries);
    var all := MergeEntries(entries);
    if NamedBy(all, m.modelId, a) {
      var x :| x in all && x.modelId == m.modelId && a in x.aliases;
    }
  }

  // ---- Handoffs and budget of a plan ----

  function AllHandoffs(agents: seq<FlowAgent>): seq<string> {
    if agents == [] then [] else AllHandoffs(agents[..|agents| - 1]) + agents[|agents| - 1].allowedHandoffs
  }

  function PlanHandoffs(plan: Plan): seq<string> {
    match plan
    case FlowPlan(_, _, _, agents, _, _) => Dedup(AllHandoffs(agents))
    case AgentPlan(_, _, _, _, allowedHandoffs, _) => allowedHandoffs
  }

  function Max(a: nat, b: nat): nat { if a > b then a else b }

  /** A flow plan fixes four limits; the schema's defaults fill in the rest. */
  function PlanBudget(plan: Plan): Budget {
    match plan
    case FlowPlan(_, _, tools, _, maxSteps, maxTokens) =>
      Budget(Max(maxSteps, 1), Max(maxSteps, 1), |tools|, 0, 0, Max(maxTokens, 1), 300000, 2, 262144, None)
    case AgentPlan(_, _, _, _, _, budget) => budget
  }

  function MinOptional(planValue: nat, cap: Option<nat>): nat {
    if cap.None? || planValue <= cap.value then planValue else cap.value
  }

  /** An absent plan cost counts as infinite. */
  function MinCost(planCost: Option<real>, cap: Option<real>): Option<real> {
    if cap.None? then planCost
    else if planCost.None? || cap.value <= planCost.value then cap
    else planCost
  }

  function CapBudget(p: Budget, cap: BudgetCap): Budget {
    Budget(
      MinOptional(p.maxSegments, cap.maxSegments),
      MinOptional(p.maxModelTurns, cap.maxModelTurns),
      MinOptional(p.maxToolCalls, cap.maxToolCalls),
      MinOptional(p.maxInputTokens, cap.maxInputTokens),
      MinOptional(p.maxOutputTokens, cap.maxOutputTokens),
      MinOptional(p.maxTotalTokens, cap.maxTotalTokens),
      MinOptional(p.maxDurationMs, cap.maxDurationMs),
      MinOptional(p.maxHandoffs, cap.maxHandoffs),
      MinOptional(p.maxContextBytes, cap.maxContextBytes),
      MinCost(p.maxCost, cap.maxCost))
  }

  // ---- The compiled policy ----

  datatype Resolved = Resolved(
    allowedTools: seq<ToolRule>, deniedTools: seq<ToolRule>,
    allowedModels: seq<ModelRule>, allowedHandoffs: seq<HandoffRule>,
    budget: Budget, maxConcurrentAgentRuns: nat)

  const ALL_OPERATIONS := [Invoke, Preview, Commit]

  function AllowedToolRule(t: PlanTool, policy: PolicyRules): ToolRule {
    ToolRule(t.toolName, Some([t.toolVersion]), OperationsFor(t, policy), Some(t.risk), None)
  }

  function DeniedToolRule(t: PlanTool): ToolRule {
    ToolRule(t.toolName, Some([t.toolVersion]), ALL_OPERATIONS, Some(t.risk), Some("TENANT_POLICY_TOOL_DENIED"))
  }

  function AllowedToolRules(tools: seq<PlanTool>, policy: PolicyRules): seq<ToolRule> {
    if tools == [] then []
    else
      var t := tools[|tools| - 1];
      AllowedToolRules(tools[..|tools| - 1], policy)
      + if ToolAllowed(t, policy)
        then [AllowedToolRule(t, policy)]
        else []
  }

  function DeniedToolRules(tools: seq<PlanTool>, policy: PolicyRules): seq<ToolRule> {
    if tools == [] then []
    else
      var t := tools[|tools| - 1];
      DeniedToolRules(tools[..|tools| - 1], policy)
      + if ToolDenied(t.toolName, t.toolVersion, policy)
        then [DeniedToolRule(t)]
        else []
  }

  function AllowedModelRules(models: seq<ModelEntry>, policy: PolicyRules): seq<ModelRule> {
    if models == [] then []
    else
      var m := models[|models| - 1];
      AllowedModelRules(models[..|models| - 1], policy)
      + if ModelAllowed(m, policy) then [ModelRule(m.modelId, None, None)] else []
  }

  function AllowedHandoffRules(handoffs: seq<string>, policy: PolicyRules): seq<HandoffRule> {
    if handoffs == [] then []
    else
      var h := handoffs[|handoffs| - 1];
      AllowedHandoffRules(handoffs[..|handoffs| - 1], policy)
      + if HandoffAllowed(h, policy) then [HandoffRule(h, None, Some([h]), None)] else []
  }

  function ResolveEffectivePolicy(policy: PolicyRules, plan: Plan): Resolved {
    Resolved(
      AllowedToolRules(plan.tools, policy),
      DeniedToolRules(plan.tools, policy),
      AllowedModelRules(MergeEntries(RawModelEntries(plan)), policy),
      AllowedHandoffRules(PlanHandoffs(plan), policy),
      CapBudget(PlanBudget(plan), policy.budgetCap),
      policy.maxConcurrentAgentRuns)
  }

  // ---- The snapshot checks ----

  datatype ModelRequest = ModelRequest(
    modelPolicy: string, policyId: Option<string>, versionRef: Option<string>, hashRef: Option<string>,
    targetIds: seq<string>, modelIds: seq<string>)

  function OptionSet(o: Option<string>): set<string> { if o.Some? then {o.value} else {} }

  function RequestNames(r: ModelRequest): set<string> {
    {r.modelPolicy} + OptionSet(r.policyId) + OptionSet(r.versionRef) + OptionSet(r.hashRef)
    + (set s | s in r.targetIds) + (set s | s in r.modelIds)
  }

  function CheckTool(s: Resolved, name: string, version: string, op: Operation): Result<()> {
    if exists r :: r in s.deniedTools && MatchesTool(r, name, version) then Err("TOOL_DENIED_BY_TENANT_POLICY")
    else if exists r :: r in s.allowedTools && MatchesTool(r, name, version) && op in r.operations then Ok(())
    else Err("TOOL_DENIED_BY_TENANT_POLICY")
  }

  function CheckModel(s: Resolved, request: ModelRequest): Result<()> {
    if exists r :: r in s.allowedModels && r.modelId in RequestNames(request) then Ok(())
    else Err("AGENT_MODEL_DENIED_BY_TENANT_POLICY")
  }

  function CheckHandoff(s: Resolved, target: string): Result<()> {
    if exists r :: r in s.allowedHandoffs && HandoffMatches(r, target) then Ok(())
    else Err("HANDOFF_DENIED_BY_TENANT_POLICY")
  }

  // ---- What the compiled lists contain ----

  lemma {:induction false} AllowedToolRulesMeaning(tools: seq<PlanTool>, policy: PolicyRules, r: ToolRule)
    ensures r in AllowedToolRules(tools, policy) <==>
            exists t :: t in tools && ToolAllowed(t, policy)
                        && r == AllowedToolRule(t, policy)
  {
    if tools != [] {
      assert tools == tools[..|tools| - 1] + [tools[|tools| - 1]];
      AllowedToolRulesMeaning(tools[..|tools| - 1], policy, r);
    }
  }

  lemma {:induction false} DeniedToolRulesMeaning(tools: seq<PlanTool>, policy: PolicyRules, r: ToolRule)
    ensures r in DeniedToolRules(tools, policy) <==>
            exists t :: t in tools && ToolDenied(t.toolName, t.toolVersion, policy)
                        && r == DeniedToolRule(t)
  {
    if tools != [] {
      assert tools == tools[..|tools| - 1] + [tools[|tools| - 1]];
      DeniedToolRulesMeaning(tools[..|tools| - 1], policy, r);
    }
  }

  lemma {:induction false} AllowedModelRulesMeaning(models: seq<ModelEntry>, policy: PolicyRules, r: ModelRule)
    ensures r in AllowedModelRules(models, policy) <==>
            exists m :: m in models && ModelAllowed(m, policy) && r == ModelRule(m.modelId, None, None)
  {
    if models != [] {
      assert models == models[..|models| - 1] + [models[|models| - 1]];
      AllowedModelRulesMeaning(models[..|models| - 1], policy, r);
    }
  }

  lemma {:induction false} AllowedHandoffRulesMeaning(handoffs: seq<string>, policy: PolicyRules, r: HandoffRule)
    ensures r in AllowedHandoffRules(handoffs, policy) <==>
            exists h :: h in handoffs && HandoffAllowed(h, policy) && r == HandoffRule(h, None, Some([h]), None)
  {
    if handoffs != [] {
      assert handoffs == handoffs[..|handoffs| - 1] + [handoffs[|handoffs| - 1]];
      AllowedHandoffRulesMeaning(handoffs[..|handoffs| - 1], policy, r);
    }
  }

  // ---- The direct decisions ----

  // Asked of the policy and the plan themselves, in terms of their fields alone.

  /** From the least to the greatest. */
  const RISKS := [L0, L1, L2, L3, L4]

  ghost predicate AtMost(risk: RiskLevel, bound: RiskLevel) {
    exists i, j :: 0 <= i <= j < |RISKS| && RISKS[i] == risk && RISKS[j] == bound
  }

  ghost predicate Above(risk: RiskLevel, bound: RiskLevel) {
    exists i, j :: 0 <= j < i < |RISKS| && RISKS[i] == risk && RISKS[j] == bound
  }

  /** The rule is about this version: of that name, and no list of versions leaves it out. */
  ghost predicate Concerns(r: ToolRule, name: string, version: string) {
    r.toolName == name && forall vs :: r.versions == Some(vs) && |vs| > 0 ==> version in vs
  }

  /** The rule has no risk bound, or one that is not exceeded. */
  ghost predicate Covers(r: ToolRule, risk: RiskLevel) {
    forall bound :: r.maxRisk == Some(bound) ==> AtMost(risk, bound)
  }

  /** Some plan tool of this version is within the risk of some allow rule about it. */
  ghost predicate RiskAccepted(policy: PolicyRules, plan: Plan, name: string, version: string) {
    exists t, r :: t in plan.tools && t.toolName == name && t.toolVersion == version
                   && r in policy.allowedTools && Concerns(r, name, version)
                   && Covers(r, t.risk)
  }

  /** Note that the rule whose risk bound covers the tool and the rule that grants the operation may be
    two different rules. */
  ghost predicate DirectlyAllowsTool(policy: PolicyRules, plan: Plan, name: string, version: string, op: Operation) {
    && (forall r :: r in policy.deniedTools ==> !Concerns(r, name, version))
    && RiskAccepted(policy, plan, name, version)
    && (exists r :: r in policy.allowedTools && Concerns(r, name, version) && op in r.operations)
  }

  /** The models a plan is built with. */
  ghost predicate HasModel(plan: Plan, m: ModelIdentity) {
    if plan.FlowPlan? then exists a :: a in plan.agents && a.model == m else plan.model == m
  }

  ghost predicate Names(m: ModelIdentity, id: string, name: string) {
    || (m.targets == [] && id == m.hashRef && name in [m.displayPolicy, m.versionRef, m.hashRef])
    || exists t :: t in m.targets && id == t.modelId
                   && name in [m.displayPolicy, m.policyId, m.versionRef, m.hashRef, t.targetId, t.modelId]
  }

  /** Every name the plan knows a model by. */
  ghost predicate PlanNames(plan: Plan, id: string, name: string) {
    exists m :: HasModel(plan, m) && Names(m, id, name)
  }

  /** No deny rule and some allow rule names the model by one of its plan names. */
  ghost predicate ModelPermitted(policy: PolicyRules, plan: Plan, id: string) {
    && (forall r :: r in policy.deniedModels ==> !PlanNames(plan, id, r.modelId))
    && (exists r :: r in policy.allowedModels && PlanNames(plan, id, r.modelId))
  }

  ghost predicate Requested(r: ModelRequest, name: string) {
    || name == r.modelPolicy || Some(name) in [r.policyId, r.versionRef, r.hashRef]
    || name in r.targetIds || name in r.modelIds
  }

  /** A model of the plan goes by its own id, which the request must name. */
  ghost predicate DirectlyAllowsModel(policy: PolicyRules, plan: Plan, request: ModelRequest) {
    exists id :: PlanNames(plan, id, id) && Requested(request, id) && ModelPermitted(policy, plan, id)
  }

  ghost predicate Targets(r: HandoffRule, target: string) {
    target == r.flowId || exists refs :: r.planRefs == Some(refs) && target in refs
  }

  ghost predicate PlanHandsTo(plan: Plan, target: string) {
    if plan.FlowPlan? then exists a :: a in plan.agents && target in a.allowedHandoffs else target in plan.allowedHandoffs
  }

  ghost predicate DirectlyAllowsHandoff(policy: PolicyRules, plan: Plan, target: string) {
    && PlanHandsTo(plan, target)
    && (forall r :: r in policy.deniedHandoffs ==> !Targets(r, target))
    && (exists r :: r in policy.allowedHandoffs && Targets(r, target))
  }

  // ---- What the rules and the plan mean ----

  lemma RisksAreRanked(risk: RiskLevel, bound: RiskLevel)
    ensures AtMost(risk, bound) <==> RiskRank(risk) <= RiskRank(bound)
    ensures Above(risk, bound) <==> !AtMost(risk, bound)
  {
    RankIsPosition(risk);
    RankIsPosition(bound);
  }

  lemma RankIsPosition(risk: RiskLevel)
    ensures RiskRank(risk) < |RISKS| && RISKS[RiskRank(risk)] == risk
    ensures forall i :: 0 <= i < |RISKS| && RISKS[i] == risk ==> i == RiskRank(risk)
  {
    match risk case L0 => case L1 => case L2 => case L3 => case L4 =>
  }

  lemma MatchMeansConcern(r: ToolRule, name: string, version: string)
    ensures MatchesTool(r, name, version) <==> Concerns(r, name, version)
  {
    if r.versions.Some? { assert r.versions == Some(r.versions.value); }
  }

  lemma DeniedMeaning(policy: PolicyRules, name: string, version: string)
    ensures ToolDenied(name, version, policy) <==> exists r :: r in policy.deniedTools && Concerns(r, name, version)
  {
    forall r ensures MatchesTool(r, name, version) <==> Concerns(r, name, version) { MatchMeansConcern(r, name, version); }
  }

  lemma GrantsMeaning(policy: PolicyRules, name: string, version: string, op: Operation)
    ensures Grants(policy, name, version, op)
            <==> exists r :: r in policy.allowedTools && Concerns(r, name, version) && op in r.operations
  {
    forall r ensures MatchesTool(r, name, version) <==> Concerns(r, name, version) { MatchMeansConcern(r, name, version); }
  }

  lemma WithinMeaning(t: PlanTool, r: ToolRule)
    ensures RiskWithin(t.risk, r) <==> Covers(r, t.risk)
  {
    if r.maxRisk.Some? { RisksAreRanked(t.risk, r.maxRisk.value); }
  }

  lemma AllowedMeaning(policy: PolicyRules, plan: Plan, name: string, version: string)
    requires !ToolDenied(name, version, policy)
    ensures (exists t :: t in plan.tools && ToolAllowed(t, policy) && t.toolName == name && t.toolVersion == version)
            <==> RiskAccepted(policy, plan, name, version)
  {
    forall r: ToolRule ensures MatchesTool(r, name, version) <==> Concerns(r, name, version) { MatchMeansConcern(r, name, version); }
    forall t: PlanTool, r: ToolRule ensures RiskWithin(t.risk, r)
      <==> Covers(r, t.risk)
    {
      WithinMeaning(t, r);
    }
  }

  lemma EntriesOfOne(m: ModelIdentity, id: string, name: string)
    ensures NamedBy(IdentityEntries(m), id, name) <==> Names(m, id, name)
    ensures HasId(IdentityEntries(m), id) <==> Names(m, id, id)
  {
    var es := IdentityEntries(m);
    if m.targets == [] {
      assert es[0] in es;
    } else {
      forall t | t in m.targets ensures TargetEntry(m, t) in es {
        var i :| 0 <= i < |m.targets| && m.targets[i] == t;
        assert es[i] == TargetEntry(m, t);
      }
      forall e | e in es ensures exists t :: t in m.targets && e == TargetEntry(m, t) {
        var i :| 0 <= i < |es| && es[i] == e;
        assert m.targets[i] in m.targets;
      }
    }
  }

  lemma EntriesConcat(a: seq<ModelEntry>, b: seq<ModelEntry>, id: string, name: string)
    ensures NamedBy(a + b, id, name) <==> NamedBy(a, id, name) || NamedBy(b, id, name)
    ensures HasId(a + b, id) <==> HasId(a, id) || HasId(b, id)
  {
    forall e | e in a || e in b ensures e in a + b {}
  }

  lemma {:induction false} EntriesOfAgents(agents: seq<FlowAgent>, id: string, name: string)
    ensures NamedBy(AgentEntries(agents), id, name) <==> exists a :: a in agents && Names(a.model, id, name)
    ensures HasId(AgentEntries(agents), id) <==> exists a :: a in agents && Names(a.model, id, id)
  {
    if agents != [] {
      var front, last := agents[..|agents| - 1], agents[|agents| - 1];
      assert agents == front + [last];
      EntriesOfAgents(front, id, name);
      EntriesOfOne(last.model, id, name);
      EntriesConcat(AgentEntries(front), IdentityEntries(last.model), id, name);
    }
  }

  lemma EntriesOfPlan(plan: Plan, id: string, name: string)
    ensures NamedBy(RawModelEntries(plan), id, name) <==> PlanNames(plan, id, name)
    ensures HasId(RawModelEntries(plan), id) <==> PlanNames(plan, id, id)
  {
    if plan.FlowPlan? {
      EntriesOfAgents(plan.agents, id, name);
      forall a | a in plan.agents ensures HasModel(plan, a.model) {}
    } else {
      EntriesOfOne(plan.model, id, name);
      assert HasModel(plan, plan.model);
    }
  }

  lemma RequestMeaning(r: ModelRequest, name: string)
    ensures name in RequestNames(r) <==> Requested(r, name)
  {}

  lemma {:induction false} HandoffsOfAgents(agents: seq<FlowAgent>, target: string)
    ensures target in AllHandoffs(agents) <==> exists a :: a in agents && target in a.allowedHandoffs
  {
    if agents != [] {
      var front, last := agents[..|agents| - 1], agents[|agents| - 1];
      assert agents == front + [last];
      HandoffsOfAgents(front, target);
    }
  }

  lemma PlanHandoffsMeaning(plan: Plan, target: string)
    ensures target in PlanHandoffs(plan) <==> PlanHandsTo(plan, target)
  {
    if plan.FlowPlan? { HandoffsOfAgents(plan.agents, target); }
  }

  lemma HandoffMeaning(policy: PolicyRules, plan: Plan, target: string)
    ensures DirectlyAllowsHandoff(policy, plan, target) <==> target in PlanHandoffs(plan) && HandoffAllowed(target, policy)
  {
    forall r: HandoffRule ensures HandoffMatches(r, target) <==> Targets(r, target) {
      if r.planRefs.Some? { assert r.planRefs == Some(r.planRefs.value); }
    }
    PlanHandoffsMeaning(plan, target);
  }

  // ---- Main results: the snapshot decides exactly as the policy and the plan do ----

  lemma OperationsForMeaning(tool: PlanTool, policy: PolicyRules, op: Operation)
    ensures op in OperationsFor(tool, policy) <==> Grants(policy, tool.toolName, tool.toolVersion, op)
  {}

  /** A compiled allow list admits a call exactly when an allowed plan tool of that version is granted it. */
  lemma CompiledToolRules(tools: seq<PlanTool>, policy: PolicyRules, name: string, version: string, op: Operation)
    ensures (exists r :: r in AllowedToolRules(tools, policy) && MatchesTool(r, name, version) && op in r.operations)
            <==> Grants(policy, name, version, op)
                 && exists t :: t in tools && ToolAllowed(t, policy) && t.toolName == name && t.toolVersion == version
  {
    if r :| r in AllowedToolRules(tools, policy) && MatchesTool(r, name, version) && op in r.operations {
      AllowedToolRulesMeaning(tools, policy, r);
      var t :| t in tools && ToolAllowed(t, policy) && r == AllowedToolRule(t, policy);
      OperationsForMeaning(t, policy, op);
    }
    if t :| Grants(policy, name, version, op) && t in tools && ToolAllowed(t, policy)
            && t.toolName == name && t.toolVersion == version {
      AllowedToolRulesMeaning(tools, policy, AllowedToolRule(t, policy));
      OperationsForMeaning(t, policy, op);
      assert MatchesTool(AllowedToolRule(t, policy), name, version);
    }
  }

  lemma SnapshotToolImpliesDirect(policy: PolicyRules, plan: Plan, name: string, version: string, op: Operation)
    requires CheckTool(ResolveEffectivePolicy(policy, plan), name, version, op).Ok?
    ensures DirectlyAllowsTool(policy, plan, name, version, op)
  {
    CompiledToolRules(plan.tools, policy, name, version, op);
    var t :| t in plan.tools && ToolAllowed(t, policy) && t.toolName == name && t.toolVersion == version;
    DeniedMeaning(policy, name, version);
    GrantsMeaning(policy, name, version, op);
    AllowedMeaning(policy, plan, name, version);
  }

  lemma NothingDeniedInSnapshot(policy: PolicyRules, tools: seq<PlanTool>, name: string, version: string)
    requires !ToolDenied(name, version, policy)
    ensures forall d :: d in DeniedToolRules(tools, policy) ==> !MatchesTool(d, name, version)
  {
    forall d | d in DeniedToolRules(tools, policy) ensures !MatchesTool(d, name, version) {
      DeniedToolRulesMeaning(tools, policy, d);
    }
  }

  lemma DirectToolImpliesSnapshot(policy: PolicyRules, plan: Plan, name: string, version: string, op: Operation)
    requires DirectlyAllowsTool(policy, plan, name, version, op)
    ensures CheckTool(ResolveEffectivePolicy(policy, plan), name, version, op).Ok?
  {
    DeniedMeaning(policy, name, version);
    GrantsMeaning(policy, name, version, op);
    AllowedMeaning(policy, plan, name, version);
    CompiledToolRules(plan.tools, policy, name, version, op);
    NothingDeniedInSnapshot(policy, plan.tools, name, version);
  }

  lemma ToolDecisionAgrees(policy: PolicyRules, plan: Plan, name: string, version: string, op: Operation)
    ensures CheckTool(ResolveEffectivePolicy(policy, plan), name, version, op).Ok?
            <==> DirectlyAllowsTool(policy, plan, name, version, op)
  {
    if CheckTool(ResolveEffectivePolicy(policy, plan), name, version, op).Ok? {
      SnapshotToolImpliesDirect(policy, plan, name, version, op);
    }
    if DirectlyAllowsTool(policy, plan, name, version, op) {
      DirectToolImpliesSnapshot(policy, plan, name, version, op);
    }
  }

  lemma ModelEntryDecision(policy: PolicyRules, plan: Plan, m: ModelEntry)
    requires m in MergeEntries(RawModelEntries(plan))
    ensures ModelAllowed(m, policy) <==> ModelPermitted(policy, plan, m.modelId)
  {
    var names := {m.modelId} + m.aliases;
    MergedEntryFor(RawModelEntries(plan), m.modelId);
    forall n ensures n in names <==> PlanNames(plan, m.modelId, n) {
      MergedAliases(RawModelEntries(plan), m, n);
      EntriesOfPlan(plan, m.modelId, n);
    }
    if r :| r in policy.allowedModels && r.modelId in names {
      assert PlanNames(plan, m.modelId, r.modelId);
    }
    if r :| r in policy.allowedModels && PlanNames(plan, m.modelId, r.modelId) {
      assert r.modelId in names;
    }
  }

  /** A compiled list has a rule for one of `names` exactly when an allowed entry has. */
  lemma CompiledModelRules(models: seq<ModelEntry>, policy: PolicyRules, names: set<string>)
    ensures (exists r :: r in AllowedModelRules(models, policy) && r.modelId in names)
            <==> (exists m :: m in models && ModelAllowed(m, policy) && m.modelId in names)
  {
    if r :| r in AllowedModelRules(models, policy) && r.modelId in names {
      AllowedModelRulesMeaning(models, policy, r);
    }
    if m :| m in models && ModelAllowed(m, policy) && m.modelId in names {
      AllowedModelRulesMeaning(models, policy, ModelRule(m.modelId, None, None));
    }
  }

  /** Raw and merged entries name the same models. */
  lemma MergedEntryFor(entries: seq<ModelEntry>, id: string)
    ensures HasId(MergeEntries(entries), id) <==> HasId(entries, id)
  {
    MergeMeaning(entries);
  }

  lemma SnapshotModelImpliesDirect(policy: PolicyRules, plan: Plan, request: ModelRequest)
    requires CheckModel(ResolveEffectivePolicy(policy, plan), request).Ok?
    ensures DirectlyAllowsModel(policy, plan, request)
  {
    var raw := RawModelEntries(plan);
    CompiledModelRules(MergeEntries(raw), policy, RequestNames(request));
    var m :| m in MergeEntries(raw) && ModelAllowed(m, policy) && m.modelId in RequestNames(request);
    ModelEntryDecision(policy, plan, m);
    MergedEntryFor(raw, m.modelId);
    EntriesOfPlan(plan, m.modelId, m.modelId);
    RequestMeaning(request, m.modelId);
  }

  lemma DirectModelImpliesSnapshot(policy: PolicyRules, plan: Plan, request: ModelRequest)
    requires DirectlyAllowsModel(policy, plan, request)
    ensures CheckModel(ResolveEffectivePolicy(policy, plan), request).Ok?
  {
    var raw := RawModelEntries(plan);
    var id :| PlanNames(plan, id, id) && Requested(request, id) && ModelPermitted(policy, plan, id);
    EntriesOfPlan(plan, id, id);
    MergedEntryFor(raw, id);
    var m :| m in MergeEntries(raw) && m.modelId == id;
    ModelEntryDecision(policy, plan, m);
    RequestMeaning(request, id);
    CompiledModelRules(MergeEntries(raw), policy, RequestNames(request));
  }

  lemma ModelDecisionAgrees(policy: PolicyRules, plan: Plan, request: ModelRequest)
    ensures CheckModel(ResolveEffectivePolicy(policy, plan), request).Ok?
            <==> DirectlyAllowsModel(policy, plan, request)
  {
    if CheckModel(ResolveEffectivePolicy(policy, plan), request).Ok? {
      SnapshotModelImpliesDirect(policy, plan, request);
    }
    if DirectlyAllowsModel(policy, plan, request) {
      DirectModelImpliesSnapshot(policy, plan, request);
    }
  }

  lemma SnapshotHandoffImpliesDirect(policy: PolicyRules, plan: Plan, target: string)
    requires CheckHandoff(ResolveEffectivePolicy(policy, plan), target).Ok?
    ensures DirectlyAllowsHandoff(policy, plan, target)
  {
    var r :| r in ResolveEffectivePolicy(policy, plan).allowedHandoffs && HandoffMatches(r, target);
    AllowedHandoffRulesMeaning(PlanHandoffs(plan), policy, r);
    HandoffMeaning(policy, plan, target);
  }

  lemma DirectHandoffImpliesSnapshot(policy: PolicyRules, plan: Plan, target: string)
    requires DirectlyAllowsHandoff(policy, plan, target)
    ensures CheckHandoff(ResolveEffectivePolicy(policy, plan), target).Ok?
  {
    var r := HandoffRule(target, None, Some([target]), None);
    HandoffMeaning(policy, plan, target);
    AllowedHandoffRulesMeaning(PlanHandoffs(plan), policy, r);
    assert r in ResolveEffectivePolicy(policy, plan).allowedHandoffs && HandoffMatches(r, target);
  }

  lemma HandoffDecisionAgrees(policy: PolicyRules, plan: Plan, target: string)
    ensures CheckHandoff(ResolveEffectivePolicy(policy, plan), target).Ok?
            <==> DirectlyAllowsHandoff(policy, plan, target)
  {
    if CheckHandoff(ResolveEffectivePolicy(policy, plan), target).Ok? { SnapshotHandoffImpliesDirect(policy, plan, target); }
    if DirectlyAllowsHandoff(policy, plan, target) { DirectHandoffImpliesSnapshot(policy, plan, target); }
  }

  // ---- What the compiled rules record ----

  /** Every compiled rule is for one version of the plan and records that version's risk; a denied one
    names every operation and the reason. A compiled handoff is for itself as flow and as plan. */
  lemma CompiledRulesNameThePlan(policy: PolicyRules, plan: Plan)
    ensures var s := ResolveEffectivePolicy(policy, plan);
            && (forall r :: r in s.allowedTools ==>
                  exists t :: t in plan.tools && r == ToolRule(t.toolName, Some([t.toolVersion]), r.operations, Some(t.risk), None))
            && (forall r :: r in s.deniedTools ==>
                  exists t :: t in plan.tools
                    && r == ToolRule(t.toolName, Some([t.toolVersion]), [Invoke, Preview, Commit], Some(t.risk),
                                     Some("TENANT_POLICY_TOOL_DENIED")))
            && (forall r :: r in s.allowedHandoffs ==> r == HandoffRule(r.flowId, None, Some([r.flowId]), None))
  {
    var s := ResolveEffectivePolicy(policy, plan);
    forall r | r in s.allowedTools
      ensures exists t :: t in plan.tools && r == ToolRule(t.toolName, Some([t.toolVersion]), r.operations, Some(t.risk), None)
    {
      AllowedToolRulesMeaning(plan.tools, policy, r);
    }
    forall r | r in s.deniedTools
      ensures exists t :: t in plan.tools
                && r == ToolRule(t.toolName, Some([t.toolVersion]), [Invoke, Preview, Commit], Some(t.risk),
                                 Some("TENANT_POLICY_TOOL_DENIED"))
    {
      DeniedToolRulesMeaning(plan.tools, policy, r);
    }
    forall r | r in s.allowedHandoffs ensures r == HandoffRule(r.flowId, None, Some([r.flowId]), None) {
      AllowedHandoffRulesMeaning(PlanHandoffs(plan), policy, r);
    }
  }

  // ---- Risk ----

  /** Every plan tool of this version is above the bound of every allow rule about it. */
  ghost predicate TooRisky(policy: PolicyRules, plan: Plan, name: string, version: string) {
    forall t, r :: t in plan.tools && t.toolName == name && t.toolVersion == version
                   && r in policy.allowedTools && Concerns(r, name, version)
                   ==> exists bound :: r.maxRisk == Some(bound) && Above(t.risk, bound)
  }

  lemma TooRiskyIsNotAccepted(policy: PolicyRules, plan: Plan, name: string, version: string)
    requires TooRisky(policy, plan, name, version)
    ensures !RiskAccepted(policy, plan, name, version)
  {
    forall t, r | t in plan.tools && t.toolName == name && t.toolVersion == version
                  && r in policy.allowedTools && Concerns(r, name, version)
      ensures r.maxRisk.Some? && !AtMost(t.risk, r.maxRisk.value)
    {
      var bound :| r.maxRisk == Some(bound) && Above(t.risk, bound);
      RisksAreRanked(t.risk, bound);
    }
  }

  /** A tool above the bound of every allow rule about it is refused for every operation. */
  lemma TooRiskyIsRefused(policy: PolicyRules, plan: Plan, name: string, version: string, op: Operation)
    requires TooRisky(policy, plan, name, version)
    ensures CheckTool(ResolveEffectivePolicy(policy, plan), name, version, op).Err?
  {
    TooRiskyIsNotAccepted(policy, plan, name, version);
    ToolDecisionAgrees(policy, plan, name, version, op);
  }

  /** A tool at a rule's very bound is accepted for the operations that rule grants. */
  lemma AtTheBoundIsAccepted(policy: PolicyRules, plan: Plan, t: PlanTool, r: ToolRule, op: Operation)
    requires t in plan.tools && r in policy.allowedTools && Concerns(r, t.toolName, t.toolVersion)
    requires r.maxRisk == Some(t.risk) && op in r.operations
    requires forall d :: d in policy.deniedTools ==> !Concerns(d, t.toolName, t.toolVersion)
    ensures CheckTool(ResolveEffectivePolicy(policy, plan), t.toolName, t.toolVersion, op).Ok?
  {
    RisksAreRanked(t.risk, t.risk);
    assert RiskAccepted(policy, plan, t.toolName, t.toolVersion);
    ToolDecisionAgrees(policy, plan, t.toolName, t.toolVersion, op);
  }

  /** `safer` lists the same tools, each at the same risk or a lower one. */
  ghost predicate SaferTools(safer: Plan, plan: Plan) {
    forall t :: t in plan.tools ==>
      exists u :: u in safer.tools && u.toolName == t.toolName && u.toolVersion == t.toolVersion && AtMost(u.risk, t.risk)
  }

  lemma SaferIsCovered(r: ToolRule, risk: RiskLevel, lower: RiskLevel)
    requires Covers(r, risk) && AtMost(lower, risk)
    ensures Covers(r, lower)
  {
    RisksAreRanked(lower, risk);
    forall bound | r.maxRisk == Some(bound) ensures AtMost(lower, bound) {
      RisksAreRanked(risk, bound);
      RisksAreRanked(lower, bound);
    }
  }

  lemma SaferIsAccepted(policy: PolicyRules, plan: Plan, safer: Plan, name: string, version: string)
    requires SaferTools(safer, plan) && RiskAccepted(policy, plan, name, version)
    ensures RiskAccepted(policy, safer, name, version)
  {
    var t, r :| t in plan.tools && t.toolName == name && t.toolVersion == version
                && r in policy.allowedTools && Concerns(r, name, version) && Covers(r, t.risk);
    var u :| u in safer.tools && u.toolName == name && u.toolVersion == version && AtMost(u.risk, t.risk);
    SaferIsCovered(r, t.risk, u.risk);
  }

  /** Lowering the risk of a tool never takes a permission away. */
  lemma SaferKeepsPermissions(policy: PolicyRules, plan: Plan, safer: Plan, name: string, version: string, op: Operation)
    requires SaferTools(safer, plan) && CheckTool(ResolveEffectivePolicy(policy, plan), name, version, op).Ok?
    ensures CheckTool(ResolveEffectivePolicy(policy, safer), name, version, op).Ok?
  {
    SnapshotToolImpliesDirect(policy, plan, name, version, op);
    SaferIsAccepted(policy, plan, safer, name, version);
    DirectToolImpliesSnapshot(policy, safer, name, version, op);
  }

  // ---- Monotonicity ----

  /** `tight` has no allow rule that `loose` lacks and every deny rule that `loose` has. */
  ghost predicate AtLeastAsStrict(tight: PolicyRules, loose: PolicyRules) {
    && (forall r :: r in tight.allowedTools ==> r in loose.allowedTools)
    && (forall r :: r in loose.deniedTools ==> r in tight.deniedTools)
    && (forall r :: r in tight.allowedModels ==> r in loose.allowedModels)
    && (forall r :: r in loose.deniedModels ==> r in tight.deniedModels)
    && (forall r :: r in tight.allowedHandoffs ==> r in loose.allowedHandoffs)
    && (forall r :: r in loose.deniedHandoffs ==> r in tight.deniedHandoffs)
  }

  lemma StricterPermitsFewerTools(tight: PolicyRules, loose: PolicyRules, plan: Plan,
                                  name: string, version: string, op: Operation)
    requires AtLeastAsStrict(tight, loose) && DirectlyAllowsTool(tight, plan, name, version, op)
    ensures DirectlyAllowsTool(loose, plan, name, version, op)
  {
    var r :| r in tight.allowedTools && Concerns(r, name, version) && op in r.operations;
    assert r in loose.allowedTools;
  }

  lemma StricterPermitsFewerModels(tight: PolicyRules, loose: PolicyRules, plan: Plan, request: ModelRequest)
    requires AtLeastAsStrict(tight, loose) && DirectlyAllowsModel(tight, plan, request)
    ensures DirectlyAllowsModel(loose, plan, request)
  {
    var id :| PlanNames(plan, id, id) && Requested(request, id) && ModelPermitted(tight, plan, id);
    var a :| a in tight.allowedModels && PlanNames(plan, id, a.modelId);
    assert a in loose.allowedModels;
  }

  lemma StricterPermitsFewerHandoffs(tight: PolicyRules, loose: PolicyRules, plan: Plan, target: string)
    requires AtLeastAsStrict(tight, loose) && DirectlyAllowsHandoff(tight, plan, target)
    ensures DirectlyAllowsHandoff(loose, plan, target)
  {
    var r :| r in tight.allowedHandoffs && Targets(r, target);
    assert r in loose.allowedHandoffs;
  }

  /** More deny rules never let more through, more allow rules never let less through. */
  lemma StricterRulesPermitLess(tight: PolicyRules, loose: PolicyRules, plan: Plan,
                                name: string, version: string, op: Operation,
                                request: ModelRequest, target: string)
    requires AtLeastAsStrict(tight, loose)
    ensures CheckTool(ResolveEffectivePolicy(tight, plan), name, version, op).Ok?
            ==> CheckTool(ResolveEffectivePolicy(loose, plan), name, version, op).Ok?
    ensures CheckModel(ResolveEffectivePolicy(tight, plan), request).Ok?
            ==> CheckModel(ResolveEffectivePolicy(loose, plan), request).Ok?
    ensures CheckHandoff(ResolveEffectivePolicy(tight, plan), target).Ok?
            ==> CheckHandoff(ResolveEffectivePolicy(loose, plan), target).Ok?
  {
    if CheckTool(ResolveEffectivePolicy(tight, plan), name, version, op).Ok? {
      SnapshotToolImpliesDirect(tight, plan, name, version, op);
      StricterPermitsFewerTools(tight, loose, plan, name, version, op);
      DirectToolImpliesSnapshot(loose, plan, name, version, op);
    }
    if CheckModel(ResolveEffectivePolicy(tight, plan), request).Ok? {
      SnapshotModelImpliesDirect(tight, plan, request);
      StricterPermitsFewerModels(tight, loose, plan, request);
      DirectModelImpliesSnapshot(loose, plan, request);
    }
    if CheckHandoff(ResolveEffectivePolicy(tight, plan), target).Ok? {
      SnapshotHandoffImpliesDirect(tight, plan, target);
      StricterPermitsFewerHandoffs(tight, loose, plan, target);
      DirectHandoffImpliesSnapshot(loose, plan, target);
    }
  }

  // ---- Budgets ----

  ghost predicate CostAtMost(cost: Option<real>, bound: Option<real>) {
    bound.Some? ==> cost.Some? && cost.value <= bound.value
  }

  /** `b` is the largest cost bound below both `p` and `c`, absence meaning unbounded. */
  ghost predicate GreatestCostBelow(b: Option<real>, p: Option<real>, c: Option<real>) {
    && CostAtMost(b, p) && CostAtMost(b, c)
    && (forall v: Option<real> :: CostAtMost(v, p) && CostAtMost(v, c) ==> CostAtMost(v, b))
  }

  /** Each limit is the largest value both the plan and the cap admit, and the result always
    passes the budget schema, so resolving never fails on it. */
  lemma CapIsGreatestLowerBound(p: Budget, cap: BudgetCap, f: Limit)
    requires p.Valid() && cap.Valid()
    ensures var b := CapBudget(p, cap);
            && b.Valid()
            && b.Get(f) <= p.Get(f)
            && (cap.Get(f).Some? ==> b.Get(f) <= cap.Get(f).value)
            && (b.Get(f) == p.Get(f) || cap.Get(f) == Some(b.Get(f)))
            && GreatestCostBelow(b.maxCost, p.maxCost, cap.maxCost)
  {
    match f {
      case Segments =>
      case ModelTurns =>
      case ToolCalls =>
      case InputTokens =>
      case OutputTokens =>
      case TotalTokens =>
      case DurationMs =>
      case Handoffs =>
      case ContextBytes =>
    }
  }

  /** The limit a plan itself sets: an agent plan has a budget, a flow plan has steps, tools and tokens,
    and the budget schema fills in the rest. */
  ghost predicate PlanSets(plan: Plan, f: Limit, n: nat) {
    if plan.AgentPlan? then n == plan.budget.Get(f)
    else if f in {Segments, ModelTurns} then n >= 1 && n >= plan.maxSteps && n in {1, plan.maxSteps}
    else if f == TotalTokens then n >= 1 && n >= plan.maxTokens && n in {1, plan.maxTokens}
    else if f == ToolCalls then n == |plan.tools|
    else if f == DurationMs then n == 300000
    else if f == Handoffs then n == 2
    else if f == ContextBytes then n == 262144
    else n == 0
  }

  /** The budget of a snapshot: each limit is the greatest value that both the plan and the cap admit. */
  lemma SnapshotBudget(policy: PolicyRules, plan: Plan, f: Limit)
    requires policy.budgetCap.Valid() && (plan.AgentPlan? ==> plan.budget.Valid())
    ensures var b, cap := ResolveEffectivePolicy(policy, plan).budget, policy.budgetCap;
            && b.Valid()
            && (exists n :: PlanSets(plan, f, n) && b.Get(f) <= n && (b.Get(f) == n || cap.Get(f) == Some(b.Get(f))))
            && (cap.Get(f).Some? ==> b.Get(f) <= cap.Get(f).value)
            && GreatestCostBelow(b.maxCost, if plan.AgentPlan? then plan.budget.maxCost else None, cap.maxCost)
    ensures ResolveEffectivePolicy(policy, plan).maxConcurrentAgentRuns == policy.maxConcurrentAgentRuns
  {
    var p := PlanBudget(plan);
    CapIsGreatestLowerBound(p, policy.budgetCap, f);
    assert PlanSets(plan, f, p.Get(f));
  }
}
