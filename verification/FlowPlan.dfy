/** Compiling a published flow into an execution plan that pins every tool it may use.

  The registry does not change while a plan is built. Tool names and versions are ordered by a
  collation, of which all that is known is that it is a total preorder.
 */
module FlowPlan {
  import R = Registry
  import opened Results
  import opened Lists
  import opened Sorting
  import opened Texts

  // ---- What a plan is built from ----

  predicate Executable(s: R.Status) { s == R.Published || s == R.Gray }

  datatype ToolRecord = ToolRecord(status: R.Status, hash: string, risk: string)

  /** `prompt` is the parsed exact prompt reference, and `compiles` says whether the agent's own
    execution plan can be created. */
  datatype AgentRecord = AgentRecord(
    status: R.Status, prompt: Option<(string, nat)>, allowedTools: seq<string>, maxSteps: nat, maxTokens: nat,
    compiles: bool)

  datatype FlowStep =
    | ToolStep(id: string, tool: string, toolVersion: string)
    | AgentStep(id: string, agent: string, agentVersion: Option<nat>)
    | OtherStep(id: string)

  /** The tool override of a flow: per step or agent, one list for all, or none. */
  datatype Overrides = NoOverride | PerKey(lists: map<string, seq<string>>) | ForAll(list: seq<string>)

  datatype Flow = Flow(status: R.Status, steps: seq<FlowStep>, overrides: Overrides)

  datatype World = World(
    flow: Option<Flow>, agents: map<(string, nat), AgentRecord>, prompts: map<(string, nat), R.Status>,
    tools: map<(string, nat), ToolRecord>, tenantTools: Option<seq<string>>)

  // ---- What a plan holds ----

  datatype Entry = Entry(stepId: Option<string>, ref: Ref, hash: string, risk: string)

  datatype PlanAgent = PlanAgent(stepId: string, agent: string, version: nat, allowedTools: seq<string>, maxSteps: nat, maxTokens: nat)

  datatype Plan = Plan(agents: seq<PlanAgent>, tools: seq<Entry>, allowedTools: seq<string>, maxSteps: nat, maxTokens: nat)

  datatype Progress = Progress(agents: seq<PlanAgent>, entries: seq<Entry>)

  // ---- Resolving one tool ----

  datatype Request = Request(stepId: Option<string>, ref: Ref)

  function Resolve(w: World, q: Request): Result<Entry> {
    var major := Major(q.ref.version);
    if major.None? then Err("ToolManifest version must start with a positive numeric major")
    else if (q.ref.name, major.value) !in w.tools then Err("ToolManifest exact version not found")
    else if VersionText(major.value) != q.ref.version then Err("ToolManifest version mismatch")
    else
      var record := w.tools[(q.ref.name, major.value)];
      if !Executable(record.status) then Err("ToolManifest is not executable for plan generation")
      else Ok(Entry(if q.stepId == Some("") then None else q.stepId, q.ref, record.hash, record.risk))
  }

  /** The registry holds this exact version, published or gray. */
  ghost predicate Pinned(w: World, ref: Ref, n: nat) {
    && n > 0 && ref.version == VersionText(n)
    && (ref.name, n) in w.tools && w.tools[(ref.name, n)].status in {R.Published, R.Gray}
  }

  /** A reference resolves exactly when the registry holds that very version, published or gray. */
  lemma ResolvesExactlyWhenPinned(w: World, q: Request)
    ensures Resolve(w, q).Ok? <==> exists n :: Pinned(w, q.ref, n)
    ensures forall n :: Pinned(w, q.ref, n) ==>
              Resolve(w, q).Ok? && Resolve(w, q).value.hash == w.tools[(q.ref.name, n)].hash
              && Resolve(w, q).value.risk == w.tools[(q.ref.name, n)].risk
  {
    forall n | Pinned(w, q.ref, n)
      ensures Resolve(w, q).Ok? && Resolve(w, q).value.hash == w.tools[(q.ref.name, n)].hash
      ensures Resolve(w, q).value.risk == w.tools[(q.ref.name, n)].risk
    {
      MajorOfVersionText(n);
    }
    if Resolve(w, q).Ok? { assert Pinned(w, q.ref, Major(q.ref.version).value); }
  }

  // ---- The entries, one per tool version ----

  function Find(es: seq<Entry>, ref: Ref): (i: nat)
    ensures i <= |es| && (i < |es| ==> es[i].ref == ref)
    ensures forall j :: 0 <= j < i ==> es[j].ref != ref
  {
    if es == [] || es[0].ref == ref then 0 else 1 + Find(es[1..], ref)
  }

  function AddEntry(es: seq<Entry>, e: Entry): Result<seq<Entry>> {
    var i := Find(es, e.ref);
    if i == |es| then Ok(es + [e])
    else if es[i].hash != e.hash then Err("ToolManifest hash conflict in execution plan")
    else Ok(es[i := es[i].(stepId := if es[i].stepId.Some? then es[i].stepId else e.stepId)])
  }

  function AddRequest(w: World, es: seq<Entry>, q: Request): Result<seq<Entry>> {
    var e := Resolve(w, q);
    if e.Err? then Err(e.code) else AddEntry(es, e.value)
  }

  function AddAll(w: World, es: seq<Entry>, qs: seq<Request>): Result<seq<Entry>> {
    if qs == [] then Ok(es)
    else
      var before := AddAll(w, es, qs[..|qs| - 1]);
      if before.Err? then before else AddRequest(w, before.value, qs[|qs| - 1])
  }

  // ---- The tools an agent may use ----

  function ParseAll(texts: seq<string>): Result<seq<Ref>> {
    if texts == [] then Ok([])
    else
      var before := ParseAll(texts[..|texts| - 1]);
      var last := ParseRef(texts[|texts| - 1]);
      if before.Err? then before
      else if last.None? then Err("must use tool_name@tool_version exact refs")
      else Ok(before.value + [last.value])
  }

  function Keys(refs: seq<Ref>): set<string> { set r | r in refs :: RefText(r) }

  predicate TenantAllows(tenant: Option<seq<string>>, r: Ref) {
    tenant.Some? ==> r.name in tenant.value || RefText(r) in tenant.value
  }

  function Select(refs: seq<Ref>, agentKeys: set<string>, tenant: Option<seq<string>>): Result<seq<Ref>> {
    if refs == [] then Ok([])
    else
      var before := Select(refs[..|refs| - 1], agentKeys, tenant);
      var last := refs[|refs| - 1];
      if before.Err? then before
      else if RefText(last) !in agentKeys then Err("Flow allowed_tools override is not permitted by AgentSpec")
      else if !TenantAllows(tenant, last) then before
      else Ok(before.value + [last])
  }

  function AllowedRefs(agentTools: seq<string>, override: Option<seq<string>>, tenant: Option<seq<string>>): Result<seq<Ref>> {
    var agentRefs := ParseAll(agentTools);
    if agentRefs.Err? then agentRefs
    else
      var refs := if override.Some? then ParseAll(override.value) else agentRefs;
      if refs.Err? then refs else Select(refs.value, Keys(agentRefs.value), tenant)
  }

  function OverrideFor(o: Overrides, stepId: string, agent: string): Option<seq<string>> {
    match o
    case NoOverride => None
    case ForAll(list) => Some(list)
    case PerKey(lists) => if stepId in lists then Some(lists[stepId]) else if agent in lists then Some(lists[agent]) else None
  }

  // ---- One step ----

  function AgentOf(w: World, step: FlowStep): Result<AgentRecord>
    requires step.AgentStep?
  {
    if step.agent == "" then Err("Flow agent step missing agent_id")
    else if step.agentVersion.None? || step.agentVersion.value == 0 then Err("Flow agent step missing exact input.agent_version")
    else if (step.agent, step.agentVersion.value) !in w.agents then Err("AgentSpec exact version not found")
    else
      var a := w.agents[(step.agent, step.agentVersion.value)];
      if !Executable(a.status) then Err("AgentSpec is not executable for plan generation")
      else if a.prompt.None? then Err("Agent prompt_ref must use prompt_id@version")
      else if a.prompt.value !in w.prompts then Err("PromptDefinition exact version not found")
      else if !Executable(w.prompts[a.prompt.value]) then Err("PromptDefinition is not executable for plan generation")
      else Ok(a)
  }

  function AgentRefs(w: World, flow: Flow, step: FlowStep): Result<seq<Ref>>
    requires step.AgentStep?
  {
    var a := AgentOf(w, step);
    if a.Err? then Err(a.code)
    else AllowedRefs(a.value.allowedTools, OverrideFor(flow.overrides, step.id, step.agent), w.tenantTools)
  }

  function NamesOf(refs: seq<Ref>): seq<string> { seq(|refs|, i requires 0 <= i < |refs| => refs[i].name) }

  function ForAgent(refs: seq<Ref>): seq<Request> { seq(|refs|, i requires 0 <= i < |refs| => Request(None, refs[i])) }

  function AddStep(w: World, flow: Flow, d: Progress, step: FlowStep): Result<Progress> {
    match step
    case OtherStep(_) => Ok(d)
    case ToolStep(id, tool, version) =>
      if tool == "" then Err("Flow tool step missing tool name")
      else if version == "" then Err("Flow tool step missing exact tool_version")
      else
        var es := AddRequest(w, d.entries, Request(Some(id), Ref(tool, version)));
        if es.Err? then Err(es.code) else Ok(d.(entries := es.value))
    case AgentStep(id, agent, version) =>
      var a := AgentOf(w, step);
      var refs := AgentRefs(w, flow, step);
      if a.Err? then Err(a.code)
      else if refs.Err? then Err(refs.code)
      else
        var es := AddAll(w, d.entries, ForAgent(refs.value));
        if es.Err? then Err(es.code)
        else if !a.value.compiles then Err("AgentExecutionPlan")
        else Ok(Progress(d.agents + [PlanAgent(id, agent, version.value, NamesOf(refs.value), a.value.maxSteps, a.value.maxTokens)],
                      es.value))
  }

  function AddSteps(w: World, flow: Flow, steps: seq<FlowStep>): Result<Progress> {
    if steps == [] then Ok(Progress([], []))
    else
      var before := AddSteps(w, flow, steps[..|steps| - 1]);
      if before.Err? then before else AddStep(w, flow, before.value, steps[|steps| - 1])
  }

  // ---- The plan ----

  /** By name, and by version when the names collate as equal. */
  predicate RefLe(le: Collation, a: Ref, b: Ref) {
    if Tied(le, a.name, b.name) then le(a.version, b.version) else le(a.name, b.name)
  }

  function ByRef(le: Collation): ((Ref, Ref) -> bool) { (a: Ref, b: Ref) => RefLe(le, a, b) }

  function ByEntry(le: Collation): ((Entry, Entry) -> bool) { (a: Entry, b: Entry) => RefLe(le, a.ref, b.ref) }

  function AllNames(agents: seq<PlanAgent>): seq<string> {
    if agents == [] then [] else AllNames(agents[..|agents| - 1]) + agents[|agents| - 1].allowedTools
  }

  function MaxSteps(a: PlanAgent): nat { a.maxSteps }

  function MaxTokens(a: PlanAgent): nat { a.maxTokens }

  function Finish(le: Collation, d: Progress): Plan {
    Plan(d.agents, Sort(ByEntry(le), d.entries), Sort(StringLe, Dedup(AllNames(d.agents))),
         Total(d.agents, MaxSteps), Total(d.agents, MaxTokens))
  }

  function Build(le: Collation, w: World): Result<Plan> {
    if w.flow.None? then Err("FlowSpec exact version not found")
    else if !Executable(w.flow.value.status) then Err("FlowSpec is not executable for plan generation")
    else
      var d := AddSteps(w, w.flow.value, w.flow.value.steps);
      if d.Err? then Err(d.code) else Ok(Finish(le, d.value))
  }

  // ---- The same, step by step ----

  method ParseToolRefs(texts: seq<string>) returns (r: Result<seq<Ref>>)
    ensures r == ParseAll(texts)
  {
    var refs: seq<Ref> := [];
    var i := 0;
    while i < |texts|
      invariant 0 <= i <= |texts|
      invariant ParseAll(texts[..i]) == Ok(refs)
    {
      assert texts[..i + 1][..i] == texts[..i];
      var parsed := ParseRef(texts[i]);
      if parsed.None? {
        ParseStaysErr(texts, i + 1);
        return Err("must use tool_name@tool_version exact refs");
      }
      refs := refs + [parsed.value];
      i := i + 1;
    }
    assert texts[..i] == texts;
    r := Ok(refs);
  }

  lemma {:induction false} ParseStaysErr(texts: seq<string>, n: nat)
    requires n <= |texts| && ParseAll(texts[..n]).Err?
    ensures ParseAll(texts) == ParseAll(texts[..n])
    decreases |texts| - n
  {
    if n == |texts| {
      assert texts[..n] == texts;
    } else {
      assert texts[..n + 1][..n] == texts[..n];
      ParseStaysErr(texts, n + 1);
    }
  }

  method ResolveAllowedToolRefs(agentTools: seq<string>, override: Option<seq<string>>, tenant: Option<seq<string>>)
    returns (r: Result<seq<Ref>>)
    ensures r == AllowedRefs(agentTools, override, tenant)
  {
    var agentRefs := ParseToolRefs(agentTools);
    if agentRefs.Err? { return agentRefs; }
    var overrideRefs := agentRefs;
    if override.Some? { overrideRefs := ParseToolRefs(override.value); }
    if overrideRefs.Err? { return overrideRefs; }
    var refs, keys := overrideRefs.value, Keys(agentRefs.value);
    var selected: seq<Ref> := [];
    var i := 0;
    while i < |refs|
      invariant 0 <= i <= |refs|
      invariant Select(refs[..i], keys, tenant) == Ok(selected)
    {
      SelectOneMore(refs, i, keys, tenant);
      var ref := refs[i];
      i := i + 1;
      if RefText(ref) !in keys {
        SelectStaysErr(refs, i, keys, tenant);
        return Err("Flow allowed_tools override is not permitted by AgentSpec");
      }
      if tenant.Some? && ref.name !in tenant.value && RefText(ref) !in tenant.value { continue; }
      selected := selected + [ref];
    }
    assert refs[..i] == refs;
    r := Ok(selected);
  }

  lemma SelectOneMore(refs: seq<Ref>, i: nat, keys: set<string>, tenant: Option<seq<string>>)
    requires i < |refs| && Select(refs[..i], keys, tenant).Ok?
    ensures var before := Select(refs[..i], keys, tenant).value;
            Select(refs[..i + 1], keys, tenant)
            == if RefText(refs[i]) !in keys then Err("Flow allowed_tools override is not permitted by AgentSpec")
               else Ok(if TenantAllows(tenant, refs[i]) then before + [refs[i]] else before)
  {
    assert refs[..i + 1][..i] == refs[..i];
  }

  lemma {:induction false} SelectStaysErr(refs: seq<Ref>, n: nat, keys: set<string>, tenant: Option<seq<string>>)
    requires n <= |refs| && Select(refs[..n], keys, tenant).Err?
    ensures Select(refs, keys, tenant) == Select(refs[..n], keys, tenant)
    decreases |refs| - n
  {
    if n == |refs| {
      assert refs[..n] == refs;
    } else {
      assert refs[..n + 1][..n] == refs[..n];
      SelectStaysErr(refs, n + 1, keys, tenant);
    }
  }

  /** The map of tool entries a plan is collected in, in insertion order. */
  class ToolEntries {
    var entries: seq<Entry>

    constructor ()
      ensures entries == []
    {
      entries := [];
    }

    method AddToolEntry(e: Entry) returns (r: Result<()>)
      modifies this
      ensures AddEntry(old(entries), e) == if r.Ok? then Ok(entries) else Err(r.code)
      ensures r.Err? ==> entries == old(entries)
    {
      var i := Find(entries, e.ref);
      if i < |entries| && entries[i].hash != e.hash { return Err("ToolManifest hash conflict in execution plan"); }
      if i < |entries| {
        var existing := entries[i];
        entries := entries[i := existing.(stepId := if existing.stepId.Some? then existing.stepId else e.stepId)];
      } else {
        entries := entries + [e];
      }
      r := Ok(());
    }

    method AddRefs(w: World, qs: seq<Request>) returns (r: Result<()>)
      modifies this
      ensures AddAll(w, old(entries), qs) == if r.Ok? then Ok(entries) else Err(r.code)
    {
      ghost var was := entries;
      var i := 0;
      while i < |qs|
        invariant 0 <= i <= |qs|
        invariant AddAll(w, was, qs[..i]) == Ok(entries)
      {
        assert qs[..i + 1][..i] == qs[..i];
        var tool := Resolve(w, qs[i]);
        if tool.Err? {
          AddStaysErr(w, was, qs, i + 1);
          return Err(tool.code);
        }
        var added := AddToolEntry(tool.value);
        if added.Err? {
          AddStaysErr(w, was, qs, i + 1);
          return added;
        }
        i := i + 1;
      }
      assert qs[..i] == qs;
      r := Ok(());
    }
  }

  lemma {:induction false} AddStaysErr(w: World, es: seq<Entry>, qs: seq<Request>, n: nat)
    requires n <= |qs| && AddAll(w, es, qs[..n]).Err?
    ensures AddAll(w, es, qs) == AddAll(w, es, qs[..n])
    decreases |qs| - n
  {
    if n == |qs| {
      assert qs[..n] == qs;
    } else {
      assert qs[..n + 1][..n] == qs[..n];
      AddStaysErr(w, es, qs, n + 1);
    }
  }

  lemma {:induction false} StepsStayErr(w: World, flow: Flow, steps: seq<FlowStep>, n: nat)
    requires n <= |steps| && AddSteps(w, flow, steps[..n]).Err?
    ensures AddSteps(w, flow, steps) == AddSteps(w, flow, steps[..n])
    decreases |steps| - n
  {
    if n == |steps| {
      assert steps[..n] == steps;
    } else {
      assert steps[..n + 1][..n] == steps[..n];
      StepsStayErr(w, flow, steps, n + 1);
    }
  }

  lemma StepsOneMore(w: World, flow: Flow, steps: seq<FlowStep>, i: nat, d: Progress)
    requires i < |steps| && AddSteps(w, flow, steps[..i]) == Ok(d)
    ensures AddSteps(w, flow, steps[..i + 1]) == AddStep(w, flow, d, steps[i])
  {
    assert steps[..i + 1][..i] == steps[..i];
  }

  /** Handle one step, given the agents so far. */
  method CompileStep(w: World, flow: Flow, step: FlowStep, tools: ToolEntries, agents: seq<PlanAgent>)
    returns (r: Result<seq<PlanAgent>>)
    modifies tools
    ensures AddStep(w, flow, Progress(agents, old(tools.entries)), step)
            == if r.Ok? then Ok(Progress(r.value, tools.entries)) else Err(r.code)
  {
    match step {
      case OtherStep(_) => r := Ok(agents);
      case ToolStep(id, tool, version) =>
        if tool == "" { return Err("Flow tool step missing tool name"); }
        if version == "" { return Err("Flow tool step missing exact tool_version"); }
        var entry := Resolve(w, Request(Some(id), Ref(tool, version)));
        if entry.Err? { return Err(entry.code); }
        var added := tools.AddToolEntry(entry.value);
        r := if added.Ok? then Ok(agents) else Err(added.code);
      case AgentStep(id, agent, version) =>
        var a := AgentOf(w, step);
        if a.Err? { return Err(a.code); }
        var refs := ResolveAllowedToolRefs(a.value.allowedTools, OverrideFor(flow.overrides, id, agent), w.tenantTools);
        if refs.Err? { return Err(refs.code); }
        var added := tools.AddRefs(w, ForAgent(refs.value));
        if added.Err? { return Err(added.code); }
        if !a.value.compiles { return Err("AgentExecutionPlan"); }
        r := Ok(agents + [PlanAgent(id, agent, version.value, NamesOf(refs.value), a.value.maxSteps, a.value.maxTokens)]);
    }
  }

  method BuildFlowExecutionPlan(le: Collation, w: World) returns (r: Result<Plan>)
    ensures r == Build(le, w)
  {
    if w.flow.None? { return Err("FlowSpec exact version not found"); }
    var flow := w.flow.value;
    if !Executable(flow.status) { return Err("FlowSpec is not executable for plan generation"); }
    var tools := new ToolEntries();
    var agents: seq<PlanAgent> := [];
    var steps := flow.steps;
    var i := 0;
    while i < |steps|
      invariant 0 <= i <= |steps|
      invariant AddSteps(w, flow, steps[..i]) == Ok(Progress(agents, tools.entries))
    {
      ghost var d := Progress(agents, tools.entries);
      var next := CompileStep(w, flow, steps[i], tools, agents);
      StepsOneMore(w, flow, steps, i, d);
      i := i + 1;
      if next.Err? {
        StepsStayErr(w, flow, steps, i);
        return Err(next.code);
      }
      agents := next.value;
    }
    assert steps[..i] == steps;
    r := Ok(Finish(le, Progress(agents, tools.entries)));
  }
}
