/** What a compiled flow plan contains. */
module FlowPlanLaws {
  import R = Registry
  import opened Results
  import opened Lists
  import opened Sorting
  import opened Texts
  import opened FlowPlan

  // ---- Everything a flow asks for, in order ----

  function StepRequests(w: World, flow: Flow, step: FlowStep): seq<Request> {
    match step
    case OtherStep(_) => []
    case ToolStep(id, tool, version) => [Request(Some(id), Ref(tool, version))]
    case AgentStep(_, _, _) =>
      var refs := AgentRefs(w, flow, step);
      if refs.Ok? then ForAgent(refs.value) else []
  }

  function Requests(w: World, flow: Flow, steps: seq<FlowStep>): seq<Request> {
    if steps == [] then [] else Requests(w, flow, steps[..|steps| - 1]) + StepRequests(w, flow, steps[|steps| - 1])
  }

  function StepAgents(w: World, flow: Flow, step: FlowStep): seq<PlanAgent> {
    if !step.AgentStep? then []
    else
      var a := AgentOf(w, step);
      var refs := AgentRefs(w, flow, step);
      if a.Err? || refs.Err? then []
      else [PlanAgent(step.id, step.agent, step.agentVersion.value, NamesOf(refs.value), a.value.maxSteps, a.value.maxTokens)]
  }

  function AgentsOf(w: World, flow: Flow, steps: seq<FlowStep>): seq<PlanAgent> {
    if steps == [] then [] else AgentsOf(w, flow, steps[..|steps| - 1]) + StepAgents(w, flow, steps[|steps| - 1])
  }

  lemma {:induction false} AddAllConcat(w: World, es: seq<Entry>, a: seq<Request>, b: seq<Request>)
    ensures AddAll(w, es, a + b)
            == if AddAll(w, es, a).Err? then AddAll(w, es, a) else AddAll(w, AddAll(w, es, a).value, b)
    decreases |b|
  {
    if b == [] {
      assert a + b == a;
    } else {
      var front := b[..|b| - 1];
      AddAllConcat(w, es, a, front);
      assert (a + b)[..|a + b| - 1] == a + front;
    }
  }

  lemma AddAllOne(w: World, es: seq<Entry>, q: Request)
    ensures AddAll(w, es, [q]) == AddRequest(w, es, q)
  {
    assert [q][..0] == [];
  }

  lemma OneStepCollects(w: World, flow: Flow, d: Progress, step: FlowStep)
    requires AddStep(w, flow, d, step).Ok?
    ensures var t := AddStep(w, flow, d, step).value;
            AddAll(w, d.entries, StepRequests(w, flow, step)) == Ok(t.entries)
            && t.agents == d.agents + StepAgents(w, flow, step)
  {
    if step.ToolStep? { AddAllOne(w, d.entries, Request(Some(step.id), Ref(step.tool, step.toolVersion))); }
  }

  lemma {:induction false} StepsCollect(w: World, flow: Flow, steps: seq<FlowStep>)
    requires AddSteps(w, flow, steps).Ok?
    ensures AddAll(w, [], Requests(w, flow, steps)) == Ok(AddSteps(w, flow, steps).value.entries)
    ensures AddSteps(w, flow, steps).value.agents == AgentsOf(w, flow, steps)
  {
    if steps != [] {
      var front, last := steps[..|steps| - 1], steps[|steps| - 1];
      StepsCollect(w, flow, front);
      var d := AddSteps(w, flow, front).value;
      OneStepCollects(w, flow, d, last);
      AddAllConcat(w, [], Requests(w, flow, front), StepRequests(w, flow, last));
    }
  }

  // ---- The collected entries ----

  /** The first tool step that asks for this version. */
  function FirstStep(qs: seq<Request>, ref: Ref): Option<string> {
    if qs == [] then None
    else
      var before := FirstStep(qs[..|qs| - 1], ref);
      var last := qs[|qs| - 1];
      if before.Some? then before
      else if last.ref == ref && last.stepId != Some("") then last.stepId else None
  }

  predicate Asked(qs: seq<Request>, ref: Ref) { exists q :: q in qs && q.ref == ref }

  predicate HasEntry(es: seq<Entry>, ref: Ref) { exists e :: e in es && e.ref == ref }

  predicate OnePerRef(es: seq<Entry>) { forall i, j :: 0 <= i < j < |es| ==> es[i].ref != es[j].ref }

  /** The entry says what the registry says. */
  predicate Faithful(w: World, e: Entry) {
    var r := Resolve(w, Request(None, e.ref));
    r.Ok? && e.hash == r.value.hash && e.risk == r.value.risk
  }

  ghost predicate Collected(w: World, qs: seq<Request>, es: seq<Entry>) {
    && OnePerRef(es)
    && (forall ref :: HasEntry(es, ref) <==> Asked(qs, ref))
    && (forall e :: e in es ==> Faithful(w, e) && e.stepId == FirstStep(qs, e.ref))
  }

  lemma FindMeaning(es: seq<Entry>, ref: Ref)
    ensures Find(es, ref) < |es| <==> HasEntry(es, ref)
  {
    if e :| e in es && e.ref == ref {
      var j :| 0 <= j < |es| && es[j] == e;
    }
    if Find(es, ref) < |es| { assert es[Find(es, ref)] in es; }
  }

  lemma {:induction false} FirstStepOfUnasked(qs: seq<Request>, ref: Ref)
    requires !Asked(qs, ref)
    ensures FirstStep(qs, ref) == None
  {
    if qs != [] {
      assert qs == qs[..|qs| - 1] + [qs[|qs| - 1]];
      assert qs[|qs| - 1] in qs;
      FirstStepOfUnasked(qs[..|qs| - 1], ref);
    }
  }

  lemma AskedOneMore(qs: seq<Request>, ref: Ref)
    requires qs != []
    ensures Asked(qs, ref) <==> Asked(qs[..|qs| - 1], ref) || qs[|qs| - 1].ref == ref
  {
    assert qs == qs[..|qs| - 1] + [qs[|qs| - 1]];
  }

  lemma HasEntryAfterAppend(es: seq<Entry>, e: Entry, ref: Ref)
    ensures HasEntry(es + [e], ref) <==> HasEntry(es, ref) || e.ref == ref
  {
    assert e in es + [e];
    if HasEntry(es, ref) { var x :| x in es && x.ref == ref; assert x in es + [e]; }
  }

  lemma HasEntryAfterUpdate(es: seq<Entry>, i: nat, e: Entry, ref: Ref)
    requires i < |es| && e.ref == es[i].ref
    ensures HasEntry(es[i := e], ref) <==> HasEntry(es, ref)
  {
    var t := es[i := e];
    if HasEntry(es, ref) {
      var j :| 0 <= j < |es| && es[j].ref == ref;
      assert t[j] in t && t[j].ref == ref;
    }
    if HasEntry(t, ref) {
      var j :| 0 <= j < |t| && t[j].ref == ref;
      assert es[j] in es && es[j].ref == ref;
    }
  }

  lemma AppendCollects(w: World, qs: seq<Request>, es: seq<Entry>, e: Entry)
    requires qs != [] && Collected(w, qs[..|qs| - 1], es) && Resolve(w, qs[|qs| - 1]) == Ok(e) && !HasEntry(es, e.ref)
    ensures Collected(w, qs, es + [e])
  {
    var t := es + [e];
    FirstStepOfUnasked(qs[..|qs| - 1], e.ref);
    forall ref ensures HasEntry(t, ref) <==> Asked(qs, ref) {
      HasEntryAfterAppend(es, e, ref);
      AskedOneMore(qs, ref);
    }
    forall i | 0 <= i < |es| ensures es[i].ref != e.ref { assert es[i] in es; }
    forall x | x in t ensures Faithful(w, x) && x.stepId == FirstStep(qs, x.ref) {}
  }

  lemma UpdateCollects(w: World, qs: seq<Request>, es: seq<Entry>, i: nat, e: Entry)
    requires qs != [] && Collected(w, qs[..|qs| - 1], es) && Resolve(w, qs[|qs| - 1]) == Ok(e)
    requires i < |es| && es[i].ref == e.ref
    ensures Collected(w, qs, es[i := es[i].(stepId := if es[i].stepId.Some? then es[i].stepId else e.stepId)])
  {
    var x := es[i].(stepId := if es[i].stepId.Some? then es[i].stepId else e.stepId);
    var t := es[i := x];
    assert es[i] in es;
    forall ref ensures HasEntry(t, ref) <==> Asked(qs, ref) {
      HasEntryAfterUpdate(es, i, x, ref);
      AskedOneMore(qs, ref);
    }
    forall j | 0 <= j < |t| ensures Faithful(w, t[j]) && t[j].stepId == FirstStep(qs, t[j].ref) {
      assert es[j] in es;
    }
  }

  predicate AllResolve(w: World, qs: seq<Request>) { forall q :: q in qs ==> Resolve(w, q).Ok? }

  lemma AllResolveOneMore(w: World, qs: seq<Request>)
    requires qs != []
    ensures AllResolve(w, qs) <==> AllResolve(w, qs[..|qs| - 1]) && Resolve(w, qs[|qs| - 1]).Ok?
  {
    assert qs == qs[..|qs| - 1] + [qs[|qs| - 1]];
  }

  /** Collecting succeeds exactly when every request resolves: two requests for one version never
    disagree on its hash. What is collected is exactly what was asked for. */
  lemma {:induction false} AddAllCollects(w: World, qs: seq<Request>)
    ensures AddAll(w, [], qs).Ok? <==> AllResolve(w, qs)
    ensures AddAll(w, [], qs).Ok? ==> Collected(w, qs, AddAll(w, [], qs).value)
  {
    if qs != [] {
      AddAllCollects(w, qs[..|qs| - 1]);
      AllResolveOneMore(w, qs);
      if AllResolve(w, qs) {
        OneMoreCollects(w, qs, AddAll(w, [], qs[..|qs| - 1]).value);
      }
    }
  }

  lemma OneMoreCollects(w: World, qs: seq<Request>, es: seq<Entry>)
    requires qs != [] && Collected(w, qs[..|qs| - 1], es) && Resolve(w, qs[|qs| - 1]).Ok?
    ensures AddRequest(w, es, qs[|qs| - 1]).Ok? && Collected(w, qs, AddRequest(w, es, qs[|qs| - 1]).value)
  {
    var e := Resolve(w, qs[|qs| - 1]).value;
    var i := Find(es, e.ref);
    FindMeaning(es, e.ref);
    if i == |es| {
      AppendCollects(w, qs, es, e);
    } else {
      assert es[i] in es && Faithful(w, es[i]);
      UpdateCollects(w, qs, es, i, e);
    }
  }

  // ---- The order of the tools ----

  function RefOf(e: Entry): Ref { e.ref }

  function RefsOf(es: seq<Entry>): (r: seq<Ref>)
    ensures |r| == |es| && forall i :: 0 <= i < |r| ==> r[i] == es[i].ref
  {
    assert forall e: Entry :: RefOf(e) == e.ref;
    Image(RefOf, es)
  }

  lemma ByRefIsTotalPreorder(le: Collation)
    requires TotalPreorder(le)
    ensures TotalPreorder(ByRef(le))
  {
    var ge := ByRef(le);
    forall a, b ensures ge(a, b) || ge(b, a) {
      assert le(a.name, b.name) || le(b.name, a.name);
      assert le(a.version, b.version) || le(b.version, a.version);
    }
    forall a, b, c | ge(a, b) && ge(b, c) ensures ge(a, c) { RefLeTransitive(le, a, b, c); }
  }

  lemma RefLeTransitive(le: Collation, a: Ref, b: Ref, c: Ref)
    requires TotalPreorder(le) && RefLe(le, a, b) && RefLe(le, b, c)
    ensures RefLe(le, a, c)
  {
    assert le(a.name, b.name) && le(b.name, c.name) && le(a.name, c.name);
    if Tied(le, a.name, c.name) {
      assert le(c.name, b.name) && le(b.name, a.name);
      assert le(a.version, b.version) && le(b.version, c.version);
    }
  }

  lemma ByEntryIsTotalPreorder(le: Collation)
    requires TotalPreorder(le)
    ensures TotalPreorder(ByEntry(le))
  {
    ByRefIsTotalPreorder(le);
    var ge := ByRef(le);
    forall a, b ensures ByEntry(le)(a, b) || ByEntry(le)(b, a) { assert ge(a.ref, b.ref) || ge(b.ref, a.ref); }
    forall a, b, c | ByEntry(le)(a, b) && ByEntry(le)(b, c) ensures ByEntry(le)(a, c) {
      RefLeTransitive(le, a.ref, b.ref, c.ref);
    }
  }

  lemma SortedEntries(le: Collation, es: seq<Entry>)
    requires OnePerRef(es)
    ensures TotalPreorder(le) ==> SortedBy(ByEntry(le), Sort(ByEntry(le), es))
    ensures OnePerRef(Sort(ByEntry(le), es))
    ensures forall e :: e in Sort(ByEntry(le), es) <==> e in es
  {
    var r := Sort(ByEntry(le), es);
    if TotalPreorder(le) {
      ByEntryIsTotalPreorder(le);
      SortIsSorted(ByEntry(le), es);
    }
    SameMembers(es, r);
    assert NoRepeats(es);
    ReorderingKeepsNoRepeats(es, r);
    forall i, j | 0 <= i < j < |r| ensures r[i].ref != r[j].ref {
      assert r[i] in es && r[j] in es && r[i] != r[j];
    }
  }

  // ---- The plan ----

  predicate ToolStepFor(step: FlowStep, ref: Ref) { step.ToolStep? && step.tool == ref.name && step.toolVersion == ref.version }

  /** The step's exact agent is registered, published or gray, and so is its exact prompt. */
  ghost predicate UsableAgent(w: World, step: FlowStep, a: AgentRecord) {
    && step.AgentStep? && step.agent != ""
    && (exists v :: step.agentVersion == Some(v) && v > 0 && (step.agent, v) in w.agents && w.agents[(step.agent, v)] == a)
    && a.status in {R.Published, R.Gray}
    && (exists p :: a.prompt == Some(p) && p in w.prompts && w.prompts[p] in {R.Published, R.Gray})
  }

  /** The tool text is in the list that holds for this step: the override for the step, else for its
    agent, else for all, else the agent's own. */
  ghost predicate Listed(flow: Flow, step: FlowStep, a: AgentRecord, text: string)
    requires step.AgentStep?
  {
    match flow.overrides
    case NoOverride => text in a.allowedTools
    case ForAll(list) => text in list
    case PerKey(lists) =>
      (step.id in lists && text in lists[step.id])
      || (step.id !in lists && step.agent in lists && text in lists[step.agent])
      || (step.id !in lists && step.agent !in lists && text in a.allowedTools)
  }

  /** The agent's own list is well formed, and what holds for the step stays within it. */
  ghost predicate ListsFine(flow: Flow, step: FlowStep, a: AgentRecord)
    requires step.AgentStep?
  {
    && (forall text :: text in a.allowedTools ==> exists r :: WellFormed(r) && RefText(r) == text)
    && (forall text :: Listed(flow, step, a, text) ==> text in a.allowedTools)
  }

  /** The tenant has no list of its own, or names the tool or this very version. */
  ghost predicate TenantPermits(w: World, ref: Ref) {
    forall list :: w.tenantTools == Some(list) ==> ref.name in list || ref.name + "@" + ref.version in list
  }

  ghost predicate AgentStepFor(w: World, flow: Flow, step: FlowStep, ref: Ref) {
    exists a :: UsableAgent(w, step, a) && ListsFine(flow, step, a)
                && WellFormed(ref) && Listed(flow, step, a, ref.name + "@" + ref.version) && TenantPermits(w, ref)
  }

  ghost predicate WantedBy(w: World, flow: Flow, step: FlowStep, ref: Ref) {
    ToolStepFor(step, ref) || AgentStepFor(w, flow, step, ref)
  }

  lemma AgentOfMeaning(w: World, step: FlowStep, a: AgentRecord)
    ensures UsableAgent(w, step, a) <==> step.AgentStep? && AgentOf(w, step) == Ok(a)
  {
    if step.AgentStep? && AgentOf(w, step).Ok? { assert step.agentVersion == Some(step.agentVersion.value); }
  }

  lemma WantedTexts(flow: Flow, step: FlowStep, a: AgentRecord, text: string)
    requires step.AgentStep?
    ensures var override := OverrideFor(flow.overrides, step.id, step.agent);
            Listed(flow, step, a, text) <==> text in (if override.Some? then override.value else a.allowedTools)
  {}

  lemma ParsesMeaning(text: string)
    ensures ParseRef(text).Some? <==> exists r :: WellFormed(r) && RefText(r) == text
  {
    if ParseRef(text).Some? { ParseReadsBack(text, ParseRef(text).value); }
    if r :| WellFormed(r) && RefText(r) == text { ParseReadsBack(text, r); }
  }

  /** What the agent of a step may use, and when its lists are refused. */
  lemma AgentRefsMeaning(w: World, flow: Flow, step: FlowStep, a: AgentRecord)
    requires UsableAgent(w, step, a)
    ensures AgentRefs(w, flow, step).Ok? <==> ListsFine(flow, step, a)
    ensures AgentRefs(w, flow, step).Ok? ==>
              forall ref :: ref in AgentRefs(w, flow, step).value
                <==> WellFormed(ref) && Listed(flow, step, a, ref.name + "@" + ref.version) && TenantPermits(w, ref)
  {
    var override := OverrideFor(flow.overrides, step.id, step.agent);
    AgentOfMeaning(w, step, a);
    AllowedRefsMeaning(a.allowedTools, override, w.tenantTools);
    forall text ensures ParseRef(text).Some? <==> exists r :: WellFormed(r) && RefText(r) == text { ParsesMeaning(text); }
    forall text ensures Listed(flow, step, a, text) <==> text in (if override.Some? then override.value else a.allowedTools) {
      WantedTexts(flow, step, a, text);
    }
    forall ref ensures TenantPermits(w, ref) <==> TenantAllows(w.tenantTools, ref) {}
  }

  lemma AgentStepForMeaning(w: World, flow: Flow, step: FlowStep, ref: Ref)
    ensures AgentStepFor(w, flow, step, ref)
            <==> step.AgentStep? && AgentRefs(w, flow, step).Ok? && ref in AgentRefs(w, flow, step).value
  {
    if a :| UsableAgent(w, step, a) && ListsFine(flow, step, a)
            && WellFormed(ref) && Listed(flow, step, a, ref.name + "@" + ref.version) && TenantPermits(w, ref) {
      AgentRefsMeaning(w, flow, step, a);
    }
    if step.AgentStep? && AgentRefs(w, flow, step).Ok? {
      var a := AgentOf(w, step).value;
      AgentOfMeaning(w, step, a);
      AgentRefsMeaning(w, flow, step, a);
    }
  }

  lemma StepAsks(w: World, flow: Flow, step: FlowStep, ref: Ref)
    ensures Asked(StepRequests(w, flow, step), ref) <==> WantedBy(w, flow, step, ref)
  {
    var qs := StepRequests(w, flow, step);
    AgentStepForMeaning(w, flow, step, ref);
    if AgentStepFor(w, flow, step, ref) {
      var refs := AgentRefs(w, flow, step).value;
      var i :| 0 <= i < |refs| && refs[i] == ref;
      assert qs[i] in qs && qs[i].ref == ref;
    }
    if ToolStepFor(step, ref) { assert qs[0] in qs; }
  }

  lemma AskedConcat(a: seq<Request>, b: seq<Request>, ref: Ref)
    ensures Asked(a + b, ref) <==> Asked(a, ref) || Asked(b, ref)
  {
    if Asked(a, ref) { var q :| q in a && q.ref == ref; assert q in a + b; }
    if Asked(b, ref) { var q :| q in b && q.ref == ref; assert q in a + b; }
  }

  lemma {:induction false} StepsAsk(w: World, flow: Flow, steps: seq<FlowStep>, ref: Ref)
    ensures Asked(Requests(w, flow, steps), ref) <==> exists s :: s in steps && WantedBy(w, flow, s, ref)
  {
    if steps != [] {
      var front, last := steps[..|steps| - 1], steps[|steps| - 1];
      StepsAsk(w, flow, front, ref);
      StepAsks(w, flow, last, ref);
      AskedConcat(Requests(w, flow, front), StepRequests(w, flow, last), ref);
      assert steps == front + [last];
    }
  }

  /** Some step of the flow asks for this version. */
  ghost predicate Wanted(w: World, ref: Ref) {
    w.flow.Some? && exists s :: s in w.flow.value.steps && WantedBy(w, w.flow.value, s, ref)
  }

  /** A plan pins exactly the tools its steps and agents use: a version has one entry if and only if a
    tool step names it or an agent may use it. Entries are in order of name, then version; each
    carries the hash and risk of that very published or gray manifest, and the first tool step that
    names it. */
  lemma PlanIsClosed(le: Collation, w: World)
    requires Build(le, w).Ok?
    ensures w.flow.Some?
    ensures var flow, tools := w.flow.value, Build(le, w).value.tools;
            && OnePerRef(tools)
            && (TotalPreorder(le) ==> SortedBy(ByEntry(le), tools))
            && (forall ref :: HasEntry(tools, ref) <==> Wanted(w, ref))
            && (forall e :: e in tools ==> Faithful(w, e) && e.stepId == FirstToolStep(flow.steps, e.ref))
  {
    var flow := w.flow.value;
    forall e: Entry ensures FirstStep(Requests(w, flow, flow.steps), e.ref) == FirstToolStep(flow.steps, e.ref) {
      FirstStepIsAToolStep(w, flow, flow.steps, e.ref);
    }
    var es := AddSteps(w, flow, flow.steps).value.entries;
    StepsCollect(w, flow, flow.steps);
    AddAllCollects(w, Requests(w, flow, flow.steps));
    SortedEntries(le, es);
    forall ref ensures HasEntry(Build(le, w).value.tools, ref) <==> Wanted(w, ref) {
      StepsAsk(w, flow, flow.steps, ref);
      assert HasEntry(Build(le, w).value.tools, ref) <==> HasEntry(es, ref);
    }
  }

  predicate StrictlyAscending(le: Collation, es: seq<Entry>) {
    forall i, j :: 0 <= i < j < |es| ==> !RefLe(le, es[j].ref, es[i].ref)
  }

  /** Two different versions the flow wants, which the order of the entries does not tell apart. */
  ghost predicate WantsTied(le: Collation, w: World) {
    exists x, y :: Wanted(w, x) && Wanted(w, y) && x != y && Tied(ByRef(le), x, y)
  }

  /** The entries ascend strictly exactly when no two wanted versions tie. */
  lemma StrictlyAscendsExactlyWhen(le: Collation, w: World)
    requires TotalPreorder(le) && Build(le, w).Ok?
    ensures StrictlyAscending(le, Build(le, w).value.tools) <==> !WantsTied(le, w)
  {
    var tools := Build(le, w).value.tools;
    PlanIsClosed(le, w);
    if x, y :| Wanted(w, x) && Wanted(w, y) && x != y && Tied(ByRef(le), x, y) {
      assert HasEntry(tools, x) && HasEntry(tools, y);
      TiedEntriesDoNotAscend(le, tools, x, y);
    }
    if i, j :| 0 <= i < j < |tools| && RefLe(le, tools[j].ref, tools[i].ref) {
      assert ByEntry(le)(tools[i], tools[j]);
      assert tools[i] in tools && tools[j] in tools;
      assert HasEntry(tools, tools[i].ref) && HasEntry(tools, tools[j].ref);
      assert Tied(ByRef(le), tools[i].ref, tools[j].ref);
    }
  }

  lemma TiedEntriesDoNotAscend(le: Collation, es: seq<Entry>, x: Ref, y: Ref)
    requires HasEntry(es, x) && HasEntry(es, y) && x != y && Tied(ByRef(le), x, y)
    ensures !StrictlyAscending(le, es)
  {
    var i :| 0 <= i < |es| && es[i].ref == x;
    var j :| 0 <= j < |es| && es[j].ref == y;
    assert RefLe(le, es[i].ref, es[j].ref) && RefLe(le, es[j].ref, es[i].ref);
  }

  /** Every entry is that of one exact registry row. */
  lemma EntriesArePinned(le: Collation, w: World, e: Entry)
    requires Build(le, w).Ok? && e in Build(le, w).value.tools
    ensures exists n :: Pinned(w, e.ref, n) && e.hash == w.tools[(e.ref.name, n)].hash && e.risk == w.tools[(e.ref.name, n)].risk
  {
    PlanIsClosed(le, w);
    ResolvesExactlyWhenPinned(w, Request(None, e.ref));
  }

  // ---- Agents ----

  lemma {:induction false} ParseAllMeaning(texts: seq<string>)
    ensures ParseAll(texts).Ok? <==> forall t :: t in texts ==> ParseRef(t).Some?
    ensures ParseAll(texts).Ok? ==> forall r :: r in ParseAll(texts).value <==> WellFormed(r) && RefText(r) in texts
  {
    if texts != [] {
      var front, last := texts[..|texts| - 1], texts[|texts| - 1];
      ParseAllMeaning(front);
      assert texts == front + [last];
      assert last in texts;
      if ParseAll(texts).Ok? {
        forall r ensures r in ParseAll(texts).value <==> WellFormed(r) && RefText(r) in texts { ParseReadsBack(last, r); }
      }
    }
  }

  lemma {:induction false} SelectMeaning(refs: seq<Ref>, keys: set<string>, tenant: Option<seq<string>>)
    ensures Select(refs, keys, tenant).Ok? <==> forall r :: r in refs ==> RefText(r) in keys
    ensures Select(refs, keys, tenant).Ok?
            ==> forall r :: r in Select(refs, keys, tenant).value <==> r in refs && TenantAllows(tenant, r)
  {
    if refs != [] {
      var front, last := refs[..|refs| - 1], refs[|refs| - 1];
      SelectMeaning(front, keys, tenant);
      assert refs == front + [last];
      assert last in refs;
    }
  }

  /** The tools selected for an agent are exactly the override's (or else the agent's own) that the
    tenant allows, and all of them are in the agent's own list. Selecting fails exactly when a
    reference is malformed or the override names a tool the agent does not have. */
  lemma AllowedRefsMeaning(agentTools: seq<string>, override: Option<seq<string>>, tenant: Option<seq<string>>)
    ensures var r := AllowedRefs(agentTools, override, tenant);
            var wanted := if override.Some? then override.value else agentTools;
            && (r.Ok? <==> && (forall t :: t in agentTools ==> ParseRef(t).Some?)
                           && (forall t :: t in wanted ==> t in agentTools))
            && (r.Ok? ==> forall ref :: ref in r.value
                            <==> WellFormed(ref) && RefText(ref) in wanted && TenantAllows(tenant, ref))
  {
    var wanted := if override.Some? then override.value else agentTools;
    ParseAllMeaning(agentTools);
    ParseAllMeaning(wanted);
    var own := ParseAll(agentTools);
    if own.Ok? && ParseAll(wanted).Ok? {
      SelectMeaning(ParseAll(wanted).value, Keys(own.value), tenant);
      KeysMeaning(agentTools);
      WantedInKeys(agentTools, wanted);
    } else if own.Ok? {
      var t :| t in wanted && ParseRef(t).None?;
      assert t !in agentTools;
    }
  }

  lemma KeysMeaning(texts: seq<string>)
    requires ParseAll(texts).Ok?
    ensures forall t :: t in Keys(ParseAll(texts).value) <==> t in texts
  {
    ParseAllMeaning(texts);
    forall t ensures t in Keys(ParseAll(texts).value) <==> t in texts {
      if t in texts {
        var r := ParseRef(t).value;
        ParseReadsBack(t, r);
        assert r in ParseAll(texts).value;
      }
    }
  }

  lemma WantedInKeys(agentTools: seq<string>, wanted: seq<string>)
    requires ParseAll(agentTools).Ok? && ParseAll(wanted).Ok?
    ensures (forall r :: r in ParseAll(wanted).value ==> RefText(r) in Keys(ParseAll(agentTools).value))
            <==> (forall t :: t in wanted ==> t in agentTools)
  {
    KeysMeaning(agentTools);
    KeysMeaning(wanted);
    ParseAllMeaning(wanted);
    var refs, keys := ParseAll(wanted).value, Keys(ParseAll(agentTools).value);
    if forall r :: r in refs ==> RefText(r) in keys {
      forall t | t in wanted ensures t in agentTools {
        assert t in Keys(refs);
        var r :| r in refs && RefText(r) == t;
      }
    }
  }

  lemma {:induction false} AllNamesMeaning(agents: seq<PlanAgent>, name: string)
    ensures name in AllNames(agents) <==> exists a :: a in agents && name in a.allowedTools
  {
    if agents != [] {
      var front, last := agents[..|agents| - 1], agents[|agents| - 1];
      AllNamesMeaning(front, name);
      assert agents == front + [last];
    }
  }

  predicate AscendingNames(names: seq<string>) {
    forall i, j :: 0 <= i < j < |names| ==> names[i] != names[j] && StringLe(names[i], names[j])
  }

  /** The tool names of the plan are those of its agents, each once, in ascending order. */
  lemma AllowedToolsOfPlan(le: Collation, w: World)
    requires Build(le, w).Ok?
    ensures var plan := Build(le, w).value;
            && AscendingNames(plan.allowedTools)
            && forall name :: name in plan.allowedTools <==> exists a :: a in plan.agents && name in a.allowedTools
  {
    var plan := Build(le, w).value;
    SortedNames(Dedup(AllNames(plan.agents)));
    forall name ensures name in plan.allowedTools <==> exists a :: a in plan.agents && name in a.allowedTools {
      AllNamesMeaning(plan.agents, name);
    }
  }

  lemma SortedNames(names: seq<string>)
    requires NoRepeats(names)
    ensures AscendingNames(Sort(StringLe, names))
    ensures forall name :: name in Sort(StringLe, names) <==> name in names
  {
    StringLeIsTotalOrder();
    SortIsSorted(StringLe, names);
    SameMembers(names, Sort(StringLe, names));
    ReorderingKeepsNoRepeats(names, Sort(StringLe, names));
  }

  // ---- When a plan can be built ----

  ghost predicate StepFine(w: World, flow: Flow, step: FlowStep) {
    match step
    case OtherStep(_) => true
    case ToolStep(_, tool, version) => tool != "" && version != "" && exists n :: Pinned(w, Ref(tool, version), n)
    case AgentStep(_, _, _) =>
      && (exists a :: UsableAgent(w, step, a) && ListsFine(flow, step, a) && a.compiles)
      && forall ref :: AgentStepFor(w, flow, step, ref) ==> exists n :: Pinned(w, ref, n)
  }

  lemma AgentStepFine(w: World, flow: Flow, step: FlowStep)
    requires step.AgentStep?
    ensures StepFine(w, flow, step)
            <==> && AgentOf(w, step).Ok? && AgentOf(w, step).value.compiles && AgentRefs(w, flow, step).Ok?
                 && forall ref :: ref in AgentRefs(w, flow, step).value ==> exists n :: Pinned(w, ref, n)
  {
    forall ref ensures AgentStepFor(w, flow, step, ref)
                       <==> AgentRefs(w, flow, step).Ok? && ref in AgentRefs(w, flow, step).value
    {
      AgentStepForMeaning(w, flow, step, ref);
    }
    forall a ensures UsableAgent(w, step, a) <==> AgentOf(w, step) == Ok(a) { AgentOfMeaning(w, step, a); }
    if AgentOf(w, step).Ok? { AgentRefsMeaning(w, flow, step, AgentOf(w, step).value); }
  }

  lemma AllResolveConcat(w: World, a: seq<Request>, b: seq<Request>)
    ensures AllResolve(w, a + b) <==> AllResolve(w, a) && AllResolve(w, b)
  {
    if AllResolve(w, a + b) {
      forall q | q in a || q in b ensures Resolve(w, q).Ok? { assert q in a + b; }
    }
  }

  lemma AddsExactlyWhenAllResolve(w: World, a: seq<Request>, b: seq<Request>)
    requires AddAll(w, [], a).Ok?
    ensures AddAll(w, AddAll(w, [], a).value, b).Ok? <==> AllResolve(w, b)
  {
    AddAllConcat(w, [], a, b);
    AddAllCollects(w, a);
    AddAllCollects(w, a + b);
    AllResolveConcat(w, a, b);
  }

  lemma ForAgentResolves(w: World, refs: seq<Ref>)
    ensures AllResolve(w, ForAgent(refs)) <==> forall ref :: ref in refs ==> exists n :: Pinned(w, ref, n)
  {
    var qs := ForAgent(refs);
    forall i | 0 <= i < |refs| ensures Resolve(w, qs[i]).Ok? <==> exists n :: Pinned(w, refs[i], n) {
      ResolvesExactlyWhenPinned(w, qs[i]);
    }
    if AllResolve(w, qs) {
      forall ref | ref in refs ensures exists n :: Pinned(w, ref, n) {
        var i :| 0 <= i < |refs| && refs[i] == ref;
        assert qs[i] in qs;
      }
    } else {
      var q :| q in qs && Resolve(w, q).Err?;
      var i :| 0 <= i < |qs| && qs[i] == q;
      assert refs[i] in refs;
    }
  }

  lemma StepSucceedsExactlyWhenFine(w: World, flow: Flow, d: Progress, a: seq<Request>, step: FlowStep)
    requires AddAll(w, [], a) == Ok(d.entries)
    ensures AddStep(w, flow, d, step).Ok? <==> StepFine(w, flow, step)
  {
    match step {
      case OtherStep(_) =>
      case ToolStep(id, tool, version) =>
        var q := Request(Some(id), Ref(tool, version));
        AddsExactlyWhenAllResolve(w, a, [q]);
        AddAllOne(w, d.entries, q);
        assert AllResolve(w, [q]) <==> Resolve(w, q).Ok?;
        ResolvesExactlyWhenPinned(w, q);
      case AgentStep(_, _, _) =>
        AgentStepFine(w, flow, step);
        if AgentRefs(w, flow, step).Ok? {
          var refs := AgentRefs(w, flow, step).value;
          AddsExactlyWhenAllResolve(w, a, ForAgent(refs));
          ForAgentResolves(w, refs);
        }
    }
  }

  lemma {:induction false} StepsSucceedExactlyWhenFine(w: World, flow: Flow, steps: seq<FlowStep>)
    ensures AddSteps(w, flow, steps).Ok? <==> forall s :: s in steps ==> StepFine(w, flow, s)
  {
    if steps != [] {
      var front, last := steps[..|steps| - 1], steps[|steps| - 1];
      StepsSucceedExactlyWhenFine(w, flow, front);
      assert steps == front + [last];
      assert last in steps;
      if AddSteps(w, flow, front).Ok? {
        StepsCollect(w, flow, front);
        StepSucceedsExactlyWhenFine(w, flow, AddSteps(w, flow, front).value, Requests(w, flow, front), last);
      }
    }
  }

  /** A plan is built exactly when the flow is published or gray and every step is fine: its tool is
    pinned, or its agent is usable and every tool it may use is pinned. No hash conflict can occur. */
  lemma BuildSucceedsExactlyWhen(le: Collation, w: World)
    ensures Build(le, w).Ok?
            <==> && w.flow.Some? && w.flow.value.status in {R.Published, R.Gray}
                 && forall s :: s in w.flow.value.steps ==> StepFine(w, w.flow.value, s)
  {
    if w.flow.Some? { StepsSucceedExactlyWhenFine(w, w.flow.value, w.flow.value.steps); }
  }

  // ---- Agents and budgets of a plan ----

  /** The plan's agent is the registered one of the step, with what the step lets it use. */
  ghost predicate AgentOfStep(w: World, flow: Flow, s: FlowStep, p: PlanAgent) {
    exists a :: UsableAgent(w, s, a) && p.stepId == s.id && p.agent == s.agent && s.agentVersion == Some(p.version)
                && p.maxSteps == a.maxSteps && p.maxTokens == a.maxTokens
                && forall name :: name in p.allowedTools <==> exists ref :: AgentStepFor(w, flow, s, ref) && ref.name == name
  }

  lemma NamesMeaning(refs: seq<Ref>, name: string)
    ensures name in NamesOf(refs) <==> exists ref :: ref in refs && ref.name == name
  {
    var names := NamesOf(refs);
    if name in names {
      var i :| 0 <= i < |names| && names[i] == name;
      assert refs[i] in refs;
    }
    if ref :| ref in refs && ref.name == name {
      var i :| 0 <= i < |refs| && refs[i] == ref;
      assert names[i] == name;
    }
  }

  lemma StepAgentMeaning(w: World, flow: Flow, s: FlowStep)
    requires StepFine(w, flow, s) && s.AgentStep?
    ensures |StepAgents(w, flow, s)| == 1 && AgentOfStep(w, flow, s, StepAgents(w, flow, s)[0])
  {
    AgentStepFine(w, flow, s);
    var a, refs := AgentOf(w, s).value, AgentRefs(w, flow, s).value;
    AgentOfMeaning(w, s, a);
    var p := StepAgents(w, flow, s)[0];
    forall name ensures name in p.allowedTools <==> exists ref :: AgentStepFor(w, flow, s, ref) && ref.name == name {
      NamesMeaning(refs, name);
      forall ref ensures AgentStepFor(w, flow, s, ref) <==> ref in refs { AgentStepForMeaning(w, flow, s, ref); }
    }
  }

  /** The agent steps, in order. */
  function AgentSteps(steps: seq<FlowStep>): seq<FlowStep> {
    if steps == [] then []
    else AgentSteps(steps[..|steps| - 1]) + if steps[|steps| - 1].AgentStep? then [steps[|steps| - 1]] else []
  }

  lemma {:induction false} AgentsFollowSteps(w: World, flow: Flow, steps: seq<FlowStep>)
    requires forall s :: s in steps ==> StepFine(w, flow, s)
    ensures var ss, ps := AgentSteps(steps), AgentsOf(w, flow, steps);
            |ps| == |ss| && forall i :: 0 <= i < |ss| ==> AgentOfStep(w, flow, ss[i], ps[i])
  {
    if steps != [] {
      var front, last := steps[..|steps| - 1], steps[|steps| - 1];
      assert steps == front + [last];
      AgentsFollowSteps(w, flow, front);
      if last.AgentStep? { StepAgentMeaning(w, flow, last); }
    }
  }

  ghost predicate SumOf(n: nat, values: seq<nat>)
    decreases |values|
  {
    if values == [] then n == 0 else n >= values[|values| - 1] && SumOf(n - values[|values| - 1], values[..|values| - 1])
  }

  function StepLimits(agents: seq<PlanAgent>): seq<nat> { seq(|agents|, i requires 0 <= i < |agents| => agents[i].maxSteps) }

  function TokenLimits(agents: seq<PlanAgent>): seq<nat> { seq(|agents|, i requires 0 <= i < |agents| => agents[i].maxTokens) }

  lemma {:induction false} TotalsAreSums(agents: seq<PlanAgent>)
    ensures SumOf(Total(agents, MaxSteps), StepLimits(agents)) && SumOf(Total(agents, MaxTokens), TokenLimits(agents))
  {
    if agents != [] {
      var front := agents[..|agents| - 1];
      TotalsAreSums(front);
      assert StepLimits(agents)[..|agents| - 1] == StepLimits(front) && TokenLimits(agents)[..|agents| - 1] == TokenLimits(front);
    }
  }

  /** The plan has one agent for each agent step, in order, with that agent's own limits, and its two
    budgets are the sums of its agents' steps and of their tokens. */
  lemma PlanBudgets(le: Collation, w: World)
    requires Build(le, w).Ok?
    ensures w.flow.Some?
    ensures var plan, flow := Build(le, w).value, w.flow.value; var ss := AgentSteps(flow.steps);
            && |plan.agents| == |ss| && (forall i :: 0 <= i < |ss| ==> AgentOfStep(w, flow, ss[i], plan.agents[i]))
            && SumOf(plan.maxSteps, StepLimits(plan.agents)) && SumOf(plan.maxTokens, TokenLimits(plan.agents))
  {
    var flow := w.flow.value;
    BuildSucceedsExactlyWhen(le, w);
    StepsCollect(w, flow, flow.steps);
    AgentsFollowSteps(w, flow, flow.steps);
    TotalsAreSums(Build(le, w).value.agents);
  }

  // ---- The step an entry is recorded under ----

  /** The id of the first tool step that names the version. */
  function FirstToolStep(steps: seq<FlowStep>, ref: Ref): Option<string> {
    if steps == [] then None
    else
      var before := FirstToolStep(steps[..|steps| - 1], ref);
      var last := steps[|steps| - 1];
      if before.Some? then before
      else if ToolStepFor(last, ref) && last.id != "" then Some(last.id) else None
  }

  lemma {:induction false} FirstStepConcat(a: seq<Request>, b: seq<Request>, ref: Ref)
    ensures FirstStep(a + b, ref) == if FirstStep(a, ref).Some? then FirstStep(a, ref) else FirstStep(b, ref)
    decreases |b|
  {
    if b == [] {
      assert a + b == a;
    } else {
      var front := b[..|b| - 1];
      FirstStepConcat(a, front, ref);
      assert (a + b)[..|a + b| - 1] == a + front;
    }
  }

  lemma {:induction false} AgentsAreNoFirstStep(refs: seq<Ref>, ref: Ref)
    ensures FirstStep(ForAgent(refs), ref) == None
  {
    if refs != [] {
      AgentsAreNoFirstStep(refs[..|refs| - 1], ref);
      assert ForAgent(refs)[..|refs| - 1] == ForAgent(refs[..|refs| - 1]);
    }
  }

  lemma {:induction false} FirstStepIsAToolStep(w: World, flow: Flow, steps: seq<FlowStep>, ref: Ref)
    ensures FirstStep(Requests(w, flow, steps), ref) == FirstToolStep(steps, ref)
  {
    if steps != [] {
      var front, last := steps[..|steps| - 1], steps[|steps| - 1];
      FirstStepIsAToolStep(w, flow, front, ref);
      FirstStepConcat(Requests(w, flow, front), StepRequests(w, flow, last), ref);
      if last.AgentStep? && AgentRefs(w, flow, last).Ok? { AgentsAreNoFirstStep(AgentRefs(w, flow, last).value, ref); }
      if last.ToolStep? { assert StepRequests(w, flow, last)[..0] == []; }
    }
  }
}
