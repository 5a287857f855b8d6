/** What the order of a flow's steps decides in its plan. */
module FlowOrder {
  import R = Registry
  import opened Results
  import opened Lists
  import opened Sorting
  import opened Texts
  import opened FlowPlan
  import opened FlowPlanLaws

  // ---- Agents ----

  /** How often a step adds this agent. */
  function AgentCounter(w: World, flow: Flow, p: PlanAgent): FlowStep -> nat { s => multiset(StepAgents(w, flow, s))[p] }

  lemma {:induction false} AgentsAreCounted(w: World, flow: Flow, steps: seq<FlowStep>, p: PlanAgent)
    ensures multiset(AgentsOf(w, flow, steps))[p] == Total(steps, AgentCounter(w, flow, p))
  {
    if steps != [] { AgentsAreCounted(w, flow, steps[..|steps| - 1], p); }
  }

  lemma AgentsForgetOrder(w: World, flow: Flow, a: seq<FlowStep>, b: seq<FlowStep>)
    requires multiset(a) == multiset(b)
    ensures multiset(AgentsOf(w, flow, a)) == multiset(AgentsOf(w, flow, b))
  {
    forall p ensures multiset(AgentsOf(w, flow, a))[p] == multiset(AgentsOf(w, flow, b))[p] {
      AgentsAreCounted(w, flow, a, p);
      AgentsAreCounted(w, flow, b, p);
      TotalForgetsOrder(a, b, AgentCounter(w, flow, p));
    }
  }

  /** `v` is the same world with the steps of its flow in another order. */
  ghost predicate Reordered(w: World, v: World) {
    && w.flow.Some? && v.flow.Some? && multiset(w.flow.value.steps) == multiset(v.flow.value.steps)
    && v == w.(flow := Some(w.flow.value.(steps := v.flow.value.steps)))
  }

  /** The flow of the two worlds differs in its steps only, which no step reads. */
  lemma StepsReadNoSteps(w: World, v: World, s: FlowStep)
    requires Reordered(w, v)
    ensures StepRequests(w, w.flow.value, s) == StepRequests(v, v.flow.value, s)
    ensures StepAgents(w, w.flow.value, s) == StepAgents(v, v.flow.value, s)
    ensures StepFine(w, w.flow.value, s) <==> StepFine(v, v.flow.value, s)
    ensures forall ref :: WantedBy(w, w.flow.value, s, ref) <==> WantedBy(v, v.flow.value, s, ref)
  {
    if s.AgentStep? {
      assert AgentOf(w, s) == AgentOf(v, s);
      assert AgentRefs(w, w.flow.value, s) == AgentRefs(v, v.flow.value, s);
      AgentStepFine(w, w.flow.value, s);
      AgentStepFine(v, v.flow.value, s);
    }
    forall ref, n ensures Pinned(w, ref, n) <==> Pinned(v, ref, n) {}
    forall ref ensures WantedBy(w, w.flow.value, s, ref) <==> WantedBy(v, v.flow.value, s, ref) {
      AgentStepForMeaning(w, w.flow.value, s, ref);
      AgentStepForMeaning(v, v.flow.value, s, ref);
    }
  }

  lemma {:induction false} AgentsReadNoSteps(w: World, v: World, steps: seq<FlowStep>)
    requires Reordered(w, v)
    ensures AgentsOf(w, w.flow.value, steps) == AgentsOf(v, v.flow.value, steps)
  {
    if steps != [] {
      AgentsReadNoSteps(w, v, steps[..|steps| - 1]);
      StepsReadNoSteps(w, v, steps[|steps| - 1]);
    }
  }

  lemma SameStepsInReordered(w: World, v: World, s: FlowStep)
    requires Reordered(w, v)
    ensures s in w.flow.value.steps <==> s in v.flow.value.steps
  {
    assert s in w.flow.value.steps <==> s in multiset(w.flow.value.steps);
    assert s in v.flow.value.steps <==> s in multiset(v.flow.value.steps);
  }

  lemma ReorderedBuildsAlike(le: Collation, w: World, v: World)
    requires Reordered(w, v)
    ensures Build(le, w).Ok? <==> Build(le, v).Ok?
  {
    BuildSucceedsExactlyWhen(le, w);
    BuildSucceedsExactlyWhen(le, v);
    forall s ensures s in w.flow.value.steps <==> s in v.flow.value.steps { SameStepsInReordered(w, v, s); }
    forall s ensures StepFine(w, w.flow.value, s) <==> StepFine(v, v.flow.value, s) { StepsReadNoSteps(w, v, s); }
  }

  lemma BuiltAgents(le: Collation, w: World)
    requires Build(le, w).Ok?
    ensures w.flow.Some? && Build(le, w).value.agents == AgentsOf(w, w.flow.value, w.flow.value.steps)
  {
    StepsCollect(w, w.flow.value, w.flow.value.steps);
  }

  lemma ReorderedAgents(le: Collation, w: World, v: World)
    requires Reordered(w, v) && Build(le, w).Ok? && Build(le, v).Ok?
    ensures multiset(Build(le, w).value.agents) == multiset(Build(le, v).value.agents)
  {
    BuiltAgents(le, w);
    BuiltAgents(le, v);
    AgentsReadNoSteps(w, v, v.flow.value.steps);
    AgentsForgetOrder(w, w.flow.value, w.flow.value.steps, v.flow.value.steps);
  }

  lemma SameAgentsSameNames(a: seq<PlanAgent>, b: seq<PlanAgent>)
    requires multiset(a) == multiset(b)
    ensures Sort(StringLe, Dedup(AllNames(a))) == Sort(StringLe, Dedup(AllNames(b)))
  {
    var x, y := Dedup(AllNames(a)), Dedup(AllNames(b));
    forall name ensures name in x <==> name in y {
      AllNamesMeaning(a, name);
      AllNamesMeaning(b, name);
      forall p ensures p in a <==> p in b {
        assert p in a <==> p in multiset(a);
        assert p in b <==> p in multiset(b);
      }
    }
    SameElements(x, y);
    StringLeIsTotalOrder();
    SortForgetsOrder(StringLe, x, y);
  }

  // ---- Which of two elements comes first ----

  /** `x` comes before any `y`. */
  predicate ComesFirst<T(==)>(s: seq<T>, x: T, y: T) {
    s != [] && (ComesFirst(s[..|s| - 1], x, y) || (s[|s| - 1] == x && y !in s[..|s| - 1]))
  }

  lemma PrecedesInFront<T>(s: seq<T>, e: T, x: T, y: T)
    ensures Precedes(s + [e], x, y) <==> Precedes(s, x, y) || (y == e && x in s)
  {
    var r := s + [e];
    if Precedes(s, x, y) {
      var i, j :| 0 <= i < j < |s| && s[i] == x && s[j] == y;
      assert r[i] == x && r[j] == y;
    }
    if y == e && x in s {
      var i :| 0 <= i < |s| && s[i] == x;
      assert r[i] == x && r[|s|] == y;
    }
  }

  lemma {:induction false} ComesFirstIsIn<T>(s: seq<T>, x: T, y: T)
    ensures ComesFirst(s, x, y) ==> x in s
    ensures x in s && y !in s ==> ComesFirst(s, x, y)
  {
    if s != [] {
      ComesFirstIsIn(s[..|s| - 1], x, y);
      assert s == s[..|s| - 1] + [s[|s| - 1]];
    }
  }

  lemma {:induction false} DedupKeepsFirst<T(!new)>(s: seq<T>, x: T, y: T)
    requires x != y
    ensures Precedes(Dedup(s), x, y) <==> ComesFirst(s, x, y) && y in s
  {
    if s != [] {
      var front, e := s[..|s| - 1], s[|s| - 1];
      DedupKeepsFirst(front, x, y);
      ComesFirstIsIn(front, x, y);
      PrecedesInFront(Dedup(front), e, x, y);
      assert s == front + [e];
      if y == e && y in front { assert Precedes(Dedup(front), x, y) <==> ComesFirst(front, x, y); }
    }
  }

  lemma {:induction false} ComesFirstConcat<T>(a: seq<T>, b: seq<T>, x: T, y: T)
    requires x != y
    ensures ComesFirst(a + b, x, y) <==> ComesFirst(a, x, y) || (y !in a && ComesFirst(b, x, y))
    decreases |b|
  {
    if b == [] {
      assert a + b == a;
    } else {
      var front, e := b[..|b| - 1], b[|b| - 1];
      ComesFirstConcat(a, front, x, y);
      assert (a + b)[..|a + b| - 1] == a + front;
    }
  }

  // ---- The order the tools are collected in ----

  function AskedRefs(qs: seq<Request>): (r: seq<Ref>)
    ensures |r| == |qs| && forall i :: 0 <= i < |r| ==> r[i] == qs[i].ref
  {
    seq(|qs|, i requires 0 <= i < |qs| => qs[i].ref)
  }

  lemma RefsOfFind(es: seq<Entry>, ref: Ref)
    ensures Find(es, ref) < |es| <==> ref in RefsOf(es)
  {
    var refs := RefsOf(es);
    if Find(es, ref) < |es| { assert refs[Find(es, ref)] == ref; }
    if ref in refs {
      var i :| 0 <= i < |refs| && refs[i] == ref;
      assert es[i].ref == ref;
    }
  }

  lemma RefsOfAdded(es: seq<Entry>, e: Entry)
    requires AddEntry(es, e).Ok?
    ensures RefsOf(AddEntry(es, e).value) == if e.ref in RefsOf(es) then RefsOf(es) else RefsOf(es) + [e.ref]
  {
    RefsOfFind(es, e.ref);
    var t := AddEntry(es, e).value;
    if e.ref in RefsOf(es) {
      assert RefsOf(t) == RefsOf(es);
    } else {
      assert RefsOf(t) == RefsOf(es) + [e.ref];
    }
  }

  lemma RefsOfAskedOneMore(w: World, es: seq<Entry>, q: Request)
    requires AddRequest(w, es, q).Ok?
    ensures RefsOf(AddRequest(w, es, q).value) == if q.ref in RefsOf(es) then RefsOf(es) else RefsOf(es) + [q.ref]
  {
    RefsOfAdded(es, Resolve(w, q).value);
  }

  lemma DedupOneMore<T(!new)>(s: seq<T>, x: T)
    ensures Dedup(s + [x]) == if x in Dedup(s) then Dedup(s) else Dedup(s) + [x]
  {
    assert (s + [x])[..|s|] == s;
  }

  lemma AskedRefsOneMore(qs: seq<Request>)
    requires qs != []
    ensures AskedRefs(qs) == AskedRefs(qs[..|qs| - 1]) + [qs[|qs| - 1].ref]
  {}

  lemma {:induction false} CollectedInOrder(w: World, qs: seq<Request>)
    requires AddAll(w, [], qs).Ok?
    ensures RefsOf(AddAll(w, [], qs).value) == Dedup(AskedRefs(qs))
  {
    if qs == [] {
      assert AskedRefs(qs) == [] && RefsOf([]) == [];
    } else {
      var front, q := qs[..|qs| - 1], qs[|qs| - 1];
      CollectedInOrder(w, front);
      RefsOfAskedOneMore(w, AddAll(w, [], front).value, q);
      AskedRefsOneMore(qs);
      DedupOneMore(AskedRefs(front), q.ref);
    }
  }

  /** The versions a list of steps asks for, each where it is first asked for. */
  function InOrder(w: World, flow: Flow, steps: seq<FlowStep>): seq<Ref> { Dedup(AskedRefs(Requests(w, flow, steps))) }

  function ToolRefs(w: World): seq<Ref>
    requires w.flow.Some?
  {
    InOrder(w, w.flow.value, w.flow.value.steps)
  }

  lemma ToolsAreSorted(le: Collation, w: World)
    requires Build(le, w).Ok?
    ensures w.flow.Some? && RefsOf(Build(le, w).value.tools) == Sort(ByRef(le), ToolRefs(w))
  {
    var flow := w.flow.value;
    StepsCollect(w, flow, flow.steps);
    CollectedInOrder(w, Requests(w, flow, flow.steps));
    SortImage(ByEntry(le), ByRef(le), RefOf, AddSteps(w, flow, flow.steps).value.entries);
  }

  // ---- The tools without the step each is recorded under ----

  function Anonymous(es: seq<Entry>): seq<Entry> {
    seq(|es|, i requires 0 <= i < |es| => es[i].(stepId := None))
  }

  lemma SameRefsSameEntries(w: World, a: seq<Entry>, b: seq<Entry>)
    requires forall e :: e in a || e in b ==> Faithful(w, e)
    ensures Anonymous(a) == Anonymous(b) <==> RefsOf(a) == RefsOf(b)
  {
    if Anonymous(a) == Anonymous(b) {
      assert |a| == |Anonymous(a)| == |b|;
      forall i | 0 <= i < |a| ensures RefsOf(a)[i] == RefsOf(b)[i] {
        assert Anonymous(a)[i] == Anonymous(b)[i];
      }
    }
    if RefsOf(a) == RefsOf(b) {
      assert |a| == |RefsOf(a)| == |b|;
      forall i | 0 <= i < |a| ensures Anonymous(a)[i] == Anonymous(b)[i] {
        assert a[i] in a && b[i] in b && RefsOf(a)[i] == RefsOf(b)[i];
      }
    }
  }

  lemma FaithfulReadsTools(w: World, v: World, e: Entry)
    requires w.tools == v.tools
    ensures Faithful(w, e) <==> Faithful(v, e)
  {}

  predicate SameTools(le: Collation, w: World, v: World)
    requires Build(le, w).Ok?
  {
    Build(le, v).Ok? && Anonymous(Build(le, v).value.tools) == Anonymous(Build(le, w).value.tools)
  }

  lemma SameToolsExactlyWhenSameRefs(le: Collation, w: World, v: World)
    requires Reordered(w, v) && Build(le, w).Ok?
    ensures SameTools(le, w, v) <==> Sort(ByRef(le), ToolRefs(w)) == Sort(ByRef(le), ToolRefs(v))
  {
    ReorderedBuildsAlike(le, w, v);
    PlanIsClosed(le, w);
    PlanIsClosed(le, v);
    ToolsAreSorted(le, w);
    ToolsAreSorted(le, v);
    var a, b := Build(le, w).value.tools, Build(le, v).value.tools;
    forall e | e in b ensures Faithful(w, e) { FaithfulReadsTools(w, v, e); }
    SameRefsSameEntries(w, a, b);
  }

  lemma ReorderedWants(w: World, v: World, ref: Ref)
    requires Reordered(w, v)
    ensures Wanted(w, ref) <==> Wanted(v, ref)
  {
    if s :| s in w.flow.value.steps && WantedBy(w, w.flow.value, s, ref) {
      SameStepsInReordered(w, v, s);
      StepsReadNoSteps(w, v, s);
      assert s in v.flow.value.steps && WantedBy(v, v.flow.value, s, ref);
    }
    if s :| s in v.flow.value.steps && WantedBy(v, v.flow.value, s, ref) {
      SameStepsInReordered(w, v, s);
      StepsReadNoSteps(w, v, s);
      assert s in w.flow.value.steps && WantedBy(w, w.flow.value, s, ref);
    }
  }

  lemma AskedRefsMember(qs: seq<Request>, ref: Ref)
    ensures ref in AskedRefs(qs) <==> Asked(qs, ref)
  {
    if Asked(qs, ref) {
      var i :| 0 <= i < |qs| && qs[i].ref == ref;
      assert AskedRefs(qs)[i] == ref;
    }
    if ref in AskedRefs(qs) {
      var i :| 0 <= i < |qs| && AskedRefs(qs)[i] == ref;
      assert qs[i] in qs;
    }
  }

  lemma ToolRefsMember(w: World, ref: Ref)
    requires w.flow.Some?
    ensures ref in ToolRefs(w) <==> Wanted(w, ref)
  {
    AskedRefsMember(Requests(w, w.flow.value, w.flow.value.steps), ref);
    StepsAsk(w, w.flow.value, w.flow.value.steps, ref);
  }

  lemma ReorderedToolRefs(w: World, v: World)
    requires Reordered(w, v)
    ensures multiset(ToolRefs(w)) == multiset(ToolRefs(v))
  {
    forall ref ensures ref in ToolRefs(w) <==> ref in ToolRefs(v) {
      ToolRefsMember(w, ref);
      ToolRefsMember(v, ref);
      ReorderedWants(w, v, ref);
    }
    SameElements(ToolRefs(w), ToolRefs(v));
  }

  lemma SameToolsExactlyWhenTiesAgree(le: Collation, w: World, v: World)
    requires TotalPreorder(le) && Reordered(w, v) && Build(le, w).Ok?
    ensures SameTools(le, w, v) <==> AgreeOnTies(ByRef(le), ToolRefs(w), ToolRefs(v))
  {
    SameToolsExactlyWhenSameRefs(le, w, v);
    ReorderedToolRefs(w, v);
    ByRefIsTotalPreorder(le);
    SortAgreesExactlyWhen(ByRef(le), ToolRefs(w), ToolRefs(v));
  }

  // ---- Steps that ask for tied versions in another order ----

  /** The step asks for `x`, and not for `y` before that. */
  predicate Leads(w: World, s: FlowStep, x: Ref, y: Ref) {
    w.flow.Some? && s in w.flow.value.steps && ComesFirst(AskedRefs(StepRequests(w, w.flow.value, s)), x, y)
  }

  /** Two steps would put two tied versions in opposite orders. */
  ghost predicate Contested(le: Collation, w: World) {
    exists x, y, s, t :: x != y && Tied(ByRef(le), x, y) && Leads(w, s, x, y) && Leads(w, t, y, x)
  }

  lemma AskedRefsConcat(a: seq<Request>, b: seq<Request>)
    ensures AskedRefs(a + b) == AskedRefs(a) + AskedRefs(b)
  {}

  lemma {:induction false} FirstRequestsFirst(w: World, flow: Flow, steps: seq<FlowStep>)
    requires steps != []
    ensures StepRequests(w, flow, steps[0]) <= Requests(w, flow, steps)
  {
    var front := steps[..|steps| - 1];
    if front == [] {
      assert Requests(w, flow, front) == [];
    } else {
      FirstRequestsFirst(w, flow, front);
    }
  }

  lemma {:induction false} SomeStepLeads(w: World, flow: Flow, steps: seq<FlowStep>, x: Ref, y: Ref) returns (s: FlowStep)
    requires x != y && ComesFirst(AskedRefs(Requests(w, flow, steps)), x, y)
    ensures s in steps && ComesFirst(AskedRefs(StepRequests(w, flow, s)), x, y)
  {
    var front, last := steps[..|steps| - 1], steps[|steps| - 1];
    var a, b := Requests(w, flow, front), StepRequests(w, flow, last);
    AskedRefsConcat(a, b);
    ComesFirstConcat(AskedRefs(a), AskedRefs(b), x, y);
    if ComesFirst(AskedRefs(a), x, y) {
      s := SomeStepLeads(w, flow, front, x, y);
    } else {
      s := last;
    }
  }

  lemma LeaderOf(w: World, v: World, x: Ref, y: Ref) returns (s: FlowStep)
    requires Reordered(w, v) && x != y && Precedes(ToolRefs(v), x, y)
    ensures Leads(w, s, x, y)
  {
    var flow := v.flow.value;
    DedupKeepsFirst(AskedRefs(Requests(v, flow, flow.steps)), x, y);
    s := SomeStepLeads(v, flow, flow.steps, x, y);
    StepsReadNoSteps(w, v, s);
    SameStepsInReordered(w, v, s);
  }

  lemma DisagreementIsContested(le: Collation, w: World, v: World)
    requires Reordered(w, v) && !AgreeOnTies(ByRef(le), ToolRefs(w), ToolRefs(v))
    ensures Contested(le, w)
  {
    var x, y :| Tied(ByRef(le), x, y) && Precedes(ToolRefs(w), x, y) && !Precedes(ToolRefs(v), x, y);
    assert x in ToolRefs(w) && y in ToolRefs(w) && x != y;
    ReorderedToolRefs(w, v);
    SameMembers(ToolRefs(w), ToolRefs(v));
    OneOrderOnly(ToolRefs(v), x, y);
    var s := LeaderOf(w, w, x, y);
    var t := LeaderOf(w, v, y, x);
    assert Leads(w, s, x, y) && Leads(w, t, y, x);
  }

  /** The same flow with one of its steps first. */
  lemma MovedFirst(w: World, s: FlowStep) returns (v: World)
    requires w.flow.Some? && s in w.flow.value.steps
    ensures Reordered(w, v) && v.flow.value.steps != [] && v.flow.value.steps[0] == s
  {
    var flow := w.flow.value;
    var i :| 0 <= i < |flow.steps| && flow.steps[i] == s;
    var steps := [s] + Drop(flow.steps, i);
    PutBack(flow.steps, i);
    v := w.(flow := Some(flow.(steps := steps)));
  }

  lemma FirstStepLeads(w: World, v: World, s: FlowStep, x: Ref, y: Ref)
    requires Reordered(w, v) && v.flow.value.steps != [] && v.flow.value.steps[0] == s
    requires x != y && Leads(w, s, x, y) && y in ToolRefs(v)
    ensures Precedes(ToolRefs(v), x, y)
  {
    var flow := v.flow.value;
    StepsReadNoSteps(w, v, s);
    FirstRequestsFirst(v, flow, flow.steps);
    var all, a := Requests(v, flow, flow.steps), StepRequests(v, flow, s);
    assert all == a + all[|a|..];
    AskedRefsConcat(a, all[|a|..]);
    ComesFirstConcat(AskedRefs(a), AskedRefs(all[|a|..]), x, y);
    DedupKeepsFirst(AskedRefs(all), x, y);
  }

  lemma LeadsIsWanted(w: World, s: FlowStep, x: Ref, y: Ref)
    requires Leads(w, s, x, y)
    ensures Wanted(w, x)
  {
    ComesFirstIsIn(AskedRefs(StepRequests(w, w.flow.value, s)), x, y);
    AskedRefsMember(StepRequests(w, w.flow.value, s), x);
    StepAsks(w, w.flow.value, s, x);
  }

  /** With the step that puts `x` first in front, `x` precedes `y`. */
  lemma LeaderInFront(w: World, s: FlowStep, t: FlowStep, x: Ref, y: Ref) returns (v: World)
    requires x != y && Leads(w, s, x, y) && Leads(w, t, y, x)
    ensures Reordered(w, v) && Precedes(ToolRefs(v), x, y)
  {
    v := MovedFirst(w, s);
    LeadsIsWanted(w, t, y, x);
    ToolRefsMember(v, y);
    ReorderedWants(w, v, y);
    FirstStepLeads(w, v, s, x, y);
  }

  lemma ContestIsSeen(le: Collation, w: World) returns (v: World)
    requires Contested(le, w)
    ensures Reordered(w, v) && !AgreeOnTies(ByRef(le), ToolRefs(w), ToolRefs(v))
  {
    var x, y, s, t :| x != y && Tied(ByRef(le), x, y) && Leads(w, s, x, y) && Leads(w, t, y, x);
    var a := LeaderInFront(w, s, t, x, y);
    var b := LeaderInFront(w, t, s, y, x);
    LeadsIsWanted(w, s, x, y);
    LeadsIsWanted(w, t, y, x);
    ToolRefsMember(w, x);
    ToolRefsMember(w, y);
    OneOrderOnly(ToolRefs(w), x, y);
    if Precedes(ToolRefs(w), x, y) {
      v := b;
      NotBoth(w, v, y, x);
      assert Tied(ByRef(le), x, y);
    } else {
      v := a;
      NotBoth(w, v, x, y);
      assert Tied(ByRef(le), y, x);
    }
  }

  lemma NotBoth(w: World, v: World, x: Ref, y: Ref)
    requires w.flow.Some? && v.flow.Some? && x != y && Precedes(ToolRefs(v), x, y)
    ensures !Precedes(ToolRefs(v), y, x)
  {
    assert x in ToolRefs(v) && y in ToolRefs(v);
    OneOrderOnly(ToolRefs(v), x, y);
  }

  /** The tools of the plan are the same for every order of the steps exactly when no two steps would
    put two tied versions in opposite orders. */
  lemma ToolsForgetStepOrderExactlyWhen(le: Collation, w: World)
    requires TotalPreorder(le) && Build(le, w).Ok?
    ensures (forall v :: Reordered(w, v) ==> SameTools(le, w, v)) <==> !Contested(le, w)
  {
    if Contested(le, w) {
      var v := ContestIsSeen(le, w);
      SameToolsExactlyWhenTiesAgree(le, w, v);
    } else {
      forall v | Reordered(w, v) ensures SameTools(le, w, v) {
        SameToolsExactlyWhenTiesAgree(le, w, v);
        if !AgreeOnTies(ByRef(le), ToolRefs(w), ToolRefs(v)) { DisagreementIsContested(le, w, v); }
      }
    }
  }

  /** One step never asks for two versions in both orders: tied tools of one agent keep one order. */
  lemma OneStepNeverContests(w: World, s: FlowStep, x: Ref, y: Ref)
    requires x != y && Leads(w, s, x, y)
    ensures !Leads(w, s, y, x)
  {
    var refs := AskedRefs(StepRequests(w, w.flow.value, s));
    if ComesFirst(refs, y, x) {
      ComesFirstIsIn(refs, x, y);
      ComesFirstIsIn(refs, y, x);
      DedupKeepsFirst(refs, x, y);
      DedupKeepsFirst(refs, y, x);
      OneOrderOnly(Dedup(refs), x, y);
      assert false;
    }
  }

  /** Where no two wanted versions tie nothing is contested. */
  lemma ContestedWantsTied(le: Collation, w: World)
    requires Contested(le, w)
    ensures WantsTied(le, w)
  {
    var x, y, s, t :| x != y && Tied(ByRef(le), x, y) && Leads(w, s, x, y) && Leads(w, t, y, x);
    LeadsIsWanted(w, s, x, y);
    LeadsIsWanted(w, t, y, x);
  }

  /** The order of the steps never decides whether a plan is built, nor its tool names and budgets, and
    it decides only the order of the agents. The tools are the same too where no two wanted versions
    tie, but for the step each is recorded under. */
  lemma PlanForgetsStepOrder(le: Collation, w: World, v: World)
    requires Reordered(w, v)
    ensures Build(le, w).Ok? <==> Build(le, v).Ok?
    ensures Build(le, w).Ok? ==>
              var p, q := Build(le, w).value, Build(le, v).value;
              && p.allowedTools == q.allowedTools && p.maxSteps == q.maxSteps && p.maxTokens == q.maxTokens
              && multiset(p.agents) == multiset(q.agents)
              && (TotalPreorder(le) && !WantsTied(le, w) ==> Anonymous(p.tools) == Anonymous(q.tools))
  {
    ReorderedBuildsAlike(le, w, v);
    if Build(le, w).Ok? {
      var p, q := Build(le, w).value, Build(le, v).value;
      if TotalPreorder(le) && !WantsTied(le, w) {
        ToolsForgetStepOrderExactlyWhen(le, w);
        if Contested(le, w) { ContestedWantsTied(le, w); }
        assert SameTools(le, w, v);
      }
      ReorderedAgents(le, w, v);
      SameAgentsSameNames(p.agents, q.agents);
      TotalForgetsOrder(p.agents, q.agents, MaxSteps);
      TotalForgetsOrder(p.agents, q.agents, MaxTokens);
    }
  }

  // ---- Two tools whose names tie ----

  function TwoTools(j: string, k: string): World {
    var tool := ToolRecord(R.Published, "hash", "low");
    var steps := [ToolStep("first", j, VersionText(1)), ToolStep("second", k, VersionText(1))];
    World(Some(Flow(R.Published, steps, NoOverride)), map[], map[], map[(j, 1) := tool, (k, 1) := tool], None)
  }

  lemma OneToolLeads(w: World, s: FlowStep, y: Ref)
    requires w.flow.Some? && s in w.flow.value.steps && s.ToolStep?
    ensures Leads(w, s, Ref(s.tool, s.toolVersion), y)
  {
    var refs := AskedRefs(StepRequests(w, w.flow.value, s));
    assert refs == [Ref(s.tool, s.toolVersion)] && refs[..0] == [];
  }

  /** Two published tools whose different names collate as equal: a plan is built, and swapping the two
    steps changes its tools. */
  lemma TiedToolsKeepStepOrder(le: Collation, j: string, k: string)
    requires TotalPreorder(le) && Tied(le, j, k) && j != k && j != "" && k != ""
    ensures Build(le, TwoTools(j, k)).Ok?
    ensures exists v :: Reordered(TwoTools(j, k), v) && !SameTools(le, TwoTools(j, k), v)
  {
    var w := TwoTools(j, k);
    var s, t := w.flow.value.steps[0], w.flow.value.steps[1];
    var x, y := Ref(j, VersionText(1)), Ref(k, VersionText(1));
    assert Pinned(w, x, 1) && Pinned(w, y, 1);
    MajorOfVersionText(1);
    BuildSucceedsExactlyWhen(le, w);
    OneToolLeads(w, s, y);
    OneToolLeads(w, t, x);
    assert le(VersionText(1), VersionText(1));
    assert Tied(ByRef(le), x, y);
    ToolsForgetStepOrderExactlyWhen(le, w);
  }
}
