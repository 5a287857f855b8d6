/** The evaluation gate: decisions taken from evaluation runs, and what a publish may rely on.

  A decision is stored once per exact candidate and policy hash. A publish in required mode looks
  the decision up, checks that it is still fresh, and refuses unless it passed or is overridden.
  Both look up the policy published last for the type of resource: here `policy` is the key that the
  lookup returned, and what is proved holds whichever policy that is. A run may take any status.
 */
module Gate {
  import opened Results
  import opened DatasetContent
  import opened GatePolicies
  import opened Scoring
  import opened Aggregation
  import D = Datasets
  import Laws = DatasetLaws
  import ER = EvaluationRun

  datatype Subject = Subject(resourceType: string, id: string, version: nat, hash: string)

  datatype Run = Run(dataset: Key, datasetHash: Digest, status: ER.Status, planRef: string, snapshotRef: string)

  datatype Plan = Plan(planBundle: string, planDatasetHash: Digest)

  datatype Snapshot = Snapshot(subject: Subject, bundle: string)

  /** The exact candidate and policy a decision is about. */
  datatype ExactKey = ExactKey(candidate: Subject, candidateBundle: string, policyKey: Key, policyHash: PolicyDigest)

  datatype DecisionRow = DecisionRow(id: nat, exact: ExactKey, runIds: seq<string>, decision: Decision)

  datatype Override = Override(overrideOf: nat, resourceHash: string, expiresAt: nat)

  datatype State = State(
    tables: D.Tables, runs: map<string, Run>, plans: map<string, Plan>, snapshots: map<string, Snapshot>,
    results: map<string, seq<CaseResult>>, decisions: seq<DecisionRow>, overrides: seq<Override>)

  const EMPTY := State(D.EMPTY, map[], map[], map[], map[], [], [])

  // ---- Lookups ----

  function FindExact(ds: seq<DecisionRow>, e: ExactKey): Option<DecisionRow> {
    if ds == [] then None else if ds[0].exact == e then Some(ds[0]) else FindExact(ds[1..], e)
  }

  function FindActive(os: seq<Override>, d: DecisionRow, now: nat): Option<Override> {
    if os == [] then None
    else
      var last := os[|os| - 1];
      if last.overrideOf == d.id && last.resourceHash == d.exact.candidate.hash && last.expiresAt > now then Some(last)
      else FindActive(os[..|os| - 1], d, now)
  }

  // ---- Deciding ----

  function EnabledOnly(cs: seq<Case>): seq<Case> {
    if cs == [] then [] else (if cs[0].enabled then [cs[0]] else []) + EnabledOnly(cs[1..])
  }

  function EnabledCases(s: State, dataset: Key): seq<Case> { EnabledOnly(D.ListCases(s.tables, dataset)) }

  function ResultsOf(s: State, run: string): seq<CaseResult> { if run in s.results then s.results[run] else [] }

  function RunAggregate(s: State, run: string): Aggregate
    requires run in s.runs
  {
    Aggregated(EnabledCases(s, s.runs[run].dataset), ResultsOf(s, run))
  }

  /** Insert, or leave the decision that is already there. */
  function Recorded(ds: seq<DecisionRow>, d: DecisionRow): seq<DecisionRow> {
    if FindExact(ds, d.exact).Some? then ds else ds + [d]
  }

  /** The decision a run and a policy give. */
  function DecisionFor(s: State, run: string, policy: Key, mode: Mode, newId: nat): DecisionRow
    requires run in s.runs && s.runs[run].snapshotRef in s.snapshots && policy in s.tables.policies
  {
    var snapshot := s.snapshots[s.runs[run].snapshotRef];
    var p := s.tables.policies[policy];
    DecisionRow(newId, ExactKey(snapshot.subject, snapshot.bundle, policy, p.hash), [run],
                Decide(RunAggregate(s, run), p.content.thresholds, mode))
  }

  function DecideRun(s: State, run: string, policy: Option<Key>, mode: Mode, newId: nat): (State, Result<Option<DecisionRow>>) {
    if run !in s.runs || s.runs[run].snapshotRef !in s.snapshots then (s, Err("NOT_FOUND"))
    else if policy.None? || policy.value !in s.tables.policies then (s, Ok(None))
    else
      var d := DecisionFor(s, run, policy.value, mode, newId);
      var t := s.(decisions := Recorded(s.decisions, d));
      (t, Ok(FindExact(t.decisions, d.exact)))
  }

  // ---- Freshness ----

  datatype Staleness =
    | ResourceHashChanged | BundleChanged | PolicyHashChanged | RunMissing | RunNotCompleted
    | DatasetHashChanged | DecisionMismatch

  function FirstRun(s: State, ids: seq<string>): Option<Run> {
    if ids == [] then None else if ids[0] in s.runs then Some(s.runs[ids[0]]) else FirstRun(s, ids[1..])
  }

  function RequiredHash(qs: seq<Requirement>, dataset: Key): Option<Digest> {
    if qs == [] then None else if qs[0].key == dataset then Some(qs[0].hash) else RequiredHash(qs[1..], dataset)
  }

  function If(b: bool, r: Staleness): set<Staleness> { if b then {r} else {} }

  function RunReasons(s: State, d: DecisionRow, r: Run): set<Staleness> {
    var e := d.exact;
    var required := if e.policyKey in s.tables.policies
                    then RequiredHash(s.tables.policies[e.policyKey].content.requirements, r.dataset) else None;
    If(required.Some? && r.datasetHash != required.value, DatasetHashChanged)
    + (if r.planRef !in s.plans then {RunMissing}
       else If(s.plans[r.planRef].planBundle != e.candidateBundle, BundleChanged)
            + If(s.plans[r.planRef].planDatasetHash != r.datasetHash, DatasetHashChanged))
    + If(r.snapshotRef !in s.snapshots || s.snapshots[r.snapshotRef] != Snapshot(e.candidate, e.candidateBundle), DecisionMismatch)
  }

  /** Why a decision no longer stands for this candidate and policy hash. */
  function Freshness(s: State, d: DecisionRow, resourceHash: string, bundle: string, policyHash: PolicyDigest): set<Staleness> {
    var e := d.exact;
    var first := FirstRun(s, d.runIds);
    If(resourceHash != "" && resourceHash != e.candidate.hash, ResourceHashChanged)
    + If(bundle != "" && bundle != e.candidateBundle, BundleChanged)
    + If(policyHash != e.policyHash, PolicyHashChanged)
    + If(e.policyKey !in s.tables.policies || s.tables.policies[e.policyKey].hash != e.policyHash, PolicyHashChanged)
    + If(exists i :: i in d.runIds && i !in s.runs, RunMissing)
    + If(exists i :: i in d.runIds && i in s.runs && s.runs[i].status != ER.Completed, RunNotCompleted)
    + if first.Some? then RunReasons(s, d, first.value) else {}
  }

  // ---- May this candidate be published? ----

  datatype Verdict = Verdict(decision: Option<DecisionRow>, override: Option<Override>, warning: Option<string>)

  function BlockOrWarn(mode: Mode, code: string, d: Option<DecisionRow>): Result<Verdict> {
    if mode == Advisory then Ok(Verdict(d, None, Some(code))) else Err(code)
  }

  function AssertPublishAllowed(s: State, candidate: Subject, bundle: string, policy: Option<Key>, mode: Mode, now: nat): Result<Verdict> {
    if mode == Disabled then Ok(Verdict(None, None, Some("evaluation gate disabled")))
    else if policy.None? || policy.value !in s.tables.policies then BlockOrWarn(mode, "EVALUATION_GATE_REQUIRED", None)
    else
      var p := s.tables.policies[policy.value];
      var found := FindExact(s.decisions, ExactKey(candidate, bundle, policy.value, p.hash));
      if found.None? then BlockOrWarn(mode, "EVALUATION_GATE_NOT_FOUND", None)
      else if Freshness(s, found.value, candidate.hash, bundle, p.hash) != {} then BlockOrWarn(mode, "EVALUATION_GATE_STALE", found)
      else if found.value.decision == DecisionPassed then Ok(Verdict(found, None, None))
      else
        var override := if p.content.allowOverride then FindActive(s.overrides, found.value, now) else None;
        if override.Some? && override.value.resourceHash == candidate.hash then Ok(Verdict(found, override, None))
        else BlockOrWarn(mode, "EVALUATION_GATE_FAILED", found)
  }

  // ---- The system ----

  datatype Call =
    | TablesCall(tablesCall: D.Call)
    | CreateRun(runId: string, run: Run)
    | MoveRun(runId: string, status: ER.Status)
    | AddPlan(ref: string, plan: Plan)
    | AddSnapshot(ref: string, snapshot: Snapshot)
    | StoreResults(runId: string, results: seq<CaseResult>)
    | DecideCall(runId: string, policy: Option<Key>, mode: Mode, newId: nat)
    | AddOverride(added: Override)

  /** Runs keep their content; plans, snapshots and overrides are inserted only. */
  function Apply(s: State, c: Call): State {
    match c
    case TablesCall(tc) => s.(tables := D.Apply(s.tables, tc).0)
    case CreateRun(id, run) => if id in s.runs then s else s.(runs := s.runs[id := run])
    case MoveRun(id, status) => if id in s.runs then s.(runs := s.runs[id := s.runs[id].(status := status)]) else s
    case AddPlan(ref, plan) => if ref in s.plans then s else s.(plans := s.plans[ref := plan])
    case AddSnapshot(ref, snapshot) => if ref in s.snapshots then s else s.(snapshots := s.snapshots[ref := snapshot])
    case StoreResults(id, rs) => s.(results := s.results[id := rs])
    case DecideCall(id, policy, mode, newId) => DecideRun(s, id, policy, mode, newId).0
    case AddOverride(o) => s.(overrides := s.overrides + [o])
  }

  function After(calls: seq<Call>): State {
    if calls == [] then EMPTY else Apply(After(calls[..|calls| - 1]), calls[|calls| - 1])
  }

  // ---- Where a decision comes from ----

  /** The call that took the decision `d`, in the state it saw. */
  ghost predicate Took(s: State, c: Call, d: DecisionRow) {
    && c.DecideCall? && c.runId in s.runs && s.runs[c.runId].snapshotRef in s.snapshots
    && c.policy.Some? && c.policy.value in s.tables.policies
    && d == DecisionFor(s, c.runId, c.policy.value, c.mode, c.newId)
  }

  ghost predicate TakenBy(calls: seq<Call>, i: nat, d: DecisionRow) {
    i < |calls| && Took(After(calls[..i]), calls[i], d)
  }

  lemma NewDecisionsAreTaken(s: State, c: Call, d: DecisionRow)
    requires d in Apply(s, c).decisions
    ensures d in s.decisions || Took(s, c, d)
  {}

  lemma AfterOneMore(calls: seq<Call>, d: DecisionRow)
    requires calls != [] && d in After(calls).decisions
    ensures var n := |calls| - 1; d in After(calls[..n]).decisions || TakenBy(calls, n, d)
  {
    NewDecisionsAreTaken(After(calls[..|calls| - 1]), calls[|calls| - 1], d);
  }

  lemma TakenInPrefix(calls: seq<Call>, n: nat, i: nat, d: DecisionRow)
    requires n <= |calls| && TakenBy(calls[..n], i, d)
    ensures TakenBy(calls, i, d)
  {
    assert calls[..n][..i] == calls[..i];
  }

  /** Every stored decision was taken by one of the calls. */
  lemma {:induction false} EveryDecisionWasTaken(calls: seq<Call>, d: DecisionRow) returns (i: nat)
    requires d in After(calls).decisions
    ensures TakenBy(calls, i, d)
    decreases |calls|
  {
    assert calls != [];
    var n := |calls| - 1;
    AfterOneMore(calls, d);
    if d in After(calls[..n]).decisions {
      i := EveryDecisionWasTaken(calls[..n], d);
      TakenInPrefix(calls, n, i, d);
    } else {
      i := n;
    }
  }

  lemma {:induction false} FoundIsStored(ds: seq<DecisionRow>, e: ExactKey)
    ensures FindExact(ds, e).Some? ==> FindExact(ds, e).value in ds && FindExact(ds, e).value.exact == e
  {
    if ds != [] && ds[0].exact != e { FoundIsStored(ds[1..], e); }
  }

  ghost predicate Good(s: State) { Laws.Valid(s.tables) && Laws.PolicyHashesFit(s.tables) }

  lemma CallKeepsGood(s: State, c: Call)
    requires Good(s)
    ensures Good(Apply(s, c))
  {
    if c.TablesCall? {
      Laws.CallKeepsValid(s.tables, c.tablesCall);
      Laws.CallKeepsPolicyHashes(s.tables, c.tablesCall);
    } else {
      assert Apply(s, c).tables == s.tables;
    }
  }

  lemma {:induction false} AfterIsGood(calls: seq<Call>)
    ensures Good(After(calls))
    decreases |calls|
  {
    if calls != [] {
      var n := |calls| - 1;
      AfterIsGood(calls[..n]);
      CallKeepsGood(After(calls[..n]), calls[n]);
    }
  }

  // ---- What a publish without an override rests on ----

  /** The evaluation behind a decision that passed: which run it aggregated, and that the cases then
    enabled, with the results then stored, met the thresholds with no failed gate. */
  ghost predicate PassedEvaluation(u: State, run: string, candidate: Subject, bundle: string, t: Thresholds) {
    && run in u.runs && u.runs[run].snapshotRef in u.snapshots
    && u.snapshots[u.runs[run].snapshotRef] == Snapshot(candidate, bundle)
    && Meets(EnabledCases(u, u.runs[run].dataset), ResultsOf(u, run), t)
  }

  ghost predicate Backed(calls: seq<Call>, i: nat, candidate: Subject, bundle: string, t: Thresholds, now: State) {
    && i < |calls| && calls[i].DecideCall?
    && PassedEvaluation(After(calls[..i]), calls[i].runId, candidate, bundle, t)
    && calls[i].runId in now.runs && now.runs[calls[i].runId].status == ER.Completed
  }

  lemma AllowedMeansFreshAndPassed(s: State, candidate: Subject, bundle: string, policy: Option<Key>, now: nat)
    requires var r := AssertPublishAllowed(s, candidate, bundle, policy, Required, now); r.Ok? && r.value.override.None?
    ensures policy.Some? && policy.value in s.tables.policies
    ensures var found := FindExact(s.decisions, ExactKey(candidate, bundle, policy.value, s.tables.policies[policy.value].hash));
            && found.Some? && found.value.decision == DecisionPassed
            && Freshness(s, found.value, candidate.hash, bundle, s.tables.policies[policy.value].hash) == {}
  {}

  lemma FreshRunsAreCompleted(s: State, d: DecisionRow, resourceHash: string, bundle: string, policyHash: PolicyDigest, run: string)
    requires Freshness(s, d, resourceHash, bundle, policyHash) == {} && run in d.runIds
    ensures run in s.runs && s.runs[run].status == ER.Completed
  {
    var reasons := Freshness(s, d, resourceHash, bundle, policyHash);
    assert run !in s.runs ==> RunMissing in reasons;
    assert run in s.runs && s.runs[run].status != ER.Completed ==> RunNotCompleted in reasons;
  }

  lemma PassedWasEvaluated(u: State, c: Call, d: DecisionRow)
    requires Good(u) && Took(u, c, d) && d.decision == DecisionPassed
    ensures d.exact.policyHash.content == u.tables.policies[c.policy.value].content
    ensures PassedEvaluation(u, c.runId, d.exact.candidate, d.exact.candidateBundle, d.exact.policyHash.content.thresholds)
  {
    PassedExactlyWhen(EnabledCases(u, u.runs[c.runId].dataset), ResultsOf(u, c.runId),
                      u.tables.policies[c.policy.value].content.thresholds, c.mode);
  }

  /** In required mode, a publish without an override succeeds only if an earlier call evaluated this
    exact candidate, met the thresholds that the published policy has now, failed no hard gate, and
    its run is completed. */
  lemma PublishNeedsAPassedEvaluation(calls: seq<Call>, candidate: Subject, bundle: string, policy: Option<Key>, now: nat)
    requires var r := AssertPublishAllowed(After(calls), candidate, bundle, policy, Required, now); r.Ok? && r.value.override.None?
    ensures policy.Some? && policy.value in After(calls).tables.policies
    ensures exists i :: Backed(calls, i, candidate, bundle, After(calls).tables.policies[policy.value].content.thresholds, After(calls))
  {
    var s := After(calls);
    AllowedMeansFreshAndPassed(s, candidate, bundle, policy, now);
    var p := s.tables.policies[policy.value];
    var e := ExactKey(candidate, bundle, policy.value, p.hash);
    var d := FindExact(s.decisions, e).value;
    FoundIsStored(s.decisions, e);
    var i := EveryDecisionWasTaken(calls, d);
    AfterIsGood(calls);
    PassedDecisionIsBacked(calls, i, d, bundle);
    assert Backed(calls, i, candidate, bundle, p.content.thresholds, s);
  }

  lemma PassedDecisionIsBacked(calls: seq<Call>, i: nat, d: DecisionRow, bundle: string)
    requires TakenBy(calls, i, d) && d.decision == DecisionPassed
    requires Freshness(After(calls), d, d.exact.candidate.hash, bundle, d.exact.policyHash) == {}
    ensures Backed(calls, i, d.exact.candidate, d.exact.candidateBundle, d.exact.policyHash.content.thresholds, After(calls))
  {
    AfterIsGood(calls[..i]);
    PassedWasEvaluated(After(calls[..i]), calls[i], d);
    FreshRunsAreCompleted(After(calls), d, d.exact.candidate.hash, bundle, d.exact.policyHash, calls[i].runId);
  }

  predicate OverrideFor(o: Override, d: DecisionRow) {
    o.overrideOf == d.id && o.resourceHash == d.exact.candidate.hash
  }

  /** The override found is the last one made for the decision and its resource hash that has not expired. */
  lemma {:induction false} ActiveOverrideMeaning(os: seq<Override>, d: DecisionRow, now: nat)
    ensures var r := FindActive(os, d, now);
            && (r.Some? ==> exists i :: 0 <= i < |os| && os[i] == r.value && OverrideFor(os[i], d) && os[i].expiresAt > now
                                        && forall j :: i < j < |os| && OverrideFor(os[j], d) ==> os[j].expiresAt <= now)
            && (r.None? ==> forall o :: o in os && OverrideFor(o, d) ==> o.expiresAt <= now)
  {
    if os != [] {
      var n := |os| - 1;
      ActiveOverrideMeaning(os[..n], d, now);
      assert os == os[..n] + [os[n]];
      var r := FindActive(os[..n], d, now);
      if r.Some? && FindActive(os, d, now) == r {
        var i :| 0 <= i < n && os[..n][i] == r.value && OverrideFor(os[i], d) && os[i].expiresAt > now
                 && forall j :: i < j < n && OverrideFor(os[..n][j], d) ==> os[..n][j].expiresAt <= now;
        assert forall j :: i < j < n ==> os[..n][j] == os[j];
        assert os[i] == r.value;
      }
    }
  }

  /** What required mode needs when the fresh decision about the exact candidate did not pass: the
    policy allows overrides and an unexpired one was made for this decision and this resource hash. */
  ghost predicate Overridable(s: State, d: DecisionRow, allowed: bool, now: nat) {
    allowed && exists o :: o in s.overrides && OverrideFor(o, d) && o.expiresAt > now
  }

  /** In required mode a publish is allowed exactly when the decision about the exact candidate exists,
    is fresh, and passed or is overridable. */
  lemma RequiredPublishAllowedExactlyWhen(s: State, candidate: Subject, bundle: string, policy: Key, now: nat)
    requires policy in s.tables.policies
    ensures var p := s.tables.policies[policy];
            var found := FindExact(s.decisions, ExactKey(candidate, bundle, policy, p.hash));
            AssertPublishAllowed(s, candidate, bundle, Some(policy), Required, now).Ok?
            <==> && found.Some? && Freshness(s, found.value, candidate.hash, bundle, p.hash) == {}
                 && (found.value.decision == DecisionPassed
                     || Overridable(s, found.value, p.content.allowOverride, now))
  {
    var e := ExactKey(candidate, bundle, policy, s.tables.policies[policy].hash);
    var found := FindExact(s.decisions, e);
    FoundIsStored(s.decisions, e);
    if found.Some? { ActiveOverrideMeaning(s.overrides, found.value, now); }
  }

  // ---- Every mode ----

  /** The first stored decision about the exact key, if there is one. */
  ghost predicate IsFirstFor(ds: seq<DecisionRow>, e: ExactKey, found: Option<DecisionRow>) {
    if found.None? then forall d :: d in ds ==> d.exact != e
    else exists i :: 0 <= i < |ds| && ds[i] == found.value && ds[i].exact == e && forall j :: 0 <= j < i ==> ds[j].exact != e
  }

  lemma {:induction false} FindExactIsFirst(ds: seq<DecisionRow>, e: ExactKey)
    ensures IsFirstFor(ds, e, FindExact(ds, e))
  {
    if ds != [] && ds[0].exact != e {
      FindExactIsFirst(ds[1..], e);
      var found := FindExact(ds[1..], e);
      assert ds == [ds[0]] + ds[1..];
      if found.Some? {
        var i :| 0 <= i < |ds[1..]| && ds[1..][i] == found.value && ds[1..][i].exact == e
                 && forall j :: 0 <= j < i ==> ds[1..][j].exact != e;
        assert forall j :: 0 < j < i + 1 ==> ds[j] == ds[1..][j - 1];
        assert ds[i + 1] == found.value;
      }
    }
  }

  /** The decision that a verdict carries: the first about the candidate under the policy's present hash. */
  ghost predicate FoundFor(s: State, candidate: Subject, bundle: string, policy: Option<Key>, found: Option<DecisionRow>) {
    if policy.Some? && policy.value in s.tables.policies
    then IsFirstFor(s.decisions, ExactKey(candidate, bundle, policy.value, s.tables.policies[policy.value].hash), found)
    else found == None
  }

  /** In advisory mode nothing is blocked: what required mode allows is answered alike, and what it refuses
    is let through with the refusal as a warning, the decision found and no override. With the gate
    disabled everything passes unseen. */
  lemma OnlyRequiredBlocks(s: State, candidate: Subject, bundle: string, policy: Option<Key>, now: nat)
    ensures var r := AssertPublishAllowed(s, candidate, bundle, policy, Required, now);
            var a := AssertPublishAllowed(s, candidate, bundle, policy, Advisory, now);
            && a.Ok? && (r.Ok? ==> a == r && r.value.warning == None)
            && (r.Err? ==> a.value.warning == Some(r.code) && a.value.override == None)
            && FoundFor(s, candidate, bundle, policy, a.value.decision)
    ensures var d := AssertPublishAllowed(s, candidate, bundle, policy, Disabled, now);
            d.Ok? && d.value.decision == None && d.value.override == None && d.value.warning.Some?
  {
    if policy.Some? && policy.value in s.tables.policies {
      FindExactIsFirst(s.decisions, ExactKey(candidate, bundle, policy.value, s.tables.policies[policy.value].hash));
    }
  }

  /** What required mode refuses with: no policy, no decision, a decision that no longer stands, or one
    that did not pass. */
  lemma RequiredRefusal(s: State, candidate: Subject, bundle: string, policy: Option<Key>, now: nat)
    requires AssertPublishAllowed(s, candidate, bundle, policy, Required, now).Err?
    ensures var code := AssertPublishAllowed(s, candidate, bundle, policy, Required, now).code;
            if policy.None? || policy.value !in s.tables.policies then code == "EVALUATION_GATE_REQUIRED"
            else
              var hash := s.tables.policies[policy.value].hash;
              exists found :: FoundFor(s, candidate, bundle, policy, found)
                && if found.None? then code == "EVALUATION_GATE_NOT_FOUND"
                   else if Freshness(s, found.value, candidate.hash, bundle, hash) != {} then code == "EVALUATION_GATE_STALE"
                   else found.value.decision != DecisionPassed && code == "EVALUATION_GATE_FAILED"
  {
    if policy.Some? && policy.value in s.tables.policies {
      var e := ExactKey(candidate, bundle, policy.value, s.tables.policies[policy.value].hash);
      FindExactIsFirst(s.decisions, e);
      assert FoundFor(s, candidate, bundle, policy, FindExact(s.decisions, e));
    }
  }

  // ---- Why a decision no longer stands ----

  /** The first run of the decision that is still there. */
  ghost predicate IsFirstRun(s: State, ids: seq<string>, r: Run) {
    exists i :: 0 <= i < |ids| && ids[i] in s.runs && s.runs[ids[i]] == r && forall j :: 0 <= j < i ==> ids[j] !in s.runs
  }

  lemma {:induction false} FirstRunMeaning(s: State, ids: seq<string>)
    ensures FirstRun(s, ids).None? ==> forall r :: !IsFirstRun(s, ids, r)
    ensures FirstRun(s, ids).Some? ==> forall r :: IsFirstRun(s, ids, r) <==> r == FirstRun(s, ids).value
  {
    if ids != [] {
      FirstRunMeaning(s, ids[1..]);
      if ids[0] in s.runs {
        assert IsFirstRun(s, ids, s.runs[ids[0]]);
      } else {
        forall r ensures IsFirstRun(s, ids, r) <==> IsFirstRun(s, ids[1..], r) { FirstRunOfRest(s, ids, r); }
      }
    }
  }

  lemma FirstRunOfRest(s: State, ids: seq<string>, r: Run)
    requires ids != [] && ids[0] !in s.runs
    ensures IsFirstRun(s, ids, r) <==> IsFirstRun(s, ids[1..], r)
  {
    var rest := ids[1..];
    if i :| 0 <= i < |ids| && ids[i] in s.runs && s.runs[ids[i]] == r && forall j :: 0 <= j < i ==> ids[j] !in s.runs {
      assert rest[i - 1] == ids[i];
      assert forall j :: 0 <= j < i - 1 ==> rest[j] == ids[j + 1];
    }
    if i :| 0 <= i < |rest| && rest[i] in s.runs && s.runs[rest[i]] == r && forall j :: 0 <= j < i ==> rest[j] !in s.runs {
      assert ids[i + 1] == rest[i];
      assert forall j :: 1 <= j < i + 1 ==> ids[j] == rest[j - 1];
    }
  }

  /** The first requirement on the run's dataset version asks for another hash. */
  ghost predicate OtherHashRequired(s: State, d: DecisionRow, r: Run) {
    && d.exact.policyKey in s.tables.policies
    && var qs := s.tables.policies[d.exact.policyKey].content.requirements;
    exists i :: 0 <= i < |qs| && qs[i].key == r.dataset && qs[i].hash != r.datasetHash && forall j :: 0 <= j < i ==> qs[j].key != r.dataset
  }

  lemma {:induction false} RequiredHashIsFirst(qs: seq<Requirement>, k: Key, hash: Digest)
    ensures (RequiredHash(qs, k).Some? && RequiredHash(qs, k).value != hash)
            <==> exists i :: 0 <= i < |qs| && qs[i].key == k && qs[i].hash != hash && forall j :: 0 <= j < i ==> qs[j].key != k
  {
    if qs != [] {
      var rest := qs[1..];
      RequiredHashIsFirst(rest, k, hash);
      if qs[0].key != k {
        if i :| 0 <= i < |rest| && rest[i].key == k && rest[i].hash != hash && forall j :: 0 <= j < i ==> rest[j].key != k {
          assert qs[i + 1] == rest[i];
          assert forall j :: 1 <= j < i + 1 ==> qs[j] == rest[j - 1];
        }
        if i :| 0 <= i < |qs| && qs[i].key == k && qs[i].hash != hash && forall j :: 0 <= j < i ==> qs[j].key != k {
          assert rest[i - 1] == qs[i];
          assert forall j :: 0 <= j < i - 1 ==> rest[j] == qs[j + 1];
        }
      }
    }
  }

  ghost predicate SomeRunGone(s: State, ids: seq<string>) { exists i :: i in ids && i !in s.runs }

  ghost predicate SomeRunOpen(s: State, ids: seq<string>) {
    exists i :: i in ids && i in s.runs && s.runs[i].status != ER.Completed
  }

  predicate PolicyChanged(s: State, e: ExactKey) {
    e.policyKey !in s.tables.policies || s.tables.policies[e.policyKey].hash != e.policyHash
  }

  function ReasonsOfFirst(s: State, d: DecisionRow): set<Staleness> {
    var first := FirstRun(s, d.runIds);
    if first.Some? then RunReasons(s, d, first.value) else {}
  }

  lemma FreshnessParts(s: State, d: DecisionRow, resourceHash: string, bundle: string, policyHash: PolicyDigest)
    ensures var e := d.exact;
            Freshness(s, d, resourceHash, bundle, policyHash)
            == If(resourceHash != "" && resourceHash != e.candidate.hash, ResourceHashChanged)
               + If(bundle != "" && bundle != e.candidateBundle, BundleChanged)
               + If(policyHash != e.policyHash, PolicyHashChanged) + If(PolicyChanged(s, e), PolicyHashChanged)
               + If(SomeRunGone(s, d.runIds), RunMissing) + If(SomeRunOpen(s, d.runIds), RunNotCompleted)
               + ReasonsOfFirst(s, d)
  {}

  lemma Gathered(hash: bool, other: bool, moved: bool, gone: bool, missing: bool, open: bool, rest: set<Staleness>, why: Staleness)
    ensures why in If(hash, ResourceHashChanged) + If(other, BundleChanged) + If(moved, PolicyHashChanged)
                   + If(gone, PolicyHashChanged) + If(missing, RunMissing) + If(open, RunNotCompleted) + rest
            <==> || why in rest
                 || (why == ResourceHashChanged && hash) || (why == BundleChanged && other)
                 || (why == PolicyHashChanged && (moved || gone)) || (why == RunMissing && missing)
                 || (why == RunNotCompleted && open)
  {
    InSeven(If(hash, ResourceHashChanged), If(other, BundleChanged), If(moved, PolicyHashChanged),
            If(gone, PolicyHashChanged), If(missing, RunMissing), If(open, RunNotCompleted), rest, why);
  }

  lemma InSeven<T>(a: set<T>, b: set<T>, c: set<T>, d: set<T>, e: set<T>, f: set<T>, g: set<T>, x: T)
    ensures x in a + b + c + d + e + f + g <==> x in a || x in b || x in c || x in d || x in e || x in f || x in g
  {}

  /** What the first run of the decision gives away. */
  ghost predicate FirstRunSays(s: State, d: DecisionRow, why: Staleness) {
    exists r :: IsFirstRun(s, d.runIds, r)
      && match why
         case BundleChanged => r.planRef in s.plans && s.plans[r.planRef].planBundle != d.exact.candidateBundle
         case RunMissing => r.planRef !in s.plans
         case DatasetHashChanged =>
           OtherHashRequired(s, d, r) || (r.planRef in s.plans && s.plans[r.planRef].planDatasetHash != r.datasetHash)
         case DecisionMismatch =>
           r.snapshotRef !in s.snapshots || s.snapshots[r.snapshotRef] != Snapshot(d.exact.candidate, d.exact.candidateBundle)
         case _ => false
  }

  lemma FirstRunReasons(s: State, d: DecisionRow, why: Staleness)
    ensures why in ReasonsOfFirst(s, d) <==> FirstRunSays(s, d, why)
  {
    var first := FirstRun(s, d.runIds);
    FirstRunMeaning(s, d.runIds);
    if first.Some? {
      RunReasonsMeaning(s, d, first.value);
      assert IsFirstRun(s, d.runIds, first.value);
    }
  }

  /** Each reason, exactly when it is given: another resource hash, bundle or policy hash than the decision
    is about, its policy gone or changed, a run that is gone or not completed, and of the first run a plan
    that is gone or for another bundle or dataset hash, a required hash that is another, or another
    snapshot. */
  lemma FreshnessMeaning(s: State, d: DecisionRow, resourceHash: string, bundle: string, policyHash: PolicyDigest, why: Staleness)
    ensures var e := d.exact;
            why in Freshness(s, d, resourceHash, bundle, policyHash)
            <==> || FirstRunSays(s, d, why)
                 || (why == ResourceHashChanged && resourceHash != "" && resourceHash != e.candidate.hash)
                 || (why == BundleChanged && bundle != "" && bundle != e.candidateBundle)
                 || (why == PolicyHashChanged && (policyHash != e.policyHash || PolicyChanged(s, e)))
                 || (why == RunMissing && SomeRunGone(s, d.runIds)) || (why == RunNotCompleted && SomeRunOpen(s, d.runIds))
  {
    var e := d.exact;
    FreshnessParts(s, d, resourceHash, bundle, policyHash);
    Gathered(resourceHash != "" && resourceHash != e.candidate.hash, bundle != "" && bundle != e.candidateBundle,
             policyHash != e.policyHash, PolicyChanged(s, e), SomeRunGone(s, d.runIds), SomeRunOpen(s, d.runIds),
             ReasonsOfFirst(s, d), why);
    FirstRunReasons(s, d, why);
  }

  lemma RunReasonsMeaning(s: State, d: DecisionRow, r: Run)
    ensures var f, e := RunReasons(s, d, r), d.exact;
            && ResourceHashChanged !in f && PolicyHashChanged !in f && RunNotCompleted !in f
            && (BundleChanged in f <==> r.planRef in s.plans && s.plans[r.planRef].planBundle != e.candidateBundle)
            && (RunMissing in f <==> r.planRef !in s.plans)
            && (DatasetHashChanged in f
                <==> OtherHashRequired(s, d, r) || (r.planRef in s.plans && s.plans[r.planRef].planDatasetHash != r.datasetHash))
            && (DecisionMismatch in f
                <==> r.snapshotRef !in s.snapshots || s.snapshots[r.snapshotRef] != Snapshot(e.candidate, e.candidateBundle))
  {
    if d.exact.policyKey in s.tables.policies {
      RequiredHashIsFirst(s.tables.policies[d.exact.policyKey].content.requirements, r.dataset, r.datasetHash);
    }
  }

  // ---- What the other calls store ----

  /** Runs, plans and snapshots are stored once under their own reference, a run changes in its status alone,
    results are those stored last, and overrides are added. */
  lemma OtherCallsStore(s: State, id: string, run: Run, plan: Plan, snapshot: Snapshot, status: ER.Status,
                        rs: seq<CaseResult>, o: Override)
    ensures Apply(s, CreateRun(id, run)) == s.(runs := if id in s.runs then s.runs else s.runs[id := run])
    ensures Apply(s, MoveRun(id, status))
            == s.(runs := if id in s.runs then s.runs[id := Run(s.runs[id].dataset, s.runs[id].datasetHash, status,
                                                                s.runs[id].planRef, s.runs[id].snapshotRef)] else s.runs)
    ensures Apply(s, AddPlan(id, plan)) == s.(plans := if id in s.plans then s.plans else s.plans[id := plan])
    ensures Apply(s, AddSnapshot(id, snapshot)) == s.(snapshots := if id in s.snapshots then s.snapshots else s.snapshots[id := snapshot])
    ensures Apply(s, StoreResults(id, rs)) == s.(results := s.results[id := rs])
    ensures Apply(s, AddOverride(o)) == s.(overrides := s.overrides + [o])
  {}

  // ---- The cases that a decision counts ----

  lemma {:induction false} EnabledOnlyMeaning(cs: seq<Case>, c: Case)
    ensures multiset(EnabledOnly(cs))[c] == if c.enabled then multiset(cs)[c] else 0
  {
    if cs != [] {
      EnabledOnlyMeaning(cs[1..], c);
      assert cs == [cs[0]] + cs[1..];
    }
  }

  lemma {:induction false} CasesOfCounts(cs: seq<Case>, k: Key, c: Case)
    ensures multiset(D.CasesOf(cs, k))[c] == if c.dataset == k then multiset(cs)[c] else 0
  {
    if cs != [] {
      CasesOfCounts(cs[1..], k, c);
      assert cs == [cs[0]] + cs[1..];
    }
  }

  /** A decision counts exactly the enabled cases of the run's dataset version, each as often as it is stored. */
  lemma EnabledCasesMeaning(s: State, dataset: Key, c: Case)
    ensures multiset(EnabledCases(s, dataset))[c] == if c.enabled && c.dataset == dataset then multiset(s.tables.cases)[c] else 0
  {
    EnabledOnlyMeaning(D.ListCases(s.tables, dataset), c);
    CasesOfCounts(s.tables.cases, dataset, c);
  }

  // ---- A decision stands ----

  lemma {:induction false} FoundStays(ds: seq<DecisionRow>, e: ExactKey, d: DecisionRow)
    requires FindExact(ds, e).Some?
    ensures FindExact(ds + [d], e) == FindExact(ds, e)
  {
    assert (ds + [d])[0] == ds[0];
    if ds[0].exact != e {
      assert (ds + [d])[1..] == ds[1..] + [d];
      FoundStays(ds[1..], e, d);
    }
  }

  lemma CallKeepsDecision(s: State, c: Call, e: ExactKey)
    requires FindExact(s.decisions, e).Some?
    ensures FindExact(Apply(s, c).decisions, e) == FindExact(s.decisions, e)
  {
    if Apply(s, c).decisions != s.decisions {
      FoundStays(s.decisions, e, DecisionFor(s, c.runId, c.policy.value, c.mode, c.newId));
    }
  }

  function Then(s: State, calls: seq<Call>): State
    decreases |calls|
  {
    if calls == [] then s else Then(Apply(s, calls[0]), calls[1..])
  }

  /** The first decision about an exact candidate and policy is never replaced. */
  lemma {:induction false} DecisionStands(s: State, calls: seq<Call>, e: ExactKey)
    requires FindExact(s.decisions, e).Some?
    ensures FindExact(Then(s, calls).decisions, e) == FindExact(s.decisions, e)
    decreases |calls|
  {
    if calls != [] {
      CallKeepsDecision(s, calls[0], e);
      DecisionStands(Apply(s, calls[0]), calls[1..], e);
    }
  }

  /** So a candidate that failed once stays blocked under the same policy hash, however well a later
    run of the same candidate does: only an override lets it through. */
  lemma FailedCandidateStaysBlocked(s: State, calls: seq<Call>, candidate: Subject, bundle: string, policy: Key, now: nat)
    requires var t := Then(s, calls);
             && policy in t.tables.policies
             && var found := FindExact(s.decisions, ExactKey(candidate, bundle, policy, t.tables.policies[policy].hash));
                found.Some? && found.value.decision != DecisionPassed
    ensures var r := AssertPublishAllowed(Then(s, calls), candidate, bundle, Some(policy), Required, now);
            r.Ok? ==> r.value.override.Some?
  {
    var t := Then(s, calls);
    DecisionStands(s, calls, ExactKey(candidate, bundle, policy, t.tables.policies[policy].hash));
  }

  /** One enabled case that called a forbidden tool or tripped a safety counter, and the first decision
    about the candidate is not a pass. */
  lemma UnsafeRunDoesNotPass(s: State, c: Call, d: DecisionRow, unsafeCase: Case, ev: Evidence)
    requires Took(s, c, d)
    requires unsafeCase in EnabledCases(s, s.runs[c.runId].dataset) && Unsafe(unsafeCase, ev)
    requires LastResult(ResultsOf(s, c.runId), unsafeCase.id) == Some(Stored(unsafeCase, ev))
    ensures d.decision != DecisionPassed
  {
    UnsafeCaseBlocksTheGate(EnabledCases(s, s.runs[c.runId].dataset), ResultsOf(s, c.runId), unsafeCase, ev,
                            s.tables.policies[c.policy.value].content.thresholds, c.mode);
  }

  // ---- The decision table in place ----

  class DecisionTable {
    var rows: seq<DecisionRow>

    constructor ()
      ensures rows == []
    {
      rows := [];
    }

    method Create(d: DecisionRow) returns (saved: DecisionRow)
      modifies this
      ensures rows == Recorded(old(rows), d)
      ensures Some(saved) == FindExact(rows, d.exact)
    {
      var existing := FindExact(rows, d.exact);
      if existing.Some? { return existing.value; }
      rows := rows + [d];
      AppendedIsFound(old(rows), d);
      saved := d;
    }
  }

  lemma {:induction false} AppendedIsFound(ds: seq<DecisionRow>, d: DecisionRow)
    requires FindExact(ds, d.exact).None?
    ensures FindExact(ds + [d], d.exact) == Some(d)
  {
    if ds != [] {
      assert (ds + [d])[1..] == ds[1..] + [d];
      AppendedIsFound(ds[1..], d);
    }
  }
}
