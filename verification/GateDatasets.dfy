/** What an allowed publish says about the datasets that its gate policy requires, and about the results
  behind it. */
module GateDatasets {
  import opened Results
  import opened Sorting
  import opened DatasetContent
  import opened GatePolicies
  import opened Scoring
  import opened Aggregation
  import opened Gate
  import D = Datasets
  import Laws = DatasetLaws
  import Mix = SystemErrors
  import ER = EvaluationRun

  predicate Mentions(qs: seq<Requirement>, k: Key) { exists q :: q in qs && q.key == k }

  lemma {:induction false} RequiredHashMeaning(qs: seq<Requirement>, k: Key)
    ensures RequiredHash(qs, k).Some? <==> Mentions(qs, k)
    ensures RequiredHash(qs, k).Some? ==> Requirement(k, RequiredHash(qs, k).value) in qs
  {
    if qs != [] {
      assert qs == [qs[0]] + qs[1..];
      if qs[0].key == k {
        assert qs[0] in qs;
      } else {
        RequiredHashMeaning(qs[1..], k);
      }
    }
  }

  // ---- Deciding, then publishing ----

  /** The run is completed, and its plan was made for the same candidate and the same dataset hash. */
  predicate Fits(s: State, r: Run, bundle: string) {
    r.status == ER.Completed && r.planRef in s.plans && s.plans[r.planRef] == Plan(bundle, r.datasetHash)
  }

  /** The version the run is on has the hash the policy requires, if the policy names it at all. */
  predicate HashAsRequired(qs: seq<Requirement>, r: Run) {
    var required := RequiredHash(qs, r.dataset);
    required.Some? ==> required.value == r.datasetHash
  }

  lemma FreshExactlyWhen(s: State, d: DecisionRow, run: string)
    requires d.runIds == [run] && run in s.runs && s.runs[run].snapshotRef in s.snapshots
    requires d.exact.policyKey in s.tables.policies && s.tables.policies[d.exact.policyKey].hash == d.exact.policyHash
    requires s.snapshots[s.runs[run].snapshotRef] == Snapshot(d.exact.candidate, d.exact.candidateBundle)
    ensures var r, e := s.runs[run], d.exact;
            Freshness(s, d, e.candidate.hash, e.candidateBundle, e.policyHash) == {}
            <==> && Fits(s, r, e.candidateBundle)
                 && HashAsRequired(s.tables.policies[e.policyKey].content.requirements, r)
  {
    var r, e := s.runs[run], d.exact;
    var reasons := Freshness(s, d, e.candidate.hash, e.candidateBundle, e.policyHash);
    assert run in d.runIds;
    assert FirstRun(s, d.runIds) == Some(r);
    assert RunNotCompleted in reasons <==> r.status != ER.Completed;
    RunReasonsNone(s, d, r);
    assert RunReasons(s, d, r) <= reasons;
    if r.status == ER.Completed { assert reasons == RunReasons(s, d, r); }
  }

  lemma RunReasonsNone(s: State, d: DecisionRow, r: Run)
    requires r.snapshotRef in s.snapshots && d.exact.policyKey in s.tables.policies
    requires s.snapshots[r.snapshotRef] == Snapshot(d.exact.candidate, d.exact.candidateBundle)
    ensures RunReasons(s, d, r) == {}
            <==> && r.planRef in s.plans && s.plans[r.planRef] == Plan(d.exact.candidateBundle, r.datasetHash)
                 && HashAsRequired(s.tables.policies[d.exact.policyKey].content.requirements, r)
  {
    var reasons := RunReasons(s, d, r);
    assert r.planRef !in s.plans ==> RunMissing in reasons;
    if r.planRef in s.plans {
      assert BundleChanged in reasons <==> s.plans[r.planRef].planBundle != d.exact.candidateBundle;
      assert DatasetHashChanged in reasons
        <==> (s.plans[r.planRef].planDatasetHash != r.datasetHash
              || !HashAsRequired(s.tables.policies[d.exact.policyKey].content.requirements, r));
    } else {
      assert reasons != {};
    }
  }

  /** A publish right after the first decision about a candidate is allowed without an override exactly
    when the run meets the thresholds, fits, and has the required hash if the policy names the version
    it is on. No requirement has to be evaluated. */
  lemma PublishAfterDecisionExactlyWhen(s: State, run: string, policy: Key, mode: Mode, newId: nat, now: nat)
    requires run in s.runs && s.runs[run].snapshotRef in s.snapshots && policy in s.tables.policies
    requires FindExact(s.decisions, DecisionFor(s, run, policy, mode, newId).exact).None?
    ensures var t := Apply(s, DecideCall(run, Some(policy), mode, newId));
            var r, p, snapshot := s.runs[run], s.tables.policies[policy], s.snapshots[s.runs[run].snapshotRef];
            var verdict := AssertPublishAllowed(t, snapshot.subject, snapshot.bundle, Some(policy), Required, now);
            (verdict.Ok? && verdict.value.override.None?)
            <==> && Meets(EnabledCases(s, r.dataset), ResultsOf(s, run), p.content.thresholds)
                 && Fits(s, r, snapshot.bundle) && HashAsRequired(p.content.requirements, r)
  {
    var d := DecisionFor(s, run, policy, mode, newId);
    var t := Apply(s, DecideCall(run, Some(policy), mode, newId));
    AppendedIsFound(s.decisions, d);
    FreshExactlyWhen(t, d, run);
    PassedExactlyWhen(EnabledCases(s, s.runs[run].dataset), ResultsOf(s, run),
                      s.tables.policies[policy].content.thresholds, mode);
  }

  // ---- Every allowed publish ----

  predicate SameRun(s: State, t: State, run: string) {
    run in s.runs && run in t.runs && t.runs[run] == s.runs[run].(status := t.runs[run].status)
  }

  lemma {:induction false} RunsKeepTheirContent(calls: seq<Call>, i: nat, run: string)
    requires i <= |calls| && run in After(calls[..i]).runs
    ensures SameRun(After(calls[..i]), After(calls), run)
    decreases |calls|
  {
    if i == |calls| {
      assert calls[..i] == calls;
    } else {
      var n := |calls| - 1;
      assert calls[..n][..i] == calls[..i];
      RunsKeepTheirContent(calls[..n], i, run);
      CallKeepsRun(After(calls[..n]), calls[n], run);
    }
  }

  lemma CallKeepsRun(s: State, c: Call, run: string)
    requires run in s.runs
    ensures SameRun(s, Apply(s, c), run)
  {}

  /** The run is on a version the policy names, and has the hash the policy requires of it. */
  predicate OnRequired(qs: seq<Requirement>, r: Run) { RequiredHash(qs, r.dataset) == Some(r.datasetHash) }

  /** The evaluation behind an allowed publish, and what it says about datasets: its one run was decided
    on and is still on one version, and that is a required one with the required hash exactly when the
    policy names the version. */
  lemma AllowedPublishOnRequiredExactlyWhen(calls: seq<Call>, candidate: Subject, bundle: string, policy: Option<Key>, now: nat)
    returns (i: nat)
    requires var r := AssertPublishAllowed(After(calls), candidate, bundle, policy, Required, now); r.Ok? && r.value.override.None?
    ensures policy.Some? && policy.value in After(calls).tables.policies
    ensures var s := After(calls); var content := s.tables.policies[policy.value].content;
            && Backed(calls, i, candidate, bundle, content.thresholds, s)
            && var run := calls[i].runId;
            && SameRun(After(calls[..i]), s, run) && Fits(s, s.runs[run], bundle)
            && (OnRequired(content.requirements, s.runs[run]) <==> Mentions(content.requirements, s.runs[run].dataset))
  {
    var s := After(calls);
    AllowedMeansFreshAndPassed(s, candidate, bundle, policy, now);
    var p := s.tables.policies[policy.value];
    var e := ExactKey(candidate, bundle, policy.value, p.hash);
    var d := FindExact(s.decisions, e).value;
    FoundIsStored(s.decisions, e);
    i := EveryDecisionWasTaken(calls, d);
    AfterIsGood(calls);
    PassedDecisionIsBacked(calls, i, d, bundle);
    var run := calls[i].runId;
    RunsKeepTheirContent(calls, i, run);
    FreshRunFits(s, d, run, candidate.hash, bundle);
    RequiredHashMeaning(p.content.requirements, s.runs[run].dataset);
  }

  lemma FreshRunFits(s: State, d: DecisionRow, run: string, hash: string, bundle: string)
    requires d.runIds == [run] && run in s.runs && s.runs[run].status == ER.Completed
    requires d.exact.policyKey in s.tables.policies && d.exact.candidateBundle == bundle
    requires Freshness(s, d, hash, bundle, d.exact.policyHash) == {}
    ensures Fits(s, s.runs[run], bundle)
    ensures HashAsRequired(s.tables.policies[d.exact.policyKey].content.requirements, s.runs[run])
  {
    var r := s.runs[run];
    assert FirstRun(s, d.runIds) == Some(r);
    var reasons := RunReasons(s, d, r);
    assert reasons <= Freshness(s, d, hash, bundle, d.exact.policyHash);
    assert RunMissing !in reasons && BundleChanged !in reasons && DatasetHashChanged !in reasons && DecisionMismatch !in reasons;
  }

  // ---- A publish for which no required dataset was ever evaluated ----

  const META := Meta("dataset", None, None, [], 1.0)
  const REQUIRED := Key("required", 1)
  const POLICY := Key("policy", 1)

  function RequiredCase(): Case { Mix.MixCase(0).(id := "required", dataset := REQUIRED) }

  function RequiringPolicy(resourceType: string, hash: Digest, t: Thresholds): PolicyContent {
    PolicyContent([Requirement(REQUIRED, hash)], [resourceType], t, "", false)
  }

  /** `t` has one more dataset version than `s`, published with one case. */
  ghost predicate AddedVersion(s: D.Tables, t: D.Tables, k: Key, c: Case) {
    && Laws.Valid(t) && Laws.OnlyTouches(s, t, k) && t.cases == s.cases + [c]
    && PublishedNow(t, k)
  }

  predicate PublishedNow(s: D.Tables, k: Key) {
    k in s.datasets && s.datasets[k].status == D.Published && s.datasets[k].hash == D.CurrentHash(s, k)
  }

  function Publishing(k: Key, c: Case): seq<Call> {
    [TablesCall(D.CreateDraftCall(k, META))] + ([TablesCall(D.UpsertCall(c))] + ([TablesCall(D.ReleaseCall(k, true))] + []))
  }

  lemma HasEnabledAppended(s: D.Tables, k: Key, c: Case)
    requires c in s.cases && c.dataset == k && c.enabled
    ensures D.HasEnabledCase(s, k)
  {
    D.CasesOfMembers(s.cases, k, c);
  }

  ghost predicate DraftWithCase(s: D.Tables, t: D.Tables, k: Key, c: Case) {
    && Laws.Valid(t) && Laws.OnlyTouches(s, t, k) && t.cases == s.cases + [c]
    && k in t.datasets && t.datasets[k].status == D.Draft
  }

  lemma CreatingDrafts(s: D.Tables, k: Key, c: Case)
    requires Laws.Valid(s) && k !in s.datasets && c.dataset == k && !D.HasCase(s.cases, c.id)
    ensures DraftWithCase(s, D.Upsert(D.CreateDraft(s, k, META).0, c).0, k, c)
  {
    var a := D.CreateDraft(s, k, META).0;
    Laws.CreateDraftOutcome(s, k, META);
    UpsertingDrafts(s, a, k, c);
  }

  lemma UpsertingDrafts(s: D.Tables, a: D.Tables, k: Key, c: Case)
    requires Laws.ReadyForCopies(a, k) && Laws.OnlyTouches(s, a, k) && a.cases == s.cases
    requires c.dataset == k && !D.HasCase(s.cases, c.id)
    ensures DraftWithCase(s, D.Upsert(a, c).0, k, c)
  {
    Laws.UpsertOutcome(a, c);
    Laws.UpsertTouches(a, c);
    Laws.UpsertKeepsValid(a, c);
    Laws.TouchTwice(s, a, D.Upsert(a, c).0, k);
  }

  lemma ReleasingPublishes(s: D.Tables, b: D.Tables, k: Key, c: Case)
    requires DraftWithCase(s, b, k, c) && c.dataset == k && c.enabled
    ensures AddedVersion(s, D.Release(b, k, D.Published).0, k, c)
  {
    assert c in b.cases;
    HasEnabledAppended(b, k, c);
    Laws.ReleaseOutcome(b, k, D.Published);
    Laws.TouchTwice(s, b, D.Release(b, k, D.Published).0, k);
  }

  function Made(s: D.Tables, k: Key, c: Case): D.Tables {
    D.Release(D.Upsert(D.CreateDraft(s, k, META).0, c).0, k, D.Published).0
  }

  lemma PublishingAdds(s: D.Tables, k: Key, c: Case)
    requires Laws.Valid(s) && k !in s.datasets && c.dataset == k && c.enabled && !D.HasCase(s.cases, c.id)
    ensures AddedVersion(s, Made(s, k, c), k, c)
  {
    CreatingDrafts(s, k, c);
    ReleasingPublishes(s, D.Upsert(D.CreateDraft(s, k, META).0, c).0, k, c);
  }

  lemma CreateApplied(s: State, k: Key)
    ensures Apply(s, TablesCall(D.CreateDraftCall(k, META))) == s.(tables := D.CreateDraft(s.tables, k, META).0)
  {}

  lemma UpsertApplied(s: State, c: Case)
    ensures Apply(s, TablesCall(D.UpsertCall(c))) == s.(tables := D.Upsert(s.tables, c).0)
  {}

  lemma ReleaseApplied(s: State, k: Key)
    ensures Apply(s, TablesCall(D.ReleaseCall(k, true))) == s.(tables := D.Release(s.tables, k, D.Published).0)
  {}

  lemma PublishingMakes(s: State, k: Key, c: Case)
    ensures Then(s, Publishing(k, c)) == s.(tables := Made(s.tables, k, c))
  {
    var a, b, r := TablesCall(D.CreateDraftCall(k, META)), TablesCall(D.UpsertCall(c)), TablesCall(D.ReleaseCall(k, true));
    var s1 := s.(tables := D.CreateDraft(s.tables, k, META).0);
    var s2 := s1.(tables := D.Upsert(s1.tables, c).0);
    CreateApplied(s, k);
    UpsertApplied(s1, c);
    ReleaseApplied(s2, k);
    ThenOne(s, a, s1, [b] + ([r] + []));
    ThenOne(s1, b, s2, [r] + []);
    ThenOne(s2, r, s2.(tables := D.Release(s2.tables, k, D.Published).0), []);
  }

  lemma AfterOne(calls: seq<Call>, c: Call)
    ensures After(calls + [c]) == Apply(After(calls), c)
  {
    assert (calls + [c])[..|calls|] == calls;
  }

  lemma AfterPublishing(calls: seq<Call>, k: Key, c: Case)
    requires k !in After(calls).tables.datasets && c.dataset == k && c.enabled && !D.HasCase(After(calls).tables.cases, c.id)
    ensures var s, t := After(calls), After(calls + Publishing(k, c));
            t == s.(tables := t.tables) && AddedVersion(s.tables, t.tables, k, c)
  {
    AfterIsGood(calls);
    PublishingAdds(After(calls).tables, k, c);
    PublishingMakes(After(calls), k, c);
    AfterThen(calls, Publishing(k, c));
  }

  lemma {:induction false} AfterThen(calls: seq<Call>, more: seq<Call>)
    ensures After(calls + more) == Then(After(calls), more)
    decreases |more|
  {
    if more == [] {
      assert calls + more == calls;
    } else {
      AfterOne(calls, more[0]);
      AfterThen(calls + [more[0]], more[1..]);
      ConcatOneMore(calls, more);
      ThenFirst(After(calls), more);
    }
  }

  lemma ConcatOneMore<T>(a: seq<T>, b: seq<T>)
    requires b != []
    ensures (a + [b[0]]) + b[1..] == a + b
  {}

  lemma ThenFirst(s: State, calls: seq<Call>)
    requires calls != []
    ensures Then(s, calls) == Then(Apply(s, calls[0]), calls[1..])
  {}

  lemma ThenOne(s: State, c: Call, t: State, more: seq<Call>)
    requires Apply(s, c) == t
    ensures Then(s, [c] + more) == Then(t, more)
  {
    assert ([c] + more)[1..] == more;
  }

  function OtherCase(): Case { Mix.MixCase(0) }

  const OTHER := Key("dataset", 1)

  /** Both versions are published with one case each. */
  ghost predicate TwoVersions(s: State) {
    && OnlyTables(s, [RequiredCase(), OtherCase()])
    && PublishedNow(s.tables, REQUIRED) && PublishedNow(s.tables, OTHER)
  }

  lemma OtherVersionStaysPublished(s: D.Tables, t: D.Tables, k: Key, other: Key)
    requires Laws.OnlyTouches(s, t, k) && other != k && PublishedNow(s, other)
    ensures PublishedNow(t, other)
  {
    assert Laws.SameDataset(s, t, other);
  }

  /** `s` is an empty system but for its tables, which hold these cases and no policy. */
  ghost predicate OnlyTables(s: State, cs: seq<Case>) {
    s == EMPTY.(tables := s.tables) && s.tables.policies == map[] && s.tables.cases == cs
  }

  lemma FirstVersion() returns (calls: seq<Call>)
    ensures var s := After(calls);
            OnlyTables(s, [RequiredCase()]) && PublishedNow(s.tables, REQUIRED) && OTHER !in s.tables.datasets
  {
    assert After([]) == EMPTY;
    AfterPublishing([], REQUIRED, RequiredCase());
    calls := [] + Publishing(REQUIRED, RequiredCase());
    FirstAdded(After(calls).tables, RequiredCase());
  }

  lemma FirstAdded(t: D.Tables, c: Case)
    requires Laws.OnlyTouches(D.EMPTY, t, REQUIRED) && t.cases == D.EMPTY.cases + [c]
    ensures t.cases == [c] && OTHER !in t.datasets && t.policies == map[]
  {
    assert REQUIRED.id[0] == 'r' && OTHER.id[0] == 'd';
  }

  lemma SecondVersion(calls: seq<Call>) returns (more: seq<Call>)
    requires OnlyTables(After(calls), [RequiredCase()]) && OTHER !in After(calls).tables.datasets
    ensures var s, t := After(calls), After(more);
            && OnlyTables(t, [RequiredCase(), OtherCase()]) && PublishedNow(t.tables, OTHER)
            && Laws.OnlyTouches(s.tables, t.tables, OTHER)
  {
    OtherCaseIsNew();
    AfterPublishing(calls, OTHER, OtherCase());
    more := calls + Publishing(OTHER, OtherCase());
    SecondAdded(After(calls).tables, After(more).tables, RequiredCase(), OtherCase());
  }

  lemma SecondAdded(s: D.Tables, t: D.Tables, a: Case, b: Case)
    requires Laws.OnlyTouches(s, t, OTHER) && t.cases == s.cases + [b] && s.cases == [a] && s.policies == map[]
    ensures t.cases == [a, b] && t.policies == map[]
  {}

  lemma TwoVersionsPublished() returns (calls: seq<Call>)
    ensures TwoVersions(After(calls))
  {
    var first := FirstVersion();
    calls := SecondVersion(first);
    assert REQUIRED.id[0] == 'r' && OTHER.id[0] == 'd';
    OtherVersionStaysPublished(After(first).tables, After(calls).tables, OTHER, REQUIRED);
  }

  lemma OtherCaseIsNew()
    ensures !D.HasCase([RequiredCase()], OtherCase().id)
  {
    assert |OtherCase().id| == 1 && |RequiredCase().id| == 8;
  }

  // ---- The policy ----

  function WithPolicy(s: D.Tables, content: PolicyContent): D.Tables {
    s.(policies := map[POLICY := D.GatePolicy(content, D.Published, PolicyDigest(POLICY, content), Some(1), 1)])
  }

  lemma PolicyIsPublished(s: State, content: PolicyContent)
    requires s.tables.policies == map[] && D.CheckRequirements(s.tables, content.requirements).Ok?
    ensures Then(s, PolicyCalls(content)) == s.(tables := WithPolicy(s.tables, content))
  {
    var create, release := D.CreatePolicyCall(POLICY, content, 0), D.ReleasePolicyCall(POLICY, true, 1);
    var m := s.tables.(policies := map[POLICY := D.DraftPolicy(POLICY, content, 0)]);
    assert D.Apply(s.tables, create).0 == m;
    SameCheck(s.tables, m, content.requirements);
    assert D.Apply(m, release).0 == WithPolicy(s.tables, content);
    ThenOne(s, TablesCall(create), s.(tables := m), [TablesCall(release)] + []);
    ThenOne(s.(tables := m), TablesCall(release), s.(tables := WithPolicy(s.tables, content)), []);
  }

  lemma SameCheck(s: D.Tables, m: D.Tables, qs: seq<Requirement>)
    requires m == s.(policies := m.policies)
    ensures D.CheckRequirements(m, qs).Ok? <==> D.CheckRequirements(s, qs).Ok?
  {
    Laws.CheckedRequirements(s, qs);
    Laws.CheckedRequirements(m, qs);
  }

  lemma RequirementIsMet(s: D.Tables, k: Key)
    requires PublishedNow(s, k)
    ensures D.CheckRequirements(s, [Requirement(k, s.datasets[k].hash)]).Ok?
  {
    Laws.CheckedRequirements(s, [Requirement(k, s.datasets[k].hash)]);
  }

  // ---- The evaluation ----

  function Evaluation(candidate: Subject, bundle: string, hash: Digest, rs: seq<CaseResult>): seq<Call> {
    [AddSnapshot("snapshot", Snapshot(candidate, bundle))]
    + ([AddPlan("plan", Plan(bundle, hash))]
       + ([CreateRun("run", Run(OTHER, hash, ER.Queued, "plan", "snapshot"))]
          + ([StoreResults("run", rs)]
             + ([MoveRun("run", ER.Completed)] + []))))
  }

  function Evaluated(s: State, candidate: Subject, bundle: string, hash: Digest, rs: seq<CaseResult>): State {
    s.(snapshots := map["snapshot" := Snapshot(candidate, bundle)], plans := map["plan" := Plan(bundle, hash)],
       runs := map["run" := Run(OTHER, hash, ER.Completed, "plan", "snapshot")],
       results := map["run" := rs])
  }

  lemma EvaluationEvaluates(s: State, candidate: Subject, bundle: string, hash: Digest, rs: seq<CaseResult>)
    requires s == EMPTY.(tables := s.tables)
    ensures Then(s, Evaluation(candidate, bundle, hash, rs)) == Evaluated(s, candidate, bundle, hash, rs)
  {
    var e := Evaluation(candidate, bundle, hash, rs);
    var run := Run(OTHER, hash, ER.Queued, "plan", "snapshot");
    var s1 := s.(snapshots := map["snapshot" := Snapshot(candidate, bundle)]);
    var s2 := s1.(plans := map["plan" := Plan(bundle, hash)]);
    var s3 := s2.(runs := map["run" := run]);
    ResultsStored(s3, run, rs);
    ThenOne(s2, e[2], s3, [e[3]] + ([e[4]] + []));
    ThenOne(s1, e[1], s2, [e[2]] + ([e[3]] + ([e[4]] + [])));
    ThenOne(s, e[0], s1, [e[1]] + ([e[2]] + ([e[3]] + ([e[4]] + []))));
  }

  lemma ResultsStored(s: State, run: Run, rs: seq<CaseResult>)
    requires s.runs == map["run" := run] && s.results == map[]
    ensures Then(s, [StoreResults("run", rs)] + ([MoveRun("run", ER.Completed)] + []))
            == s.(runs := map["run" := run.(status := ER.Completed)], results := map["run" := rs])
  {
    var t := s.(results := map["run" := rs]);
    ThenOne(t, MoveRun("run", ER.Completed), t.(runs := map["run" := run.(status := ER.Completed)]), []);
    ThenOne(s, StoreResults("run", rs), t, [MoveRun("run", ER.Completed)] + []);
  }

  lemma FullMarksMeet(cs: seq<Case>, rs: seq<CaseResult>, t: Thresholds)
    requires t.Valid() && Count(cs, rs, InPassed) == 1 && Count(cs, rs, InFailed) == 0
    requires WeightedScore(cs, rs) == 1.0 && forall c :: c in cs ==> !FailsGate(rs, c)
    ensures Meets(cs, rs, t)
  {
    assert PassRate(1, 0) == 1.0;
  }

  lemma OtherCaseMeets(rs: seq<CaseResult>, t: Thresholds)
    requires t.Valid() && Mix.MixLike(rs, 1, 0)
    ensures Meets(Mix.MixCases(1), rs, t)
  {
    Mix.MixCounts(rs, 1, 0, 1);
    Mix.MixScores(rs, 1, 0);
    FullMarksMeet(Mix.MixCases(1), rs, t);
  }

  lemma OtherCasesListed(s: State)
    requires s.tables.cases == [RequiredCase(), OtherCase()]
    ensures EnabledCases(s, OTHER) == Mix.MixCases(1)
  {
    var a, b := RequiredCase(), OtherCase();
    assert [a, b][1..] == [b] && [b][1..] == [];
    assert D.CasesOf([b], OTHER) == [b];
    assert a.dataset != OTHER;
    assert D.CasesOf([a, b], OTHER) == [b];
    assert [b][1..] == [] && Sort(CaseLe, [b]) == [b];
    assert EnabledOnly([b]) == [b];
    assert Mix.MixCases(1) == [b];
  }

  lemma DecidingKeeps(s: State, call: Call)
    requires call.DecideCall?
    ensures Apply(s, call).tables == s.tables && Apply(s, call).runs == s.runs
  {}

  /** The candidate was evaluated with these results on a version the policy does not require. */
  ghost predicate Ready(s: State, candidate: Subject, bundle: string, hash: Digest, t: Thresholds, rs: seq<CaseResult>) {
    && s == Evaluated(EMPTY.(tables := s.tables), candidate, bundle, hash, rs)
    && s.tables.cases == [RequiredCase(), OtherCase()]
    && s.tables.policies.Keys == {POLICY} && s.tables.policies[POLICY].status == D.Published
    && s.tables.policies[POLICY].content == RequiringPolicy(candidate.resourceType, RequiredDigest(s.tables), t)
  }

  function RequiredDigest(s: D.Tables): Digest {
    if REQUIRED in s.datasets then s.datasets[REQUIRED].hash else Digest(REQUIRED, META, [])
  }

  function PolicyCalls(content: PolicyContent): seq<Call> {
    [TablesCall(D.CreatePolicyCall(POLICY, content, 0))] + ([TablesCall(D.ReleasePolicyCall(POLICY, true, 1))] + [])
  }

  lemma GetPolicy(content: PolicyContent, two: seq<Call>)
    requires TwoVersions(After(two)) && content.requirements == [Requirement(REQUIRED, RequiredDigest(After(two).tables))]
    ensures After(two + PolicyCalls(content)) == After(two).(tables := WithPolicy(After(two).tables, content))
  {
    var s := After(two);
    RequirementIsMet(s.tables, REQUIRED);
    PolicyIsPublished(s, content);
    AfterThen(two, PolicyCalls(content));
  }

  lemma EvaluatedIsReady(s: State, candidate: Subject, bundle: string, hash: Digest, t: Thresholds, rs: seq<CaseResult>)
    requires OnlyTables(s, [RequiredCase(), OtherCase()])
    ensures var content := RequiringPolicy(candidate.resourceType, RequiredDigest(s.tables), t);
            Ready(Evaluated(s.(tables := WithPolicy(s.tables, content)), candidate, bundle, hash, rs), candidate, bundle, hash, t, rs)
  {}

  lemma GetReady(candidate: Subject, bundle: string, t: Thresholds, rs: seq<CaseResult>) returns (calls: seq<Call>, hash: Digest)
    ensures Ready(After(calls), candidate, bundle, hash, t, rs)
  {
    var two := TwoVersionsPublished();
    var s := After(two);
    var content := RequiringPolicy(candidate.resourceType, RequiredDigest(s.tables), t);
    var policyCalls := PolicyCalls(content);
    hash := s.tables.datasets[OTHER].hash;
    var evaluation := Evaluation(candidate, bundle, hash, rs);
    GetPolicy(content, two);
    EvaluationEvaluates(After(two + policyCalls), candidate, bundle, hash, rs);
    AfterThen(two + policyCalls, evaluation);
    EvaluatedIsReady(s, candidate, bundle, hash, t, rs);
    calls := two + policyCalls + evaluation;
  }

  lemma ReadyRunFits(s: State, candidate: Subject, bundle: string, hash: Digest, t: Thresholds, rs: seq<CaseResult>)
    requires Ready(s, candidate, bundle, hash, t, rs)
    ensures s.runs == map["run" := Run(OTHER, hash, ER.Completed, "plan", "snapshot")]
    ensures Fits(s, s.runs["run"], bundle) && "snapshot" in s.snapshots && s.snapshots["snapshot"] == Snapshot(candidate, bundle)
    ensures s.decisions == [] && ResultsOf(s, "run") == rs
  {}

  lemma OnlyRequiredIsMentioned(resourceType: string, hash: Digest, t: Thresholds)
    ensures Mentions(RequiringPolicy(resourceType, hash, t).requirements, REQUIRED)
    ensures RequiredHash(RequiringPolicy(resourceType, hash, t).requirements, OTHER) == None
  {
    var qs := RequiringPolicy(resourceType, hash, t).requirements;
    assert qs[0] in qs && qs[1..] == [];
    assert REQUIRED.id[0] == 'r' && OTHER.id[0] == 'd';
  }

  lemma NothingDecided(e: ExactKey)
    ensures FindExact([], e) == None
  {}

  const DECIDE := DecideCall("run", Some(POLICY), Required, 0)

  /** The publish after deciding, in a state that is ready. */
  lemma ReadyPublishes(s: State, candidate: Subject, bundle: string, hash: Digest, t: Thresholds, rs: seq<CaseResult>, now: nat)
    requires Ready(s, candidate, bundle, hash, t, rs) && Meets(Mix.MixCases(1), rs, t)
    ensures var verdict := AssertPublishAllowed(Apply(s, DECIDE), candidate, bundle, Some(POLICY), Required, now);
            verdict.Ok? && verdict.value.override.None?
  {
    ReadyRunFits(s, candidate, bundle, hash, t, rs);
    OnlyRequiredIsMentioned(candidate.resourceType, RequiredDigest(s.tables), t);
    OtherCasesListed(s);
    NothingDecided(DecisionFor(s, "run", POLICY, Required, 0).exact);
    PublishAfterDecisionExactlyWhen(s, "run", POLICY, Required, 0, now);
  }

  /** For all limits a policy may set: the only policy there is, for the candidate's type of resource,
    requires one version and is published, and the only run there ever is evaluates another, yet the
    publish is allowed without an override. */
  lemma AllowedOnAnotherDataset(t: Thresholds, candidate: Subject, bundle: string, now: nat) returns (calls: seq<Call>)
    requires t.Valid()
    ensures var s := After(calls); var verdict := AssertPublishAllowed(s, candidate, bundle, Some(POLICY), Required, now);
            && s.tables.policies.Keys == {POLICY} && s.tables.policies[POLICY].status == D.Published
            && s.tables.policies[POLICY].content.thresholds == t
            && s.tables.policies[POLICY].content.resourceTypes == [candidate.resourceType]
            && Mentions(s.tables.policies[POLICY].content.requirements, REQUIRED)
            && (forall run :: run in s.runs ==> s.runs[run].dataset != REQUIRED)
            && verdict.Ok? && verdict.value.override.None?
  {
    var rs := Mix.MixResults(1, 0);
    var ready, hash := GetReady(candidate, bundle, t, rs);
    Mix.MixResultsAreMixLike(1, 0);
    OtherCaseMeets(rs, t);
    calls := ready + [DECIDE];
    AfterOne(ready, DECIDE);
    DecidingKeeps(After(ready), DECIDE);
    ReadyPublishes(After(ready), candidate, bundle, hash, t, rs, now);
    ReadyRunFits(After(ready), candidate, bundle, hash, t, rs);
    OnlyRequiredIsMentioned(candidate.resourceType, RequiredDigest(After(ready).tables), t);
    assert REQUIRED.id[0] == 'r' && OTHER.id[0] == 'd';
  }

  // ---- A publish that rests on no result ----

  /** The publish is allowed without an override, on the decision that call `i` took. */
  ghost predicate AllowedBy(calls: seq<Call>, i: nat, candidate: Subject, bundle: string, policy: Key, now: nat) {
    var verdict := AssertPublishAllowed(After(calls), candidate, bundle, Some(policy), Required, now);
    && verdict.Ok? && verdict.value.override.None? && verdict.value.decision.Some?
    && TakenBy(calls, i, verdict.value.decision.value)
  }

  /** No enabled case had a result that counts when call `i` decided. */
  ghost predicate NothingCountedAt(calls: seq<Call>, i: nat) {
    && i < |calls| && calls[i].DecideCall?
    && var u := After(calls[..i]);
       calls[i].runId in u.runs
       && !SomeCounted(EnabledCases(u, u.runs[calls[i].runId].dataset), ResultsOf(u, calls[i].runId))
  }

  ghost predicate AllowedOnNothing(calls: seq<Call>, i: nat, candidate: Subject, bundle: string, policy: Key, now: nat, t: Thresholds) {
    && policy in After(calls).tables.policies && After(calls).tables.policies[policy].content.thresholds == t
    && AllowedBy(calls, i, candidate, bundle, policy, now) && NothingCountedAt(calls, i)
  }

  lemma DecidedOnNothing(u: State, c: Call, d: DecisionRow)
    requires Good(u) && Took(u, c, d) && d.exact.policyHash.content.thresholds.Valid()
    requires !SomeCounted(EnabledCases(u, u.runs[c.runId].dataset), ResultsOf(u, c.runId))
    ensures var t := d.exact.policyHash.content.thresholds;
            d.decision == DecisionPassed <==> t.minimumPassRate == 0.0 && t.minimumWeightedScore == 0.0
  {
    NothingCountedPassesExactlyWhen(EnabledCases(u, u.runs[c.runId].dataset), ResultsOf(u, c.runId),
                                    d.exact.policyHash.content.thresholds, c.mode);
  }

  /** The decision behind an allowed publish passed, under the content the policy has now. */
  lemma DecisionBehind(s: State, candidate: Subject, bundle: string, policy: Key, now: nat)
    requires Good(s)
    requires var r := AssertPublishAllowed(s, candidate, bundle, Some(policy), Required, now); r.Ok? && r.value.override.None?
    ensures policy in s.tables.policies
    ensures var found := AssertPublishAllowed(s, candidate, bundle, Some(policy), Required, now).value.decision;
            && found.Some? && found.value.decision == DecisionPassed
            && found.value.exact.policyHash.content == s.tables.policies[policy].content
  {
    AllowedMeansFreshAndPassed(s, candidate, bundle, Some(policy), now);
    FoundIsStored(s.decisions, ExactKey(candidate, bundle, policy, s.tables.policies[policy].hash));
  }

  lemma AllowedOnNothingHasNoLimits(calls: seq<Call>, i: nat, candidate: Subject, bundle: string, policy: Key, now: nat, t: Thresholds)
    requires t.Valid() && AllowedOnNothing(calls, i, candidate, bundle, policy, now, t)
    ensures t.minimumPassRate == 0.0 && t.minimumWeightedScore == 0.0
  {
    AfterIsGood(calls);
    AfterIsGood(calls[..i]);
    DecisionBehind(After(calls), candidate, bundle, policy, now);
    var d := AssertPublishAllowed(After(calls), candidate, bundle, Some(policy), Required, now).value.decision.value;
    DecidedOnNothing(After(calls[..i]), calls[i], d);
  }

  lemma NothingStoredNothingCounted(cs: seq<Case>)
    ensures !SomeCounted(cs, [])
  {}

  lemma OneDecisionTaken(s: State, call: Call, found: DecisionRow)
    requires s.decisions == [] && found in Apply(s, call).decisions
    ensures Took(s, call, found)
  {
    NewDecisionsAreTaken(s, call, found);
  }

  lemma AllowedFindsDecision(s: State, candidate: Subject, bundle: string, policy: Key, now: nat)
    requires var r := AssertPublishAllowed(s, candidate, bundle, Some(policy), Required, now); r.Ok? && r.value.override.None?
    ensures var found := AssertPublishAllowed(s, candidate, bundle, Some(policy), Required, now).value.decision;
            found.Some? && found.value in s.decisions
  {
    AllowedMeansFreshAndPassed(s, candidate, bundle, Some(policy), now);
    FoundIsStored(s.decisions, ExactKey(candidate, bundle, policy, s.tables.policies[policy].hash));
  }

  lemma NoLimitsAllowNothing(t: Thresholds, candidate: Subject, bundle: string, now: nat) returns (calls: seq<Call>, i: nat)
    requires t.Valid() && t.minimumPassRate == 0.0 && t.minimumWeightedScore == 0.0
    ensures AllowedOnNothing(calls, i, candidate, bundle, POLICY, now, t)
  {
    var ready, hash := GetReady(candidate, bundle, t, []);
    var s := After(ready);
    NothingStoredNothingCounted(Mix.MixCases(1));
    NothingCountedPassesExactlyWhen(Mix.MixCases(1), [], t, Required);
    PassedExactlyWhen(Mix.MixCases(1), [], t, Required);
    i := |ready|;
    calls := ready + [DECIDE];
    assert calls[..i] == ready;
    AfterOne(ready, DECIDE);
    DecidingKeeps(s, DECIDE);
    ReadyPublishes(s, candidate, bundle, hash, t, [], now);
    ReadyRunFits(s, candidate, bundle, hash, t, []);
    AllowedFindsDecision(After(calls), candidate, bundle, POLICY, now);
    OneDecisionTaken(s, DECIDE, AssertPublishAllowed(After(calls), candidate, bundle, Some(POLICY), Required, now).value.decision.value);
    OtherCasesListed(s);
  }

  /** Some run of calls allows a publish without an override although not one case was counted, exactly
    when the policy sets neither a least pass rate nor a least weighted score, as by default. */
  lemma AllowedOnNothingExactlyWhen(t: Thresholds, candidate: Subject, bundle: string, now: nat)
    requires t.Valid()
    ensures (exists calls, i, policy :: AllowedOnNothing(calls, i, candidate, bundle, policy, now, t))
            <==> t.minimumPassRate == 0.0 && t.minimumWeightedScore == 0.0
  {
    if t.minimumPassRate == 0.0 && t.minimumWeightedScore == 0.0 {
      var calls, i := NoLimitsAllowNothing(t, candidate, bundle, now);
    }
    if calls, i, policy :| AllowedOnNothing(calls, i, candidate, bundle, policy, now, t) {
      AllowedOnNothingHasNoLimits(calls, i, candidate, bundle, policy, now, t);
    }
  }
}
