/** The aggregate of one evaluation run, and the gate decision taken from it. */
module Aggregation {
  import opened Results
  import opened Lists
  import opened Reals
  import opened DatasetContent
  import opened GatePolicies
  import opened Scoring

  type UnitScore = s: real | 0.0 <= s <= 1.0

  datatype CaseResult = CaseResult(caseId: string, status: CaseStatus, score: Option<UnitScore>, metrics: seq<Metric>)

  datatype Aggregate = Aggregate(
    total: nat, completed: nat, passed: nat, failed: nat, skipped: nat,
    weightedScore: real, passRate: real, hardGateFailures: seq<Metric>)

  // ---- One case ----

  /** The results as a map by case id: the last result of a case wins. */
  function LastResult(rs: seq<CaseResult>, id: string): Option<CaseResult> {
    if rs == [] then None
    else
      var last := rs[|rs| - 1];
      if last.caseId == id then Some(last) else LastResult(rs[..|rs| - 1], id)
  }

  predicate Left(r: Option<CaseResult>) { r.None? || r.value.status == Skipped || r.value.status == Cancelled }

  predicate Counted(rs: seq<CaseResult>, c: Case) { !Left(LastResult(rs, c.id)) }

  function Points(rs: seq<CaseResult>, c: Case): UnitScore {
    var r := LastResult(rs, c.id);
    if r.Some? && r.value.score.Some? then r.value.score.value else 0.0
  }

  function FailedGates(ms: seq<Metric>): seq<Metric> {
    if ms == [] then [] else (if ms[0].hardGate && !ms[0].passed then [ms[0]] else []) + FailedGates(ms[1..])
  }

  function GatesOf(rs: seq<CaseResult>, c: Case): seq<Metric> {
    if Counted(rs, c) then FailedGates(LastResult(rs, c.id).value.metrics) else []
  }

  // ---- All cases ----

  datatype Bucket = InPassed | InFailed | InSkipped | InOpen

  function BucketOf(rs: seq<CaseResult>, c: Case): Bucket {
    var r := LastResult(rs, c.id);
    if Left(r) then InSkipped
    else if r.value.status == Passed then InPassed
    else if r.value.status == Failed || r.value.status == SystemError then InFailed
    else InOpen
  }

  function Buckets(cs: seq<Case>, rs: seq<CaseResult>): seq<Bucket> {
    seq(|cs|, i requires 0 <= i < |cs| => BucketOf(rs, cs[i]))
  }

  function Count(cs: seq<Case>, rs: seq<CaseResult>, k: Bucket): nat { multiset(Buckets(cs, rs))[k] }

  function WeightOf(rs: seq<CaseResult>, c: Case): real { if Counted(rs, c) then c.weight else 0.0 }

  function Contribution(r: CaseResult, c: Case): real {
    (if r.score.Some? then r.score.value else 0.0) * c.weight
  }

  function EarnedBy(rs: seq<CaseResult>, c: Case): real {
    if Counted(rs, c) then Contribution(LastResult(rs, c.id).value, c) else 0.0
  }

  function Weights(cs: seq<Case>, rs: seq<CaseResult>): seq<real> {
    seq(|cs|, i requires 0 <= i < |cs| => WeightOf(rs, cs[i]))
  }

  function Earned(cs: seq<Case>, rs: seq<CaseResult>): seq<real> {
    seq(|cs|, i requires 0 <= i < |cs| => EarnedBy(rs, cs[i]))
  }

  function AllGates(cs: seq<Case>, rs: seq<CaseResult>): seq<Metric> {
    if cs == [] then [] else AllGates(cs[..|cs| - 1], rs) + GatesOf(rs, cs[|cs| - 1])
  }

  function Ratio(x: real, y: real): real { if y > 0.0 then x / y else 0.0 }

  function WeightedScore(cs: seq<Case>, rs: seq<CaseResult>): real { Ratio(Sum(Earned(cs, rs)), Sum(Weights(cs, rs))) }

  function PassRate(passed: nat, failed: nat): real { Ratio(passed as real, (passed + failed) as real) }

  function Aggregated(cs: seq<Case>, rs: seq<CaseResult>): Aggregate {
    var passed, failed := Count(cs, rs, InPassed), Count(cs, rs, InFailed);
    Aggregate(|cs|, passed + failed, passed, failed, Count(cs, rs, InSkipped),
              WeightedScore(cs, rs), PassRate(passed, failed), AllGates(cs, rs))
  }

  /** The running sums are those of the cases seen so far. */
  ghost predicate SumsOf(cs: seq<Case>, rs: seq<CaseResult>, passed: nat, failed: nat, skipped: nat,
                         weight: real, points: real, gates: seq<Metric>)
  {
    && passed == Count(cs, rs, InPassed) && failed == Count(cs, rs, InFailed) && skipped == Count(cs, rs, InSkipped)
    && weight == Sum(Weights(cs, rs)) && points == Sum(Earned(cs, rs)) && gates == AllGates(cs, rs)
  }

  lemma OneMore(cs: seq<Case>, i: nat, rs: seq<CaseResult>, passed: nat, failed: nat, skipped: nat,
                weight: real, points: real, gates: seq<Metric>)
    requires i < |cs| && SumsOf(cs[..i], rs, passed, failed, skipped, weight, points, gates)
    ensures var c := cs[i]; var k := BucketOf(rs, c);
            SumsOf(cs[..i + 1], rs,
                   passed + (if k == InPassed then 1 else 0), failed + (if k == InFailed then 1 else 0),
                   skipped + (if k == InSkipped then 1 else 0),
                   weight + WeightOf(rs, c), points + EarnedBy(rs, c), gates + GatesOf(rs, c))
  {
    var a, b, c := cs[..i], cs[..i + 1], cs[i];
    assert b[..i] == a;
    ListsOfOneMore(a, c, rs);
    assert b == a + [c];
    SumOfOneMore(Weights(a, rs), WeightOf(rs, c));
    SumOfOneMore(Earned(a, rs), EarnedBy(rs, c));
  }

  lemma ListsOfOneMore(a: seq<Case>, c: Case, rs: seq<CaseResult>)
    ensures Weights(a + [c], rs) == Weights(a, rs) + [WeightOf(rs, c)]
    ensures Earned(a + [c], rs) == Earned(a, rs) + [EarnedBy(rs, c)]
    ensures forall k :: Count(a + [c], rs, k) == Count(a, rs, k) + if BucketOf(rs, c) == k then 1 else 0
  {
    assert Buckets(a + [c], rs) == Buckets(a, rs) + [BucketOf(rs, c)];
  }

  method CountCases(cs: seq<Case>, rs: seq<CaseResult>)
    returns (passed: nat, failed: nat, skipped: nat, denominator: real, weightedScore: real, hardGateFailures: seq<Metric>)
    ensures SumsOf(cs, rs, passed, failed, skipped, denominator, weightedScore, hardGateFailures)
  {
    weightedScore, denominator := 0.0, 0.0;
    passed, failed, skipped := 0, 0, 0;
    hardGateFailures := [];
    var i := 0;
    while i < |cs|
      invariant 0 <= i <= |cs|
      invariant SumsOf(cs[..i], rs, passed, failed, skipped, denominator, weightedScore, hardGateFailures)
    {
      OneMore(cs, i, rs, passed, failed, skipped, denominator, weightedScore, hardGateFailures);
      var c := cs[i];
      var result := LastResult(rs, c.id);
      i := i + 1;
      if result.None? || result.value.status == Skipped {
        skipped := skipped + 1;
        continue;
      }
      var status := result.value.status;
      if status == Passed {
        passed := passed + 1;
      } else if status == Failed {
        failed := failed + 1;
      } else if status == SystemError {
        failed := failed + 1;
      } else if status == Cancelled {
        skipped := skipped + 1;
      }
      if status == Cancelled { continue; }
      denominator := denominator + c.weight;
      weightedScore := weightedScore + Contribution(result.value, c);
      hardGateFailures := hardGateFailures + FailedGates(result.value.metrics);
    }
    assert cs[..i] == cs;
  }

  method AggregateRun(cs: seq<Case>, rs: seq<CaseResult>) returns (a: Aggregate)
    ensures a == Aggregated(cs, rs)
  {
    var passed, failed, skipped, denominator, weightedScore, gates := CountCases(cs, rs);
    var completed := passed + failed;
    a := Aggregate(|cs|, completed, passed, failed, skipped, Ratio(weightedScore, denominator), PassRate(passed, failed), gates);
  }

  // ---- Counts and rates ----

  lemma {:induction false} BucketsAddUp(ks: seq<Bucket>)
    ensures var m := multiset(ks); m[InPassed] + m[InFailed] + m[InSkipped] + m[InOpen] == |ks|
  {
    if ks == [] {
      assert multiset(ks) == multiset{};
    } else {
      BucketsAddUp(ks[1..]);
      assert ks == [ks[0]] + ks[1..];
      var m, rest := multiset(ks), multiset(ks[1..]);
      assert m == rest + multiset{ks[0]};
      match ks[0] case InPassed => case InFailed => case InSkipped => case InOpen =>
    }
  }

  lemma RatioIsAShare(x: real, y: real)
    requires 0.0 <= x <= y
    ensures 0.0 <= Ratio(x, y) <= 1.0
  {
    if y > 0.0 { Share(x, y); }
  }

  /** Every case is passed, failed, skipped or still open, and both rates are shares. */
  lemma CountsAddUp(cs: seq<Case>, rs: seq<CaseResult>)
    ensures var a := Aggregated(cs, rs);
            && a.passed + a.failed + a.skipped + Count(cs, rs, InOpen) == a.total == |cs|
            && 0.0 <= a.passRate <= 1.0 && 0.0 <= a.weightedScore <= 1.0
  {
    BucketsAddUp(Buckets(cs, rs));
    RatioIsAShare(Count(cs, rs, InPassed) as real, (Count(cs, rs, InPassed) + Count(cs, rs, InFailed)) as real);
    WeightedScoreLies(cs, rs, 0.0, 1.0);
  }

  // ---- The weighted score ----

  predicate ScoresWithin(cs: seq<Case>, rs: seq<CaseResult>, low: real, high: real) {
    forall c :: c in cs && Counted(rs, c) ==> low <= Points(rs, c) <= high
  }

  predicate SomeCounted(cs: seq<Case>, rs: seq<CaseResult>) { exists c :: c in cs && Counted(rs, c) }

  lemma DenominatorSign(cs: seq<Case>, rs: seq<CaseResult>)
    ensures Sum(Weights(cs, rs)) >= 0.0
    ensures Sum(Weights(cs, rs)) > 0.0 <==> SomeCounted(cs, rs)
  {
    var ws := Weights(cs, rs);
    SumSign(ws);
    if i :| 0 <= i < |ws| && ws[i] > 0.0 { assert cs[i] in cs && Counted(rs, cs[i]); }
    if c :| c in cs && Counted(rs, c) {
      var i :| 0 <= i < |cs| && cs[i] == c;
      assert ws[i] > 0.0;
    }
  }

  lemma OneWithin(rs: seq<CaseResult>, c: Case, low: real, high: real)
    requires Counted(rs, c) ==> low <= Points(rs, c) <= high
    ensures Between(low, WeightOf(rs, c), EarnedBy(rs, c), high)
  {
    if Counted(rs, c) {
      ProductKeepsOrder(low, Points(rs, c), c.weight);
      ProductKeepsOrder(Points(rs, c), high, c.weight);
    }
  }

  lemma SumsWithin(cs: seq<Case>, rs: seq<CaseResult>, low: real, high: real)
    requires ScoresWithin(cs, rs, low, high)
    ensures Between(low, Sum(Weights(cs, rs)), Sum(Earned(cs, rs)), high)
  {
    var ws, es := Weights(cs, rs), Earned(cs, rs);
    forall i | 0 <= i < |cs| ensures Between(low, ws[i], es[i], high) {
      assert cs[i] in cs;
      OneWithin(rs, cs[i], low, high);
    }
    SumBetween(low, ws, es, high);
  }

  lemma RatioLies(p: real, w: real, low: real, high: real)
    requires w > 0.0 && Between(low, w, p, high)
    ensures low <= Ratio(p, w) <= high
  {
    QuotientLies(p, w, low, high);
  }

  /** The weighted score lies between the least and the greatest counted score. It is 0 when nothing
    was counted. */
  lemma WeightedScoreLies(cs: seq<Case>, rs: seq<CaseResult>, low: real, high: real)
    requires ScoresWithin(cs, rs, low, high)
    ensures SomeCounted(cs, rs) ==> low <= WeightedScore(cs, rs) <= high
    ensures !SomeCounted(cs, rs) ==> WeightedScore(cs, rs) == 0.0
  {
    DenominatorSign(cs, rs);
    if SomeCounted(cs, rs) {
      SumsWithin(cs, rs, low, high);
      RatioLies(Sum(Earned(cs, rs)), Sum(Weights(cs, rs)), low, high);
    }
  }

  /** The same cases counted, each with at least the score it had. */
  predicate ScoresRaised(cs: seq<Case>, rs: seq<CaseResult>, better: seq<CaseResult>) {
    forall c :: c in cs ==> (Counted(rs, c) <==> Counted(better, c)) && Points(rs, c) <= Points(better, c)
  }

  lemma SumsRaised(cs: seq<Case>, rs: seq<CaseResult>, better: seq<CaseResult>)
    requires ScoresRaised(cs, rs, better)
    ensures Weights(cs, better) == Weights(cs, rs)
    ensures Sum(Earned(cs, rs)) <= Sum(Earned(cs, better))
  {
    var low, high := Earned(cs, rs), Earned(cs, better);
    forall i | 0 <= i < |cs| ensures low[i] <= high[i] && Weights(cs, rs)[i] == Weights(cs, better)[i] {
      var c := cs[i];
      assert c in cs;
      if Counted(rs, c) { ProductKeepsOrder(Points(rs, c), Points(better, c), c.weight); }
    }
    SumKeepsOrder(low, high);
  }

  /** Raising scores never lowers the weighted score. */
  lemma RaisingScoresNeverLowers(cs: seq<Case>, rs: seq<CaseResult>, better: seq<CaseResult>)
    requires ScoresRaised(cs, rs, better)
    ensures WeightedScore(cs, rs) <= WeightedScore(cs, better)
  {
    SumsRaised(cs, rs, better);
    RatioKeepsOrder(Sum(Earned(cs, rs)), Sum(Earned(cs, better)), Sum(Weights(cs, rs)));
  }

  lemma RatioKeepsOrder(p: real, q: real, w: real)
    requires p <= q
    ensures Ratio(p, w) <= Ratio(q, w)
  {
    if w > 0.0 { QuotientsKeepOrder(p, q, w); }
  }

  // ---- Order ----

  predicate SameResults(cs: seq<Case>, rs: seq<CaseResult>, rs': seq<CaseResult>) {
    forall c :: c in cs ==> LastResult(rs, c.id) == LastResult(rs', c.id)
  }

  /** How often a failed gate is reported for one case. */
  function GateCounter(rs: seq<CaseResult>, m: Metric): Case -> nat { c => multiset(GatesOf(rs, c))[m] }

  lemma {:induction false} GatesAreCounted(cs: seq<Case>, rs: seq<CaseResult>, m: Metric)
    ensures multiset(AllGates(cs, rs))[m] == Total(cs, GateCounter(rs, m))
  {
    if cs != [] { GatesAreCounted(cs[..|cs| - 1], rs, m); }
  }

  lemma GatesForgetOrder(a: seq<Case>, b: seq<Case>, rs: seq<CaseResult>)
    requires multiset(a) == multiset(b)
    ensures multiset(AllGates(a, rs)) == multiset(AllGates(b, rs))
  {
    forall m ensures multiset(AllGates(a, rs))[m] == multiset(AllGates(b, rs))[m] {
      GatesAreCounted(a, rs, m);
      GatesAreCounted(b, rs, m);
      TotalForgetsOrder(a, b, GateCounter(rs, m));
    }
  }

  lemma {:induction false} SameResultsSameGates(cs: seq<Case>, rs: seq<CaseResult>, rs': seq<CaseResult>)
    requires SameResults(cs, rs, rs')
    ensures AllGates(cs, rs) == AllGates(cs, rs')
  {
    if cs != [] {
      assert cs[|cs| - 1] in cs;
      SameResultsSameGates(cs[..|cs| - 1], rs, rs');
    }
  }

  lemma SameResultsSameBuckets(cs: seq<Case>, rs: seq<CaseResult>, rs': seq<CaseResult>)
    requires SameResults(cs, rs, rs')
    ensures Buckets(cs, rs) == Buckets(cs, rs')
  {
    forall i | 0 <= i < |cs| ensures Buckets(cs, rs)[i] == Buckets(cs, rs')[i] { assert cs[i] in cs; }
  }

  lemma SameResultsSameScore(cs: seq<Case>, rs: seq<CaseResult>, rs': seq<CaseResult>)
    requires SameResults(cs, rs, rs')
    ensures WeightedScore(cs, rs) == WeightedScore(cs, rs')
  {
    forall i | 0 <= i < |cs|
      ensures Weights(cs, rs)[i] == Weights(cs, rs')[i] && Earned(cs, rs)[i] == Earned(cs, rs')[i]
    {
      assert cs[i] in cs;
    }
    assert Weights(cs, rs) == Weights(cs, rs') && Earned(cs, rs) == Earned(cs, rs');
  }

  lemma SameResultsSameAggregate(cs: seq<Case>, rs: seq<CaseResult>, rs': seq<CaseResult>)
    requires SameResults(cs, rs, rs')
    ensures Aggregated(cs, rs) == Aggregated(cs, rs')
  {
    SameResultsSameBuckets(cs, rs, rs');
    SameResultsSameScore(cs, rs, rs');
    SameResultsSameGates(cs, rs, rs');
  }

  lemma CountsForgetOrder(a: seq<Case>, b: seq<Case>, rs: seq<CaseResult>)
    requires multiset(a) == multiset(b)
    ensures forall k :: Count(a, rs, k) == Count(b, rs, k)
  {
    ImageForgetsOrder(a, b, c => BucketOf(rs, c), Buckets(a, rs), Buckets(b, rs));
  }

  lemma WeightsForgetOrder(a: seq<Case>, b: seq<Case>, rs: seq<CaseResult>)
    requires multiset(a) == multiset(b)
    ensures WeightedScore(a, rs) == WeightedScore(b, rs)
  {
    ImageForgetsOrder(a, b, c => WeightOf(rs, c), Weights(a, rs), Weights(b, rs));
    ImageForgetsOrder(a, b, c => EarnedBy(rs, c), Earned(a, rs), Earned(b, rs));
    SumForgetsOrder(Weights(a, rs), Weights(b, rs));
    SumForgetsOrder(Earned(a, rs), Earned(b, rs));
  }

  /** Neither the order of the cases nor anything about the results but the last one of each case
    changes a number of the aggregate. */
  lemma AggregateForgetsOrder(a: seq<Case>, b: seq<Case>, rs: seq<CaseResult>, rs': seq<CaseResult>)
    requires multiset(a) == multiset(b) && SameResults(a, rs, rs')
    ensures Aggregated(a, rs).(hardGateFailures := []) == Aggregated(b, rs').(hardGateFailures := [])
    ensures multiset(Aggregated(a, rs).hardGateFailures) == multiset(Aggregated(b, rs').hardGateFailures)
  {
    SameResultsSameAggregate(a, rs, rs');
    assert |a| == |b| by { assert |multiset(a)| == |multiset(b)|; }
    CountsForgetOrder(a, b, rs');
    WeightsForgetOrder(a, b, rs');
    GatesForgetOrder(a, b, rs');
  }

  // ---- Failed gates ----

  lemma {:induction false} FailedGatesMeaning(ms: seq<Metric>, m: Metric)
    ensures m in FailedGates(ms) <==> m in ms && m.hardGate && !m.passed
  {
    if ms != [] {
      FailedGatesMeaning(ms[1..], m);
      assert ms == [ms[0]] + ms[1..];
    }
  }

  predicate FailsGate(rs: seq<CaseResult>, c: Case) {
    Counted(rs, c) && HardFailure(LastResult(rs, c.id).value.metrics)
  }

  lemma GatesOfMeaning(rs: seq<CaseResult>, c: Case)
    ensures GatesOf(rs, c) != [] <==> FailsGate(rs, c)
  {
    if Counted(rs, c) {
      var ms := LastResult(rs, c.id).value.metrics;
      forall m ensures m in FailedGates(ms) <==> m in ms && m.hardGate && !m.passed { FailedGatesMeaning(ms, m); }
      if FailedGates(ms) != [] { assert FailedGates(ms)[0] in FailedGates(ms); }
    }
  }

  lemma {:induction false} GatesCollected(cs: seq<Case>, rs: seq<CaseResult>)
    ensures AllGates(cs, rs) != [] <==> exists c :: c in cs && FailsGate(rs, c)
  {
    if cs != [] {
      var rest, last := cs[..|cs| - 1], cs[|cs| - 1];
      assert cs == rest + [last];
      GatesCollected(rest, rs);
      GatesOfMeaning(rs, last);
    }
  }

  // ---- The gate decision ----

  datatype Mode = Disabled | Advisory | Required

  datatype Decision = DecisionPassed | DecisionFailed | DecisionAdvisoryFailed

  datatype Reason = PassRateBelow | WeightedScoreBelow | HardGateFailed

  function Reasons(a: Aggregate, t: Thresholds): seq<Reason> {
    (if a.passRate < t.minimumPassRate then [PassRateBelow] else [])
    + (if a.weightedScore < t.minimumWeightedScore then [WeightedScoreBelow] else [])
    + (if |a.hardGateFailures| > 0 then [HardGateFailed] else [])
  }

  function Decide(a: Aggregate, t: Thresholds, mode: Mode): Decision {
    if Reasons(a, t) == [] then DecisionPassed
    else if mode == Advisory then DecisionAdvisoryFailed else DecisionFailed
  }

  method DecideGate(a: Aggregate, t: Thresholds, mode: Mode) returns (d: Decision, reasons: seq<Reason>)
    ensures d == Decide(a, t, mode) && reasons == Reasons(a, t)
  {
    reasons := [];
    if a.passRate < t.minimumPassRate { reasons := reasons + [PassRateBelow]; }
    if a.weightedScore < t.minimumWeightedScore { reasons := reasons + [WeightedScoreBelow]; }
    if |a.hardGateFailures| > 0 { reasons := reasons + [HardGateFailed]; }
    if |reasons| == 0 { return DecisionPassed, reasons; }
    d := if mode == Advisory then DecisionAdvisoryFailed else DecisionFailed;
  }

  ghost predicate Meets(cs: seq<Case>, rs: seq<CaseResult>, t: Thresholds) {
    && Aggregated(cs, rs).passRate >= t.minimumPassRate
    && Aggregated(cs, rs).weightedScore >= t.minimumWeightedScore
    && forall c :: c in cs ==> !FailsGate(rs, c)
  }

  /** The gate passes exactly when both thresholds are met and no counted case failed a hard gate. */
  lemma PassedExactlyWhen(cs: seq<Case>, rs: seq<CaseResult>, t: Thresholds, mode: Mode)
    ensures Decide(Aggregated(cs, rs), t, mode) == DecisionPassed <==> Meets(cs, rs, t)
  {
    GatesCollected(cs, rs);
  }

  /** The result a scored case stores. */
  function Stored(c: Case, ev: Evidence): CaseResult {
    CaseScoreMeaning(c, ev);
    var s := Score(c, ev);
    CaseResult(c.id, s.status, Some(s.score), s.metrics)
  }

  /** One unsafe case is enough: a forbidden tool call or a safety counter that is not zero keeps the
    gate from passing, whatever the policy's limits and mode. */
  lemma UnsafeCaseBlocksTheGate(cs: seq<Case>, rs: seq<CaseResult>, c: Case, ev: Evidence, t: Thresholds, mode: Mode)
    requires c in cs && LastResult(rs, c.id) == Some(Stored(c, ev)) && Unsafe(c, ev)
    ensures Decide(Aggregated(cs, rs), t, mode) != DecisionPassed
  {
    UnsafeNeverPasses(c, ev);
    assert FailsGate(rs, c);
    PassedExactlyWhen(cs, rs, t, mode);
  }

  lemma NoCountsWhenNothingCounted(cs: seq<Case>, rs: seq<CaseResult>, k: Bucket)
    requires !SomeCounted(cs, rs) && k != InSkipped
    ensures Count(cs, rs, k) == 0
  {
    var ks := Buckets(cs, rs);
    forall i | 0 <= i < |ks| ensures ks[i] != k { assert cs[i] in cs; }
    assert k !in ks;
    assert k !in multiset(ks);
  }

  /** With no case counted, as with no result at all, the gate passes exactly when the policy asks for no
    pass rate and no weighted score. */
  lemma NothingCountedPassesExactlyWhen(cs: seq<Case>, rs: seq<CaseResult>, t: Thresholds, mode: Mode)
    requires t.Valid() && !SomeCounted(cs, rs)
    ensures Decide(Aggregated(cs, rs), t, mode) == DecisionPassed
            <==> t.minimumPassRate == 0.0 && t.minimumWeightedScore == 0.0
  {
    NoCountsWhenNothingCounted(cs, rs, InPassed);
    NoCountsWhenNothingCounted(cs, rs, InFailed);
    DenominatorSign(cs, rs);
    assert forall c :: c in cs ==> !FailsGate(rs, c);
    PassedExactlyWhen(cs, rs, t, mode);
  }

  // ---- What the numbers are ----

  predicate LastAt(rs: seq<CaseResult>, id: string, i: nat) {
    i < |rs| && rs[i].caseId == id && forall j :: i < j < |rs| ==> rs[j].caseId != id
  }

  /** The last result stored for the case id. */
  ghost predicate IsLast(rs: seq<CaseResult>, id: string, r: CaseResult) { exists i: nat :: LastAt(rs, id, i) && rs[i] == r }

  lemma {:induction false} LastResultMeaning(rs: seq<CaseResult>, id: string)
    ensures LastResult(rs, id).None? <==> forall r :: r in rs ==> r.caseId != id
    ensures forall r :: IsLast(rs, id, r) <==> LastResult(rs, id) == Some(r)
  {
    if rs != [] {
      var n := |rs| - 1;
      LastResultMeaning(rs[..n], id);
      assert rs == rs[..n] + [rs[n]];
      if rs[n].caseId == id {
        assert LastAt(rs, id, n);
      } else {
        forall r ensures IsLast(rs, id, r) <==> IsLast(rs[..n], id, r) { LastOfFront(rs, id, r); }
      }
    }
  }

  lemma LastAtOfFront(rs: seq<CaseResult>, id: string, i: nat)
    requires rs != [] && rs[|rs| - 1].caseId != id
    ensures LastAt(rs, id, i) <==> LastAt(rs[..|rs| - 1], id, i)
  {}

  lemma LastOfFront(rs: seq<CaseResult>, id: string, r: CaseResult)
    requires rs != [] && rs[|rs| - 1].caseId != id
    ensures IsLast(rs, id, r) <==> IsLast(rs[..|rs| - 1], id, r)
  {
    forall i: nat ensures LastAt(rs, id, i) <==> LastAt(rs[..|rs| - 1], id, i) { LastAtOfFront(rs, id, i); }
  }

  ghost predicate LastIn(rs: seq<CaseResult>, c: Case, statuses: set<CaseStatus>) {
    exists r :: IsLast(rs, c.id, r) && r.status in statuses
  }

  ghost function NumberIn(cs: seq<Case>, rs: seq<CaseResult>, statuses: set<CaseStatus>): nat {
    if cs == [] then 0
    else NumberIn(cs[..|cs| - 1], rs, statuses) + if LastIn(rs, cs[|cs| - 1], statuses) then 1 else 0
  }

  /** The statuses that count. */
  const COUNTED: set<CaseStatus> := {Queued, Running, Passed, Failed, SystemError}

  ghost function CountedWeight(cs: seq<Case>, rs: seq<CaseResult>): real {
    if cs == [] then 0.0
    else CountedWeight(cs[..|cs| - 1], rs) + if LastIn(rs, cs[|cs| - 1], COUNTED) then cs[|cs| - 1].weight else 0.0
  }

  /** The score of a counted case times its own weight; no score counts as 0. */
  ghost function PointsOf(rs: seq<CaseResult>, c: Case): real {
    if exists r :: IsLast(rs, c.id, r) && r.status in COUNTED && r.score.Some?
    then var r :| IsLast(rs, c.id, r) && r.status in COUNTED && r.score.Some?; r.score.value * c.weight
    else 0.0
  }

  ghost function CountedPoints(cs: seq<Case>, rs: seq<CaseResult>): real {
    if cs == [] then 0.0 else CountedPoints(cs[..|cs| - 1], rs) + PointsOf(rs, cs[|cs| - 1])
  }

  lemma CountedMeaning(rs: seq<CaseResult>, c: Case)
    ensures Counted(rs, c) <==> LastIn(rs, c, COUNTED)
    ensures BucketOf(rs, c) == InPassed <==> LastIn(rs, c, {Passed})
    ensures BucketOf(rs, c) == InFailed <==> LastIn(rs, c, {Failed, SystemError})
    ensures BucketOf(rs, c) == InSkipped <==> !LastIn(rs, c, COUNTED)
  {
    LastResultMeaning(rs, c.id);
    if LastResult(rs, c.id).Some? { assert IsLast(rs, c.id, LastResult(rs, c.id).value); }
  }

  lemma EarnedMeaning(rs: seq<CaseResult>, c: Case)
    ensures PointsOf(rs, c) == EarnedBy(rs, c)
  {
    LastResultMeaning(rs, c.id);
    if LastResult(rs, c.id).Some? { assert IsLast(rs, c.id, LastResult(rs, c.id).value); }
  }

  lemma {:induction false} CountsMeaning(cs: seq<Case>, rs: seq<CaseResult>)
    ensures Count(cs, rs, InPassed) == NumberIn(cs, rs, {Passed})
    ensures Count(cs, rs, InFailed) == NumberIn(cs, rs, {Failed, SystemError})
    ensures Count(cs, rs, InSkipped) + NumberIn(cs, rs, COUNTED) == |cs|
  {
    if cs == [] {
      assert Buckets(cs, rs) == [];
    } else {
      var front, last := cs[..|cs| - 1], cs[|cs| - 1];
      assert cs == front + [last];
      CountsMeaning(front, rs);
      ListsOfOneMore(front, last, rs);
      CountedMeaning(rs, last);
    }
  }

  lemma {:induction false} WeightsMeaning(cs: seq<Case>, rs: seq<CaseResult>)
    ensures Sum(Weights(cs, rs)) == CountedWeight(cs, rs)
  {
    if cs == [] {
      assert Weights(cs, rs) == [];
    } else {
      var front, last := cs[..|cs| - 1], cs[|cs| - 1];
      assert cs == front + [last];
      WeightsMeaning(front, rs);
      ListsOfOneMore(front, last, rs);
      SumOfOneMore(Weights(front, rs), WeightOf(rs, last));
      CountedMeaning(rs, last);
    }
  }

  lemma {:induction false} PointsMeaning(cs: seq<Case>, rs: seq<CaseResult>)
    ensures Sum(Earned(cs, rs)) == CountedPoints(cs, rs)
  {
    if cs == [] {
      assert Earned(cs, rs) == [];
    } else {
      var front, last := cs[..|cs| - 1], cs[|cs| - 1];
      assert cs == front + [last];
      PointsMeaning(front, rs);
      ListsOfOneMore(front, last, rs);
      SumOfOneMore(Earned(front, rs), EarnedBy(rs, last));
      EarnedMeaning(rs, last);
    }
  }

  lemma {:induction false} GatesMeaning(cs: seq<Case>, rs: seq<CaseResult>, m: Metric)
    ensures m in AllGates(cs, rs) <==> FailedGateOf(cs, rs, m)
  {
    if cs != [] {
      var front, last := cs[..|cs| - 1], cs[|cs| - 1];
      assert cs == front + [last];
      GatesMeaning(front, rs, m);
      LastResultMeaning(rs, last.id);
      CountedMeaning(rs, last);
      if Counted(rs, last) {
        FailedGatesMeaning(LastResult(rs, last.id).value.metrics, m);
        assert IsLast(rs, last.id, LastResult(rs, last.id).value);
      }
    }
  }

  /** The share, as a product: a quotient of nothing is 0. */
  ghost predicate IsShare(rate: real, part: real, whole: real) {
    if whole > 0.0 then rate * whole == part else rate == 0.0
  }

  lemma RatioIsQuotient(x: real, y: real)
    ensures IsShare(Ratio(x, y), x, y)
  {
    if y > 0.0 { assert (x / y) * y == x; }
  }

  ghost predicate FailedGateOf(cs: seq<Case>, rs: seq<CaseResult>, m: Metric) {
    && m.hardGate && !m.passed
    && exists c, r :: c in cs && IsLast(rs, c.id, r) && r.status in COUNTED && m in r.metrics
  }

  lemma RatesMeaning(cs: seq<Case>, rs: seq<CaseResult>)
    ensures var a := Aggregated(cs, rs);
            && IsShare(a.passRate, a.passed as real, a.completed as real)
            && IsShare(a.weightedScore, CountedPoints(cs, rs), CountedWeight(cs, rs))
  {
    WeightsMeaning(cs, rs);
    PointsMeaning(cs, rs);
    RatioIsQuotient(Sum(Earned(cs, rs)), Sum(Weights(cs, rs)));
    RatioIsQuotient(Count(cs, rs, InPassed) as real, (Count(cs, rs, InPassed) + Count(cs, rs, InFailed)) as real);
  }

  lemma AllGatesMeaning(cs: seq<Case>, rs: seq<CaseResult>)
    ensures forall m :: m in Aggregated(cs, rs).hardGateFailures <==> FailedGateOf(cs, rs, m)
  {
    forall m ensures m in AllGates(cs, rs) <==> FailedGateOf(cs, rs, m) { GatesMeaning(cs, rs, m); }
  }

  /** The aggregate from the last result of each case: how many passed, failed or were left out, the share
    of the passed ones, the mean score by each case's own weight, and every failed gate of a counted case. */
  lemma AggregateMeaning(cs: seq<Case>, rs: seq<CaseResult>)
    ensures var a := Aggregated(cs, rs);
            && a.total == |cs| && a.passed == NumberIn(cs, rs, {Passed}) && a.failed == NumberIn(cs, rs, {Failed, SystemError})
            && a.completed == a.passed + a.failed && a.skipped + NumberIn(cs, rs, COUNTED) == |cs|
    ensures var a := Aggregated(cs, rs);
            && IsShare(a.passRate, a.passed as real, a.completed as real)
            && IsShare(a.weightedScore, CountedPoints(cs, rs), CountedWeight(cs, rs))
    ensures forall m :: m in Aggregated(cs, rs).hardGateFailures <==> FailedGateOf(cs, rs, m)
  {
    CountsMeaning(cs, rs);
    RatesMeaning(cs, rs);
    AllGatesMeaning(cs, rs);
  }
}
