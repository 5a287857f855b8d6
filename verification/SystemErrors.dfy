/** The greatest system error rate that a gate policy declares, and what the gate makes of it. */
module SystemErrors {
  import opened Results
  import opened Reals
  import opened Texts
  import opened DatasetContent
  import opened GatePolicies
  import opened Scoring
  import opened Aggregation

  predicate EndedInSystemError(rs: seq<CaseResult>, c: Case) {
    Counted(rs, c) && LastResult(rs, c.id).value.status == SystemError
  }

  function SystemErrorCount(cs: seq<Case>, rs: seq<CaseResult>): nat {
    if cs == [] then 0
    else SystemErrorCount(cs[..|cs| - 1], rs) + if EndedInSystemError(rs, cs[|cs| - 1]) then 1 else 0
  }

  /** The share of system errors among the completed cases. */
  function SystemErrorRate(cs: seq<Case>, rs: seq<CaseResult>): real {
    Ratio(SystemErrorCount(cs, rs) as real, (Count(cs, rs, InPassed) + Count(cs, rs, InFailed)) as real)
  }

  predicate AboveDeclaredRate(cs: seq<Case>, rs: seq<CaseResult>, t: Thresholds) {
    SystemErrorRate(cs, rs) > t.maximumSystemErrorRate
  }

  predicate Passes(cs: seq<Case>, rs: seq<CaseResult>, t: Thresholds, mode: Mode) {
    Decide(Aggregated(cs, rs), t, mode) == DecisionPassed
  }

  lemma {:induction false} SystemErrorsAreFailures(cs: seq<Case>, rs: seq<CaseResult>)
    ensures SystemErrorCount(cs, rs) <= Count(cs, rs, InFailed)
  {
    if cs != [] {
      var front, last := cs[..|cs| - 1], cs[|cs| - 1];
      assert cs == front + [last];
      SystemErrorsAreFailures(front, rs);
      ListsOfOneMore(front, last, rs);
    }
  }

  // ---- One run ----

  lemma RatioAbove(x: real, y: real, bound: real)
    requires y > 0.0
    ensures Ratio(x, y) > bound <==> x > bound * y
  {
    QuotientAtMost(x, y, bound);
  }

  lemma RatioAtLeast(x: real, y: real, bound: real)
    requires y > 0.0
    ensures Ratio(x, y) >= bound <==> x >= bound * y
  {
    QuotientAtLeast(x, y, bound);
  }

  /** That many errors among that many completed cases are above the rate. */
  predicate TooMany(errors: nat, completed: nat, most: real) { errors as real > most * completed as real }

  predicate Enough(passed: nat, completed: nat, least: real) { passed as real >= least * completed as real }

  lemma AboveMeansTooMany(errors: nat, completed: nat, most: real)
    requires most >= 0.0 && Ratio(errors as real, completed as real) > most
    ensures completed > 0 && errors > 0 && TooMany(errors, completed, most)
  {
    RatioAbove(errors as real, completed as real, most);
  }

  lemma PassRateMeaning(passed: nat, failed: nat, least: real)
    requires passed + failed > 0
    ensures PassRate(passed, failed) >= least <==> Enough(passed, passed + failed, least)
  {
    RatioAtLeast(passed as real, (passed + failed) as real, least);
  }

  lemma FailedCaseCounts(cs: seq<Case>, rs: seq<CaseResult>)
    requires Count(cs, rs, InFailed) > 0
    ensures SomeCounted(cs, rs)
  {
    var ks := Buckets(cs, rs);
    assert InFailed in multiset(ks);
    var i :| 0 <= i < |ks| && ks[i] == InFailed;
    assert cs[i] in cs && Counted(rs, cs[i]);
  }

  predicate EnoughPoints(cs: seq<Case>, rs: seq<CaseResult>, least: real) {
    Sum(Earned(cs, rs)) >= least * Sum(Weights(cs, rs))
  }

  lemma WeightedScoreMeaning(cs: seq<Case>, rs: seq<CaseResult>, least: real)
    requires SomeCounted(cs, rs)
    ensures WeightedScore(cs, rs) >= least <==> EnoughPoints(cs, rs, least)
  {
    DenominatorSign(cs, rs);
    RatioAtLeast(Sum(Earned(cs, rs)), Sum(Weights(cs, rs)), least);
  }

  lemma AboveRateHasErrors(cs: seq<Case>, rs: seq<CaseResult>, t: Thresholds)
    requires t.Valid() && AboveDeclaredRate(cs, rs, t)
    ensures SomeCounted(cs, rs) && Count(cs, rs, InPassed) + Count(cs, rs, InFailed) > 0
    ensures SystemErrorCount(cs, rs) <= Count(cs, rs, InFailed)
    ensures TooMany(SystemErrorCount(cs, rs), Count(cs, rs, InPassed) + Count(cs, rs, InFailed), t.maximumSystemErrorRate)
  {
    AboveMeansTooMany(SystemErrorCount(cs, rs), Count(cs, rs, InPassed) + Count(cs, rs, InFailed), t.maximumSystemErrorRate);
    SystemErrorsAreFailures(cs, rs);
    FailedCaseCounts(cs, rs);
  }

  /** Enough of the completed cases passed, the points reach the weighted minimum and no counted case
    failed a gate. */
  ghost predicate Suffices(cs: seq<Case>, rs: seq<CaseResult>, t: Thresholds) {
    && Enough(Count(cs, rs, InPassed), Count(cs, rs, InPassed) + Count(cs, rs, InFailed), t.minimumPassRate)
    && EnoughPoints(cs, rs, t.minimumWeightedScore)
    && forall c :: c in cs ==> !FailsGate(rs, c)
  }

  /** A run above the declared rate passes exactly when enough of its completed cases passed, its points
    reach the weighted minimum and no counted case failed a gate: the declared rate plays no part. */
  lemma AboveRatePassesExactlyWhen(cs: seq<Case>, rs: seq<CaseResult>, t: Thresholds, mode: Mode)
    requires t.Valid() && AboveDeclaredRate(cs, rs, t)
    ensures Passes(cs, rs, t, mode) <==> Suffices(cs, rs, t)
  {
    AboveRateHasErrors(cs, rs, t);
    PassRateMeaning(Count(cs, rs, InPassed), Count(cs, rs, InFailed), t.minimumPassRate);
    WeightedScoreMeaning(cs, rs, t.minimumWeightedScore);
    PassedExactlyWhen(cs, rs, t, mode);
  }

  // ---- A run of any mix ----

  const CHECKS := Checks(None, [], "", None, None, None, None)

  function MixCase(i: nat): Case {
    Case(Decimal(i), Key("dataset", 1), "case", None, "{}", [], CHECKS, [], [], 1.0, true)
  }

  function MixEvidence(error: bool): Evidence { Evidence(None, [], [], NO_COUNTERS, None, None, None, error) }

  function MixCases(n: nat): seq<Case> { seq(n, i requires 0 <= i < n => MixCase(i)) }

  /** The results that scoring stores for the first `errors` cases with a system error, the others without. */
  function MixResults(n: nat, errors: nat): seq<CaseResult> {
    seq(n, i requires 0 <= i < n => Stored(MixCase(i), MixEvidence(i < errors)))
  }

  /** Scoring gives a system error that broke no check full marks. */
  lemma MixIsScored(i: nat, error: bool)
    ensures var r := Stored(MixCase(i), MixEvidence(error));
            r.status == (if error then SystemError else Passed) && r.score == Some(1.0) && !HardFailure(r.metrics)
  {
    var c, ev := MixCase(i), MixEvidence(error);
    assert c.forbiddenTools == [] && c.checks.expectedCalls == [] && ev.finalChecks == [];
    assert !Unsafe(c, ev) && EveryCheckHolds(c, ev) && NoneMetShort(c, ev);
    CaseScoreMeaning(c, ev);
    HardFailureExactlyWhenUnsafe(c, ev);
    if !error { FaultlessCaseAtTheEnds(c, ev); }
  }

  /** Results of the first `n` mix cases, the first `errors` of them system errors, all with full marks. */
  ghost predicate MixLike(rs: seq<CaseResult>, n: nat, errors: nat) {
    && |rs| == n
    && forall i :: 0 <= i < n ==>
         && rs[i].caseId == Decimal(i) && rs[i].score == Some(1.0) && !HardFailure(rs[i].metrics)
         && rs[i].status == if i < errors then SystemError else Passed
  }

  lemma MixResultsAreMixLike(n: nat, errors: nat)
    ensures MixLike(MixResults(n, errors), n, errors)
  {
    forall i | 0 <= i < n
      ensures var r := MixResults(n, errors)[i];
              && r.caseId == Decimal(i) && r.score == Some(1.0) && !HardFailure(r.metrics)
              && r.status == if i < errors then SystemError else Passed
    {
      MixIsScored(i, i < errors);
    }
  }

  lemma {:induction false} LastOfItsId(rs: seq<CaseResult>, i: nat)
    requires i < |rs| && forall j :: i < j < |rs| ==> rs[j].caseId != rs[i].caseId
    ensures LastResult(rs, rs[i].caseId) == Some(rs[i])
  {
    if i < |rs| - 1 { LastOfItsId(rs[..|rs| - 1], i); }
  }

  lemma MixLastResult(rs: seq<CaseResult>, n: nat, errors: nat, i: nat)
    requires MixLike(rs, n, errors) && i < n
    ensures LastResult(rs, Decimal(i)) == Some(rs[i])
  {
    forall j | i < j < n ensures rs[j].caseId != rs[i].caseId {
      DecimalsDiffer(i, j);
    }
    LastOfItsId(rs, i);
  }

  lemma MixOutcome(rs: seq<CaseResult>, n: nat, errors: nat, i: nat)
    requires MixLike(rs, n, errors) && i < n
    ensures var c := MixCase(i);
            && Counted(rs, c) && Points(rs, c) == 1.0 && !FailsGate(rs, c)
            && BucketOf(rs, c) == (if i < errors then InFailed else InPassed)
            && (EndedInSystemError(rs, c) <==> i < errors)
  {
    MixLastResult(rs, n, errors, i);
  }

  lemma ErrorsOfOneMore(a: seq<Case>, c: Case, rs: seq<CaseResult>)
    ensures SystemErrorCount(a + [c], rs) == SystemErrorCount(a, rs) + if EndedInSystemError(rs, c) then 1 else 0
  {
    assert (a + [c])[..|a|] == a;
  }

  lemma MixGrows(k: nat)
    requires k > 0
    ensures MixCases(k) == MixCases(k - 1) + [MixCase(k - 1)]
  {}

  /** One more completed case, with a system error or passed. */
  lemma OneMoreCompleted(a: seq<Case>, c: Case, rs: seq<CaseResult>, error: bool)
    requires BucketOf(rs, c) == (if error then InFailed else InPassed)
    requires EndedInSystemError(rs, c) <==> error
    ensures var wrong := if error then 1 else 0;
            && Count(a + [c], rs, InFailed) == Count(a, rs, InFailed) + wrong
            && Count(a + [c], rs, InPassed) == Count(a, rs, InPassed) + 1 - wrong
            && SystemErrorCount(a + [c], rs) == SystemErrorCount(a, rs) + wrong
  {
    ListsOfOneMore(a, c, rs);
    ErrorsOfOneMore(a, c, rs);
  }

  lemma NoCasesNoCounts(rs: seq<CaseResult>)
    ensures Count(MixCases(0), rs, InFailed) == 0 && Count(MixCases(0), rs, InPassed) == 0
    ensures SystemErrorCount(MixCases(0), rs) == 0
  {
    assert Buckets(MixCases(0), rs) == [];
  }

  lemma {:induction false} MixCounts(rs: seq<CaseResult>, n: nat, errors: nat, k: nat)
    requires MixLike(rs, n, errors) && errors <= n && k <= n
    ensures var cs := MixCases(k); var wrong := if k < errors then k else errors;
            && Count(cs, rs, InFailed) == wrong && Count(cs, rs, InPassed) == k - wrong
            && SystemErrorCount(cs, rs) == wrong
  {
    if k == 0 {
      NoCasesNoCounts(rs);
    } else {
      MixCounts(rs, n, errors, k - 1);
      MixGrows(k);
      MixOutcome(rs, n, errors, k - 1);
      OneMoreCompleted(MixCases(k - 1), MixCase(k - 1), rs, k - 1 < errors);
    }
  }

  lemma MixScores(rs: seq<CaseResult>, n: nat, errors: nat)
    requires MixLike(rs, n, errors) && 0 < n
    ensures WeightedScore(MixCases(n), rs) == 1.0 && SomeCounted(MixCases(n), rs)
    ensures forall c :: c in MixCases(n) ==> !FailsGate(rs, c)
  {
    var cs := MixCases(n);
    forall i | 0 <= i < n
      ensures Counted(rs, cs[i]) && Points(rs, cs[i]) == 1.0 && !FailsGate(rs, cs[i])
    {
      MixOutcome(rs, n, errors, i);
    }
    assert cs[0] in cs;
    WeightedScoreLies(cs, rs, 1.0, 1.0);
  }

  lemma RateMeaning(cs: seq<Case>, rs: seq<CaseResult>, most: real)
    requires Count(cs, rs, InPassed) + Count(cs, rs, InFailed) > 0
    ensures SystemErrorRate(cs, rs) > most
            <==> TooMany(SystemErrorCount(cs, rs), Count(cs, rs, InPassed) + Count(cs, rs, InFailed), most)
  {
    RatioTooMany(SystemErrorCount(cs, rs), Count(cs, rs, InPassed) + Count(cs, rs, InFailed), most);
  }

  lemma RatioTooMany(errors: nat, completed: nat, most: real)
    requires completed > 0
    ensures Ratio(errors as real, completed as real) > most <==> TooMany(errors, completed, most)
  {
    RatioAbove(errors as real, completed as real, most);
  }

  lemma MixIsAbove(rs: seq<CaseResult>, n: nat, errors: nat, most: real)
    requires MixLike(rs, n, errors) && 0 < n && errors <= n && TooMany(errors, n, most)
    ensures SystemErrorRate(MixCases(n), rs) > most
  {
    MixCounts(rs, n, errors, n);
    RateMeaning(MixCases(n), rs, most);
    assert Count(MixCases(n), rs, InPassed) + Count(MixCases(n), rs, InFailed) == n;
  }

  lemma MixHasThePasses(rs: seq<CaseResult>, n: nat, errors: nat, least: real)
    requires MixLike(rs, n, errors) && errors <= n && Enough(n - errors, n, least)
    ensures var cs := MixCases(n); Enough(Count(cs, rs, InPassed), Count(cs, rs, InPassed) + Count(cs, rs, InFailed), least)
  {
    MixCounts(rs, n, errors, n);
    assert Count(MixCases(n), rs, InPassed) + Count(MixCases(n), rs, InFailed) == n;
  }

  lemma MixHasThePoints(rs: seq<CaseResult>, n: nat, errors: nat, least: real)
    requires MixLike(rs, n, errors) && 0 < n && least <= 1.0
    ensures EnoughPoints(MixCases(n), rs, least) && forall c :: c in MixCases(n) ==> !FailsGate(rs, c)
  {
    MixScores(rs, n, errors);
    WeightedScoreMeaning(MixCases(n), rs, least);
  }

  lemma MixSuffices(rs: seq<CaseResult>, n: nat, errors: nat, t: Thresholds)
    requires MixLike(rs, n, errors) && t.Valid() && 0 < n && errors <= n && Enough(n - errors, n, t.minimumPassRate)
    ensures Suffices(MixCases(n), rs, t)
  {
    MixHasThePasses(rs, n, errors, t.minimumPassRate);
    MixHasThePoints(rs, n, errors, t.minimumWeightedScore);
  }

  /** A mix is above a declared rate and passes, if it has that many errors and that many passes. */
  lemma MixLikePasses(rs: seq<CaseResult>, n: nat, errors: nat, t: Thresholds, mode: Mode)
    requires MixLike(rs, n, errors) && t.Valid() && 0 < n && errors <= n
    requires TooMany(errors, n, t.maximumSystemErrorRate) && Enough(n - errors, n, t.minimumPassRate)
    ensures AboveDeclaredRate(MixCases(n), rs, t) && Passes(MixCases(n), rs, t, mode)
  {
    MixIsAbove(rs, n, errors, t.maximumSystemErrorRate);
    MixSuffices(rs, n, errors, t);
    AboveRatePassesExactlyWhen(MixCases(n), rs, t, mode);
  }

  lemma MixPasses(n: nat, errors: nat, t: Thresholds, mode: Mode)
    requires t.Valid() && 0 < n && errors <= n
    requires TooMany(errors, n, t.maximumSystemErrorRate) && Enough(n - errors, n, t.minimumPassRate)
    ensures AboveDeclaredRate(MixCases(n), MixResults(n, errors), t) && Passes(MixCases(n), MixResults(n, errors), t, mode)
  {
    MixResultsAreMixLike(n, errors);
    MixLikePasses(MixResults(n, errors), n, errors, t, mode);
  }

  // ---- The policy ----

  /** A run above the declared rate that passes. */
  predicate SlipsThrough(cs: seq<Case>, rs: seq<CaseResult>, t: Thresholds, mode: Mode) {
    AboveDeclaredRate(cs, rs, t) && Passes(cs, rs, t, mode)
  }

  ghost predicate KeepsDeclaredRate(t: Thresholds, mode: Mode) {
    forall cs, rs :: !SlipsThrough(cs, rs, t, mode)
  }

  lemma TooFewPassed(passed: nat, failed: nat, errors: nat, least: real, most: real)
    requires least + most >= 1.0 && errors <= failed && TooMany(errors, passed + failed, most)
    ensures !Enough(passed, passed + failed, least)
  {
    SharesExceed(least, most, (passed + failed) as real, passed as real, errors as real);
  }

  lemma HighPassRateKeepsTheRate(cs: seq<Case>, rs: seq<CaseResult>, t: Thresholds, mode: Mode)
    requires t.Valid() && t.minimumPassRate + t.maximumSystemErrorRate >= 1.0 && AboveDeclaredRate(cs, rs, t)
    ensures !Passes(cs, rs, t, mode)
  {
    AboveRateHasErrors(cs, rs, t);
    TooFewPassed(Count(cs, rs, InPassed), Count(cs, rs, InFailed), SystemErrorCount(cs, rs),
                 t.minimumPassRate, t.maximumSystemErrorRate);
    AboveRatePassesExactlyWhen(cs, rs, t, mode);
  }

  lemma SomeRunSlipsThrough(t: Thresholds, mode: Mode) returns (cs: seq<Case>, rs: seq<CaseResult>)
    requires t.Valid() && t.minimumPassRate + t.maximumSystemErrorRate < 1.0
    ensures SlipsThrough(cs, rs, t, mode)
  {
    var n, errors, m := SplitByRates(t.maximumSystemErrorRate, t.minimumPassRate);
    assert (n - errors) as real == m - errors as real;
    MixPasses(n, errors, t, mode);
    cs, rs := MixCases(n), MixResults(n, errors);
  }

  /** A policy's declared greatest system error rate is kept exactly when its least pass rate implies it:
    when the two add up to 1 at least. Otherwise some run above it passes. */
  lemma DeclaredRateKeptExactlyWhen(t: Thresholds, mode: Mode)
    requires t.Valid()
    ensures KeepsDeclaredRate(t, mode) <==> t.minimumPassRate + t.maximumSystemErrorRate >= 1.0
  {
    if t.minimumPassRate + t.maximumSystemErrorRate >= 1.0 {
      forall cs, rs ensures !SlipsThrough(cs, rs, t, mode) {
        if AboveDeclaredRate(cs, rs, t) { HighPassRateKeepsTheRate(cs, rs, t, mode); }
      }
    } else {
      var cs, rs := SomeRunSlipsThrough(t, mode);
    }
  }

  /** The limits a policy has when it names none: no system error is declared to be acceptable, yet a run
    of a single system error passes. */
  lemma OneSystemErrorPasses(others: string, mode: Mode)
    ensures var t := Thresholds(0.0, 0.0, 0.0, others); var cs, rs := MixCases(1), MixResults(1, 1);
            && LastResult(rs, cs[0].id).value.status == SystemError
            && AboveDeclaredRate(cs, rs, t) && Passes(cs, rs, t, mode)
  {
    MixResultsAreMixLike(1, 1);
    MixLastResult(MixResults(1, 1), 1, 1, 0);
    MixPasses(1, 1, Thresholds(0.0, 0.0, 0.0, others), mode);
  }
}
