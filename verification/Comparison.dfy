/** Comparing a candidate run with a baseline run, case by case. */
module Comparison {
  import opened Results
  import opened Lists
  import opened DatasetContent
  import opened Scoring
  import opened Aggregation

  /** What a comparison reads of a run. */
  datatype RunSummary = RunSummary(dataset: Key, hash: string, score: Option<real>, passed: nat, failed: nat)

  datatype Severity = NoRegression | Medium | High | Critical

  datatype Outcome =
    | NotComparable
    | Comparable(scoreDelta: real, passRateDelta: real, newlyFailed: seq<string>, newlyPassed: seq<string>,
                 unchangedFailures: seq<string>, severity: Severity)

  datatype Change = Missing | NewlyFailed | NewlyPassed | StillFailed | StillPassed

  predicate StatusPassed(rs: seq<CaseResult>, id: string) {
    var r := LastResult(rs, id);
    r.Some? && r.value.status == Passed
  }

  /** What became of one case of the candidate. */
  function ChangeOf(candidate: seq<CaseResult>, baseline: seq<CaseResult>, id: string): Change {
    if LastResult(candidate, id).None? || LastResult(baseline, id).None? then Missing
    else if StatusPassed(baseline, id)
    then if StatusPassed(candidate, id) then StillPassed else NewlyFailed
    else if StatusPassed(candidate, id) then NewlyPassed else StillFailed
  }

  /** The keys of the results as a map, in the order of their first insertion. */
  function Ids(rs: seq<CaseResult>): seq<string> {
    if rs == [] then []
    else
      var before := Ids(rs[..|rs| - 1]);
      var id := rs[|rs| - 1].caseId;
      if id in before then before else before + [id]
  }

  function Where(ids: seq<string>, candidate: seq<CaseResult>, baseline: seq<CaseResult>, change: Change): seq<string> {
    if ids == [] then []
    else
      var last := ids[|ids| - 1];
      Where(ids[..|ids| - 1], candidate, baseline, change)
      + if ChangeOf(candidate, baseline, last) == change then [last] else []
  }

  predicate SafetyRegression(candidate: seq<CaseResult>) {
    exists r :: r in candidate && HardFailure(r.metrics)
  }

  function SeverityOf(newFailures: nat, safety: bool): Severity {
    if safety then Critical else if newFailures >= 5 then High else if newFailures > 0 then Medium else NoRegression
  }

  function ScoreOrZero(r: RunSummary): real { if r.score.Some? then r.score.value else 0.0 }

  function Compared(c: RunSummary, candidate: seq<CaseResult>, b: RunSummary, baseline: seq<CaseResult>): Outcome {
    if c.dataset != b.dataset || c.hash != b.hash then NotComparable
    else
      var ids := Ids(candidate);
      var newlyFailed := Where(ids, candidate, baseline, NewlyFailed);
      Comparable(
        ScoreOrZero(c) - ScoreOrZero(b), PassRate(c.passed, c.failed) - PassRate(b.passed, b.failed),
        newlyFailed, Where(ids, candidate, baseline, NewlyPassed), Where(ids, candidate, baseline, StillFailed),
        SeverityOf(|newlyFailed|, SafetyRegression(candidate)))
  }

  method Compare(c: RunSummary, candidate: seq<CaseResult>, b: RunSummary, baseline: seq<CaseResult>) returns (r: Outcome)
    ensures r == Compared(c, candidate, b, baseline)
  {
    if c.dataset != b.dataset || c.hash != b.hash { return NotComparable; }
    var ids := Ids(candidate);
    var newlyFailed, newlyPassed, unchangedFailures: seq<string> := [], [], [];
    var i := 0;
    CandidateIds(candidate);
    while i < |ids|
      invariant 0 <= i <= |ids|
      invariant newlyFailed == Where(ids[..i], candidate, baseline, NewlyFailed)
      invariant newlyPassed == Where(ids[..i], candidate, baseline, NewlyPassed)
      invariant unchangedFailures == Where(ids[..i], candidate, baseline, StillFailed)
    {
      assert ids[..i + 1][..i] == ids[..i];
      var id := ids[i];
      i := i + 1;
      assert LastResult(candidate, id).Some?;
      if LastResult(baseline, id).None? { continue; }
      var was, now := StatusPassed(baseline, id), StatusPassed(candidate, id);
      if was && !now { newlyFailed := newlyFailed + [id]; }
      if !was && now { newlyPassed := newlyPassed + [id]; }
      if !was && !now { unchangedFailures := unchangedFailures + [id]; }
    }
    assert ids[..i] == ids;
    var severity := SeverityOf(|newlyFailed|, SafetyRegression(candidate));
    r := Comparable(
      ScoreOrZero(c) - ScoreOrZero(b), PassRate(c.passed, c.failed) - PassRate(b.passed, b.failed),
      newlyFailed, newlyPassed, unchangedFailures, severity);
  }

  // ---- The four lists ----

  lemma {:induction false} IdMeaning(rs: seq<CaseResult>, id: string)
    ensures id in Ids(rs) <==> LastResult(rs, id).Some?
  {
    if rs != [] { IdMeaning(rs[..|rs| - 1], id); }
  }

  lemma CandidateIds(rs: seq<CaseResult>)
    ensures forall id :: id in Ids(rs) <==> LastResult(rs, id).Some?
  {
    forall id ensures id in Ids(rs) <==> LastResult(rs, id).Some? { IdMeaning(rs, id); }
  }

  lemma {:induction false} IdsAreDistinct(rs: seq<CaseResult>)
    ensures NoRepeats(Ids(rs))
  {
    if rs != [] { IdsAreDistinct(rs[..|rs| - 1]); }
  }

  lemma {:induction false} WhereMeaning(ids: seq<string>, a: seq<CaseResult>, b: seq<CaseResult>, change: Change, id: string)
    ensures id in Where(ids, a, b, change) <==> id in ids && ChangeOf(a, b, id) == change
  {
    if ids != [] {
      var front, last := ids[..|ids| - 1], ids[|ids| - 1];
      WhereMeaning(front, a, b, change, id);
      assert ids == front + [last];
    }
  }

  lemma {:induction false} WhereIsDistinct(ids: seq<string>, a: seq<CaseResult>, b: seq<CaseResult>, change: Change)
    requires NoRepeats(ids)
    ensures NoRepeats(Where(ids, a, b, change))
  {
    if ids != [] {
      var front, last := ids[..|ids| - 1], ids[|ids| - 1];
      WhereIsDistinct(front, a, b, change);
      WhereMeaning(front, a, b, change, last);
    }
  }

  /** The cases both runs have a result for. */
  predicate Common(a: seq<CaseResult>, b: seq<CaseResult>, id: string) {
    LastResult(a, id).Some? && LastResult(b, id).Some?
  }

  function In(list: seq<string>, id: string): nat { if id in list then 1 else 0 }

  /** Newly failed, newly passed, unchanged failures and both passed partition the common cases: each
    common case is in exactly one of the lists and once in it, and no other case is in any. */
  lemma ListsPartitionTheCommonCases(a: seq<CaseResult>, b: seq<CaseResult>, id: string)
    ensures var ids := Ids(a);
            In(Where(ids, a, b, NewlyFailed), id) + In(Where(ids, a, b, NewlyPassed), id)
            + In(Where(ids, a, b, StillFailed), id) + In(Where(ids, a, b, StillPassed), id)
            == if Common(a, b, id) then 1 else 0
    ensures forall change :: NoRepeats(Where(Ids(a), a, b, change))
  {
    IdMeaning(a, id);
    IdsAreDistinct(a);
    WhereMeaning(Ids(a), a, b, NewlyFailed, id);
    WhereMeaning(Ids(a), a, b, NewlyPassed, id);
    WhereMeaning(Ids(a), a, b, StillFailed, id);
    WhereMeaning(Ids(a), a, b, StillPassed, id);
    forall change ensures NoRepeats(Where(Ids(a), a, b, change)) { WhereIsDistinct(Ids(a), a, b, change); }
  }

  // ---- Swapping candidate and baseline ----

  function Swapped(change: Change): Change {
    match change case NewlyFailed => NewlyPassed case NewlyPassed => NewlyFailed case _ => change
  }

  lemma SameIds(x: seq<string>, y: seq<string>)
    requires NoRepeats(x) && NoRepeats(y) && forall id :: id in x <==> id in y
    ensures multiset(x) == multiset(y)
  {
    forall id ensures multiset(x)[id] == multiset(y)[id] {
      CountWithoutRepeats(x, id);
      CountWithoutRepeats(y, id);
    }
  }

  lemma SwappedMember(a: seq<CaseResult>, b: seq<CaseResult>, change: Change, id: string)
    requires change != Missing
    ensures id in Where(Ids(a), a, b, change) <==> id in Where(Ids(b), b, a, Swapped(change))
  {
    IdMeaning(a, id);
    IdMeaning(b, id);
    WhereMeaning(Ids(a), a, b, change, id);
    WhereMeaning(Ids(b), b, a, Swapped(change), id);
  }

  lemma SwappedList(a: seq<CaseResult>, b: seq<CaseResult>, change: Change)
    requires change != Missing
    ensures multiset(Where(Ids(a), a, b, change)) == multiset(Where(Ids(b), b, a, Swapped(change)))
  {
    var x, y := Where(Ids(a), a, b, change), Where(Ids(b), b, a, Swapped(change));
    IdsAreDistinct(a);
    IdsAreDistinct(b);
    WhereIsDistinct(Ids(a), a, b, change);
    WhereIsDistinct(Ids(b), b, a, Swapped(change));
    forall id ensures id in x <==> id in y { SwappedMember(a, b, change, id); }
    SameIds(x, y);
  }

  /** Swapping the two runs swaps the newly failed with the newly passed cases, keeps the unchanged
    failures and negates both deltas. */
  lemma SwapMirrors(c: RunSummary, candidate: seq<CaseResult>, b: RunSummary, baseline: seq<CaseResult>)
    ensures var forth, back := Compared(c, candidate, b, baseline), Compared(b, baseline, c, candidate);
            && forth.NotComparable? == back.NotComparable?
            && (forth.Comparable? ==>
                  && multiset(forth.newlyFailed) == multiset(back.newlyPassed)
                  && multiset(forth.newlyPassed) == multiset(back.newlyFailed)
                  && multiset(forth.unchangedFailures) == multiset(back.unchangedFailures)
                  && forth.scoreDelta == -back.scoreDelta && forth.passRateDelta == -back.passRateDelta)
  {
    SwappedList(candidate, baseline, NewlyFailed);
    SwappedList(candidate, baseline, NewlyPassed);
    SwappedList(candidate, baseline, StillFailed);
  }

  // ---- A run against itself ----

  lemma {:induction false} NothingNew(ids: seq<string>, rs: seq<CaseResult>)
    ensures Where(ids, rs, rs, NewlyFailed) == [] && Where(ids, rs, rs, NewlyPassed) == []
  {
    if ids != [] { NothingNew(ids[..|ids| - 1], rs); }
  }

  /** A run compared with itself has nothing new and no delta, yet counts as a critical regression
    exactly when one of its results failed a hard gate: the baseline's gates are never looked at. */
  lemma SelfComparisonIsCriticalExactlyWhen(c: RunSummary, rs: seq<CaseResult>)
    ensures var r := Compared(c, rs, c, rs);
            && r.Comparable? && r.newlyFailed == [] && r.newlyPassed == [] && r.scoreDelta == 0.0 && r.passRateDelta == 0.0
            && r.severity == (if exists x :: x in rs && HardFailure(x.metrics) then Critical else NoRegression)
  {
    NothingNew(Ids(rs), rs);
  }

  // ---- What a comparison says ----

  /** The last result of the case passed, or there is one that did not. */
  ghost predicate Ended(rs: seq<CaseResult>, id: string, passed: bool) {
    exists r :: IsLast(rs, id, r) && (r.status == Passed <==> passed)
  }

  ghost predicate HasScore(c: RunSummary, x: real) { c.score == Some(x) || (c.score == None && x == 0.0) }

  ghost predicate HasPassRate(c: RunSummary, p: real) { IsShare(p, c.passed as real, (c.passed + c.failed) as real) }

  /** Some result failed a hard gate, whichever it is of its case. */
  ghost predicate SomeGateFailed(rs: seq<CaseResult>) {
    exists r, m :: r in rs && m in r.metrics && m.hardGate && !m.passed
  }

  lemma ChangeMeaning(a: seq<CaseResult>, b: seq<CaseResult>, id: string)
    ensures ChangeOf(a, b, id) == NewlyFailed <==> Ended(b, id, true) && Ended(a, id, false)
    ensures ChangeOf(a, b, id) == NewlyPassed <==> Ended(b, id, false) && Ended(a, id, true)
    ensures ChangeOf(a, b, id) == StillFailed <==> Ended(b, id, false) && Ended(a, id, false)
  {
    LastResultMeaning(a, id);
    LastResultMeaning(b, id);
    if LastResult(a, id).Some? { assert IsLast(a, id, LastResult(a, id).value); }
    if LastResult(b, id).Some? { assert IsLast(b, id, LastResult(b, id).value); }
  }

  lemma ListMeaning(a: seq<CaseResult>, b: seq<CaseResult>, id: string)
    ensures id in Where(Ids(a), a, b, NewlyFailed) <==> Ended(b, id, true) && Ended(a, id, false)
    ensures id in Where(Ids(a), a, b, NewlyPassed) <==> Ended(b, id, false) && Ended(a, id, true)
    ensures id in Where(Ids(a), a, b, StillFailed) <==> Ended(b, id, false) && Ended(a, id, false)
  {
    WhereMeaning(Ids(a), a, b, NewlyFailed, id);
    WhereMeaning(Ids(a), a, b, NewlyPassed, id);
    WhereMeaning(Ids(a), a, b, StillFailed, id);
    IdMeaning(a, id);
    ChangeMeaning(a, b, id);
  }

  /** Runs on the same dataset version and hash are compared: each case is listed by how its last results
    ended, the deltas are candidate less baseline, and the severity is critical for a failed gate of the
    candidate, else high from five newly failed cases on, else medium from one on. */
  lemma ComparisonMeaning(c: RunSummary, candidate: seq<CaseResult>, b: RunSummary, baseline: seq<CaseResult>)
    ensures var r := Compared(c, candidate, b, baseline);
            && (r.Comparable? <==> c.dataset == b.dataset && c.hash == b.hash)
            && (r.Comparable? ==>
                  && (exists x, y :: HasScore(c, x) && HasScore(b, y) && r.scoreDelta == x - y)
                  && (exists p, q :: HasPassRate(c, p) && HasPassRate(b, q) && r.passRateDelta == p - q)
                  && (forall id :: id in r.newlyFailed <==> Ended(baseline, id, true) && Ended(candidate, id, false))
                  && (forall id :: id in r.newlyPassed <==> Ended(baseline, id, false) && Ended(candidate, id, true))
                  && (forall id :: id in r.unchangedFailures <==> Ended(baseline, id, false) && Ended(candidate, id, false))
                  && NoRepeats(r.newlyFailed) && NoRepeats(r.newlyPassed) && NoRepeats(r.unchangedFailures)
                  && (r.severity == Critical <==> SomeGateFailed(candidate))
                  && (r.severity == High <==> !SomeGateFailed(candidate) && |r.newlyFailed| > 4)
                  && (r.severity == Medium <==> !SomeGateFailed(candidate) && 1 <= |r.newlyFailed| <= 4))
  {
    if c.dataset == b.dataset && c.hash == b.hash {
      DeltasMeaning(c, candidate, b, baseline);
      GateRegressionMeaning(candidate);
      IdsAreDistinct(candidate);
      forall change ensures NoRepeats(Where(Ids(candidate), candidate, baseline, change)) {
        WhereIsDistinct(Ids(candidate), candidate, baseline, change);
      }
      forall id
        ensures id in Where(Ids(candidate), candidate, baseline, NewlyFailed) <==> Ended(baseline, id, true) && Ended(candidate, id, false)
        ensures id in Where(Ids(candidate), candidate, baseline, NewlyPassed) <==> Ended(baseline, id, false) && Ended(candidate, id, true)
        ensures id in Where(Ids(candidate), candidate, baseline, StillFailed) <==> Ended(baseline, id, false) && Ended(candidate, id, false)
      {
        ListMeaning(candidate, baseline, id);
      }
    }
  }

  lemma GateRegressionMeaning(rs: seq<CaseResult>)
    ensures SafetyRegression(rs) <==> SomeGateFailed(rs)
  {
    if r :| r in rs && HardFailure(r.metrics) {
      var m :| m in r.metrics && m.hardGate && !m.passed;
    }
  }

  lemma DeltasMeaning(c: RunSummary, candidate: seq<CaseResult>, b: RunSummary, baseline: seq<CaseResult>)
    requires c.dataset == b.dataset && c.hash == b.hash
    ensures var r := Compared(c, candidate, b, baseline);
            && r.Comparable?
            && (exists x, y :: HasScore(c, x) && HasScore(b, y) && r.scoreDelta == x - y)
            && (exists p, q :: HasPassRate(c, p) && HasPassRate(b, q) && r.passRateDelta == p - q)
  {
    assert HasScore(c, ScoreOrZero(c)) && HasScore(b, ScoreOrZero(b));
    RatioIsQuotient(c.passed as real, (c.passed + c.failed) as real);
    RatioIsQuotient(b.passed as real, (b.passed + b.failed) as real);
    assert HasPassRate(c, PassRate(c.passed, c.failed)) && HasPassRate(b, PassRate(b.passed, b.failed));
  }
}
