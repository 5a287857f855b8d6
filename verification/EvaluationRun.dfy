/** The life of one evaluation run.

  `markRunning`, `markCancellationRequested` and `cancel` read the row first and update it later,
  guarded by the status in the update's own condition; `complete` and `fail` are one guarded
  update. Any number of calls may be between their read and their write, so a write carries the
  row its read saw.
 */
module EvaluationRun {
  import opened Results

  datatype Status = Queued | Running | Cancelling | Completed | Failed | Cancelled

  datatype Totals = Totals(passed: nat, failed: nat, skipped: nat, score: real)

  datatype Run = Run(
    status: Status, startedAt: Option<nat>, cancellationRequestedAt: Option<nat>, completedAt: Option<nat>,
    aggregate: Option<Totals>, error: Option<string>)

  predicate Terminal(s: Status) { s == Completed || s == Failed || s == Cancelled }

  // ---- The calls, as a read and a guarded write ----

  datatype Op = MarkRunning | MarkCancellationRequested | Cancel(partial: Option<Totals>)

  /** The read may already answer the call. */
  predicate AnsweredByRead(op: Op, seen: Run) {
    match op
    case MarkRunning => seen.status == Cancelling || seen.status == Cancelled
    case MarkCancellationRequested => Terminal(seen.status)
    case Cancel(_) => seen.status == Cancelled
  }

  /** The update, which looks at the row as it is now but copies the time its read saw. */
  function Write(row: Run, op: Op, seen: Run, now: nat): Run {
    match op
    case MarkRunning =>
      if row.status == Queued || row.status == Running then row.(status := Running, startedAt := Some(now)) else row
    case MarkCancellationRequested =>
      if row.status == Queued || row.status == Running || row.status == Cancelling
      then row.(status := Cancelling,
                cancellationRequestedAt := if seen.cancellationRequestedAt.Some? then seen.cancellationRequestedAt else Some(now))
      else row
    case Cancel(partial) =>
      if row.status == Queued || row.status == Running || row.status == Cancelling
      then row.(status := Cancelled, completedAt := Some(now),
                aggregate := if partial.Some? then partial else row.aggregate)
      else row
  }

  function Complete(row: Run, result: Totals, now: nat): Run {
    if row.status == Running || row.status == Completed
    then row.(status := Completed, completedAt := Some(now), aggregate := Some(result))
    else row
  }

  function Fail(row: Run, code: string, now: nat): Run {
    if row.status != Completed && row.status != Cancelled
    then row.(status := Failed, completedAt := Some(now), error := Some(code))
    else row
  }

  // ---- The interleaved machine ----

  datatype Pending = Pending(op: Op, seen: Run)

  datatype State = State(row: Run, pending: map<nat, Pending>)

  datatype Step =
    | Read(caller: nat, op: Op)
    | WriteOf(caller: nat, now: nat)
    | CompleteNow(result: Totals, now: nat)
    | FailNow(code: string, now: nat)

  predicate Enabled(s: State, step: Step) {
    match step
    case Read(c, _) => c !in s.pending
    case WriteOf(c, _) => c in s.pending
    case _ => true
  }

  function Next(s: State, step: Step): State
    requires Enabled(s, step)
  {
    match step
    case Read(c, op) => if AnsweredByRead(op, s.row) then s else s.(pending := s.pending[c := Pending(op, s.row)])
    case WriteOf(c, now) => State(Write(s.row, s.pending[c].op, s.pending[c].seen, now), s.pending - {c})
    case CompleteNow(result, now) => s.(row := Complete(s.row, result, now))
    case FailNow(code, now) => s.(row := Fail(s.row, code, now))
  }

  ghost predicate Runs(s: State, steps: seq<Step>, t: State)
    decreases |steps|
  {
    if steps == [] then s == t else Enabled(s, steps[0]) && Runs(Next(s, steps[0]), steps[1..], t)
  }

  const NEW_RUN := Run(Queued, None, None, None, None, None)

  // ---- What every interleaving keeps ----

  predicate CompletedAtMatches(row: Run) { row.completedAt.Some? <==> Terminal(row.status) }

  /** The whole graph of status changes. */
  predicate Edge(from: Status, to: Status) {
    || from == to
    || (from == Queued && to != Completed)
    || (from == Running && to != Queued)
    || (from == Cancelling && (to == Failed || to == Cancelled))
  }

  lemma StepFollowsEdges(s: State, step: Step)
    requires Enabled(s, step) && CompletedAtMatches(s.row)
    ensures Edge(s.row.status, Next(s, step).row.status)
    ensures CompletedAtMatches(Next(s, step).row)
  {}

  /** Whatever reads and writes interleave: a terminal status is kept for ever, a run that has entered
    cancelling is never running or completed again, and `completedAt` is set exactly when the status
    is terminal. */
  lemma {:induction false} RunLifecycle(s: State, steps: seq<Step>, t: State)
    requires Runs(s, steps, t) && CompletedAtMatches(s.row)
    ensures CompletedAtMatches(t.row)
    ensures Terminal(s.row.status) ==> t.row.status == s.row.status
    ensures s.row.status == Cancelling ==> t.row.status in {Cancelling, Failed, Cancelled}
    ensures t.row.status == Queued ==> s.row.status == Queued
    decreases |steps|
  {
    if steps != [] {
      StepFollowsEdges(s, steps[0]);
      RunLifecycle(Next(s, steps[0]), steps[1..], t);
    }
  }

  lemma CompletedAtOfNewRun(steps: seq<Step>, t: State)
    requires Runs(State(NEW_RUN, map[]), steps, t)
    ensures t.row.completedAt.Some? <==> Terminal(t.row.status)
  {
    RunLifecycle(State(NEW_RUN, map[]), steps, t);
  }

  /** The statuses that answer a call at once. */
  function Answering(op: Op): set<Status> {
    match op
    case MarkRunning => {Cancelling, Cancelled}
    case MarkCancellationRequested => {Completed, Failed, Cancelled}
    case Cancel(_) => {Cancelled}
  }

  /** A read changes no row. It leaves an update pending, with the row it saw, unless that row answers it. */
  lemma ReadsLeaveAnUpdate(s: State, caller: nat, op: Op)
    requires Enabled(s, Read(caller, op))
    ensures var n := Next(s, Read(caller, op));
            n == if s.row.status in Answering(op) then s else State(s.row, s.pending[caller := Pending(op, s.row)])
  {}

  // ---- The time of the cancellation request ----

  /** A request writes the time its read saw, or now when it saw none. */
  function Written(seen: Option<nat>, now: nat): nat { if seen.Some? then seen.value else now }

  /** The time a step writes as a request, if it is a request whose update takes effect. */
  function RequestWrite(s: State, step: Step): Option<nat>
    requires Enabled(s, step)
  {
    if step.WriteOf? && s.pending[step.caller].op == MarkCancellationRequested && !Terminal(s.row.status)
    then Some(Written(s.pending[step.caller].seen.cancellationRequestedAt, step.now))
    else None
  }

  /** A request recorded once is meant to keep its time. A step changes it exactly when it is the update
    of a request, the row is not terminal, and the time that request carries is another one: either
    its read was older than the first record, or it saw a time that has been overwritten since. */
  lemma RequestTimeChangesExactlyWhen(s: State, step: Step)
    requires Enabled(s, step) && s.row.cancellationRequestedAt.Some?
    ensures Next(s, step).row.cancellationRequestedAt != s.row.cancellationRequestedAt
            <==> && step.WriteOf? && s.pending[step.caller].op == MarkCancellationRequested
                 && !Terminal(s.row.status)
                 && Some(Written(s.pending[step.caller].seen.cancellationRequestedAt, step.now)) != s.row.cancellationRequestedAt
  {}

  /** The times written by the requests of a run whose update takes effect, in order. */
  function RequestWrites(s: State, steps: seq<Step>): seq<nat>
    decreases |steps|
  {
    if steps == [] || !Enabled(s, steps[0]) then []
    else
      var w := RequestWrite(s, steps[0]);
      (if w.Some? then [w.value] else []) + RequestWrites(Next(s, steps[0]), steps[1..])
  }

  /** No step of the run changes a time once it is recorded. */
  ghost predicate TimeSurvives(s: State, steps: seq<Step>)
    decreases |steps|
  {
    steps == [] || (Enabled(s, steps[0]) ==>
      && (s.row.cancellationRequestedAt.Some?
          ==> Next(s, steps[0]).row.cancellationRequestedAt == s.row.cancellationRequestedAt)
      && TimeSurvives(Next(s, steps[0]), steps[1..]))
  }

  predicate AllAre<T(==)>(ws: seq<T>, w: T) { forall k :: 0 <= k < |ws| ==> ws[k] == w }

  lemma WriteIsStored(s: State, step: Step)
    requires Enabled(s, step)
    ensures var w := RequestWrite(s, step);
            Next(s, step).row.cancellationRequestedAt == if w.Some? then w else s.row.cancellationRequestedAt
  {}

  lemma {:induction false} TimeSurvivesWhen(s: State, steps: seq<Step>, t: State)
    requires Runs(s, steps, t)
    ensures var ws := RequestWrites(s, steps);
            TimeSurvives(s, steps)
            <==> (if s.row.cancellationRequestedAt.Some? then AllAre(ws, s.row.cancellationRequestedAt.value)
                  else ws == [] || AllAre(ws, ws[0]))
    decreases |steps|
  {
    if steps != [] {
      var n := Next(s, steps[0]);
      var rest := RequestWrites(n, steps[1..]);
      TimeSurvivesWhen(n, steps[1..], t);
      WriteIsStored(s, steps[0]);
      var w := RequestWrite(s, steps[0]);
      if w.Some? {
        assert RequestWrites(s, steps) == [w.value] + rest;
        AllAreMore(w.value, rest);
      } else {
        assert RequestWrites(s, steps) == rest;
      }
    }
  }

  lemma AllAreMore<T(!new)>(w: T, rest: seq<T>)
    ensures forall v :: AllAre([w] + rest, v) <==> w == v && AllAre(rest, v)
  {
    forall v | AllAre([w] + rest, v) ensures w == v && AllAre(rest, v) {
      assert ([w] + rest)[0] == w;
      forall k | 0 <= k < |rest| ensures rest[k] == v { assert ([w] + rest)[k + 1] == rest[k]; }
    }
  }

  /** Over a whole run of a new row, the first recorded time survives exactly when every request that
    takes effect writes that same time. */
  lemma FirstTimeSurvivesExactlyWhen(steps: seq<Step>, t: State)
    requires Runs(State(NEW_RUN, map[]), steps, t)
    ensures var ws := RequestWrites(State(NEW_RUN, map[]), steps);
            TimeSurvives(State(NEW_RUN, map[]), steps) <==> forall k :: 0 <= k < |ws| ==> ws[k] == ws[0]
  {
    TimeSurvivesWhen(State(NEW_RUN, map[]), steps, t);
  }

  /** Two requests that both read before either writes: the second overwrites the first's time. A third
    that read in between then puts the first one's back. */
  lemma OverlappingRequestsLoseTheFirstTime()
    ensures exists t, u ::
              && Runs(State(NEW_RUN, map[]),
                      [Read(0, MarkCancellationRequested), Read(1, MarkCancellationRequested), WriteOf(0, 10),
                       Read(2, MarkCancellationRequested), WriteOf(1, 20)], t)
              && t.row.cancellationRequestedAt == Some(20)
              && Runs(t, [WriteOf(2, 30)], u) && u.row.cancellationRequestedAt == Some(10)
  {
    var steps := [Read(0, MarkCancellationRequested), Read(1, MarkCancellationRequested), WriteOf(0, 10),
                  Read(2, MarkCancellationRequested), WriteOf(1, 20)];
    var s0 := State(NEW_RUN, map[]);
    var s1 := Next(s0, steps[0]);
    var s2 := Next(s1, steps[1]);
    var s3 := Next(s2, steps[2]);
    var s4 := Next(s3, steps[3]);
    var t := Next(s4, steps[4]);
    RunsCons(t, [], t);
    RunsCons(s4, steps[4..], t);
    RunsCons(s3, steps[3..], t);
    RunsCons(s2, steps[2..], t);
    RunsCons(s1, steps[1..], t);
    RunsCons(s0, steps, t);
    var u := Next(t, WriteOf(2, 30));
    RunsCons(t, [WriteOf(2, 30)], u);
  }

  lemma RunsCons(s: State, steps: seq<Step>, t: State)
    requires if steps == [] then s == t else Enabled(s, steps[0]) && Runs(Next(s, steps[0]), steps[1..], t)
    ensures Runs(s, steps, t)
  {}

  // ---- The outcome of a run that is over ----

  datatype Outcome = Result(totals: Totals) | Code(code: string)

  /** A completed run has its result and a failed one its error code. */
  predicate Decided(row: Run) { row.status == Completed || row.status == Failed }

  predicate OutcomeStored(row: Run) {
    (row.status == Completed ==> row.aggregate.Some?) && (row.status == Failed ==> row.error.Some?)
  }

  function StoredOutcome(row: Run): Outcome
    requires Decided(row) && OutcomeStored(row)
  {
    if row.status == Completed then Result(row.aggregate.value) else Code(row.error.value)
  }

  /** A run that is over is meant to keep what it ended with. A step changes the result exactly when it
    completes a completed run with another result, the error exactly when it fails a failed run with
    another code, and the completion time only then. */
  lemma OutcomeChangesExactlyWhen(s: State, step: Step)
    requires Enabled(s, step) && Terminal(s.row.status)
    ensures var row, next := s.row, Next(s, step).row;
            && (next.aggregate != row.aggregate
                <==> row.status == Completed && step.CompleteNow? && Some(step.result) != row.aggregate)
            && (next.error != row.error
                <==> row.status == Failed && step.FailNow? && Some(step.code) != row.error)
            && (next.completedAt != row.completedAt
                <==> && ((row.status == Completed && step.CompleteNow?) || (row.status == Failed && step.FailNow?))
                     && Some(step.now) != row.completedAt)
            && next == row.(aggregate := next.aggregate, error := next.error, completedAt := next.completedAt)
  {}

  /** The outcome a step stores, if it completes or fails the run. */
  function OutcomeWrite(s: State, step: Step): Option<Outcome> {
    match step
    case CompleteNow(result, _) =>
      if s.row.status == Running || s.row.status == Completed then Some(Result(result)) else None
    case FailNow(code, _) =>
      if s.row.status != Completed && s.row.status != Cancelled then Some(Code(code)) else None
    case _ => None
  }

  /** The outcomes stored by the completions and failures of a run that take effect, in order. */
  function OutcomeWrites(s: State, steps: seq<Step>): seq<Outcome>
    decreases |steps|
  {
    if steps == [] || !Enabled(s, steps[0]) then []
    else
      var w := OutcomeWrite(s, steps[0]);
      (if w.Some? then [w.value] else []) + OutcomeWrites(Next(s, steps[0]), steps[1..])
  }

  /** No step of the run changes the result of a completed or the error of a failed run. */
  ghost predicate OutcomeSurvives(s: State, steps: seq<Step>)
    decreases |steps|
  {
    steps == [] || (Enabled(s, steps[0]) ==>
      && (Decided(s.row) ==>
            Next(s, steps[0]).row.aggregate == s.row.aggregate && Next(s, steps[0]).row.error == s.row.error)
      && OutcomeSurvives(Next(s, steps[0]), steps[1..]))
  }

  lemma OutcomeIsStored(s: State, step: Step)
    requires Enabled(s, step) && OutcomeStored(s.row)
    ensures var w, row, next := OutcomeWrite(s, step), s.row, Next(s, step).row;
            && OutcomeStored(next)
            && (w.Some? ==> Decided(next) && StoredOutcome(next) == w.value)
            && (w.Some? && Decided(row) ==>
                  (next.aggregate == row.aggregate && next.error == row.error <==> w.value == StoredOutcome(row)))
            && (w.None? ==> (Decided(next) <==> Decided(row)))
            && (w.None? && Decided(row) ==> next == row)
  {}

  lemma {:induction false} OutcomeSurvivesWhen(s: State, steps: seq<Step>, t: State)
    requires Runs(s, steps, t) && OutcomeStored(s.row)
    ensures var ws := OutcomeWrites(s, steps);
            OutcomeSurvives(s, steps)
            <==> (if Decided(s.row) then AllAre(ws, StoredOutcome(s.row)) else ws == [] || AllAre(ws, ws[0]))
    decreases |steps|
  {
    if steps != [] {
      var n := Next(s, steps[0]);
      var rest := OutcomeWrites(n, steps[1..]);
      OutcomeIsStored(s, steps[0]);
      OutcomeSurvivesWhen(n, steps[1..], t);
      var w := OutcomeWrite(s, steps[0]);
      if w.Some? {
        assert OutcomeWrites(s, steps) == [w.value] + rest;
        AllAreMore(w.value, rest);
      } else {
        assert OutcomeWrites(s, steps) == rest;
      }
    }
  }

  /** Over a whole run of a new row, the first result of a completed run, or the first error of a failed
    one, survives exactly when every completion or failure that takes effect carries that same one. */
  lemma FirstOutcomeSurvivesExactlyWhen(steps: seq<Step>, t: State)
    requires Runs(State(NEW_RUN, map[]), steps, t)
    ensures var ws := OutcomeWrites(State(NEW_RUN, map[]), steps);
            OutcomeSurvives(State(NEW_RUN, map[]), steps) <==> forall k :: 0 <= k < |ws| ==> ws[k] == ws[0]
  {
    OutcomeSurvivesWhen(State(NEW_RUN, map[]), steps, t);
  }

  /** A new run, started and completed twice, ends with the second result. */
  lemma CompletedResultIsReplaced(first: Totals, second: Totals)
    ensures exists t, u ::
              && Runs(State(NEW_RUN, map[]), [Read(0, MarkRunning), WriteOf(0, 10), CompleteNow(first, 20)], t)
              && t.row.status == Completed && t.row.aggregate == Some(first)
              && Runs(t, [CompleteNow(second, 30)], u)
              && u.row.status == Completed && u.row.aggregate == Some(second)
  {
    var steps := [Read(0, MarkRunning), WriteOf(0, 10), CompleteNow(first, 20)];
    var s0 := State(NEW_RUN, map[]);
    var s1 := Next(s0, steps[0]);
    var s2 := Next(s1, steps[1]);
    var t := Next(s2, steps[2]);
    RunsCons(t, [], t);
    RunsCons(s2, steps[2..], t);
    RunsCons(s1, steps[1..], t);
    RunsCons(s0, steps, t);
    var u := Next(t, CompleteNow(second, 30));
    RunsCons(t, [CompleteNow(second, 30)], u);
  }

  /** A run failed twice ends with the second error. */
  lemma FailedErrorIsReplaced(first: string, second: string)
    ensures exists t, u ::
              && Runs(State(NEW_RUN, map[]), [FailNow(first, 10)], t)
              && t.row.status == Failed && t.row.error == Some(first)
              && Runs(t, [FailNow(second, 20)], u)
              && u.row.status == Failed && u.row.error == Some(second)
  {
    var s0 := State(NEW_RUN, map[]);
    var t := Next(s0, FailNow(first, 10));
    var u := Next(t, FailNow(second, 20));
    RunsCons(s0, [FailNow(first, 10)], t);
    RunsCons(t, [FailNow(second, 20)], u);
  }

  // ---- Whole calls, on the row in place ----

  function Whole(row: Run, op: Op, now: nat): Run {
    if AnsweredByRead(op, row) then row else Write(row, op, row, now)
  }

  class RunRow {
    var row: Run

    constructor ()
      ensures row == NEW_RUN
    {
      row := NEW_RUN;
    }

    method MarkRunning(now: nat)
      modifies this
      ensures row == Whole(old(row), Op.MarkRunning, now)
    {
      if row.status == Cancelling || row.status == Cancelled { return; }
      if row.status == Queued || row.status == Running {
        row := row.(status := Running, startedAt := Some(now));
      }
    }

    method MarkCancellationRequested(now: nat)
      modifies this
      ensures row == Whole(old(row), Op.MarkCancellationRequested, now)
    {
      var existing := row;
      if existing.status == Completed || existing.status == Failed || existing.status == Cancelled { return; }
      if row.status == Queued || row.status == Running || row.status == Cancelling {
        row := row.(
          status := Cancelling,
          cancellationRequestedAt :=
            if existing.cancellationRequestedAt.Some? then existing.cancellationRequestedAt else Some(now));
      }
    }

    method CompleteRun(result: Totals, now: nat)
      modifies this
      ensures row == Complete(old(row), result, now)
    {
      if row.status == Running || row.status == Completed {
        row := row.(status := Completed, completedAt := Some(now), aggregate := Some(result));
      }
    }

    method FailRun(code: string, now: nat)
      modifies this
      ensures row == Fail(old(row), code, now)
    {
      if row.status != Completed && row.status != Cancelled {
        row := row.(status := Failed, completedAt := Some(now), error := Some(code));
      }
    }

    method CancelRun(partial: Option<Totals>, now: nat)
      modifies this
      ensures row == Whole(old(row), Op.Cancel(partial), now)
    {
      if row.status == Cancelled { return; }
      if row.status == Queued || row.status == Running || row.status == Cancelling {
        row := row.(status := Cancelled, completedAt := Some(now));
        if partial.Some? {
          row := row.(aggregate := partial);
        }
      }
    }
  }
}
