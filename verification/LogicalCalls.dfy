/** Reserving logical tool calls of an evaluation case, under a lock per case and tool.

  A call takes the lock, looks whether its logical call is reserved and counts the reservations, and
  then inserts a row or not. Other calls run between these steps.
 */
module LogicalCalls {
  import opened Results
  import opened Lists

  /** What reservations are counted for. */
  datatype Slot = Slot(tenant: string, run: string, caseId: string, tool: string)

  datatype Row = Row(slot: Slot, logicalId: string)

  datatype Input = Input(slot: Slot, logicalId: string, limit: nat)

  datatype Answer = Answer(allowed: bool, currentCount: nat, alreadyReserved: bool)

  /** The text the advisory lock is taken on. */
  function LockKey(s: Slot): string { s.tenant + ":" + s.run + ":" + s.caseId + ":" + s.tool }

  function OfSlot(rows: set<Row>, slot: Slot): set<Row> { set r | r in rows && r.slot == slot }

  function Count(rows: set<Row>, slot: Slot): nat { |OfSlot(rows, slot)| }

  function RowOf(i: Input): Row { Row(i.slot, i.logicalId) }

  // ---- One whole call ----

  function Reserve(rows: set<Row>, i: Input): (set<Row>, Answer) {
    var count := Count(rows, i.slot);
    if RowOf(i) in rows then (rows, Answer(true, count, true))
    else if count >= i.limit then (rows, Answer(false, count, false))
    else (rows + {RowOf(i)}, Answer(true, count + 1, false))
  }

  // ---- Interleaved steps ----

  datatype Seen = Seen(existing: bool, count: nat)

  datatype Pending = Pending(input: Input, seen: Option<Seen>)

  datatype State = State(rows: set<Row>, pending: map<nat, Pending>, held: map<string, nat>)

  datatype Step = Lock(caller: nat, input: Input) | Look(caller: nat) | Finish(caller: nat) | Abort(caller: nat)

  predicate Enabled(s: State, step: Step) {
    match step
    case Lock(c, i) => c !in s.pending && LockKey(i.slot) !in s.held
    case Look(c) => c in s.pending && s.pending[c].seen.None?
    case Finish(c) => c in s.pending && s.pending[c].seen.Some?
    case Abort(c) => c in s.pending
  }

  function Released(s: State, c: nat, rows: set<Row>): State
    requires c in s.pending
  {
    State(rows, s.pending - {c}, s.held - {LockKey(s.pending[c].input.slot)})
  }

  function Next(s: State, step: Step): State
    requires Enabled(s, step)
  {
    match step
    case Lock(c, i) => State(s.rows, s.pending[c := Pending(i, None)], s.held[LockKey(i.slot) := c])
    case Look(c) =>
      var i := s.pending[c].input;
      s.(pending := s.pending[c := Pending(i, Some(Seen(RowOf(i) in s.rows, Count(s.rows, i.slot))))])
    case Finish(c) =>
      var i, seen := s.pending[c].input, s.pending[c].seen.value;
      Released(s, c, if seen.existing || seen.count >= i.limit then s.rows else s.rows + {RowOf(i)})
    case Abort(c) => Released(s, c, s.rows)
  }

  ghost predicate Runs(s: State, steps: seq<Step>, t: State)
    decreases |steps|
  {
    if steps == [] then s == t else Enabled(s, steps[0]) && Runs(Next(s, steps[0]), steps[1..], t)
  }

  const START := State({}, map[], map[])

  // ---- The limit ----

  /** A caller that has looked still sees what is there, because it holds the lock. */
  predicate Current(s: State, c: nat)
    requires c in s.pending
  {
    var p := s.pending[c];
    && LockKey(p.input.slot) in s.held && s.held[LockKey(p.input.slot)] == c
    && (p.seen.Some? ==> p.seen.value == Seen(RowOf(p.input) in s.rows, Count(s.rows, p.input.slot)))
  }

  ghost predicate Locked(s: State) {
    forall c :: c in s.pending ==> Current(s, c)
  }

  ghost predicate WithinLimit(s: State, slot: Slot, most: nat) {
    && Count(s.rows, slot) <= most
    && forall c :: c in s.pending && s.pending[c].input.slot == slot ==> s.pending[c].input.limit <= most
  }

  lemma OtherSlotUntouched(rows: set<Row>, r: Row, slot: Slot)
    requires r.slot != slot
    ensures OfSlot(rows + {r}, slot) == OfSlot(rows, slot)
  {}

  lemma NewRowCounts(rows: set<Row>, r: Row)
    requires r !in rows
    ensures Count(rows + {r}, r.slot) == Count(rows, r.slot) + 1
  {
    assert OfSlot(rows + {r}, r.slot) == OfSlot(rows, r.slot) + {r};
  }

  lemma StepKeepsLocked(s: State, step: Step)
    requires Locked(s) && Enabled(s, step)
    ensures Locked(Next(s, step)) && s.rows <= Next(s, step).rows
  {
    var t := Next(s, step);
    forall c | c in t.pending ensures Current(t, c) {
      if step.Lock? {
        if c != step.caller { assert Current(s, c); }
      } else {
        assert Current(s, c) && Current(s, step.caller);
        if step.Finish? && c != step.caller {
          assert s.pending[c].input.slot != s.pending[step.caller].input.slot;
          OtherSlotUntouched(s.rows, RowOf(s.pending[step.caller].input), s.pending[c].input.slot);
        }
      }
    }
  }

  lemma StepKeepsLimit(s: State, step: Step, slot: Slot, most: nat)
    requires Locked(s) && Enabled(s, step) && WithinLimit(s, slot, most)
    requires step.Lock? && step.input.slot == slot ==> step.input.limit <= most
    ensures WithinLimit(Next(s, step), slot, most)
  {
    if step.Finish? {
      var i := s.pending[step.caller].input;
      assert Current(s, step.caller);
      if i.slot != slot { OtherSlotUntouched(s.rows, RowOf(i), slot); }
      if RowOf(i) !in s.rows { NewRowCounts(s.rows, RowOf(i)); }
    }
  }

  ghost predicate LimitsAtMost(steps: seq<Step>, slot: Slot, most: nat) {
    forall k :: 0 <= k < |steps| && steps[k].Lock? && steps[k].input.slot == slot ==> steps[k].input.limit <= most
  }

  /** Whatever steps interleave, a case never has more logical calls of one tool reserved than the
    greatest limit any call used for it, and no reservation is ever lost. */
  lemma {:induction false} NeverOverTheLimit(s: State, steps: seq<Step>, t: State, slot: Slot, most: nat)
    requires Runs(s, steps, t) && Locked(s) && WithinLimit(s, slot, most) && LimitsAtMost(steps, slot, most)
    ensures Count(t.rows, slot) <= most && s.rows <= t.rows
    decreases |steps|
  {
    if steps != [] {
      StepKeepsLocked(s, steps[0]);
      StepKeepsLimit(s, steps[0], slot, most);
      assert LimitsAtMost(steps[1..], slot, most);
      NeverOverTheLimit(Next(s, steps[0]), steps[1..], t, slot, most);
    }
  }

  lemma LimitHoldsFromTheStart(steps: seq<Step>, t: State, slot: Slot, most: nat)
    requires Runs(START, steps, t) && LimitsAtMost(steps, slot, most)
    ensures Count(t.rows, slot) <= most
  {
    assert OfSlot({}, slot) == {};
    NeverOverTheLimit(START, steps, t, slot, most);
  }

  /** Run without interruption, the steps are the whole call, and leave no lock behind. */
  lemma ReserveIsTheStepsInARow(s: State, c: nat, i: Input)
    requires Enabled(s, Lock(c, i))
    ensures var s1 := Next(s, Lock(c, i));
            && Enabled(s1, Look(c)) && Enabled(Next(s1, Look(c)), Finish(c))
            && Next(Next(s1, Look(c)), Finish(c)) == s.(rows := Reserve(s.rows, i).0)
  {
    var t := Next(Next(Next(s, Lock(c, i)), Look(c)), Finish(c));
    assert t.pending == s.pending && t.held == s.held;
  }

  /** The count in an answer is the number of reservations after the call, and an allowed call is
    reserved from then on. */
  lemma AnswerCountsReservations(rows: set<Row>, i: Input)
    ensures var (after, a) := Reserve(rows, i);
            && a.currentCount == Count(after, i.slot)
            && (a.allowed <==> RowOf(i) in after) && (a.alreadyReserved <==> RowOf(i) in rows)
            && rows <= after <= rows + {RowOf(i)}
  {
    if RowOf(i) !in rows { NewRowCounts(rows, RowOf(i)); }
  }

  // ---- Which calls wait for each other ----

  lemma UpToColon(a: string, x: string, b: string, y: string)
    requires ':' !in a && ':' !in b && a + ":" + x == b + ":" + y
    ensures a == b && x == y
  {
    var s, t := a + ":" + x, b + ":" + y;
    assert s[|a|] == ':' && t[|b|] == ':';
    assert forall j :: 0 <= j < |a| ==> s[j] == a[j];
    assert forall j :: 0 <= j < |b| ==> t[j] == b[j];
    assert |a| == |b|;
    assert s[..|a|] == a && t[..|b|] == b && s[|a| + 1..] == x && t[|b| + 1..] == y;
  }

  /** Tenant, run and case are written without a colon. */
  predicate Plain(s: Slot) { ':' !in s.tenant && ':' !in s.run && ':' !in s.caseId }

  lemma LockKeyParts(s: Slot)
    ensures LockKey(s) == s.tenant + ":" + (s.run + ":" + (s.caseId + ":" + s.tool))
  {}

  /** Calls share a lock exactly when they are for the same tool of the same case, run and tenant. */
  lemma SameLockExactlyWhenSameSlot(s: Slot, t: Slot)
    requires Plain(s) && Plain(t)
    ensures LockKey(s) == LockKey(t) <==> s == t
  {
    if LockKey(s) == LockKey(t) {
      LockKeyParts(s);
      LockKeyParts(t);
      UpToColon(s.tenant, s.run + ":" + (s.caseId + ":" + s.tool), t.tenant, t.run + ":" + (t.caseId + ":" + t.tool));
      UpToColon(s.run, s.caseId + ":" + s.tool, t.run, t.caseId + ":" + t.tool);
      UpToColon(s.caseId, s.tool, t.caseId, t.tool);
    }
  }

  // ---- Who gets a slot ----

  /** The rows after calls for these logical ids, one after the other. */
  function After(rows: set<Row>, slot: Slot, limit: nat, ids: seq<string>): set<Row> {
    if ids == [] then rows
    else Reserve(After(rows, slot, limit, ids[..|ids| - 1]), Input(slot, ids[|ids| - 1], limit)).0
  }

  /** The first `limit` distinct ids. */
  function Admitted(ids: seq<string>, limit: nat): seq<string> {
    var distinct := Dedup(ids);
    if |distinct| <= limit then distinct else distinct[..limit]
  }

  function RowsFor(slot: Slot, ids: seq<string>): set<Row> { set id | id in ids :: Row(slot, id) }

  lemma {:induction false} RowsForCount(slot: Slot, ids: seq<string>)
    requires NoRepeats(ids)
    ensures |RowsFor(slot, ids)| == |ids|
  {
    if ids == [] {
      assert RowsFor(slot, ids) == {};
    } else {
      RowsForCount(slot, ids[1..]);
      assert ids == [ids[0]] + ids[1..];
      assert Row(slot, ids[0]) !in RowsFor(slot, ids[1..]);
      assert RowsFor(slot, ids) == RowsFor(slot, ids[1..]) + {Row(slot, ids[0])};
    }
  }

  lemma AdmittedOneMore(ids: seq<string>, limit: nat)
    requires ids != []
    ensures var before, last := Admitted(ids[..|ids| - 1], limit), ids[|ids| - 1];
            Admitted(ids, limit) == if last in before || |before| >= limit then before else before + [last]
    ensures NoRepeats(Admitted(ids, limit)) && |Admitted(ids, limit)| <= limit
  {
    var front, last := Dedup(ids[..|ids| - 1]), ids[|ids| - 1];
    if last !in front && |front| >= limit { assert (front + [last])[..limit] == front[..limit]; }
    if last in front && |front| <= limit { assert Dedup(ids) == front; }
  }

  lemma ReserveOneMore(slot: Slot, limit: nat, before: seq<string>, id: string)
    requires NoRepeats(before)
    ensures var r := Reserve(RowsFor(slot, before), Input(slot, id, limit));
            && r.0 == RowsFor(slot, if id in before || |before| >= limit then before else before + [id])
            && (r.1.allowed <==> id in before || |before| < limit)
  {
    RowsForCount(slot, before);
    assert OfSlot(RowsFor(slot, before), slot) == RowsFor(slot, before);
    assert RowsFor(slot, before + [id]) == RowsFor(slot, before) + {Row(slot, id)};
  }

  lemma {:induction false} AfterIsAdmitted(slot: Slot, limit: nat, ids: seq<string>)
    ensures After({}, slot, limit, ids) == RowsFor(slot, Admitted(ids, limit))
  {
    if ids == [] {
      assert Admitted(ids, limit) == [];
      assert RowsFor(slot, []) == {};
    } else {
      var front, last := ids[..|ids| - 1], ids[|ids| - 1];
      AfterIsAdmitted(slot, limit, front);
      AdmittedOneMore(ids, limit);
      AdmittedIsDistinct(front, limit);
      ReserveOneMore(slot, limit, Admitted(front, limit), last);
    }
  }

  lemma AdmittedIsDistinct(ids: seq<string>, limit: nat)
    ensures NoRepeats(Admitted(ids, limit)) && |Admitted(ids, limit)| <= limit
  {}

  /** First come, first served: of calls for one case and tool, a logical id is allowed exactly when it
    is among the first `limit` distinct ids asked for, and a retry of one of these always is. */
  lemma FirstComeFirstServed(slot: Slot, limit: nat, ids: seq<string>)
    requires ids != []
    ensures Reserve(After({}, slot, limit, ids[..|ids| - 1]), Input(slot, ids[|ids| - 1], limit)).1.allowed
            <==> ids[|ids| - 1] in Admitted(ids, limit)
  {
    var front, last := ids[..|ids| - 1], ids[|ids| - 1];
    AfterIsAdmitted(slot, limit, front);
    AdmittedOneMore(ids, limit);
    AdmittedIsDistinct(front, limit);
    ReserveOneMore(slot, limit, Admitted(front, limit), last);
  }

  // ---- The table in place ----

  class ReservationTable {
    var rows: set<Row>

    constructor ()
      ensures rows == {}
    {
      rows := {};
    }

    method ReserveLogicalCall(i: Input) returns (a: Answer)
      modifies this
      ensures (rows, a) == Reserve(old(rows), i)
    {
      var row := Row(i.slot, i.logicalId);
      if row in rows {
        var count := Count(rows, i.slot);
        return Answer(true, count, true);
      }
      var currentCount := Count(rows, i.slot);
      if currentCount >= i.limit { return Answer(false, currentCount, false); }
      rows := rows + {row};
      a := Answer(true, currentCount + 1, false);
    }
  }
}
