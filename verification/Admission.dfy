/** Tenant admission control: how many agent runs of a tenant may hold a slot at once.

  `reserve` runs under an advisory lock per tenant, but its reads and its insert are separate
  statements, and the calls that give slots up take no lock. The protocol is therefore modelled
  at the grain of single statements: the reserve transaction of a tenant is a small machine
  whose steps interleave with everything else, including reserves of other tenants.
 */
module Admission {
  import opened Results

  datatype Status = Reserved | Active | Released | Rejected | Orphaned | Reconciled

  datatype Row = Row(tenant: string, task: string, snapshotRef: string, status: Status,
                     workflow: Option<string>, agentRun: Option<string>, reason: Option<string>, revision: nat)

  type Rows = map<nat, Row>

  predicate Holds(s: Status) { s == Reserved || s == Active }

  datatype Input = Input(tenant: string, task: string, snapshotRef: string, limit: nat)

  datatype Outcome =
    | Answer(accepted: bool, id: nat, activeCount: nat)
    | Thrown(code: string)

  // ---- The statements ----

  function ActiveIds(rows: Rows, tenant: string): set<nat> {
    set id | id in rows && rows[id].tenant == tenant && Holds(rows[id].status)
  }

  function ActiveCount(rows: Rows, tenant: string): nat { |ActiveIds(rows, tenant)| }

  /** `task_run_id` is unique across all tenants. */
  ghost predicate OneRowPerTask(rows: Rows) {
    forall i, j :: i in rows && j in rows && rows[i].task == rows[j].task ==> i == j
  }

  predicate HasTask(rows: Rows, task: string) {
    exists id :: id in rows && rows[id].task == task
  }

  function TaskRow(rows: Rows, task: string): (id: nat)
    requires OneRowPerTask(rows) && HasTask(rows, task)
    ensures id in rows && rows[id].task == task
  {
    var id :| id in rows && rows[id].task == task;
    id
  }

  /** The row `getByTaskRun` finds: of this task, in this tenant. */
  function Lookup(rows: Rows, input: Input): Option<nat>
    requires OneRowPerTask(rows)
  {
    if HasTask(rows, input.task) && rows[TaskRow(rows, input.task)].tenant == input.tenant
    then Some(TaskRow(rows, input.task))
    else None
  }

  function NewRow(input: Input, count: nat): Row {
    if count >= input.limit
    then Row(input.tenant, input.task, input.snapshotRef, Rejected, None, None, Some("TENANT_AGENT_CONCURRENCY_EXCEEDED"), 1)
    else Row(input.tenant, input.task, input.snapshotRef, Reserved, None, None, None, 1)
  }

  /** Insert unless this agent task has a row; then the existing row is returned instead, if it belongs to
    the tenant. The verdict is the one the count gave, whatever row comes back. */
  function Insert(rows: Rows, input: Input, count: nat, newId: nat): (Rows, Outcome)
    requires OneRowPerTask(rows)
  {
    var accepted := count < input.limit;
    if !HasTask(rows, input.task) then (rows[newId := NewRow(input, count)], Answer(accepted, newId, count))
    else if Lookup(rows, input).None? then (rows, Thrown("TENANT_AGENT_ADMISSION_INSERT_CONFLICT"))
    else (rows, Answer(accepted, Lookup(rows, input).value, count))
  }

  function Bump(r: Row, s: Status, reason: Option<string>): Row {
    r.(status := s, reason := reason, revision := r.revision + 1)
  }

  /** The updates that take no lock; each is one guarded statement. */
  datatype Update =
    | Activate(id: nat, workflowId: Option<string>)
    | AttachAgentRun(id: nat, run: string)
    | AttachWorkflow(id: nat, flow: string)
    | Release(id: nat, why: string)
    | Reject(id: nat, why: string)
    | MarkReconciled(id: nat, why: string)

  function Updated(r: Row, u: Update): Row {
    match u
    case Activate(_, w) => if r.status == Reserved then r.(status := Active, workflow := w, revision := r.revision + 1) else r
    case AttachAgentRun(_, a) => r.(agentRun := Some(a), revision := r.revision + 1)
    case AttachWorkflow(_, w) => r.(workflow := Some(w), revision := r.revision + 1)
    case Release(_, why) => if Holds(r.status) || r.status == Orphaned then Bump(r, Released, Some(why)) else r
    case Reject(_, why) => Bump(r, Rejected, Some(why))
    case MarkReconciled(_, why) => if Holds(r.status) || r.status == Orphaned then Bump(r, Reconciled, Some(why)) else r
  }

  function ApplyUpdate(rows: Rows, u: Update): Rows {
    if u.id in rows then rows[u.id := Updated(rows[u.id], u)] else rows
  }

  // ---- The interleaved machine ----

  /** Where the reserve transaction holding a tenant's lock stands. */
  datatype Pending =
    | Locked(input: Input)
    | LookedUp(input: Input)
    | Counted(input: Input, count: nat)

  datatype Db = Db(rows: Rows, pending: map<string, Pending>)

  datatype Step =
    | Begin(input: Input)
    | Find(tenant: string)
    | Count(tenant: string)
    | Finish(tenant: string, newId: nat)
    | Abort(tenant: string)
    | Other(update: Update)

  /** The lock is free to begin, held to go on; a new row gets an unused id. */
  predicate Enabled(db: Db, s: Step) {
    match s
    case Begin(input) => input.tenant !in db.pending
    case Find(t) => t in db.pending && db.pending[t].Locked?
    case Count(t) => t in db.pending && db.pending[t].LookedUp?
    case Finish(t, newId) => t in db.pending && db.pending[t].Counted? && newId !in db.rows
    case Abort(t) => t in db.pending
    case Other(_) => true
  }

  /** A row found by the lookup ends the call unless its slot was given up without a rejection. */
  predicate EndsAtLookup(rows: Rows, input: Input)
    requires OneRowPerTask(rows)
  {
    var found := Lookup(rows, input);
    found.Some? && (rows[found.value].snapshotRef != input.snapshotRef
                    || Holds(rows[found.value].status) || rows[found.value].status == Rejected)
  }

  function Next(db: Db, s: Step): Db
    requires OneRowPerTask(db.rows) && Enabled(db, s)
  {
    match s
    case Begin(input) => db.(pending := db.pending[input.tenant := Locked(input)])
    case Find(t) =>
      var input := db.pending[t].input;
      if EndsAtLookup(db.rows, input) then db.(pending := db.pending - {t})
      else db.(pending := db.pending[t := LookedUp(input)])
    case Count(t) => db.(pending := db.pending[t := Counted(db.pending[t].input, ActiveCount(db.rows, t))])
    case Finish(t, newId) =>
      Db(Insert(db.rows, db.pending[t].input, db.pending[t].count, newId).0, db.pending - {t})
    case Abort(t) => db.(pending := db.pending - {t})
    case Other(u) => db.(rows := ApplyUpdate(db.rows, u))
  }

  ghost predicate Runs(db: Db, steps: seq<Step>, final: Db)
    decreases |steps|
  {
    if steps == [] then db == final
    else OneRowPerTask(db.rows) && Enabled(db, steps[0]) && Runs(Next(db, steps[0]), steps[1..], final)
  }

  // ---- Invariants of every step ----

  lemma StepKeepsOneRowPerTask(db: Db, s: Step)
    requires OneRowPerTask(db.rows) && Enabled(db, s)
    ensures OneRowPerTask(Next(db, s).rows)
  {}

  /** What the count was taken for still bounds the tenant: nobody else can add to it meanwhile. */
  ghost predicate Bounded(db: Db, tenant: string, limit: nat) {
    && OneRowPerTask(db.rows)
    && ActiveCount(db.rows, tenant) <= limit
    && (forall t :: t in db.pending ==> db.pending[t].input.tenant == t)
    && (tenant in db.pending ==> db.pending[tenant].input.limit <= limit)
    && (tenant in db.pending && db.pending[tenant].Counted? ==> ActiveCount(db.rows, tenant) <= db.pending[tenant].count)
  }

  lemma FewerActive(a: Rows, b: Rows, tenant: string)
    requires ActiveIds(b, tenant) <= ActiveIds(a, tenant)
    ensures ActiveCount(b, tenant) <= ActiveCount(a, tenant)
  {
    SubsetCard(ActiveIds(b, tenant), ActiveIds(a, tenant));
  }

  lemma SubsetCard(a: set<nat>, b: set<nat>)
    requires a <= b
    ensures |a| <= |b|
  {
    assert b == a + (b - a);
  }

  /** No unlocked update turns a row that holds no slot into one that does. */
  lemma UpdateNeverAdds(rows: Rows, u: Update, tenant: string)
    ensures ActiveIds(ApplyUpdate(rows, u), tenant) <= ActiveIds(rows, tenant)
  {}

  lemma InsertAddsAtMostOne(rows: Rows, input: Input, count: nat, newId: nat, tenant: string)
    requires OneRowPerTask(rows) && newId !in rows
    ensures var after := Insert(rows, input, count, newId).0;
            if input.tenant == tenant && count < input.limit
            then ActiveCount(after, tenant) <= ActiveCount(rows, tenant) + 1
            else ActiveCount(after, tenant) <= ActiveCount(rows, tenant)
  {
    var after := Insert(rows, input, count, newId).0;
    assert ActiveIds(after, tenant) <= ActiveIds(rows, tenant) + {newId};
    SubsetCard(ActiveIds(after, tenant), ActiveIds(rows, tenant) + {newId});
    if !(input.tenant == tenant && count < input.limit) {
      FewerActive(rows, after, tenant);
    }
  }

  lemma FinishKeepsBound(db: Db, t: string, newId: nat, tenant: string, limit: nat)
    requires Bounded(db, tenant, limit) && Enabled(db, Finish(t, newId))
    ensures Bounded(Next(db, Finish(t, newId)), tenant, limit)
  {
    InsertAddsAtMostOne(db.rows, db.pending[t].input, db.pending[t].count, newId, tenant);
  }

  lemma OtherKeepsBound(db: Db, u: Update, tenant: string, limit: nat)
    requires Bounded(db, tenant, limit)
    ensures Bounded(Next(db, Other(u)), tenant, limit)
  {
    UpdateNeverAdds(db.rows, u, tenant);
    FewerActive(db.rows, ApplyUpdate(db.rows, u), tenant);
  }

  lemma StepKeepsBound(db: Db, s: Step, tenant: string, limit: nat)
    requires Bounded(db, tenant, limit) && Enabled(db, s)
    requires s.Begin? && s.input.tenant == tenant ==> s.input.limit <= limit
    ensures Bounded(Next(db, s), tenant, limit)
  {
    match s
    case Finish(t, newId) => FinishKeepsBound(db, t, newId, tenant, limit);
    case Other(u) => OtherKeepsBound(db, u, tenant, limit);
    case _ =>
  }

  ghost predicate LimitsWithin(steps: seq<Step>, tenant: string, limit: nat) {
    forall i :: 0 <= i < |steps| && steps[i].Begin? && steps[i].input.tenant == tenant ==> steps[i].input.limit <= limit
  }

  lemma {:induction false} RunKeepsBound(db: Db, steps: seq<Step>, final: Db, tenant: string, limit: nat)
    requires Bounded(db, tenant, limit) && Runs(db, steps, final) && LimitsWithin(steps, tenant, limit)
    ensures Bounded(final, tenant, limit)
    decreases |steps|
  {
    if steps != [] {
      StepKeepsBound(db, steps[0], tenant, limit);
      RunKeepsBound(Next(db, steps[0]), steps[1..], final, tenant, limit);
    }
  }

  /** Under any interleaving, a tenant whose reserves all ask for a limit of at most `limit` never has
    more than `limit` admissions reserved or active, and no task ever has two rows. */
  lemma NeverOverLimit(steps: seq<Step>, final: Db, tenant: string, limit: nat)
    requires Runs(Db(map[], map[]), steps, final) && LimitsWithin(steps, tenant, limit)
    ensures ActiveCount(final.rows, tenant) <= limit
    ensures OneRowPerTask(final.rows)
  {
    assert ActiveIds(map[], tenant) == {};
    RunKeepsBound(Db(map[], map[]), steps, final, tenant, limit);
  }

  // ---- A slot given up is given up for good ----

  /** Reserved, then active, then neither; within the last, only `reject` still moves a row. */
  function Rank(s: Status): nat {
    match s case Reserved => 0 case Active => 1 case Orphaned => 2 case _ => 3
  }

  lemma StepNeverRegains(db: Db, s: Step, id: nat)
    requires OneRowPerTask(db.rows) && Enabled(db, s) && id in db.rows
    ensures id in Next(db, s).rows
    ensures var a, b := db.rows[id], Next(db, s).rows[id];
            && a.tenant == b.tenant && a.task == b.task && a.snapshotRef == b.snapshotRef
            && Rank(a.status) <= Rank(b.status) && a.revision <= b.revision
            && (Rank(a.status) == 3 && b.status != a.status ==> b.status == Rejected && s.Other? && s.update.Reject?)
  {}

  /** Whatever happens later, a row keeps its task and tenant, and one that has stopped holding a slot
    never holds one again. */
  lemma {:induction false} NeverHoldsAgain(db: Db, steps: seq<Step>, final: Db, id: nat)
    requires Runs(db, steps, final) && OneRowPerTask(db.rows) && id in db.rows
    ensures id in final.rows && final.rows[id].task == db.rows[id].task && final.rows[id].tenant == db.rows[id].tenant
    ensures Rank(db.rows[id].status) <= Rank(final.rows[id].status)
    ensures !Holds(db.rows[id].status) ==> !Holds(final.rows[id].status)
    decreases |steps|
  {
    if steps != [] {
      StepKeepsOneRowPerTask(db, steps[0]);
      StepNeverRegains(db, steps[0], id);
      NeverHoldsAgain(Next(db, steps[0]), steps[1..], final, id);
    }
  }

  // ---- A whole call with nothing in between ----

  function Reserve(rows: Rows, input: Input, newId: nat): (Rows, Outcome)
    requires OneRowPerTask(rows)
  {
    var found := Lookup(rows, input);
    var count := ActiveCount(rows, input.tenant);
    if found.Some? && rows[found.value].snapshotRef != input.snapshotRef
    then (rows, Thrown("TENANT_AGENT_ADMISSION_SNAPSHOT_CONFLICT"))
    else if found.Some? && Holds(rows[found.value].status) then (rows, Answer(true, found.value, count))
    else if found.Some? && rows[found.value].status == Rejected then (rows, Answer(false, found.value, count))
    else Insert(rows, input, count, newId)
  }

  /** The tenant's own row of the task settles the call: it is for another snapshot, holds a slot, or was
    rejected. */
  ghost predicate Settled(rows: Rows, input: Input) {
    exists id :: id in rows && rows[id].task == input.task && rows[id].tenant == input.tenant
                 && (rows[id].snapshotRef != input.snapshotRef || rows[id].status in {Reserved, Active, Rejected})
  }

  /** The call is the machine run straight through. */
  lemma ReserveIsTheStepsInARow(db: Db, input: Input, newId: nat)
    requires OneRowPerTask(db.rows) && input.tenant !in db.pending && newId !in db.rows
    ensures var steps := if Settled(db.rows, input) then [Begin(input), Find(input.tenant)]
                         else [Begin(input), Find(input.tenant), Count(input.tenant), Finish(input.tenant, newId)];
            Runs(db, steps, Db(Reserve(db.rows, input, newId).0, db.pending))
  {
    var t := input.tenant;
    var d1 := Next(db, Begin(input));
    var d2 := Next(d1, Find(t));
    var final := Db(Reserve(db.rows, input, newId).0, db.pending);
    assert d1.pending - {t} == db.pending;
    SettledMeaning(db.rows, input);
    if Settled(db.rows, input) {
      var steps := [Begin(input), Find(t)];
      assert steps[1..] == [Find(t)] && steps[1..][1..] == [];
      assert d2 == final;
      assert Runs(d1, steps[1..], final);
    } else {
      var d3 := Next(d2, Count(t));
      assert d3.pending - {t} == db.pending;
      assert Next(d3, Finish(t, newId)) == final;
      var steps := [Begin(input), Find(t), Count(t), Finish(t, newId)];
      assert steps[1..][1..][1..][1..] == [];
      assert steps[1..][1..][1..][0] == Finish(t, newId);
      assert steps[1..][1..][0] == Count(t) && steps[1..][0] == Find(t);
      assert Runs(d3, steps[1..][1..][1..], final);
      assert Runs(d2, steps[1..][1..], final);
      assert Runs(d1, steps[1..], final);
    }
  }

  lemma SettledMeaning(rows: Rows, input: Input)
    requires OneRowPerTask(rows)
    ensures Settled(rows, input) <==> EndsAtLookup(rows, input)
  {
    if id :| id in rows && rows[id].task == input.task && rows[id].tenant == input.tenant {
      assert TaskRow(rows, input.task) == id;
    }
  }

  /** What a reserve answers for a task that has a row already; it never changes a row then. */
  lemma ReserveOfKnownTask(rows: Rows, input: Input, newId: nat, id: nat)
    requires OneRowPerTask(rows) && id in rows && rows[id].task == input.task
    ensures var r, count := rows[id], ActiveCount(rows, input.tenant);
            Reserve(rows, input, newId)
            == (rows,
                if r.tenant != input.tenant then Thrown("TENANT_AGENT_ADMISSION_INSERT_CONFLICT")
                else if r.snapshotRef != input.snapshotRef then Thrown("TENANT_AGENT_ADMISSION_SNAPSHOT_CONFLICT")
                else Answer(r.status in {Reserved, Active} || (r.status != Rejected && count < input.limit), id, count))
  {
    assert TaskRow(rows, input.task) == id;
  }

  /** A retry of a task that holds its slot answers with the same row and takes nothing. */
  lemma RetryTakesNoSecondSlot(rows: Rows, input: Input, newId: nat, id: nat)
    requires OneRowPerTask(rows) && id in rows && Holds(rows[id].status)
    requires rows[id].task == input.task && rows[id].tenant == input.tenant && rows[id].snapshotRef == input.snapshotRef
    ensures Reserve(rows, input, newId) == (rows, Answer(true, id, ActiveCount(rows, input.tenant)))
  {}

  lemma CountWithNewRow(rows: Rows, id: nat, row: Row)
    requires id !in rows
    ensures ActiveCount(rows[id := row], row.tenant) == ActiveCount(rows, row.tenant) + if Holds(row.status) then 1 else 0
  {
    var before, after := ActiveIds(rows, row.tenant), ActiveIds(rows[id := row], row.tenant);
    assert after == if Holds(row.status) then before + {id} else before;
  }

  /** A task without a row gets one, holding a slot exactly when the tenant is below the limit. */
  lemma FirstReserve(rows: Rows, input: Input, newId: nat)
    requires OneRowPerTask(rows) && newId !in rows && !HasTask(rows, input.task)
    ensures var (after, outcome) := Reserve(rows, input, newId);
            var count := ActiveCount(rows, input.tenant);
            && outcome == Answer(count < input.limit, newId, count)
            && newId in after && after == rows[newId := after[newId]]
            && after[newId]
               == (if count < input.limit
                   then Row(input.tenant, input.task, input.snapshotRef, Reserved, None, None, None, 1)
                   else Row(input.tenant, input.task, input.snapshotRef, Rejected, None, None,
                            Some("TENANT_AGENT_CONCURRENCY_EXCEEDED"), 1))
            && ActiveCount(after, input.tenant) == count + if count < input.limit then 1 else 0
  {
    CountWithNewRow(rows, newId, NewRow(input, ActiveCount(rows, input.tenant)));
  }

  /** "Accepted" does not always mean "holds a slot": the insert for a task whose slot was released,
    reconciled or orphaned finds the old row and hands it back. This is the exact condition. */
  lemma AcceptedHoldsUnlessGivenUp(rows: Rows, input: Input, newId: nat)
    requires OneRowPerTask(rows) && newId !in rows
    requires Reserve(rows, input, newId).1.Answer? && Reserve(rows, input, newId).1.accepted
    ensures var (after, outcome) := Reserve(rows, input, newId);
            && outcome.id in after
            && (Holds(after[outcome.id].status) <==>
                  !(HasTask(rows, input.task)
                    && rows[TaskRow(rows, input.task)].status in {Released, Reconciled, Orphaned}))
  {}

  lemma ReleasedTaskIsAcceptedWithoutASlot()
    ensures var rows := map[0 := Row("t", "task", "snap", Released, None, None, Some("released"), 3)];
            && OneRowPerTask(rows)
            && Reserve(rows, Input("t", "task", "snap", 1), 1) == (rows, Answer(true, 0, 0))
  {
    var rows := map[0 := Row("t", "task", "snap", Released, None, None, Some("released"), 3)];
    assert rows[0].task == "task";
    assert HasTask(rows, "task");
    assert ActiveIds(rows, "t") == {};
  }

  // ---- What one update does ----

  /** An update changes at most one row, and never whose it is. */
  lemma UpdateTouchesOneRow(rows: Rows, u: Update)
    ensures ApplyUpdate(rows, u).Keys == rows.Keys
    ensures forall id :: id in rows && id != u.id ==> ApplyUpdate(rows, u)[id] == rows[id]
    ensures u.id in rows ==>
              var r, n := rows[u.id], ApplyUpdate(rows, u)[u.id];
              n.tenant == r.tenant && n.task == r.task && n.snapshotRef == r.snapshotRef
  {}

  /** The slots of every tenant when one row of the table changes. */
  lemma CountWithChangedRow(rows: Rows, id: nat, row: Row, tenant: string)
    requires id in rows && row.tenant == rows[id].tenant
    ensures ActiveCount(rows[id := row], tenant)
            == ActiveCount(rows, tenant)
               + (if row.tenant == tenant && row.status in {Reserved, Active} then 1 else 0)
               - (if row.tenant == tenant && rows[id].status in {Reserved, Active} then 1 else 0)
  {
    var before, after := ActiveIds(rows, tenant), ActiveIds(rows[id := row], tenant);
    assert before - {id} == after - {id};
    assert id in before ==> before == (before - {id}) + {id};
    assert id in after ==> after == (after - {id}) + {id};
  }

  /** Giving a slot up: release and reconcile end a row that holds a slot or is orphaned, a rejection ends
    any row, each with its reason. The tenant then has exactly one slot less, if the row held one. */
  lemma GivingUpFreesTheSlot(rows: Rows, u: Update, tenant: string)
    requires u.id in rows && (u.Release? || u.Reject? || u.MarkReconciled?)
    ensures var r, n := rows[u.id], ApplyUpdate(rows, u)[u.id];
            n == if u.Reject? || r.status in {Reserved, Active, Orphaned}
                 then r.(status := if u.Release? then Released else if u.Reject? then Rejected else Reconciled,
                         reason := Some(u.why), revision := r.revision + 1)
                 else r
    ensures ActiveCount(ApplyUpdate(rows, u), tenant)
            == ActiveCount(rows, tenant)
               - if rows[u.id].tenant == tenant && rows[u.id].status in {Reserved, Active} then 1 else 0
  {
    CountWithChangedRow(rows, u.id, ApplyUpdate(rows, u)[u.id], tenant);
  }

  /** Activating turns a reserved row into an active one, attaching records a run or a workflow, and none
    of them takes or frees a slot. */
  lemma KeepingTheSlot(rows: Rows, u: Update, tenant: string)
    requires u.id in rows && (u.Activate? || u.AttachAgentRun? || u.AttachWorkflow?)
    ensures var r, n := rows[u.id], ApplyUpdate(rows, u)[u.id];
            n == if u.AttachAgentRun? then r.(agentRun := Some(u.run), revision := r.revision + 1)
                 else if u.AttachWorkflow? then r.(workflow := Some(u.flow), revision := r.revision + 1)
                 else if r.status == Reserved then r.(status := Active, workflow := u.workflowId, revision := r.revision + 1)
                 else r
    ensures ActiveCount(ApplyUpdate(rows, u), tenant) == ActiveCount(rows, tenant)
  {
    CountWithChangedRow(rows, u.id, ApplyUpdate(rows, u)[u.id], tenant);
  }

  /** A tenant at its limit is refused a new task, and gets the slot after giving up one of its own. */
  lemma ReleaseMakesRoom(rows: Rows, id: nat, why: string, input: Input, newId: nat)
    requires OneRowPerTask(rows) && id in rows && newId !in rows
    requires rows[id].tenant == input.tenant && rows[id].status in {Reserved, Active}
    requires ActiveCount(rows, input.tenant) == input.limit && forall r :: r in rows ==> rows[r].task != input.task
    ensures Reserve(rows, input, newId).1 == Answer(false, newId, input.limit)
    ensures var freed := ApplyUpdate(rows, Release(id, why));
            && OneRowPerTask(freed)
            && var (after, outcome) := Reserve(freed, input, newId);
            && outcome.Answer? && outcome.accepted && outcome.id == newId && outcome.activeCount + 1 == input.limit
            && newId in after && after[newId].status == Reserved && ActiveCount(after, input.tenant) == input.limit
  {
    var freed := ApplyUpdate(rows, Release(id, why));
    FirstReserve(rows, input, newId);
    UpdateTouchesOneRow(rows, Release(id, why));
    GivingUpFreesTheSlot(rows, Release(id, why), input.tenant);
    FirstReserve(freed, input, newId);
  }

  /** In the machine, an update changes the rows and no reserve in progress; a reserve may be given up at
    any point, which frees its lock and nothing else. */
  lemma UpdatesAndAborts(db: Db, u: Update, tenant: string)
    requires OneRowPerTask(db.rows)
    ensures Enabled(db, Other(u)) && Next(db, Other(u)) == Db(ApplyUpdate(db.rows, u), db.pending)
    ensures Enabled(db, Abort(tenant)) <==> tenant in db.pending
    ensures tenant in db.pending ==>
              var n := Next(db, Abort(tenant));
              n.rows == db.rows && tenant !in n.pending
              && forall t :: t != tenant ==> (t in n.pending <==> t in db.pending) && (t in n.pending ==> n.pending[t] == db.pending[t])
  {}

  // ---- The table, updated in place ----

  class AdmissionTable {
    var rows: Rows

    constructor ()
      ensures rows == map[]
    {
      rows := map[];
    }

    method InsertAdmission(input: Input, count: nat, newId: nat) returns (outcome: Outcome)
      requires OneRowPerTask(rows) && newId !in rows
      modifies this
      ensures (rows, outcome) == Insert(old(rows), input, count, newId)
    {
      var accepted := count < input.limit;
      if !HasTask(rows, input.task) {
        rows := rows[newId := NewRow(input, count)];
        return Answer(accepted, newId, count);
      }
      var existing := Lookup(rows, input);
      if existing.None? { return Thrown("TENANT_AGENT_ADMISSION_INSERT_CONFLICT"); }
      outcome := Answer(accepted, existing.value, count);
    }

    method ReserveSlot(input: Input, newId: nat) returns (outcome: Outcome)
      requires OneRowPerTask(rows) && newId !in rows
      modifies this
      ensures (rows, outcome) == Reserve(old(rows), input, newId)
      ensures OneRowPerTask(rows)
    {
      var existing := Lookup(rows, input);
      if existing.Some? {
        var row := rows[existing.value];
        if row.snapshotRef != input.snapshotRef { return Thrown("TENANT_AGENT_ADMISSION_SNAPSHOT_CONFLICT"); }
        if row.status == Reserved || row.status == Active {
          return Answer(true, existing.value, ActiveCount(rows, input.tenant));
        }
        if row.status == Rejected {
          return Answer(false, existing.value, ActiveCount(rows, input.tenant));
        }
      }
      var activeCount := ActiveCount(rows, input.tenant);
      outcome := InsertAdmission(input, activeCount, newId);
    }

    method Apply(u: Update)
      requires OneRowPerTask(rows)
      modifies this
      ensures rows == ApplyUpdate(old(rows), u) && OneRowPerTask(rows)
    {
      if u.id in rows {
        rows := rows[u.id := Updated(rows[u.id], u)];
      }
    }
  }
}
