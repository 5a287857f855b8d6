/** Versions of one policy and the calls that publish, roll back and edit them.

  Model policies and tenant runtime policies share this protocol and differ in small ways,
  which `Kind` selects. A call that fails inside its transaction leaves every row as it was.
 */
module PolicyRelease {
  import opened Results
  import opened Versions

  datatype Kind = ModelPolicy | TenantRuntimePolicy

  datatype Status = Draft | Validated | Published | Gray | Deprecated | Disabled

  datatype Row<+C> = Row(status: Status, revision: nat, content: C)

  type Rows<C> = map<nat, Row<C>>

  predicate Editable(s: Status) { s == Draft || s == Validated }

  /** From which statuses a rollback may republish its target. */
  predicate RollbackSource(kind: Kind, s: Status) {
    match kind
    case ModelPolicy => s != Draft
    case TenantRuntimePolicy => s == Validated || s == Deprecated || s == Disabled
  }

  function Bump<C>(r: Row<C>, s: Status): Row<C> { Row(s, r.revision + 1, r.content) }

  /** The preliminary update of publish and rollback. Only model policies count it as a revision. */
  function DeprecateOthers<C>(kind: Kind, rows: Rows<C>, version: nat): Rows<C> {
    map v | v in rows ::
      if rows[v].status == Published && v != version then
        Row(Deprecated, if kind == ModelPolicy then rows[v].revision + 1 else rows[v].revision, rows[v].content)
      else rows[v]
  }

  datatype Call<C> =
    | CreateDraft(version: nat, content: C)
    | UpdateDraft(version: nat, expectedRevision: nat, content: C)
    | CloneVersion(source: nat, into: Option<nat>)
    | SetStatus(version: nat, status: Status)
    | Publish(version: nat, ifRevision: Option<nat>)
    | Rollback(target: nat)

  /** `markValidated`, `setGray` (model policies only), `deprecate` and `disable` share one
    unguarded update; nothing else reaches it. */
  predicate Callable<C>(kind: Kind, c: Call<C>) {
    match c
    case SetStatus(_, s) => s == Validated || s == Deprecated || s == Disabled || (kind == ModelPolicy && s == Gray)
    case Publish(_, expected) => kind == TenantRuntimePolicy ==> expected == None
    case _ => true
  }

  function MaxVersion<C>(rows: Rows<C>): (m: nat)
    ensures forall v :: v in rows ==> v <= m
  {
    MaxOf(rows.Keys)
  }

  /** What each call does to the rows; the version it acted on, or the error it throws. */
  function Apply<C>(kind: Kind, rows: Rows<C>, c: Call<C>): (Rows<C>, Result<nat>) {
    match c
    case CreateDraft(v, content) =>
      if v in rows then (rows, Err("DUPLICATE_VERSION"))
      else (rows[v := Row(Draft, 1, content)], Ok(v))
    case UpdateDraft(v, expected, content) =>
      if v !in rows then (rows, Err("REGISTRY_VERSION_NOT_FOUND"))
      else if !Editable(rows[v].status) then (rows, Err("REGISTRY_VERSION_IMMUTABLE"))
      else if rows[v].revision != expected then (rows, Err("REGISTRY_OPTIMISTIC_LOCK_CONFLICT"))
      else (rows[v := Row(Draft, rows[v].revision + 1, content)], Ok(v))
    case CloneVersion(source, into) =>
      if source !in rows then (rows, Err("REGISTRY_VERSION_NOT_FOUND"))
      else
        var v := if into.Some? then into.value else MaxVersion(rows) + 1;
        if v in rows then (rows, Err("DUPLICATE_VERSION"))
        else (rows[v := Row(Draft, 1, rows[source].content)], Ok(v))
    case SetStatus(v, s) =>
      if v !in rows then (rows, Err("REGISTRY_VERSION_NOT_FOUND"))
      else (rows[v := Bump(rows[v], s)], Ok(v))
    case Publish(v, expected) =>
      if kind == ModelPolicy && v !in rows then (rows, Err("REGISTRY_VERSION_NOT_FOUND"))
      else if kind == ModelPolicy && expected.Some? && rows[v].revision != expected.value
      then (rows, Err("REGISTRY_OPTIMISTIC_LOCK_CONFLICT"))
      else if v in rows && Editable(rows[v].status)
      then (DeprecateOthers(kind, rows, v)[v := Bump(rows[v], Published)], Ok(v))
      else (rows, Err("INVALID_SPEC_STATUS_TRANSITION"))
    case Rollback(v) =>
      if kind == ModelPolicy && v !in rows then (rows, Err("REGISTRY_VERSION_NOT_FOUND"))
      else if v in rows && RollbackSource(kind, rows[v].status)
      then (DeprecateOthers(kind, rows, v)[v := Bump(rows[v], Published)], Ok(v))
      else (rows, Err("REGISTRY_ROLLBACK_TARGET_NOT_PUBLISHED"))
  }

  /** The table of one policy id, its rows updated in place. */
  class PolicyTable<C> {
    const kind: Kind
    var rows: Rows<C>

    constructor (kind: Kind)
      ensures this.kind == kind && rows == map[]
    {
      this.kind := kind;
      rows := map[];
    }

    method CreateDraft(version: nat, content: C) returns (r: Result<nat>)
      modifies this
      ensures (rows, r) == Apply(kind, old(rows), Call.CreateDraft(version, content))
    {
      if version in rows { return Err("DUPLICATE_VERSION"); }
      rows := rows[version := Row(Draft, 1, content)];
      r := Ok(version);
    }

    method UpdateDraft(version: nat, expectedRevision: nat, content: C) returns (r: Result<nat>)
      modifies this
      ensures (rows, r) == Apply(kind, old(rows), Call.UpdateDraft(version, expectedRevision, content))
    {
      if version !in rows { return Err("REGISTRY_VERSION_NOT_FOUND"); }
      var existing := rows[version];
      if existing.status != Draft && existing.status != Validated { return Err("REGISTRY_VERSION_IMMUTABLE"); }
      if existing.revision != expectedRevision { return Err("REGISTRY_OPTIMISTIC_LOCK_CONFLICT"); }
      rows := rows[version := Row(Draft, existing.revision + 1, content)];
      r := Ok(version);
    }

    method CloneVersion(source: nat, into: Option<nat>) returns (r: Result<nat>)
      modifies this
      ensures (rows, r) == Apply(kind, old(rows), Call.CloneVersion(source, into))
    {
      if source !in rows { return Err("REGISTRY_VERSION_NOT_FOUND"); }
      var next := if into.Some? then into.value else MaxVersion(rows) + 1;
      r := CreateDraft(next, rows[source].content);
    }

    method SetStatus(version: nat, status: Status) returns (r: Result<nat>)
      modifies this
      ensures (rows, r) == Apply(kind, old(rows), Call.SetStatus(version, status))
    {
      if version !in rows { return Err("REGISTRY_VERSION_NOT_FOUND"); }
      rows := rows[version := Bump(rows[version], status)];
      r := Ok(version);
    }

    /** The two updates of a release: a target that cannot be activated undoes the first. */
    method Activate(version: nat, source: set<Status>) returns (activated: bool)
      modifies this
      ensures activated == (version in old(rows) && old(rows)[version].status in source)
      ensures rows == if activated
                      then DeprecateOthers(kind, old(rows), version)[version := Bump(old(rows)[version], Published)]
                      else old(rows)
    {
      var before := rows;
      rows := DeprecateOthers(kind, rows, version);
      if version in rows && rows[version].status in source {
        rows := rows[version := Bump(rows[version], Published)];
        activated := true;
      } else {
        rows := before;
        activated := false;
      }
    }

    method Publish(version: nat, expectedRevision: Option<nat>) returns (r: Result<nat>)
      modifies this
      ensures (rows, r) == Apply(kind, old(rows), Call.Publish(version, expectedRevision))
    {
      if kind == ModelPolicy {
        if version !in rows { return Err("REGISTRY_VERSION_NOT_FOUND"); }
        if expectedRevision.Some? && rows[version].revision != expectedRevision.value {
          return Err("REGISTRY_OPTIMISTIC_LOCK_CONFLICT");
        }
      }
      var ok := Activate(version, {Draft, Validated});
      r := if ok then Ok(version) else Err("INVALID_SPEC_STATUS_TRANSITION");
    }

    method Rollback(target: nat) returns (r: Result<nat>)
      modifies this
      ensures (rows, r) == Apply(kind, old(rows), Call.Rollback(target))
    {
      if kind == ModelPolicy && target !in rows { return Err("REGISTRY_VERSION_NOT_FOUND"); }
      var ok := Activate(target, if kind == ModelPolicy
                                 then {Published, Gray, Deprecated, Disabled, Validated}
                                 else {Validated, Deprecated, Disabled});
      r := if ok then Ok(target) else Err("REGISTRY_ROLLBACK_TARGET_NOT_PUBLISHED");
    }
  }

  /** The calls that are covered are those of the two repositories: any edit, publish and rollback, and the
    statuses validated, deprecated and disabled, with gray for model policies only. */
  lemma EveryPublicCallIsCovered<C>(kind: Kind, c: Call<C>)
    ensures c.SetStatus? ==>
              (Callable(kind, c) <==> c.status in {Validated, Deprecated, Disabled} || (c.status == Gray && kind != TenantRuntimePolicy))
    ensures c.Publish? ==> (Callable(kind, c) <==> c.ifRevision == None || kind != TenantRuntimePolicy)
    ensures !c.SetStatus? && !c.Publish? ==> Callable(kind, c)
  {}

  // ---- One published version ----

  ghost predicate AtMostOnePublished<C>(rows: Rows<C>) {
    forall v, w :: v in rows && w in rows && rows[v].status == Published && rows[w].status == Published ==> v == w
  }

  ghost predicate OnlyPublished<C>(rows: Rows<C>, v: nat) {
    v in rows && forall w :: w in rows ==> (rows[w].status == Published <==> w == v)
  }

  function Run<C>(kind: Kind, rows: Rows<C>, calls: seq<Call<C>>): Rows<C> {
    if calls == [] then rows
    else Apply(kind, Run(kind, rows, calls[..|calls| - 1]), calls[|calls| - 1]).0
  }

  ghost predicate AllCallable<C>(kind: Kind, calls: seq<Call<C>>) {
    forall i :: 0 <= i < |calls| ==> Callable(kind, calls[i])
  }

  /** A successful release leaves exactly its version published, whatever was published before;
    a failed one leaves every row as it was. */
  lemma ReleaseIsExclusive<C>(kind: Kind, rows: Rows<C>, c: Call<C>)
    requires c.Publish? || c.Rollback?
    ensures var (after, r) := Apply(kind, rows, c);
            && (r.Ok? ==> OnlyPublished(after, r.value) && r.value == (if c.Publish? then c.version else c.target))
            && (r.Err? ==> after == rows)
            && (r.Ok? ==>
                  && r.value in rows && after.Keys == rows.Keys
                  && after[r.value] == Row(Published, rows[r.value].revision + 1, rows[r.value].content)
                  && forall v :: v in rows && v != r.value ==>
                       after[v] == if rows[v].status != Published then rows[v]
                                   else Row(Deprecated, rows[v].revision + if kind == ModelPolicy then 1 else 0, rows[v].content))
  {}

  /** When a release succeeds: a publish on a version still in editing, of the revision a model policy's
    caller expects; a rollback on one that is not a draft, nor, for a tenant policy, live. */
  lemma ReleaseSucceedsExactlyWhen<C>(kind: Kind, rows: Rows<C>, v: nat, expected: Option<nat>)
    ensures Apply(kind, rows, Call.Publish(v, expected)).1.Ok?
            <==> && v in rows && rows[v].status in {Draft, Validated}
                 && (kind == ModelPolicy ==> expected in {None, Some(rows[v].revision)})
    ensures Apply(kind, rows, Call.Rollback(v)).1.Ok?
            <==> && v in rows && rows[v].status != Draft
                 && (kind == TenantRuntimePolicy ==> rows[v].status !in {Published, Gray})
  {}

  /** What the editing calls store, and when: only an unused version is created, only one in editing and of
    the expected revision is updated, and a status is set whatever it was. Nothing else changes. */
  lemma EditingCalls<C>(kind: Kind, rows: Rows<C>, v: nat, expected: nat, content: C, s: Status)
    ensures Apply(kind, rows, Call.CreateDraft(v, content))
            == if v in rows then (rows, Err("DUPLICATE_VERSION")) else (rows[v := Row(Draft, 1, content)], Ok(v))
    ensures var (after, r) := Apply(kind, rows, Call.UpdateDraft(v, expected, content));
            && (r.Ok? <==> v in rows && rows[v].status in {Draft, Validated} && rows[v].revision == expected)
            && after == if r.Ok? then rows[v := Row(Draft, expected + 1, content)] else rows
    ensures var (after, r) := Apply(kind, rows, Call.SetStatus(v, s));
            && (r.Ok? <==> v in rows)
            && after == if r.Ok? then rows[v := Row(s, rows[v].revision + 1, rows[v].content)] else rows
  {}

  /** A clone is a new draft of the source's content, at the version given or else the one after the
    greatest. */
  lemma CloneIsADraft<C>(kind: Kind, rows: Rows<C>, source: nat, into: Option<nat>)
    ensures var (after, r) := Apply(kind, rows, Call.CloneVersion(source, into));
            && (r.Ok? <==> source in rows && forall v :: into == Some(v) ==> v !in rows)
            && (r.Err? ==> after == rows)
            && (r.Ok? ==> r.value !in rows && after == rows[r.value := Row(Draft, 1, rows[source].content)]
                          && if into.Some? then into == Some(r.value)
                             else r.value > 0 && r.value - 1 in rows && forall v :: v in rows ==> v < r.value)
  {
    if into.Some? { assert into == Some(into.value); }
    if source in rows { assert MaxVersion(rows) in rows; }
  }

  /** Over every run of calls, at most one version is published. */
  lemma {:induction false} NeverTwoPublished<C>(kind: Kind, rows: Rows<C>, calls: seq<Call<C>>)
    requires AtMostOnePublished(rows) && AllCallable(kind, calls)
    ensures AtMostOnePublished(Run(kind, rows, calls))
  {
    if calls != [] {
      var init, c := calls[..|calls| - 1], calls[|calls| - 1];
      NeverTwoPublished(kind, rows, init);
      if c.Publish? || c.Rollback? {
        ReleaseIsExclusive(kind, Run(kind, rows, init), c);
      }
    }
  }

  // ---- Content after release ----

  /** A version that has left draft and validated returns there by exactly one call. */
  lemma OnlyRevalidationReopens<C>(kind: Kind, rows: Rows<C>, c: Call<C>, v: nat)
    requires Callable(kind, c) && v in rows && !Editable(rows[v].status)
    ensures v in Apply(kind, rows, c).0
    ensures Editable(Apply(kind, rows, c).0[v].status) <==> c == SetStatus(v, Validated)
    ensures Apply(kind, rows, c).0[v].content == rows[v].content
    ensures rows[v].revision <= Apply(kind, rows, c).0[v].revision
  {}

  /** So its content is frozen for as long as nobody marks it validated again. */
  lemma {:induction false} FrozenUntilRevalidated<C>(kind: Kind, rows: Rows<C>, calls: seq<Call<C>>, v: nat)
    requires AllCallable(kind, calls) && v in rows && !Editable(rows[v].status)
    requires SetStatus(v, Validated) !in calls
    ensures v in Run(kind, rows, calls) && !Editable(Run(kind, rows, calls)[v].status)
    ensures Run(kind, rows, calls)[v].content == rows[v].content
    ensures rows[v].revision <= Run(kind, rows, calls)[v].revision
  {
    if calls != [] {
      var init, c := calls[..|calls| - 1], calls[|calls| - 1];
      FrozenUntilRevalidated(kind, rows, init, v);
      OnlyRevalidationReopens(kind, Run(kind, rows, init), c, v);
    }
  }

  /** And not longer: `markValidated` has no status guard, so a published version can be reopened,
    given any other content and published again. */
  lemma RevalidationRewritesPublished<C>(kind: Kind, rows: Rows<C>, v: nat, content: C)
    requires v in rows && rows[v].status == Published
    ensures var calls := [SetStatus(v, Validated), UpdateDraft(v, rows[v].revision + 1, content), Publish(v, None)];
            && AllCallable(kind, calls)
            && OnlyPublished(Run(kind, rows, calls), v)
            && Run(kind, rows, calls)[v].content == content
  {
    var calls := [SetStatus(v, Validated), UpdateDraft(v, rows[v].revision + 1, content), Publish(v, None)];
    var r1 := rows[v := Bump(rows[v], Validated)];
    var r2 := r1[v := Row(Draft, rows[v].revision + 2, content)];
    assert calls[..2][..1] == calls[..1] && calls[..1][..0] == [];
    assert Run(kind, rows, calls[..1]) == r1;
    assert Run(kind, rows, calls[..2]) == r2;
    ReleaseIsExclusive(kind, r2, calls[2]);
  }
}
