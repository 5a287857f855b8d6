/** The versioned registry: drafts, the status table, rollback, and which version a request gets.

  The rows are those of one resource in one tenant. A stored spec carries its own version and
  status besides its body, and the row keeps the hash of the spec; the hash is modelled as the
  spec it was computed over.
 */
module Registry {
  import opened Results
  import opened Versions

  datatype Status = Draft | Validated | Published | Gray | Deprecated | Disabled

  datatype Spec<+S> = Spec(body: S, version: nat, status: Status)

  datatype GrayPolicy = GrayPolicy(tenants: seq<string>, users: seq<string>)

  const NO_GRAY := GrayPolicy([], [])

  datatype Record<+S> = Record(status: Status, spec: Spec<S>, sha256: Spec<S>, revision: nat, gray: GrayPolicy)

  type Rows<S> = map<nat, Record<S>>

  // ---- The status table ----

  function AllowedTargets(from: Status): set<Status> {
    match from
    case Draft => {Validated, Disabled}
    case Validated => {Draft, Published, Disabled}
    case Published => {Gray, Deprecated, Disabled}
    case Gray => {Published, Deprecated, Disabled}
    case Deprecated => {}
    case Disabled => {}
  }

  predicate Editable(s: Status) { s == Draft || s == Validated }

  predicate Live(s: Status) { s == Published || s == Gray }

  // ---- The calls ----

  datatype Call<S> =
    | CreateDraft(version: nat, body: S)
    | UpdateDraft(version: nat, expectedRevision: nat, body: S)
    | CloneVersion(source: nat, into: Option<nat>)
    | Transition(version: nat, to: Status, ifRevision: Option<nat>, gray: Option<GrayPolicy>)
    | Rollback(target: nat)

  /** No public method transitions to draft; only an update does. */
  predicate Callable<S>(c: Call<S>) { c.Transition? ==> c.to != Draft }

  function NewDraft<S>(version: nat, body: S): Record<S> {
    var spec := Spec(body, version, Draft);
    Record(Draft, spec, spec, 1, NO_GRAY)
  }

  function NextVersion<S>(rows: Rows<S>): (v: nat)
    ensures v !in rows
  {
    MaxOf(rows.Keys) + 1
  }

  /** The bulk update of a rollback rewrites the status inside the stored spec, and not its hash. */
  function DeprecateAbove<S>(rows: Rows<S>, target: nat): Rows<S> {
    map v | v in rows ::
      var r := rows[v];
      if v > target && Live(r.status)
      then r.(status := Deprecated, spec := r.spec.(status := Deprecated), revision := r.revision + 1)
      else r
  }

  function Transitioned<S>(r: Record<S>, version: nat, to: Status, gray: Option<GrayPolicy>): Record<S> {
    var spec := Spec(r.spec.body, version, to);
    Record(to, spec, spec, r.revision + 1, if gray.Some? then gray.value else r.gray)
  }

  function Apply<S>(rows: Rows<S>, c: Call<S>): (Rows<S>, Result<nat>) {
    match c
    case CreateDraft(v, body) =>
      if v in rows then (rows, Err("DUPLICATE_VERSION")) else (rows[v := NewDraft(v, body)], Ok(v))
    case UpdateDraft(v, expected, body) =>
      if v !in rows then (rows, Err("REGISTRY_VERSION_NOT_FOUND"))
      else if !Editable(rows[v].status) then (rows, Err("REGISTRY_VERSION_IMMUTABLE"))
      else if rows[v].revision != expected then (rows, Err("REGISTRY_OPTIMISTIC_LOCK_CONFLICT"))
      else
        var spec := Spec(body, v, Draft);
        (rows[v := Record(Draft, spec, spec, rows[v].revision + 1, rows[v].gray)], Ok(v))
    case CloneVersion(source, into) =>
      if source !in rows then (rows, Err("REGISTRY_VERSION_NOT_FOUND"))
      else
        var v := if into.Some? then into.value else NextVersion(rows);
        if v in rows then (rows, Err("DUPLICATE_VERSION"))
        else (rows[v := NewDraft(v, rows[source].spec.body)], Ok(v))
    case Transition(v, to, ifRevision, gray) =>
      if v !in rows then (rows, Err("REGISTRY_VERSION_NOT_FOUND"))
      else if ifRevision.Some? && rows[v].revision != ifRevision.value then (rows, Err("REGISTRY_OPTIMISTIC_LOCK_CONFLICT"))
      else if rows[v].status != to && to !in AllowedTargets(rows[v].status) then (rows, Err("INVALID_SPEC_STATUS_TRANSITION"))
      else (rows[v := Transitioned(rows[v], v, to, gray)], Ok(v))
    case Rollback(target) =>
      if target !in rows then (rows, Err("REGISTRY_VERSION_NOT_FOUND"))
      else if rows[target].status != Published then (rows, Err("REGISTRY_ROLLBACK_TARGET_NOT_PUBLISHED"))
      else (DeprecateAbove(rows, target), Ok(target))
  }

  function Run<S>(rows: Rows<S>, calls: seq<Call<S>>): Rows<S> {
    if calls == [] then rows else Apply(Run(rows, calls[..|calls| - 1]), calls[|calls| - 1]).0
  }

  ghost predicate AllCallable<S>(calls: seq<Call<S>>) {
    forall i :: 0 <= i < |calls| ==> Callable(calls[i])
  }

  /** Only a transition back to draft is no call of its own. */
  lemma EveryPublicCallIsCovered<S>(c: Call<S>)
    ensures Callable(c) <==> c.CreateDraft? || c.UpdateDraft? || c.CloneVersion? || c.Rollback? || c.to != Draft
  {}

  // ---- What each call stores ----

  /** The moves of the status table, pair by pair. */
  const MOVES := {
    (Draft, Validated), (Draft, Disabled),
    (Validated, Draft), (Validated, Published), (Validated, Disabled),
    (Published, Gray), (Published, Deprecated), (Published, Disabled),
    (Gray, Published), (Gray, Deprecated), (Gray, Disabled)}

  lemma TargetsAreMoves(from: Status, to: Status)
    ensures to in AllowedTargets(from) <==> (from, to) in MOVES
  {}

  /** A transition succeeds exactly on a version of the expected revision, to its own status or along one
    move of the table. It keeps the body, renews the hash and takes the gray list it is given. */
  lemma TransitionSucceedsExactlyWhen<S>(rows: Rows<S>, v: nat, to: Status, expected: Option<nat>, gray: Option<GrayPolicy>)
    ensures var (after, r) := Apply(rows, Call.Transition(v, to, expected, gray));
            && (r.Ok? <==> && v in rows && expected in {None, Some(rows[v].revision)}
                           && (rows[v].status == to || (rows[v].status, to) in MOVES))
            && (r.Err? ==> after == rows)
            && (r.Ok? ==> var row, spec := rows[v], Spec(rows[v].spec.body, v, to);
                          && r.value == v && v in after
                          && after == rows[v := Record(to, spec, spec, row.revision + 1, after[v].gray)]
                          && gray in {None, Some(after[v].gray)} && (gray == None ==> after[v].gray == row.gray))
  {
    if v in rows { TargetsAreMoves(rows[v].status, to); }
  }

  /** What the editing calls store, and when. */
  lemma EditingCalls<S>(rows: Rows<S>, v: nat, expected: nat, body: S)
    ensures var (after, r) := Apply(rows, Call.CreateDraft(v, body)); var spec := Spec(body, v, Draft);
            && (r.Ok? <==> v !in rows)
            && after == if r.Ok? then rows[v := Record(Draft, spec, spec, 1, GrayPolicy([], []))] else rows
    ensures var (after, r) := Apply(rows, Call.UpdateDraft(v, expected, body)); var spec := Spec(body, v, Draft);
            && (r.Ok? <==> v in rows && rows[v].status in {Draft, Validated} && rows[v].revision == expected)
            && after == if r.Ok? then rows[v := Record(Draft, spec, spec, expected + 1, rows[v].gray)] else rows
  {}

  /** A clone is a new draft of the source's body, at the version given or else the one after the greatest. */
  lemma CloneIsADraft<S>(rows: Rows<S>, source: nat, into: Option<nat>)
    ensures var (after, r) := Apply(rows, Call.CloneVersion(source, into));
            && (r.Ok? <==> source in rows && forall v :: into == Some(v) ==> v !in rows)
            && (r.Err? ==> after == rows)
            && (r.Ok? ==> var spec := Spec(rows[source].spec.body, r.value, Draft);
                          && r.value !in rows && after == rows[r.value := Record(Draft, spec, spec, 1, GrayPolicy([], []))]
                          && if into.Some? then into == Some(r.value)
                             else r.value > 0 && r.value - 1 in rows && forall v :: v in rows ==> v < r.value)
  {
    if into.Some? { assert into == Some(into.value); }
    if source in rows { assert MaxOf(rows.Keys) in rows; }
  }

  /** A rollback succeeds exactly on a published version, and deprecates what is live above it: the status
    in row and spec, not the hash. */
  lemma RollbackSucceedsExactlyWhen<S>(rows: Rows<S>, v: nat)
    ensures var (after, r) := Apply(rows, Call.Rollback(v));
            && (r.Ok? <==> v in rows && rows[v].status == Published)
            && (r.Err? ==> after == rows)
            && (r.Ok? ==> r.value == v && after.Keys == rows.Keys && forall w :: w in rows ==>
                  var row := rows[w];
                  after[w] == if w > v && row.status in {Published, Gray}
                              then Record(Deprecated, Spec(row.spec.body, row.spec.version, Deprecated), row.sha256,
                                          row.revision + 1, row.gray)
                              else row)
  {}

  // ---- Status changes, and what publication fixes ----

  ghost predicate Follows<S>(r: Record<S>, q: Record<S>) {
    && (q.status == r.status || (r.status, q.status) in MOVES)
    && r.revision <= q.revision
    && (r.status !in {Draft, Validated} ==> q.spec.body == r.spec.body)
  }

  /** Every call, the bulk update included, moves every version along the table or leaves its status;
    a version that is past editing keeps its body; a new version is a draft. */
  lemma CallFollowsTheTable<S>(rows: Rows<S>, c: Call<S>)
    requires Callable(c)
    ensures var after := Apply(rows, c).0;
            && (forall v :: v in rows ==> v in after && Follows(rows[v], after[v]))
            && (forall v :: v in after && v !in rows ==> after[v].status == Draft && after[v].revision == 1)
            && (Apply(rows, c).1.Err? ==> after == rows)
  {}

  /** No path of table transitions leads back to editing, and none leads out of the final statuses. */
  lemma {:induction false} PublishedForGood<S>(rows: Rows<S>, calls: seq<Call<S>>, v: nat)
    requires AllCallable(calls) && v in rows
    ensures var after := Run(rows, calls);
            && v in after && rows[v].revision <= after[v].revision
            && (rows[v].status !in {Draft, Validated} ==>
                  after[v].status !in {Draft, Validated} && after[v].spec.body == rows[v].spec.body)
            && (rows[v].status == Deprecated || rows[v].status == Disabled ==> after[v].status == rows[v].status)
  {
    if calls != [] {
      var init, c := calls[..|calls| - 1], calls[|calls| - 1];
      PublishedForGood(rows, init, v);
      CallFollowsTheTable(Run(rows, init), c);
    }
  }

  // ---- Identity of the stored specs ----

  /** Every row's spec names the row's own version and status. */
  ghost predicate IdentitiesMatch<S>(rows: Rows<S>) {
    forall v :: v in rows ==> rows[v].spec.version == v && rows[v].spec.status == rows[v].status
  }

  lemma CallKeepsIdentities<S>(rows: Rows<S>, c: Call<S>)
    requires IdentitiesMatch(rows)
    ensures IdentitiesMatch(Apply(rows, c).0)
  {}

  lemma {:induction false} SpecsNameTheirRows<S>(rows: Rows<S>, calls: seq<Call<S>>)
    requires IdentitiesMatch(rows)
    ensures IdentitiesMatch(Run(rows, calls))
  {
    if calls != [] {
      SpecsNameTheirRows(rows, calls[..|calls| - 1]);
      CallKeepsIdentities(Run(rows, calls[..|calls| - 1]), calls[|calls| - 1]);
    }
  }

  // ---- The stored hash ----

  ghost predicate HashesCurrent<S>(rows: Rows<S>) {
    forall v :: v in rows ==> rows[v].sha256 == rows[v].spec
  }

  /** A rollback leaves a stale hash on every version it takes down, so the hashes stay current
    exactly when it takes none down; every other call keeps them current. */
  lemma RollbackLeavesStaleHashes<S>(rows: Rows<S>, c: Call<S>)
    requires HashesCurrent(rows) && IdentitiesMatch(rows)
    ensures HashesCurrent(Apply(rows, c).0)
            <==> !(c.Rollback? && c.target in rows && rows[c.target].status == Published
                   && exists v :: v in rows && v > c.target && rows[v].status in {Published, Gray})
  {
    if c.Rollback? && c.target in rows && rows[c.target].status == Published {
      var after := Apply(rows, c).0;
      if v :| v in rows && v > c.target && rows[v].status in {Published, Gray} {
        assert after[v].spec.status == Deprecated && after[v].sha256.status == rows[v].status;
      }
    }
  }

  lemma {:induction false} WithoutRollbackHashesStayCurrent<S>(rows: Rows<S>, calls: seq<Call<S>>)
    requires HashesCurrent(rows) && IdentitiesMatch(rows)
    requires forall i :: 0 <= i < |calls| ==> !calls[i].Rollback?
    ensures HashesCurrent(Run(rows, calls))
  {
    if calls != [] {
      var init := calls[..|calls| - 1];
      WithoutRollbackHashesStayCurrent(rows, init);
      SpecsNameTheirRows(rows, init);
      RollbackLeavesStaleHashes(Run(rows, init), calls[|calls| - 1]);
    }
  }

  // ---- Selecting a version ----

  datatype Caller = Caller(tenant: string, user: Option<string>)

  predicate Allowlisted(g: GrayPolicy, caller: Caller) {
    caller.tenant in g.tenants || (caller.user.Some? && caller.user.value in g.users)
  }

  /** `versions.find(...)` over the versions newest first. */
  function FirstGray<S>(rows: Rows<S>, versions: seq<nat>, caller: Caller): Option<nat>
    requires forall v :: v in versions ==> v in rows
  {
    if versions == [] then None
    else if rows[versions[0]].status == Gray && Allowlisted(rows[versions[0]].gray, caller) then Some(versions[0])
    else FirstGray(rows, versions[1..], caller)
  }

  function FirstPublished<S>(rows: Rows<S>, versions: seq<nat>): Option<nat>
    requires forall v :: v in versions ==> v in rows
  {
    if versions == [] then None
    else if rows[versions[0]].status == Published then Some(versions[0])
    else FirstPublished(rows, versions[1..])
  }

  function SelectVersion<S>(rows: Rows<S>, caller: Caller): Option<nat> {
    var versions := NewestFirst(rows.Keys);
    var gray := FirstGray(rows, versions, caller);
    if gray.Some? then gray else FirstPublished(rows, versions)
  }

  ghost predicate GrayFor<S>(rows: Rows<S>, v: nat, caller: Caller) {
    && v in rows && rows[v].status == Gray
    && (caller.tenant in rows[v].gray.tenants || exists user :: caller.user == Some(user) && user in rows[v].gray.users)
  }

  lemma {:induction false} FirstGrayMeaning<S>(rows: Rows<S>, versions: seq<nat>, caller: Caller)
    requires forall v :: v in versions ==> v in rows
    requires Descending(versions)
    ensures var r := FirstGray(rows, versions, caller);
            && (r.None? ==> forall v :: v in versions ==> !GrayFor(rows, v, caller))
            && (r.Some? ==> r.value in versions && GrayFor(rows, r.value, caller)
                            && forall v :: v in versions && v > r.value ==> !GrayFor(rows, v, caller))
  {
    if versions != [] {
      FirstGrayMeaning(rows, versions[1..], caller);
    }
  }

  lemma {:induction false} FirstPublishedMeaning<S>(rows: Rows<S>, versions: seq<nat>)
    requires forall v :: v in versions ==> v in rows
    requires Descending(versions)
    ensures var r := FirstPublished(rows, versions);
            && (r.None? ==> forall v :: v in versions ==> rows[v].status != Published)
            && (r.Some? ==> r.value in versions && rows[r.value].status == Published
                            && forall v :: v in versions && v > r.value ==> rows[v].status != Published)
  {
    if versions != [] {
      FirstPublishedMeaning(rows, versions[1..]);
    }
  }

  ghost predicate NewestGrayFor<S>(rows: Rows<S>, v: nat, caller: Caller) {
    GrayFor(rows, v, caller) && forall w :: w in rows && w > v ==> !GrayFor(rows, w, caller)
  }

  ghost predicate LatestPublished<S>(rows: Rows<S>, v: nat) {
    v in rows && rows[v].status == Published && forall w :: w in rows && w > v ==> rows[w].status != Published
  }

  ghost predicate NoGrayFor<S>(rows: Rows<S>, caller: Caller) {
    forall w :: w in rows ==> !GrayFor(rows, w, caller)
  }

  lemma FirstGrayOfRows<S>(rows: Rows<S>, caller: Caller)
    ensures var r := FirstGray(rows, NewestFirst(rows.Keys), caller);
            if r.Some? then NewestGrayFor(rows, r.value, caller) else NoGrayFor(rows, caller)
  {
    FirstGrayMeaning(rows, NewestFirst(rows.Keys), caller);
  }

  lemma FirstPublishedOfRows<S>(rows: Rows<S>)
    ensures var r := FirstPublished(rows, NewestFirst(rows.Keys));
            if r.Some? then LatestPublished(rows, r.value) else forall w :: w in rows ==> rows[w].status != Published
  {
    FirstPublishedMeaning(rows, NewestFirst(rows.Keys));
  }

  /** The newest gray version that lists the caller, else the newest published one. */
  lemma SelectVersionMeaning<S>(rows: Rows<S>, caller: Caller, v: nat)
    ensures SelectVersion(rows, caller) == Some(v) <==>
            NewestGrayFor(rows, v, caller) || (NoGrayFor(rows, caller) && LatestPublished(rows, v))
  {
    FirstGrayOfRows(rows, caller);
    FirstPublishedOfRows(rows);
    var g := FirstGray(rows, NewestFirst(rows.Keys), caller);
    var p := FirstPublished(rows, NewestFirst(rows.Keys));
    if g.Some? {
      assert GrayFor(rows, g.value, caller);
      assert NewestGrayFor(rows, v, caller) <==> v == g.value;
    } else if p.Some? {
      assert LatestPublished(rows, v) <==> v == p.value;
    }
  }

  // ---- Rollback ----

  lemma RollbackTakesDownAbove<S>(rows: Rows<S>, v: nat)
    requires Apply(rows, Call.Rollback(v)).1.Ok?
    ensures var after := Apply(rows, Call.Rollback(v)).0;
            && after.Keys == rows.Keys
            && (forall w :: w in after && w > v ==> after[w].status !in {Published, Gray})
            && (forall w :: w in rows && w <= v ==> after[w] == rows[w])
            && (forall w :: w in rows ==> after[w].spec.body == rows[w].spec.body)
            && LatestPublished(after, v)
  {}

  /** With nothing live above a published `v`, only an older gray version can win over it. */
  lemma SelectedWhenNothingAbove<S>(rows: Rows<S>, v: nat, caller: Caller)
    requires LatestPublished(rows, v) && forall w :: w in rows && w > v ==> rows[w].status !in {Published, Gray}
    ensures SelectVersion(rows, caller) == Some(v) <==> forall w :: w in rows && w < v ==> !GrayFor(rows, w, caller)
  {
    SelectVersionMeaning(rows, caller, v);
    assert !GrayFor(rows, v, caller);
    forall w | w in rows && w > v ensures !GrayFor(rows, w, caller) {}
  }

  /** After a rollback to `v` nothing above it is live, it is the latest published version, older
    versions are untouched, and a caller gets it exactly when no older gray version lists the caller. */
  lemma RollbackActivates<S>(rows: Rows<S>, v: nat, caller: Caller)
    requires Apply(rows, Call.Rollback(v)).1.Ok?
    ensures var after := Apply(rows, Call.Rollback(v)).0;
            && (forall w :: w in after && w > v ==> after[w].status !in {Published, Gray})
            && (forall w :: w in rows && w <= v ==> w in after && after[w] == rows[w])
            && LatestPublished(after, v)
            && (SelectVersion(after, caller) == Some(v) <==> forall w :: w in after && w < v ==> !GrayFor(after, w, caller))
  {
    RollbackTakesDownAbove(rows, v);
    SelectedWhenNothingAbove(Apply(rows, Call.Rollback(v)).0, v, caller);
  }

  // ---- The table, updated in place ----

  class RegistryTable<S> {
    var rows: Rows<S>

    constructor ()
      ensures rows == map[]
    {
      rows := map[];
    }

    method CreateDraft(version: nat, body: S) returns (r: Result<nat>)
      modifies this
      ensures (rows, r) == Apply(old(rows), Call.CreateDraft(version, body))
    {
      if version in rows { return Err("DUPLICATE_VERSION"); }
      rows := rows[version := NewDraft(version, body)];
      r := Ok(version);
    }

    method UpdateDraft(version: nat, expectedRevision: nat, body: S) returns (r: Result<nat>)
      modifies this
      ensures (rows, r) == Apply(old(rows), Call.UpdateDraft(version, expectedRevision, body))
    {
      if version !in rows { return Err("REGISTRY_VERSION_NOT_FOUND"); }
      var existing := rows[version];
      if existing.status != Draft && existing.status != Validated { return Err("REGISTRY_VERSION_IMMUTABLE"); }
      if existing.revision != expectedRevision { return Err("REGISTRY_OPTIMISTIC_LOCK_CONFLICT"); }
      var spec := Spec(body, version, Draft);
      rows := rows[version := Record(Draft, spec, spec, existing.revision + 1, existing.gray)];
      r := Ok(version);
    }

    method CloneVersion(source: nat, into: Option<nat>) returns (r: Result<nat>)
      modifies this
      ensures (rows, r) == Apply(old(rows), Call.CloneVersion(source, into))
    {
      if source !in rows { return Err("REGISTRY_VERSION_NOT_FOUND"); }
      var next := if into.Some? then into.value else NextVersion(rows);
      r := CreateDraft(next, rows[source].spec.body);
    }

    method Transition(version: nat, to: Status, ifRevision: Option<nat>, gray: Option<GrayPolicy>) returns (r: Result<nat>)
      modifies this
      ensures (rows, r) == Apply(old(rows), Call.Transition(version, to, ifRevision, gray))
    {
      if version !in rows { return Err("REGISTRY_VERSION_NOT_FOUND"); }
      var existing := rows[version];
      if ifRevision.Some? && existing.revision != ifRevision.value { return Err("REGISTRY_OPTIMISTIC_LOCK_CONFLICT"); }
      if existing.status != to && to !in AllowedTargets(existing.status) { return Err("INVALID_SPEC_STATUS_TRANSITION"); }
      var spec := Spec(existing.spec.body, version, to);
      rows := rows[version := Record(to, spec, spec, existing.revision + 1, if gray.Some? then gray.value else existing.gray)];
      r := Ok(version);
    }

    method Rollback(target: nat) returns (r: Result<nat>)
      modifies this
      ensures (rows, r) == Apply(old(rows), Call.Rollback(target))
    {
      if target !in rows { return Err("REGISTRY_VERSION_NOT_FOUND"); }
      if rows[target].status != Published { return Err("REGISTRY_ROLLBACK_TARGET_NOT_PUBLISHED"); }
      rows := DeprecateAbove(rows, target);
      r := Ok(target);
    }
  }
}
