/** Evaluation datasets, their cases and the gate policies that require them, as tables.

  Each call is one atomic step: the calls read, then write. A failed call leaves every table as it
  was.
 */
module Datasets {
  import opened Results
  import opened Sorting
  import opened Texts
  import opened Versions
  import opened DatasetContent
  import opened GatePolicies

  datatype Status = Draft | Validated | Published | Deprecated | Disabled

  datatype Row = Row(meta: Meta, status: Status, revision: nat, hash: Digest)

  datatype GatePolicy = GatePolicy(
    content: PolicyContent, status: Status, hash: PolicyDigest, publishedAt: Option<nat>, updatedAt: nat)

  datatype Tables = Tables(datasets: map<Key, Row>, cases: seq<Case>, policies: map<Key, GatePolicy>)

  const EMPTY := Tables(map[], [], map[])

  datatype Saved = SavedDataset(row: Row) | SavedCase(savedCase: Case) | SavedPolicy(policy: GatePolicy)

  predicate Mutable(s: Status) { s == Draft || s == Validated }

  // ---- Reading ----

  /** An empty stored description reads as no description. */
  function ReadMeta(m: Meta): Meta {
    if m.description == Some("") then m.(description := None) else m
  }

  function Read(row: Row): Row { row.(meta := ReadMeta(row.meta)) }

  function CasesOf(cs: seq<Case>, key: Key): seq<Case> {
    if cs == [] then [] else (if cs[0].dataset == key then [cs[0]] else []) + CasesOf(cs[1..], key)
  }

  lemma {:induction false} CasesOfMembers(cs: seq<Case>, key: Key, c: Case)
    ensures c in CasesOf(cs, key) <==> c in cs && c.dataset == key
  {
    if cs != [] {
      CasesOfMembers(cs[1..], key, c);
      assert cs == [cs[0]] + cs[1..];
    }
  }

  function ListCases(s: Tables, key: Key): seq<Case> {
    Sort(CaseLe, CasesOf(s.cases, key))
  }

  function IndexOf(cs: seq<Case>, id: string): (i: nat)
    ensures i <= |cs| && (i < |cs| ==> cs[i].id == id)
    ensures forall j :: 0 <= j < i ==> cs[j].id != id
  {
    if cs == [] || cs[0].id == id then 0 else 1 + IndexOf(cs[1..], id)
  }

  predicate HasCase(cs: seq<Case>, id: string) { IndexOf(cs, id) < |cs| }

  /** The hash of what is stored now. */
  function CurrentHash(s: Tables, key: Key): Digest
    requires key in s.datasets
  {
    Hash(key, ReadMeta(s.datasets[key].meta), ListCases(s, key))
  }

  predicate HasEnabledCase(s: Tables, key: Key) {
    exists c :: c in CasesOf(s.cases, key) && c.enabled
  }

  // ---- Dataset calls ----

  /** A field of an update: absent, or a value, where `Some(None)` clears it. */
  datatype MetaUpdate = MetaUpdate(
    name: Option<string>, description: Option<Option<string>>, domain: Option<Option<string>>,
    tags: Option<seq<string>>, weight: Option<Weight>)

  function Updated(m: Meta, u: MetaUpdate): Meta {
    Meta(
      if u.name.Some? then u.name.value else m.name,
      if u.description.Some? then u.description.value else m.description,
      if u.domain.Some? then u.domain.value else m.domain,
      if u.tags.Some? then u.tags.value else m.tags,
      if u.weight.Some? then u.weight.value else m.weight)
  }

  function SetRow(s: Tables, key: Key, row: Row): Tables { s.(datasets := s.datasets[key := row]) }

  function CreateDraft(s: Tables, key: Key, meta: Meta): (Tables, Result<Saved>) {
    if key in s.datasets then (s, Err("unique_violation"))
    else
      var row := Row(meta, Draft, 1, Hash(key, meta, []));
      (SetRow(s, key, row), Ok(SavedDataset(Read(row))))
  }

  function MutableRow(s: Tables, key: Key): Result<Row> {
    if key !in s.datasets then Err("EVALUATION_DATASET_NOT_FOUND")
    else if !Mutable(s.datasets[key].status) then Err("EVALUATION_DATASET_IMMUTABLE")
    else Ok(Read(s.datasets[key]))
  }

  function UpdateDraft(s: Tables, key: Key, u: MetaUpdate, expected: Option<nat>): (Tables, Result<Saved>) {
    var existing := MutableRow(s, key);
    if existing.Err? then (s, Err(existing.code))
    else if expected.Some? && existing.value.revision != expected.value then (s, Err("EVALUATION_DATASET_REVISION_CONFLICT"))
    else
      var hashed := Updated(existing.value.meta, u);
      var row := Row(Updated(s.datasets[key].meta, u), Draft, existing.value.revision + 1, Hash(key, hashed, ListCases(s, key)));
      (SetRow(s, key, row), Ok(SavedDataset(Read(row))))
  }

  /** Recompute the stored hash. A version that has left draft and validated is only compared. */
  function Refresh(s: Tables, key: Key): (Tables, Result<Option<Row>>) {
    if key !in s.datasets then (s, Ok(None))
    else
      var row := s.datasets[key];
      var hash := CurrentHash(s, key);
      if !Mutable(row.status) then
        (s, if row.hash == hash then Ok(Some(Read(row))) else Err("EVALUATION_DATASET_IMMUTABLE"))
      else
        var updated := row.(status := Draft, hash := hash, revision := row.revision + 1);
        (SetRow(s, key, updated), Ok(Some(Read(updated))))
  }

  function Publishable(s: Tables, key: Key): Result<()> {
    if key !in s.datasets then Err("EVALUATION_DATASET_NOT_FOUND")
    else if !Mutable(s.datasets[key].status) then Err("EVALUATION_DATASET_NOT_PUBLISHABLE")
    else if !HasEnabledCase(s, key) then Err("EVALUATION_DATASET_EMPTY")
    else Ok(())
  }

  function SetStatus(s: Tables, key: Key, status: Status): (Tables, Result<Saved>)
  {
    if key !in s.datasets then (s, Err("EVALUATION_DATASET_NOT_FOUND"))
    else
      var row := s.datasets[key].(status := status, revision := s.datasets[key].revision + 1);
      (SetRow(s, key, row), Ok(SavedDataset(Read(row))))
  }

  /** Validate or publish. */
  function Release(s: Tables, key: Key, status: Status): (Tables, Result<Saved>) {
    var check := Publishable(s, key);
    if check.Err? then (s, Err(check.code)) else SetStatus(Refresh(s, key).0, key, status)
  }

  function RollbackTo(s: Tables, key: Key): (Tables, Result<Saved>) {
    if key in s.datasets && s.datasets[key].status in {Published, Deprecated}
    then SetStatus(s, key, Published)
    else (s, Err("EVALUATION_DATASET_ROLLBACK_TARGET_INVALID"))
  }

  // ---- Case calls ----

  /** Insert, or replace the case of that id in the same dataset version. */
  function Put(cs: seq<Case>, c: Case): seq<Case> {
    var i := IndexOf(cs, c.id);
    if i < |cs| then cs[i := c] else cs + [c]
  }

  function Without(cs: seq<Case>, id: string): seq<Case> {
    var i := IndexOf(cs, id);
    if i < |cs| then cs[..i] + cs[i + 1..] else cs
  }

  /** A case id is unique over all datasets. */
  predicate TakenElsewhere(cs: seq<Case>, c: Case) {
    var i := IndexOf(cs, c.id);
    i < |cs| && cs[i].dataset != c.dataset
  }

  function Upsert(s: Tables, c: Case): (Tables, Result<Saved>) {
    var existing := MutableRow(s, c.dataset);
    if existing.Err? then (s, Err(existing.code))
    else if TakenElsewhere(s.cases, c) then (s, Err("unique_violation"))
    else (Refresh(s.(cases := Put(s.cases, c)), c.dataset).0, Ok(SavedCase(c)))
  }

  function Delete(s: Tables, id: string): (Tables, Result<Saved>) {
    var i := IndexOf(s.cases, id);
    if i == |s.cases| then (s, Err("EVALUATION_CASE_NOT_FOUND"))
    else
      var c := s.cases[i];
      var existing := MutableRow(s, c.dataset);
      if existing.Err? then (s, Err(existing.code))
      else (Refresh(s.(cases := Without(s.cases, id)), c.dataset).0, Ok(SavedCase(c)))
  }

  /** The trigger on the case table returns the new row of the statement. A delete has none, and a row
    for which nothing is returned is skipped. */
  function BeforeDelete(newRow: Option<Case>): Option<Case> { newRow }

  /** The same call on a database with that trigger. */
  function DeleteUnderTrigger(s: Tables, id: string): (Tables, Result<Saved>) {
    var i := IndexOf(s.cases, id);
    if i == |s.cases| then (s, Err("EVALUATION_CASE_NOT_FOUND"))
    else
      var existing := MutableRow(s, s.cases[i].dataset);
      if existing.Err? then (s, Err(existing.code))
      else if BeforeDelete(None).None? then (s, Err("EVALUATION_CASE_NOT_FOUND"))
      else Delete(s, id)
  }

  // ---- Clone ----

  function Renamed(c: Case, target: Key): Case {
    c.(id := target.id + "_v" + Decimal(target.version) + "_" + c.id, dataset := target)
  }

  function LatestVersion(s: Tables, id: string): nat {
    MaxOf(set k | k in s.datasets && k.id == id :: k.version)
  }

  function CloneTarget(s: Tables, source: Key, id: Option<string>, version: Option<nat>): Key {
    var targetId := if id.Some? then id.value else source.id;
    Key(targetId, if version.Some? then version.value else LatestVersion(s, targetId) + 1)
  }

  /** The cases copied one by one; the first failure undoes the whole clone. */
  function CopyCases(s: Tables, cs: seq<Case>, target: Key): Result<Tables>
    decreases |cs|
  {
    if cs == [] then Ok(s)
    else
      var last := |cs| - 1;
      var before := CopyCases(s, cs[..last], target);
      if before.Err? then before
      else
        var (t, r) := Upsert(before.value, Renamed(cs[last], target));
        if r.Err? then Err(r.code) else Ok(t)
  }

  lemma CopyCasesStep(s: Tables, cs: seq<Case>, target: Key)
    requires cs != []
    ensures var before := CopyCases(s, cs[..|cs| - 1], target); var c := Renamed(cs[|cs| - 1], target);
            CopyCases(s, cs, target)
            == if before.Err? then before
               else if Upsert(before.value, c).1.Err? then Err(Upsert(before.value, c).1.code)
               else Ok(Upsert(before.value, c).0)
  {}

  /** One copy that fails fails the whole list. */
  lemma {:induction false} CopyFails(s: Tables, cs: seq<Case>, n: nat, target: Key)
    requires n <= |cs| && CopyCases(s, cs[..n], target).Err?
    ensures CopyCases(s, cs, target) == CopyCases(s, cs[..n], target)
    decreases |cs| - n
  {
    if n == |cs| {
      assert cs[..n] == cs;
    } else {
      assert cs[..n + 1][..n] == cs[..n];
      CopyFails(s, cs, n + 1, target);
    }
  }

  lemma CopyOneMore(s: Tables, cs: seq<Case>, i: nat, target: Key, here: Tables, there: Tables, r: Result<Saved>)
    requires i < |cs| && CopyCases(s, cs[..i], target) == Ok(here)
    requires (there, r) == Upsert(here, Renamed(cs[i], target))
    ensures CopyCases(s, cs[..i + 1], target) == if r.Err? then Err(r.code) else Ok(there)
  {
    assert cs[..i + 1][..i] == cs[..i];
    CopyCasesStep(s, cs[..i + 1], target);
  }

  function Clone(s: Tables, source: Key, id: Option<string>, version: Option<nat>): (Tables, Result<Saved>) {
    if source !in s.datasets then (s, Err("EVALUATION_DATASET_NOT_FOUND"))
    else
      var target := CloneTarget(s, source, id, version);
      var (s1, draft) := CreateDraft(s, target, ReadMeta(s.datasets[source].meta));
      if draft.Err? then (s, draft)
      else
        var copied := CopyCases(s1, ListCases(s1, source), target);
        if copied.Err? then (s, Err(copied.code))
        else
          var (t, refreshed) := Refresh(copied.value, target);
          if refreshed.Err? then (s, Err(refreshed.code))
          else (t, if refreshed.value.Some? then Ok(SavedDataset(refreshed.value.value)) else draft)
  }

  // ---- Hash assertions and gate policies ----

  function AssertContentHash(s: Tables, key: Key, expected: Digest): Result<Row> {
    if key !in s.datasets then Err("EVALUATION_DATASET_NOT_FOUND")
    else if CurrentHash(s, key) != expected || s.datasets[key].hash != expected then Err("EVALUATION_DATASET_HASH_MISMATCH")
    else Ok(Read(s.datasets[key]))
  }

  function CheckRequirement(s: Tables, q: Requirement): Result<()> {
    if q.key !in s.datasets then Err("EVALUATION_GATE_POLICY_DATASET_NOT_FOUND")
    else if s.datasets[q.key].status != Published then Err("EVALUATION_GATE_POLICY_DATASET_NOT_PUBLISHED")
    else
      var r := AssertContentHash(s, q.key, q.hash);
      if r.Err? then Err(r.code) else Ok(())
  }

  /** The first requirement that fails decides. */
  function CheckRequirements(s: Tables, qs: seq<Requirement>): Result<()> {
    if qs == [] then Ok(())
    else
      var r := CheckRequirement(s, qs[0]);
      if r.Err? then r else CheckRequirements(s, qs[1..])
  }

  function SetPolicy(s: Tables, key: Key, p: GatePolicy): (Tables, Result<Saved>) {
    (s.(policies := s.policies[key := p]), Ok(SavedPolicy(p)))
  }

  function DraftPolicy(key: Key, content: PolicyContent, now: nat): GatePolicy {
    GatePolicy(content, Draft, PolicyDigest(key, content), None, now)
  }

  function CreatePolicy(s: Tables, key: Key, content: PolicyContent, now: nat): (Tables, Result<Saved>) {
    if key in s.policies then (s, Err("unique_violation")) else SetPolicy(s, key, DraftPolicy(key, content, now))
  }

  function UpdatePolicy(s: Tables, key: Key, content: PolicyContent, now: nat): (Tables, Result<Saved>) {
    if key !in s.policies then (s, Err("EVALUATION_GATE_POLICY_NOT_FOUND"))
    else if !Mutable(s.policies[key].status) then (s, Err("EVALUATION_GATE_POLICY_IMMUTABLE"))
    else SetPolicy(s, key, DraftPolicy(key, content, now).(publishedAt := s.policies[key].publishedAt))
  }

  /** Validate or publish a gate policy: every required dataset is checked first. */
  function ReleasePolicy(s: Tables, key: Key, publish: bool, now: nat): (Tables, Result<Saved>) {
    if key !in s.policies then (s, Err("EVALUATION_GATE_POLICY_NOT_FOUND"))
    else
      var p := s.policies[key];
      var check := CheckRequirements(s, p.content.requirements);
      var checked := p.(hash := PolicyDigest(key, p.content), updatedAt := now);
      if check.Err? then (s, Err(check.code))
      else if publish && Mutable(p.status) then SetPolicy(s, key, checked.(status := Published, publishedAt := Some(now)))
      else if !publish && p.status == Draft then SetPolicy(s, key, checked.(status := Validated))
      else (s, Err(if publish then "EVALUATION_GATE_POLICY_NOT_PUBLISHABLE" else "EVALUATION_GATE_POLICY_NOT_VALIDATABLE"))
  }

  function SetPolicyStatus(s: Tables, key: Key, status: Status, now: nat): (Tables, Result<Saved>) {
    if key !in s.policies then (s, Err("EVALUATION_GATE_POLICY_NOT_FOUND"))
    else
      var p := s.policies[key];
      SetPolicy(s, key, p.(status := status, updatedAt := now,
                           publishedAt := if status == Published then Some(now) else p.publishedAt))
  }

  function RollbackPolicy(s: Tables, key: Key, now: nat): (Tables, Result<Saved>) {
    if key in s.policies && s.policies[key].status in {Published, Deprecated}
    then SetPolicyStatus(s, key, Published, now)
    else (s, Err("EVALUATION_GATE_POLICY_ROLLBACK_TARGET_INVALID"))
  }

  // ---- All calls ----

  datatype Call =
    | CreateDraftCall(key: Key, meta: Meta)
    | UpdateDraftCall(key: Key, update: MetaUpdate, expected: Option<nat>)
    | CloneCall(key: Key, id: Option<string>, version: Option<nat>)
    | ReleaseCall(key: Key, publish: bool)
    | RetireCall(key: Key, disable: bool)
    | RollbackCall(key: Key)
    | UpsertCall(c: Case)
    | DeleteCall(caseId: string)
    | CreatePolicyCall(policyKey: Key, content: PolicyContent, now: nat)
    | UpdatePolicyCall(policyKey: Key, content: PolicyContent, now: nat)
    | ReleasePolicyCall(policyKey: Key, publish: bool, now: nat)
    | RetirePolicyCall(policyKey: Key, disable: bool, now: nat)
    | RollbackPolicyCall(policyKey: Key, now: nat)

  function Apply(s: Tables, call: Call): (Tables, Result<Saved>) {
    match call
    case CreateDraftCall(k, meta) => CreateDraft(s, k, meta)
    case UpdateDraftCall(k, u, e) => UpdateDraft(s, k, u, e)
    case CloneCall(k, id, v) => Clone(s, k, id, v)
    case ReleaseCall(k, publish) => Release(s, k, if publish then Published else Validated)
    case RetireCall(k, disable) => SetStatus(s, k, if disable then Disabled else Deprecated)
    case RollbackCall(k) => RollbackTo(s, k)
    case UpsertCall(c) => Upsert(s, c)
    case DeleteCall(id) => Delete(s, id)
    case CreatePolicyCall(k, c, now) => CreatePolicy(s, k, c, now)
    case UpdatePolicyCall(k, c, now) => UpdatePolicy(s, k, c, now)
    case ReleasePolicyCall(k, publish, now) => ReleasePolicy(s, k, publish, now)
    case RetirePolicyCall(k, disable, now) => SetPolicyStatus(s, k, if disable then Disabled else Deprecated, now)
    case RollbackPolicyCall(k, now) => RollbackPolicy(s, k, now)
  }

  ghost predicate Runs(s: Tables, calls: seq<Call>, t: Tables)
    decreases |calls|
  {
    if calls == [] then s == t else Runs(Apply(s, calls[0]).0, calls[1..], t)
  }

  // ---- What each call stores ----

  /** `t` is `s` but for this one version, which is stored as `row`. */
  ghost predicate StoredAs(s: Tables, t: Tables, key: Key, row: Row) {
    t == Tables(s.datasets[key := row], t.cases, s.policies)
  }

  ghost predicate InEditing(s: Tables, key: Key) { key in s.datasets && s.datasets[key].status in {Draft, Validated} }

  /** What a caller gets to see of a row: an empty description is none. */
  ghost predicate ReadsAs(row: Row, seen: Row) {
    seen == row.(meta := row.meta.(description := if row.meta.description == Some("") then None else row.meta.description))
  }

  lemma CreateStores(s: Tables, key: Key, meta: Meta)
    ensures var (t, r) := Apply(s, CreateDraftCall(key, meta));
            && (r.Ok? <==> key !in s.datasets) && (r.Err? ==> t == s)
            && (r.Ok? ==> var row := Row(meta, Draft, 1, Hash(key, meta, []));
                          && StoredAs(s, t, key, row) && t.cases == s.cases
                          && r.value.SavedDataset? && ReadsAs(row, r.value.row))
  {}

  /** A field that is given replaces the old one. */
  ghost predicate Takes<T>(now: T, given: Option<T>, before: T) { given in {None, Some(now)} && (given == None ==> now == before) }

  lemma UpdateStores(s: Tables, key: Key, u: MetaUpdate, expected: Option<nat>)
    ensures var (t, r) := Apply(s, UpdateDraftCall(key, u, expected));
            && (r.Ok? <==> InEditing(s, key) && expected in {None, Some(s.datasets[key].revision)})
            && (r.Err? ==> t == s)
            && (r.Ok? ==> key in t.datasets && var m, n := s.datasets[key].meta, t.datasets[key].meta;
                          && StoredAs(s, t, key, Row(n, Draft, s.datasets[key].revision + 1, t.datasets[key].hash))
                          && t.cases == s.cases
                          && Takes(n.name, u.name, m.name) && Takes(n.description, u.description, m.description)
                          && Takes(n.domain, u.domain, m.domain) && Takes(n.tags, u.tags, m.tags)
                          && Takes(n.weight, u.weight, m.weight)
                          && r.value.SavedDataset? && ReadsAs(t.datasets[key], r.value.row))
  {}

  lemma PutMembers(cs: seq<Case>, c: Case, d: Case)
    requires DistinctIds(cs)
    ensures d in Put(cs, c) <==> d == c || (d in cs && d.id != c.id)
  {
    var i, r := IndexOf(cs, c.id), Put(cs, c);
    if i < |cs| { assert r[i] == c; }
    if d in cs && d.id != c.id {
      var j :| 0 <= j < |cs| && cs[j] == d;
      assert r[j] == d;
    }
    if d in r && d != c {
      var j :| 0 <= j < |r| && r[j] == d;
      assert cs[j] == d;
    }
  }

  lemma WithoutMembers(cs: seq<Case>, id: string, d: Case)
    requires DistinctIds(cs)
    ensures d in Without(cs, id) <==> d in cs && d.id != id
  {
    var i, r := IndexOf(cs, id), Without(cs, id);
    if d in cs && d.id != id {
      var j :| 0 <= j < |cs| && cs[j] == d;
      assert r[if j < i then j else j - 1] == d;
    }
    if d in r {
      var j :| 0 <= j < |r| && r[j] == d;
      assert cs[if j < i then j else j + 1] == d;
    }
  }

  /** A version in editing takes any case whose id is not another version's. The case then replaces the one
    of its id, no other case changes, and the version is a draft of one more revision. */
  lemma UpsertStores(s: Tables, c: Case)
    requires DistinctIds(s.cases)
    ensures var (t, r) := Apply(s, UpsertCall(c));
            && (r.Ok? <==> InEditing(s, c.dataset) && forall d :: d in s.cases && d.id == c.id ==> d.dataset == c.dataset)
            && (r.Err? ==> t == s)
            && (r.Ok? ==> && r.value == SavedCase(c) && c.dataset in t.datasets
                          && (forall d :: d in t.cases <==> d == c || (d in s.cases && d.id != c.id))
                          && StoredAs(s, t, c.dataset, Row(s.datasets[c.dataset].meta, Draft, s.datasets[c.dataset].revision + 1,
                                                           t.datasets[c.dataset].hash)))
  {
    var i := IndexOf(s.cases, c.id);
    if i < |s.cases| {
      assert s.cases[i] in s.cases;
      forall d | d in s.cases && d.id == c.id ensures d == s.cases[i] {
        var j :| 0 <= j < |s.cases| && s.cases[j] == d;
      }
    }
    forall d ensures d in Put(s.cases, c) <==> d == c || (d in s.cases && d.id != c.id) { PutMembers(s.cases, c, d); }
  }

  lemma RefreshStores(s: Tables, m: Tables, key: Key)
    requires m == s.(cases := m.cases) && InEditing(s, key)
    ensures var t := Refresh(m, key).0;
            && key in t.datasets && t.cases == m.cases
            && StoredAs(s, t, key, Row(s.datasets[key].meta, Draft, s.datasets[key].revision + 1, t.datasets[key].hash))
  {}

  lemma AllWithout(cs: seq<Case>, id: string)
    requires DistinctIds(cs)
    ensures CaseRemoved(cs, Without(cs, id), id)
  {
    forall d ensures d in Without(cs, id) <==> d in cs && d.id != id { WithoutMembers(cs, id, d); }
  }

  lemma CaseAt(cs: seq<Case>, c: Case)
    requires DistinctIds(cs) && c in cs
    ensures HasCase(cs, c.id) && cs[IndexOf(cs, c.id)] == c
  {
    var i :| 0 <= i < |cs| && cs[i] == c;
    assert IndexOf(cs, c.id) == i;
  }

  lemma DeleteSteps(s: Tables, c: Case)
    requires DistinctIds(s.cases) && c in s.cases
    ensures Delete(s, c.id)
            == if InEditing(s, c.dataset) then (Refresh(s.(cases := Without(s.cases, c.id)), c.dataset).0, Ok(SavedCase(c)))
               else (s, Err(if c.dataset in s.datasets then "EVALUATION_DATASET_IMMUTABLE" else "EVALUATION_DATASET_NOT_FOUND"))
  {
    CaseAt(s.cases, c);
  }

  /** The list holds the same cases but for the one of this id. */
  ghost predicate CaseRemoved(before: seq<Case>, after: seq<Case>, id: string) {
    forall d :: d in after <==> d in before && d.id != id
  }

  /** The version is a draft of one more revision, and no other version or policy changes. */
  ghost predicate Redrafted(s: Tables, t: Tables, key: Key) {
    && key in s.datasets && key in t.datasets
    && StoredAs(s, t, key, Row(s.datasets[key].meta, Draft, s.datasets[key].revision + 1, t.datasets[key].hash))
  }

  lemma RefreshedWithout(s: Tables, id: string, key: Key)
    requires DistinctIds(s.cases) && InEditing(s, key)
    ensures var t := Refresh(s.(cases := Without(s.cases, id)), key).0;
            Redrafted(s, t, key) && t.cases == Without(s.cases, id)
  {
    RefreshStores(s, s.(cases := Without(s.cases, id)), key);
  }

  /** A case of a version in editing is removed and nothing else is. */
  lemma DeleteStores(s: Tables, c: Case)
    requires DistinctIds(s.cases) && c in s.cases
    ensures var (t, r) := Delete(s, c.id);
            && (r.Ok? <==> InEditing(s, c.dataset)) && (r.Err? ==> t == s)
            && (r.Ok? ==> r.value == SavedCase(c) && Redrafted(s, t, c.dataset) && CaseRemoved(s.cases, t.cases, c.id))
  {
    DeleteSteps(s, c);
    if InEditing(s, c.dataset) {
      RefreshedWithout(s, c.id, c.dataset);
      AllWithout(s.cases, c.id);
    }
  }

  lemma EnabledCaseMeaning(s: Tables, key: Key)
    ensures HasEnabledCase(s, key) <==> exists c :: c in s.cases && c.dataset == key && c.enabled
  {
    forall c ensures c in CasesOf(s.cases, key) <==> c in s.cases && c.dataset == key { CasesOfMembers(s.cases, key, c); }
  }

  lemma ReleaseNeeds(s: Tables, key: Key)
    ensures Publishable(s, key).Ok? <==> InEditing(s, key) && exists c :: c in s.cases && c.dataset == key && c.enabled
  {
    EnabledCaseMeaning(s, key);
  }

  /** Validating and publishing need a version in editing with an enabled case. */
  lemma ReleaseStores(s: Tables, key: Key, status: Status)
    ensures var (t, r) := Release(s, key, status);
            && (r.Ok? <==> InEditing(s, key) && exists c :: c in s.cases && c.dataset == key && c.enabled)
            && (r.Err? ==> t == s)
            && (r.Ok? ==> && key in t.datasets && t.cases == s.cases && r.value.SavedDataset?
                          && ReadsAs(t.datasets[key], r.value.row)
                          && StoredAs(s, t, key, Row(s.datasets[key].meta, status, s.datasets[key].revision + 2, t.datasets[key].hash)))
  {
    ReleaseNeeds(s, key);
    if Publishable(s, key).Ok? { RefreshStores(s, s, key); }
  }

  lemma ReleaseCalls(s: Tables, key: Key)
    ensures Apply(s, ReleaseCall(key, true)) == Release(s, key, Published)
    ensures Apply(s, ReleaseCall(key, false)) == Release(s, key, Validated)
  {}

  /** Deprecating and disabling ask for nothing but the version, a rollback for one that is or was published. */
  lemma StatusStores(s: Tables, key: Key, disable: bool)
    ensures var (t, r) := Apply(s, RetireCall(key, disable));
            && (r.Ok? <==> key in s.datasets)
            && t == if key !in s.datasets then s
                    else s.(datasets := s.datasets[key := s.datasets[key].(status := if disable then Disabled else Deprecated,
                                                                           revision := s.datasets[key].revision + 1)])
    ensures var (t, r) := Apply(s, RollbackCall(key));
            && (r.Ok? <==> key in s.datasets && s.datasets[key].status in {Published, Deprecated})
            && t == if r.Err? then s
                    else s.(datasets := s.datasets[key := s.datasets[key].(status := Published,
                                                                           revision := s.datasets[key].revision + 1)])
  {}

  /** A copied case differs in id and version alone; its new id names version and old id. */
  lemma CopyMeaning(c: Case, target: Key)
    ensures Renamed(c, target).id == target.id + "_v" + Decimal(target.version) + "_" + c.id
    ensures Renamed(c, target).dataset == target
    ensures c == Renamed(c, target).(id := c.id, dataset := c.dataset)
  {}

  /** A clone goes to the id and version given, else to the source's id and the version after the greatest. */
  lemma CloneTargetMeaning(s: Tables, source: Key, id: Option<string>, version: Option<nat>)
    ensures var k := CloneTarget(s, source, id, version);
            && Takes(k.id, id, source.id)
            && if version.Some? then version == Some(k.version)
               else && k.version > 0 && (forall j :: j in s.datasets && j.id == k.id ==> j.version < k.version)
                    && ((exists j :: j in s.datasets && j.id == k.id) ==> Key(k.id, k.version - 1) in s.datasets)
  {
    var k := CloneTarget(s, source, id, version);
    var versions := set j | j in s.datasets && j.id == k.id :: j.version;
    forall j | j in s.datasets && j.id == k.id ensures j.version in versions {}
    if versions != {} {
      assert MaxOf(versions) in versions;
      var j :| j in s.datasets && j.id == k.id && j.version == MaxOf(versions);
      assert j == Key(k.id, MaxOf(versions));
    }
  }

  // ---- What the gate policy calls store ----

  ghost predicate PolicyInEditing(s: Tables, key: Key) { key in s.policies && s.policies[key].status in {Draft, Validated} }

  ghost predicate PolicyStoredAs(s: Tables, t: Tables, key: Key, p: GatePolicy) {
    t == Tables(s.datasets, s.cases, s.policies[key := p])
  }

  /** A policy is written as a draft with its hash. */
  lemma PolicyDrafts(s: Tables, key: Key, content: PolicyContent, now: nat)
    ensures var (t, r) := Apply(s, CreatePolicyCall(key, content, now));
            && (r.Ok? <==> key !in s.policies) && (r.Err? ==> t == s)
            && (r.Ok? ==> PolicyStoredAs(s, t, key, GatePolicy(content, Draft, PolicyDigest(key, content), None, now)))
    ensures var (t, r) := Apply(s, UpdatePolicyCall(key, content, now));
            && (r.Ok? <==> PolicyInEditing(s, key)) && (r.Err? ==> t == s)
            && (r.Ok? ==> PolicyStoredAs(s, t, key, GatePolicy(content, Draft, PolicyDigest(key, content),
                                                               s.policies[key].publishedAt, now)))
  {}

  /** Publishing takes a policy in editing, validating a draft, each with all requirements met. */
  lemma PolicyReleases(s: Tables, key: Key, publish: bool, now: nat)
    ensures var (t, r) := Apply(s, ReleasePolicyCall(key, publish, now));
            && (r.Ok? <==> && PolicyInEditing(s, key) && (!publish ==> s.policies[key].status == Draft)
                           && CheckRequirements(s, s.policies[key].content.requirements).Ok?)
            && (r.Err? ==> t == s)
            && (r.Ok? ==> var p := s.policies[key];
                          PolicyStoredAs(s, t, key, GatePolicy(p.content, if publish then Published else Validated,
                                                               PolicyDigest(key, p.content),
                                                               if publish then Some(now) else p.publishedAt, now)))
  {}

  lemma PolicyStatuses(s: Tables, key: Key, disable: bool, now: nat)
    ensures var (t, r) := Apply(s, RetirePolicyCall(key, disable, now));
            && (r.Ok? <==> key in s.policies)
            && (if r.Err? then t == s
                else PolicyStoredAs(s, t, key, s.policies[key].(status := if disable then Disabled else Deprecated, updatedAt := now)))
    ensures var (t, r) := Apply(s, RollbackPolicyCall(key, now));
            && (r.Ok? <==> key in s.policies && s.policies[key].status in {Published, Deprecated})
            && (if r.Err? then t == s
                else PolicyStoredAs(s, t, key, s.policies[key].(status := Published, publishedAt := Some(now), updatedAt := now)))
  {}

  // ---- The calls on tables in place ----

  class DatasetTables {
    var datasets: map<Key, Row>
    var cases: seq<Case>
    var policies: map<Key, GatePolicy>

    function View(): Tables
      reads this
    {
      Tables(datasets, cases, policies)
    }

    constructor ()
      ensures View() == EMPTY
    {
      datasets, cases, policies := map[], [], map[];
    }

    method Create(key: Key, meta: Meta) returns (r: Result<Saved>)
      modifies this`datasets
      ensures (View(), r) == CreateDraft(old(View()), key, meta)
    {
      if key in datasets { return Err("unique_violation"); }
      var row := Row(meta, Draft, 1, Hash(key, meta, []));
      datasets := datasets[key := row];
      r := Ok(SavedDataset(Read(row)));
    }

    method Update(key: Key, u: MetaUpdate, expected: Option<nat>) returns (r: Result<Saved>)
      modifies this`datasets
      ensures (View(), r) == UpdateDraft(old(View()), key, u, expected)
    {
      if key !in datasets { return Err("EVALUATION_DATASET_NOT_FOUND"); }
      var stored := datasets[key];
      if !Mutable(stored.status) { return Err("EVALUATION_DATASET_IMMUTABLE"); }
      if expected.Some? && stored.revision != expected.value { return Err("EVALUATION_DATASET_REVISION_CONFLICT"); }
      var hash := Hash(key, Updated(ReadMeta(stored.meta), u), ListCases(View(), key));
      var row := Row(Updated(stored.meta, u), Draft, stored.revision + 1, hash);
      datasets := datasets[key := row];
      r := Ok(SavedDataset(Read(row)));
    }

    method RefreshContentHash(key: Key) returns (r: Result<Option<Row>>)
      modifies this`datasets
      ensures (View(), r) == Refresh(old(View()), key)
    {
      if key !in datasets { return Ok(None); }
      var hash := CurrentHash(View(), key);
      var row := datasets[key];
      if !Mutable(row.status) {
        if row.hash == hash { return Ok(Some(Read(row))); }
        return Err("EVALUATION_DATASET_IMMUTABLE");
      }
      row := row.(status := Draft, hash := hash, revision := row.revision + 1);
      datasets := datasets[key := row];
      r := Ok(Some(Read(row)));
    }

    method UpdateStatus(key: Key, status: Status) returns (r: Result<Saved>)
      modifies this`datasets
      ensures (View(), r) == SetStatus(old(View()), key, status)
    {
      if key !in datasets { return Err("EVALUATION_DATASET_NOT_FOUND"); }
      var row := datasets[key];
      row := row.(status := status, revision := row.revision + 1);
      datasets := datasets[key := row];
      r := Ok(SavedDataset(Read(row)));
    }

    method ValidateOrPublish(key: Key, status: Status) returns (r: Result<Saved>)
      modifies this`datasets
      ensures (View(), r) == Release(old(View()), key, status)
    {
      var check := Publishable(View(), key);
      if check.Err? { return Err(check.code); }
      var _ := RefreshContentHash(key);
      r := UpdateStatus(key, status);
    }

    method Rollback(key: Key) returns (r: Result<Saved>)
      modifies this`datasets
      ensures (View(), r) == RollbackTo(old(View()), key)
    {
      if key !in datasets || (datasets[key].status != Published && datasets[key].status != Deprecated) {
        return Err("EVALUATION_DATASET_ROLLBACK_TARGET_INVALID");
      }
      r := UpdateStatus(key, Published);
    }

    method UpsertCase(c: Case) returns (r: Result<Saved>)
      modifies this`datasets, this`cases
      ensures (View(), r) == Upsert(old(View()), c)
    {
      var existing := MutableRow(View(), c.dataset);
      if existing.Err? { return Err(existing.code); }
      if TakenElsewhere(cases, c) { return Err("unique_violation"); }
      cases := Put(cases, c);
      var _ := RefreshContentHash(c.dataset);
      r := Ok(SavedCase(c));
    }

    method DeleteCase(id: string) returns (r: Result<Saved>)
      modifies this`datasets, this`cases
      ensures (View(), r) == Delete(old(View()), id)
    {
      var i := IndexOf(cases, id);
      if i == |cases| { return Err("EVALUATION_CASE_NOT_FOUND"); }
      var c := cases[i];
      var existing := MutableRow(View(), c.dataset);
      if existing.Err? { return Err(existing.code); }
      cases := Without(cases, id);
      var _ := RefreshContentHash(c.dataset);
      r := Ok(SavedCase(c));
    }

    method CopyInto(list: seq<Case>, target: Key) returns (r: Result<()>)
      modifies this`datasets, this`cases
      ensures policies == old(policies)
      ensures CopyCases(old(View()), list, target) == if r.Ok? then Ok(View()) else Err(r.code)
    {
      ghost var was := View();
      var i := 0;
      while i < |list|
        invariant 0 <= i <= |list|
        invariant policies == old(policies)
        invariant CopyCases(was, list[..i], target) == Ok(View())
      {
        ghost var here := View();
        var copied := UpsertCase(Renamed(list[i], target));
        CopyOneMore(was, list, i, target, here, View(), copied);
        if copied.Err? {
          CopyFails(was, list, i + 1, target);
          return Err(copied.code);
        }
        i := i + 1;
      }
      assert list[..i] == list;
      r := Ok(());
    }

    /** In one transaction: a failure restores the tables as they were. */
    method CloneVersion(source: Key, id: Option<string>, version: Option<nat>) returns (r: Result<Saved>)
      modifies this`datasets, this`cases
      ensures (View(), r) == Clone(old(View()), source, id, version)
    {
      if source !in datasets { return Err("EVALUATION_DATASET_NOT_FOUND"); }
      var before := View();
      var target := CloneTarget(before, source, id, version);
      r := Create(target, ReadMeta(datasets[source].meta));
      if r.Err? { return; }
      var copied := CopyInto(ListCases(View(), source), target);
      if copied.Err? {
        datasets, cases := before.datasets, before.cases;
        return Err(copied.code);
      }
      var refreshed := RefreshContentHash(target);
      if refreshed.Err? {
        datasets, cases := before.datasets, before.cases;
        return Err(refreshed.code);
      }
      if refreshed.value.Some? { r := Ok(SavedDataset(refreshed.value.value)); }
    }

    method ValidateRequiredDatasets(p: Key) returns (r: Result<()>)
      ensures r == if p !in policies then Err("EVALUATION_GATE_POLICY_NOT_FOUND")
                   else CheckRequirements(View(), policies[p].content.requirements)
    {
      if p !in policies { return Err("EVALUATION_GATE_POLICY_NOT_FOUND"); }
      var qs := policies[p].content.requirements;
      var i := 0;
      while i < |qs|
        invariant 0 <= i <= |qs|
        invariant CheckRequirements(View(), qs) == CheckRequirements(View(), qs[i..])
      {
        var q := qs[i];
        if q.key !in datasets { return Err("EVALUATION_GATE_POLICY_DATASET_NOT_FOUND"); }
        if datasets[q.key].status != Published { return Err("EVALUATION_GATE_POLICY_DATASET_NOT_PUBLISHED"); }
        var checked := AssertContentHash(View(), q.key, q.hash);
        if checked.Err? { return Err(checked.code); }
        i := i + 1;
      }
      r := Ok(());
    }

    method PublishPolicy(p: Key, now: nat) returns (r: Result<Saved>)
      modifies this`policies
      ensures (View(), r) == ReleasePolicy(old(View()), p, true, now)
    {
      var check := ValidateRequiredDatasets(p);
      if check.Err? { return Err(check.code); }
      var policy := policies[p];
      if policy.status != Draft && policy.status != Validated { return Err("EVALUATION_GATE_POLICY_NOT_PUBLISHABLE"); }
      policy := policy.(
        status := Published, hash := PolicyDigest(p, policy.content), publishedAt := Some(now), updatedAt := now);
      policies := policies[p := policy];
      r := Ok(SavedPolicy(policy));
    }
  }
}
