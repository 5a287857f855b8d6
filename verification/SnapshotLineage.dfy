/** Tenant policy snapshots and their lineage.

  A root snapshot is compiled from the latest published policy; child snapshots are derived
  along handoffs, each from the policy version its root pinned. SHA-256 is modelled as the
  content it is computed over, so equal hashes mean equal content; the random part of a new
  snapshot reference is a number not used before.
 */
module SnapshotLineage {
  import opened Results
  import opened TenantPolicy
  import opened Versions
  import PR = PolicyRelease

  const MAX_LINEAGE_DEPTH: nat := 8

  datatype Mode = Required | Optional

  datatype PlanType = FlowType | AgentType

  datatype Derivation = Root | AgentFallback | Handoff

  /** What `hashTenantRuntimePolicy` covers. The status is part of it. */
  datatype PolicyDigest = PolicyDigest(tenant: string, version: nat, status: PR.Status, rules: PolicyRules)

  /** What a snapshot hash covers, and all a stored snapshot holds besides its own reference. */
  datatype Content = Content(
    tenant: string, root: nat, parent: Option<nat>, derivation: Derivation, depth: nat,
    policyVersion: nat, policyHash: PolicyDigest,
    planRef: string, planHash: string, planType: PlanType,
    resolved: Resolved)

  datatype Snapshot = Snapshot(ref: nat, content: Content)

  datatype PlanKey = PlanKey(tenant: string, planType: PlanType, planRef: string)

  datatype Store = Store(
    policies: map<string, PR.Rows<PolicyRules>>,
    plans: map<PlanKey, Plan>,
    snapshots: map<nat, Content>)

  // ---- Reading ----

  function PolicyRows(s: Store, tenant: string): PR.Rows<PolicyRules> {
    if tenant in s.policies then s.policies[tenant] else map[]
  }

  function HashPolicy(tenant: string, version: nat, row: PR.Row<PolicyRules>): PolicyDigest {
    PolicyDigest(tenant, version, row.status, row.content)
  }

  /** The highest published version. */
  function LatestPublished(rows: PR.Rows<PolicyRules>): (v: Option<nat>)
    ensures v.Some? ==> v.value in rows && rows[v.value].status == PR.Published
    ensures v.None? ==> forall w :: w in rows ==> rows[w].status != PR.Published
    ensures v.Some? ==> forall w: nat :: w in rows && rows[w].status == PR.Published ==> w <= v.value
  {
    var published := set v: nat | v in rows && rows[v].status == PR.Published;
    assert forall w: nat :: w in rows && rows[w].status == PR.Published ==> w in published;
    if published == {} then None
    else Some(MaxOf(published))
  }

  function LoadPlan(s: Store, tenant: string, planType: PlanType, planRef: string): Result<Plan> {
    var k := PlanKey(tenant, planType, planRef);
    if k in s.plans then Ok(s.plans[k])
    else Err(if planType == FlowType then "FLOW_EXECUTION_PLAN_NOT_FOUND" else "AGENT_EXECUTION_PLAN_NOT_FOUND")
  }

  function GetByRef(s: Store, ref: nat, tenant: string): Option<Content> {
    if ref in s.snapshots && s.snapshots[ref].tenant == tenant then Some(s.snapshots[ref]) else None
  }

  // ---- Creating a snapshot ----

  /** The store's unique index: one snapshot per tenant and hash. */
  predicate UniqueHashes(s: Store) {
    forall r1, r2 :: r1 in s.snapshots && r2 in s.snapshots && s.snapshots[r1] == s.snapshots[r2] ==> r1 == r2
  }

  predicate LineageShape(c: Content, newRef: nat) {
    if c.derivation == Root then c.parent == None && c.depth == 0 && c.root == newRef
    else c.parent.Some? && c.depth > 0 && c.root != newRef
  }

  /** Insert, or return the snapshot that already has this tenant and hash. */
  function Create(s: Store, c: Content, newRef: nat): (r: (Store, Result<Snapshot>))
    requires UniqueHashes(s) && newRef !in s.snapshots
    ensures UniqueHashes(r.0)
  {
    if !LineageShape(c, newRef) then (s, Err("TENANT_POLICY_SNAPSHOT_LINEAGE"))
    else if exists ref :: ref in s.snapshots && s.snapshots[ref] == c then
      var ref :| ref in s.snapshots && s.snapshots[ref] == c;
      (s, Ok(Snapshot(ref, c)))
    else (s.(snapshots := s.snapshots[newRef := c]), Ok(Snapshot(newRef, c)))
  }

  // ---- Resolving and deriving ----

  /** Development mode without a policy: every plan tool with every operation. */
  function PlanOnlyToolRule(t: PlanTool): ToolRule {
    ToolRule(t.toolName, Some([t.toolVersion]), ALL_OPERATIONS, Some(t.risk), None)
  }

  function PlanOnlyToolRules(tools: seq<PlanTool>): seq<ToolRule> {
    seq(|tools|, i requires 0 <= i < |tools| => PlanOnlyToolRule(tools[i]))
  }

  function ResolvePlanOnly(plan: Plan): Resolved {
    Resolved(
      PlanOnlyToolRules(plan.tools),
      [],
      var models := MergeEntries(RawModelEntries(plan));
      seq(|models|, i requires 0 <= i < |models| => ModelRule(models[i].modelId, None, None)),
      var handoffs := PlanHandoffs(plan);
      seq(|handoffs|, i requires 0 <= i < |handoffs| => HandoffRule(handoffs[i], None, Some([handoffs[i]]), None)),
      PlanBudget(plan),
      1)
  }

  function PlanOnlyRules(b: Budget): PolicyRules {
    PolicyRules([], [], [], [], [], [],
      BudgetCap(Some(b.maxSegments), Some(b.maxModelTurns), Some(b.maxToolCalls), Some(b.maxInputTokens),
                Some(b.maxOutputTokens), Some(b.maxTotalTokens), Some(b.maxDurationMs), Some(b.maxHandoffs),
                Some(b.maxContextBytes), b.maxCost),
      1)
  }

  datatype ResolveInput = ResolveInput(
    tenant: string, planRef: string, planHash: Option<string>, planType: PlanType, mode: Mode)

  datatype DeriveInput = DeriveInput(
    tenant: string, parent: nat, planRef: string, planHash: Option<string>, planType: PlanType, derivation: Derivation)

  function RootContent(input: ResolveInput, plan: Plan, hash: PolicyDigest, resolved: Resolved, newRef: nat): Content {
    Content(input.tenant, newRef, None, Root, 0, hash.version, hash, plan.planRef, plan.planHash, input.planType, resolved)
  }

  /** The root snapshot `resolve` would store, or the error it throws. */
  function RootFor(s: Store, input: ResolveInput, newRef: nat): Result<Content> {
    var rows := PolicyRows(s, input.tenant);
    var latest := LatestPublished(rows);
    if latest.None? && input.mode == Required then Err("TENANT_RUNTIME_POLICY_NOT_FOUND")
    else
      var loaded := LoadPlan(s, input.tenant, input.planType, input.planRef);
      if loaded.Err? then Err(loaded.code)
      else
        var plan := loaded.value;
        if input.planHash.Some? && plan.planHash != input.planHash.value then Err("EXECUTION_PLAN_HASH_MISMATCH")
        else if latest.Some? then
          var row := rows[latest.value];
          Ok(RootContent(input, plan, HashPolicy(input.tenant, latest.value, row),
                         ResolveEffectivePolicy(row.content, plan), newRef))
        else
          var hash := PolicyDigest(input.tenant, 1, PR.Published, PlanOnlyRules(PlanBudget(plan)));
          Ok(RootContent(input, plan, hash, ResolvePlanOnly(plan), newRef))
  }

  function Resolve(s: Store, input: ResolveInput, newRef: nat): (r: (Store, Result<Snapshot>))
    requires UniqueHashes(s) && newRef !in s.snapshots
    ensures UniqueHashes(r.0)
  {
    var c := RootFor(s, input, newRef);
    if c.Err? then (s, Err(c.code)) else Create(s, c.value, newRef)
  }

  function ChildContent(input: DeriveInput, parent: Content, plan: Plan, hash: PolicyDigest): Content {
    Content(input.tenant, parent.root, Some(input.parent), input.derivation, parent.depth + 1,
            hash.version, hash, plan.planRef, plan.planHash, input.planType, ResolveEffectivePolicy(hash.rules, plan))
  }

  /** The child snapshot `deriveForExecutionPlan` would store, or the error it throws. */
  function ChildFor(s: Store, input: DeriveInput): Result<Content> {
    var parent := GetByRef(s, input.parent, input.tenant);
    if parent.None? then Err("TENANT_POLICY_PARENT_SNAPSHOT_NOT_FOUND")
    else if parent.value.depth >= MAX_LINEAGE_DEPTH then Err("TENANT_POLICY_LINEAGE_DEPTH_EXCEEDED")
    else
      var root := GetByRef(s, parent.value.root, input.tenant);
      if root.None? then Err("TENANT_POLICY_ROOT_SNAPSHOT_NOT_FOUND")
      else
        var rows := PolicyRows(s, input.tenant);
        if root.value.policyVersion !in rows then Err("TENANT_RUNTIME_POLICY_NOT_FOUND")
        else
          var hash := HashPolicy(input.tenant, root.value.policyVersion, rows[root.value.policyVersion]);
          if hash != root.value.policyHash || hash != parent.value.policyHash then Err("TENANT_POLICY_HASH_MISMATCH")
          else
            var loaded := LoadPlan(s, input.tenant, input.planType, input.planRef);
            if loaded.Err? then Err(loaded.code)
            else if input.planHash.Some? && loaded.value.planHash != input.planHash.value
            then Err("EXECUTION_PLAN_HASH_MISMATCH")
            else Ok(ChildContent(input, parent.value, loaded.value, hash))
  }

  function Derive(s: Store, input: DeriveInput, newRef: nat): (r: (Store, Result<Snapshot>))
    requires UniqueHashes(s) && newRef !in s.snapshots
    ensures UniqueHashes(r.0)
  {
    var c := ChildFor(s, input);
    if c.Err? then (s, Err(c.code)) else Create(s, c.value, newRef)
  }

  // ---- Checking a snapshot ----

  datatype Presented = Presented(tenant: string, snapshotHash: Content, planRef: string, planHash: string)

  function CheckIdentity(c: Content, p: Presented): Result<()> {
    if c.tenant != p.tenant then Err("TENANT_POLICY_SNAPSHOT_TENANT_MISMATCH")
    else if c != p.snapshotHash then Err("TENANT_POLICY_HASH_MISMATCH")
    else if c.planRef != p.planRef || c.planHash != p.planHash then Err("EXECUTION_PLAN_HASH_MISMATCH")
    else Ok(())
  }

  function AssertAllowsTool(c: Content, p: Presented, name: string, version: string, op: Operation): Result<()> {
    if CheckIdentity(c, p).Err? then CheckIdentity(c, p) else CheckTool(c.resolved, name, version, op)
  }

  function AssertAllowsModel(c: Content, p: Presented, request: ModelRequest): Result<()> {
    if CheckIdentity(c, p).Err? then CheckIdentity(c, p) else CheckModel(c.resolved, request)
  }

  function AssertAllowsHandoff(c: Content, p: Presented, target: string): Result<()> {
    if CheckIdentity(c, p).Err? then CheckIdentity(c, p) else CheckHandoff(c.resolved, target)
  }

  // ---- The repositories and the resolver, over tables updated in place ----

  class PolicyDatabase {
    var policies: map<string, PR.Rows<PolicyRules>>
    var plans: map<PlanKey, Plan>
    var snapshots: map<nat, Content>

    function State(): Store
      reads this
    {
      Store(policies, plans, snapshots)
    }

    constructor ()
      ensures State() == Store(map[], map[], map[])
    {
      policies, plans, snapshots := map[], map[], map[];
    }

    method CreateImmutableSnapshot(c: Content, newRef: nat) returns (r: Result<Snapshot>)
      requires UniqueHashes(State()) && newRef !in snapshots
      modifies this`snapshots
      ensures (State(), r) == Create(old(State()), c, newRef)
    {
      if c.derivation == Root {
        if c.parent.Some? || c.depth != 0 || c.root != newRef { return Err("TENANT_POLICY_SNAPSHOT_LINEAGE"); }
      } else if c.parent.None? || c.depth <= 0 || c.root == newRef {
        return Err("TENANT_POLICY_SNAPSHOT_LINEAGE");
      }
      if exists ref :: ref in snapshots && snapshots[ref] == c {
        var ref :| ref in snapshots && snapshots[ref] == c;
        return Ok(Snapshot(ref, c));
      }
      snapshots := snapshots[newRef := c];
      r := Ok(Snapshot(newRef, c));
    }

    method ResolvePolicy(input: ResolveInput, newRef: nat) returns (r: Result<Snapshot>)
      requires UniqueHashes(State()) && newRef !in snapshots
      modifies this`snapshots
      ensures (State(), r) == Resolve(old(State()), input, newRef)
    {
      var rows := PolicyRows(State(), input.tenant);
      var latest := LatestPublished(rows);
      if latest.None? && input.mode == Required { return Err("TENANT_RUNTIME_POLICY_NOT_FOUND"); }
      var loaded := LoadPlan(State(), input.tenant, input.planType, input.planRef);
      if loaded.Err? { return Err(loaded.code); }
      var plan := loaded.value;
      if input.planHash.Some? && plan.planHash != input.planHash.value { return Err("EXECUTION_PLAN_HASH_MISMATCH"); }
      var effective, hash;
      if latest.Some? {
        effective := ResolveEffectivePolicy(rows[latest.value].content, plan);
        hash := HashPolicy(input.tenant, latest.value, rows[latest.value]);
      } else {
        effective := ResolvePlanOnly(plan);
        hash := PolicyDigest(input.tenant, 1, PR.Published, PlanOnlyRules(effective.budget));
      }
      r := CreateImmutableSnapshot(RootContent(input, plan, hash, effective, newRef), newRef);
    }

    method DeriveForExecutionPlan(input: DeriveInput, newRef: nat) returns (r: Result<Snapshot>)
      requires UniqueHashes(State()) && newRef !in snapshots
      modifies this`snapshots
      ensures (State(), r) == Derive(old(State()), input, newRef)
    {
      var parent := GetByRef(State(), input.parent, input.tenant);
      if parent.None? { return Err("TENANT_POLICY_PARENT_SNAPSHOT_NOT_FOUND"); }
      if parent.value.depth >= MAX_LINEAGE_DEPTH { return Err("TENANT_POLICY_LINEAGE_DEPTH_EXCEEDED"); }
      var root := GetByRef(State(), parent.value.root, input.tenant);
      if root.None? { return Err("TENANT_POLICY_ROOT_SNAPSHOT_NOT_FOUND"); }
      var rows := PolicyRows(State(), input.tenant);
      if root.value.policyVersion !in rows { return Err("TENANT_RUNTIME_POLICY_NOT_FOUND"); }
      var hash := HashPolicy(input.tenant, root.value.policyVersion, rows[root.value.policyVersion]);
      if hash != root.value.policyHash || hash != parent.value.policyHash { return Err("TENANT_POLICY_HASH_MISMATCH"); }
      var loaded := LoadPlan(State(), input.tenant, input.planType, input.planRef);
      if loaded.Err? { return Err(loaded.code); }
      if input.planHash.Some? && loaded.value.planHash != input.planHash.value { return Err("EXECUTION_PLAN_HASH_MISMATCH"); }
      r := CreateImmutableSnapshot(ChildContent(input, parent.value, loaded.value, hash), newRef);
    }
  }

  // ---- Whole runs ----

  datatype Call =
    | ResolveCall(resolve: ResolveInput, newRef: nat)
    | DeriveCall(derive: DeriveInput, newRef: nat)
    | AddPlan(key: PlanKey, plan: Plan)
    | PolicyCall(tenant: string, call: PR.Call<PolicyRules>)

  /** A new reference is unused, a plan row is stored once under its own reference and type, and
    the derivation of a child is not `root`. */
  predicate Legal(s: Store, c: Call) {
    match c
    case ResolveCall(_, newRef) => newRef !in s.snapshots
    case DeriveCall(input, newRef) => newRef !in s.snapshots && input.derivation != Root
    case AddPlan(key, plan) => key !in s.plans && plan.planRef == key.planRef && (plan.FlowPlan? <==> key.planType == FlowType)
    case PolicyCall(_, call) => PR.Callable(PR.TenantRuntimePolicy, call)
  }

  function Apply(s: Store, c: Call): (r: Store)
    requires UniqueHashes(s) && Legal(s, c)
    ensures UniqueHashes(r)
  {
    match c
    case ResolveCall(input, newRef) => Resolve(s, input, newRef).0
    case DeriveCall(input, newRef) => Derive(s, input, newRef).0
    case AddPlan(key, plan) => s.(plans := s.plans[key := plan])
    case PolicyCall(tenant, call) =>
      s.(policies := s.policies[tenant := PR.Apply(PR.TenantRuntimePolicy, PolicyRows(s, tenant), call).0])
  }

  /** `t` is reached from `s` by legal calls. */
  ghost predicate Runs(s: Store, calls: seq<Call>, t: Store)
    requires UniqueHashes(s)
    ensures Runs(s, calls, t) ==> UniqueHashes(t)
    decreases |calls|
  {
    if calls == [] then s == t
    else Legal(s, calls[0]) && Runs(Apply(s, calls[0]), calls[1..], t)
  }

  const EMPTY := Store(map[], map[], map[])

  // ---- The forest invariant ----

  ghost predicate Grows(s: Store, t: Store) {
    && (forall r :: r in s.snapshots ==> r in t.snapshots && t.snapshots[r] == s.snapshots[r])
    && (forall k :: k in s.plans ==> k in t.plans && t.plans[k] == s.plans[k])
  }

  ghost predicate PlanOf(s: Store, c: Content, plan: Plan) {
    var k := PlanKey(c.tenant, c.planType, c.planRef);
    k in s.plans && s.plans[k] == plan && plan.planHash == c.planHash
  }

  /** Compiled from the rules its own hash pins, against the plan it names. */
  ghost predicate Compiled(s: Store, c: Content) {
    exists plan :: PlanOf(s, c, plan) && c.resolved == ResolveEffectivePolicy(c.policyHash.rules, plan)
  }

  /** What a child shares with its parent. */
  predicate ChildOf(c: Content, p: Content) {
    p.depth == c.depth - 1 && p.tenant == c.tenant && p.root == c.root && p.policyHash == c.policyHash
  }

  ghost predicate Linked(s: Store, r: nat)
    requires r in s.snapshots
  {
    var c := s.snapshots[r];
    && c.depth <= MAX_LINEAGE_DEPTH
    && c.policyHash.tenant == c.tenant && c.policyHash.version == c.policyVersion
    && (c.depth == 0 ==> c.derivation == Root && c.parent == None && c.root == r)
    && (c.depth > 0 ==>
          && c.derivation != Root && c.parent.Some? && c.parent.value in s.snapshots
          && Compiled(s, c)
          && ChildOf(c, s.snapshots[c.parent.value]))
  }

  ghost predicate Forest(s: Store) {
    && UniqueHashes(s)
    && (forall k :: k in s.plans ==> s.plans[k].planRef == k.planRef)
    && (forall r {:trigger Linked(s, r)} :: r in s.snapshots ==> Linked(s, r))
  }

  lemma LinkedGrows(s: Store, t: Store, r: nat)
    requires Grows(s, t) && r in s.snapshots && Linked(s, r)
    ensures Linked(t, r)
  {
    var c := s.snapshots[r];
    if c.depth > 0 {
      var plan :| PlanOf(s, c, plan) && c.resolved == ResolveEffectivePolicy(c.policyHash.rules, plan);
      assert PlanOf(t, c, plan);
    }
  }

  ghost predicate IsRootOf(ref: nat, root: Content, c: Content) {
    && root.depth == 0 && root.root == ref && root.parent == None && root.derivation == Root
    && root.tenant == c.tenant && root.policyVersion == c.policyVersion && root.policyHash == c.policyHash
  }

  /** Following parents `k` times. */
  function Ancestor(s: Store, r: nat, k: nat): Option<nat>
    decreases k
  {
    if k == 0 then Some(r)
    else if r in s.snapshots && s.snapshots[r].parent.Some? then Ancestor(s, s.snapshots[r].parent.value, k - 1)
    else None
  }

  lemma ParentFacts(s: Store, r: nat)
    requires Forest(s) && r in s.snapshots
    ensures var c := s.snapshots[r];
            && c.depth <= MAX_LINEAGE_DEPTH
            && (c.depth == 0 ==> c.derivation == Root && c.parent == None && c.root == r)
            && (c.depth > 0 ==> c.parent.Some? && c.parent.value in s.snapshots
                                && ChildOf(c, s.snapshots[c.parent.value])
                                && s.snapshots[c.parent.value].policyVersion == c.policyVersion)
  {
    var c := s.snapshots[r];
    assert Linked(s, r);
    if c.depth > 0 {
      assert Linked(s, c.parent.value);
    }
  }

  /** Exactly `depth` parent steps lead to the root: self-rooted, of the same tenant, pinning the
    same policy version and hash. */
  lemma {:induction false} LineageEndsAtRoot(s: Store, r: nat)
    requires Forest(s) && r in s.snapshots
    ensures var c := s.snapshots[r];
            && c.depth <= MAX_LINEAGE_DEPTH
            && Ancestor(s, r, c.depth) == Some(c.root) && Ancestor(s, r, c.depth + 1) == None
            && c.root in s.snapshots
            && IsRootOf(c.root, s.snapshots[c.root], c)
    decreases s.snapshots[r].depth
  {
    var c := s.snapshots[r];
    ParentFacts(s, r);
    if c.depth > 0 {
      LineageEndsAtRoot(s, c.parent.value);
      assert Ancestor(s, r, c.depth) == Ancestor(s, c.parent.value, c.depth - 1);
      assert Ancestor(s, r, c.depth + 1) == Ancestor(s, c.parent.value, c.depth);
    }
  }

  lemma CreateOutcome(s: Store, c: Content, newRef: nat)
    requires UniqueHashes(s) && newRef !in s.snapshots
    ensures var t := Create(s, c, newRef).0;
            t == s || t == s.(snapshots := s.snapshots[newRef := c])
  {}

  lemma CreateKeepsForest(s: Store, c: Content, newRef: nat)
    requires Forest(s) && newRef !in s.snapshots
    requires Linked(s.(snapshots := s.snapshots[newRef := c]), newRef)
    ensures Forest(Create(s, c, newRef).0) && Grows(s, Create(s, c, newRef).0)
  {
    var t := Create(s, c, newRef).0;
    CreateOutcome(s, c, newRef);
    forall r | r in s.snapshots ensures Linked(t, r) {
      LinkedGrows(s, t, r);
    }
  }

  predicate RootShape(c: Content, ref: nat) {
    && c.derivation == Root && c.parent == None && c.depth == 0 && c.root == ref
    && c.policyHash.tenant == c.tenant && c.policyHash.version == c.policyVersion
  }

  lemma RootForShape(s: Store, input: ResolveInput, newRef: nat)
    ensures RootFor(s, input, newRef).Ok? ==> RootShape(RootFor(s, input, newRef).value, newRef)
  {}

  lemma ResolveKeepsForest(s: Store, input: ResolveInput, newRef: nat)
    requires Forest(s) && newRef !in s.snapshots
    ensures Forest(Resolve(s, input, newRef).0) && Grows(s, Resolve(s, input, newRef).0)
  {
    var c := RootFor(s, input, newRef);
    RootForShape(s, input, newRef);
    if c.Ok? {
      CreateKeepsForest(s, c.value, newRef);
    }
  }

  /** When a derivation goes through: what it needs of the store, and no more. The root is always
    found, the parent's own hash never matters, and creation never throws. */
  ghost predicate Derivable(s: Store, input: DeriveInput) {
    && input.parent in s.snapshots
    && s.snapshots[input.parent].tenant == input.tenant
    && s.snapshots[input.parent].depth < MAX_LINEAGE_DEPTH
    && PolicyUnchanged(s, s.snapshots[input.parent])
    && PlanKey(input.tenant, input.planType, input.planRef) in s.plans
    && (input.planHash.Some? ==>
          s.plans[PlanKey(input.tenant, input.planType, input.planRef)].planHash == input.planHash.value)
  }

  /** The row of the pinned version still has the pinned hash. */
  ghost predicate PolicyUnchanged(s: Store, c: Content) {
    var rows := PolicyRows(s, c.tenant);
    c.policyVersion in rows && HashPolicy(c.tenant, c.policyVersion, rows[c.policyVersion]) == c.policyHash
  }

  /** The child of the parent's lineage, policy version and pinned hash, for the plan asked for. */
  function DerivedContent(s: Store, input: DeriveInput): Content
    requires input.parent in s.snapshots && PlanKey(input.tenant, input.planType, input.planRef) in s.plans
  {
    var parent, plan := s.snapshots[input.parent], s.plans[PlanKey(input.tenant, input.planType, input.planRef)];
    parent.(parent := Some(input.parent), derivation := input.derivation, depth := 1 + parent.depth,
            planRef := input.planRef, planHash := plan.planHash, planType := input.planType,
            resolved := ResolveEffectivePolicy(parent.policyHash.rules, plan))
  }

  /** The content is stored under `ref`: under its old reference if it was there, else under the new one. */
  ghost predicate Stores(s: Store, c: Content, newRef: nat, t: Store, ref: nat) {
    if ref in s.snapshots && s.snapshots[ref] == c then t == s
    else c !in s.snapshots.Values && ref == newRef && t == s.(snapshots := s.snapshots[newRef := c])
  }

  lemma DerivedIsLinked(s: Store, input: DeriveInput, newRef: nat)
    requires Forest(s) && newRef !in s.snapshots && input.derivation != Root && Derivable(s, input)
    ensures var c := DerivedContent(s, input);
            && LineageShape(c, newRef)
            && Linked(s.(snapshots := s.snapshots[newRef := c]), newRef)
  {
    var c := DerivedContent(s, input);
    LineageEndsAtRoot(s, input.parent);
    assert Linked(s, input.parent);
    var t := s.(snapshots := s.snapshots[newRef := c]);
    var plan := s.plans[PlanKey(input.tenant, input.planType, input.planRef)];
    assert PlanOf(t, c, plan);
  }

  lemma DeriveSucceedsExactlyWhenDerivable(s: Store, input: DeriveInput, newRef: nat)
    requires Forest(s) && newRef !in s.snapshots && input.derivation != Root
    ensures Derive(s, input, newRef).1.Ok? <==> Derivable(s, input)
    ensures Derivable(s, input) ==>
              var (t, r) := Derive(s, input, newRef);
              Stores(s, DerivedContent(s, input), newRef, t, r.value.ref) && r.value.content == DerivedContent(s, input)
    ensures !Derivable(s, input) ==> Derive(s, input, newRef).0 == s
  {
    ChildForMeaning(s, input);
    if Derivable(s, input) {
      DerivedIsLinked(s, input, newRef);
    }
  }

  lemma ChildForMeaning(s: Store, input: DeriveInput)
    requires Forest(s)
    ensures ChildFor(s, input).Ok? <==> Derivable(s, input)
    ensures Derivable(s, input) ==> ChildFor(s, input).value == DerivedContent(s, input)
  {
    if input.parent in s.snapshots {
      LineageEndsAtRoot(s, input.parent);
      assert Linked(s, input.parent);
    }
  }

  lemma DeriveKeepsForest(s: Store, input: DeriveInput, newRef: nat)
    requires Forest(s) && newRef !in s.snapshots && input.derivation != Root
    ensures Forest(Derive(s, input, newRef).0) && Grows(s, Derive(s, input, newRef).0)
  {
    DeriveSucceedsExactlyWhenDerivable(s, input, newRef);
    if Derivable(s, input) {
      DerivedIsLinked(s, input, newRef);
      CreateKeepsForest(s, DerivedContent(s, input), newRef);
    }
  }

  lemma CallKeepsForest(s: Store, c: Call)
    requires Forest(s) && Legal(s, c)
    ensures Forest(Apply(s, c)) && Grows(s, Apply(s, c))
  {
    match c
    case ResolveCall(input, newRef) => ResolveKeepsForest(s, input, newRef);
    case DeriveCall(input, newRef) => DeriveKeepsForest(s, input, newRef);
    case AddPlan(key, plan) =>
      forall r | r in s.snapshots ensures Linked(Apply(s, c), r) { LinkedGrows(s, Apply(s, c), r); }
    case PolicyCall(tenant, call) =>
      forall r | r in s.snapshots ensures Linked(Apply(s, c), r) { LinkedGrows(s, Apply(s, c), r); }
  }

  /** Over every run, the snapshots form a forest and nothing stored ever changes. */
  lemma {:induction false} RunKeepsForest(s: Store, calls: seq<Call>, t: Store)
    requires Forest(s) && Runs(s, calls, t)
    ensures Forest(t) && Grows(s, t)
    decreases |calls|
  {
    if calls != [] {
      CallKeepsForest(s, calls[0]);
      RunKeepsForest(Apply(s, calls[0]), calls[1..], t);
    }
  }

  lemma EverySnapshotTracesToItsRoot(calls: seq<Call>, t: Store, r: nat)
    requires Runs(EMPTY, calls, t) && r in t.snapshots
    ensures var c := t.snapshots[r];
            && c.depth <= MAX_LINEAGE_DEPTH
            && Ancestor(t, r, c.depth) == Some(c.root) && Ancestor(t, r, c.depth + 1) == None
            && c.root in t.snapshots
            && IsRootOf(c.root, t.snapshots[c.root], c)
  {
    RunKeepsForest(EMPTY, calls, t);
    LineageEndsAtRoot(t, r);
  }

  // ---- Repeating a derivation ----

  lemma DerivedContentIsStable(s: Store, input: DeriveInput, t: Store)
    requires Grows(s, t) && Derivable(s, input)
    ensures Derivable(t, input) ==> DerivedContent(t, input) == DerivedContent(s, input)
  {}

  lemma CreateFindsExisting(s: Store, c: Content, ref: nat, newRef: nat)
    requires UniqueHashes(s) && newRef !in s.snapshots && LineageShape(c, newRef)
    requires ref in s.snapshots && s.snapshots[ref] == c
    ensures Create(s, c, newRef) == (s, Ok(Snapshot(ref, c)))
  {}

  lemma CreatedIsStored(s: Store, c: Content, newRef: nat)
    requires UniqueHashes(s) && newRef !in s.snapshots && LineageShape(c, newRef)
    ensures var (t, r) := Create(s, c, newRef);
            r.Ok? && r.value.content == c && r.value.ref in t.snapshots && t.snapshots[r.value.ref] == c
  {}

  /** However the store has moved on, an identical derivation that still succeeds returns the child
    the first one returned, and stores nothing. */
  lemma RepeatedDeriveReturnsTheChild(s: Store, input: DeriveInput, newRef: nat, s1: Store, first: Snapshot,
                                      calls: seq<Call>, t: Store, newerRef: nat)
    requires Forest(s) && newRef !in s.snapshots && input.derivation != Root
    requires Derive(s, input, newRef) == (s1, Ok(first))
    requires Runs(s1, calls, t)
    requires newerRef !in t.snapshots && Derive(t, input, newerRef).1.Ok?
    ensures Derive(t, input, newerRef) == (t, Ok(first))
  {
    FirstChildStored(s, input, newRef, s1, first, calls, t);
    DeriveSucceedsExactlyWhenDerivable(t, input, newerRef);
    DeriveFindsExisting(t, input, newerRef, first);
  }

  lemma DeriveFindsExisting(t: Store, input: DeriveInput, newerRef: nat, first: Snapshot)
    requires Forest(t) && newerRef !in t.snapshots && input.derivation != Root && Derivable(t, input)
    requires first.content == DerivedContent(t, input)
    requires first.ref in t.snapshots && t.snapshots[first.ref] == first.content
    ensures Derive(t, input, newerRef) == (t, Ok(first))
  {
    DeriveSucceedsExactlyWhenDerivable(t, input, newerRef);
    DerivedIsLinked(t, input, newerRef);
    CreateFindsExisting(t, first.content, first.ref, newerRef);
  }

  lemma FirstChildStored(s: Store, input: DeriveInput, newRef: nat, s1: Store, first: Snapshot, calls: seq<Call>, t: Store)
    requires Forest(s) && newRef !in s.snapshots && input.derivation != Root
    requires Derive(s, input, newRef) == (s1, Ok(first))
    requires Runs(s1, calls, t)
    ensures Forest(t) && (Derivable(t, input) ==> DerivedContent(t, input) == first.content)
    ensures first.ref in t.snapshots && t.snapshots[first.ref] == first.content
  {
    DeriveSucceedsExactlyWhenDerivable(s, input, newRef);
    DerivedIsLinked(s, input, newRef);
    CreatedIsStored(s, DerivedContent(s, input), newRef);
    DeriveKeepsForest(s, input, newRef);
    RunKeepsForest(s1, calls, t);
    assert Grows(s, t);
    DerivedContentIsStable(s, input, t);
  }

  // ---- What a snapshot permits ----

  ghost predicate EveryRootRequired(calls: seq<Call>) {
    forall i :: 0 <= i < |calls| && calls[i].ResolveCall? ==> calls[i].resolve.mode == Required
  }

  ghost predicate AllCompiled(s: Store) {
    forall r :: r in s.snapshots ==> Compiled(s, s.snapshots[r])
  }

  lemma CompiledGrows(s: Store, t: Store, c: Content)
    requires Grows(s, t) && Compiled(s, c)
    ensures Compiled(t, c)
  {
    var plan :| PlanOf(s, c, plan) && c.resolved == ResolveEffectivePolicy(c.policyHash.rules, plan);
    assert PlanOf(t, c, plan);
  }

  lemma RootForCompiles(s: Store, input: ResolveInput, newRef: nat)
    requires Forest(s) && input.mode == Required
    ensures RootFor(s, input, newRef).Ok? ==> Compiled(s, RootFor(s, input, newRef).value)
  {
    var c := RootFor(s, input, newRef);
    if c.Ok? {
      assert PlanOf(s, c.value, LoadPlan(s, input.tenant, input.planType, input.planRef).value);
    }
  }

  lemma GrowthKeepsCompiled(s: Store, t: Store, c: Content)
    requires AllCompiled(s) && Grows(s, t) && Compiled(s, c)
    requires forall r :: r in t.snapshots ==> r in s.snapshots || t.snapshots[r] == c
    ensures AllCompiled(t)
  {
    CompiledGrows(s, t, c);
    forall r | r in s.snapshots ensures Compiled(t, s.snapshots[r]) {
      CompiledGrows(s, t, s.snapshots[r]);
    }
  }

  lemma CreateKeepsCompiled(s: Store, c: Content, newRef: nat)
    requires UniqueHashes(s) && AllCompiled(s) && newRef !in s.snapshots && Compiled(s, c)
    ensures AllCompiled(Create(s, c, newRef).0)
  {
    CreateOutcome(s, c, newRef);
    GrowthKeepsCompiled(s, Create(s, c, newRef).0, c);
  }

  lemma ResolveKeepsCompiled(s: Store, input: ResolveInput, newRef: nat)
    requires Forest(s) && AllCompiled(s) && newRef !in s.snapshots && input.mode == Required
    ensures AllCompiled(Resolve(s, input, newRef).0)
  {
    var c := RootFor(s, input, newRef);
    RootForCompiles(s, input, newRef);
    if c.Ok? {
      CreateKeepsCompiled(s, c.value, newRef);
    }
  }

  lemma DeriveKeepsCompiled(s: Store, input: DeriveInput, newRef: nat)
    requires Forest(s) && AllCompiled(s) && newRef !in s.snapshots && input.derivation != Root
    ensures AllCompiled(Derive(s, input, newRef).0)
  {
    ChildForMeaning(s, input);
    if Derivable(s, input) {
      var c := DerivedContent(s, input);
      assert PlanOf(s, c, s.plans[PlanKey(input.tenant, input.planType, input.planRef)]);
      CreateKeepsCompiled(s, c, newRef);
    }
  }

  lemma CallKeepsCompiled(s: Store, c: Call)
    requires Forest(s) && AllCompiled(s) && Legal(s, c) && (c.ResolveCall? ==> c.resolve.mode == Required)
    ensures AllCompiled(Apply(s, c))
  {
    match c
    case ResolveCall(input, newRef) => ResolveKeepsCompiled(s, input, newRef);
    case DeriveCall(input, newRef) => DeriveKeepsCompiled(s, input, newRef);
    case AddPlan(key, plan) =>
      forall r | r in s.snapshots ensures Compiled(Apply(s, c), s.snapshots[r]) {
        CompiledGrows(s, Apply(s, c), s.snapshots[r]);
      }
    case PolicyCall(tenant, call) =>
      forall r | r in s.snapshots ensures Compiled(Apply(s, c), s.snapshots[r]) {
        CompiledGrows(s, Apply(s, c), s.snapshots[r]);
      }
  }

  lemma {:induction false} RequiredRunCompiles(s: Store, calls: seq<Call>, t: Store)
    requires Forest(s) && AllCompiled(s) && Runs(s, calls, t) && EveryRootRequired(calls)
    ensures AllCompiled(t)
    decreases |calls|
  {
    if calls != [] {
      CallKeepsForest(s, calls[0]);
      CallKeepsCompiled(s, calls[0]);
      RequiredRunCompiles(Apply(s, calls[0]), calls[1..], t);
    }
  }

  /** The rules the root of `r` pinned, whatever the policy rows say now. */
  function PinnedRules(s: Store, r: nat): PolicyRules
    requires r in s.snapshots && s.snapshots[r].root in s.snapshots
  {
    s.snapshots[s.snapshots[r].root].policyHash.rules
  }

  /** The caller presents the snapshot's own tenant, hash and plan. */
  predicate Identifies(p: Presented, c: Content) { p == Presented(c.tenant, c, c.planRef, c.planHash) }

  /** For a caller that identifies it, the snapshot decides as `rules` do on `plan`; it stays within
    their cap. */
  ghost predicate Obeys(c: Content, rules: PolicyRules, plan: Plan, p: Presented,
                        name: string, version: string, op: Operation,
                        request: ModelRequest, target: string, f: Limit) {
    && (AssertAllowsTool(c, p, name, version, op).Ok? <==> Identifies(p, c) && DirectlyAllowsTool(rules, plan, name, version, op))
    && (AssertAllowsModel(c, p, request).Ok? <==> Identifies(p, c) && DirectlyAllowsModel(rules, plan, request))
    && (AssertAllowsHandoff(c, p, target).Ok? <==> Identifies(p, c) && DirectlyAllowsHandoff(rules, plan, target))
    && (rules.budgetCap.Get(f).Some? ==> c.resolved.budget.Get(f) <= rules.budgetCap.Get(f).value)
    && CostAtMost(c.resolved.budget.maxCost, rules.budgetCap.maxCost)
  }

  lemma BudgetWithinCap(c: Resolved, rules: PolicyRules, plan: Plan, f: Limit)
    requires c == ResolveEffectivePolicy(rules, plan)
    ensures rules.budgetCap.Get(f).Some? ==> c.budget.Get(f) <= rules.budgetCap.Get(f).value
    ensures CostAtMost(c.budget.maxCost, rules.budgetCap.maxCost)
  {
    CapBounds(PlanBudget(plan), rules.budgetCap, f);
  }

  lemma CompiledToolObeys(c: Content, rules: PolicyRules, plan: Plan, p: Presented, name: string, version: string, op: Operation)
    requires c.resolved == ResolveEffectivePolicy(rules, plan)
    ensures AssertAllowsTool(c, p, name, version, op).Ok? <==> Identifies(p, c) && DirectlyAllowsTool(rules, plan, name, version, op)
  {
    ToolDecisionAgrees(rules, plan, name, version, op);
  }

  lemma CompiledModelObeys(c: Content, rules: PolicyRules, plan: Plan, p: Presented, request: ModelRequest)
    requires c.resolved == ResolveEffectivePolicy(rules, plan)
    ensures AssertAllowsModel(c, p, request).Ok? <==> Identifies(p, c) && DirectlyAllowsModel(rules, plan, request)
  {
    ModelDecisionAgrees(rules, plan, request);
  }

  lemma CompiledHandoffObeys(c: Content, rules: PolicyRules, plan: Plan, p: Presented, target: string)
    requires c.resolved == ResolveEffectivePolicy(rules, plan)
    ensures AssertAllowsHandoff(c, p, target).Ok? <==> Identifies(p, c) && DirectlyAllowsHandoff(rules, plan, target)
  {
    HandoffDecisionAgrees(rules, plan, target);
  }

  /** In required mode, a snapshot anywhere in a lineage decides exactly as its root's pinned rules
    do on the plan it names, and every budget limit is within the pinned cap. */
  lemma SnapshotObeysPinnedRules(calls: seq<Call>, t: Store, r: nat, p: Presented,
                                 name: string, version: string, op: Operation,
                                 request: ModelRequest, target: string, f: Limit)
    requires Runs(EMPTY, calls, t) && EveryRootRequired(calls) && r in t.snapshots
    ensures t.snapshots[r].root in t.snapshots
    ensures exists plan :: PlanOf(t, t.snapshots[r], plan)
              && Obeys(t.snapshots[r], PinnedRules(t, r), plan, p, name, version, op, request, target, f)
  {
    RunKeepsForest(EMPTY, calls, t);
    RequiredRunCompiles(EMPTY, calls, t);
    LineageEndsAtRoot(t, r);
    var c := t.snapshots[r];
    var plan :| PlanOf(t, c, plan) && c.resolved == ResolveEffectivePolicy(c.policyHash.rules, plan);
    var rules := PinnedRules(t, r);
    CompiledToolObeys(c, rules, plan, p, name, version, op);
    CompiledModelObeys(c, rules, plan, p, request);
    CompiledHandoffObeys(c, rules, plan, p, target);
    BudgetWithinCap(c.resolved, rules, plan, f);
    assert Obeys(c, rules, plan, p, name, version, op, request, target, f);
  }

  lemma CapBounds(b: Budget, cap: BudgetCap, f: Limit)
    ensures cap.Get(f).Some? ==> CapBudget(b, cap).Get(f) <= cap.Get(f).value
    ensures CostAtMost(CapBudget(b, cap).maxCost, cap.maxCost)
  {
    match f {
      case Segments =>
      case ModelTurns =>
      case ToolCalls =>
      case InputTokens =>
      case OutputTokens =>
      case TotalTokens =>
      case DurationMs =>
      case Handoffs =>
      case ContextBytes =>
    }
  }

  /** Any change to the pinned row, its status included, stops every derivation below it. A policy
    that has been deprecated or replaced grants nothing new, even to lineages begun before. */
  lemma ChangedPolicyStopsDerivation(s: Store, input: DeriveInput, newRef: nat)
    requires Forest(s) && newRef !in s.snapshots && input.derivation != Root
    requires input.parent in s.snapshots
    requires var c := s.snapshots[input.parent];
             && c.policyVersion in PolicyRows(s, c.tenant)
             && var row := PolicyRows(s, c.tenant)[c.policyVersion];
                row.status != c.policyHash.status || row.content != c.policyHash.rules
    ensures Derive(s, input, newRef).1.Err? && Derive(s, input, newRef).0 == s
  {
    DeriveSucceedsExactlyWhenDerivable(s, input, newRef);
  }

  // ---- Development mode without a policy ----

  lemma PlanOnlyRuleMatches(t: PlanTool, name: string, version: string, op: Operation)
    ensures MatchesTool(PlanOnlyToolRule(t), name, version) <==> t.toolName == name && t.toolVersion == version
    ensures op in PlanOnlyToolRule(t).operations
  {
    match op case Commit => case Invoke => case Preview =>
  }

  lemma PlanOnlyRulesMatch(tools: seq<PlanTool>, name: string, version: string, op: Operation)
    ensures (exists r :: r in PlanOnlyToolRules(tools) && MatchesTool(r, name, version) && op in r.operations)
            <==> exists t :: t in tools && t.toolName == name && t.toolVersion == version
  {
    var rules := PlanOnlyToolRules(tools);
    if i :| 0 <= i < |tools| && tools[i].toolName == name && tools[i].toolVersion == version {
      PlanOnlyRuleMatches(tools[i], name, version, op);
      assert rules[i] in rules;
      assert tools[i] in tools;
    } else {
      forall r | r in rules ensures !MatchesTool(r, name, version) {
        var i :| 0 <= i < |rules| && rules[i] == r;
        PlanOnlyRuleMatches(tools[i], name, version, op);
      }
    }
  }

  lemma PlanOnlyModelRule(plan: Plan, id: string)
    ensures (exists r :: r in ResolvePlanOnly(plan).allowedModels && r.modelId == id) <==> PlanNames(plan, id, id)
  {
    var models, rules := MergeEntries(RawModelEntries(plan)), ResolvePlanOnly(plan).allowedModels;
    EntriesOfPlan(plan, id, id);
    MergedEntryFor(RawModelEntries(plan), id);
    if HasId(models, id) {
      var i :| 0 <= i < |models| && models[i].modelId == id;
      assert rules[i] in rules && rules[i].modelId == id;
    }
    if r :| r in rules && r.modelId == id {
      var i :| 0 <= i < |rules| && rules[i] == r;
      assert models[i] in models;
    }
  }

  lemma PlanOnlyModels(plan: Plan, request: ModelRequest)
    ensures CheckModel(ResolvePlanOnly(plan), request).Ok? <==> exists id :: PlanNames(plan, id, id) && Requested(request, id)
  {
    forall id ensures (exists r :: r in ResolvePlanOnly(plan).allowedModels && r.modelId == id) <==> PlanNames(plan, id, id) {
      PlanOnlyModelRule(plan, id);
    }
    forall id ensures id in RequestNames(request) <==> Requested(request, id) { RequestMeaning(request, id); }
  }

  lemma PlanOnlyHandoffs(plan: Plan, target: string)
    ensures CheckHandoff(ResolvePlanOnly(plan), target).Ok? <==> PlanHandsTo(plan, target)
  {
    var handoffs, rules := PlanHandoffs(plan), ResolvePlanOnly(plan).allowedHandoffs;
    PlanHandoffsMeaning(plan, target);
    if target in handoffs {
      var i :| 0 <= i < |handoffs| && handoffs[i] == target;
      assert rules[i] in rules && HandoffMatches(rules[i], target);
    }
    if r :| r in rules && HandoffMatches(r, target) {
      var i :| 0 <= i < |rules| && rules[i] == r;
      assert handoffs[i] in handoffs;
    }
  }

  lemma PlanOnlyTools(plan: Plan, name: string, version: string, op: Operation)
    ensures CheckTool(ResolvePlanOnly(plan), name, version, op).Ok?
            <==> exists t :: t in plan.tools && t.toolName == name && t.toolVersion == version
  {
    PlanOnlyRulesMatch(plan.tools, name, version, op);
    assert ResolvePlanOnly(plan).deniedTools == [];
  }

  lemma PlanOnlyBudget(plan: Plan, f: Limit)
    ensures PlanSets(plan, f, ResolvePlanOnly(plan).budget.Get(f))
    ensures ResolvePlanOnly(plan).budget.maxCost == if plan.AgentPlan? then plan.budget.maxCost else None
    ensures ResolvePlanOnly(plan).maxConcurrentAgentRuns == 1
  {}

  /** A plan-only root permits exactly the tools of its plan, with every operation, its models and its
    handoffs, within the plan's own budget and one run at a time. */
  lemma PlanOnlyPermitsThePlan(plan: Plan, name: string, version: string, op: Operation, request: ModelRequest,
                               target: string, f: Limit)
    ensures CheckTool(ResolvePlanOnly(plan), name, version, op).Ok?
            <==> exists t :: t in plan.tools && t.toolName == name && t.toolVersion == version
    ensures CheckModel(ResolvePlanOnly(plan), request).Ok? <==> exists id :: PlanNames(plan, id, id) && Requested(request, id)
    ensures CheckHandoff(ResolvePlanOnly(plan), target).Ok? <==> PlanHandsTo(plan, target)
    ensures PlanSets(plan, f, ResolvePlanOnly(plan).budget.Get(f))
    ensures ResolvePlanOnly(plan).budget.maxCost == if plan.AgentPlan? then plan.budget.maxCost else None
    ensures ResolvePlanOnly(plan).maxConcurrentAgentRuns == 1
  {
    PlanOnlyTools(plan, name, version, op);
    PlanOnlyModels(plan, request);
    PlanOnlyHandoffs(plan, target);
    PlanOnlyBudget(plan, f);
  }

  /** Its rules record each plan tool with its risk, and each handoff for itself as flow and as plan. */
  lemma PlanOnlyRulesNameThePlan(plan: Plan)
    ensures forall r :: r in ResolvePlanOnly(plan).allowedTools ==>
              exists t :: t in plan.tools && r == ToolRule(t.toolName, Some([t.toolVersion]), r.operations, Some(t.risk), None)
    ensures forall r :: r in ResolvePlanOnly(plan).allowedHandoffs ==> r == HandoffRule(r.flowId, None, Some([r.flowId]), None)
  {
    var rules := PlanOnlyToolRules(plan.tools);
    forall r | r in rules
      ensures exists t :: t in plan.tools && r == ToolRule(t.toolName, Some([t.toolVersion]), r.operations, Some(t.risk), None)
    {
      var i :| 0 <= i < |rules| && rules[i] == r;
      assert plan.tools[i] in plan.tools;
    }
  }

  // ---- When a root is resolved ----

  ghost predicate PublishedRow(s: Store, tenant: string, v: nat) {
    tenant in s.policies && v in s.policies[tenant] && s.policies[tenant][v].status == PR.Published
  }

  /** A plan of that hash, and a published policy unless the mode does without. */
  ghost predicate Resolvable(s: Store, input: ResolveInput) {
    && PlanKey(input.tenant, input.planType, input.planRef) in s.plans
    && (forall h :: input.planHash == Some(h) ==> s.plans[PlanKey(input.tenant, input.planType, input.planRef)].planHash == h)
    && (input.mode == Optional || exists v: nat :: PublishedRow(s, input.tenant, v))
  }

  /** The root pins this version, which is the greatest published one, and is compiled from it. */
  ghost predicate PinsVersion(s: Store, c: Content, plan: Plan, v: nat) {
    && PublishedRow(s, c.tenant, v) && (forall w: nat :: PublishedRow(s, c.tenant, w) ==> w <= v)
    && c.policyVersion == v
    && c.policyHash == PolicyDigest(c.tenant, v, PR.Published, s.policies[c.tenant][v].content)
    && c.resolved == ResolveEffectivePolicy(s.policies[c.tenant][v].content, plan)
  }

  /** The stand-in for a policy allows nothing itself and caps at the plan's own budget. */
  ghost predicate StandsIn(rules: PolicyRules, b: Budget) {
    && rules.allowedTools == [] && rules.deniedTools == [] && rules.allowedModels == [] && rules.deniedModels == []
    && rules.allowedHandoffs == [] && rules.deniedHandoffs == [] && rules.maxConcurrentAgentRuns == 1
    && rules.budgetCap.maxCost == b.maxCost && forall f: Limit :: rules.budgetCap.Get(f) == Some(b.Get(f))
  }

  lemma PlanOnlyRulesStandIn(b: Budget)
    ensures StandsIn(PlanOnlyRules(b), b)
  {
    forall f: Limit ensures PlanOnlyRules(b).budgetCap.Get(f) == Some(b.Get(f)) {
      match f {
        case Segments =>
        case ModelTurns =>
        case ToolCalls =>
        case InputTokens =>
        case OutputTokens =>
        case TotalTokens =>
        case DurationMs =>
        case Handoffs =>
        case ContextBytes =>
      }
    }
  }

  ghost predicate RootOf(s: Store, input: ResolveInput, newRef: nat, c: Content) {
    && PlanKey(input.tenant, input.planType, input.planRef) in s.plans
    && var plan := s.plans[PlanKey(input.tenant, input.planType, input.planRef)];
    && c.tenant == input.tenant && c.root == newRef && c.parent == None && c.derivation == Root && c.depth == 0
    && c.planRef == input.planRef && c.planHash == plan.planHash && c.planType == input.planType
    && (if exists v: nat :: PublishedRow(s, input.tenant, v) then exists v: nat :: PinsVersion(s, c, plan, v)
        else && c.policyVersion == 1 && c.resolved == ResolvePlanOnly(plan)
             && c.policyHash == PolicyDigest(c.tenant, 1, PR.Published, c.policyHash.rules)
             && StandsIn(c.policyHash.rules, c.resolved.budget))
  }

  lemma RootForMeaning(s: Store, input: ResolveInput, newRef: nat)
    requires Forest(s)
    ensures RootFor(s, input, newRef).Ok? <==> Resolvable(s, input)
    ensures RootFor(s, input, newRef).Ok? ==> RootOf(s, input, newRef, RootFor(s, input, newRef).value)
  {
    var rows := PolicyRows(s, input.tenant);
    var latest := LatestPublished(rows);
    assert latest.Some? ==> PublishedRow(s, input.tenant, latest.value);
    if RootFor(s, input, newRef).Ok? {
      var c := RootFor(s, input, newRef).value;
      var plan := s.plans[PlanKey(input.tenant, input.planType, input.planRef)];
      if latest.Some? {
        assert PinsVersion(s, c, plan, latest.value);
      } else {
        PlanOnlyRulesStandIn(c.resolved.budget);
      }
    }
  }

  /** A root is stored exactly when a plan of that hash exists and, unless the mode does without, a
    published policy: it pins the greatest published version and is compiled from it, or stands for the
    plan alone. */
  lemma ResolveSucceedsExactlyWhen(s: Store, input: ResolveInput, newRef: nat)
    requires Forest(s) && newRef !in s.snapshots
    ensures var (t, r) := Resolve(s, input, newRef);
            && (r.Ok? <==> Resolvable(s, input)) && (r.Err? ==> t == s)
            && (r.Ok? ==> r.value.ref == newRef && RootOf(s, input, newRef, r.value.content)
                          && t == s.(snapshots := s.snapshots[newRef := r.value.content]))
  {
    RootForMeaning(s, input, newRef);
    if RootFor(s, input, newRef).Ok? {
      var c := RootFor(s, input, newRef).value;
      forall r | r in s.snapshots ensures s.snapshots[r] != c { LineageEndsAtRoot(s, r); }
    }
  }

  /** It cannot be handed on: whatever is derived below such a root permits no tool at all. */
  lemma BelowPlanOnlyNothingIsPermitted(s: Store, r: nat, b: Budget, name: string, version: string, op: Operation)
    requires Forest(s) && r in s.snapshots && s.snapshots[r].depth > 0
    requires s.snapshots[r].policyHash.rules == PlanOnlyRules(b)
    ensures CheckTool(s.snapshots[r].resolved, name, version, op).Err?
  {
    var c := s.snapshots[r];
    assert Linked(s, r);
    var plan :| PlanOf(s, c, plan) && c.resolved == ResolveEffectivePolicy(c.policyHash.rules, plan);
    ToolDecisionAgrees(c.policyHash.rules, plan, name, version, op);
  }

  /** A missing plan is reported as one of its type, once the policy is settled. */
  lemma MissingPlanIsReported(s: Store, input: ResolveInput, newRef: nat)
    requires Forest(s) && newRef !in s.snapshots && PlanKey(input.tenant, input.planType, input.planRef) !in s.plans
    requires input.mode == Optional || exists v: nat :: PublishedRow(s, input.tenant, v)
    ensures Resolve(s, input, newRef).1
            == Err(match input.planType case FlowType => "FLOW_EXECUTION_PLAN_NOT_FOUND" case AgentType => "AGENT_EXECUTION_PLAN_NOT_FOUND")
  {}

  // ---- A lineage that is reached ----

  const KEY := PlanKey("tenant", FlowType, "plan")

  function RootInput(): ResolveInput { ResolveInput("tenant", "plan", None, FlowType, Required) }

  function ChildInput(): DeriveInput { DeriveInput("tenant", 0, "plan", None, FlowType, Handoff) }

  lemma PlanIsAdded(s: Store, plan: Plan)
    requires UniqueHashes(s) && KEY !in s.plans && plan.FlowPlan? && plan.planRef == "plan"
    ensures Legal(s, AddPlan(KEY, plan)) && Apply(s, AddPlan(KEY, plan)) == s.(plans := s.plans[KEY := plan])
  {}

  lemma PolicyIsReleased(s: Store, rules: PolicyRules)
    requires UniqueHashes(s) && "tenant" !in s.policies
    ensures var draft, publish := PolicyCall("tenant", PR.CreateDraft(1, rules)), PolicyCall("tenant", PR.Publish(1, None));
            && Legal(s, draft) && Legal(Apply(s, draft), publish)
            && Apply(Apply(s, draft), publish) == s.(policies := s.policies["tenant" := map[1 := PR.Row(PR.Published, 2, rules)]])
  {
    var draft, publish := PolicyCall("tenant", PR.CreateDraft(1, rules)), PolicyCall("tenant", PR.Publish(1, None));
    var rows := map[1 := PR.Row(PR.Draft, 1, rules)];
    assert Apply(s, draft) == s.(policies := s.policies["tenant" := rows]);
    assert PR.DeprecateOthers(PR.TenantRuntimePolicy, rows, 1) == rows;
    assert PR.Apply(PR.TenantRuntimePolicy, rows, PR.Publish(1, None)).0 == map[1 := PR.Row(PR.Published, 2, rules)];
  }

  /** From the empty store: a policy drafted and published, a plan added, a root resolved and a child
    derived from it, which is one step below the root and compiled from the same rules. */
  lemma LineageIsReached(rules: PolicyRules, plan: Plan)
    requires plan.FlowPlan? && plan.planRef == "plan"
    ensures var calls := [PolicyCall("tenant", PR.CreateDraft(1, rules)), PolicyCall("tenant", PR.Publish(1, None)),
                          AddPlan(KEY, plan), ResolveCall(RootInput(), 0), DeriveCall(ChildInput(), 1)];
            exists t :: && Runs(EMPTY, calls, t) && t.snapshots.Keys == {0, 1}
                        && t.snapshots[0].depth == 0 && t.snapshots[0].resolved == ResolveEffectivePolicy(rules, plan)
                        && t.snapshots[1].depth == 1 && t.snapshots[1].root == 0 && t.snapshots[1].parent == Some(0)
                        && t.snapshots[1].resolved == ResolveEffectivePolicy(rules, plan)
  {
    var calls := [PolicyCall("tenant", PR.CreateDraft(1, rules)), PolicyCall("tenant", PR.Publish(1, None)),
                  AddPlan(KEY, plan), ResolveCall(RootInput(), 0), DeriveCall(ChildInput(), 1)];
    var s1 := Apply(EMPTY, calls[0]);
    PolicyIsReleased(EMPTY, rules);
    var s2 := EMPTY.(policies := map["tenant" := map[1 := PR.Row(PR.Published, 2, rules)]]);
    PlanIsAdded(s2, plan);
    var s3 := s2.(plans := map[KEY := plan]);
    RootIsReached(s3, rules, plan);
    var s4 := Apply(s3, calls[3]);
    ChildIsReached(s3, s4, rules, plan);
    var t := Apply(s4, calls[4]);
    RunsCons(t, [], t);
    RunsCons(s4, calls[4..], t);
    RunsCons(s3, calls[3..], t);
    RunsCons(s2, calls[2..], t);
    RunsCons(s1, calls[1..], t);
    RunsCons(EMPTY, calls, t);
  }

  lemma RunsCons(s: Store, calls: seq<Call>, t: Store)
    requires UniqueHashes(s)
    requires if calls == [] then s == t else Legal(s, calls[0]) && Runs(Apply(s, calls[0]), calls[1..], t)
    ensures Runs(s, calls, t)
  {}

  /** The store with this policy and plan alone. */
  ghost predicate Prepared(s: Store, rules: PolicyRules, plan: Plan) {
    s == Store(map["tenant" := map[1 := PR.Row(PR.Published, 2, rules)]], map[KEY := plan], map[]) && plan.planRef == "plan"
  }

  lemma RootIsReached(s: Store, rules: PolicyRules, plan: Plan)
    requires Prepared(s, rules, plan)
    ensures Forest(s) && Legal(s, ResolveCall(RootInput(), 0))
    ensures var t := Apply(s, ResolveCall(RootInput(), 0));
            && t == s.(snapshots := t.snapshots) && t.snapshots.Keys == {0} && PinsVersion(s, t.snapshots[0], plan, 1)
            && t.snapshots[0].tenant == "tenant" && t.snapshots[0].depth == 0 && t.snapshots[0].root == 0
  {
    assert PublishedRow(s, "tenant", 1);
    ResolveSucceedsExactlyWhen(s, RootInput(), 0);
    var c := Resolve(s, RootInput(), 0).1.value.content;
    var v: nat :| PinsVersion(s, c, plan, v);
    assert v == 1;
  }

  lemma ChildIsReached(s: Store, t: Store, rules: PolicyRules, plan: Plan)
    requires Prepared(s, rules, plan) && Forest(s) && Legal(s, ResolveCall(RootInput(), 0)) && t == Apply(s, ResolveCall(RootInput(), 0))
    requires t == s.(snapshots := t.snapshots) && t.snapshots.Keys == {0} && PinsVersion(s, t.snapshots[0], plan, 1)
    requires t.snapshots[0].tenant == "tenant" && t.snapshots[0].depth == 0 && t.snapshots[0].root == 0
    ensures UniqueHashes(t) && Legal(t, DeriveCall(ChildInput(), 1))
    ensures var u := Apply(t, DeriveCall(ChildInput(), 1));
            && u.snapshots.Keys == {0, 1} && u.snapshots[0] == t.snapshots[0]
            && u.snapshots[1].depth == 1 && u.snapshots[1].root == 0 && u.snapshots[1].parent == Some(0)
            && u.snapshots[1].resolved == ResolveEffectivePolicy(rules, plan)
  {
    CallKeepsForest(s, ResolveCall(RootInput(), 0));
    assert Derivable(t, ChildInput());
    DeriveSucceedsExactlyWhenDerivable(t, ChildInput(), 1);
  }
}
