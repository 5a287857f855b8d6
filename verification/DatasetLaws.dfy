/** What every run of dataset, case and gate policy calls keeps. */
module DatasetLaws {
  import opened Results
  import opened Lists
  import opened Sorting
  import opened Texts
  import opened DatasetContent
  import opened GatePolicies
  import opened Datasets

  // ---- Which dataset version a call touches ----

  predicate SameDataset(s: Tables, t: Tables, k: Key) {
    && (k in s.datasets <==> k in t.datasets)
    && (k in s.datasets ==> s.datasets[k] == t.datasets[k])
    && CasesOf(s.cases, k) == CasesOf(t.cases, k)
  }

  ghost predicate OnlyTouches(s: Tables, t: Tables, k: Key) {
    && t.policies == s.policies
    && s.datasets.Keys <= t.datasets.Keys <= s.datasets.Keys + {k}
    && forall k' :: k' != k ==> SameDataset(s, t, k')
  }

  lemma {:induction false} CasesOfConcat(a: seq<Case>, b: seq<Case>, k: Key)
    ensures CasesOf(a + b, k) == CasesOf(a, k) + CasesOf(b, k)
  {
    if a == [] {
      assert a + b == b;
    } else {
      CasesOfConcat(a[1..], b, k);
      var c := a + b;
      assert c[0] == a[0] && c[1..] == a[1..] + b;
      var head := if a[0].dataset == k then [a[0]] else [];
      ConcatAssociates(head, CasesOf(a[1..], k), CasesOf(b, k));
    }
  }

  lemma CasesOfOne(c: Case, k: Key)
    ensures CasesOf([c], k) == if c.dataset == k then [c] else []
  {
    assert [c][1..] == [];
  }

  lemma CasesOfReplaced(cs: seq<Case>, i: nat, mid: seq<Case>, k: Key)
    requires i < |cs| && cs[i].dataset != k && CasesOf(mid, k) == []
    ensures CasesOf(cs[..i] + mid + cs[i + 1..], k) == CasesOf(cs, k)
  {
    assert cs == cs[..i] + [cs[i]] + cs[i + 1..];
    CasesOfConcat(cs[..i] + [cs[i]], cs[i + 1..], k);
    CasesOfConcat(cs[..i], [cs[i]], k);
    CasesOfOne(cs[i], k);
    CasesOfConcat(cs[..i] + mid, cs[i + 1..], k);
    CasesOfConcat(cs[..i], mid, k);
  }

  lemma PutElsewhere(cs: seq<Case>, c: Case, k: Key)
    requires !TakenElsewhere(cs, c) && c.dataset != k
    ensures CasesOf(Put(cs, c), k) == CasesOf(cs, k)
  {
    var i := IndexOf(cs, c.id);
    CasesOfOne(c, k);
    if i < |cs| {
      CasesOfReplaced(cs, i, [c], k);
      assert cs[i := c] == cs[..i] + [c] + cs[i + 1..];
    } else {
      CasesOfConcat(cs, [c], k);
    }
  }

  lemma WithoutElsewhere(cs: seq<Case>, id: string, k: Key)
    requires HasCase(cs, id) && cs[IndexOf(cs, id)].dataset != k
    ensures CasesOf(Without(cs, id), k) == CasesOf(cs, k)
  {
    var i := IndexOf(cs, id);
    CasesOfReplaced(cs, i, [], k);
    assert cs[..i] + [] + cs[i + 1..] == Without(cs, id);
  }

  // ---- The invariant ----

  /** The stored hash is that of the stored metadata, as written or as read, and the stored cases. */
  predicate HashFits(s: Tables, k: Key)
    requires k in s.datasets
  {
    var row := s.datasets[k];
    row.hash == Hash(k, row.meta, ListCases(s, k)) || row.hash == CurrentHash(s, k)
  }

  ghost predicate Valid(s: Tables) {
    && DistinctIds(s.cases)
    && (forall c :: c in s.cases ==> c.dataset in s.datasets)
    && (forall k :: k in s.datasets ==> HashFits(s, k))
  }

  lemma TouchKeepsValid(s: Tables, t: Tables, k: Key)
    requires Valid(s) && OnlyTouches(s, t, k) && k in t.datasets
    requires DistinctIds(t.cases) && HashFits(t, k)
    ensures Valid(t)
  {
    forall c | c in t.cases ensures c.dataset in t.datasets {
      CasesOfMembers(t.cases, c.dataset, c);
      CasesOfMembers(s.cases, c.dataset, c);
      assert c.dataset != k ==> SameDataset(s, t, c.dataset);
    }
    forall k' | k' in t.datasets ensures HashFits(t, k') {
      if k' != k { assert SameDataset(s, t, k'); }
    }
  }

  lemma SetRowTouches(s: Tables, k: Key, row: Row)
    ensures OnlyTouches(s, SetRow(s, k, row), k)
  {
    var t := SetRow(s, k, row);
    forall k' | k' != k ensures SameDataset(s, t, k') {}
  }

  lemma RefreshTouches(s: Tables, k: Key)
    ensures OnlyTouches(s, Refresh(s, k).0, k)
    ensures var t := Refresh(s, k).0;
            k in s.datasets && Mutable(s.datasets[k].status) ==> k in t.datasets && t.datasets[k].hash == CurrentHash(t, k)
                                                                 && t.datasets[k].meta == s.datasets[k].meta
                                                                 && t.datasets[k].status == Draft && t.cases == s.cases
  {
    if k in s.datasets {
      SetRowTouches(s, k, Refresh(s, k).0.datasets[k]);
    }
  }

  lemma TouchTwice(s: Tables, m: Tables, t: Tables, k: Key)
    requires OnlyTouches(s, m, k) && OnlyTouches(m, t, k)
    ensures OnlyTouches(s, t, k)
  {
    forall k' | k' != k ensures SameDataset(s, t, k') {
      assert SameDataset(s, m, k') && SameDataset(m, t, k');
    }
  }

  lemma PutIsDistinct(cs: seq<Case>, c: Case)
    requires DistinctIds(cs)
    ensures DistinctIds(Put(cs, c))
  {
    assert IndexOf(cs, c.id) == |cs| ==> forall j :: 0 <= j < |cs| ==> cs[j].id != c.id;
  }

  lemma UpsertTouches(s: Tables, c: Case)
    requires Upsert(s, c).1.Ok?
    ensures OnlyTouches(s, Upsert(s, c).0, c.dataset)
  {
    var k := c.dataset;
    var m := s.(cases := Put(s.cases, c));
    forall k' | k' != k ensures SameDataset(s, m, k') { PutElsewhere(s.cases, c, k'); }
    RefreshTouches(m, k);
    TouchTwice(s, m, Refresh(m, k).0, k);
  }

  lemma UpsertOutcome(s: Tables, c: Case)
    requires DistinctIds(s.cases)
    ensures var (t, r) := Upsert(s, c);
            && (r.Ok? <==> c.dataset in s.datasets && Mutable(s.datasets[c.dataset].status) && !TakenElsewhere(s.cases, c))
            && (r.Err? ==> t == s)
            && (r.Ok? ==> && t.cases == Put(s.cases, c) && DistinctIds(t.cases)
                          && t.datasets[c.dataset].meta == s.datasets[c.dataset].meta
                          && t.datasets[c.dataset].status == Draft
                          && t.datasets[c.dataset].hash == CurrentHash(t, c.dataset))
  {
    if Upsert(s, c).1.Ok? {
      PutIsDistinct(s.cases, c);
      RefreshTouches(s.(cases := Put(s.cases, c)), c.dataset);
    }
  }

  lemma UpsertKeepsValid(s: Tables, c: Case)
    requires Valid(s)
    ensures Valid(Upsert(s, c).0)
  {
    UpsertOutcome(s, c);
    if Upsert(s, c).1.Ok? {
      UpsertTouches(s, c);
      TouchKeepsValid(s, Upsert(s, c).0, c.dataset);
    }
  }

  /** The dataset version of a stored case. */
  function HomeOf(s: Tables, id: string): Option<Key> {
    var i := IndexOf(s.cases, id);
    if i < |s.cases| then Some(s.cases[i].dataset) else None
  }

  lemma WithoutIsDistinct(cs: seq<Case>, id: string)
    requires DistinctIds(cs)
    ensures DistinctIds(Without(cs, id))
  {}

  lemma DeleteTouches(s: Tables, id: string)
    requires DistinctIds(s.cases) && Delete(s, id).1.Ok?
    ensures var t := Delete(s, id).0; var k := HomeOf(s, id);
            && k.Some? && k.value in s.datasets && Mutable(s.datasets[k.value].status)
            && OnlyTouches(s, t, k.value) && DistinctIds(t.cases)
            && k.value in t.datasets && t.datasets[k.value].hash == CurrentHash(t, k.value)
            && t.datasets[k.value].status == Draft
  {
    var k := HomeOf(s, id).value;
    var m := s.(cases := Without(s.cases, id));
    WithoutIsDistinct(s.cases, id);
    forall k' | k' != k ensures SameDataset(s, m, k') { WithoutElsewhere(s.cases, id, k'); }
    RefreshTouches(m, k);
    TouchTwice(s, m, Refresh(m, k).0, k);
  }

  // ---- What a clone copies ----

  function RenamedAll(cs: seq<Case>, target: Key): seq<Case> {
    seq(|cs|, i requires 0 <= i < |cs| => Renamed(cs[i], target))
  }

  lemma RenamedIsInjective(a: Case, b: Case, target: Key)
    requires Renamed(a, target).id == Renamed(b, target).id
    ensures a.id == b.id
  {
    var prefix := target.id + "_v" + Decimal(target.version) + "_";
    assert (prefix + a.id)[|prefix|..] == a.id && (prefix + b.id)[|prefix|..] == b.id;
  }

  lemma HasCaseMeaning(cs: seq<Case>, id: string)
    ensures HasCase(cs, id) <==> exists c :: c in cs && c.id == id
  {
    if c :| c in cs && c.id == id {
      var j :| 0 <= j < |cs| && cs[j] == c;
    }
    if HasCase(cs, id) { assert cs[IndexOf(cs, id)] in cs; }
  }

  lemma PutNewAppends(cs: seq<Case>, done: seq<Case>, c: Case, target: Key)
    requires forall d :: d in cs ==> d.dataset != target
    requires forall d :: d in done ==> d.id != c.id
    requires c.dataset == target
    ensures TakenElsewhere(cs + done, c) <==> HasCase(cs, c.id)
    ensures !HasCase(cs, c.id) ==> Put(cs + done, c) == cs + done + [c]
  {
    HasCaseMeaning(cs, c.id);
    HasCaseMeaning(cs + done, c.id);
    var i := IndexOf(cs + done, c.id);
    if d :| d in cs && d.id == c.id {
      var j :| 0 <= j < |cs| && cs[j] == d;
      assert (cs + done)[j] == d;
      assert (cs + done)[i] == cs[i] && cs[i] in cs;
    }
  }

  ghost predicate NoneTaken(s: Tables, cs: seq<Case>, target: Key) {
    forall c :: c in cs ==> !HasCase(s.cases, Renamed(c, target).id)
  }

  /** A draft without cases, ready to receive copies. */
  ghost predicate ReadyForCopies(s: Tables, target: Key) {
    && Valid(s) && target in s.datasets && Mutable(s.datasets[target].status)
    && forall c :: c in s.cases ==> c.dataset != target
  }

  ghost predicate CopiesMade(s: Tables, t: Tables, cs: seq<Case>, target: Key) {
    && Valid(t) && OnlyTouches(s, t, target) && t.cases == s.cases + RenamedAll(cs, target)
    && target in s.datasets && target in t.datasets && Mutable(t.datasets[target].status)
    && t.datasets[target].meta == s.datasets[target].meta
  }

  lemma RenamedAllStep(cs: seq<Case>, target: Key)
    requires cs != []
    ensures RenamedAll(cs, target) == RenamedAll(cs[..|cs| - 1], target) + [Renamed(cs[|cs| - 1], target)]
  {}

  lemma RenamedIsNew(cs: seq<Case>, target: Key)
    requires cs != [] && DistinctIds(cs)
    ensures forall d :: d in RenamedAll(cs[..|cs| - 1], target) ==> d.id != Renamed(cs[|cs| - 1], target).id
  {
    var last := |cs| - 1;
    forall d | d in RenamedAll(cs[..last], target) ensures d.id != Renamed(cs[last], target).id {
      var i :| 0 <= i < last && d == Renamed(cs[i], target);
      if d.id == Renamed(cs[last], target).id { RenamedIsInjective(cs[i], cs[last], target); }
    }
  }

  /** What one upsert that succeeds leaves behind. */
  ghost predicate Upserted(m: Tables, t: Tables, c: Case) {
    && Valid(t) && OnlyTouches(m, t, c.dataset) && t.cases == Put(m.cases, c)
    && c.dataset in m.datasets && c.dataset in t.datasets
    && t.datasets[c.dataset].meta == m.datasets[c.dataset].meta
    && t.datasets[c.dataset].status == Draft
  }

  lemma UpsertSummary(m: Tables, c: Case)
    requires Valid(m) && c.dataset in m.datasets && Mutable(m.datasets[c.dataset].status)
    ensures Upsert(m, c).1.Ok? <==> !TakenElsewhere(m.cases, c)
    ensures Upsert(m, c).1.Ok? ==> Upserted(m, Upsert(m, c).0, c)
  {
    UpsertOutcome(m, c);
    UpsertKeepsValid(m, c);
    if Upsert(m, c).1.Ok? { UpsertTouches(m, c); }
  }

  lemma AppendedCopy(s: Tables, m: Tables, t: Tables, cs: seq<Case>, target: Key)
    requires cs != [] && CopiesMade(s, m, cs[..|cs| - 1], target)
    requires Upserted(m, t, Renamed(cs[|cs| - 1], target))
    requires t.cases == m.cases + [Renamed(cs[|cs| - 1], target)]
    ensures CopiesMade(s, t, cs, target)
  {
    RenamedAllStep(cs, target);
    TouchTwice(s, m, t, target);
    ConcatAssociates(s.cases, RenamedAll(cs[..|cs| - 1], target), [Renamed(cs[|cs| - 1], target)]);
  }

  lemma OneMoreCopy(s: Tables, m: Tables, cs: seq<Case>, target: Key)
    requires ReadyForCopies(s, target) && cs != [] && DistinctIds(cs)
    requires CopiesMade(s, m, cs[..|cs| - 1], target)
    ensures var c := Renamed(cs[|cs| - 1], target);
            && (Upsert(m, c).1.Ok? <==> !HasCase(s.cases, c.id))
            && (Upsert(m, c).1.Ok? ==> CopiesMade(s, Upsert(m, c).0, cs, target))
  {
    var c := Renamed(cs[|cs| - 1], target);
    RenamedIsNew(cs, target);
    PutNewAppends(s.cases, RenamedAll(cs[..|cs| - 1], target), c, target);
    UpsertSummary(m, c);
    if Upsert(m, c).1.Ok? {
      AppendedCopy(s, m, Upsert(m, c).0, cs, target);
    }
  }

  lemma NoneTakenStep(s: Tables, cs: seq<Case>, target: Key)
    requires cs != []
    ensures NoneTaken(s, cs, target)
            <==> NoneTaken(s, cs[..|cs| - 1], target) && !HasCase(s.cases, Renamed(cs[|cs| - 1], target).id)
  {
    assert cs == cs[..|cs| - 1] + [cs[|cs| - 1]];
  }

  lemma NoCopies(s: Tables, cs: seq<Case>, target: Key)
    requires ReadyForCopies(s, target) && cs == []
    ensures CopiesMade(s, s, cs, target)
  {
    assert s.cases + RenamedAll(cs, target) == s.cases;
  }

  lemma {:induction false} CopyCasesOutcome(s: Tables, cs: seq<Case>, target: Key)
    requires ReadyForCopies(s, target) && DistinctIds(cs)
    ensures CopyCases(s, cs, target).Ok? <==> NoneTaken(s, cs, target)
    ensures CopyCases(s, cs, target).Ok? ==> CopiesMade(s, CopyCases(s, cs, target).value, cs, target)
    decreases |cs|
  {
    if cs == [] {
      NoCopies(s, cs, target);
    } else {
      CopyCasesOutcome(s, cs[..|cs| - 1], target);
      NoneTakenStep(s, cs, target);
      CopyCasesStep(s, cs, target);
      var before := CopyCases(s, cs[..|cs| - 1], target);
      if before.Ok? {
        OneMoreCopy(s, before.value, cs, target);
      }
    }
  }

  lemma CasesOfAreDistinct(cs: seq<Case>, k: Key)
    requires DistinctIds(cs)
    ensures DistinctIds(CasesOf(cs, k))
  {
    if cs != [] {
      CasesOfAreDistinct(cs[1..], k);
      forall c | c in CasesOf(cs[1..], k) ensures c.id != cs[0].id { CasesOfMembers(cs[1..], k, c); }
    }
  }

  lemma ListAreDistinct(s: Tables, k: Key)
    requires DistinctIds(s.cases)
    ensures DistinctIds(ListCases(s, k))
    ensures forall c :: c in ListCases(s, k) <==> c in s.cases && c.dataset == k
  {
    var listed, own := ListCases(s, k), CasesOf(s.cases, k);
    CasesOfAreDistinct(s.cases, k);
    SortKeepsDistinct(own);
    forall c ensures c in listed <==> c in s.cases && c.dataset == k {
      CasesOfMembers(s.cases, k, c);
    }
  }

  lemma InsertedMembers(e: Case, s: seq<Case>, c: Case)
    ensures c in Insert(CaseLe, e, s) <==> c == e || c in s
  {
    assert c in Insert(CaseLe, e, s) <==> c in multiset(Insert(CaseLe, e, s));
    assert c in s <==> c in multiset(s);
  }

  lemma PrependKeepsDistinct(e: Case, s: seq<Case>)
    requires DistinctIds(s) && forall c :: c in s ==> c.id != e.id
    ensures DistinctIds([e] + s)
  {}

  lemma {:induction false} InsertKeepsDistinct(e: Case, s: seq<Case>)
    requires DistinctIds(s) && forall c :: c in s ==> c.id != e.id
    ensures DistinctIds(Insert(CaseLe, e, s))
  {
    if s == [] || CaseLe(e, s[0]) {
      PrependKeepsDistinct(e, s);
      assert s == [] ==> [e] + s == [e];
    } else {
      InsertKeepsDistinct(e, s[1..]);
      var r := Insert(CaseLe, e, s[1..]);
      forall c | c in r ensures c.id != s[0].id { InsertedMembers(e, s[1..], c); }
      PrependKeepsDistinct(s[0], r);
    }
  }

  lemma {:induction false} SortKeepsDistinct(cs: seq<Case>)
    requires DistinctIds(cs)
    ensures DistinctIds(Sort(CaseLe, cs))
    ensures forall c :: c in Sort(CaseLe, cs) <==> c in cs
  {
    if cs != [] {
      SortKeepsDistinct(cs[1..]);
      assert cs == [cs[0]] + cs[1..];
      var rest := Sort(CaseLe, cs[1..]);
      InsertKeepsDistinct(cs[0], rest);
      forall c ensures c in Sort(CaseLe, cs) <==> c in cs { InsertedMembers(cs[0], rest, c); }
    }
  }

  lemma CreateDraftOutcome(s: Tables, k: Key, meta: Meta)
    requires Valid(s)
    ensures var (t, r) := CreateDraft(s, k, meta);
            && (r.Ok? <==> k !in s.datasets) && (r.Err? ==> t == s)
            && (r.Ok? ==> ReadyForCopies(t, k) && OnlyTouches(s, t, k) && t.cases == s.cases && t.datasets[k].meta == meta)
  {
    var t := CreateDraft(s, k, meta).0;
    if k !in s.datasets {
      SetRowTouches(s, k, t.datasets[k]);
      NoCases(s, k);
      TouchKeepsValid(s, t, k);
    }
  }

  lemma NoCases(s: Tables, k: Key)
    requires Valid(s) && k !in s.datasets
    ensures CasesOf(s.cases, k) == [] && ListCases(s, k) == []
  {
    var r := CasesOf(s.cases, k);
    if r != [] { CasesOfMembers(s.cases, k, r[0]); }
  }

  /** A clone is a new draft with the source's metadata and a renamed copy of every case. It fails
    exactly when the source is missing, the target exists, or a new case id is taken; then nothing
    at all has changed. */
  lemma CloneOutcome(s: Tables, source: Key, id: Option<string>, version: Option<nat>)
    requires Valid(s)
    ensures var (t, r) := Clone(s, source, id, version); var target := CloneTarget(s, source, id, version);
            && (r.Ok? <==> && source in s.datasets && target !in s.datasets
                           && NoneTaken(s, CasesOf(s.cases, source), target))
            && (r.Err? ==> t == s)
            && (r.Ok? ==> && Valid(t) && OnlyTouches(s, t, target) && target in t.datasets
                          && t.datasets[target].meta == ReadMeta(s.datasets[source].meta)
                          && t.datasets[target].status == Draft
                          && t.cases == s.cases + RenamedAll(ListCases(s, source), target))
  {
    var target := CloneTarget(s, source, id, version);
    if source in s.datasets && target !in s.datasets {
      var meta := ReadMeta(s.datasets[source].meta);
      CreateDraftOutcome(s, target, meta);
      var s1 := CreateDraft(s, target, meta).0;
      var listed := ListCases(s1, source);
      ListAreDistinct(s, source);
      CopyCasesOutcome(s1, listed, target);
      NoneTakenListed(s, source, target);
      assert NoneTaken(s1, listed, target) <==> NoneTaken(s, listed, target);
      var copied := CopyCases(s1, listed, target);
      if copied.Ok? {
        FinishClone(s, s1, copied.value, listed, target);
      }
    }
  }

  lemma NoneTakenListed(s: Tables, source: Key, target: Key)
    requires DistinctIds(s.cases)
    ensures NoneTaken(s, ListCases(s, source), target) <==> NoneTaken(s, CasesOf(s.cases, source), target)
  {
    ListAreDistinct(s, source);
    forall c ensures c in CasesOf(s.cases, source) <==> c in ListCases(s, source) { CasesOfMembers(s.cases, source, c); }
  }

  lemma FinishClone(s: Tables, s1: Tables, m: Tables, cs: seq<Case>, target: Key)
    requires OnlyTouches(s, s1, target) && CopiesMade(s1, m, cs, target)
    ensures var (t, r) := Refresh(m, target);
            && r.Ok? && r.value.Some? && Valid(t) && OnlyTouches(s, t, target) && target in t.datasets
            && t.datasets[target].meta == s1.datasets[target].meta && t.datasets[target].status == Draft
            && t.cases == m.cases
  {
    var t := Refresh(m, target).0;
    RefreshTouches(m, target);
    TouchTwice(s1, m, t, target);
    TouchTwice(s, s1, t, target);
    TouchKeepsValid(m, t, target);
  }

  // ---- Every call keeps the invariant ----

  lemma SetStatusOutcome(s: Tables, k: Key, status: Status)
    requires k in s.datasets
    ensures var t := SetStatus(s, k, status).0;
            && t.cases == s.cases && t.policies == s.policies && OnlyTouches(s, t, k)
            && k in t.datasets && t.datasets[k].status == status
            && t.datasets[k].meta == s.datasets[k].meta && t.datasets[k].hash == s.datasets[k].hash
            && (HashFits(s, k) ==> HashFits(t, k))
  {
    SetRowTouches(s, k, SetStatus(s, k, status).0.datasets[k]);
  }

  lemma ReleaseOutcome(s: Tables, k: Key, status: Status)
    requires Valid(s)
    ensures var (t, r) := Release(s, k, status);
            && (r.Ok? <==> k in s.datasets && Mutable(s.datasets[k].status) && HasEnabledCase(s, k))
            && (r.Err? ==> t == s)
            && (r.Ok? ==> && Valid(t) && OnlyTouches(s, t, k) && t.cases == s.cases && k in t.datasets
                          && t.datasets[k].status == status && t.datasets[k].hash == CurrentHash(t, k)
                          && t.datasets[k].meta == s.datasets[k].meta)
  {
    if Publishable(s, k).Ok? {
      var m := Refresh(s, k).0;
      RefreshTouches(s, k);
      SetStatusOutcome(m, k, status);
      TouchTwice(s, m, SetStatus(m, k, status).0, k);
      TouchKeepsValid(s, SetStatus(m, k, status).0, k);
    }
  }

  predicate IsPolicyCall(call: Call) {
    || call.CreatePolicyCall? || call.UpdatePolicyCall? || call.ReleasePolicyCall?
    || call.RetirePolicyCall? || call.RollbackPolicyCall?
  }

  lemma PolicyCallsLeaveDatasets(s: Tables, call: Call)
    requires IsPolicyCall(call)
    ensures Apply(s, call).0.datasets == s.datasets && Apply(s, call).0.cases == s.cases
  {}

  // ---- One call ----

  /** The dataset version a call may change, if it succeeds. */
  function Touched(s: Tables, call: Call): Option<Key> {
    match call
    case CreateDraftCall(k, _) => Some(k)
    case UpdateDraftCall(k, _, _) => Some(k)
    case CloneCall(k, id, v) => Some(CloneTarget(s, k, id, v))
    case ReleaseCall(k, _) => Some(k)
    case RetireCall(k, _) => Some(k)
    case RollbackCall(k) => Some(k)
    case UpsertCall(c) => Some(c.dataset)
    case DeleteCall(id) => HomeOf(s, id)
    case _ => None
  }

  ghost predicate SameContent(s: Tables, t: Tables, k: Key) {
    && k in s.datasets && k in t.datasets
    && t.datasets[k].meta == s.datasets[k].meta && t.datasets[k].hash == s.datasets[k].hash
    && CasesOf(t.cases, k) == CasesOf(s.cases, k)
  }

  predicate Released(s: Tables, k: Key) { k in s.datasets && !Mutable(s.datasets[k].status) }

  predicate IsPublishedDataset(s: Tables, k: Key) { k in s.datasets && s.datasets[k].status == Published }

  /** What a dataset call that succeeds does to the one version it touches: released content stays, and
    only a publish or a rollback publishes. */
  ghost predicate Step(s: Tables, t: Tables, call: Call, k: Key) {
    && Valid(t) && OnlyTouches(s, t, k) && k in t.datasets
    && (Released(s, k) ==> Released(t, k) && SameContent(s, t, k))
    && (IsPublishedDataset(t, k) ==>
          || (call == ReleaseCall(k, true) && HasEnabledCase(t, k))
          || (call == RollbackCall(k) && k in s.datasets && s.datasets[k].status in {Published, Deprecated}
              && SameContent(s, t, k)))
  }

  lemma CreateStep(s: Tables, k: Key, meta: Meta)
    requires Valid(s) && CreateDraft(s, k, meta).1.Ok?
    ensures Step(s, CreateDraft(s, k, meta).0, CreateDraftCall(k, meta), k)
  {
    CreateDraftOutcome(s, k, meta);
  }

  lemma UpdateOutcome(s: Tables, k: Key, u: MetaUpdate, expected: Option<nat>)
    requires UpdateDraft(s, k, u, expected).1.Ok?
    ensures var t := UpdateDraft(s, k, u, expected).0;
            && OnlyTouches(s, t, k) && t.cases == s.cases && k in s.datasets && Mutable(s.datasets[k].status)
            && k in t.datasets && t.datasets[k].status == Draft && HashFits(t, k)
  {
    var t := UpdateDraft(s, k, u, expected).0;
    var m := s.datasets[k].meta;
    SetRowTouches(s, k, t.datasets[k]);
    ReadOfUpdated(m, u);
    assert ListCases(t, k) == ListCases(s, k);
    assert u.description.Some? ==> Updated(ReadMeta(m), u) == Updated(m, u);
    assert u.description.None? ==> Updated(ReadMeta(m), u) == ReadMeta(Updated(m, u));
  }

  lemma UpdateStep(s: Tables, k: Key, u: MetaUpdate, expected: Option<nat>)
    requires Valid(s) && UpdateDraft(s, k, u, expected).1.Ok?
    ensures Step(s, UpdateDraft(s, k, u, expected).0, UpdateDraftCall(k, u, expected), k)
  {
    UpdateOutcome(s, k, u, expected);
    TouchKeepsValid(s, UpdateDraft(s, k, u, expected).0, k);
  }

  lemma CloneStep(s: Tables, k: Key, id: Option<string>, version: Option<nat>)
    requires Valid(s) && Clone(s, k, id, version).1.Ok?
    ensures Step(s, Clone(s, k, id, version).0, CloneCall(k, id, version), CloneTarget(s, k, id, version))
  {
    CloneOutcome(s, k, id, version);
  }

  lemma ReleaseStep(s: Tables, k: Key, publish: bool)
    requires Valid(s) && Release(s, k, if publish then Published else Validated).1.Ok?
    ensures Step(s, Release(s, k, if publish then Published else Validated).0, ReleaseCall(k, publish), k)
  {
    ReleaseOutcome(s, k, if publish then Published else Validated);
  }

  lemma SetStatusStep(s: Tables, k: Key, status: Status, call: Call)
    requires Valid(s) && k in s.datasets && status !in {Draft, Validated}
    requires status == Published ==> call == RollbackCall(k) && s.datasets[k].status in {Published, Deprecated}
    ensures Step(s, SetStatus(s, k, status).0, call, k)
  {
    SetStatusOutcome(s, k, status);
    TouchKeepsValid(s, SetStatus(s, k, status).0, k);
  }

  lemma UpsertStep(s: Tables, c: Case)
    requires Valid(s) && Upsert(s, c).1.Ok?
    ensures Step(s, Upsert(s, c).0, UpsertCall(c), c.dataset)
  {
    UpsertOutcome(s, c);
    UpsertTouches(s, c);
    UpsertKeepsValid(s, c);
  }

  lemma DeleteStep(s: Tables, id: string)
    requires Valid(s) && Delete(s, id).1.Ok?
    ensures HomeOf(s, id).Some? && Step(s, Delete(s, id).0, DeleteCall(id), HomeOf(s, id).value)
  {
    DeleteTouches(s, id);
    TouchKeepsValid(s, Delete(s, id).0, HomeOf(s, id).value);
  }

  lemma DatasetCallStep(s: Tables, call: Call)
    requires Valid(s) && !IsPolicyCall(call) && Apply(s, call).1.Ok?
    ensures Touched(s, call).Some? && Step(s, Apply(s, call).0, call, Touched(s, call).value)
  {
    match call {
      case CreateDraftCall(k, meta) => CreateStep(s, k, meta);
      case UpdateDraftCall(k, u, e) => UpdateStep(s, k, u, e);
      case CloneCall(k, id, v) => CloneStep(s, k, id, v);
      case ReleaseCall(k, publish) => ReleaseStep(s, k, publish);
      case RetireCall(k, disable) => SetStatusStep(s, k, if disable then Disabled else Deprecated, call);
      case RollbackCall(k) => SetStatusStep(s, k, Published, call);
      case UpsertCall(c) => UpsertStep(s, c);
      case DeleteCall(id) => DeleteStep(s, id);
    }
  }

  lemma FailureChangesNothing(s: Tables, call: Call)
    requires Valid(s) && !IsPolicyCall(call) && Apply(s, call).1.Err?
    ensures Apply(s, call).0 == s
  {
    match call {
      case CreateDraftCall(k, meta) =>
      case UpdateDraftCall(k, u, e) =>
      case CloneCall(k, id, v) => CloneOutcome(s, k, id, v);
      case ReleaseCall(k, publish) => ReleaseOutcome(s, k, if publish then Published else Validated);
      case RetireCall(k, disable) =>
      case RollbackCall(k) =>
      case UpsertCall(c) => UpsertOutcome(s, c);
      case DeleteCall(id) =>
    }
  }

  ghost predicate Unchanged(s: Tables, t: Tables) {
    t.datasets == s.datasets && t.cases == s.cases
  }

  /** A call leaves datasets and cases alone, or is a step on one version that leaves policies alone. */
  lemma CallIsAStep(s: Tables, call: Call)
    requires Valid(s)
    ensures var t := Apply(s, call).0;
            || Unchanged(s, t)
            || (!IsPolicyCall(call) && t.policies == s.policies && exists k :: Step(s, t, call, k))
    ensures !IsPolicyCall(call) ==> Apply(s, call).0.policies == s.policies
  {
    if IsPolicyCall(call) {
      PolicyCallsLeaveDatasets(s, call);
    } else if Apply(s, call).1.Err? {
      FailureChangesNothing(s, call);
    } else {
      DatasetCallStep(s, call);
      assert Step(s, Apply(s, call).0, call, Touched(s, call).value);
    }
  }

  lemma UnchangedKeepsValid(s: Tables, t: Tables)
    requires Valid(s) && Unchanged(s, t)
    ensures Valid(t)
  {
    forall k | k in t.datasets ensures HashFits(t, k) { assert HashFits(s, k); }
  }

  lemma CallKeepsValid(s: Tables, call: Call)
    requires Valid(s)
    ensures Valid(Apply(s, call).0)
  {
    CallIsAStep(s, call);
    if Unchanged(s, Apply(s, call).0) { UnchangedKeepsValid(s, Apply(s, call).0); }
  }

  lemma {:induction false} RunKeepsValid(s: Tables, calls: seq<Call>, t: Tables)
    requires Valid(s) && Runs(s, calls, t)
    ensures Valid(t)
    decreases |calls|
  {
    if calls != [] {
      CallKeepsValid(s, calls[0]);
      RunKeepsValid(Apply(s, calls[0]).0, calls[1..], t);
    }
  }

  /** In every reachable state the stored hash of a dataset version is the hash of what is stored,
    unless its stored description is the empty string. */
  lemma StoredHashIsCurrent(calls: seq<Call>, t: Tables, k: Key)
    requires Runs(EMPTY, calls, t) && k in t.datasets && t.datasets[k].meta.description != Some("")
    ensures t.datasets[k].hash == CurrentHash(t, k)
    ensures forall expected :: AssertContentHash(t, k, expected).Ok? <==> expected == t.datasets[k].hash
  {
    RunKeepsValid(EMPTY, calls, t);
    assert HashFits(t, k);
  }

  lemma EmptyDescriptionHashesApart(k: Key, m: Meta, cs: seq<Case>)
    ensures Hash(k, m, cs) == Hash(k, ReadMeta(m), cs) <==> m.description != Some("")
  {}

  predicate Stale(s: Tables, k: Key)
    requires k in s.datasets
  {
    s.datasets[k].hash != CurrentHash(s, k)
  }

  /** The hash goes stale exactly when a call writes an empty description, which reads back as none. */
  lemma CreateLeavesStaleExactlyWhen(s: Tables, k: Key, meta: Meta)
    requires Valid(s) && k !in s.datasets
    ensures Stale(CreateDraft(s, k, meta).0, k) <==> meta.description == Some("")
  {
    NoCases(s, k);
    EmptyDescriptionHashesApart(k, meta, []);
  }

  lemma ReadOfUpdated(m: Meta, u: MetaUpdate)
    ensures ReadMeta(Updated(ReadMeta(m), u)) == ReadMeta(Updated(m, u))
    ensures Updated(ReadMeta(m), u).description == Some("") <==> u.description == Some(Some(""))
  {}

  lemma UpdateLeavesStaleExactlyWhen(s: Tables, k: Key, u: MetaUpdate, expected: Option<nat>)
    requires UpdateDraft(s, k, u, expected).1.Ok?
    ensures Stale(UpdateDraft(s, k, u, expected).0, k) <==> u.description == Some(Some(""))
  {
    var m := s.datasets[k].meta;
    var t := UpdateDraft(s, k, u, expected).0;
    ReadOfUpdated(m, u);
    EmptyDescriptionHashesApart(k, Updated(ReadMeta(m), u), ListCases(s, k));
    assert ListCases(t, k) == ListCases(s, k);
    assert t.datasets[k].hash == Hash(k, Updated(ReadMeta(m), u), ListCases(s, k));
    assert CurrentHash(t, k) == Hash(k, ReadMeta(Updated(m, u)), ListCases(s, k));
  }

  /** A version whose hash is stale passes no hash assertion, so no gate policy can require it. */
  lemma StalePassesNoAssertion(s: Tables, k: Key, expected: Digest)
    requires k in s.datasets && Stale(s, k)
    ensures AssertContentHash(s, k, expected).Err? && CheckRequirement(s, Requirement(k, expected)).Err?
  {}

  /** The call stores a hash for this version, and the description it is taken over is empty. */
  predicate WritesEmpty(call: Call) {
    || (call.CreateDraftCall? && call.meta.description == Some(""))
    || (call.UpdateDraftCall? && call.update.description == Some(Some("")))
  }

  /** The call stores a hash for this version. */
  predicate Hashes(s: Tables, call: Call, k: Key) {
    && Apply(s, call).1.Ok? && Touched(s, call) == Some(k)
    && !call.RetireCall? && !call.RollbackCall?
  }

  lemma OtherTouchKeepsStale(s: Tables, t: Tables, k: Key, other: Key)
    requires OnlyTouches(s, t, k) && other != k
    ensures other in s.datasets <==> other in t.datasets
    ensures other in s.datasets ==> (Stale(t, other) <==> Stale(s, other))
  {
    assert SameDataset(s, t, other);
  }

  lemma HashedWithoutEmpty(t: Tables, k: Key)
    requires Valid(t) && k in t.datasets && t.datasets[k].meta.description != Some("")
    ensures !Stale(t, k)
  {
    assert HashFits(t, k);
  }

  /** The stored hash is the current one: the version was hashed as it reads back. */
  ghost predicate HashedAsRead(t: Tables, k: Key) { k in t.datasets && !Stale(t, k) }

  lemma CloneHashes(s: Tables, source: Key, id: Option<string>, v: Option<nat>)
    requires Valid(s) && Clone(s, source, id, v).1.Ok?
    ensures HashedAsRead(Clone(s, source, id, v).0, CloneTarget(s, source, id, v))
  {
    CloneOutcome(s, source, id, v);
    HashedWithoutEmpty(Clone(s, source, id, v).0, CloneTarget(s, source, id, v));
  }

  lemma ReleaseHashes(s: Tables, k: Key, status: Status)
    requires Valid(s) && Release(s, k, status).1.Ok?
    ensures HashedAsRead(Release(s, k, status).0, k)
  {
    ReleaseOutcome(s, k, status);
  }

  lemma UpsertHashes(s: Tables, c: Case)
    requires Valid(s) && Upsert(s, c).1.Ok?
    ensures HashedAsRead(Upsert(s, c).0, c.dataset)
  {
    UpsertOutcome(s, c);
    UpsertTouches(s, c);
  }

  lemma DeleteHashes(s: Tables, id: string)
    requires Valid(s) && Delete(s, id).1.Ok?
    ensures HomeOf(s, id).Some? && HashedAsRead(Delete(s, id).0, HomeOf(s, id).value)
  {
    DeleteTouches(s, id);
  }

  lemma HashingCall(s: Tables, call: Call, k: Key)
    requires Valid(s) && Hashes(s, call, k)
    ensures k in Apply(s, call).0.datasets && (Stale(Apply(s, call).0, k) <==> WritesEmpty(call))
  {
    match call {
      case CreateDraftCall(_, meta) => CreateLeavesStaleExactlyWhen(s, k, meta);
      case UpdateDraftCall(_, u, e) => UpdateLeavesStaleExactlyWhen(s, k, u, e);
      case CloneCall(source, id, v) => CloneHashes(s, source, id, v);
      case ReleaseCall(_, publish) => ReleaseHashes(s, k, if publish then Published else Validated);
      case UpsertCall(c) => UpsertHashes(s, c);
      case DeleteCall(id) => DeleteHashes(s, id);
    }
  }

  lemma OtherCall(s: Tables, call: Call, k: Key)
    requires Valid(s) && !Hashes(s, call, k)
    ensures k in s.datasets <==> k in Apply(s, call).0.datasets
    ensures k in s.datasets ==> (Stale(Apply(s, call).0, k) <==> Stale(s, k))
  {
    if IsPolicyCall(call) {
      PolicyCallsLeaveDatasets(s, call);
    } else if Apply(s, call).1.Err? {
      FailureChangesNothing(s, call);
    } else {
      DatasetCallStep(s, call);
      var touched := Touched(s, call).value;
      if touched != k {
        OtherTouchKeepsStale(s, Apply(s, call).0, touched, k);
      } else {
        assert call.RetireCall? || call.RollbackCall?;
        StatusKeepsStale(s, call, k);
      }
    }
  }

  lemma StatusKeepsStale(s: Tables, call: Call, k: Key)
    requires (call.RetireCall? || call.RollbackCall?) && call.key == k && Apply(s, call).1.Ok?
    ensures k in s.datasets && k in Apply(s, call).0.datasets && (Stale(Apply(s, call).0, k) <==> Stale(s, k))
  {
    var status := if call.RollbackCall? then Published else if call.disable then Disabled else Deprecated;
    assert Apply(s, call).0 == SetStatus(s, k, status).0;
    SetStatusOutcome(s, k, status);
  }

  /** Whether the last of the calls that stored a hash for this version wrote an empty description. */
  predicate LastHashEmpty(s: Tables, calls: seq<Call>, k: Key, before: bool)
    decreases |calls|
  {
    if calls == [] then before
    else LastHashEmpty(Apply(s, calls[0]).0, calls[1..], k, if Hashes(s, calls[0], k) then WritesEmpty(calls[0]) else before)
  }

  lemma {:induction false} RunLeavesStale(s: Tables, calls: seq<Call>, t: Tables, k: Key, before: bool)
    requires Valid(s) && Runs(s, calls, t) && (k in s.datasets ==> (before <==> Stale(s, k)))
    ensures k in t.datasets ==> (Stale(t, k) <==> LastHashEmpty(s, calls, k, before))
    decreases |calls|
  {
    if calls != [] {
      var call := calls[0];
      var u := Apply(s, call).0;
      CallKeepsValid(s, call);
      if Hashes(s, call, k) { HashingCall(s, call, k); } else { OtherCall(s, call, k); }
      RunLeavesStale(u, calls[1..], t, k, if Hashes(s, call, k) then WritesEmpty(call) else before);
    }
  }

  /** In every reachable state a version's stored hash is stale exactly when the last call that stored one
    wrote an empty description. */
  lemma StaleExactlyWhen(calls: seq<Call>, t: Tables, k: Key)
    requires Runs(EMPTY, calls, t) && k in t.datasets
    ensures Stale(t, k) <==> LastHashEmpty(EMPTY, calls, k, false)
  {
    RunLeavesStale(EMPTY, calls, t, k, false);
  }

  /** Under the trigger no case is ever deleted: the call refuses and changes nothing, so it does what the
    repository's own steps do exactly when those refuse. */
  lemma DeleteUnderTriggerRefuses(s: Tables, id: string)
    ensures DeleteUnderTrigger(s, id).0 == s && DeleteUnderTrigger(s, id).1.Err?
    ensures DeleteUnderTrigger(s, id) == Delete(s, id) <==> Delete(s, id).1.Err?
  {}

  // ---- Released versions are frozen ----

  lemma StepKeepsReleased(s: Tables, t: Tables, call: Call, k: Key)
    requires Released(s, k)
    requires Unchanged(s, t) || exists k' :: Step(s, t, call, k')
    ensures SameContent(s, t, k) && Released(t, k)
  {
    if !Unchanged(s, t) {
      var k' :| Step(s, t, call, k');
      assert k != k' ==> SameDataset(s, t, k);
    }
  }

  /** Once a version has left draft and validated, its metadata, cases and hash never change, and it
    never returns to either. */
  lemma {:induction false} ReleasedContentIsFrozen(s: Tables, calls: seq<Call>, t: Tables, k: Key)
    requires Valid(s) && Runs(s, calls, t) && Released(s, k)
    ensures SameContent(s, t, k) && Released(t, k)
    decreases |calls|
  {
    if calls != [] {
      CallKeepsValid(s, calls[0]);
      CallIsAStep(s, calls[0]);
      StepKeepsReleased(s, Apply(s, calls[0]).0, calls[0], k);
      ReleasedContentIsFrozen(Apply(s, calls[0]).0, calls[1..], t, k);
    }
  }

  // ---- Gate policies ----

  predicate PolicyReleased(s: Tables, p: Key) { p in s.policies && !Mutable(s.policies[p].status) }

  predicate SamePolicy(s: Tables, t: Tables, p: Key) {
    p in s.policies && p in t.policies && t.policies[p].content == s.policies[p].content
  }

  lemma PolicyCallKeepsReleased(s: Tables, call: Call, p: Key)
    requires IsPolicyCall(call) && PolicyReleased(s, p)
    ensures SamePolicy(s, Apply(s, call).0, p) && PolicyReleased(Apply(s, call).0, p)
  {
    match call {
      case CreatePolicyCall(k, c, now) =>
      case UpdatePolicyCall(k, c, now) =>
      case ReleasePolicyCall(k, publish, now) =>
      case RetirePolicyCall(k, disable, now) =>
      case RollbackPolicyCall(k, now) =>
    }
  }

  lemma CallKeepsReleasedPolicy(s: Tables, call: Call, p: Key)
    requires Valid(s) && PolicyReleased(s, p)
    ensures SamePolicy(s, Apply(s, call).0, p) && PolicyReleased(Apply(s, call).0, p)
  {
    if IsPolicyCall(call) {
      PolicyCallKeepsReleased(s, call, p);
    } else {
      CallIsAStep(s, call);
    }
  }

  lemma {:induction false} ReleasedPolicyIsFrozen(s: Tables, calls: seq<Call>, t: Tables, p: Key)
    requires Valid(s) && Runs(s, calls, t) && PolicyReleased(s, p)
    ensures SamePolicy(s, t, p) && PolicyReleased(t, p)
    decreases |calls|
  {
    if calls != [] {
      CallKeepsValid(s, calls[0]);
      CallKeepsReleasedPolicy(s, calls[0], p);
      ReleasedPolicyIsFrozen(Apply(s, calls[0]).0, calls[1..], t, p);
    }
  }

  /** The stored hash of every gate policy is that of its content. */
  ghost predicate PolicyHashesFit(s: Tables) {
    forall p :: p in s.policies ==> s.policies[p].hash == PolicyDigest(p, s.policies[p].content)
  }

  lemma PolicyCallKeepsHashes(s: Tables, call: Call)
    requires IsPolicyCall(call) && PolicyHashesFit(s)
    ensures PolicyHashesFit(Apply(s, call).0)
  {
    match call {
      case CreatePolicyCall(k, c, now) =>
      case UpdatePolicyCall(k, c, now) =>
      case ReleasePolicyCall(k, publish, now) =>
      case RetirePolicyCall(k, disable, now) =>
      case RollbackPolicyCall(k, now) =>
    }
  }

  lemma CallKeepsPolicyHashes(s: Tables, call: Call)
    requires Valid(s) && PolicyHashesFit(s)
    ensures PolicyHashesFit(Apply(s, call).0)
  {
    if IsPolicyCall(call) { PolicyCallKeepsHashes(s, call); } else { CallIsAStep(s, call); }
  }

  lemma {:induction false} CheckedRequirements(s: Tables, qs: seq<Requirement>)
    ensures CheckRequirements(s, qs).Ok?
            <==> forall q :: q in qs ==> q.key in s.datasets && s.datasets[q.key].status == Published
                                         && AssertContentHash(s, q.key, q.hash).Ok?
  {
    if qs != [] {
      CheckedRequirements(s, qs[1..]);
      assert qs == [qs[0]] + qs[1..];
    }
  }

  lemma SameContentSameAssertion(s: Tables, t: Tables, k: Key, expected: Digest)
    requires SameContent(s, t, k)
    ensures AssertContentHash(t, k, expected).Ok? <==> AssertContentHash(s, k, expected).Ok?
  {}

  lemma PublishedPolicyWasChecked(s: Tables, p: Key, now: nat, q: Requirement)
    requires Apply(s, ReleasePolicyCall(p, true, now)).1.Ok?
    ensures p in s.policies
    ensures q in s.policies[p].content.requirements
            ==> (&& q.key in s.datasets && s.datasets[q.key].status == Published
                 && AssertContentHash(s, q.key, q.hash).Ok?)
    ensures var t := Apply(s, ReleasePolicyCall(p, true, now)).0;
            && t.datasets == s.datasets && t.cases == s.cases
            && p in t.policies && t.policies[p].status == Published && t.policies[p].content == s.policies[p].content
  {
    CheckedRequirements(s, s.policies[p].content.requirements);
  }

  /** After a gate policy's publish has succeeded, its requirements are fixed and every dataset they
    name passes its hash assertion in every later state, whatever happens to its status. */
  lemma PublishedRequirementsHoldForEver(s: Tables, p: Key, now: nat, calls: seq<Call>, t: Tables, q: Requirement)
    requires Valid(s) && Apply(s, ReleasePolicyCall(p, true, now)).1.Ok?
    requires Runs(Apply(s, ReleasePolicyCall(p, true, now)).0, calls, t)
    ensures p in s.policies && p in t.policies && t.policies[p].content == s.policies[p].content
    ensures q in s.policies[p].content.requirements ==> AssertContentHash(t, q.key, q.hash).Ok?
  {
    PublishedPolicyWasChecked(s, p, now, q);
    var s1 := Apply(s, ReleasePolicyCall(p, true, now)).0;
    CallKeepsValid(s, ReleasePolicyCall(p, true, now));
    ReleasedPolicyIsFrozen(s1, calls, t, p);
    if q in s.policies[p].content.requirements {
      ReleasedContentIsFrozen(s1, calls, t, q.key);
      SameContentSameAssertion(s, t, q.key, q.hash);
    }
  }

  // ---- What a rollback lets through ----

  /** Deprecating a version and rolling back to it publishes it as it stands, whatever its status was:
    a draft is then published without validation, and a disabled version is published again. */
  lemma DeprecateThenRollbackPublishes(s: Tables, k: Key)
    requires k in s.datasets
    ensures var t := Apply(Apply(s, RetireCall(k, false)).0, RollbackCall(k)).0;
            t == SetRow(s, k, s.datasets[k].(status := Published, revision := s.datasets[k].revision + 2))
  {}

  ghost predicate PublishedEmpty(s: Tables, k: Key) {
    IsPublishedDataset(s, k) && !HasEnabledCase(s, k)
  }

  lemma StepPublishesEmpty(s: Tables, t: Tables, call: Call, k: Key)
    requires Unchanged(s, t) || exists k' :: Step(s, t, call, k')
    requires !PublishedEmpty(s, k) && PublishedEmpty(t, k)
    ensures call == RollbackCall(k) && k in s.datasets && s.datasets[k].status == Deprecated && !HasEnabledCase(s, k)
  {
    if !Unchanged(s, t) {
      var k' :| Step(s, t, call, k');
      assert k != k' ==> SameDataset(s, t, k);
    }
  }

  lemma RollbackPublishesEmpty(s: Tables, k: Key)
    requires k in s.datasets && s.datasets[k].status == Deprecated && !HasEnabledCase(s, k)
    ensures PublishedEmpty(RollbackTo(s, k).0, k)
  {
    SetStatusOutcome(s, k, Published);
  }

  lemma NewlyPublishedEmpty(s: Tables, call: Call, k: Key)
    requires Valid(s) && !PublishedEmpty(s, k) && PublishedEmpty(Apply(s, call).0, k)
    ensures call == RollbackCall(k) && k in s.datasets && s.datasets[k].status == Deprecated && !HasEnabledCase(s, k)
  {
    CallIsAStep(s, call);
    StepPublishesEmpty(s, Apply(s, call).0, call, k);
  }

  /** Publishing asks for an enabled case. A version becomes published without one exactly by a
    rollback to a deprecated version that has none. */
  lemma PublishedEmptyExactlyByRollback(s: Tables, call: Call, k: Key)
    requires Valid(s) && !PublishedEmpty(s, k)
    ensures PublishedEmpty(Apply(s, call).0, k)
            <==> && call == RollbackCall(k) && k in s.datasets
                 && s.datasets[k].status == Deprecated && !HasEnabledCase(s, k)
  {
    if PublishedEmpty(Apply(s, call).0, k) {
      NewlyPublishedEmpty(s, call, k);
    } else if call == RollbackCall(k) && k in s.datasets && s.datasets[k].status == Deprecated {
      if !HasEnabledCase(s, k) { RollbackPublishesEmpty(s, k); }
    }
  }

  ghost predicate AllAssert(s: Tables, qs: seq<Requirement>) {
    forall q :: q in qs ==> AssertContentHash(s, q.key, q.hash).Ok?
  }

  lemma SameTablesSameAssertions(s: Tables, t: Tables, qs: seq<Requirement>)
    requires t.datasets == s.datasets && t.cases == s.cases
    ensures AllAssert(t, qs) <==> AllAssert(s, qs)
  {
    forall q | q in qs ensures AssertContentHash(t, q.key, q.hash).Ok? <==> AssertContentHash(s, q.key, q.hash).Ok? {
      if q.key in s.datasets { SameContentSameAssertion(s, t, q.key, q.hash); }
    }
  }

  predicate IsPublished(s: Tables, p: Key) { p in s.policies && s.policies[p].status == Published }

  ghost predicate PublishedUnchecked(s: Tables, p: Key) {
    IsPublished(s, p) && !AllAssert(s, s.policies[p].content.requirements)
  }

  lemma PolicyBecomesPublished(s: Tables, call: Call, p: Key)
    requires IsPolicyCall(call) && !IsPublished(s, p) && IsPublished(Apply(s, call).0, p)
    ensures call.policyKey == p
    ensures || (call.ReleasePolicyCall? && call.publish)
            || (call.RollbackPolicyCall? && p in s.policies && s.policies[p].status == Deprecated)
  {
    match call {
      case CreatePolicyCall(k, c, now) =>
      case UpdatePolicyCall(k, c, now) =>
      case ReleasePolicyCall(k, publish, now) =>
      case RetirePolicyCall(k, disable, now) =>
      case RollbackPolicyCall(k, now) =>
    }
  }

  /** A gate policy becomes published with a requirement that fails exactly by a rollback to a
    deprecated version. */
  lemma UncheckedPolicyExactlyByRollback(s: Tables, call: Call, p: Key)
    requires Valid(s) && !IsPublished(s, p)
    ensures PublishedUnchecked(Apply(s, call).0, p)
            <==> && call.RollbackPolicyCall? && call.policyKey == p && p in s.policies
                 && s.policies[p].status == Deprecated && !AllAssert(s, s.policies[p].content.requirements)
  {
    var t := Apply(s, call).0;
    if !IsPolicyCall(call) {
      CallIsAStep(s, call);
    } else if IsPublished(t, p) {
      PolicyBecomesPublished(s, call, p);
      PolicyCallsLeaveDatasets(s, call);
      SameTablesSameAssertions(s, t, s.policies[p].content.requirements);
      if call.ReleasePolicyCall? { CheckedRequirements(s, s.policies[p].content.requirements); }
    } else if call.RollbackPolicyCall? && call.policyKey == p {
      assert p !in s.policies || s.policies[p].status != Deprecated;
    }
  }

  /** A policy that requires a dataset version that does not exist: created, deprecated as a draft and
    rolled back to, it is published. */
  lemma UncheckedPolicyIsReached(p: Key, q: Requirement, content: PolicyContent)
    requires q in content.requirements
    ensures var calls := [CreatePolicyCall(p, content, 0), RetirePolicyCall(p, false, 1), RollbackPolicyCall(p, 2)];
            exists t :: Runs(EMPTY, calls, t) && PublishedUnchecked(t, p)
  {
    var create, retire, rollback := CreatePolicyCall(p, content, 0), RetirePolicyCall(p, false, 1), RollbackPolicyCall(p, 2);
    var a := Apply(EMPTY, create).0;
    var b := Apply(a, retire).0;
    var t := Apply(b, rollback).0;
    var calls := [create, retire, rollback];
    assert calls[1..] == [retire, rollback] && [retire, rollback][1..] == [rollback] && [rollback][1..] == [];
    assert Runs(t, [], t);
    assert Runs(b, [rollback], t);
    assert Runs(a, [retire, rollback], t);
    assert Runs(EMPTY, calls, t);
    assert t.datasets == map[] && IsPublished(t, p) && t.policies[p].content == content;
    assert AssertContentHash(t, q.key, q.hash).Err?;
  }
}
