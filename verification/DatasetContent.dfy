/** The content of an evaluation dataset version and its hash.

  A hash stands for the canonical content it is taken over: SHA-256 is not modelled further. Case
  lists are sorted by case id, tag and reference lists by their own text.
 */
module DatasetContent {
  import opened Results
  import opened Sorting

  datatype Key = Key(id: string, version: nat)

  datatype Meta = Meta(name: string, description: Option<string>, domain: Option<string>, tags: seq<string>, weight: Weight)

  datatype ArgumentMode = Exact | Subset | SchemaOnly | Ignore

  /** The values of `arguments` are the canonical texts of the JSON values. */
  datatype ExpectedCall = ExpectedCall(
    tool: string, minCalls: nat, maxCalls: nat, mode: ArgumentMode, arguments: map<string, string>)

  /** The part of a case it is scored by, hashed as it stands; `assertions` holds the final and policy
    assertions and the budgets that are never scored. */
  datatype Checks = Checks(
    expectedStatus: Option<string>, expectedCalls: seq<ExpectedCall>, assertions: string,
    latencyBudget: Option<nat>, tokenBudget: Option<nat>, costBudget: Option<real>, minimumScore: Option<real>)

  type Weight = w: real | w > 0.0 witness 1.0

  /** A case description as it is read: an empty one reads as none. */
  type CaseText = d: Option<string> | d != Some("") witness None

  datatype Case = Case(
    id: string, dataset: Key, name: string, description: CaseText, input: string, contextRefs: seq<string>, checks: Checks,
    forbiddenTools: seq<string>, tags: seq<string>, weight: Weight, enabled: bool)

  /** What is hashed. */
  datatype Digest = Digest(key: Key, meta: Meta, cases: seq<Case>)

  function CanonicalMeta(m: Meta): Meta {
    m.(tags := Sort(StringLe, m.tags))
  }

  function CanonicalCase(c: Case): Case {
    c.(contextRefs := Sort(StringLe, c.contextRefs),
       forbiddenTools := Sort(StringLe, c.forbiddenTools),
       tags := Sort(StringLe, c.tags))
  }

  function CanonicalCases(cs: seq<Case>): seq<Case> {
    seq(|cs|, i requires 0 <= i < |cs| => CanonicalCase(cs[i]))
  }

  predicate CaseLe(a: Case, b: Case) { StringLe(a.id, b.id) }

  function Hash(key: Key, meta: Meta, cases: seq<Case>): Digest {
    Digest(key, CanonicalMeta(meta), Sort(CaseLe, CanonicalCases(cases)))
  }

  // ---- What the hash says ----

  predicate DistinctIds(cs: seq<Case>) {
    forall i, j :: 0 <= i < j < |cs| ==> cs[i].id != cs[j].id
  }

  ghost predicate SameMeta(a: Meta, b: Meta) {
    a.(tags := []) == b.(tags := []) && multiset(a.tags) == multiset(b.tags)
  }

  ghost predicate SameCase(a: Case, b: Case) {
    && a.(contextRefs := [], forbiddenTools := [], tags := []) == b.(contextRefs := [], forbiddenTools := [], tags := [])
    && multiset(a.contextRefs) == multiset(b.contextRefs)
    && multiset(a.forbiddenTools) == multiset(b.forbiddenTools)
    && multiset(a.tags) == multiset(b.tags)
  }

  ghost predicate Represented(c: Case, cs: seq<Case>) {
    exists d :: d in cs && SameCase(c, d)
  }

  /** Each case of one list is a case of the other, whatever the order. */
  ghost predicate SameCases(a: seq<Case>, b: seq<Case>) {
    && (forall c :: c in a ==> Represented(c, b))
    && (forall c :: c in b ==> Represented(c, a))
  }

  lemma StringSortForgetsOrder(s: seq<string>, t: seq<string>)
    ensures Sort(StringLe, s) == Sort(StringLe, t) <==> multiset(s) == multiset(t)
  {
    StringLeIsTotalOrder();
    SortForgetsOrder(StringLe, s, t);
  }

  lemma CanonicalMetaMeaning(a: Meta, b: Meta)
    ensures CanonicalMeta(a) == CanonicalMeta(b) <==> SameMeta(a, b)
  {
    StringSortForgetsOrder(a.tags, b.tags);
  }

  lemma CanonicalCaseMeaning(a: Case, b: Case)
    ensures CanonicalCase(a) == CanonicalCase(b) <==> SameCase(a, b)
  {
    StringSortForgetsOrder(a.contextRefs, b.contextRefs);
    StringSortForgetsOrder(a.forbiddenTools, b.forbiddenTools);
    StringSortForgetsOrder(a.tags, b.tags);
  }

  lemma CaseLeIsTotalPreorder()
    ensures TotalPreorder(CaseLe)
  {
    forall a, b ensures CaseLe(a, b) || CaseLe(b, a) { StringLeTotal(a.id, b.id); }
    forall a, b, c | CaseLe(a, b) && CaseLe(b, c) ensures CaseLe(a, c) { StringLeTransitive(a.id, b.id, c.id); }
  }

  lemma DistinctCasesDoNotTie(cs: seq<Case>)
    requires DistinctIds(cs)
    ensures AntisymmetricOn(CaseLe, cs)
  {
    forall a, b | a in cs && b in cs && CaseLe(a, b) && CaseLe(b, a) ensures a == b {
      StringLeTotal(a.id, b.id);
    }
  }

  lemma {:induction false} DistinctMultiplicity(cs: seq<Case>, c: Case)
    requires DistinctIds(cs)
    ensures multiset(cs)[c] == if c in cs then 1 else 0
  {
    if cs != [] {
      DistinctMultiplicity(cs[1..], c);
      assert cs == [cs[0]] + cs[1..];
      assert c in cs[1..] ==> cs[0] != c;
    }
  }

  lemma SameMembersSameMultiset(a: seq<Case>, b: seq<Case>)
    requires DistinctIds(a) && DistinctIds(b) && forall c :: c in a <==> c in b
    ensures multiset(a) == multiset(b)
  {
    forall c ensures multiset(a)[c] == multiset(b)[c] {
      DistinctMultiplicity(a, c);
      DistinctMultiplicity(b, c);
    }
  }

  lemma InCanonicalCases(cs: seq<Case>, c: Case)
    ensures c in CanonicalCases(cs) <==> exists d :: d in cs && CanonicalCase(d) == c
  {
    var r := CanonicalCases(cs);
    if d :| d in cs && CanonicalCase(d) == c {
      var i :| 0 <= i < |cs| && cs[i] == d;
      assert r[i] == c;
    }
    if c in r {
      var i :| 0 <= i < |r| && r[i] == c;
      assert cs[i] in cs && CanonicalCase(cs[i]) == c;
    }
  }

  lemma RepresentedMeaning(c: Case, cs: seq<Case>)
    ensures CanonicalCase(c) in CanonicalCases(cs) <==> Represented(c, cs)
  {
    InCanonicalCases(cs, CanonicalCase(c));
    forall d ensures CanonicalCase(d) == CanonicalCase(c) <==> SameCase(c, d) { CanonicalCaseMeaning(c, d); }
  }

  lemma CanonicalSubset(a: seq<Case>, b: seq<Case>)
    ensures (forall c :: c in CanonicalCases(a) ==> c in CanonicalCases(b)) <==> (forall c :: c in a ==> Represented(c, b))
  {
    forall c ensures c in a ==> (CanonicalCase(c) in CanonicalCases(b) <==> Represented(c, b)) { RepresentedMeaning(c, b); }
    forall c ensures c in CanonicalCases(a) <==> exists d :: d in a && CanonicalCase(d) == c { InCanonicalCases(a, c); }
    if forall c :: c in CanonicalCases(a) ==> c in CanonicalCases(b) {
      forall c | c in a ensures Represented(c, b) { assert CanonicalCase(c) in CanonicalCases(a); }
    }
  }

  /** The hashes of two dataset versions are equal exactly when the versions have the same key, the
    same metadata and the same cases, whatever the order of the cases, tags, context references and
    forbidden tools. */
  lemma HashSaysContent(k1: Key, m1: Meta, c1: seq<Case>, k2: Key, m2: Meta, c2: seq<Case>)
    requires DistinctIds(c1) && DistinctIds(c2)
    ensures Hash(k1, m1, c1) == Hash(k2, m2, c2) <==> k1 == k2 && SameMeta(m1, m2) && SameCases(c1, c2)
  {
    CanonicalMetaMeaning(m1, m2);
    CasesHashMeaning(c1, c2);
  }

  lemma CasesHashMeaning(a: seq<Case>, b: seq<Case>)
    requires DistinctIds(a) && DistinctIds(b)
    ensures Sort(CaseLe, CanonicalCases(a)) == Sort(CaseLe, CanonicalCases(b)) <==> SameCases(a, b)
  {
    var x, y := CanonicalCases(a), CanonicalCases(b);
    assert DistinctIds(x) && DistinctIds(y);
    CaseLeIsTotalPreorder();
    DistinctCasesDoNotTie(x);
    SortForgetsOrder(CaseLe, x, y);
    CanonicalSubset(a, b);
    CanonicalSubset(b, a);
    if SameCases(a, b) {
      SameMembersSameMultiset(x, y);
    } else if multiset(x) == multiset(y) {
      SameMembers(x, y);
      assert false;
    }
  }
}
