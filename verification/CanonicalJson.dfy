/** Canonical JSON: `sortJson`, the value every content hash is computed over.

  Objects are sequences of (key, value) entries, so that insertion order is visible.
  `Meaning` is the reference: it reads an object as a finite map and forgets the order.
  The key comparison is a parameter, `le(a, b)` standing for `a.localeCompare(b) <= 0`.
  All that is known of it is that it is a total preorder; a collation may treat two
  different strings as equal, and what that costs is proved below.
 */
module CanonicalJson {
  import opened Lists
  import opened Sorting

  datatype Json =
    | Null
    | Bool(b: bool)
    | Num(n: real)
    | Str(s: string)
    | Arr(items: seq<Json>)
    | Obj(fields: seq<(string, Json)>)

  /** A JSON value with the order of object keys forgotten. */
  datatype Value =
    | VNull
    | VBool(b: bool)
    | VNum(n: real)
    | VStr(s: string)
    | VArr(items: seq<Value>)
    | VObj(fields: map<string, Value>)

  predicate DistinctKeys(fields: seq<(string, Json)>) {
    forall i, j :: 0 <= i < j < |fields| ==> fields[i].0 != fields[j].0
  }

  /** What a JavaScript object guarantees: no key twice, at any depth. */
  ghost predicate WellFormed(v: Json) {
    match v
    case Arr(items) => forall i :: 0 <= i < |items| ==> WellFormed(items[i])
    case Obj(fields) =>
      && DistinctKeys(fields)
      && forall i :: 0 <= i < |fields| ==> WellFormed(fields[i].1)
    case _ => true
  }

  // ---- The code: a stable sort by key, then the same on every value ----

  /** Entries are compared by key alone. */
  function ByKey(le: Collation): (((string, Json), (string, Json)) -> bool) {
    (a: (string, Json), b: (string, Json)) => le(a.0, b.0)
  }

  ghost predicate KeysInOrder(le: Collation, s: seq<(string, Json)>) {
    forall i, j :: 0 <= i < j < |s| ==> le(s[i].0, s[j].0)
  }

  function SortEntries(le: Collation, s: seq<(string, Json)>): (r: seq<(string, Json)>)
    ensures multiset(r) == multiset(s)
  {
    Sort(ByKey(le), s)
  }

  function SortJson(le: Collation, v: Json): Json {
    match v
    case Arr(items) => Arr(seq(|items|, i requires 0 <= i < |items| => SortJson(le, items[i])))
    case Obj(fields) =>
      var es := SortEntries(le, fields);
      SortedMembers(le, fields);
      Obj(seq(|es|, i requires 0 <= i < |es| => (es[i].0, SortJson(le, es[i].1))))
    case _ => v
  }

  // ---- The reference ----

  function Keys(fields: seq<(string, Json)>): set<string> {
    set i | 0 <= i < |fields| :: fields[i].0
  }

  function IndexOf(fields: seq<(string, Json)>, k: string): (i: nat)
    requires k in Keys(fields)
    ensures i < |fields| && fields[i].0 == k
    ensures forall j :: 0 <= j < i ==> fields[j].0 != k
  {
    if fields[0].0 == k then 0
    else
      assert exists i :: 0 <= i < |fields[1..]| && fields[1..][i].0 == k by {
        var i :| 0 <= i < |fields| && fields[i].0 == k;
        assert fields[1..][i - 1].0 == k;
      }
      1 + IndexOf(fields[1..], k)
  }

  function Meaning(v: Json): Value {
    match v
    case Null => VNull
    case Bool(b) => VBool(b)
    case Num(n) => VNum(n)
    case Str(s) => VStr(s)
    case Arr(items) => VArr(seq(|items|, i requires 0 <= i < |items| => Meaning(items[i])))
    case Obj(fields) => VObj(map k | k in Keys(fields) :: Meaning(fields[IndexOf(fields, k)].1))
  }

  // ---- Facts about the stable sort ----

  lemma SortedMembers(le: Collation, s: seq<(string, Json)>)
    ensures |SortEntries(le, s)| == |s|
    ensures forall i :: 0 <= i < |s| ==> SortEntries(le, s)[i] in s
    ensures forall e :: e in s ==> e in SortEntries(le, s)
  {
    SameMembers(s, SortEntries(le, s));
  }

  lemma ByKeyIsTotal(le: Collation)
    requires TotalPreorder(le)
    ensures TotalPreorder(ByKey(le))
  {
    var f := ByKey(le);
    forall a, b ensures f(a, b) || f(b, a) {
      assert le(a.0, b.0) || le(b.0, a.0);
    }
    forall a, b, c | f(a, b) && f(b, c) ensures f(a, c) {
      assert le(a.0, b.0) && le(b.0, c.0);
    }
  }

  lemma SortIsSortedByKey(le: Collation, s: seq<(string, Json)>)
    requires TotalPreorder(le)
    ensures KeysInOrder(le, SortEntries(le, s))
  {
    ByKeyIsTotal(le);
    SortIsSorted(ByKey(le), s);
  }

  lemma OrderedEntriesStay(le: Collation, s: seq<(string, Json)>)
    requires KeysInOrder(le, s)
    ensures SortEntries(le, s) == s
  {
    SortOfSorted(ByKey(le), s);
  }

  lemma DistinctAfterSort(le: Collation, s: seq<(string, Json)>)
    requires DistinctKeys(s)
    ensures DistinctKeys(SortEntries(le, s))
  {
    PermutationKeepsDistinct(s, SortEntries(le, s));
  }

  lemma PermutationKeepsDistinct(s: seq<(string, Json)>, r: seq<(string, Json)>)
    requires DistinctKeys(s) && multiset(r) == multiset(s)
    ensures DistinctKeys(r)
  {
    SameMembers(s, r);
    forall i, j | 0 <= i < j < |r| ensures r[i].0 != r[j].0 {
      if r[i].0 == r[j].0 {
        var k :| 0 <= k < |s| && s[k] == r[i];
        var l :| 0 <= l < |s| && s[l] == r[j];
        assert k == l && multiset(r)[r[i]] == multiset(s)[r[i]];
        OccursOnce(s, k);
        OccursTwice(r, i, j);
      }
    }
  }

  lemma OccursOnce(s: seq<(string, Json)>, k: nat)
    requires DistinctKeys(s) && k < |s|
    ensures multiset(s)[s[k]] == 1
  {
    assert s == s[..k] + [s[k]] + s[k + 1..];
    assert s[k] !in s[..k] && s[k] !in s[k + 1..];
    assert multiset(s[..k])[s[k]] == 0 && multiset(s[k + 1..])[s[k]] == 0;
  }

  lemma OccursTwice(r: seq<(string, Json)>, i: nat, j: nat)
    requires i < j < |r| && r[i] == r[j]
    ensures multiset(r)[r[i]] >= 2
  {
    assert r == r[..j] + [r[j]] + r[j + 1..];
    assert r[..j][i] == r[i];
    assert r[i] in multiset(r[..j]);
  }

  // ---- Sorting keeps the meaning and reaches a canonical form ----

  lemma FieldOf(fields: seq<(string, Json)>, i: nat)
    requires DistinctKeys(fields) && i < |fields|
    ensures fields[i].0 in Keys(fields) && IndexOf(fields, fields[i].0) == i
  {}

  /** Replacing every entry by a permuted one of the same key and meaning changes no meaning. */
  lemma SameEntriesSameMeaning(fields: seq<(string, Json)>, out: seq<(string, Json)>)
    requires DistinctKeys(fields) && DistinctKeys(out)
    requires Keys(out) == Keys(fields)
    requires forall k :: k in Keys(fields) ==>
                           Meaning(out[IndexOf(out, k)].1) == Meaning(fields[IndexOf(fields, k)].1)
    ensures Meaning(Obj(out)) == Meaning(Obj(fields))
  {
    var m, n := Meaning(Obj(out)).fields, Meaning(Obj(fields)).fields;
    assert m.Keys == n.Keys;
    forall k | k in m ensures m[k] == n[k] {}
    assert m == n;
  }

  /** Looking a key up in a permuted list `es` finds the same entry; `out` has the keys of `es`. */
  lemma PermutedLookup(fields: seq<(string, Json)>, es: seq<(string, Json)>, out: seq<(string, Json)>)
    requires DistinctKeys(fields) && DistinctKeys(es)
    requires forall i :: 0 <= i < |es| ==> es[i] in fields
    requires forall i :: 0 <= i < |fields| ==> fields[i] in es
    requires |out| == |es| && forall i :: 0 <= i < |out| ==> out[i].0 == es[i].0
    ensures DistinctKeys(out) && Keys(out) == Keys(fields)
    ensures forall k :: k in Keys(fields) ==> es[IndexOf(out, k)] == fields[IndexOf(fields, k)]
  {
    forall k | k in Keys(out) ensures k in Keys(fields) {
      var i := IndexOf(out, k);
      assert es[i] in fields;
    }
    forall k | k in Keys(fields) ensures k in Keys(out) && es[IndexOf(out, k)] == fields[IndexOf(fields, k)] {
      var e := fields[IndexOf(fields, k)];
      var i :| 0 <= i < |es| && es[i] == e;
      assert out[i].0 == k;
      FieldOf(out, i);
    }
  }

  /** One object: if sorting keeps the meaning of every value, it keeps the object's. */
  lemma SortedObjectMeaning(le: Collation, fields: seq<(string, Json)>)
    requires DistinctKeys(fields)
    requires forall i :: 0 <= i < |fields| ==>
                           && WellFormed(SortJson(le, fields[i].1))
                           && Meaning(SortJson(le, fields[i].1)) == Meaning(fields[i].1)
    ensures WellFormed(SortJson(le, Obj(fields)))
    ensures Meaning(SortJson(le, Obj(fields))) == Meaning(Obj(fields))
  {
    var es := SortEntries(le, fields);
    var out := SortJson(le, Obj(fields)).fields;
    SortedMembers(le, fields);
    DistinctAfterSort(le, fields);
    forall i | 0 <= i < |es| ensures WellFormed(out[i].1) && Meaning(out[i].1) == Meaning(es[i].1) {
      assert es[i] in fields;
    }
    PermutedLookup(fields, es, out);
    SameEntriesSameMeaning(fields, out);
  }

  lemma {:induction false} SortKeepsMeaning(le: Collation, v: Json)
    requires WellFormed(v)
    ensures WellFormed(SortJson(le, v)) && Meaning(SortJson(le, v)) == Meaning(v)
    decreases v
  {
    match v
    case Arr(items) =>
      forall i | 0 <= i < |items|
        ensures WellFormed(SortJson(le, items[i])) && Meaning(SortJson(le, items[i])) == Meaning(items[i])
      {
        SortKeepsMeaning(le, items[i]);
      }
    case Obj(fields) =>
      forall i | 0 <= i < |fields|
        ensures WellFormed(SortJson(le, fields[i].1)) && Meaning(SortJson(le, fields[i].1)) == Meaning(fields[i].1)
      {
        SortKeepsMeaning(le, fields[i].1);
      }
      SortedObjectMeaning(le, fields);
    case _ =>
  }

  /** Every object, at every depth, has its keys in order. */
  ghost predicate Canonical(le: Collation, v: Json) {
    match v
    case Arr(items) => forall i :: 0 <= i < |items| ==> Canonical(le, items[i])
    case Obj(fields) =>
      && KeysInOrder(le, fields)
      && forall i :: 0 <= i < |fields| ==> Canonical(le, fields[i].1)
    case _ => true
  }

  lemma SortedObjectCanonical(le: Collation, fields: seq<(string, Json)>)
    requires TotalPreorder(le)
    requires forall i :: 0 <= i < |fields| ==> Canonical(le, SortJson(le, fields[i].1))
    ensures Canonical(le, SortJson(le, Obj(fields)))
  {
    var es := SortEntries(le, fields);
    SortedMembers(le, fields);
    SortIsSortedByKey(le, fields);
    forall i | 0 <= i < |es| ensures Canonical(le, SortJson(le, es[i].1)) {
      assert es[i] in fields;
    }
  }

  lemma {:induction false} SortIsCanonical(le: Collation, v: Json)
    requires TotalPreorder(le)
    ensures Canonical(le, SortJson(le, v))
    decreases v
  {
    match v
    case Arr(items) =>
      forall i | 0 <= i < |items| ensures Canonical(le, SortJson(le, items[i])) {
        SortIsCanonical(le, items[i]);
      }
    case Obj(fields) =>
      forall i | 0 <= i < |fields| ensures Canonical(le, SortJson(le, fields[i].1)) {
        SortIsCanonical(le, fields[i].1);
      }
      SortedObjectCanonical(le, fields);
    case _ =>
  }

  lemma {:induction false} CanonicalIsFixed(le: Collation, v: Json)
    requires Canonical(le, v)
    ensures SortJson(le, v) == v
    decreases v
  {
    match v
    case Arr(items) =>
      forall i | 0 <= i < |items| ensures SortJson(le, items[i]) == items[i] {
        CanonicalIsFixed(le, items[i]);
      }
    case Obj(fields) =>
      OrderedEntriesStay(le, fields);
      forall i | 0 <= i < |fields| ensures SortJson(le, fields[i].1) == fields[i].1 {
        CanonicalIsFixed(le, fields[i].1);
      }
    case _ =>
  }

  /** Sorting twice is sorting once, whatever the collation does with ties. */
  lemma SortIsIdempotent(le: Collation, v: Json)
    requires TotalPreorder(le)
    ensures SortJson(le, SortJson(le, v)) == SortJson(le, v)
  {
    SortIsCanonical(le, v);
    CanonicalIsFixed(le, SortJson(le, v));
  }

  // ---- Ties between keys ----

  ghost predicate NoTies(le: Collation, fields: seq<(string, Json)>) {
    forall i, j :: 0 <= i < j < |fields| ==> !Tied(le, fields[i].0, fields[j].0)
  }

  /** No object inside the value, at any depth, holds two keys that collate as equal. */
  ghost predicate NoTiedKeys(le: Collation, v: Json) {
    match v
    case Arr(items) => forall i :: 0 <= i < |items| ==> NoTiedKeys(le, items[i])
    case Obj(fields) => NoTies(le, fields) && forall i :: 0 <= i < |fields| ==> NoTiedKeys(le, fields[i].1)
    case _ => true
  }

  lemma PermutationKeepsNoTies(le: Collation, s: seq<(string, Json)>, r: seq<(string, Json)>)
    requires DistinctKeys(s) && NoTies(le, s) && multiset(r) == multiset(s)
    ensures NoTies(le, r)
  {
    SameMembers(s, r);
    PermutationKeepsDistinct(s, r);
    forall i, j | 0 <= i < j < |r| ensures !Tied(le, r[i].0, r[j].0) {
      var k :| 0 <= k < |s| && s[k] == r[i];
      var l :| 0 <= l < |s| && s[l] == r[j];
      assert k != l;
    }
  }

  lemma {:induction false} SortKeepsNoTiedKeys(le: Collation, v: Json)
    requires WellFormed(v) && NoTiedKeys(le, v)
    ensures NoTiedKeys(le, SortJson(le, v))
    decreases v
  {
    match v
    case Arr(items) =>
      forall i | 0 <= i < |items| ensures NoTiedKeys(le, SortJson(le, items[i])) {
        SortKeepsNoTiedKeys(le, items[i]);
      }
    case Obj(fields) =>
      var es := SortEntries(le, fields);
      SortedMembers(le, fields);
      PermutationKeepsNoTies(le, fields, es);
      forall i | 0 <= i < |fields| ensures NoTiedKeys(le, SortJson(le, fields[i].1)) {
        SortKeepsNoTiedKeys(le, fields[i].1);
      }
      SortedObjectHasNoTies(le, fields);
    case _ =>
  }

  lemma SortedObjectHasNoTies(le: Collation, fields: seq<(string, Json)>)
    requires NoTies(le, SortEntries(le, fields))
    requires forall i :: 0 <= i < |fields| ==> NoTiedKeys(le, SortJson(le, fields[i].1))
    ensures NoTiedKeys(le, SortJson(le, Obj(fields)))
  {
    var es := SortEntries(le, fields);
    SortedMembers(le, fields);
    forall i | 0 <= i < |es| ensures NoTiedKeys(le, SortJson(le, es[i].1)) { assert es[i] in fields; }
  }

  // ---- Canonical values without ties are determined by their meaning ----

  /** Two strictly ordered key lists over the same keys are the same list. */
  lemma {:induction false} SameSortedKeys(le: Collation, s: seq<(string, Json)>, t: seq<(string, Json)>)
    requires NoTies(le, s) && KeysInOrder(le, s) && KeysInOrder(le, t)
    requires DistinctKeys(s) && DistinctKeys(t) && Keys(s) == Keys(t)
    ensures |s| == |t| && forall i :: 0 <= i < |s| ==> s[i].0 == t[i].0
    decreases |s|
  {
    if s == [] {
      NoKeys(t);
    } else {
      assert s[0].0 in Keys(s);
      var i := IndexOf(t, s[0].0);
      assert t[0].0 in Keys(s);
      var j := IndexOf(s, t[0].0);
      assert Tied(le, s[0].0, s[j].0) || j == 0;
      assert s[0].0 == t[0].0;
      forall k ensures k in Keys(s[1..]) <==> k in Keys(t[1..]) {
        RestKeys(s, k);
        RestKeys(t, k);
      }
      SameSortedKeys(le, s[1..], t[1..]);
    }
  }

  lemma NoKeys(t: seq<(string, Json)>)
    ensures Keys(t) == {} ==> t == []
  {
    if t != [] {
      assert t[0].0 in Keys(t);
    }
  }

  lemma RestKeys(s: seq<(string, Json)>, k: string)
    requires DistinctKeys(s) && s != []
    ensures k in Keys(s[1..]) <==> k in Keys(s) && k != s[0].0
  {
    if k in Keys(s) && k != s[0].0 {
      var i := IndexOf(s, k);
      assert s[1..][i - 1].0 == k;
    }
  }

  lemma {:induction false} MeaningDetermines(le: Collation, a: Json, b: Json)
    requires NoTiedKeys(le, a)
    requires WellFormed(a) && WellFormed(b) && Canonical(le, a) && Canonical(le, b)
    requires Meaning(a) == Meaning(b)
    ensures a == b
    decreases a
  {
    match a
    case Arr(items) =>
      var m, n := Meaning(a).items, Meaning(b).items;
      forall i | 0 <= i < |items| ensures items[i] == b.items[i] {
        assert m[i] == n[i];
        MeaningDetermines(le, items[i], b.items[i]);
      }
    case Obj(fields) =>
      var m, n := Meaning(a).fields, Meaning(b).fields;
      assert m.Keys == Keys(fields) && n.Keys == Keys(b.fields);
      SameSortedKeys(le, fields, b.fields);
      forall i | 0 <= i < |fields| ensures fields[i] == b.fields[i] {
        FieldOf(fields, i);
        FieldOf(b.fields, i);
        assert m[fields[i].0] == n[fields[i].0];
        MeaningDetermines(le, fields[i].1, b.fields[i].1);
      }
    case _ =>
  }

  // ---- Main results ----

  /** Equal sorted forms always mean equal content: no two contents share a form. */
  lemma SortSeparates(le: Collation, a: Json, b: Json)
    requires WellFormed(a) && WellFormed(b)
    requires SortJson(le, a) == SortJson(le, b)
    ensures Meaning(a) == Meaning(b)
  {
    SortKeepsMeaning(le, a);
    SortKeepsMeaning(le, b);
  }

  /** For a value without tied keys, equal sorted forms and equal content are one thing. */
  lemma SortIsCanonicalForm(le: Collation, a: Json, b: Json)
    requires TotalPreorder(le) && NoTiedKeys(le, a)
    requires WellFormed(a) && WellFormed(b)
    ensures SortJson(le, a) == SortJson(le, b) <==> Meaning(a) == Meaning(b)
  {
    SortKeepsMeaning(le, a);
    SortKeepsMeaning(le, b);
    if Meaning(a) == Meaning(b) {
      SortIsCanonical(le, a);
      SortIsCanonical(le, b);
      SortKeepsNoTiedKeys(le, a);
      MeaningDetermines(le, SortJson(le, a), SortJson(le, b));
    }
  }

  // ---- Tied keys change the form ----

  lemma SortedLookup(le: Collation, fields: seq<(string, Json)>, i: nat)
    requires DistinctKeys(fields) && i < |fields|
    ensures var out := SortJson(le, Obj(fields)).fields;
            DistinctKeys(out) && (fields[i].0, SortJson(le, fields[i].1)) in out
  {
    var es, out := SortEntries(le, fields), SortJson(le, Obj(fields)).fields;
    SortedMembers(le, fields);
    DistinctAfterSort(le, fields);
    assert fields[i] in fields && fields[i] in es;
    var j :| 0 <= j < |es| && es[j] == fields[i];
    assert out[j] == (fields[i].0, SortJson(le, fields[i].1));
  }

  function WithValue(fields: seq<(string, Json)>, i: nat, v: Json): seq<(string, Json)>
    requires i < |fields|
  {
    fields[i := (fields[i].0, v)]
  }

  lemma ReplacedMeaning(fields: seq<(string, Json)>, i: nat, v: Json)
    requires WellFormed(Obj(fields)) && i < |fields| && WellFormed(v) && Meaning(v) == Meaning(fields[i].1)
    ensures WellFormed(Obj(WithValue(fields, i, v))) && Meaning(Obj(WithValue(fields, i, v))) == Meaning(Obj(fields))
  {
    var other := WithValue(fields, i, v);
    assert Keys(other) == Keys(fields) by {
      forall k ensures k in Keys(other) <==> k in Keys(fields) { SameKeysAt(fields, other, k); }
    }
    forall k | k in Keys(fields) ensures Meaning(other[IndexOf(other, k)].1) == Meaning(fields[IndexOf(fields, k)].1) {
      FieldOf(other, IndexOf(fields, k));
    }
    SameEntriesSameMeaning(fields, other);
  }

  lemma ReplacedForm(le: Collation, fields: seq<(string, Json)>, i: nat, v: Json)
    requires DistinctKeys(fields) && i < |fields| && SortJson(le, v) != SortJson(le, fields[i].1)
    ensures SortJson(le, Obj(WithValue(fields, i, v))) != SortJson(le, Obj(fields))
  {
    var other := WithValue(fields, i, v);
    SortedLookup(le, fields, i);
    SortedLookup(le, other, i);
    if SortJson(le, Obj(other)) == SortJson(le, Obj(fields)) {
      OneValuePerKey(SortJson(le, Obj(fields)).fields, fields[i].0, SortJson(le, v), SortJson(le, fields[i].1));
    }
  }

  lemma ReplacedItem(le: Collation, items: seq<Json>, i: nat, v: Json)
    requires WellFormed(Arr(items)) && i < |items| && WellFormed(v)
    requires Meaning(v) == Meaning(items[i]) && SortJson(le, v) != SortJson(le, items[i])
    ensures var b := Arr(items[i := v]);
            WellFormed(b) && Meaning(b) == Meaning(Arr(items)) && SortJson(le, b) != SortJson(le, Arr(items))
  {
    assert SortJson(le, Arr(items[i := v])).items[i] != SortJson(le, Arr(items)).items[i];
  }

  lemma SameKeysAt(s: seq<(string, Json)>, t: seq<(string, Json)>, k: string)
    requires |s| == |t| && forall i :: 0 <= i < |s| ==> s[i].0 == t[i].0
    ensures k in Keys(s) <==> k in Keys(t)
  {
    if k in Keys(s) { assert t[IndexOf(s, k)].0 == k; }
    if k in Keys(t) { assert s[IndexOf(t, k)].0 == k; }
  }

  lemma OneValuePerKey(fields: seq<(string, Json)>, k: string, v: Json, w: Json)
    requires DistinctKeys(fields) && (k, v) in fields && (k, w) in fields
    ensures v == w
  {}

  function Swapped(fields: seq<(string, Json)>, i: nat, j: nat): seq<(string, Json)>
    requires i < j < |fields|
  {
    fields[i := fields[j]][j := fields[i]]
  }

  lemma SwappedEntries(fields: seq<(string, Json)>, i: nat, j: nat)
    requires i < j < |fields| && DistinctKeys(fields)
    ensures var t := Swapped(fields, i, j);
            && multiset(t) == multiset(fields) && DistinctKeys(t) && NoRepeats(fields)
            && Precedes(fields, fields[i], fields[j]) && Precedes(t, fields[j], fields[i])
  {
    var t := Swapped(fields, i, j);
    assert fields == fields[..i] + [fields[i]] + fields[i + 1..j] + [fields[j]] + fields[j + 1..];
    assert t == fields[..i] + [fields[j]] + fields[i + 1..j] + [fields[i]] + fields[j + 1..];
    PermutationKeepsDistinct(fields, t);
    assert t[i] == fields[j] && t[j] == fields[i];
  }

  lemma SwappedMeaning(fields: seq<(string, Json)>, i: nat, j: nat)
    requires i < j < |fields| && WellFormed(Obj(fields))
    ensures WellFormed(Obj(Swapped(fields, i, j))) && Meaning(Obj(Swapped(fields, i, j))) == Meaning(Obj(fields))
  {
    var t := Swapped(fields, i, j);
    SwappedEntries(fields, i, j);
    SameMembers(fields, t);
    PermutedLookup(fields, t, t);
    SameEntriesSameMeaning(fields, t);
  }

  /** Two tied entries, swapped in place, are swapped in the form too. */
  lemma SwappedTies(le: Collation, fields: seq<(string, Json)>, i: nat, j: nat)
    requires TotalPreorder(le) && i < j < |fields| && WellFormed(Obj(fields)) && Tied(le, fields[i].0, fields[j].0)
    ensures var b := Obj(Swapped(fields, i, j));
            WellFormed(b) && Meaning(b) == Meaning(Obj(fields)) && SortJson(le, b) != SortJson(le, Obj(fields))
  {
    var t := Swapped(fields, i, j);
    SwappedMeaning(fields, i, j);
    SwappedEntries(fields, i, j);
    ReorderingKeepsNoRepeats(fields, t);
    OneOrderOnly(t, fields[i], fields[j]);
    ByKeyIsTotal(le);
    SortAgreesExactlyWhen(ByKey(le), fields, t);
    assert Tied(ByKey(le), fields[i], fields[j]);
    if SortJson(le, Obj(t)) == SortJson(le, Obj(fields)) { SameFormSameEntries(le, fields, t); }
  }

  lemma SameFormSameEntries(le: Collation, s: seq<(string, Json)>, t: seq<(string, Json)>)
    requires DistinctKeys(s) && multiset(s) == multiset(t) && SortJson(le, Obj(s)) == SortJson(le, Obj(t))
    ensures SortEntries(le, s) == SortEntries(le, t)
  {
    var x, y := SortEntries(le, s), SortEntries(le, t);
    var out := SortJson(le, Obj(s)).fields;
    SortedMembers(le, s);
    SortedMembers(le, t);
    SameMembers(s, t);
    forall k | 0 <= k < |x| ensures x[k] == y[k] {
      assert out[k].0 == x[k].0 && out[k].0 == y[k].0;
      assert x[k] in s && y[k] in s;
    }
  }

  /** A value with tied keys somewhere has a reordering with another form. */
  lemma {:induction false} TiedKeysChangeTheForm(le: Collation, a: Json) returns (b: Json)
    requires TotalPreorder(le) && WellFormed(a) && !NoTiedKeys(le, a)
    ensures WellFormed(b) && Meaning(b) == Meaning(a) && SortJson(le, b) != SortJson(le, a)
    decreases a
  {
    match a
    case Arr(items) =>
      var i :| 0 <= i < |items| && !NoTiedKeys(le, items[i]);
      var v := TiedKeysChangeTheForm(le, items[i]);
      ReplacedItem(le, items, i, v);
      b := Arr(items[i := v]);
    case Obj(fields) =>
      if NoTies(le, fields) {
        var i :| 0 <= i < |fields| && !NoTiedKeys(le, fields[i].1);
        var v := TiedKeysChangeTheForm(le, fields[i].1);
        ReplacedMeaning(fields, i, v);
        ReplacedForm(le, fields, i, v);
        b := Obj(WithValue(fields, i, v));
      } else {
        var i, j :| 0 <= i < j < |fields| && Tied(le, fields[i].0, fields[j].0);
        SwappedTies(le, fields, i, j);
        b := Obj(Swapped(fields, i, j));
      }
  }

  /** Every value of this content has this form. */
  ghost predicate FormIgnoresKeyOrder(le: Collation, a: Json) {
    forall b :: WellFormed(b) && Meaning(b) == Meaning(a) ==> SortJson(le, b) == SortJson(le, a)
  }

  /** The exact condition, value by value: the hash of a value ignores key order if and only if no
    object inside it holds two keys that collate as equal. */
  lemma FormIgnoresKeyOrderExactlyWhen(le: Collation, a: Json)
    requires TotalPreorder(le) && WellFormed(a)
    ensures FormIgnoresKeyOrder(le, a) <==> NoTiedKeys(le, a)
  {
    if NoTiedKeys(le, a) {
      forall b | WellFormed(b) && Meaning(b) == Meaning(a) ensures SortJson(le, b) == SortJson(le, a) {
        SortIsCanonicalForm(le, a, b);
      }
    } else {
      var b := TiedKeysChangeTheForm(le, a);
    }
  }

  // ---- A concrete tie ----

  function TwoKeys(j: string, k: string): seq<(string, Json)> {
    [(j, Null), (k, Null)]
  }

  lemma TwoKeysMeaning(j: string, k: string)
    requires j != k
    ensures WellFormed(Obj(TwoKeys(j, k)))
    ensures Meaning(Obj(TwoKeys(j, k))) == VObj(map[j := VNull, k := VNull])
  {
    var f := TwoKeys(j, k);
    assert f[0].0 == j && f[1].0 == k;
    FieldOf(f, 0);
    FieldOf(f, 1);
    assert Keys(f) == {j, k};
    assert Meaning(Obj(f)).fields == map[j := VNull, k := VNull];
  }

  lemma TwoKeysStay(le: Collation, f: seq<(string, Json)>)
    requires |f| == 2 && f[0].1 == f[1].1 == Null && le(f[0].0, f[1].0)
    ensures SortJson(le, Obj(f)) == Obj(f)
  {
    CanonicalIsFixed(le, Obj(f));
  }

  /** Two keys that collate as equal keep their insertion order, so the form depends on it. */
  lemma TiedKeysKeepInsertionOrder(le: Collation, j: string, k: string)
    requires le(j, k) && le(k, j) && j != k
    ensures var a, b := Obj(TwoKeys(j, k)), Obj(TwoKeys(k, j));
            WellFormed(a) && WellFormed(b) && Meaning(a) == Meaning(b) && SortJson(le, a) != SortJson(le, b)
  {
    TwoKeysMeaning(j, k);
    TwoKeysMeaning(k, j);
    assert map[j := VNull, k := VNull] == map[k := VNull, j := VNull];
    TwoKeysStay(le, TwoKeys(j, k));
    TwoKeysStay(le, TwoKeys(k, j));
    assert TwoKeys(j, k)[0].0 != TwoKeys(k, j)[0].0;
  }

  // ---- Every value at once ----

  /** The collation tells any two different keys apart. */
  ghost predicate Discriminating(le: Collation) {
    Antisymmetric(le)
  }

  ghost predicate IgnoresKeyOrder(le: Collation) {
    forall a :: WellFormed(a) ==> FormIgnoresKeyOrder(le, a)
  }

  lemma {:induction false} NoTiesUnderDiscriminating(le: Collation, v: Json)
    requires Discriminating(le) && WellFormed(v)
    ensures NoTiedKeys(le, v)
    decreases v
  {
    match v
    case Arr(items) =>
      forall i | 0 <= i < |items| ensures NoTiedKeys(le, items[i]) { NoTiesUnderDiscriminating(le, items[i]); }
    case Obj(fields) =>
      forall i | 0 <= i < |fields| ensures NoTiedKeys(le, fields[i].1) { NoTiesUnderDiscriminating(le, fields[i].1); }
    case _ =>
  }

  /** Hashes of all values ignore key order if and only if no two keys collate as equal. */
  lemma KeyOrderIgnoredExactlyWhenDiscriminating(le: Collation)
    requires TotalPreorder(le)
    ensures IgnoresKeyOrder(le) <==> Discriminating(le)
  {
    if Discriminating(le) {
      forall a | WellFormed(a) ensures FormIgnoresKeyOrder(le, a) {
        NoTiesUnderDiscriminating(le, a);
        FormIgnoresKeyOrderExactlyWhen(le, a);
      }
    } else {
      var j, k :| le(j, k) && le(k, j) && j != k;
      TiedKeysKeepInsertionOrder(le, j, k);
    }
  }
}
