/** A stable sort by a comparison that is a total preorder, and what its result depends on. */
module Sorting {
  import opened Lists

  /** `le(a, b)` stands for `a.localeCompare(b) <= 0`. */
  type Collation = (string, string) -> bool

  ghost predicate TotalPreorder<T(!new)>(le: (T, T) -> bool) {
    && (forall a, b :: le(a, b) || le(b, a))
    && (forall a, b, c :: le(a, b) && le(b, c) ==> le(a, c))
  }

  ghost predicate Antisymmetric<T(!new)>(le: (T, T) -> bool) {
    forall a, b :: le(a, b) && le(b, a) ==> a == b
  }

  ghost predicate TotalOrder<T(!new)>(le: (T, T) -> bool) {
    TotalPreorder(le) && Antisymmetric(le)
  }

  ghost predicate SortedBy<T>(le: (T, T) -> bool, s: seq<T>) {
    forall i, j :: 0 <= i < j < |s| ==> le(s[i], s[j])
  }

  /** Put `e` before the first element it does not come after. */
  function Insert<T>(le: (T, T) -> bool, e: T, s: seq<T>): (r: seq<T>)
    ensures multiset(r) == multiset{e} + multiset(s)
  {
    if s == [] then [e]
    else if le(e, s[0]) then [e] + s
    else
      assert s == [s[0]] + s[1..];
      [s[0]] + Insert(le, e, s[1..])
  }

  function Sort<T>(le: (T, T) -> bool, s: seq<T>): (r: seq<T>)
    ensures multiset(r) == multiset(s)
  {
    if s == [] then []
    else
      assert s == [s[0]] + s[1..];
      Insert(le, s[0], Sort(le, s[1..]))
  }

  lemma SameMembers<T>(s: seq<T>, r: seq<T>)
    requires multiset(s) == multiset(r)
    ensures |s| == |r|
    ensures forall e :: e in s <==> e in r
    ensures forall i :: 0 <= i < |r| ==> r[i] in s
    ensures forall i :: 0 <= i < |s| ==> s[i] in r
  {
    assert |multiset(s)| == |multiset(r)|;
    forall e ensures e in s <==> e in r {
      assert e in s <==> e in multiset(s);
      assert e in r <==> e in multiset(r);
    }
    forall i | 0 <= i < |r| ensures r[i] in s { assert r[i] in r; }
    forall i | 0 <= i < |s| ensures s[i] in r { assert s[i] in s; }
  }

  lemma {:induction false} InsertKeepsSorted<T(!new)>(le: (T, T) -> bool, e: T, s: seq<T>)
    requires TotalPreorder(le) && SortedBy(le, s)
    ensures SortedBy(le, Insert(le, e, s))
  {
    if s != [] && !le(e, s[0]) {
      InsertKeepsSorted(le, e, s[1..]);
      var r := Insert(le, e, s[1..]);
      forall j | 0 <= j < |r| ensures le(s[0], r[j]) {
        assert r[j] in multiset(r);
      }
    }
  }

  lemma {:induction false} SortIsSorted<T(!new)>(le: (T, T) -> bool, s: seq<T>)
    requires TotalPreorder(le)
    ensures SortedBy(le, Sort(le, s))
  {
    if s != [] {
      SortIsSorted(le, s[1..]);
      InsertKeepsSorted(le, s[0], Sort(le, s[1..]));
    }
  }

  /** A list already in order is left exactly as it is, ties included. */
  lemma {:induction false} SortOfSorted<T>(le: (T, T) -> bool, s: seq<T>)
    requires SortedBy(le, s)
    ensures Sort(le, s) == s
  {
    if s != [] {
      SortOfSorted(le, s[1..]);
      assert s == [s[0]] + s[1..];
    }
  }

  ghost predicate AntisymmetricOn<T(!new)>(le: (T, T) -> bool, s: seq<T>) {
    forall a, b :: a in s && b in s && le(a, b) && le(b, a) ==> a == b
  }

  lemma FirstIsLeast<T(!new)>(le: (T, T) -> bool, s: seq<T>, e: T)
    requires TotalPreorder(le) && SortedBy(le, s) && e in s
    ensures le(s[0], e)
  {}

  lemma SameFirst<T(!new)>(le: (T, T) -> bool, s: seq<T>, t: seq<T>)
    requires TotalPreorder(le) && AntisymmetricOn(le, s) && s != []
    requires SortedBy(le, s) && SortedBy(le, t) && multiset(s) == multiset(t)
    ensures t != [] && s[0] == t[0]
  {
    SameMembers(s, t);
    FirstIsLeast(le, s, t[0]);
    FirstIsLeast(le, t, s[0]);
  }

  lemma SameRest<T>(s: seq<T>, t: seq<T>)
    requires s != [] && t != [] && s[0] == t[0] && multiset(s) == multiset(t)
    ensures multiset(s[1..]) == multiset(t[1..])
  {
    assert s == [s[0]] + s[1..] && t == [t[0]] + t[1..];
    assert multiset(s[1..]) == multiset(s) - multiset{s[0]};
    assert multiset(t[1..]) == multiset(t) - multiset{t[0]};
  }

  lemma {:induction false} SortedIsUnique<T(!new)>(le: (T, T) -> bool, s: seq<T>, t: seq<T>)
    requires TotalPreorder(le) && AntisymmetricOn(le, s)
    requires SortedBy(le, s) && SortedBy(le, t) && multiset(s) == multiset(t)
    ensures s == t
    decreases |s|
  {
    if s == [] {
      assert |multiset(s)| == |multiset(t)|;
    } else {
      SameFirst(le, s, t);
      SameRest(s, t);
      SortedIsUnique(le, s[1..], t[1..]);
      assert s == [s[0]] + s[1..] && t == [t[0]] + t[1..];
    }
  }

  /** When no two elements tie, the sorted list says exactly what was in the list, and how often. */
  lemma SortForgetsOrder<T(!new)>(le: (T, T) -> bool, s: seq<T>, t: seq<T>)
    requires TotalPreorder(le) && AntisymmetricOn(le, s)
    ensures Sort(le, s) == Sort(le, t) <==> multiset(s) == multiset(t)
  {
    if multiset(s) == multiset(t) {
      SortIsSorted(le, s);
      SortIsSorted(le, t);
      SameMembers(s, Sort(le, s));
      SortedIsUnique(le, Sort(le, s), Sort(le, t));
    }
  }

  // ---- Ties ----

  predicate Tied<T>(le: (T, T) -> bool, a: T, b: T) { le(a, b) && le(b, a) }

  predicate Precedes<T(==)>(s: seq<T>, x: T, y: T) { exists i, j :: 0 <= i < j < |s| && s[i] == x && s[j] == y }

  lemma PrecedesInRest<T>(e: T, s: seq<T>, x: T, y: T)
    ensures Precedes([e] + s, x, y) <==> Precedes(s, x, y) || (x == e && y in s)
  {
    var r := [e] + s;
    if Precedes(s, x, y) {
      var i, j :| 0 <= i < j < |s| && s[i] == x && s[j] == y;
      assert r[i + 1] == x && r[j + 1] == y;
    }
    if x == e && y in s {
      var j :| 0 <= j < |s| && s[j] == y;
      assert r[0] == x && r[j + 1] == y;
    }
    if Precedes(r, x, y) {
      var i, j :| 0 <= i < j < |r| && r[i] == x && r[j] == y;
      assert s[j - 1] == y;
      if i > 0 { assert s[i - 1] == x; }
    }
  }

  lemma {:induction false} InsertIsStable<T(!new)>(le: (T, T) -> bool, e: T, s: seq<T>, x: T, y: T)
    requires le(x, y) && Precedes([e] + s, x, y)
    ensures Precedes(Insert(le, e, s), x, y)
  {
    if s != [] && !le(e, s[0]) {
      var rest := s[1..];
      assert s == [s[0]] + rest;
      PrecedesInRest(e, s, x, y);
      PrecedesInRest(s[0], rest, x, y);
      PrecedesInRest(e, rest, x, y);
      PrecedesInRest(s[0], Insert(le, e, rest), x, y);
      if Precedes([e] + rest, x, y) {
        InsertIsStable(le, e, rest, x, y);
      } else {
        assert y in multiset(rest) && y in multiset(Insert(le, e, rest));
      }
    }
  }

  /** An element that is before another and may be so in the order stays before it. */
  lemma {:induction false} SortIsStable<T(!new)>(le: (T, T) -> bool, s: seq<T>, x: T, y: T)
    requires le(x, y) && Precedes(s, x, y)
    ensures Precedes(Sort(le, s), x, y)
  {
    if s != [] {
      var rest := s[1..];
      assert s == [s[0]] + rest;
      PrecedesInRest(s[0], rest, x, y);
      if Precedes(rest, x, y) { SortIsStable(le, rest, x, y); }
      SameMembers(rest, Sort(le, rest));
      PrecedesInRest(s[0], Sort(le, rest), x, y);
      InsertIsStable(le, s[0], Sort(le, rest), x, y);
    }
  }

  lemma OneOrderOnly<T>(s: seq<T>, x: T, y: T)
    requires NoRepeats(s) && x in s && y in s && x != y
    ensures Precedes(s, x, y) <==> !Precedes(s, y, x)
  {
    var i :| 0 <= i < |s| && s[i] == x;
    var j :| 0 <= j < |s| && s[j] == y;
  }

  ghost predicate AgreeOnTies<T(!new)>(le: (T, T) -> bool, s: seq<T>, t: seq<T>) {
    forall x, y :: Tied(le, x, y) && Precedes(s, x, y) ==> Precedes(t, x, y)
  }

  lemma AgreeOnRest<T(!new)>(le: (T, T) -> bool, s: seq<T>, t: seq<T>)
    requires NoRepeats(s) && s != [] && t != [] && s[0] == t[0] && AgreeOnTies(le, s, t)
    ensures AgreeOnTies(le, s[1..], t[1..])
  {
    assert s == [s[0]] + s[1..] && t == [t[0]] + t[1..];
    forall x, y | Tied(le, x, y) && Precedes(s[1..], x, y) ensures Precedes(t[1..], x, y) {
      PrecedesInRest(s[0], s[1..], x, y);
      PrecedesInRest(t[0], t[1..], x, y);
    }
  }

  lemma FirstPrecedes<T>(s: seq<T>, y: T)
    requires s != [] && y in s && y != s[0]
    ensures Precedes(s, s[0], y)
  {
    var j :| 0 <= j < |s| && s[j] == y;
    assert s[0] == s[0] && 0 < j;
  }

  lemma SameFirstByTies<T(!new)>(le: (T, T) -> bool, s: seq<T>, t: seq<T>)
    requires TotalPreorder(le) && NoRepeats(t) && SortedBy(le, s) && SortedBy(le, t)
    requires multiset(s) == multiset(t) && AgreeOnTies(le, s, t) && s != []
    ensures t != [] && s[0] == t[0]
  {
    SameMembers(s, t);
    FirstIsLeast(le, s, t[0]);
    FirstIsLeast(le, t, s[0]);
    if s[0] != t[0] {
      FirstPrecedes(s, t[0]);
      FirstPrecedes(t, s[0]);
      OneOrderOnly(t, s[0], t[0]);
      assert false;
    }
  }

  lemma {:induction false} SortedAgreeing<T(!new)>(le: (T, T) -> bool, s: seq<T>, t: seq<T>)
    requires TotalPreorder(le) && NoRepeats(s) && NoRepeats(t) && SortedBy(le, s) && SortedBy(le, t)
    requires multiset(s) == multiset(t) && AgreeOnTies(le, s, t)
    ensures s == t
    decreases |s|
  {
    if s == [] {
      assert |multiset(s)| == |multiset(t)|;
    } else {
      SameFirstByTies(le, s, t);
      SameRest(s, t);
      AgreeOnRest(le, s, t);
      SortedAgreeing(le, s[1..], t[1..]);
      assert s == [s[0]] + s[1..] && t == [t[0]] + t[1..];
    }
  }

  lemma SortKeepsTies<T(!new)>(le: (T, T) -> bool, s: seq<T>, x: T, y: T)
    requires NoRepeats(s) && Tied(le, x, y)
    ensures Precedes(s, x, y) <==> Precedes(Sort(le, s), x, y)
  {
    var r := Sort(le, s);
    SameMembers(s, r);
    ReorderingKeepsNoRepeats(s, r);
    if Precedes(s, x, y) {
      SortIsStable(le, s, x, y);
    } else if Precedes(r, x, y) {
      assert x in s && y in s && x != y;
      OneOrderOnly(s, x, y);
      SortIsStable(le, s, y, x);
      OneOrderOnly(r, x, y);
    }
  }

  /** Two orders of the same distinct elements sort to one list exactly when they agree on every tie. */
  lemma SortAgreesExactlyWhen<T(!new)>(le: (T, T) -> bool, s: seq<T>, t: seq<T>)
    requires TotalPreorder(le) && NoRepeats(s) && multiset(s) == multiset(t)
    ensures Sort(le, s) == Sort(le, t) <==> AgreeOnTies(le, s, t)
  {
    ReorderingKeepsNoRepeats(s, t);
    if Sort(le, s) == Sort(le, t) {
      forall x, y | Tied(le, x, y) && Precedes(s, x, y) ensures Precedes(t, x, y) {
        SortKeepsTies(le, s, x, y);
        SortKeepsTies(le, t, x, y);
      }
    }
    if AgreeOnTies(le, s, t) {
      forall x, y | Tied(le, x, y) && Precedes(Sort(le, s), x, y) ensures Precedes(Sort(le, t), x, y) {
        SortKeepsTies(le, s, x, y);
        SortKeepsTies(le, t, x, y);
      }
      SortIsSorted(le, s);
      SortIsSorted(le, t);
      ReorderingKeepsNoRepeats(s, Sort(le, s));
      ReorderingKeepsNoRepeats(t, Sort(le, t));
      SortedAgreeing(le, Sort(le, s), Sort(le, t));
    }
  }

  // ---- Sorting by what is computed from each element ----

  function Image<A, B>(f: A -> B, s: seq<A>): seq<B> { seq(|s|, i requires 0 <= i < |s| => f(s[i])) }

  ghost predicate SameOrder<A(!new), B(!new)>(le: (A, A) -> bool, ge: (B, B) -> bool, f: A -> B) {
    forall a, b {:trigger le(a, b)} :: le(a, b) <==> ge(f(a), f(b))
  }

  lemma ImageOfFirst<A, B>(f: A -> B, e: A, s: seq<A>)
    ensures Image(f, [e] + s) == [f(e)] + Image(f, s)
  {}

  lemma {:induction false} InsertImage<A(!new), B(!new)>(le: (A, A) -> bool, ge: (B, B) -> bool, f: A -> B, e: A, s: seq<A>)
    requires SameOrder(le, ge, f)
    ensures Image(f, Insert(le, e, s)) == Insert(ge, f(e), Image(f, s))
  {
    if s == [] {
      ImageOfFirst(f, e, s);
      assert Image(f, s) == [];
      assert [e] + s == [e] && [f(e)] + Image(f, s) == [f(e)];
    } else {
      var rest := s[1..];
      assert s == [s[0]] + rest;
      ImageOfFirst(f, s[0], rest);
      assert Image(f, s)[1..] == Image(f, rest);
      assert le(e, s[0]) <==> ge(f(e), f(s[0]));
      if le(e, s[0]) {
        ImageOfFirst(f, e, s);
      } else {
        InsertImage(le, ge, f, e, rest);
        ImageOfFirst(f, s[0], Insert(le, e, rest));
      }
    }
  }

  lemma {:induction false} SortImage<A(!new), B(!new)>(le: (A, A) -> bool, ge: (B, B) -> bool, f: A -> B, s: seq<A>)
    requires SameOrder(le, ge, f)
    ensures Image(f, Sort(le, s)) == Sort(ge, Image(f, s))
  {
    if s == [] {
      assert Image(f, s) == [];
    } else {
      var rest := s[1..];
      assert s == [s[0]] + rest;
      ImageOfFirst(f, s[0], rest);
      assert Image(f, s)[1..] == Image(f, rest);
      SortImage(le, ge, f, rest);
      InsertImage(le, ge, f, s[0], Sort(le, rest));
    }
  }

  // ---- Strings by code unit ----

  /** JavaScript's default string order, which `sort()` uses. */
  predicate StringLe(a: string, b: string) {
    if a == [] then true
    else if b == [] then false
    else a[0] < b[0] || (a[0] == b[0] && StringLe(a[1..], b[1..]))
  }

  lemma {:induction false} StringLeTotal(a: string, b: string)
    ensures StringLe(a, b) || StringLe(b, a)
    ensures StringLe(a, b) && StringLe(b, a) ==> a == b
  {
    if a != [] && b != [] {
      StringLeTotal(a[1..], b[1..]);
      assert a == [a[0]] + a[1..] && b == [b[0]] + b[1..];
    }
  }

  lemma {:induction false} StringLeTransitive(a: string, b: string, c: string)
    requires StringLe(a, b) && StringLe(b, c)
    ensures StringLe(a, c)
  {
    if a != [] && a[0] == b[0] == c[0] {
      StringLeTransitive(a[1..], b[1..], c[1..]);
    }
  }

  lemma StringLeIsTotalOrder()
    ensures TotalOrder(StringLe)
  {
    forall a, b ensures StringLe(a, b) || StringLe(b, a) { StringLeTotal(a, b); }
    forall a, b | StringLe(a, b) && StringLe(b, a) ensures a == b { StringLeTotal(a, b); }
    forall a, b, c | StringLe(a, b) && StringLe(b, c) ensures StringLe(a, c) { StringLeTransitive(a, b, c); }
  }
}
