/** Lists without repetition, and lists that hold the same elements in another order. */
module Lists {

  predicate NoRepeats<T(==)>(s: seq<T>) { forall i, j :: 0 <= i < j < |s| ==> s[i] != s[j] }

  lemma ConcatAssociates<T>(a: seq<T>, b: seq<T>, c: seq<T>)
    ensures (a + b) + c == a + (b + c)
  {}

  lemma {:induction false} CountWithoutRepeats<T>(s: seq<T>, x: T)
    requires NoRepeats(s)
    ensures multiset(s)[x] == if x in s then 1 else 0
  {
    if s == [] {
      assert multiset(s) == multiset{};
    } else {
      CountWithoutRepeats(s[1..], x);
      assert s == [s[0]] + s[1..];
      assert multiset(s) == multiset{s[0]} + multiset(s[1..]);
    }
  }

  lemma CountedTwice<T>(s: seq<T>, i: nat, j: nat)
    requires i < j < |s| && s[i] == s[j]
    ensures multiset(s)[s[i]] >= 2
  {
    assert s == s[..j] + s[j..];
    assert multiset(s) == multiset(s[..j]) + multiset(s[j..]);
    assert s[..j][i] in multiset(s[..j]) && s[j..][0] in multiset(s[j..]);
  }

  lemma ReorderingKeepsNoRepeats<T>(s: seq<T>, r: seq<T>)
    requires NoRepeats(s) && multiset(s) == multiset(r)
    ensures NoRepeats(r)
  {
    forall i, j | 0 <= i < j < |r| ensures r[i] != r[j] {
      if r[i] == r[j] {
        CountedTwice(r, i, j);
        CountWithoutRepeats(s, r[i]);
      }
    }
  }

  /** Keep the first occurrence of each element. */
  function Dedup<T(==,!new)>(s: seq<T>): (r: seq<T>)
    ensures forall x :: x in r <==> x in s
    ensures NoRepeats(r)
  {
    if s == [] then []
    else
      var init := Dedup(s[..|s| - 1]);
      assert s == s[..|s| - 1] + [s[|s| - 1]];
      if s[|s| - 1] in init then init else init + [s[|s| - 1]]
  }

  function Drop<T>(xs: seq<T>, i: nat): seq<T>
    requires i < |xs|
  {
    xs[..i] + xs[i + 1..]
  }

  /** Where the last element of one list is in a reordering of it. */
  lemma PlaceOfLast<T>(xs: seq<T>, ys: seq<T>) returns (i: nat)
    requires xs != [] && multiset(xs) == multiset(ys)
    ensures i < |ys| == |xs| && ys[i] == xs[|xs| - 1]
    ensures multiset(xs[..|xs| - 1]) == multiset(Drop(ys, i))
  {
    var last := xs[|xs| - 1];
    assert |multiset(xs)| == |multiset(ys)|;
    assert last in xs;
    assert last in multiset(xs);
    i :| 0 <= i < |ys| && ys[i] == last;
    PutBack(ys, i);
    assert xs == xs[..|xs| - 1] + [last];
    assert multiset(xs[..|xs| - 1]) == multiset(xs) - multiset{last};
    assert multiset(Drop(ys, i)) == multiset(ys) - multiset{last};
  }

  lemma PutBack<T>(ys: seq<T>, i: nat)
    requires i < |ys|
    ensures multiset(ys) == multiset(Drop(ys, i)) + multiset{ys[i]}
  {
    assert ys == ys[..i] + [ys[i]] + ys[i + 1..];
  }

  /** Reordering a list reorders what is computed from each element. */
  lemma {:induction false} ImageForgetsOrder<A, B>(a: seq<A>, b: seq<A>, f: A -> B, x: seq<B>, y: seq<B>)
    requires multiset(a) == multiset(b) && |x| == |a| && |y| == |b|
    requires forall i :: 0 <= i < |a| ==> x[i] == f(a[i])
    requires forall i :: 0 <= i < |b| ==> y[i] == f(b[i])
    ensures multiset(x) == multiset(y)
    decreases |a|
  {
    if a == [] {
      assert |multiset(a)| == |multiset(b)|;
    } else {
      var n := |a| - 1;
      var i := PlaceOfLast(a, b);
      ImageForgetsOrder(a[..n], Drop(b, i), f, x[..n], Drop(y, i));
      PutBack(y, i);
      assert x == x[..n] + [x[n]];
    }
  }

  /** Lists without repetition that hold the same elements. */
  lemma SameElements<T>(a: seq<T>, b: seq<T>)
    requires NoRepeats(a) && NoRepeats(b) && forall x :: x in a <==> x in b
    ensures multiset(a) == multiset(b)
  {
    forall x ensures multiset(a)[x] == multiset(b)[x] {
      CountWithoutRepeats(a, x);
      CountWithoutRepeats(b, x);
    }
  }

  // ---- Totals ----

  function Total<T>(xs: seq<T>, f: T -> nat): nat {
    if xs == [] then 0 else Total(xs[..|xs| - 1], f) + f(xs[|xs| - 1])
  }

  lemma {:induction false} TotalWithoutOne<T>(xs: seq<T>, i: nat, f: T -> nat)
    requires i < |xs|
    ensures Total(xs, f) == Total(Drop(xs, i), f) + f(xs[i])
    decreases |xs|
  {
    var n := |xs| - 1;
    var rest := Drop(xs, i);
    if i == n {
      assert rest == xs[..n];
    } else {
      TotalWithoutOne(xs[..n], i, f);
      assert rest[..n - 1] == Drop(xs[..n], i) && rest[n - 1] == xs[n];
    }
  }

  lemma {:induction false} TotalForgetsOrder<T>(a: seq<T>, b: seq<T>, f: T -> nat)
    requires multiset(a) == multiset(b)
    ensures Total(a, f) == Total(b, f)
    decreases |a|
  {
    if a == [] {
      assert |multiset(a)| == |multiset(b)|;
    } else {
      var i := PlaceOfLast(a, b);
      TotalForgetsOrder(a[..|a| - 1], Drop(b, i), f);
      TotalWithoutOne(b, i, f);
    }
  }
}
