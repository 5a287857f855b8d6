/** Comparing quotients, products and sums of reals. */
module Reals {
  import opened Lists

  lemma ProductKeepsOrder(a: real, b: real, y: real)
    requires y > 0.0
    ensures a <= b <==> a * y <= b * y
  {
    assert (b - a) * y == b * y - a * y;
    if a <= b { assert (b - a) * y >= 0.0; } else { assert (a - b) * y > 0.0; }
  }

  lemma QuotientAtMost(x: real, y: real, c: real)
    requires y > 0.0
    ensures x / y <= c <==> x <= c * y
  {
    assert (x / y) * y == x;
    ProductKeepsOrder(x / y, c, y);
  }

  lemma QuotientAtLeast(x: real, y: real, c: real)
    requires y > 0.0
    ensures c <= x / y <==> c * y <= x
  {
    assert (x / y) * y == x;
    ProductKeepsOrder(c, x / y, y);
  }

  lemma Distribute(a: real, x: real, y: real)
    ensures a * (x + y) == a * x + a * y
  {}

  lemma QuotientsKeepOrder(p: real, q: real, y: real)
    requires y > 0.0 && p <= q
    ensures p / y <= q / y
  {
    assert (q / y) * y == q;
    QuotientAtMost(p, y, q / y);
  }

  /** A share of a whole. */
  lemma Share(x: real, y: real)
    requires y > 0.0 && 0.0 <= x <= y
    ensures 0.0 <= x / y <= 1.0
    ensures x / y == 1.0 <==> x == y
  {
    QuotientAtLeast(x, y, 0.0);
    QuotientAtMost(x, y, 1.0);
    QuotientAtLeast(x, y, 1.0);
  }

  lemma QuotientLies(p: real, w: real, low: real, high: real)
    requires w > 0.0 && low * w <= p <= high * w
    ensures low <= p / w <= high
  {
    QuotientAtLeast(p, w, low);
    QuotientAtMost(p, w, high);
  }

  // ---- Two shares of one whole ----

  lemma TwoShares(a: real, b: real, n: real, p: real, q: real)
    requires a + b >= 1.0 && n >= 0.0 && p == a * n && q == b * n
    ensures p + q >= n
  {
    var c := a + b;
    Distribute(n, a, b);
    assert p + q == n * c;
    if n > 0.0 { ProductKeepsOrder(1.0, c, n); }
  }

  lemma RestIsSmall(x: real, y: real, n: real, p: real, q: real)
    requires x + y <= n && y > q && p + q >= n
    ensures x < p
  {}

  lemma SharesExceed(a: real, b: real, n: real, x: real, y: real)
    requires a + b >= 1.0 && n >= 0.0 && x + y <= n && y > b * n
    ensures x < a * n
  {
    var p, q := a * n, b * n;
    TwoShares(a, b, n, p, q);
    RestIsSmall(x, y, n, p, q);
  }

  lemma NextWhole(low: real, d: real, n: real)
    requires 0.0 <= low && low + d <= 1.0 && n > 0.0 && d * n > 1.0
    ensures 0 <= (low * n).Floor && low * n < ((low * n).Floor + 1) as real <= (low + d) * n <= n
  {
    Distribute(n, low, d);
    ProductKeepsOrder(low + d, 1.0, n);
    ProductKeepsOrder(0.0, low, n);
  }

  lemma InverseIsPositive(d: real)
    requires d > 0.0
    ensures 1.0 / d > 0.0
  {
    QuotientAtMost(1.0, d, 0.0);
  }

  lemma AboveTheInverse(d: real, m: real)
    requires d > 0.0 && m > 1.0 / d
    ensures d * m > 1.0
  {
    QuotientAtLeast(1.0, d, m);
  }

  lemma WholeAbove(x: real) returns (n: nat, m: real)
    requires x > 0.0
    ensures n > 0 && m == n as real && m > x
  {
    n := x.Floor + 1;
    m := n as real;
  }

  lemma WholeBetween(low: real, d: real) returns (n: nat, k: nat, m: real)
    requires 0.0 <= low && low + d <= 1.0 && d > 0.0
    ensures 0 < n && m == n as real && k <= n && low * m < k as real <= (low + d) * m
  {
    InverseIsPositive(d);
    n, m := WholeAbove(1.0 / d);
    AboveTheInverse(d, m);
    NextWhole(low, d, m);
    k := (low * m).Floor + 1;
  }

  lemma SameProduct(a: real, b: real, m: real)
    requires a == b
    ensures a * m == b * m
  {}

  lemma Complement(a: real, m: real)
    ensures a * m + (1.0 - a) * m == m
  {
    var b := 1.0 - a;
    Distribute(m, a, b);
    SameProduct(a + b, 1.0, m);
  }

  /** A whole number split so that one part is more than one rate of it and the other at least another. */
  lemma SplitByRates(low: real, least: real) returns (n: nat, k: nat, m: real)
    requires 0.0 <= low && 0.0 <= least && low + least < 1.0
    ensures 0 < n && m == n as real && k <= n
    ensures low * m < k as real && least * m <= m - k as real
  {
    var d := 1.0 - least - low;
    n, k, m := WholeBetween(low, d);
    SameProduct(low + d, 1.0 - least, m);
    Complement(least, m);
  }

  // ---- Sums ----

  function Sum(xs: seq<real>): real {
    if xs == [] then 0.0 else Sum(xs[..|xs| - 1]) + xs[|xs| - 1]
  }

  lemma SumOfOneMore(xs: seq<real>, x: real)
    ensures Sum(xs + [x]) == Sum(xs) + x
  {
    assert (xs + [x])[..|xs|] == xs;
  }

  predicate Between(low: real, w: real, p: real, high: real) { low * w <= p <= high * w }

  predicate AllBetween(low: real, ws: seq<real>, ps: seq<real>, high: real) {
    |ws| == |ps| && forall i :: 0 <= i < |ws| ==> Between(low, ws[i], ps[i], high)
  }

  lemma BetweenSum(low: real, w: real, p: real, v: real, q: real, high: real)
    requires Between(low, w, p, high) && Between(low, v, q, high)
    ensures Between(low, w + v, p + q, high)
  {
    Distribute(low, w, v);
    Distribute(high, w, v);
  }

  lemma {:induction false} SumBetween(low: real, ws: seq<real>, ps: seq<real>, high: real)
    requires AllBetween(low, ws, ps, high)
    ensures Between(low, Sum(ws), Sum(ps), high)
  {
    if ws != [] {
      var n := |ws| - 1;
      SumBetween(low, ws[..n], ps[..n], high);
      BetweenSum(low, Sum(ws[..n]), Sum(ps[..n]), ws[n], ps[n], high);
    }
  }

  lemma {:induction false} SumKeepsOrder(ps: seq<real>, qs: seq<real>)
    requires |ps| == |qs| && forall i :: 0 <= i < |ps| ==> ps[i] <= qs[i]
    ensures Sum(ps) <= Sum(qs)
  {
    if ps != [] { SumKeepsOrder(ps[..|ps| - 1], qs[..|qs| - 1]); }
  }

  lemma {:induction false} SumSign(ws: seq<real>)
    requires forall i :: 0 <= i < |ws| ==> ws[i] >= 0.0
    ensures Sum(ws) >= 0.0
    ensures Sum(ws) > 0.0 <==> exists i :: 0 <= i < |ws| && ws[i] > 0.0
  {
    if ws != [] {
      var front := ws[..|ws| - 1];
      SumSign(front);
      assert forall i :: 0 <= i < |front| ==> front[i] == ws[i];
    }
  }

  lemma {:induction false} SumWithoutOne(xs: seq<real>, i: nat)
    requires i < |xs|
    ensures Sum(xs) == Sum(Drop(xs, i)) + xs[i]
    decreases |xs|
  {
    var n := |xs| - 1;
    var rest := Drop(xs, i);
    if i == n {
      assert rest == xs[..n];
    } else {
      SumWithoutOne(xs[..n], i);
      assert rest[..n - 1] == Drop(xs[..n], i) && rest[n - 1] == xs[n];
    }
  }

  lemma {:induction false} SumForgetsOrder(xs: seq<real>, ys: seq<real>)
    requires multiset(xs) == multiset(ys)
    ensures Sum(xs) == Sum(ys)
    decreases |xs|
  {
    if xs == [] {
      assert |multiset(xs)| == |multiset(ys)|;
    } else {
      var i := PlaceOfLast(xs, ys);
      SumForgetsOrder(xs[..|xs| - 1], Drop(ys, i));
      SumWithoutOne(ys, i);
    }
  }
}
