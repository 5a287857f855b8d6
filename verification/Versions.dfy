/** Finite sets of version numbers: the greatest one, and all of them newest first. */
module Versions {

  ghost predicate IsMax(s: set<nat>, m: nat) {
    m in s && forall v: nat :: v in s ==> v <= m
  }

  lemma MaxExists(s: set<nat>)
    requires s != {}
    ensures exists m: nat :: IsMax(s, m)
  {
    var x: nat :| x in s;
    if s == {x} {
      assert IsMax(s, x);
    } else {
      MaxExists(s - {x});
      var m: nat :| IsMax(s - {x}, m);
      forall v: nat | v in s ensures v <= (if x > m then x else m) {
        assert v == x || v in s - {x};
      }
      assert IsMax(s, if x > m then x else m);
    }
  }

  function MaxOf(s: set<nat>): (m: nat)
    ensures s == {} ==> m == 0
    ensures s != {} ==> IsMax(s, m)
  {
    if s == {} then 0
    else
      MaxExists(s);
      assert exists m: nat :: m in s && forall v: nat :: v in s ==> v <= m by {
        var m: nat :| IsMax(s, m);
      }
      var m: nat :| m in s && forall v: nat :: v in s ==> v <= m;
      m
  }

  ghost predicate Descending(r: seq<nat>) {
    forall i, j :: 0 <= i < j < |r| ==> r[i] > r[j]
  }

  /** The versions a query ordered by version descending returns. */
  function NewestFirst(s: set<nat>): (r: seq<nat>)
    ensures forall v: nat :: v in r <==> v in s
    ensures Descending(r)
    decreases |s|
  {
    if s == {} then []
    else
      var m := MaxOf(s);
      var rest := NewestFirst(s - {m});
      assert forall i :: 0 <= i < |rest| ==> rest[i] < m by {
        forall i | 0 <= i < |rest| ensures rest[i] < m {
          assert rest[i] in rest;
          assert rest[i] in s - {m};
        }
      }
      [m] + rest
  }
}
