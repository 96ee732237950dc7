/** Facts about finite sets used by several proofs. */
module Sets {

  lemma Pick<T>(s: set<T>) returns (x: T)
    requires s != {}
    ensures x in s
  {
    x :| x in s;
  }

  lemma {:induction false} SubsetSize<T>(a: set<T>, b: set<T>)
    requires a <= b
    ensures |a| <= |b|
  {
    if a != {} {
      var x := Pick(a);
      SubsetSize(a - {x}, b - {x});
    }
  }

  /** A subset as large as the whole is the whole. */
  lemma FullSubset<T>(a: set<T>, b: set<T>)
    requires a <= b && |a| == |b|
    ensures a == b
  {
    if x :| x in b && x !in a {
      SubsetSize(a, b - {x});
    }
  }

  lemma {:induction false} Least(ids: set<int>) returns (least: int)
    requires ids != {}
    ensures least in ids && forall k | k in ids :: least <= k
  {
    var x := Pick(ids);
    least := x;
    if ids != {x} {
      var y := Least(ids - {x});
      least := if x < y then x else y;
      forall k | k in ids ensures least <= k {
        assert k == x || k in ids - {x};
      }
    }
  }

  lemma Greatest(ids: set<int>)
    requires ids != {}
    ensures exists last :: last in ids && forall k | k in ids :: k <= last
  {
    var negated := set k | k in ids :: -k;
    var some := Pick(ids);
    assert -some in negated;
    var least := Least(negated);
    forall k | k in ids ensures k <= -least {
      assert -k in negated;
    }
    assert -least in ids;
  }
}
