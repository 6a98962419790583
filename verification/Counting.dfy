/** Counting the entries of a map that satisfy a condition. */
module Counting {

  ghost function Where<K, V>(m: map<K, V>, p: V -> bool): set<K> {
    set k | k in m && p(m[k])
  }

  ghost function Count<K, V>(m: map<K, V>, p: V -> bool): nat {
    |Where(m, p)|
  }

  lemma CountUpdate<K, V>(m: map<K, V>, k: K, v: V, p: V -> bool)
    ensures Count(m[k := v], p)
         == Count(m, p) - (if k in m && p(m[k]) then 1 else 0) + (if p(v) then 1 else 0)
  {
    var before, after := Where(m, p), Where(m[k := v], p);
    if p(v) {
      assert after == before + {k};
    } else {
      assert after == before - {k};
    }
  }

  lemma CountRemove<K, V>(m: map<K, V>, k: K, p: V -> bool)
    ensures Count(m - {k}, p) == Count(m, p) - (if k in m && p(m[k]) then 1 else 0)
  {
    assert Where(m - {k}, p) == Where(m, p) - {k};
  }

  lemma CountBound<K, V>(m: map<K, V>, p: V -> bool)
    ensures Count(m, p) <= |m|
  {
    SubsetSize(Where(m, p), m.Keys);
  }

  lemma {:induction false} SubsetSize<T>(a: set<T>, b: set<T>)
    requires a <= b
    ensures |a| <= |b|
    decreases a
  {
    if a != {} {
      var x :| x in a;
      SubsetSize(a - {x}, b - {x});
    }
  }

  lemma CountZero<K, V>(m: map<K, V>, p: V -> bool)
    ensures Count(m, p) == 0 <==> forall k :: k in m ==> !p(m[k])
  {
    if Count(m, p) == 0 {
      forall k | k in m ensures !p(m[k]) {
        assert k !in Where(m, p);
      }
    } else {
      var k :| k in Where(m, p);
    }
  }
}
