/**
 Z-sets and the operators that recursive query plans are made of.  A Z-set is a list of
 weighted elements; an element may occur several times and its weights add up.
 */
module ZSets {

  type ZSet<T> = seq<(T, int)>

  ghost predicate Has<T>(z: ZSet<T>, t: T) {
    exists i :: 0 <= i < |z| && z[i].0 == t
  }

  ghost predicate Positive<T>(z: ZSet<T>) {
    forall i :: 0 <= i < |z| ==> z[i].1 > 0
  }

  function Weight<T(==)>(z: ZSet<T>, t: T): int {
    if z == [] then 0 else Weight(z[..|z| - 1], t) + if z[|z| - 1].0 == t then z[|z| - 1].1 else 0
  }

  /** The `distinct` operator: every element of positive weight, once. */
  function Distinct<T(==)>(z: ZSet<T>): set<T> {
    set i | 0 <= i < |z| && Weight(z, z[i].0) > 0 :: z[i].0
  }

  /** `map` and `index_with` */
  function MapZ<T, U>(z: ZSet<T>, f: T -> U): ZSet<U> {
    seq(|z|, i requires 0 <= i < |z| => (f(z[i].0), z[i].1))
  }

  /** `plus` and `sum` */
  function Plus<T>(a: ZSet<T>, b: ZSet<T>): ZSet<T> {
    a + b
  }

  function JoinOne<K(==), V, W, R>(k: K, v: V, weight: int, b: ZSet<(K, W)>, f: (K, V, W) -> R): ZSet<R> {
    if b == [] then []
    else
      var rest := JoinOne(k, v, weight, b[..|b| - 1], f);
      var ((k', w), weight') := b[|b| - 1];
      if k' == k then rest + [(f(k, v, w), weight * weight')] else rest
  }

  /** `join` and `join_index` of two indexed Z-sets: weights multiply. */
  function Join<K(==), V, W, R>(a: ZSet<(K, V)>, b: ZSet<(K, W)>, f: (K, V, W) -> R): ZSet<R> {
    if a == [] then []
    else
      var ((k, v), weight) := a[|a| - 1];
      Join(a[..|a| - 1], b, f) + JoinOne(k, v, weight, b, f)
  }

  // ---------------------------------------------------------------- weights

  /** `plus` adds weights. */
  lemma {:induction false} WeightAppend<T>(a: ZSet<T>, b: ZSet<T>, t: T)
    ensures Weight(a + b, t) == Weight(a, t) + Weight(b, t)
    decreases |b|
  {
    if b == [] {
      assert a + b == a;
    } else {
      assert (a + b)[..|a + b| - 1] == a + b[..|b| - 1];
      WeightAppend(a, b[..|b| - 1], t);
    }
  }

  /** `map` under a function that keeps elements apart keeps their weights. */
  lemma {:induction false} MapWeight<T(!new), U>(z: ZSet<T>, f: T -> U, t: T)
    requires forall t, t' :: f(t) == f(t') ==> t == t'
    ensures Weight(MapZ(z, f), f(t)) == Weight(z, t)
  {
    if z != [] {
      MapWeight(z[..|z| - 1], f, t);
      assert MapZ(z, f)[..|z| - 1] == MapZ(z[..|z| - 1], f);
    }
  }

  function Triple<K, V, W>(k: K, v: V, w: W): (K, V, W) {
    (k, v, w)
  }

  lemma {:induction false} JoinOneWeight<K, V, W>(k: K, v: V, weight: int, b: ZSet<(K, W)>, k': K, v': V, w: W)
    ensures Weight(JoinOne(k, v, weight, b, Triple), (k', v', w)) ==
            (if k == k' && v == v' then weight else 0) * Weight(b, (k', w))
  {
    if b != [] {
      var init := b[..|b| - 1];
      var ((key, w'), weight') := b[|b| - 1];
      JoinOneWeight(k, v, weight, init, k', v', w);
      if key == k {
        WeightSnoc(JoinOne(k, v, weight, init, Triple), (k, v, w'), weight * weight', (k', v', w));
      }
      Distribute(weight, Weight(init, (k', w)), weight');
    }
  }

  lemma Distribute(x: int, y: int, z: int)
    ensures x * (y + z) == x * y + x * z && (y + z) * x == y * x + z * x
  {
  }

  lemma WeightSnoc<T>(z: ZSet<T>, t: T, weight: int, u: T)
    ensures Weight(z + [(t, weight)], u) == Weight(z, u) + if t == u then weight else 0
  {
    assert (z + [(t, weight)])[..|z|] == z;
  }

  /** `join` multiplies weights. */
  lemma {:induction false} JoinWeight<K, V, W>(a: ZSet<(K, V)>, b: ZSet<(K, W)>, k: K, v: V, w: W)
    ensures Weight(Join(a, b, Triple), (k, v, w)) == Weight(a, (k, v)) * Weight(b, (k, w))
  {
    if a != [] {
      var init := a[..|a| - 1];
      var ((k', v'), weight) := a[|a| - 1];
      JoinWeight(init, b, k, v, w);
      JoinOneWeight(k', v', weight, b, k, v, w);
      WeightAppend(Join(init, b, Triple), JoinOne(k', v', weight, b, Triple), (k, v, w));
      Distribute(Weight(b, (k, w)), Weight(init, (k, v)), if k == k' && v == v' then weight else 0);
    }
  }

  // ---------------------------------------------------------------- support

  lemma HasAppend<T>(a: ZSet<T>, b: ZSet<T>, t: T)
    ensures Has(a + b, t) <==> Has(a, t) || Has(b, t)
  {
    if Has(a, t) {
      var i :| 0 <= i < |a| && a[i].0 == t;
      assert (a + b)[i].0 == t;
    }
    if Has(b, t) {
      var i :| 0 <= i < |b| && b[i].0 == t;
      assert (a + b)[|a| + i].0 == t;
    }
  }

  lemma HasMap<T, U>(z: ZSet<T>, f: T -> U, u: U)
    ensures Has(MapZ(z, f), u) <==> exists t :: Has(z, t) && f(t) == u
  {
    if Has(MapZ(z, f), u) {
      var i :| 0 <= i < |z| && MapZ(z, f)[i].0 == u;
      assert Has(z, z[i].0) && f(z[i].0) == u;
    }
    if t :| Has(z, t) && f(t) == u {
      var i :| 0 <= i < |z| && z[i].0 == t;
      assert MapZ(z, f)[i].0 == u;
    }
  }

  lemma {:induction false} HasJoinOne<K, V, W, R>(k: K, v: V, weight: int, b: ZSet<(K, W)>, f: (K, V, W) -> R, r: R)
    ensures Has(JoinOne(k, v, weight, b, f), r) <==> exists w :: Has(b, (k, w)) && f(k, v, w) == r
  {
    if b != [] {
      var init, last := b[..|b| - 1], b[|b| - 1];
      assert b == init + [last];
      HasJoinOne(k, v, weight, init, f, r);
      var rest := JoinOne(k, v, weight, init, f);
      forall w ensures Has(b, (k, w)) <==> Has(init, (k, w)) || last.0 == (k, w) {
        HasAppend(init, [last], (k, w));
        assert [last][0] == last;
      }
      if last.0.0 == k {
        var added := [(f(k, v, last.0.1), weight * last.1)];
        HasAppend(rest, added, r);
        assert added[0].0 == f(k, v, last.0.1);
        assert Has(added, r) <==> f(k, v, last.0.1) == r;
        assert last.0 == (k, last.0.1);
      }
    }
  }

  /** A join holds exactly the combinations that agree on the key. */
  lemma {:induction false} HasJoin<K, V, W, R>(a: ZSet<(K, V)>, b: ZSet<(K, W)>, f: (K, V, W) -> R, r: R)
    ensures Has(Join(a, b, f), r) <==> exists k, v, w :: Has(a, (k, v)) && Has(b, (k, w)) && f(k, v, w) == r
  {
    if a != [] {
      var init, last := a[..|a| - 1], a[|a| - 1];
      assert a == init + [last];
      var ((k', v'), weight) := last;
      HasJoin(init, b, f, r);
      HasJoinOne(k', v', weight, b, f, r);
      HasAppend(Join(init, b, f), JoinOne(k', v', weight, b, f), r);
      forall k, v ensures Has(a, (k, v)) <==> Has(init, (k, v)) || (k == k' && v == v') {
        HasAppend(init, [last], (k, v));
        assert [last][0] == last;
      }
      if w :| Has(b, (k', w)) && f(k', v', w) == r {
        assert Has(a, (k', v'));
      }
    }
  }

  lemma {:induction false} PositiveJoinOne<K, V, W, R>(k: K, v: V, weight: int, b: ZSet<(K, W)>, f: (K, V, W) -> R)
    requires weight > 0 && Positive(b)
    ensures Positive(JoinOne(k, v, weight, b, f))
  {
    if b != [] {
      PositiveJoinOne(k, v, weight, b[..|b| - 1], f);
      assert b[|b| - 1].1 > 0;
      assert weight * b[|b| - 1].1 > 0;
    }
  }

  lemma {:induction false} PositiveJoin<K, V, W, R>(a: ZSet<(K, V)>, b: ZSet<(K, W)>, f: (K, V, W) -> R)
    requires Positive(a) && Positive(b)
    ensures Positive(Join(a, b, f))
  {
    if a != [] {
      var ((k, v), weight) := a[|a| - 1];
      PositiveJoin(a[..|a| - 1], b, f);
      assert a[|a| - 1].1 > 0;
      PositiveJoinOne(k, v, weight, b, f);
    }
  }

  lemma {:induction false} WeightPositive<T>(z: ZSet<T>, t: T)
    requires Positive(z)
    ensures Weight(z, t) >= 0 && (Has(z, t) <==> Weight(z, t) > 0)
  {
    if z != [] {
      var init, last := z[..|z| - 1], z[|z| - 1];
      assert z == init + [last];
      WeightPositive(init, t);
      HasAppend(init, [last], t);
      assert [last][0] == last && z[|z| - 1].1 > 0;
    }
  }

  lemma {:induction false} WeightMeansPresent<T>(z: ZSet<T>, t: T)
    requires Weight(z, t) != 0
    ensures Has(z, t)
  {
    var init, last := z[..|z| - 1], z[|z| - 1];
    assert z == init + [last];
    HasAppend(init, [last], t);
    if last.0 == t {
      assert [last][0].0 == t;
    } else {
      WeightMeansPresent(init, t);
    }
  }

  /** `distinct` keeps exactly the elements whose weights add up to something positive. */
  lemma DistinctExactly<T>(z: ZSet<T>, t: T)
    ensures t in Distinct(z) <==> Weight(z, t) > 0
  {
    if Weight(z, t) > 0 {
      WeightMeansPresent(z, t);
      var i :| 0 <= i < |z| && z[i].0 == t;
      assert z[i].0 in Distinct(z);
    }
  }

  /** On positive weights, `distinct` keeps every element. */
  lemma DistinctPositive<T>(z: ZSet<T>, t: T)
    requires Positive(z)
    ensures t in Distinct(z) <==> Has(z, t)
  {
    WeightPositive(z, t);
    if Has(z, t) {
      var i :| 0 <= i < |z| && z[i].0 == t;
      assert z[i].0 in Distinct(z);
    }
  }

  /** A set as a Z-set: what `distinct` puts on its output stream. */
  ghost function Listing<T(!new)>(s: set<T>): (z: ZSet<T>)
    ensures Positive(z) && forall t :: Has(z, t) <==> t in s
  {
    if s == {} then []
    else
      var t :| t in s;
      var rest := Listing(s - {t});
      var z := rest + [(t, 1)];
      assert forall u :: Has(z, u) <==> Has(rest, u) || u == t by {
        forall u ensures Has(z, u) <==> Has(rest, u) || u == t {
          HasAppend(rest, [(t, 1)], u);
          assert [(t, 1)][0].0 == t;
        }
      }
      z
  }
}
