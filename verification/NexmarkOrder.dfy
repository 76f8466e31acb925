/**
 The order in which events come out of their groups.  Within a group of `g` the event numbers
 are multiplied by 953, modulo `g`.  As 953 is prime, every event gets an id of its own exactly
 when `g` is not a multiple of 953.
 */
module NexmarkOrder {
  import opened Basics
  import opened NexmarkSource

  // ---------------------------------------------------------------- remainders

  lemma Scaled(d: int, g: nat)
    ensures (d >= 1 ==> d * g >= g) && (d <= 0 ==> d * g <= 0) && (d <= -1 ==> d * g + g <= 0)
  {
  }

  lemma RemainderIs(x: nat, q: nat, r: nat, g: nat)
    requires r < g && x == q * g + r
    ensures x % g == r
  {
    var d := q - x / g;
    assert x / g * g + x % g == x;
    assert d * g == x % g - r;
    Scaled(d, g);
  }

  lemma Distribute(a: int, b: int, c: int, g: int)
    ensures (a + b + c) * g == a * g + b * g + c * g
  {
  }

  lemma Divide(x: nat, g: nat) returns (q: nat, r: nat)
    requires g > 0
    ensures x == q * g + r && r == x % g < g
  {
    q, r := x / g, x % g;
  }

  lemma RemainderAdds(x: nat, y: nat, g: nat)
    requires g > 0
    ensures (x + y) % g == (x % g + y % g) % g
  {
    var q, r := Divide(x, g);
    var q', r' := Divide(y, g);
    var q'', r'' := Divide(r + r', g);
    Distribute(q, q', q'', g);
    RemainderIs(x + y, q + q' + q'', r'', g);
  }

  lemma Quotient(x: nat, g: nat) returns (q: nat)
    requires g > 0 && x % g == 0
    ensures x == q * g
  {
    q := x / g;
  }

  // ---------------------------------------------------------------- 953 is prime

  predicate NoDivisorUpTo(p: nat, d: nat) {
    d < 2 || (p % d != 0 && NoDivisorUpTo(p, d - 1))
  }

  lemma {:induction false} NoDivisor(p: nat, d: nat, k: nat)
    requires NoDivisorUpTo(p, d) && 2 <= k <= d
    ensures p % k != 0
  {
    if k < d {
      NoDivisor(p, d - 1, k);
    }
  }

  ghost predicate Prime(p: nat) {
    p > 1 && forall k :: 1 < k < p ==> p % k != 0
  }

  lemma Products(a: nat, b: nat, c: nat, d: nat)
    requires c <= a && d <= b
    ensures c * d <= a * b
  {
    assert c * d <= a * d <= a * b;
  }

  /** One of two factors is at most the root. */
  lemma SmallFactor(p: nat, k: nat, root: nat)
    requires 1 < k < p && p % k == 0 && p < (root + 1) * (root + 1)
    ensures exists m :: 2 <= m <= root && p % m == 0
  {
    if k <= root {
      assert 2 <= k <= root && p % k == 0;
    } else {
      var q := Quotient(p, k);
      if q > root {
        Products(q, k, root + 1, root + 1);
      } else {
        assert q > 1;
        RemainderIs(p, k, 0, q);
        assert 2 <= q <= root && p % q == 0;
      }
    }
  }

  lemma MultiplierIsPrime()
    ensures Prime(953)
  {
    assert NoDivisorUpTo(953, 10);
    assert NoDivisorUpTo(953, 20);
    assert NoDivisorUpTo(953, 30);
    forall k | 1 < k < 953 ensures 953 % k != 0 {
      if 953 % k == 0 {
        SmallFactor(953, k, 30);
        var m :| 2 <= m <= 30 && 953 % m == 0;
        NoDivisor(953, 30, m);
      }
    }
  }

  lemma Multiple(x: nat, a: int, p: nat)
    requires p > 0 && x == a * p
    ensures x % p == 0
  {
    Scaled(a, p);
    RemainderIs(x, a, 0, p);
  }

  /** A prime that divides a product and not the first factor divides the second. */
  lemma {:induction false} Euclid(p: nat, r: nat, s: nat)
    requires Prime(p) && 0 < r < p && r * s % p == 0
    ensures s % p == 0
    decreases r
  {
    if r > 1 {
      var q, t := p / r, p % r;
      Descend(p, r, s, q, t);
      Euclid(p, t, s);
    }
  }

  lemma Descend(p: nat, r: nat, s: nat, q: nat, t: nat)
    requires p > 0 && p == q * r + t && r * s % p == 0
    ensures t * s % p == 0
  {
    var m := Quotient(r * s, p);
    assert p * s == q * (r * s) + t * s;
    assert t * s == (s - q * m) * p;
    Multiple(t * s, s - q * m, p);
  }

  // ---------------------------------------------------------------- the ids

  /** Where the id of event number `e` lies in its group. */
  function Offset(e: nat, g: nat): nat
    requires g > 0
  {
    Adjusted(e, g) - (e - e % g)
  }

  /** Event number 1 goes to place 953 of its group, if there is one. */
  lemma FirstOffset(e: nat, g: nat)
    requires e == 1 && g > 953
    ensures Adjusted(e, g) == 953
  {
    RemainderIs(1, 0, 1, g);
    RemainderIs(953, 0, 953, g);
  }

  /** And offsets add up, modulo the size of the group. */
  lemma OffsetsAdd(a: nat, b: nat, g: nat)
    requires g > 0
    ensures Offset(a + b, g) == (Offset(a, g) + Offset(b, g)) % g
  {
    assert (a + b) * 953 == a * 953 + b * 953;
    RemainderAdds(a * 953, b * 953, g);
  }

  /** A distance that is a multiple of the group's size when multiplied by 953 ... */
  lemma Distance(a: nat, b: nat, g: nat) returns (m: nat)
    requires g > 0 && a < b && a * 953 % g == b * 953 % g
    ensures 953 * (b - a) == m * g && m > 0
  {
    var x, y := a * 953, b * 953;
    assert x == x / g * g + x % g && y == y / g * g + y % g;
    var d := y / g - x / g;
    assert d * g == y - x == 953 * (b - a);
    Scaled(d, g);
    m := d;
  }

  /** ... is one itself. */
  lemma DistanceIsLong(d: nat, m: nat, g: nat)
    requires g % 953 != 0 && 953 * d == m * g && m > 0
    ensures d >= g
  {
    var r, k := g % 953, g / 953;
    assert g == k * 953 + r;
    assert r * m == (d - k * m) * 953;
    Multiple(r * m, d - k * m, 953);
    MultiplierIsPrime();
    Euclid(953, r, m);
    var u := Quotient(m, 953);
    assert d == u * g;
    assert u >= 1;
  }

  lemma OffsetOfId(e: nat, g: nat)
    requires g > 0
    ensures e * 953 % g == Adjusted(e, g) % g
  {
    var q, r := Divide(e, g);
    RemainderIs(Adjusted(e, g), q, e * 953 % g, g);
  }

  lemma SameGroup(a: nat, b: nat, g: nat)
    requires g > 0 && Adjusted(a, g) == Adjusted(b, g)
    ensures a - a % g == b - b % g && a * 953 % g == b * 953 % g
  {
    OffsetOfId(a, g);
    OffsetOfId(b, g);
  }

  lemma OneEach(a: nat, b: nat, g: nat)
    requires g > 0 && g % 953 != 0 && a < b
    ensures Adjusted(a, g) != Adjusted(b, g)
  {
    if Adjusted(a, g) == Adjusted(b, g) {
      SameGroup(a, b, g);
      var m := Distance(a, b, g);
      DistanceIsLong(b - a, m, g);
    }
  }

  /** In groups of a multiple of 953, the first event shares its id with another one. */
  lemma Collision(g: nat) returns (e: nat)
    requires g > 0 && g % 953 == 0
    ensures e > 0 && Adjusted(e, g) == Adjusted(0, g)
  {
    e := Quotient(g, 953);
    assert e > 0;
    RemainderIs(e, 0, e, g);
    RemainderIs(e * 953, 1, 0, g);
    RemainderIs(0, 0, 0, g);
  }

  ghost predicate IdsDistinct(g: nat)
    requires g > 0
  {
    forall a: nat, b: nat :: a != b ==> Adjusted(a, g) != Adjusted(b, g)
  }

  /** Every event has an id of its own exactly when the groups' size is not a multiple of 953. */
  lemma DistinctExactly(g: nat)
    requires g > 0
    ensures IdsDistinct(g) <==> g % 953 != 0
  {
    if g % 953 == 0 {
      var e := Collision(g);
    } else {
      forall a: nat, b: nat | a != b ensures Adjusted(a, g) != Adjusted(b, g) {
        OneEach(if a < b then a else b, if a < b then b else a, g);
      }
    }
  }

  // ---------------------------------------------------------------- every id once

  ghost function Numbers(n: nat): (r: set<nat>)
    ensures forall e: nat :: e in r <==> e < n
  {
    if n == 0 then {} else Numbers(n - 1) + {n - 1}
  }

  lemma {:induction false} HowMany(n: nat)
    ensures |Numbers(n)| == n
  {
    if n > 0 {
      HowMany(n - 1);
    }
  }

  ghost function Image(n: nat, f: nat -> nat): set<nat> {
    set e: nat | e < n :: f(e)
  }

  lemma {:induction false} ImageSize(n: nat, f: nat -> nat)
    requires forall a: nat, b: nat :: a != b ==> f(a) != f(b)
    ensures |Image(n, f)| == n
  {
    if n > 0 {
      ImageSize(n - 1, f);
      assert Image(n, f) == Image(n - 1, f) + {f(n - 1)};
      assert f(n - 1) !in Image(n - 1, f);
    }
  }

  /** An injection of the numbers below `n` into themselves meets them all. */
  lemma Onto(n: nat, f: nat -> nat, id: nat) returns (k: nat)
    requires forall a: nat, b: nat :: a != b ==> f(a) != f(b)
    requires (forall e: nat :: e < n ==> f(e) < n) && id < n
    ensures k < n && f(k) == id
  {
    ImageSize(n, f);
    HowMany(n);
    SubsetSize(Image(n, f), Numbers(n));
    assert id in Image(n, f);
    k :| k < n && f(k) == id;
  }

  /** With whole groups of such a size, the events of the source are a permutation: every id
      below the maximum comes out exactly once. */
  lemma EveryIdOnce(maxEvents: nat, g: nat, id: nat) returns (k: nat)
    requires g > 0 && g % 953 != 0 && maxEvents % g == 0 && id < maxEvents
    ensures k < maxEvents && InOrder(maxEvents, g)[k] == id
    ensures forall m :: 0 <= m < maxEvents && InOrder(maxEvents, g)[m] == id ==> m == k
  {
    DistinctExactly(g);
    forall e: nat | e < maxEvents ensures Adjusted(e, g) < maxEvents {
      WholeGroups(e, maxEvents, g);
    }
    k := Onto(maxEvents, e => Adjusted(e, g), id);
  }
}
