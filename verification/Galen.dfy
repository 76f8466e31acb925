/**
 The Galen benchmark: six Datalog rules, implemented as indexed joins under a fixed point.
 */
module Galen {
  import opened Basics
  import opened ZSets

  type Id = int
  type Pair = (Id, Id)
  type Triple = (Id, Id, Id)

  /** The relations read from files.  A file lists tuples, each with weight one. */
  datatype Inputs = Inputs(
    p: ZSet<Pair>, q: ZSet<Triple>, r: ZSet<Triple>, c: ZSet<Triple>, u: ZSet<Triple>, s: ZSet<Pair>)
  {
    ghost predicate Valid() {
      Positive(p) && Positive(q) && Positive(r) && Positive(c) && Positive(u) && Positive(s)
    }
  }

  /** The two recursive relations. */
  datatype Db = Db(p: set<Pair>, q: set<Triple>)
  {
    predicate Below(that: Db) {
      p <= that.p && q <= that.q
    }
  }

  // ---------------------------------------------------------------- the rules

  ghost predicate Rule1(d: Db, x: Id, z: Id) {
    exists y :: (x, y) in d.p && (y, z) in d.p
  }

  ghost predicate Rule2(i: Inputs, d: Db, x: Id, z: Id) {
    exists y, w, r :: (y, w) in d.p && Has(i.u, (w, r, z)) && (x, r, y) in d.q
  }

  ghost predicate Rule3(i: Inputs, d: Db, x: Id, z: Id) {
    exists y, w :: Has(i.c, (y, w, z)) && (x, w) in d.p && (x, y) in d.p
  }

  ghost predicate Rule4(d: Db, x: Id, r: Id, z: Id) {
    exists y :: (x, y) in d.p && (y, r, z) in d.q
  }

  ghost predicate Rule5(i: Inputs, d: Db, x: Id, q: Id, z: Id) {
    exists r :: (x, r, z) in d.q && Has(i.s, (r, q))
  }

  ghost predicate Rule6(i: Inputs, d: Db, x: Id, e: Id, o: Id) {
    exists y, z, u :: (x, y, z) in d.q && Has(i.r, (y, u, e)) && (z, u, o) in d.q
  }

  /** `(x, z)` is given or follows from `d` by one of the three rules for `p`. */
  ghost predicate FollowsP(i: Inputs, d: Db, x: Id, z: Id) {
    Has(i.p, (x, z)) || Rule1(d, x, z) || Rule2(i, d, x, z) || Rule3(i, d, x, z)
  }

  ghost predicate FollowsQ(i: Inputs, d: Db, x: Id, y: Id, z: Id) {
    Has(i.q, (x, y, z)) || Rule4(d, x, y, z) || Rule5(i, d, x, y, z) || Rule6(i, d, x, y, z)
  }

  /** `d` contains the given tuples and is closed under all six rules. */
  ghost predicate Model(i: Inputs, d: Db) {
    && (forall x, z :: FollowsP(i, d, x, z) ==> (x, z) in d.p)
    && (forall x, y, z :: FollowsQ(i, d, x, y, z) ==> (x, y, z) in d.q)
  }

  // ---------------------------------------------------------------- the plan

  // The closures passed to `index_with`, `join` and `join_index`.
  function Swap(t: Pair): Pair { (t.1, t.0) }
  function Both(t: Pair): (Pair, ()) { ((t.0, t.1), ()) }
  function Key1(t: Triple): (Id, (Id, Id)) { (t.0, (t.1, t.2)) }
  function Key2(t: Triple): (Id, (Id, Id)) { (t.1, (t.0, t.2)) }
  function Key12(t: Triple): (Pair, Id) { ((t.0, t.1), t.2) }
  function Key23(t: Triple): (Pair, Id) { ((t.1, t.2), t.0) }
  function On1(y: Id, x: Id, z: Id): Pair { (x, z) }
  function On2(y: Id, x: Id, rz: (Id, Id)): Triple { (x, rz.0, rz.1) }
  function On3a(w: Id, y: Id, rz: (Id, Id)): (Pair, Id) { ((rz.0, y), rz.1) }
  function On3b(ry: Pair, z: Id, x: Id): Pair { (x, z) }
  function On4a(w: Id, yz: (Id, Id), x: Id): (Pair, Id) { ((x, yz.0), yz.1) }
  function On4b(xy: Pair, z: Id, unit: ()): Pair { (xy.0, z) }
  function On5(r: Id, xz: (Id, Id), k: Id): Triple { (xz.0, k, xz.1) }
  function On6a(y: Id, xz: (Id, Id), ue: (Id, Id)): (Pair, Pair) { ((xz.1, ue.0), (xz.0, ue.1)) }
  function On6b(zu: Pair, xe: Pair, o: Id): Triple { (xe.0, xe.1, o) }

  function Inverted(p: ZSet<Pair>): ZSet<Pair> {
    MapZ(p, Swap)
  }

  function Ir1(p: ZSet<Pair>): ZSet<Pair> {
    Join(Inverted(p), p, On1)
  }

  function Ir2(p: ZSet<Pair>, q: ZSet<Triple>): ZSet<Triple> {
    Join(Inverted(p), MapZ(q, Key1), On2)
  }

  function Ir3a(i: Inputs, p: ZSet<Pair>): ZSet<(Pair, Id)> {
    Join(Inverted(p), MapZ(i.u, Key1), On3a)
  }

  function Ir3(i: Inputs, p: ZSet<Pair>, q: ZSet<Triple>): ZSet<Pair> {
    Join(Ir3a(i, p), MapZ(q, Key23), On3b)
  }

  function Ir4a(i: Inputs, p: ZSet<Pair>): ZSet<(Pair, Id)> {
    Join(MapZ(i.c, Key2), Inverted(p), On4a)
  }

  function Ir4(i: Inputs, p: ZSet<Pair>): ZSet<Pair> {
    Join(Ir4a(i, p), MapZ(p, Both), On4b)
  }

  function Ir5(i: Inputs, q: ZSet<Triple>): ZSet<Triple> {
    Join(MapZ(q, Key2), i.s, On5)
  }

  function Ir6a(i: Inputs, q: ZSet<Triple>): ZSet<(Pair, Pair)> {
    Join(MapZ(q, Key2), MapZ(i.r, Key1), On6a)
  }

  function Ir6(i: Inputs, q: ZSet<Triple>): ZSet<Triple> {
    Join(Ir6a(i, q), MapZ(q, Key12), On6b)
  }

  function PlanP(i: Inputs, p: ZSet<Pair>, q: ZSet<Triple>): ZSet<Pair> {
    Plus(i.p, Plus(Ir1(p), Plus(Ir3(i, p, q), Ir4(i, p))))
  }

  function PlanQ(i: Inputs, p: ZSet<Pair>, q: ZSet<Triple>): ZSet<Triple> {
    Plus(i.q, Plus(Ir2(p, q), Plus(Ir5(i, q), Ir6(i, q))))
  }

  /** One round of the recursive circuit, with the `distinct` that closes its loop. */
  function Round(i: Inputs, p: ZSet<Pair>, q: ZSet<Triple>): Db {
    Db(Distinct(PlanP(i, p, q)), Distinct(PlanQ(i, p, q)))
  }

  // ---------------------------------------------------------------- joins are rule bodies

  lemma HasSwap(p: ZSet<Pair>, x: Id, y: Id)
    ensures Has(Inverted(p), (y, x)) <==> Has(p, (x, y))
  {
    HasMap(p, Swap, (y, x));
    assert Swap((x, y)) == (y, x);
  }

  lemma HasBoth(p: ZSet<Pair>, x: Id, y: Id)
    ensures Has(MapZ(p, Both), ((x, y), ())) <==> Has(p, (x, y))
  {
    HasMap(p, Both, ((x, y), ()));
    assert Both((x, y)) == ((x, y), ());
  }

  lemma HasKeys(q: ZSet<Triple>, x: Id, y: Id, z: Id)
    ensures Has(MapZ(q, Key1), (x, (y, z))) <==> Has(q, (x, y, z))
    ensures Has(MapZ(q, Key2), (y, (x, z))) <==> Has(q, (x, y, z))
    ensures Has(MapZ(q, Key12), ((x, y), z)) <==> Has(q, (x, y, z))
    ensures Has(MapZ(q, Key23), ((y, z), x)) <==> Has(q, (x, y, z))
  {
    var t := (x, y, z);
    HasMap(q, Key1, (x, (y, z)));
    HasMap(q, Key2, (y, (x, z)));
    HasMap(q, Key12, ((x, y), z));
    HasMap(q, Key23, ((y, z), x));
    assert Key1(t) == (x, (y, z)) && Key2(t) == (y, (x, z)) && Key12(t) == ((x, y), z) && Key23(t) == ((y, z), x);
  }

  lemma Ir1IsRule1(p: ZSet<Pair>, x: Id, z: Id)
    ensures Has(Ir1(p), (x, z)) <==> exists y :: Has(p, (x, y)) && Has(p, (y, z))
  {
    HasJoin(Inverted(p), p, On1, (x, z));
    if y :| Has(p, (x, y)) && Has(p, (y, z)) {
      HasSwap(p, x, y);
      assert On1(y, x, z) == (x, z);
    }
    if Has(Ir1(p), (x, z)) {
      var y, x', z' :| Has(Inverted(p), (y, x')) && Has(p, (y, z')) && On1(y, x', z') == (x, z);
      HasSwap(p, x, y);
    }
  }

  lemma Ir2IsRule4(p: ZSet<Pair>, q: ZSet<Triple>, x: Id, r: Id, z: Id)
    ensures Has(Ir2(p, q), (x, r, z)) <==> exists y :: Has(p, (x, y)) && Has(q, (y, r, z))
  {
    HasJoin(Inverted(p), MapZ(q, Key1), On2, (x, r, z));
    if y :| Has(p, (x, y)) && Has(q, (y, r, z)) {
      HasSwap(p, x, y);
      HasKeys(q, y, r, z);
      assert On2(y, x, (r, z)) == (x, r, z);
    }
    if Has(Ir2(p, q), (x, r, z)) {
      var y, x', rz :| Has(Inverted(p), (y, x')) && Has(MapZ(q, Key1), (y, rz)) && On2(y, x', rz) == (x, r, z);
      HasSwap(p, x, y);
      HasKeys(q, y, r, z);
      assert rz == (r, z);
    }
  }

  lemma Ir3aIs(i: Inputs, p: ZSet<Pair>, r: Id, y: Id, z: Id)
    ensures Has(Ir3a(i, p), ((r, y), z)) <==> exists w :: Has(p, (y, w)) && Has(i.u, (w, r, z))
  {
    HasJoin(Inverted(p), MapZ(i.u, Key1), On3a, ((r, y), z));
    if w :| Has(p, (y, w)) && Has(i.u, (w, r, z)) {
      HasSwap(p, y, w);
      HasKeys(i.u, w, r, z);
      assert On3a(w, y, (r, z)) == ((r, y), z);
    }
    if Has(Ir3a(i, p), ((r, y), z)) {
      var w, y', rz :| Has(Inverted(p), (w, y')) && Has(MapZ(i.u, Key1), (w, rz)) && On3a(w, y', rz) == ((r, y), z);
      HasSwap(p, y, w);
      HasKeys(i.u, w, r, z);
      assert rz == (r, z);
    }
  }

  lemma Ir3IsRule2(i: Inputs, p: ZSet<Pair>, q: ZSet<Triple>, x: Id, z: Id)
    ensures Has(Ir3(i, p, q), (x, z)) <==> exists y, w, r :: Has(p, (y, w)) && Has(i.u, (w, r, z)) && Has(q, (x, r, y))
  {
    HasJoin(Ir3a(i, p), MapZ(q, Key23), On3b, (x, z));
    if y, w, r :| Has(p, (y, w)) && Has(i.u, (w, r, z)) && Has(q, (x, r, y)) {
      Ir3aIs(i, p, r, y, z);
      HasKeys(q, x, r, y);
      assert On3b((r, y), z, x) == (x, z);
    }
    if Has(Ir3(i, p, q), (x, z)) {
      var ry, z', x' :| Has(Ir3a(i, p), (ry, z')) && Has(MapZ(q, Key23), (ry, x')) && On3b(ry, z', x') == (x, z);
      assert ry == (ry.0, ry.1);
      Ir3aIs(i, p, ry.0, ry.1, z);
      HasKeys(q, x, ry.0, ry.1);
    }
  }

  lemma Ir4aIs(i: Inputs, p: ZSet<Pair>, x: Id, y: Id, z: Id)
    ensures Has(Ir4a(i, p), ((x, y), z)) <==> exists w :: Has(i.c, (y, w, z)) && Has(p, (x, w))
  {
    HasJoin(MapZ(i.c, Key2), Inverted(p), On4a, ((x, y), z));
    if w :| Has(i.c, (y, w, z)) && Has(p, (x, w)) {
      HasSwap(p, x, w);
      HasKeys(i.c, y, w, z);
      assert On4a(w, (y, z), x) == ((x, y), z);
    }
    if Has(Ir4a(i, p), ((x, y), z)) {
      var w, yz, x' :| Has(MapZ(i.c, Key2), (w, yz)) && Has(Inverted(p), (w, x')) && On4a(w, yz, x') == ((x, y), z);
      HasSwap(p, x, w);
      HasKeys(i.c, y, w, z);
      assert yz == (y, z);
    }
  }

  lemma Ir4IsRule3(i: Inputs, p: ZSet<Pair>, x: Id, z: Id)
    ensures Has(Ir4(i, p), (x, z)) <==> exists y, w :: Has(i.c, (y, w, z)) && Has(p, (x, w)) && Has(p, (x, y))
  {
    HasJoin(Ir4a(i, p), MapZ(p, Both), On4b, (x, z));
    if y, w :| Has(i.c, (y, w, z)) && Has(p, (x, w)) && Has(p, (x, y)) {
      Ir4aIs(i, p, x, y, z);
      HasBoth(p, x, y);
      assert On4b((x, y), z, ()) == (x, z);
    }
    if Has(Ir4(i, p), (x, z)) {
      var xy, z', unit :| Has(Ir4a(i, p), (xy, z')) && Has(MapZ(p, Both), (xy, unit)) && On4b(xy, z', unit) == (x, z);
      assert xy == (x, xy.1) && unit == ();
      Ir4aIs(i, p, x, xy.1, z);
      HasBoth(p, x, xy.1);
    }
  }

  lemma Ir5IsRule5(i: Inputs, q: ZSet<Triple>, x: Id, k: Id, z: Id)
    ensures Has(Ir5(i, q), (x, k, z)) <==> exists r :: Has(q, (x, r, z)) && Has(i.s, (r, k))
  {
    HasJoin(MapZ(q, Key2), i.s, On5, (x, k, z));
    if r :| Has(q, (x, r, z)) && Has(i.s, (r, k)) {
      HasKeys(q, x, r, z);
      assert On5(r, (x, z), k) == (x, k, z);
    }
    if Has(Ir5(i, q), (x, k, z)) {
      var r, xz, k' :| Has(MapZ(q, Key2), (r, xz)) && Has(i.s, (r, k')) && On5(r, xz, k') == (x, k, z);
      HasKeys(q, x, r, z);
      assert xz == (x, z);
    }
  }

  lemma Ir6aIs(i: Inputs, q: ZSet<Triple>, z: Id, u: Id, x: Id, e: Id)
    ensures Has(Ir6a(i, q), ((z, u), (x, e))) <==> exists y :: Has(q, (x, y, z)) && Has(i.r, (y, u, e))
  {
    HasJoin(MapZ(q, Key2), MapZ(i.r, Key1), On6a, ((z, u), (x, e)));
    if y :| Has(q, (x, y, z)) && Has(i.r, (y, u, e)) {
      HasKeys(q, x, y, z);
      HasKeys(i.r, y, u, e);
      assert On6a(y, (x, z), (u, e)) == ((z, u), (x, e));
    }
    if Has(Ir6a(i, q), ((z, u), (x, e))) {
      var y, xz, ue :| Has(MapZ(q, Key2), (y, xz)) && Has(MapZ(i.r, Key1), (y, ue)) &&
          On6a(y, xz, ue) == ((z, u), (x, e));
      HasKeys(q, x, y, z);
      HasKeys(i.r, y, u, e);
      assert xz == (x, z) && ue == (u, e);
    }
  }

  lemma Ir6IsRule6(i: Inputs, q: ZSet<Triple>, x: Id, e: Id, o: Id)
    ensures Has(Ir6(i, q), (x, e, o)) <==>
            exists y, z, u :: Has(q, (x, y, z)) && Has(i.r, (y, u, e)) && Has(q, (z, u, o))
  {
    HasJoin(Ir6a(i, q), MapZ(q, Key12), On6b, (x, e, o));
    if y, z, u :| Has(q, (x, y, z)) && Has(i.r, (y, u, e)) && Has(q, (z, u, o)) {
      Ir6aIs(i, q, z, u, x, e);
      HasKeys(q, z, u, o);
      assert On6b((z, u), (x, e), o) == (x, e, o);
    }
    if Has(Ir6(i, q), (x, e, o)) {
      var zu, xe, o' :| Has(Ir6a(i, q), (zu, xe)) && Has(MapZ(q, Key12), (zu, o')) && On6b(zu, xe, o') == (x, e, o);
      assert zu == (zu.0, zu.1) && xe == (x, e);
      Ir6aIs(i, q, zu.0, zu.1, x, e);
      HasKeys(q, zu.0, zu.1, o);
    }
  }

  lemma PlanIsPositive(i: Inputs, p: ZSet<Pair>, q: ZSet<Triple>)
    requires i.Valid() && Positive(p) && Positive(q)
    ensures Positive(PlanP(i, p, q)) && Positive(PlanQ(i, p, q))
  {
    PositiveJoin(Inverted(p), p, On1);
    PositiveJoin(Inverted(p), MapZ(q, Key1), On2);
    PositiveJoin(Inverted(p), MapZ(i.u, Key1), On3a);
    PositiveJoin(Ir3a(i, p), MapZ(q, Key23), On3b);
    PositiveJoin(MapZ(i.c, Key2), Inverted(p), On4a);
    PositiveJoin(Ir4a(i, p), MapZ(p, Both), On4b);
    PositiveJoin(MapZ(q, Key2), i.s, On5);
    PositiveJoin(MapZ(q, Key2), MapZ(i.r, Key1), On6a);
    PositiveJoin(Ir6a(i, q), MapZ(q, Key12), On6b);
  }

  /** One round from the relations `d`. */
  ghost function Step(i: Inputs, d: Db): Db {
    Round(i, Listing(d.p), Listing(d.q))
  }

  /** A round derives exactly what is given or follows by one rule. */
  lemma StepP(i: Inputs, d: Db, x: Id, z: Id)
    requires i.Valid()
    ensures (x, z) in Step(i, d).p <==> FollowsP(i, d, x, z)
  {
    var p, q := Listing(d.p), Listing(d.q);
    PlanIsPositive(i, p, q);
    HasAppend(Ir3(i, p, q), Ir4(i, p), (x, z));
    HasAppend(Ir1(p), Plus(Ir3(i, p, q), Ir4(i, p)), (x, z));
    HasAppend(i.p, Plus(Ir1(p), Plus(Ir3(i, p, q), Ir4(i, p))), (x, z));
    DistinctPositive(PlanP(i, p, q), (x, z));
    Ir1IsRule1(p, x, z);
    Ir3IsRule2(i, p, q, x, z);
    Ir4IsRule3(i, p, x, z);
  }

  lemma StepQ(i: Inputs, d: Db, x: Id, y: Id, z: Id)
    requires i.Valid()
    ensures (x, y, z) in Step(i, d).q <==> FollowsQ(i, d, x, y, z)
  {
    var p, q := Listing(d.p), Listing(d.q);
    PlanIsPositive(i, p, q);
    HasAppend(Ir5(i, q), Ir6(i, q), (x, y, z));
    HasAppend(Ir2(p, q), Plus(Ir5(i, q), Ir6(i, q)), (x, y, z));
    HasAppend(i.q, Plus(Ir2(p, q), Plus(Ir5(i, q), Ir6(i, q))), (x, y, z));
    DistinctPositive(PlanQ(i, p, q), (x, y, z));
    Ir2IsRule4(p, q, x, y, z);
    Ir5IsRule5(i, q, x, y, z);
    Ir6IsRule6(i, q, x, y, z);
  }

  // ---------------------------------------------------------------- the fixed point

  /** All ids that occur in the inputs. */
  function Ids(i: Inputs): set<Id> {
    PairIds(i.p) + PairIds(i.s) + TripleIds(i.q) + TripleIds(i.r) + TripleIds(i.c) + TripleIds(i.u)
  }

  function PairIds(z: ZSet<Pair>): set<Id> {
    (set k | 0 <= k < |z| :: z[k].0.0) + (set k | 0 <= k < |z| :: z[k].0.1)
  }

  function TripleIds(z: ZSet<Triple>): set<Id> {
    (set k | 0 <= k < |z| :: z[k].0.0) + (set k | 0 <= k < |z| :: z[k].0.1) + (set k | 0 <= k < |z| :: z[k].0.2)
  }

  function Pairs(ids: set<Id>): set<Pair> {
    set x, y | x in ids && y in ids :: (x, y)
  }

  function Triples(ids: set<Id>): set<Triple> {
    set x, y, z | x in ids && y in ids && z in ids :: (x, y, z)
  }

  /** Everything that can be said about the ids of the inputs. */
  function Universe(i: Inputs): Db {
    Db(Pairs(Ids(i)), Triples(Ids(i)))
  }

  lemma FollowsMonotone(i: Inputs, d: Db, d': Db)
    requires d.Below(d')
    ensures forall x, z :: FollowsP(i, d, x, z) ==> FollowsP(i, d', x, z)
    ensures forall x, y, z :: FollowsQ(i, d, x, y, z) ==> FollowsQ(i, d', x, y, z)
  {
    assert forall t :: t in d.p ==> t in d'.p;
    assert forall t :: t in d.q ==> t in d'.q;
  }

  /** A step stays below everything that contains what follows. */
  lemma StepBelow(i: Inputs, d: Db, m: Db)
    requires i.Valid()
    requires forall x, z :: FollowsP(i, d, x, z) ==> (x, z) in m.p
    requires forall x, y, z :: FollowsQ(i, d, x, y, z) ==> (x, y, z) in m.q
    ensures Step(i, d).Below(m)
  {
    forall t | t in Step(i, d).p ensures t in m.p {
      assert t == (t.0, t.1);
      StepP(i, d, t.0, t.1);
    }
    forall t | t in Step(i, d).q ensures t in m.q {
      assert t == (t.0, t.1, t.2);
      StepQ(i, d, t.0, t.1, t.2);
    }
  }

  lemma StepBelowModel(i: Inputs, d: Db, m: Db)
    requires i.Valid() && d.Below(m) && Model(i, m)
    ensures Step(i, d).Below(m)
  {
    FollowsMonotone(i, d, m);
    StepBelow(i, d, m);
  }

  lemma StepMonotone(i: Inputs, d: Db, d': Db)
    requires i.Valid() && d.Below(d')
    ensures Step(i, d).Below(Step(i, d'))
  {
    FollowsMonotone(i, d, d');
    forall x, z | FollowsP(i, d, x, z) ensures (x, z) in Step(i, d').p {
      StepP(i, d', x, z);
    }
    forall x, y, z | FollowsQ(i, d, x, y, z) ensures (x, y, z) in Step(i, d').q {
      StepQ(i, d', x, y, z);
    }
    StepBelow(i, d, Step(i, d'));
  }

  /** The rules never leave the ids of the inputs. */
  lemma UniverseIsModel(i: Inputs)
    ensures Model(i, Universe(i))
  {
    var d := Universe(i);
    assert forall x, z :: FollowsP(i, d, x, z) ==> (x, z) in d.p;
    assert forall x, y, z :: FollowsQ(i, d, x, y, z) ==> (x, y, z) in d.q;
  }

  /** Rounds are repeated until one changes nothing; the measure is what is still missing
      from the finite universe. */
  ghost function Solve(i: Inputs, d: Db): (r: Db)
    requires i.Valid() && d.Below(Universe(i)) && d.Below(Step(i, d))
    ensures d.Below(r) && Step(i, r) == r
    ensures forall m :: Model(i, m) && d.Below(m) ==> r.Below(m)
    decreases |Universe(i).p| + |Universe(i).q| - |d.p| - |d.q|
  {
    var d' := Step(i, d);
    UniverseIsModel(i);
    StepBelowModel(i, d, Universe(i));
    StepMonotone(i, d, d');
    SubsetSize(d.p, d'.p);
    SubsetSize(d.q, d'.q);
    SubsetSize(d'.p, Universe(i).p);
    SubsetSize(d'.q, Universe(i).q);
    assert forall m :: Model(i, m) && d.Below(m) ==> d'.Below(m) by {
      forall m | Model(i, m) && d.Below(m) ensures d'.Below(m) {
        StepBelowModel(i, d, m);
      }
    }
    if d' == d then d else Solve(i, d')
  }

  /** The relations that the recursive circuit computes. */
  ghost function Result(i: Inputs): Db
    requires i.Valid()
  {
    Solve(i, Db({}, {}))
  }

  /** For all finite inputs the iteration ends, with the least relations that contain the
      inputs and are closed under the six rules. */
  lemma ResultIsLeastModel(i: Inputs)
    requires i.Valid()
    ensures Model(i, Result(i))
    ensures forall m :: Model(i, m) ==> Result(i).Below(m)
  {
    var d := Result(i);
    forall x, z | FollowsP(i, d, x, z) ensures (x, z) in d.p {
      StepP(i, d, x, z);
    }
    forall x, y, z | FollowsQ(i, d, x, y, z) ensures (x, y, z) in d.q {
      StepQ(i, d, x, y, z);
    }
    forall m | Model(i, m) ensures Result(i).Below(m) {
      assert Db({}, {}).Below(m);
    }
  }
}
