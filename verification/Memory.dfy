/**
 Raw memory: little-endian loads and stores of words of some bytes, and the bitwise
 operations on the loaded words.
 */
module Memory {
  import opened Basics

  function Pow2(n: nat): (r: nat)
    ensures r > 0
  {
    if n == 0 then 1 else 2 * Pow2(n - 1)
  }

  function Load(mem: seq<Byte>, off: nat, w: nat): nat
    requires off + w <= |mem|
    decreases w
  {
    if w == 0 then 0 else mem[off] + 256 * Load(mem, off + 1, w - 1)
  }

  function Store(mem: seq<Byte>, off: nat, w: nat, v: nat): (r: seq<Byte>)
    requires off + w <= |mem|
    ensures |r| == |mem|
    ensures forall i :: 0 <= i < |mem| && !(off <= i < off + w) ==> r[i] == mem[i]
    decreases w
  {
    if w == 0 then mem else Store(mem[off := v % 256], off + 1, w - 1, v / 256)
  }

  lemma Pow2Four(n: nat)
    ensures Pow2(n + 4) == 16 * Pow2(n)
  {
    assert Pow2(n + 2) == 4 * Pow2(n);
  }

  lemma Pow2Eight(n: nat)
    ensures Pow2(n + 8) == 256 * Pow2(n)
  {
    Pow2Four(n);
    Pow2Four(n + 4);
  }

  lemma Pow2Byte(w: nat)
    requires w > 0
    ensures Pow2(8 * w) == 256 * Pow2(8 * (w - 1))
  {
    Pow2Eight(8 * (w - 1));
    assert 8 * w == 8 * (w - 1) + 8;
  }

  /** What was stored is loaded, if it fits. */
  lemma {:induction false} LoadStore(mem: seq<Byte>, off: nat, w: nat, v: nat)
    requires off + w <= |mem| && v < Pow2(8 * w)
    ensures Load(Store(mem, off, w, v), off, w) == v
    decreases w
  {
    if w > 0 {
      Pow2Byte(w);
      LoadStore(mem[off := v % 256], off + 1, w - 1, v / 256);
    }
  }

  lemma {:induction false} LoadFits(mem: seq<Byte>, off: nat, w: nat)
    requires off + w <= |mem|
    ensures Load(mem, off, w) < Pow2(8 * w)
    decreases w
  {
    if w > 0 {
      Pow2Byte(w);
      LoadFits(mem, off + 1, w - 1);
    }
  }

  /** A load depends only on the bytes it reads. */
  lemma {:induction false} LoadFrame(mem: seq<Byte>, mem': seq<Byte>, off: nat, w: nat)
    requires off + w <= |mem| == |mem'|
    requires forall i :: off <= i < off + w ==> mem[i] == mem'[i]
    ensures Load(mem, off, w) == Load(mem', off, w)
    decreases w
  {
    if w > 0 {
      LoadFrame(mem, mem', off + 1, w - 1);
    }
  }

  /** Words are little-endian: the byte at `off + i` is byte `i` of the word. */
  lemma {:induction false} LoadByte(mem: seq<Byte>, off: nat, w: nat, i: nat)
    requires off + w <= |mem| && i < w
    ensures ByteOf(Load(mem, off, w), i) == mem[off + i]
    decreases w
  {
    if i > 0 {
      LoadByte(mem, off + 1, w - 1, i - 1);
    }
  }

  /** Byte `i` of a number, counted from its low end. */
  function ByteOf(v: nat, i: nat): nat
    decreases i
  {
    if i == 0 then v % 256 else ByteOf(v / 256, i - 1)
  }

  /** How many values fit into words of one, two, four and eight bytes. */
  lemma WordLimit(n: nat)
    ensures n == 8 ==> Pow2(n) == 0x100
    ensures n == 16 ==> Pow2(n) == 0x1_0000
    ensures n == 32 ==> Pow2(n) == 0x1_0000_0000
    ensures n == 64 ==> Pow2(n) == 0x1_0000_0000_0000_0000
  {
    if n == 8 {
      Pow2Eight(n - 8);
    } else if n == 16 || n == 32 || n == 64 {
      WordLimit(n / 2);
      Pow2Square(n / 2, n / 2);
    }
  }

  lemma {:induction false} Pow2Square(m: nat, n: nat)
    ensures Pow2(m + n) == Pow2(m) * Pow2(n)
  {
    if n > 0 {
      Pow2Square(m, n - 1);
    }
  }

  // ---------------------------------------------------------------- bits

  predicate Bit(v: nat, i: nat)
    decreases i
  {
    if i == 0 then v % 2 == 1 else Bit(v / 2, i - 1)
  }

  /** `a | b` */
  function Or(a: nat, b: nat): nat
    decreases a + b
  {
    if a == 0 && b == 0 then 0 else 2 * Or(a / 2, b / 2) + if a % 2 == 1 || b % 2 == 1 then 1 else 0
  }

  /** `a & b` */
  function And(a: nat, b: nat): nat {
    if a == 0 then 0 else 2 * And(a / 2, b / 2) + if a % 2 == 1 && b % 2 == 1 then 1 else 0
  }

  /** `a & !b` */
  function AndNot(a: nat, b: nat): nat {
    if a == 0 then 0 else 2 * AndNot(a / 2, b / 2) + if a % 2 == 1 && b % 2 == 0 then 1 else 0
  }

  lemma {:induction false} BitOfZero(i: nat)
    ensures !Bit(0, i)
  {
    if i > 0 {
      BitOfZero(i - 1);
    }
  }

  lemma OrHalves(a: nat, b: nat)
    ensures Or(a, b) / 2 == Or(a / 2, b / 2)
    ensures Or(a, b) % 2 == 1 <==> a % 2 == 1 || b % 2 == 1
  {
  }

  lemma {:induction false} BitOfOr(a: nat, b: nat, i: nat)
    ensures Bit(Or(a, b), i) <==> Bit(a, i) || Bit(b, i)
    decreases i
  {
    OrHalves(a, b);
    if i > 0 {
      BitOfOr(a / 2, b / 2, i - 1);
    }
  }

  lemma AndNotHalves(a: nat, b: nat)
    ensures AndNot(a, b) / 2 == AndNot(a / 2, b / 2)
    ensures AndNot(a, b) % 2 == 1 <==> a % 2 == 1 && b % 2 == 0
  {
  }

  lemma {:induction false} BitOfAndNot(a: nat, b: nat, i: nat)
    ensures Bit(AndNot(a, b), i) <==> Bit(a, i) && !Bit(b, i)
    decreases i
  {
    AndNotHalves(a, b);
    if i > 0 {
      BitOfAndNot(a / 2, b / 2, i - 1);
    }
  }

  lemma {:induction false} BitOfPow2(n: nat, i: nat)
    ensures Bit(Pow2(n), i) <==> n == i
  {
    if n == 0 {
      BitOfZero(if i > 0 then i - 1 else 0);
    } else if i > 0 {
      BitOfPow2(n - 1, i - 1);
    }
  }

  lemma {:induction false} AndZero(a: nat)
    ensures And(a, 0) == 0
  {
    if a > 0 {
      AndZero(a / 2);
    }
  }

  /** `a & (1 << n) != 0` tests one bit. */
  lemma {:induction false} AndPow2(a: nat, n: nat)
    ensures And(a, Pow2(n)) != 0 <==> Bit(a, n)
    decreases n
  {
    BitOfZero(n);
    if n == 0 {
      AndZero(a / 2);
    } else {
      AndPow2(a / 2, n - 1);
    }
  }

  lemma {:induction false} OrFits(a: nat, b: nat, n: nat)
    requires a < Pow2(n) && b < Pow2(n)
    ensures Or(a, b) < Pow2(n)
    decreases n
  {
    if n > 0 {
      OrFits(a / 2, b / 2, n - 1);
    }
  }

  lemma {:induction false} AndNotFits(a: nat, b: nat)
    ensures AndNot(a, b) <= a
  {
    if a > 0 {
      AndNotFits(a / 2, b / 2);
    }
  }

  lemma {:induction false} Pow2Grows(m: nat, n: nat)
    requires m < n
    ensures Pow2(m) < Pow2(n)
  {
    if m < n - 1 {
      Pow2Grows(m, n - 1);
    }
  }
}
