/** Python's bitwise operators on its unbounded integers (two's complement without end), and
    what they come to on contiguous masks. */
module BitOps {

  function Not(a: int): int {
    -1 - a
  }

  function Abs(a: int): nat {
    if a < 0 then -a else a
  }

  function And(a: int, b: int): int
    decreases Abs(a) + Abs(b)
  {
    if a == 0 || b == 0 then 0
    else if a == -1 then b
    else if b == -1 then a
    else 2 * And(a / 2, b / 2) + (a % 2) * (b % 2)
  }

  function Or(a: int, b: int): int
    decreases Abs(a) + Abs(b)
  {
    if a == -1 || b == -1 then -1
    else if a == 0 then b
    else if b == 0 then a
    else 2 * Or(a / 2, b / 2) + (if a % 2 == 1 || b % 2 == 1 then 1 else 0)
  }

  function Pow2(n: nat): (r: nat)
    ensures r > 0
  {
    if n == 0 then 1 else 2 * Pow2(n - 1)
  }

  function Shl(a: int, n: nat): int {
    a * Pow2(n)
  }

  function Shr(a: int, n: nat): int {
    a / Pow2(n)
  }

  // ---------- one bit at a time ----------

  lemma AndStep(a: int, b: int)
    ensures And(a, b) == 2 * And(a / 2, b / 2) + (a % 2) * (b % 2)
  {
  }

  lemma OrStep(a: int, b: int)
    ensures Or(a, b) == 2 * Or(a / 2, b / 2) + (if a % 2 == 1 || b % 2 == 1 then 1 else 0)
  {
  }

  /** A mask and its complement split a number in two. */
  lemma {:induction false} AndNot(a: int, b: int)
    ensures And(a, Not(b)) == a - And(a, b)
    decreases Abs(a) + Abs(b)
  {
    hide And;
    AndZero(a);
    AndZero(b);
    AndZero(Not(b));
    AndOnes(a);
    AndOnes(b);
    AndOnes(Not(b));
    if a != 0 && b != 0 && a != -1 && b != -1 {
      AndStep(a, Not(b));
      AndStep(a, b);
      NotHalf(b);
      AndNot(a / 2, b / 2);
      assert (a % 2) * (1 - b % 2) == a % 2 - (a % 2) * (b % 2);
    }
  }

  lemma AndOnes(a: int)
    ensures And(a, -1) == a && And(-1, a) == a
  {
  }

  lemma NotHalf(b: int)
    ensures Not(b) / 2 == Not(b / 2) && Not(b) % 2 == 1 - b % 2
  {
  }

  lemma HalfOfSplit(x: int, y: int, p: int)
    requires 0 <= y < 2 * p
    ensures (x * (2 * p) + y) / 2 == x * p + y / 2
    ensures (x * (2 * p) + y) % 2 == y % 2
  {
    assert x * (2 * p) == 2 * (x * p);
  }

  /** The low `n` bits and the rest do not mix. */
  lemma {:induction false} OrSplit(x: int, y: int, z: int, w: int, n: nat)
    requires 0 <= y < Pow2(n) && 0 <= w < Pow2(n)
    ensures Or(x * Pow2(n) + y, z * Pow2(n) + w) == Or(x, z) * Pow2(n) + Or(y, w)
    ensures 0 <= Or(y, w) < Pow2(n)
    decreases n
  {
    hide Or;
    if n == 0 {
      assert Or(0, 0) == 0 by { OrZero(0); }
    } else {
      var p := Pow2(n - 1);
      var a, b := x * (2 * p) + y, z * (2 * p) + w;
      HalfOfSplit(x, y, p);
      HalfOfSplit(z, w, p);
      OrStep(a, b);
      OrStep(y, w);
      OrSplit(x, y / 2, z, w / 2, n - 1);
      assert Or(x, z) * (2 * p) == 2 * (Or(x, z) * p);
    }
  }

  lemma OrZero(a: int)
    ensures Or(a, 0) == a && Or(0, a) == a
  {
  }

  /** Joining a high and a low part, in either order. */
  lemma OrJoin(x: int, y: int, n: nat)
    requires 0 <= y < Pow2(n)
    ensures Or(x * Pow2(n), y) == x * Pow2(n) + y && Or(y, x * Pow2(n)) == x * Pow2(n) + y
  {
    hide Or;
    OrSplit(x, 0, 0, y, n);
    OrSplit(0, y, x, 0, n);
    OrZero(x);
    OrZero(y);
  }

  lemma HalfMod(a: int, p: int)
    requires p > 0
    ensures 2 * ((a / 2) % p) + a % 2 == a % (2 * p)
    ensures (a / 2) / p == a / (2 * p)
  {
    var q, r := (a / 2) / p, (a / 2) % p;
    assert a == 2 * (q * p + r) + a % 2;
    assert a == q * (2 * p) + (2 * r + a % 2) by { assert 2 * (q * p) == q * (2 * p); }
    DivModUnique(a, 2 * p, q, 2 * r + a % 2);
  }

  lemma DivModUnique(a: int, d: int, q: int, r: int)
    requires d > 0 && a == q * d + r && 0 <= r < d
    ensures a / d == q && a % d == r
  {
    var k := a / d - q;
    assert a == (a / d) * d + a % d;
    assert k * d == r - a % d;
    Multiples(k, d);
  }

  lemma Multiples(k: int, d: int)
    requires d > 0
    ensures k >= 1 ==> k * d >= d
    ensures k <= -1 ==> k * d <= -d
  {
  }

  lemma PowStep(n: nat)
    requires n > 0
    ensures Pow2(n) == 2 * Pow2(n - 1) && Pow2(0) == 1
  {
  }

  lemma HalfOfOnes(p: int)
    ensures (2 * p - 1) / 2 == p - 1 && (2 * p - 1) % 2 == 1
  {
  }

  /** A mask of ones at the bottom takes the remainder. */
  lemma {:induction false} AndLow(a: int, n: nat)
    ensures And(a, Pow2(n) - 1) == a % Pow2(n)
    decreases n
  {
    hide And;
    if n == 0 {
      assert And(a, 0) == 0 by { AndZero(a); }
    } else {
      hide Pow2;
      PowStep(n);
      var p := Pow2(n - 1);
      AndStep(a, 2 * p - 1);
      HalfOfOnes(p);
      AndLow(a / 2, n - 1);
      HalfMod(a, p);
    }
  }

  lemma AndZero(a: int)
    ensures And(a, 0) == 0 && And(0, a) == 0
  {
  }

  /** A mask of `k` ones above `n` zeros takes one field and leaves it in its place. */
  lemma {:induction false} AndField(a: int, k: nat, n: nat)
    ensures And(a, (Pow2(k) - 1) * Pow2(n)) == (a / Pow2(n) % Pow2(k)) * Pow2(n)
    decreases n
  {
    hide And;
    if n == 0 {
      AndLow(a, k);
    } else {
      hide Pow2;
      PowStep(n);
      var p, m := Pow2(n - 1), Pow2(k) - 1;
      var f := a / (2 * p) % Pow2(k);
      Twice(m, p);
      Twice(f, p);
      AndStep(a, 2 * (m * p));
      AndField(a / 2, k, n - 1);
      HalfMod(a, p);
    }
  }

  lemma Twice(x: int, p: int)
    ensures x * (2 * p) == 2 * (x * p)
  {
  }

  lemma DoubleFirst(x: int, y: int)
    ensures 2 * (x * y) == (2 * x) * y
  {
  }

  lemma {:induction false} PowAdd(a: nat, b: nat)
    ensures Pow2(a + b) == Pow2(a) * Pow2(b)
  {
    if a > 0 {
      PowAdd(a - 1, b);
      PowStep(a);
      PowStep(a + b);
      DoubleFirst(Pow2(a - 1), Pow2(b));
    }
  }

  lemma PowValues()
    ensures Pow2(4) == 0x10 && Pow2(6) == 0x40 && Pow2(7) == 0x80 && Pow2(8) == 0x100 && Pow2(10) == 0x400
    ensures Pow2(16) == 0x1_0000 && Pow2(24) == 0x100_0000 && Pow2(30) == 0x4000_0000 && Pow2(32) == 0x1_0000_0000
    ensures Pow2(40) == 0x100_0000_0000 && Pow2(54) == 0x40_0000_0000_0000 && Pow2(64) == 0x1_0000_0000_0000_0000
  {
    assert Pow2(4) == 0x10 && Pow2(6) == 0x40 && Pow2(8) == 0x100;
    PowAdd(4, 6);
    PowAdd(8, 8);
    PowAdd(8, 16);
    PowAdd(6, 24);
    PowAdd(16, 16);
    PowAdd(16, 24);
    PowAdd(24, 30);
    PowAdd(32, 32);
  }
}
