// Bit-level facts behind the driver's masks: `x & (a - 1)` and the check
// `a & (a - 1)` that a queue start makes on its keyhole aperture.
module Bits {

  /** Bitwise conjunction of two naturals. */
  function And(x: nat, y: nat): nat {
    if x == 0 || y == 0 then 0
    else x % 2 * (y % 2) + 2 * And(x / 2, y / 2)
  }

  /** The test a queue start applies to a non-zero aperture. */
  predicate IsPowerOfTwo(a: nat) {
    a != 0 && And(a, a - 1) == 0
  }

  /** The check a queue start makes on its aperture: off, or a power of two. */
  predicate ApertureOk(a: nat) {
    a == 0 || IsPowerOfTwo(a)
  }

  lemma {:induction false} AndIdempotent(x: nat)
    ensures And(x, x) == x
  {
    if x != 0 {
      AndIdempotent(x / 2);
    }
  }

  lemma ModByHalves(x: nat, h: nat)
    requires h > 0
    ensures x % (2 * h) == x % 2 + 2 * (x / 2 % h)
  {
    var q, r := x / 2 / h, x / 2 % h;
    assert x / 2 == q * h + r;
    assert x == q * (2 * h) + (x % 2 + 2 * r);
    ModUnique(x, 2 * h, q, x % 2 + 2 * r);
  }

  lemma ModUnique(x: nat, m: nat, q: nat, r: nat)
    requires m > 0 && r < m && x == q * m + r
    ensures x % m == r && x / m == q
  {
    var d := x / m - q;
    assert x == x / m * m + x % m;
    assert d * m == r - x % m;
    assert d > 0 ==> d * m >= m;
    assert d < 0 ==> d * m <= 0 - m;
  }

  /** Masking with `a - 1` is reduction modulo `a`, for a power of two. */
  lemma {:induction false} MaskIsMod(x: nat, a: nat)
    requires IsPowerOfTwo(a)
    ensures And(x, a - 1) == x % a
    decreases a
  {
    if a == 1 {
    } else if a % 2 == 1 {
      AndIdempotent(a / 2);
      assert false;
    } else {
      var h := a / 2;
      assert (a - 1) / 2 == h - 1 && (a - 1) % 2 == 1;
      assert IsPowerOfTwo(h);
      MaskIsMod(x / 2, h);
      ModByHalves(x, h);
      if x != 0 {
        assert And(x, a - 1) == x % 2 + 2 * And(x / 2, h - 1);
      }
    }
  }

  /** The mask is the remainder for every operand exactly when the aperture
      passes the test, so the test is neither too strict nor too lax. */
  lemma MaskIsModIff(a: nat)
    requires a > 0
    ensures (forall x: nat :: And(x, a - 1) == x % a) <==> IsPowerOfTwo(a)
  {
    if IsPowerOfTwo(a) {
      forall x: nat
        ensures And(x, a - 1) == x % a
      {
        MaskIsMod(x, a);
      }
    } else {
      assert a % a == 0;
      assert And(a, a - 1) != a % a;
    }
  }

  /** Bitwise disjunction of two naturals. */
  function Or(x: nat, y: nat): nat {
    if x == 0 then y
    else if y == 0 then x
    else (if x % 2 == 1 || y % 2 == 1 then 1 else 0) + 2 * Or(x / 2, y / 2)
  }

  function Pow(k: nat): (p: nat)
    ensures p > 0
  {
    if k == 0 then 1 else 2 * Pow(k - 1)
  }

  lemma {:induction false} PowIsPower(k: nat)
    ensures IsPowerOfTwo(Pow(k))
  {
    if k > 0 {
      PowIsPower(k - 1);
      var h := Pow(k - 1);
      assert (2 * h - 1) / 2 == h - 1;
    }
  }

  /** A mask of the low `k` bits keeps the remainder. */
  lemma AndLow(x: nat, k: nat)
    ensures And(x, Pow(k) - 1) == x % Pow(k)
  {
    PowIsPower(k);
    MaskIsMod(x, Pow(k));
  }

  lemma {:induction false} PowOrdered(k: nat, w: nat)
    requires k <= w
    ensures Pow(k) <= Pow(w)
  {
    if k < w {
      PowOrdered(k, w - 1);
    }
  }

  lemma AndUnfold(x: nat, y: nat)
    ensures And(x, y) == x % 2 * (y % 2) + 2 * And(x / 2, y / 2)
  {
  }

  lemma AndEven(x: nat, h: nat)
    ensures And(x, 2 * h) == 2 * And(x / 2, h)
  {
    hide And;
    AndUnfold(x, 2 * h);
    assert 2 * h / 2 == h && 2 * h % 2 == 0;
  }

  /** A mask of bits `k` up to `w` drops the remainder. */
  lemma {:induction false} AndHigh(x: nat, k: nat, w: nat)
    requires k <= w && x < Pow(w)
    ensures Pow(k) <= Pow(w)
    ensures And(x, Pow(w) - Pow(k)) == x - x % Pow(k)
  {
    hide And, Pow;
    PowOrdered(k, w);
    PowUnfold(k);
    PowUnfold(w);
    if k == 0 {
      AndLow(x, w);
      ModUnique(x, Pow(w), 0, x);
    } else {
      var h := Pow(w - 1) - Pow(k - 1);
      AndHigh(x / 2, k - 1, w - 1);
      AndEven(x, h);
      ModByHalves(x, Pow(k - 1));
    }
  }

  lemma PowUnfold(k: nat)
    ensures Pow(k) == if k == 0 then 1 else 2 * Pow(k - 1)
  {
  }

  lemma {:induction false} PowAdd(j: nat, k: nat)
    ensures Pow(j + k) == Pow(j) * Pow(k)
  {
    if j > 0 {
      PowAdd(j - 1, k);
    }
  }

  lemma PowValues()
    ensures Pow(12) == 0x1000 && Pow(37) == 0x20_0000_0000
    ensures Pow(52) == 0x10_0000_0000_0000 && Pow(64) == 0x1_0000_0000_0000_0000
  {
    assert Pow(4) == 16 && Pow(5) == 32;
    PowAdd(4, 4);
    PowAdd(8, 4);
    PowAdd(8, 8);
    PowAdd(16, 16);
    PowAdd(32, 5);
    PowAdd(32, 32);
    PowAdd(32, 16);
    PowAdd(48, 4);
  }

  /** Joining numbers that share no bit position adds them. */
  lemma {:induction false} OrDisjoint(x: nat, y: nat, k: nat)
    requires x < Pow(k) && y % Pow(k) == 0
    ensures Or(x, y) == x + y
  {
    if k > 0 && x != 0 && y != 0 {
      ModByHalves(y, Pow(k - 1));
      OrDisjoint(x / 2, y / 2, k - 1);
    }
  }
}
