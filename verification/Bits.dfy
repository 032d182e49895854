// Shift-and-mask arithmetic on two's complement integers of any width.

/** C's `<<`, `>>`, `&`, `|` and `& ~` as they act on mathematical integers,
    defined bit by bit, and the two laws every packed word rests on:
    masking with 2^k - 1 is a remainder, and an `|` over disjoint bits is a sum.
    A negative integer has infinitely many one bits, as in two's complement,
    so `Shr` is the arithmetic shift. */
module Bits {

  function Pow2(k: nat): (p: nat)
    ensures p >= 1
  {
    if k == 0 then 1 else 2 * Pow2(k - 1)
  }

  function Shl(x: int, k: nat): int { x * Pow2(k) }

  function Shr(x: int, k: nat): int { x / Pow2(k) }

  function And(x: int, m: nat): int
    decreases m
  {
    if m == 0 then 0 else 2 * And(x / 2, m / 2) + (if x % 2 == 1 then m % 2 else 0)
  }

  function Or(x: int, m: nat): int
    decreases m
  {
    if m == 0 then x else 2 * Or(x / 2, m / 2) + (if x % 2 == 1 then 1 else m % 2)
  }

  function AndNot(x: int, m: nat): int
    decreases m
  {
    if m == 0 then x else 2 * AndNot(x / 2, m / 2) + (if m % 2 == 1 then 0 else x % 2)
  }

  // The masks and flags of the packed words, by bit position.

  /** `x & (2^k - 1)`, so `x & 0xff` is `Low(x, 8)`. */
  function Low(x: int, k: nat): int { And(x, Pow2(k) - 1) }

  /** `x & ((2^w - 1) << k)`, so `x & 0xFF0000` is `MaskAt(x, 16, 8)`. */
  function MaskAt(x: int, k: nat, w: nat): int { And(x, (Pow2(w) - 1) * Pow2(k)) }

  predicate HasBit(x: int, k: nat) { And(x, Pow2(k)) != 0 }

  function SetBit(x: int, k: nat): int { Or(x, Pow2(k)) }

  function ClearBit(x: int, k: nat): int { AndNot(x, Pow2(k)) }

  /** The value of an expression of `width` bits read as a signed integer. */
  function Signed(x: int, width: nat): (r: int)
    requires width >= 1
  {
    var u := x % Pow2(width);
    if u < Pow2(width - 1) then u else u - Pow2(width)
  }

  // ---- arithmetic the solver does not do alone ----

  lemma MulSize(d: int, k: int)
    requires d > 0
    ensures k >= 1 ==> d * k >= d
    ensures k <= -1 ==> d * k <= -d
  {
    if k >= 1 {
      assert d * (k - 1) >= 0;
    } else if k <= -1 {
      assert d * (-k - 1) >= 0;
    }
  }

  lemma DivModUnique(x: int, d: int, q: int, r: int)
    requires d > 0 && 0 <= r < d && x == q * d + r
    ensures x / d == q && x % d == r
  {
    var k := x / d - q;
    assert x == d * (x / d) + x % d;
    assert d * (x / d) == d * (q + k) == d * q + d * k;
    assert d * k == r - x % d;
    MulSize(d, k);
  }

  lemma SmallMod(x: int, d: int)
    requires 0 <= x < d
    ensures x / d == 0 && x % d == x
  {
    DivModUnique(x, d, 0, x);
  }

  lemma {:induction false} Pow2Add(a: nat, b: nat)
    ensures Pow2(a + b) == Pow2(a) * Pow2(b)
  {
    if a > 0 {
      Pow2Add(a - 1, b);
      Mul3(2, Pow2(a - 1), Pow2(b));
    }
  }

  lemma Mul3(a: int, b: int, c: int)
    ensures (a * b) * c == a * (b * c)
  {
  }

  lemma MulMono(a: int, b: int, c: int)
    requires 0 <= c && a <= b
    ensures a * c <= b * c
  {
  }

  /** Dividing twice is dividing once, for the floor division of a shift. */
  lemma DivDiv(x: int, a: int, b: int)
    requires a > 0 && b > 0
    ensures a * b > 0 && x / a / b == x / (a * b)
    ensures x % (a * b) == (x / a % b) * a + x % a
  {
    var r := x % a;
    var q', r' := x / a / b, x / a % b;
    MulMono(1, b, a);
    MulMono(r', b - 1, a);
    calc {
      x;
      x / a * a + r;
      (q' * b + r') * a + r;
      (q' * b) * a + r' * a + r;
      { Mul3(q', b, a); }
      q' * (b * a) + r' * a + r;
    }
    MulMono(0, r', a);
    DivModUnique(x, b * a, q', r' * a + r);
  }

  // ---- the two general laws ----

  lemma AndOdd(x: int, p: nat)
    requires p >= 1
    ensures And(x, 2 * p - 1) == 2 * And(x / 2, p - 1) + x % 2
  {
    assert (2 * p - 1) / 2 == p - 1 && (2 * p - 1) % 2 == 1;
  }

  lemma {:induction false} MaskIsMod(x: int, k: nat)
    ensures Low(x, k) == x % Pow2(k)
    decreases k
  {
    if k > 0 {
      var p := Pow2(k - 1);
      MaskIsMod(x / 2, k - 1);
      AndOdd(x, p);
      DivDiv(x, 2, p);
    }
  }

  lemma {:induction false} OrIsSum(x: int, y: nat, k: nat)
    requires x % Pow2(k) == 0 && y < Pow2(k)
    ensures Or(x, y) == x + y
    decreases k
  {
    if k == 0 {
      assert y == 0;
    } else if y > 0 {
      var p := Pow2(k - 1);
      DivDiv(x, 2, p);
      assert x % 2 == 0 && (x / 2) % p == 0;
      OrIsSum(x / 2, y / 2, k - 1);
    }
  }

  /** Or-ing a field into the zero bits below it. */
  lemma OrFields(high: int, low: nat, k: nat)
    requires low < Pow2(k)
    ensures Or(Shl(high, k), low) == Shl(high, k) + low
  {
    DivModUnique(Shl(high, k), Pow2(k), high, 0);
    OrIsSum(Shl(high, k), low, k);
  }

  /** A flag word: or-ing in the bits of `m` sets them, whatever else is there,
      and clearing them gives back the word exactly when none of them was set. */
  lemma {:induction false} FlagBits(x: int, m: nat)
    ensures And(Or(x, m), m) == m
    ensures AndNot(Or(x, m), m) == AndNot(x, m)
    ensures AndNot(x, m) == x - And(x, m)
    decreases m
  {
    if m > 0 {
      FlagBits(x / 2, m / 2);
      var y := Or(x, m);
      assert y / 2 == Or(x / 2, m / 2) && y % 2 == if x % 2 == 1 then 1 else m % 2;
    }
  }

  /** And-ing with a single bit reads that bit. */
  lemma AndDouble(x: int, m: nat)
    ensures And(x, 2 * m) == 2 * And(x / 2, m)
  {
    assert (2 * m) / 2 == m && (2 * m) % 2 == 0;
  }

  lemma {:induction false} OneBit(x: int, k: nat)
    ensures And(x, Pow2(k)) == if x / Pow2(k) % 2 == 1 then Pow2(k) else 0
    decreases k
  {
    if k == 0 {
      assert And(x, 1) == 2 * And(x / 2, 0) + (if x % 2 == 1 then 1 else 0);
    } else {
      AndDouble(x, Pow2(k - 1));
      OneBit(x / 2, k - 1);
      DivDiv(x, 2, Pow2(k - 1));
    }
  }

  lemma BitAboveValue(x: int, k: nat)
    requires 0 <= x < Pow2(k)
    ensures !HasBit(x, k)
  {
    OneBit(x, k);
    SmallMod(x, Pow2(k));
  }

  // Shifts one bit at a time, for proofs by induction on the distance.

  function Doubled(x: int, k: nat): int { if k == 0 then x else 2 * Doubled(x, k - 1) }

  function Halved(x: int, k: nat): int
    decreases k
  {
    if k == 0 then x else Halved(x / 2, k - 1)
  }

  lemma {:induction false} DoubledIsShl(x: int, k: nat)
    ensures Doubled(x, k) == Shl(x, k)
  {
    if k > 0 {
      DoubledIsShl(x, k - 1);
      assert x * (2 * Pow2(k - 1)) == 2 * (x * Pow2(k - 1));
    }
  }

  lemma {:induction false} HalvedIsShr(x: int, k: nat)
    ensures Halved(x, k) == Shr(x, k)
    decreases k
  {
    if k > 0 {
      HalvedIsShr(x / 2, k - 1);
      DivDiv(x, 2, Pow2(k - 1));
    }
  }

  lemma {:induction false} AndDoubled(x: int, m: nat, k: nat)
    ensures Doubled(m, k) >= 0 && And(x, Doubled(m, k)) == Doubled(And(Halved(x, k), m), k)
    decreases k
  {
    if k > 0 {
      AndDoubled(x / 2, m, k - 1);
      AndDouble(x, Doubled(m, k - 1));
    }
  }

  /** Masking a field in place and then shifting is shifting and then masking. */
  lemma MaskAtIsField(x: int, k: nat, w: nat)
    ensures Shr(MaskAt(x, k, w), k) == Field(x, k, w)
  {
    var m, f := Pow2(w) - 1, Field(x, k, w);
    AndDoubled(x, m, k);
    DoubledIsShl(m, k);
    HalvedIsShr(x, k);
    DoubledIsShl(f, k);
    DivModUnique(Shl(f, k), Pow2(k), f, 0);
  }

  /** The field of `w` bits at bit `k`, as C reads it with a shift and a mask. */
  function Field(x: int, k: nat, w: nat): int { Low(Shr(x, k), w) }

  lemma SignedDiffersAbove(x: int, width: nat) returns (hi: int)
    requires width >= 1
    ensures Signed(x, width) == x + hi * Pow2(width)
  {
    var p := Pow2(width);
    var q := x / p;
    assert x == q * p + x % p;
    hi := if x % p < Pow2(width - 1) then -q else -q - 1;
    assert (-q) * p == -(q * p);
    assert (-q - 1) * p == -(q * p) - p;
  }

  // ---- the widths the game uses ----

  lemma Pow2Constants()
    ensures Pow2(8) == 0x100 && Pow2(16) == 0x1_0000
    ensures Pow2(24) == 0x100_0000 && Pow2(31) == 0x8000_0000 && Pow2(32) == 0x1_0000_0000
  {
    assert Pow2(4) == 16;
    Pow2Add(4, 4);
    Pow2Add(8, 8);
    Pow2Add(8, 16);
    Pow2Add(16, 16);
    assert Pow2(32) == 2 * Pow2(31);
  }

  lemma LowBits(x: int)
    ensures Low(x, 8) == x % 0x100 && Low(x, 16) == x % 0x1_0000
  {
    Pow2Constants();
    MaskIsMod(x, 8);
    MaskIsMod(x, 16);
  }

  lemma Shifts(x: int)
    ensures Shr(x, 0) == x && Shr(x, 8) == x / 0x100 && Shr(x, 16) == x / 0x1_0000 && Shr(x, 24) == x / 0x100_0000
    ensures Shl(x, 8) == x * 0x100 && Shl(x, 16) == x * 0x1_0000 && Shl(x, 24) == x * 0x100_0000
  {
    Pow2Constants();
  }
}
