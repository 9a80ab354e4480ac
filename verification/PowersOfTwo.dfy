/** Rounding a 32-bit size up to a power of two by smearing its highest bit downwards. */
module PowersOfTwo {
  import opened Bits

  /** `x >> k`. */
  function Shr(x: nat, k: nat): nat
    decreases k
  {
    if k == 0 then x else Shr(x / 2, k - 1)
  }

  /** `n` low bits set. */
  function Ones(n: nat): nat { Pow2(n) - 1 }

  lemma {:induction false} ShrAdd(x: nat, a: nat, b: nat)
    ensures Shr(Shr(x, a), b) == Shr(x, a + b)
    decreases a
  {
    if a == 0 {
    } else {
      ShrAdd(x / 2, a - 1, b);
    }
  }

  lemma {:induction false} OrIsNat(a: nat, b: nat)
    ensures Or(a, b) >= 0
    decreases a + b
  {
    if a + b == 0 {
    } else {
      OrIsNat(a / 2, b / 2);
    }
  }

  lemma {:induction false} ShrOr(a: nat, b: nat, k: nat)
    ensures Or(a, b) >= 0 && Or(Shr(a, k), Shr(b, k)) == Shr(Or(a, b), k)
    decreases k
  {
    OrIsNat(a, b);
    if k == 0 {
    } else {
      OrIsNat(a / 2, b / 2);
      ShrOr(a / 2, b / 2, k - 1);
      assert Or(a, b) / 2 == Or(a / 2, b / 2);
    }
  }

  lemma {:induction false} ShrOnes(n: nat, k: nat)
    requires k <= n
    ensures Shr(Ones(n), k) == Ones(n - k)
    decreases k
  {
    if k == 0 {
    } else {
      assert Ones(n) / 2 == Ones(n - 1);
      ShrOnes(n - 1, k - 1);
    }
  }

  lemma {:induction false} ShrToZero(x: nat, k: nat)
    requires x < Pow2(k)
    ensures Shr(x, k) == 0
    decreases k
  {
    if k == 0 {
    } else {
      ShrToZero(x / 2, k - 1);
    }
  }

  lemma HalfOnes(s: nat)
    requires s > 0
    ensures Ones(s) % 2 == 1 && Ones(s) / 2 == Ones(s - 1)
  {}

  /** Or-ing ones below a run of ones lengthens the run. */
  lemma {:induction false} OrOnes(y: nat, n: nat, s: nat)
    requires Shr(y, s) == Ones(n)
    ensures Or(y, Ones(s)) == Ones(n + s)
    decreases s
  {
    if s == 0 {
      OrZero(y);
    } else {
      HalfOnes(s);
      HalfOnes(n + s);
      OrOnes(y / 2, n, s - 1);
    }
  }

  /** The highest `n` of the `n + d` bits of `x` are set, and no bit above them. */
  predicate TopOnes(x: nat, n: nat, d: nat) { Shr(x, d) == Ones(n) }

  /** A run of `n` ones shifted right by `n` leaves its upper `s` bits right below the run. */
  lemma ShiftedRun(x: nat, n: nat, d: nat, s: nat)
    requires TopOnes(x, n, d) && s <= n && s <= d
    ensures Shr(Shr(x, n), d - s) == Ones(s)
  {
    ShrAdd(x, n, d - s);
    ShrAdd(x, d, n - s);
    ShrOnes(n, n - s);
  }

  /** One step `x |= x >> n` lengthens the run of ones by as many bits, up to the bits there are. */
  lemma SmearStep(x: nat, n: nat, d: nat, s: nat)
    requires TopOnes(x, n, d) && s <= n && s <= d
    ensures Or(x, Shr(x, n)) >= 0
    ensures TopOnes(Or(x, Shr(x, n)), n + s, d - s)
  {
    ShrOr(x, Shr(x, n), d - s);
    ShiftedRun(x, n, d, s);
    ShrAdd(x, d - s, s);
    OrOnes(Shr(x, d - s), n, s);
  }

  /** Once every bit is set, further steps change nothing. */
  lemma SmearDone(x: nat, n: nat, k: nat)
    requires x == Ones(n) && n <= k
    ensures Or(x, Shr(x, k)) == x
  {
    assert Shr(x, k) == 0 by {
      Pow2Mono(n, k);
      ShrToZero(x, k);
    }
    OrZero(x);
  }

  /** Position of the highest set bit. */
  function HighBit(x: nat): (m: nat)
    requires x > 0
    ensures Pow2(m) <= x < 2 * Pow2(m)
  {
    if x == 1 then 0 else 1 + HighBit(x / 2)
  }

  lemma {:induction false} TopBit(x: nat)
    requires x > 0
    ensures TopOnes(x, 1, HighBit(x))
  {
    if x == 1 {
    } else {
      TopBit(x / 2);
    }
  }

  /** The state of the word after shifts by 1, 2, ..., `width / 2`. */
  predicate Smeared(x: nat, bits: nat, width: nat) {
    if bits <= width then x == Ones(bits) else TopOnes(x, width, bits - width)
  }

  lemma SmearedStep(x: nat, bits: nat, width: nat)
    requires Smeared(x, bits, width)
    ensures Or(x, Shr(x, width)) >= 0 && Smeared(Or(x, Shr(x, width)), bits, 2 * width)
  {
    if bits <= width {
      SmearDone(x, bits, width);
    } else {
      var d := bits - width;
      SmearStep(x, width, d, if width <= d then width else d);
    }
  }

  /** Reference: the least power of two that is at least `x`, searched from `p` upwards. */
  function PowerFrom(x: nat, p: nat): (r: nat)
    requires p > 0
    ensures r >= x && r >= p
    decreases x - p
  {
    if x <= p then p else PowerFrom(x, 2 * p)
  }

  function PowerAbove(x: nat): nat { PowerFrom(x, 1) }

  lemma {:induction false} PowerFromIs(x: nat, i: nat, k: nat)
    requires i <= k && x <= Pow2(k)
    requires i < k ==> Pow2(k - 1) < x
    ensures PowerFrom(x, Pow2(i)) == Pow2(k)
    decreases k - i
  {
    if i == k {
    } else {
      Pow2Mono(i, k - 1);
      PowerFromIs(x, i + 1, k);
    }
  }

  /** `PowerAbove(x)` is a power of two, less than twice `x`. */
  lemma PowerAboveIs(x: nat) returns (k: nat)
    ensures PowerAbove(x) == Pow2(k)
    ensures x > 0 ==> PowerAbove(x) < 2 * x
    ensures k > 0 ==> Pow2(k - 1) < x
  {
    k := if x <= 1 then 0 else HighBit(x - 1) + 1;
    PowerFromIs(x, 0, k);
  }

  /** It is the least one. */
  lemma PowerAboveLeast(x: nat, j: nat)
    requires x <= Pow2(j)
    ensures PowerAbove(x) <= Pow2(j)
  {
    var k := PowerAboveIs(x);
    if k > 0 && j < k { Pow2Mono(j, k - 1); }
    if k <= j { Pow2Mono(k, j); }
  }

  const WORD: nat := 0x1_0000_0000

  lemma WordIsPower()
    ensures WORD == Pow2(32) && WORD / 2 == Pow2(31)
  {
    Pow2Add(16, 16);
    Pow2Add(8, 8);
    assert Pow2(8) == 256;
    assert Pow2(32) == 2 * Pow2(31);
  }

  /** `HighBit(x) + 1` bits make up a word of 32 exactly when the top bit is set. */
  lemma BitsOfWord(x: nat)
    requires 0 < x < WORD
    ensures HighBit(x) + 1 <= 32
    ensures HighBit(x) + 1 == 32 <==> WORD / 2 <= x
  {
    var m := HighBit(x);
    WordIsPower();
    if m >= 32 { Pow2Mono(32, m); }
    if m < 31 { Pow2Mono(m, 31); }
    if m == 31 { assert Pow2(m) == WORD / 2; }
  }

  /** `x |= x >> width`. */
  method ShiftAndOr(x: nat, width: nat, ghost bits: nat) returns (r: nat)
    requires Smeared(x, bits, width)
    ensures Smeared(r, bits, 2 * width)
  {
    SmearedStep(x, bits, width);
    r := Or(x, Shr(x, width));
  }

  /** The five shifts. */
  method Smear(x: nat, ghost bits: nat) returns (y: nat)
    requires Smeared(x, bits, 1) && bits <= 32
    ensures y == Ones(bits)
  {
    y := ShiftAndOr(x, 1, bits);
    y := ShiftAndOr(y, 2, bits);
    y := ShiftAndOr(y, 4, bits);
    y := ShiftAndOr(y, 8, bits);
    y := ShiftAndOr(y, 16, bits);
  }

  ghost function BitLength(x: nat): nat { if x == 0 then 0 else HighBit(x) + 1 }

  lemma BeforeSmear(x: nat)
    requires x < WORD
    ensures Smeared(x, BitLength(x), 1) && BitLength(x) <= 32
  {
    if x > 0 {
      TopBit(x);
      BitsOfWord(x);
    }
  }

  /** The C function, on a 32-bit unsigned word: the least power of two at or above `x`, which
      wraps around to zero where that does not fit a word. */
  method NextPowerOfTwoSize(x: nat) returns (r: nat)
    requires x < WORD
    ensures r == if x <= WORD / 2 then PowerAbove(x) else 0
  {
    if x == 0 {
      return 1;
    }
    BeforeSmear(x - 1);
    var y := Smear(x - 1, BitLength(x - 1));
    RoundedUp(x, BitLength(x - 1));
    r := (y + 1) % WORD;
  }

  lemma RoundedUp(x: nat, bits: nat)
    requires 0 < x < WORD && bits == BitLength(x - 1)
    ensures Pow2(bits) % WORD == if x <= WORD / 2 then PowerAbove(x) else 0
  {
    PowerFromIs(x, 0, bits);
    WordIsPower();
    if x > 1 {
      BitsOfWord(x - 1);
      if bits < 32 { Pow2Mono(bits, 31); }
    }
  }
}
