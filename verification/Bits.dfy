/** Addresses as 32 bits, and the masks that select some of them. */
module Bits {
  import opened Decimal
  import opened Prefixes

  const ALL_ONES: nat := 0xffff_ffff

  function Bit(x: nat, i: nat): (b: nat) { x / Pow2(i) % 2 }

  lemma {:induction false} HalfPower(x: nat, i: nat)
    ensures x / Pow2(i) == 2 * (x / Pow2(i + 1)) + Bit(x, i)
  {
    var p := Pow2(i);
    DivTwice(x, p);
  }

  lemma {:induction false} DivTwice(x: nat, p: nat)
    requires p > 0
    ensures x / (2 * p) == x / p / 2
  {
    var q := x / p;
    var r := x % p;
    var a, b := q / 2, q % 2;
    assert x == q * p + r && q == 2 * a + b;
    Regroup(a, b, p);
    assert x == a * (2 * p) + (b * p + r);
    DivOf(a, 2 * p, b * p + r);
  }

  lemma {:induction false} Regroup(a: nat, b: nat, p: nat)
    requires b < 2
    ensures (2 * a + b) * p == a * (2 * p) + b * p
    ensures b * p <= p
  {
  }

  /** Agreeing on all bits from `k` up is lying in the same block of 2^k addresses. */
  lemma {:induction false} HighBits(x: Address, a: Address, k: nat)
    requires k <= 32
    ensures (forall i :: k <= i < 32 ==> Bit(x, i) == Bit(a, i)) <==> x / Pow2(k) == a / Pow2(k)
    decreases 32 - k
  {
    hide Bit;
    if k == 32 {
      Pow32();
    } else {
      HighBits(x, a, k + 1);
      HalfPower(x, k);
      HalfPower(a, k);
      BitRange(x, k);
      BitRange(a, k);
    }
  }

  lemma {:induction false} BitRange(x: nat, i: nat)
    ensures Bit(x, i) == 0 || Bit(x, i) == 1
  {
  }

  /** A number as the sum of chosen bits. */
  function FromBits(bit: nat -> bool, n: nat): (x: nat)
    ensures x < Pow2(n)
  {
    if n == 0 then 0 else FromBits(bit, n - 1) + if bit(n - 1) then Pow2(n - 1) else 0
  }

  lemma {:induction false} BitOfFromBits(bit: nat -> bool, n: nat, i: nat)
    requires i < n
    ensures Bit(FromBits(bit, n), i) == if bit(i) then 1 else 0
  {
    hide Bit, Pow2;
    var low := FromBits(bit, n - 1);
    if i == n - 1 {
      LowBit(FromBits(bit, n), i, if bit(i) then 1 else 0, low);
    } else {
      BitOfFromBits(bit, n - 1, i);
      if bit(n - 1) { HighBitIrrelevant(low, n - 1, i); }
    }
  }

  lemma {:induction false} HighBitIrrelevant(low: nat, n: nat, i: nat)
    requires i < n
    ensures Bit(low + Pow2(n), i) == Bit(low, i)
  {
    hide Pow2;
    PowSplit(n, i);
    EvenShift(low, Pow2(n - i - 1), Pow2(i));
  }

  lemma {:induction false} EvenShift(low: nat, m: nat, p: nat)
    requires p > 0
    ensures (low + 2 * m * p) / p % 2 == low / p % 2
  {
    var q, r := low / p, low % p;
    Regroup2(q, m, p);
    assert low + 2 * m * p == (q + 2 * m) * p + r by { assert low == q * p + r; }
    DivOf(q + 2 * m, p, r);
    assert (q + 2 * m) % 2 == q % 2;
  }

  lemma {:induction false} Regroup2(q: nat, m: nat, p: nat)
    ensures (q + 2 * m) * p == q * p + 2 * m * p
  {
  }

  lemma {:induction false} PowSplit(n: nat, i: nat)
    requires i < n
    ensures Pow2(n) == 2 * Pow2(n - i - 1) * Pow2(i)
  {
    if i > 0 {
      PowSplit(n - 1, i - 1);
      DoubleLast(Pow2(n - i - 1), Pow2(i - 1));
    }
  }

  lemma {:induction false} DoubleLast(m: nat, p: nat)
    ensures 2 * (2 * m * p) == 2 * m * (2 * p)
  {
  }

  lemma {:induction false} LowBit(x: nat, i: nat, q: nat, r: nat)
    requires x == q * Pow2(i) + r && r < Pow2(i) && q < 2
    ensures Bit(x, i) == q
  {
    DivOf(q, Pow2(i), r);
  }

  lemma {:induction false} FromOwnBits(x: nat, n: nat)
    requires x < Pow2(n)
    ensures FromBits((i: nat) => Bit(x, i) == 1, n) == x
  {
    hide Bit;
    if n > 0 {
      var bit := (i: nat) => Bit(x, i) == 1;
      var p := Pow2(n - 1);
      if x < p {
        LowBit(x, n - 1, 0, x);
        FromOwnBits(x, n - 1);
      } else {
        var low: nat := x - p;
        LowBit(x, n - 1, 1, low);
        FromOwnBits(low, n - 1);
        forall i: nat | i < n - 1 ensures Bit(x, i) == Bit(low, i) { HighBitIrrelevant(low, n - 1, i); }
        SameBits(bit, (i: nat) => Bit(low, i) == 1, n - 1);
      }
    }
  }

  lemma {:induction false} SameBits(b: nat -> bool, c: nat -> bool, n: nat)
    requires forall i :: 0 <= i < n ==> b(i) == c(i)
    ensures FromBits(b, n) == FromBits(c, n)
  {
    if n > 0 { SameBits(b, c, n - 1); }
  }

  lemma {:induction false} MoreBits(b: nat -> bool, c: nat -> bool, n: nat)
    requires forall i :: 0 <= i < n && b(i) ==> c(i)
    ensures FromBits(b, n) <= FromBits(c, n)
  {
    if n > 0 { MoreBits(b, c, n - 1); }
  }

  /** Setting bits that were clear adds them. */
  lemma {:induction false} DisjointBits(b: nat -> bool, c: nat -> bool, n: nat)
    requires forall i :: 0 <= i < n ==> !(b(i) && c(i))
    ensures FromBits((i: nat) => b(i) || c(i), n) == FromBits(b, n) + FromBits(c, n)
  {
    if n > 0 { DisjointBits(b, c, n - 1); }
  }

  lemma {:induction false} FromOnes(k: nat, n: nat)
    requires k <= n
    ensures FromBits((i: nat) => i < k, n) == Pow2(k) - 1
  {
    var below := (i: nat) => i < k;
    if k < n {
      FromOnes(k, n - 1);
    } else if n > 0 {
      FromOnes(n - 1, n - 1);
      SameBits(below, (i: nat) => i < n - 1, n - 1);
    }
  }

  // ---- masks ----

  /** No selected bit stands below one that is not. */
  ghost predicate Contiguous(m: Address) {
    forall i, j :: 0 <= i < j < 32 && Bit(m, i) == 1 ==> Bit(m, j) == 1
  }

  /** The address has no bit the mask does not select. */
  ghost predicate NoHostBits(a: Address, m: Address) {
    forall i :: 0 <= i < 32 && Bit(a, i) == 1 ==> Bit(m, i) == 1
  }

  /** The addresses agree on the bits the mask selects. */
  ghost predicate Agree(x: Address, a: Address, m: Address) {
    forall i :: 0 <= i < 32 && Bit(m, i) == 1 ==> Bit(x, i) == Bit(a, i)
  }

  /** A mask of leading ones. */
  function Leading(n: nat): (m: nat)
    requires n <= 32
  {
    Pow2Least(32 - n, 32);
    Pow2(32) - Pow2(32 - n)
  }

  lemma {:induction false} BitsFrom(k: nat, n: nat)
    requires k <= n
    ensures FromBits((i: nat) => i >= k, n) == Pow2(n) - Pow2(k)
  {
    if k < n {
      BitsFrom(k, n - 1);
    } else {
      NoBits((i: nat) => i >= k, n);
    }
  }

  lemma {:induction false} NoBits(bit: nat -> bool, n: nat)
    requires forall i :: 0 <= i < n ==> !bit(i)
    ensures FromBits(bit, n) == 0
  {
    if n > 0 { NoBits(bit, n - 1); }
  }

  lemma {:induction false} LeadingBits(n: nat, i: nat)
    requires n <= 32 && i < 32
    ensures Bit(Leading(n), i) == if i >= 32 - n then 1 else 0
  {
    hide Bit, FromBits, Pow2;
    var from := (j: nat) => j >= 32 - n;
    BitsFrom(32 - n, 32);
    BitOfFromBits(from, 32, i);
  }

  lemma {:induction false} LowestOne(m: Address) returns (k: nat)
    ensures k <= 32 && (forall i :: 0 <= i < k ==> Bit(m, i) == 0) && (k < 32 ==> Bit(m, k) == 1)
  {
    hide Bit;
    k := 0;
    while k < 32 && Bit(m, k) == 0
      invariant k <= 32 && forall i :: 0 <= i < k ==> Bit(m, i) == 0
    {
      k := k + 1;
    }
    if k < 32 { BitRange(m, k); }
  }

  /** The contiguous masks are the ones of leading ones. */
  lemma {:induction false} ContiguousLeading(m: Address) returns (n: nat)
    requires Contiguous(m)
    ensures n <= 32 && m == Leading(n)
  {
    hide Bit, FromBits, Pow2;
    var k := LowestOne(m);
    n := 32 - k;
    Pow32();
    FromOwnBits(m, 32);
    BitsFrom(k, 32);
    SameBits((i: nat) => Bit(m, i) == 1, (i: nat) => i >= k, 32);
  }

  lemma {:induction false} LeadingContiguous(m: Address, n: nat)
    requires n <= 32 && m == Leading(n)
    ensures Contiguous(m)
  {
    hide Bit, Leading;
    forall i: nat | i < 32 ensures Bit(m, i) == if i >= 32 - n then 1 else 0 { LeadingBits(n, i); }
  }

  /** A mask has a length exactly when it is contiguous. */
  lemma {:induction false} MaskLength(m: Address)
    ensures m < Pow2(32)
    ensures MaskBits(m, 32).Some? <==> Contiguous(m)
    ensures MaskBits(m, 32).Some? ==> m == Leading(MaskBits(m, 32).value)
  {
    hide Bit, Pow2, MaskBits, Contiguous;
    Pow32();
    if MaskBits(m, 32).Some? {
      MaskBitsMeaning(m, 32, MaskBits(m, 32).value);
      LeadingContiguous(m, MaskBits(m, 32).value);
    }
    if Contiguous(m) {
      var n := ContiguousLeading(m);
      MaskBitsMeaning(m, 32, n);
    }
  }

  /** Agreeing on the bits of a mask of leading ones is lying in the same block. */
  lemma {:induction false} AgreeBlock(x: Address, a: Address, n: nat)
    requires n <= 32 && Leading(n) < 0x1_0000_0000
    ensures Agree(x, a, Leading(n)) <==> Contains(Prefix(a, n), x)
  {
    hide Bit, Leading, Pow2;
    forall i: nat | i < 32 ensures Bit(Leading(n), i) == if i >= 32 - n then 1 else 0 { LeadingBits(n, i); }
    HighBits(x, a, 32 - n);
  }

  lemma {:induction false} LowBitsClear(a: nat, k: nat)
    ensures (forall i :: 0 <= i < k ==> Bit(a, i) == 0) <==> a % Pow2(k) == 0
  {
    hide Bit;
    if k > 0 {
      LowBitsClear(a, k - 1);
      HalfPower(a, k - 1);
      BitRange(a, k - 1);
      ModTwice(a, Pow2(k - 1));
    }
  }

  lemma {:induction false} ModTwice(a: nat, p: nat)
    requires p > 0
    ensures a % (2 * p) == 0 <==> a % p == 0 && a / p % 2 == 0
  {
    var q, r := a / p, a % p;
    var h, b := q / 2, q % 2;
    assert a == q * p + r && q == 2 * h + b;
    Regroup(h, b, p);
    assert a == h * (2 * p) + (b * p + r);
    DivOf(h, 2 * p, b * p + r);
  }

  /** Nothing is lost by masking exactly when there are no host bits. */
  lemma {:induction false} MaskedBits(a: Address, n: nat)
    requires n <= 32 && Leading(n) < 0x1_0000_0000
    ensures NoHostBits(a, Leading(n)) <==> Masked(Prefix(a, n)) == Prefix(a, n)
  {
    hide Bit, Leading, Pow2;
    forall i: nat | i < 32 ensures Bit(Leading(n), i) == if i >= 32 - n then 1 else 0 { LeadingBits(n, i); }
    forall i: nat | i < 32 ensures Bit(a, i) == 0 || Bit(a, i) == 1 { BitRange(a, i); }
    LowBitsClear(a, 32 - n);
  }
}
