/** IPv4 prefixes: address blocks, masks, and their spelling (section 3.1 of RFC 4632). */
module Prefixes {
  import opened Prelude
  import opened Text
  import opened Decimal

  function Pow2(n: nat): (p: nat)
    ensures p > 0
  {
    if n == 0 then 1 else 2 * Pow2(n - 1)
  }

  lemma {:induction false} Pow32()
    ensures Pow2(32) == 0x1_0000_0000
  {
    assert Pow2(8) == 256;
    assert Pow2(16) == 0x1_0000;
    assert Pow2(24) == 0x100_0000;
  }

  lemma {:induction false} Pow2Less(m: nat, n: nat)
    requires m < n
    ensures 2 * Pow2(m) <= Pow2(n)
    decreases n
  {
    if m < n - 1 { Pow2Less(m, n - 1); }
  }

  lemma {:induction false} Pow2Injective(m: nat, n: nat)
    requires Pow2(m) == Pow2(n)
    ensures m == n
  {
    if m < n { Pow2Less(m, n); }
    if n < m { Pow2Less(n, m); }
  }

  datatype Prefix = Prefix(base: Address, bits: nat)

  ghost predicate Valid(p: Prefix) { p.bits <= 32 }

  /** The number of addresses in a block. */
  function Size(bits: nat): (n: nat)
    requires bits <= 32
    ensures n > 0
  {
    Pow2(32 - bits)
  }

  predicate Contains(p: Prefix, x: Address)
    requires p.bits <= 32
  {
    x / Size(p.bits) == p.base / Size(p.bits)
  }

  function Masked(p: Prefix): (r: Prefix)
    requires p.bits <= 32
    ensures r.bits == p.bits
  {
    ModAtMost(p.base, Size(p.bits));
    Prefix(p.base - p.base % Size(p.bits), p.bits)
  }

  lemma {:induction false} ModAtMost(b: nat, n: nat)
    requires n > 0
    ensures b % n <= b
  {
    if b < n { assert b % n == b; }
  }

  lemma {:induction false} DivBlock(x: nat, base: nat, n: nat)
    requires n > 0 && base % n == 0
    ensures x / n == base / n <==> base <= x < base + n
  {
    var q := base / n;
    assert base == q * n;
    if base <= x < base + n {
      var r := x - base;
      assert x == q * n + r;
      DivOf(q, n, r);
    }
    if x / n == q {
      assert x == q * n + x % n;
    }
  }

  lemma {:induction false} DivOf(q: nat, n: nat, r: nat)
    requires r < n
    ensures (q * n + r) / n == q && (q * n + r) % n == r
  {
    var a, b := (q * n + r) / n, (q * n + r) % n;
    Distribute(a, q, n);
    SmallMultiple(a - q, n);
  }

  lemma {:induction false} Distribute(a: int, q: int, n: int)
    ensures (a - q) * n == a * n - q * n
  {
  }

  lemma {:induction false} SmallMultiple(d: int, n: int)
    requires n > 0 && -n < d * n < n
    ensures d == 0
  {
    if d > 0 { LeastMultiple(d, n); }
    if d < 0 { LeastMultiple(-d, n); }
  }

  lemma {:induction false} LeastMultiple(d: int, n: int)
    requires d > 0 && n >= 0
    ensures d * n >= n
  {
  }

  lemma {:induction false} DivModIs(b: nat, n: nat)
    requires n > 0
    ensures b / n * n == b - b % n
  {
  }

  lemma {:induction false} MaskedFits(p: Prefix)
    requires p.bits <= 32
    ensures Masked(p).base % Size(p.bits) == 0
    ensures Masked(p).base / Size(p.bits) == p.base / Size(p.bits)
  {
    hide Pow2;
    var n := Size(p.bits);
    DivModIs(p.base, n);
    DivOf(p.base / n, n, 0);
  }

  /** A masked prefix holds exactly the addresses from its base on. */
  lemma {:induction false} MaskedBlock(p: Prefix, x: Address)
    requires p.bits <= 32
    ensures Contains(Masked(p), x) <==> Contains(p, x)
    ensures Contains(p, x) <==> Masked(p).base <= x < Masked(p).base + Size(p.bits)
  {
    MaskedFits(p);
    DivBlock(x, Masked(p).base, Size(p.bits));
  }

  /** Leading ones of a `width`-bit mask; none when another one follows a zero. */
  function MaskBits(mask: nat, width: nat): (r: Option<nat>)
    requires mask < Pow2(width)
    ensures r.Some? ==> r.value <= width
  {
    if width == 0 then Some(0)
    else if mask >= Pow2(width - 1) then
      var rest := MaskBits(mask - Pow2(width - 1), width - 1);
      if rest.None? then None else Some(1 + rest.value)
    else if mask == 0 then Some(0) else None
  }

  /** Exactly the masks of a run of ones then zeros have a length. */
  lemma {:induction false} MaskBitsMeaning(mask: nat, width: nat, n: nat)
    requires mask < Pow2(width) && n <= width
    ensures MaskBits(mask, width) == Some(n) <==> mask == Pow2(width) - Pow2(width - n)
  {
    if width > 0 {
      var half := Pow2(width - 1);
      if n == 0 {
        if mask >= half { MaskBitsSome(mask, width); }
      } else if mask >= half {
        MaskBitsMeaning(mask - half, width - 1, n - 1);
      } else {
        if n < width { Pow2Less(width - n - 1, width - n); }
        Pow2Least(width - n, width - 1);
      }
    }
  }

  lemma {:induction false} Pow2Least(m: nat, n: nat)
    requires m <= n
    ensures Pow2(m) <= Pow2(n)
  {
    if m < n { Pow2Less(m, n); }
  }

  lemma {:induction false} MaskBitsSome(mask: nat, width: nat)
    requires 0 < width && Pow2(width - 1) <= mask < Pow2(width)
    ensures MaskBits(mask, width) != Some(0)
  {
  }

  // ---- spelling ----

  /** An IPv4 address, a slash, and a canonical length of at most 32. */
  function ParsePrefix(raw: string): (r: Option<Prefix>)
    ensures r.Some? ==> r.value.bits <= 32
  {
    var i := LastIndex(raw, '/');
    if i < 0 then None
    else
      var address, bits := ParseIPv4(raw[..i]), raw[i + 1..];
      if address.Some? && Canonical(bits) && Value(bits) <= 32
      then Some(Prefix(address.value, Value(bits))) else None
  }

  function WritePrefix(p: Prefix): (s: string) { WriteIPv4(p.base) + ['/'] + Write(p.bits) }

  lemma {:induction false} ParseWritePrefix(p: Prefix)
    requires p.bits <= 32
    ensures ParsePrefix(WritePrefix(p)) == Some(p)
  {
    hide LastIndex, WriteIPv4, ParseIPv4, Write, Value;
    var a, b := WriteIPv4(p.base), Write(p.bits);
    assert Free(b, '/') by { NumeralFree(b, '/'); }
    LastIndexIs(a, b, '/');
    assert WritePrefix(p)[..|a|] == a && WritePrefix(p)[|a| + 1..] == b;
    ParseWriteIPv4(p.base);
  }

  /** A prefix has one spelling. */
  lemma {:induction false} PrefixUnique(s: string, p: Prefix)
    ensures ParsePrefix(s) == Some(p) <==> p.bits <= 32 && s == WritePrefix(p)
  {
    hide LastIndex, WriteIPv4, ParseIPv4, Write, Value;
    if p.bits <= 32 { ParseWritePrefix(p); }
    if ParsePrefix(s) == Some(p) {
      var i := LastIndex(s, '/');
      IPv4Unique(s[..i]);
      WriteValue(s[i + 1..]);
      assert s == s[..i] + ['/'] + s[i + 1..];
    }
  }
}
