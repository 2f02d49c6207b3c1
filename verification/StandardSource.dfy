/** Source expressions of standard ACL rules, normalised to canonical prefixes. */
module StandardSource {
  import opened Prelude
  import opened Decimal
  import opened Prefixes
  import opened Bits

  datatype SourceError = BadHost | BadExpression | Unsupported | BadAddress | BadWildcard | Noncontiguous

  lemma {:induction false} MaskRange(wildcard: Address)
    ensures ALL_ONES - wildcard < Pow2(32)
  {
    Pow32();
  }

  function Normalise(fields: seq<string>): (r: Result<string, SourceError>)
  {
    if fields == ["any"] then Ok("any")
    else if |fields| == 2 && fields[0] == "host" then
      var address := ParseIPv4(fields[1]);
      if address.None? then Err(BadHost) else Ok(WritePrefix(Prefix(address.value, 32)))
    else if |fields| == 1 then
      var prefix := ParsePrefix(fields[0]);
      if prefix.None? then Err(BadExpression)
      else if prefix.value.bits == 0 then Ok("any")
      else Ok(WritePrefix(Masked(prefix.value)))
    else if |fields| != 2 then Err(Unsupported)
    else
      var address, wildcard := ParseIPv4(fields[0]), ParseIPv4(fields[1]);
      if address.None? then Err(BadAddress)
      else if wildcard.None? then Err(BadWildcard)
      else
        MaskRange(wildcard.value);
        var bits := MaskBits(ALL_ONES - wildcard.value, 32);
        if bits.None? then Err(Noncontiguous)
        else if bits.value == 0 then Ok("any")
        else Ok(WritePrefix(Masked(Prefix(address.value, bits.value))))
  }

  // ---- what a source expression matches ----

  datatype Source = Any | Host(address: Address) | Block(prefix: Prefix) | Wildcard(address: Address, mask: Address)

  /** The four spellings of the native command. */
  function Read(fields: seq<string>): (r: Option<Source>)
    ensures r.Some? && r.value.Block? ==> r.value.prefix.bits <= 32
  {
    if |fields| == 1 then
      if fields[0] == "any" then Some(Any)
      else if ParsePrefix(fields[0]).Some? then Some(Block(ParsePrefix(fields[0]).value)) else None
    else if |fields| != 2 || ParseIPv4(fields[1]).None? then None
    else if fields[0] == "host" then Some(Host(ParseIPv4(fields[1]).value))
    else if ParseIPv4(fields[0]).None? then None
    else Some(Wildcard(ParseIPv4(fields[0]).value, ParseIPv4(fields[1]).value))
  }

  /** A wildcard bit of one means the packet's bit is not compared. */
  ghost predicate Matches(s: Source, x: Address)
    requires s.Block? ==> s.prefix.bits <= 32
  {
    match s
    case Any => true
    case Host(a) => x == a
    case Block(p) => Contains(p, x)
    case Wildcard(a, w) => forall i :: 0 <= i < 32 ==> Bit(w, i) == 1 || Bit(x, i) == Bit(a, i)
  }

  /** What a normalised source means to the device. */
  ghost predicate Denotes(out: string, x: Address) {
    out == "any" || (ParsePrefix(out).Some? && Contains(ParsePrefix(out).value, x))
  }

  // ---- wildcard sets ----

  function LowBits(a: nat, w: nat): nat -> bool { (i: nat) => Bit(w, i) != 1 && Bit(a, i) == 1 }

  function HighestBits(a: nat, w: nat): nat -> bool { (i: nat) => LowBits(a, w)(i) || Bit(w, i) == 1 }

  lemma {:induction false} ExtremesApart(a: Address, w: Address)
    ensures FromBits(HighestBits(a, w), 32) == FromBits(LowBits(a, w), 32) + w
  {
    hide Bit, FromBits;
    Pow32();
    var own := (i: nat) => Bit(w, i) == 1;
    DisjointBits(LowBits(a, w), own, 32);
    SameBits(HighestBits(a, w), (i: nat) => LowBits(a, w)(i) || own(i), 32);
    FromOwnBits(w, 32);
  }

  lemma {:induction false} AddressFromBits(bit: nat -> bool)
    ensures FromBits(bit, 32) < 0x1_0000_0000
  {
    hide FromBits;
    Pow32();
  }

  lemma {:induction false} ExtremesMatch(a: Address, w: Address)
    ensures FromBits(LowBits(a, w), 32) < 0x1_0000_0000 && FromBits(HighestBits(a, w), 32) < 0x1_0000_0000
    ensures Matches(Wildcard(a, w), FromBits(LowBits(a, w), 32))
    ensures Matches(Wildcard(a, w), FromBits(HighestBits(a, w), 32))
  {
    hide Bit, FromBits;
    AddressFromBits(LowBits(a, w));
    AddressFromBits(HighestBits(a, w));
    forall i: nat | i < 32
      ensures Bit(w, i) == 1 || Bit(FromBits(LowBits(a, w), 32), i) == Bit(a, i)
      ensures Bit(w, i) == 1 || Bit(FromBits(HighestBits(a, w), 32), i) == Bit(a, i)
    {
      BitRange(a, i);
      BitOfFromBits(LowBits(a, w), 32, i);
      BitOfFromBits(HighestBits(a, w), 32, i);
    }
  }

  lemma {:induction false} ExtremesBound(a: Address, w: Address, x: Address)
    requires Matches(Wildcard(a, w), x)
    ensures FromBits(LowBits(a, w), 32) <= x <= FromBits(HighestBits(a, w), 32)
  {
    hide Bit, FromBits;
    Pow32();
    var own := (i: nat) => Bit(x, i) == 1;
    FromOwnBits(x, 32);
    forall i: nat | i < 32
      ensures LowBits(a, w)(i) ==> own(i)
      ensures own(i) ==> HighestBits(a, w)(i)
    {
      BitRange(a, i);
    }
    MoreBits(LowBits(a, w), own, 32);
    MoreBits(own, HighestBits(a, w), 32);
  }

  /** A wildcard set that is some prefix's block has a wildcard of trailing ones. */
  lemma {:induction false} BlockWildcard(a: Address, w: Address, p: Prefix)
    requires p.bits <= 32 && forall x: Address :: Matches(Wildcard(a, w), x) <==> Contains(p, x)
    ensures w == Size(p.bits) - 1
  {
    hide Bit, FromBits, Matches, Contains, Size;
    var low, high := FromBits(LowBits(a, w), 32), FromBits(HighestBits(a, w), 32);
    ExtremesApart(a, w);
    ExtremesMatch(a, w);
    MaskedBlock(p, low);
    MaskedBlock(p, high);
    var first := Masked(p).base;
    BlockEnds(p);
    var last := first + Size(p.bits) - 1;
    MaskedBlock(p, first);
    MaskedBlock(p, last);
    ExtremesBound(a, w, first);
    ExtremesBound(a, w, last);
  }

  /** A block ends inside the address space. */
  lemma {:induction false} BlockEnds(p: Prefix)
    requires p.bits <= 32
    ensures Masked(p).base + Size(p.bits) <= 0x1_0000_0000
  {
    hide Pow2;
    MaskedFits(p);
    Pow32();
    var k := 32 - p.bits;
    PowAdd(k, p.bits);
    ExactMultiple(Masked(p).base, Pow2(k));
    FitsBelow(Masked(p).base / Pow2(k), Pow2(k), Pow2(p.bits));
  }

  lemma {:induction false} ExactMultiple(b: nat, n: nat)
    requires n > 0 && b % n == 0
    ensures b / n * n == b
  {
  }

  lemma {:induction false} PowAdd(k: nat, l: nat)
    ensures Pow2(k + l) == Pow2(k) * Pow2(l)
  {
    if l > 0 { PowAdd(k, l - 1); }
  }

  lemma {:induction false} FitsBelow(q: nat, n: nat, m: nat)
    requires q * n < n * m
    ensures q * n + n <= n * m
  {
    if q >= m { Monotone(m, q, n); }
    Monotone(q + 1, m, n);
  }

  lemma {:induction false} Monotone(a: nat, b: nat, n: nat)
    ensures a <= b ==> a * n <= b * n
  {
  }

  lemma {:induction false} TrailingOnes(a: Address, k: nat, x: Address)
    requires k <= 32 && Pow2(k) - 1 < 0x1_0000_0000
    ensures Matches(Wildcard(a, Pow2(k) - 1), x) <==> x / Pow2(k) == a / Pow2(k)
  {
    hide Bit, FromBits;
    FromOnes(k, 32);
    var ones := Pow2(k) - 1;
    forall i: nat | i < 32 ensures Bit(ones, i) == if i < k then 1 else 0 {
      BitOfFromBits((j: nat) => j < k, 32, i);
    }
    HighBits(x, a, k);
  }

  // ---- the normalised source ----

  lemma {:induction false} PrefixNotAny(p: Prefix)
    ensures WritePrefix(p) != "any"
  {
    hide WriteIPv4, Write;
    var n := |WriteIPv4(p.base)|;
    assert WritePrefix(p)[n] == '/';
  }

  lemma {:induction false} WildcardMask(w: Address, n: nat)
    requires n <= 32
    ensures ALL_ONES - w < Pow2(32)
    ensures MaskBits(ALL_ONES - w, 32) == Some(n) <==> w == Size(n) - 1
  {
    hide MaskBits, Pow2;
    Pow32();
    MaskBitsMeaning(ALL_ONES - w, 32, n);
  }

  /** A normalised source matches exactly the addresses the spelling matches. */
  lemma {:induction false} NormaliseMeaning(fields: seq<string>, x: Address)
    requires Normalise(fields).Ok?
    ensures Read(fields).Some?
    ensures Matches(Read(fields).value, x) <==> Denotes(Normalise(fields).value, x)
  {
    hide ParseIPv4, ParsePrefix, WritePrefix, MaskBits, Bit, Contains, Pow2;
    if fields == ["any"] {
    } else if |fields| == 2 && fields[0] == "host" {
      var p := Prefix(ParseIPv4(fields[1]).value, 32);
      ParseWritePrefix(p);
      PrefixNotAny(p);
      HostBlock(p, x);
    } else if |fields| == 1 {
      var p := ParsePrefix(fields[0]).value;
      ParseWritePrefix(Masked(p));
      PrefixNotAny(Masked(p));
      MaskedBlock(p, x);
      if p.bits == 0 { WholeSpace(p.base, x); }
    } else {
      WildcardMeaning(ParseIPv4(fields[0]).value, ParseIPv4(fields[1]).value, x);
    }
  }

  lemma {:induction false} HostBlock(p: Prefix, x: Address)
    requires p.bits == 32
    ensures Contains(p, x) <==> x == p.base
  {
    assert Size(32) == 1;
  }

  lemma {:induction false} WholeSpace(base: Address, x: Address)
    ensures Contains(Prefix(base, 0), x)
  {
    Pow32();
  }

  lemma {:induction false} WildcardMeaning(a: Address, w: Address, x: Address)
    ensures ALL_ONES - w < Pow2(32)
    ensures MaskBits(ALL_ONES - w, 32).Some? ==>
              var p := Masked(Prefix(a, MaskBits(ALL_ONES - w, 32).value));
              && (Matches(Wildcard(a, w), x) <==> Contains(p, x))
              && ParsePrefix(WritePrefix(p)) == Some(p) && WritePrefix(p) != "any"
              && (p.bits == 0 ==> Contains(p, x))
  {
    hide MaskBits, WritePrefix, ParsePrefix, Matches, Pow2;
    MaskRange(w);
    var bits := MaskBits(ALL_ONES - w, 32);
    if bits.Some? {
      var n := bits.value;
      var p := Prefix(a, n);
      WildcardMask(w, n);
      TrailingOnes(a, 32 - n, x);
      MaskedBlock(p, x);
      ParseWritePrefix(Masked(p));
      PrefixNotAny(Masked(p));
      if n == 0 { WholeSpace(Masked(p).base, x); }
    }
  }

  /** Among readable spellings, exactly those whose set is a prefix block are accepted: only
      noncontiguous wildcards are refused. */
  lemma {:induction false} RejectsExactly(fields: seq<string>)
    requires Read(fields).Some?
    ensures Normalise(fields).Ok? <==>
            exists p: Prefix :: p.bits <= 32 && forall x: Address :: Matches(Read(fields).value, x) <==> Contains(p, x)
  {
    hide ParseIPv4, ParsePrefix, MaskBits, Matches, Contains, WritePrefix;
    var s := Read(fields).value;
    if Normalise(fields).Ok? {
      var p := OutBlock(fields);
      forall x: Address ensures Matches(s, x) <==> Contains(p, x) {
        NormaliseMeaning(fields, x);
        OutBlockDenotes(fields, x);
      }
    }
    if p: Prefix :| p.bits <= 32 && forall x: Address :: Matches(s, x) <==> Contains(p, x) {
      if s.Wildcard? {
        BlockWildcard(s.address, s.mask, p);
        WildcardMask(s.mask, p.bits);
      }
    }
  }

  /** The block an accepted spelling normalises to. */
  ghost function OutBlock(fields: seq<string>): (p: Prefix)
    requires Normalise(fields).Ok?
    ensures p.bits <= 32
  {
    var out := Normalise(fields).value;
    if out == "any" then Prefix(0, 0)
    else if ParsePrefix(out).Some? then ParsePrefix(out).value else Prefix(0, 0)
  }

  /** An accepted spelling's output is the canonical text of its block. */
  lemma {:induction false} OutCanonical(fields: seq<string>)
    requires Normalise(fields).Ok?
    ensures var p := OutBlock(fields);
            && p.base % Size(p.bits) == 0
            && (p.bits == 0 <==> Normalise(fields).value == "any")
            && (p.bits > 0 ==> Normalise(fields).value == WritePrefix(p) && ParsePrefix(WritePrefix(p)) == Some(p))
            && (p.bits == 0 ==> p.base == 0)
  {
    hide ParseIPv4, ParsePrefix, MaskBits, WritePrefix, Pow2;
    var out := Normalise(fields).value;
    if out != "any" {
      var q := if |fields| == 2 && fields[0] == "host" then Prefix(ParseIPv4(fields[1]).value, 32)
               else if |fields| == 1 then Masked(ParsePrefix(fields[0]).value)
               else
                 var wild := ParseIPv4(fields[1]).value;
                 assert ALL_ONES - wild < Pow2(32) by { MaskRange(wild); }
                 Masked(Prefix(ParseIPv4(fields[0]).value, MaskBits(ALL_ONES - wild, 32).value));
      assert out == WritePrefix(q) && q.bits > 0;
      ParseWritePrefix(q);
      MaskedFits(q);
      if |fields| == 2 && fields[0] == "host" { SizeOne(); }
      else if |fields| == 1 { MaskedFits(ParsePrefix(fields[0]).value); }
      else { MaskedFits(Prefix(ParseIPv4(fields[0]).value, q.bits)); }
    } else {
      if |fields| == 2 && fields[0] == "host" { PrefixNotAny(Prefix(ParseIPv4(fields[1]).value, 32)); }
    }
  }

  lemma {:induction false} SizeOne()
    ensures Size(32) == 1
  {
  }

  lemma {:induction false} OutBlockDenotes(fields: seq<string>, x: Address)
    requires Normalise(fields).Ok?
    ensures Denotes(Normalise(fields).value, x) <==> Contains(OutBlock(fields), x)
  {
    hide ParsePrefix, WritePrefix, Normalise, Contains;
    OutCanonical(fields);
    if OutBlock(fields).bits == 0 { WholeSpace(0, x); }
  }

  /** Two accepted spellings match the same addresses exactly when they normalise alike. */
  lemma {:induction false} NormaliseCanonical(f1: seq<string>, f2: seq<string>)
    requires Normalise(f1).Ok? && Normalise(f2).Ok?
    ensures Read(f1).Some? && Read(f2).Some?
    ensures Normalise(f1).value == Normalise(f2).value
            <==> forall x: Address :: Matches(Read(f1).value, x) <==> Matches(Read(f2).value, x)
  {
    hide Normalise, Read, Matches, Denotes, ParsePrefix, WritePrefix, Contains, Size;
    NormaliseMeaning(f1, 0);
    NormaliseMeaning(f2, 0);
    forall x: Address
      ensures Matches(Read(f1).value, x) <==> Denotes(Normalise(f1).value, x)
      ensures Matches(Read(f2).value, x) <==> Denotes(Normalise(f2).value, x)
    {
      NormaliseMeaning(f1, x);
      NormaliseMeaning(f2, x);
    }
    if forall x: Address :: Matches(Read(f1).value, x) <==> Matches(Read(f2).value, x) {
      var p, q := OutBlock(f1), OutBlock(f2);
      forall x: Address ensures Contains(p, x) <==> Contains(q, x) {
        OutBlockDenotes(f1, x);
        OutBlockDenotes(f2, x);
      }
      OutCanonical(f1);
      OutCanonical(f2);
      EqualBlocks(p, q);
    }
  }

  lemma {:induction false} EqualBlocks(p: Prefix, q: Prefix)
    requires p.bits <= 32 && q.bits <= 32 && p.base % Size(p.bits) == 0 && q.base % Size(q.bits) == 0
    requires forall x: Address :: Contains(p, x) <==> Contains(q, x)
    ensures p == q
  {
    hide Contains, Pow2;
    BlockEnds(p);
    BlockEnds(q);
    MaskedBlock(p, p.base);
    MaskedBlock(q, p.base);
    MaskedBlock(p, q.base);
    MaskedBlock(q, q.base);
    var x, y := p.base + Size(p.bits) - 1, q.base + Size(q.bits) - 1;
    MaskedBlock(p, x);
    MaskedBlock(q, x);
    MaskedBlock(p, y);
    MaskedBlock(q, y);
    Pow2Injective(32 - p.bits, 32 - q.bits);
  }
}
