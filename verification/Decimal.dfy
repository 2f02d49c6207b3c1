/** Decimal numerals and dotted IPv4 addresses, read and written as the standard library
    reads and writes them. */
module Decimal {
  import opened Prelude
  import opened Text

  predicate Digit(c: char) { '0' <= c <= '9' }

  predicate Numeral(s: string) { s != "" && forall i :: 0 <= i < |s| ==> Digit(s[i]) }

  /** No sign, and no zero in front of another digit. */
  predicate Canonical(s: string) { Numeral(s) && (|s| == 1 || s[0] != '0') }

  /** A canonical numeral for a positive number. */
  predicate Positive(s: string) { Numeral(s) && s[0] != '0' }

  function DigitValue(c: char): (n: nat)
    requires Digit(c)
  {
    c as int - '0' as int
  }

  function Value(s: string): (n: nat)
    requires forall i :: 0 <= i < |s| ==> Digit(s[i])
  {
    if s == "" then 0 else 10 * Value(s[..|s| - 1]) + DigitValue(s[|s| - 1])
  }

  function Write(n: nat): (s: string)
    ensures Canonical(s) && Value(s) == n
    ensures n > 0 ==> Positive(s)
  {
    var last := ('0' as int + n % 10) as char;
    if n < 10 then [last]
    else
      var front := Write(n / 10);
      assert (front + [last])[..|front|] == front;
      front + [last]
  }

  lemma {:induction false} ValueZero(s: string)
    requires Positive(s)
    ensures Value(s) > 0
  {
    if |s| > 1 { ValueZero(s[..|s| - 1]); }
  }

  /** Writing inverts reading on canonical numerals. */
  lemma {:induction false} WriteValue(s: string)
    requires Canonical(s)
    ensures Write(Value(s)) == s
  {
    var front := s[..|s| - 1];
    var digit := DigitValue(s[|s| - 1]);
    assert s == front + [s[|s| - 1]];
    if |s| > 1 {
      ValueZero(front);
      WriteValue(front);
      assert Value(s) / 10 == Value(front) && Value(s) % 10 == digit;
    }
  }

  /** Base-10 parsing into `limit` values: digits only, leading zeros accepted. */
  function ParseUint(s: string, limit: nat): (r: Option<nat>)
    ensures r.Some? ==> r.value < limit
  {
    if Numeral(s) && Value(s) < limit then Some(Value(s)) else None
  }

  type Address = n: nat | n < 0x1_0000_0000

  function Octet(s: string): (r: Option<nat>)
    ensures r.Some? ==> r.value < 256
  {
    if Canonical(s) && Value(s) < 256 then Some(Value(s)) else None
  }

  function Quad(a: nat, b: nat, c: nat, d: nat): (r: Address)
    requires a < 256 && b < 256 && c < 256 && d < 256
  {
    ((a * 256 + b) * 256 + c) * 256 + d
  }

  /** Exactly four octets, none with a leading zero. */
  function ParseIPv4(s: string): (r: Option<Address>) {
    var p := Split(s, '.');
    if |p| == 4 && Octet(p[0]).Some? && Octet(p[1]).Some? && Octet(p[2]).Some? && Octet(p[3]).Some?
    then Some(Quad(Octet(p[0]).value, Octet(p[1]).value, Octet(p[2]).value, Octet(p[3]).value))
    else None
  }

  function OctetTexts(a: Address): (p: seq<string>) {
    [Write(a / 0x100_0000), Write(a / 0x1_0000 % 256), Write(a / 0x100 % 256), Write(a % 256)]
  }

  function WriteIPv4(a: Address): string { Join(OctetTexts(a), '.') }

  lemma {:induction false} NumeralFree(s: string, sep: char)
    requires Numeral(s) && !Digit(sep)
    ensures Free(s, sep)
  {
  }

  lemma {:induction false} OctetsFree(a: Address)
    ensures AllFree(OctetTexts(a), '.')
  {
    hide Write, Value;
    var p := OctetTexts(a);
    forall i | 0 <= i < |p| ensures Free(p[i], '.') { NumeralFree(p[i], '.'); }
  }

  lemma {:induction false} QuadBytes(a: Address)
    ensures a / 0x100_0000 < 256
    ensures Quad(a / 0x100_0000, a / 0x1_0000 % 256, a / 0x100 % 256, a % 256) == a
  {
    var x, y := a / 0x100, a / 0x1_0000;
    assert y == x / 256 && a / 0x100_0000 == y / 256;
  }

  lemma {:induction false} ParseWriteIPv4(a: Address)
    ensures ParseIPv4(WriteIPv4(a)) == Some(a)
  {
    hide Write, Value, Join, Split, Canonical, Quad;
    OctetsFree(a);
    SplitJoin(OctetTexts(a), '.');
    QuadBytes(a);
  }

  lemma {:induction false} QuadParts(a: nat, b: nat, c: nat, d: nat)
    requires a < 256 && b < 256 && c < 256 && d < 256
    ensures var q := Quad(a, b, c, d);
            q / 0x100_0000 == a && q / 0x1_0000 % 256 == b && q / 0x100 % 256 == c && q % 256 == d
  {
    var x := a * 256 + b;
    var y := x * 256 + c;
    ByteBelow(a, b);
    ByteBelow(x, c);
    ByteBelow(y, d);
    Shifted(Quad(a, b, c, d));
  }

  lemma {:induction false} ByteBelow(x: nat, r: nat)
    requires r < 256
    ensures (x * 256 + r) / 256 == x && (x * 256 + r) % 256 == r
  {
  }

  lemma {:induction false} Shifted(q: nat)
    ensures q / 0x1_0000 == q / 256 / 256 && q / 0x100_0000 == q / 256 / 256 / 256
  {
  }

  /** An address has one spelling. */
  lemma {:induction false} IPv4Unique(s: string)
    requires ParseIPv4(s).Some?
    ensures s == WriteIPv4(ParseIPv4(s).value)
  {
    hide Write, Value, Join, Split, Quad;
    var p := Split(s, '.');
    JoinSplit(s, '.');
    QuadParts(Value(p[0]), Value(p[1]), Value(p[2]), Value(p[3]));
    forall i | 0 <= i < 4 ensures Write(Value(p[i])) == p[i] { WriteValue(p[i]); }
    assert OctetTexts(ParseIPv4(s).value) == p;
  }

  /** No numeral is an address. */
  lemma {:induction false} NumeralNoQuad(s: string)
    requires Numeral(s)
    ensures ParseIPv4(s).None?
  {
    hide Split;
    NumeralFree(s, '.');
    SplitWhole(s, '.');
  }
}
