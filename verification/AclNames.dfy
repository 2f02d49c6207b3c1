/** Names of access lists: tokens that can stand in native configuration and in a path, with
    the numbers set aside for numbered lists. */
module AclNames {
  import opened Prelude
  import opened Decimal
  import opened Text

  /** Unicode white space. */
  predicate White(c: char) {
    var n := c as int;
    || 9 <= n <= 13 || n == 0x20 || n == 0x85 || n == 0xa0 || n == 0x1680 || 0x2000 <= n <= 0x200a
    || n == 0x2028 || n == 0x2029 || n == 0x202f || n == 0x205f || n == 0x3000
  }

  predicate Control(c: char) { c as int < 0x20 || 0x7f <= c as int <= 0x9f }

  predicate NameOk(name: string) {
    && name != "" && name != "." && name != ".."
    && forall i :: 0 <= i < |name| ==> name[i] != '/' && !White(name[i]) && !Control(name[i])
  }

  /** The length in UTF-8. */
  function Bytes(s: string): (n: nat) {
    if s == "" then 0
    else
      var c := s[|s| - 1] as int;
      Bytes(s[..|s| - 1]) + if c < 0x80 then 1 else if c < 0x800 then 2 else if c < 0x1_0000 then 3 else 4
  }

  const LAST_NAME := 47
  const INT64_LIMIT := 0x8000_0000_0000_0000

  /** Base-10 parsing into 64 signed bits; a sign may lead. */
  function ParseInt(s: string): (r: Option<int>) {
    if s != "" && s[0] == '-' then
      var n := ParseUint(s[1..], INT64_LIMIT + 1);
      if n.None? then None else Some(-(n.value as int))
    else
      var n := ParseUint(if s != "" && s[0] == '+' then s[1..] else s, INT64_LIMIT);
      if n.Some? then Some(n.value) else None
  }

  function FormatInt(n: int): string { if n < 0 then "-" + Write(-n) else Write(n) }

  /** The name is a number of the range and prints back to itself. */
  predicate Numbered(name: string, first: nat, last: nat) {
    var n := ParseInt(name);
    n.Some? && first <= n.value <= last && FormatInt(n.value) == name
  }

  /** Extended lists: named, or for IPv4 numbered from 100 through 199. */
  predicate IpName(ipv4: bool, name: string) {
    && NameOk(name) && Bytes(name) <= LAST_NAME
    && (Numeral(name) ==> ipv4 && Numbered(name, 100, 199))
  }

  predicate StandardName(name: string) { Numbered(name, 1, 99) }

  predicate MacName(name: string) {
    NameOk(name) && ('a' <= name[0] <= 'z' || 'A' <= name[0] <= 'Z')
  }

  /** The checks of an extended list's name, one by one. */
  method CheckIpName(ipv4: bool, name: string) returns (ok: bool)
    ensures ok <==> IpName(ipv4, name)
  {
    hide Numbered, Bytes;
    if name == "" || name == "." || name == ".." {
      return false;
    }
    for i := 0 to |name|
      invariant forall j :: 0 <= j < i ==> name[j] != '/' && !White(name[j]) && !Control(name[j])
    {
      if name[i] == '/' || White(name[i]) || Control(name[i]) {
        return false;
      }
    }
    if Bytes(name) > 47 {
      return false;
    }
    if Numeral(name) && (!ipv4 || !Numbered(name, 100, 199)) {
      return false;
    }
    return true;
  }

  // ---- what names are for ----

  lemma {:induction false} SpaceIsWhite(c: char)
    ensures Space(c) ==> White(c)
  {
  }

  lemma {:induction false} OneWord(name: string)
    requires name != "" && forall i :: 0 <= i < |name| ==> !Space(name[i])
    ensures Fields(name) == [name]
  {
    FieldsWord(name, "");
    FieldsNone();
    assert name + "" == name;
  }

  lemma {:induction false} WordFree(s: string)
    requires Fields(s) == [s]
    ensures s != "" && forall i :: 0 <= i < |s| ==> !Space(s[i])
  {
    var t := SkipSpace(s);
    var n := WordLength(t);
    assert t != "" && Fields(s)[0] == t[..n];
    assert |s| == |t[..n]|;
  }

  /** Legal names are the texts that are one word of a configuration line and one component
      of a resource path, and have no white or control characters of any alphabet. */
  lemma {:induction false} NameExactly(name: string)
    ensures NameOk(name) <==>
            && Fields(name) == [name] && Split(name, '/') == [name] && name !in [".", ".."]
            && forall i :: 0 <= i < |name| ==> !White(name[i]) && !Control(name[i])
  {
    hide White, Control, Fields, Split;
    forall i | 0 <= i < |name| ensures Space(name[i]) ==> White(name[i]) { SpaceIsWhite(name[i]); }
    if NameOk(name) {
      OneWord(name);
      SplitWhole(name, '/');
    }
    if Fields(name) == [name] { WordFree(name); }
    if Split(name, '/') == [name] {
      SplitFree(name, '/');
      assert Free(Split(name, '/')[0], '/');
    }
  }

  // ---- what numbered names are ----

  /** A numbered name is exactly the decimal form of a number of the range. */
  lemma {:induction false} NumberedExactly(name: string, first: nat, last: nat)
    requires last < INT64_LIMIT
    ensures Numbered(name, first, last) <==> Numeral(name) && first <= Value(name) <= last && Write(Value(name)) == name
  {
    hide Write, Value;
    if Numeral(name) && Value(name) < INT64_LIMIT {
      assert Digit(name[0]);
    }
    if Numbered(name, first, last) {
      assert Numeral(Write(ParseInt(name).value));
      assert Digit(name[0]);
    }
  }

  lemma {:induction false} DigitsAreNames(name: string)
    requires Numeral(name)
    ensures NameOk(name)
  {
    assert Digit(name[0]);
  }

  lemma {:induction false} ShortDigits(name: string)
    requires Numeral(name)
    ensures Bytes(name) == |name|
  {
    assert Digit(name[|name| - 1]);
    if |name| > 1 { ShortDigits(name[..|name| - 1]); }
  }

  lemma {:induction false} ThreeDigits(n: nat)
    requires n < 1000
    ensures |Write(n)| <= 3
  {
    assert n / 10 / 10 < 10;
    assert |Write(n / 10 / 10)| == 1;
    assert |Write(n / 10)| <= 2;
  }

  /** An all-digit name belongs to an extended list exactly when it is the decimal form of
      100 through 199 in the IPv4 family, and to a standard list exactly for 1 through 99. */
  lemma {:induction false} NumberedNames(ipv4: bool, name: string)
    requires Numeral(name)
    ensures IpName(ipv4, name) <==> ipv4 && 100 <= Value(name) <= 199 && Write(Value(name)) == name
    ensures StandardName(name) <==> 1 <= Value(name) <= 99 && Write(Value(name)) == name
  {
    hide Write, Value;
    NumberedExactly(name, 100, 199);
    NumberedExactly(name, 1, 99);
    DigitsAreNames(name);
    ShortDigits(name);
    if Value(name) < 1000 { ThreeDigits(Value(name)); }
  }

  /** No name is legal for a standard list and for an extended or MAC list. */
  lemma {:induction false} StandardApart(ipv4: bool, name: string)
    requires StandardName(name)
    ensures !IpName(ipv4, name) && !MacName(name)
  {
    hide Write, Value;
    NumberedExactly(name, 1, 99);
    NumberedNames(ipv4, name);
    assert Digit(name[0]);
  }
}
