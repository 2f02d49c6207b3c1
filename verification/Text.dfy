/** Byte strings as the native configuration uses them: blanks, lines, words. */
module Text {
  import opened Sorting

  predicate Blank(c: char) { c == ' ' || c == '\t' }

  /** The scanner's `space` class: horizontal tab through carriage return, and space. */
  predicate Space(c: char) { c == ' ' || '\t' <= c <= '\r' }

  function StripCR(s: string): (r: string)
  {
    if s != "" && s[|s| - 1] == '\r' then s[..|s| - 1] else s
  }

  predicate EndsInCR(s: string) { s != "" && s[|s| - 1] == '\r' }

  function TrimRight(s: string): (r: string)
    ensures r <= s
    ensures r != "" ==> !Blank(r[|r| - 1])
    ensures forall i :: |r| <= i < |s| ==> Blank(s[i])
  {
    if s != "" && Blank(s[|s| - 1]) then TrimRight(s[..|s| - 1]) else s
  }

  /** The number of leading blanks. */
  function Indent(s: string): (n: nat)
    ensures n <= |s|
    ensures forall i :: 0 <= i < n ==> Blank(s[i])
    ensures n < |s| ==> !Blank(s[n])
  {
    if s != "" && Blank(s[0]) then 1 + Indent(s[1..]) else 0
  }

  function TrimLeft(s: string): (r: string) { s[Indent(s)..] }

  function SkipSpace(s: string): (r: string)
    ensures |r| <= |s|
    ensures r != "" ==> !Space(r[0])
  {
    if s != "" && Space(s[0]) then SkipSpace(s[1..]) else s
  }

  function DropSpace(s: string): (r: string)
    ensures r <= s
  {
    if s != "" && Space(s[|s| - 1]) then DropSpace(s[..|s| - 1]) else s
  }

  function TrimSpace(s: string): (r: string) { DropSpace(SkipSpace(s)) }

  function TrimPrefix(s: string, p: string): (r: string) {
    if p <= s then s[|p|..] else s
  }

  /** The length of the leading run without `space` bytes. */
  function WordLength(s: string): (n: nat)
    ensures n <= |s|
    ensures forall i :: 0 <= i < n ==> !Space(s[i])
    ensures n < |s| ==> Space(s[n])
  {
    if s != "" && !Space(s[0]) then 1 + WordLength(s[1..]) else 0
  }

  /** The maximal runs of bytes that are not `space`, in order. */
  function Fields(s: string): (words: seq<string>)
    ensures forall w :: w in words ==> w != ""
    decreases |s|
  {
    var t := SkipSpace(s);
    if t == "" then [] else [t[..WordLength(t)]] + Fields(t[WordLength(t)..])
  }

  /** `parts` with one more byte in front: a separator opens a new piece. */
  function Push(c: char, parts: seq<string>, sep: char): (r: seq<string>)
    requires |parts| >= 1
  {
    if c == sep then [""] + parts else [[c] + parts[0]] + parts[1..]
  }

  /** The pieces of `s` between occurrences of `sep`. */
  function Split(s: string, sep: char): (parts: seq<string>)
    ensures |parts| >= 1
  {
    if s == "" then [""] else Push(s[0], Split(s[1..], sep), sep)
  }

  /** `sep` does not occur in `s`. */
  ghost predicate Free(s: string, sep: char) {
    forall i :: 0 <= i < |s| ==> s[i] != sep
  }

  ghost predicate AllFree(parts: seq<string>, sep: char) {
    forall i :: 0 <= i < |parts| ==> Free(parts[i], sep)
  }

  lemma {:induction false} SplitFree(s: string, sep: char)
    ensures AllFree(Split(s, sep), sep)
  {
    if s != "" { SplitFree(s[1..], sep); }
  }

  lemma {:induction false} SplitWhole(s: string, sep: char)
    requires Free(s, sep)
    ensures Split(s, sep) == [s]
  {
    if s != "" {
      SplitWhole(s[1..], sep);
      assert [s[0]] + s[1..] == s;
    }
  }

  function Join(parts: seq<string>, sep: char): (s: string)
  {
    if parts == [] then ""
    else if |parts| == 1 then parts[0]
    else parts[0] + [sep] + Join(parts[1..], sep)
  }

  lemma {:induction false} JoinPush(c: char, parts: seq<string>, sep: char)
    requires |parts| >= 1
    ensures Join(Push(c, parts, sep), sep) == [c] + Join(parts, sep)
  {
    if c == sep {
      assert ([""] + parts)[1..] == parts;
    } else {
      var r := [[c] + parts[0]] + parts[1..];
      assert r[0] == [c] + parts[0] && r[1..] == parts[1..];
    }
  }

  lemma {:induction false} JoinSplit(s: string, sep: char)
    ensures Join(Split(s, sep), sep) == s
  {
    if s != "" {
      hide Join;
      JoinSplit(s[1..], sep);
      JoinPush(s[0], Split(s[1..], sep), sep);
    } else {
      assert Join([""], sep) == "";
    }
  }

  lemma {:induction false} PushAppend(c: char, a: seq<string>, b: seq<string>, sep: char)
    requires |a| >= 1
    ensures Push(c, a + b, sep) == Push(c, a, sep) + b
  {
    assert (a + b)[1..] == a[1..] + b;
  }

  lemma {:induction false} SplitAppend(a: string, b: string, sep: char)
    ensures Split(a + [sep] + b, sep) == Split(a, sep) + Split(b, sep)
  {
    var s := a + [sep] + b;
    if a == "" {
      assert s[0] == sep && s[1..] == b;
    } else {
      assert s[0] == a[0] && s[1..] == a[1..] + [sep] + b;
      SplitAppend(a[1..], b, sep);
      PushAppend(a[0], Split(a[1..], sep), Split(b, sep), sep);
    }
  }

  lemma {:induction false} SplitJoin(parts: seq<string>, sep: char)
    requires parts != [] && AllFree(parts, sep)
    ensures Split(Join(parts, sep), sep) == parts
  {
    SplitWhole(parts[0], sep);
    if |parts| == 1 {
      assert parts == [parts[0]];
    } else {
      SplitJoin(parts[1..], sep);
      SplitAppend(parts[0], Join(parts[1..], sep), sep);
      assert parts == [parts[0]] + parts[1..];
    }
  }

  lemma {:induction false} JoinAppend(a: seq<string>, b: seq<string>, sep: char)
    requires a != [] && b != []
    ensures Join(a + b, sep) == Join(a, sep) + [sep] + Join(b, sep)
  {
    if |a| == 1 {
      assert (a + b)[1..] == b;
    } else {
      assert (a + b)[1..] == a[1..] + b;
      JoinAppend(a[1..], b, sep);
    }
  }

  lemma {:induction false} TrimRightFixed(s: string)
    requires s == "" || !Blank(s[|s| - 1])
    ensures TrimRight(s) == s
  {
  }

  // ---- trimming and words of texts that are put together ----

  ghost predicate Blanks(s: string) { forall i :: 0 <= i < |s| ==> Blank(s[i]) }

  ghost predicate Spaces(s: string) { forall i :: 0 <= i < |s| ==> Space(s[i]) }

  ghost predicate Wordlike(w: string) { w != "" && forall i :: 0 <= i < |w| ==> !Space(w[i]) }

  lemma {:induction false} TrimRightWord(a: string, b: string)
    requires (a != "" ==> !Blank(a[|a| - 1])) && Blanks(b)
    ensures TrimRight(a + b) == a
  {
    if b == "" {
      assert a + b == a;
      TrimRightFixed(a);
    } else {
      var n := |b| - 1;
      TrimRightWord(a, b[..n]);
      assert (a + b)[..|a| + n] == a + b[..n];
    }
  }

  /** The blanks at the end are the same with anything else in front. */
  lemma {:induction false} TrimRightAfter(a: string, x: string)
    requires x != "" && !Blank(x[0])
    ensures TrimRight(x) != "" && TrimRight(x)[0] == x[0]
    ensures TrimRight(a + x) == a + TrimRight(x)
  {
    var n := |x| - 1;
    if Blank(x[n]) {
      TrimRightAfter(a, x[..n]);
      assert (a + x)[..|a| + n] == a + x[..n];
    }
  }

  lemma {:induction false} TrimLeftIs(b: string, x: string)
    requires Blanks(b) && (x != "" ==> !Blank(x[0]))
    ensures Indent(b + x) == |b| && TrimLeft(b + x) == x
  {
    if b == "" {
      assert b + x == x;
    } else {
      TrimLeftIs(b[1..], x);
      assert (b + x)[1..] == b[1..] + x;
    }
    assert (b + x)[|b|..] == x;
  }

  lemma {:induction false} WordLengthOf(w: string, rest: string)
    requires (forall i :: 0 <= i < |w| ==> !Space(w[i])) && (rest != "" ==> Space(rest[0]))
    ensures WordLength(w + rest) == |w|
  {
    if w == "" {
      assert w + rest == rest;
    } else {
      WordLengthOf(w[1..], rest);
      assert (w + rest)[1..] == w[1..] + rest;
    }
  }

  lemma {:induction false} FieldsWord(w: string, rest: string)
    requires Wordlike(w) && (rest != "" ==> Space(rest[0]))
    ensures Fields(w + rest) == [w] + Fields(rest)
  {
    hide WordLength;
    var s := w + rest;
    assert SkipSpace(s) == s by { assert !Space(s[0]); }
    WordLengthOf(w, rest);
    assert s[..|w|] == w && s[|w|..] == rest;
  }

  lemma {:induction false} FieldsSpaces(b: string, x: string)
    requires Spaces(b)
    ensures SkipSpace(b + x) == SkipSpace(x) && Fields(b + x) == Fields(x)
  {
    if b == "" {
      assert b + x == x;
    } else {
      FieldsSpaces(b[1..], x);
      assert (b + x)[1..] == b[1..] + x;
    }
  }

  lemma {:induction false} FieldsNone()
    ensures Fields("") == []
  {
  }

  /** The first word of a text that starts with one. */
  lemma {:induction false} FirstField(x: string)
    requires x != "" && !Space(x[0])
    ensures Fields(x) != [] && Fields(x)[0] == x[..WordLength(x)] && WordLength(x) > 0
  {
    assert SkipSpace(x) == x;
  }

  /** The position of the last `sep`, or -1. */
  function LastIndex(s: string, sep: char): (i: int)
    ensures -1 <= i < |s|
    ensures i >= 0 ==> s[i] == sep
  {
    if s == "" || s[|s| - 1] == sep then |s| - 1 else LastIndex(s[..|s| - 1], sep)
  }

  lemma {:induction false} LastIndexIs(a: string, x: string, sep: char)
    requires Free(x, sep)
    ensures LastIndex(a + [sep] + x, sep) == |a|
  {
    if x == "" {
      assert a + [sep] + x == a + [sep];
    } else {
      var s, y := a + [sep] + x, x[..|x| - 1];
      assert s[|s| - 1] == x[|x| - 1];
      assert s[..|s| - 1] == a + [sep] + y;
      LastIndexIs(a, y, sep);
    }
  }

  /** Byte-wise lexicographic order, as the standard library compares strings. */
  predicate StringLeq(a: string, b: string)
  {
    a == "" || (b != "" && (a[0] < b[0] || (a[0] == b[0] && StringLeq(a[1..], b[1..]))))
  }

  lemma {:induction false} StringLeqTotal(a: string, b: string)
    ensures StringLeq(a, b) || StringLeq(b, a)
    ensures StringLeq(a, b) && StringLeq(b, a) ==> a == b
  {
    if a != "" && b != "" && a[0] == b[0] {
      StringLeqTotal(a[1..], b[1..]);
      assert a == [a[0]] + a[1..] && b == [b[0]] + b[1..];
    }
  }

  lemma {:induction false} StringLeqTransitive(a: string, b: string, c: string)
    requires StringLeq(a, b) && StringLeq(b, c)
    ensures StringLeq(a, c)
  {
    if a != "" && a[0] == b[0] && b[0] == c[0] {
      StringLeqTransitive(a[1..], b[1..], c[1..]);
    }
  }

  lemma {:induction false} StringOrder()
    ensures TotalOrder(StringLeq)
  {
    forall a: string, b: string
      ensures StringLeq(a, b) || StringLeq(b, a)
      ensures StringLeq(a, b) && StringLeq(b, a) ==> a == b
    {
      StringLeqTotal(a, b);
    }
    forall a: string, b: string, c: string | StringLeq(a, b) && StringLeq(b, c)
      ensures StringLeq(a, c)
    {
      StringLeqTransitive(a, b, c);
    }
  }

  /** The texts agree up to `i`, where the first one's character is smaller. */
  ghost predicate SmallerAt(a: string, b: string, i: nat) {
    i < |a| && i < |b| && a[..i] == b[..i] && a[i] < b[i]
  }

  /** One text continues the other, or is smaller where they first differ. */
  ghost predicate Precedes(a: string, b: string) { a <= b || exists i: nat :: SmallerAt(a, b, i) }

  lemma {:induction false} SmallerTail(a: string, b: string, i: nat)
    requires a != "" && b != "" && a[0] == b[0]
    ensures SmallerAt(a, b, i + 1) <==> SmallerAt(a[1..], b[1..], i)
    ensures !SmallerAt(a, b, 0)
  {
    if i < |a| - 1 && i < |b| - 1 {
      assert a[..i + 1] == [a[0]] + a[1..][..i] && b[..i + 1] == [b[0]] + b[1..][..i];
      assert a[1..][..i] == a[..i + 1][1..] && b[1..][..i] == b[..i + 1][1..];
    }
  }

  lemma {:induction false} PrecedesTail(a: string, b: string)
    requires a != "" && b != "" && a[0] == b[0]
    ensures Precedes(a, b) <==> Precedes(a[1..], b[1..])
  {
    hide SmallerAt;
    assert a == [a[0]] + a[1..] && b == [b[0]] + b[1..];
    SmallerTail(a, b, 0);
    if i: nat :| SmallerAt(a, b, i) { SmallerTail(a, b, if i == 0 then 0 else i - 1); }
    if i: nat :| SmallerAt(a[1..], b[1..], i) { SmallerTail(a, b, i); }
  }

  lemma {:induction false} SmallerApart(a: string, b: string, i: nat)
    requires a != "" && b != "" && a[0] != b[0]
    ensures SmallerAt(a, b, i) ==> i == 0
  {
    if 0 < i <= |a| && i <= |b| { assert a[..i][0] == a[0] && b[..i][0] == b[0]; }
  }

  lemma {:induction false} PrecedesHead(a: string, b: string)
    requires a != "" && b != "" && a[0] != b[0]
    ensures Precedes(a, b) <==> a[0] < b[0]
  {
    if a[0] < b[0] { assert SmallerAt(a, b, 0) by { assert a[..0] == b[..0]; } }
    forall i: nat ensures SmallerAt(a, b, i) ==> i == 0 { SmallerApart(a, b, i); }
  }

  /** What the order means. */
  lemma {:induction false} StringLeqMeaning(a: string, b: string)
    ensures StringLeq(a, b) <==> Precedes(a, b)
  {
    hide Precedes;
    if a == "" || b == "" {
      PrecedesEmpty(a, b);
    } else if a[0] == b[0] {
      StringLeqMeaning(a[1..], b[1..]);
      PrecedesTail(a, b);
    } else {
      PrecedesHead(a, b);
    }
  }

  lemma {:induction false} PrecedesEmpty(a: string, b: string)
    requires a == "" || b == ""
    ensures Precedes(a, b) <==> a == ""
  {
  }
}
