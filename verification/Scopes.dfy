/** Scope paths: the lines the ownership guards compare. Equal lists of scope paths of two
    parsed documents pair up their commands, with their text and their parents. */
module Scopes {
  import opened Prelude
  import opened Text
  import opened Native
  import opened Tree

  /** The text of command `i` below the texts of its ancestors. */
  function Scope(commands: seq<Command>, i: nat): (s: string)
    requires i < |commands|
    decreases i
  {
    var c := commands[i];
    if 0 <= c.parent < i then Scope(commands, c.parent) + "\n" + c.text else c.text
  }

  // The guards build scope paths left to right, from the paths already built.

  function ScopeFrom(c: Command, scopes: seq<string>): string {
    if 0 <= c.parent < |scopes| then scopes[c.parent] + "\n" + c.text else c.text
  }

  ghost predicate ScopesOf(cs: seq<Command>, scopes: seq<string>) {
    |scopes| <= |cs| && forall j :: 0 <= j < |scopes| ==> scopes[j] == Scope(cs, j)
  }

  lemma {:induction false} ScopesStep(cs: seq<Command>, scopes: seq<string>)
    requires |scopes| < |cs| && ScopesOf(cs, scopes)
    ensures ScopeFrom(cs[|scopes|], scopes) == Scope(cs, |scopes|)
    ensures ScopesOf(cs, scopes + [Scope(cs, |scopes|)])
  {
  }

  /** A document some input parses to. */
  ghost predicate Closed(g: Grammar, d: Doc) { exists data: string :: Parse(g, data) == Ok(d) }

  lemma {:induction false} ClosedSound(g: Grammar, d: Doc)
    requires Closed(g, d)
    ensures Sound(g, d) && d.complete
  {
    hide Parse, Sound;
    var data: string :| Parse(g, data) == Ok(d);
    ParsedSound(g, data);
  }

  ghost predicate Nested(commands: seq<Command>, i: nat)
    requires i < |commands|
  {
    commands[i].parent >= 0
  }

  lemma {:induction false} EndWhole(delimiter: char)
    ensures !Partial("end", delimiter)
  {
    hide Split, TrimRight, Indent;
    SplitWhole("end", '\n');
    TrimRightFixed("end");
    if Fields("end") != [] { assert |Fields("end")[0]| <= 3; }
  }

  lemma {:induction false} CommandWhole(g: Grammar, d: Doc, i: nat)
    requires Closed(g, d) && i < |d.commands|
    ensures Whole(d.commands[i].text) && FromText(g, d.commands[i]) && NearestParent(d.commands, i)
  {
    hide Whole, FromText, Partial;
    ClosedSound(g, d);
    if d.banner != NO_BANNER { EndWhole(d.banner); }
  }

  lemma {:induction false} NestedFree(g: Grammar, d: Doc, i: nat)
    requires Closed(g, d) && i < |d.commands| && Nested(d.commands, i)
    ensures Free(d.commands[i].text, '\n')
  {
    hide Split, Fields, Indent, Sound;
    var text := d.commands[i].text;
    CommandWhole(g, d, i);
    JoinSplit(text, '\n');
    SplitFree(text, '\n');
  }

  lemma {:induction false} LastNewline(a: string, x: string, b: string, y: string)
    requires a + "\n" + x == b + "\n" + y && Free(x, '\n') && Free(y, '\n')
    ensures a == b && x == y
  {
    hide LastIndex;
    var s, t := a + "\n" + x, b + "\n" + y;
    assert s == a + ['\n'] + x && t == b + ['\n'] + y;
    LastIndexIs(a, x, '\n');
    LastIndexIs(b, y, '\n');
    assert a == s[..|a|] && b == t[..|b|];
    assert x == s[|a| + 1..] && y == t[|b| + 1..];
  }

  /** No whole text is another one with further lines: a banner stops at its delimiter. */
  lemma {:induction false} WholeUnextended(a: string, b: string, more: seq<string>)
    requires Whole(a) && Whole(b) && more != []
    ensures Split(b, '\n') != Split(a, '\n') + more
  {
    hide Split, Form, Fields, TrimRight;
    var la, lb := Split(a, '\n'), Split(b, '\n');
    var all, k := la + more, |la| - 1;
    assert all[0] == la[0] && all[k] == la[k] && |all| > |la|;
    assert Opens(FormOf(b)) && lb[0] == la[0] && k < |lb| - 1 ==> lb[k] != la[k];
  }

  /** A nested scope starts with a whole top-level text and continues below it. */
  lemma {:induction false} NestedSplit(g: Grammar, d: Doc, i: nat) returns (root: string, more: seq<string>)
    requires Closed(g, d) && i < |d.commands| && Nested(d.commands, i)
    ensures Whole(root) && more != [] && Split(Scope(d.commands, i), '\n') == Split(root, '\n') + more
    decreases i
  {
    hide Split, Whole, Sound, FromText;
    CommandWhole(g, d, i);
    var c := d.commands[i];
    var above := Scope(d.commands, c.parent);
    SplitAppend(above, c.text, '\n');
    assert above + "\n" + c.text == above + ['\n'] + c.text;
    CommandWhole(g, d, c.parent);
    if d.commands[c.parent].parent >= 0 {
      root, more := NestedSplit(g, d, c.parent);
      more := more + Split(c.text, '\n');
    } else {
      root, more := d.commands[c.parent].text, Split(c.text, '\n');
    }
  }

  ghost predicate SameText(c1: Command, c2: Command) {
    && c1.text == c2.text && c1.fields == c2.fields && c1.indent == c2.indent && c1.parsed == c2.parsed
    && (c1.parent >= 0 <==> c2.parent >= 0)
  }

  /** A scope path, across documents, determines text, everything derived from it, and the
      scope path of the parent. */
  lemma {:induction false} SameScope(g: Grammar, d1: Doc, i: nat, d2: Doc, j: nat)
    requires Closed(g, d1) && Closed(g, d2) && i < |d1.commands| && j < |d2.commands|
    requires Scope(d1.commands, i) == Scope(d2.commands, j)
    ensures var c1, c2 := d1.commands[i], d2.commands[j];
            && SameText(c1, c2)
            && (c1.parent >= 0 ==> && c1.parent < i && c2.parent < j
                                   && Scope(d1.commands, c1.parent) == Scope(d2.commands, c2.parent))
  {
    hide Split, Whole, Sound;
    var c1, c2 := d1.commands[i], d2.commands[j];
    CommandWhole(g, d1, i);
    CommandWhole(g, d2, j);
    if c1.parent >= 0 && c2.parent >= 0 {
      NestedFree(g, d1, i);
      NestedFree(g, d2, j);
      LastNewline(Scope(d1.commands, c1.parent), c1.text, Scope(d2.commands, c2.parent), c2.text);
    } else if c1.parent >= 0 {
      var root, more := NestedSplit(g, d1, i);
      WholeUnextended(root, c2.text, more);
    } else if c2.parent >= 0 {
      var root, more := NestedSplit(g, d2, j);
      WholeUnextended(root, c1.text, more);
    }
  }

  /** Between a parent and its child, every scope path is strictly longer than the parent's. */
  lemma {:induction false} InsideLonger(d: Doc, i: nat, k: nat)
    requires Scoped(d) && i < |d.commands| && Nested(d.commands, i)
    requires d.commands[i].parent < k <= i
    ensures |Scope(d.commands, k)| > |Scope(d.commands, d.commands[i].parent)|
    decreases k
  {
    var p := d.commands[i].parent;
    assert NearestParent(d.commands, i) && NearestParent(d.commands, k);
    assert d.commands[k].parent >= p;
    if d.commands[k].parent > p {
      InsideLonger(d, i, d.commands[k].parent);
    }
  }

  // ---- what a guard keeps ----

  /** Ascending positions below `n`. */
  ghost predicate Positions(at: seq<nat>, n: nat) {
    && (forall k :: 0 <= k < |at| ==> at[k] < n)
    && (forall k, l :: 0 <= k < l < |at| ==> at[k] < at[l])
  }

  /** The positions below `n` that a guard does not own. */
  function Retained(n: nat, owned: nat -> bool): (r: seq<nat>)
    ensures Positions(r, n)
  {
    if n == 0 then []
    else Retained(n - 1, owned) + if owned(n - 1) then [] else [n - 1]
  }

  lemma {:induction false} RetainedUnowned(n: nat, owned: nat -> bool, k: nat)
    requires k < |Retained(n, owned)|
    ensures !owned(Retained(n, owned)[k])
  {
    if n > 0 && k < |Retained(n - 1, owned)| { RetainedUnowned(n - 1, owned, k); }
  }

  lemma {:induction false} RankOf(n: nat, owned: nat -> bool, i: nat) returns (k: nat)
    requires i < n && !owned(i)
    ensures k < |Retained(n, owned)| && Retained(n, owned)[k] == i
  {
    if i == n - 1 {
      k := |Retained(n - 1, owned)|;
    } else {
      k := RankOf(n - 1, owned, i);
    }
  }

  function ScopesAt(commands: seq<Command>, at: seq<nat>): (r: seq<string>)
    requires Positions(at, |commands|)
  {
    seq(|at|, k requires 0 <= k < |at| => Scope(commands, at[k]))
  }

  /** What a guard keeps of the first `n` commands, in document order. */
  function KeptScopes(commands: seq<Command>, n: nat, owned: nat -> bool): (r: seq<string>)
    requires n <= |commands|
  {
    if n == 0 then []
    else KeptScopes(commands, n - 1, owned) + if owned(n - 1) then [] else [Scope(commands, n - 1)]
  }

  function Remaining(commands: seq<Command>, owned: nat -> bool): (r: seq<string>) {
    KeptScopes(commands, |commands|, owned)
  }

  lemma {:induction false} KeptAtRetained(commands: seq<Command>, n: nat, owned: nat -> bool)
    requires n <= |commands|
    ensures KeptScopes(commands, n, owned) == ScopesAt(commands, Retained(n, owned))
  {
    hide Scope;
    if n > 0 {
      KeptAtRetained(commands, n - 1, owned);
      var r := Retained(n - 1, owned);
      if !owned(n - 1) {
        assert ScopesAt(commands, r + [n - 1]) == ScopesAt(commands, r) + [Scope(commands, n - 1)];
      }
    }
  }

  /** Ascending positions with equal scope lists in two documents. */
  ghost predicate Paired(d1: Doc, r1: seq<nat>, d2: Doc, r2: seq<nat>) {
    && |r1| == |r2| && Positions(r1, |d1.commands|) && Positions(r2, |d2.commands|)
    && (forall k :: 0 <= k < |r1| ==> Scope(d1.commands, r1[k]) == Scope(d2.commands, r2[k]))
  }

  /** If both parents are kept, they are paired with each other. */
  lemma {:induction false} ParentsPaired(g: Grammar, d1: Doc, r1: seq<nat>, d2: Doc, r2: seq<nat>, k: nat, m: nat,
        l: nat)
    requires Closed(g, d1) && Closed(g, d2) && Paired(d1, r1, d2, r2)
    requires k < |r1| && m < |r1| && l < |r2|
    requires d1.commands[r1[k]].parent == r1[m] && d2.commands[r2[k]].parent == r2[l]
    ensures m == l
  {
    hide FromText, Whole, Chain, Legible, Closing;
    ClosedSound(g, d1);
    ClosedSound(g, d2);
    SameScope(g, d1, r1[k], d2, r2[k]);
    assert NearestParent(d1.commands, r1[k]) && NearestParent(d2.commands, r2[k]);
    if m < l {
      assert l < k;
      InsideLonger(d1, r1[k], r1[l]);
    } else if l < m {
      assert m < k;
      InsideLonger(d2, r2[k], r2[m]);
    }
  }

  lemma {:induction false} RemainingPairs(d1: Doc, o1: nat -> bool, d2: Doc, o2: nat -> bool)
    requires Remaining(d1.commands, o1) == Remaining(d2.commands, o2)
    ensures Paired(d1, Retained(|d1.commands|, o1), d2, Retained(|d2.commands|, o2))
  {
    KeptAtRetained(d1.commands, |d1.commands|, o1);
    KeptAtRetained(d2.commands, |d2.commands|, o2);
    var r1, r2 := Retained(|d1.commands|, o1), Retained(|d2.commands|, o2);
    forall k | 0 <= k < |r1|
      ensures Scope(d1.commands, r1[k]) == Scope(d2.commands, r2[k])
    {
      assert Remaining(d1.commands, o1)[k] == Remaining(d2.commands, o2)[k];
    }
  }

  // ---- the closing `end` separates what follows it ----

  lemma {:induction false} NestedNotEnd(commands: seq<Command>, i: nat)
    requires i < |commands| && 0 <= commands[i].parent < i
    ensures Scope(commands, i) != "end"
  {
    assert Scope(commands, i)[|Scope(commands, commands[i].parent)|] == '\n';
  }

  lemma {:induction false} EndScope(g: Grammar, d: Doc, i: nat)
    requires Closed(g, d) && i < |d.commands|
    ensures Scope(d.commands, i) == "end" <==> i == |d.commands| - 1
  {
    hide FromText, Whole, Partial, Chain;
    ClosedSound(g, d);
    var n := |d.commands| - 1;
    assert NearestParent(d.commands, i);
    if d.commands[i].parent >= 0 {
      NestedNotEnd(d.commands, i);
      if i == n { EndTop(g, d); }
    }
  }

  /** The closing line, as text. */
  lemma {:induction false} EndText()
    ensures Indent("end") == 0 && TrimRight("end") == "end" && TrimSpace("end") == "end"
            && Split("end", '\n') == ["end"]
  {
    SplitWhole("end", '\n');
    TrimRightFixed("end");
    assert SkipSpace("end") == "end" && DropSpace("end") == "end";
  }

  lemma {:induction false} EndTop(g: Grammar, d: Doc)
    requires Closed(g, d)
    ensures d.commands != [] && d.commands[|d.commands| - 1].parent == -1
  {
    hide Whole, Partial, Chain, Split, Fields, Indent, TrimRight, TrimSpace;
    ClosedSound(g, d);
    var n := |d.commands| - 1;
    EndText();
    assert NearestParent(d.commands, n) && FromText(g, d.commands[n]);
  }

  /** A fact about the command grammar: `end` opens no feature's command. */
  ghost predicate EndUnknown(g: Grammar) { g("end").kind.Unknown? }

  lemma {:induction false} EndRetained(g: Grammar, d: Doc)
    requires Closed(g, d) && EndUnknown(g)
    ensures d.commands != [] && d.commands[|d.commands| - 1].parsed.kind.Unknown?
  {
    hide Whole, Partial, NearestParent, Chain, Split, Fields, Indent, TrimRight, TrimSpace;
    ClosedSound(g, d);
    EndTop(g, d);
    EndText();
    assert FromText(g, d.commands[|d.commands| - 1]);
  }

  lemma {:induction false} RemainingEnds(g: Grammar, d: Doc, owned: nat -> bool)
    requires Closed(g, d) && d.commands != [] && !owned(|d.commands| - 1)
    ensures var r := Remaining(d.commands, owned);
            && r != [] && r[|r| - 1] == "end"
            && forall k :: 0 <= k < |r| - 1 ==> r[k] != "end"
  {
    hide Sound;
    var n := |d.commands|;
    var at := Retained(n, owned);
    KeptAtRetained(d.commands, n, owned);
    var last := |at| - 1;
    var rank := RankOf(n, owned, n - 1);
    assert at[last] == n - 1;
    EndScope(g, d, n - 1);
    forall k | 0 <= k < last ensures Scope(d.commands, at[k]) != "end" {
      EndScope(g, d, at[k]);
    }
  }

  function FirstEnd(s: seq<string>): (i: nat) {
    if s == [] || s[0] == "end" then 0 else 1 + FirstEnd(s[1..])
  }

  lemma {:induction false} FirstEndIs(a: seq<string>, x: seq<string>)
    requires a != [] && a[|a| - 1] == "end"
    requires forall k :: 0 <= k < |a| - 1 ==> a[k] != "end"
    ensures FirstEnd(a + x) == |a| - 1
  {
    if |a| > 1 {
      assert (a + x)[1..] == a[1..] + x;
      FirstEndIs(a[1..], x);
    }
  }

  lemma {:induction false} SplitAtEnd(a: seq<string>, x: seq<string>, b: seq<string>, y: seq<string>)
    requires a != [] && b != [] && a[|a| - 1] == "end" && b[|b| - 1] == "end"
    requires forall k :: 0 <= k < |a| - 1 ==> a[k] != "end"
    requires forall k :: 0 <= k < |b| - 1 ==> b[k] != "end"
    ensures a + x == b + y <==> a == b && x == y
  {
    hide FirstEnd;
    FirstEndIs(a, x);
    FirstEndIs(b, y);
    var s, t := a + x, b + y;
    assert a == s[..|a|] && b == t[..|b|];
    assert x == s[|a|..] && y == t[|b|..];
  }
}
