/** The parser as it runs: the generated word and line scanners, and a document that
    each line updates in place. */
module Parser {
  import opened Prelude
  import opened Text
  import opened Native
  import opened Ragel

  const WORDS: Machine := Machine(
    [0, 3], [32, 9, 13, 32, 9, 13], [1, 1], [1, 1], [0, 3],
    [1, 1, 0, 1, 1, 0], [3, 3, 0, 0, 0, 1])

  const WORDS_ACTIONS: seq<nat> := [0, 1, 0, 1, 1]

  const CONFIGURATION: Machine := Machine(
    [0, 1], [10, 10], [1, 1], [0, 0], [0, 2],
    [1, 0, 1, 0], [3, 0, 5, 1])

  const CONFIGURATION_ACTIONS: seq<nat> := [0, 1, 0, 1, 1, 2, 0, 1]

  /** Both machines number their actions alike: remember the position, or emit. */
  const MARK: nat := 0
  const EMIT: nat := 1

  lemma {:induction false} WordsTable()
    ensures WellFormed(WORDS)
  {
    assert ValidState(WORDS, 0);
    assert ValidState(WORDS, 1);
  }

  lemma {:induction false} WordsEntry(cs: nat, c: char, trans: nat)
    requires cs < 2
    requires WellFormed(WORDS) && Selects(WORDS, cs, c as nat, trans)
    ensures Space(c) ==> WORDS.targets[trans] == 1 && WORDS.actions[trans] == if cs == 0 then 3 else 0
    ensures !Space(c) ==> WORDS.targets[trans] == 0 && WORDS.actions[trans] == if cs == 0 then 0 else 1
  {
    if c == ' ' { assert SingleHit(WORDS, cs, c as nat, 0); }
    if '\t' <= c <= '\r' { assert RangeHit(WORDS, cs, c as nat, 0); }
  }

  lemma {:induction false} ConfigurationTable()
    ensures WellFormed(CONFIGURATION)
  {
    assert ValidState(CONFIGURATION, 0);
    assert ValidState(CONFIGURATION, 1);
  }

  lemma {:induction false} ConfigurationEntry(cs: nat, c: char, trans: nat)
    requires cs < 2
    requires WellFormed(CONFIGURATION) && Selects(CONFIGURATION, cs, c as nat, trans)
    ensures c == '\n' ==> CONFIGURATION.targets[trans] == 1 && CONFIGURATION.actions[trans] == if cs == 0 then 3 else 5
    ensures c != '\n' ==> CONFIGURATION.targets[trans] == 0 && CONFIGURATION.actions[trans] == if cs == 0 then 0 else 1
  {
    if c == '\n' { assert SingleHit(CONFIGURATION, cs, c as nat, 0); }
  }

  lemma {:induction false} ActionLists()
    ensures ActionList(WORDS_ACTIONS, 1) == [MARK] && ActionList(WORDS_ACTIONS, 3) == [EMIT]
    ensures ActionList(CONFIGURATION_ACTIONS, 1) == [MARK] && ActionList(CONFIGURATION_ACTIONS, 3) == [EMIT]
    ensures ActionList(CONFIGURATION_ACTIONS, 5) == [MARK, EMIT]
  {
  }

  /** One transition of the word scanner: state 1 is between words, state 0 inside one. */
  method NextWordState(cs: nat, c: char) returns (next: nat, mark: bool, emit: bool)
    requires cs < 2
    ensures next == if Space(c) then 1 else 0
    ensures mark <==> cs == 1 && !Space(c)
    ensures emit <==> cs == 0 && Space(c)
  {
    WordsTable();
    var trans := Lookup(WORDS, cs, c as nat);
    WordsEntry(cs, c, trans);
    ActionLists();
    next := WORDS.targets[trans];
    var acts := WORDS.actions[trans];
    assert acts in {0, 1, 3};
    var todo := ActionList(WORDS_ACTIONS, acts);
    mark, emit := MARK in todo, EMIT in todo;
  }

  /** One transition of the line scanner: state 1 is at a line's start, state 0 inside it. */
  method NextLineState(cs: nat, c: char) returns (next: nat, mark: bool, emit: bool)
    requires cs < 2
    ensures next == if c == '\n' then 1 else 0
    ensures mark <==> cs == 1
    ensures emit <==> c == '\n'
  {
    ConfigurationTable();
    var trans := Lookup(CONFIGURATION, cs, c as nat);
    ConfigurationEntry(cs, c, trans);
    ActionLists();
    next := CONFIGURATION.targets[trans];
    var acts := CONFIGURATION.actions[trans];
    assert acts in {0, 1, 3, 5};
    var todo := ActionList(CONFIGURATION_ACTIONS, acts);
    mark, emit := MARK in todo, EMIT in todo;
  }

  lemma {:induction false} FieldsPadded(s: string)
    ensures Fields(s + " ") == Fields(s)
    decreases |s|
  {
    if s == "" {
      assert SkipSpace("" + " ") == SkipSpace("");
    } else if Space(s[0]) {
      assert (s + " ")[1..] == s[1..] + " ";
      FieldsPadded(s[1..]);
    } else {
      var n := WordLength(s);
      WordLengthIs(s + " ", n);
      assert (s + " ")[..n] == s[..n] && (s + " ")[n..] == s[n..] + " ";
      FieldsPadded(s[n..]);
    }
  }

  lemma {:induction false} WordLengthIs(s: string, n: nat)
    requires n < |s| && Space(s[n]) && forall i :: 0 <= i < n ==> !Space(s[i])
    ensures WordLength(s) == n
  {
    if n > 0 { WordLengthIs(s[1..], n - 1); }
  }

  ghost function FieldsFrom(d: string, i: nat): seq<string>
    requires i <= |d|
  {
    Fields(d[i..])
  }

  lemma {:induction false} SpaceSkipped(d: string, p: nat)
    requires p < |d| && Space(d[p])
    ensures FieldsFrom(d, p) == FieldsFrom(d, p + 1)
  {
    assert d[p..][1..] == d[p + 1..];
  }

  lemma {:induction false} WordEnds(d: string, start: nat, p: nat)
    requires start < p < |d| && Space(d[p]) && forall i :: start <= i < p ==> !Space(d[i])
    ensures FieldsFrom(d, start) == [d[start..p]] + FieldsFrom(d, p)
  {
    var s := d[start..];
    WordLengthIs(s, p - start);
    assert s[..p - start] == d[start..p] && s[p - start..] == d[p..];
  }

  /** The word scanner computes the maximal space-free runs. */
  method CommandFields(data: string) returns (fields: seq<string>)
    ensures fields == Fields(data)
  {
    FieldsPadded(data);
    var d := data + " ";
    assert d[0..] == d;
    var p: nat, cs: nat, start: nat := 0, 1, 0;
    fields := [];
    while p < |d|
      invariant start <= p <= |d| && cs < 2
      invariant p == |d| ==> cs == 1
      invariant cs == 1 ==> fields + FieldsFrom(d, p) == FieldsFrom(d, 0)
      invariant cs == 0 ==> start < p && fields + FieldsFrom(d, start) == FieldsFrom(d, 0)
      invariant cs == 0 ==> forall i :: start <= i < p ==> !Space(d[i])
    {
      var next, mark, emit := NextWordState(cs, d[p]);
      if mark {
        start := p;
      }
      if emit {
        WordEnds(d, start, p);
        fields := fields + [d[start..p]];
      }
      if Space(d[p]) { SpaceSkipped(d, p); }
      cs := next;
      p := p + 1;
    }
    assert FieldsFrom(d, p) == [];
  }

  class Document {
    var commands: seq<Command>
    var started: bool
    var complete: bool
    var stack: seq<nat>
    var banner: char

    function View(): Doc
      reads this
    {
      Doc(commands, started, complete, stack, banner)
    }

    constructor ()
      ensures View() == EMPTY
    {
      commands, started, complete, stack, banner := [], false, false, [], NO_BANNER;
    }

    /** Takes one line into the document; a rejected line leaves the caller to drop it. */
    method Line(g: Grammar, line: string) returns (err: Option<ParseError>)
      requires Tracked(View())
      modifies this
      ensures Step(g, old(View()), line).Ok? ==> err == None && View() == Step(g, old(View()), line).value
      ensures Step(g, old(View()), line).Err? ==> err == Some(Step(g, old(View()), line).error)
    {
      var raw := StripCR(line);
      if banner != NO_BANNER {
        var i := |commands| - 1;
        commands := commands[i := commands[i].(text := commands[i].text + "\n" + raw)];
        if banner in raw {
          banner := NO_BANNER;
        }
        return None;
      }
      var text := TrimRight(raw);
      if !started {
        if !("ver " <= text) {
          return None;
        }
        started := true;
      }
      var fields := CommandFields(text);
      if fields == [] || TrimSpace(text) == "!" {
        return None;
      }
      err := Add(g, raw, text, fields);
    }

    /** The part of `Line` that places a command in the indentation tree. */
    method Add(g: Grammar, raw: string, text: string, fields: seq<string>) returns (err: Option<ParseError>)
      requires Tracked(View()) && started && banner == NO_BANNER
      requires text == TrimRight(raw) && fields == Fields(text) && fields != []
      modifies this
      ensures Append(g, old(View()), raw).Ok? ==> err == None && View() == Append(g, old(View()), raw).value
      ensures Append(g, old(View()), raw).Err? ==> err == Some(Append(g, old(View()), raw).error)
    {
      hide Fields, Indent, TrimSpace, TrimRight, Pop, BannerPayload;
      var indent := Indent(text);
      CloseScopes(indent);
      var parent := Top(stack);
      if indent > 0 && parent == -1 {
        return Some(Orphaned);
      }
      stack := stack + [|commands|];
      commands := commands + [Command(text, fields, parent, indent, g(TrimSpace(text)))];
      if indent == 0 && text == "end" {
        complete := true;
      }
      if indent != 0 || fields[0] != "banner" {
        return None;
      }
      var payload := BannerPayload(raw, fields);
      if payload == "require-enter-key" {
        return None;
      }
      if payload == "" || payload[0] == '"' {
        return Some(BadBanner);
      }
      OpenBanner(raw, payload);
      return None;
    }

    /** Banner whitespace is payload, including blanks that end its first line. */
    method OpenBanner(raw: string, payload: string)
      requires commands != [] && payload != ""
      modifies this`commands, this`banner
      ensures commands == old(commands[..|commands| - 1]) + [old(commands[|commands| - 1]).(text := raw)]
      ensures banner == if payload[0] in payload[1..] then NO_BANNER else payload[0]
    {
      var last := |commands| - 1;
      commands := commands[last := commands[last].(text := raw)];
      banner := payload[0];
      if banner in payload[1..] {
        banner := NO_BANNER;
      }
    }

    method CloseScopes(indent: nat)
      requires Tracked(View())
      modifies this`stack
      ensures stack == Pop(commands, old(stack), indent)
    {
      while stack != [] && commands[stack[|stack| - 1]].indent >= indent
        invariant Tracked(View()) && stack <= old(stack)
        invariant Pop(commands, stack, indent) == Pop(commands, old(stack), indent)
        decreases |stack|
      {
        stack := stack[..|stack| - 1];
      }
    }
  }

  /** The lines still to be framed when `d`, which ends in a newline, is read up to `i`. */
  ghost function Pending(d: string, i: nat): seq<string>
    requires i <= |d|
  {
    if i == |d| then [] else Split(d[i..|d| - 1], '\n')
  }

  lemma {:induction false} PendingHead(d: string, start: nat, p: nat)
    requires start <= p < |d| && d[|d| - 1] == '\n' && d[p] == '\n'
    requires forall i :: start <= i < p ==> d[i] != '\n'
    ensures Pending(d, start) == [d[start..p]] + Pending(d, p + 1)
  {
    var line, end := d[start..p], |d| - 1;
    SplitWhole(line, '\n');
    if p < end {
      var rest := d[p + 1..end];
      assert d[start..end] == line + ['\n'] + rest;
      SplitAppend(line, rest, '\n');
    }
  }

  lemma {:induction false} RunCons(g: Grammar, d: Doc, line: string, rest: seq<string>)
    requires Tracked(d) && !d.complete
    ensures RunLines(g, d, [line] + rest) ==
            if Step(g, d, line).Err? then Step(g, d, line) else RunLines(g, Step(g, d, line).value, rest)
  {
    assert ([line] + rest)[1..] == rest;
  }

  lemma {:induction false} RunDone(g: Grammar, d: Doc, rest: seq<string>)
    requires Tracked(d) && (d.complete || rest == [])
    ensures RunLines(g, d, rest) == Ok(d)
  {
  }

  lemma {:induction false} PendingEnd(d: string)
    ensures Pending(d, |d|) == []
  {
  }

  /** Hands one framed line to the document and accounts for the lines after it. */
  method Feed(g: Grammar, doc: Document, line: string, ghost rest: seq<string>) returns (failed: Option<ParseError>)
    requires Tracked(doc.View()) && !doc.complete
    modifies doc
    ensures failed.Some? ==> RunLines(g, old(doc.View()), [line] + rest) == Err(failed.value)
    ensures failed.None? ==> Tracked(doc.View())
    ensures failed.None? ==> RunLines(g, old(doc.View()), [line] + rest) == RunLines(g, doc.View(), rest)
  {
    RunCons(g, doc.View(), line, rest);
    failed := doc.Line(g, line);
  }

  /** The scanner's state after `p` bytes: 1 at a line's start, 0 inside a line. */
  ghost function LineState(d: string, p: nat): nat
    requires p <= |d|
  {
    if p == 0 || d[p - 1] == '\n' then 1 else 0
  }

  ghost predicate InLine(d: string, start: nat, p: nat) {
    start < p <= |d| && forall i :: start <= i < p ==> d[i] != '\n'
  }

  lemma {:induction false} InLineExtend(d: string, start: nat, p: nat)
    requires p < |d| && d[p] != '\n' && (start == p || InLine(d, start, p))
    ensures InLine(d, start, p + 1)
  {
  }

  /** Drives the two-state line scanner over newline-terminated text and stops right
      after the closing `end`. */
  method Scan(g: Grammar, doc: Document, d: string) returns (failed: Option<ParseError>)
    requires Tracked(doc.View()) && !doc.complete
    requires d != "" && d[|d| - 1] == '\n'
    modifies doc
    ensures failed.Some? ==> RunLines(g, old(doc.View()), Pending(d, 0)) == Err(failed.value)
    ensures failed.None? ==> RunLines(g, old(doc.View()), Pending(d, 0)) == Ok(doc.View())
  {
    hide RunLines, Pending;
    ghost var whole := RunLines(g, doc.View(), Pending(d, 0));
    var p: nat, cs: nat, start: nat := 0, 1, 0;
    while p < |d|
      invariant p <= |d| && cs == LineState(d, p)
      invariant cs == 0 ==> InLine(d, start, p)
      invariant Tracked(doc.View()) && !doc.complete
      invariant whole == RunLines(g, doc.View(), Pending(d, if cs == 1 then p else start))
    {
      var next, mark, emit := NextLineState(cs, d[p]);
      if mark {
        start := p;
      }
      if emit {
        PendingHead(d, start, p);
        failed := Feed(g, doc, d[start..p], Pending(d, p + 1));
        if failed.Some? {
          return;
        }
        if doc.complete {
          RunDone(g, doc.View(), Pending(d, p + 1));
          return;
        }
      } else {
        InLineExtend(d, start, p);
      }
      cs := next;
      p := p + 1;
    }
    PendingEnd(d);
    RunDone(g, doc.View(), []);
    return None;
  }

  method ParseText(g: Grammar, data: string) returns (document: Document?, err: Option<ParseError>)
    ensures Parse(g, data).Ok? ==> err == None && document != null && fresh(document)
                                   && document.View() == Parse(g, data).value
    ensures Parse(g, data).Err? ==> err == Some(Parse(g, data).error) && document == null
  {
    var doc := new Document();
    var framed := Framed(data);
    assert Pending(framed, 0) == Lines(data);
    var failed := Scan(g, doc, framed);
    if failed.Some? {
      return null, failed;
    }
    if !doc.complete {
      return null, Some(Incomplete);
    }
    return doc, None;
  }
}
