/** What every parsed document satisfies: the indentation tree, and how text determines
    everything else about a command. */
module Tree {
  import opened Text
  import opened Native
  import opened RoundTrip

  // ---- the indentation tree ----

  /** The parent is the nearest earlier command with strictly smaller indentation. */
  ghost predicate NearestParent(commands: seq<Command>, i: nat)
    requires i < |commands|
  {
    var c := commands[i];
    && -1 <= c.parent < i
    && (c.parent == -1 <==> c.indent == 0)
    && (c.parent >= 0 ==> commands[c.parent].indent < c.indent)
    && (forall j :: c.parent < j < i ==> commands[j].indent >= c.indent)
  }

  /** Everything after `top` is indented by at least `indent`. */
  ghost predicate DeeperAfter(commands: seq<Command>, top: int, indent: nat) {
    forall j :: top < j < |commands| && j >= 0 ==> commands[j].indent >= indent
  }

  /** The open scopes: ascending positions and indentations, nothing shallower in between. */
  ghost predicate Chain(commands: seq<Command>, stack: seq<nat>) {
    && (forall k :: 0 <= k < |stack| ==> stack[k] < |commands|)
    && (forall k, l :: 0 <= k < l < |stack| ==>
       stack[k] < stack[l] && commands[stack[k]].indent < commands[stack[l]].indent)
    && (stack != [] ==> commands[stack[0]].indent == 0)
    && (forall k, j :: 0 < k < |stack| && stack[k - 1] < j < stack[k] ==>
       commands[j].indent >= commands[stack[k]].indent)
  }

  ghost predicate Scoped(d: Doc) {
    && (forall i :: 0 <= i < |d.commands| ==> NearestParent(d.commands, i))
    && Chain(d.commands, d.stack)
    && Top(d.stack) == |d.commands| - 1
  }

  lemma {:induction false} ChainPrefix(commands: seq<Command>, stack: seq<nat>, r: seq<nat>)
    requires Chain(commands, stack) && r <= stack
    ensures Chain(commands, r)
  {
  }

  lemma {:induction false} PopDeeper(commands: seq<Command>, stack: seq<nat>, indent: nat)
    requires Chain(commands, stack) && DeeperAfter(commands, Top(stack), indent)
    ensures DeeperAfter(commands, Top(Pop(commands, stack, indent)), indent)
    decreases |stack|
  {
    if stack != [] && commands[stack[|stack| - 1]].indent >= indent {
      var rest := stack[..|stack| - 1];
      ChainPrefix(commands, stack, rest);
      assert DeeperAfter(commands, Top(rest), indent) by {
        var k := |stack| - 1;
        forall j | Top(rest) < j < |commands| && j >= 0
          ensures commands[j].indent >= indent
        {
          if k > 0 { assert j < stack[k] ==> commands[j].indent >= commands[stack[k]].indent; }
        }
      }
      PopDeeper(commands, rest, indent);
    }
  }

  lemma {:induction false} ChainPush(commands: seq<Command>, c: Command, r: seq<nat>)
    requires Chain(commands, r) && DeeperAfter(commands, Top(r), c.indent)
    requires r != [] ==> commands[r[|r| - 1]].indent < c.indent
    requires r == [] ==> c.indent == 0
    ensures Chain(commands + [c], r + [|commands|])
  {
    var all, stack := commands + [c], r + [|commands|];
    PushAscends(commands, c, r);
    forall k, j | 0 < k < |stack| && stack[k - 1] < j < stack[k]
      ensures all[j].indent >= all[stack[k]].indent
    {
      if k < |r| {
        assert commands[j].indent >= commands[r[k]].indent;
      } else {
        assert commands[j].indent >= c.indent;
      }
    }
  }

  lemma {:induction false} PushAscends(commands: seq<Command>, c: Command, r: seq<nat>)
    requires Chain(commands, r)
    requires r != [] ==> commands[r[|r| - 1]].indent < c.indent
    ensures var all, stack := commands + [c], r + [|commands|];
            forall k, l :: 0 <= k < l < |stack| ==> stack[k] < stack[l] && all[stack[k]].indent < all[stack[l]].indent
  {
    var all, stack := commands + [c], r + [|commands|];
    forall k, l | 0 <= k < l < |stack|
      ensures stack[k] < stack[l] && all[stack[k]].indent < all[stack[l]].indent
    {
      if l == |r| && k < |r| - 1 {
        assert commands[r[k]].indent < commands[r[|r| - 1]].indent;
      }
    }
  }

  lemma {:induction false} AppendScoped(d: Doc, c: Command, r: seq<nat>, started: bool, complete: bool, banner: char)
    requires Scoped(d) && r <= d.stack && c.parent == Top(r)
    requires r != [] ==> d.commands[r[|r| - 1]].indent < c.indent
    requires r == [] ==> c.indent == 0
    requires DeeperAfter(d.commands, Top(r), c.indent)
    ensures Scoped(Doc(d.commands + [c], started, complete, r + [|d.commands|], banner))
  {
    hide Chain;
    var n := |d.commands|;
    var commands := d.commands + [c];
    ChainPrefix(d.commands, d.stack, r);
    ChainPush(d.commands, c, r);
    assert r != [] ==> r[|r| - 1] < n by { ChainBounds(d.commands, r); }
    forall i | 0 <= i < |commands| ensures NearestParent(commands, i) {
      if i < n { assert NearestParent(d.commands, i); }
    }
  }

  lemma {:induction false} ChainBounds(commands: seq<Command>, stack: seq<nat>)
    requires Chain(commands, stack)
    ensures forall k :: 0 <= k < |stack| ==> stack[k] < |commands|
  {
  }

  // ---- text determines the rest ----

  function Header(text: string): string { TrimRight(Split(text, '\n')[0]) }

  /** A command's derived fields are functions of its own text. */
  ghost predicate FromText(g: Grammar, c: Command) {
    && Fields(Header(c.text)) != []
    && c.fields == Fields(Header(c.text))
    && c.indent == Indent(Header(c.text))
    && c.parsed == g(TrimSpace(Header(c.text)))
  }

  function FormOf(text: string): BannerForm
    requires Fields(Header(text)) != []
  {
    Form(Split(text, '\n')[0], Header(text), Fields(Header(text)))
  }

  predicate Opens(f: BannerForm) { f.Keep? && f.delimiter != NO_BANNER }

  /** Lines 1..n of a banner hold no delimiter. */
  ghost predicate Unclosed(lines: seq<string>, n: nat, delimiter: char) {
    forall k :: 1 <= k < n && k < |lines| ==> delimiter !in lines[k]
  }

  /** Only a banner spans lines, and only up to the first line with its delimiter. */
  ghost predicate Whole(text: string) {
    && Fields(Header(text)) != []
    && (if Opens(FormOf(text)) then
          var lines := Split(text, '\n');
          && |lines| >= 2
          && FormOf(text).delimiter in lines[|lines| - 1]
          && Unclosed(lines, |lines| - 1, FormOf(text).delimiter)
        else |Split(text, '\n')| == 1)
  }

  ghost predicate Partial(text: string, delimiter: char) {
    && Fields(Header(text)) != []
    && Opens(FormOf(text)) && FormOf(text).delimiter == delimiter
    && Unclosed(Split(text, '\n'), |Split(text, '\n')|, delimiter)
  }

  ghost predicate Legible(g: Grammar, d: Doc) {
    && (forall i :: 0 <= i < |d.commands| ==> FromText(g, d.commands[i]))
    && (forall i :: 0 <= i < |d.commands| - 1 ==> Whole(d.commands[i].text))
    && (d.commands != [] ==>
          var text := d.commands[|d.commands| - 1].text;
          if d.banner == NO_BANNER then Whole(text) else Partial(text, d.banner))
  }

  /** The closing `end` is the last command, and the first top-level one to read `end`. */
  ghost predicate Closing(d: Doc) {
    && (forall i :: 0 <= i < |d.commands| && d.commands[i].text == "end" ==> d.complete && i == |d.commands| - 1)
    && Ended(d)
  }

  ghost predicate Sound(g: Grammar, d: Doc) {
    Tracked(d) && Scoped(d) && Legible(g, d) && Closing(d)
  }

  lemma {:induction false} NewText(g: Grammar, raw: string, parent: int)
    requires Free(raw, '\n') && Fields(TrimRight(raw)) != []
    requires !Form(raw, TrimRight(raw), Fields(TrimRight(raw))).Bad?
    ensures var c := NewCommand(g, raw, parent);
            && FromText(g, c)
            && FormOf(c.text) == Form(raw, TrimRight(raw), Fields(TrimRight(raw)))
            && Split(c.text, '\n') == [c.text]
            && (if Opens(FormOf(c.text)) then Partial(c.text, FormOf(c.text).delimiter) else Whole(c.text))
  {
    hide Fields, Indent, TrimSpace, TrimRight, Form, Kept;
    KeptTwice(raw);
    assert Free(Kept(raw), '\n') by { KeptFree(raw); }
    SplitWhole(Kept(raw), '\n');
  }

  lemma {:induction false} AppendLegible(g: Grammar, d: Doc, raw: string)
    requires Sound(g, d) && !d.complete && d.banner == NO_BANNER && Free(raw, '\n')
    requires Fields(TrimRight(raw)) != [] && Append(g, d, raw).Ok?
    ensures Legible(g, Append(g, d, raw).value)
  {
    hide Fields, Indent, TrimSpace, TrimRight, Form, Kept, Split, Pop, FromText, Scoped, Closing, Whole, Partial;
    var parent := Top(Pop(d.commands, d.stack, Indent(TrimRight(raw))));
    NewText(g, raw, parent);
    var after := Append(g, d, raw).value;
    assert after.commands == d.commands + [NewCommand(g, raw, parent)];
  }

  lemma {:induction false} KeptEnd(raw: string)
    requires Fields(TrimRight(raw)) != []
    ensures Kept(raw) == "end" ==> TrimRight(raw) == "end"
    ensures TrimRight(raw) == "end" ==> Kept(raw) == "end" && Indent("end") == 0
  {
    if raw == "end" { TrimRightFixed(raw); }
    if TrimRight(raw) == "end" { assert |Fields("end")[0]| <= 3; }
  }

  lemma {:induction false} AppendSound(g: Grammar, d: Doc, raw: string)
    requires Sound(g, d) && !d.complete && d.banner == NO_BANNER && Free(raw, '\n')
    requires Fields(TrimRight(raw)) != [] && Append(g, d, raw).Ok?
    ensures Sound(g, Append(g, d, raw).value)
  {
    hide Fields, Indent, TrimSpace, TrimRight, Form, Kept, Legible, Pop, Scoped;
    AppendLegible(g, d, raw);
    var indent := Indent(TrimRight(raw));
    var r := Pop(d.commands, d.stack, indent);
    var c := NewCommand(g, raw, Top(r));
    KeptEnd(raw);
    var after := Append(g, d, raw).value;
    assert Scoped(after) by {
      assert Chain(d.commands, d.stack) && DeeperAfter(d.commands, Top(d.stack), indent) by { ScopedParts(d, indent); }
      PopDeeper(d.commands, d.stack, indent);
      AppendScoped(d, c, r, true, after.complete, after.banner);
    }
  }

  lemma {:induction false} ScopedParts(d: Doc, indent: nat)
    requires Scoped(d)
    ensures Chain(d.commands, d.stack) && DeeperAfter(d.commands, Top(d.stack), indent)
  {
  }

  lemma {:induction false} ContinueScoped(d: Doc, raw: string)
    requires Tracked(d) && Scoped(d) && d.banner != NO_BANNER
    ensures Scoped(Continue(d, raw))
  {
    var after := Continue(d, raw);
    forall i | 0 <= i < |after.commands| ensures NearestParent(after.commands, i) {
      assert NearestParent(d.commands, i);
    }
  }

  lemma {:induction false} ContinueText(g: Grammar, c: Command, raw: string, delimiter: char)
    requires FromText(g, c) && Partial(c.text, delimiter) && Free(raw, '\n')
    ensures var text := c.text + "\n" + raw;
            && FromText(g, c.(text := text)) && text != "end"
            && if delimiter in raw then Whole(text) else Partial(text, delimiter)
  {
    hide Fields, Indent, TrimSpace, TrimRight, Form, Split;
    SplitWhole(raw, '\n');
    SplitAppend(c.text, raw, '\n');
    assert c.text + "\n" + raw == c.text + ['\n'] + raw;
    assert (c.text + "\n" + raw)[|c.text|] == '\n';
  }

  lemma {:induction false} ContinueSound(g: Grammar, d: Doc, raw: string)
    requires Sound(g, d) && !d.complete && d.banner != NO_BANNER && Free(raw, '\n')
    ensures Sound(g, Continue(d, raw))
  {
    hide Scoped, FromText, Whole, Partial;
    ContinueScoped(d, raw);
    ContinueText(g, d.commands[|d.commands| - 1], raw, d.banner);
  }

  lemma {:induction false} StepSound(g: Grammar, d: Doc, line: string)
    requires Sound(g, d) && !d.complete && Free(line, '\n') && Step(g, d, line).Ok?
    ensures Sound(g, Step(g, d, line).value)
  {
    hide Scoped, Legible, Closing, Append, Continue, Skipped, TrimRight, Free;
    var raw := StripCR(line);
    assert Free(raw, '\n') by { StripFree(line); }
    if d.banner != NO_BANNER {
      ContinueSound(g, d, raw);
    } else if !d.started && !("ver " <= TrimRight(raw)) {
    } else if Skipped(TrimRight(raw)) {
      SoundStarted(g, d);
    } else {
      assert Fields(TrimRight(raw)) != [] by { Unskipped(TrimRight(raw)); }
      AppendSound(g, d, raw);
    }
  }

  lemma {:induction false} SoundStarted(g: Grammar, d: Doc)
    requires Sound(g, d)
    ensures Sound(g, d.(started := true))
  {
    hide Whole, Partial, FromText, NearestParent, Chain;
  }

  lemma {:induction false} RunSound(g: Grammar, d: Doc, lines: seq<string>)
    requires Sound(g, d) && AllFree(lines, '\n') && RunLines(g, d, lines).Ok?
    ensures Sound(g, RunLines(g, d, lines).value)
    decreases |lines|
  {
    hide Step, Scoped, Legible, Closing;
    if lines != [] && !d.complete {
      StepSound(g, d, lines[0]);
      RunSound(g, Step(g, d, lines[0]).value, lines[1..]);
    }
  }

  lemma {:induction false} EmptyScoped()
    ensures Tracked(EMPTY) && Scoped(EMPTY)
  {
    assert Chain([], []);
  }

  lemma {:induction false} EmptyLegible(g: Grammar)
    ensures Legible(g, EMPTY)
  {
    hide FromText, Whole, Partial;
  }

  lemma {:induction false} EmptyClosing()
    ensures Closing(EMPTY)
  {
  }

  lemma {:induction false} EmptySound(g: Grammar)
    ensures Sound(g, EMPTY)
  {
    hide Scoped, Legible, Closing, Tracked;
    EmptyScoped();
    EmptyLegible(g);
    EmptyClosing();
  }

  /** Every accepted prefix of lines leaves a nearest-parent tree, text-determined commands,
      whole banners, and one closing `end`. */
  lemma {:induction false} ParsedSound(g: Grammar, data: string)
    requires Parse(g, data).Ok?
    ensures Sound(g, Parse(g, data).value) && Parse(g, data).value.complete
  {
    hide RunLines, Sound;
    LinesFree(data);
    EmptySound(g);
    RunSound(g, EMPTY, Lines(data));
  }
}
