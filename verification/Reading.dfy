/** What a configuration text says, line by line: which lines are commands, which delimiter a
    banner has, and where it ends. */
module Reading {
  import opened Prelude
  import opened Text
  import opened Native
  import opened RoundTrip

  /** The text begins with the word. */
  predicate Opening(w: string, text: string) { w <= text && (text == w || Space(text[|w|])) }

  // ---- banner lines ----

  const BANNER := "banner"
  const KINDS := ["motd", "exec", "incoming"]

  /** A banner line without a kind: the delimiter comes first. */
  ghost predicate PlainHead(head: string, b: string, payload: string) {
    && head == BANNER + b && Blanks(b)
    && (payload != "" ==> b != "" && !Blank(payload[0]))
    && (forall k :: k in KINDS ==> !Opening(k, payload))
  }

  ghost predicate KindHead(head: string, b: string, kind: string, c: string, payload: string) {
    && head == BANNER + b + kind + c && Blanks(b) && b != "" && kind in KINDS && Blanks(c)
    && (payload != "" ==> c != "" && !Blank(payload[0]))
  }

  /** Everything up to where the payload, and so the delimiter, begins. */
  ghost predicate Announces(head: string, payload: string) {
    || (exists b :: PlainHead(head, b, payload))
    || (exists b, kind, c :: KindHead(head, b, kind, c, payload))
  }

  lemma {:induction false} KindWords(kind: string)
    requires kind in KINDS
    ensures Wordlike(kind)
  {
  }

  lemma {:induction false} BannerPrefix(x: string)
    ensures TrimPrefix(BANNER + x, BANNER) == x
  {
    assert (BANNER + x)[|BANNER|..] == x;
  }

  lemma {:induction false} KindPrefix(kind: string, x: string)
    ensures TrimPrefix(kind + x, kind) == x
  {
    assert (kind + x)[|kind|..] == x;
  }

  lemma {:induction false} LeadingWord(w: string, x: string)
    requires w != "" && !Blank(w[|w| - 1]) && !Blank(w[0])
    ensures w <= TrimRight(w + x) && Indent(TrimRight(w + x)) == 0
  {
    if x == "" {
      assert w + x == w;
      TrimRightFixed(w);
    } else if Blank(x[|x| - 1]) {
      var n := |x| - 1;
      LeadingWord(w, x[..n]);
      assert (w + x)[..|w| + n] == w + x[..n];
    } else {
      TrimRightFixed(w + x);
    }
  }

  /** The words of a banner line, trimmed on the right. */
  lemma {:induction false} PlainFields(b: string, payload: string)
    requires Blanks(b) && (payload != "" ==> b != "" && !Blank(payload[0]))
    ensures Fields(TrimRight(BANNER + b + payload)) == [BANNER] + Fields(TrimRight(payload))
  {
    hide Fields, Indent, TrimRight, TrimPrefix;
    if payload == "" {
      assert BANNER + b + payload == BANNER + b;
      TrimRightWord(BANNER, b);
      assert BANNER + "" == BANNER;
      FieldsWord(BANNER, "");
      TrimRightFixed("");
    } else {
      TrimRightAfter(BANNER + b, payload);
      var rest := TrimRight(payload);
      assert BANNER + b + rest == BANNER + (b + rest);
      FieldsWord(BANNER, b + rest);
      FieldsSpaces(b, rest);
    }
  }

  /** What the reader takes for the payload, given the words of the line. */
  lemma {:induction false} PlainPayload(head: string, b: string, payload: string)
    requires PlainHead(head, b, payload)
    ensures var fields := Fields(TrimRight(head + payload));
            fields != [] && fields[0] == BANNER && BannerPayload(head + payload, fields) == payload
  {
    hide Fields, Indent, TrimRight, WordLength, TrimPrefix, TrimLeft;
    PlainFields(b, payload);
    assert head + payload == BANNER + (b + payload);
    BannerPrefix(b + payload);
    TrimLeftIs(b, payload);
    TrimLeftIs("", payload);
    assert "" + payload == payload;
    PlainKind(payload, TrimRight(payload));
  }

  /** A word that is the first one and begins the text opens it. */
  lemma {:induction false} WordOpens(payload: string, w: string)
    requires payload != "" && !Blank(payload[0]) && Wordlike(w) && w <= payload
    requires var fields := Fields(TrimRight(payload)); fields != [] && fields[0] == w
    ensures Opening(w, payload)
  {
    hide TrimRight;
    var rest := TrimRight(payload);
    assert payload[0] == w[0];
    TrimRightAfter("", payload);
    FirstField(rest);
    assert |payload| > |rest| ==> Blank(payload[|rest|]);
  }

  lemma {:induction false} PlainKind(payload: string, rest: string)
    requires rest == TrimRight(payload) && (payload != "" ==> !Blank(payload[0]))
    requires forall k :: k in KINDS ==> !Opening(k, payload)
    ensures Fields(rest) != [] && Fields(rest)[0] in KINDS ==> TrimPrefix(payload, Fields(rest)[0]) == payload
  {
    hide TrimRight, Fields, Opening;
    if Fields(rest) != [] && Fields(rest)[0] in KINDS && Fields(rest)[0] <= payload {
      var w := Fields(rest)[0];
      KindWords(w);
      WordOpens(payload, w);
    }
  }

  lemma {:induction false} KindPayload(head: string, b: string, kind: string, c: string, payload: string)
    requires KindHead(head, b, kind, c, payload)
    ensures var fields := Fields(TrimRight(head + payload));
            fields != [] && fields[0] == BANNER && BannerPayload(head + payload, fields) == payload
  {
    hide Fields, Indent, TrimRight, TrimPrefix;
    var raw := head + payload;
    KindWords(kind);
    var tail := kind + (c + payload);
    assert raw == BANNER + (b + tail);
    BannerPrefix(b + tail);
    TrimLeftIs(b, tail);
    KindPrefix(kind, c + payload);
    TrimLeftIs(c, payload);
    var after := if payload == "" then "" else c + TrimRight(payload);
    if payload == "" {
      assert raw == (BANNER + b + kind) + c;
      TrimRightWord(BANNER + b + kind, c);
    } else {
      TrimRightAfter(head, payload);
    }
    assert TrimRight(raw) == BANNER + (b + (kind + after));
    FieldsWord(BANNER, b + (kind + after));
    FieldsSpaces(b, kind + after);
    FieldsWord(kind, after);
  }

  lemma {:induction false} PayloadIs(head: string, payload: string)
    requires Announces(head, payload)
    ensures BANNER <= head
    ensures var fields := Fields(TrimRight(head + payload));
            fields != [] && fields[0] == BANNER && BannerPayload(head + payload, fields) == payload
  {
    hide Fields, TrimRight, BannerPayload;
    if b :| PlainHead(head, b, payload) {
      PlainPayload(head, b, payload);
    } else {
      var b, kind, c :| KindHead(head, b, kind, c, payload);
      KindPayload(head, b, kind, c, payload);
    }
  }

  const ENTER_KEY := "require-enter-key"

  /** A banner line: refused without a delimiter; otherwise one more top-level command, and
      the banner stays open exactly if its delimiter does not occur again. */
  lemma {:induction false} BannerLine(g: Grammar, d: Doc, line: string, head: string, payload: string)
    requires Tracked(d) && d.started && d.banner == NO_BANNER
    requires StripCR(line) == head + payload && Announces(head, payload)
    ensures var r := Step(g, d, line);
            if payload == "" || payload[0] == '"' then r == Err(BadBanner)
            else
              && r.Ok? && r.value.started && r.value.complete == d.complete
              && |r.value.commands| == |d.commands| + 1 && r.value.commands[..|d.commands|] == d.commands
              && r.value.commands[|d.commands|].parent == -1
              && (payload == ENTER_KEY ==>
                    r.value.banner == NO_BANNER && r.value.commands[|d.commands|].text == TrimRight(head + payload))
              && (payload != ENTER_KEY ==>
                    && r.value.banner == (if payload[0] in payload[1..] then NO_BANNER else payload[0])
                    && r.value.commands[|d.commands|].text == head + payload)
  {
    hide Fields, TrimRight, BannerPayload, TrimSpace, Pop;
    var raw := head + payload;
    PayloadIs(head, payload);
    assert raw == BANNER + raw[|BANNER|..];
    LeadingWord(BANNER, raw[|BANNER|..]);
    NotBang(TrimRight(raw));
    PopAll(d.commands, d.stack);
  }

  lemma {:induction false} NotBang(line: string)
    requires BANNER <= line
    ensures TrimSpace(line) != "!" && line != "end"
  {
    assert line[0] == 'b' && SkipSpace(line) == line;
    if TrimSpace(line) != "" { assert TrimSpace(line)[0] == line[0]; }
  }

  lemma {:induction false} PopAll(commands: seq<Command>, stack: seq<nat>)
    requires forall i :: 0 <= i < |stack| ==> stack[i] < |commands|
    ensures Pop(commands, stack, 0) == []
    decreases |stack|
  {
    if stack != [] { PopAll(commands, stack[..|stack| - 1]); }
  }

  // ---- whole banners ----

  /** The text with further lines below it. */
  function Extended(text: string, lines: seq<string>): (r: string)
    decreases |lines|
  {
    if lines == [] then text else Extended(text + "\n" + StripCR(lines[0]), lines[1..])
  }

  function WithText(d: Doc, text: string, banner: char): (r: Doc)
    requires d.commands != []
  {
    var i := |d.commands| - 1;
    d.(commands := d.commands[i := d.commands[i].(text := text)], banner := banner)
  }

  lemma {:induction false} BannerBody(g: Grammar, d: Doc, body: seq<string>, close: string, rest: seq<string>)
    requires Tracked(d) && d.banner != NO_BANNER && !d.complete
    requires forall i :: 0 <= i < |body| ==> d.banner !in StripCR(body[i])
    requires d.banner in StripCR(close)
    ensures var after := WithText(d, Extended(d.commands[|d.commands| - 1].text, body + [close]), NO_BANNER);
            Tracked(after) && RunLines(g, d, body + [close] + rest) == RunLines(g, after, rest)
    decreases |body|
  {
    var last := |d.commands| - 1;
    var text := d.commands[last].text;
    var lines := body + [close] + rest;
    if body == [] {
      assert lines[0] == close && lines[1..] == rest;
      assert Extended(text, [close]) == text + "\n" + StripCR(close) by {
        assert [close][1..] == [];
        assert Extended(text + "\n" + StripCR(close), []) == text + "\n" + StripCR(close);
      }
      assert body + [close] == [close];
    } else {
      var next := Continue(d, StripCR(body[0]));
      assert lines[0] == body[0] && lines[1..] == body[1..] + [close] + rest;
      assert (body + [close])[1..] == body[1..] + [close] && (body + [close])[0] == body[0];
      BannerBody(g, next, body[1..], close, rest);
      assert next.commands[last].text == text + "\n" + StripCR(body[0]);
      assert WithText(next, Extended(next.commands[last].text, body[1..] + [close]), NO_BANNER) ==
             WithText(d, Extended(text, body + [close]), NO_BANNER);
    }
  }

  /** From a banner line on, lines without the delimiter are payload, whatever they look
      like, and the first one with it ends the banner: all together one command. */
  lemma {:induction false} BannerBlock(g: Grammar, d: Doc, line: string, head: string, payload: string,
        body: seq<string>, close: string, rest: seq<string>)
    requires Tracked(d) && d.started && d.banner == NO_BANNER && !d.complete
    requires StripCR(line) == head + payload && Announces(head, payload) && payload != ENTER_KEY
    requires payload != "" && payload[0] != '"' && payload[0] != NO_BANNER && payload[0] !in payload[1..]
    requires forall i :: 0 <= i < |body| ==> payload[0] !in StripCR(body[i])
    requires payload[0] in StripCR(close)
    ensures var begun := Step(g, d, line);
            && begun.Ok? && Tracked(begun.value) && begun.value.commands != []
            && (var after := WithText(begun.value, Extended(head + payload, body + [close]), NO_BANNER);
                && Tracked(after) && !after.complete && after.started
                && |after.commands| == |d.commands| + 1 && after.commands[..|d.commands|] == d.commands
                && RunLines(g, d, [line] + body + [close] + rest) == RunLines(g, after, rest))
  {
    hide Step, Announces;
    BannerLine(g, d, line, head, payload);
    var begun := Step(g, d, line).value;
    BannerBody(g, begun, body, close, rest);
    var lines := [line] + body + [close] + rest;
    assert lines[0] == line && lines[1..] == body + [close] + rest;
  }

  lemma {:induction false} HeaderLine(g: Grammar, line: string)
    requires "ver " <= TrimRight(StripCR(line))
    ensures var r := Step(g, EMPTY, line);
            && r.Ok? && |r.value.commands| == 1 && r.value.commands[0].text == TrimRight(StripCR(line))
            && r.value.started && !r.value.complete && r.value.banner == NO_BANNER
  {
    hide TrimSpace;
    var raw := StripCR(line);
    var text := TrimRight(raw);
    assert text[0] == 'v';
    StartKept(text);
    FirstField(text);
    assert Fields(text)[0][0] == 'v';
  }

  lemma {:induction false} LastLine(g: Grammar, d: Doc)
    requires Tracked(d) && d.started && d.banner == NO_BANNER
    ensures var r := Step(g, d, "end");
            && r.Ok? && r.value.complete && |r.value.commands| == |d.commands| + 1
            && Texts(r.value.commands) == Texts(d.commands) + ["end"]
  {
    hide Pop;
    assert StripCR("end") == "end";
    TrimRightFixed("end");
    assert Indent("end") == 0 && SkipSpace("end") == "end" && DropSpace("end") == "end";
    FirstField("end");
    assert Fields("end")[0][0] == 'e';
    PopAll(d.commands, d.stack);
  }

  lemma {:induction false} RunHead(g: Grammar, d: Doc, line: string, rest: seq<string>)
    requires Tracked(d) && !d.complete && Step(g, d, line).Ok?
    ensures RunLines(g, d, [line] + rest) == RunLines(g, Step(g, d, line).value, rest)
  {
    hide Step;
    assert ([line] + rest)[1..] == rest;
  }

  lemma {:induction false} RunLast(g: Grammar, d: Doc)
    requires Tracked(d) && d.started && d.banner == NO_BANNER && !d.complete
    ensures var r := RunLines(g, d, ["end"]);
            r.Ok? && r.value.complete && Texts(r.value.commands) == Texts(d.commands) + ["end"]
  {
    hide Step;
    LastLine(g, d);
    RunHead(g, d, "end", []);
    assert ["end"] + [] == ["end"];
  }

  lemma {:induction false} BannerRun(g: Grammar, header: string, line: string, head: string, payload: string,
        body: seq<string>, close: string)
    requires "ver " <= TrimRight(StripCR(header))
    requires StripCR(line) == head + payload && Announces(head, payload) && payload != ENTER_KEY
    requires payload != "" && payload[0] != '"' && payload[0] != NO_BANNER && payload[0] !in payload[1..]
    requires forall i :: 0 <= i < |body| ==> payload[0] !in StripCR(body[i])
    requires payload[0] in StripCR(close)
    ensures var r := RunLines(g, EMPTY, [header] + ([line] + body + [close] + ["end"]));
            r.Ok? && r.value.complete
            && Texts(r.value.commands) ==
               [TrimRight(StripCR(header)), Extended(head + payload, body + [close]), "end"]
  {
    hide Step, Announces, TrimRight, StripCR, RunLines, Extended;
    HeaderLine(g, header);
    var first := Step(g, EMPTY, header).value;
    RunHead(g, EMPTY, header, [line] + body + [close] + ["end"]);
    BannerBlock(g, first, line, head, payload, body, close, ["end"]);
    var after := WithText(Step(g, first, line).value, Extended(head + payload, body + [close]), NO_BANNER);
    RunLast(g, after);
    assert Texts(after.commands) == [first.commands[0].text, Extended(head + payload, body + [close])];
  }

  /** A header, a banner of any lines without its delimiter, and `end`: three commands, the
      second the whole banner. */
  lemma {:induction false} BannerDocument(g: Grammar, header: string, line: string, head: string, payload: string,
        body: seq<string>, close: string)
    requires "ver " <= TrimRight(StripCR(header)) && AllFree([header, line] + body + [close], '\n')
    requires StripCR(line) == head + payload && Announces(head, payload) && payload != ENTER_KEY
    requires payload != "" && payload[0] != '"' && payload[0] != NO_BANNER && payload[0] !in payload[1..]
    requires forall i :: 0 <= i < |body| ==> payload[0] !in StripCR(body[i])
    requires payload[0] in StripCR(close)
    ensures var r := Parse(g, Join([header, line] + body + [close, "end"], '\n') + "\n");
            r.Ok? && Texts(r.value.commands) ==
                     [TrimRight(StripCR(header)), Extended(head + payload, body + [close]), "end"]
  {
    hide Announces, Split, Join, TrimRight, StripCR, RunLines, Lines, Extended, Texts;
    var lines := [header, line] + body + [close, "end"];
    assert lines == [header, line] + body + [close] + ["end"];
    assert lines == [header] + ([line] + body + [close] + ["end"]);
    Framing(lines);
    BannerRun(g, header, line, head, payload, body, close);
  }

  /** Joined newline-free lines and a final newline are read as those lines. */
  lemma {:induction false} Framing(lines: seq<string>)
    requires lines != [] && AllFree(lines, '\n')
    ensures Lines(Join(lines, '\n') + "\n") == lines
  {
    hide Split, Join;
    var data := Join(lines, '\n');
    assert (data + "\n")[..|data|] == data;
    SplitJoin(lines, '\n');
  }

  // ---- documents without banners ----

  /** A line of nothing but an exclamation mark. */
  ghost predicate Comment(line: string) {
    exists i :: 0 <= i < |line| && line[i] == '!' && Spaces(line[..i]) && Spaces(line[i + 1..])
  }

  lemma {:induction false} FieldsEmpty(s: string)
    ensures Fields(s) == [] <==> Spaces(s)
    ensures SkipSpace(s) == "" <==> Spaces(s)
  {
    if s != "" && Space(s[0]) {
      FieldsEmpty(s[1..]);
      assert s == [s[0]] + s[1..];
    }
  }

  lemma {:induction false} DropSpaces(a: string, b: string)
    requires Spaces(b) && (a != "" ==> !Space(a[|a| - 1]))
    ensures DropSpace(a + b) == a
  {
    if b == "" {
      assert a + b == a;
    } else {
      var n := |b| - 1;
      DropSpaces(a, b[..n]);
      assert (a + b)[..|a| + n] == a + b[..n];
    }
  }

  lemma {:induction false} DropSpaceTail(s: string)
    ensures Spaces(s[|DropSpace(s)|..])
  {
    if s != "" && Space(s[|s| - 1]) {
      DropSpaceTail(s[..|s| - 1]);
      var n := |DropSpace(s)|;
      assert s[n..] == s[..|s| - 1][n..] + [s[|s| - 1]];
    }
  }

  lemma {:induction false} SkipSpaceHead(s: string)
    ensures var n := |s| - |SkipSpace(s)|; 0 <= n && s[n..] == SkipSpace(s) && Spaces(s[..n])
  {
    if s != "" && Space(s[0]) {
      SkipSpaceHead(s[1..]);
      var n := |s| - |SkipSpace(s)|;
      assert s[..n] == [s[0]] + s[1..][..n - 1];
    }
  }

  lemma {:induction false} BangKept(s: string)
    requires s != "" && s[0] == '!'
    ensures SkipSpace(s) == s
  {
  }

  lemma {:induction false} CommentTrimmed(s: string)
    requires TrimSpace(s) == "!"
    ensures Comment(s)
  {
    hide SkipSpace, DropSpace;
    var t := SkipSpace(s);
    SkipSpaceHead(s);
    DropSpaceTail(t);
    var n := |s| - |t|;
    assert s[n] == s[n..][0] && s[n + 1..] == s[n..][1..];
  }

  lemma {:induction false} BangTrimmed(a: string, b: string)
    requires Spaces(a) && Spaces(b)
    ensures TrimSpace(a + ("!" + b)) == "!"
  {
    hide SkipSpace, DropSpace, Fields, Spaces;
    FieldsSpaces(a, "!" + b);
    BangKept("!" + b);
    DropSpaces("!", b);
  }

  lemma {:induction false} CommentIs(s: string)
    ensures TrimSpace(s) == "!" <==> Comment(s)
  {
    hide TrimSpace, Spaces;
    if TrimSpace(s) == "!" { CommentTrimmed(s); }
    if Comment(s) {
      var i :| 0 <= i < |s| && s[i] == '!' && Spaces(s[..i]) && Spaces(s[i + 1..]);
      BangTrimmed(s[..i], s[i + 1..]);
      assert s == s[..i] + ("!" + s[i + 1..]);
    }
  }

  /** The commands of lines without banners: nothing before the first line that starts with
      `ver `, then every line but blank ones and lone exclamation marks, up to a line `end`. */
  ghost function PlainTexts(lines: seq<string>, started: bool): (r: seq<string>) {
    if lines == [] then []
    else
      var text := TrimRight(StripCR(lines[0]));
      if !started && !("ver " <= text) then PlainTexts(lines[1..], false)
      else if Spaces(text) || Comment(text) then PlainTexts(lines[1..], true)
      else if text == "end" then [text]
      else [text] + PlainTexts(lines[1..], true)
  }

  /** Started documents keep a top-level command open, so that no line is an orphan. */
  ghost predicate Rooted(d: Doc) {
    d.started ==> d.stack != [] && d.stack[0] < |d.commands| && d.commands[d.stack[0]].indent == 0
  }

  lemma {:induction false} PopRooted(commands: seq<Command>, stack: seq<nat>, indent: nat)
    requires forall i :: 0 <= i < |stack| ==> stack[i] < |commands|
    requires stack != [] && commands[stack[0]].indent == 0 && indent > 0
    ensures var r := Pop(commands, stack, indent); r != [] && r[0] == stack[0]
    decreases |stack|
  {
    if commands[stack[|stack| - 1]].indent >= indent { PopRooted(commands, stack[..|stack| - 1], indent); }
  }

  lemma {:induction false} HeaderTop(line: string)
    ensures "ver " <= line ==> Indent(line) == 0 && !Skipped(line)
  {
    if "ver " <= line {
      assert line[0] == 'v';
      StartKept(line);
    }
  }

  lemma {:induction false} StepRooted(g: Grammar, d: Doc, line: string)
    requires Tracked(d) && Rooted(d)
    ensures var r := Step(g, d, line); (r.Err? ==> r.error == BadBanner) && (r.Ok? ==> Rooted(r.value))
  {
    hide TrimSpace, Fields, Form, TrimRight, Kept, Skipped;
    var raw := StripCR(line);
    var indent := Indent(TrimRight(raw));
    if d.banner == NO_BANNER {
      HeaderTop(TrimRight(raw));
      if indent > 0 {
        if d.started { PopRooted(d.commands, d.stack, indent); }
      } else {
        PopAll(d.commands, d.stack);
      }
    }
  }

  lemma {:induction false} RunRooted(g: Grammar, d: Doc, lines: seq<string>)
    requires Tracked(d) && Rooted(d)
    ensures RunLines(g, d, lines).Err? ==> RunLines(g, d, lines).error == BadBanner
    decreases |lines|
  {
    hide Step, Rooted;
    if lines != [] && !d.complete {
      StepRooted(g, d, lines[0]);
      if Step(g, d, lines[0]).Ok? { RunRooted(g, Step(g, d, lines[0]).value, lines[1..]); }
    }
  }

  /** Commands are never orphaned: the header is at the top, and stays open above the rest. */
  lemma {:induction false} NeverOrphaned(g: Grammar, data: string)
    ensures Parse(g, data) != Err(Orphaned)
  {
    hide RunLines, Lines;
    RunRooted(g, EMPTY, Lines(data));
  }

  /** A line that is not a banner line. */
  predicate Ordinary(line: string) {
    var text := TrimRight(StripCR(line));
    Indent(text) > 0 || Fields(text) == [] || Fields(text)[0] != BANNER
  }

  lemma {:induction false} OrdinaryStep(g: Grammar, d: Doc, line: string)
    requires Tracked(d) && Rooted(d) && d.banner == NO_BANNER && !d.complete && Ordinary(line)
    ensures var r, text := Step(g, d, line), TrimRight(StripCR(line));
            && r.Ok? && Rooted(r.value) && r.value.banner == NO_BANNER
            && (if !d.started && !("ver " <= text) then r.value == d
                else if Spaces(text) || Comment(text) then
                  r.value.commands == d.commands && r.value.started && !r.value.complete
                else
                  && r.value.started && (r.value.complete <==> text == "end")
                  && Texts(r.value.commands) == Texts(d.commands) + [text])
  {
    hide Fields, Pop, TrimSpace, TrimRight, Comment, Spaces, BannerPayload, Rooted;
    var text := TrimRight(StripCR(line));
    StepRooted(g, d, line);
    FieldsEmpty(text);
    CommentIs(text);
    assert Indent("end") == 0;
  }

  ghost predicate Ended(texts: seq<string>) { texts != [] && texts[|texts| - 1] == "end" }

  lemma {:induction false} EndedCons(text: string, rest: seq<string>)
    requires text != "end"
    ensures Ended([text] + rest) <==> Ended(rest)
  {
  }

  /** The texts of the first line, and those of the rest. */
  lemma {:induction false} PlainCons(lines: seq<string>, started: bool)
    requires lines != []
    ensures var text := TrimRight(StripCR(lines[0]));
            PlainTexts(lines, started) ==
            if !started && !("ver " <= text) then PlainTexts(lines[1..], false)
            else if Spaces(text) || Comment(text) then PlainTexts(lines[1..], true)
            else if text == "end" then [text]
            else [text] + PlainTexts(lines[1..], true)
  {
  }

  lemma {:induction false} PlainNone(started: bool)
    ensures PlainTexts([], started) == []
  {
  }

  lemma {:induction false} PlainRun(g: Grammar, d: Doc, lines: seq<string>)
    requires Tracked(d) && Rooted(d) && d.banner == NO_BANNER && !d.complete
    requires forall i :: 0 <= i < |lines| ==> Ordinary(lines[i])
    ensures var r, texts := RunLines(g, d, lines), PlainTexts(lines, d.started);
            r.Ok? && Texts(r.value.commands) == Texts(d.commands) + texts && (r.value.complete <==> Ended(texts))
    decreases |lines|
  {
    hide Step, Ordinary, Rooted, TrimRight, Comment, Spaces, Texts, PlainTexts, Ended;
    if lines == [] {
      PlainNone(d.started);
      assert !Ended([]) && Texts(d.commands) + [] == Texts(d.commands) by { EndedNone(); }
    } else {
      var text := TrimRight(StripCR(lines[0]));
      PlainCons(lines, d.started);
      OrdinaryStep(g, d, lines[0]);
      var next := Step(g, d, lines[0]).value;
      if next.complete {
        EndedOne();
      } else {
        var rest := PlainTexts(lines[1..], next.started);
        PlainRun(g, next, lines[1..]);
        if text != "end" { EndedCons(text, rest); }
        assert Texts(d.commands) + ([text] + rest) == Texts(d.commands) + [text] + rest;
      }
    }
  }

  lemma {:induction false} EndedNone()
    ensures !Ended([])
  {
  }

  lemma {:induction false} EndedOne()
    ensures Ended(["end"])
  {
  }

  /** A text without banner lines is read exactly if its commands end in `end`, and its
      commands are the ones of its lines. */
  lemma {:induction false} PlainDocument(g: Grammar, data: string)
    requires forall i :: 0 <= i < |Lines(data)| ==> Ordinary(Lines(data)[i])
    ensures var r, texts := Parse(g, data), PlainTexts(Lines(data), false);
            && (r.Ok? <==> Ended(texts))
            && (r.Ok? ==> Texts(r.value.commands) == texts)
            && (r.Err? ==> r.error == Incomplete)
  {
    hide Lines, RunLines, PlainTexts, Ordinary, Ended;
    PlainRun(g, EMPTY, Lines(data));
    assert Texts(EMPTY.commands) == [];
  }
}
