/** Printing and parsing again: when it gives the document back, and exactly when not. */
module RoundTrip {
  import opened Prelude
  import opened Text
  import opened Native

  // ---- printed lines ----

  function PrintedLines(commands: seq<Command>): (r: seq<string>) {
    if commands == [] then []
    else PrintedLines(commands[..|commands| - 1]) + Split(commands[|commands| - 1].text, '\n')
  }

  lemma {:induction false} PrintedSplit(commands: seq<Command>)
    requires commands != []
    ensures Split(Join(Texts(commands), '\n'), '\n') == PrintedLines(commands)
  {
    hide Split, Join;
    var n := |commands| - 1;
    var first, last := commands[..n], commands[n].text;
    assert Texts(commands) == Texts(first) + [last];
    if n == 0 {
      assert Texts(commands) == [last];
      JoinOne(last);
    } else {
      PrintedSplit(first);
      JoinAppend(Texts(first), [last], '\n');
      JoinOne(last);
      SplitAppend(Join(Texts(first), '\n'), last, '\n');
    }
  }

  lemma {:induction false} JoinOne(s: string)
    ensures Join([s], '\n') == s
  {
  }

  /** Some line ends in a carriage return, which a second reading would strip. */
  ghost predicate ReturnFree(lines: seq<string>) {
    forall i :: 0 <= i < |lines| ==> !EndsInCR(lines[i])
  }

  // ---- one line, read back ----

  /** The line that `Step` leaves in the printed document, if any. */
  function Echo(d: Doc, line: string): (r: Option<string>)
    requires Tracked(d)
  {
    var raw := StripCR(line);
    if d.banner != NO_BANNER then Some(raw)
    else if !d.started && !("ver " <= TrimRight(raw)) then None
    else if Skipped(TrimRight(raw)) then None
    else Some(Kept(raw))
  }

  lemma {:induction false} StartKept(line: string)
    requires "ver " <= line
    ensures !Skipped(line)
  {
    assert line[0] == 'v' && SkipSpace(line) == line;
    var t := TrimSpace(line);
    if t != "" { assert t[0] == line[0]; }
  }

  ghost predicate SameLast(t: string, s: string) {
    t != "" ==> s != "" && t[|t| - 1] == s[|s| - 1]
  }

  lemma {:induction false} TrimmedLast(s: string, prefix: string)
    ensures SameLast(TrimLeft(s), s) && SameLast(TrimPrefix(s, prefix), s)
  {
  }

  lemma {:induction false} PayloadSuffix(raw: string, fields: seq<string>)
    ensures SameLast(BannerPayload(raw, fields), raw)
  {
    hide TrimLeft, TrimPrefix;
    TrimmedLast(raw, "banner");
    TrimmedLast(TrimPrefix(raw, "banner"), "");
    if |fields| > 1 {
      var text := TrimLeft(TrimPrefix(raw, "banner"));
      TrimmedLast(text, fields[1]);
      TrimmedLast(TrimPrefix(text, fields[1]), "");
    }
  }

  lemma {:induction false} KeptTwice(raw: string)
    requires Fields(TrimRight(raw)) != []
    ensures TrimRight(Kept(raw)) == TrimRight(raw)
    ensures Form(Kept(raw), TrimRight(raw), Fields(TrimRight(raw))) == Form(raw, TrimRight(raw), Fields(TrimRight(raw)))
            || Form(raw, TrimRight(raw), Fields(TrimRight(raw))).Bad?
    ensures Kept(Kept(raw)) == Kept(raw)
  {
    hide TrimSpace, Fields, Indent, BannerPayload;
    var line := TrimRight(raw);
    var fields := Fields(line);
    TrimRightFixed(line);
    if Indent(line) == 0 && fields[0] == "banner" && BannerPayload(raw, fields) == "require-enter-key" {
      PayloadSuffix(raw, fields);
      TrimRightFixed(raw);
    }
  }

  lemma {:induction false} AppendEcho(g: Grammar, d: Doc, raw: string)
    requires Tracked(d) && Fields(TrimRight(raw)) != [] && Append(g, d, raw).Ok?
    ensures Append(g, d, Kept(raw)) == Append(g, d, raw)
    ensures Append(g, d, raw).value.commands ==
            d.commands + [NewCommand(g, raw, Top(Pop(d.commands, d.stack, Indent(TrimRight(raw)))))]
  {
    hide Fields, Indent, TrimRight, TrimSpace, Pop, Form, Kept;
    KeptTwice(raw);
  }

  lemma {:induction false} PrintedAppend(commands: seq<Command>, c: Command)
    requires Free(c.text, '\n')
    ensures PrintedLines(commands + [c]) == PrintedLines(commands) + [c.text]
  {
    SplitWhole(c.text, '\n');
    assert (commands + [c])[..|commands|] == commands;
  }

  lemma {:induction false} PrintedContinue(d: Doc, raw: string)
    requires Tracked(d) && d.banner != NO_BANNER && Free(raw, '\n')
    ensures PrintedLines(Continue(d, raw).commands) == PrintedLines(d.commands) + [raw]
  {
    hide Split;
    var n := |d.commands| - 1;
    var text := d.commands[n].text;
    SplitAppend(text, raw, '\n');
    SplitWhole(raw, '\n');
    assert text + "\n" + raw == text + ['\n'] + raw;
    assert Continue(d, raw).commands[..n] == d.commands[..n];
  }

  lemma {:induction false} KeptFree(raw: string)
    requires Free(raw, '\n')
    ensures Free(Kept(raw), '\n') && |Kept(raw)| <= |raw|
  {
  }

  lemma {:induction false} StripFree(line: string)
    requires Free(line, '\n')
    ensures Free(StripCR(line), '\n')
  {
  }

  lemma {:induction false} Unskipped(line: string)
    requires !Skipped(line)
    ensures Fields(line) != []
  {
  }

  /** A line either leaves no trace or prints as its echo, and reading the echo instead
      has the same effect. */
  lemma {:induction false} EchoStep(g: Grammar, d: Doc, line: string)
    requires Tracked(d) && Free(line, '\n') && Step(g, d, line).Ok?
    ensures Echo(d, line) == None ==> Step(g, d, line) == Ok(d)
    ensures Echo(d, line).Some? ==>
              var t := Echo(d, line).value;
              && PrintedLines(Step(g, d, line).value.commands) == PrintedLines(d.commands) + [t]
              && |t| <= |StripCR(line)|
              && Free(t, '\n')
              && (!EndsInCR(t) ==> Step(g, d, t) == Step(g, d, line))
  {
    hide PrintedLines, Append, Kept, Skipped, TrimRight, Continue, Pop, Indent, Free;
    var raw := StripCR(line);
    assert Free(raw, '\n') by { StripFree(line); }
    if d.banner != NO_BANNER {
      PrintedContinue(d, raw);
    } else if !d.started && !("ver " <= TrimRight(raw)) {
    } else if Skipped(TrimRight(raw)) {
      if "ver " <= TrimRight(raw) { StartKept(TrimRight(raw)); }
    } else {
      var t := Kept(raw);
      assert Fields(TrimRight(raw)) != [] by { Unskipped(TrimRight(raw)); }
      AppendEcho(g, d, raw);
      KeptTwice(raw);
      KeptFree(raw);
      var command := NewCommand(g, raw, Top(Pop(d.commands, d.stack, Indent(TrimRight(raw)))));
      PrintedAppend(d.commands, command);
      assert command.text == t;
    }
  }

  // ---- whole documents ----

  lemma {:induction false} RunSnoc(g: Grammar, d: Doc, lines: seq<string>, line: string)
    requires Tracked(d) && RunLines(g, d, lines).Ok? && !RunLines(g, d, lines).value.complete
    ensures RunLines(g, d, lines + [line]) == Step(g, RunLines(g, d, lines).value, line)
    decreases |lines|
  {
    hide Step;
    if lines == [] {
      assert lines + [line] == [line];
    } else {
      assert !d.complete;
      assert (lines + [line])[1..] == lines[1..] + [line];
      RunSnoc(g, Step(g, d, lines[0]).value, lines[1..], line);
    }
  }

  /** Printed lines only grow. */
  lemma {:induction false} PrintedGrow(g: Grammar, d: Doc, lines: seq<string>)
    requires Tracked(d) && AllFree(lines, '\n') && RunLines(g, d, lines).Ok?
    ensures PrintedLines(d.commands) <= PrintedLines(RunLines(g, d, lines).value.commands)
    decreases |lines|
  {
    hide PrintedLines, Step, Echo;
    if lines != [] && !d.complete {
      EchoStep(g, d, lines[0]);
      PrintedGrow(g, Step(g, d, lines[0]).value, lines[1..]);
    }
  }

  /** If reading back what is printed so far reaches `d`, it still does after more lines. */
  lemma {:induction false} Replay(g: Grammar, d: Doc, lines: seq<string>)
    requires Tracked(d) && AllFree(lines, '\n') && !d.complete
    requires RunLines(g, EMPTY, PrintedLines(d.commands)) == Ok(d)
    requires RunLines(g, d, lines).Ok?
    requires ReturnFree(PrintedLines(RunLines(g, d, lines).value.commands))
    ensures RunLines(g, EMPTY, PrintedLines(RunLines(g, d, lines).value.commands)) == RunLines(g, d, lines)
    decreases |lines|
  {
    hide PrintedLines, Step, Echo, EndsInCR;
    if lines != [] {
      EchoStep(g, d, lines[0]);
      var next := Step(g, d, lines[0]).value;
      var rest := lines[1..];
      assert RunLines(g, d, lines) == RunLines(g, next, rest);
      var echo := Echo(d, lines[0]);
      if echo.Some? {
        PrintedGrow(g, next, rest);
        var final := PrintedLines(RunLines(g, next, rest).value.commands);
        assert final[|PrintedLines(d.commands)|] == echo.value;
        RunSnoc(g, EMPTY, PrintedLines(d.commands), echo.value);
      }
      if next.complete {
        assert RunLines(g, next, rest) == Ok(next);
      } else {
        Replay(g, next, rest);
      }
    }
  }

  function Weight(lines: seq<string>): nat {
    if lines == [] then 0 else |lines[0]| + 1 + Weight(lines[1..])
  }

  lemma {:induction false} WeightAppend(a: seq<string>, b: seq<string>)
    ensures Weight(a + b) == Weight(a) + Weight(b)
  {
    if a == [] {
      assert a + b == b;
    } else {
      assert (a + b)[1..] == a[1..] + b;
      WeightAppend(a[1..], b);
    }
  }

  /** Reading never lengthens the text, and a final carriage return is always lost. */
  lemma {:induction false} ReadingShrinks(g: Grammar, d: Doc, lines: seq<string>)
    requires Tracked(d) && AllFree(lines, '\n') && RunLines(g, d, lines).Ok?
    ensures var d' := RunLines(g, d, lines).value;
            && Weight(PrintedLines(d'.commands)) <= Weight(PrintedLines(d.commands)) + Weight(lines)
            && (!ReturnFree(lines) ==>
                  Weight(PrintedLines(d'.commands)) < Weight(PrintedLines(d.commands)) + Weight(lines))
    decreases |lines|
  {
    hide PrintedLines, Step, Echo;
    if lines != [] && !d.complete {
      EchoStep(g, d, lines[0]);
      var next := Step(g, d, lines[0]).value;
      ReadingShrinks(g, next, lines[1..]);
      if Echo(d, lines[0]).Some? {
        WeightAppend(PrintedLines(d.commands), [Echo(d, lines[0]).value]);
      }
      assert !ReturnFree(lines) ==> EndsInCR(lines[0]) || !ReturnFree(lines[1..]);
    }
  }

  /** A complete document ends with the top-level `end`. */
  ghost predicate Ended(d: Doc) {
    d.complete ==> d.commands != [] && d.commands[|d.commands| - 1].text == "end"
  }

  lemma {:induction false} StepEnded(g: Grammar, d: Doc, line: string)
    requires Tracked(d) && !d.complete && Step(g, d, line).Ok?
    ensures Ended(Step(g, d, line).value)
  {
    hide TrimRight, TrimSpace, Pop, Indent;
    var raw := StripCR(line);
    if TrimRight(raw) == "end" && Fields("end") != [] { assert |Fields("end")[0]| <= 3; }
  }

  lemma {:induction false} RunEnded(g: Grammar, d: Doc, lines: seq<string>)
    requires Tracked(d) && Ended(d) && RunLines(g, d, lines).Ok?
    ensures Ended(RunLines(g, d, lines).value)
    decreases |lines|
  {
    hide Step, Ended;
    if lines != [] && !d.complete {
      StepEnded(g, d, lines[0]);
      RunEnded(g, Step(g, d, lines[0]).value, lines[1..]);
    }
  }

  lemma {:induction false} JoinLast(parts: seq<string>, sep: char)
    requires parts != [] && parts[|parts| - 1] != ""
    ensures var s, t := Join(parts, sep), parts[|parts| - 1]; s != "" && s[|s| - 1] == t[|t| - 1]
  {
    if |parts| > 1 { JoinLast(parts[1..], sep); }
  }

  lemma {:induction false} LinesFree(data: string)
    ensures AllFree(Lines(data), '\n')
  {
    hide Split;
    var framed := Framed(data);
    SplitFree(framed[..|framed| - 1], '\n');
  }

  /** What a parsed document prints, line by line. */
  lemma {:induction false} PrintedIsLines(g: Grammar, data: string)
    requires Parse(g, data).Ok?
    ensures var d := Parse(g, data).value; Lines(Print(d)) == PrintedLines(d.commands)
  {
    hide RunLines, Split, Join, PrintedLines;
    var d := Parse(g, data).value;
    RunEnded(g, EMPTY, Lines(data));
    JoinLast(Texts(d.commands), '\n');
    var s := Print(d);
    assert (s + "\n")[..|s + "\n"| - 1] == s;
    PrintedSplit(d.commands);
  }

  /** Reading back a printed document yields the same commands, parents, indents and scanner
      state, exactly when no printed line ends in a carriage return: the reader would strip it. */
  lemma {:induction false} RoundTrip(g: Grammar, data: string)
    requires Parse(g, data).Ok?
    ensures var d := Parse(g, data).value;
            Parse(g, Print(d)) == Ok(d) <==> ReturnFree(Lines(Print(d)))
  {
    hide RunLines, PrintedLines, Lines, Print, Weight;
    var d := Parse(g, data).value;
    LinesFree(data);
    LinesFree(Print(d));
    PrintedIsLines(g, data);
    assert PrintedLines([]) == [] && Weight([]) == 0 && RunLines(g, EMPTY, []) == Ok(EMPTY) by {
      EmptyRun(g);
    }
    if ReturnFree(Lines(Print(d))) {
      Replay(g, EMPTY, Lines(data));
    } else if Parse(g, Print(d)) == Ok(d) {
      ReadingShrinks(g, EMPTY, Lines(Print(d)));
    }
  }

  lemma {:induction false} EmptyRun(g: Grammar)
    ensures PrintedLines([]) == [] && Weight([]) == 0 && RunLines(g, EMPTY, []) == Ok(EMPTY)
  {
  }

  // ---- a condition on the input ----

  /** Every carriage return stands directly before a newline. */
  ghost predicate StrayFree(data: string) {
    forall i :: 0 <= i < |data| && data[i] == '\r' ==> i + 1 < |data| && data[i + 1] == '\n'
  }

  ghost predicate ReturnsAtEnds(lines: seq<string>) {
    forall i, j :: 0 <= i < |lines| && 0 <= j < |lines[i]| - 1 ==> lines[i][j] != '\r'
  }

  lemma {:induction false} SplitReturns(s: string)
    requires forall i :: 0 <= i < |s| - 1 && s[i] == '\r' ==> s[i + 1] == '\n'
    ensures ReturnsAtEnds(Split(s, '\n'))
  {
    if s != "" {
      SplitReturns(s[1..]);
      var t := Split(s[1..], '\n');
      if s[0] == '\r' {
        assert t[0] == "";
      }
    }
  }

  lemma {:induction false} RunReturnFree(g: Grammar, d: Doc, lines: seq<string>)
    requires Tracked(d) && AllFree(lines, '\n') && RunLines(g, d, lines).Ok?
    requires ReturnsAtEnds(lines) && ReturnFree(PrintedLines(d.commands))
    ensures ReturnFree(PrintedLines(RunLines(g, d, lines).value.commands))
    decreases |lines|
  {
    hide PrintedLines, Step, Echo;
    if lines != [] && !d.complete {
      EchoStep(g, d, lines[0]);
      if Echo(d, lines[0]).Some? { EchoReturnFree(d, lines[0]); }
      RunReturnFree(g, Step(g, d, lines[0]).value, lines[1..]);
    }
  }

  lemma {:induction false} EchoReturnFree(d: Doc, line: string)
    requires Tracked(d) && Echo(d, line).Some?
    requires forall j :: 0 <= j < |line| - 1 ==> line[j] != '\r'
    ensures !EndsInCR(Echo(d, line).value)
  {
    hide Fields, TrimSpace, Form;
  }

  /** Display text whose only carriage returns end its lines always survives the round trip,
      so normalising is idempotent. */
  lemma {:induction false} NormalisationIdempotent(g: Grammar, data: string)
    requires StrayFree(data) && Parse(g, data).Ok?
    ensures var d := Parse(g, data).value;
            && Parse(g, Print(d)) == Ok(d)
            && Print(Parse(g, Print(d)).value) == Print(d)
  {
    hide RunLines, PrintedLines, Print, Split, Lines;
    var d := Parse(g, data).value;
    LinesFree(data);
    EmptyRun(g);
    assert ReturnsAtEnds(Lines(data)) by { LinesReturns(data); }
    RunReturnFree(g, EMPTY, Lines(data));
    PrintedIsLines(g, data);
    RoundTrip(g, data);
  }

  lemma {:induction false} LinesReturns(data: string)
    requires StrayFree(data)
    ensures ReturnsAtEnds(Lines(data))
  {
    hide Split;
    var framed := Framed(data);
    SplitReturns(framed[..|framed| - 1]);
  }

  /** The saved-configuration check compares printed forms only. For readable text that is
      enough: equal printed forms are equal documents. */
  lemma {:induction false} EqualPrintsEqualDocuments(g: Grammar, running: string, startup: string)
    requires StrayFree(running) && StrayFree(startup)
    requires Parse(g, running).Ok? && Parse(g, startup).Ok?
    ensures Print(Parse(g, running).value) == Print(Parse(g, startup).value)
            <==> Parse(g, running) == Parse(g, startup)
  {
    hide RunLines, Print;
    NormalisationIdempotent(g, running);
    NormalisationIdempotent(g, startup);
  }

  // ---- an input that does not survive ----

  /** The first line ends in two carriage returns; reading strips one. */
  const DOUBLED := "ver 1\r\r\nend\n"
  const HEADER := "ver 1\r"

  lemma {:induction false} HeaderStep(g: Grammar)
    ensures var r := Step(g, EMPTY, HEADER + "\r");
            r.Ok? && r.value.commands != [] && r.value.commands[0].text == HEADER && |r.value.commands| == 1
    ensures Step(g, EMPTY, HEADER + "\r").value.banner == NO_BANNER && Step(g, EMPTY, HEADER + "\r").value.started
    ensures !Step(g, EMPTY, HEADER + "\r").value.complete
  {
    assert StripCR(HEADER + "\r") == HEADER;
    TrimRightFixed(HEADER);
    StartKept(HEADER);
    assert Indent(HEADER) == 0;
    assert Fields(HEADER)[0][0] == 'v';
  }

  lemma {:induction false} EndStep(g: Grammar, d: Doc)
    requires Tracked(d) && d.started && d.banner == NO_BANNER && |d.commands| == 1
    ensures var r := Step(g, d, "end");
            r.Ok? && r.value.complete && Texts(r.value.commands) == [d.commands[0].text, "end"]
  {
    assert StripCR("end") == "end";
    TrimRightFixed("end");
    assert Indent("end") == 0;
    assert Fields("end") != [] && Fields("end")[0][0] == 'e';
    assert SkipSpace("end") == "end" && DropSpace("end") == "end";
  }

  /** Two newline-free lines, framed. */
  lemma {:induction false} TwoLines(x: string, y: string)
    requires Free(x, '\n') && Free(y, '\n') && y != ""
    ensures Join([x, y], '\n') == x + "\n" + y
    ensures Lines(x + "\n" + y) == [x, y] && Lines(x + "\n" + y + "\n") == [x, y]
  {
    hide Split;
    var whole := x + "\n" + y;
    JoinOne(y);
    assert [x, y][1..] == [y];
    SplitJoin([x, y], '\n');
    assert (whole + "\n")[..|whole|] == whole;
    assert whole[|whole| - 1] == y[|y| - 1];
  }

  /** The round trip is not unconditional: this input is accepted, and its printed form
      reads back as another document, under every command grammar. */
  lemma {:induction false} DoubledReturnLost(g: Grammar)
    ensures Parse(g, DOUBLED).Ok?
    ensures Parse(g, Print(Parse(g, DOUBLED).value)) != Parse(g, DOUBLED)
  {
    hide Step, Lines, Split, Join;
    TwoLines(HEADER + "\r", "end");
    TwoLines(HEADER, "end");
    assert DOUBLED == HEADER + "\r" + "\n" + "end" + "\n";
    HeaderStep(g);
    var first := Step(g, EMPTY, HEADER + "\r").value;
    EndStep(g, first);
    var d := Step(g, first, "end").value;
    var lines := Lines(DOUBLED);
    assert lines[1..] == ["end"] && ["end"][1..] == [];
    assert RunLines(g, first, ["end"]) == Ok(d);
    assert RunLines(g, EMPTY, lines) == Ok(d);
    assert Print(d) == HEADER + "\n" + "end";
    RoundTrip(g, DOUBLED);
    assert EndsInCR(Lines(Print(d))[0]);
  }
}
