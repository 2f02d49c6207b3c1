/** Ethernet port identities: the generated scanner, the grammar it accepts, and printing. */
module EthernetPort {
  import opened Prelude
  import opened Text
  import opened Decimal
  import opened Native
  import opened Ragel

  const LIMIT: nat := 0x1_0000_0000_0000_0000

  // ---- the grammar ----

  /** Three positive numbers without leading zeros, separated by slashes. */
  predicate PortText(s: string) {
    var p := Split(s, '/');
    |p| == 3 && Positive(p[0]) && Positive(p[1]) && Positive(p[2])
  }

  function PortOf(s: string): (r: Option<PortId>) {
    var p := Split(s, '/');
    if PortText(s) && Value(p[0]) < LIMIT && Value(p[1]) < LIMIT && Value(p[2]) < LIMIT
    then Some(PortId(Value(p[0]), Value(p[1]), Value(p[2]))) else None
  }

  predicate InRange(id: PortId) {
    0 < id.stack < LIMIT && 0 < id.slot < LIMIT && 0 < id.port < LIMIT
  }

  function Parts(id: PortId): (p: seq<string>) { [Write(id.stack), Write(id.slot), Write(id.port)] }

  function FormatPort(id: PortId): string { Join(Parts(id), '/') }

  lemma {:induction false} PartsFree(p: seq<string>)
    requires forall i :: 0 <= i < |p| ==> Numeral(p[i])
    ensures AllFree(p, '/')
  {
    forall i | 0 <= i < |p| ensures Free(p[i], '/') { NumeralFree(p[i], '/'); }
  }

  /** Printing and reading are inverse, so a port has one name and a name one port. */
  lemma {:induction false} PortRoundTrip(id: PortId)
    requires InRange(id)
    ensures PortOf(FormatPort(id)) == Some(id)
  {
    hide Split, Join, Write, Value;
    PartsFree(Parts(id));
    SplitJoin(Parts(id), '/');
  }

  lemma {:induction false} PortNameUnique(s: string)
    requires PortOf(s).Some?
    ensures InRange(PortOf(s).value) && FormatPort(PortOf(s).value) == s
  {
    hide Split, Join, Write, Value;
    var p := Split(s, '/');
    forall i | 0 <= i < 3 ensures Write(Value(p[i])) == p[i] && Value(p[i]) > 0 {
      WriteValue(p[i]);
      ValueZero(p[i]);
    }
    assert Parts(PortOf(s).value) == p;
    JoinSplit(s, '/');
  }

  /** Numbers are read as far as 64 bits go, and no further. */
  lemma {:induction false} SixtyFourBits(s: string)
    requires PortText(s)
    ensures PortOf(s).Some? <==> forall i :: 0 <= i < 3 ==> Value(Split(s, '/')[i]) <= 0xffff_ffff_ffff_ffff
  {
    hide Split, Value;
  }

  // ---- the scanner's tables ----

  const PORT: Machine := Machine(
    [0, 0, 2, 5, 7, 10, 12, 15],
    [49, 57, 47, 48, 57, 49, 57, 47, 48, 57, 49, 57, 10, 48, 57],
    [0, 0, 1, 0, 1, 0, 1, 0],
    [0, 1, 1, 1, 1, 1, 1, 0],
    [0, 0, 2, 5, 7, 10, 12, 15],
    [2, 0, 3, 2, 0, 4, 0, 5, 4, 0, 6, 0, 7, 6, 0, 0],
    [1, 0, 3, 0, 0, 1, 0, 3, 0, 0, 1, 0, 3, 0, 0, 0])

  const PORT_ACTIONS: seq<nat> := [0, 1, 0, 1, 1]

  const START: nat := 1
  const FIRST_FINAL: nat := 7
  const ERROR: nat := 0

  /** The transition function the tables denote. */
  function Next(cs: nat, c: char): (r: nat) {
    if cs in {1, 3, 5} then if '1' <= c <= '9' then cs + 1 else ERROR
    else if cs in {2, 4, 6} then
      if Digit(c) then cs else if c == (if cs == 6 then '\n' else '/') then cs + 1 else ERROR
    else ERROR
  }

  lemma {:induction false} PortTable()
    ensures WellFormed(PORT)
  {
    hide ValidState;
    PortStates01();
    PortState2();
    PortState3();
    PortState4();
    PortState5();
    PortStates67();
  }

  lemma {:induction false} PortStates01()
    ensures ValidState(PORT, 0) && ValidState(PORT, 1)
  {
  }

  lemma {:induction false} PortState2()
    ensures ValidState(PORT, 2)
  {
  }

  lemma {:induction false} PortState3()
    ensures ValidState(PORT, 3)
  {
  }

  lemma {:induction false} PortState4()
    ensures ValidState(PORT, 4)
  {
  }

  lemma {:induction false} PortState5()
    ensures ValidState(PORT, 5)
  {
  }

  lemma {:induction false} PortStates67()
    ensures ValidState(PORT, 6) && ValidState(PORT, 7)
  {
  }

  lemma {:induction false} StartEntry1(c: char, trans: nat)
    requires WellFormed(PORT) && Selects(PORT, 1, c as nat, trans)
    ensures trans < 16 && PORT.targets[trans] == Next(1, c)
    ensures PORT.actions[trans] == if Next(1, c) == ERROR then 0 else 1
  {
    if '1' <= c <= '9' { assert RangeHit(PORT, 1, c as nat, 0); }
  }

  lemma {:induction false} StartEntry3(c: char, trans: nat)
    requires WellFormed(PORT) && Selects(PORT, 3, c as nat, trans)
    ensures trans < 16 && PORT.targets[trans] == Next(3, c)
    ensures PORT.actions[trans] == if Next(3, c) == ERROR then 0 else 1
  {
    if '1' <= c <= '9' { assert RangeHit(PORT, 3, c as nat, 0); }
  }

  lemma {:induction false} StartEntry5(c: char, trans: nat)
    requires WellFormed(PORT) && Selects(PORT, 5, c as nat, trans)
    ensures trans < 16 && PORT.targets[trans] == Next(5, c)
    ensures PORT.actions[trans] == if Next(5, c) == ERROR then 0 else 1
  {
    if '1' <= c <= '9' { assert RangeHit(PORT, 5, c as nat, 0); }
  }

  lemma {:induction false} DigitEntry2(c: char, trans: nat)
    requires WellFormed(PORT) && Selects(PORT, 2, c as nat, trans)
    ensures trans < 16 && PORT.targets[trans] == Next(2, c)
    ensures PORT.actions[trans] == if Next(2, c) == 3 then 3 else 0
  {
    if c == '/' { assert SingleHit(PORT, 2, c as nat, 0); }
    if Digit(c) { assert RangeHit(PORT, 2, c as nat, 0); }
  }

  lemma {:induction false} DigitEntry4(c: char, trans: nat)
    requires WellFormed(PORT) && Selects(PORT, 4, c as nat, trans)
    ensures trans < 16 && PORT.targets[trans] == Next(4, c)
    ensures PORT.actions[trans] == if Next(4, c) == 5 then 3 else 0
  {
    if c == '/' { assert SingleHit(PORT, 4, c as nat, 0); }
    if Digit(c) { assert RangeHit(PORT, 4, c as nat, 0); }
  }

  lemma {:induction false} DigitEntry6(c: char, trans: nat)
    requires WellFormed(PORT) && Selects(PORT, 6, c as nat, trans)
    ensures trans < 16 && PORT.targets[trans] == Next(6, c)
    ensures PORT.actions[trans] == if Next(6, c) == 7 then 3 else 0
  {
    if c == '\n' { assert SingleHit(PORT, 6, c as nat, 0); }
    if Digit(c) { assert RangeHit(PORT, 6, c as nat, 0); }
  }

  lemma {:induction false} FinalEntry(c: char, trans: nat)
    requires WellFormed(PORT) && Selects(PORT, 7, c as nat, trans)
    ensures trans < 16 && PORT.targets[trans] == ERROR && PORT.actions[trans] == 0
  {
  }

  lemma {:induction false} PortActionLists()
    ensures ActionList(PORT_ACTIONS, 1) == [0] && ActionList(PORT_ACTIONS, 3) == [1]
  {
  }

  method NextPortState(cs: nat, c: char) returns (next: nat, mark: bool, emit: bool)
    requires 1 <= cs <= 7
    ensures next == Next(cs, c)
    ensures mark <==> cs in {1, 3, 5} && next == cs + 1
    ensures emit <==> cs in {2, 4, 6} && next == cs + 1
  {
    PortTable();
    var trans := Lookup(PORT, cs, c as nat);
    match cs {
      case 1 => StartEntry1(c, trans);
      case 2 => DigitEntry2(c, trans);
      case 3 => StartEntry3(c, trans);
      case 4 => DigitEntry4(c, trans);
      case 5 => StartEntry5(c, trans);
      case 6 => DigitEntry6(c, trans);
      case _ => FinalEntry(c, trans);
    }
    next := PORT.targets[trans];
    PortActionLists();
    var acts := PORT.actions[trans];
    assert acts in {0, 1, 3};
    var todo := ActionList(PORT_ACTIONS, acts);
    mark, emit := 0 in todo, 1 in todo;
  }

  // ---- the scanner accepts the grammar ----

  ghost function Run(cs: nat, w: string): nat
    decreases |w|
  {
    if w == "" || cs == ERROR then cs else Run(Next(cs, w[0]), w[1..])
  }

  lemma {:induction false} RunDigits(cs: nat, x: string, w: string)
    requires cs in {2, 4, 6} && forall i :: 0 <= i < |x| ==> Digit(x[i])
    ensures Run(cs, x + w) == Run(cs, w)
  {
    if x == "" {
      assert x + w == w;
    } else {
      assert (x + w)[1..] == x[1..] + w;
      RunDigits(cs, x[1..], w);
    }
  }

  lemma {:induction false} RunPart(cs: nat, x: string, sep: char, w: string)
    requires cs in {1, 3, 5} && Positive(x) && sep == (if cs == 5 then '\n' else '/')
    ensures Run(cs, x + [sep] + w) == Run(cs + 2, w)
  {
    var s := x + [sep] + w;
    assert s[1..] == x[1..] + ([sep] + w);
    RunDigits(cs + 1, x[1..], [sep] + w);
    assert ([sep] + w)[1..] == w;
  }

  lemma {:induction false} RunAccepts(s: string)
    requires PortText(s)
    ensures Run(START, s + "\n") == FIRST_FINAL
  {
    hide Run, Split, Positive;
    var p := Split(s, '/');
    JoinSplit(s, '/');
    assert p[1..][1..] == [p[2]];
    JoinThree(p);
    assert s + "\n" == p[0] + ['/'] + (p[1] + ['/'] + (p[2] + ['\n'] + ""));
    RunPart(1, p[0], '/', p[1] + ['/'] + (p[2] + ['\n'] + ""));
    RunPart(3, p[1], '/', p[2] + ['\n'] + "");
    RunPart(5, p[2], '\n', "");
    assert Run(7, "") == 7 by { RunEnd(); }
  }

  lemma {:induction false} RunEnd()
    ensures Run(7, "") == 7
  {
  }

  lemma {:induction false} JoinThree(p: seq<string>)
    requires |p| == 3
    ensures Join(p, '/') == p[0] + ['/'] + (p[1] + ['/'] + p[2])
  {
    var q := p[1..];
    assert q[1..] == [p[2]];
    assert Join(q, '/') == p[1] + ['/'] + Join([p[2]], '/');
    assert Join([p[2]], '/') == p[2];
  }

  lemma {:induction false} RunStep(cs: nat, d: string, p: nat)
    requires p < |d| && cs != ERROR
    ensures Run(cs, d[p..]) == Run(Next(cs, d[p]), d[p + 1..])
  {
    assert d[p..][1..] == d[p + 1..];
  }

  /** The text of the finished components, each with its separator. */
  ghost function Spelled(done: seq<string>): string {
    if done == [] then "" else Spelled(done[..|done| - 1]) + done[|done| - 1] + "/"
  }

  lemma {:induction false} SpelledSnoc(done: seq<string>, x: string)
    ensures Spelled(done + [x]) == Spelled(done) + x + "/"
    ensures Spelled([]) == ""
  {
    assert (done + [x])[..|done|] == done;
  }

  lemma {:induction false} SpelledThree(done: seq<string>, data: string)
    requires |done| == 3 && Spelled(done[..2]) + done[2] == data
    requires Positive(done[0]) && Positive(done[1]) && Positive(done[2])
    ensures Split(data, '/') == done
  {
    hide Split, Join, Spelled;
    PartsFree(done);
    SplitJoin(done, '/');
    JoinThree(done);
    SpelledSnoc([], done[0]);
    SpelledSnoc([done[0]], done[1]);
    assert [] + [done[0]] == [done[0]] && [done[0]] + [done[1]] == done[..2];
    assert data == done[0] + ['/'] + (done[1] + ['/'] + done[2]);
  }

  /** Where the scanner stands: `done` components, and the digits of the next one. */
  ghost predicate At(d: string, p: nat, cs: nat, start: nat, done: seq<string>) {
    && start <= p <= |d| && 1 <= cs <= 7 && |done| == (cs - 1) / 2
    && (forall i :: 0 <= i < |done| ==> Positive(done[i]))
    && (cs in {1, 3, 5} ==> d[..p] == Spelled(done))
    && (cs in {2, 4, 6} ==> d[..start] == Spelled(done) && Positive(d[start..p]))
    && (cs == 7 ==> |d| > 0 && p > 0 && d[p - 1] == '\n' && d[..p - 1] == Spelled(done[..2]) + done[2])
  }

  lemma {:induction false} AtMark(d: string, p: nat, cs: nat, start: nat, done: seq<string>)
    requires At(d, p, cs, start, done) && cs in {1, 3, 5} && p < |d| && '1' <= d[p] <= '9'
    ensures At(d, p + 1, cs + 1, p, done)
  {
    hide Spelled;
    assert d[p..p + 1] == [d[p]];
  }

  lemma {:induction false} AtDigit(d: string, p: nat, cs: nat, start: nat, done: seq<string>)
    requires At(d, p, cs, start, done) && cs in {2, 4, 6} && p < |d| && Digit(d[p])
    ensures At(d, p + 1, cs, start, done)
  {
    hide Spelled;
    assert d[start..p + 1] == d[start..p] + [d[p]];
  }

  lemma {:induction false} AtEmit(d: string, p: nat, cs: nat, start: nat, done: seq<string>)
    requires At(d, p, cs, start, done) && cs in {2, 4, 6} && p < |d|
    requires d[p] == if cs == 6 then '\n' else '/'
    ensures At(d, p + 1, cs + 1, start, done + [d[start..p]])
  {
    var next := done + [d[start..p]];
    assert next[..|done|] == done;
    assert d[..p] == d[..start] + d[start..p];
    assert d[..p + 1] == d[..p] + [d[p]];
  }

  /** 64-bit parsing as the standard library does it: saturated, with an error, on overflow. */
  function ParseUint64(s: string): (r: (nat, bool))
    ensures r.0 < LIMIT
  {
    if Numeral(s) then if Value(s) < LIMIT then (Value(s), true) else (LIMIT - 1, false)
    else (0, false)
  }

  ghost predicate Captured(id: seq<nat>, valid: bool, done: seq<string>) {
    && |id| == 3 && |done| <= 3
    && (valid <==> forall i :: 0 <= i < |done| ==> ParseUint64(done[i]).1)
    && (forall i :: 0 <= i < |done| ==> id[i] == ParseUint64(done[i]).0)
  }

  lemma {:induction false} CapturedStep(id: seq<nat>, valid: bool, done: seq<string>, x: string)
    requires Captured(id, valid, done) && |done| < 3
    ensures Captured(id[|done| := ParseUint64(x).0], valid && ParseUint64(x).1, done + [x])
  {
    hide ParseUint64;
    var next := done + [x];
    assert next[|done|] == x && forall i :: 0 <= i < |done| ==> next[i] == done[i];
  }

  /** Runs the scanner over the text and a final newline. */
  method ParseEthernetPort(data: string) returns (id: seq<nat>, valid: bool)
    ensures |id| == 3
    ensures valid <==> PortOf(data).Some?
    ensures valid ==> PortOf(data) == Some(PortId(id[0], id[1], id[2]))
  {
    hide PortOf, PortText, Run, Next, At, Value, Split;
    var d := data + "\n";
    var p: nat, cs: nat, start: nat, index: nat := 0, START, 0, 0;
    ghost var done: seq<string> := [];
    id, valid := [0, 0, 0], true;
    assert At(d, 0, START, 0, []) by { AtStart(d); }
    assert d[0..] == d;
    while p < |d| && cs != ERROR
      invariant p <= |d| && cs <= 7
      invariant cs != ERROR ==> At(d, p, cs, start, done) && |done| == (cs - 1) / 2
      invariant cs != ERROR ==> index == |done| && Captured(id, valid, done)
      invariant |id| == 3
      invariant cs == ERROR ==> Run(START, d) == ERROR
      invariant cs != ERROR ==> Run(START, d) == Run(cs, d[p..])
    {
      var next, mark, emit := NextPortState(cs, d[p]);
      RunStep(cs, d, p);
      NextCases(cs, d[p]);
      if mark {
        AtMark(d, p, cs, start, done);
        start := p;
      }
      if emit {
        AtEmit(d, p, cs, start, done);
        AtBounds(d, p, cs, start, done);
        var (value, ok) := ParseUint64(d[start..p]);
        CapturedStep(id, valid, done, d[start..p]);
        id := id[index := value];
        valid := valid && ok;
        index := index + 1;
        done := done + [d[start..p]];
      }
      if !mark && !emit && next != ERROR {
        AtDigit(d, p, cs, start, done);
      }
      if next == ERROR {
        assert Run(ERROR, d[p + 1..]) == ERROR by { RunError(d[p + 1..]); }
      }
      cs := next;
      p := p + 1;
    }
    if cs == FIRST_FINAL {
      Accepted(data, start, done, p, id, valid);
    } else {
      Refused(data, cs, p);
    }
    valid := valid && cs >= FIRST_FINAL;
  }

  lemma {:induction false} AtStart(d: string)
    ensures At(d, 0, START, 0, [])
  {
  }

  lemma {:induction false} AtBounds(d: string, p: nat, cs: nat, start: nat, done: seq<string>)
    requires At(d, p, cs, start, done)
    ensures start <= p <= |d|
  {
  }

  lemma {:induction false} RunError(w: string)
    ensures Run(ERROR, w) == ERROR
  {
  }

  lemma {:induction false} NextCases(cs: nat, c: char)
    requires 1 <= cs <= 7
    ensures Next(cs, c) <= 7
    ensures cs in {1, 3, 5} && Next(cs, c) == cs + 1 ==> '1' <= c <= '9'
    ensures cs in {1, 3, 5} ==> Next(cs, c) in {ERROR, cs + 1}
    ensures cs in {2, 4, 6} && Next(cs, c) == cs + 1 ==> c == if cs == 6 then '\n' else '/'
    ensures cs in {2, 4, 6} && Next(cs, c) == cs ==> Digit(c)
    ensures cs in {2, 4, 6} ==> Next(cs, c) in {ERROR, cs, cs + 1}
    ensures cs == 7 ==> Next(cs, c) == ERROR
  {
  }

  lemma {:induction false} Accepted(data: string, start: nat, done: seq<string>, p: nat, id: seq<nat>, valid: bool)
    requires At(data + "\n", p, 7, start, done) && p == |data| + 1 && Captured(id, valid, done)
    ensures valid <==> PortOf(data).Some?
    ensures valid ==> PortOf(data) == Some(PortId(id[0], id[1], id[2]))
  {
    hide Spelled, Split, Value;
    assert (data + "\n")[..p - 1] == data;
    SpelledThree(done, data);
  }

  lemma {:induction false} Refused(data: string, cs: nat, p: nat)
    requires cs != 7 && (cs == ERROR ==> Run(START, data + "\n") == ERROR)
    requires cs != ERROR ==> p == |data| + 1 && Run(START, data + "\n") == Run(cs, (data + "\n")[p..])
    ensures PortOf(data) == None
  {
    hide Split, Positive;
    if PortText(data) { RunAccepts(data); }
  }
}
