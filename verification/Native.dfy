/** The native configuration document: line framing, banners, the indentation tree,
    and its printer. */
module Native {
  import opened Prelude
  import opened Text

  // ---- data model ----

  datatype Kind =
    | Unknown | LagHeader | LagPorts | AdminDisable | PortName | InterfaceStanza | LldpPorts
    | StaticRoute | OspfRouter | OspfArea | OspfBinding | OspfOption | InterfaceVrf | DnsServers
    | OtherKind(tag: nat)

  datatype PortId = PortId(stack: nat, slot: nat, port: nat)

  datatype PortRange = PortRange(first: PortId, last: PortId)

  datatype RouteSyntax = RouteSyntax(
    prefix: string, mask: string, gateway: string, distance: int, options: bool, ignored: bool)

  datatype DnsAddress = DnsAddress(address: string, dynamic: bool)

  /** What the command grammar captures from one trimmed line. */
  datatype Parsed = Parsed(
    kind: Kind, valid: bool, name: string, family: string, number: int,
    options: bool, negated: bool, direction: string,
    portRanges: seq<PortRange>, allPorts: bool, route: RouteSyntax, dns: seq<DnsAddress>)

  /** The command grammar is a function of the trimmed line and nothing else. */
  type Grammar = string -> Parsed

  datatype Command = Command(text: string, fields: seq<string>, parent: int, indent: nat, parsed: Parsed)

  const NO_BANNER: char := '\0'

  datatype Doc = Doc(commands: seq<Command>, started: bool, complete: bool, stack: seq<nat>, banner: char)

  const EMPTY := Doc([], false, false, [], NO_BANNER)

  datatype ParseError = Orphaned | BadBanner | Incomplete

  // ---- one line ----

  ghost predicate Tracked(d: Doc) {
    && (forall i :: 0 <= i < |d.stack| ==> d.stack[i] < |d.commands|)
    && (d.banner != NO_BANNER ==> d.commands != [])
  }

  /** Drops the innermost scopes that a line at `indent` closes. */
  function Pop(commands: seq<Command>, stack: seq<nat>, indent: nat): (r: seq<nat>)
    requires forall i :: 0 <= i < |stack| ==> stack[i] < |commands|
    ensures r <= stack
    ensures r != [] ==> commands[r[|r| - 1]].indent < indent
  {
    if stack != [] && commands[stack[|stack| - 1]].indent >= indent
    then Pop(commands, stack[..|stack| - 1], indent)
    else stack
  }

  function Top(stack: seq<nat>): int { if stack == [] then -1 else stack[|stack| - 1] }

  /** How a top-level `banner` line continues. */
  datatype BannerForm = Plain | Bad | Keep(delimiter: char)

  function BannerPayload(raw: string, fields: seq<string>): string {
    var text := TrimLeft(TrimPrefix(raw, "banner"));
    if |fields| > 1 && fields[1] in ["motd", "exec", "incoming"]
    then TrimLeft(TrimPrefix(text, fields[1])) else text
  }

  function Form(raw: string, line: string, fields: seq<string>): BannerForm
    requires fields != []
  {
    if Indent(line) != 0 || fields[0] != "banner" then Plain
    else
      var text := BannerPayload(raw, fields);
      if text == "require-enter-key" then Plain
      else if text == "" || text[0] == '"' then Bad
      else Keep(if text[0] in text[1..] then NO_BANNER else text[0])
  }

  predicate Skipped(line: string) { Fields(line) == [] || TrimSpace(line) == "!" }

  /** The text kept for a new command: banner openings keep their trailing blanks. */
  function Kept(raw: string): string {
    var line := TrimRight(raw);
    if Fields(line) != [] && Form(raw, line, Fields(line)).Keep? then raw else line
  }

  function NewCommand(g: Grammar, raw: string, parent: int): Command {
    var line := TrimRight(raw);
    Command(Kept(raw), Fields(line), parent, Indent(line), g(TrimSpace(line)))
  }

  function Continue(d: Doc, raw: string): (r: Doc)
    requires Tracked(d) && d.banner != NO_BANNER
  {
    var i := |d.commands| - 1;
    d.(commands := d.commands[i := d.commands[i].(text := d.commands[i].text + "\n" + raw)],
       banner := if d.banner in raw then NO_BANNER else d.banner)
  }

  function Append(g: Grammar, d: Doc, raw: string): (r: Result<Doc, ParseError>)
    requires Tracked(d) && Fields(TrimRight(raw)) != []
    ensures r.Ok? ==> Tracked(r.value)
  {
    var line := TrimRight(raw);
    var stack := Pop(d.commands, d.stack, Indent(line));
    var form := Form(raw, line, Fields(line));
    if Indent(line) > 0 && stack == [] then Err(Orphaned)
    else if form.Bad? then Err(BadBanner)
    else Ok(Doc(
      d.commands + [NewCommand(g, raw, Top(stack))], true,
      d.complete || (Indent(line) == 0 && line == "end"),
      stack + [|d.commands|],
      if form.Keep? then form.delimiter else NO_BANNER))
  }

  function Step(g: Grammar, d: Doc, line: string): (r: Result<Doc, ParseError>)
    requires Tracked(d)
    ensures r.Ok? ==> Tracked(r.value)
  {
    var raw := StripCR(line);
    if d.banner != NO_BANNER then Ok(Continue(d, raw))
    else if !d.started && !("ver " <= TrimRight(raw)) then Ok(d)
    else if Skipped(TrimRight(raw)) then Ok(d.(started := true))
    else Append(g, d, raw)
  }

  /** Lines are read until the document is complete. */
  function RunLines(g: Grammar, d: Doc, lines: seq<string>): (r: Result<Doc, ParseError>)
    requires Tracked(d)
    ensures r.Ok? ==> Tracked(r.value)
    decreases |lines|
  {
    if lines == [] || d.complete then Ok(d)
    else
      var next := Step(g, d, lines[0]);
      if next.Err? then next else RunLines(g, next.value, lines[1..])
  }

  /** Newline framing: a missing final newline is supplied. */
  function Framed(data: string): string {
    if data == "" || data[|data| - 1] != '\n' then data + "\n" else data
  }

  function Lines(data: string): (r: seq<string>) {
    var framed := Framed(data);
    Split(framed[..|framed| - 1], '\n')
  }

  function Parse(g: Grammar, data: string): (r: Result<Doc, ParseError>) {
    var d := RunLines(g, EMPTY, Lines(data));
    if d.Ok? && !d.value.complete then Err(Incomplete) else d
  }

  function Texts(commands: seq<Command>): (r: seq<string>) {
    seq(|commands|, i requires 0 <= i < |commands| => commands[i].text)
  }

  function Print(d: Doc): string { Join(Texts(d.commands), '\n') }
}
