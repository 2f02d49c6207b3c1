/** What LLDP port lines do to a port, and which lines repeat each other. */
module LldpMeaning {
  import opened Native
  import opened EthernetPort
  import opened PortRanges
  import opened Lldp

  /** The inventory's names are the ones that spell an Ethernet port. */
  lemma {:induction false} InventoryNames(name: string)
    ensures Canonical(name) <==> exists id :: InRange(id) && name == "ethernet " + FormatPort(id)
  {
    hide PortOf, FormatPort, InRange;
    if Canonical(name) {
      PortNameUnique(name[|PREFIX|..]);
      assert name == PREFIX + name[|PREFIX|..];
    }
    if id :| InRange(id) && name == "ethernet " + FormatPort(id) {
      PortRoundTrip(id);
      assert name[|PREFIX|..] == FormatPort(id);
    }
  }

  /** The line is about the port. */
  predicate Lists(line: Parsed, ports: Inventory, x: string) { x in Listing(line, ports) }

  predicate Receives(line: Parsed) { line.direction != "transmit" }

  predicate Transmits(line: Parsed) { line.direction != "receive" }

  lemma {:induction false} SetsIs(line: Parsed)
    ensures Sets(line, Receive) <==> Receives(line)
    ensures Sets(line, Transmit) <==> Transmits(line)
    ensures line.direction == "receive" ==> line.direction != "transmit"
  {
    assert "receive"[0] == 'r' && "transmit"[0] == 't';
  }

  /** A direction is set with this negation exactly if some such line lists the port. */
  lemma {:induction false} CountedLine(lines: seq<Parsed>, ports: Inventory, x: string, d: Direction, negated: bool)
    ensures Count(lines, ports, x, d, negated) > 0 <==>
            exists i :: 0 <= i < |lines| && Sets(lines[i], d) && lines[i].negated == negated
              && Lists(lines[i], ports, x)
  {
    hide Sets, Listing;
    if lines != [] {
      var n := |lines| - 1;
      CountedLine(lines[..n], ports, x, d, negated);
      if i :| 0 <= i < |lines[..n]| && Sets(lines[..n][i], d) && lines[..n][i].negated == negated
              && Lists(lines[..n][i], ports, x) {
        assert lines[i] == lines[..n][i];
      }
      if i :| 0 <= i < |lines| && Sets(lines[i], d) && lines[i].negated == negated && Lists(lines[i], ports, x) {
        if i < n { assert lines[..n][i] == lines[i]; }
      }
    }
  }

  /** A port does not receive exactly if a negated line for it is not limited to transmitting,
      and the other way round. */
  lemma {:induction false} ModeMeaning(lines: seq<Parsed>, ports: Inventory, x: string)
    requires x in ports
    ensures !ModesOf(lines, ports)[x].receive <==>
            exists i :: 0 <= i < |lines| && lines[i].negated && Receives(lines[i]) && Lists(lines[i], ports, x)
    ensures !ModesOf(lines, ports)[x].transmit <==>
            exists i :: 0 <= i < |lines| && lines[i].negated && Transmits(lines[i]) && Lists(lines[i], ports, x)
  {
    hide Sets, Listing, Count;
    CountedLine(lines, ports, x, Receive, true);
    CountedLine(lines, ports, x, Transmit, true);
    forall i | 0 <= i < |lines|
      ensures Sets(lines[i], Receive) <==> Receives(lines[i])
      ensures Sets(lines[i], Transmit) <==> Transmits(lines[i])
    {
      SetsIs(lines[i]);
    }
  }

  /** One line is limited to receiving and the other to transmitting. */
  predicate Complementary(a: Parsed, b: Parsed) {
    || (a.direction == "receive" && b.direction == "transmit")
    || (a.direction == "transmit" && b.direction == "receive")
  }

  ghost predicate OncePerLine(lines: seq<Parsed>, ports: Inventory) {
    forall i, x :: 0 <= i < |lines| ==> Listing(lines[i], ports)[x] <= 1
  }

  ghost predicate PairsComplement(lines: seq<Parsed>, ports: Inventory) {
    forall i, j, x :: 0 <= i < j < |lines| && Lists(lines[i], ports, x) && Lists(lines[j], ports, x) ==>
      Complementary(lines[i], lines[j])
  }

  lemma {:induction false} OverlapIs(a: Parsed, b: Parsed)
    ensures !Complementary(a, b) <==> exists d :: Sets(a, d) && Sets(b, d)
  {
    SetsIs(a);
    SetsIs(b);
    if !Complementary(a, b) {
      if Receives(a) && Receives(b) { assert Sets(a, Receive) && Sets(b, Receive); }
      else { assert Sets(a, Transmit) && Sets(b, Transmit); }
    }
  }

  lemma {:induction false} TimesPositive(lines: seq<Parsed>, ports: Inventory, x: string, d: Direction)
    ensures Times(lines, ports, x, d) > 0 <==>
            exists i :: 0 <= i < |lines| && Sets(lines[i], d) && Lists(lines[i], ports, x)
  {
    hide Sets, Listing, Count;
    CountedLine(lines, ports, x, d, true);
    CountedLine(lines, ports, x, d, false);
  }

  /** Lines are accepted together exactly if no line lists a port twice, and two lines for
      one port are limited to different directions. */
  lemma {:induction false} RepetitionMeaning(lines: seq<Parsed>, ports: Inventory)
    ensures Unrepeated(lines, ports) <==> OncePerLine(lines, ports) && PairsComplement(lines, ports)
  {
    hide Sets, Listing, Times;
    if lines == [] {
      NoTimes(ports);
    } else {
      var n := |lines| - 1;
      var front, last := lines[..n], lines[n];
      assert lines == front + [last];
      RepetitionMeaning(front, ports);
      RepetitionStep(front, last, ports);
      LastPairs(front, last, ports);
    }
  }

  lemma {:induction false} NoTimes(ports: Inventory)
    ensures forall x, d :: Times([], ports, x, d) == 0
  {
  }

  /** The last line lists each port at most once, and complements the lines before it. */
  ghost predicate LastFits(front: seq<Parsed>, last: Parsed, ports: Inventory) {
    && (forall x :: Listing(last, ports)[x] <= 1)
    && (forall i, x :: 0 <= i < |front| && Lists(front[i], ports, x) && Lists(last, ports, x) ==>
          Complementary(front[i], last))
  }

  lemma {:induction false} LastPairs(front: seq<Parsed>, last: Parsed, ports: Inventory)
    ensures OncePerLine(front + [last], ports) && PairsComplement(front + [last], ports) <==>
            OncePerLine(front, ports) && PairsComplement(front, ports) && LastFits(front, last, ports)
  {
    hide Listing, Complementary;
    var all := front + [last];
    if OncePerLine(all, ports) && PairsComplement(all, ports) {
      forall i, x | 0 <= i < |front| ensures Listing(front[i], ports)[x] <= 1 { assert all[i] == front[i]; }
      forall i, j, x | 0 <= i < j < |front| && Lists(front[i], ports, x) && Lists(front[j], ports, x)
        ensures Complementary(front[i], front[j])
      {
        assert all[i] == front[i] && all[j] == front[j];
      }
      assert all[|front|] == last;
      forall x ensures Listing(last, ports)[x] <= 1 { assert Listing(all[|front|], ports)[x] <= 1; }
      forall i, x | 0 <= i < |front| && Lists(front[i], ports, x) && Lists(last, ports, x)
        ensures Complementary(front[i], last)
      {
        assert all[i] == front[i] && Lists(all[|front|], ports, x);
      }
    }
  }

  lemma {:induction false} RepetitionStep(front: seq<Parsed>, last: Parsed, ports: Inventory)
    ensures Unrepeated(front + [last], ports) <==> Unrepeated(front, ports) && LastFits(front, last, ports)
  {
    hide Sets, Listing, Times, Complementary;
    forall x, d ensures Times(front + [last], ports, x, d) ==
                        Times(front, ports, x, d) + if Sets(last, d) then Listing(last, ports)[x] else 0
    {
      TimesSnoc(front, last, ports, x, d);
    }
    if Unrepeated(front + [last], ports) {
      forall x, d ensures Times(front, ports, x, d) <= 1 {
        assert Times(front + [last], ports, x, d) <= 1;
      }
      forall x ensures Listing(last, ports)[x] <= 1 {
        SomeDirection(last);
        var d :| Sets(last, d);
        assert Times(front + [last], ports, x, d) <= 1;
      }
      forall i, x | 0 <= i < |front| && Lists(front[i], ports, x) && Lists(last, ports, x)
        ensures Complementary(front[i], last)
      {
        OverlapIs(front[i], last);
        forall d ensures !(Sets(front[i], d) && Sets(last, d)) {
          TimesPositive(front, ports, x, d);
          assert Times(front + [last], ports, x, d) <= 1;
        }
      }
    }
    if Unrepeated(front, ports) && LastFits(front, last, ports) {
      forall x, d ensures Times(front + [last], ports, x, d) <= 1 {
        assert Times(front, ports, x, d) <= 1 && Listing(last, ports)[x] <= 1;
        TimesPositive(front, ports, x, d);
        forall i | 0 <= i < |front| ensures Sets(front[i], d) && Sets(last, d) ==> !Complementary(front[i], last) {
          OverlapIs(front[i], last);
        }
        assert forall i :: 0 <= i < |front| && Lists(front[i], ports, x) && Lists(last, ports, x) ==>
                 Complementary(front[i], last);
      }
    }
  }
}
