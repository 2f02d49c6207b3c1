/** Which frames a MAC rule decides, and that the entry sent for it decides the same ones. */
module MacTraffic {
  import opened Prelude
  import opened MacCodec
  import MacReconcile

  datatype Frame = Frame(source: Mac, destination: Mac, etherType: Int64)

  /** The addresses agree on the bits the mask selects. */
  predicate Selected(x: Mac, a: Mac, mask: Mac) {
    forall i :: 0 <= i < MAC_BYTES ==> (x[i] as bv8) & (mask[i] as bv8) == (a[i] as bv8) & (mask[i] as bv8)
  }

  predicate RuleDecides(r: MacRule, frame: Frame) {
    && Selected(frame.source, r.source.address, r.source.mask)
    && Selected(frame.destination, r.destination.address, r.destination.mask)
    && (r.etherType.Some? ==> frame.etherType == r.etherType.value)
  }

  predicate SelectedText(x: Mac, address: string, mask: string) {
    ParseMAC(address).Some? && ParseMAC(mask).Some? && Selected(x, ParseMAC(address).value, ParseMAC(mask).value)
  }

  predicate EntryDecides(e: RestEntry, frame: Frame) {
    && SelectedText(frame.source, e.source, e.sourceMask)
    && SelectedText(frame.destination, e.destination, e.destinationMask)
    && (e.etherType.Some? ==> frame.etherType == e.etherType.value)
  }

  /** The entry sent for a legal rule decides exactly the frames the rule does, the same way,
      under the ID it is for. */
  lemma {:induction false} SameFrames(e: MacEntry, frame: Frame)
    requires LegalRule(e.rule)
    ensures EntryDecides(Encode(e), frame) <==> RuleDecides(e.rule, frame)
    ensures Encode(e).forward == "ACCEPT" <==> e.rule.action == "permit"
    ensures Encode(e).forward == "DROP" <==> e.rule.action == "deny"
    ensures Encode(e).log == "openconfig-acl:LOG_SYSLOG" <==> e.rule.log
    ensures Encode(e).id == e.id && Encode(e).configId == Some(e.id)
  {
    hide ParseMAC, WriteMAC, Selected;
    MacRoundTrip(e.rule.source.address);
    MacRoundTrip(e.rule.source.mask);
    MacRoundTrip(e.rule.destination.address);
    MacRoundTrip(e.rule.destination.mask);
    assert "DROP" != "ACCEPT" && "permit" != "deny" && "openconfig-acl:LOG_SYSLOG" != "";
  }

  lemma {:induction false} AnySelects(x: Mac)
    ensures Selected(x, ANY.address, ANY.mask)
  {
    forall i | 0 <= i < MAC_BYTES ensures (x[i] as bv8) & (ZERO[i] as bv8) == (ZERO[i] as bv8) & (ZERO[i] as bv8) {
      assert ZERO[i] == 0;
    }
  }

  /** The temporary rule of a list that is to be empty decides every frame, and lets none
      through. */
  lemma {:induction false} TemporaryBlocks(frame: Frame)
    ensures RuleDecides(MacReconcile.TEMPORARY.rule, frame) && MacReconcile.TEMPORARY.rule.action == "deny"
    ensures MacReconcile.Initial([]) == [MacReconcile.TEMPORARY] && MacReconcile.TEMPORARY.id == 1
  {
    hide Selected;
    AnySelects(frame.source);
    AnySelects(frame.destination);
  }
}
