# FastIron configuration: a verified model

This project models the parts of the FastIron provider that decide what a switch's configuration means and how it is
changed, and proves what they promise. It verifies with `dafny verify dfyconfig.toml`.

Four components fit together as they do in the provider.

1. **The native document** (`Ragel`, `Text`, `Native`, `Parser`, `Reading`, `Tree`, `RoundTrip`). `Parser.Document` is the
   mutable document with its banner delimiter and indentation stack; `Parser.ParseText` and `Parser.CommandFields` run the
   two small scanner tables, copied literally, through the driver's binary searches. They are proved equal to the
   functions `Native.Parse` and `Text.Fields`, whose trees, banners and round trip are then proved. `Reading` says the same
   from the text's side: which lines are commands, which delimiter a banner has, and where it ends.
2. **Extractors and ownership guards** (`Scopes`, `Ospf*`, `Dns`, `Route*`, `EthernetPort`, `PortRanges`, `Lldp*`,
   `Prefixes`, `Bits`, `StandardSource`). Each extractor is a method with the source's loops and checks, proved against a
   function of the commands; each guard's theorem says what an accepted comparison of "remaining" lines implies about the
   extractor. `Scopes.SameScope` is the key: a scope path determines its command, across documents. `OspfSpelling`,
   `RouteSpelling` and `LldpMeaning` say what the captured texts denote: areas, masked destinations, port directions.
3. **The update protocol** (`Updating`, `HostGate`, `Workflows`). `Updating.Update` is the scoped workflow with its sticky
   error and active flag, driven by an arbitrary callback that may look at everything and ignore every error. `HostGate` is
   the per-host channel as a transition system over any interleaving of workflows and device aliases.
4. **Reconciliation planners** (`CheckedWrites` and the `Rule*`, `Mac*`, `Global*`, `AccessGroup*`, `Storm*` modules;
   `AclNames` and `AclRules` say which names and rules are legal, `AclTraffic` and `MacTraffic` which packets they
   decide). Each planner is a method that sends one mutation, reads native configuration back and goes on only if
   nothing unowned moved and the owned object is what was intended. It is proved equal to a function `Applied` of the
   device and the start state, and that function is studied against two kinds of device:
   - an *arbitrary* device, any functions from state and request to state and answer, where only what the readbacks
     establish can be concluded (`*Safety`, `MacReuse`, `GlobalChecks`, `AccessGroup.ArbitraryDevice`);
   - a *particular* device with the refusals the comments of the source describe, where the plan is shown to need none of
     them and to finish (`RuleConvergence`, `MacConvergence`, `GlobalSafety.Completes`, `AccessGroupMerge`, `StormCache`).
     Whatever such a device does on merging into an entry that already exists is left open, as a parameter.

Two findings are stated exactly rather than as the intended law. Printing a document and reading it back gives the same
document precisely when no printed line ends in a carriage return, because the reader strips one (`RoundTrip.RoundTrip`);
text whose carriage returns all stand before newlines is always safe, and `RoundTrip.DoubledReturnLost` gives a complete
text of two lines for which it fails under every grammar. And clearing an access-group slot succeeds on the merging device
precisely unless native configuration binds an ACL whose REST key is missing (`AccessGroupMerge.Converges`);
`AccessGroupMerge.StrandedBinding` is the smallest such slot.

Widths: signed 64-bit numbers are the subset type `Prelude.Int64`; addresses are numbers below 2^32; port components are
below 2^64 and the port-count comparison is taken modulo 2^64, as in the source; direction masks are `bv8`.

## Model

| member | source | states |
|---|---|---|
| Ragel.Lookup | internal/config/command_parser.go:855-912 | the driver's two binary searches select exactly the transition the tables denote for a state and character, or the default one |
| Ragel.SelectsUnique | internal/config/command_parser.go:855-912 | in the tables used, whose ranges are apart, no other transition fits the character, so the outcome does not depend on how the search proceeds |
| Parser.CommandFields | internal/config/command_parser.go:836-946 | the scanner returns the maximal runs of non-space characters, in order |
| Parser.Document.Line | internal/config/config.go:96-154 | an accepted line changes commands, banner, stack and flags exactly as the document's step function says, and the same lines are refused with the same error; the state after a refusal is left open, because the caller drops the document |
| Parser.ParseText | internal/config/parser.go:53-181 | framing at newlines, early stop at `end` and the error for incomplete input: the document built is the one the lines denote |
| Reading.BannerLine | internal/config/config.go:135-152 | after `banner` and an optional `motd`, `exec` or `incoming`, the first character that follows is the delimiter, and the banner stays open exactly if it does not occur again on the line; no character or a quote is refused, and `require-enter-key` is an ordinary command |
| Reading.BannerBlock | internal/config/config.go:98-105 | from a banner line on, lines without its delimiter are its payload whatever they look like, and the first one with it ends the banner: one command, as if nothing else had been read |
| Reading.BannerDocument | internal/config/config.go:96-154 | a header, such a banner and `end` are exactly three commands |
| Reading.PlainDocument | internal/config/config.go:106-134 | a text without banner lines is read exactly if its commands end in `end`; they are the lines from the first one that starts with `ver ` on, without blank ones and lone exclamation marks |
| Reading.NeverOrphaned | internal/config/config.go:116-128 | the error for an orphaned command cannot occur, because the header stays open above every indented line |
| Tree.ParsedSound | internal/config/config.go:113-129 | in every accepted document each parent is the nearest earlier command of smaller indentation, -1 exactly at indentation zero, the stack ascends in index and indentation, and only the last top-level command is `end` |
| RoundTrip.RoundTrip | internal/config/config.go:88-154 | printing and reading back restores commands, parents, indents and scanner state, multi-line banners included, if and only if no printed line ends in a carriage return |
| RoundTrip.DoubledReturnLost | internal/config/config.go:88-154 | the other half is not empty: a header line ending in two carriage returns, then `end`, is read but lost by printing and reading back |
| RoundTrip.NormalisationIdempotent | internal/fastiron/device.go:174-181 | for text whose carriage returns all precede newlines the round trip always holds and normalising twice is normalising once |
| RoundTrip.EqualPrintsEqualDocuments | internal/fastiron/device.go:157-171 | comparing normalised texts is comparing documents |
| Text.SplitJoin | internal/config/config.go:88-94 | joining newline-free texts with newlines loses nothing |
| Scopes.SameScope | internal/config/ospf_update.go:34-40 | equal scope paths, across two documents, mean equal text, fields, indentation and parse, and equal scope paths of the parents |
| Scopes.SplitAtEnd | internal/config/ospf_update.go:57-60 | appending sorted area lines after the closing `end` is uniquely splittable |
| Ospf.OSPFAreas | internal/config/ospf.go:13-70 | succeeds exactly for well-formed area and binding lines under one process and yields each area's sorted interfaces |
| OspfSpelling.IdMeaning | internal/config/ospf.go:72-83 | a text denotes area n exactly if it is the dotted quad of n or a decimal numeral of n |
| OspfSpelling.AreasAreSpelled | internal/config/ospf.go:34-64 | the areas read are those the default process's area lines spell, and each holds the interfaces whose bindings spell it |
| OspfSpelling.RenamedAreas | internal/config/ospf.go:13-70 | writing any area lines and bindings with the other spelling changes neither success nor the areas read |
| OspfSpelling.InterfacesSorted | internal/config/ospf.go:66-68 | each area's interfaces are listed in byte order |
| OspfGuard.CheckOSPFAreaUpdate | internal/config/ospf_update.go:10-28 | accepts exactly when both documents extract, the process survives and the remaining lines agree, whichever way the selected area is spelled |
| OspfGuard.AreaUpdateExact | internal/config/ospf_update.go:30-61 | the comparison tolerates a reordering of the other areas' lines and nothing else |
| OspfGuard.AreaUpdateSound | internal/config/ospf_update.go:10-61 | an accepted update leaves every other area, and the interfaces of every area kept, as the extractor saw them |
| OspfBindingGuard.InterfaceHeader | internal/config/config.go:158-170 | the one top-level header of that name, none, or a refusal of a repeated one |
| OspfBindingGuard.CheckOSPFBindingUpdate | internal/config/ospf_update.go:64-118 | accepts exactly when both documents extract and agree outside the selected binding and its header, whichever way its area is spelled |
| OspfBindingGuard.BindingUpdateSound | internal/config/ospf_update.go:64-118 | an accepted update keeps the declared areas, every other area's interfaces, and the selected area's other interfaces |
| Dns.DNSServers | internal/config/dns.go:15-42 | succeeds exactly for single hosts' addresses of the line's family, none configured twice, and yields the configured ones in order of address |
| Dns.ServersAscend | internal/config/dns.go:40-41 | the servers are a permutation of the configured ones, IPv4 before IPv6 and strictly ascending by value |
| Dns.CheckDNSServerUpdate | internal/config/dns_update.go:10-51 | accepts exactly when the other servers are listed in the same order and all other lines agree |
| Dns.DnsUpdateExact | internal/config/dns_update.go:10-51 | comparing canonical spellings is comparing servers: accepted exactly when both documents extract, the servers kept are equal in order, learned ones included, and all other lines keep their scopes |
| Dns.DnsUpdateSound | internal/config/dns_update.go:10-51 | after an accepted update the extractor reports every server but the selected one as before, however addresses are regrouped over lines |
| Route.IPv4Routes | internal/config/route.go:26-72 | succeeds exactly for readable, unrepeated gateway routes and lists them in order |
| RouteSpelling.MaskedRoute | internal/config/route.go:54-72 | a line written with a mask is refused exactly for an unreadable, noncontiguous or multicast destination, host bits or a bad next hop; otherwise it covers exactly the addresses that agree with its own on the mask's bits, and next hop, distance and options are its own |
| RouteSpelling.RespelledRoutes | internal/config/route.go:116-134 | writing any line's prefix with a length or with a mask changes neither success nor the routes read |
| RouteSpelling.RespelledUpdate | internal/config/route.go:75-114 | nor, for the selected route, the guard's answer |
| Route.CheckIPv4RouteUpdate | internal/config/route.go:75-114 | accepts exactly when both documents are readable and the kept lines agree |
| Route.RouteUpdateExact | internal/config/route.go:90-114 | the comparison tolerates a reordering of the other route lines and nothing else |
| Route.RouteUpdateSound | internal/config/route.go:75-114 | an accepted update leaves the other gateway routes a permutation of what they were, every other line in place, and the extractor succeeding exactly if it did before |
| EthernetPort.ParseEthernetPort | internal/config/command_parser.go:2401-2526 | the table automaton accepts exactly three slash-separated positive numerals without leading zeros below 2^64, and returns their values |
| EthernetPort.SixtyFourBits | internal/config/command_parser.go:2401-2526 | of such texts exactly those are refused that have a number above 64 bits |
| EthernetPort.PortRoundTrip | internal/config/command_parser.go:2401-2526 | decimal printing inverts it |
| EthernetPort.PortNameUnique | internal/config/command_parser.go:2401-2526 | an accepted name is the printed form of its value, so names map injectively to IDs |
| PortRanges.ResolvePorts | internal/config/ports.go:5-29 | succeeds exactly when every span is ordered in one slot and every number in it is in the inventory, and lists what each span covers |
| PortRanges.CountIsComplete | internal/config/ports.go:12-26 | the pigeonhole step: as many covered ports as numbers means all of them |
| PortRanges.CoverageUnion | internal/config/ports.go:5-29 | the ports listed are exactly those in the union of the spans |
| Lldp.LLDPPorts | internal/config/lldp_ports.go:13-72 | with its bit masks, succeeds exactly when inventory and lines are well formed and no port direction is set twice; each mode is what the covering lines say |
| LldpMeaning.InventoryNames | internal/config/lldp_ports.go:17-23 | the names an inventory may have are exactly `ethernet ` followed by a printed port |
| LldpMeaning.ModeMeaning | internal/config/lldp_ports.go:44-62 | a port does not receive exactly if a negated line for it is not limited to transmitting, and the other way round |
| LldpMeaning.RepetitionMeaning | internal/config/lldp_ports.go:50-54 | lines are accepted together exactly if none lists a port twice and two lines for one port are limited to different directions |
| Lldp.LinesPermuted | internal/config/lldp_ports.go:29-71 | permuting the lines changes neither acceptance nor any mode |
| Lldp.LinesRegrouped | internal/config/lldp_ports.go:29-71 | nor does splitting a line's ranges over two lines |
| StandardSource.NormaliseMeaning | internal/features/acl/standard.go:95-136 | host, prefix, wildcard and any spellings normalise to text that matches exactly the same 32-bit addresses |
| StandardSource.RejectsExactly | internal/features/acl/standard.go:95-136 | readable sources are refused exactly for noncontiguous wildcards, which match no block |
| StandardSource.NormaliseCanonical | internal/features/acl/standard.go:95-136 | two accepted spellings match the same addresses if and only if they normalise alike |
| Prefixes.PrefixUnique | internal/features/acl/standard.go:106-115 | a text reads as a prefix exactly if it is the prefix as written, so each has one spelling |
| Updating.Update.Rest | internal/fastiron/update.go:73-89 | one mutation: inactive, sticky and non-mutating cases send nothing; a tolerated 404 clears the error |
| Updating.Update.Finish | internal/fastiron/update.go:34-47 | the workflow fails when the callback or any retained error says so, and saves only otherwise |
| Updating.OneFailureLast | internal/fastiron/update.go:34-47 | for any callback that may discard every error: at most one sent mutation failed, it is the last, and what was sent is what was asked for up to there |
| Updating.SilentOnceOver | internal/fastiron/update.go:73-79 | nothing is sent once an error is retained or the callback has ended |
| Updating.SaveMeansAllAccepted | internal/fastiron/update.go:38-46 | a save follows only workflows every one of whose requested mutations was sent and accepted |
| Updating.RunWorkflow | internal/fastiron/update.go:24-47 | without the gate or a recognised firmware nothing is done; otherwise the callback's moves run in a fresh scope that is then closed; the workflow fails exactly if the callback does, an error is retained, or the save it makes is not confirmed |
| HostGate.Invariant | internal/fastiron/device.go:67-81 | over every interleaving: one channel per key, one token while a workflow is inside, contiguous logs |
| HostGate.AliasesShareGate | internal/fastiron/device.go:67-70 | devices contend for one gate exactly when their hosts agree letter by letter up to case and one trailing dot |
| HostGate.AtMostOneInside | internal/fastiron/device.go:74-81 | of the workflows on one host at most one is inside |
| HostGate.RequestsDoNotInterleave | internal/fastiron/device.go:129-142 | between two requests of a workflow no other workflow addresses its host |
| HostGate.GateNeverStuck | internal/fastiron/device.go:74-81 | leaving never blocks, and a waiting workflow can enter exactly when none is inside on its host, whoever was cancelled before |
| Workflows.ApplyRules | internal/features/acl/ip_write.go:39-122 | invalid names and rules, devices without RESTCONF and workflows that cannot begin reach nothing; otherwise reconciliation alone decides on saving, success is exactly its success with any save confirmed, and then the desired rules were read back |
| Workflows.ApplyMAC | internal/features/acl/mac_write.go:39-144 | likewise, with more rules than IDs refused at the start |
| Workflows.Saved | internal/fastiron/device.go:144-172 | a save counts exactly when both commands run, the first one's text confirms it, and both configurations parse and print alike; for readable output they are then the same document |
| Workflows.SavedMeansSameDocument | internal/fastiron/device.go:155-172 | for readable output printing alike is being the same document, both ways |
| AclNames.NameExactly | internal/features/acl/access_group.go:66-71 | legal names are the texts that are one word of a line and one component of a path, without white or control characters of any alphabet |
| AclNames.CheckIpName | internal/features/acl/ip.go:92-103 | the checks one by one accept exactly tokens of at most 47 bytes, and numerals only as numbered IPv4 lists |
| AclNames.NumberedNames | internal/features/acl/ip.go:92-103 | an all-digit name is legal for an extended list exactly as the decimal form of 100 through 199 in the IPv4 family, and for a standard list exactly as that of 1 through 99 |
| AclNames.StandardApart | internal/features/acl/standard.go:138-142 | no name is legal both for a standard list and for an extended or MAC list |
| CheckedWrites.Writer.Write | internal/features/acl/ip_write.go:62-83 | the shared write closure: guard, mutation, readback and the order of its checks |
| CheckedWrites.RunFollows | internal/features/acl/ip_write.go:62-83 | for any device and plan: the accepted readbacks are a prefix of the plan's, nothing unowned moved in them, at most one more mutation was sent, and success means the whole plan |
| RuleReconcile.Validate | internal/features/acl/ip.go:88-158 | a name legal for the family, sequences in 1..65000, legal rules, no rule under two sequences |
| RuleReconcile.Apply | internal/features/acl/ip_write.go:46-121 | the imperative writer, deleting changed sequences in ascending order before adding, performs the plan |
| RuleSafety.ArbitraryDevice | internal/features/acl/ip_write.go:62-121 | on any device every accepted list keeps all unchanged sequences and is part of the old list or exactly the new one; success means the desired rules |
| RuleSafety.PlanEnds | internal/features/acl/standard_write.go:88-130 | deletions and additions together lead from any list to the desired one |
| RuleSafety.DeleteCount | internal/features/acl/ip_write.go:85-108 | the plan deletes once per changed or removed sequence, and the temporary rule of a list created empty |
| RuleConvergence.DeletionsSent | internal/features/acl/ip_write.go:85-108 | on the merging device exactly those deletions are sent, and none when the workflow declines |
| RuleSafety.NoDuplicateOnTheWay | internal/features/acl/ip_write.go:96-97 | a list in between repeats a rule only at two sequences where the start already repeated it, and so none if the start repeats none |
| RuleSafety.SequencesCompared | internal/features/acl/ip_write.go:54-58 | a family that compares sequences sends nothing to a differing list whose REST sequences are not exactly its own; one that does not is never held up by them |
| RuleConvergence.Converges | internal/features/acl/ip_write.go:46-121 | on the merging device nothing is refused and the desired rules result, from every start; a family that compares sequences declines exactly when one is out of range |
| AclRules.TemporaryLegal | internal/features/acl/ip_write.go:85-95 | the temporary rule of an empty list is legal for its family |
| AclRules.IpFieldsInjective | internal/features/acl/ip.go:162-213 | the fields sent determine the legal extended rule, "any" and port ranges included |
| AclRules.StandardFieldsInjective | internal/features/acl/standard_write.go:23-46 | likewise for standard rules |
| AclRules.NormalisedLegal | internal/features/acl/standard.go:95-136 | every source read back from native configuration is legal to send |
| AclRules.CheckIpRule | internal/features/acl/ip.go:110-150 | the validator's checks, item by item, accept exactly the legal rules |
| AclTraffic.SameTraffic | internal/features/acl/ip.go:162-213 | the entry sent for a legal rule decides exactly the packets the rule does, by source, destination, protocol, ports and DSCP, with the same permission, markings and logging, in either family |
| AclTraffic.SameStandardTraffic | internal/features/acl/standard_write.go:23-46 | likewise for standard rules |
| AclTraffic.TemporaryBlocks | internal/features/acl/ip_write.go:85-95 | the temporary rule of an empty list decides every packet and lets none through |
| MacCodec.CodecRoundTrip | internal/features/acl/mac_rest.go:36-70 | the REST decoder recovers every legal rule from what the encoder sends |
| MacCodec.MacRoundTrip | internal/features/acl/mac.go:13-26 | printed MAC addresses parse back |
| MacTraffic.SameFrames | internal/features/acl/mac.go:98-126 | the entry sent for a legal rule decides exactly the frames the rule does, by masked source and destination and EtherType, the same way and under its ID |
| MacEntries.Validate | internal/features/acl/mac.go:69-96 | accepts exactly names that are tokens beginning with a letter, with legal rules without repetition |
| MacEntries.ReadEntries | internal/features/acl/mac_rest.go:72-128 | matches the one REST set, sorted by ID, to native rules, restoring lost logging flags |
| MacEntries.EntriesSound | internal/features/acl/mac_rest.go:104-127 | matched entries carry the native rules in native order under strictly ascending IDs in 1..65000 |
| MacEntries.Targets | internal/features/acl/mac_write.go:146-160 | the loop's IDs: while the extra rules fit after the last entry, every position keeps its ID and extra rules get the next ones; otherwise all are numbered from one |
| MacEntries.TargetsAscend | internal/features/acl/mac_write.go:146-160 | whether reused or renumbered, IDs strictly ascend within 1..65000 |
| MacReconcile.Apply | internal/features/acl/mac_write.go:49-143 | the imperative writer, re-identifying entries before every write and deleting from the last entry down, performs the plan |
| MacSafety.ArbitraryDevice | internal/features/acl/mac_write.go:49-143 | on any device every accepted list keeps the retained rules in order and is cut from the old list or is exactly the new one; success means the desired order |
| MacSafety.NoDuplicateOnTheWay | internal/features/acl/mac_write.go:111-125 | no list in between repeats a rule |
| MacConvergence.Identified | internal/features/acl/mac_rest.go:72-128 | in whatever order the device lists its entries, matching succeeds exactly while REST and native rules agree, and finds exactly the entries |
| MacConvergence.PatchHolds | internal/features/acl/mac_write.go:126-141 | the additions' IDs are free, merging them yields exactly the target, and no rule collides |
| MacConvergence.Converges | internal/features/acl/mac_write.go:39-144 | from every agreeing start, absent and empty included, and however the device merges into or lists its entries, nothing is refused or missing and the desired rules result in order under the target IDs, all else unchanged |
| MacConvergence.SucceedsExactly | internal/features/acl/mac_write.go:50-61 | from every start, reconciliation succeeds exactly if native rules are the desired ones already or REST agrees with them; otherwise nothing is sent |
| MacReuse.SurvivorsUndisturbed | internal/features/acl/mac_write.go:107-160 | on any device every accepted list has, in order, the rules of all entries that stay: while the rules fit, those at positions whose rule does not change |
| MacReuse.OnlyChangedDeleted | internal/features/acl/mac_write.go:109-125 | on any device only entries that do not stay are deleted |
| MacReuse.DeletesWhatMoves | internal/features/acl/mac_write.go:109-125 | on the merging device as many deletions are sent as entries do not stay, and the list ends under the IDs it had, extended by the next ones |
| GlobalAuth.ValuesDetermine | internal/features/authentication/global_write.go:50-60 | comparing the thirteen values is comparing configurations |
| GlobalAuth.ValueAtLeaf | internal/features/authentication/global_write.go:50-83 | each setting is written to the leaf that bears its name in the configuration, with the configuration's value for it |
| GlobalAuth.RequestMeans | internal/features/authentication/global_write.go:62-83 | a request changes exactly the setting it is for, to exactly the value meant, whichever form it takes |
| GlobalAuth.RemovedExactly | internal/features/authentication/global_write.go:62-70 | a setting is removed exactly to get its default, except that enabling and session counts are always written |
| GlobalAuth.Validate | internal/features/authentication/global_write.go:18-46 | accepts exactly the configurations with values in range and every prerequisite |
| GlobalApply.WritePass | internal/features/authentication/global_write.go:158-193 | each of the four loops performs its part of the plan |
| GlobalApply.Apply | internal/features/authentication/global_write.go:95-195 | the checks before writing and the four passes |
| GlobalChecks.DeclinedExactly | internal/features/authentication/global_write.go:113-131 | from a readable start writing is declined in exactly four cases: an interface still uses 802.1X or MAC authentication that is on and to be turned off, an action was set by other means, or a VLAN named does not exist; and nothing is then sent |
| GlobalChecks.DependentsProtected | internal/features/authentication/global_write.go:113-117 | no request reaches a device while an interface depends on a feature that is to be turned off |
| GlobalChecks.UnchangedThroughout | internal/features/authentication/global_write.go:156-193 | on any device a setting that is to stay as it is has its value in every accepted state |
| GlobalChecks.ActionsReapplied | internal/features/authentication/global_write.go:186-193 | success means the desired actions were set again after everything else, even where they had not changed |
| GlobalChecks.DeletionsTolerated | internal/features/authentication/global_write.go:133-140 | of the requests sent exactly the deletions may find nothing to delete |
| GlobalSafety.PlanSafe | internal/features/authentication/global_write.go:156-193 | whichever of the prerequisites the start meets, every state the plan passes through meets them, and it ends at the desired values |
| GlobalSafety.ArbitraryDevice | internal/features/authentication/global_write.go:95-195 | on any device each prerequisite of features and actions that the start meets is met by every accepted state, whatever the others do; success means all values as desired |
| GlobalSafety.Completes | internal/features/authentication/global_write.go:95-195 | a device that refuses every state without the prerequisites the start meets refuses none of the requests, and ends as desired |
| AccessGroup.Prune | internal/features/acl/access_group_write.go:77-92 | deletes every key but the bound ACL's, checking each is gone |
| AccessGroup.Apply | internal/features/acl/access_group_write.go:41-119 | prune, unbind or replace, prune, and the final comparison |
| AccessGroup.ArbitraryDevice | internal/features/acl/access_group_write.go:54-118 | on any device: each accepted binding is the one before or what its mutation is for, replacing never passes through an accepted state without a binding, no deletion names the bound ACL unless the slot is cleared, success leaves the request and exactly its key |
| AccessGroupMerge.Converges | internal/features/acl/access_group_write.go:54-118 | on the merging device it succeeds exactly unless a native binding to be cleared has no REST key, and leaves no stale key |
| AccessGroupMerge.StrandedBinding | internal/features/acl/access_group_write.go:77-107 | clearing a slot whose bound ACL has no REST key fails |
| StormControl.Apply | internal/features/stormcontrol/backend.go:91-205 | prime, unit reset, class removal, cache invalidation in any order, patch |
| StormControl.Validate | internal/features/stormcontrol/backend.go:31-54 | accepts exactly known classes at rates in the unit's range, and an empty policy without a unit |
| StormSafety.ArbitraryDevice | internal/features/stormcontrol/backend.go:107-204 | on any device and in any order: every accepted policy differs from the one before it only by what its mutation is for, is part of the old one or the new one, and keeps unchanged classes at their rate; at most one mutation lacks an accepted readback; success means the desired policy |
| StormSafety.DeletionRemovesOnlyItsClass | internal/features/stormcontrol/backend.go:154-171 | an accepted class deletion removed that class from the policy read before it and nothing else |
| StormCache.Converges | internal/features/stormcontrol/backend.go:127-204 | on a device whose cache suppresses and hides changes, from any cache and in any order, nothing is refused and the desired policy results |

## Left out

- The large keyword tables (`commandKind`, `syntax`, `route` and argument capture): a parsed line is an arbitrary function `g` of its trimmed text, which is all the parser and the guards use. Where a guard needs it, `Scopes.EndUnknown` asks that the line `end` is no recognised setting.
- Characters outside ASCII: blanks, case folding of host names and banner delimiters are modelled on ASCII characters.
- Error texts: errors are tags, and joined errors keep both tags but not their wording.
- Clocks, contexts, retries, TLS, SSH and JSON decoding: a device is a pair of state functions, and a read or mutation either answers or does not.
- IPv6 address syntax: `Dns` and `AclRules` take parsing and printing from an address library given as functions.
- Reading rules, settings and policies out of native configuration (`nativeMAC`, `nativeIP`, `nativeStandard`, `nativeGlobal`, the storm parser): each planner's device shows the object and the other lines directly, and refuses to where the source's reader would.
- GlobalAuth.ValuesDetermine: the guest VLAN is not among the settings, because the source never writes it and keeps its line with the unowned ones.
- MacConvergence.SucceedsExactly: asks that entries carry the IDs they are listed under and that no set of another list has the same identity; `MacSafety.ArbitraryDevice` covers every start.
- Workflows.ApplyRules: whether a save is confirmed is a parameter here; `Workflows.Saved` says when it is.
- Route.RouteUpdateSound: claims no scopes for lines other than routes, because the guard compares their bare texts.
- AclRules.IpFieldsInjective: the model has no decoder for extended rules; native readback, not REST, identifies them.
- GlobalApply.Apply: interface enablement and VLAN existence are parameters; the reads that obtain them are not modelled.
- AccessGroup.Apply: the slot is taken as valid, and the existence checks of ACL and interface are a parameter.
- StormControl.Apply: whether the interface is found is asked once at the start; the first read of the REST container, which only has to succeed, is part of that.
- Link aggregation (`lag.go`, `lag_interface_update.go`), interface, spanning-tree and power policies: they combine port resolution and line comparison as modelled here, and their guards compare bare texts, so no claim about scopes would hold.
- ACL deletion (`deleteMAC`, `deleteIP`, `deleteStandard`): one mutation and one readback, which adds only easy members.
- VLANs, AAA users and servers, secrets, firmware discovery, data sources, schemas and provider plumbing.
