# NetFerry: a verified model

NetFerry tunnels TCP, DNS and UDP over SSH. This project models the parts of it where a wrong branch loses
traffic, settings or data, and proves what they promise. It is written for Dafny 4.11; to check it as a whole,
use `dafny verify dfyconfig.toml`.

| module | subject |
|---|---|
| `Net`, `PfRules`, `PfSections`, `PfCompiler`, `PfMethod`, `Netfilter`, `NftMethod`, `TproxyMethod`, `IptMethod`, `Backends` | the firewall rule compilers: each engine has an evaluator over packets, each compiler is proved against one decision stated without rules, and then against the others |
| `Ipv6Lockdown` | turning IPv6 off on all interfaces and on again, with a crash possible at every step |
| `ListExpansion`, `ListLines` | expanding domain lists along possibly cyclic includes, and what each line of them says |
| `Scopes`, `ScopeText`, `CatalogIndex`, `RouteTable`, `RouteAnswer`, `RouteAgreement` | domain scopes, the label-walk index against a linear scan, and the relay's route lookup against the desktop's |
| `QrChunks`, `QrText`, `MuxFraming`, `MuxBytes`, `TunnelArgs` | codecs across languages: QR chunks, stream frames and datagram headers, the command line |
| `LegacyRules`, `LegacyJson`, `GroupFiles`, `RulesMigration`, `RulesApp` | the one-time merge of per-group rules, the JSON it reads, the file steps around it, and the app that takes them |
| `SshConfig`, `SshFields` | reading host entries from an OpenSSH configuration |
| `PoolReconnect` | reconnecting pool members |
| `Wrappers`, `Text`, `Lists`, `Sorting`, `Routes` | shared: results, strings, keyed lists, stable sorting, route kinds |

An address is the sequence of its bits, a network a prefix of it. Rules are data; commands and file operations
that may fail do so as an arbitrary function of their position decides. Where the source changes state, the
model is a class whose methods are proved against a function or a step relation, and the results are proved
about those.

## Where code and description differ

The model follows the code. The lemmas named here say exactly when the description holds. The bound in
`QrChunks.RoundTripIff` is not one of these: data that long fits no JavaScript string.

- `nft.go` describes `DisableDNS` as an atomic replacement. The table is deleted first, so packets get out in
  between (`NftMethod.GapLeaksIff`).
- TPROXY marks IPv6 DNS whenever DNS is proxied, but installs IPv6 policy routing only when some subnet is IPv6;
  otherwise IPv6 DNS goes out directly (`TproxyMethod.MarkedDnsIsClaimedIff`).
- pf's "blanket" IPv6 block is reached by no UDP packet while the UDP block is on: DHCPv6, port 53 when IPv6
  DNS is not proxied, and root's datagrams still leave (`PfMethod.Ipv6UdpPassesBothBlocksIff`).
- iptables' `Restore` deletes one jump per hook, which undoes any single set-up. After a `DisableDNS` in which
  unhooking failed there are two, and it does not (`IptMethod.UndoPlantedIff`, `IptMethod.FailedUnhookStays`).
- nftables' prerouting chain has no guards for packets to this machine or with the tunnel's mark, while iptables
  hooks its guarded chain there (`IptMethod.IptMatchesNft`).
- `CleanStaleAnchors` removes the TPROXY routing of the default mark and table only, though both are settings;
  after a crash with others, `Setup` fails (`TproxyMethod.CanSetupAfterCrashIff`).
- `restoreSystemIPv6` returns early when the state file exists but cannot be read; a lockdown after that
  overwrites it (`Ipv6Lockdown.RunIsSafeIff`).
- The engine says root's UDP must pass when the tunnel rides on it. With the UDP block off and the IPv6 block on, it
  is reset towards public IPv6 addresses (`Backends.CarrierLeavesIff`).
- Under `--no-ipv6`, TPROXY rejects IPv6 packets that nftables would still redirect, and neither stops forwarded ones
  (`Backends.NftAndTproxyCaptureAlike`, `TproxyMethod.ForwardDiffersIff`).
- The desktop resolver is described as mirroring the tunnel's matcher. The desktop stores and looks up override
  keys as typed (`DestinationsPage.tsx:342`, `rules.rs:85`), the relay files them under their normal form, so that
  `Example.com` counts for the relay alone; they agree on every host iff every key has the same effect in both
  readings (`RouteAgreement.OverridesAgreeIff`). The desktop also tries wildcard overrides for keys that are
  themselves wildcards, which the relay does not (`RouteAgreement.KeysAgreeIff`).
- The server's `writeMsg` does not check the length the client's does, and 65535 introduces an error frame for
  the client; large IPv6 datagrams are lost (`MuxFraming.DatagramDeliveredIff`).
- The comment in `rules.rs` says group files are read before anything drops their rules. `save_rules` itself does
  not see to that (`RulesMigration.SaveBeforeMergeWins`); the guard sits in its only caller, the window's rule store,
  which saves nothing before rules were loaded, and with it the comment holds (`RulesApp.AppLosesNothing`).
- The two readers of the default identity in `ssh_config.rs` take the first and the last value of a block
  (`SshConfig.DefaultIdentitiesAgreeIff`).

## Model

| member | source | states |
|---|---|---|
| Net.SplitByFamily | netferry-relay/internal/firewall/firewall.go:322-331 | the two lists are exactly the rules of each family, in order |
| Net.SplitExcludesByFamily | netferry-relay/internal/firewall/firewall.go:334-343 | same for excludes |
| Net.SplitDNSByFamily | netferry-relay/internal/firewall/firewall.go:346-359 | same for DNS servers |
| Net.SubnetsOfIff | netferry-relay/internal/firewall/firewall.go:322-331 | splitting loses and invents nothing: a rule is in a family's list iff it is in the input and of that family |
| Net.DnsProxiedIff | netferry-relay/internal/firewall/pf.go:311-326 | DNS rules of a family are emitted iff the DNS port is positive and some server is of that family |
| Net.LoopbackIs | netferry-relay/internal/firewall/pf.go:328-355 | the loopback addresses are the numbers 0x7f000001 and 1 |
| Net.Whitelisted6Iff | netferry-relay/internal/firewall/nft.go:337-350 | the networks exempt from the IPv6 block are ::1, fe80::/10 and ff00::/8, as numbers |
| PfMethod.Method.BuildRules | netferry-relay/internal/firewall/pf.go:311-446 | the loops and branches append exactly the anchor that the pf lemmas speak about |
| PfCompiler.PfCompilesDecision | netferry-relay/internal/firewall/pf.go:311-446 | for all inputs, flags and packets: last-match evaluation with `quick`, the tables and the first-match rdr pass together give the rule-free decision |
| PfMethod.CapturedByFields | netferry-relay/internal/firewall/pf.go:328-395 | in the fields of the rules alone, for all flags: a TCP packet reaches the proxy port iff it is not root's, not from loopback, not stopped by the IPv6 block, some subnet rule has its address and, when it has both ports, its port, and no exclude has its address |
| PfMethod.TcpCapturedIff | netferry-relay/internal/firewall/pf.go:328-395 | without the IPv6 block a TCP packet reaches the proxy port iff it is not root's, a subnet takes it, no exclude does, and it is not from loopback |
| PfMethod.StrandedIff | netferry-relay/internal/firewall/pf.go:328-395 | route-to and rdr agree but for packets from loopback: exactly which packets are routed to lo0 and picked up by nobody |
| PfMethod.UdpEscapesIff | netferry-relay/internal/firewall/pf.go:397-425 | with the UDP block on, exactly which datagrams are not dropped (proxied DNS, DHCP, unproxied port 53, root when allowed), and how |
| PfMethod.Ipv6TcpPassesIff | netferry-relay/internal/firewall/pf.go:427-444 | with the IPv6 block on, IPv6 TCP passes iff to ::1, fe80::/10 or ff00::/8, and is reset otherwise |
| PfMethod.Ipv6UdpPassesBothBlocksIff | netferry-relay/internal/firewall/pf.go:397-444 | the IPv6 block is not blanket for UDP: with both blocks on, exactly which IPv6 datagrams still leave |
| PfMethod.DisableDnsConservative | netferry-relay/internal/firewall/pf.go:458-466 | the rules without DNS give every TCP packet the same verdict and redirect nothing else, for all flags |
| PfMethod.Method.Setup | netferry-relay/internal/firewall/pf.go:205-240 | the stored state and the loaded anchor after success and after each failure |
| PfMethod.Method.Restore | netferry-relay/internal/firewall/pf.go:449-456 | the anchor is emptied |
| PfMethod.Method.DisableDNS | netferry-relay/internal/firewall/pf.go:458-466 | reloads the anchor built from the stored rules without DNS; keeps it when loading fails |
| Netfilter.BuildBody | netferry-relay/internal/firewall/nft.go:251-334 | the loops append exclude, capture and DNS rules as the specification lists them |
| Netfilter.RunBody | netferry-relay/internal/firewall/nft.go:251-334 | first-match evaluation of that body is excludes, then subnets, then DNS, for verdicts that end the walk and for marking alike |
| Netfilter.RunBlock6 | netferry-relay/internal/firewall/nft.go:337-350 | the IPv6 chain rejects exactly IPv6 outside the three exempt networks |
| NftMethod.Method.BuildNftRules | netferry-relay/internal/firewall/nft.go:233-353 | the table built is the one the nft lemmas speak about |
| NftMethod.NftCompilesDecision | netferry-relay/internal/firewall/nft.go:233-353 | for all inputs, flags and packets: NAT first, then the filter chain on the rewritten packet, gives the rule-free decision |
| NftMethod.RedirectedByFields | netferry-relay/internal/firewall/nft.go:233-334 | in the fields alone: which TCP packets, sent from here or forwarded, reach the proxy port; a rule without both ports takes every port but the proxy's |
| NftMethod.DisableDnsConservative | netferry-relay/internal/firewall/nft.go:360-367 | without DNS every TCP packet is treated as before and nothing else is redirected, for local and forwarded traffic |
| NftMethod.Method.Setup | netferry-relay/internal/firewall/nft.go:214-231 | the table is deleted first, then loaded; the history of what the kernel held is part of the contract |
| NftMethod.Method.Restore | netferry-relay/internal/firewall/nft.go:355-358 | the table is gone, or stays when its deletion fails |
| NftMethod.Method.DisableDNS | netferry-relay/internal/firewall/nft.go:360-367 | delete, then load without DNS: the table is absent in between, and stays so when loading fails |
| NftMethod.GapLeaksIff | netferry-relay/internal/firewall/nft.go:214-231 | exactly which packets are let out while the table is absent |
| TproxyMethod.TproxyCompilesDecision | netferry-relay/internal/firewall/tproxy.go:98-221 | marking, rerouting and claiming together give the rule-free decision, for every packet and routing policy |
| TproxyMethod.DeliveredByFields | netferry-relay/internal/firewall/tproxy.go:98-203 | in the fields alone: which TCP packets reach the proxy port |
| TproxyMethod.MarkedTcpIsClaimed | netferry-relay/internal/firewall/tproxy.go:118-203 | every TCP packet the output chain marks has policy routing for its family and is accepted for the proxy port |
| TproxyMethod.ForwardCompilesDecision | netferry-relay/internal/firewall/tproxy.go:118-162 | forwarded packets meet the prerouting chain alone: the rule-free decision without guards and IPv6 block |
| TproxyMethod.ForwardDiffersIff | netferry-relay/internal/firewall/tproxy.go:118-218 | exactly which packets fare otherwise when forwarded than when sent from here |
| TproxyMethod.MarkedDnsIsClaimedIff | netferry-relay/internal/firewall/tproxy.go:48-67 | for either block flag: a marked DNS query the IPv6 block lets through reaches the DNS port iff it is IPv4 or some subnet is IPv6; otherwise it goes out directly |
| TproxyMethod.UnclaimedIff | netferry-relay/internal/firewall/tproxy.go:118-203 | for either block flag, exactly which packets are looped to lo and lost: those that carried the routing mark already, are not captured and not stopped by the block |
| TproxyMethod.Method.BuildNftRules | netferry-relay/internal/firewall/tproxy.go:98-221 | the table built is the one the lemmas speak about |
| TproxyMethod.Method.Setup | netferry-relay/internal/firewall/tproxy.go:38-80 | from any routing and table left behind: it succeeds iff nothing of its mark and routing table is in the way and every command works, and what the kernel holds after every failure |
| TproxyMethod.SetupRoutes | netferry-relay/internal/firewall/tproxy.go:38-80 | a successful Setup routes IPv4, and IPv6 iff some subnet is IPv6 or an earlier run left the routing |
| TproxyMethod.Method.RoutePolicy | netferry-relay/internal/firewall/tproxy.go:48-67 | one family: rule, then route, and the rule taken back when the route cannot be added |
| TproxyMethod.Method.Restore | netferry-relay/internal/firewall/tproxy.go:393-431 | rule and route of both families and the table, each gone if its deletion works |
| TproxyMethod.RestoreUndoesIff | netferry-relay/internal/firewall/tproxy.go:38-80 | a Setup with any commands failing and a Restore that works leave rules and routes as they were iff none of theirs was there before |
| TproxyMethod.RestoredCanSetup | netferry-relay/internal/firewall/tproxy.go:393-438 | after a Restore that works the next Setup succeeds, whatever was there |
| TproxyMethod.Method.DisableDNS | netferry-relay/internal/firewall/tproxy.go:433-438 | restore, then set up from the stored rules without DNS: success and kernel state for any failing commands of either half |
| TproxyMethod.DisableDnsConservative | netferry-relay/internal/firewall/tproxy.go:433-438 | without DNS every TCP packet fares as before and nothing else is delivered |
| TproxyMethod.Method.CleanStaleAnchors | netferry-relay/internal/firewall/nft.go:148-204 | removes the table and the routing of mark 1 and routing table 100 |
| TproxyMethod.CanSetupAfterCrashIff | netferry-relay/internal/firewall/nft.go:186-191 | when a run was killed after Setup, the next one with the same settings can set up iff they are the default mark and routing table |
| IptMethod.Method.Setup | netferry-relay/internal/firewall/nft.go:413-540 | whatever the tables hold and whichever commands fail: three plans of commands, each ending at the first subnet rule that fails, the next one only after the one before went to its end |
| IptMethod.ReliableNat | netferry-relay/internal/firewall/nft.go:439-523 | when every command works, a plan installs exactly the compiled chain with its two jumps |
| IptMethod.RedirectedByFields | netferry-relay/internal/firewall/nft.go:439-523 | in the fields alone: which TCP packets, sent from here or forwarded, the compiled chains redirect to the proxy port |
| IptMethod.ReliableBlock | netferry-relay/internal/firewall/nft.go:525-538 | same for the IPv6 block chain |
| IptMethod.Method.Restore | netferry-relay/internal/firewall/nft.go:542-560 | the undo plan of each table, failing commands passed over |
| IptMethod.ReliableUndo | netferry-relay/internal/firewall/nft.go:542-560 | when every command works: the first jump of every hook removed, then the chain |
| IptMethod.PlayKeepsPlanted | netferry-relay/internal/firewall/nft.go:413-560 | no command of set-up or undo touches anything but the chain and its jumps, in any order and with any failures |
| IptMethod.SetupThenRestore | netferry-relay/internal/firewall/nft.go:413-560 | from a clean table, a set-up with any commands failing and then a working undo give the clean table back |
| IptMethod.BlockThenRestore | netferry-relay/internal/firewall/nft.go:525-560 | same for the IPv6 block |
| IptMethod.RunsAreUndone | netferry-relay/internal/firewall/nft.go:413-567 | after any sequence of set-ups and undos with any failures, as many working undos as there were set-ups give the clean table back |
| IptMethod.MethodPlans | netferry-relay/internal/firewall/nft.go:413-567 | every plan the method object gives a table is one of those |
| IptMethod.UndoPlantedIff | netferry-relay/internal/firewall/nft.go:542-560 | on anything set-up and undo can leave, one working undo gives the clean table back iff no hook holds the jump twice |
| IptMethod.UndoTimesIff | netferry-relay/internal/firewall/nft.go:542-560 | n undos do iff no hook holds it more than n times |
| IptMethod.FailedUnhookStays | netferry-relay/internal/firewall/nft.go:562-567 | a DisableDNS whose first unhooking fails hooks the chain twice, and the one Restore at the end leaves the table changed |
| IptMethod.UndoIdempotentIff | netferry-relay/internal/firewall/nft.go:542-560 | a second undo changes nothing iff no hook held the jump twice |
| IptMethod.Method.DisableDNS | netferry-relay/internal/firewall/nft.go:562-567 | undo, then set up from the stored rules without DNS, for any failing commands |
| IptMethod.DisableDnsInstalls | netferry-relay/internal/firewall/nft.go:562-567 | when every command works, the DNS-free chain is installed on the clean table |
| IptMethod.DisableDnsConservative | netferry-relay/internal/firewall/nft.go:562-567 | without DNS every TCP packet fares as before and nothing else is redirected, local or forwarded |
| IptMethod.NatChainMatchesNft | netferry-relay/internal/firewall/nft.go:440-522 | the iptables chain of a family and the nft output chain redirect every packet to the same port or both leave it |
| IptMethod.SkippedNat6 | netferry-relay/internal/firewall/nft.go:482-523 | leaving the IPv6 chain out costs nothing: it would redirect no packet |
| IptMethod.IptMatchesNft | netferry-relay/internal/firewall/nft.go:440-538 | iptables and nftables treat every local packet alike, and a forwarded one iff it is not an exempt one that nftables redirects, whose prerouting chain has no guards |
| Backends.PfAndNftCaptureAlike | netferry-relay/internal/firewall/pf.go:328-395 | pf (last match, excludes last) captures an ordinary TCP packet iff nft (first match, excludes first) does |
| Backends.PfAndNftDifferIff | netferry-relay/internal/firewall/nft.go:291-334 | exactly the TCP packets on which pf and nft differ, block flags included |
| Backends.NftAndTproxyCaptureAlike | netferry-relay/internal/firewall/tproxy.go:118-218 | for either block flag, REDIRECT and TPROXY capture the same TCP packets, apart from those that already carry the routing mark, and from IPv6 ones, which TPROXY leaves to the block first |
| Backends.NftAndTproxyForwardAlike | netferry-relay/internal/firewall/tproxy.go:118-162 | forwarded packets reach the same port under both, but for DNS of a family without policy routing |
| Backends.ConfigurePf | netferry-relay/cmd/tunnel/engine.go:300-308 | the flags the engine gives pf |
| Backends.RootUdpLeavesIff | netferry-relay/cmd/tunnel/engine.go:300-308 | which of root's datagrams leave, for every setting of the engine |
| Backends.CarrierLeavesIff | netferry-relay/cmd/tunnel/engine.go:302-308 | when the tunnel rides on UDP, its own datagrams are let out unless the UDP block is off, the IPv6 block on and the address a public IPv6 one |
| Backends.EffectiveSubnets | netferry-relay/cmd/tunnel/engine.go:271-280 | under --no-ipv6 exactly the IPv4 subnets are kept |
| Backends.NoIPv6BlocksTcp | netferry-relay/cmd/tunnel/engine.go:271-280 | under --no-ipv6 no IPv6 TCP packet to a public address leaves or is captured, on pf, nftables, iptables and TPROXY |
| Backends.NoIPv6CaptureAlike | netferry-relay/cmd/tunnel/engine.go:271-280 | under --no-ipv6 pf and nft capture alike with the IPv6 block on as well |
| Ipv6Lockdown.LockdownIsCrashSafe | netferry-relay/internal/firewall/iface_ipv6_linux.go:30-99 | in every state of every run with deaths between any two steps, torn state files, exits for reconnect, and unreadable state files as long as the live values are the saved ones: the user's values are live or saved |
| Ipv6Lockdown.RunIsSafeIff | netferry-relay/internal/firewall/iface_ipv6_linux.go:30-99 | with unreadable state files at any time: a run keeps them throughout iff no lockdown empties the file right after a fault that hid changed values |
| Ipv6Lockdown.RestoreRecovers | netferry-relay/internal/firewall/iface_ipv6_linux.go:75-99 | wherever a run stands, a completed restore re-establishes the user's values |
| Ipv6Lockdown.FaultSafeIff | netferry-relay/internal/firewall/iface_ipv6_linux.go:75-99 | after a state file that could not be read, the next lockdown is safe iff the fault was benign |
| Ipv6Lockdown.Machine.DisableSystemIPv6 | netferry-relay/internal/firewall/iface_ipv6_linux.go:30-73 | snapshot, file, locks: without a fault outside loopback every `disable_ipv6` is "1" and every `accept_ra` "0" afterwards, with the values before in the file; with one no value changes; a run of the machine, and the exact world it leaves, also when interfaces cannot be listed or the file cannot be opened or written to its end |
| Ipv6Lockdown.Machine.RestoreSystemIPv6 | netferry-relay/internal/firewall/iface_ipv6_linux.go:75-99 | read, write back, remove: a run of the machine, and the exact world it leaves |
| Ipv6Lockdown.Machine.Session | netferry-relay/cmd/tunnel/engine.go:284-429 | start-up restore, lockdown and deferred undo: the world after a session, by how it ends: one that ends to reconnect leaves IPv6 off in the same terms, every other one the values of before |
| Ipv6Lockdown.Machine.Release | netferry-relay/cmd/tunnel/engine.go:142-152 | releasing a kept session restores the user's values |
| ListExpansion.ExpandService | scripts/build_service_catalog.py:76-113 | on every include graph, cyclic ones too: fails iff a reachable visit names a missing list, else returns exactly the scopes of the reachable (list, tags) visits, each visited and counted once |
| ListExpansion.ExpandReading | scripts/build_service_catalog.py:76-113 | the same for any way to read lines in which an include passes on no other tags than its own |
| ListExpansion.ScriptIsSound | scripts/build_service_catalog.py:91-100 | which the script's way is |
| ListExpansion.Expander.Expand | scripts/build_service_catalog.py:76-113 | the recursion with shared `seen` terminates; what one call adds is closed under includes |
| ListExpansion.Expander.ExpandLine | scripts/build_service_catalog.py:91-112 | one line: its branch, its count and its effect on the shared state |
| ListExpansion.SameLinesResult | scripts/build_service_catalog.py:76-113 | the order of lines does not matter to what is reached or contributed |
| ListLines.TokensIff | scripts/build_service_catalog.py:91 | the tokens of a line are the lower-cased words in front of its first `#`, by white space as Python has it |
| ListLines.DirectIff | scripts/build_service_catalog.py:91-112 | exactly which scopes a list contributes: `=h` for `full:h`, and `h` for `domain:h` and the bare `h`, from lines that carry the required tags and are no advertising line to be left out, with `h` spelled out |
| ListLines.EdgeIff | scripts/build_service_catalog.py:95-100 | exactly which lists a line includes, and with which tags |
| ListLines.SkippedIff | scripts/build_service_catalog.py:101-110 | exactly which lines count as unsupported and which as invalid |
| Scopes.NormalizeIdempotent | netferry-desktop/src/lib/ruleGroups.ts:5-13 | normalising a normalised scope changes nothing |
| Scopes.NormalizedShape | netferry-desktop/src/lib/ruleGroups.ts:5-13 | shape of every normalised scope |
| Scopes.UnderIffTail | netferry-desktop/src/lib/ruleGroups.ts:15-21 | the tails a label walk looks up are exactly the values a key equals or lies under |
| Scopes.TailsShrink | netferry-desktop/src/lib/serviceCatalog.ts:34-38 | later tails are shorter, so the first hit is the longest |
| ScopeText.GoodHostIff | netferry-relay/internal/store/rules.go:20-32 | a host is accepted iff it is at most 253 characters, labels of 1 to 63 letters, digits and inner hyphens between dots |
| ScopeText.NormalizeIff | netferry-relay/internal/store/rules.go:13-40 | exactly which inputs are scopes, and which: white space, `=`, case and a last dot are allowed for, and a bare host must be registrable |
| ScopeText.CoversIff | netferry-relay/internal/store/rules.go:43-52 | `=host` covers that host alone, a bare scope itself and what ends in a dot and it |
| ScopeText.KeyIff | netferry-relay/internal/store/rules.go:50 | hosts are looked up in lower case without a last dot |
| CatalogIndex.Index.constructor | netferry-relay/internal/catalog/catalog.go:79-81 | an empty index holds no line |
| CatalogIndex.Index.Add | netferry-relay/internal/catalog/catalog.go:83-97 | the maps stay the index of the lines added so far |
| CatalogIndex.Index.Identify | netferry-relay/internal/catalog/catalog.go:99-115 | map lookups along the labels give what a linear scan over all lines gives |
| CatalogIndex.IdentifiedIff | netferry-desktop/src/lib/serviceCatalog.ts:29-40 | the scan finds a scope iff some listed scope covers the host (`*.` hosts aside), and none beats it: exact, then longest |
| CatalogIndex.ScanFindsBest | netferry-desktop/src/lib/serviceCatalog.ts:29-40 | the scan's result is a best covering line |
| CatalogIndex.BestIff | netferry-relay/internal/catalog/catalog.go:100-115 | the best line is the exact one if it is listed, else the longest that covers the host |
| CatalogIndex.Load | netferry-relay/internal/catalog/catalog.go:127-150 | loading indexes every domain of every service, in catalog order |
| CatalogIndex.OwnerIsFirstService | netferry-desktop/src/lib/serviceCatalog.ts:17-27 | the owner of a scope is the first service that lists it |
| CatalogIndex.CatalogIsNormal | netferry-relay/internal/catalog/catalog.go:83-97 | every indexed scope is in normal form |
| CatalogIndex.ListedMatches | netferry-desktop/src/lib/ruleGroups.ts:15-21 | a catalog scope covers a host iff it matches it as a rule-group domain |
| CatalogIndex.SuggestServiceGroups | netferry-relay/internal/catalog/catalog.go:172-211 | hosts no rule group covers are grouped under the owner of their scope |
| CatalogIndex.SuggestionsPartition | netferry-relay/internal/catalog/catalog.go:172-211 | the suggestions partition the uncovered identifiable hosts |
| CatalogIndex.SavedSuggestionIsSettled | netferry-desktop/src/lib/serviceCatalog.ts:42-58 | once saved as a rule group, a suggestion's hosts are never suggested again |
| RouteTable.CompiledRoutes.Compile | netferry-relay/internal/stats/routes.go:108-149 | the compiled maps hold overrides and the lowest group of every scope |
| RouteTable.CompiledRoutes.Lookup | netferry-relay/internal/stats/routes.go:152-185 | lookup equals asking the groups in order |
| RouteTable.LowestIsFirst | netferry-relay/internal/stats/routes.go:152-185 | the lowest index over all covering scopes is the first matching group |
| RouteAnswer.ResolveIs | netferry-desktop/src/lib/ruleGroups.ts:24-63 | the answer spelled out: the key's own override, else the longest `*.` one, else what the text of the first covering group says, else direct iff the final text says so |
| RouteAnswer.EmptyKeyUnused | netferry-desktop/src/lib/ruleGroups.ts:51-63 | an override with an empty key has no effect |
| RouteAnswer.RelayKey | netferry-relay/internal/stats/routes.go:97-99 | the relay looks hosts up as the desktop does, without white space around them |
| RouteAgreement.LookupFresh | netferry-relay/internal/stats/routes.go:108-194 | compiling a table and looking a host up gives the relay's route, and the desktop's when the overrides have the same effect in both |
| RouteAgreement.OverridesAgreeIff | netferry-desktop/src/lib/ruleGroups.ts:24-63 | relay and desktop resolve every host alike, whatever groups and final route, iff every override key as typed has the same effect in both |
| RouteAgreement.KeysAgreeIff | netferry-desktop/src/lib/ruleGroups.ts:24-63 | on those tables a normalised key, wildcards included, is resolved alike iff it is not a `*.` key with three or more labels |
| RouteAgreement.TypedKeyIsLost | netferry-desktop/src/stores/ruleStore.ts:168-169 | an override typed in another form than its normal one counts for the relay and not for the desktop |
| RouteAgreement.ExampleIsLost | netferry-relay/internal/stats/routes.go:113-120 | `Example.com`, for one |
| RouteAgreement.CleanKeysSameEffect | netferry-relay/internal/stats/routes.go:113-120 | keys in normal form always have the same effect |
| RouteAgreement.LookableIff | netferry-relay/internal/stats/routes.go:187-194 | exactly which keys hosts are looked up by |
| QrChunks.SplitIntoChunks | netferry-desktop/src/components/QrCodeExportDialog.tsx:13-21 | the chunks are the numbered slices of the data |
| QrChunks.ParseEncoded | netferry-relay/mobile/crypto.go:110-139 | parsing an encoded chunk gives its parts back, numbers cut to 32 bits |
| QrText.ChunkIs | netferry-desktop/src/components/QrCodeExportDialog.tsx:13-21 | chunk i of n is `NF:i/n:` and the i-th thousand characters, and n thousands are just enough |
| QrText.ParseIff | netferry-relay/mobile/crypto.go:110-139 | exactly which texts are chunks: signed 64-bit numbers, cut to 32 bits |
| QrChunks.ImportFromQR | netferry-relay/mobile/crypto.go:144-181 | collecting and assembling, with every error branch |
| QrChunks.ImportOwn | netferry-relay/mobile/crypto.go:144-181 | scanned in any order with repeats, the data comes back iff every chunk was scanned; otherwise the import fails |
| QrChunks.RoundTripIff | netferry-desktop/src/components/QrCodeExportDialog.tsx:13-21 | with every chunk scanned the data comes back iff it needs fewer than 2^31-1 chunks, which is more than a JavaScript string can hold |
| QrChunks.TooManyChunks | netferry-relay/mobile/crypto.go:169-181 | beyond that nothing scanned ever gives the data |
| QrChunks.SuccessUsesExactIndices | netferry-relay/mobile/crypto.go:144-181 | any successful import with a positive total used exactly the indices 1 to total |
| QrChunks.NonPositiveTotalNeedsHugeScan | netferry-relay/mobile/crypto.go:144-181 | other totals need more than two thousand million chunks |
| MuxFraming.WriteMsg | netferry-relay/cmd/server/main.go:517-523 | writes the frame: length cut to 16 bits, then the payload |
| MuxFraming.ReadMsgBuf | netferry-relay/cmd/server/main.go:527-541 | one read takes what the read function says, and leaves the rest |
| MuxBytes.FrameIs | netferry-relay/cmd/server/main.go:517-523 | the two length bytes, higher first, and the payload |
| MuxBytes.ServerReadIff | netferry-relay/cmd/server/main.go:527-541 | exactly which bytes are read as a payload, as a half-close, or as the end of input |
| MuxBytes.ClientReadIff | netferry-relay/internal/mux/protocol.go:118-140 | 255, 255 and a frame is an error of the other side; everything else is read as by the server |
| MuxFraming.ServerReadsFrameIff | netferry-relay/cmd/server/main.go:517-541 | a frame is read back, whatever follows, iff the payload is below 65536 bytes |
| MuxFraming.ClientReadsFrameIff | netferry-relay/internal/mux/protocol.go:118-140 | the client reads a server frame back iff it has at most 65534 bytes |
| MuxFraming.ServerReadsAll | netferry-relay/cmd/server/main.go:517-541 | reading to the end returns exactly the payloads written, only empty ones as half-close |
| MuxFraming.ClientReadsAll | netferry-relay/internal/mux/protocol.go:118-140 | same for the client |
| MuxFraming.RelayToMux | netferry-relay/cmd/server/main.go:383-401 | every non-empty read becomes a frame, the end a half-close; on a stream that goes down, the bytes up to there |
| MuxFraming.RelayToRemote | netferry-relay/cmd/server/main.go:360-381 | payloads are written until a half-close, which closes the write side, the end of input, or a write that fails |
| MuxFraming.RelayIsTransparent | netferry-relay/cmd/server/main.go:360-405 | however the connection's bytes are cut into reads, the client gets exactly them and one half-close |
| MuxFraming.ClientWrite | netferry-relay/internal/mux/client.go:359-384 | the frames of the chunks as far as the stream takes them; succeeds iff it takes them all, and then counts every byte |
| MuxFraming.ChunksJoin | netferry-relay/internal/mux/client.go:359-384 | the chunks are non-empty, fit a frame and join to the bytes |
| MuxFraming.UploadBytes | netferry-relay/internal/mux/client.go:359-393 | write and half-close |
| MuxFraming.UploadIsTransparent | netferry-relay/internal/mux/client.go:359-393 | wherever the upload is cut off, the server's relay writes a prefix of the client's bytes, and closes the write side iff all of it arrived, after all the bytes |
| MuxFraming.DownloadIsTransparent | netferry-relay/cmd/server/main.go:360-405 | same for the client, however the connection's bytes are cut into reads |
| MuxFraming.DatagramRoundTrip | netferry-relay/cmd/server/main.go:470-511 | the `ip,port,raw` header decodes back for any raw bytes |
| MuxBytes.DatagramIff | netferry-relay/cmd/server/main.go:470-511 | a datagram is address, comma, port, comma, data, with no comma in the first two |
| MuxFraming.DecodedIsEncoded | netferry-relay/cmd/server/main.go:487-511 | whatever decodes is the encoding of what it decodes to |
| MuxFraming.DatagramDeliveredIff | netferry-relay/cmd/server/main.go:470-485 | a datagram reaches the client intact iff header and data fit in 65534 bytes |
| MuxFraming.Ipv4DatagramDelivered | netferry-relay/cmd/server/main.go:470-485 | every IPv4 datagram does |
| MuxFraming.LargeIpv6DatagramLost | netferry-relay/cmd/server/main.go:470-485 | the largest IPv6 ones do not |
| Routes.Route.AsFinal | netferry-desktop/src-tauri/src/models.rs:151-158 | a final route is never blocked; others stay |
| LegacyRules.MergeLegacyGroups | netferry-desktop/src-tauri/src/rules.rs:124-173 | the loops compute the merge the lemmas speak about |
| LegacyRules.HostRouteIff | netferry-desktop/src-tauri/src/rules.rs:124-146 | a host has a route iff some group decides it: the active one if it defines the host, else the greatest id defining it (the later of equal ids) |
| LegacyRules.RuleGroupIff | netferry-desktop/src-tauri/src/rules.rs:148-155 | a rule group survives iff it is the first with its id in the active group, else in the smallest id holding one |
| LegacyRules.RuleGroupOrder | netferry-desktop/src-tauri/src/rules.rs:148-155 | ids are unique; the active group's rule groups come first in their order |
| LegacyRules.FinalRouteIff | netferry-desktop/src-tauri/src/rules.rs:157-160 | direct iff the active group says direct; never blocked |
| LegacyRules.KnownHostsNewest | netferry-desktop/src-tauri/src/rules.rs:162-170 | no repeats; the last thousand of the first-occurrence order |
| LegacyRules.MergedIsNormal | netferry-desktop/src-tauri/src/rules.rs:54-66 | writing and reading the merged set changes nothing |
| LegacyRules.OrderIndependent | netferry-desktop/src-tauri/src/rules.rs:124-173 | with distinct ids, permuting the input groups changes nothing |
| LegacyJson.HostByJson | netferry-desktop/src-tauri/src/rules.rs:77-89 | in the files' JSON alone: a host is in the merged rules iff some file has a rule for it; its route is direct or blocked iff the text of the file with the last word, a string or the `kind` of an object, says so give or take case and white space |
| LegacyJson.FinalByJson | netferry-desktop/src-tauri/src/rules.rs:99-105 | the final route is direct iff the active file's JSON says so, and never blocked |
| LegacyJson.RuleGroupByJson | netferry-desktop/src-tauri/src/rules.rs:90-98 | a rule group is kept iff it is, field by field, the first entry with its id in the file that decides that id |
| LegacyJson.KnownHostsOfOne | netferry-desktop/src-tauri/src/rules.rs:106-115 | of one file the last thousand of the first occurrences of its strings are kept, in order |
| LegacyJson.KnownHostsByJson | netferry-desktop/src-tauri/src/rules.rs:162-170 | a known host comes from some file's JSON, and below a thousand none is lost |
| Sorting.StableSortIsStable | netferry-desktop/src-tauri/src/rules.rs:138 | equal keys keep their order |
| Sorting.SortedIsUnique | netferry-desktop/src-tauri/src/rules.rs:138 | any stable sort gives this result |
| RulesMigration.NothingLostBeforeMigration | netferry-desktop/src-tauri/src/groups.rs:70-87 | over all runs: while `rules.json` is absent no group file has been rewritten or deleted |
| RulesMigration.CreatedRulesSeeEverything | netferry-desktop/src-tauri/src/rules.rs:252-298 | rules created by anything but `save_rules` are the merge of all original group files, plus the flat routes when `migrate_v2` creates them |
| RulesMigration.OnlySavesChangeRules | netferry-desktop/src-tauri/src/rules.rs:300-308 | once `rules.json` exists only `save_rules` changes it |
| RulesMigration.SavesAfterLoadMerge | netferry-desktop/src-tauri/src/rules.rs:252-308 | in every run in which rules are saved only when there are some, `rules.json` was created as the merge of all original group files and changed by saves alone |
| RulesMigration.SaveBeforeMergeWins | netferry-desktop/src-tauri/src/rules.rs:306-308 | the other half: a `save_rules` over missing rules is final, the old ones are never merged later |
| RulesApp.App.LoadRules | netferry-desktop/src/stores/ruleStore.ts:129-156 | the window's copy is what is on disk, and only then counts as loaded |
| RulesApp.App.Update | netferry-desktop/src/stores/ruleStore.ts:111-123 | nothing is saved before the first load |
| RulesApp.App.Restart | netferry-desktop/src/stores/ruleStore.ts:125-128 | a new process starts on what is on disk, with nothing loaded |
| RulesApp.AppLosesNothing | netferry-desktop/src/stores/ruleStore.ts:111-156 | for every app, whatever it went through from a disk without `rules.json`: no group file was touched yet, or the rules were made as the merge of all the original ones |
| RulesMigration.CreatedRulesAreDetermined | netferry-desktop/src-tauri/src/rules.rs:195-224 | with distinct file ids the created rules do not depend on the directory order |
| GroupFiles.RewrittenFileHasNoRules | netferry-desktop/src-tauri/src/models.rs:198-217 | a rewritten group file contributes nothing to a merge |
| GroupFiles.GroupIff | netferry-desktop/src-tauri/src/models.rs:198-231 | a file decodes to a group iff its JSON fields say so: the references are the stored ones, or the ids of the embedded profiles in order when there are none |
| GroupFiles.EmbedsIff | netferry-desktop/src-tauri/src/models.rs:223-231 | a file is rewritten iff `children` holds anything |
| GroupFiles.GroupReadsBack | netferry-desktop/src-tauri/src/groups.rs:52-77 | a saved group reads back as itself and as no other, and is not rewritten again |
| RulesMigration.LoadsSame | netferry-desktop/src-tauri/src/groups.rs:52-68 | loading again after the write-back gives the same group |
| RulesMigration.ListsSame | netferry-desktop/src-tauri/src/groups.rs:26-50 | listing again after the write-backs gives the same |
| RulesMigration.RawGroupsAre | netferry-desktop/src-tauri/src/rules.rs:195-224 | a listing gives every file that is not blank under its string `id`, else its stem |
| RulesMigration.RawGroupsFail | netferry-desktop/src-tauri/src/rules.rs:195-224 | and nothing iff one does not parse |
| RulesMigration.LoadedIs | netferry-desktop/src-tauri/src/rules.rs:227-237 | what a rules file is read as: its set with the final route direct or tunnel and the newest thousand hosts, no rules when blank, nothing when corrupt |
| RulesMigration.FlatRoutesMerge | netferry-desktop/src-tauri/src/migrate_v2.rs:39-55 | the flat routes are merged as the group `default`, each with the route its text says |
| RulesMigration.Disk.ReadRawGroups | netferry-desktop/src-tauri/src/rules.rs:195-224 | every file of a listing, or nothing when one does not parse |
| RulesMigration.Disk.WriteRulesFile | netferry-desktop/src-tauri/src/rules.rs:239-250 | old or complete new content under any failing or torn operation |
| RulesMigration.Disk.LoadRulesIn | netferry-desktop/src-tauri/src/rules.rs:252-275 | the file as it is, or the merge of what is there; never touches group files |
| RulesMigration.Disk.LoadRules | netferry-desktop/src-tauri/src/rules.rs:288-304 | a guarded step; success means the file exists and holds what is returned |
| RulesMigration.Disk.SaveRules | netferry-desktop/src-tauri/src/rules.rs:306-308 | a save step |
| RulesMigration.Disk.ListGroups | netferry-desktop/src-tauri/src/groups.rs:26-50 | a guarded step, write-backs of old layouts included; when old files are named by their ids, what is returned is, in the JSON of the files, one group for every file that is not blank, stably sorted by name, or failure when one is no group; untorn, old files are then written back as those groups and nothing else changes |
| RulesMigration.Disk.LoadGroup | netferry-desktop/src-tauri/src/groups.rs:52-68 | a guarded step; returns the group the file's JSON says, or nothing; what it writes back, and that it does when all works |
| RulesMigration.Disk.SaveGroup | netferry-desktop/src-tauri/src/groups.rs:70-77 | a guarded step that touches one file; success writes it with rules in place |
| RulesMigration.Disk.DeleteGroup | netferry-desktop/src-tauri/src/groups.rs:79-87 | a guarded step that removes at most that file |
| RulesMigration.Disk.MigrateV2 | netferry-desktop/src-tauri/src/migrate_v2.rs:29-79 | a guarded step with the flat routes; does nothing when the sentinel exists, and otherwise leaves the group `default` of all profiles |
| SshConfig.ParseSshConfig | netferry-desktop/src-tauri/src/ssh_config.rs:69-185 | the line loop computes the block-level result |
| SshConfig.ReadLine | netferry-desktop/src-tauri/src/ssh_config.rs:84-140 | one line keeps the open block, the defaults and the entries in step with the blocks read |
| SshConfig.CloseBlock | netferry-desktop/src-tauri/src/ssh_config.rs:88-113 | a `Host` line closes the open block |
| SshConfig.CloseLast | netferry-desktop/src-tauri/src/ssh_config.rs:142-162 | the end of the text closes it too, host name aside |
| SshConfig.FillAll | netferry-desktop/src-tauri/src/ssh_config.rs:164-181 | defaults fill the missing fields |
| SshConfig.LastValueIff | netferry-desktop/src-tauri/src/ssh_config.rs:131-139 | a block's value of a key is its last setting of it |
| SshConfig.DefaultIsEarliest | netferry-desktop/src-tauri/src/ssh_config.rs:88-113 | a default is that of the earliest wildcard block that has the field |
| SshConfig.FieldOfHost | netferry-desktop/src-tauri/src/ssh_config.rs:164-181 | a host has its own value, else the earliest wildcard's |
| SshConfig.OutputOrder | netferry-desktop/src-tauri/src/ssh_config.rs:183-184 | sorted by host, equal hosts in file order, exactly the filled host blocks |
| SshConfig.WildcardsMoveFreely | netferry-desktop/src-tauri/src/ssh_config.rs:69-185 | moving wildcard blocks past host blocks in the text changes nothing |
| SshConfig.PreambleIgnored | netferry-desktop/src-tauri/src/ssh_config.rs:127-129 | lines before the first `Host` line have no effect |
| SshConfig.GetDefaultIdentityFile | netferry-desktop/src-tauri/src/ssh_config.rs:35-58 | the first `IdentityFile` of the wildcard blocks |
| SshConfig.DefaultIdentitiesAgreeIff | netferry-desktop/src-tauri/src/ssh_config.rs:35-58 | agrees with the entries' default iff the earliest naming block starts and ends with the same |
| SshFields.ParseKvIff | netferry-desktop/src-tauri/src/ssh_config.rs:5-18 | exactly which lines are settings, with which key and value |
| SshFields.FieldsSay | netferry-desktop/src-tauri/src/ssh_config.rs:131-139 | which setting fills which field of a host, host name included, each by its last value |
| SshFields.HostNameStays | netferry-desktop/src-tauri/src/ssh_config.rs:164-181 | the host name is the block's own, never a default |
| SshFields.PortIff | netferry-desktop/src-tauri/src/ssh_config.rs:134 | a port is a decimal number below 65536, leading zeros and a plus sign allowed |
| SshFields.TildeIs | netferry-desktop/src-tauri/src/ssh_config.rs:26-34 | what `~` and `~/` become |
| SshFields.WildcardIff | netferry-desktop/src-tauri/src/ssh_config.rs:20-24 | a host is a wildcard iff each of its words is negated or has `*` or `?` |
| TunnelArgs.BuildArgs | netferry-desktop/src-tauri/src/sidecar.rs:464-581 | the argument list: options in order, then the non-blank subnets |
| TunnelArgs.CollectExcludes | netferry-desktop/src-tauri/src/sidecar.rs:535-562 | local /16 networks and trimmed excludes, each once |
| TunnelArgs.PushPort | netferry-desktop/src-tauri/src/sidecar.rs:447-462 | a LAN port flag is written iff the port is set and positive |
| TunnelArgs.ReadExcludes | netferry-relay/cmd/tunnel/cliconfig.go:223-231 | the trimmed non-empty pieces |
| TunnelArgs.ParseEmitted | netferry-relay/cmd/tunnel/cliconfig.go:20-51 | the flag parser takes exactly the written options, whatever their values look like |
| TunnelArgs.ExcludesRoundTripIff | netferry-relay/cmd/tunnel/cliconfig.go:223-231 | the exclude list comes back iff no exclude holds a comma |
| TunnelArgs.RoundTripIff | netferry-relay/cmd/tunnel/cliconfig.go:20-259 | the whole configuration comes back iff there is a remote, the first subnet is not flag-like and no exclude holds a comma |
| TunnelArgs.SpellingIs | netferry-relay/cmd/tunnel/cliconfig.go:20-51 | the flags the app writes, one by one, are the names the flag package registers |
| TunnelArgs.AssignedSwitch | netferry-relay/cmd/tunnel/cliconfig.go:20-51 | a switch with a value behind `=`: exactly which values turn it on or off |
| TunnelArgs.LanCidrIff | netferry-desktop/src-tauri/src/sidecar.rs:540-551 | an address is excluded as its first two numbers and `.0.0/16`, unless it is 127.x or 169.254.x |
| TunnelArgs.WantedByFields | netferry-desktop/src-tauri/src/sidecar.rs:464-581 | what counts as given: texts with anything but white space, ports above 0, and the identity file only without an inline key |
| PoolReconnect.RunInv | netferry-relay/cmd/tunnel/muxbuilder.go:228-303 | in every run of every pool each pause is that of its attempt, backoff starts anew in each outage, and the first member to give up has its error in the channel or received |
| PoolReconnect.TenPauses | netferry-relay/cmd/tunnel/muxbuilder.go:251-289 | the pauses: 5, 10, 20, 40, then 60 seconds |
| PoolReconnect.DeadAfterTen | netferry-relay/cmd/tunnel/muxbuilder.go:267-281 | a dead member's last ten dials failed, after 435 seconds of waiting |
| PoolReconnect.DeadIff | netferry-relay/cmd/tunnel/muxbuilder.go:267-281 | dead iff ten dials in a row failed |
| PoolReconnect.DeadStays | netferry-relay/cmd/tunnel/muxbuilder.go:280 | dead is terminal |
| PoolReconnect.SlotHoldsLast | netferry-relay/cmd/tunnel/muxbuilder.go:293-294 | a slot holds the client of its member's last successful dial |
| PoolReconnect.Pool.ReconnectPoolMember | netferry-relay/cmd/tunnel/muxbuilder.go:237-303 | the nested loops follow the machine: pauses, slot, state and channel |
| PoolReconnect.Pool.Retry | netferry-relay/cmd/tunnel/muxbuilder.go:267-301 | one outage |
| PoolReconnect.PlayInv | netferry-relay/cmd/tunnel/muxbuilder.go:237-303 | what the loops follow keeps the schedule |
| PoolReconnect.MemberIsPlay | netferry-relay/cmd/tunnel/muxbuilder.go:228-303 | in every run of the pool, each member is where the loops are after the outcomes of that member's dials, whatever the others do |
| PoolReconnect.PlayIsRun | netferry-relay/cmd/tunnel/muxbuilder.go:228-303 | and whatever outcomes the loops are given, some run of the pool comes to the same end |

## Left out

- CIDR text: `net.ParseCIDR`, `ParseSubnetRule` and malformed excludes; inputs are parsed networks.
- A port range with low above high: nft refuses such a table; the model takes it as matching nothing.
- The text of the rules, pf's enable token, `keep state`, counters and connection flushing.
- The iptables form of TPROXY (`setupIpt`).
- Generic UDP proxying through TPROXY; only TCP and DNS are captured in the model.
- NftMethod.Method.Setup: the deletion of a leftover table before loading is taken to work; otherwise the new chains would be appended to the old ones.
- Kernels that accept a second, equal `ip rule`; in the model adding what is there fails.
- TproxyMethod.Method.CleanStaleAnchors: leaves out the iptables half, which issues the commands of the iptables backend's `Restore`.
- TproxyMethod.Method.Setup: takes the deletion of a leftover table to work, as NftMethod.Method.Setup does.
- RouteAgreement.OverridesAgreeIff: speaks of hosts without surrounding white space, which the relay trims and the desktop does not. A lookup in a JavaScript record also finds inherited names such as `constructor` and `__proto__`; the model's maps have only their own keys.
- Kernel propagation of the `conf/all` and `conf/default` sysctls, failing writes of single sysctls, interfaces that come and go, and the macOS and Windows forms of the lockdown.
- The public-suffix lookup is an arbitrary predicate; text is ASCII.
- CatalogIndex.SuggestServiceGroups: leaves out the display order of suggestions and of their domains, which are sets in the model, and uses the position of a service where the desktop uses its id, so two services with one id are not merged.
- Routing-scope suggestions.
- Line splitting, JSON text, AES-GCM and base64; JSON values are data with whole numbers, reading a group file does not fail, and a profile embedded in a group file is decoded by an arbitrary function.
- Blocking and partial reads of streams: a stream is the bytes written and not yet read. Dialling, smux, DNS forwarding, writing to a closed client connection and error frames sent by the server are not modelled.
- RulesMigration.Disk.ListGroups: does not say which groups are listed when an old file is not named by its id, because its write-back may change a file that is read later.
- Commands of the desktop app running at the same time, and loss of power between a write and its rename; a process may die at every file operation.
- `--profile` files and their defaults, inline keys passed by environment, and the checks after the flags are read. `strconv.ParseInt` is any parser that reads plain decimals.
- LegacyRules.OrderIndependent: needs distinct ids, because with equal ids the code takes the first as active and the later one on conflicts, which depends on the order.
- Pool members whose state is not tracked, and how long a client runs; time is the pauses alone.
- React components, tray, themes, statistics display, probes and benchmarks.
