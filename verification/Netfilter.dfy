/**
 The Linux rule language shared by the nftables and iptables backends, and its evaluation.

 A chain is walked in order. `return`, `redirect`, `tproxy ... accept` and `reject` end the walk;
 setting the mark does not.
 */
module Netfilter {
  import opened Wrappers
  import opened Net

  /** The SO_MARK of the tunnel's own direct dials. */
  const BYPASS_MARK: nat := 0x4e46

  datatype Dest = AnyOf(family: Family) | InNet(net: Cidr) | InSet(family: Family, addrs: seq<Bits>)
      | OneHost(family: Family, addr: Bits)

  datatype L4 = AnyL4 | TcpPort(ports: PortMatch) | UdpPort(ports: PortMatch)

  datatype Match = IsLocal | HasMark(mark: nat) | To(dest: Dest, l4: L4)

  datatype Verdict = Return | Redirect(port: int) | SetMark(mark: nat) | TProxy(port: int, mark: nat) | Reject

  datatype Rule = Rule(cond: Match, verdict: Verdict)

  predicate DestMatches(dest: Dest, p: Packet) {
    match dest
    case AnyOf(family) => p.family == family
    case InNet(net) => Covers(net, p.family, p.dst)
    case InSet(family, addrs) => p.family == family && p.dst in addrs
    case OneHost(family, addr) => p.family == family && p.dst == addr
  }

  predicate L4Matches(l4: L4, p: Packet) {
    match l4
    case AnyL4 => true
    case TcpPort(ports) => p.proto == Tcp && PortMatches(ports, p.dport)
    case UdpPort(ports) => p.proto == Udp && PortMatches(ports, p.dport)
  }

  predicate Matches(cond: Match, p: Packet, mark: nat) {
    match cond
    case IsLocal => p.dstLocal
    case HasMark(m) => mark == m
    case To(dest, l4) => DestMatches(dest, p) && L4Matches(l4, p)
  }

  /** How the walk of a chain stands: the verdict that ended it, if any, and the packet's mark. */
  datatype State = State(end: Option<Verdict>, mark: nat)

  function Apply(v: Verdict, st: State): State {
    match v
    case SetMark(m) => st.(mark := m)
    case TProxy(_, m) => State(Some(v), m)
    case _ => st.(end := Some(v))
  }

  function Step(p: Packet, st: State, rule: Rule): State {
    if st.end.Some? || !Matches(rule.cond, p, st.mark) then st else Apply(rule.verdict, st)
  }

  function Run(p: Packet, st: State, rules: seq<Rule>): State {
    if rules == [] then st
    else Step(p, Run(p, st, rules[..|rules| - 1]), rules[|rules| - 1])
  }

  /** A walk from the packet's own mark. */
  function Walk(p: Packet, rules: seq<Rule>): State {
    Run(p, State(None, p.mark), rules)
  }

  // ---- the rule groups every Linux backend emits

  function ExcludeRule(c: Cidr): Rule {
    Rule(To(InNet(c), AnyL4), Return)
  }

  function ExcludeRules(excludes: seq<Cidr>): seq<Rule> {
    if excludes == [] then []
    else
      var n := |excludes| - 1;
      ExcludeRules(excludes[..n]) + [ExcludeRule(excludes[n])]
  }

  function CaptureRule(s: SubnetRule, proxyPort: int, v: Verdict): Rule {
    Rule(To(InNet(s.cidr), TcpPort(s.LinuxPort(proxyPort))), v)
  }

  function CaptureRules(subnets: seq<SubnetRule>, proxyPort: int, v: Verdict): seq<Rule> {
    if subnets == [] then []
    else
      var n := |subnets| - 1;
      CaptureRules(subnets[..n], proxyPort, v) + [CaptureRule(subnets[n], proxyPort, v)]
  }

  function DnsRule(inp: FirewallInput, family: Family, v: Verdict): seq<Rule> {
    if DnsOn(inp, family)
    then [Rule(To(InSet(family, ServersOf(inp.dnsServers, family)), UdpPort(PortRange(53, 53))), v)]
    else []
  }

  /** One family's DNS redirects as iptables writes them: a rule per server. */
  function HostDnsRules(servers: seq<Bits>, family: Family, v: Verdict): seq<Rule> {
    if servers == [] then []
    else
      var n := |servers| - 1;
      HostDnsRules(servers[..n], family, v) +
      [Rule(To(OneHost(family, servers[n]), UdpPort(PortRange(53, 53))), v)]
  }

  /** Keeps local traffic and the tunnel's own dials out of everything below. */
  const GUARDS: seq<Rule> := [Rule(IsLocal, Return)] + [Rule(HasMark(BYPASS_MARK), Return)]

  /** The whitelist and reject of the IPv6 block. */
  const BLOCK6: seq<Rule> :=
    [Rule(To(InNet(LOOPBACK6), AnyL4), Return)] + [Rule(To(InNet(LINK_LOCAL6), AnyL4), Return)] +
    [Rule(To(InNet(MULTICAST6), AnyL4), Return)] + [Rule(To(AnyOf(V6), AnyL4), Reject)]

  // ---- walking them

  lemma {:induction false} RunAppend(p: Packet, st: State, a: seq<Rule>, b: seq<Rule>)
    ensures Run(p, st, a + b) == Run(p, Run(p, st, a), b)
  {
    if b == [] {
      assert a + b == a;
    } else {
      var n := |b| - 1;
      RunAppend(p, st, a, b[..n]);
      assert (a + b)[..|a + b| - 1] == a + b[..n];
    }
  }

  lemma RunSnoc(p: Packet, st: State, rules: seq<Rule>, rule: Rule)
    ensures Run(p, st, rules + [rule]) == Step(p, Run(p, st, rules), rule)
  {
    assert (rules + [rule])[..|rules|] == rules;
  }

  lemma {:induction false} RunEnded(p: Packet, st: State, rules: seq<Rule>)
    requires st.end.Some?
    ensures Run(p, st, rules) == st
  {
    if rules != [] {
      RunEnded(p, st, rules[..|rules| - 1]);
    }
  }

  ghost predicate SomeExclude(excludes: seq<Cidr>, p: Packet) {
    exists c :: c in excludes && Covers(c, p.family, p.dst)
  }

  ghost predicate SomeCapture(subnets: seq<SubnetRule>, proxyPort: int, p: Packet) {
    exists s :: s in subnets && Covers(s.cidr, p.family, p.dst) && PortMatches(s.LinuxPort(proxyPort), p.dport)
  }

  lemma {:induction false} RunExcludes(p: Packet, st: State, excludes: seq<Cidr>)
    ensures Run(p, st, ExcludeRules(excludes)) ==
            if st.end.None? && SomeExclude(excludes, p) then Apply(Return, st) else st
  {
    if excludes != [] {
      var n := |excludes| - 1;
      RunExcludes(p, st, excludes[..n]);
      RunSnoc(p, st, ExcludeRules(excludes[..n]), ExcludeRule(excludes[n]));
      assert forall c :: c in excludes <==> c in excludes[..n] || c == excludes[n];
    }
  }

  lemma {:induction false} RunCaptures(p: Packet, st: State, subnets: seq<SubnetRule>, proxyPort: int, v: Verdict)
    ensures Run(p, st, CaptureRules(subnets, proxyPort, v)) ==
            if st.end.None? && p.proto == Tcp && SomeCapture(subnets, proxyPort, p) then Apply(v, st) else st
  {
    if subnets != [] {
      var n := |subnets| - 1;
      RunCaptures(p, st, subnets[..n], proxyPort, v);
      RunSnoc(p, st, CaptureRules(subnets[..n], proxyPort, v), CaptureRule(subnets[n], proxyPort, v));
      assert forall s :: s in subnets <==> s in subnets[..n] || s == subnets[n];
    }
  }

  lemma {:induction false} RunHostDns(p: Packet, st: State, servers: seq<Bits>, family: Family, v: Verdict)
    ensures Run(p, st, HostDnsRules(servers, family, v)) ==
            if st.end.None? && p.proto == Udp && p.dport == 53 && p.family == family && p.dst in servers
            then Apply(v, st) else st
  {
    if servers != [] {
      var n := |servers| - 1;
      RunHostDns(p, st, servers[..n], family, v);
      RunSnoc(p, st, HostDnsRules(servers[..n], family, v),
              Rule(To(OneHost(family, servers[n]), UdpPort(PortRange(53, 53))), v));
      assert forall a :: a in servers <==> a in servers[..n] || a == servers[n];
    }
  }

  lemma RunGuards(p: Packet)
    ensures Walk(p, GUARDS) == if p.dstLocal || p.mark == BYPASS_MARK then State(Some(Return), p.mark)
                               else State(None, p.mark)
  {
    var local := [Rule(IsLocal, Return)];
    var own := [Rule(HasMark(BYPASS_MARK), Return)];
    assert local[..0] == [] && own[..0] == [];
    RunAppend(p, State(None, p.mark), local, own);
  }

  lemma RunBlock6(p: Packet, mark: nat)
    ensures Run(p, State(None, mark), BLOCK6).end ==
            if p.family == V6 then Some(if Whitelisted6(p.dst) then Return else Reject) else None
  {
    var loop := [Rule(To(InNet(LOOPBACK6), AnyL4), Return)];
    var link := [Rule(To(InNet(LINK_LOCAL6), AnyL4), Return)];
    var multi := [Rule(To(InNet(MULTICAST6), AnyL4), Return)];
    var all := [Rule(To(AnyOf(V6), AnyL4), Reject)];
    var st := State(None, mark);
    assert loop[..0] == [] && link[..0] == [] && multi[..0] == [] && all[..0] == [];
    RunAppend(p, st, loop, link);
    RunAppend(p, st, loop + link, multi);
    RunAppend(p, st, loop + link + multi, all);
  }

  // ---- from the split lists back to the input

  lemma ExcludesOfFamily(inp: FirewallInput, family: Family, p: Packet)
    ensures SomeExclude(CidrsOf(inp.excludes, family), p) <==> family == p.family && Excluded(inp, p)
  {
    if c :| c in CidrsOf(inp.excludes, family) && Covers(c, p.family, p.dst) {
      CidrsOfIff(inp.excludes, family, c);
    }
    if c :| family == p.family && c in inp.excludes && Covers(c, p.family, p.dst) {
      CidrsOfIff(inp.excludes, family, c);
    }
  }

  lemma CapturesOfFamily(inp: FirewallInput, family: Family, p: Packet)
    ensures SomeCapture(SubnetsOf(inp.subnets, family), inp.proxyPort, p) <==>
            family == p.family && InSubnetsBesideProxy(inp, p)
  {
    if s :| s in SubnetsOf(inp.subnets, family) && Covers(s.cidr, p.family, p.dst) &&
            PortMatches(s.LinuxPort(inp.proxyPort), p.dport) {
      SubnetsOfIff(inp.subnets, family, s);
    }
    if s :| family == p.family && s in inp.subnets && Covers(s.cidr, p.family, p.dst) &&
            (if s.HasPortRange() then s.portLow <= p.dport <= s.portHigh else p.dport != inp.proxyPort) {
      SubnetsOfIff(inp.subnets, family, s);
    }
  }

  lemma RunDns(p: Packet, st: State, inp: FirewallInput, family: Family, v: Verdict)
    ensures Run(p, st, DnsRule(inp, family, v)) ==
            if st.end.None? && family == p.family && IsDnsQuery(inp, p) then Apply(v, st) else st
  {
    ServersOfIff(inp.dnsServers, family, p.dst);
    var rules := DnsRule(inp, family, v);
    if rules != [] {
      assert rules[..0] == [];
    }
  }

  // ---- the body shared by all nftables chains of the nft and tproxy backends

  /** Excludes, then captures, then DNS, IPv4 before IPv6 in each. */
  function Body(inp: FirewallInput, capture: Verdict, dns: Verdict): seq<Rule> {
    ExcludeRules(CidrsOf(inp.excludes, V4)) + ExcludeRules(CidrsOf(inp.excludes, V6)) +
    CaptureRules(SubnetsOf(inp.subnets, V4), inp.proxyPort, capture) +
    CaptureRules(SubnetsOf(inp.subnets, V6), inp.proxyPort, capture) +
    DnsRule(inp, V4, dns) + DnsRule(inp, V6, dns)
  }

  /** What the body does to a packet that reaches it, stated over the input. */
  ghost function BodyDecision(inp: FirewallInput, p: Packet, st: State, capture: Verdict, dns: Verdict): State {
    if Excluded(inp, p) then Apply(Return, st)
    else if p.proto == Tcp && InSubnetsBesideProxy(inp, p) then Apply(capture, st)
    else if IsDnsQuery(inp, p) then Apply(dns, st)
    else st
  }

  lemma RunExcludePair(p: Packet, st: State, inp: FirewallInput)
    requires st.end.None?
    ensures Run(p, st, ExcludeRules(CidrsOf(inp.excludes, V4)) + ExcludeRules(CidrsOf(inp.excludes, V6))) ==
            if Excluded(inp, p) then Apply(Return, st) else st
  {
    var four := ExcludeRules(CidrsOf(inp.excludes, V4));
    RunExcludes(p, st, CidrsOf(inp.excludes, V4));
    RunAppend(p, st, four, ExcludeRules(CidrsOf(inp.excludes, V6)));
    RunExcludes(p, Run(p, st, four), CidrsOf(inp.excludes, V6));
    ExcludesOfFamily(inp, V4, p);
    ExcludesOfFamily(inp, V6, p);
  }

  lemma RunCapturePair(p: Packet, st: State, inp: FirewallInput, v: Verdict)
    requires st.end.None?
    ensures Run(p, st, CaptureRules(SubnetsOf(inp.subnets, V4), inp.proxyPort, v) +
                       CaptureRules(SubnetsOf(inp.subnets, V6), inp.proxyPort, v)) ==
            if p.proto == Tcp && InSubnetsBesideProxy(inp, p) then Apply(v, st) else st
  {
    var four := CaptureRules(SubnetsOf(inp.subnets, V4), inp.proxyPort, v);
    RunCaptures(p, st, SubnetsOf(inp.subnets, V4), inp.proxyPort, v);
    RunAppend(p, st, four, CaptureRules(SubnetsOf(inp.subnets, V6), inp.proxyPort, v));
    RunCaptures(p, Run(p, st, four), SubnetsOf(inp.subnets, V6), inp.proxyPort, v);
    CapturesOfFamily(inp, V4, p);
    CapturesOfFamily(inp, V6, p);
  }

  lemma RunDnsPair(p: Packet, st: State, inp: FirewallInput, v: Verdict)
    ensures Run(p, st, DnsRule(inp, V4, v) + DnsRule(inp, V6, v)) ==
            if st.end.None? && IsDnsQuery(inp, p) then Apply(v, st) else st
  {
    RunDns(p, st, inp, V4, v);
    RunAppend(p, st, DnsRule(inp, V4, v), DnsRule(inp, V6, v));
    RunDns(p, Run(p, st, DnsRule(inp, V4, v)), inp, V6, v);
    assert p.family == V4 || p.family == V6;
  }

  /** The body compiles to its decision, for capture verdicts that end the walk and for marking alike. */
  lemma RunBody(p: Packet, st: State, inp: FirewallInput, capture: Verdict, dns: Verdict)
    requires st.end.None?
    ensures Run(p, st, Body(inp, capture, dns)) == BodyDecision(inp, p, st, capture, dns)
  {
    var ex := ExcludeRules(CidrsOf(inp.excludes, V4)) + ExcludeRules(CidrsOf(inp.excludes, V6));
    var cap := CaptureRules(SubnetsOf(inp.subnets, V4), inp.proxyPort, capture) +
               CaptureRules(SubnetsOf(inp.subnets, V6), inp.proxyPort, capture);
    var ns := DnsRule(inp, V4, dns) + DnsRule(inp, V6, dns);
    BodyParts(inp, capture, dns);
    RunExcludePair(p, st, inp);
    RunAppend(p, st, ex, cap + ns);
    var afterEx := Run(p, st, ex);
    if afterEx.end.Some? {
      RunEnded(p, afterEx, cap + ns);
    } else {
      RunAppend(p, afterEx, cap, ns);
      RunCapturePair(p, afterEx, inp, capture);
      RunDnsPair(p, Run(p, afterEx, cap), inp, dns);
    }
  }

  lemma BodyParts(inp: FirewallInput, capture: Verdict, dns: Verdict)
    ensures Body(inp, capture, dns) ==
            (ExcludeRules(CidrsOf(inp.excludes, V4)) + ExcludeRules(CidrsOf(inp.excludes, V6))) +
            ((CaptureRules(SubnetsOf(inp.subnets, V4), inp.proxyPort, capture) +
              CaptureRules(SubnetsOf(inp.subnets, V6), inp.proxyPort, capture)) +
             (DnsRule(inp, V4, dns) + DnsRule(inp, V6, dns)))
  {
    Regroup(ExcludeRules(CidrsOf(inp.excludes, V4)), ExcludeRules(CidrsOf(inp.excludes, V6)),
            CaptureRules(SubnetsOf(inp.subnets, V4), inp.proxyPort, capture),
            CaptureRules(SubnetsOf(inp.subnets, V6), inp.proxyPort, capture),
            DnsRule(inp, V4, dns), DnsRule(inp, V6, dns));
  }

  lemma Regroup(a: seq<Rule>, b: seq<Rule>, c: seq<Rule>, d: seq<Rule>, e: seq<Rule>, f: seq<Rule>)
    ensures a + b + c + d + e + f == (a + b) + ((c + d) + (e + f))
  {
  }

  lemma WalkUnguarded(p: Packet, inp: FirewallInput, capture: Verdict, dns: Verdict)
    ensures Walk(p, Body(inp, capture, dns)) == BodyDecision(inp, p, State(None, p.mark), capture, dns)
  {
    RunBody(p, State(None, p.mark), inp, capture, dns);
  }

  /** Guards first, then the body. */
  lemma WalkGuarded(p: Packet, inp: FirewallInput, capture: Verdict, dns: Verdict)
    ensures Walk(p, GUARDS + Body(inp, capture, dns)) ==
            if p.dstLocal || p.mark == BYPASS_MARK then State(Some(Return), p.mark)
            else BodyDecision(inp, p, State(None, p.mark), capture, dns)
  {
    RunGuards(p);
    RunAppend(p, State(None, p.mark), GUARDS, Body(inp, capture, dns));
    var st := Walk(p, GUARDS);
    if st.end.Some? {
      RunEnded(p, st, Body(inp, capture, dns));
    } else {
      RunBody(p, st, inp, capture, dns);
    }
  }

  // ---- builders shared by the nft and tproxy methods

  method BuildExcludes(excludes: seq<Cidr>) returns (b: seq<Rule>)
    ensures b == ExcludeRules(excludes)
  {
    b := [];
    for i := 0 to |excludes|
      invariant b == ExcludeRules(excludes[..i])
    {
      assert excludes[..i+1][..i] == excludes[..i];
      b := b + [Rule(To(InNet(excludes[i]), AnyL4), Return)];
    }
    assert excludes[..|excludes|] == excludes;
  }

  method BuildCaptures(subnets: seq<SubnetRule>, proxyPort: int, v: Verdict) returns (b: seq<Rule>)
    ensures b == CaptureRules(subnets, proxyPort, v)
  {
    b := [];
    for i := 0 to |subnets|
      invariant b == CaptureRules(subnets[..i], proxyPort, v)
    {
      assert subnets[..i+1][..i] == subnets[..i];
      if subnets[i].HasPortRange() {
        b := b + [Rule(To(InNet(subnets[i].cidr), TcpPort(PortRange(subnets[i].portLow, subnets[i].portHigh))), v)];
      } else {
        b := b + [Rule(To(InNet(subnets[i].cidr), TcpPort(NotPort(proxyPort))), v)];
      }
    }
    assert subnets[..|subnets|] == subnets;
  }

  method BuildBody(inp: FirewallInput, capture: Verdict, dns: Verdict) returns (b: seq<Rule>)
    ensures b == Body(inp, capture, dns)
  {
    var v4Subnets, v6Subnets := SplitByFamily(inp.subnets);
    var v4Excludes, v6Excludes := SplitExcludesByFamily(inp.excludes);
    var v4DNS, v6DNS := SplitDNSByFamily(inp.dnsServers);
    var ex4 := BuildExcludes(v4Excludes);
    var ex6 := BuildExcludes(v6Excludes);
    var cap4 := BuildCaptures(v4Subnets, inp.proxyPort, capture);
    var cap6 := BuildCaptures(v6Subnets, inp.proxyPort, capture);
    b := ex4 + ex6 + cap4 + cap6;
    if inp.dnsPort > 0 && |v4DNS| > 0 {
      b := b + [Rule(To(InSet(V4, v4DNS), UdpPort(PortRange(53, 53))), dns)];
    }
    assert b == ex4 + ex6 + cap4 + cap6 + DnsRule(inp, V4, dns);
    if inp.dnsPort > 0 && |v6DNS| > 0 {
      b := b + [Rule(To(InSet(V6, v6DNS), UdpPort(PortRange(53, 53))), dns)];
    }
  }
}
