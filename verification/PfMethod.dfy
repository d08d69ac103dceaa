/** The pf firewall method: its stored state, the rule builder, and what callers can rely on. */
module PfMethod {
  import opened Wrappers
  import opened Net
  import opened PfRules
  import PfCompiler

  /**
   One pf method object. `kernel` is what pfctl has loaded, keyed by the proxy port that names
   the anchor `netferry-<port>`.
   */
  class Method {
    var anchor: Option<nat>
    var blockUDP: bool
    var allowRootUDP: bool
    var blockIPv6: bool
    var subnets: seq<SubnetRule>
    var excludes: seq<Cidr>
    var proxyPort: nat
    var kernel: map<nat, seq<PfLine>>

    constructor ()
      ensures anchor == None && !blockUDP && !allowRootUDP && !blockIPv6 && kernel == map[]
    {
      anchor := None;
      blockUDP, allowRootUDP, blockIPv6 := false, false, false;
      subnets, excludes, proxyPort := [], [], 0;
      kernel := map[];
    }

    function Flags(): PfFlags
      reads this`blockUDP, this`allowRootUDP, this`blockIPv6
    {
      PfFlags(blockUDP, allowRootUDP, blockIPv6)
    }

    method SetBlockUDP(block: bool)
      modifies this`blockUDP
      ensures blockUDP == block
    {
      blockUDP := block;
    }

    method SetAllowRootUDP(allow: bool)
      modifies this`allowRootUDP
      ensures allowRootUDP == allow
    {
      allowRootUDP := allow;
    }

    method SetBlockIPv6(block: bool)
      modifies this`blockIPv6
      ensures blockIPv6 == block
    {
      blockIPv6 := block;
    }

    /** Appends the anchor line by line: tables, then all rdr rules, then all filter rules. */
    method BuildRules(inp: FirewallInput) returns (b: seq<PfLine>)
      ensures b == PfLines(Flags(), inp)
    {
      var v4Subnets, v6Subnets := SplitByFamily(inp.subnets);
      var v4Excludes, v6Excludes := SplitExcludesByFamily(inp.excludes);
      var v4DNS, v6DNS := SplitDNSByFamily(inp.dnsServers);
      b := [];
      if inp.dnsPort > 0 && |v4DNS| > 0 {
        b := b + [Table(DnsServers, v4DNS)];
      }
      if inp.dnsPort > 0 && |v6DNS| > 0 {
        b := b + [Table(Dns6Servers, v6DNS)];
      }
      assert b == TableSection(inp);
      var rdrs := BuildRdrs(inp, v4Subnets, v6Subnets, v4DNS, v6DNS);
      var passes := BuildPasses(inp, v4Subnets, v6Subnets, v4Excludes, v6Excludes, v4DNS, v6DNS);
      var udp := BuildUdpBlock(inp, v4DNS, v6DNS);
      var block6 := BuildBlock6();
      b := b + rdrs + (passes + udp + block6);
    }

    method BuildSubnetRdrs(subnets: seq<SubnetRule>, family: Family, port: nat) returns (b: seq<PfLine>)
      ensures b == RdrLines(subnets, family, port)
    {
      b := [];
      for i := 0 to |subnets|
        invariant b == RdrLines(subnets[..i], family, port)
      {
        assert subnets[..i+1][..i] == subnets[..i];
        b := b + [Rdr(family, Tcp, Some(Loopback(family)), Within(subnets[i].cidr), subnets[i].PfPort(), port)];
      }
      assert subnets[..|subnets|] == subnets;
    }

    method BuildRdrs(inp: FirewallInput, v4: seq<SubnetRule>, v6: seq<SubnetRule>, v4DNS: seq<Bits>, v6DNS: seq<Bits>)
      returns (b: seq<PfLine>)
      requires v4 == SubnetsOf(inp.subnets, V4) && v6 == SubnetsOf(inp.subnets, V6)
      requires v4DNS == ServersOf(inp.dnsServers, V4) && v6DNS == ServersOf(inp.dnsServers, V6)
      ensures b == RdrSection(inp)
    {
      var rdrs4 := BuildSubnetRdrs(v4, V4, inp.proxyPort);
      var rdrs6 := BuildSubnetRdrs(v6, V6, inp.proxyPort);
      b := rdrs4 + rdrs6;
      if inp.dnsPort > 0 && |v4DNS| > 0 {
        b := b + [Rdr(V4, Udp, None, InTable(DnsServers), PortRange(53, 53), inp.dnsPort)];
      }
      assert b == rdrs4 + rdrs6 + When(DnsOn(inp, V4), DnsRdrLine(inp, V4));
      if inp.dnsPort > 0 && |v6DNS| > 0 {
        b := b + [Rdr(V6, Udp, None, InTable(Dns6Servers), PortRange(53, 53), inp.dnsPort)];
      }
    }

    method BuildRoutes(subnets: seq<SubnetRule>, family: Family) returns (b: seq<PfLine>)
      ensures b == RouteLines(subnets, family)
    {
      b := [];
      for i := 0 to |subnets|
        invariant b == RouteLines(subnets[..i], family)
      {
        assert subnets[..i+1][..i] == subnets[..i];
        b := b + [Filter(PassRouteLo, false, family, Some(Tcp), AnyPort, Within(subnets[i].cidr),
                         subnets[i].PfPort(), NotRoot)];
      }
      assert subnets[..|subnets|] == subnets;
    }

    method BuildExcludes(excludes: seq<Cidr>, family: Family) returns (b: seq<PfLine>)
      ensures b == ExcludeLines(excludes, family)
    {
      b := [];
      for i := 0 to |excludes|
        invariant b == ExcludeLines(excludes[..i], family)
      {
        assert excludes[..i+1][..i] == excludes[..i];
        b := b + [Filter(Pass, false, family, Some(Tcp), AnyPort, Within(excludes[i]), AnyPort, AnyUser)];
      }
      assert excludes[..|excludes|] == excludes;
    }

    method BuildPasses(inp: FirewallInput, v4: seq<SubnetRule>, v6: seq<SubnetRule>, v4Excludes: seq<Cidr>,
                       v6Excludes: seq<Cidr>, v4DNS: seq<Bits>, v6DNS: seq<Bits>)
      returns (b: seq<PfLine>)
      requires v4 == SubnetsOf(inp.subnets, V4) && v6 == SubnetsOf(inp.subnets, V6)
      requires v4Excludes == CidrsOf(inp.excludes, V4) && v6Excludes == CidrsOf(inp.excludes, V6)
      requires v4DNS == ServersOf(inp.dnsServers, V4) && v6DNS == ServersOf(inp.dnsServers, V6)
      ensures b == PassSection(Flags(), inp)
    {
      var routes4 := BuildRoutes(v4, V4);
      var routes6 := BuildRoutes(v6, V6);
      var dns4 := BuildDnsPass(inp, v4DNS, V4);
      var dns6 := BuildDnsPass(inp, v6DNS, V6);
      var ex4 := BuildExcludes(v4Excludes, V4);
      var ex6 := BuildExcludes(v6Excludes, V6);
      b := routes4 + routes6 + dns4 + dns6 + ex4 + ex6;
    }

    /** The pass of one family's DNS, when it is proxied. */
    method BuildDnsPass(inp: FirewallInput, servers: seq<Bits>, family: Family) returns (b: seq<PfLine>)
      requires servers == ServersOf(inp.dnsServers, family)
      ensures b == When(DnsOn(inp, family), DnsPassLine(Flags(), family))
    {
      b := [];
      if inp.dnsPort > 0 && |servers| > 0 {
        b := [Filter(PassRouteLo, blockUDP, family, Some(Udp), AnyPort, InTable(DnsTable(family)), PortRange(53, 53),
                     AnyUser)];
      }
    }

    method BuildUdpBlock(inp: FirewallInput, v4DNS: seq<Bits>, v6DNS: seq<Bits>) returns (b: seq<PfLine>)
      requires v4DNS == ServersOf(inp.dnsServers, V4) && v6DNS == ServersOf(inp.dnsServers, V6)
      ensures b == UdpSection(Flags(), inp)
    {
      b := [];
      if blockUDP {
        b := BuildUdpAllow(inp.dnsPort > 0 && |v4DNS| > 0);
        b := b + [BlockUdp(V4)];
        if !(inp.dnsPort > 0 && |v6DNS| > 0) {
          b := b + [QuickUdp(V6, AnyPort, PortRange(53, 53), AnyUser)];
        }
        b := b + [BlockUdp(V6)];
      }
    }

    /** The quick passes ahead of the IPv4 UDP block: DHCP, unproxied DNS, and root's datagrams. */
    method BuildUdpAllow(dns4: bool) returns (b: seq<PfLine>)
      ensures b == UdpAllow(Flags(), dns4)
    {
      b := [QuickUdp(V4, PortRange(68, 68), PortRange(67, 67), AnyUser)];
      b := b + [QuickUdp(V6, PortRange(546, 546), PortRange(547, 547), AnyUser)];
      if !dns4 {
        b := b + [QuickUdp(V4, AnyPort, PortRange(53, 53), AnyUser)];
      }
      if allowRootUDP {
        b := b + [QuickUdp(V4, AnyPort, AnyPort, OnlyRoot)];
        b := b + [QuickUdp(V6, AnyPort, AnyPort, OnlyRoot)];
      }
    }

    method BuildBlock6() returns (b: seq<PfLine>)
      ensures b == Block6Section(Flags())
    {
      b := [];
      if blockIPv6 {
        b := b + [QuickPass6(LOOPBACK6)];
        b := b + [QuickPass6(LINK_LOCAL6)];
        b := b + [QuickPass6(MULTICAST6)];
        b := b + [BlockAll6()];
      }
    }

    /** One `pfctl -a <anchor> -f`: replaces the anchor's rules, or leaves them when it fails. */
    method Load(name: nat, rules: seq<PfLine>, loaded: bool)
      modifies this`kernel
      ensures kernel == if loaded then old(kernel)[name := rules] else old(kernel)
    {
      if loaded {
        kernel := kernel[name := rules];
      }
    }

    /** `enabled` and `loaded` are the outcomes of `pfctl -E` and of loading the anchor. A failed
        load leaves the anchor as it was. */
    method Setup(inp: FirewallInput, enabled: bool, loaded: bool) returns (ok: bool)
      modifies this`anchor, this`subnets, this`excludes, this`proxyPort, this`kernel
      ensures ok == (enabled && loaded)
      ensures anchor == Some(inp.proxyPort)
      ensures subnets == inp.subnets && excludes == inp.excludes && proxyPort == inp.proxyPort
      ensures ok ==> kernel == old(kernel)[inp.proxyPort := PfLines(Flags(), inp)]
      ensures !ok ==> kernel == old(kernel)
    {
      anchor := Some(inp.proxyPort);
      subnets, excludes, proxyPort := inp.subnets, inp.excludes, inp.proxyPort;
      if !enabled {
        return false;
      }
      BuildAndLoad(inp, loaded);
      return loaded;
    }

    method BuildAndLoad(inp: FirewallInput, loaded: bool)
      modifies this`kernel
      ensures kernel == if loaded then old(kernel)[inp.proxyPort := PfLines(Flags(), inp)] else old(kernel)
    {
      var rules := BuildRules(inp);
      Load(inp.proxyPort, rules, loaded);
    }

    method Restore()
      modifies this`kernel
      ensures kernel == if anchor.Some? then old(kernel)[anchor.value := []] else old(kernel)
    {
      if anchor.Some? {
        kernel := kernel[anchor.value := []];
      }
    }

    /** Reloads the anchor from the stored subnets and excludes, without any DNS entry. */
    method DisableDNS(loaded: bool) returns (ok: bool)
      modifies this`kernel
      ensures ok == (anchor.None? || loaded)
      ensures kernel ==
              if anchor.Some? && loaded
              then old(kernel)[anchor.value := PfLines(Flags(), FirewallInput(subnets, excludes, proxyPort, 0, []))]
              else old(kernel)
    {
      if anchor.None? {
        return true;
      }
      var rules := BuildRules(FirewallInput(subnets, excludes, proxyPort, 0, []));
      Load(anchor.value, rules, loaded);
      return loaded;
    }
  }

  // ---- what the decision means for callers

  /** Without the IPv6 block, a TCP packet is handed to the proxy exactly when it is not root's, some
      subnet takes it, no exclude does, and it does not come from loopback. */
  lemma TcpCapturedIff(flags: PfFlags, inp: FirewallInput, p: Packet)
    requires p.proto == Tcp && !flags.blockIPv6
    ensures Outcome(PfLines(flags, inp), p) == RedirectedTo(inp.proxyPort) <==>
            !p.root && InSubnets(inp, p) && !Excluded(inp, p) && p.src != Loopback(p.family)
  {
    PfCompiler.PfCompilesDecision(flags, inp, p);
  }

  /** The TCP packets that are captured, in the terms of the rules themselves. */
  lemma CapturedByFields(flags: PfFlags, inp: FirewallInput, p: Packet)
    requires p.proto == Tcp
    ensures Outcome(PfLines(flags, inp), p) == RedirectedTo(inp.proxyPort) <==>
            && !p.root && !(flags.blockIPv6 && p.family == V6)
            && p.src != Loopback(p.family)
            && (exists s :: s in inp.subnets && s.cidr.family == p.family && s.cidr.prefix <= p.dst &&
                  (s.portLow <= 0 || s.portHigh <= 0 || s.portLow <= p.dport <= s.portHigh))
            && !(exists c :: c in inp.excludes && c.family == p.family && c.prefix <= p.dst)
  {
    PfCompiler.PfCompilesDecision(flags, inp, p);
    DecisionByFields(flags, inp, p);
  }

  lemma DecisionByFields(flags: PfFlags, inp: FirewallInput, p: Packet)
    requires p.proto == Tcp
    ensures Decision(flags, inp, p) == RedirectedTo(inp.proxyPort) <==>
            && !p.root && !(flags.blockIPv6 && p.family == V6)
            && p.src != Loopback(p.family)
            && (exists s :: s in inp.subnets && s.cidr.family == p.family && s.cidr.prefix <= p.dst &&
                  (s.portLow <= 0 || s.portHigh <= 0 || s.portLow <= p.dport <= s.portHigh))
            && !(exists c :: c in inp.excludes && c.family == p.family && c.prefix <= p.dst)
  {
  }

  lemma DecisionStrandsIff(flags: PfFlags, inp: FirewallInput, p: Packet)
    ensures Decision(flags, inp, p) == Stranded <==>
            && p.proto == Tcp && p.src == Loopback(p.family)
            && InSubnets(inp, p) && !Excluded(inp, p) && !p.root && !(flags.blockIPv6 && p.family == V6)
  {
  }

  /** The route-to and rdr passes agree but for packets from loopback itself: exactly the TCP packets from
      there that would be captured otherwise are routed to lo0 and then picked up by nobody. */
  lemma StrandedIff(flags: PfFlags, inp: FirewallInput, p: Packet)
    ensures Outcome(PfLines(flags, inp), p) == Stranded <==>
            && p.proto == Tcp && p.src == Loopback(p.family)
            && InSubnets(inp, p) && !Excluded(inp, p) && !p.root && !(flags.blockIPv6 && p.family == V6)
  {
    PfCompiler.PfCompilesDecision(flags, inp, p);
    DecisionStrandsIff(flags, inp, p);
  }

  /** With the UDP block on, the datagrams that are not dropped, and nothing else. */
  lemma UdpEscapesIff(flags: PfFlags, inp: FirewallInput, p: Packet)
    requires p.proto == Udp && flags.blockUDP
    ensures Outcome(PfLines(flags, inp), p) != Dropped <==>
            || IsDnsQuery(inp, p)
            || (p.family == V4 && p.sport == 68 && p.dport == 67)
            || (p.family == V6 && p.sport == 546 && p.dport == 547)
            || (p.dport == 53 && !DnsProxied(inp, p.family))
            || (p.root && flags.allowRootUDP)
    ensures IsDnsQuery(inp, p) ==> Outcome(PfLines(flags, inp), p) == RedirectedTo(inp.dnsPort)
    ensures !IsDnsQuery(inp, p) ==> Outcome(PfLines(flags, inp), p) in {Dropped, PassedDirect}
  {
    PfCompiler.PfCompilesDecision(flags, inp, p);
  }

  /** With the IPv6 block on, IPv6 TCP leaves only for the whitelisted networks; the rest is reset,
      whatever the subnets and excludes say. */
  lemma Ipv6TcpPassesIff(flags: PfFlags, inp: FirewallInput, p: Packet)
    requires p.proto == Tcp && p.family == V6 && flags.blockIPv6
    ensures Outcome(PfLines(flags, inp), p) == if Whitelisted6(p.dst) then PassedDirect else Reset
  {
    PfCompiler.PfCompilesDecision(flags, inp, p);
  }

  /** The IPv6 block is not blanket for UDP: with the UDP block also on, its quick rules decide first,
      and a datagram to a public IPv6 address still leaves directly in exactly these cases. */
  lemma Ipv6UdpPassesBothBlocksIff(flags: PfFlags, inp: FirewallInput, p: Packet)
    requires p.proto == Udp && p.family == V6 && flags.blockIPv6 && flags.blockUDP
    ensures Outcome(PfLines(flags, inp), p) == PassedDirect <==>
            !IsDnsQuery(inp, p) &&
            (IsDhcpClient(p) || (p.dport == 53 && !DnsProxied(inp, V6)) || (p.root && flags.allowRootUDP))
  {
    PfCompiler.PfCompilesDecision(flags, inp, p);
  }

  lemma DecisionWithoutDns(flags: PfFlags, inp: FirewallInput, p: Packet)
    ensures p.proto == Tcp ==> Decision(flags, inp.WithoutDns(), p) == Decision(flags, inp, p)
    ensures p.proto != Tcp ==> !Decision(flags, inp.WithoutDns(), p).RedirectedTo?
  {
    var off := inp.WithoutDns();
    assert off.subnets == inp.subnets && off.excludes == inp.excludes && off.proxyPort == inp.proxyPort;
    assert Excluded(off, p) == Excluded(inp, p);
    assert InSubnets(off, p) == InSubnets(inp, p);
  }

  /** Removing DNS changes no TCP verdict and leaves no UDP redirect, whatever the flags. */
  lemma DisableDnsConservative(flags: PfFlags, inp: FirewallInput, p: Packet)
    ensures p.proto == Tcp ==>
              Outcome(PfLines(flags, inp.WithoutDns()), p) == Outcome(PfLines(flags, inp), p)
    ensures p.proto != Tcp ==> !Outcome(PfLines(flags, inp.WithoutDns()), p).RedirectedTo?
  {
    PfCompiler.PfCompilesDecision(flags, inp, p);
    PfCompiler.PfCompilesDecision(flags, inp.WithoutDns(), p);
    DecisionWithoutDns(flags, inp, p);
  }
}
