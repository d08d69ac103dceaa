/** The backends against each other, and against what the engine asks of them under --no-ipv6. */
module Backends {
  import opened Wrappers
  import opened Net
  import Pf = PfRules
  import PfCompiler
  import PfMethod
  import Netfilter
  import Nft = NftMethod
  import Tproxy = TproxyMethod
  import Ipt = IptMethod

  ghost predicate PfCaptures(flags: Pf.PfFlags, inp: FirewallInput, p: Packet) {
    Pf.Outcome(Pf.PfLines(flags, inp), p) == Pf.RedirectedTo(inp.proxyPort)
  }

  ghost predicate NftCaptures(blockIPv6: bool, inp: FirewallInput, p: Packet) {
    Nft.OutputOutcome(Nft.NftRules(blockIPv6, inp), p) == Nft.RedirectedTo(inp.proxyPort)
  }

  ghost predicate TproxyCaptures(fwmark: nat, blockIPv6: bool, inp: FirewallInput, p: Packet) {
    Tproxy.Outcome(fwmark, Tproxy.SetupPolicy(inp), Tproxy.TproxyRules(fwmark, blockIPv6, inp), p) ==
    Tproxy.Delivered(inp.proxyPort)
  }

  /** Away from the proxy's own port the two port conventions coincide. */
  lemma SameSubnets(inp: FirewallInput, p: Packet)
    ensures InSubnetsBesideProxy(inp, p) ==> InSubnets(inp, p)
    ensures p.dport != inp.proxyPort ==> (InSubnets(inp, p) <==> InSubnetsBesideProxy(inp, p))
  {
    if s :| s in inp.subnets && Covers(s.cidr, p.family, p.dst) &&
            (if s.HasPortRange() then s.portLow <= p.dport <= s.portHigh else p.dport != inp.proxyPort) {
      assert InSubnets(inp, p);
    }
    if s :| p.dport != inp.proxyPort && s in inp.subnets && Covers(s.cidr, p.family, p.dst) &&
            (s.HasPortRange() ==> s.portLow <= p.dport <= s.portHigh) {
      assert InSubnetsBesideProxy(inp, p);
    }
  }

  /** Where both backends' capture conditions are spelled out. */
  lemma CaptureConditions(flags: Pf.PfFlags, inp: FirewallInput, p: Packet)
    requires p.proto == Tcp
    ensures PfCaptures(flags, inp, p) <==>
            InSubnets(inp, p) && !Excluded(inp, p) && !p.root && p.src != Loopback(p.family) &&
            !(flags.blockIPv6 && p.family == V6)
    ensures NftCaptures(flags.blockIPv6, inp, p) <==>
            InSubnetsBesideProxy(inp, p) && !Excluded(inp, p) && !p.dstLocal && p.mark != Netfilter.BYPASS_MARK
  {
    PfCompiler.PfCompilesDecision(flags, inp, p);
    Nft.NftCompilesDecision(flags.blockIPv6, inp, p);
  }

  /** Last-match pf with excludes after the subnets and first-match nft with excludes before them
      capture the same ordinary TCP packets. */
  lemma PfAndNftCaptureAlike(flags: Pf.PfFlags, inp: FirewallInput, p: Packet)
    requires p.proto == Tcp && !flags.blockIPv6
    requires !p.root && p.mark != Netfilter.BYPASS_MARK && !p.dstLocal
    requires p.src != Loopback(p.family) && p.dport != inp.proxyPort
    ensures PfCaptures(flags, inp, p) <==> NftCaptures(flags.blockIPv6, inp, p)
  {
    CaptureConditions(flags, inp, p);
    SameSubnets(inp, p);
  }

  /** All TCP packets on which the two differ: the subnets take the packet, no exclude spares it, and
      exactly one backend has a reason of its own to leave it alone. */
  lemma PfAndNftDifferIff(flags: Pf.PfFlags, inp: FirewallInput, p: Packet)
    requires p.proto == Tcp
    ensures PfCaptures(flags, inp, p) != NftCaptures(flags.blockIPv6, inp, p) <==>
            && InSubnets(inp, p) && !Excluded(inp, p)
            && ((p.root || p.src == Loopback(p.family) || (flags.blockIPv6 && p.family == V6)) !=
                (p.dstLocal || p.mark == Netfilter.BYPASS_MARK || !InSubnetsBesideProxy(inp, p)))
  {
    CaptureConditions(flags, inp, p);
    SameSubnets(inp, p);
  }

  /** REDIRECT and TPROXY capture the same TCP packets, except that a packet already carrying the routing mark is
      looped past the output guards, and that TPROXY lets the IPv6 block have its packets first. */
  lemma NftAndTproxyCaptureAlike(fwmark: nat, blockIPv6: bool, inp: FirewallInput, p: Packet)
    requires p.proto == Tcp
    ensures TproxyCaptures(fwmark, blockIPv6, inp, p) <==>
            && !(blockIPv6 && p.family == V6 && !Whitelisted6(p.dst))
            && (NftCaptures(blockIPv6, inp, p) ||
                (p.mark == fwmark && InSubnetsBesideProxy(inp, p) && !Excluded(inp, p)))
  {
    Nft.NftCompilesDecision(blockIPv6, inp, p);
    Tproxy.TproxyCompilesDecision(fwmark, blockIPv6, Tproxy.SetupPolicy(inp), inp, p);
    if InSubnetsBesideProxy(inp, p) && !Excluded(inp, p) {
      Tproxy.TcpClaimHasFamily(inp, p);
    }
  }

  /** Forwarded packets reach the same port under both, but for DNS of a family without policy routing. */
  lemma NftAndTproxyForwardAlike(fwmark: nat, blockIPv6: bool, inp: FirewallInput, p: Packet, port: int)
    ensures Tproxy.ForwardOutcome(fwmark, Tproxy.SetupPolicy(inp), Tproxy.TproxyRules(fwmark, blockIPv6, inp), p) ==
            Tproxy.Delivered(port) <==>
            && Nft.ForwardOutcome(Nft.NftRules(blockIPv6, inp), p) == Nft.RedirectedTo(port)
            && (p.proto == Tcp || Tproxy.SetupPolicy(inp).Has(p.family))
  {
    Nft.NftCompilesDecision(blockIPv6, inp, p);
    Tproxy.ForwardCompilesDecision(fwmark, blockIPv6, Tproxy.SetupPolicy(inp), inp, p);
    if p.proto == Tcp && Tproxy.ClaimDecision(inp, p).Delivered? {
      Tproxy.TcpClaimHasFamily(inp, p);
    }
  }

  // ---- what the engine asks of pf

  /** `lanSocks` is whether there is a LAN SOCKS5 relay, `fectun` whether the tunnel rides on UDP of its own. */
  function EngineFlags(noBlockUDP: bool, lanSocks: bool, fectun: bool, noIPv6: bool): Pf.PfFlags {
    Pf.PfFlags(!noBlockUDP, lanSocks || fectun, noIPv6)
  }

  method ConfigurePf(m: PfMethod.Method, noBlockUDP: bool, lanSocks: bool, fectun: bool, noIPv6: bool)
    modifies m`blockUDP, m`allowRootUDP, m`blockIPv6
    ensures m.blockUDP == !noBlockUDP && m.allowRootUDP == (lanSocks || fectun) && m.blockIPv6 == noIPv6
    ensures m.Flags() == EngineFlags(noBlockUDP, lanSocks, fectun, noIPv6)
  {
    m.SetBlockUDP(!noBlockUDP);
    m.SetAllowRootUDP(lanSocks || fectun);
    m.SetBlockIPv6(noIPv6);
  }

  /** Which of root's datagrams leave, for every configuration. */
  lemma RootUdpLeavesIff(noBlockUDP: bool, lanSocks: bool, fectun: bool, noIPv6: bool, inp: FirewallInput, p: Packet)
    requires p.proto == Udp && p.root && !IsDnsQuery(inp, p)
    ensures Pf.Outcome(Pf.PfLines(EngineFlags(noBlockUDP, lanSocks, fectun, noIPv6), inp), p) in
            {Pf.PassedDirect, Pf.NoDecision} <==>
            if noBlockUDP then !(noIPv6 && p.family == V6 && !Whitelisted6(p.dst))
            else
              || lanSocks || fectun
              || (p.family == V4 && p.sport == 68 && p.dport == 67)
              || (p.family == V6 && p.sport == 546 && p.dport == 547)
              || (p.dport == 53 && !DnsProxied(inp, p.family))
  {
    PfCompiler.PfCompilesDecision(EngineFlags(noBlockUDP, lanSocks, fectun, noIPv6), inp, p);
  }

  /** The tunnel's own datagrams, which come from root, are let out when it rides on them; only with the UDP block
      off and the IPv6 block on are they stopped, towards public IPv6 addresses. */
  lemma CarrierLeavesIff(noBlockUDP: bool, lanSocks: bool, noIPv6: bool, inp: FirewallInput, p: Packet)
    requires p.proto == Udp && p.root && !IsDnsQuery(inp, p)
    ensures Pf.Outcome(Pf.PfLines(EngineFlags(noBlockUDP, lanSocks, true, noIPv6), inp), p) in
            {Pf.PassedDirect, Pf.NoDecision} <==>
            !(noBlockUDP && noIPv6 && p.family == V6 && !Whitelisted6(p.dst))
  {
    RootUdpLeavesIff(noBlockUDP, lanSocks, true, noIPv6, inp, p);
  }

  // ---- --no-ipv6

  /** The engine drops IPv6 subnets before Setup when IPv6 is off. */
  method EffectiveSubnets(subnets: seq<SubnetRule>, noIPv6: bool) returns (r: seq<SubnetRule>)
    ensures r == if noIPv6 then SubnetsOf(subnets, V4) else subnets
  {
    r := subnets;
    if noIPv6 {
      var v4Only: seq<SubnetRule> := [];
      for i := 0 to |subnets|
        invariant v4Only == SubnetsOf(subnets[..i], V4)
      {
        assert subnets[..i+1][..i] == subnets[..i];
        if subnets[i].cidr.family != V6 {
          v4Only := v4Only + [subnets[i]];
        }
      }
      assert subnets[..|subnets|] == subnets;
      r := v4Only;
    }
  }

  /** The input the engine compiles under --no-ipv6. */
  function NoIPv6Input(inp: FirewallInput): FirewallInput {
    inp.(subnets := SubnetsOf(inp.subnets, V4))
  }

  lemma NoIPv6Subnets(inp: FirewallInput, p: Packet)
    requires p.family == V6
    ensures !InSubnets(NoIPv6Input(inp), p) && !InSubnetsBesideProxy(NoIPv6Input(inp), p)
  {
    if s :| s in SubnetsOf(inp.subnets, V4) && Covers(s.cidr, p.family, p.dst) {
      SubnetsOfIff(inp.subnets, V4, s);
    }
  }

  /** Under --no-ipv6 no IPv6 TCP packet to a public address leaves or is captured, on any backend of the four. */
  lemma NoIPv6BlocksTcp(flags: Pf.PfFlags, fwmark: nat, inp: FirewallInput, p: Packet)
    requires flags.blockIPv6 && p.proto == Tcp && p.family == V6 && !Whitelisted6(p.dst)
    ensures Pf.Outcome(Pf.PfLines(flags, NoIPv6Input(inp)), p) == Pf.Reset
    ensures Nft.OutputOutcome(Nft.NftRules(true, NoIPv6Input(inp)), p) == Nft.Rejected
    ensures Tproxy.Outcome(fwmark, Tproxy.SetupPolicy(NoIPv6Input(inp)),
                           Tproxy.TproxyRules(fwmark, true, NoIPv6Input(inp)), p) ==
            Tproxy.Rejected
    ensures Ipt.OutputOutcome(true, NoIPv6Input(inp), p) == Nft.Rejected
  {
    var off := NoIPv6Input(inp);
    Ipt.IptMatchesNft(true, off, p);
    NoIPv6Subnets(inp, p);
    PfCompiler.PfCompilesDecision(flags, off, p);
    Nft.NftCompilesDecision(true, off, p);
    Tproxy.TproxyCompilesDecision(fwmark, true, Tproxy.SetupPolicy(off), off, p);
  }

  /** Under --no-ipv6 the order of redirect and reject no longer shows: pf and nft capture alike with
      the block on as well. */
  lemma NoIPv6CaptureAlike(flags: Pf.PfFlags, inp: FirewallInput, p: Packet)
    requires flags.blockIPv6 && p.proto == Tcp
    requires !p.root && p.mark != Netfilter.BYPASS_MARK && !p.dstLocal
    requires p.src != Loopback(p.family) && p.dport != inp.proxyPort
    ensures PfCaptures(flags, NoIPv6Input(inp), p) <==> NftCaptures(true, NoIPv6Input(inp), p)
  {
    var off := NoIPv6Input(inp);
    CaptureConditions(flags, off, p);
    SameSubnets(off, p);
    if p.family == V6 {
      NoIPv6Subnets(inp, p);
    }
  }
}
