/** The nftables REDIRECT backend. */
module NftMethod {
  import opened Wrappers
  import opened Net
  import opened Netfilter

  /** The chains of `table inet netferry`; the block chain only exists under --no-ipv6. */
  datatype NftTable = NftTable(prerouting: seq<Rule>, output: seq<Rule>, block6: Option<seq<Rule>>)

  datatype NftOutcome = Direct | RedirectedTo(port: int) | Rejected

  function RedirectPort(st: State): Option<int> {
    if st.end.Some? && st.end.value.Redirect? then Some(st.end.value.port) else None
  }

  /** The packet after the nat output hook: a local redirect rewrites its destination to loopback. */
  function AfterNat(p: Packet, port: Option<int>): Packet {
    if port.None? then p
    else p.(dst := Loopback(p.family), dport := if port.value >= 0 then port.value else p.dport)
  }

  /** A locally generated packet: nat output at priority -100, then the filter chain at priority 0. */
  function OutputOutcome(table: NftTable, p: Packet): NftOutcome {
    var port := RedirectPort(Walk(p, table.output));
    var q := AfterNat(p, port);
    if table.block6.Some? && Walk(q, table.block6.value).end == Some(Reject) then Rejected
    else if port.Some? then RedirectedTo(port.value)
    else Direct
  }

  /** A forwarded packet meets only the prerouting chain. */
  function ForwardOutcome(table: NftTable, p: Packet): NftOutcome {
    var port := RedirectPort(Walk(p, table.prerouting));
    if port.Some? then RedirectedTo(port.value) else Direct
  }

  function NftRules(blockIPv6: bool, inp: FirewallInput): NftTable {
    var body := Body(inp, Redirect(inp.proxyPort), Redirect(inp.dnsPort));
    NftTable(body, GUARDS + body, if blockIPv6 then Some(BLOCK6) else None)
  }

  // ---- the decision, stated without any rule

  /** What the redirect part should do: excludes spare DNS as well as TCP. */
  ghost function RedirectDecision(inp: FirewallInput, p: Packet): Option<int> {
    if Excluded(inp, p) then None
    else if p.proto == Tcp && InSubnetsBesideProxy(inp, p) then Some(inp.proxyPort)
    else if IsDnsQuery(inp, p) then Some(inp.dnsPort)
    else None
  }

  ghost predicate Exempt(p: Packet) {
    p.dstLocal || p.mark == 0x4e46
  }

  /** What nft should do with a locally generated packet: redirecting comes before the IPv6 block,
      and a redirected packet is then addressed to loopback and passes it. */
  ghost function OutputDecision(blockIPv6: bool, inp: FirewallInput, p: Packet): NftOutcome {
    var port := if Exempt(p) then None else RedirectDecision(inp, p);
    if port.Some? then RedirectedTo(port.value)
    else if blockIPv6 && p.family == V6 && !Whitelisted6(p.dst) then Rejected
    else Direct
  }

  lemma WalkOutput(inp: FirewallInput, p: Packet, blockIPv6: bool)
    ensures RedirectPort(Walk(p, NftRules(blockIPv6, inp).output)) ==
            if Exempt(p) then None else RedirectDecision(inp, p)
  {
    WalkGuarded(p, inp, Redirect(inp.proxyPort), Redirect(inp.dnsPort));
  }

  lemma WalkPrerouting(inp: FirewallInput, p: Packet, blockIPv6: bool)
    ensures RedirectPort(Walk(p, NftRules(blockIPv6, inp).prerouting)) == RedirectDecision(inp, p)
  {
    WalkUnguarded(p, inp, Redirect(inp.proxyPort), Redirect(inp.dnsPort));
  }

  /** Main result: the generated table makes the decision for every packet, input and block flag. */
  lemma NftCompilesDecision(blockIPv6: bool, inp: FirewallInput, p: Packet)
    ensures OutputOutcome(NftRules(blockIPv6, inp), p) == OutputDecision(blockIPv6, inp, p)
    ensures ForwardOutcome(NftRules(blockIPv6, inp), p) ==
            var port := RedirectDecision(inp, p); if port.Some? then RedirectedTo(port.value) else Direct
  {
    OutputCompiles(blockIPv6, inp, p);
    WalkPrerouting(inp, p, blockIPv6);
  }

  lemma OutputCompiles(blockIPv6: bool, inp: FirewallInput, p: Packet)
    ensures OutputOutcome(NftRules(blockIPv6, inp), p) == OutputDecision(blockIPv6, inp, p)
  {
    WalkOutput(inp, p, blockIPv6);
    var port := if Exempt(p) then None else RedirectDecision(inp, p);
    var q := AfterNat(p, port);
    BlockEnds(q);
    if port.Some? {
      assert Whitelisted6(Loopback(V6));
    }
  }

  lemma BlockEnds(q: Packet)
    ensures Walk(q, BLOCK6).end == Some(Reject) <==> q.family == V6 && !Whitelisted6(q.dst)
  {
    RunBlock6(q, q.mark);
  }

  /** The TCP packets sent from here or forwarded that are redirected, in the terms of the rules themselves. */
  lemma RedirectedByFields(blockIPv6: bool, inp: FirewallInput, p: Packet)
    requires p.proto == Tcp
    ensures OutputOutcome(NftRules(blockIPv6, inp), p) == RedirectedTo(inp.proxyPort) <==>
            && !p.dstLocal && p.mark != 0x4e46
            && (exists s :: s in inp.subnets && s.cidr.family == p.family && s.cidr.prefix <= p.dst &&
                  (if s.portLow <= 0 || s.portHigh <= 0 then p.dport != inp.proxyPort
                   else s.portLow <= p.dport <= s.portHigh))
            && !(exists c :: c in inp.excludes && c.family == p.family && c.prefix <= p.dst)
    ensures ForwardOutcome(NftRules(blockIPv6, inp), p) == RedirectedTo(inp.proxyPort) <==>
            && (exists s :: s in inp.subnets && s.cidr.family == p.family && s.cidr.prefix <= p.dst &&
                  (if s.portLow <= 0 || s.portHigh <= 0 then p.dport != inp.proxyPort
                   else s.portLow <= p.dport <= s.portHigh))
            && !(exists c :: c in inp.excludes && c.family == p.family && c.prefix <= p.dst)
  {
    NftCompilesDecision(blockIPv6, inp, p);
  }

  lemma DecisionWithoutDns(blockIPv6: bool, inp: FirewallInput, p: Packet)
    ensures p.proto == Tcp ==> OutputDecision(blockIPv6, inp.WithoutDns(), p) == OutputDecision(blockIPv6, inp, p)
    ensures p.proto != Tcp ==> !OutputDecision(blockIPv6, inp.WithoutDns(), p).RedirectedTo?
    ensures p.proto == Tcp ==> RedirectDecision(inp.WithoutDns(), p) == RedirectDecision(inp, p)
    ensures p.proto != Tcp ==> RedirectDecision(inp.WithoutDns(), p).None?
  {
    var off := inp.WithoutDns();
    assert Excluded(off, p) == Excluded(inp, p);
    assert InSubnetsBesideProxy(off, p) == InSubnetsBesideProxy(inp, p);
  }

  /** The DNS-free table treats every TCP packet as before and redirects nothing else, for local and
      forwarded traffic and either block flag. */
  lemma DisableDnsConservative(blockIPv6: bool, inp: FirewallInput, p: Packet)
    ensures p.proto == Tcp ==>
              && OutputOutcome(NftRules(blockIPv6, inp.WithoutDns()), p) == OutputOutcome(NftRules(blockIPv6, inp), p)
              && ForwardOutcome(NftRules(blockIPv6, inp.WithoutDns()), p) == ForwardOutcome(NftRules(blockIPv6, inp), p)
    ensures p.proto != Tcp ==>
              && !OutputOutcome(NftRules(blockIPv6, inp.WithoutDns()), p).RedirectedTo?
              && !ForwardOutcome(NftRules(blockIPv6, inp.WithoutDns()), p).RedirectedTo?
  {
    NftCompilesDecision(blockIPv6, inp, p);
    NftCompilesDecision(blockIPv6, inp.WithoutDns(), p);
    DecisionWithoutDns(blockIPv6, inp, p);
  }

  // ---- the method object

  class Method {
    var blockIPv6: bool
    var subnets: seq<SubnetRule>
    var excludes: seq<Cidr>
    var proxyPort: nat
    /** What the kernel holds as `inet netferry`. */
    var table: Option<NftTable>
    /** Every state the kernel's table went through. */
    ghost var history: seq<Option<NftTable>>

    constructor ()
      ensures !blockIPv6 && table == None && history == []
    {
      blockIPv6, subnets, excludes, proxyPort := false, [], [], 0;
      table, history := None, [];
    }

    method SetBlockIPv6(block: bool)
      modifies this`blockIPv6
      ensures blockIPv6 == block
    {
      blockIPv6 := block;
    }

    method BuildNftRules(inp: FirewallInput) returns (rules: NftTable)
      ensures rules == NftRules(blockIPv6, inp)
    {
      var prerouting := BuildBody(inp, Redirect(inp.proxyPort), Redirect(inp.dnsPort));
      var body := BuildBody(inp, Redirect(inp.proxyPort), Redirect(inp.dnsPort));
      var block := None;
      if blockIPv6 {
        block := Some(BLOCK6);
      }
      rules := NftTable(prerouting, GUARDS + body, block);
    }

    /** Deletes the table, then loads a new one; `loaded` is whether nft accepts it. */
    method Setup(inp: FirewallInput, loaded: bool) returns (ok: bool)
      modifies this`subnets, this`excludes, this`proxyPort, this`table, this`history
      ensures ok == loaded
      ensures subnets == inp.subnets && excludes == inp.excludes && proxyPort == inp.proxyPort
      ensures table == if loaded then Some(NftRules(blockIPv6, inp)) else None
      ensures history == old(history) + [None, table]
    {
      subnets, excludes, proxyPort := inp.subnets, inp.excludes, inp.proxyPort;
      Replace(None);
      var rules := BuildNftRules(inp);
      Replace(if loaded then Some(rules) else None);
      return loaded;
    }

    method Replace(next: Option<NftTable>)
      modifies this`table, this`history
      ensures table == next && history == old(history) + [next]
    {
      table := next;
      history := history + [next];
    }

    /** `deleted` is whether nft deletes the table; an error is passed over. */
    method Restore(deleted: bool)
      modifies this`table, this`history
      ensures table == (if deleted then None else old(table)) && history == old(history) + [table]
    {
      Replace(if deleted then None else table);
    }

    /** Reinstalls without DNS. The table is absent in between, and stays absent if loading fails. */
    method DisableDNS(loaded: bool) returns (ok: bool)
      modifies this`subnets, this`excludes, this`proxyPort, this`table, this`history
      ensures ok == loaded
      ensures subnets == old(subnets) && excludes == old(excludes) && proxyPort == old(proxyPort)
      ensures table == if loaded
                       then Some(NftRules(blockIPv6, FirewallInput(subnets, excludes, proxyPort, 0, [])))
                       else None
      ensures history == old(history) + [None, table]
    {
      ok := Setup(FirewallInput(subnets, excludes, proxyPort, 0, []), loaded);
    }
  }

  /** A missing table lets everything through directly. */
  function KernelOutcome(table: Option<NftTable>, p: Packet): NftOutcome {
    if table.Some? then OutputOutcome(table.value, p) else Direct
  }

  /** Replacing a table by delete-then-load is not atomic: while the table is absent, exactly the
      packets it redirected or rejected are let out. */
  lemma GapLeaksIff(blockIPv6: bool, inp: FirewallInput, p: Packet)
    ensures KernelOutcome(None, p) != KernelOutcome(Some(NftRules(blockIPv6, inp)), p) <==>
            || (!Exempt(p) && RedirectDecision(inp, p).Some?)
            || (blockIPv6 && p.family == V6 && !Whitelisted6(p.dst))
  {
    NftCompilesDecision(blockIPv6, inp, p);
  }
}
