/**
 The TPROXY backend in its nftables form: an output chain that marks, policy routing that loops
 marked packets to lo, and a prerouting chain that hands them to the listener.
 */
module TproxyMethod {
  import opened Wrappers
  import opened Net
  import opened Netfilter

  datatype TproxyTable = TproxyTable(prerouting: seq<Rule>, output: seq<Rule>, block6: Option<seq<Rule>>)

  function TproxyRules(fwmark: nat, blockIPv6: bool, inp: FirewallInput): TproxyTable {
    TproxyTable(
      Body(inp, TProxy(inp.proxyPort, fwmark), TProxy(inp.dnsPort, fwmark)),
      GUARDS + Body(inp, SetMark(fwmark), SetMark(fwmark)),
      if blockIPv6 then Some(BLOCK6) else None)
  }

  /** Which families have `fwmark -> table -> local dev lo` policy routing. */
  datatype Policy = Policy(v4: bool, v6: bool) {
    predicate Has(family: Family) {
      if family == V4 then v4 else v6
    }
  }

  datatype TproxyOutcome = Direct | Delivered(port: int) | Unclaimed | Rejected

  /** A locally generated packet. `Unclaimed` is a packet looped to lo that no tproxy rule accepts. */
  function Outcome(fwmark: nat, policy: Policy, table: TproxyTable, p: Packet): TproxyOutcome {
    var mark := Walk(p, table.output).mark;
    var q := p.(mark := mark);
    if table.block6.Some? && Walk(q, table.block6.value).end == Some(Reject) then Rejected
    else if mark == fwmark && policy.Has(p.family) then Claim(table, q)
    else Direct
  }

  /** A forwarded packet meets only the prerouting chain; marked there, or already, it is routed to lo. */
  function ForwardOutcome(fwmark: nat, policy: Policy, table: TproxyTable, p: Packet): TproxyOutcome {
    if Walk(p, table.prerouting).mark == fwmark && policy.Has(p.family) then Claim(table, p) else Direct
  }

  /** The prerouting chain's answer to a looped packet. */
  function Claim(table: TproxyTable, q: Packet): TproxyOutcome {
    var st := Walk(q, table.prerouting);
    if st.end.Some? && st.end.value.TProxy? then Delivered(st.end.value.port) else Unclaimed
  }

  // ---- the decision, stated without any rule

  ghost function ClaimDecision(inp: FirewallInput, p: Packet): TproxyOutcome {
    if Excluded(inp, p) then Unclaimed
    else if p.proto == Tcp && InSubnetsBesideProxy(inp, p) then Delivered(inp.proxyPort)
    else if IsDnsQuery(inp, p) then Delivered(inp.dnsPort)
    else Unclaimed
  }

  /** The output chain marks exactly the packets that prerouting would claim, guards aside. */
  ghost predicate Marks(inp: FirewallInput, p: Packet) {
    !p.dstLocal && p.mark != 0x4e46 && ClaimDecision(inp, p).Delivered?
  }

  ghost function OutcomeDecision(fwmark: nat, blockIPv6: bool, policy: Policy, inp: FirewallInput,
                                 p: Packet): TproxyOutcome {
    if blockIPv6 && p.family == V6 && !Whitelisted6(p.dst) then Rejected
    else if (Marks(inp, p) || p.mark == fwmark) && policy.Has(p.family) then ClaimDecision(inp, p)
    else Direct
  }

  /** Forwarded packets meet neither the guards nor the IPv6 block. */
  ghost function ForwardDecision(fwmark: nat, policy: Policy, inp: FirewallInput, p: Packet): TproxyOutcome {
    if (ClaimDecision(inp, p).Delivered? || p.mark == fwmark) && policy.Has(p.family) then ClaimDecision(inp, p)
    else Direct
  }

  lemma WalkOutput(fwmark: nat, blockIPv6: bool, inp: FirewallInput, p: Packet)
    ensures Walk(p, TproxyRules(fwmark, blockIPv6, inp).output).mark == if Marks(inp, p) then fwmark else p.mark
  {
    WalkGuarded(p, inp, SetMark(fwmark), SetMark(fwmark));
  }

  lemma ClaimOfState(inp: FirewallInput, p: Packet, fwmark: nat)
    ensures var d := BodyDecision(inp, p, State(None, p.mark), TProxy(inp.proxyPort, fwmark),
                                  TProxy(inp.dnsPort, fwmark));
            ClaimDecision(inp, p) == if d.end.Some? && d.end.value.TProxy? then Delivered(d.end.value.port)
                                     else Unclaimed
  {
  }

  lemma ClaimCompiles(fwmark: nat, blockIPv6: bool, inp: FirewallInput, p: Packet)
    ensures Claim(TproxyRules(fwmark, blockIPv6, inp), p) == ClaimDecision(inp, p)
  {
    var capture, dns := TProxy(inp.proxyPort, fwmark), TProxy(inp.dnsPort, fwmark);
    WalkUnguarded(p, inp, capture, dns);
    ClaimOfState(inp, p, fwmark);
    assert TproxyRules(fwmark, blockIPv6, inp).prerouting == Body(inp, capture, dns);
  }

  /** No part of the input's decision reads the mark. */
  lemma ClaimIgnoresMark(inp: FirewallInput, p: Packet, mark: nat)
    ensures ClaimDecision(inp, p.(mark := mark)) == ClaimDecision(inp, p)
  {
    var q := p.(mark := mark);
    assert Excluded(inp, q) == Excluded(inp, p);
    assert InSubnetsBesideProxy(inp, q) == InSubnetsBesideProxy(inp, p);
  }

  /** Main result: marking, rerouting and claiming together make the decision, for every packet. */
  lemma TproxyCompilesDecision(fwmark: nat, blockIPv6: bool, policy: Policy, inp: FirewallInput, p: Packet)
    ensures Outcome(fwmark, policy, TproxyRules(fwmark, blockIPv6, inp), p) ==
            OutcomeDecision(fwmark, blockIPv6, policy, inp, p)
  {
    var table := TproxyRules(fwmark, blockIPv6, inp);
    WalkOutput(fwmark, blockIPv6, inp, p);
    var mark := Walk(p, table.output).mark;
    RunBlock6(p.(mark := mark), mark);
    ClaimCompiles(fwmark, blockIPv6, inp, p.(mark := mark));
    ClaimIgnoresMark(inp, p, mark);
  }

  lemma WalkPrerouting(fwmark: nat, blockIPv6: bool, inp: FirewallInput, p: Packet)
    ensures Walk(p, TproxyRules(fwmark, blockIPv6, inp).prerouting).mark ==
            if ClaimDecision(inp, p).Delivered? then fwmark else p.mark
  {
    WalkUnguarded(p, inp, TProxy(inp.proxyPort, fwmark), TProxy(inp.dnsPort, fwmark));
  }

  /** The same for forwarded packets. */
  lemma ForwardCompilesDecision(fwmark: nat, blockIPv6: bool, policy: Policy, inp: FirewallInput, p: Packet)
    ensures ForwardOutcome(fwmark, policy, TproxyRules(fwmark, blockIPv6, inp), p) ==
            ForwardDecision(fwmark, policy, inp, p)
  {
    WalkPrerouting(fwmark, blockIPv6, inp, p);
    ClaimCompiles(fwmark, blockIPv6, inp, p);
  }

  /** A forwarded packet fares otherwise than the same packet sent from here exactly when the IPv6 block stops
      that one, or when only the guards keep that one from the listener. */
  lemma ForwardDiffersIff(fwmark: nat, blockIPv6: bool, policy: Policy, inp: FirewallInput, p: Packet)
    ensures var table := TproxyRules(fwmark, blockIPv6, inp);
            ForwardOutcome(fwmark, policy, table, p) != Outcome(fwmark, policy, table, p) <==>
            || (blockIPv6 && p.family == V6 && !Whitelisted6(p.dst))
            || ((p.dstLocal || p.mark == BYPASS_MARK) && p.mark != fwmark && policy.Has(p.family) &&
                ClaimDecision(inp, p).Delivered?)
  {
    TproxyCompilesDecision(fwmark, blockIPv6, policy, inp, p);
    ForwardCompilesDecision(fwmark, blockIPv6, policy, inp, p);
  }

  // ---- policy routing

  /** The commands one call of Setup or Restore may issue, each at most once. */
  datatype Command = AddRule(family: Family) | AddRoute(family: Family) | DelRule(family: Family)
      | DelRoute(family: Family) | DeleteTable | LoadTable

  /** `fwmark -> table`, as `ip rule` keeps it. */
  datatype PolicyRule = PolicyRule(family: Family, mark: nat, routes: nat)

  /** The kernel's policy rules, the routing tables that hold the local default route to lo, and
      `table inet netferry`. Adding what is there, or deleting what is not, fails. */
  datatype Kernel = Kernel(rules: set<PolicyRule>, routes: set<(Family, nat)>, table: Option<TproxyTable>)

  function PolicyOf(k: Kernel, mark: nat, routes: nat): Policy {
    Policy(PolicyRule(V4, mark, routes) in k.rules && (V4, routes) in k.routes,
           PolicyRule(V6, mark, routes) in k.rules && (V6, routes) in k.routes)
  }

  /** Nothing of a family is in the way of Setup. */
  predicate Free(k: Kernel, family: Family, mark: nat, routes: nat) {
    PolicyRule(family, mark, routes) !in k.rules && (family, routes) !in k.routes
  }

  const DEFAULT_MARK: nat := 1
  const DEFAULT_ROUTES: nat := 100

  /** Both of a family's commands go through. */
  predicate CanRoute(k: Kernel, family: Family, mark: nat, routes: nat, works: Command -> bool) {
    Free(k, family, mark, routes) && works(AddRule(family)) && works(AddRoute(family))
  }

  /** A rule whose route cannot be added is deleted again, if that works. */
  function Routed(k: Kernel, family: Family, mark: nat, routes: nat, works: Command -> bool): Kernel {
    var rule := PolicyRule(family, mark, routes);
    if CanRoute(k, family, mark, routes, works)
    then k.(rules := k.rules + {rule}, routes := k.routes + {(family, routes)})
    else if rule !in k.rules && works(AddRule(family)) && !works(DelRule(family)) then k.(rules := k.rules + {rule})
    else k
  }

  function Unrouted(k: Kernel, family: Family, mark: nat, routes: nat, works: Command -> bool): Kernel {
    k.(rules := if works(DelRule(family)) then k.rules - {PolicyRule(family, mark, routes)} else k.rules,
       routes := if works(DelRoute(family)) then k.routes - {(family, routes)} else k.routes)
  }

  function Restored(k: Kernel, mark: nat, routes: nat, works: Command -> bool): Kernel {
    var r := Unrouted(Unrouted(k, V4, mark, routes, works), V6, mark, routes, works);
    r.(table := if works(DeleteTable) then None else r.table)
  }

  ghost predicate CanSetup(k: Kernel, mark: nat, routes: nat, inp: FirewallInput, works: Command -> bool) {
    && CanRoute(k, V4, mark, routes, works)
    && (HasFamily(inp, V6) ==> CanRoute(k, V6, mark, routes, works))
    && works(LoadTable)
  }

  /** What Setup leaves, whatever was there and whichever commands fail. */
  ghost function AfterSetup(k: Kernel, mark: nat, routes: nat, blockIPv6: bool, inp: FirewallInput,
                            works: Command -> bool): Kernel {
    var four := Routed(k, V4, mark, routes, works);
    var six := if HasFamily(inp, V6) then Routed(four, V6, mark, routes, works) else four;
    if !CanRoute(k, V4, mark, routes, works) then four
    else if HasFamily(inp, V6) && !CanRoute(k, V6, mark, routes, works) then six
    else six.(table := if works(LoadTable) then Some(TproxyRules(mark, blockIPv6, inp)) else None)
  }

  // ---- the method object

  class Method {
    const fwmark: nat
    const routeTable: nat
    var blockIPv6: bool
    var subnets: seq<SubnetRule>
    var excludes: seq<Cidr>
    var proxyPort: nat
    var kernel: Kernel

    constructor (mark: nat, routes: nat, kernel: Kernel)
      ensures fwmark == mark && routeTable == routes && this.kernel == kernel && !blockIPv6
    {
      fwmark, routeTable, this.kernel := mark, routes, kernel;
      blockIPv6, subnets, excludes, proxyPort := false, [], [], 0;
    }

    method SetBlockIPv6(block: bool)
      modifies this`blockIPv6
      ensures blockIPv6 == block
    {
      blockIPv6 := block;
    }

    method BuildNftRules(inp: FirewallInput) returns (rules: TproxyTable)
      ensures rules == TproxyRules(fwmark, blockIPv6, inp)
    {
      var prerouting := BuildBody(inp, TProxy(inp.proxyPort, fwmark), TProxy(inp.dnsPort, fwmark));
      var marks := BuildBody(inp, SetMark(fwmark), SetMark(fwmark));
      var block := None;
      if blockIPv6 {
        block := Some(BLOCK6);
      }
      rules := TproxyTable(prerouting, GUARDS + marks, block);
    }

    /** A rule and a route for one family. */
    method RoutePolicy(family: Family, works: Command -> bool) returns (ok: bool)
      modifies this`kernel
      ensures ok == CanRoute(old(kernel), family, fwmark, routeTable, works)
      ensures kernel == Routed(old(kernel), family, fwmark, routeTable, works)
    {
      var rule := PolicyRule(family, fwmark, routeTable);
      if !works(AddRule(family)) || rule in kernel.rules {
        return false;
      }
      kernel := kernel.(rules := kernel.rules + {rule});
      if !works(AddRoute(family)) || (family, routeTable) in kernel.routes {
        if works(DelRule(family)) {
          kernel := kernel.(rules := kernel.rules - {rule});
          assert kernel.rules == old(kernel).rules;
        }
        return false;
      }
      kernel := kernel.(routes := kernel.routes + {(family, routeTable)});
      return true;
    }

    /** Policy routing first, IPv6 only when some subnet is IPv6; then the table. */
    method Setup(inp: FirewallInput, works: Command -> bool) returns (ok: bool)
      modifies this`subnets, this`excludes, this`proxyPort, this`kernel
      ensures subnets == inp.subnets && excludes == inp.excludes && proxyPort == inp.proxyPort
      ensures ok == CanSetup(old(kernel), fwmark, routeTable, inp, works)
      ensures kernel == AfterSetup(old(kernel), fwmark, routeTable, blockIPv6, inp, works)
    {
      subnets, excludes, proxyPort := inp.subnets, inp.excludes, inp.proxyPort;
      var _, v6Subnets := SplitByFamily(inp.subnets);
      HasFamilyIff(inp, V6);
      FamiliesApart(kernel, fwmark, routeTable, works);
      ok := RoutePolicy(V4, works);
      if !ok {
        return;
      }
      if |v6Subnets| > 0 {
        ok := RoutePolicy(V6, works);
        if !ok {
          return;
        }
      }
      ok := Load(inp, works(LoadTable));
    }

    method Load(inp: FirewallInput, loads: bool) returns (ok: bool)
      modifies this`kernel
      ensures ok == loads
      ensures kernel == old(kernel).(table := if loads then Some(TproxyRules(fwmark, blockIPv6, inp)) else None)
    {
      kernel := kernel.(table := None);
      var rules := BuildNftRules(inp);
      if !loads {
        return false;
      }
      kernel := kernel.(table := Some(rules));
      return true;
    }

    method Unroute(family: Family, mark: nat, routes: nat, works: Command -> bool)
      modifies this`kernel
      ensures kernel == Unrouted(old(kernel), family, mark, routes, works)
    {
      if works(DelRule(family)) {
        kernel := kernel.(rules := kernel.rules - {PolicyRule(family, mark, routes)});
      }
      if works(DelRoute(family)) {
        kernel := kernel.(routes := kernel.routes - {(family, routes)});
      }
    }

    /** Deletes the rule and the route of both families, and the table; errors are passed over. */
    method Restore(works: Command -> bool)
      modifies this`kernel
      ensures kernel == Restored(old(kernel), fwmark, routeTable, works)
    {
      Unroute(V4, fwmark, routeTable, works);
      Unroute(V6, fwmark, routeTable, works);
      if works(DeleteTable) {
        kernel := kernel.(table := None);
      }
    }

    /** Restores, then sets up again from the stored rules without DNS. */
    method DisableDNS(undoes: Command -> bool, works: Command -> bool) returns (ok: bool)
      modifies this`subnets, this`excludes, this`proxyPort, this`kernel
      ensures subnets == old(subnets) && excludes == old(excludes) && proxyPort == old(proxyPort)
      ensures var off, k := FirewallInput(subnets, excludes, proxyPort, 0, []),
              Restored(old(kernel), fwmark, routeTable, undoes);
              && ok == CanSetup(k, fwmark, routeTable, off, works)
              && kernel == AfterSetup(k, fwmark, routeTable, blockIPv6, off, works)
    {
      Restore(undoes);
      ok := Setup(FirewallInput(subnets, excludes, proxyPort, 0, []), works);
    }

    /** Before every run: deletes the table and the routing of the default mark and routing table. */
    method CleanStaleAnchors(works: Command -> bool)
      modifies this`kernel
      ensures kernel == Restored(old(kernel), 1, 100, works)
    {
      if works(DeleteTable) {
        kernel := kernel.(table := None);
      }
      Unroute(V4, DEFAULT_MARK, DEFAULT_ROUTES, works);
      Unroute(V6, DEFAULT_MARK, DEFAULT_ROUTES, works);
    }
  }

  // ---- what set-up and undo leave

  /** Trying one family does not get in the way of the other. */
  lemma FamiliesApart(k: Kernel, mark: nat, routes: nat, works: Command -> bool)
    ensures CanRoute(Routed(k, V4, mark, routes, works), V6, mark, routes, works) ==
            CanRoute(k, V6, mark, routes, works)
  {
  }

  /** A successful Setup loads the table and leaves IPv4 routing; IPv6 packets are routed when some subnet is
      IPv6, or when an earlier run left their routing behind. */
  lemma SetupRoutes(k: Kernel, mark: nat, routes: nat, blockIPv6: bool, inp: FirewallInput, works: Command -> bool)
    requires CanSetup(k, mark, routes, inp, works)
    ensures var after := AfterSetup(k, mark, routes, blockIPv6, inp, works);
            && after.table == Some(TproxyRules(mark, blockIPv6, inp))
            && PolicyOf(after, mark, routes) == Policy(true, HasFamily(inp, V6) || PolicyOf(k, mark, routes).v6)
  {
    FamiliesApart(k, mark, routes, works);
  }

  /** A Setup in which any commands fail, then a Restore that works: everything but the table is as before if
      and only if no routing of the mark was in the way before. */
  lemma RestoreUndoesIff(k: Kernel, mark: nat, routes: nat, blockIPv6: bool, inp: FirewallInput,
                         works: Command -> bool, undoes: Command -> bool)
    requires forall c :: undoes(c)
    ensures Restored(AfterSetup(k, mark, routes, blockIPv6, inp, works), mark, routes, undoes) == k.(table := None) <==>
            Free(k, V4, mark, routes) && Free(k, V6, mark, routes)
  {
    var after := Restored(AfterSetup(k, mark, routes, blockIPv6, inp, works), mark, routes, undoes);
    var rules, locals := {PolicyRule(V4, mark, routes), PolicyRule(V6, mark, routes)}, {(V4, routes), (V6, routes)};
    assert after.rules == k.rules - rules;
    assert after.routes == k.routes - locals;
    assert k.rules - rules == k.rules <==> k.rules !! rules;
    assert k.routes - locals == k.routes <==> k.routes !! locals;
  }

  /** After a Restore that works, Setup succeeds if its own commands do, whatever was there. */
  lemma RestoredCanSetup(k: Kernel, mark: nat, routes: nat, inp: FirewallInput, undoes: Command -> bool,
                         works: Command -> bool)
    requires forall c :: undoes(c) && works(c)
    ensures CanSetup(Restored(k, mark, routes, undoes), mark, routes, inp, works)
  {
  }

  /** Main result: when a run that had set up is killed, the next run of the same settings, which cleans up stale
      anchors first, can set up if and only if mark and routing table are the default ones. */
  lemma CanSetupAfterCrashIff(k: Kernel, mark: nat, routes: nat, blockIPv6: bool, inp: FirewallInput,
                              again: FirewallInput, works: Command -> bool)
    requires CanSetup(k, mark, routes, inp, works) && forall c :: works(c)
    ensures CanSetup(Restored(AfterSetup(k, mark, routes, blockIPv6, inp, works), DEFAULT_MARK, DEFAULT_ROUTES, works),
                     mark, routes, again, works) <==>
            mark == 1 && routes == 100
  {
    var crashed := AfterSetup(k, mark, routes, blockIPv6, inp, works);
    assert PolicyRule(V4, mark, routes) in crashed.rules;
  }

  // ---- soundness of the two phases together

  /** The TCP packets sent from here that reach the proxy port, in the terms of the rules themselves. */
  lemma DeliveredByFields(fwmark: nat, blockIPv6: bool, inp: FirewallInput, p: Packet)
    requires p.proto == Tcp
    ensures Outcome(fwmark, SetupPolicy(inp), TproxyRules(fwmark, blockIPv6, inp), p) == Delivered(inp.proxyPort) <==>
            && ((!p.dstLocal && p.mark != 0x4e46) || p.mark == fwmark)
            && !(blockIPv6 && p.family == V6 && !Whitelisted6(p.dst))
            && (exists s :: s in inp.subnets && s.cidr.family == p.family && s.cidr.prefix <= p.dst &&
                  (if s.portLow <= 0 || s.portHigh <= 0 then p.dport != inp.proxyPort
                   else s.portLow <= p.dport <= s.portHigh))
            && !(exists c :: c in inp.excludes && c.family == p.family && c.prefix <= p.dst)
  {
    TproxyCompilesDecision(fwmark, blockIPv6, SetupPolicy(inp), inp, p);
    ClaimByFields(inp, p);
    if ClaimDecision(inp, p).Delivered? {
      TcpClaimHasFamily(inp, p);
    }
  }

  lemma ClaimByFields(inp: FirewallInput, p: Packet)
    requires p.proto == Tcp
    ensures ClaimDecision(inp, p) ==
            if && (exists s :: s in inp.subnets && s.cidr.family == p.family && s.cidr.prefix <= p.dst &&
                     (if s.portLow <= 0 || s.portHigh <= 0 then p.dport != inp.proxyPort
                      else s.portLow <= p.dport <= s.portHigh))
               && !(exists c :: c in inp.excludes && c.family == p.family && c.prefix <= p.dst)
            then Delivered(inp.proxyPort) else Unclaimed
  {
  }

  /** The routing a successful Setup leaves. */
  ghost function SetupPolicy(inp: FirewallInput): Policy {
    Policy(true, HasFamily(inp, V6))
  }

  /** Every TCP packet the output chain marks has policy routing for its family and is then claimed
      for the proxy port: none is looped to lo without a listener. */
  lemma MarkedTcpIsClaimed(fwmark: nat, blockIPv6: bool, inp: FirewallInput, p: Packet)
    requires p.proto == Tcp && p.mark != fwmark
    requires Walk(p, TproxyRules(fwmark, blockIPv6, inp).output).mark == fwmark
    ensures SetupPolicy(inp).Has(p.family)
    ensures Walk(p.(mark := fwmark), TproxyRules(fwmark, blockIPv6, inp).prerouting) ==
            State(Some(TProxy(inp.proxyPort, fwmark)), fwmark)
  {
    WalkOutput(fwmark, blockIPv6, inp, p);
    var q := p.(mark := fwmark);
    ClaimIgnoresMark(inp, p, fwmark);
    WalkUnguarded(q, inp, TProxy(inp.proxyPort, fwmark), TProxy(inp.dnsPort, fwmark));
    TcpClaimHasFamily(inp, p);
  }

  /** Without the IPv6 block in its way, a DNS query the output chain marks reaches the DNS listener exactly when its
      family has policy routing: always for IPv4, and for IPv6 only if some subnet is IPv6. Otherwise it goes out
      directly. */
  lemma MarkedDnsIsClaimedIff(fwmark: nat, blockIPv6: bool, inp: FirewallInput, p: Packet)
    requires p.proto == Udp && p.mark != fwmark
    requires Walk(p, TproxyRules(fwmark, blockIPv6, inp).output).mark == fwmark
    ensures Outcome(fwmark, SetupPolicy(inp), TproxyRules(fwmark, blockIPv6, inp), p) ==
            if blockIPv6 && p.family == V6 && !Whitelisted6(p.dst) then Rejected
            else if p.family == V4 || HasFamily(inp, V6) then Delivered(inp.dnsPort)
            else Direct
  {
    WalkOutput(fwmark, blockIPv6, inp, p);
    TproxyCompilesDecision(fwmark, blockIPv6, SetupPolicy(inp), inp, p);
  }

  /** After Setup, a packet is looped to lo and lost exactly when it already carried the routing mark, is not
      one the chains would capture, and is not stopped by the IPv6 block. */
  lemma UnclaimedIff(fwmark: nat, blockIPv6: bool, inp: FirewallInput, p: Packet)
    ensures Outcome(fwmark, SetupPolicy(inp), TproxyRules(fwmark, blockIPv6, inp), p) == Unclaimed <==>
            && p.mark == fwmark && SetupPolicy(inp).Has(p.family) && ClaimDecision(inp, p) == Unclaimed
            && !(blockIPv6 && p.family == V6 && !Whitelisted6(p.dst))
  {
    TproxyCompilesDecision(fwmark, blockIPv6, SetupPolicy(inp), inp, p);
  }

  /** Without DNS every TCP packet fares as before and nothing else is delivered. */
  lemma DisableDnsConservative(fwmark: nat, blockIPv6: bool, inp: FirewallInput, p: Packet)
    ensures var off := inp.WithoutDns();
            var with := Outcome(fwmark, SetupPolicy(inp), TproxyRules(fwmark, blockIPv6, inp), p);
            var without := Outcome(fwmark, SetupPolicy(off), TproxyRules(fwmark, blockIPv6, off), p);
            if p.proto == Tcp then without == with else !without.Delivered?
  {
    var off := inp.WithoutDns();
    TproxyCompilesDecision(fwmark, blockIPv6, SetupPolicy(inp), inp, p);
    TproxyCompilesDecision(fwmark, blockIPv6, SetupPolicy(off), off, p);
    DecisionWithoutDns(fwmark, blockIPv6, inp, p);
  }

  lemma DecisionWithoutDns(fwmark: nat, blockIPv6: bool, inp: FirewallInput, p: Packet)
    ensures var off := inp.WithoutDns();
            var with := OutcomeDecision(fwmark, blockIPv6, SetupPolicy(inp), inp, p);
            var without := OutcomeDecision(fwmark, blockIPv6, SetupPolicy(off), off, p);
            if p.proto == Tcp then without == with else !without.Delivered?
  {
    ClaimWithoutDns(inp, p);
    assert HasFamily(inp.WithoutDns(), V6) == HasFamily(inp, V6);
  }

  /** A TCP packet that is claimed is of a family with subnets. */
  lemma TcpClaimHasFamily(inp: FirewallInput, p: Packet)
    requires p.proto == Tcp && ClaimDecision(inp, p).Delivered?
    ensures HasFamily(inp, p.family)
  {
    var s :| s in inp.subnets && s.cidr.family == p.family && s.cidr.prefix <= p.dst &&
             (if s.portLow <= 0 || s.portHigh <= 0 then p.dport != inp.proxyPort
              else s.portLow <= p.dport <= s.portHigh);
    assert HasFamily(inp, p.family);
  }

  lemma ClaimWithoutDns(inp: FirewallInput, p: Packet)
    ensures p.proto == Tcp ==> ClaimDecision(inp.WithoutDns(), p) == ClaimDecision(inp, p)
    ensures p.proto != Tcp ==> !ClaimDecision(inp.WithoutDns(), p).Delivered?
  {
    var off := inp.WithoutDns();
    assert Excluded(off, p) == Excluded(inp, p);
    assert InSubnetsBesideProxy(off, p) == InSubnetsBesideProxy(inp, p);
  }
}
