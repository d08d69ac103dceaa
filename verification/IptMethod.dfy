/**
 The iptables backend: tables changed command by command, and the undo that must clean up after
 any part of a setup, including one cut short or one in which commands failed.
 */
module IptMethod {
  import opened Wrappers
  import opened Net
  import opened Netfilter
  import Nft = NftMethod

  /** What a chain holds: the backend's match rules, jumps to user chains, and everything else. */
  datatype Entry = Match(rule: Rule) | Jump(chain: string) | Foreign(text: string)

  /** The chains of one table of one address family. */
  type Chains = map<string, seq<Entry>>

  const OUTPUT := "OUTPUT"
  const PREROUTING := "PREROUTING"

  // ---- the commands

  datatype Command =
    | New(chain: string)
    | Append(chain: string, entry: Entry)
    | Insert(chain: string, entry: Entry)
    | Delete(chain: string, entry: Entry)
    | Flush(chain: string)
    | Drop(chain: string)

  function RemoveFirst<T(==)>(entries: seq<T>, e: T): seq<T> {
    if entries == [] then []
    else if entries[0] == e then entries[1..]
    else [entries[0]] + RemoveFirst(entries[1..], e)
  }

  predicate Referenced(t: Chains, chain: string) {
    exists c :: c in t && Jump(chain) in t[c]
  }

  /** A rule may only jump to an existing chain; only an empty, unreferenced chain can be deleted. */
  predicate Legal(t: Chains, cmd: Command) {
    match cmd
    case New(c) => c !in t
    case Append(c, e) => c in t && (e.Jump? ==> e.chain in t)
    case Insert(c, e) => c in t && (e.Jump? ==> e.chain in t)
    case Delete(c, e) => c in t && e in t[c]
    case Flush(c) => c in t
    case Drop(c) => c in t && t[c] == [] && !Referenced(t, c)
  }

  /** A command that is not legal fails and changes nothing. */
  function Exec(t: Chains, cmd: Command): Chains {
    if !Legal(t, cmd) then t
    else
      match cmd
      case New(c) => t[c := []]
      case Append(c, e) => t[c := t[c] + [e]]
      case Insert(c, e) => t[c := [e] + t[c]]
      case Delete(c, e) => t[c := RemoveFirst(t[c], e)]
      case Flush(c) => t[c := []]
      case Drop(c) => t - {c}
  }

  // ---- what is installed

  function Entries(rules: seq<Rule>): seq<Entry> {
    if rules == [] then [] else Entries(rules[..|rules| - 1]) + [Match(rules[|rules| - 1])]
  }

  /** The nat chain of one family. */
  function NatRules(inp: FirewallInput, family: Family): seq<Rule> {
    GUARDS + ExcludeRules(CidrsOf(inp.excludes, family)) +
    CaptureRules(SubnetsOf(inp.subnets, family), inp.proxyPort, Redirect(inp.proxyPort)) +
    DnsOfFamily(inp, family)
  }

  function DnsOfFamily(inp: FirewallInput, family: Family): seq<Rule> {
    if inp.dnsPort > 0 then HostDnsRules(ServersOf(inp.dnsServers, family), family, Redirect(inp.dnsPort)) else []
  }

  function InstalledNat(base: Chains, chain: string, rules: seq<Rule>): Chains
    requires OUTPUT in base && PREROUTING in base
  {
    base[chain := Entries(rules)]
        [OUTPUT := base[OUTPUT] + [Jump(chain)]]
        [PREROUTING := base[PREROUTING] + [Jump(chain)]]
  }

  function InstalledBlock(base: Chains, chain: string): Chains
    requires OUTPUT in base
  {
    base[chain := Entries(BLOCK6)][OUTPUT := [Jump(chain)] + base[OUTPUT]]
  }

  predicate NeedsNat6(inp: FirewallInput) {
    |SubnetsOf(inp.subnets, V6)| > 0 || DnsOn(inp, V6)
  }

  // ---- plans: the commands a run issues to one table

  /** One command of a run; a `must` step that fails ends the run. */
  datatype Step = Step(cmd: Command, must: bool)

  /** A table after a run, how many commands were issued to it so far, and whether the run went to its end. */
  datatype Ran = Ran(chains: Chains, clock: nat, ok: bool)

  /** Runs a plan. `works(i)` is whether the i-th command issued to the table goes through; one that does
      not has no effect, so a run cut short is one whose later commands all fail. */
  function Play(t: Chains, plan: seq<Step>, works: nat -> bool, clock: nat): Ran
    decreases |plan|
  {
    if plan == [] then Ran(t, clock, true)
    else
      var next := if works(clock) then Exec(t, plan[0].cmd) else t;
      if plan[0].must && !(works(clock) && Legal(t, plan[0].cmd)) then Ran(next, clock + 1, false)
      else Play(next, plan[1..], works, clock + 1)
  }

  function Steps(chain: string, rules: seq<Rule>, must: bool): (r: seq<Step>)
    ensures |r| == |rules|
  {
    seq(|rules|, i requires 0 <= i < |rules| => Step(Append(chain, Match(rules[i])), must))
  }

  /** `-N chain`, then a jump appended to OUTPUT and to PREROUTING. */
  function HookSteps(chain: string): seq<Step> {
    [Step(New(chain), false), Step(Append(OUTPUT, Jump(chain)), false), Step(Append(PREROUTING, Jump(chain)), false)]
  }

  /** The chain, hooked, then its rules. Only a failing subnet rule
      ends the run. */
  function NatPlan(chain: string, inp: FirewallInput, family: Family): seq<Step> {
    HookSteps(chain) +
    (Steps(chain, GUARDS, false) +
     (Steps(chain, ExcludeRules(CidrsOf(inp.excludes, family)), false) +
      (Steps(chain, CaptureRules(SubnetsOf(inp.subnets, family), inp.proxyPort, Redirect(inp.proxyPort)), true) +
       Steps(chain, DnsOfFamily(inp, family), false))))
  }

  /** The IPv6 chain is only made when anything needs it. */
  function Nat6Plan(inp: FirewallInput): seq<Step> {
    if NeedsNat6(inp) then NatPlan(NAT6, inp, V6) else []
  }

  /** The block chain is filled first and then hooked at the head of OUTPUT. */
  function BlockPlan(block: bool): seq<Step> {
    if block
    then [Step(New(BLOCK), false)] + (Steps(BLOCK, BLOCK6, false) + [Step(Insert(OUTPUT, Jump(BLOCK)), false)])
    else []
  }

  /** Unhook, flush, delete. */
  function UndoPlan(hooks: seq<string>, chain: string): seq<Step> {
    if hooks == [] then [Step(Flush(chain), false), Step(Drop(chain), false)]
    else [Step(Delete(hooks[0], Jump(chain)), false)] + UndoPlan(hooks[1..], chain)
  }

  // ---- the tables and the method object

  /** One kernel table. */
  class Table {
    var chains: Chains
    var clock: nat
    const works: nat -> bool

    constructor (chains: Chains, works: nat -> bool)
      ensures this.chains == chains && clock == 0 && this.works == works
    {
      this.chains, this.clock, this.works := chains, 0, works;
    }

    ghost function After(plan: seq<Step>): Ran
      reads this
    {
      Play(chains, plan, works, clock)
    }

    ghost predicate Is(r: Ran)
      reads this
    {
      chains == r.chains && clock == r.clock
    }

    /** Issues the next command of a plan. */
    method Issue(ghost plan: seq<Step>, cmd: Command) returns (ok: bool)
      requires plan != [] && plan[0].cmd == cmd
      modifies this
      ensures chains == if works(old(clock)) then Exec(old(chains), cmd) else old(chains)
      ensures clock == old(clock) + 1
      ensures ok == (works(old(clock)) && Legal(old(chains), cmd))
      ensures ok || !plan[0].must ==> After(plan[1..]) == old(After(plan))
      ensures !ok && plan[0].must ==> old(After(plan)) == Ran(chains, clock, false)
    {
      ok := works(clock) && Legal(chains, cmd);
      if works(clock) {
        chains := Exec(chains, cmd);
      }
      clock := clock + 1;
    }

    method FillExcludes(ghost rest: seq<Step>, chain: string, excludes: seq<Cidr>)
      modifies this
      ensures After(rest) == old(After(Steps(chain, ExcludeRules(excludes), false) + rest))
    {
      ghost var plan := Steps(chain, ExcludeRules(excludes), false) + rest;
      ExcludeRulesAt(excludes);
      for i := 0 to |excludes|
        invariant After(plan[i..]) == old(After(plan))
      {
        var _ := Issue(plan[i..], Append(chain, Match(Rule(To(InNet(excludes[i]), AnyL4), Return))));
        assert plan[i..][1..] == plan[i + 1..];
      }
      assert plan[|excludes|..] == rest;
    }

    /** Stops at the first rule that fails. */
    method FillCaptures(ghost rest: seq<Step>, chain: string, subnets: seq<SubnetRule>, proxyPort: nat)
      returns (ok: bool)
      modifies this
      ensures var before := old(After(Steps(chain, CaptureRules(subnets, proxyPort, Redirect(proxyPort)), true) +
                                      rest));
              if ok then After(rest) == before else Ran(chains, clock, false) == before
    {
      ghost var plan := Steps(chain, CaptureRules(subnets, proxyPort, Redirect(proxyPort)), true) + rest;
      CaptureRulesAt(subnets, proxyPort, Redirect(proxyPort));
      for i := 0 to |subnets|
        invariant After(plan[i..]) == old(After(plan))
      {
        var ports := if subnets[i].HasPortRange() then PortRange(subnets[i].portLow, subnets[i].portHigh)
                     else NotPort(proxyPort);
        ok := Issue(plan[i..], Append(chain,
                                      Match(Rule(To(InNet(subnets[i].cidr), TcpPort(ports)), Redirect(proxyPort)))));
        if !ok {
          return;
        }
        assert plan[i..][1..] == plan[i + 1..];
      }
      assert plan[|subnets|..] == rest;
      return true;
    }

    method FillDns(chain: string, servers: seq<Bits>, family: Family, dnsPort: int)
      modifies this
      ensures Is(old(After(Steps(chain, HostDnsRules(servers, family, Redirect(dnsPort)), false))))
      ensures old(After(Steps(chain, HostDnsRules(servers, family, Redirect(dnsPort)), false))).ok
    {
      ghost var plan := Steps(chain, HostDnsRules(servers, family, Redirect(dnsPort)), false);
      HostDnsRulesAt(servers, family, Redirect(dnsPort));
      assert plan[0..] == plan;
      for i := 0 to |servers|
        invariant After(plan[i..]) == old(After(plan))
      {
        var rule := Rule(To(OneHost(family, servers[i]), UdpPort(PortRange(53, 53))), Redirect(dnsPort));
        var _ := Issue(plan[i..], Append(chain, Match(rule)));
        assert plan[i..][1..] == plan[i + 1..];
      }
    }

    /** `-N chain`, the jumps and the guards. */
    method Hook(ghost rest: seq<Step>, chain: string)
      modifies this
      ensures After(rest) == old(After(HookSteps(chain) + (Steps(chain, GUARDS, false) + rest)))
    {
      ghost var plan := HookSteps(chain) + (Steps(chain, GUARDS, false) + rest);
      var _ := Issue(plan, New(chain));
      var _ := Issue(plan[1..], Append(OUTPUT, Jump(chain)));
      assert plan[1..][1..] == plan[2..];
      var _ := Issue(plan[2..], Append(PREROUTING, Jump(chain)));
      assert plan[2..][1..] == plan[3..];
      var _ := Issue(plan[3..], Append(chain, Match(Rule(IsLocal, Return))));
      assert plan[3..][1..] == plan[4..];
      var _ := Issue(plan[4..], Append(chain, Match(Rule(HasMark(BYPASS_MARK), Return))));
      assert plan[4..][1..] == rest;
    }

    /** Creates the nat chain, hooks it, and fills it; stops at the first subnet rule that fails. */
    method PlantNat(chain: string, inp: FirewallInput, family: Family, excludes: seq<Cidr>,
                    subnets: seq<SubnetRule>, servers: seq<Bits>)
      returns (ok: bool)
      requires excludes == CidrsOf(inp.excludes, family) && subnets == SubnetsOf(inp.subnets, family)
      requires servers == ServersOf(inp.dnsServers, family)
      modifies this
      ensures Ran(chains, clock, ok) == old(After(NatPlan(chain, inp, family)))
    {
      ghost var dns := Steps(chain, DnsOfFamily(inp, family), false);
      ghost var captures := Steps(chain, CaptureRules(subnets, inp.proxyPort, Redirect(inp.proxyPort)), true);
      Hook(Steps(chain, ExcludeRules(excludes), false) + (captures + dns), chain);
      FillExcludes(captures + dns, chain, excludes);
      ok := FillCaptures(dns, chain, subnets, inp.proxyPort);
      if ok && inp.dnsPort > 0 {
        FillDns(chain, servers, family, inp.dnsPort);
      }
    }

    /** Creates and fills the IPv6 block chain, then hooks it. */
    method PlantBlock()
      modifies this
      ensures Is(old(After(BlockPlan(true))))
    {
      ghost var plan := BlockPlan(true);
      BlockPlanSteps(plan);
      var _ := Issue(plan, New(BLOCK));
      var _ := Issue(plan[1..], Append(BLOCK, Match(Rule(To(InNet(LOOPBACK6), AnyL4), Return))));
      assert plan[1..][1..] == plan[2..];
      var _ := Issue(plan[2..], Append(BLOCK, Match(Rule(To(InNet(LINK_LOCAL6), AnyL4), Return))));
      assert plan[2..][1..] == plan[3..];
      var _ := Issue(plan[3..], Append(BLOCK, Match(Rule(To(InNet(MULTICAST6), AnyL4), Return))));
      assert plan[3..][1..] == plan[4..];
      var _ := Issue(plan[4..], Append(BLOCK, Match(Rule(To(AnyOf(V6), AnyL4), Reject))));
      assert plan[4..][1..] == plan[5..];
      var _ := Issue(plan[5..], Insert(OUTPUT, Jump(BLOCK)));
      assert plan[5..][1..] == [];
    }

    /** Unhooks, flushes and deletes the chain. */
    method Unplant(hooks: seq<string>, chain: string)
      modifies this
      ensures Is(old(After(UndoPlan(hooks, chain))))
    {
      for i := 0 to |hooks|
        invariant After(UndoPlan(hooks[i..], chain)) == old(After(UndoPlan(hooks, chain)))
      {
        assert hooks[i..][1..] == hooks[i + 1..];
        var _ := Issue(UndoPlan(hooks[i..], chain), Delete(hooks[i], Jump(chain)));
        assert UndoPlan(hooks[i..], chain)[1..] == UndoPlan(hooks[i + 1..], chain);
      }
      ghost var last := UndoPlan([], chain);
      var _ := Issue(last, Flush(chain));
      var _ := Issue(last[1..], Drop(chain));
      assert last[1..][1..] == [];
    }
  }

  lemma BlockPlanSteps(plan: seq<Step>)
    requires plan == BlockPlan(true)
    ensures |plan| == 6 && plan[0].cmd == New(BLOCK) && plan[5].cmd == Insert(OUTPUT, Jump(BLOCK))
    ensures plan[1].cmd == Append(BLOCK, Match(Rule(To(InNet(LOOPBACK6), AnyL4), Return)))
    ensures plan[2].cmd == Append(BLOCK, Match(Rule(To(InNet(LINK_LOCAL6), AnyL4), Return)))
    ensures plan[3].cmd == Append(BLOCK, Match(Rule(To(InNet(MULTICAST6), AnyL4), Return)))
    ensures plan[4].cmd == Append(BLOCK, Match(Rule(To(AnyOf(V6), AnyL4), Reject)))
    ensures forall i :: 0 <= i < 6 ==> !plan[i].must
  {
  }

  lemma {:induction false} ExcludeRulesAt(excludes: seq<Cidr>)
    ensures |ExcludeRules(excludes)| == |excludes|
    ensures forall i :: 0 <= i < |excludes| ==> ExcludeRules(excludes)[i] == ExcludeRule(excludes[i])
  {
    if excludes != [] {
      ExcludeRulesAt(excludes[..|excludes| - 1]);
    }
  }

  lemma {:induction false} CaptureRulesAt(subnets: seq<SubnetRule>, proxyPort: int, v: Verdict)
    ensures |CaptureRules(subnets, proxyPort, v)| == |subnets|
    ensures forall i :: 0 <= i < |subnets| ==>
            CaptureRules(subnets, proxyPort, v)[i] == CaptureRule(subnets[i], proxyPort, v)
  {
    if subnets != [] {
      CaptureRulesAt(subnets[..|subnets| - 1], proxyPort, v);
    }
  }

  lemma {:induction false} HostDnsRulesAt(servers: seq<Bits>, family: Family, v: Verdict)
    ensures |HostDnsRules(servers, family, v)| == |servers|
    ensures forall i :: 0 <= i < |servers| ==>
              HostDnsRules(servers, family, v)[i] ==
              Rule(To(OneHost(family, servers[i]), UdpPort(PortRange(53, 53))), v)
  {
    if servers != [] {
      HostDnsRulesAt(servers[..|servers| - 1], family, v);
    }
  }

  const NAT4 := "NETFERRY"
  const NAT6 := "NETFERRY6"
  const BLOCK := "NETFERRY6_BLOCK"
  const HOOKS := [OUTPUT, PREROUTING]

  class Method {
    var blockIPv6: bool
    var subnets: seq<SubnetRule>
    var excludes: seq<Cidr>
    var proxyPort: nat
    const nat4: Table
    const nat6: Table
    const filter6: Table

    constructor (nat4: Table, nat6: Table, filter6: Table)
      ensures this.nat4 == nat4 && this.nat6 == nat6 && this.filter6 == filter6 && !blockIPv6
    {
      this.nat4, this.nat6, this.filter6 := nat4, nat6, filter6;
      blockIPv6, subnets, excludes, proxyPort := false, [], [], 0;
    }

    ghost predicate Separate() {
      nat4 != nat6 && nat4 != filter6 && nat6 != filter6
    }

    method SetBlockIPv6(block: bool)
      modifies this`blockIPv6
      ensures blockIPv6 == block
    {
      blockIPv6 := block;
    }

    /** The IPv6 nat chain, when anything needs it. */
    method SetupNat6(inp: FirewallInput) returns (ok: bool)
      modifies nat6
      ensures Ran(nat6.chains, nat6.clock, ok) == old(nat6.After(Nat6Plan(inp)))
    {
      var _, v6Subnets := SplitByFamily(inp.subnets);
      var _, v6Excludes := SplitExcludesByFamily(inp.excludes);
      var _, v6DNS := SplitDNSByFamily(inp.dnsServers);
      ok := true;
      if |v6Subnets| > 0 || (inp.dnsPort > 0 && |v6DNS| > 0) {
        ok := nat6.PlantNat(NAT6, inp, V6, v6Excludes, v6Subnets, v6DNS);
      }
    }

    method SetupNat4(inp: FirewallInput) returns (ok: bool)
      modifies nat4
      ensures Ran(nat4.chains, nat4.clock, ok) == old(nat4.After(NatPlan(NAT4, inp, V4)))
    {
      var v4Subnets, _ := SplitByFamily(inp.subnets);
      var v4Excludes, _ := SplitExcludesByFamily(inp.excludes);
      var v4DNS, _ := SplitDNSByFamily(inp.dnsServers);
      ok := nat4.PlantNat(NAT4, inp, V4, v4Excludes, v4Subnets, v4DNS);
    }

    /** IPv4, then IPv6, then the block, each only after the run before it went to its end. Whatever the
        tables hold and whichever commands fail. */
    method Setup(inp: FirewallInput) returns (ok: bool)
      requires Separate()
      modifies this`subnets, this`excludes, this`proxyPort, nat4, nat6, filter6
      ensures subnets == inp.subnets && excludes == inp.excludes && proxyPort == inp.proxyPort
      ensures var four, six := old(nat4.After(NatPlan(NAT4, inp, V4))), old(nat6.After(Nat6Plan(inp)));
              && ok == (four.ok && six.ok)
              && nat4.Is(four)
              && (if four.ok then nat6.Is(six) else unchanged(nat6))
              && (if ok then filter6.Is(old(filter6.After(BlockPlan(blockIPv6)))) else unchanged(filter6))
    {
      subnets, excludes, proxyPort := inp.subnets, inp.excludes, inp.proxyPort;
      ok := SetupNat4(inp);
      if !ok {
        return;
      }
      ok := SetupNat6(inp);
      if !ok {
        return;
      }
      if blockIPv6 {
        filter6.PlantBlock();
      }
    }

    /** Undoes all three chains; commands that fail are passed over. */
    method Restore()
      requires Separate()
      modifies nat4, nat6, filter6
      ensures nat4.Is(old(nat4.After(UndoPlan(HOOKS, NAT4))))
      ensures nat6.Is(old(nat6.After(UndoPlan(HOOKS, NAT6))))
      ensures filter6.Is(old(filter6.After(UndoPlan([OUTPUT], BLOCK))))
    {
      nat4.Unplant([OUTPUT, PREROUTING], NAT4);
      nat6.Unplant([OUTPUT, PREROUTING], NAT6);
      filter6.Unplant([OUTPUT], BLOCK);
    }

    /** Undo, then set up again from the stored rules without DNS. */
    method DisableDNS() returns (ok: bool)
      requires Separate()
      modifies this`subnets, this`excludes, this`proxyPort, nat4, nat6, filter6
      ensures subnets == old(subnets) && excludes == old(excludes) && proxyPort == old(proxyPort)
      ensures var off := FirewallInput(subnets, excludes, proxyPort, 0, []);
              var u4, u6, uF := old(nat4.After(UndoPlan(HOOKS, NAT4))), old(nat6.After(UndoPlan(HOOKS, NAT6))),
                                old(filter6.After(UndoPlan([OUTPUT], BLOCK)));
              var four := Play(u4.chains, NatPlan(NAT4, off, V4), nat4.works, u4.clock);
              var six := Play(u6.chains, Nat6Plan(off), nat6.works, u6.clock);
              && ok == (four.ok && six.ok)
              && nat4.Is(four)
              && nat6.Is(if four.ok then six else u6)
              && filter6.Is(if ok then Play(uF.chains, BlockPlan(blockIPv6), filter6.works, uF.clock) else uF)
    {
      Restore();
      ok := Setup(FirewallInput(subnets, excludes, proxyPort, 0, []));
    }
  }

  // ---- runs in which every command goes through

  ghost predicate Reliable(works: nat -> bool, clock: nat) {
    forall i :: clock <= i ==> works(i)
  }

  function Undo(t: Chains, hooks: seq<string>, chain: string): Chains {
    Exec(Exec(Unhook(t, hooks, chain), Flush(chain)), Drop(chain))
  }

  function Unhook(t: Chains, hooks: seq<string>, chain: string): Chains {
    if hooks == [] then t else Unhook(Exec(t, Delete(hooks[0], Jump(chain))), hooks[1..], chain)
  }

  lemma {:induction false} ReliableUndo(t: Chains, hooks: seq<string>, chain: string, works: nat -> bool, clock: nat)
    requires Reliable(works, clock)
    ensures Play(t, UndoPlan(hooks, chain), works, clock).chains == Undo(t, hooks, chain)
  {
    if hooks == [] {
      var plan := UndoPlan(hooks, chain);
      var flushed := Exec(t, Flush(chain));
      assert Play(flushed, plan[1..], works, clock + 1).chains == Exec(flushed, Drop(chain));
    } else {
      ReliableUndo(Exec(t, Delete(hooks[0], Jump(chain))), hooks[1..], chain, works, clock + 1);
      assert UndoPlan(hooks, chain)[1..] == UndoPlan(hooks[1..], chain);
    }
  }

  lemma {:induction false} ReliableRules(t: Chains, chain: string, rules: seq<Rule>, must: bool,
                                         rest: seq<Step>, works: nat -> bool, clock: nat)
    requires Reliable(works, clock) && chain in t
    ensures Play(t, Steps(chain, rules, must) + rest, works, clock) ==
            Play(t[chain := t[chain] + Entries(rules)], rest, works, clock + |rules|)
  {
    var plan := Steps(chain, rules, must) + rest;
    if rules == [] {
      assert plan == rest && t[chain] + [] == t[chain];
      assert t[chain := t[chain] + []] == t;
    } else {
      var first := t[chain := t[chain] + [Match(rules[0])]];
      assert plan[1..] == Steps(chain, rules[1..], must) + rest;
      ReliableRules(first, chain, rules[1..], must, rest, works, clock + 1);
      EntriesHead(rules);
      assert first[chain] + Entries(rules[1..]) == t[chain] + Entries(rules);
      assert first[chain := first[chain] + Entries(rules[1..])] == t[chain := t[chain] + Entries(rules)];
    }
  }

  lemma {:induction false} EntriesHead(rules: seq<Rule>)
    requires rules != []
    ensures Entries(rules) == [Match(rules[0])] + Entries(rules[1..])
  {
    var n := |rules| - 1;
    if n == 0 {
      assert rules[..0] == [];
    } else {
      EntriesHead(rules[..n]);
      assert rules[1..][..n - 1] == rules[..n][1..];
    }
  }

  lemma {:induction false} EntriesConcat(a: seq<Rule>, b: seq<Rule>)
    ensures Entries(a + b) == Entries(a) + Entries(b)
  {
    if b == [] {
      assert a + b == a;
    } else {
      EntriesConcat(a, b[..|b| - 1]);
      assert (a + b)[..|a + b| - 1] == a + b[..|b| - 1];
    }
  }

  /** A table that never heard of `chain` and has the hooks. */
  ghost predicate CleanOf(t: Chains, hooks: seq<string>, chain: string) {
    && (forall h :: h in hooks ==> h in t)
    && chain !in t && !Referenced(t, chain)
  }

  lemma ReliableHook(base: Chains, chain: string, rest: seq<Step>, works: nat -> bool, clock: nat)
    requires Reliable(works, clock) && CleanOf(base, HOOKS, chain)
    ensures OUTPUT in base && PREROUTING in base
    ensures Play(base, HookSteps(chain) + rest, works, clock) ==
            Play(InstalledNat(base, chain, []), rest, works, clock + 3)
  {
    assert HOOKS[0] == OUTPUT && HOOKS[1] == PREROUTING;
    var plan := HookSteps(chain) + rest;
    var made := base[chain := []];
    var hooked := made[OUTPUT := made[OUTPUT] + [Jump(chain)]];
    assert plan[1..][1..] == plan[2..] && plan[2..][1..] == plan[3..] == rest;
    assert Play(base, plan, works, clock) == Play(made, plan[1..], works, clock + 1);
    assert Play(made, plan[1..], works, clock + 1) == Play(hooked, plan[2..], works, clock + 2);
    assert hooked[PREROUTING := hooked[PREROUTING] + [Jump(chain)]] == InstalledNat(base, chain, []);
  }

  /** When every command works, set-up installs the whole chain. */
  lemma ReliableNat(base: Chains, chain: string, inp: FirewallInput, family: Family, works: nat -> bool, clock: nat)
    requires Reliable(works, clock) && CleanOf(base, HOOKS, chain)
    ensures OUTPUT in base && PREROUTING in base
    ensures var r := Play(base, NatPlan(chain, inp, family), works, clock);
            r.ok && r.chains == InstalledNat(base, chain, NatRules(inp, family))
  {
    var ex := ExcludeRules(CidrsOf(inp.excludes, family));
    var cap := CaptureRules(SubnetsOf(inp.subnets, family), inp.proxyPort, Redirect(inp.proxyPort));
    var ns := DnsOfFamily(inp, family);
    var dns := Steps(chain, ns, false);
    assert NatPlan(chain, inp, family) ==
           HookSteps(chain) + (Steps(chain, GUARDS, false) +
                               (Steps(chain, ex, false) + (Steps(chain, cap, true) + dns)));
    ReliableHook(base, chain, Steps(chain, GUARDS, false) +
                 (Steps(chain, ex, false) + (Steps(chain, cap, true) + dns)), works, clock);
    ReliableFill(base, chain, GUARDS, ex, cap, ns, works, clock + 3);
  }

  lemma ReliableFill(base: Chains, chain: string, guards: seq<Rule>, ex: seq<Rule>, cap: seq<Rule>,
                     ns: seq<Rule>, works: nat -> bool, clock: nat)
    requires Reliable(works, clock) && chain !in base && OUTPUT in base && PREROUTING in base
    ensures var r := Play(InstalledNat(base, chain, []),
                          Steps(chain, guards, false) +
                          (Steps(chain, ex, false) + (Steps(chain, cap, true) + Steps(chain, ns, false))),
                          works, clock);
            r.ok && r.chains == InstalledNat(base, chain, guards + ex + cap + ns)
  {
    assert [] + guards == guards;
    RulesInstalled(base, chain, [], guards, false,
                   Steps(chain, ex, false) + (Steps(chain, cap, true) + Steps(chain, ns, false)), works, clock);
    ReliableExcludes(base, chain, guards, ex, cap, ns, works, clock + |guards|);
  }

  lemma ReliableExcludes(base: Chains, chain: string, done: seq<Rule>, ex: seq<Rule>, cap: seq<Rule>,
                         ns: seq<Rule>, works: nat -> bool, clock: nat)
    requires Reliable(works, clock) && chain !in base && OUTPUT in base && PREROUTING in base
    ensures var r := Play(InstalledNat(base, chain, done),
                          Steps(chain, ex, false) + (Steps(chain, cap, true) + Steps(chain, ns, false)), works, clock);
            r.ok && r.chains == InstalledNat(base, chain, done + ex + cap + ns)
  {
    RulesInstalled(base, chain, done, ex, false, Steps(chain, cap, true) + Steps(chain, ns, false), works, clock);
    ReliableTail(base, chain, done + ex, cap, ns, works, clock + |ex|);
  }

  lemma ReliableTail(base: Chains, chain: string, done: seq<Rule>, cap: seq<Rule>, ns: seq<Rule>,
                     works: nat -> bool, clock: nat)
    requires Reliable(works, clock) && chain !in base && OUTPUT in base && PREROUTING in base
    ensures var r := Play(InstalledNat(base, chain, done), Steps(chain, cap, true) + Steps(chain, ns, false), works,
                          clock);
            r.ok && r.chains == InstalledNat(base, chain, done + cap + ns)
  {
    var dns := Steps(chain, ns, false);
    RulesInstalled(base, chain, done, cap, true, dns, works, clock);
    ReliableLast(base, chain, done + cap, ns, works, clock + |cap|);
  }

  lemma ReliableLast(base: Chains, chain: string, done: seq<Rule>, ns: seq<Rule>, works: nat -> bool, clock: nat)
    requires Reliable(works, clock) && chain !in base && OUTPUT in base && PREROUTING in base
    ensures Play(InstalledNat(base, chain, done), Steps(chain, ns, false), works, clock) ==
            Ran(InstalledNat(base, chain, done + ns), clock + |ns|, true)
  {
    assert Steps(chain, ns, false) + [] == Steps(chain, ns, false);
    RulesInstalled(base, chain, done, ns, false, [], works, clock);
  }

  lemma RulesInstalled(base: Chains, chain: string, done: seq<Rule>, rules: seq<Rule>, must: bool,
                       rest: seq<Step>, works: nat -> bool, clock: nat)
    requires Reliable(works, clock) && chain !in base && OUTPUT in base && PREROUTING in base
    ensures Play(InstalledNat(base, chain, done), Steps(chain, rules, must) + rest, works, clock) ==
            Play(InstalledNat(base, chain, done + rules), rest, works, clock + |rules|)
  {
    var t := InstalledNat(base, chain, done);
    ReliableRules(t, chain, rules, must, rest, works, clock);
    EntriesConcat(done, rules);
    assert t[chain := t[chain] + Entries(rules)] == InstalledNat(base, chain, done + rules);
  }

  lemma ReliableBlock(base: Chains, works: nat -> bool, clock: nat)
    requires Reliable(works, clock) && CleanOf(base, [OUTPUT], BLOCK)
    ensures OUTPUT in base && Play(base, BlockPlan(true), works, clock).chains == InstalledBlock(base, BLOCK)
  {
    assert [OUTPUT][0] == OUTPUT;
    var last := [Step(Insert(OUTPUT, Jump(BLOCK)), false)];
    var made := base[BLOCK := []];
    assert BlockPlan(true)[1..] == Steps(BLOCK, BLOCK6, false) + last;
    ReliableRules(made, BLOCK, BLOCK6, false, last, works, clock + 1);
    assert last[1..] == [];
    assert [] + Entries(BLOCK6) == Entries(BLOCK6);
    assert made[BLOCK := [] + Entries(BLOCK6)] == base[BLOCK := Entries(BLOCK6)];
  }

  // ---- what any run leaves behind

  /** The commands the backend issues about one chain. */
  predicate Ours(cmd: Command, hooks: seq<string>, chain: string) {
    match cmd
    case New(c) => c == chain
    case Append(c, e) => if c == chain then e.Match? else c in hooks && e == Jump(chain)
    case Insert(c, e) => c in hooks && e == Jump(chain)
    case Delete(c, e) => c in hooks && e == Jump(chain)
    case Flush(c) => c == chain
    case Drop(c) => c == chain
  }

  ghost predicate AllOurs(plan: seq<Step>, hooks: seq<string>, chain: string) {
    forall i :: 0 <= i < |plan| ==> Ours(plan[i].cmd, hooks, chain)
  }

  function Without<T(==)>(entries: seq<T>, e: T): seq<T> {
    if entries == [] then []
    else if entries[0] == e then Without(entries[1..], e)
    else [entries[0]] + Without(entries[1..], e)
  }

  /** The entries without the jumps to `chain`. */
  function Strip(entries: seq<Entry>, chain: string): seq<Entry> {
    Without(entries, Jump(chain))
  }

  /** `t` is the clean table `base`, possibly with the chain, holding match rules, and then with any number
      of jumps to it in the hooks. */
  ghost predicate Planted(base: Chains, t: Chains, hooks: seq<string>, chain: string) {
    && CleanOf(base, hooks, chain) && chain !in hooks
    && t.Keys - {chain} == base.Keys
    && (forall c :: c in base && c !in hooks ==> t[c] == base[c])
    && (forall c :: c in base && c in hooks ==> Strip(t[c], chain) == base[c])
    && (if chain in t then forall e :: e in t[chain] ==> e.Match? else t == base)
  }

  lemma ConsConcat<T>(x: T, a: seq<T>, b: seq<T>)
    ensures [x] + (a + b) == ([x] + a) + b
  {
  }

  lemma {:induction false} WithoutConcat<T>(a: seq<T>, b: seq<T>, e: T)
    ensures Without(a + b, e) == Without(a, e) + Without(b, e)
  {
    if a == [] {
      assert a + b == b;
    } else {
      WithoutConcat(a[1..], b, e);
      assert (a + b)[0] == a[0] && (a + b)[1..] == a[1..] + b;
      ConsConcat(a[0], Without(a[1..], e), Without(b, e));
    }
  }

  lemma {:induction false} WithoutAbsent<T>(entries: seq<T>, e: T)
    ensures e !in Without(entries, e)
    ensures e !in entries ==> Without(entries, e) == entries
  {
    if entries != [] {
      WithoutAbsent(entries[1..], e);
      assert entries == [entries[0]] + entries[1..];
    }
  }

  lemma {:induction false} WithoutRemoved<T>(entries: seq<T>, e: T)
    ensures Without(RemoveFirst(entries, e), e) == Without(entries, e)
  {
    if entries != [] && entries[0] != e {
      var rest := RemoveFirst(entries[1..], e);
      WithoutRemoved(entries[1..], e);
      assert ([entries[0]] + rest)[1..] == rest;
    }
  }

  /** No command of ours touches anything else, whether it works or not. */
  lemma ExecKeepsPlanted(base: Chains, t: Chains, cmd: Command, hooks: seq<string>, chain: string)
    requires Planted(base, t, hooks, chain) && Ours(cmd, hooks, chain)
    ensures Planted(base, Exec(t, cmd), hooks, chain)
  {
    var jump := Jump(chain);
    match cmd
    case New(c) =>
      forall h | h in base && h in hooks ensures Strip(base[h], chain) == base[h] {
        WithoutAbsent(base[h], Jump(chain));
      }
    case Append(c, e) =>
      if c != chain && Legal(t, cmd) {
        WithoutConcat(t[c], [jump], jump);
      }
    case Insert(c, e) =>
      if Legal(t, cmd) {
        WithoutConcat([jump], t[c], jump);
      }
    case Delete(c, e) =>
      if Legal(t, cmd) {
        WithoutRemoved(t[c], jump);
      }
    case Flush(c) =>
    case Drop(c) =>
      if Legal(t, cmd) {
        forall h | h in base && h in hooks ensures t[h] == base[h] {
          WithoutAbsent(t[h], Jump(chain));
        }
      }
  }

  lemma {:induction false} PlayKeepsPlanted(base: Chains, t: Chains, plan: seq<Step>, hooks: seq<string>,
                                            chain: string, works: nat -> bool, clock: nat)
    requires Planted(base, t, hooks, chain) && AllOurs(plan, hooks, chain)
    ensures Planted(base, Play(t, plan, works, clock).chains, hooks, chain)
    decreases |plan|
  {
    if plan != [] {
      var next := if works(clock) then Exec(t, plan[0].cmd) else t;
      ExecKeepsPlanted(base, t, plan[0].cmd, hooks, chain);
      PlayKeepsPlanted(base, next, plan[1..], hooks, chain, works, clock + 1);
    }
  }

  // ---- counting jumps

  function Jumps(entries: seq<Entry>, chain: string): nat {
    multiset(entries)[Jump(chain)]
  }

  function JumpsAt(t: Chains, h: string, chain: string): nat {
    if h in t then Jumps(t[h], chain) else 0
  }

  /** How many commands of a plan add a jump to the hook. */
  function Adds(plan: seq<Step>, h: string, chain: string): nat {
    if plan == [] then 0
    else (if plan[0].cmd in {Append(h, Jump(chain)), Insert(h, Jump(chain))} then 1 else 0) + Adds(plan[1..], h, chain)
  }

  lemma ExecJumps(t: Chains, cmd: Command, hooks: seq<string>, chain: string, h: string)
    requires Ours(cmd, hooks, chain) && h in hooks && h != chain
    ensures JumpsAt(Exec(t, cmd), h, chain) <=
            JumpsAt(t, h, chain) + (if cmd in {Append(h, Jump(chain)), Insert(h, Jump(chain))} then 1 else 0)
  {
    if cmd.Delete? && cmd.chain in t {
      RemoveFirstCount(t[cmd.chain], cmd.entry);
    }
  }

  lemma {:induction false} PlayJumps(t: Chains, plan: seq<Step>, hooks: seq<string>, chain: string,
                                     works: nat -> bool, clock: nat, h: string)
    requires AllOurs(plan, hooks, chain) && h in hooks && h != chain
    ensures JumpsAt(Play(t, plan, works, clock).chains, h, chain) <= JumpsAt(t, h, chain) + Adds(plan, h, chain)
    decreases |plan|
  {
    if plan != [] {
      var next := if works(clock) then Exec(t, plan[0].cmd) else t;
      ExecJumps(t, plan[0].cmd, hooks, chain, h);
      PlayJumps(next, plan[1..], hooks, chain, works, clock + 1, h);
    }
  }

  lemma {:induction false} RemoveAbsent<T>(entries: seq<T>, e: T)
    requires e !in entries
    ensures RemoveFirst(entries, e) == entries
  {
    if entries != [] {
      RemoveAbsent(entries[1..], e);
    }
  }

  lemma {:induction false} RemoveFirstCount<T>(entries: seq<T>, e: T)
    ensures multiset(RemoveFirst(entries, e)) == multiset(entries) - multiset{e}
  {
    if entries != [] {
      assert entries == [entries[0]] + entries[1..];
      if entries[0] != e {
        RemoveFirstCount(entries[1..], e);
      }
    }
  }

  predicate Distinct(names: seq<string>) {
    forall i, j :: 0 <= i < j < |names| ==> names[i] != names[j]
  }

  /** Unhooking removes the first jump from each hook and touches nothing else. */
  lemma {:induction false} UnhookAt(t: Chains, hooks: seq<string>, chain: string)
    requires Distinct(hooks)
    ensures var u := Unhook(t, hooks, chain);
            u.Keys == t.Keys &&
            forall c :: c in t ==> u[c] == if c in hooks then RemoveFirst(t[c], Jump(chain)) else t[c]
  {
    if hooks != [] {
      var d := Exec(t, Delete(hooks[0], Jump(chain)));
      UnhookAt(d, hooks[1..], chain);
      if hooks[0] in t {
        if Jump(chain) !in t[hooks[0]] {
          RemoveAbsent(t[hooks[0]], Jump(chain));
        }
        assert hooks[0] !in hooks[1..];
      }
      assert hooks == [hooks[0]] + hooks[1..];
    }
  }

  ghost predicate AtMostJumps(t: Chains, hooks: seq<string>, chain: string, n: nat) {
    forall h :: h in hooks ==> JumpsAt(t, h, chain) <= n
  }

  /** The entries of a hook after one undo: the first jump is gone. */
  lemma UndoAt(t: Chains, hooks: seq<string>, chain: string, h: string)
    requires Distinct(hooks) && chain !in hooks && h in hooks
    ensures JumpsAt(Undo(t, hooks, chain), h, chain) == if JumpsAt(t, h, chain) > 0 then JumpsAt(t, h, chain) - 1 else 0
  {
    var u := Unhook(t, hooks, chain);
    UnhookAt(t, hooks, chain);
    if h in t {
      RemoveFirstCount(t[h], Jump(chain));
    }
    OtherUntouched(u, Flush(chain), h);
    OtherUntouched(Exec(u, Flush(chain)), Drop(chain), h);
  }

  /** A command about one chain leaves the others alone. */
  lemma OtherUntouched(t: Chains, cmd: Command, c: string)
    requires c != cmd.chain
    ensures c in Exec(t, cmd) <==> c in t
    ensures c in t ==> Exec(t, cmd)[c] == t[c]
  {
  }

  // ---- undoing

  /** One undo of anything our commands can leave: the clean table comes back exactly when no hook holds
      the jump twice. */
  lemma UndoPlantedIff(base: Chains, t: Chains, hooks: seq<string>, chain: string)
    requires Planted(base, t, hooks, chain) && Distinct(hooks)
    ensures Undo(t, hooks, chain) == base <==> AtMostJumps(t, hooks, chain, 1)
  {
    if AtMostJumps(t, hooks, chain, 1) {
      UndoOnce(base, t, hooks, chain);
    } else {
      var h :| h in hooks && JumpsAt(t, h, chain) > 1;
      UndoAt(t, hooks, chain, h);
      assert h in base && Jump(chain) !in base[h];
    }
  }

  lemma {:induction false} OnlyJump(entries: seq<Entry>, chain: string)
    requires Jumps(entries, chain) <= 1
    ensures RemoveFirst(entries, Jump(chain)) == Strip(entries, chain)
  {
    if entries != [] {
      assert entries == [entries[0]] + entries[1..];
      if entries[0] == Jump(chain) {
        assert Jump(chain) !in entries[1..];
        WithoutAbsent(entries[1..], Jump(chain));
      } else {
        OnlyJump(entries[1..], chain);
      }
    }
  }

  lemma UndoOnce(base: Chains, t: Chains, hooks: seq<string>, chain: string)
    requires Planted(base, t, hooks, chain) && Distinct(hooks) && AtMostJumps(t, hooks, chain, 1)
    ensures Undo(t, hooks, chain) == base
  {
    UnhookAt(t, hooks, chain);
    var u := Unhook(t, hooks, chain);
    forall c | c in base ensures u[c] == base[c] {
      if c in hooks {
        OnlyJump(t[c], chain);
      }
    }
    if chain in t {
      var flushed := Exec(u, Flush(chain));
      assert flushed == base[chain := []];
      assert !Referenced(flushed, chain);
      assert flushed - {chain} == base;
    } else {
      assert u == base;
    }
  }

  function UndoTimes(t: Chains, hooks: seq<string>, chain: string, n: nat): Chains
    decreases n
  {
    if n == 0 then t else UndoTimes(Undo(t, hooks, chain), hooks, chain, n - 1)
  }

  lemma UndoIsPlay(t: Chains, hooks: seq<string>, chain: string)
    ensures exists works: nat -> bool :: Reliable(works, 0) &&
              Play(t, UndoPlan(hooks, chain), works, 0).chains == Undo(t, hooks, chain)
  {
    var works := (i: nat) => true;
    ReliableUndo(t, hooks, chain, works, 0);
  }

  lemma {:induction false} UndoPlanOurs(hooks: seq<string>, all: seq<string>, chain: string)
    requires forall h :: h in hooks ==> h in all
    ensures AllOurs(UndoPlan(hooks, chain), all, chain)
    ensures forall h :: Adds(UndoPlan(hooks, chain), h, chain) == 0
  {
    var plan := UndoPlan(hooks, chain);
    if hooks == [] {
      assert plan[1..][1..] == [];
      assert forall h :: Adds(plan, h, chain) == Adds(plan[1..], h, chain) == Adds([], h, chain);
    } else {
      UndoPlanOurs(hooks[1..], all, chain);
      assert plan[1..] == UndoPlan(hooks[1..], chain);
      assert forall i :: 0 < i < |plan| ==> plan[i] == plan[1..][i - 1];
    }
  }

  lemma UndoKeepsPlanted(base: Chains, t: Chains, hooks: seq<string>, chain: string)
    requires Planted(base, t, hooks, chain)
    ensures Planted(base, Undo(t, hooks, chain), hooks, chain)
  {
    UndoIsPlay(t, hooks, chain);
    var works: nat -> bool :| Play(t, UndoPlan(hooks, chain), works, 0).chains == Undo(t, hooks, chain);
    UndoPlanOurs(hooks, hooks, chain);
    PlayKeepsPlanted(base, t, UndoPlan(hooks, chain), hooks, chain, works, 0);
  }

  /** Main result: n undos clean up exactly the tables in which no hook holds the jump more than n times. */
  lemma {:induction false} UndoTimesIff(base: Chains, t: Chains, hooks: seq<string>, chain: string, n: nat)
    requires Planted(base, t, hooks, chain) && Distinct(hooks) && n > 0
    ensures UndoTimes(t, hooks, chain, n) == base <==> AtMostJumps(t, hooks, chain, n)
    decreases n
  {
    if n == 1 {
      UndoPlantedIff(base, t, hooks, chain);
      assert UndoTimes(t, hooks, chain, 1) == UndoTimes(Undo(t, hooks, chain), hooks, chain, 0);
    } else {
      UndoKeepsPlanted(base, t, hooks, chain);
      UndoTimesIff(base, Undo(t, hooks, chain), hooks, chain, n - 1);
      forall h | h in hooks
        ensures JumpsAt(Undo(t, hooks, chain), h, chain) <= n - 1 <==> JumpsAt(t, h, chain) <= n
      {
        UndoAt(t, hooks, chain, h);
      }
    }
  }

  // ---- set-up and undo together

  lemma {:induction false} StepsOurs(chain: string, rules: seq<Rule>, must: bool, hooks: seq<string>, rest: seq<Step>)
    requires AllOurs(rest, hooks, chain)
    ensures AllOurs(Steps(chain, rules, must) + rest, hooks, chain)
    ensures forall h :: Adds(Steps(chain, rules, must) + rest, h, chain) == Adds(rest, h, chain)
  {
    var plan := Steps(chain, rules, must) + rest;
    if rules == [] {
      assert plan == rest;
    } else {
      StepsOurs(chain, rules[1..], must, hooks, rest);
      assert plan[1..] == Steps(chain, rules[1..], must) + rest;
    }
  }

  /** A set-up adds one jump to each hook at the most. */
  lemma NatPlanOurs(chain: string, inp: FirewallInput, family: Family)
    requires chain !in HOOKS
    ensures AllOurs(NatPlan(chain, inp, family), HOOKS, chain)
    ensures forall h :: h in HOOKS ==> Adds(NatPlan(chain, inp, family), h, chain) == 1
  {
    var dns := Steps(chain, DnsOfFamily(inp, family), false);
    assert dns + [] == dns;
    StepsOurs(chain, DnsOfFamily(inp, family), false, HOOKS, []);
    var ex, cap := ExcludeRules(CidrsOf(inp.excludes, family)),
                   CaptureRules(SubnetsOf(inp.subnets, family), inp.proxyPort, Redirect(inp.proxyPort));
    StepsOurs(chain, cap, true, HOOKS, dns);
    StepsOurs(chain, ex, false, HOOKS, Steps(chain, cap, true) + dns);
    StepsOurs(chain, GUARDS, false, HOOKS, Steps(chain, ex, false) + (Steps(chain, cap, true) + dns));
    HookStepsOurs(chain, Steps(chain, GUARDS, false) + (Steps(chain, ex, false) + (Steps(chain, cap, true) + dns)));
  }

  lemma HookStepsOurs(chain: string, rest: seq<Step>)
    requires chain !in HOOKS && AllOurs(rest, HOOKS, chain) && forall h :: h in HOOKS ==> Adds(rest, h, chain) == 0
    ensures AllOurs(HookSteps(chain) + rest, HOOKS, chain)
    ensures forall h :: h in HOOKS ==> Adds(HookSteps(chain) + rest, h, chain) == 1
  {
    var plan := HookSteps(chain) + rest;
    assert HOOKS[0] == OUTPUT && HOOKS[1] == PREROUTING;
    assert OUTPUT[0] != PREROUTING[0];
    assert plan[1..][1..] == plan[2..] && plan[2..][1..] == plan[3..] == rest;
    forall h | h in HOOKS ensures Adds(plan, h, chain) == 1 {
      assert h == OUTPUT || h == PREROUTING;
      assert Adds(plan, h, chain) == Adds(plan[1..], h, chain);
      assert Adds(plan[2..], h, chain) == if h == PREROUTING then 1 else 0;
    }
  }

  lemma BlockPlanOurs(block: bool)
    ensures AllOurs(BlockPlan(block), [OUTPUT], BLOCK)
    ensures forall h :: h in [OUTPUT] ==> Adds(BlockPlan(block), h, BLOCK) <= 1
  {
    if block {
      var last := [Step(Insert(OUTPUT, Jump(BLOCK)), false)];
      assert last[1..] == [];
      StepsOurs(BLOCK, BLOCK6, false, [OUTPUT], last);
      assert BlockPlan(true)[1..] == Steps(BLOCK, BLOCK6, false) + last;
    }
  }

  /** What one table goes through: runs of plans, one after the other. */
  function PlayAll(t: Chains, plans: seq<seq<Step>>, works: nat -> bool, clock: nat): Ran
    decreases |plans|
  {
    if plans == [] then Ran(t, clock, true)
    else
      var r := Play(t, plans[0], works, clock);
      PlayAll(r.chains, plans[1..], works, r.clock)
  }

  /** How many of the plans are not undo plans. */
  function Setups(plans: seq<seq<Step>>, hooks: seq<string>, chain: string): nat {
    if plans == [] then 0
    else (if plans[0] == UndoPlan(hooks, chain) then 0 else 1) + Setups(plans[1..], hooks, chain)
  }

  /** A plan a table may be given: an undo, or commands of ours that add one jump to each hook at the most. */
  ghost predicate Plan(plan: seq<Step>, hooks: seq<string>, chain: string) {
    AllOurs(plan, hooks, chain) && forall h :: h in hooks ==> Adds(plan, h, chain) <= 1
  }

  lemma {:induction false} PlayAllPlanted(base: Chains, t: Chains, plans: seq<seq<Step>>, hooks: seq<string>,
                                          chain: string, works: nat -> bool, clock: nat, n: nat)
    requires Planted(base, t, hooks, chain) && AtMostJumps(t, hooks, chain, n)
    requires forall i :: 0 <= i < |plans| ==> Plan(plans[i], hooks, chain)
    ensures var last := PlayAll(t, plans, works, clock).chains;
            Planted(base, last, hooks, chain) && AtMostJumps(last, hooks, chain, n + Setups(plans, hooks, chain))
    decreases |plans|
  {
    if plans != [] {
      var r := Play(t, plans[0], works, clock);
      PlayKeepsPlanted(base, t, plans[0], hooks, chain, works, clock);
      var more := if plans[0] == UndoPlan(hooks, chain) then 0 else 1;
      forall h | h in hooks ensures JumpsAt(r.chains, h, chain) <= n + more {
        PlayJumps(t, plans[0], hooks, chain, works, clock, h);
        UndoPlanOurs(hooks, hooks, chain);
      }
      PlayAllPlanted(base, r.chains, plans[1..], hooks, chain, works, r.clock, n + more);
    }
  }

  /** Main result: after any runs of set-up and undo on a clean table, whichever commands failed, as many
      working undos as there were set-ups give the clean table back. */
  lemma RunsAreUndone(base: Chains, plans: seq<seq<Step>>, hooks: seq<string>, chain: string,
                      works: nat -> bool, clock: nat, n: nat)
    requires CleanOf(base, hooks, chain) && Distinct(hooks) && chain !in hooks
    requires forall i :: 0 <= i < |plans| ==> Plan(plans[i], hooks, chain)
    requires n > 0 && Setups(plans, hooks, chain) <= n
    ensures UndoTimes(PlayAll(base, plans, works, clock).chains, hooks, chain, n) == base
  {
    CleanIsPlanted(base, hooks, chain);
    PlayAllPlanted(base, base, plans, hooks, chain, works, clock, 0);
    UndoTimesIff(base, PlayAll(base, plans, works, clock).chains, hooks, chain, n);
  }

  lemma CleanIsPlanted(base: Chains, hooks: seq<string>, chain: string)
    requires CleanOf(base, hooks, chain) && chain !in hooks
    ensures Planted(base, base, hooks, chain) && AtMostJumps(base, hooks, chain, 0)
  {
    forall h | h in base ensures Strip(base[h], chain) == base[h] && Jump(chain) !in base[h] {
      WithoutAbsent(base[h], Jump(chain));
    }
  }

  /** A set-up cut short anywhere, or in which any commands failed, then an undo that works: each of the
      three tables is as it was. */
  lemma SetupThenRestore(base: Chains, chain: string, inp: FirewallInput, family: Family, works: nat -> bool,
                         clock: nat)
    requires CleanOf(base, HOOKS, chain) && chain !in HOOKS
    ensures Undo(Play(base, NatPlan(chain, inp, family), works, clock).chains, HOOKS, chain) == base
  {
    NatPlanOurs(chain, inp, family);
    CleanIsPlanted(base, HOOKS, chain);
    PlayKeepsPlanted(base, base, NatPlan(chain, inp, family), HOOKS, chain, works, clock);
    forall h | h in HOOKS ensures JumpsAt(Play(base, NatPlan(chain, inp, family), works, clock).chains, h, chain) <= 1 {
      PlayJumps(base, NatPlan(chain, inp, family), HOOKS, chain, works, clock, h);
    }
    HooksDistinct();
    UndoPlantedIff(base, Play(base, NatPlan(chain, inp, family), works, clock).chains, HOOKS, chain);
  }

  lemma BlockThenRestore(base: Chains, block: bool, works: nat -> bool, clock: nat)
    requires CleanOf(base, [OUTPUT], BLOCK)
    ensures Undo(Play(base, BlockPlan(block), works, clock).chains, [OUTPUT], BLOCK) == base
  {
    BlockPlanOurs(block);
    assert BLOCK[0] != OUTPUT[0];
    CleanIsPlanted(base, [OUTPUT], BLOCK);
    PlayKeepsPlanted(base, base, BlockPlan(block), [OUTPUT], BLOCK, works, clock);
    PlayJumps(base, BlockPlan(block), [OUTPUT], BLOCK, works, clock, OUTPUT);
    UndoPlantedIff(base, Play(base, BlockPlan(block), works, clock).chains, [OUTPUT], BLOCK);
  }

  lemma HooksDistinct()
    ensures Distinct(HOOKS) && NAT4 !in HOOKS && NAT6 !in HOOKS
  {
    assert OUTPUT[0] != PREROUTING[0] && NAT4[0] != OUTPUT[0] && NAT4[0] != PREROUTING[0];
    assert NAT6[0] != OUTPUT[0] && NAT6[0] != PREROUTING[0];
  }

  /** What the method object gives a table: every such plan is one RunsAreUndone speaks about. */
  lemma MethodPlans(chain: string, inp: FirewallInput, family: Family, block: bool)
    ensures chain !in HOOKS ==> Plan(NatPlan(chain, inp, family), HOOKS, chain)
    ensures Plan(Nat6Plan(inp), HOOKS, NAT6) && Plan(BlockPlan(block), [OUTPUT], BLOCK)
    ensures Plan(UndoPlan(HOOKS, chain), HOOKS, chain) && Plan(UndoPlan([OUTPUT], chain), [OUTPUT], chain)
  {
    if chain !in HOOKS {
      NatPlanOurs(chain, inp, family);
    }
    HooksDistinct();
    NatPlanOurs(NAT6, inp, V6);
    BlockPlanOurs(block);
    UndoPlanOurs(HOOKS, HOOKS, chain);
    UndoPlanOurs([OUTPUT], [OUTPUT], chain);
  }

  // ---- one undo need not do

  /** Appending removes no jump. */
  lemma {:induction false} AppendsKeepJumps(t: Chains, plan: seq<Step>, chain: string, works: nat -> bool,
                                            clock: nat, h: string)
    requires forall i :: 0 <= i < |plan| ==> plan[i].cmd.Append?
    ensures JumpsAt(Play(t, plan, works, clock).chains, h, chain) >= JumpsAt(t, h, chain)
    decreases |plan|
  {
    if plan != [] {
      AppendsKeepJumps(if works(clock) then Exec(t, plan[0].cmd) else t, plan[1..], chain, works, clock + 1, h);
    }
  }

  /** Unhooking from PREROUTING alone: the chain is still referenced and stays. */
  lemma HalfUndone(t: Chains, chain: string)
    requires chain in t && chain !in HOOKS && OUTPUT in t && Jump(chain) in t[OUTPUT]
    ensures var u := Undo(t, [PREROUTING], chain);
            chain in u && OUTPUT in u && u[OUTPUT] == t[OUTPUT]
  {
    HooksDistinct();
    UnhookAt(t, [PREROUTING], chain);
    var flushed := Exec(Unhook(t, [PREROUTING], chain), Flush(chain));
    assert HOOKS[0] == OUTPUT && OUTPUT != chain;
    assert OUTPUT !in [PREROUTING] by {
      assert HOOKS[1] == PREROUTING;
    }
    assert flushed[OUTPUT] == t[OUTPUT];
    assert Referenced(flushed, chain);
  }

  /** Setting up where the chain is still there and hooked hooks it twice. */
  lemma HookedTwice(u: Chains, chain: string, inp: FirewallInput, family: Family, works: nat -> bool, clock: nat)
    requires Reliable(works, clock) && chain in u && OUTPUT in u && Jump(chain) in u[OUTPUT] && chain !in HOOKS
    ensures JumpsAt(Play(u, NatPlan(chain, inp, family), works, clock).chains, OUTPUT, chain) >= 2
  {
    var plan := NatPlan(chain, inp, family);
    var hooked := u[OUTPUT := u[OUTPUT] + [Jump(chain)]];
    assert plan[1..][1..] == plan[2..];
    assert Play(u, plan, works, clock) == Play(hooked, plan[2..], works, clock + 2);
    AppendsKeepJumps(hooked, plan[2..], chain, works, clock + 2, OUTPUT);
  }

  /** A reconnect in which nothing but the very first command, unhooking OUTPUT, fails: DisableDNS hooks the
      chain a second time, and the Restore at the end, all of whose commands work, leaves the table changed.
      A second one would do. */
  lemma FailedUnhookStays(base: Chains, chain: string, inp: FirewallInput, off: FirewallInput, family: Family,
                          works: nat -> bool, clock: nat)
    requires CleanOf(base, HOOKS, chain) && chain !in HOOKS && OUTPUT in base && PREROUTING in base
    requires !works(clock) && Reliable(works, clock + 1)
    ensures var t := InstalledNat(base, chain, NatRules(inp, family));
            var undone := Play(t, UndoPlan(HOOKS, chain), works, clock);
            var again := Play(undone.chains, NatPlan(chain, off, family), works, undone.clock).chains;
            Undo(again, HOOKS, chain) != base && Undo(Undo(again, HOOKS, chain), HOOKS, chain) == base
  {
    var t := InstalledNat(base, chain, NatRules(inp, family));
    var undone := Play(t, UndoPlan(HOOKS, chain), works, clock);
    var again := Play(undone.chains, NatPlan(chain, off, family), works, undone.clock).chains;
    FirstUnhookFails(t, chain, works, clock);
    HookedTwice(undone.chains, chain, off, family, works, undone.clock);
    InstalledIsPlanted(base, chain, inp, family);
    PlantedAgain(base, t, chain, off, family, works, clock);
    TwoUndosDo(base, again, chain);
  }

  /** With OUTPUT still hooked the undo cannot delete the chain. */
  lemma FirstUnhookFails(t: Chains, chain: string, works: nat -> bool, clock: nat)
    requires chain in t && chain !in HOOKS && OUTPUT in t && Jump(chain) in t[OUTPUT]
    requires !works(clock) && Reliable(works, clock + 1)
    ensures var undone := Play(t, UndoPlan(HOOKS, chain), works, clock);
            && chain in undone.chains && OUTPUT in undone.chains && Jump(chain) in undone.chains[OUTPUT]
            && Reliable(works, undone.clock)
  {
    var plan := UndoPlan(HOOKS, chain);
    assert HOOKS[1..] == [PREROUTING];
    assert plan[1..] == UndoPlan([PREROUTING], chain);
    ReliableUndo(t, [PREROUTING], chain, works, clock + 1);
    HalfUndone(t, chain);
    ClockGrows(t, plan[1..], works, clock + 1);
  }

  lemma TwoUndosDo(base: Chains, again: Chains, chain: string)
    requires Planted(base, again, HOOKS, chain) && AtMostJumps(again, HOOKS, chain, 2)
    requires JumpsAt(again, OUTPUT, chain) >= 2
    ensures Undo(again, HOOKS, chain) != base && Undo(Undo(again, HOOKS, chain), HOOKS, chain) == base
  {
    HooksDistinct();
    assert HOOKS[0] == OUTPUT;
    UndoPlantedIff(base, again, HOOKS, chain);
    UndoTimesIff(base, again, HOOKS, chain, 2);
    var once := Undo(again, HOOKS, chain);
    assert UndoTimes(again, HOOKS, chain, 2) == UndoTimes(once, HOOKS, chain, 1);
    assert UndoTimes(once, HOOKS, chain, 1) == UndoTimes(Undo(once, HOOKS, chain), HOOKS, chain, 0);
  }

  lemma InstalledIsPlanted(base: Chains, chain: string, inp: FirewallInput, family: Family)
    requires CleanOf(base, HOOKS, chain) && chain !in HOOKS && OUTPUT in base && PREROUTING in base
    ensures var t := InstalledNat(base, chain, NatRules(inp, family));
            Planted(base, t, HOOKS, chain) && AtMostJumps(t, HOOKS, chain, 1)
  {
    var always := (i: nat) => true;
    ReliableNat(base, chain, inp, family, always, 0);
    CleanIsPlanted(base, HOOKS, chain);
    NatPlanOurs(chain, inp, family);
    PlayKeepsPlanted(base, base, NatPlan(chain, inp, family), HOOKS, chain, always, 0);
    forall h | h in HOOKS ensures JumpsAt(InstalledNat(base, chain, NatRules(inp, family)), h, chain) <= 1 {
      PlayJumps(base, NatPlan(chain, inp, family), HOOKS, chain, always, 0, h);
    }
  }

  lemma PlantedAgain(base: Chains, t: Chains, chain: string, off: FirewallInput, family: Family,
                     works: nat -> bool, clock: nat)
    requires Planted(base, t, HOOKS, chain) && AtMostJumps(t, HOOKS, chain, 1)
    ensures var undone := Play(t, UndoPlan(HOOKS, chain), works, clock);
            var again := Play(undone.chains, NatPlan(chain, off, family), works, undone.clock).chains;
            Planted(base, again, HOOKS, chain) && AtMostJumps(again, HOOKS, chain, 2)
  {
    var undone := Play(t, UndoPlan(HOOKS, chain), works, clock);
    NatPlanOurs(chain, off, family);
    UndoPlanOurs(HOOKS, HOOKS, chain);
    PlayKeepsPlanted(base, t, UndoPlan(HOOKS, chain), HOOKS, chain, works, clock);
    PlayKeepsPlanted(base, undone.chains, NatPlan(chain, off, family), HOOKS, chain, works, undone.clock);
    forall h | h in HOOKS
      ensures JumpsAt(Play(undone.chains, NatPlan(chain, off, family), works, undone.clock).chains, h, chain) <= 2
    {
      PlayJumps(t, UndoPlan(HOOKS, chain), HOOKS, chain, works, clock, h);
      PlayJumps(undone.chains, NatPlan(chain, off, family), HOOKS, chain, works, undone.clock, h);
    }
  }

  /** A second undo changes nothing exactly when no hook held the jump twice, on any table. */
  lemma UndoIdempotentIff(t: Chains, hooks: seq<string>, chain: string)
    requires Distinct(hooks) && chain !in hooks
    ensures Undo(Undo(t, hooks, chain), hooks, chain) == Undo(t, hooks, chain) <==> AtMostJumps(t, hooks, chain, 1)
  {
    var once := Undo(t, hooks, chain);
    if AtMostJumps(t, hooks, chain, 1) {
      UndoTwiceAtMostOne(t, hooks, chain);
    } else {
      var h :| h in hooks && JumpsAt(t, h, chain) > 1;
      UndoAt(t, hooks, chain, h);
      UndoAt(once, hooks, chain, h);
    }
  }

  lemma UndoTwiceAtMostOne(t: Chains, hooks: seq<string>, chain: string)
    requires Distinct(hooks) && chain !in hooks && AtMostJumps(t, hooks, chain, 1)
    ensures Undo(Undo(t, hooks, chain), hooks, chain) == Undo(t, hooks, chain)
  {
    var once := Undo(t, hooks, chain);
    forall h | h in hooks ensures JumpsAt(once, h, chain) == 0 {
      UndoAt(t, hooks, chain, h);
    }
    NothingToUnhook(once, hooks, chain);
    NothingToDrop(Unhook(t, hooks, chain), chain);
  }

  lemma NothingToUnhook(t: Chains, hooks: seq<string>, chain: string)
    requires Distinct(hooks) && forall h :: h in hooks ==> JumpsAt(t, h, chain) == 0
    ensures Unhook(t, hooks, chain) == t
  {
    UnhookAt(t, hooks, chain);
    var u := Unhook(t, hooks, chain);
    forall c | c in t ensures u[c] == t[c] {
      if c in hooks {
        assert Jump(chain) !in t[c];
        RemoveAbsent(t[c], Jump(chain));
      }
    }
  }

  /** Flushing and deleting a second time changes nothing: the chain is gone, or still referenced. */
  lemma NothingToDrop(u: Chains, chain: string)
    ensures var once := Exec(Exec(u, Flush(chain)), Drop(chain));
            Exec(Exec(once, Flush(chain)), Drop(chain)) == once
  {
    var once := Exec(Exec(u, Flush(chain)), Drop(chain));
    assert Exec(once, Flush(chain)) == once;
    assert Exec(once, Drop(chain)) == once;
  }

  // ---- DisableDNS

  /** On whatever a set-up left, with every command going through, the DNS-free chain is installed. */
  lemma DisableDnsInstalls(base: Chains, t: Chains, chain: string, off: FirewallInput, family: Family,
                           works: nat -> bool, clock: nat)
    requires Planted(base, t, HOOKS, chain) && AtMostJumps(t, HOOKS, chain, 1) && Reliable(works, clock)
    ensures OUTPUT in base && PREROUTING in base
    ensures var undone := Play(t, UndoPlan(HOOKS, chain), works, clock);
            undone.chains == base &&
            Play(undone.chains, NatPlan(chain, off, family), works, undone.clock) ==
            Ran(InstalledNat(base, chain, NatRules(off, family)),
                Play(base, NatPlan(chain, off, family), works, undone.clock).clock, true)
  {
    HooksDistinct();
    assert HOOKS[0] == OUTPUT && HOOKS[1] == PREROUTING;
    ReliableUndo(t, HOOKS, chain, works, clock);
    UndoOnce(base, t, HOOKS, chain);
    ClockGrows(t, UndoPlan(HOOKS, chain), works, clock);
    ReliableNat(base, chain, off, family, works, Play(t, UndoPlan(HOOKS, chain), works, clock).clock);
  }

  lemma {:induction false} ClockGrows(t: Chains, plan: seq<Step>, works: nat -> bool, clock: nat)
    ensures Play(t, plan, works, clock).clock >= clock
    decreases |plan|
  {
    if plan != [] {
      ClockGrows(if works(clock) then Exec(t, plan[0].cmd) else t, plan[1..], works, clock + 1);
    }
  }

  // ---- the installed chains decide as nftables does

  /** The family chain of iptables and the output chain of nftables redirect every packet to the same
      port or leave it alone together. */
  lemma NatChainMatchesNft(inp: FirewallInput, blockIPv6: bool, p: Packet)
    ensures Nft.RedirectPort(Walk(p, NatRules(inp, p.family))) ==
            Nft.RedirectPort(Walk(p, Nft.NftRules(blockIPv6, inp).output))
  {
    WalkNat(inp, p);
    Nft.WalkOutput(inp, p, blockIPv6);
  }

  /** What the nat chain of a packet's family decides. */
  lemma WalkNat(inp: FirewallInput, p: Packet)
    ensures Nft.RedirectPort(Walk(p, NatRules(inp, p.family))) ==
            if Nft.Exempt(p) then None else Nft.RedirectDecision(inp, p)
  {
    var ex := ExcludeRules(CidrsOf(inp.excludes, p.family));
    var cap := CaptureRules(SubnetsOf(inp.subnets, p.family), inp.proxyPort, Redirect(inp.proxyPort));
    var ns := DnsOfFamily(inp, p.family);
    assert NatRules(inp, p.family) == GUARDS + ex + cap + ns;
    RunFour(p, State(None, p.mark), GUARDS, ex, cap, ns);
    RunGuards(p);
    RunBodyOfFamily(inp, p, Walk(p, GUARDS));
  }

  lemma RunFour(p: Packet, st: State, a: seq<Rule>, b: seq<Rule>, c: seq<Rule>, d: seq<Rule>)
    ensures Run(p, st, a + b + c + d) == Run(p, Run(p, Run(p, Run(p, st, a), b), c), d)
  {
    RunAppend(p, st, a + b + c, d);
    RunAppend(p, st, a + b, c);
    RunAppend(p, st, a, b);
  }

  /** Excludes, captures and DNS of the packet's family, from any state behind the guards. */
  lemma RunBodyOfFamily(inp: FirewallInput, p: Packet, st: State)
    ensures var ex := ExcludeRules(CidrsOf(inp.excludes, p.family));
            var cap := CaptureRules(SubnetsOf(inp.subnets, p.family), inp.proxyPort, Redirect(inp.proxyPort));
            Run(p, Run(p, Run(p, st, ex), cap), DnsOfFamily(inp, p.family)) ==
            if st.end.Some? then st
            else if Excluded(inp, p) then Apply(Return, st)
            else if p.proto == Tcp && InSubnetsBesideProxy(inp, p) then Apply(Redirect(inp.proxyPort), st)
            else if IsDnsQuery(inp, p) then Apply(Redirect(inp.dnsPort), st)
            else st
  {
    RunExcludes(p, st, CidrsOf(inp.excludes, p.family));
    ExcludesOfFamily(inp, p.family, p);
    var excluded := Run(p, st, ExcludeRules(CidrsOf(inp.excludes, p.family)));
    RunCaptures(p, excluded, SubnetsOf(inp.subnets, p.family), inp.proxyPort, Redirect(inp.proxyPort));
    CapturesOfFamily(inp, p.family, p);
    var captured := Run(p, excluded, CaptureRules(SubnetsOf(inp.subnets, p.family), inp.proxyPort,
                                                  Redirect(inp.proxyPort)));
    RunHostDns(p, captured, ServersOf(inp.dnsServers, p.family), p.family, Redirect(inp.dnsPort));
    ServersOfIff(inp.dnsServers, p.family, p.dst);
  }

  /** Leaving the IPv6 chain out costs nothing: without IPv6 subnets and IPv6 DNS it would redirect no
      IPv6 packet. */
  lemma SkippedNat6(inp: FirewallInput, p: Packet)
    requires !NeedsNat6(inp) && p.family == V6
    ensures Nft.RedirectPort(Walk(p, NatRules(inp, V6))) == None
  {
    NatChainMatchesNft(inp, false, p);
    Nft.WalkOutput(inp, p, false);
    HasFamilyIff(inp, V6);
    ServersOfIff(inp.dnsServers, V6, p.dst);
    if s :| s in inp.subnets && Covers(s.cidr, p.family, p.dst) {
      assert HasFamily(inp, V6);
    }
  }

  // ---- the backend as a whole against nftables

  /** What the nat chain of the packet's family does, wherever it is hooked. */
  function NatPort(inp: FirewallInput, p: Packet): Option<int> {
    if p.family == V4 || NeedsNat6(inp) then Nft.RedirectPort(Walk(p, NatRules(inp, p.family))) else None
  }

  /** A locally generated packet: nat OUTPUT, then the block chain in filter OUTPUT. */
  function OutputOutcome(blockIPv6: bool, inp: FirewallInput, p: Packet): Nft.NftOutcome {
    var port := NatPort(inp, p);
    var q := Nft.AfterNat(p, port);
    if blockIPv6 && Walk(q, BLOCK6).end == Some(Reject) then Nft.Rejected
    else if port.Some? then Nft.RedirectedTo(port.value)
    else Nft.Direct
  }

  /** A forwarded packet meets the same nat chain, hooked into PREROUTING, guards included. */
  function ForwardOutcome(inp: FirewallInput, p: Packet): Nft.NftOutcome {
    var port := NatPort(inp, p);
    if port.Some? then Nft.RedirectedTo(port.value) else Nft.Direct
  }

  lemma NatPortDecision(inp: FirewallInput, p: Packet)
    ensures NatPort(inp, p) == if Nft.Exempt(p) then None else Nft.RedirectDecision(inp, p)
  {
    NatChainMatchesNft(inp, false, p);
    Nft.WalkOutput(inp, p, false);
    if p.family == V6 && !NeedsNat6(inp) {
      SkippedNat6(inp, p);
    }
  }

  /** Main result: locally generated packets fare alike under iptables and nftables, and forwarded ones
      exactly unless they are addressed to this machine or marked as the tunnel's own and would be
      redirected: nftables leaves the guards out of its prerouting chain. */
  lemma IptMatchesNft(blockIPv6: bool, inp: FirewallInput, p: Packet)
    ensures OutputOutcome(blockIPv6, inp, p) == Nft.OutputOutcome(Nft.NftRules(blockIPv6, inp), p)
    ensures ForwardOutcome(inp, p) != Nft.ForwardOutcome(Nft.NftRules(blockIPv6, inp), p) <==>
            Nft.Exempt(p) && Nft.RedirectDecision(inp, p).Some?
  {
    NatPortDecision(inp, p);
    Nft.WalkOutput(inp, p, blockIPv6);
    Nft.WalkPrerouting(inp, p, blockIPv6);
  }

  /** The TCP packets that are redirected, in the terms of the rules themselves; forwarded ones meet the guards too. */
  lemma RedirectedByFields(blockIPv6: bool, inp: FirewallInput, p: Packet)
    requires p.proto == Tcp
    ensures OutputOutcome(blockIPv6, inp, p) == Nft.RedirectedTo(inp.proxyPort) <==>
            && !p.dstLocal && p.mark != 0x4e46
            && (exists s :: s in inp.subnets && s.cidr.family == p.family && s.cidr.prefix <= p.dst &&
                  (if s.portLow <= 0 || s.portHigh <= 0 then p.dport != inp.proxyPort
                   else s.portLow <= p.dport <= s.portHigh))
            && !(exists c :: c in inp.excludes && c.family == p.family && c.prefix <= p.dst)
    ensures ForwardOutcome(inp, p) == Nft.RedirectedTo(inp.proxyPort) <==>
            && !p.dstLocal && p.mark != 0x4e46
            && (exists s :: s in inp.subnets && s.cidr.family == p.family && s.cidr.prefix <= p.dst &&
                  (if s.portLow <= 0 || s.portHigh <= 0 then p.dport != inp.proxyPort
                   else s.portLow <= p.dport <= s.portHigh))
            && !(exists c :: c in inp.excludes && c.family == p.family && c.prefix <= p.dst)
  {
    IptMatchesNft(blockIPv6, inp, p);
    Nft.RedirectedByFields(blockIPv6, inp, p);
    NatPortDecision(inp, p);
  }

  /** Without DNS every TCP packet fares as before and nothing else is redirected. */
  lemma DisableDnsConservative(blockIPv6: bool, inp: FirewallInput, p: Packet)
    ensures p.proto == Tcp ==>
              && OutputOutcome(blockIPv6, inp.WithoutDns(), p) == OutputOutcome(blockIPv6, inp, p)
              && ForwardOutcome(inp.WithoutDns(), p) == ForwardOutcome(inp, p)
    ensures p.proto != Tcp ==>
              !OutputOutcome(blockIPv6, inp.WithoutDns(), p).RedirectedTo? &&
              !ForwardOutcome(inp.WithoutDns(), p).RedirectedTo?
  {
    NatPortDecision(inp, p);
    NatPortDecision(inp.WithoutDns(), p);
    Nft.DecisionWithoutDns(blockIPv6, inp, p);
  }
}
