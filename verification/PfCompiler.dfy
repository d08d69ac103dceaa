/** The whole pf anchor against the decision stated without rules. */
module PfCompiler {
  import opened Wrappers
  import opened Net
  import opened PfRules
  import opened PfSections

  /** Filter rules behind lines of other kinds, section by section. */
  lemma RunSections(t: Tables, p: Packet, head: seq<PfLine>, a: seq<PfLine>, b: seq<PfLine>, c: seq<PfLine>)
    requires forall i :: 0 <= i < |head| ==> !head[i].Filter?
    ensures RunFilter(t, p, START, head + (a + b + c)) ==
            RunFilter(t, p, RunFilter(t, p, RunFilter(t, p, START, a), b), c)
  {
    FilterSkips(t, p, START, head);
    RunFilterAppend(t, p, START, head, a + b + c);
    RunFilterAppend(t, p, START, a + b, c);
    RunFilterAppend(t, p, START, a, b);
  }

  lemma HeadShape(inp: FirewallInput)
    ensures forall i :: 0 <= i < |TableSection(inp) + RdrSection(inp)| ==>
            !(TableSection(inp) + RdrSection(inp))[i].Filter?
  {
    RdrSectionShape(inp);
    HeadConcat(TableSection(inp), RdrSection(inp));
  }

  lemma HeadConcat(a: seq<PfLine>, b: seq<PfLine>)
    requires (forall i :: 0 <= i < |a| ==> a[i].Table?) && OnlyRdrs(b)
    ensures forall i :: 0 <= i < |a + b| ==> !(a + b)[i].Filter?
  {
  }

  lemma RunWholeFilter(t: Tables, flags: PfFlags, inp: FirewallInput, p: Packet)
    ensures RunFilter(t, p, START, PfLines(flags, inp)) ==
            RunFilter(t, p, RunFilter(t, p, RunFilter(t, p, START, PassSection(flags, inp)),
                                      UdpSection(flags, inp)), Block6Section(flags))
  {
    HeadShape(inp);
    RunSections(t, p, TableSection(inp) + RdrSection(inp), PassSection(flags, inp), UdpSection(flags, inp),
                Block6Section(flags));
  }

  lemma RunWholeRdr(t: Tables, flags: PfFlags, inp: FirewallInput, p: Packet)
    ensures RunRdr(t, p, None, PfLines(flags, inp)) == RunRdr(t, p, None, RdrSection(inp))
  {
    SectionShapes(flags, inp);
    RunRdrSections(t, p, TableSection(inp), RdrSection(inp), FilterSection(flags, inp));
  }

  lemma RunRdrSections(t: Tables, p: Packet, tables: seq<PfLine>, rdrs: seq<PfLine>, filters: seq<PfLine>)
    requires (forall i :: 0 <= i < |tables| ==> tables[i].Table?) && OnlyFilters(filters)
    ensures RunRdr(t, p, None, tables + rdrs + filters) == RunRdr(t, p, None, rdrs)
  {
    RdrSkips(t, p, None, tables);
    RunRdrAppend(t, p, None, tables + rdrs, filters);
    RunRdrAppend(t, p, None, tables, rdrs);
    RdrSkips(t, p, RunRdr(t, p, None, rdrs), filters);
  }

  /** Where the filter rules end up, in terms of the input alone. */
  lemma FilterVerdict(t: Tables, flags: PfFlags, inp: FirewallInput, p: Packet)
    requires TablesHold(t, inp)
    ensures var pass := RunFilter(t, p, START, PassSection(flags, inp));
            RunFilter(t, p, START, PfLines(flags, inp)).action ==
            if pass.stopped then pass.action
            else if flags.blockUDP && p.proto == Udp then
              if IsDhcpClient(p) || (p.dport == 53 && !DnsOn(inp, p.family)) || (flags.allowRootUDP && p.root)
              then Some(Pass) else Some(BlockDrop)
            else if flags.blockIPv6 && p.family == V6 then Some(if Whitelisted6(p.dst) then Pass else BlockReturn)
            else pass.action
  {
    RunWholeFilter(t, flags, inp, p);
    var st := RunFilter(t, p, START, PassSection(flags, inp));
    if st.stopped {
      RunStopped(t, p, st, UdpSection(flags, inp));
    } else {
      RunUdpSection(t, flags, inp, p, st);
    }
    RunBlock6Section(t, flags, p, RunFilter(t, p, st, UdpSection(flags, inp)));
  }

  lemma InDnsTableIff(inp: FirewallInput, p: Packet)
    ensures DnsOn(inp, p.family) <==> DnsProxied(inp, p.family)
    ensures p.proto == Udp && p.dport == 53 && InDnsTable(inp, p) <==> IsDnsQuery(inp, p)
  {
    DnsProxiedIff(inp, p.family);
    ServersOfIff(inp.dnsServers, p.family, p.dst);
  }

  /** The filter pass alone, in terms of the input. */
  ghost function FilterDecision(flags: PfFlags, inp: FirewallInput, p: Packet): Option<Action> {
    if flags.blockUDP && p.proto == Udp then
      if IsDnsQuery(inp, p) then Some(PassRouteLo)
      else if IsDhcpClient(p) || (p.dport == 53 && !DnsProxied(inp, p.family)) || (flags.allowRootUDP && p.root)
      then Some(Pass) else Some(BlockDrop)
    else if flags.blockIPv6 && p.family == V6 then Some(if Whitelisted6(p.dst) then Pass else BlockReturn)
    else if p.proto == Tcp && Excluded(inp, p) then Some(Pass)
    else if (p.proto == Tcp && !p.root && InSubnets(inp, p)) || IsDnsQuery(inp, p) then Some(PassRouteLo)
    else None
  }

  /** The translation pass alone, in terms of the input. */
  ghost function RdrDecision(inp: FirewallInput, p: Packet): Option<int> {
    if p.proto == Tcp && p.src != Loopback(p.family) && InSubnets(inp, p) then Some(inp.proxyPort)
    else if IsDnsQuery(inp, p) then Some(inp.dnsPort)
    else None
  }

  lemma FilterIsDecision(flags: PfFlags, inp: FirewallInput, p: Packet)
    ensures var lines := PfLines(flags, inp);
            RunFilter(TablesOf(lines), p, START, lines).action == FilterDecision(flags, inp, p)
  {
    var t := TablesOf(PfLines(flags, inp));
    TablesOfPfLines(flags, inp);
    FilterVerdict(t, flags, inp, p);
    RunPassSection(t, flags, inp, p);
    InDnsTableIff(inp, p);
  }

  lemma RdrIsDecision(flags: PfFlags, inp: FirewallInput, p: Packet)
    ensures var lines := PfLines(flags, inp);
            RunRdr(TablesOf(lines), p, None, lines) == RdrDecision(inp, p)
  {
    var t := TablesOf(PfLines(flags, inp));
    TablesOfPfLines(flags, inp);
    RunWholeRdr(t, flags, inp, p);
    RunRdrSection(t, inp, p);
    InDnsTableIff(inp, p);
  }

  lemma CombinedDecision(flags: PfFlags, inp: FirewallInput, p: Packet)
    ensures Combine(FilterDecision(flags, inp, p), RdrDecision(inp, p)) == Decision(flags, inp, p)
  {
  }

  /** Main result: pf's evaluation of the generated anchor is the decision, for every packet, every
      input and every combination of block flags. */
  lemma PfCompilesDecision(flags: PfFlags, inp: FirewallInput, p: Packet)
    ensures Outcome(PfLines(flags, inp), p) == Decision(flags, inp, p)
  {
    FilterIsDecision(flags, inp, p);
    RdrIsDecision(flags, inp, p);
    CombinedDecision(flags, inp, p);
  }
}
