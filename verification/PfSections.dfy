/** Evaluating the sections of the pf anchor, one after the other, over an arbitrary packet. */
module PfSections {
  import opened Wrappers
  import opened Net
  import opened PfRules

  // ---- evaluating concatenated sections

  lemma {:induction false} RunFilterAppend(t: Tables, p: Packet, st: FilterState, a: seq<PfLine>, b: seq<PfLine>)
    ensures RunFilter(t, p, st, a + b) == RunFilter(t, p, RunFilter(t, p, st, a), b)
  {
    if b == [] {
      assert a + b == a;
    } else {
      var n := |b| - 1;
      RunFilterAppend(t, p, st, a, b[..n]);
      assert (a + b)[..|a + b| - 1] == a + b[..n];
    }
  }

  lemma {:induction false} RunRdrAppend(t: Tables, p: Packet, found: Option<int>, a: seq<PfLine>, b: seq<PfLine>)
    ensures RunRdr(t, p, found, a + b) == RunRdr(t, p, RunRdr(t, p, found, a), b)
  {
    if b == [] {
      assert a + b == a;
    } else {
      var n := |b| - 1;
      RunRdrAppend(t, p, found, a, b[..n]);
      assert (a + b)[..|a + b| - 1] == a + b[..n];
    }
  }

  ghost predicate OnlyRdrs(lines: seq<PfLine>) {
    forall i :: 0 <= i < |lines| ==> lines[i].Rdr?
  }

  ghost predicate OnlyFilters(lines: seq<PfLine>) {
    forall i :: 0 <= i < |lines| ==> lines[i].Filter?
  }

  lemma {:induction false} TablesSkip(a: seq<PfLine>, b: seq<PfLine>)
    requires OnlyRdrs(b) || OnlyFilters(b)
    ensures TablesOf(a + b) == TablesOf(a)
  {
    if b == [] {
      assert a + b == a;
    } else {
      var n := |b| - 1;
      TablesSkip(a, b[..n]);
      assert (a + b)[..|a + b| - 1] == a + b[..n];
    }
  }

  lemma {:induction false} FilterSkips(t: Tables, p: Packet, st: FilterState, lines: seq<PfLine>)
    requires forall i :: 0 <= i < |lines| ==> !lines[i].Filter?
    ensures RunFilter(t, p, st, lines) == st
  {
    if lines != [] {
      FilterSkips(t, p, st, lines[..|lines| - 1]);
    }
  }

  lemma {:induction false} RdrSkips(t: Tables, p: Packet, found: Option<int>, lines: seq<PfLine>)
    requires forall i :: 0 <= i < |lines| ==> !lines[i].Rdr?
    ensures RunRdr(t, p, found, lines) == found
  {
    if lines != [] {
      RdrSkips(t, p, found, lines[..|lines| - 1]);
    }
  }

  lemma {:induction false} RdrLinesShape(subnets: seq<SubnetRule>, family: Family, proxyPort: int)
    ensures OnlyRdrs(RdrLines(subnets, family, proxyPort))
  {
    if subnets != [] {
      RdrLinesShape(subnets[..|subnets| - 1], family, proxyPort);
    }
  }

  lemma {:induction false} RouteLinesShape(subnets: seq<SubnetRule>, family: Family)
    ensures OnlyFilters(RouteLines(subnets, family))
  {
    if subnets != [] {
      RouteLinesShape(subnets[..|subnets| - 1], family);
    }
  }

  lemma {:induction false} ExcludeLinesShape(excludes: seq<Cidr>, family: Family)
    ensures OnlyFilters(ExcludeLines(excludes, family))
  {
    if excludes != [] {
      ExcludeLinesShape(excludes[..|excludes| - 1], family);
    }
  }

  lemma FiltersConcat(a: seq<PfLine>, b: seq<PfLine>)
    requires OnlyFilters(a) && OnlyFilters(b)
    ensures OnlyFilters(a + b)
  {
  }

  lemma PassSectionShape(flags: PfFlags, inp: FirewallInput)
    ensures OnlyFilters(PassSection(flags, inp))
  {
    var r4, r6 := RouteLines(SubnetsOf(inp.subnets, V4), V4), RouteLines(SubnetsOf(inp.subnets, V6), V6);
    var e4, e6 := ExcludeLines(CidrsOf(inp.excludes, V4), V4), ExcludeLines(CidrsOf(inp.excludes, V6), V6);
    var dns4, dns6 := When(DnsOn(inp, V4), DnsPassLine(flags, V4)), When(DnsOn(inp, V6), DnsPassLine(flags, V6));
    RouteLinesShape(SubnetsOf(inp.subnets, V4), V4);
    RouteLinesShape(SubnetsOf(inp.subnets, V6), V6);
    ExcludeLinesShape(CidrsOf(inp.excludes, V4), V4);
    ExcludeLinesShape(CidrsOf(inp.excludes, V6), V6);
    FiltersConcat(r4, r6);
    FiltersConcat(r4 + r6, dns4);
    FiltersConcat(r4 + r6 + dns4, dns6);
    FiltersConcat(r4 + r6 + dns4 + dns6, e4);
    FiltersConcat(r4 + r6 + dns4 + dns6 + e4, e6);
  }

  lemma RdrsConcat(a: seq<PfLine>, b: seq<PfLine>)
    requires OnlyRdrs(a) && OnlyRdrs(b)
    ensures OnlyRdrs(a + b)
  {
  }

  lemma RdrSectionShape(inp: FirewallInput)
    ensures OnlyRdrs(RdrSection(inp))
  {
    var four := RdrLines(SubnetsOf(inp.subnets, V4), V4, inp.proxyPort);
    var six := RdrLines(SubnetsOf(inp.subnets, V6), V6, inp.proxyPort);
    var dns4, dns6 := When(DnsOn(inp, V4), DnsRdrLine(inp, V4)), When(DnsOn(inp, V6), DnsRdrLine(inp, V6));
    RdrLinesShape(SubnetsOf(inp.subnets, V4), V4, inp.proxyPort);
    RdrLinesShape(SubnetsOf(inp.subnets, V6), V6, inp.proxyPort);
    RdrsConcat(four, six);
    RdrsConcat(four + six, dns4);
    RdrsConcat(four + six + dns4, dns6);
  }

  lemma WhenShape(condition: bool, line: PfLine)
    requires line.Filter?
    ensures OnlyFilters(When(condition, line)) && OnlyFilters([line])
  {
  }

  lemma UdpAllowShape(flags: PfFlags, dns4: bool)
    ensures OnlyFilters(UdpAllow(flags, dns4))
  {
    var dhcp := [QuickUdp(V4, PortRange(68, 68), PortRange(67, 67), AnyUser)] +
                [QuickUdp(V6, PortRange(546, 546), PortRange(547, 547), AnyUser)];
    var port53 := When(!dns4, QuickUdp(V4, AnyPort, PortRange(53, 53), AnyUser));
    var root4 := When(flags.allowRootUDP, QuickUdp(V4, AnyPort, AnyPort, OnlyRoot));
    FiltersConcat(dhcp, port53);
    FiltersConcat(dhcp + port53, root4);
    FiltersConcat(dhcp + port53 + root4, When(flags.allowRootUDP, QuickUdp(V6, AnyPort, AnyPort, OnlyRoot)));
  }

  lemma Block6SectionShape(flags: PfFlags)
    ensures OnlyFilters(Block6Section(flags))
  {
  }

  lemma UdpSectionShape(flags: PfFlags, inp: FirewallInput)
    ensures OnlyFilters(UdpSection(flags, inp))
  {
    var allow := UdpAllow(flags, DnsOn(inp, V4));
    var dns6 := QuickUdp(V6, AnyPort, PortRange(53, 53), AnyUser);
    UdpAllowShape(flags, DnsOn(inp, V4));
    WhenShape(true, BlockUdp(V4));
    WhenShape(true, BlockUdp(V6));
    WhenShape(!DnsOn(inp, V6), dns6);
    FiltersConcat(allow, [BlockUdp(V4)]);
    FiltersConcat(allow + [BlockUdp(V4)], When(!DnsOn(inp, V6), dns6));
    FiltersConcat(allow + [BlockUdp(V4)] + When(!DnsOn(inp, V6), dns6), [BlockUdp(V6)]);
  }

  lemma SectionShapes(flags: PfFlags, inp: FirewallInput)
    ensures OnlyRdrs(RdrSection(inp))
    ensures OnlyFilters(FilterSection(flags, inp))
  {
    RdrSectionShape(inp);
    PassSectionShape(flags, inp);
    UdpSectionShape(flags, inp);
    Block6SectionShape(flags);
    FiltersConcat(PassSection(flags, inp), UdpSection(flags, inp));
    FiltersConcat(PassSection(flags, inp) + UdpSection(flags, inp), Block6Section(flags));
  }

  ghost predicate SomeSubnet(subnets: seq<SubnetRule>, family: Family, p: Packet) {
    exists s :: s in subnets && family == p.family && Covers(s.cidr, p.family, p.dst) &&
      PortMatches(s.PfPort(), p.dport)
  }

  ghost predicate SomeExclude(excludes: seq<Cidr>, family: Family, p: Packet) {
    exists c :: c in excludes && family == p.family && Covers(c, p.family, p.dst)
  }

  lemma SomeSubnetSnoc(subnets: seq<SubnetRule>, family: Family, p: Packet)
    requires subnets != []
    ensures var n := |subnets| - 1;
            SomeSubnet(subnets, family, p) <==>
              SomeSubnet(subnets[..n], family, p) ||
              (family == p.family && Covers(subnets[n].cidr, p.family, p.dst) &&
               PortMatches(subnets[n].PfPort(), p.dport))
  {
    var n := |subnets| - 1;
    assert subnets == subnets[..n] + [subnets[n]];
  }

  lemma SomeExcludeSnoc(excludes: seq<Cidr>, family: Family, p: Packet)
    requires excludes != []
    ensures var n := |excludes| - 1;
            SomeExclude(excludes, family, p) <==>
              SomeExclude(excludes[..n], family, p) || (family == p.family && Covers(excludes[n], p.family, p.dst))
  {
    var n := |excludes| - 1;
    assert excludes == excludes[..n] + [excludes[n]];
  }

  lemma {:induction false} RunRoutes(t: Tables, p: Packet, st: FilterState, subnets: seq<SubnetRule>, family: Family)
    requires !st.stopped
    ensures RunFilter(t, p, st, RouteLines(subnets, family)) ==
            if p.proto == Tcp && !p.root && SomeSubnet(subnets, family, p)
            then FilterState(Some(PassRouteLo), false) else st
  {
    if subnets != [] {
      var n := |subnets| - 1;
      RunRoutes(t, p, st, subnets[..n], family);
      SomeSubnetSnoc(subnets, family, p);
      RunFilterAppend(t, p, st, RouteLines(subnets[..n], family), [RouteFor(subnets[n], family)]);
    }
  }

  lemma {:induction false} RunExcludes(t: Tables, p: Packet, st: FilterState, excludes: seq<Cidr>, family: Family)
    ensures RunFilter(t, p, st, ExcludeLines(excludes, family)) ==
            if !st.stopped && p.proto == Tcp && SomeExclude(excludes, family, p)
            then FilterState(Some(Pass), false) else st
  {
    if excludes != [] {
      var n := |excludes| - 1;
      RunExcludes(t, p, st, excludes[..n], family);
      SomeExcludeSnoc(excludes, family, p);
      RunFilterAppend(t, p, st, ExcludeLines(excludes[..n], family), [ExcludeFor(excludes[n], family)]);
    }
  }

  lemma {:induction false} RunSubnetRdrs(t: Tables, p: Packet, found: Option<int>, subnets: seq<SubnetRule>,
                                         family: Family, proxyPort: int)
    ensures RunRdr(t, p, found, RdrLines(subnets, family, proxyPort)) ==
            if found.None? && p.proto == Tcp && p.src != Loopback(family) && SomeSubnet(subnets, family, p)
            then Some(proxyPort) else found
  {
    if subnets != [] {
      var n := |subnets| - 1;
      RunSubnetRdrs(t, p, found, subnets[..n], family, proxyPort);
      SomeSubnetSnoc(subnets, family, p);
      RunRdrAppend(t, p, found, RdrLines(subnets[..n], family, proxyPort), [RdrFor(subnets[n], family, proxyPort)]);
    }
  }

  /** Splitting by family changes nothing for a packet of one family. */
  lemma SplitSubnets(inp: FirewallInput, family: Family, p: Packet)
    ensures SomeSubnet(SubnetsOf(inp.subnets, family), family, p) <==> family == p.family && InSubnets(inp, p)
  {
    if s :| s in SubnetsOf(inp.subnets, family) && family == p.family && Covers(s.cidr, p.family, p.dst) &&
            PortMatches(s.PfPort(), p.dport) {
      SubnetsOfIff(inp.subnets, family, s);
    }
    if s :| family == p.family && s in inp.subnets && Covers(s.cidr, p.family, p.dst) &&
            (s.HasPortRange() ==> s.portLow <= p.dport <= s.portHigh) {
      SubnetsOfIff(inp.subnets, family, s);
    }
  }

  lemma SplitExcludes(inp: FirewallInput, family: Family, p: Packet)
    ensures SomeExclude(CidrsOf(inp.excludes, family), family, p) <==> family == p.family && Excluded(inp, p)
  {
    if c :| c in CidrsOf(inp.excludes, family) && family == p.family && Covers(c, p.family, p.dst) {
      CidrsOfIff(inp.excludes, family, c);
    }
    if c :| family == p.family && c in inp.excludes && Covers(c, p.family, p.dst) {
      CidrsOfIff(inp.excludes, family, c);
    }
  }

  // ---- section by section

  /** The tables hold the DNS servers of their family while DNS is proxied, and nothing otherwise. */
  ghost predicate TablesHold(t: Tables, inp: FirewallInput) {
    && t.dns == (if DnsOn(inp, V4) then ServersOf(inp.dnsServers, V4) else [])
    && t.dns6 == (if DnsOn(inp, V6) then ServersOf(inp.dnsServers, V6) else [])
  }

  ghost predicate InDnsTable(inp: FirewallInput, p: Packet) {
    DnsOn(inp, p.family) && p.dst in ServersOf(inp.dnsServers, p.family)
  }

  lemma TablesOfWhen(a: seq<PfLine>, condition: bool, line: PfLine)
    requires line.Table?
    ensures TablesOf(a + When(condition, line)) ==
            if !condition then TablesOf(a)
            else if line.name == DnsServers then TablesOf(a).(dns := line.addrs) else TablesOf(a).(dns6 := line.addrs)
  {
    if condition {
      assert (a + [line])[..|a|] == a;
    } else {
      assert a + When(condition, line) == a;
    }
  }

  lemma TablesOfTableSection(inp: FirewallInput)
    ensures TablesHold(TablesOf(TableSection(inp)), inp)
  {
    TablesOfWhen([], DnsOn(inp, V4), DnsTableLine(inp, V4));
    var four := When(DnsOn(inp, V4), DnsTableLine(inp, V4));
    assert [] + four == four;
    TablesOfWhen(four, DnsOn(inp, V6), DnsTableLine(inp, V6));
  }

  lemma TablesOfPfLines(flags: PfFlags, inp: FirewallInput)
    ensures TablesHold(TablesOf(PfLines(flags, inp)), inp)
  {
    SectionShapes(flags, inp);
    TablesSkip(TableSection(inp) + RdrSection(inp), FilterSection(flags, inp));
    TablesSkip(TableSection(inp), RdrSection(inp));
    TablesOfTableSection(inp);
  }

  lemma RunOne(t: Tables, p: Packet, st: FilterState, a: seq<PfLine>, line: PfLine)
    ensures RunFilter(t, p, st, a + [line]) == StepFilter(t, p, RunFilter(t, p, st, a), line)
  {
    assert (a + [line])[..|a + [line]| - 1] == a;
  }

  lemma RunWhen(t: Tables, p: Packet, st: FilterState, a: seq<PfLine>, condition: bool, line: PfLine)
    ensures RunFilter(t, p, st, a + When(condition, line)) ==
            if condition then StepFilter(t, p, RunFilter(t, p, st, a), line) else RunFilter(t, p, st, a)
  {
    if condition {
      RunOne(t, p, st, a, line);
    } else {
      assert a + When(condition, line) == a;
    }
  }

  lemma RunRdrWhen(t: Tables, p: Packet, found: Option<int>, a: seq<PfLine>, condition: bool, line: PfLine)
    ensures RunRdr(t, p, found, a + When(condition, line)) ==
            if condition then StepRdr(t, p, RunRdr(t, p, found, a), line) else RunRdr(t, p, found, a)
  {
    if condition {
      assert (a + [line])[..|a + [line]| - 1] == a;
    } else {
      assert a + When(condition, line) == a;
    }
  }

  /** Both families' subnet rdr rules together. */
  lemma RunSubnetRdrPair(t: Tables, inp: FirewallInput, p: Packet)
    ensures RunRdr(t, p, None, RdrLines(SubnetsOf(inp.subnets, V4), V4, inp.proxyPort) +
                               RdrLines(SubnetsOf(inp.subnets, V6), V6, inp.proxyPort)) ==
            if p.proto == Tcp && p.src != Loopback(p.family) && InSubnets(inp, p) then Some(inp.proxyPort) else None
  {
    var four := RdrLines(SubnetsOf(inp.subnets, V4), V4, inp.proxyPort);
    var six := RdrLines(SubnetsOf(inp.subnets, V6), V6, inp.proxyPort);
    RunSubnetRdrs(t, p, None, SubnetsOf(inp.subnets, V4), V4, inp.proxyPort);
    RunRdrAppend(t, p, None, four, six);
    RunSubnetRdrs(t, p, RunRdr(t, p, None, four), SubnetsOf(inp.subnets, V6), V6, inp.proxyPort);
    SplitSubnets(inp, V4, p);
    SplitSubnets(inp, V6, p);
  }

  /** The DNS rules of both families, appended after any rules. */
  lemma RunDnsRdrPair(t: Tables, inp: FirewallInput, p: Packet, a: seq<PfLine>)
    requires TablesHold(t, inp)
    ensures RunRdr(t, p, None, a + When(DnsOn(inp, V4), DnsRdrLine(inp, V4)) +
                   When(DnsOn(inp, V6), DnsRdrLine(inp, V6))) ==
            if RunRdr(t, p, None, a).None? && p.proto == Udp && p.dport == 53 && InDnsTable(inp, p)
            then Some(inp.dnsPort)
            else RunRdr(t, p, None, a)
  {
    RunRdrWhen(t, p, None, a, DnsOn(inp, V4), DnsRdrLine(inp, V4));
    RunRdrWhen(t, p, None, a + When(DnsOn(inp, V4), DnsRdrLine(inp, V4)), DnsOn(inp, V6), DnsRdrLine(inp, V6));
    assert p.family == V4 || p.family == V6;
  }

  /** The translation section finds the proxy port, the DNS port, or nothing. */
  lemma RunRdrSection(t: Tables, inp: FirewallInput, p: Packet)
    requires TablesHold(t, inp)
    ensures RunRdr(t, p, None, RdrSection(inp)) ==
            if p.proto == Tcp && p.src != Loopback(p.family) && InSubnets(inp, p) then Some(inp.proxyPort)
            else if p.proto == Udp && p.dport == 53 && InDnsTable(inp, p) then Some(inp.dnsPort)
            else None
  {
    RunSubnetRdrPair(t, inp, p);
    RunDnsRdrPair(t, inp, p, RdrLines(SubnetsOf(inp.subnets, V4), V4, inp.proxyPort) +
                             RdrLines(SubnetsOf(inp.subnets, V6), V6, inp.proxyPort));
  }

  lemma RunRoutePair(t: Tables, inp: FirewallInput, p: Packet)
    ensures RunFilter(t, p, START, RouteLines(SubnetsOf(inp.subnets, V4), V4) +
                      RouteLines(SubnetsOf(inp.subnets, V6), V6)) ==
            if p.proto == Tcp && !p.root && InSubnets(inp, p) then FilterState(Some(PassRouteLo), false) else START
  {
    var four := RouteLines(SubnetsOf(inp.subnets, V4), V4);
    RunRoutes(t, p, START, SubnetsOf(inp.subnets, V4), V4);
    RunFilterAppend(t, p, START, four, RouteLines(SubnetsOf(inp.subnets, V6), V6));
    RunRoutes(t, p, RunFilter(t, p, START, four), SubnetsOf(inp.subnets, V6), V6);
    SplitSubnets(inp, V4, p);
    SplitSubnets(inp, V6, p);
  }

  lemma RunWhenPair(t: Tables, p: Packet, a: seq<PfLine>, c4: bool, l4: PfLine, c6: bool, l6: PfLine)
    ensures var st := RunFilter(t, p, START, a);
            var st4 := if c4 then StepFilter(t, p, st, l4) else st;
            RunFilter(t, p, START, a + When(c4, l4) + When(c6, l6)) == if c6 then StepFilter(t, p, st4, l6) else st4
  {
    RunWhen(t, p, START, a, c4, l4);
    RunWhen(t, p, START, a + When(c4, l4), c6, l6);
  }

  lemma DnsPassStep(t: Tables, flags: PfFlags, inp: FirewallInput, family: Family, p: Packet, st: FilterState)
    requires TablesHold(t, inp) && (st.stopped ==> p.family != family)
    ensures (if DnsOn(inp, family) then StepFilter(t, p, st, DnsPassLine(flags, family)) else st) ==
            if family == p.family && p.proto == Udp && p.dport == 53 && InDnsTable(inp, p)
            then FilterState(Some(PassRouteLo), flags.blockUDP) else st
  {
  }

  lemma RunDnsPassPair(t: Tables, flags: PfFlags, inp: FirewallInput, p: Packet, a: seq<PfLine>)
    requires TablesHold(t, inp)
    requires !RunFilter(t, p, START, a).stopped
    ensures RunFilter(t, p, START, a + When(DnsOn(inp, V4), DnsPassLine(flags, V4)) +
                      When(DnsOn(inp, V6), DnsPassLine(flags, V6))) ==
            if p.proto == Udp && p.dport == 53 && InDnsTable(inp, p) then FilterState(Some(PassRouteLo), flags.blockUDP)
            else RunFilter(t, p, START, a)
  {
    var st := RunFilter(t, p, START, a);
    var l4 := DnsPassLine(flags, V4);
    RunWhenPair(t, p, a, DnsOn(inp, V4), l4, DnsOn(inp, V6), DnsPassLine(flags, V6));
    DnsPassStep(t, flags, inp, V4, p, st);
    DnsPassStep(t, flags, inp, V6, p, if DnsOn(inp, V4) then StepFilter(t, p, st, l4) else st);
  }

  lemma RunExcludePair(t: Tables, inp: FirewallInput, p: Packet, a: seq<PfLine>)
    ensures RunFilter(t, p, START, a + ExcludeLines(CidrsOf(inp.excludes, V4), V4) +
                      ExcludeLines(CidrsOf(inp.excludes, V6), V6)) ==
            if !RunFilter(t, p, START, a).stopped && p.proto == Tcp && Excluded(inp, p)
            then FilterState(Some(Pass), false)
            else RunFilter(t, p, START, a)
  {
    var four := ExcludeLines(CidrsOf(inp.excludes, V4), V4);
    RunFilterAppend(t, p, START, a, four);
    RunExcludes(t, p, RunFilter(t, p, START, a), CidrsOf(inp.excludes, V4), V4);
    RunFilterAppend(t, p, START, a + four, ExcludeLines(CidrsOf(inp.excludes, V6), V6));
    RunExcludes(t, p, RunFilter(t, p, START, a + four), CidrsOf(inp.excludes, V6), V6);
    SplitExcludes(inp, V4, p);
    SplitExcludes(inp, V6, p);
  }

  lemma RunPassSection(t: Tables, flags: PfFlags, inp: FirewallInput, p: Packet)
    requires TablesHold(t, inp)
    ensures RunFilter(t, p, START, PassSection(flags, inp)) ==
            if p.proto == Tcp && Excluded(inp, p) then FilterState(Some(Pass), false)
            else if p.proto == Tcp && !p.root && InSubnets(inp, p) then FilterState(Some(PassRouteLo), false)
            else if p.proto == Udp && p.dport == 53 && InDnsTable(inp, p)
                 then FilterState(Some(PassRouteLo), flags.blockUDP)
            else START
  {
    var a := RouteLines(SubnetsOf(inp.subnets, V4), V4) + RouteLines(SubnetsOf(inp.subnets, V6), V6);
    RunRoutePair(t, inp, p);
    RunDnsPassPair(t, flags, inp, p, a);
    RunExcludePair(t, inp, p, a + When(DnsOn(inp, V4), DnsPassLine(flags, V4)) +
                   When(DnsOn(inp, V6), DnsPassLine(flags, V6)));
  }

  lemma RunUdpAllow(t: Tables, flags: PfFlags, dns4: bool, p: Packet, st: FilterState)
    requires !st.stopped
    ensures RunFilter(t, p, st, UdpAllow(flags, dns4)) ==
            if p.proto == Udp &&
               (IsDhcpClient(p) || (p.family == V4 && p.dport == 53 && !dns4) || (flags.allowRootUDP && p.root))
            then FilterState(Some(Pass), true)
            else st
  {
    var dhcp4 := QuickUdp(V4, PortRange(68, 68), PortRange(67, 67), AnyUser);
    var dhcp6 := QuickUdp(V6, PortRange(546, 546), PortRange(547, 547), AnyUser);
    var port53 := QuickUdp(V4, AnyPort, PortRange(53, 53), AnyUser);
    var root4 := QuickUdp(V4, AnyPort, AnyPort, OnlyRoot);
    var root6 := QuickUdp(V6, AnyPort, AnyPort, OnlyRoot);
    assert [dhcp4][..0] == [];
    RunOne(t, p, st, [dhcp4], dhcp6);
    var a := [dhcp4] + [dhcp6];
    RunWhen(t, p, st, a, !dns4, port53);
    var b := a + When(!dns4, port53);
    RunWhen(t, p, st, b, flags.allowRootUDP, root4);
    RunWhen(t, p, st, b + When(flags.allowRootUDP, root4), flags.allowRootUDP, root6);
  }

  lemma RunUdpSection(t: Tables, flags: PfFlags, inp: FirewallInput, p: Packet, st: FilterState)
    requires !st.stopped
    ensures RunFilter(t, p, st, UdpSection(flags, inp)) ==
            if !flags.blockUDP || p.proto != Udp then st
            else if IsDhcpClient(p) || (p.dport == 53 && !DnsOn(inp, p.family)) || (flags.allowRootUDP && p.root)
            then FilterState(Some(Pass), true)
            else FilterState(Some(BlockDrop), true)
  {
    if flags.blockUDP {
      var allow := UdpAllow(flags, DnsOn(inp, V4));
      var dns6 := QuickUdp(V6, AnyPort, PortRange(53, 53), AnyUser);
      RunUdpAllow(t, flags, DnsOn(inp, V4), p, st);
      RunOne(t, p, st, allow, BlockUdp(V4));
      var blocked4 := allow + [BlockUdp(V4)];
      RunWhen(t, p, st, blocked4, !DnsOn(inp, V6), dns6);
      RunOne(t, p, st, blocked4 + When(!DnsOn(inp, V6), dns6), BlockUdp(V6));
      assert p.family == V4 || p.family == V6;
    }
  }

  lemma RunBlock6Section(t: Tables, flags: PfFlags, p: Packet, st: FilterState)
    ensures RunFilter(t, p, st, Block6Section(flags)) ==
            if st.stopped || !flags.blockIPv6 || p.family != V6 then st
            else FilterState(Some(if Whitelisted6(p.dst) then Pass else BlockReturn), true)
  {
    if flags.blockIPv6 {
      var a := [QuickPass6(LOOPBACK6)];
      assert a[..0] == [];
      RunOne(t, p, st, a, QuickPass6(LINK_LOCAL6));
      RunOne(t, p, st, a + [QuickPass6(LINK_LOCAL6)], QuickPass6(MULTICAST6));
      RunOne(t, p, st, a + [QuickPass6(LINK_LOCAL6)] + [QuickPass6(MULTICAST6)], BlockAll6());
    }
  }

  /** Once a quick rule matched, nothing later counts. */
  lemma {:induction false} RunStopped(t: Tables, p: Packet, st: FilterState, lines: seq<PfLine>)
    requires st.stopped
    ensures RunFilter(t, p, st, lines) == st
  {
    if lines != [] {
      RunStopped(t, p, st, lines[..|lines| - 1]);
    }
  }
}
