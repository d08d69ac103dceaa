/**
 The macOS pf backend: the anchor it generates, pf's evaluation of that anchor, and the
 decision the two together make for every packet.

 pf evaluates filter rules last-match-wins unless a matching rule says `quick`, and a
 packet routed to lo0 then meets the translation (rdr) rules, which are first-match.
 The subnet rules come first and the excludes after them, so the exclude wins.
 */
module PfRules {
  import opened Wrappers
  import opened Net

  datatype TableName = DnsServers | Dns6Servers

  function DnsTable(family: Family): TableName {
    if family == V4 then DnsServers else Dns6Servers
  }

  datatype Target = AnyHost | Within(net: Cidr) | InTable(name: TableName)

  datatype UserMatch = AnyUser | NotRoot | OnlyRoot

  datatype Action = Pass | PassRouteLo | BlockDrop | BlockReturn

  /** One line of the generated anchor. */
  datatype PfLine =
    | Table(name: TableName, addrs: seq<Bits>)
    | Rdr(family: Family, proto: Proto, notFrom: Option<Bits>, to: Target, dport: PortMatch, toPort: int)
    | Filter(action: Action, quick: bool, family: Family, l4: Option<Proto>,
             sport: PortMatch, to: Target, dport: PortMatch, user: UserMatch)

  // ---- pf's semantics

  datatype Tables = Tables(dns: seq<Bits>, dns6: seq<Bits>)

  function TablesOf(lines: seq<PfLine>): Tables {
    if lines == [] then Tables([], [])
    else
      var t := TablesOf(lines[..|lines| - 1]);
      var line := lines[|lines| - 1];
      if !line.Table? then t
      else if line.name == DnsServers then t.(dns := line.addrs)
      else t.(dns6 := line.addrs)
  }

  predicate TargetMatches(t: Tables, to: Target, p: Packet) {
    match to
    case AnyHost => true
    case Within(net) => Covers(net, p.family, p.dst)
    case InTable(name) => p.dst in (if name == DnsServers then t.dns else t.dns6)
  }

  predicate UserMatches(user: UserMatch, p: Packet) {
    match user
    case AnyUser => true
    case NotRoot => !p.root
    case OnlyRoot => p.root
  }

  predicate FilterMatches(t: Tables, line: PfLine, p: Packet)
    requires line.Filter?
  {
    && line.family == p.family
    && (line.l4.Some? ==> line.l4.value == p.proto)
    && PortMatches(line.sport, p.sport)
    && TargetMatches(t, line.to, p)
    && PortMatches(line.dport, p.dport)
    && UserMatches(line.user, p)
  }

  predicate RdrMatches(t: Tables, line: PfLine, p: Packet)
    requires line.Rdr?
  {
    && line.family == p.family
    && line.proto == p.proto
    && (line.notFrom.Some? ==> p.src != line.notFrom.value)
    && TargetMatches(t, line.to, p)
    && PortMatches(line.dport, p.dport)
  }

  /** The last matching action so far, and whether a `quick` match ended the evaluation. */
  datatype FilterState = FilterState(action: Option<Action>, stopped: bool)

  const START := FilterState(None, false)

  function StepFilter(t: Tables, p: Packet, st: FilterState, line: PfLine): FilterState {
    if st.stopped || !line.Filter? || !FilterMatches(t, line, p) then st
    else FilterState(Some(line.action), line.quick)
  }

  function RunFilter(t: Tables, p: Packet, st: FilterState, lines: seq<PfLine>): FilterState {
    if lines == [] then st
    else StepFilter(t, p, RunFilter(t, p, st, lines[..|lines| - 1]), lines[|lines| - 1])
  }

  /** Translation is first-match: a found port is kept. */
  function StepRdr(t: Tables, p: Packet, found: Option<int>, line: PfLine): Option<int> {
    if found.Some? || !line.Rdr? || !RdrMatches(t, line, p) then found else Some(line.toPort)
  }

  function RunRdr(t: Tables, p: Packet, found: Option<int>, lines: seq<PfLine>): Option<int> {
    if lines == [] then found
    else StepRdr(t, p, RunRdr(t, p, found, lines[..|lines| - 1]), lines[|lines| - 1])
  }

  /** What happens to an outbound packet. `Stranded` is a packet routed to lo0 that no rdr rule
      picks up; `NoDecision` leaves it to the rules outside the anchor. */
  datatype PfOutcome = NoDecision | PassedDirect | Dropped | Reset | RedirectedTo(port: int) | Stranded

  function Combine(action: Option<Action>, rdr: Option<int>): PfOutcome {
    match action
    case None => NoDecision
    case Some(Pass) => PassedDirect
    case Some(BlockDrop) => Dropped
    case Some(BlockReturn) => Reset
    case Some(PassRouteLo) => if rdr.Some? then RedirectedTo(rdr.value) else Stranded
  }

  function Outcome(lines: seq<PfLine>, p: Packet): PfOutcome {
    var t := TablesOf(lines);
    Combine(RunFilter(t, p, START, lines).action, RunRdr(t, p, None, lines))
  }

  // ---- the generated anchor

  datatype PfFlags = PfFlags(blockUDP: bool, allowRootUDP: bool, blockIPv6: bool)

  function RdrFor(s: SubnetRule, family: Family, proxyPort: int): PfLine {
    Rdr(family, Tcp, Some(Loopback(family)), Within(s.cidr), s.PfPort(), proxyPort)
  }

  function RdrLines(subnets: seq<SubnetRule>, family: Family, proxyPort: int): seq<PfLine> {
    if subnets == [] then []
    else
      var n := |subnets| - 1;
      RdrLines(subnets[..n], family, proxyPort) + [RdrFor(subnets[n], family, proxyPort)]
  }

  function RouteFor(s: SubnetRule, family: Family): PfLine {
    Filter(PassRouteLo, false, family, Some(Tcp), AnyPort, Within(s.cidr), s.PfPort(), NotRoot)
  }

  function RouteLines(subnets: seq<SubnetRule>, family: Family): seq<PfLine> {
    if subnets == [] then []
    else
      var n := |subnets| - 1;
      RouteLines(subnets[..n], family) + [RouteFor(subnets[n], family)]
  }

  function ExcludeFor(c: Cidr, family: Family): PfLine {
    Filter(Pass, false, family, Some(Tcp), AnyPort, Within(c), AnyPort, AnyUser)
  }

  function ExcludeLines(excludes: seq<Cidr>, family: Family): seq<PfLine> {
    if excludes == [] then []
    else
      var n := |excludes| - 1;
      ExcludeLines(excludes[..n], family) + [ExcludeFor(excludes[n], family)]
  }

  function When(condition: bool, line: PfLine): seq<PfLine> {
    if condition then [line] else []
  }

  function DnsTableLine(inp: FirewallInput, family: Family): PfLine {
    Table(DnsTable(family), ServersOf(inp.dnsServers, family))
  }

  function DnsRdrLine(inp: FirewallInput, family: Family): PfLine {
    Rdr(family, Udp, None, InTable(DnsTable(family)), PortRange(53, 53), inp.dnsPort)
  }

  function DnsPassLine(flags: PfFlags, family: Family): PfLine {
    Filter(PassRouteLo, flags.blockUDP, family, Some(Udp), AnyPort, InTable(DnsTable(family)), PortRange(53, 53),
           AnyUser)
  }

  /** `pass out quick <family> proto udp ...` */
  function QuickUdp(family: Family, sport: PortMatch, dport: PortMatch, user: UserMatch): PfLine {
    Filter(Pass, true, family, Some(Udp), sport, AnyHost, dport, user)
  }

  function BlockUdp(family: Family): PfLine {
    Filter(BlockDrop, true, family, Some(Udp), AnyPort, AnyHost, AnyPort, AnyUser)
  }

  function QuickPass6(net: Cidr): PfLine {
    Filter(Pass, true, V6, None, AnyPort, Within(net), AnyPort, AnyUser)
  }

  function BlockAll6(): PfLine {
    Filter(BlockReturn, true, V6, None, AnyPort, AnyHost, AnyPort, AnyUser)
  }

  function TableSection(inp: FirewallInput): seq<PfLine> {
    When(DnsOn(inp, V4), DnsTableLine(inp, V4)) + When(DnsOn(inp, V6), DnsTableLine(inp, V6))
  }

  function RdrSection(inp: FirewallInput): seq<PfLine> {
    RdrLines(SubnetsOf(inp.subnets, V4), V4, inp.proxyPort) +
    RdrLines(SubnetsOf(inp.subnets, V6), V6, inp.proxyPort) +
    When(DnsOn(inp, V4), DnsRdrLine(inp, V4)) + When(DnsOn(inp, V6), DnsRdrLine(inp, V6))
  }

  function PassSection(flags: PfFlags, inp: FirewallInput): seq<PfLine> {
    RouteLines(SubnetsOf(inp.subnets, V4), V4) +
    RouteLines(SubnetsOf(inp.subnets, V6), V6) +
    When(DnsOn(inp, V4), DnsPassLine(flags, V4)) + When(DnsOn(inp, V6), DnsPassLine(flags, V6)) +
    ExcludeLines(CidrsOf(inp.excludes, V4), V4) +
    ExcludeLines(CidrsOf(inp.excludes, V6), V6)
  }

  function UdpAllow(flags: PfFlags, dns4: bool): seq<PfLine> {
    [QuickUdp(V4, PortRange(68, 68), PortRange(67, 67), AnyUser)] +
    [QuickUdp(V6, PortRange(546, 546), PortRange(547, 547), AnyUser)] +
    When(!dns4, QuickUdp(V4, AnyPort, PortRange(53, 53), AnyUser)) +
    When(flags.allowRootUDP, QuickUdp(V4, AnyPort, AnyPort, OnlyRoot)) +
    When(flags.allowRootUDP, QuickUdp(V6, AnyPort, AnyPort, OnlyRoot))
  }

  function UdpSection(flags: PfFlags, inp: FirewallInput): seq<PfLine> {
    if !flags.blockUDP then []
    else
      UdpAllow(flags, DnsOn(inp, V4)) +
      [BlockUdp(V4)] +
      When(!DnsOn(inp, V6), QuickUdp(V6, AnyPort, PortRange(53, 53), AnyUser)) +
      [BlockUdp(V6)]
  }

  function Block6Section(flags: PfFlags): seq<PfLine> {
    if !flags.blockIPv6 then []
    else
      [QuickPass6(LOOPBACK6)] + [QuickPass6(LINK_LOCAL6)] + [QuickPass6(MULTICAST6)] + [BlockAll6()]
  }

  function FilterSection(flags: PfFlags, inp: FirewallInput): seq<PfLine> {
    PassSection(flags, inp) + UdpSection(flags, inp) + Block6Section(flags)
  }

  function PfLines(flags: PfFlags, inp: FirewallInput): seq<PfLine> {
    TableSection(inp) + RdrSection(inp) + FilterSection(flags, inp)
  }

  // ---- the decision, stated without any rule

  /** What pf should do with a TCP packet: the IPv6 block overrides everything, an exclude
      overrides a subnet, and only non-root traffic is captured. */
  ghost function TcpDecision(flags: PfFlags, inp: FirewallInput, p: Packet): PfOutcome {
    if flags.blockIPv6 && p.family == V6 then
      if Whitelisted6(p.dst) then PassedDirect else Reset
    else if Excluded(inp, p) then PassedDirect
    else if InSubnets(inp, p) && !p.root then
      if p.src == Loopback(p.family) then Stranded else RedirectedTo(inp.proxyPort)
    else NoDecision
  }

  predicate IsDhcpClient(p: Packet) {
    if p.family == V4 then p.sport == 68 && p.dport == 67 else p.sport == 546 && p.dport == 547
  }

  /** What pf should do with a UDP packet. With the UDP block on, its quick rules come first and
      the IPv6 block is never reached. */
  ghost function UdpDecision(flags: PfFlags, inp: FirewallInput, p: Packet): PfOutcome {
    if flags.blockUDP then
      if IsDnsQuery(inp, p) then RedirectedTo(inp.dnsPort)
      else if IsDhcpClient(p) || (p.dport == 53 && !DnsProxied(inp, p.family)) || (flags.allowRootUDP && p.root)
      then PassedDirect
      else Dropped
    else if flags.blockIPv6 && p.family == V6 then
      if Whitelisted6(p.dst) then PassedDirect else Reset
    else if IsDnsQuery(inp, p) then RedirectedTo(inp.dnsPort)
    else NoDecision
  }

  ghost function Decision(flags: PfFlags, inp: FirewallInput, p: Packet): PfOutcome {
    match p.proto
    case Tcp => TcpDecision(flags, inp, p)
    case Udp => UdpDecision(flags, inp, p)
    case OtherProto =>
      if flags.blockIPv6 && p.family == V6 then
        if Whitelisted6(p.dst) then PassedDirect else Reset
      else NoDecision
  }
}
