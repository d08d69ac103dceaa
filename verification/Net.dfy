/**
 Addresses, networks and packets as the firewall rule languages see them.

 An address is the sequence of its bits, most significant first, and a CIDR network is a
 family with a bit prefix, so that membership is exactly "the prefix is a prefix of the
 address".
 */
module Net {
  import opened Wrappers

  datatype Family = V4 | V6

  type Bits = seq<bool>

  datatype Cidr = Cidr(family: Family, prefix: Bits)

  datatype Proto = Tcp | Udp | OtherProto

  /** A packet of one family. `root` is the owner of the sending socket, `mark` its SO_MARK, and
      `dstLocal` says whether the destination is an address of this machine. */
  datatype Packet = Packet(
    family: Family, proto: Proto,
    src: Bits, sport: nat, dst: Bits, dport: nat,
    root: bool, mark: nat, dstLocal: bool)

  predicate Covers(net: Cidr, family: Family, addr: Bits) {
    net.family == family && net.prefix <= addr
  }

  function Repeat(bit: bool, n: nat): (r: Bits)
    ensures |r| == n && forall i :: 0 <= i < n ==> r[i] == bit
  {
    if n == 0 then [] else Repeat(bit, n - 1) + [bit]
  }

  /** 127.0.0.1 and ::1 */
  function Loopback(family: Family): Bits {
    match family
    case V4 => [false] + Repeat(true, 7) + Repeat(false, 23) + [true]
    case V6 => Repeat(false, 127) + [true]
  }

  const LOOPBACK6 := Cidr(V6, Loopback(V6))
  /** fe80::/10 */
  const LINK_LOCAL6 := Cidr(V6, Repeat(true, 7) + [false, true, false])
  /** ff00::/8 */
  const MULTICAST6 := Cidr(V6, Repeat(true, 8))

  /** The destinations the IPv6 blanket block lets through. */
  predicate Whitelisted6(addr: Bits) {
    Covers(LOOPBACK6, V6, addr) || Covers(LINK_LOCAL6, V6, addr) || Covers(MULTICAST6, V6, addr)
  }

  /** The `width` lowest bits of a number, the most significant first. */
  function BitsOf(n: nat, width: nat): (r: Bits)
    ensures |r| == width
  {
    if width == 0 then [] else BitsOf(n / 2, width - 1) + [n % 2 == 1]
  }

  lemma {:induction false} BitsOfZero(width: nat)
    ensures BitsOf(0, width) == Repeat(false, width)
  {
    if width > 0 {
      BitsOfZero(width - 1);
    }
  }

  function Pow2(k: nat): (r: nat)
    ensures r > 0
  {
    if k == 0 then 1 else 2 * Pow2(k - 1)
  }

  lemma {:induction false} BitsShifted(n: nat, width: nat, k: nat)
    ensures BitsOf(n * Pow2(k), width + k) == BitsOf(n, width) + Repeat(false, k)
  {
    if k == 0 {
      assert BitsOf(n, width) + [] == BitsOf(n, width);
    } else {
      BitsShifted(n, width, k - 1);
      assert n * Pow2(k) == 2 * (n * Pow2(k - 1));
      assert BitsOf(n * Pow2(k), width + k) == BitsOf(n * Pow2(k - 1), width + k - 1) + [false];
    }
  }

  /** 127.0.0.1 and ::1 as numbers. */
  lemma LoopbackIs()
    ensures Loopback(V4) == BitsOf(0x7f00_0001, 32) && Loopback(V6) == BitsOf(1, 128)
  {
    BitsOfZero(127);
    BitsShifted(0x7f, 8, 23);
    Pow23();
    SevenOnes();
    assert BitsOf(0x7f00_0001, 32) == BitsOf(0x3f80_0000, 31) + [true];
  }

  lemma Pow23()
    ensures 0x7f * Pow2(23) == 0x3f80_0000
  {
    assert Pow2(8) == 256;
    assert Pow2(16) == 0x1_0000;
  }

  lemma SevenOnes()
    ensures BitsOf(0x7f, 8) == [false] + Repeat(true, 7)
  {
    assert BitsOf(0, 1) == [false];
    assert BitsOf(7, 4) == [false] + Repeat(true, 3);
  }

  /** The three networks exempt from the IPv6 block: ::1, fe80::/10 (the first ten bits of fe80) and ff00::/8. */
  lemma Whitelisted6Iff(addr: Bits)
    ensures Whitelisted6(addr) <==>
            BitsOf(1, 128) <= addr || BitsOf(0x3fa, 10) <= addr || BitsOf(0xff, 8) <= addr
  {
    LoopbackIs();
    LinkLocalBits();
  }

  lemma LinkLocalBits()
    ensures BitsOf(0x3fa, 10) == Repeat(true, 7) + [false, true, false] && BitsOf(0xff, 8) == Repeat(true, 8)
  {
    assert BitsOf(0xf, 4) == Repeat(true, 4);
    assert BitsOf(0x7f, 7) == Repeat(true, 7);
  }

  datatype PortMatch = AnyPort | PortRange(low: int, high: int) | NotPort(port: int)

  predicate PortMatches(m: PortMatch, port: nat) {
    match m
    case AnyPort => true
    case PortRange(low, high) => low <= port <= high
    case NotPort(q) => port != q
  }

  datatype SubnetRule = SubnetRule(cidr: Cidr, portLow: int, portHigh: int) {

    predicate HasPortRange() {
      portLow > 0 && portHigh > 0
    }

    /** The pf port clause: none without a range, `port N` or `port N:M` with one. */
    function PfPort(): PortMatch {
      if !HasPortRange() then AnyPort else PortRange(portLow, portHigh)
    }

    /** The nftables/iptables port clause; without a range these backends skip the proxy's own port. */
    function LinuxPort(proxyPort: int): PortMatch {
      if !HasPortRange() then NotPort(proxyPort) else PortRange(portLow, portHigh)
    }
  }

  /** A DNS server setting: text that is not an IP address is dropped when families are split. */
  datatype DnsServer = Unparsed(text: string) | Server(family: Family, addr: Bits)

  /** What every backend compiles. */
  datatype FirewallInput = FirewallInput(
    subnets: seq<SubnetRule>,
    excludes: seq<Cidr>,
    proxyPort: nat,
    dnsPort: int,
    dnsServers: seq<DnsServer>)
  {
    /** The same input with DNS proxying switched off. */
    function WithoutDns(): FirewallInput {
      this.(dnsPort := 0, dnsServers := [])
    }
  }

  // ---- splitting by family

  function SubnetsOf(rules: seq<SubnetRule>, family: Family): (r: seq<SubnetRule>) {
    if rules == [] then []
    else
      var n := |rules| - 1;
      SubnetsOf(rules[..n], family) + (if rules[n].cidr.family == family then [rules[n]] else [])
  }

  function CidrsOf(nets: seq<Cidr>, family: Family): (r: seq<Cidr>) {
    if nets == [] then []
    else
      var n := |nets| - 1;
      CidrsOf(nets[..n], family) + (if nets[n].family == family then [nets[n]] else [])
  }

  function ServersOf(servers: seq<DnsServer>, family: Family): (r: seq<Bits>) {
    if servers == [] then []
    else
      var n := |servers| - 1;
      ServersOf(servers[..n], family) +
      (if servers[n].Server? && servers[n].family == family then [servers[n].addr] else [])
  }

  /** DNS is proxied and some server is of the family. */
  predicate DnsOn(inp: FirewallInput, family: Family) {
    inp.dnsPort > 0 && |ServersOf(inp.dnsServers, family)| > 0
  }

  method SplitByFamily(rules: seq<SubnetRule>) returns (v4: seq<SubnetRule>, v6: seq<SubnetRule>)
    ensures v4 == SubnetsOf(rules, V4) && v6 == SubnetsOf(rules, V6)
  {
    v4, v6 := [], [];
    for i := 0 to |rules|
      invariant v4 == SubnetsOf(rules[..i], V4) && v6 == SubnetsOf(rules[..i], V6)
    {
      assert rules[..i+1][..i] == rules[..i];
      if rules[i].cidr.family == V6 {
        v6 := v6 + [rules[i]];
      } else {
        v4 := v4 + [rules[i]];
      }
    }
    assert rules[..|rules|] == rules;
  }

  method SplitExcludesByFamily(excludes: seq<Cidr>) returns (v4: seq<Cidr>, v6: seq<Cidr>)
    ensures v4 == CidrsOf(excludes, V4) && v6 == CidrsOf(excludes, V6)
  {
    v4, v6 := [], [];
    for i := 0 to |excludes|
      invariant v4 == CidrsOf(excludes[..i], V4) && v6 == CidrsOf(excludes[..i], V6)
    {
      assert excludes[..i+1][..i] == excludes[..i];
      if excludes[i].family == V6 {
        v6 := v6 + [excludes[i]];
      } else {
        v4 := v4 + [excludes[i]];
      }
    }
    assert excludes[..|excludes|] == excludes;
  }

  method SplitDNSByFamily(servers: seq<DnsServer>) returns (v4: seq<Bits>, v6: seq<Bits>)
    ensures v4 == ServersOf(servers, V4) && v6 == ServersOf(servers, V6)
  {
    v4, v6 := [], [];
    for i := 0 to |servers|
      invariant v4 == ServersOf(servers[..i], V4) && v6 == ServersOf(servers[..i], V6)
    {
      assert servers[..i+1][..i] == servers[..i];
      if servers[i].Unparsed? {
        continue;
      }
      if servers[i].family == V6 {
        v6 := v6 + [servers[i].addr];
      } else {
        v4 := v4 + [servers[i].addr];
      }
    }
    assert servers[..|servers|] == servers;
  }

  // ---- what the input asks for, independently of any rule language

  /** Some exclude of the packet's family covers its destination. */
  ghost predicate Excluded(inp: FirewallInput, p: Packet) {
    exists c :: c in inp.excludes && c.family == p.family && c.prefix <= p.dst
  }

  /** Some subnet of the packet's family covers its destination and admits its port. */
  ghost predicate InSubnets(inp: FirewallInput, p: Packet) {
    exists s :: s in inp.subnets && s.cidr.family == p.family && s.cidr.prefix <= p.dst &&
                (s.portLow <= 0 || s.portHigh <= 0 || s.portLow <= p.dport <= s.portHigh)
  }

  /** As `InSubnets`, but a rule without a port range does not take the proxy's own port. */
  ghost predicate InSubnetsBesideProxy(inp: FirewallInput, p: Packet) {
    exists s :: s in inp.subnets && s.cidr.family == p.family && s.cidr.prefix <= p.dst &&
                (if s.portLow <= 0 || s.portHigh <= 0 then p.dport != inp.proxyPort
                 else s.portLow <= p.dport <= s.portHigh)
  }

  ghost predicate DnsProxied(inp: FirewallInput, family: Family) {
    inp.dnsPort > 0 && exists s :: s in inp.dnsServers && s.Server? && s.family == family
  }

  /** A query to one of the configured DNS servers while DNS is proxied. */
  ghost predicate IsDnsQuery(inp: FirewallInput, p: Packet) {
    inp.dnsPort > 0 && p.proto == Udp && p.dport == 53 && Server(p.family, p.dst) in inp.dnsServers
  }

  ghost predicate HasFamily(inp: FirewallInput, family: Family) {
    exists s :: s in inp.subnets && s.cidr.family == family
  }

  // ---- splitting loses and invents nothing

  lemma {:induction false} SubnetsOfIff(rules: seq<SubnetRule>, family: Family, s: SubnetRule)
    ensures s in SubnetsOf(rules, family) <==> s in rules && s.cidr.family == family
  {
    if rules != [] {
      var n := |rules| - 1;
      SubnetsOfIff(rules[..n], family, s);
      assert rules == rules[..n] + [rules[n]];
    }
  }

  lemma {:induction false} CidrsOfIff(nets: seq<Cidr>, family: Family, c: Cidr)
    ensures c in CidrsOf(nets, family) <==> c in nets && c.family == family
  {
    if nets != [] {
      var n := |nets| - 1;
      CidrsOfIff(nets[..n], family, c);
      assert nets == nets[..n] + [nets[n]];
    }
  }

  lemma {:induction false} ServersOfIff(servers: seq<DnsServer>, family: Family, addr: Bits)
    ensures addr in ServersOf(servers, family) <==> Server(family, addr) in servers
  {
    if servers != [] {
      var n := |servers| - 1;
      ServersOfIff(servers[..n], family, addr);
      assert servers == servers[..n] + [servers[n]];
    }
  }

  /** A DNS table is emitted for a family exactly when DNS is proxied for it. */
  lemma DnsProxiedIff(inp: FirewallInput, family: Family)
    ensures DnsProxied(inp, family) <==> inp.dnsPort > 0 && |ServersOf(inp.dnsServers, family)| > 0
  {
    var ss := ServersOf(inp.dnsServers, family);
    if |ss| > 0 {
      ServersOfIff(inp.dnsServers, family, ss[0]);
    }
    if s :| s in inp.dnsServers && s.Server? && s.family == family {
      ServersOfIff(inp.dnsServers, family, s.addr);
      assert s == Server(family, s.addr);
    }
  }

  lemma HasFamilyIff(inp: FirewallInput, family: Family)
    ensures HasFamily(inp, family) <==> |SubnetsOf(inp.subnets, family)| > 0
  {
    var ss := SubnetsOf(inp.subnets, family);
    if |ss| > 0 {
      SubnetsOfIff(inp.subnets, family, ss[0]);
    }
    if s :| s in inp.subnets && s.cidr.family == family {
      SubnetsOfIff(inp.subnets, family, s);
    }
  }
}
