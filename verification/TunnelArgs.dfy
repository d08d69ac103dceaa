/**
 The command line of the tunnel: the desktop app builds it from a profile, the Go flag package and
 `parseAndBuildConfig` take it apart again.
 */
module TunnelArgs {
  import opened Wrappers
  import opened Text
  import opened Lists

  // ---- flags

  datatype Flag =
    | Verbose | Remote | AutoNets | Identity | Jump | Method | Pool | TcpBalance | Split | Fectun
    | NoIPv6 | NoBlockUDP | UDP | DNS | DNSTarget | ExtraSSHOpts | Exclude | LanSocks5 | LanHTTP
    | NoIPv6Lockdown | TProxyMark | TProxyTable | Version | ListFeatures | ProfilePath | TUI

  function NameOf(f: Flag): string {
    match f
    case Verbose => "v"
    case Remote => "remote"
    case AutoNets => "auto-nets"
    case Identity => "identity"
    case Jump => "jump"
    case Method => "method"
    case Pool => "pool"
    case TcpBalance => "tcp-balance"
    case Split => "split"
    case Fectun => "fectun"
    case NoIPv6 => "no-ipv6"
    case NoBlockUDP => "no-block-udp"
    case UDP => "udp"
    case DNS => "dns"
    case DNSTarget => "dns-target"
    case ExtraSSHOpts => "extra-ssh-opts"
    case Exclude => "exclude"
    case LanSocks5 => "lan-socks5"
    case LanHTTP => "lan-http"
    case NoIPv6Lockdown => "no-ipv6-lockdown"
    case TProxyMark => "tproxy-mark"
    case TProxyTable => "tproxy-table"
    case Version => "version"
    case ListFeatures => "list-features"
    case ProfilePath => "profile"
    case TUI => "tui"
  }

  lemma NamesDistinct(f: Flag, g: Flag)
    requires NameOf(f) == NameOf(g)
    ensures f == g
  {
  }

  lemma NamesPlain(f: Flag)
    ensures var n := NameOf(f); n != "" && n[0] != '-'
  {
  }

  lemma NamesWithoutEquals(f: Flag)
    ensures '=' !in NameOf(f)
  {
    if f.Verbose? || f.Remote? || f.AutoNets? || f.Identity? || f.Jump? || f.Method? || f.Pool? || f.TcpBalance? ||
       f.Split? || f.Fectun? {
      ConnectionNames(f);
    } else {
      OtherNames(f);
    }
  }

  lemma ConnectionNames(f: Flag)
    requires f.Verbose? || f.Remote? || f.AutoNets? || f.Identity? || f.Jump? || f.Method? || f.Pool? ||
             f.TcpBalance? || f.Split? || f.Fectun?
    ensures '=' !in NameOf(f)
  {
  }

  lemma OtherNames(f: Flag)
    requires !(f.Verbose? || f.Remote? || f.AutoNets? || f.Identity? || f.Jump? || f.Method? || f.Pool? ||
               f.TcpBalance? || f.Split? || f.Fectun?)
    ensures '=' !in NameOf(f)
  {
  }

  function FlagNamed(name: string): (r: Option<Flag>)
    ensures r.Some? ==> NameOf(r.value) == name
    ensures r.None? ==> forall f :: NameOf(f) != name
  {
    if f: Flag :| NameOf(f) == name then
      assert forall g :: NameOf(g) == name ==> g == f by {
        forall g | NameOf(g) == name ensures g == f {
          NamesDistinct(f, g);
        }
      }
      Some(f)
    else None
  }

  datatype Kind = OnOff | Word | Number

  function KindOf(f: Flag): Kind {
    match f
    case Verbose | AutoNets | Split | NoIPv6 | NoBlockUDP | UDP | DNS | NoIPv6Lockdown => OnOff
    case Version | ListFeatures | TUI => OnOff
    case Pool | TProxyMark | TProxyTable => Number
    case _ => Word
  }

  datatype Value = B(on: bool) | S(word: string) | I(n: int)

  type Values = map<Flag, Value>

  function Default(f: Flag): Value {
    match f
    case Method => S("auto")
    case TcpBalance => S("least-loaded")
    case Pool => I(1)
    case TProxyMark => I(1)
    case TProxyTable => I(100)
    case _ => if KindOf(f) == OnOff then B(false) else S("")
  }

  function Defaults(): Values {
    map f: Flag | true :: Default(f)
  }

  // ---- the Go flag parser

  /** strconv.ParseInt with base 0; of this model only that it reads plain decimals. */
  type IntParser = string -> Option<int>

  ghost predicate ReadsDecimals(parseInt: IntParser) {
    forall n: nat :: n < 0x8000_0000_0000_0000 ==> parseInt(Decimal(n)) == Some(n)
  }

  /** strconv.ParseBool */
  function ParseBool(s: string): Option<bool> {
    if s in ["1", "t", "T", "true", "TRUE", "True"] then Some(true)
    else if s in ["0", "f", "F", "false", "FALSE", "False"] then Some(false)
    else None
  }

  function ParseValue(f: Flag, s: string, parseInt: IntParser): Option<Value> {
    match KindOf(f)
    case OnOff => (match ParseBool(s) case Some(b) => Some(B(b)) case None => None)
    case Word => Some(S(s))
    case Number => (match parseInt(s) case Some(n) => Some(I(n)) case None => None)
  }

  datatype Turn = Stop(rest: seq<string>) | Fail | Took(n: nat, flag: Flag, value: Value)

  /** An argument the parser takes for a flag, or for the `--` that ends the flags. */
  predicate FlagLike(s: string) {
    |s| >= 2 && s[0] == '-'
  }

  /** One call of `parseOne`. */
  function ParseOne(args: seq<string>, parseInt: IntParser): (t: Turn)
    ensures t.Took? ==> 1 <= t.n <= |args|
    ensures t.Stop? ==> |t.rest| <= |args|
    ensures args != [] && FlagLike(args[0]) && t.Stop? ==> |t.rest| < |args|
  {
    if args == [] then Stop([])
    else
      var s := args[0];
      if !FlagLike(s) then Stop(args)
      else if s == "--" then Stop(args[1..])
      else
        var name := if s[1] == '-' then s[2..] else s[1..];
        if name == "" || name[0] == '-' || name[0] == '=' then Fail
        else
          var eq := IndexOf(name, '=');
          var bare := if eq < 0 then name else name[..eq];
          match FlagNamed(bare)
          case None => Fail
          case Some(f) =>
            if eq >= 0 then Given(f, 1, name[eq + 1..], parseInt)
            else if KindOf(f) == OnOff then Took(1, f, B(true))
            else if |args| < 2 then Fail
            else Given(f, 2, args[1], parseInt)
  }

  function Given(f: Flag, n: nat, s: string, parseInt: IntParser): Turn {
    match ParseValue(f, s, parseInt)
    case Some(v) => Took(n, f, v)
    case None => Fail
  }

  datatype Flags = Flags(values: Values, positional: seq<string>)

  /** `FlagSet.Parse`: nothing when the program exits with a usage error. */
  function ParseFlags(args: seq<string>, values: Values, parseInt: IntParser): Option<Flags>
    decreases |args|
  {
    match ParseOne(args, parseInt)
    case Stop(rest) => Some(Flags(values, rest))
    case Fail => None
    case Took(n, f, v) => ParseFlags(args[n..], values[f := v], parseInt)
  }

  lemma {:induction false} PositionalsAreTail(args: seq<string>, values: Values, parseInt: IntParser)
    ensures var r := ParseFlags(args, values, parseInt);
            r.Some? ==> |r.value.positional| <= |args|
    ensures var r := ParseFlags(args, values, parseInt);
            r.Some? && args != [] && FlagLike(args[0]) ==> |r.value.positional| < |args|
    decreases |args|
  {
    match ParseOne(args, parseInt)
    case Stop(_) =>
    case Fail =>
    case Took(n, f, v) => PositionalsAreTail(args[n..], values[f := v], parseInt);
  }

  // ---- what the app writes

  /** One option of the command line, when it is given. */
  datatype Row = Row(flag: Flag, value: Option<Value>)

  /** The flag as the app writes it; the last five it never does. */
  function Spelling(f: Flag): string {
    match f
    case Verbose => "-v"
    case Remote => "--remote"
    case AutoNets => "--auto-nets"
    case Identity => "--identity"
    case Jump => "--jump"
    case Method => "--method"
    case Pool => "--pool"
    case TcpBalance => "--tcp-balance"
    case Split => "--split"
    case Fectun => "--fectun"
    case NoIPv6 => "--no-ipv6"
    case NoBlockUDP => "--no-block-udp"
    case UDP => "--udp"
    case DNS => "--dns"
    case DNSTarget => "--dns-target"
    case ExtraSSHOpts => "--extra-ssh-opts"
    case Exclude => "--exclude"
    case LanSocks5 => "--lan-socks5"
    case LanHTTP => "--lan-http"
    case Version => "--version"
    case ListFeatures => "--list-features"
    case NoIPv6Lockdown => "--no-ipv6-lockdown"
    case TProxyMark => "--tproxy-mark"
    case TProxyTable => "--tproxy-table"
    case ProfilePath => "--profile"
    case TUI => "--tui"
  }

  /** What the app writes is what the flag package knows: a hyphen and `v`, two and the other names. */
  lemma SpellingIs(f: Flag)
    ensures Spelling(f) == (if f == Verbose then "-" else "--") + NameOf(f)
  {
    match f
    case Verbose | Remote | AutoNets | Identity => LoginSpelling(f);
    case Jump | Method | Pool | TcpBalance => TransportSpelling(f);
    case Split | Fectun | NoIPv6 | NoBlockUDP => ModeSpelling(f);
    case UDP | DNS | DNSTarget | ExtraSSHOpts => NameSpelling(f);
    case Exclude | LanSocks5 | LanHTTP => LanSpelling(f);
    case NoIPv6Lockdown | TProxyMark | TProxyTable => KernelSpelling(f);
    case Version | ListFeatures | ProfilePath | TUI => OtherSpelling(f);
  }

  lemma LoginSpelling(f: Flag)
    requires f.Verbose? || f.Remote? || f.AutoNets? || f.Identity?
    ensures Spelling(f) == (if f == Verbose then "-" else "--") + NameOf(f)
  {
  }

  lemma TransportSpelling(f: Flag)
    requires f.Jump? || f.Method? || f.Pool? || f.TcpBalance?
    ensures Spelling(f) == (if f == Verbose then "-" else "--") + NameOf(f)
  {
  }

  lemma ModeSpelling(f: Flag)
    requires f.Split? || f.Fectun? || f.NoIPv6? || f.NoBlockUDP?
    ensures Spelling(f) == (if f == Verbose then "-" else "--") + NameOf(f)
  {
  }

  lemma NameSpelling(f: Flag)
    requires f.UDP? || f.DNS? || f.DNSTarget? || f.ExtraSSHOpts?
    ensures Spelling(f) == (if f == Verbose then "-" else "--") + NameOf(f)
  {
  }

  lemma LanSpelling(f: Flag)
    requires f.Exclude? || f.LanSocks5? || f.LanHTTP?
    ensures Spelling(f) == (if f == Verbose then "-" else "--") + NameOf(f)
  {
  }

  lemma KernelSpelling(f: Flag)
    requires f.NoIPv6Lockdown? || f.TProxyMark? || f.TProxyTable?
    ensures Spelling(f) == (if f == Verbose then "-" else "--") + NameOf(f)
  {
  }

  lemma OtherSpelling(f: Flag)
    requires f.Version? || f.ListFeatures? || f.ProfilePath? || f.TUI?
    ensures Spelling(f) == (if f == Verbose then "-" else "--") + NameOf(f)
  {
  }

  function Shown(n: int): string {
    if n < 0 then "-" + Decimal(-n) else Decimal(n)
  }

  function Segment(r: Row): seq<string> {
    match r.value
    case None => []
    case Some(B(_)) => [Spelling(r.flag)]
    case Some(S(s)) => [Spelling(r.flag), s]
    case Some(I(n)) => [Spelling(r.flag), Shown(n)]
  }

  function Emit(rows: seq<Row>): seq<string> {
    if rows == [] then [] else Emit(rows[..|rows| - 1]) + Segment(rows[|rows| - 1])
  }

  /** Rows the app may write: the value has the kind of the flag, switches only switch on. */
  predicate Writable(r: Row) {
    match r.value
    case None => true
    case Some(B(on)) => on && KindOf(r.flag) == OnOff
    case Some(S(_)) => KindOf(r.flag) == Word
    case Some(I(n)) => 0 <= n < 0x8000_0000_0000_0000 && KindOf(r.flag) == Number
  }

  function Apply(rows: seq<Row>, values: Values): Values {
    if rows == [] then values
    else
      var before, r := Apply(rows[..|rows| - 1], values), rows[|rows| - 1];
      if r.value.Some? then before[r.flag := r.value.value] else before
  }

  /** The parser takes exactly the arguments of one written row, whatever its value looks like. */
  lemma ParseSegment(r: Row, rest: seq<string>, values: Values, parseInt: IntParser)
    requires Writable(r) && ReadsDecimals(parseInt)
    ensures ParseFlags(Segment(r) + rest, values, parseInt) ==
              ParseFlags(rest, if r.value.Some? then values[r.flag := r.value.value] else values, parseInt)
  {
    var args := Segment(r) + rest;
    if r.value.None? {
      assert args == rest;
    } else {
      var n := if r.value.value.B? then 1 else 2;
      assert args[n..] == rest;
      ParseOneRow(r, rest, parseInt);
    }
  }

  lemma ParseOneRow(r: Row, rest: seq<string>, parseInt: IntParser)
    requires Writable(r) && r.value.Some? && ReadsDecimals(parseInt)
    ensures ParseOne(Segment(r) + rest, parseInt) == Took(if r.value.value.B? then 1 else 2, r.flag, r.value.value)
  {
    SpellingRead(r.flag);
  }

  lemma SpellingRead(f: Flag)
    ensures var s := Spelling(f);
            var name := if |s| >= 2 && s[1] == '-' then s[2..] else s[1..];
            && FlagLike(s) && s != "--" && name == NameOf(f) && name != "" && name[0] != '-' && name[0] != '='
            && IndexOf(name, '=') < 0 && FlagNamed(name) == Some(f)
  {
    SpellingIs(f);
    NamesPlain(f);
    NamesWithoutEquals(f);
    NameBack(f);
  }

  /** A switch may also be given with a value behind `=`: exactly these turn it on or off. */
  lemma AssignedSwitch(f: Flag, s: string, rest: seq<string>, parseInt: IntParser)
    requires KindOf(f) == OnOff
    ensures ParseOne(["-" + NameOf(f) + "=" + s] + rest, parseInt) ==
            if s in ["1", "t", "T", "true", "TRUE", "True"] then Took(1, f, B(true))
            else if s in ["0", "f", "F", "false", "FALSE", "False"] then Took(1, f, B(false))
            else Fail
  {
    NamesPlain(f);
    NamesWithoutEquals(f);
    NameBack(f);
    AssignedForm(NameOf(f), s);
  }

  lemma NameBack(f: Flag)
    ensures FlagNamed(NameOf(f)) == Some(f)
  {
    var g := FlagNamed(NameOf(f));
    if g.Some? {
      NamesDistinct(f, g.value);
    }
  }

  lemma AssignedForm(name: string, s: string)
    requires name != "" && name[0] != '-' && '=' !in name
    ensures var arg := "-" + name + "=" + s;
            && FlagLike(arg) && arg != "--" && arg[1] != '-' && arg[1..] == name + ['='] + s
            && IndexOf(arg[1..], '=') == |name| && arg[1..][..|name|] == name && arg[1..][|name| + 1..] == s
            && arg[1..] != "" && arg[1..][0] != '-' && arg[1..][0] != '='
  {
    var arg := "-" + name + "=" + s;
    assert arg == "-" + (name + ['='] + s);
    IndexAfter(name, '=', s);
    assert name[0] in name;
  }

  lemma {:induction false} ParseEmitted(rows: seq<Row>, rest: seq<string>, values: Values, parseInt: IntParser)
    requires (forall i :: 0 <= i < |rows| ==> Writable(rows[i])) && ReadsDecimals(parseInt)
    ensures ParseFlags(Emit(rows) + rest, values, parseInt) == ParseFlags(rest, Apply(rows, values), parseInt)
    decreases |rows|
  {
    if rows == [] {
      assert Emit(rows) + rest == rest;
    } else {
      var n := |rows| - 1;
      assert Emit(rows) + rest == Emit(rows[..n]) + (Segment(rows[n]) + rest);
      ParseEmitted(rows[..n], Segment(rows[n]) + rest, values, parseInt);
      ParseSegment(rows[n], rest, Apply(rows[..n], values), parseInt);
    }
  }

  /** A row's value ends up under its flag when no other row has that flag. */
  lemma {:induction false} AppliedAt(rows: seq<Row>, values: Values, k: nat)
    requires k < |rows| && forall i, j :: 0 <= i < j < |rows| ==> rows[i].flag != rows[j].flag
    requires forall f :: f in values
    ensures forall f :: f in Apply(rows, values)
    ensures Apply(rows, values)[rows[k].flag] == rows[k].value.GetOr(values[rows[k].flag])
  {
    var n := |rows| - 1;
    AppliedElsewhere(rows[..n], values, rows[n].flag);
    if k < n {
      AppliedAt(rows[..n], values, k);
    }
  }

  lemma {:induction false} AppliedElsewhere(rows: seq<Row>, values: Values, f: Flag)
    requires forall i :: 0 <= i < |rows| ==> rows[i].flag != f
    requires forall g :: g in values
    ensures forall g :: g in Apply(rows, values)
    ensures Apply(rows, values)[f] == values[f]
  {
    if rows != [] {
      AppliedElsewhere(rows[..|rows| - 1], values, f);
    }
  }

  // ---- profiles

  type u32 = n: nat | n < 0x1_0000_0000

  type u16 = n: nat | n < 0x1_0000

  type u8 = n: nat | n < 256

  datatype DnsMode = Off | All | Specific

  /** A fectun configuration with its JSON text. */
  datatype FectunConfig = FectunConfig(port: u16, json: string)

  datatype Profile = Profile(
    remote: string, identityFile: string, identityKey: Option<string>, subnets: seq<string>, dns: DnsMode,
    excludeSubnets: seq<string>, autoNets: bool, dnsTarget: Option<string>, method_: string,
    extraSshOptions: Option<string>, disableIpv6: bool, enableUdp: bool, blockUdp: bool, autoExcludeLan: bool,
    poolSize: u32, splitConn: bool, fectun: Option<FectunConfig>, tcpBalanceMode: string)

  datatype Address = V4(a: u8, b: u8, c: u8, d: u8) | V6

  /** What the app finds outside the profile: the jump hosts as JSON, the local addresses if they can be
      listed, and the LAN proxy ports of the settings. */
  datatype Surroundings = Surroundings(jumpJson: Option<string>, addresses: Option<seq<Address>>,
                                       lanSocks5: Option<u16>, lanHttp: Option<u16>)

  predicate Blank(s: string) {
    Trim(s) == ""
  }

  function NonBlank(ss: seq<string>): seq<string> {
    if ss == [] then []
    else NonBlank(ss[..|ss| - 1]) + (if Blank(ss[|ss| - 1]) then [] else [ss[|ss| - 1]])
  }

  function Trimmed(ss: seq<string>): seq<string> {
    if ss == [] then []
    else
      var t := Trim(ss[|ss| - 1]);
      Trimmed(ss[..|ss| - 1]) + (if t == "" then [] else [t])
  }

  /** The /16 of an interface address, unless it is loopback or link-local. */
  function LanCidr(ip: Address): Option<string> {
    if ip.V6? || ip.a == 127 || (ip.a == 169 && ip.b == 254) then None
    else Some(Decimal(ip.a) + "." + Decimal(ip.b) + ".0.0/16")
  }

  /** Main result: of every IPv4 address that is neither 127.x nor 169.254.x, its first two numbers and `.0.0/16`. */
  lemma LanCidrIff(ip: Address, c: string)
    ensures LanCidr(ip) == Some(c) <==>
            && ip.V4? && ip.a != 127 && !(ip.a == 169 && ip.b == 254)
            && exists x, y :: IsDecimal(x, ip.a) && IsDecimal(y, ip.b) && c == x + "." + y + ".0.0/16"
  {
    if ip.V4? {
      DecimalIff(Decimal(ip.a), ip.a);
      DecimalIff(Decimal(ip.b), ip.b);
      forall x, y | IsDecimal(x, ip.a) && IsDecimal(y, ip.b) ensures x == Decimal(ip.a) && y == Decimal(ip.b) {
        DecimalIff(x, ip.a);
        DecimalIff(y, ip.b);
      }
    }
  }

  function LanCidrs(ips: seq<Address>): seq<string> {
    if ips == [] then []
    else
      var c := LanCidr(ips[|ips| - 1]);
      LanCidrs(ips[..|ips| - 1]) + (if c.Some? then [c.value] else [])
  }

  /** The excludes: local networks, then the profile's own, each once. */
  function ExcludesOf(p: Profile, env: Surroundings): seq<string> {
    FirstOf((if p.autoExcludeLan then LanCidrs(env.addresses.GetOr([])) else []) + Trimmed(p.excludeSubnets), Itself)
  }

  function If(c: bool, v: Value): Option<Value> {
    if c then Some(v) else None
  }

  function HasInlineKey(p: Profile): bool {
    p.identityKey.Some? && !Blank(p.identityKey.value)
  }

  /** The value of an option with a text, when it is given. */
  function WordRow(f: Flag, word: Option<string>): Row {
    Row(f, if word.Some? then Some(S(word.value)) else None)
  }

  function GivenText(text: Option<string>): Option<string> {
    if text.Some? && !Blank(text.value) then text else None
  }

  function GivenPort(port: Option<u16>): Option<string> {
    if port.Some? && port.value > 0 then Some(Decimal(port.value)) else None
  }

  function GivenList(list: seq<string>): Option<string> {
    if list != [] then Some(Join(list, ',')) else None
  }

  function ConnectionRows(p: Profile, env: Surroundings): seq<Row> {
    [Row(Verbose, Some(B(true))),
     Row(Remote, Some(S(p.remote))),
     Row(AutoNets, If(p.autoNets, B(true))),
     Row(Identity, If(!HasInlineKey(p) && !Blank(p.identityFile), S(p.identityFile))),
     Row(Jump, if env.jumpJson.Some? then Some(S(env.jumpJson.value)) else None)]
  }

  predicate HasFectun(p: Profile) {
    p.fectun.Some? && p.fectun.value.port > 0
  }

  function FectunJson(p: Profile): string {
    if p.fectun.Some? then p.fectun.value.json else ""
  }

  function TransportRows(p: Profile): seq<Row> {
    [Row(Method, If(!Blank(p.method_), S(p.method_))),
     Row(Pool, If(p.poolSize > 1, I(p.poolSize))),
     Row(TcpBalance, If(p.poolSize > 1 && p.tcpBalanceMode == "round-robin", S("round-robin"))),
     Row(Split, If(p.splitConn, B(true))),
     Row(Fectun, If(HasFectun(p), S(FectunJson(p))))]
  }

  function ModeRows(p: Profile): seq<Row> {
    [Row(NoIPv6, If(p.disableIpv6, B(true))),
     Row(NoBlockUDP, If(!p.blockUdp, B(true))),
     Row(UDP, If(p.enableUdp, B(true))),
     Row(DNS, If(p.dns != Off, B(true))),
     WordRow(DNSTarget, GivenText(p.dnsTarget))]
  }

  function LastRows(p: Profile, env: Surroundings): seq<Row> {
    [WordRow(ExtraSSHOpts, GivenText(p.extraSshOptions)),
     WordRow(Exclude, GivenList(ExcludesOf(p, env))),
     WordRow(LanSocks5, GivenPort(env.lanSocks5)),
     WordRow(LanHTTP, GivenPort(env.lanHttp))]
  }

  /** The options of a profile, in the order they are written. */
  function Rows(p: Profile, env: Surroundings): seq<Row> {
    ConnectionRows(p, env) + TransportRows(p) + ModeRows(p) + LastRows(p, env)
  }

  lemma Assoc(a: seq<string>, b: seq<string>, c: seq<string>)
    ensures (a + b) + c == a + (b + c)
  {
  }

  lemma {:induction false} EmitConcat(a: seq<Row>, b: seq<Row>)
    ensures Emit(a + b) == Emit(a) + Emit(b)
    decreases |b|
  {
    if b == [] {
      assert a + b == a;
    } else {
      var n := |b| - 1;
      EmitConcat(a, b[..n]);
      assert (a + b)[..|a + b| - 1] == a + b[..n];
      Assoc(Emit(a), Emit(b[..n]), Segment(b[n]));
    }
  }

  // ---- the code of the app

  method PushNew(cidrs: seq<string>, cidr: string, ghost before: seq<string>) returns (longer: seq<string>)
    requires cidrs == FirstOf(before, Itself)
    ensures longer == FirstOf(before + [cidr], Itself)
  {
    assert (before + [cidr])[..|before|] == before;
    FirstOfKeys(before, Itself, cidr);
    assert cidr in cidrs <==> HasKey(cidrs, Itself, cidr);
    longer := if cidr in cidrs then cidrs else cidrs + [cidr];
  }

  method CollectLan(ifaces: seq<Address>) returns (cidrs: seq<string>)
    ensures cidrs == FirstOf(LanCidrs(ifaces), Itself)
  {
    cidrs := [];
    for i := 0 to |ifaces|
      invariant cidrs == FirstOf(LanCidrs(ifaces[..i]), Itself)
    {
      assert ifaces[..i+1][..i] == ifaces[..i];
      var c := LanCidr(ifaces[i]);
      if c.Some? {
        cidrs := PushNew(cidrs, c.value, LanCidrs(ifaces[..i]));
      } else {
        assert LanCidrs(ifaces[..i]) + [] == LanCidrs(ifaces[..i]);
      }
    }
    assert ifaces[..|ifaces|] == ifaces;
  }

  method CollectExcludes(p: Profile, env: Surroundings) returns (cidrs: seq<string>)
    ensures cidrs == ExcludesOf(p, env)
  {
    cidrs := [];
    if p.autoExcludeLan && env.addresses.Some? {
      cidrs := CollectLan(env.addresses.value);
    }
    cidrs := CollectOwn(p.excludeSubnets, cidrs, if p.autoExcludeLan then LanCidrs(env.addresses.GetOr([])) else []);
  }

  lemma TrimmedNext(before: seq<string>, subnets: seq<string>, i: nat)
    requires i < |subnets|
    ensures var s := Trim(subnets[i]);
            before + Trimmed(subnets[..i + 1]) ==
            if s == "" then before + Trimmed(subnets[..i]) else before + Trimmed(subnets[..i]) + [s]
  {
    assert subnets[..i + 1][..i] == subnets[..i];
    assert Trimmed(subnets[..i]) + [] == Trimmed(subnets[..i]);
  }

  method CollectOwn(subnets: seq<string>, given: seq<string>, ghost before: seq<string>) returns (cidrs: seq<string>)
    requires given == FirstOf(before, Itself)
    ensures cidrs == FirstOf(before + Trimmed(subnets), Itself)
  {
    cidrs := given;
    assert before + [] == before;
    for i := 0 to |subnets|
      invariant cidrs == FirstOf(before + Trimmed(subnets[..i]), Itself)
    {
      TrimmedNext(before, subnets, i);
      var s := Trim(subnets[i]);
      if s != "" {
        cidrs := PushNew(cidrs, s, before + Trimmed(subnets[..i]));
      }
    }
    assert subnets[..|subnets|] == subnets;
  }

  method PushSwitch(args: seq<string>, f: Flag, given: bool) returns (more: seq<string>)
    ensures more == args + Segment(Row(f, If(given, B(true))))
  {
    more := if given then args + [Spelling(f)] else args;
  }

  method PushWord(args: seq<string>, f: Flag, given: bool, word: string) returns (more: seq<string>)
    ensures more == args + Segment(Row(f, If(given, S(word))))
  {
    more := if given then args + [Spelling(f), word] else args;
  }

  method PushText(args: seq<string>, f: Flag, text: Option<string>) returns (more: seq<string>)
    ensures more == args + Segment(WordRow(f, GivenText(text)))
  {
    more := args;
    if text.Some? {
      if Trim(text.value) != "" {
        more := more + [Spelling(f), text.value];
      }
    }
  }

  method PushPort(args: seq<string>, f: Flag, port: Option<u16>) returns (more: seq<string>)
    ensures more == args + Segment(WordRow(f, GivenPort(port)))
  {
    more := args;
    if port.Some? && port.value > 0 {
      more := more + [Spelling(f), Decimal(port.value)];
    }
  }

  lemma EmitFive(a: Row, b: Row, c: Row, d: Row, e: Row)
    ensures Emit([a, b, c, d, e]) == Segment(a) + Segment(b) + Segment(c) + Segment(d) + Segment(e)
  {
    var rows := [a, b, c, d, e];
    assert rows[..4] == [a, b, c, d] && [a, b, c, d][..3] == [a, b, c];
    assert [a, b, c][..2] == [a, b] && [a, b][..1] == [a] && [a][..0] == [];
    assert Emit([a]) == Segment(a);
    assert Emit([a, b]) == Segment(a) + Segment(b);
    assert Emit([a, b, c]) == Segment(a) + Segment(b) + Segment(c);
    assert Emit([a, b, c, d]) == Segment(a) + Segment(b) + Segment(c) + Segment(d);
  }

  lemma Behind(given: seq<string>, a: seq<string>, b: seq<string>, c: seq<string>, d: seq<string>,
               e: seq<string>)
    ensures given + a + b + c + d + e == given + (a + b + c + d + e)
  {
  }

  lemma EmitBehind(given: seq<string>, a: Row, b: Row, c: Row, d: Row, e: Row)
    ensures given + Segment(a) + Segment(b) + Segment(c) + Segment(d) + Segment(e) == given + Emit([a, b, c, d, e])
  {
    EmitFive(a, b, c, d, e);
    Behind(given, Segment(a), Segment(b), Segment(c), Segment(d), Segment(e));
  }

  method PushConnection(p: Profile, env: Surroundings) returns (args: seq<string>)
    ensures args == Emit(ConnectionRows(p, env))
  {
    args := [Spelling(Verbose)];
    args := PushWord(args, Remote, true, p.remote);
    args := PushSwitch(args, AutoNets, p.autoNets);
    args := PushWord(args, Identity, !HasInlineKey(p) && !Blank(p.identityFile), p.identityFile);
    args := PushWord(args, Jump, env.jumpJson.Some?, env.jumpJson.GetOr(""));
    ghost var rows := ConnectionRows(p, env);
    EmitFive(rows[0], rows[1], rows[2], rows[3], rows[4]);
  }

  method PushTransport(p: Profile, given: seq<string>) returns (args: seq<string>)
    ensures args == given + Emit(TransportRows(p))
  {
    args := PushWord(given, Method, !Blank(p.method_), p.method_);
    ghost var before := args;
    if p.poolSize > 1 {
      args := args + [Spelling(Pool), Decimal(p.poolSize)];
      args := PushWord(args, TcpBalance, p.tcpBalanceMode == "round-robin", "round-robin");
    }
    ghost var rows := TransportRows(p);
    assert args == before + Segment(rows[1]) + Segment(rows[2]);
    args := PushSwitch(args, Split, p.splitConn);
    args := PushWord(args, Fectun, HasFectun(p), FectunJson(p));
    EmitBehind(given, rows[0], rows[1], rows[2], rows[3], rows[4]);
  }

  method PushDns(args: seq<string>, dns: DnsMode) returns (more: seq<string>)
    ensures more == args + Segment(Row(DNS, If(dns != Off, B(true))))
  {
    match dns {
      case Off => more := args;
      case All => more := args + [Spelling(DNS)];
      case Specific => more := args + [Spelling(DNS)];
    }
  }

  method PushModes(p: Profile, given: seq<string>) returns (args: seq<string>)
    ensures args == given + Emit(ModeRows(p))
  {
    args := PushSwitch(given, NoIPv6, p.disableIpv6);
    args := PushSwitch(args, NoBlockUDP, !p.blockUdp);
    args := PushSwitch(args, UDP, p.enableUdp);
    args := PushDns(args, p.dns);
    args := PushText(args, DNSTarget, p.dnsTarget);
    ghost var rows := ModeRows(p);
    EmitBehind(given, rows[0], rows[1], rows[2], rows[3], rows[4]);
  }

  method PushLast(p: Profile, env: Surroundings, given: seq<string>) returns (args: seq<string>)
    ensures args == given + Emit(LastRows(p, env))
  {
    args := PushText(given, ExtraSSHOpts, p.extraSshOptions);
    var cidrs := CollectExcludes(p, env);
    args := PushWord(args, Exclude, cidrs != [], Join(cidrs, ','));
    args := PushPort(args, LanSocks5, env.lanSocks5);
    args := PushPort(args, LanHTTP, env.lanHttp);
    ghost var rows := LastRows(p, env);
    EmitFour(given, rows[0], rows[1], rows[2], rows[3]);
  }

  lemma EmitFour(given: seq<string>, a: Row, b: Row, c: Row, d: Row)
    ensures given + Segment(a) + Segment(b) + Segment(c) + Segment(d) == given + Emit([a, b, c, d])
  {
    var rows := [a, b, c, d];
    assert rows[..3] == [a, b, c] && [a, b, c][..2] == [a, b] && [a, b][..1] == [a] && [a][..0] == [];
    assert Emit([a]) == Segment(a);
    assert Emit([a, b]) == Segment(a) + Segment(b);
    assert Emit([a, b, c]) == Segment(a) + Segment(b) + Segment(c);
    Behind(given, [], Segment(a), Segment(b), Segment(c), Segment(d));
    assert given + [] == given && [] + Segment(a) == Segment(a);
  }

  /** Options first, subnets last: the Go parser stops at the first argument that is no flag. */
  method BuildArgs(p: Profile, env: Surroundings) returns (args: seq<string>)
    ensures args == Emit(Rows(p, env)) + NonBlank(p.subnets)
  {
    args := PushConnection(p, env);
    args := PushTransport(p, args);
    args := PushModes(p, args);
    args := PushLast(p, env, args);
    EmitConcat(ConnectionRows(p, env), TransportRows(p));
    EmitConcat(ConnectionRows(p, env) + TransportRows(p), ModeRows(p));
    EmitConcat(ConnectionRows(p, env) + TransportRows(p) + ModeRows(p), LastRows(p, env));
    args := PushSubnets(p.subnets, args);
  }

  method PushSubnets(subnets: seq<string>, given: seq<string>) returns (args: seq<string>)
    ensures args == given + NonBlank(subnets)
  {
    args := given;
    for i := 0 to |subnets|
      invariant args == given + NonBlank(subnets[..i])
    {
      assert subnets[..i+1][..i] == subnets[..i];
      if Trim(subnets[i]) != "" {
        args := args + [subnets[i]];
      }
    }
    assert subnets[..|subnets|] == subnets;
  }

  // ---- the configuration the tunnel reads

  datatype Config = Config(
    remote: string, identityFile: string, autoNets: bool, dns: bool, dnsTarget: string, method_: string,
    noIPv6: bool, noIPv6Lockdown: bool, noBlockUDP: bool, udpProxy: bool, tproxyMark: int, tproxyTable: int,
    verbose: bool, extraSSHOpts: string, jumpHosts: string, excludes: seq<string>, poolSize: int, splitConn: bool,
    lanSocks5: string, lanHTTP: string, tcpBalance: string, fectun: string, subnets: seq<string>)

  /** The trimmed non-empty pieces between commas. */
  function SplitExcludes(s: string): seq<string> {
    if s == "" then [] else Trimmed(Text.Split(s, ','))
  }

  function WordOf(values: Values, f: Flag): string {
    if f in values && values[f].S? then values[f].word else ""
  }

  predicate On(values: Values, f: Flag) {
    f in values && values[f].B? && values[f].on
  }

  function IntOf(values: Values, f: Flag): int {
    if f in values && values[f].I? then values[f].n else 0
  }

  function ConfigOf(v: Values, subnets: seq<string>): Config {
    Config(WordOf(v, Remote), WordOf(v, Identity), On(v, AutoNets), On(v, DNS), WordOf(v, DNSTarget), WordOf(v, Method),
      On(v, NoIPv6), On(v, NoIPv6Lockdown), On(v, NoBlockUDP), On(v, UDP), IntOf(v, TProxyMark), IntOf(v, TProxyTable),
      On(v, Verbose), WordOf(v, ExtraSSHOpts), WordOf(v, Jump), SplitExcludes(WordOf(v, Exclude)), IntOf(v, Pool),
      On(v, Split),
      Trim(WordOf(v, LanSocks5)), Trim(WordOf(v, LanHTTP)), WordOf(v, TcpBalance), WordOf(v, Fectun), subnets)
  }

  /** What `parseAndBuildConfig` makes of the parsed flags. Nothing when the tunnel does not get as far as a
      configuration: usage errors, the informational flags, or no remote. A `--profile` file is not part of
      this model. */
  function Read(r: Option<Flags>): Option<Config> {
    match r
    case None => None
    case Some(Flags(v, subnets)) =>
      if On(v, Version) || On(v, TUI) || On(v, ListFeatures) || WordOf(v, ProfilePath) != "" ||
         WordOf(v, Remote) == "" then None
      else Some(ConfigOf(v, subnets))
  }

  function ReadConfig(args: seq<string>, parseInt: IntParser): Option<Config> {
    Read(ParseFlags(args, Defaults(), parseInt))
  }

  /** The exclude list of `parseAndBuildConfig`. */
  method ReadExcludes(excludeNets: string) returns (list: seq<string>)
    ensures list == SplitExcludes(excludeNets)
  {
    list := [];
    if excludeNets != "" {
      var pieces := Text.Split(excludeNets, ',');
      for i := 0 to |pieces|
        invariant list == Trimmed(pieces[..i])
      {
        assert pieces[..i+1][..i] == pieces[..i];
        var c := Trim(pieces[i]);
        if c != "" {
          list := list + [c];
        }
      }
      assert pieces[..|pieces|] == pieces;
    }
  }

  // ---- round trips

  /** The configuration a profile stands for. */
  function Wanted(p: Profile, env: Surroundings): Config {
    Config(
      p.remote,
      if HasInlineKey(p) || Blank(p.identityFile) then "" else p.identityFile,
      p.autoNets,
      p.dns != Off,
      GivenText(p.dnsTarget).GetOr(""),
      if Blank(p.method_) then "auto" else p.method_,
      p.disableIpv6, false, !p.blockUdp, p.enableUdp, 1, 100, true,
      GivenText(p.extraSshOptions).GetOr(""),
      env.jumpJson.GetOr(""),
      ExcludesOf(p, env),
      if p.poolSize > 1 then p.poolSize else 1,
      p.splitConn,
      GivenPort(env.lanSocks5).GetOr(""),
      GivenPort(env.lanHttp).GetOr(""),
      if p.poolSize > 1 && p.tcpBalanceMode == "round-robin" then "round-robin" else "least-loaded",
      if p.fectun.Some? && p.fectun.value.port > 0 then p.fectun.value.json else "",
      NonBlank(p.subnets))
  }

  lemma BlankIff(s: string)
    ensures Blank(s) <==> AllIn(s, White)
  {
    if AllIn(s, White) {
      TrimStrips(s, "", "");
      assert s + "" + "" == s;
    }
    var a, b := Margins(s);
    BlankPadded(a, "", b, White);
  }

  /** What counts as given: a text with anything but white space in it, a port above 0; and the identity file only when
      there is no inline key. */
  lemma WantedByFields(p: Profile, env: Surroundings)
    ensures var c, key := Wanted(p, env), p.identityKey.GetOr("");
            && c.identityFile == (if AllIn(key, White) && !AllIn(p.identityFile, White) then p.identityFile else "")
            && c.method_ == (if AllIn(p.method_, White) then "auto" else p.method_)
            && c.dnsTarget == (if AllIn(p.dnsTarget.GetOr(""), White) then "" else p.dnsTarget.value)
            && c.extraSSHOpts == (if AllIn(p.extraSshOptions.GetOr(""), White) then "" else p.extraSshOptions.value)
            && c.lanSocks5 == (if env.lanSocks5.GetOr(0) > 0 then Decimal(env.lanSocks5.value) else "")
            && c.lanHTTP == (if env.lanHttp.GetOr(0) > 0 then Decimal(env.lanHttp.value) else "")
            && c.fectun == (if p.fectun.Some? && p.fectun.value.port > 0 then p.fectun.value.json else "")
  {
    InlineKeyIff(p);
    BlankIff(p.identityFile);
    BlankIff(p.method_);
    GivenTextIs(p.dnsTarget);
    GivenTextIs(p.extraSshOptions);
  }

  lemma InlineKeyIff(p: Profile)
    ensures HasInlineKey(p) <==> !AllIn(p.identityKey.GetOr(""), White)
  {
    BlankIff(p.identityKey.GetOr(""));
  }

  lemma GivenTextIs(text: Option<string>)
    ensures GivenText(text).GetOr("") == if AllIn(text.GetOr(""), White) then "" else text.value
  {
    BlankIff(text.GetOr(""));
  }

  /** Where a flag stands in the rows. */
  function Place(f: Flag): nat {
    match f
    case Verbose => 0 case Remote => 1 case AutoNets => 2 case Identity => 3 case Jump => 4
    case Method => 5 case Pool => 6 case TcpBalance => 7 case Split => 8 case Fectun => 9
    case NoIPv6 => 10 case NoBlockUDP => 11 case UDP => 12 case DNS => 13 case DNSTarget => 14
    case ExtraSSHOpts => 15 case Exclude => 16 case LanSocks5 => 17 case LanHTTP => 18
    case _ => 19
  }

  /** The flags the app never writes. */
  const UNWRITTEN: set<Flag> := {NoIPv6Lockdown, TProxyMark, TProxyTable, Version, TUI, ListFeatures, ProfilePath}

  lemma RowChunks(p: Profile, env: Surroundings)
    ensures |Rows(p, env)| == 19
    ensures forall k :: 0 <= k < 5 ==> Rows(p, env)[k] == ConnectionRows(p, env)[k]
    ensures forall k :: 0 <= k < 5 ==> Rows(p, env)[k + 5] == TransportRows(p)[k]
    ensures forall k :: 0 <= k < 5 ==> Rows(p, env)[k + 10] == ModeRows(p)[k]
    ensures forall k :: 0 <= k < 4 ==> Rows(p, env)[k + 15] == LastRows(p, env)[k]
  {
    Chunks(ConnectionRows(p, env), TransportRows(p), ModeRows(p), LastRows(p, env));
  }

  lemma Chunks(a: seq<Row>, b: seq<Row>, c: seq<Row>, d: seq<Row>)
    requires |a| == |b| == |c| == 5 && |d| == 4
    ensures var rows := a + b + c + d;
            && (forall k :: 0 <= k < 5 ==> rows[k] == a[k] && rows[k + 5] == b[k] && rows[k + 10] == c[k])
            && forall k :: 0 <= k < 4 ==> rows[k + 15] == d[k]
  {
  }

  ghost predicate PlacedFrom(rows: seq<Row>, start: nat) {
    forall k :: 0 <= k < |rows| ==> Place(rows[k].flag) == k + start && Writable(rows[k])
  }

  /** Every chunk of rows stands where its flags belong, and holds values the app may write. */
  lemma ConnectionPlaced(p: Profile, env: Surroundings)
    ensures PlacedFrom(ConnectionRows(p, env), 0)
  {
  }

  lemma TransportPlaced(p: Profile)
    ensures PlacedFrom(TransportRows(p), 5)
  {
  }

  lemma ModesPlaced(p: Profile)
    ensures PlacedFrom(ModeRows(p), 10)
  {
  }

  lemma LastRowsPlaced(extra: Option<string>, list: Option<string>, socks: Option<string>, http: Option<string>)
    ensures PlacedFrom([WordRow(ExtraSSHOpts, extra), WordRow(Exclude, list), WordRow(LanSocks5, socks),
                        WordRow(LanHTTP, http)], 15)
  {
  }

  lemma RowPlaces(p: Profile, env: Surroundings)
    ensures |Rows(p, env)| == 19
    ensures forall k :: 0 <= k < 19 ==> Place(Rows(p, env)[k].flag) == k && Writable(Rows(p, env)[k])
  {
    RowChunks(p, env);
    ConnectionPlaced(p, env);
    TransportPlaced(p);
    ModesPlaced(p);
    LastRowsPlaced(GivenText(p.extraSshOptions), GivenList(ExcludesOf(p, env)), GivenPort(env.lanSocks5),
                   GivenPort(env.lanHttp));
    forall k | 0 <= k < 19 ensures Place(Rows(p, env)[k].flag) == k && Writable(Rows(p, env)[k]) {
      if k >= 15 {
        assert Rows(p, env)[(k - 15) + 15] == LastRows(p, env)[k - 15];
      } else if k >= 10 {
        assert Rows(p, env)[(k - 10) + 10] == ModeRows(p)[k - 10];
      } else if k >= 5 {
        assert Rows(p, env)[(k - 5) + 5] == TransportRows(p)[k - 5];
      }
    }
  }

  /** The values after parsing the options of a profile. */
  function Final(p: Profile, env: Surroundings): Values {
    Apply(Rows(p, env), Defaults())
  }

  lemma FinalAt(p: Profile, env: Surroundings, k: nat, r: Row)
    requires k < |Rows(p, env)| && Rows(p, env)[k] == r
    ensures HoldsRow(Final(p, env), r)
  {
    var rows := Rows(p, env);
    RowPlaces(p, env);
    forall i, j | 0 <= i < j < |rows| ensures rows[i].flag != rows[j].flag {
      assert Place(rows[i].flag) == i && Place(rows[j].flag) == j;
    }
    AppliedAt(rows, Defaults(), k);
  }

  /** A row's value, or the default, is in place. */
  ghost predicate HoldsRow(v: Values, r: Row) {
    r.flag in v && v[r.flag] == r.value.GetOr(Default(r.flag))
  }

  ghost predicate Holds(v: Values, rows: seq<Row>) {
    forall k :: 0 <= k < |rows| ==> HoldsRow(v, rows[k])
  }

  lemma FinalHolds(p: Profile, env: Surroundings)
    ensures var v := Final(p, env);
            Holds(v, ConnectionRows(p, env)) && Holds(v, TransportRows(p)) && Holds(v, ModeRows(p)) &&
            Holds(v, LastRows(p, env))
    ensures forall f :: f in UNWRITTEN ==> AtDefault(Final(p, env), f)
  {
    var rows := Rows(p, env);
    RowPlaces(p, env);
    forall f | f in UNWRITTEN ensures AtDefault(Final(p, env), f) {
      assert Place(f) == 19;
      AppliedElsewhere(rows, Defaults(), f);
    }
    forall k | 0 <= k < |rows| ensures HoldsRow(Final(p, env), rows[k]) {
      FinalAt(p, env, k, rows[k]);
    }
    RowChunks(p, env);
    HoldsChunk(Final(p, env), rows, ConnectionRows(p, env), 0);
    HoldsChunk(Final(p, env), rows, TransportRows(p), 5);
    HoldsChunk(Final(p, env), rows, ModeRows(p), 10);
    HoldsChunk(Final(p, env), rows, LastRows(p, env), 15);
  }

  lemma HoldsChunk(v: Values, rows: seq<Row>, chunk: seq<Row>, start: nat)
    requires Holds(v, rows) && start + |chunk| <= |rows| && forall k :: 0 <= k < |chunk| ==> rows[k + start] == chunk[k]
    ensures Holds(v, chunk)
  {
  }

  lemma ConnectionRead(p: Profile, env: Surroundings, v: Values)
    requires Holds(v, ConnectionRows(p, env))
    ensures var w := Wanted(p, env);
            && On(v, Verbose) && WordOf(v, Remote) == w.remote && On(v, AutoNets) == w.autoNets
            && WordOf(v, Identity) == w.identityFile && WordOf(v, Jump) == w.jumpHosts
  {
    var rows := ConnectionRows(p, env);
    assert rows[0].flag == Verbose && rows[1].flag == Remote && rows[2].flag == AutoNets;
    assert rows[3].flag == Identity && rows[4].flag == Jump;
  }

  /** What a row, or the default in its place, says of its flag. */
  lemma RowRead(v: Values, r: Row, value: Value)
    requires HoldsRow(v, r) && r.value.GetOr(Default(r.flag)) == value
    ensures value.B? ==> On(v, r.flag) == value.on
    ensures value.S? ==> WordOf(v, r.flag) == value.word
    ensures value.I? ==> IntOf(v, r.flag) == value.n
  {
  }

  lemma TransportRowsRead(v: Values, rows: seq<Row>, hasMethod: bool, method_: string, pool: bool, size: int,
                          robin: bool, split: bool, hasFectun: bool, fectun: string)
    requires rows == [Row(Method, If(hasMethod, S(method_))), Row(Pool, If(pool, I(size))),
                      Row(TcpBalance, If(robin, S("round-robin"))),
                      Row(Split, If(split, B(true))), Row(Fectun, If(hasFectun, S(fectun)))]
    requires Holds(v, rows)
    ensures WordOf(v, Method) == (if hasMethod then method_ else "auto") && IntOf(v, Pool) == (if pool then size else 1)
    ensures WordOf(v, TcpBalance) == (if robin then "round-robin" else "least-loaded")
    ensures On(v, Split) == split && WordOf(v, Fectun) == (if hasFectun then fectun else "")
  {
    RowRead(v, rows[0], S(if hasMethod then method_ else "auto"));
    RowRead(v, rows[1], I(if pool then size else 1));
    RowRead(v, rows[2], S(if robin then "round-robin" else "least-loaded"));
    RowRead(v, rows[3], B(split));
    RowRead(v, rows[4], S(if hasFectun then fectun else ""));
  }

  lemma TransportRead(p: Profile, env: Surroundings, v: Values)
    requires Holds(v, TransportRows(p))
    ensures var w := Wanted(p, env);
            && WordOf(v, Method) == w.method_ && IntOf(v, Pool) == w.poolSize && WordOf(v, TcpBalance) == w.tcpBalance
            && On(v, Split) == w.splitConn && WordOf(v, Fectun) == w.fectun
  {
    TransportRowsRead(v, TransportRows(p), !Blank(p.method_), p.method_, p.poolSize > 1, p.poolSize,
                      p.poolSize > 1 && p.tcpBalanceMode == "round-robin",
      p.splitConn, HasFectun(p), FectunJson(p));
  }

  lemma LastRowsRead(v: Values, rows: seq<Row>, extra: Option<string>, list: Option<string>,
                     socks: Option<string>, http: Option<string>)
    requires rows == [WordRow(ExtraSSHOpts, extra), WordRow(Exclude, list), WordRow(LanSocks5, socks),
                      WordRow(LanHTTP, http)]
    requires Holds(v, rows)
    ensures WordOf(v, ExtraSSHOpts) == extra.GetOr("") && WordOf(v, Exclude) == list.GetOr("")
    ensures WordOf(v, LanSocks5) == socks.GetOr("") && WordOf(v, LanHTTP) == http.GetOr("")
  {
    RowRead(v, rows[0], S(extra.GetOr("")));
    RowRead(v, rows[1], S(list.GetOr("")));
    RowRead(v, rows[2], S(socks.GetOr("")));
    RowRead(v, rows[3], S(http.GetOr("")));
  }

  lemma PortIsTrim(port: Option<u16>)
    ensures var text := GivenPort(port).GetOr(""); Trim(text) == text
  {
    TrimIdentity(GivenPort(port).GetOr(""));
  }

  lemma LastRead(p: Profile, env: Surroundings, v: Values)
    requires Holds(v, LastRows(p, env))
    ensures WordOf(v, ExtraSSHOpts) == GivenText(p.extraSshOptions).GetOr("")
    ensures WordOf(v, Exclude) == GivenList(ExcludesOf(p, env)).GetOr("")
    ensures Trim(WordOf(v, LanSocks5)) == GivenPort(env.lanSocks5).GetOr("") &&
            Trim(WordOf(v, LanHTTP)) == GivenPort(env.lanHttp).GetOr("")
  {
    LastRowsRead(v, LastRows(p, env), GivenText(p.extraSshOptions), GivenList(ExcludesOf(p, env)),
                 GivenPort(env.lanSocks5),
                 GivenPort(env.lanHttp));
    PortIsTrim(env.lanSocks5);
    PortIsTrim(env.lanHttp);
  }

  lemma ModeRowsRead(v: Values, rows: seq<Row>, no6: bool, noBlock: bool, udp: bool, dns: bool,
                     target: Option<string>)
    requires rows == [Row(NoIPv6, If(no6, B(true))), Row(NoBlockUDP, If(noBlock, B(true))), Row(UDP, If(udp, B(true))),
                      Row(DNS, If(dns, B(true))), WordRow(DNSTarget, target)]
    requires Holds(v, rows)
    ensures On(v, NoIPv6) == no6 && On(v, NoBlockUDP) == noBlock && On(v, UDP) == udp
    ensures On(v, DNS) == dns && WordOf(v, DNSTarget) == target.GetOr("")
  {
    RowRead(v, rows[0], B(no6));
    RowRead(v, rows[1], B(noBlock));
    RowRead(v, rows[2], B(udp));
    RowRead(v, rows[3], B(dns));
    RowRead(v, rows[4], S(target.GetOr("")));
  }

  lemma ModesRead(p: Profile, v: Values)
    requires Holds(v, ModeRows(p))
    ensures On(v, NoIPv6) == p.disableIpv6 && On(v, NoBlockUDP) == !p.blockUdp && On(v, UDP) == p.enableUdp
    ensures On(v, DNS) == (p.dns != Off) && WordOf(v, DNSTarget) == GivenText(p.dnsTarget).GetOr("")
  {
    ModeRowsRead(v, ModeRows(p), p.disableIpv6, !p.blockUdp, p.enableUdp, p.dns != Off, GivenText(p.dnsTarget));
  }

  ghost predicate AtDefault(v: Values, f: Flag) {
    HoldsRow(v, Row(f, None))
  }

  lemma DefaultRead(v: Values, f: Flag, value: Value)
    requires AtDefault(v, f) && Default(f) == value
    ensures value.B? ==> On(v, f) == value.on
    ensures value.S? ==> WordOf(v, f) == value.word
    ensures value.I? ==> IntOf(v, f) == value.n
  {
    RowRead(v, Row(f, None), value);
  }

  lemma OthersRead(v: Values)
    requires forall f :: f in UNWRITTEN ==> AtDefault(v, f)
    ensures !On(v, NoIPv6Lockdown) && IntOf(v, TProxyMark) == 1 && IntOf(v, TProxyTable) == 100
    ensures !On(v, Version) && !On(v, TUI) && !On(v, ListFeatures) && WordOf(v, ProfilePath) == ""
  {
    DefaultRead(v, NoIPv6Lockdown, B(false));
    DefaultRead(v, TProxyMark, I(1));
    DefaultRead(v, TProxyTable, I(100));
    DefaultRead(v, Version, B(false));
    DefaultRead(v, TUI, B(false));
    DefaultRead(v, ListFeatures, B(false));
    DefaultRead(v, ProfilePath, S(""));
  }

  /** What is read when the flags end where the subnets begin. */
  function ReadExcludesOf(p: Profile, env: Surroundings): seq<string> {
    SplitExcludes(GivenList(ExcludesOf(p, env)).GetOr(""))
  }

  lemma OptionsRead(p: Profile, env: Surroundings, subnets: seq<string>)
    ensures ConfigOf(Final(p, env), subnets) == Wanted(p, env).(excludes := ReadExcludesOf(p, env), subnets := subnets)
  {
    var v := Final(p, env);
    FinalHolds(p, env);
    ConnectionRead(p, env, v);
    TransportRead(p, env, v);
    ModesRead(p, v);
    LastRead(p, env, v);
    OthersRead(v);
  }

  // ---- excludes

  /** Joining and splitting gives the list back exactly when no element holds a comma. */
  lemma ExcludesReadIff(list: seq<string>)
    requires forall i :: 0 <= i < |list| ==> list[i] != "" && Trim(list[i]) == list[i]
    ensures SplitExcludes(GivenList(list).GetOr("")) == list <==>
            forall i :: 0 <= i < |list| ==> ',' !in list[i]
  {
    if list != [] {
      var joined := Join(list, ',');
      JoinNotEmpty(list);
      TrimmedPlain(Text.Split(joined, ','));
      if forall i :: 0 <= i < |list| ==> ',' !in list[i] {
        SplitJoin(list, ',');
        TrimmedSame(list);
      }
    }
  }

  lemma JoinNotEmpty(list: seq<string>)
    requires list != [] && list[0] != ""
    ensures Join(list, ',') != ""
  {
  }

  lemma {:induction false} TrimmedSame(list: seq<string>)
    requires forall i :: 0 <= i < |list| ==> list[i] != "" && Trim(list[i]) == list[i]
    ensures Trimmed(list) == list
  {
    if list != [] {
      TrimmedSame(list[..|list| - 1]);
      assert list == list[..|list| - 1] + [list[|list| - 1]];
    }
  }

  /** Trimming keeps characters out. */
  lemma {:induction false} TrimmedPlain(pieces: seq<string>)
    requires forall i :: 0 <= i < |pieces| ==> ',' !in pieces[i]
    ensures forall i :: 0 <= i < |Trimmed(pieces)| ==> ',' !in Trimmed(pieces)[i]
  {
    if pieces != [] {
      TrimmedPlain(pieces[..|pieces| - 1]);
      TrimInside(pieces[|pieces| - 1]);
    }
  }

  lemma TrimInside(s: string)
    ensures forall c :: c in Trim(s) ==> c in s
  {
    TrimLeftInside(s);
    var t := TrimLeft(s);
    assert forall c :: c in TrimRight(t) ==> c in t;
  }

  lemma {:induction false} TrimLeftInside(s: string)
    ensures forall c :: c in TrimLeft(s) ==> c in s
  {
    if s != "" && IsSpace(s[0]) {
      TrimLeftInside(s[1..]);
    }
  }

  lemma {:induction false} TrimmedShape(ss: seq<string>)
    ensures forall i :: 0 <= i < |Trimmed(ss)| ==> Trimmed(ss)[i] != "" && Trim(Trimmed(ss)[i]) == Trimmed(ss)[i]
  {
    if ss != [] {
      TrimmedShape(ss[..|ss| - 1]);
      TrimIdempotent(ss[|ss| - 1]);
    }
  }

  lemma {:induction false} LanShape(ips: seq<Address>)
    ensures forall i :: 0 <= i < |LanCidrs(ips)| ==>
              LanCidrs(ips)[i] != "" && Trim(LanCidrs(ips)[i]) == LanCidrs(ips)[i] && ',' !in LanCidrs(ips)[i]
  {
    if ips != [] {
      LanShape(ips[..|ips| - 1]);
      var c := LanCidr(ips[|ips| - 1]);
      if c.Some? {
        CidrShape(ips[|ips| - 1]);
      }
    }
  }

  lemma CidrShape(ip: Address)
    requires LanCidr(ip).Some?
    ensures var c := LanCidr(ip).value; c != "" && Trim(c) == c && ',' !in c
  {
    var c := LanCidr(ip).value;
    var a, b := Decimal(ip.a), Decimal(ip.b);
    assert c[0] == a[0] && c[|c| - 1] == '6';
    TrimIdentity(c);
    assert ',' !in a && ',' !in b;
  }

  lemma FirstOfSubset(s: seq<string>)
    ensures forall x :: x in FirstOf(s, Itself) <==> x in s
  {
    forall x ensures x in FirstOf(s, Itself) <==> x in s {
      FirstOfKeys(s, Itself, x);
      InIsHasKey(s, x);
      InIsHasKey(FirstOf(s, Itself), x);
    }
  }

  lemma InIsHasKey(s: seq<string>, x: string)
    ensures x in s <==> HasKey(s, Itself, x)
  {
    if x in s {
      var i :| 0 <= i < |s| && s[i] == x;
      assert Itself(s[i]) == x;
    }
  }

  predicate NoneHasComma(ss: seq<string>) {
    forall i :: 0 <= i < |ss| ==> ',' !in ss[i]
  }

  predicate NoCommas(p: Profile) {
    NoneHasComma(p.excludeSubnets)
  }

  lemma CommasSnoc(ss: seq<string>, x: string)
    ensures NoneHasComma(ss + [x]) <==> NoneHasComma(ss) && ',' !in x
  {
    if NoneHasComma(ss + [x]) {
      assert (ss + [x])[|ss|] == x;
      assert forall i :: 0 <= i < |ss| ==> (ss + [x])[i] == ss[i];
    }
  }

  lemma {:induction false} TrimmedCommas(ss: seq<string>)
    ensures NoneHasComma(ss) <==> NoneHasComma(Trimmed(ss))
  {
    if ss != [] {
      var n := |ss| - 1;
      TrimmedCommas(ss[..n]);
      TrimKeepsCommas(ss[n]);
      CommasSnoc(ss[..n], ss[n]);
      CommasSnoc(Trimmed(ss[..n]), Trim(ss[n]));
      assert ss == ss[..n] + [ss[n]];
      assert Trimmed(ss[..n]) + [] == Trimmed(ss[..n]);
    }
  }

  lemma TrimKeepsCommas(s: string)
    ensures ',' in s <==> ',' in Trim(s)
  {
    TrimLeftKeeps(s);
    TrimRightKeeps(TrimLeft(s));
  }

  lemma {:induction false} TrimLeftKeeps(s: string)
    ensures ',' in s <==> ',' in TrimLeft(s)
  {
    if s != "" && IsSpace(s[0]) {
      TrimLeftKeeps(s[1..]);
      assert s == [s[0]] + s[1..];
    }
  }

  lemma {:induction false} TrimRightKeeps(s: string)
    ensures ',' in s <==> ',' in TrimRight(s)
  {
    if s != "" && IsSpace(s[|s| - 1]) {
      TrimRightKeeps(s[..|s| - 1]);
      assert s == s[..|s| - 1] + [s[|s| - 1]];
    }
  }

  /** Main result: the exclude list comes back exactly when none of the profile's excludes holds a comma. */
  lemma ExcludesRoundTripIff(p: Profile, env: Surroundings)
    ensures ReadExcludesOf(p, env) == ExcludesOf(p, env) <==> NoCommas(p)
  {
    var lan := if p.autoExcludeLan then LanCidrs(env.addresses.GetOr([])) else [];
    var own := Trimmed(p.excludeSubnets);
    var list := ExcludesOf(p, env);
    LanShape(env.addresses.GetOr([]));
    TrimmedShape(p.excludeSubnets);
    TrimmedCommas(p.excludeSubnets);
    FirstOfSubset(lan + own);
    forall i | 0 <= i < |list| ensures list[i] != "" && Trim(list[i]) == list[i] {
      assert list[i] in lan + own;
    }
    ExcludesReadIff(list);
    CommasIn(lan, own, list);
  }

  lemma CommasIn(lan: seq<string>, own: seq<string>, list: seq<string>)
    requires forall x :: x in list <==> x in lan + own
    requires forall i :: 0 <= i < |lan| ==> ',' !in lan[i]
    ensures (forall i :: 0 <= i < |list| ==> ',' !in list[i]) <==> (forall i :: 0 <= i < |own| ==> ',' !in own[i])
  {
    if forall i :: 0 <= i < |list| ==> ',' !in list[i] {
      forall i | 0 <= i < |own| ensures ',' !in own[i] {
        assert (lan + own)[|lan| + i] == own[i];
        assert own[i] in list;
      }
    }
    if forall i :: 0 <= i < |own| ==> ',' !in own[i] {
      forall i | 0 <= i < |list| ensures ',' !in list[i] {
        assert list[i] in lan + own;
      }
    }
  }

  // ---- the whole command line

  predicate SubnetsSafe(p: Profile) {
    NonBlank(p.subnets) == [] || |NonBlank(p.subnets)[0]| < 2 || NonBlank(p.subnets)[0][0] != '-'
  }

  /** After the options the parser is at the first subnet. */
  lemma AtSubnets(p: Profile, env: Surroundings, parseInt: IntParser)
    requires ReadsDecimals(parseInt)
    ensures ParseFlags(Emit(Rows(p, env)) + NonBlank(p.subnets), Defaults(), parseInt) ==
            ParseFlags(NonBlank(p.subnets), Final(p, env), parseInt)
  {
    RowPlaces(p, env);
    ParseEmitted(Rows(p, env), NonBlank(p.subnets), Defaults(), parseInt);
  }

  lemma SubnetsKept(subnets: seq<string>, v: Values, parseInt: IntParser)
    ensures ParseFlags(subnets, v, parseInt) == Some(Flags(v, subnets)) <==> subnets == [] || !FlagLike(subnets[0])
    ensures var r := ParseFlags(subnets, v, parseInt);
            r.Some? && subnets != [] && FlagLike(subnets[0]) ==> r.value.positional != subnets
  {
    PositionalsAreTail(subnets, v, parseInt);
  }

  /** None of the flags that end the program early is set, and the remote is the profile's. */
  lemma GoesOn(p: Profile, env: Surroundings)
    ensures var v := Final(p, env);
            && !On(v, Version) && !On(v, TUI) && !On(v, ListFeatures) && WordOf(v, ProfilePath) == ""
            && WordOf(v, Remote) == p.remote
  {
    var v := Final(p, env);
    FinalHolds(p, env);
    ConnectionRead(p, env, v);
    OthersRead(v);
  }

  /** Main result: the tunnel reads back the configuration the profile stands for, for every content of its
      options, exactly when there is a remote, the first subnet does not look like a flag and no exclude
      holds a comma. */
  lemma RoundTripIff(p: Profile, env: Surroundings, parseInt: IntParser)
    requires ReadsDecimals(parseInt)
    ensures ReadConfig(Emit(Rows(p, env)) + NonBlank(p.subnets), parseInt) == Some(Wanted(p, env)) <==>
            p.remote != "" && SubnetsSafe(p) && NoCommas(p)
  {
    var subnets, v := NonBlank(p.subnets), Final(p, env);
    AtSubnets(p, env, parseInt);
    SubnetsKept(subnets, v, parseInt);
    GoesOn(p, env);
    ExcludesRoundTripIff(p, env);
    OptionsRead(p, env, subnets);
  }
}
