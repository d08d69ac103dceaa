/**
 Reading host entries from an OpenSSH client configuration.

 The reader walks the lines once, carrying the open block, the defaults gathered from wildcard
 blocks and the finished entries. Its result is stated by blocks: a `Host` line and all that follows
 up to the next one.
 */
module SshConfig {
  import opened Wrappers
  import opened Text
  import opened Sorting

  // ---- one line

  datatype Setting = Setting(key: string, value: string)

  function FirstSpace(s: string): (n: nat)
    ensures n <= |s| && (n < |s| ==> IsSpace(s[n]))
  {
    if s == "" || IsSpace(s[0]) then 0 else 1 + FirstSpace(s[1..])
  }

  /** A key and a value split at the first white space; nothing for blank lines, comments and lone words. */
  function ParseKv(line: string): Option<Setting> {
    Cut(Trim(line))
  }

  function Cut(t: string): Option<Setting> {
    if t == "" || t[0] == '#' then None
    else
      var n := FirstSpace(t);
      if n == |t| then None
      else
        var key, value := Lower(t[..n]), Trim(t[n + 1..]);
        if key == "" || value == "" then None else Some(Setting(key, value))
  }

  /** Every pattern that is not negated has a `*` or a `?`. */
  predicate IsWildcardHost(host: string) {
    forall i :: 0 <= i < |Fields(host)| ==>
      var p := Fields(host)[i]; (p != "" && p[0] == '!') || '*' in p || '?' in p
  }

  /** Joining a path to the home directory; an absolute rest replaces it. */
  function JoinHome(home: string, rest: string): string {
    if rest != "" && rest[0] == '/' then rest
    else if home == "" || home[|home| - 1] == '/' then home + rest
    else home + "/" + rest
  }

  function ExpandTilde(path: string, home: string): string {
    if path == "~" then home
    else if HasPrefix(path, "~/") then JoinHome(home, path[2..])
    else path
  }

  function Unsigned(s: string): string {
    if s != "" && s[0] == '+' then s[1..] else s
  }

  /** An unsigned 16-bit number: digits, with an optional plus sign. */
  function ParseU16(s: string): (r: Option<nat>)
    ensures r.Some? ==> r.value < 0x1_0000
  {
    var digits := Unsigned(s);
    if digits != "" && AllDigits(digits) && DigitsValue(digits) < 0x1_0000 then Some(DigitsValue(digits)) else None
  }

  // ---- entries

  datatype Entry = Entry(host: string, hostName: Option<string>, user: Option<string>, port: Option<nat>,
                         identityFile: Option<string>, proxyJump: Option<string>, proxyCommand: Option<string>)

  function NewEntry(host: string): Entry {
    Entry(host, None, None, None, None, None, None)
  }

  function WithSetting(e: Entry, s: Setting, home: string): Entry {
    match s.key
    case "hostname" => e.(hostName := Some(s.value))
    case "user" => e.(user := Some(s.value))
    case "port" => e.(port := ParseU16(s.value))
    case "identityfile" => e.(identityFile := Some(ExpandTilde(s.value, home)))
    case "proxyjump" => e.(proxyJump := Some(s.value))
    case "proxycommand" => e.(proxyCommand := Some(s.value))
    case _ => e
  }

  function Or<T>(a: Option<T>, b: Option<T>): Option<T> {
    if a.Some? then a else b
  }

  /** Fields of `e` where it has them, of `d` elsewhere; the host name is never a default. */
  function Filled(e: Entry, d: Entry): Entry {
    e.(user := Or(e.user, d.user), port := Or(e.port, d.port), identityFile := Or(e.identityFile, d.identityFile),
       proxyJump := Or(e.proxyJump, d.proxyJump), proxyCommand := Or(e.proxyCommand, d.proxyCommand))
  }

  function HostOf(e: Entry): string {
    e.host
  }

  // ---- blocks

  datatype Block = Block(host: string, settings: seq<Setting>)

  /** The blocks of a text; what comes before the first `Host` line belongs to none. */
  function Blocks(lines: seq<string>): seq<Block> {
    if lines == [] then [] else AddLine(Blocks(lines[..|lines| - 1]), ParseKv(lines[|lines| - 1]))
  }

  function AddLine(blocks: seq<Block>, kv: Option<Setting>): seq<Block> {
    match kv
    case None => blocks
    case Some(s) =>
      if s.key == "host" then blocks + [Block(s.value, [])]
      else if blocks == [] then []
      else
        var n := |blocks| - 1;
        blocks[..n] + [blocks[n].(settings := blocks[n].settings + [s])]
  }

  /** The value of the last setting with a key. */
  function LastValue(settings: seq<Setting>, key: string): Option<string> {
    if settings == [] then None
    else
      var n := |settings| - 1;
      if settings[n].key == key then Some(settings[n].value) else LastValue(settings[..n], key)
  }

  /** What a block says for itself: the last value of each field. A port that is no number counts as missing. */
  function EntryOf(b: Block, home: string): Entry {
    Entry(b.host,
      LastValue(b.settings, "hostname"),
      LastValue(b.settings, "user"),
      (match LastValue(b.settings, "port") case Some(v) => ParseU16(v) case None => None),
      (match LastValue(b.settings, "identityfile") case Some(v) => Some(ExpandTilde(v, home)) case None => None),
      LastValue(b.settings, "proxyjump"),
      LastValue(b.settings, "proxycommand"))
  }

  /** The blocks that are wildcards, or those that are not. */
  function Kept(blocks: seq<Block>, wild: bool): seq<Block> {
    if blocks == [] then []
    else
      var n := |blocks| - 1;
      Kept(blocks[..n], wild) + (if IsWildcardHost(blocks[n].host) == wild then [blocks[n]] else [])
  }

  function Wildcards(blocks: seq<Block>): seq<Block> {
    Kept(blocks, true)
  }

  function Hosts(blocks: seq<Block>): seq<Block> {
    Kept(blocks, false)
  }

  /** The defaults of a list of wildcard blocks: per field, the earliest that has it. */
  function DefaultsOf(wildcards: seq<Block>, home: string): Entry {
    if wildcards == [] then NewEntry("*")
    else
      var n := |wildcards| - 1;
      var before, e := DefaultsOf(wildcards[..n], home), EntryOf(wildcards[n], home);
      Filled(before, e).(hostName := Or(before.hostName, e.hostName))
  }

  function Entries(hosts: seq<Block>, defaults: Entry, home: string): seq<Entry> {
    seq(|hosts|, i requires 0 <= i < |hosts| => Filled(EntryOf(hosts[i], home), defaults))
  }

  /** The result by blocks: each host block with the wildcard defaults, sorted by host. */
  function Parsed(lines: seq<string>, home: string): seq<Entry> {
    FromBlocks(Blocks(lines), home)
  }

  function FromBlocks(blocks: seq<Block>, home: string): seq<Entry> {
    StableSort(Entries(Hosts(blocks), DefaultsOf(Wildcards(blocks), home), home), HostOf)
  }

  // ---- the code

  lemma EntryOfMore(b: Block, s: Setting, home: string)
    ensures EntryOf(b.(settings := b.settings + [s]), home) == WithSetting(EntryOf(b, home), s, home)
  {
    var more := b.settings + [s];
    assert more[..|b.settings|] == b.settings;
  }

  /** What a closed block does to the defaults and the finished entries. */
  function Closed(hosts: seq<Entry>, b: Block, home: string): seq<Entry> {
    if IsWildcardHost(b.host) then hosts else hosts + [EntryOf(b, home)]
  }

  function HostEntries(blocks: seq<Block>, home: string): seq<Entry> {
    if blocks == [] then [] else Closed(HostEntries(blocks[..|blocks| - 1], home), blocks[|blocks| - 1], home)
  }

  /** The block that is still open is the last one. */
  ghost predicate OpenBlock(current: Option<Entry>, isWildcard: bool, entries: seq<Entry>, defaults: Entry,
                            blocks: seq<Block>, home: string)
  {
    if blocks == [] then current.None? && entries == [] && defaults == NewEntry("*")
    else
      var n := |blocks| - 1;
      && current == Some(EntryOf(blocks[n], home)) && isWildcard == IsWildcardHost(blocks[n].host)
      && entries == HostEntries(blocks[..n], home)
      && defaults == DefaultsOf(Wildcards(blocks[..n]), home)
  }

  lemma WildcardsSnoc(blocks: seq<Block>, home: string)
    requires blocks != []
    ensures var n := |blocks| - 1;
            var before, e := DefaultsOf(Wildcards(blocks[..n]), home), EntryOf(blocks[n], home);
            DefaultsOf(Wildcards(blocks), home) ==
              if IsWildcardHost(blocks[n].host) then Filled(before, e).(hostName := Or(before.hostName, e.hostName))
              else before
  {
    var n := |blocks| - 1;
    var w := Wildcards(blocks[..n]);
    if IsWildcardHost(blocks[n].host) {
      assert (w + [blocks[n]])[..|w|] == w;
    } else {
      assert w + [] == w;
    }
  }

  /** A `Host` line closes the open block, if any. */
  method CloseBlock(current: Option<Entry>, isWildcard: bool, entries: seq<Entry>, defaults: Entry,
                    ghost blocks: seq<Block>, ghost home: string) returns (es: seq<Entry>, d: Entry)
    requires OpenBlock(current, isWildcard, entries, defaults, blocks, home)
    ensures es == HostEntries(blocks, home) && d == DefaultsOf(Wildcards(blocks), home)
  {
    es, d := entries, defaults;
    if current.Some? {
      WildcardsSnoc(blocks, home);
      var prev := current.value;
      if isWildcard {
        if d.hostName.None? { d := d.(hostName := prev.hostName); }
        if d.user.None? { d := d.(user := prev.user); }
        if d.port.None? { d := d.(port := prev.port); }
        if d.identityFile.None? { d := d.(identityFile := prev.identityFile); }
        if d.proxyJump.None? { d := d.(proxyJump := prev.proxyJump); }
        if d.proxyCommand.None? { d := d.(proxyCommand := prev.proxyCommand); }
      } else {
        es := es + [prev];
      }
    }
  }

  /** At the end of the text the open block is closed without its host name. */
  method CloseLast(current: Option<Entry>, isWildcard: bool, entries: seq<Entry>, defaults: Entry,
                   ghost blocks: seq<Block>, ghost home: string) returns (es: seq<Entry>, d: Entry)
    requires OpenBlock(current, isWildcard, entries, defaults, blocks, home)
    ensures es == HostEntries(blocks, home)
    ensures exists hostName :: d == DefaultsOf(Wildcards(blocks), home).(hostName := hostName)
  {
    es, d := entries, defaults;
    if current.Some? {
      WildcardsSnoc(blocks, home);
      var prev := current.value;
      if isWildcard {
        if d.identityFile.None? { d := d.(identityFile := prev.identityFile); }
        if d.user.None? { d := d.(user := prev.user); }
        if d.port.None? { d := d.(port := prev.port); }
        if d.proxyJump.None? { d := d.(proxyJump := prev.proxyJump); }
        if d.proxyCommand.None? { d := d.(proxyCommand := prev.proxyCommand); }
      } else {
        es := es + [prev];
      }
    }
    assert d == DefaultsOf(Wildcards(blocks), home).(hostName := d.hostName);
  }

  lemma {:induction false} HostEntriesOf(blocks: seq<Block>, home: string)
    ensures var hosts := Hosts(blocks);
            HostEntries(blocks, home) == seq(|hosts|, i requires 0 <= i < |hosts| => EntryOf(hosts[i], home))
  {
    if blocks != [] {
      HostEntriesOf(blocks[..|blocks| - 1], home);
    }
  }

  /** One line of the text. */
  method ReadLine(current: Option<Entry>, isWildcard: bool, entries: seq<Entry>, defaults: Entry, line: string,
                  home: string, ghost blocks: seq<Block>)
    returns (c: Option<Entry>, w: bool, es: seq<Entry>, d: Entry)
    requires OpenBlock(current, isWildcard, entries, defaults, blocks, home)
    ensures OpenBlock(c, w, es, d, AddLine(blocks, ParseKv(line)), home)
  {
    c, w, es, d := current, isWildcard, entries, defaults;
    var kv := ParseKv(line);
    if kv.Some? {
      if kv.value.key == "host" {
        es, d := CloseBlock(current, isWildcard, entries, defaults, blocks, home);
        w := IsWildcardHost(kv.value.value);
        c := Some(NewEntry(kv.value.value));
        assert (blocks + [Block(kv.value.value, [])])[..|blocks|] == blocks;
      } else if current.Some? {
        EntryOfMore(blocks[|blocks| - 1], kv.value, home);
        c := Some(WithSetting(current.value, kv.value, home));
        assert AddLine(blocks, kv)[..|blocks| - 1] == blocks[..|blocks| - 1];
      }
    }
  }

  method ParseSshConfig(lines: seq<string>, home: string) returns (entries: seq<Entry>)
    ensures entries == Parsed(lines, home)
  {
    entries := [];
    var defaults := NewEntry("*");
    var current: Option<Entry> := None;
    var isWildcard := false;
    for i := 0 to |lines|
      invariant OpenBlock(current, isWildcard, entries, defaults, Blocks(lines[..i]), home)
    {
      assert lines[..i+1][..i] == lines[..i];
      current, isWildcard, entries, defaults :=
        ReadLine(current, isWildcard, entries, defaults, lines[i], home, Blocks(lines[..i]));
    }
    assert lines[..|lines|] == lines;
    ghost var blocks := Blocks(lines);
    entries, defaults := CloseLast(current, isWildcard, entries, defaults, blocks, home);
    HostEntriesOf(blocks, home);
    var filled := FillAll(entries, defaults);
    assert filled == Entries(Hosts(blocks), DefaultsOf(Wildcards(blocks), home), home);
    entries := StableSort(filled, HostOf);
  }

  /** Defaults for the fields an entry does not have. */
  method FillAll(entries: seq<Entry>, defaults: Entry) returns (filled: seq<Entry>)
    ensures filled == seq(|entries|, i requires 0 <= i < |entries| => Filled(entries[i], defaults))
  {
    filled := [];
    for i := 0 to |entries|
      invariant |filled| == i && forall j :: 0 <= j < i ==> filled[j] == Filled(entries[j], defaults)
    {
      var entry := entries[i];
      if entry.identityFile.None? { entry := entry.(identityFile := defaults.identityFile); }
      if entry.user.None? { entry := entry.(user := defaults.user); }
      if entry.port.None? { entry := entry.(port := defaults.port); }
      if entry.proxyJump.None? { entry := entry.(proxyJump := defaults.proxyJump); }
      if entry.proxyCommand.None? { entry := entry.(proxyCommand := defaults.proxyCommand); }
      filled := filled + [entry];
    }
  }

  // ---- what the values are

  /** The last setting of a key is the value, in any block. */
  ghost predicate LastAt(settings: seq<Setting>, key: string, i: nat) {
    i < |settings| && settings[i].key == key && forall j :: i < j < |settings| ==> settings[j].key != key
  }

  lemma {:induction false} LastValueFrom(settings: seq<Setting>, key: string) returns (i: nat)
    ensures match LastValue(settings, key)
            case Some(v) => LastAt(settings, key, i) && settings[i].value == v
            case None => forall j :: 0 <= j < |settings| ==> settings[j].key != key
  {
    i := 0;
    if settings != [] {
      var n := |settings| - 1;
      if settings[n].key == key {
        i := n;
      } else {
        i := LastValueFrom(settings[..n], key);
        assert forall j :: 0 <= j < n ==> settings[..n][j] == settings[j];
      }
    }
  }

  lemma LastValueIff(settings: seq<Setting>, key: string, v: string)
    ensures LastValue(settings, key) == Some(v) <==> exists i: nat :: LastAt(settings, key, i) && settings[i].value == v
  {
    var k := LastValueFrom(settings, key);
    if i: nat :| LastAt(settings, key, i) && settings[i].value == v {
      assert settings[i].key == key;
    }
  }

  /** The fields that defaults fill. */
  datatype Field = User | Port | IdentityFile | ProxyJump | ProxyCommand

  datatype Value = Word(s: string) | Number(n: nat)

  function AsWord(v: Option<string>): Option<Value> {
    if v.Some? then Some(Word(v.value)) else None
  }

  function Get(e: Entry, f: Field): Option<Value> {
    match f
    case User => AsWord(e.user)
    case Port => if e.port.Some? then Some(Number(e.port.value)) else None
    case IdentityFile => AsWord(e.identityFile)
    case ProxyJump => AsWord(e.proxyJump)
    case ProxyCommand => AsWord(e.proxyCommand)
  }

  lemma GetFilled(e: Entry, d: Entry, h: Option<string>, f: Field)
    ensures Get(Filled(e, d).(hostName := h), f) == Or(Get(e, f), Get(d, f))
    ensures Get(Filled(e, d), f) == Or(Get(e, f), Get(d, f))
  {
  }

  function GetAt(wildcards: seq<Block>, i: nat, home: string, f: Field): Option<Value>
    requires i < |wildcards|
  {
    Get(EntryOf(wildcards[i], home), f)
  }

  /** The earliest wildcard block that has a field. */
  ghost predicate EarliestAt(wildcards: seq<Block>, f: Field, home: string, v: Value, i: nat) {
    && i < |wildcards| && GetAt(wildcards, i, home, f) == Some(v)
    && forall j :: 0 <= j < i ==> GetAt(wildcards, j, home, f) == None
  }

  lemma DefaultStep(wildcards: seq<Block>, f: Field, home: string)
    requires wildcards != []
    ensures var n := |wildcards| - 1;
            Get(DefaultsOf(wildcards, home), f) ==
            Or(Get(DefaultsOf(wildcards[..n], home), f), GetAt(wildcards, n, home, f))
  {
    var n := |wildcards| - 1;
    var before, e := DefaultsOf(wildcards[..n], home), EntryOf(wildcards[n], home);
    GetFilled(before, e, Or(before.hostName, e.hostName), f);
  }

  lemma {:induction false} DefaultFrom(wildcards: seq<Block>, f: Field, home: string) returns (i: nat)
    ensures match Get(DefaultsOf(wildcards, home), f)
            case Some(v) => EarliestAt(wildcards, f, home, v, i)
            case None => forall j :: 0 <= j < |wildcards| ==> GetAt(wildcards, j, home, f) == None
  {
    i := 0;
    if wildcards != [] {
      var n := |wildcards| - 1;
      DefaultStep(wildcards, f, home);
      i := DefaultFrom(wildcards[..n], f, home);
      assert forall j :: 0 <= j < n ==> GetAt(wildcards[..n], j, home, f) == GetAt(wildcards, j, home, f);
      if Get(DefaultsOf(wildcards[..n], home), f) == None {
        i := n;
      }
    }
  }

  /** Main result: the default of a field is that of the earliest wildcard block that has it. */
  lemma DefaultIsEarliest(wildcards: seq<Block>, f: Field, home: string, v: Value)
    ensures Get(DefaultsOf(wildcards, home), f) == Some(v) <==> exists i: nat :: EarliestAt(wildcards, f, home, v, i)
  {
    var k := DefaultFrom(wildcards, f, home);
    if i: nat :| EarliestAt(wildcards, f, home, v, i) {
      assert GetAt(wildcards, i, home, f) == Some(v);
    }
  }

  /** Main result: in the output a host has its own value of a field, else that of the earliest wildcard block. */
  lemma FieldOfHost(blocks: seq<Block>, home: string, k: nat, f: Field, v: Value)
    requires k < |Hosts(blocks)|
    ensures var own := GetAt(Hosts(blocks), k, home, f);
            Get(Entries(Hosts(blocks), DefaultsOf(Wildcards(blocks), home), home)[k], f) == Some(v) <==>
            own == Some(v) || (own == None && exists i: nat :: EarliestAt(Wildcards(blocks), f, home, v, i))
  {
    var d := DefaultsOf(Wildcards(blocks), home);
    GetFilled(EntryOf(Hosts(blocks)[k], home), d, None, f);
    DefaultIsEarliest(Wildcards(blocks), f, home, v);
  }

  /** Main result: the output is sorted by host, equal hosts in file order, and has exactly the filled host blocks. */
  lemma OutputOrder(lines: seq<string>, home: string)
    ensures var hosts := Hosts(Blocks(lines));
            var filled := Entries(hosts, DefaultsOf(Wildcards(Blocks(lines)), home), home);
            && Sorted(Parsed(lines, home), HostOf)
            && multiset(Parsed(lines, home)) == multiset(filled)
            && forall k :: WithKey(Parsed(lines, home), HostOf, k) == WithKey(filled, HostOf, k)
  {
    var filled := Entries(Hosts(Blocks(lines)), DefaultsOf(Wildcards(Blocks(lines)), home), home);
    StableSortIsSorted(filled, HostOf);
    StableSortElements(filled, HostOf);
    forall k ensures WithKey(Parsed(lines, home), HostOf, k) == WithKey(filled, HostOf, k) {
      StableSortIsStable(filled, HostOf, k);
    }
  }

  // ---- moving blocks

  predicate IsHostLine(line: string) {
    var kv := ParseKv(line);
    kv.Some? && kv.value.key == "host"
  }

  /** A text that begins with a `Host` line, or is empty. */
  predicate StartsBlock(lines: seq<string>) {
    lines == [] || IsHostLine(lines[0])
  }

  lemma {:induction false} BlocksConcat(a: seq<string>, b: seq<string>)
    requires StartsBlock(b)
    ensures Blocks(a + b) == Blocks(a) + Blocks(b)
    ensures b != [] ==> Blocks(b) != []
    decreases |b|
  {
    if b == [] {
      assert a + b == a;
    } else {
      var n := |b| - 1;
      assert (a + b)[..|a + b| - 1] == a + b[..n];
      BlocksConcat(a, b[..n]);
      if n > 0 {
        AddLineConcat(Blocks(a), Blocks(b[..n]), ParseKv(b[n]));
      } else {
        assert b[..0] == [];
        assert Blocks(b[..0]) == [];
      }
    }
  }

  lemma AddLineConcat(x: seq<Block>, y: seq<Block>, kv: Option<Setting>)
    requires y != []
    ensures AddLine(x + y, kv) == x + AddLine(y, kv) && AddLine(y, kv) != []
  {
    assert (x + y)[..|x + y| - 1] == x + y[..|y| - 1];
    assert (x + y)[|x + y| - 1] == y[|y| - 1];
  }

  lemma {:induction false} KeptConcat(a: seq<Block>, b: seq<Block>, wild: bool)
    ensures Kept(a + b, wild) == Kept(a, wild) + Kept(b, wild)
    decreases |b|
  {
    if b == [] {
      assert a + b == a;
    } else {
      var n := |b| - 1;
      KeptConcat(a, b[..n], wild);
      assert (a + b)[..|a + b| - 1] == a + b[..n];
      var tail := if IsWildcardHost(b[n].host) == wild then [b[n]] else [];
      assert (Kept(a, wild) + Kept(b[..n], wild)) + tail == Kept(a, wild) + (Kept(b[..n], wild) + tail);
    }
  }

  lemma {:induction false} NoneKept(blocks: seq<Block>, wild: bool)
    requires forall i :: 0 <= i < |blocks| ==> IsWildcardHost(blocks[i].host) != wild
    ensures Kept(blocks, wild) == []
  {
    if blocks != [] {
      NoneKept(blocks[..|blocks| - 1], wild);
    }
  }

  lemma KeptFour(a: seq<Block>, b: seq<Block>, c: seq<Block>, d: seq<Block>, wild: bool)
    ensures Kept(a + b + c + d, wild) == Kept(a, wild) + Kept(b, wild) + Kept(c, wild) + Kept(d, wild)
  {
    KeptConcat(a + b + c, d, wild);
    KeptConcat(a + b, c, wild);
    KeptConcat(a, b, wild);
  }

  lemma SwapEmpty(a: seq<Block>, x: seq<Block>, y: seq<Block>, b: seq<Block>)
    requires x == [] || y == []
    ensures a + x + y + b == a + y + x + b
  {
    if x == [] {
      assert a + x == a && a + y + x == a + y;
    } else {
      assert a + y == a && a + x + y == a + x;
    }
  }

  lemma SwapBlocks(pre: seq<Block>, x: seq<Block>, y: seq<Block>, post: seq<Block>, wild: bool)
    requires Kept(x, wild) == [] || Kept(y, wild) == []
    ensures Kept(pre + x + y + post, wild) == Kept(pre + y + x + post, wild)
  {
    KeptFour(pre, x, y, post, wild);
    KeptFour(pre, y, x, post, wild);
    SwapEmpty(Kept(pre, wild), Kept(x, wild), Kept(y, wild), Kept(post, wild));
  }

  /** Main result: moving wildcard blocks past host blocks, in the text itself, does not change the output. */
  lemma WildcardsMoveFreely(pre: seq<string>, wild: seq<string>, host: seq<string>, post: seq<string>,
                            home: string)
    requires StartsBlock(wild) && StartsBlock(host) && StartsBlock(post)
    requires forall i :: 0 <= i < |Blocks(wild)| ==> IsWildcardHost(Blocks(wild)[i].host)
    requires forall i :: 0 <= i < |Blocks(host)| ==> !IsWildcardHost(Blocks(host)[i].host)
    ensures Parsed(pre + wild + host + post, home) == Parsed(pre + host + wild + post, home)
  {
    BlocksConcat(pre + wild + host, post);
    BlocksConcat(pre + host + wild, post);
    BlocksConcat(pre + wild, host);
    BlocksConcat(pre + host, wild);
    BlocksConcat(pre, wild);
    BlocksConcat(pre, host);
    NoneKept(Blocks(wild), false);
    NoneKept(Blocks(host), true);
    SwapBlocks(Blocks(pre), Blocks(wild), Blocks(host), Blocks(post), true);
    SwapBlocks(Blocks(pre), Blocks(wild), Blocks(host), Blocks(post), false);
  }

  /** Lines before the first `Host` line have no effect. */
  lemma PreambleIgnored(pre: seq<string>, lines: seq<string>, home: string)
    requires StartsBlock(lines) && forall i :: 0 <= i < |pre| ==> !IsHostLine(pre[i])
    ensures Parsed(pre + lines, home) == Parsed(lines, home)
  {
    NoBlocks(pre);
    BlocksConcat(pre, lines);
    assert [] + Blocks(lines) == Blocks(lines);
  }

  lemma {:induction false} NoBlocks(pre: seq<string>)
    requires forall i :: 0 <= i < |pre| ==> !IsHostLine(pre[i])
    ensures Blocks(pre) == []
  {
    if pre != [] {
      NoBlocks(pre[..|pre| - 1]);
    }
  }

  // ---- the default identity

  /** The value of the first setting with a key. */
  function FirstValue(settings: seq<Setting>, key: string): Option<string> {
    if settings == [] then None
    else
      var n := |settings| - 1;
      var first := FirstValue(settings[..n], key);
      if first.None? && settings[n].key == key then Some(settings[n].value) else first
  }

  /** The first `IdentityFile` of the wildcard blocks. */
  function FirstIdentity(wildcards: seq<Block>): Option<string> {
    if wildcards == [] then None
    else
      var n := |wildcards| - 1;
      Or(FirstIdentity(wildcards[..n]), FirstValue(wildcards[n].settings, "identityfile"))
  }

  function DefaultIdentity(lines: seq<string>, home: string): Option<string> {
    match FirstIdentity(Wildcards(Blocks(lines)))
    case Some(v) => Some(ExpandTilde(v, home))
    case None => None
  }

  /** The first identity of the blocks, as one more block comes. */
  lemma IdentityOfSnoc(blocks: seq<Block>, b: Block)
    ensures FirstIdentity(Wildcards(blocks + [b])) ==
              if IsWildcardHost(b.host) then Or(FirstIdentity(Wildcards(blocks)),
                                                FirstValue(b.settings, "identityfile"))
              else FirstIdentity(Wildcards(blocks))
  {
    var w := Wildcards(blocks);
    assert (blocks + [b])[..|blocks|] == blocks;
    if IsWildcardHost(b.host) {
      assert (w + [b])[..|w|] == w;
    } else {
      assert w + [] == w;
    }
  }

  lemma FirstValueSnoc(settings: seq<Setting>, s: Setting)
    ensures FirstValue(settings + [s], "identityfile") ==
              Or(FirstValue(settings, "identityfile"), if s.key == "identityfile" then Some(s.value) else None)
  {
    assert (settings + [s])[..|settings|] == settings;
  }

  /** One more line can only bring the identity in an open wildcard block, and only if there was none. */
  lemma IdentityLine(blocks: seq<Block>, kv: Option<Setting>)
    ensures FirstIdentity(Wildcards(AddLine(blocks, kv))) ==
              Or(FirstIdentity(Wildcards(blocks)),
                 if kv.Some? && kv.value.key == "identityfile" && blocks != [] &&
                    IsWildcardHost(blocks[|blocks| - 1].host)
                 then Some(kv.value.value) else None)
  {
    if kv.Some? {
      var s, n := kv.value, |blocks| - 1;
      if s.key == "host" {
        IdentityOfSnoc(blocks, Block(s.value, []));
      } else if blocks != [] {
        assert blocks == blocks[..n] + [blocks[n]];
        IdentityOfSnoc(blocks[..n], blocks[n]);
        IdentityOfSnoc(blocks[..n], blocks[n].(settings := blocks[n].settings + [s]));
        FirstValueSnoc(blocks[n].settings, s);
      }
    }
  }

  lemma {:induction false} IdentityStays(lines: seq<string>, n: nat, v: string)
    requires n <= |lines| && FirstIdentity(Wildcards(Blocks(lines[..n]))) == Some(v)
    ensures FirstIdentity(Wildcards(Blocks(lines))) == Some(v)
    decreases |lines| - n
  {
    if n < |lines| {
      assert lines[..n + 1][..n] == lines[..n];
      IdentityLine(Blocks(lines[..n]), ParseKv(lines[n]));
      IdentityStays(lines, n + 1, v);
    } else {
      assert lines[..n] == lines;
    }
  }

  predicate OpenIsWildcard(blocks: seq<Block>) {
    blocks != [] && IsWildcardHost(blocks[|blocks| - 1].host)
  }

  lemma OpenAfter(blocks: seq<Block>, kv: Option<Setting>)
    ensures OpenIsWildcard(AddLine(blocks, kv)) ==
              if kv.Some? && kv.value.key == "host" then IsWildcardHost(kv.value.value) else OpenIsWildcard(blocks)
  {
  }

  method GetDefaultIdentityFile(lines: seq<string>, home: string) returns (r: Option<string>)
    ensures r == DefaultIdentity(lines, home)
  {
    var inWildcard := false;
    for i := 0 to |lines|
      invariant FirstIdentity(Wildcards(Blocks(lines[..i]))) == None
      invariant inWildcard == OpenIsWildcard(Blocks(lines[..i]))
    {
      assert lines[..i+1][..i] == lines[..i];
      IdentityLine(Blocks(lines[..i]), ParseKv(lines[i]));
      OpenAfter(Blocks(lines[..i]), ParseKv(lines[i]));
      var kv := ParseKv(lines[i]);
      if kv.Some? {
        if kv.value.key == "host" {
          inWildcard := IsWildcardHost(kv.value.value);
        } else if inWildcard && kv.value.key == "identityfile" {
          IdentityStays(lines, i + 1, kv.value.value);
          return Some(ExpandTilde(kv.value.value, home));
        }
      }
    }
    assert lines[..|lines|] == lines;
    r := None;
  }

  /** The earliest wildcard block that names an identity. */
  ghost predicate FirstNaming(wildcards: seq<Block>, i: nat) {
    && i < |wildcards| && FirstValue(wildcards[i].settings, "identityfile").Some?
    && forall j :: 0 <= j < i ==> FirstValue(wildcards[j].settings, "identityfile").None?
  }

  lemma {:induction false} FirstIdentityFrom(wildcards: seq<Block>) returns (i: nat)
    ensures match FirstIdentity(wildcards)
            case Some(v) => FirstNaming(wildcards, i) && FirstValue(wildcards[i].settings, "identityfile") == Some(v)
            case None => forall j :: 0 <= j < |wildcards| ==> FirstValue(wildcards[j].settings, "identityfile").None?
  {
    i := 0;
    if wildcards != [] {
      var n := |wildcards| - 1;
      i := FirstIdentityFrom(wildcards[..n]);
      assert forall j :: 0 <= j < n ==> wildcards[..n][j] == wildcards[j];
      if FirstIdentity(wildcards[..n]) == None {
        i := n;
      }
    }
  }

  predicate SameEnds(settings: seq<Setting>, home: string) {
    var first, last := FirstValue(settings, "identityfile"), LastValue(settings, "identityfile");
    first.Some? && last.Some? && ExpandTilde(first.value, home) == ExpandTilde(last.value, home)
  }

  /** The entries' default identity is the last value of the same block. */
  lemma EntriesIdentity(wildcards: seq<Block>, home: string, i: nat)
    requires FirstNaming(wildcards, i)
    ensures var last := LastValue(wildcards[i].settings, "identityfile");
            last.Some? && DefaultsOf(wildcards, home).identityFile == Some(ExpandTilde(last.value, home))
  {
    FirstLast(wildcards[i].settings, "identityfile");
    forall j | 0 <= j < i ensures GetAt(wildcards, j, home, IdentityFile) == None {
      FirstLast(wildcards[j].settings, "identityfile");
    }
    var last := LastValue(wildcards[i].settings, "identityfile");
    var v := Word(ExpandTilde(last.value, home));
    assert EarliestAt(wildcards, IdentityFile, home, v, i);
    DefaultIsEarliest(wildcards, IdentityFile, home, v);
  }

  /** The two default identities, here and in the entries, agree exactly when the earliest wildcard block
      that names one starts and ends with the same: one takes its first value, the other its last. */
  lemma DefaultIdentitiesAgreeIff(lines: seq<string>, home: string)
    ensures var wildcards := Wildcards(Blocks(lines));
            DefaultIdentity(lines, home) == DefaultsOf(wildcards, home).identityFile <==>
            forall i: nat :: FirstNaming(wildcards, i) ==> SameEnds(wildcards[i].settings, home)
  {
    var wildcards := Wildcards(Blocks(lines));
    var i := FirstIdentityFrom(wildcards);
    if FirstIdentity(wildcards).Some? {
      EntriesIdentity(wildcards, home, i);
      assert forall k: nat :: FirstNaming(wildcards, k) ==> k == i;
    } else {
      NoIdentity(wildcards, home);
    }
  }

  lemma NoIdentity(wildcards: seq<Block>, home: string)
    requires forall j :: 0 <= j < |wildcards| ==> FirstValue(wildcards[j].settings, "identityfile").None?
    ensures DefaultsOf(wildcards, home).identityFile == None
  {
    var k := DefaultFrom(wildcards, IdentityFile, home);
    forall j | 0 <= j < |wildcards| ensures GetAt(wildcards, j, home, IdentityFile) == None {
      FirstLast(wildcards[j].settings, "identityfile");
    }
  }

  lemma {:induction false} FirstLast(settings: seq<Setting>, key: string)
    ensures FirstValue(settings, key).Some? <==> LastValue(settings, key).Some?
  {
    if settings != [] {
      FirstLast(settings[..|settings| - 1], key);
    }
  }
}
