/**
 The text level of the OpenSSH client configuration: which lines are settings, which setting fills which
 field of a host, and what becomes of ports and paths.
 */
module SshFields {
  import opened Wrappers
  import opened Text
  import opened SshConfig

  // ---- lines

  /** White space, a key, white space, a value that neither starts nor ends with white space, white space. */
  predicate IsSetting(line: string, a: string, key: string, gap: string, value: string, b: string) {
    && line == a + key + gap + value + b
    && AllIn(a, White) && AllIn(gap, White) && AllIn(b, White) && gap != ""
    && key != "" && key[0] != '#' && (forall i :: 0 <= i < |key| ==> key[i] !in White)
    && value != "" && value[0] !in White && value[|value| - 1] !in White
  }

  lemma {:induction false} FirstSpaceIs(s: string)
    ensures forall i :: 0 <= i < FirstSpace(s) ==> s[i] !in White
    ensures FirstSpace(s) < |s| ==> s[FirstSpace(s)] in White
  {
    WhiteIs();
    if s != "" && !IsSpace(s[0]) {
      FirstSpaceIs(s[1..]);
    }
  }

  /** Main result: exactly which lines are settings, of which key and with which value. */
  lemma ParseKvIff(line: string, k: string, v: string)
    ensures ParseKv(line) == Some(Setting(k, v)) <==>
            exists a, key, gap, b :: IsSetting(line, a, key, gap, v, b) && k == Lower(key)
  {
    if ParseKv(line) == Some(Setting(k, v)) {
      ParsedIs(line, k, v);
    }
    forall a, key, gap, b | IsSetting(line, a, key, gap, v, b) && k == Lower(key)
      ensures ParseKv(line) == Some(Setting(k, v))
    {
      SettingParses(line, a, key, gap, v, b);
    }
  }

  lemma ParsedIs(line: string, k: string, v: string)
    requires ParseKv(line) == Some(Setting(k, v))
    ensures exists a, key, gap, b :: IsSetting(line, a, key, gap, v, b) && k == Lower(key)
  {
    var a, b := Margins(line);
    WhiteIs();
    ParsedFrom(line, a, Trim(line), b, k, v);
  }

  lemma ParsedFrom(line: string, a: string, t: string, b: string, k: string, v: string)
    requires line == a + t + b && AllIn(a, White) && AllIn(b, White) && Cut(t) == Some(Setting(k, v))
    requires t != "" ==> t[|t| - 1] !in White
    ensures exists a, key, gap, b :: IsSetting(line, a, key, gap, v, b) && k == Lower(key)
  {
    var n, gap, after := CutIs(t, k, v);
    Assembled(line, a, t, b, n, gap, v, after);
    assert IsSetting(line, a, t[..n], [t[n]] + gap, v, b) && k == Lower(t[..n]);
  }

  lemma CutIs(t: string, k: string, v: string) returns (n: nat, gap: string, after: string)
    requires Cut(t) == Some(Setting(k, v))
    ensures n < |t| && (forall i :: 0 <= i < n ==> t[i] !in White) && t[n] in White && k == Lower(t[..n])
    ensures AllIn(gap, White) && AllIn(after, White) && t[n + 1..] == gap + v + after
    ensures n > 0 && t[0] != '#' && v != "" && v[0] !in White && v[|v| - 1] !in White
  {
    n := FirstSpace(t);
    FirstSpaceIs(t);
    WhiteIs();
    gap, after := Margins(t[n + 1..]);
  }

  /** Nothing is left behind the value, since the text ends without white space. */
  lemma Assembled(line: string, a: string, t: string, b: string, n: nat, gap: string, v: string, after: string)
    requires line == a + t + b && AllIn(a, White) && AllIn(b, White)
    requires 0 < n < |t| && (forall i :: 0 <= i < n ==> t[i] !in White) && t[n] in White && t[0] != '#'
    requires AllIn(gap, White) && AllIn(after, White) && t[n + 1..] == gap + v + after
    requires v != "" && v[0] !in White && v[|v| - 1] !in White && t[|t| - 1] !in White
    ensures IsSetting(line, a, t[..n], [t[n]] + gap, v, b)
  {
    if after != "" {
      LastIs(t, gap + v, after);
      assert false;
    }
    assert t == t[..n] + ([t[n]] + gap) + v;
  }

  lemma LastIs(t: string, front: string, after: string)
    requires after != "" && AllIn(after, White) && |front + after| <= |t| && t[|t| - |front + after|..] == front + after
    ensures t[|t| - 1] in White
  {
    var tail := front + after;
    assert t[|t| - 1] == tail[|tail| - 1] == after[|after| - 1];
  }

  lemma SettingParses(line: string, a: string, key: string, gap: string, v: string, b: string)
    requires IsSetting(line, a, key, gap, v, b)
    ensures ParseKv(line) == Some(Setting(Lower(key), v))
  {
    var t := key + gap + v;
    assert line == a + t + b;
    TrimStrips(a, t, b);
    CutParts(t, key, gap, v);
  }

  lemma CutParts(t: string, key: string, gap: string, v: string)
    requires t == key + gap + v && AllIn(gap, White) && gap != ""
    requires key != "" && key[0] != '#' && forall i :: 0 <= i < |key| ==> key[i] !in White
    requires v != "" && v[0] !in White && v[|v| - 1] !in White
    ensures Cut(t) == Some(Setting(Lower(key), v))
  {
    var rest := gap[1..] + v + "";
    Slices(t, key, gap, v);
    FirstSpaceAfter(key, gap + v);
    TrimStrips(gap[1..], v, "");
    CutAt(t, key, rest);
  }

  lemma Slices(t: string, key: string, gap: string, v: string)
    requires t == key + gap + v && gap != "" && key != ""
    ensures t == key + (gap + v) && t[..|key|] == key && t[|key| + 1..] == gap[1..] + v + ""
    ensures |key| < |t| && t[0] == key[0]
  {
  }

  lemma CutAt(t: string, key: string, rest: string)
    requires t != "" && t[0] != '#' && FirstSpace(t) == |key| < |t|
    requires t[..|key|] == key && t[|key| + 1..] == rest && key != "" && Trim(rest) != ""
    ensures Cut(t) == Some(Setting(Lower(key), Trim(rest)))
  {
  }

  lemma {:induction false} FirstSpaceAfter(key: string, rest: string)
    requires (forall i :: 0 <= i < |key| ==> key[i] !in White) && rest != "" && rest[0] in White
    ensures FirstSpace(key + rest) == |key|
  {
    WhiteIs();
    if key == "" {
      assert key + rest == rest;
    } else {
      assert (key + rest)[1..] == key[1..] + rest;
      FirstSpaceAfter(key[1..], rest);
    }
  }

  // ---- fields

  /** The value of the last setting of the key, or nothing when there is none. */
  ghost predicate SaysLast(settings: seq<Setting>, key: string, v: Option<string>) {
    match v
    case Some(value) => exists i: nat :: LastAt(settings, key, i) && settings[i].value == value
    case None => forall i :: 0 <= i < |settings| ==> settings[i].key != key
  }

  lemma LastValueSays(settings: seq<Setting>, key: string)
    ensures SaysLast(settings, key, LastValue(settings, key))
  {
    var i := LastValueFrom(settings, key);
  }

  /** Main result: which setting fills which field of a block. */
  lemma FieldsSay(b: Block, home: string)
    ensures var e, s := EntryOf(b, home), b.settings;
            && e.host == b.host
            && SaysLast(s, "hostname", e.hostName) && SaysLast(s, "user", e.user)
            && SaysLast(s, "proxyjump", e.proxyJump) && SaysLast(s, "proxycommand", e.proxyCommand)
    ensures exists port :: SaysLast(b.settings, "port", port) &&
              EntryOf(b, home).port == if port.Some? then ParseU16(port.value) else None
    ensures exists path :: SaysLast(b.settings, "identityfile", path) &&
              EntryOf(b, home).identityFile == if path.Some? then Some(ExpandTilde(path.value, home)) else None
  {
    LastValueSays(b.settings, "hostname");
    LastValueSays(b.settings, "user");
    LastValueSays(b.settings, "proxyjump");
    LastValueSays(b.settings, "proxycommand");
    LastValueSays(b.settings, "port");
    LastValueSays(b.settings, "identityfile");
  }

  /** A host block's own name is never overridden by a default. */
  lemma HostNameStays(blocks: seq<Block>, home: string, k: nat)
    requires k < |Hosts(blocks)|
    ensures var out := Entries(Hosts(blocks), DefaultsOf(Wildcards(blocks), home), home)[k];
            out.host == Hosts(blocks)[k].host && SaysLast(Hosts(blocks)[k].settings, "hostname", out.hostName)
  {
    FieldsSay(Hosts(blocks)[k], home);
  }

  // ---- values

  /** Main result: a port is a decimal number below 65536, with any leading zeros and possibly a plus sign. */
  lemma PortIff(s: string, n: nat)
    ensures ParseU16(s) == Some(n) <==> n < 65536 && exists sign, zeros :: IsNumber(s, sign, zeros, n)
  {
    if ParseU16(s) == Some(n) {
      PortIs(s, n);
    }
    forall sign, zeros | IsNumber(s, sign, zeros, n) && n < 65536 ensures ParseU16(s) == Some(n) {
      NumberParses(s, sign, zeros, n);
    }
  }

  lemma PortIs(s: string, n: nat)
    requires ParseU16(s) == Some(n)
    ensures exists sign, zeros :: IsNumber(s, sign, zeros, n)
  {
    var zeros, number := Leading(Unsigned(s));
    Signed(s, Unsigned(s), zeros, number);
    assert IsNumber(s, "", zeros, n) || IsNumber(s, "+", zeros, n);
  }

  lemma Signed(s: string, digits: string, zeros: string, number: string)
    requires Unsigned(s) == digits && digits == zeros + number
    ensures s == "" + zeros + number || s == "+" + zeros + number
  {
    if s != digits {
      assert s == "+" + digits && "+" + zeros + number == "+" + digits;
    } else {
      assert "" + zeros + number == digits;
    }
  }

  lemma NumberParses(s: string, sign: string, zeros: string, n: nat)
    requires IsNumber(s, sign, zeros, n) && n < 65536
    ensures ParseU16(s) == Some(n)
  {
    ZerosBefore(zeros, Decimal(n));
    DecimalValue(n);
    SignDrops(sign, zeros, Decimal(n));
  }

  lemma SignDrops(sign: string, zeros: string, number: string)
    requires (sign == "" || sign == "+") && AllIn(zeros, "0") && number != "" && number[0] != '+'
    ensures Unsigned(sign + zeros + number) == zeros + number
  {
    var digits := zeros + number;
    assert digits[0] != '+';
    if sign == "" {
      assert sign + zeros + number == digits;
    } else {
      assert sign + zeros + number == "+" + digits;
      assert ("+" + digits)[1..] == digits;
    }
  }

  predicate IsNumber(s: string, sign: string, zeros: string, n: nat) {
    (sign == "" || sign == "+") && AllIn(zeros, "0") && s == sign + zeros + Decimal(n)
  }

  /** A lone `~` is the home directory, and `~/` goes below it; other paths stay, users' homes among them. */
  lemma TildeIs(path: string, home: string)
    requires home != "" && home[|home| - 1] != '/'
    ensures ExpandTilde("~", home) == home
    ensures (path == "" || path[0] != '/') ==> ExpandTilde("~/" + path, home) == home + "/" + path
    ensures path != "~" && !("~/" <= path) ==> ExpandTilde(path, home) == path
  {
    assert ("~/" + path)[2..] == path;
    assert |"~/" + path| >= 2;
  }

  /** Main result: a host is a wildcard when each of its words is negated or has a `*` or a `?`. */
  lemma WildcardIff(host: string, words: seq<string>)
    requires Spaced(host, words, White)
    ensures IsWildcardHost(host) <==> forall w :: w in words ==> "!" <= w || '*' in w || '?' in w
  {
    FieldsIff(host, words);
    assert forall w: string :: "!" <= w <==> w != "" && w[0] == '!';
  }
}
