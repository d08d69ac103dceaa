/**
 The relay's route lookup against the display resolver of the desktop app.

 The relay files per-host overrides under the normal form of their key; the desktop app stores and
 looks up the key as it was typed. Both look a host up by its normal form, then by wildcards above it.
 */
module RouteAgreement {
  import opened Wrappers
  import opened Text
  import opened Scopes
  import opened CatalogIndex
  import opened Routes
  import opened RouteTable

  // ---- the relay's map of overrides

  /** The relay's answer for a looked-up key, with one of the override maps compiling may leave. */
  function RelayRoute(compiled: map<string, Route>, t: Table, norm: Normalizer, key: string): Route {
    Resolve(compiled, t.groups, t.final, norm, key, !HasPrefix(key, "*."))
  }

  method LookupKey(t: Table, norm: Normalizer, key: string) returns (r: Route, ghost compiled: map<string, Route>)
    requires NoEmptyScope(norm)
    ensures OverridesFrom(compiled, t.overrides) && r == RelayRoute(compiled, t, norm, key)
  {
    var c := new CompiledRoutes();
    c.Compile(t, norm);
    compiled := c.overrides;
    r := c.Lookup(key, t, norm);
  }

  /** `LookupRouteMode` on a freshly compiled table. When several override keys have one normal form, the
      order Go's map is walked in decides which counts. */
  method LookupFresh(t: Table, psl: Registrable, host: string) returns (r: Route)
    ensures exists compiled ::
              OverridesFrom(compiled, t.overrides) &&
              r == RelayRoute(compiled, t, ScopeNormalizer(psl), NormalizeHost(host))
    ensures SameEffect(t.overrides) && Trim(host) == host && !HasPrefix(NormalizeHost(host), "*.") ==>
              r == ResolveRoute(t, ScopeNormalizer(psl), host)
  {
    ScopesAreNotEmpty(psl);
    ghost var compiled;
    r, compiled := LookupKey(t, ScopeNormalizer(psl), NormalizeHost(host));
    if SameEffect(t.overrides) && Trim(host) == host && !HasPrefix(NormalizeHost(host), "*.") {
      SameAnswer(t, compiled, ScopeNormalizer(psl), host);
    }
  }

  // ---- what an override map does

  /** The names under which an override may apply to a key, most specific first. */
  function Candidate(key: string, i: nat): string
    requires i < |Split(key, '.')|
  {
    if i == 0 then key else "*." + Tail(key, i)
  }

  /** The override found for a key from its i-th candidate on. */
  function HitFrom(overrides: map<string, Route>, key: string, i: nat): Option<Route>
    requires i <= |Split(key, '.')|
    decreases |Split(key, '.')| - i
  {
    if i == |Split(key, '.')| then None
    else if Candidate(key, i) in overrides then Some(overrides[Candidate(key, i)])
    else HitFrom(overrides, key, i + 1)
  }

  function Hit(overrides: map<string, Route>, key: string): Option<Route> {
    HitFrom(overrides, key, 0)
  }

  lemma {:induction false} HitFromWildcards(overrides: map<string, Route>, key: string, i: nat)
    requires 1 <= i <= |Split(key, '.')|
    ensures var w := WildcardFrom(overrides, key, i);
            HitFrom(overrides, key, i) == if w.Some? then Some(overrides[w.value]) else None
    decreases |Split(key, '.')| - i
  {
    if i < |Split(key, '.')| {
      HitFromWildcards(overrides, key, i + 1);
    }
  }

  /** Resolving is: the override found, else the groups. */
  lemma ResolveIsHit(overrides: map<string, Route>, groups: seq<RouteGroup>, final: string, norm: Normalizer,
                     key: string)
    ensures Resolve(overrides, groups, final, norm, key, true) ==
            Hit(overrides, key).GetOr(GroupRoute(groups, final, norm, key))
  {
    HitFromWildcards(overrides, key, 1);
  }

  /** Behind the first label only the remaining labels count. */
  lemma {:induction false} HitOfLabels(overrides: map<string, Route>, a: string, i: nat, b: string, j: nat)
    requires 0 < i <= |Split(a, '.')| && 0 < j <= |Split(b, '.')| && Split(a, '.')[i..] == Split(b, '.')[j..]
    ensures HitFrom(overrides, a, i) == HitFrom(overrides, b, j)
    decreases |Split(a, '.')| - i
  {
    var x, y := Split(a, '.'), Split(b, '.');
    assert |x| - i == |x[i..]| == |y[j..]| == |y| - j;
    if i < |x| {
      assert Tail(a, i) == Tail(b, j);
      assert x[i + 1..] == x[i..][1..] && y[j + 1..] == y[j..][1..];
      HitOfLabels(overrides, a, i + 1, b, j + 1);
    }
  }

  /** A candidate, looked up itself, finds what the key finds from there on. */
  lemma HitOfCandidate(overrides: map<string, Route>, key: string, i: nat)
    requires i < |Split(key, '.')|
    ensures Hit(overrides, Candidate(key, i)) == HitFrom(overrides, key, i)
  {
    if i > 0 {
      var n := Candidate(key, i);
      StarOfTail(key, i);
      HitOfLabels(overrides, n, 1, key, i);
      assert Candidate(n, 0) == n == Candidate(n, 1);
    }
  }

  /** `*.` before a tail: its labels are the star and the labels of the tail. */
  lemma StarOfTail(key: string, i: nat)
    requires 0 < i < |Split(key, '.')|
    ensures var n := "*." + Tail(key, i);
            |Split(n, '.')| == |Split(key, '.')| - i + 1 && Split(n, '.')[1..] == Split(key, '.')[i..] &&
            Tail(n, 1) == Tail(key, i)
  {
    var labels := Split(key, '.')[i..];
    assert "*." + Tail(key, i) == "*" + ['.'] + Tail(key, i);
    SplitHead("*", Tail(key, i), '.');
    SplitJoin(labels, '.');
  }

  // ---- which keys are looked up

  /** Lower case and without leading white space: the keys that hosts are looked up by, and their candidates. */
  predicate Lookable(key: string) {
    Lower(key) == key && (key != "" ==> !IsSpace(key[0]))
  }

  /** What a host is looked up by is lookable, and every lookable key is what some host is looked up by. */
  lemma LookableIff(key: string)
    ensures Lookable(key) <==> exists host :: Trim(host) == host && NormalizeHost(host) == key
  {
    if Lookable(key) {
      DottedHost(key);
    }
    forall host | NormalizeHost(host) == key ensures Lookable(key) {
      NormalIsLookable(host);
    }
  }

  lemma DottedHost(key: string)
    requires Lookable(key)
    ensures Trim(key + ".") == key + "." && NormalizeHost(key + ".") == key
  {
    var host := key + ".";
    TrimIdentity(host);
    LowerIff(key);
    LowerOfDotted(key);
    assert host[..|host| - 1] == key;
  }

  lemma LowerOfDotted(key: string)
    requires forall i :: 0 <= i < |key| ==> LowerChar(key[i]) == key[i]
    ensures Lower(key + ".") == key + "."
  {
    LowerIff(key + ".");
  }

  lemma NormalIsLookable(host: string)
    ensures Lookable(NormalizeHost(host)) && |NormalizeHost(host)| <= |host|
  {
    var t, n := Trim(host), NormalizeHost(host);
    assert n == Lower(t)[..|n|];
    StartIsLower(t, n);
    TrimIsShorter(host);
  }

  /** The start of lower-cased text stays when it is lower-cased again. */
  lemma StartIsLower(t: string, n: string)
    requires n <= Lower(t)
    ensures Lower(n) == n
  {
    LowerIff(n);
    forall i | 0 <= i < |n| ensures LowerChar(n[i]) == n[i] {
      assert n[i] == LowerChar(t[i]);
    }
  }

  lemma TrimIsShorter(s: string)
    ensures |Trim(s)| <= |s|
  {
  }

  lemma LowerIff(s: string)
    ensures Lower(s) == s <==> forall i :: 0 <= i < |s| ==> LowerChar(s[i]) == s[i]
  {
  }

  lemma StarIsLower(key: string, tail: string)
    requires HasSuffix(key, "." + tail) && forall i :: 0 <= i < |key| ==> LowerChar(key[i]) == key[i]
    ensures forall i :: 0 <= i < |"*." + tail| ==> LowerChar(("*." + tail)[i]) == ("*." + tail)[i]
  {
    var from, n := key[|key| - |tail| - 1..], "*." + tail;
    assert from == "." + tail;
    forall i | 2 <= i < |n| ensures LowerChar(n[i]) == n[i] {
      assert n[i] == from[i - 1] == key[|key| - |tail| - 1 + (i - 1)];
    }
  }

  lemma CandidateIsLookable(key: string, i: nat)
    requires Lookable(key) && i < |Split(key, '.')|
    ensures Lookable(Candidate(key, i))
  {
    if i > 0 {
      TailIsSuffix(key, i);
      LowerIff(key);
      StarIsLower(key, Tail(key, i));
      LowerIff("*." + Tail(key, i));
    }
  }

  // ---- when the two resolvers agree

  /** The normal forms, with what the desktop app finds under them. */
  function Normal(kinds: map<string, Route>, form: string -> string): map<string, Route> {
    map n | n in (set g | g in kinds && form(g) != "" :: form(g)) :: Hit(kinds, n).GetOr(Tunnel)
  }

  /** Every override key has its own kind in both readings: the desktop app finds it under the key's normal
      form, and the relay under the key itself, if that can be looked up at all. */
  predicate SameReading(kinds: map<string, Route>, form: string -> string, lookable: string -> bool) {
    && (forall g :: g in kinds && form(g) != "" ==> Hit(kinds, form(g)) == Some(kinds[g]))
    && (forall g :: g in kinds && lookable(g) ==> Hit(Normal(kinds, form), g) == Some(kinds[g]))
  }

  predicate SameEffect(overrides: map<string, string>) {
    SameReading(Kinds(overrides), NormalizeHost, Lookable)
  }

  lemma FiledIsNormal(kinds: map<string, Route>, form: string -> string, compiled: map<string, Route>)
    requires Files(compiled, kinds, form)
    requires forall g :: g in kinds && form(g) != "" ==> Hit(kinds, form(g)) == Some(kinds[g])
    ensures compiled == Normal(kinds, form)
  {
    assert forall n :: n in compiled <==> n in Normal(kinds, form);
    forall n | n in compiled ensures compiled[n] == Normal(kinds, form)[n] {
      var g :| g in kinds && form(g) == n && compiled[n] == kinds[g];
    }
  }

  lemma HitPresent(overrides: map<string, Route>, key: string)
    requires key in overrides
    ensures Hit(overrides, key) == Some(overrides[key])
  {
    assert Candidate(key, 0) == key;
  }

  /** A stored name is found alike in both maps. */
  lemma StoredNamesAgree(kinds: map<string, Route>, form: string -> string, lookable: string -> bool,
                         compiled: map<string, Route>, n: string)
    requires SameReading(kinds, form, lookable) && Files(compiled, kinds, form) && lookable(n)
    requires n in compiled || n in kinds
    ensures Hit(compiled, n) == Hit(kinds, n)
  {
    FiledIsNormal(kinds, form, compiled);
    if n in compiled {
      HitPresent(compiled, n);
      var g :| g in kinds && form(g) == n && compiled[n] == kinds[g];
    } else {
      HitPresent(kinds, n);
    }
  }

  lemma {:induction false} HitsAgreeFrom(kinds: map<string, Route>, form: string -> string,
                                         lookable: string -> bool, compiled: map<string, Route>, key: string,
                                         i: nat)
    requires SameReading(kinds, form, lookable) && Files(compiled, kinds, form) && i <= |Split(key, '.')|
    requires forall j :: i <= j < |Split(key, '.')| ==> lookable(Candidate(key, j))
    ensures HitFrom(compiled, key, i) == HitFrom(kinds, key, i)
    decreases |Split(key, '.')| - i
  {
    if i < |Split(key, '.')| {
      var n := Candidate(key, i);
      if n in compiled || n in kinds {
        StoredNamesAgree(kinds, form, lookable, compiled, n);
        HitOfCandidate(compiled, key, i);
        HitOfCandidate(kinds, key, i);
      } else {
        HitsAgreeFrom(kinds, form, lookable, compiled, key, i + 1);
      }
    }
  }

  lemma HitsAgree(overrides: map<string, string>, compiled: map<string, Route>, key: string)
    requires SameEffect(overrides) && OverridesFrom(compiled, overrides) && Lookable(key)
    ensures Hit(compiled, key) == Hit(Kinds(overrides), key)
  {
    forall j | 0 <= j < |Split(key, '.')| ensures Lookable(Candidate(key, j)) {
      CandidateIsLookable(key, j);
    }
    HitsAgreeFrom(Kinds(overrides), NormalizeHost, Lookable, compiled, key, 0);
  }

  /** The resolvers agree on every host that is no wildcard, whatever the groups, the final route and the
      order overrides are compiled in. */
  ghost predicate AgreeOnHosts(overrides: map<string, string>, norm: Normalizer) {
    forall t: Table, compiled: map<string, Route>, host: string ::
      t.overrides == overrides && OverridesFrom(compiled, overrides) && Trim(host) == host &&
      !HasPrefix(NormalizeHost(host), "*.") ==>
        RelayRoute(compiled, t, norm, NormalizeHost(host)) == ResolveRoute(t, norm, host)
  }

  lemma KindOfDirect()
    ensures KindOf("direct") == Direct
  {
    TrimIdentity("direct");
    LowerOfHost("direct");
  }

  /** What is found can be told from the answers under both final routes. */
  lemma FinalTells(a: Option<Route>, b: Option<Route>)
    requires a.GetOr(Tunnel) == b.GetOr(Tunnel) && a.GetOr(Direct) == b.GetOr(Direct)
    ensures a == b
  {
  }

  lemma AnswersWithoutGroups(overrides: map<string, string>, compiled: map<string, Route>, norm: Normalizer,
                             key: string, final: string)
    requires AgreeOnHosts(overrides, norm) && OverridesFrom(compiled, overrides)
    requires Lookable(key) && !HasPrefix(key, "*.")
    ensures Hit(compiled, key).GetOr(FinalOf(final)) == Hit(Kinds(overrides), key).GetOr(FinalOf(final))
  {
    var t, host := Table(overrides, [], final), key + ".";
    DottedHost(key);
    ResolveIsHit(compiled, [], final, norm, key);
    ResolveIsHit(Kinds(overrides), [], final, norm, key);
    assert RelayRoute(compiled, t, norm, NormalizeHost(host)) == ResolveRoute(t, norm, host);
  }

  lemma AgreedHits(overrides: map<string, string>, compiled: map<string, Route>, norm: Normalizer, key: string)
    requires AgreeOnHosts(overrides, norm) && OverridesFrom(compiled, overrides)
    requires Lookable(key) && !HasPrefix(key, "*.")
    ensures Hit(compiled, key) == Hit(Kinds(overrides), key)
  {
    KindOfTunnel();
    KindOfDirect();
    var tunnel, direct :| KindOf(tunnel) == Tunnel && KindOf(direct) == Direct;
    AnswersWithoutGroups(overrides, compiled, norm, key, tunnel);
    AnswersWithoutGroups(overrides, compiled, norm, key, direct);
    FinalTells(Hit(compiled, key), Hit(Kinds(overrides), key));
  }

  /** A label longer than anything in sight. */
  function Long(n: nat): (r: string)
    ensures |r| == n && forall i :: 0 <= i < n ==> r[i] == 'a'
  {
    if n == 0 then "" else "a" + Long(n - 1)
  }

  lemma {:induction false} LongerThanAll(keys: set<string>) returns (n: nat)
    ensures n > 0 && forall k :: k in keys ==> |k| < n
    decreases |keys|
  {
    n := 1;
    if keys != {} {
      var k :| k in keys;
      var m := LongerThanAll(keys - {k});
      n := if m > |k| then m else |k| + 1;
    }
  }

  /** What a wildcard does shows at a key below it that has no override of its own. */
  lemma BelowWildcard(overrides: map<string, Route>, rest: string, n: nat)
    requires n > 0 && forall k :: k in overrides ==> |k| < n
    ensures Hit(overrides, Long(n) + "." + rest) == Hit(overrides, "*." + rest)
  {
    var key, star := Long(n) + "." + rest, "*." + rest;
    assert key == Long(n) + ['.'] + rest && star == "*" + ['.'] + rest;
    SplitHead(Long(n), rest, '.');
    SplitHead("*", rest, '.');
    HitOfLabels(overrides, key, 1, star, 1);
    assert |key| >= n;
    assert Candidate(star, 0) == star;
    FirstLabelStar(star);
    assert Candidate(star, 1) == star;
  }

  lemma BelowIsLookable(rest: string, n: nat)
    requires n > 0 && Lookable("*." + rest)
    ensures Lookable(Long(n) + "." + rest) && !HasPrefix(Long(n) + "." + rest, "*.")
  {
    var key, star := Long(n) + "." + rest, "*." + rest;
    forall i | 0 <= i < |key| ensures LowerChar(key[i]) == key[i] {
      if i > n {
        assert key[i] == star[i - n + 1] == Lower(star)[i - n + 1];
      }
    }
    assert Lower(key) == key;
    assert key[0] == 'a';
  }

  lemma CompiledIsShort(overrides: map<string, string>, compiled: map<string, Route>, n: nat)
    requires OverridesFrom(compiled, overrides) && forall k :: k in overrides ==> |k| < n
    ensures forall k :: k in compiled ==> |k| < n
  {
    forall k | k in compiled ensures |k| < n {
      var g :| g in overrides && NormalizeHost(g) == k;
      NormalIsLookable(g);
    }
  }

  /** Agreement on hosts that are no wildcards is agreement on what is found under any lookable key. */
  lemma AgreedHitsAt(overrides: map<string, string>, compiled: map<string, Route>, norm: Normalizer, key: string)
    requires AgreeOnHosts(overrides, norm) && OverridesFrom(compiled, overrides) && Lookable(key)
    ensures Hit(compiled, key) == Hit(Kinds(overrides), key)
  {
    if HasPrefix(key, "*.") {
      var rest := key[2..];
      assert key == "*." + rest;
      var n := LongerThanAll(overrides.Keys);
      CompiledIsShort(overrides, compiled, n);
      BelowWildcard(compiled, rest, n);
      BelowWildcard(Kinds(overrides), rest, n);
      BelowIsLookable(rest, n);
      AgreedHits(overrides, compiled, norm, Long(n) + "." + rest);
    } else {
      AgreedHits(overrides, compiled, norm, key);
    }
  }

  /** A compiling order in which the key `g` counts. */
  lemma {:induction false} CompileLast(kinds: map<string, Route>, form: string -> string, g: string)
    returns (compiled: map<string, Route>)
    requires g in kinds
    ensures Files(compiled, kinds, form)
    ensures form(g) != "" ==> form(g) in compiled && compiled[form(g)] == kinds[g]
    decreases |kinds|
  {
    var rest := kinds - {g};
    assert kinds == rest[g := kinds[g]];
    if rest == map[] {
      compiled := map[];
    } else {
      var k :| k in rest;
      SmallerMap(kinds, g);
      compiled := CompileLast(rest, form, k);
    }
    compiled := FileOne(compiled, rest, form, g, kinds[g]);
  }

  lemma SmallerMap(m: map<string, Route>, k: string)
    requires k in m
    ensures |m - {k}| < |m|
  {
    assert m == (m - {k})[k := m[k]];
  }

  lemma FileOne(compiled: map<string, Route>, kinds: map<string, Route>, form: string -> string, g: string,
                route: Route)
    returns (more: map<string, Route>)
    requires g !in kinds && Files(compiled, kinds, form)
    ensures Files(more, kinds[g := route], form)
    ensures form(g) != "" ==> form(g) in more && more[form(g)] == route
  {
    var n := form(g);
    var after := kinds[g := route];
    more := if n == "" then compiled else compiled[n := route];
    forall m | m in more
      ensures m != "" && exists k :: k in after && form(k) == m && more[m] == after[k]
    {
      if m == n && n != "" {
        assert g in after;
      } else {
        var k :| k in kinds && form(k) == m && compiled[m] == kinds[k];
        assert k in after && after[k] == kinds[k];
      }
    }
  }

  lemma AgreementNeedsSameEffect(overrides: map<string, string>, norm: Normalizer)
    requires AgreeOnHosts(overrides, norm)
    ensures SameEffect(overrides)
  {
    var kinds := Kinds(overrides);
    forall g | g in kinds && NormalizeHost(g) != ""
      ensures Hit(kinds, NormalizeHost(g)) == Some(kinds[g])
    {
      FoundUnderForm(overrides, norm, g);
    }
    forall g | g in kinds && Lookable(g)
      ensures Hit(Normal(kinds, NormalizeHost), g) == Some(kinds[g])
    {
      var compiled := CompileLast(kinds, NormalizeHost, g);
      AgreedHitsAt(overrides, compiled, norm, g);
      FiledIsNormal(kinds, NormalizeHost, compiled);
      HitPresent(kinds, g);
    }
  }

  lemma FoundUnderForm(overrides: map<string, string>, norm: Normalizer, g: string)
    requires AgreeOnHosts(overrides, norm) && g in overrides && NormalizeHost(g) != ""
    ensures Hit(Kinds(overrides), NormalizeHost(g)) == Some(Kinds(overrides)[g])
  {
    var compiled := CompileLast(Kinds(overrides), NormalizeHost, g);
    NormalIsLookable(g);
    AgreedHitsAt(overrides, compiled, norm, NormalizeHost(g));
    HitPresent(compiled, NormalizeHost(g));
  }

  /** Main result: relay and desktop app agree on every host that is no wildcard if and only if every override
      key has the same effect in both readings. */
  lemma OverridesAgreeIff(overrides: map<string, string>, norm: Normalizer)
    ensures AgreeOnHosts(overrides, norm) <==> SameEffect(overrides)
  {
    if AgreeOnHosts(overrides, norm) {
      AgreementNeedsSameEffect(overrides, norm);
    }
    if SameEffect(overrides) {
      forall t: Table, compiled: map<string, Route>, host: string |
        t.overrides == overrides && OverridesFrom(compiled, overrides) && Trim(host) == host &&
        !HasPrefix(NormalizeHost(host), "*.")
        ensures RelayRoute(compiled, t, norm, NormalizeHost(host)) == ResolveRoute(t, norm, host)
      {
        SameAnswer(t, compiled, norm, host);
      }
    }
  }

  lemma SameAnswer(t: Table, compiled: map<string, Route>, norm: Normalizer, host: string)
    requires SameEffect(t.overrides) && OverridesFrom(compiled, t.overrides)
    requires Trim(host) == host && !HasPrefix(NormalizeHost(host), "*.")
    ensures RelayRoute(compiled, t, norm, NormalizeHost(host)) == ResolveRoute(t, norm, host)
  {
    var key := NormalizeHost(host);
    NormalIsLookable(host);
    HitsAgree(t.overrides, compiled, key);
    ResolveIsHit(compiled, t.groups, t.final, norm, key);
    ResolveIsHit(Kinds(t.overrides), t.groups, t.final, norm, key);
  }

  // ---- an ordinary key that is lost

  /** A key typed in another form than its normal one counts for the relay alone. */
  lemma TypedKeyIsLost(raw: string, n: string, norm: Normalizer) returns (t: Table, compiled: map<string, Route>)
    requires NormalizeHost(raw) == n && n != "" && n != raw && Key(n) == n && !HasPrefix(n, "*.")
    ensures t == Table(map[raw := "blocked"], [], "tunnel") && compiled == map[n := Blocked]
    ensures OverridesFrom(compiled, t.overrides) && !SameEffect(t.overrides)
    ensures RelayRoute(compiled, t, norm, n) == Blocked && ResolveRoute(t, norm, n) == Tunnel
  {
    var blocked := BlockedText();
    var tunnel := TunnelText();
    t, compiled := Table(map[raw := blocked], [], tunnel), map[n := Blocked];
    OneKind(raw, blocked);
    LostInTable(raw, n, t, compiled, norm);
  }

  lemma OneKind(key: string, blocked: string)
    requires key != "" && KindOf(blocked) == Blocked
    ensures Kinds(map[key := blocked]) == map[key := Blocked]
  {
  }

  lemma LostInTable(raw: string, n: string, t: Table, compiled: map<string, Route>, norm: Normalizer)
    requires NormalizeHost(raw) == n && n != "" && n != raw && Key(n) == n && !HasPrefix(n, "*.")
    requires Kinds(t.overrides) == map[raw := Blocked] && t.groups == [] && FinalOf(t.final) == Tunnel
    requires compiled == map[n := Blocked]
    ensures OverridesFrom(compiled, t.overrides) && !SameEffect(t.overrides)
    ensures RelayRoute(compiled, t, norm, n) == Blocked && ResolveRoute(t, norm, n) == Tunnel
  {
    var kinds := Kinds(t.overrides);
    NoCandidate(kinds, n, raw, 0);
    KeyAlone(kinds, raw, n, NormalizeHost, Lookable);
    TypedAnswers(compiled, kinds, t.final, norm, n);
  }

  lemma KeyAlone(kinds: map<string, Route>, raw: string, n: string, form: string -> string, lookable: string -> bool)
    requires kinds == map[raw := Blocked] && form(raw) == n != "" && Hit(kinds, n) == None
    ensures Files(map[n := Blocked], kinds, form) && !SameReading(kinds, form, lookable)
  {
    assert raw in kinds;
  }

  lemma BlockedText() returns (s: string)
    ensures s == "blocked" && KindOf(s) == Blocked
  {
    KindOfBlocked();
    s := "blocked";
  }

  lemma TunnelText() returns (s: string)
    ensures s == "tunnel" && FinalOf(s) == Tunnel
  {
    KindOfTunnel();
    s := "tunnel";
  }

  lemma TypedAnswers(compiled: map<string, Route>, kinds: map<string, Route>, tunnel: string, norm: Normalizer,
                     n: string)
    requires n in compiled && compiled[n] == Blocked && Hit(kinds, n) == None && FinalOf(tunnel) == Tunnel
    requires !HasPrefix(n, "*.")
    ensures Resolve(compiled, [], tunnel, norm, n, !HasPrefix(n, "*.")) == Blocked &&
            Resolve(kinds, [], tunnel, norm, n, true) == Tunnel
  {
    HitPresent(compiled, n);
    ResolveIsHit(compiled, [], tunnel, norm, n);
    ResolveIsHit(kinds, [], tunnel, norm, n);
  }

  lemma {:induction false} NoCandidate(overrides: map<string, Route>, n: string, raw: string, i: nat)
    requires overrides.Keys == {raw} && NormalizeHost(raw) == n != raw && !HasPrefix(n, "*.")
    requires i <= |Split(n, '.')|
    ensures HitFrom(overrides, n, i) == None
    decreases |Split(n, '.')| - i
  {
    if i < |Split(n, '.')| {
      NoCandidate(overrides, n, raw, i + 1);
      if 0 < i {
        StarsStay(Tail(n, i));
        LabelsOfStar();
      }
    }
  }

  lemma LabelsOfStar()
    ensures |Split("*", '.')| == 1
  {
    SplitPlain("*", '.');
  }

  lemma {:induction false} TrimRightKeeps(s: string, i: nat)
    requires i < |s| && !IsSpace(s[i])
    ensures |TrimRight(s)| > i
  {
    if IsSpace(s[|s| - 1]) {
      TrimRightKeeps(s[..|s| - 1], i);
    }
  }

  /** The normal form of a wildcard is a wildcard, or the star alone. */
  lemma StarsStay(rest: string)
    ensures HasPrefix(NormalizeHost("*." + rest), "*.") || NormalizeHost("*." + rest) == "*"
  {
    var s := "*." + rest;
    TrimRightKeeps(s, 1);
    var t := Trim(s);
    assert t[0] == s[0] && t[1] == s[1];
    var low := Lower(t);
    assert low[0] == '*' && low[1] == '.';
    if |t| == 2 {
      assert low == "*.";
    }
  }

  /** For example `Example.com`. */
  lemma ExampleIsLost(norm: Normalizer) returns (n: string, t: Table, compiled: map<string, Route>)
    ensures n == "example.com" && t == Table(map["Example.com" := "blocked"], [], "tunnel")
    ensures compiled == map[n := Blocked] && OverridesFrom(compiled, t.overrides) && !SameEffect(t.overrides)
    ensures RelayRoute(compiled, t, norm, n) == Blocked && ResolveRoute(t, norm, n) == Tunnel
  {
    var raw;
    raw, n := ExampleTexts();
    t, compiled := TypedKeyIsLost(raw, n, norm);
  }

  lemma ExampleTexts() returns (raw: string, n: string)
    ensures raw == "Example.com" && n == "example.com"
    ensures NormalizeHost(raw) == n && n != "" && n != raw && Key(n) == n && !HasPrefix(n, "*.")
  {
    raw, n := "Example.com", "example.com";
    CapitalForms(raw, n);
  }

  /** Text with a capital at its head and nothing else to normalise. */
  lemma CapitalForms(raw: string, n: string)
    requires |raw| == |n| > 2 && raw[0] == 'E' && n[0] == 'e' && raw[1..] == n[1..]
    requires forall i :: 0 <= i < |n| ==> LowerChar(n[i]) == n[i]
    requires n[|n| - 1] == 'm'
    ensures NormalizeHost(raw) == n && n != raw && Key(n) == n && !HasPrefix(n, "*.")
  {
    assert raw[|raw| - 1] == raw[1..][|raw| - 2] == n[1..][|raw| - 2] == 'm';
    TrimIdentity(raw);
    CapitalLower(raw, n);
  }

  lemma CapitalLower(raw: string, n: string)
    requires |raw| == |n| > 0 && raw[0] == 'E' && n[0] == 'e' && raw[1..] == n[1..]
    requires forall i :: 0 <= i < |n| ==> LowerChar(n[i]) == n[i]
    ensures Lower(raw) == n && Lower(n) == n
  {
    LowerIff(n);
    forall i | 0 <= i < |raw| ensures LowerChar(raw[i]) == n[i] {
      if i > 0 {
        assert raw[i] == raw[1..][i - 1] == n[1..][i - 1];
      }
    }
  }

  // ---- wildcards as keys

  lemma WildcardOfShortKey<V>(overrides: map<string, V>, key: string)
    requires HasPrefix(key, "*.") && |Split(key, '.')| == 2 && key !in overrides
    ensures WildcardFrom(overrides, key, 1) == None
  {
    FirstLabelStar(key);
    assert "*." + Tail(key, 1) == key;
  }

  /** A key starting with `*.` is `*.` followed by its tail from the second label. */
  lemma FirstLabelStar(key: string)
    requires HasPrefix(key, "*.")
    ensures |Split(key, '.')| >= 2 && key == "*." + Tail(key, 1)
  {
    var rest := key[2..];
    assert key == "*" + ['.'] + rest;
    SplitHead("*", rest, '.');
    JoinSplit(rest, '.');
    assert Split(key, '.')[1..] == Split(rest, '.');
  }

  lemma OnlyAbove<V>(overrides: map<string, V>, key: string)
    requires HasPrefix(key, "*.") && |Split(key, '.')| >= 3 && overrides.Keys == {"*." + Tail(key, 2)}
    ensures key !in overrides && WildcardFrom(overrides, key, 1) == Some("*." + Tail(key, 2))
  {
    FirstLabelStar(key);
    TailsShrink(key, 1, 2);
    assert |"*." + Tail(key, 1)| > |"*." + Tail(key, 2)|;
    assert WildcardFrom(overrides, key, 1) == WildcardFrom(overrides, key, 2);
  }

  lemma KindOfBlocked()
    ensures KindOf("blocked") == Blocked
  {
    TrimIdentity("blocked");
    LowerOfHost("blocked");
  }

  lemma KindOfTunnel()
    ensures KindOf("tunnel") == Tunnel
  {
    TrimIdentity("tunnel");
    LowerOfHost("tunnel");
  }

  lemma TailIsSuffix(key: string, i: nat)
    requires 0 < i < |Split(key, '.')|
    ensures HasSuffix(key, "." + Tail(key, i))
  {
    var labels := Split(key, '.');
    JoinSplit(key, '.');
    assert labels[..i] + labels[i..] == labels;
    TailBehind(key, labels[..i], labels[i..]);
  }

  /** Putting `*.` in front of a tail of a normalised key gives a normalised key. */
  lemma CleanSuffix(key: string, tail: string)
    requires NormalizeHost(key) == key && HasSuffix(key, "." + tail)
    ensures NormalizeHost("*." + tail) == "*." + tail
  {
    var s := "*." + tail;
    CleanKeyShape(key);
    StarTail(key, tail);
    TrimIdentity(s);
    assert Lower(s) == s;
  }

  lemma StarTail(key: string, tail: string)
    requires HasSuffix(key, "." + tail) && key[|key| - 1] != '.' && !IsSpace(key[|key| - 1])
    requires forall i :: 0 <= i < |key| ==> LowerChar(key[i]) == key[i]
    ensures var s := "*." + tail;
            s[|s| - 1] != '.' && !IsSpace(s[|s| - 1]) && forall i :: 0 <= i < |s| ==> LowerChar(s[i]) == s[i]
  {
    var s := "*." + tail;
    var from := key[|key| - |tail| - 1..];
    assert from == "." + tail;
    assert from[|from| - 1] == key[|key| - 1];
    assert tail == from[1..];
    assert tail != "" && s[|s| - 1] == key[|key| - 1];
    forall i | 0 <= i < |s| ensures LowerChar(s[i]) == s[i] {
      if i >= 2 {
        assert s[i] == from[i - 1] == key[|key| - |tail| - 1 + (i - 1)];
      }
    }
  }

  lemma CleanKeyShape(key: string)
    requires NormalizeHost(key) == key && key != ""
    ensures key[|key| - 1] != '.' && !IsSpace(key[|key| - 1])
    ensures forall i :: 0 <= i < |key| ==> LowerChar(key[i]) == key[i]
  {
  }

  /** A normalised key is its own lookup key. */
  lemma CleanKey(key: string)
    requires NormalizeHost(key) == key
    ensures Key(key) == key
  {
    if key != "" {
      CleanKeyShape(key);
      assert Lower(key) == key;
    }
  }

  /** Override keys in normal form. */
  predicate CleanKeys(t: Table) {
    forall k :: k in t.overrides ==> k != "" && NormalizeHost(k) == k
  }

  /** Tables in normal form read alike. */
  lemma CleanKeysSameEffect(t: Table)
    requires CleanKeys(t)
    ensures SameEffect(t.overrides)
  {
    FixedFormsSameReading(Kinds(t.overrides), NormalizeHost, Lookable);
  }

  lemma FixedFormsSameReading(kinds: map<string, Route>, form: string -> string, lookable: string -> bool)
    requires forall g :: g in kinds ==> g != "" && form(g) == g
    ensures SameReading(kinds, form, lookable)
  {
    forall g | g in kinds ensures Hit(kinds, g) == Some(kinds[g]) && Hit(Normal(kinds, form), g) == Some(kinds[g]) {
      HitPresent(kinds, g);
      assert form(g) == g;
      HitPresent(Normal(kinds, form), g);
    }
  }

  /** A table in normal form on which the two disagree, for a wildcard key with a wildcard above it. */
  lemma OnlyRuleAbove(key: string, norm: Normalizer, blocked: string, tunnel: string)
    returns (t: Table, compiled: map<string, Route>)
    requires NormalizeHost(key) == key && HasPrefix(key, "*.") && |Split(key, '.')| >= 3
    requires KindOf(blocked) == Blocked && FinalOf(tunnel) == Tunnel
    ensures CleanKeys(t) && OverridesFrom(compiled, t.overrides)
    ensures RelayRoute(compiled, t, norm, key) == Tunnel && ResolveRoute(t, norm, key) == Blocked
  {
    var above := "*." + Tail(key, 2);
    t, compiled := Table(map[above := blocked], [], tunnel), map[above := Blocked];
    AboveIsNormal(key);
    OneKind(above, blocked);
    CleanKey(key);
    RuleAboveInTable(key, above, t, compiled, norm);
  }

  lemma AboveIsNormal(key: string)
    requires NormalizeHost(key) == key && |Split(key, '.')| >= 3
    ensures NormalizeHost("*." + Tail(key, 2)) == "*." + Tail(key, 2)
  {
    TailIsSuffix(key, 2);
    CleanSuffix(key, Tail(key, 2));
  }

  lemma RuleAboveInTable(key: string, above: string, t: Table, compiled: map<string, Route>, norm: Normalizer)
    requires Key(key) == key && HasPrefix(key, "*.") && |Split(key, '.')| >= 3
    requires above == "*." + Tail(key, 2) && NormalizeHost(above) == above
    requires t.overrides.Keys == {above} && Kinds(t.overrides) == compiled == map[above := Blocked]
    requires t.groups == [] && FinalOf(t.final) == Tunnel
    ensures CleanKeys(t) && OverridesFrom(compiled, t.overrides)
    ensures RelayRoute(compiled, t, norm, key) == Tunnel && ResolveRoute(t, norm, key) == Blocked
  {
    CleanAlone(t, above);
    CleanFiled(t, compiled);
    AnswersAbove(compiled, key, t.final, norm);
    AnswersInTable(t, compiled, norm, key);
  }

  lemma CleanAlone(t: Table, above: string)
    requires t.overrides.Keys == {above} && above != "" && NormalizeHost(above) == above
    ensures CleanKeys(t)
  {
  }

  lemma CleanFiled(t: Table, compiled: map<string, Route>)
    requires CleanKeys(t) && compiled == Kinds(t.overrides)
    ensures OverridesFrom(compiled, t.overrides)
  {
    FiledUnchanged(compiled, NormalizeHost);
  }

  lemma AnswersInTable(t: Table, compiled: map<string, Route>, norm: Normalizer, key: string)
    requires t.groups == [] && Kinds(t.overrides) == compiled && Key(key) == key && HasPrefix(key, "*.")
    ensures RelayRoute(compiled, t, norm, key) == Resolve(compiled, [], t.final, norm, key, false)
    ensures ResolveRoute(t, norm, key) == Resolve(compiled, [], t.final, norm, key, true)
  {
  }

  lemma FiledUnchanged(kinds: map<string, Route>, form: string -> string)
    requires forall k :: k in kinds ==> k != "" && form(k) == k
    ensures Files(kinds, kinds, form)
  {
  }

  lemma AnswersAbove(kinds: map<string, Route>, key: string, tunnel: string, norm: Normalizer)
    requires HasPrefix(key, "*.") && |Split(key, '.')| >= 3 && kinds == map["*." + Tail(key, 2) := Blocked] &&
             FinalOf(tunnel) == Tunnel
    ensures Resolve(kinds, [], tunnel, norm, key, false) == Tunnel &&
            Resolve(kinds, [], tunnel, norm, key, true) == Blocked
  {
    OnlyAbove(kinds, key);
  }

  /** Main result: on the tables where hosts agree, a normalised key is resolved alike by both if and only if it
      is not a wildcard with at least three labels. */
  lemma KeysAgreeIff(norm: Normalizer, key: string)
    requires NormalizeHost(key) == key
    ensures (forall t: Table, compiled: map<string, Route> ::
               SameEffect(t.overrides) && OverridesFrom(compiled, t.overrides) ==>
               RelayRoute(compiled, t, norm, key) == ResolveRoute(t, norm, key)) <==>
            !(HasPrefix(key, "*.") && |Split(key, '.')| >= 3)
  {
    if HasPrefix(key, "*.") && |Split(key, '.')| >= 3 {
      KindOfBlocked();
      KindOfTunnel();
      assert FinalOf("tunnel") == Tunnel;
      var blocked, tunnel :| KindOf(blocked) == Blocked && FinalOf(tunnel) == Tunnel;
      var t, compiled := OnlyRuleAbove(key, norm, blocked, tunnel);
      CleanKeysSameEffect(t);
    } else {
      forall t: Table, compiled: map<string, Route> | SameEffect(t.overrides) && OverridesFrom(compiled, t.overrides)
        ensures RelayRoute(compiled, t, norm, key) == ResolveRoute(t, norm, key)
      {
        SameAnswerForKey(t, compiled, norm, key);
      }
    }
  }

  lemma SameAnswerForKey(t: Table, compiled: map<string, Route>, norm: Normalizer, key: string)
    requires NormalizeHost(key) == key && !(HasPrefix(key, "*.") && |Split(key, '.')| >= 3)
    requires SameEffect(t.overrides) && OverridesFrom(compiled, t.overrides)
    ensures RelayRoute(compiled, t, norm, key) == ResolveRoute(t, norm, key)
  {
    CleanKey(key);
    NormalIsLookable(key);
    HitsAgree(t.overrides, compiled, key);
    ResolveIsHit(compiled, t.groups, t.final, norm, key);
    ResolveIsHit(Kinds(t.overrides), t.groups, t.final, norm, key);
    if HasPrefix(key, "*.") {
      FirstLabelStar(key);
      if key !in compiled {
        WildcardOfShortKey(compiled, key);
      }
    }
  }
}
