/**
 The service catalog index: label-walk map lookups, compared with a linear scan of the catalog,
 and the suggestions built on them.
 */
module CatalogIndex {
  import opened Wrappers
  import opened Text
  import opened Scopes

  /** One catalog line: the scope its text normalises to, if any, and the service that lists it. */
  datatype Line = Line(scope: Option<string>, owner: nat)

  // ---- the linear scan

  /** Some line has this scope. */
  predicate Listed(lines: seq<Line>, scope: string) {
    exists i :: 0 <= i < |lines| && lines[i].scope == Some(scope)
  }

  /** The first service listing a scope. */
  function FirstOwner(lines: seq<Line>, scope: string): nat
    requires Listed(lines, scope)
  {
    var n := |lines| - 1;
    if Listed(lines[..n], scope) then FirstOwner(lines[..n], scope) else lines[n].owner
  }

  /** An exact scope beats a suffix, and a longer suffix beats a shorter one. */
  predicate Better(a: string, b: string) {
    if IsExact(b) then false else IsExact(a) || |a| > |b|
  }

  /** The best of the lines that match, taken one by one. */
  function Scan(lines: seq<Line>, host: string): Option<string> {
    if lines == [] then None
    else
      var best := Scan(lines[..|lines| - 1], host);
      var scope := lines[|lines| - 1].scope;
      if scope.None? || !Covers(scope.value, Key(host)) then best
      else if best.None? || Better(scope.value, best.value) then scope
      else best
  }

  /** What the catalog identifies a host as; wildcard hosts are never identified. */
  function LinearIdentify(lines: seq<Line>, host: string): Option<string> {
    if HasPrefix(Key(host), "*.") then None else Scan(lines, host)
  }

  /** A listed scope that covers the host and is beaten by no other. */
  ghost predicate IsBest(lines: seq<Line>, host: string, scope: string) {
    && Listed(lines, scope) && Covers(scope, Key(host))
    && forall s :: Listed(lines, s) && Covers(s, Key(host)) ==> !Better(s, scope)
  }

  /** Every scope is in normal form. */
  ghost predicate AllNormal(lines: seq<Line>, psl: Registrable) {
    forall i :: 0 <= i < |lines| && lines[i].scope.Some? ==> Normal(lines[i].scope.value, psl)
  }

  ghost predicate Normal(scope: string, psl: Registrable) {
    NormalizeDomain(scope, psl) == Some(scope) && !IsExact(ScopeHost(scope))
  }

  lemma ListedSnoc(lines: seq<Line>, line: Line, scope: string)
    ensures Listed(lines + [line], scope) <==> Listed(lines, scope) || line.scope == Some(scope)
  {
    var all := lines + [line];
    if i :| 0 <= i < |lines| && lines[i].scope == Some(scope) {
      assert all[i] == lines[i];
    }
    assert all[|lines|] == line;
  }

  /** The scan finds a best scope exactly when some line covers the host. */
  lemma {:induction false} ScanFindsBest(lines: seq<Line>, host: string)
    ensures Scan(lines, host).Some? ==> IsBest(lines, host, Scan(lines, host).value)
    ensures Scan(lines, host).None? ==> forall s :: Listed(lines, s) ==> !Covers(s, Key(host))
  {
    if lines != [] {
      var init, last := lines[..|lines| - 1], lines[|lines| - 1];
      assert lines == init + [last];
      ScanFindsBest(init, host);
      forall s
        ensures Listed(lines, s) <==> Listed(init, s) || last.scope == Some(s)
      {
        ListedSnoc(init, last, s);
      }
    }
  }

  /** Best is the exact scope if it is listed, and else the longest scope that covers the host. */
  lemma BestIff(lines: seq<Line>, host: string, scope: string)
    ensures IsBest(lines, host, scope) <==>
            if Listed(lines, "=" + Key(host)) then scope == "=" + Key(host)
            else && Listed(lines, scope) && Covers(scope, Key(host))
                 && forall s :: Listed(lines, s) && Covers(s, Key(host)) ==> |s| <= |scope|
  {
    var exact := "=" + Key(host);
    assert IsExact(exact) && exact[1..] == Key(host);
    forall s | IsExact(s) && Covers(s, Key(host)) ensures s == exact {
      assert s == "=" + s[1..];
    }
  }

  /** There is at most one best scope. */
  lemma BestIsUnique(lines: seq<Line>, host: string, a: string, b: string)
    requires IsBest(lines, host, a) && IsBest(lines, host, b)
    ensures a == b
  {
    if IsExact(a) && IsExact(b) {
      assert a == "=" + ScopeHost(a) && b == "=" + ScopeHost(b);
    } else if !IsExact(a) && !IsExact(b) {
      UnderSameLength(Key(host), a, b);
    }
  }

  // ---- the index

  /** How a line's text becomes a scope. */
  type Normalizer = string -> Option<string>

  function ScopeNormalizer(psl: Registrable): Normalizer {
    input => NormalizeDomain(input, psl)
  }

  datatype Maps = Maps(exact: map<string, string>, suffix: map<string, string>, owner: map<string, nat>)

  /** The maps hold exactly the listed scopes, and each scope's first owner. */
  ghost predicate Holds(m: Maps, lines: seq<Line>) {
    && (forall k :: k in m.exact <==> Listed(lines, "=" + k))
    && (forall k :: k in m.exact ==> m.exact[k] == "=" + k)
    && (forall k :: k in m.suffix <==> Listed(lines, k) && !IsExact(k))
    && (forall k :: k in m.suffix ==> m.suffix[k] == k)
    && (forall s :: s in m.owner <==> Listed(lines, s))
    && (forall s :: s in m.owner ==> m.owner[s] == FirstOwner(lines, s))
  }

  lemma OwnerSnoc(lines: seq<Line>, line: Line, scope: string)
    requires Listed(lines, scope) || line.scope == Some(scope)
    ensures Listed(lines + [line], scope)
    ensures FirstOwner(lines + [line], scope) == if Listed(lines, scope) then FirstOwner(lines, scope) else line.owner
  {
    ListedSnoc(lines, line, scope);
    assert (lines + [line])[..|lines|] == lines;
  }

  /** A line without a scope, or repeating one, changes nothing. */
  lemma HoldsRepeat(m: Maps, lines: seq<Line>, line: Line)
    requires Holds(m, lines)
    requires line.scope.Some? ==> Listed(lines, line.scope.value)
    ensures Holds(m, lines + [line])
  {
    forall s
      ensures Listed(lines + [line], s) <==> Listed(lines, s)
      ensures Listed(lines, s) ==> FirstOwner(lines + [line], s) == FirstOwner(lines, s)
    {
      ListedSnoc(lines, line, s);
      if Listed(lines, s) {
        OwnerSnoc(lines, line, s);
      }
    }
  }

  lemma NewListed(lines: seq<Line>, line: Line, scope: string)
    requires line.scope == Some(scope) && !Listed(lines, scope)
    ensures forall s :: Listed(lines + [line], s) <==> Listed(lines, s) || s == scope
    ensures forall s :: Listed(lines, s) || s == scope ==>
              Listed(lines + [line], s) &&
              FirstOwner(lines + [line], s) == if s == scope then line.owner else FirstOwner(lines, s)
  {
    forall s
      ensures Listed(lines + [line], s) <==> Listed(lines, s) || s == scope
      ensures Listed(lines, s) || s == scope ==>
                Listed(lines + [line], s) &&
                FirstOwner(lines + [line], s) == if s == scope then line.owner else FirstOwner(lines, s)
    {
      ListedSnoc(lines, line, s);
      if Listed(lines, s) || s == scope {
        OwnerSnoc(lines, line, s);
      }
    }
  }

  /** A new exact scope enters the exact map and the owners. */
  lemma HoldsNewExact(m: Maps, lines: seq<Line>, line: Line, key: string)
    requires Holds(m, lines)
    requires line.scope == Some("=" + key) && !Listed(lines, "=" + key)
    ensures Holds(Maps(m.exact[key := "=" + key], m.suffix, m.owner["=" + key := line.owner]), lines + [line])
  {
    NewListed(lines, line, "=" + key);
    ExactMore(m, lines, lines + [line], key);
  }

  lemma ExactMore(m: Maps, lines: seq<Line>, grown: seq<Line>, key: string)
    requires Holds(m, lines)
    requires forall s :: Listed(grown, s) <==> Listed(lines, s) || s == "=" + key
    ensures forall k :: k in m.exact || k == key <==> Listed(grown, "=" + k)
    ensures IsExact("=" + key)
  {
    forall k ensures "=" + k == "=" + key ==> k == key {
      assert ("=" + k)[1..] == k && ("=" + key)[1..] == key;
    }
  }

  /** A new suffix scope enters the suffix map and the owners. */
  lemma HoldsNewSuffix(m: Maps, lines: seq<Line>, line: Line, scope: string)
    requires Holds(m, lines) && !IsExact(scope)
    requires line.scope == Some(scope) && !Listed(lines, scope)
    ensures Holds(Maps(m.exact, m.suffix[scope := scope], m.owner[scope := line.owner]), lines + [line])
  {
    NewListed(lines, line, scope);
    ExactUntouched(m, lines, lines + [line], scope);
  }

  lemma ExactUntouched(m: Maps, lines: seq<Line>, grown: seq<Line>, scope: string)
    requires Holds(m, lines) && !IsExact(scope)
    requires forall s :: Listed(grown, s) <==> Listed(lines, s) || s == scope
    ensures forall k :: k in m.exact <==> Listed(grown, "=" + k)
  {
    assert forall k :: IsExact("=" + k);
  }

  class Index {
    const norm: Normalizer
    var exact: map<string, string>
    var suffix: map<string, string>
    var owner: map<string, nat>
    /** Every line added so far. */
    ghost var lines: seq<Line>

    constructor (norm: Normalizer)
      ensures Valid() && lines == [] && this.norm == norm
    {
      this.norm := norm;
      exact, suffix, owner, lines := map[], map[], map[], [];
    }

    ghost predicate Valid()
      reads this
    {
      Holds(Maps(exact, suffix, owner), lines)
    }

    method Add(input: string, o: nat)
      requires Valid()
      modifies this
      ensures Valid() && lines == old(lines) + [Line(norm(input), o)]
    {
      Enter(norm(input), o);
    }

    /** Enters one line. */
    method Enter(n: Option<string>, o: nat)
      requires Valid()
      modifies this
      ensures Valid() && lines == old(lines) + [Line(n, o)]
    {
      if n.None? {
        HoldsRepeat(Maps(exact, suffix, owner), lines, Line(n, o));
        lines := lines + [Line(n, o)];
      } else if IsExact(n.value) {
        assert n.value == "=" + n.value[1..];
        EnterExact(n.value[1..], o);
      } else {
        EnterSuffix(n.value, o);
      }
    }

    method EnterExact(key: string, o: nat)
      requires Valid()
      modifies this
      ensures Valid() && lines == old(lines) + [Line(Some("=" + key), o)]
    {
      ghost var line := Line(Some("=" + key), o);
      if key in exact {
        HoldsRepeat(Maps(exact, suffix, owner), lines, line);
        lines := lines + [line];
        return;
      }
      HoldsNewExact(Maps(exact, suffix, owner), lines, line, key);
      exact, owner, lines := exact[key := "=" + key], owner["=" + key := o], lines + [line];
    }

    method EnterSuffix(scope: string, o: nat)
      requires Valid() && !IsExact(scope)
      modifies this
      ensures Valid() && lines == old(lines) + [Line(Some(scope), o)]
    {
      ghost var line := Line(Some(scope), o);
      if scope in suffix {
        HoldsRepeat(Maps(exact, suffix, owner), lines, line);
      } else {
        HoldsNewSuffix(Maps(exact, suffix, owner), lines, line, scope);
        suffix := suffix[scope := scope];
        owner := owner[scope := o];
      }
      lines := lines + [line];
    }

    /** The matched scope: exact first, then the first hit of the label walk. */
    method Identify(host: string) returns (r: Option<string>)
      requires Valid()
      ensures r == LinearIdentify(lines, host)
    {
      var key := Key(host);
      if HasPrefix(key, "*.") {
        return None;
      }
      if key in exact {
        ExactHit(Maps(exact, suffix, owner), lines, host);
        return Some(exact[key]);
      }
      var i, found := WalkLabels(key);
      if found {
        FirstHit(Maps(exact, suffix, owner), lines, host, i);
        return Some(suffix[Join(Split(key, '.')[i..], '.')]);
      }
      NoHit(Maps(exact, suffix, owner), lines, host);
      return None;
    }

    /** The first label from which the rest of the key is a suffix scope. */
    method WalkLabels(key: string) returns (i: nat, found: bool)
      ensures found ==> i < |Split(key, '.')| && Tail(key, i) in suffix && forall j :: 0 <= j < i ==>
              Tail(key, j) !in suffix
      ensures !found ==> forall j :: 0 <= j < |Split(key, '.')| ==> Tail(key, j) !in suffix
    {
      var labels := Split(key, '.');
      i := 0;
      while i < |labels|
        invariant i <= |labels|
        invariant forall j :: 0 <= j < i ==> Tail(key, j) !in suffix
      {
        if Join(labels[i..], '.') in suffix {
          return i, true;
        }
        i := i + 1;
      }
      found := false;
    }
  }

  // ---- loading the catalog

  function ServiceLines(domains: seq<string>, norm: Normalizer, o: nat): seq<Line> {
    if domains == [] then []
    else
      var n := |domains| - 1;
      ServiceLines(domains[..n], norm, o) + [Line(norm(domains[n]), o)]
  }

  /** The lines of a catalog: each service's domains, services in catalog order. */
  function CatalogLines(services: seq<seq<string>>, norm: Normalizer): seq<Line> {
    if services == [] then []
    else
      var n := |services| - 1;
      CatalogLines(services[..n], norm) + ServiceLines(services[n], norm, n)
  }

  method Load(services: seq<seq<string>>, norm: Normalizer) returns (index: Index)
    ensures fresh(index) && index.Valid() && index.norm == norm
    ensures index.lines == CatalogLines(services, norm)
  {
    index := new Index(norm);
    for i := 0 to |services|
      invariant fresh(index) && index.Valid() && index.norm == norm
      invariant index.lines == CatalogLines(services[..i], norm)
    {
      assert services[..i+1][..i] == services[..i];
      AddService(index, services[i], i);
    }
    assert services[..|services|] == services;
  }

  method AddService(index: Index, domains: seq<string>, o: nat)
    requires index.Valid()
    modifies index
    ensures index.Valid() && index.lines == old(index.lines) + ServiceLines(domains, index.norm, o)
  {
    ghost var before := index.lines;
    for j := 0 to |domains|
      invariant index.Valid() && index.lines == before + ServiceLines(domains[..j], index.norm, o)
    {
      assert domains[..j+1][..j] == domains[..j];
      index.Add(domains[j], o);
    }
    assert domains[..|domains|] == domains;
  }

  /** Some domain of a service normalises to the scope. */
  predicate ServiceLists(domains: seq<string>, norm: Normalizer, scope: string) {
    exists i :: 0 <= i < |domains| && norm(domains[i]) == Some(scope)
  }

  lemma {:induction false} ServiceLinesAt(domains: seq<string>, norm: Normalizer, o: nat)
    ensures |ServiceLines(domains, norm, o)| == |domains|
    ensures forall i :: 0 <= i < |domains| ==> ServiceLines(domains, norm, o)[i] == Line(norm(domains[i]), o)
  {
    if domains != [] {
      ServiceLinesAt(domains[..|domains| - 1], norm, o);
    }
  }

  lemma ListedConcat(a: seq<Line>, b: seq<Line>, scope: string)
    ensures Listed(a + b, scope) <==> Listed(a, scope) || Listed(b, scope)
  {
    if i :| 0 <= i < |a| && a[i].scope == Some(scope) {
      assert (a + b)[i] == a[i];
    }
    if i :| 0 <= i < |b| && b[i].scope == Some(scope) {
      assert (a + b)[|a| + i] == b[i];
    }
  }

  lemma {:induction false} FirstOwnerConcat(a: seq<Line>, b: seq<Line>, scope: string, o: nat)
    requires Listed(a + b, scope) && forall i :: 0 <= i < |b| ==> b[i].owner == o
    ensures FirstOwner(a + b, scope) == if Listed(a, scope) then FirstOwner(a, scope) else o
  {
    if b == [] {
      assert a + b == a;
    } else {
      var n := |b| - 1;
      assert (a + b)[..|a + b| - 1] == a + b[..n];
      ListedConcat(a, b[..n], scope);
      if Listed(a + b[..n], scope) {
        FirstOwnerConcat(a, b[..n], scope, o);
      }
    }
  }

  lemma ServiceListedIff(domains: seq<string>, norm: Normalizer, o: nat, scope: string)
    ensures Listed(ServiceLines(domains, norm, o), scope) <==> ServiceLists(domains, norm, scope)
    ensures forall i :: 0 <= i < |ServiceLines(domains, norm, o)| ==> ServiceLines(domains, norm, o)[i].owner == o
  {
    ServiceLinesAt(domains, norm, o);
    if i :| 0 <= i < |domains| && norm(domains[i]) == Some(scope) {
      assert ServiceLines(domains, norm, o)[i].scope == Some(scope);
    }
  }

  /** The owner of a scope is the first service of the catalog that lists it. */
  lemma {:induction false} OwnerIsFirstService(services: seq<seq<string>>, norm: Normalizer, scope: string)
    ensures Listed(CatalogLines(services, norm), scope) <==>
            exists k :: 0 <= k < |services| && ServiceLists(services[k], norm, scope)
    ensures Listed(CatalogLines(services, norm), scope) ==>
              var o := FirstOwner(CatalogLines(services, norm), scope);
              && o < |services| && ServiceLists(services[o], norm, scope)
              && forall k :: 0 <= k < o ==> !ServiceLists(services[k], norm, scope)
  {
    if services != [] {
      var n := |services| - 1;
      var a, b := CatalogLines(services[..n], norm), ServiceLines(services[n], norm, n);
      OwnerIsFirstService(services[..n], norm, scope);
      ServiceListedIff(services[n], norm, n, scope);
      ListedConcat(a, b, scope);
      if Listed(a + b, scope) {
        FirstOwnerConcat(a, b, scope, n);
      }
      if Listed(a, scope) {
        var k :| 0 <= k < n && ServiceLists(services[..n][k], norm, scope);
        assert ServiceLists(services[k], norm, scope);
      }
    }
  }

  /** Loading with the scope normaliser leaves only scopes in normal form. */
  lemma CatalogIsNormal(services: seq<seq<string>>, psl: Registrable)
    ensures AllNormal(CatalogLines(services, ScopeNormalizer(psl)), psl)
  {
    var norm := ScopeNormalizer(psl);
    forall s | Listed(CatalogLines(services, norm), s)
      ensures Normal(s, psl)
    {
      OwnerIsFirstService(services, norm, s);
      var k :| 0 <= k < |services| && ServiceLists(services[k], norm, s);
      var i :| 0 <= i < |services[k]| && norm(services[k][i]) == Some(s);
      NormalizeIdempotent(services[k][i], psl);
      NormalizedShape(services[k][i], psl);
    }
    AllListedNormal(CatalogLines(services, norm), psl);
  }

  lemma AllListedNormal(lines: seq<Line>, psl: Registrable)
    requires forall s :: Listed(lines, s) ==> Normal(s, psl)
    ensures AllNormal(lines, psl)
  {
    forall i | 0 <= i < |lines| && lines[i].scope.Some?
      ensures Normal(lines[i].scope.value, psl)
    {
      assert Listed(lines, lines[i].scope.value);
    }
  }

  // ---- the walk against the scan

  lemma BestIsScan(lines: seq<Line>, host: string, scope: string)
    requires IsBest(lines, host, scope)
    ensures Scan(lines, host) == Some(scope)
  {
    ScanFindsBest(lines, host);
    BestIsUnique(lines, host, scope, Scan(lines, host).value);
  }

  lemma ExactHit(m: Maps, lines: seq<Line>, host: string)
    requires Holds(m, lines) && Key(host) in m.exact
    ensures Scan(lines, host) == Some(m.exact[Key(host)])
  {
    assert ("=" + Key(host))[1..] == Key(host);
    BestIsScan(lines, host, "=" + Key(host));
  }

  lemma ExactScopeInMap(m: Maps, lines: seq<Line>, host: string, s: string)
    requires Holds(m, lines) && Listed(lines, s) && IsExact(s) && Covers(s, Key(host))
    ensures Key(host) in m.exact
  {
    assert s == "=" + Key(host);
  }

  /** The first hit of the walk is the longest covering suffix. */
  lemma FirstHit(m: Maps, lines: seq<Line>, host: string, i: nat)
    requires Holds(m, lines) && Key(host) !in m.exact
    requires i < |Split(Key(host), '.')| && Tail(Key(host), i) in m.suffix
    requires forall j :: 0 <= j < i ==> Tail(Key(host), j) !in m.suffix
    ensures Scan(lines, host) == Some(Tail(Key(host), i))
  {
    var key := Key(host);
    TailUnder(key, i);
    forall s | Listed(lines, s) && Covers(s, key)
      ensures !Better(s, Tail(key, i))
    {
      if IsExact(s) {
        ExactScopeInMap(m, lines, host, s);
      } else {
        UnderIffTail(key, s);
        var j :| 0 <= j < |Split(key, '.')| && Tail(key, j) == s;
        if i < j {
          TailsShrink(key, i, j);
        }
      }
    }
    BestIsScan(lines, host, Tail(key, i));
  }

  lemma NoHit(m: Maps, lines: seq<Line>, host: string)
    requires Holds(m, lines) && Key(host) !in m.exact
    requires forall j :: 0 <= j < |Split(Key(host), '.')| ==> Tail(Key(host), j) !in m.suffix
    ensures Scan(lines, host) == None
  {
    var key := Key(host);
    ScanFindsBest(lines, host);
    forall s | Listed(lines, s)
      ensures !Covers(s, key)
    {
      if Covers(s, key) {
        if IsExact(s) {
          ExactScopeInMap(m, lines, host, s);
        } else {
          UnderIffTail(key, s);
        }
      }
    }
  }

  // ---- main results about identification

  /** A host is identified exactly when some listed scope covers it, wildcard hosts aside, and then by
      one that no other covering scope beats. */
  lemma IdentifiedIff(lines: seq<Line>, host: string)
    ensures LinearIdentify(lines, host).Some? <==>
            !HasPrefix(Key(host), "*.") && exists s :: Listed(lines, s) && Covers(s, Key(host))
    ensures LinearIdentify(lines, host).Some? ==> IsBest(lines, host, LinearIdentify(lines, host).value)
  {
    ScanFindsBest(lines, host);
  }

  /** Being listed and covering is being matched, as a rule group would match the catalog's own scope. */
  lemma ListedMatches(lines: seq<Line>, psl: Registrable, host: string, scope: string)
    requires AllNormal(lines, psl) && Listed(lines, scope)
    ensures MatchesDomain(host, scope, psl) <==> Covers(scope, Key(host))
  {
    var i :| 0 <= i < |lines| && lines[i].scope == Some(scope);
    assert Normal(scope, psl);
  }

  // ---- suggestions

  /** A rule group is its list of domains. */
  type Group = seq<string>

  predicate Covered(host: string, existing: seq<Group>, psl: Registrable) {
    exists g, d :: g in existing && d in g && MatchesDomain(host, d, psl)
  }

  /** The service a host is suggested for: none if it is covered or not identified. */
  function ServiceOf(lines: seq<Line>, psl: Registrable, existing: seq<Group>, host: string): Option<nat> {
    if Covered(host, existing, psl) then None
    else
      var scope := LinearIdentify(lines, host);
      if scope.None? then None
      else
        assert Listed(lines, scope.value) by {
          IdentifiedIff(lines, host);
        }
        Some(FirstOwner(lines, scope.value))
  }

  type Service = string -> Option<nat>

  function Services(lines: seq<Line>, psl: Registrable, existing: seq<Group>): Service {
    host => ServiceOf(lines, psl, existing, host)
  }

  /** The hosts of one service, in the order given. */
  function HostsOf(service: Service, hosts: seq<string>, o: nat): seq<string> {
    if hosts == [] then []
    else
      var n := |hosts| - 1;
      HostsOf(service, hosts[..n], o) + (if service(hosts[n]) == Some(o) then [hosts[n]] else [])
  }

  /** The scopes the hosts of one service were identified by. */
  ghost function ScopesOf(service: Service, lines: seq<Line>, hosts: seq<string>, o: nat): set<string> {
    set h | h in hosts && service(h) == Some(o) :: LinearIdentify(lines, h).GetOr("")
  }

  datatype Suggestion = Suggestion(domains: set<string>, hosts: seq<string>)

  /** `found` groups the hosts by service. */
  ghost predicate Grouped(found: map<nat, Suggestion>, service: Service, lines: seq<Line>, hosts: seq<string>) {
    && (forall o: nat :: o in found <==> HostsOf(service, hosts, o) != [])
    && (forall o: nat :: o in found ==>
          found[o] == Suggestion(ScopesOf(service, lines, hosts, o), HostsOf(service, hosts, o)))
  }

  /** Groups the hosts no rule group covers under the service that lists their scope. */
  method SuggestServiceGroups(index: Index, psl: Registrable, hosts: seq<string>, existing: seq<Group>)
    returns (found: map<nat, Suggestion>)
    requires index.Valid()
    ensures Grouped(found, Services(index.lines, psl, existing), index.lines, hosts)
  {
    ghost var lines := index.lines;
    ghost var service := Services(lines, psl, existing);
    found := map[];
    for i := 0 to |hosts|
      invariant Grouped(found, service, lines, hosts[..i])
    {
      var h := hosts[i];
      assert hosts[..i+1] == hosts[..i] + [h];
      if Covered(h, existing, psl) {
        GroupedSkip(found, service, lines, hosts[..i], h);
        continue;
      }
      var scope := index.Identify(h);
      if scope.None? {
        GroupedSkip(found, service, lines, hosts[..i], h);
        continue;
      }
      IdentifiedIff(lines, h);
      var o := index.owner[scope.value];
      GroupedAdd(found, service, lines, hosts[..i], h, o);
      var e := if o in found then found[o] else Suggestion({}, []);
      found := found[o := Suggestion(e.domains + {scope.value}, e.hosts + [h])];
    }
    assert hosts[..|hosts|] == hosts;
  }

  lemma HostsSnoc(service: Service, lines: seq<Line>, hosts: seq<string>, h: string, o: nat)
    ensures HostsOf(service, hosts + [h], o) == HostsOf(service, hosts, o) + (if service(h) == Some(o) then [h] else [])
    ensures ScopesOf(service, lines, hosts + [h], o) ==
            ScopesOf(service, lines, hosts, o) +
            (if service(h) == Some(o) then {LinearIdentify(lines, h).GetOr("")} else {})
  {
    assert (hosts + [h])[..|hosts|] == hosts;
  }

  lemma GroupedSkip(found: map<nat, Suggestion>, service: Service, lines: seq<Line>, hosts: seq<string>,
                    h: string)
    requires Grouped(found, service, lines, hosts) && service(h) == None
    ensures Grouped(found, service, lines, hosts + [h])
  {
    forall o: nat
      ensures HostsOf(service, hosts + [h], o) == HostsOf(service, hosts, o)
      ensures ScopesOf(service, lines, hosts + [h], o) == ScopesOf(service, lines, hosts, o)
    {
      HostsSnoc(service, lines, hosts, h, o);
    }
  }

  lemma GroupedAdd(found: map<nat, Suggestion>, service: Service, lines: seq<Line>, hosts: seq<string>,
                   h: string, o: nat)
    requires Grouped(found, service, lines, hosts) && service(h) == Some(o)
    ensures var e := if o in found then found[o] else Suggestion({}, []);
            Grouped(found[o := Suggestion(e.domains + {LinearIdentify(lines, h).GetOr("")}, e.hosts + [h])],
                    service, lines, hosts + [h])
  {
    NoHostsNoScopes(service, lines, hosts, o);
    var e := if o in found then found[o] else Suggestion({}, []);
    var next := found[o := Suggestion(e.domains + {LinearIdentify(lines, h).GetOr("")}, e.hosts + [h])];
    forall p: nat
      ensures p in next <==> HostsOf(service, hosts + [h], p) != []
      ensures p in next ==>
                next[p] == Suggestion(ScopesOf(service, lines, hosts + [h], p), HostsOf(service, hosts + [h], p))
    {
      HostsSnoc(service, lines, hosts, h, p);
    }
  }

  lemma {:induction false} HostsOfIff(service: Service, hosts: seq<string>, o: nat, h: string)
    ensures h in HostsOf(service, hosts, o) <==> h in hosts && service(h) == Some(o)
    ensures service(h) == Some(o) ==> multiset(HostsOf(service, hosts, o))[h] == multiset(hosts)[h]
  {
    if hosts != [] {
      var n := |hosts| - 1;
      HostsOfIff(service, hosts[..n], o, h);
      assert hosts == hosts[..n] + [hosts[n]];
    }
  }

  lemma NoHostsNoScopes(service: Service, lines: seq<Line>, hosts: seq<string>, o: nat)
    ensures HostsOf(service, hosts, o) == [] ==> ScopesOf(service, lines, hosts, o) == {}
  {
    forall h | h in hosts && service(h) == Some(o)
      ensures h in HostsOf(service, hosts, o)
    {
      HostsOfIff(service, hosts, o, h);
    }
  }

  /** The suggestions partition the uncovered identifiable hosts: each such host is suggested, for one
      service only and as often as it was given; no other host is. */
  lemma SuggestionsPartition(lines: seq<Line>, psl: Registrable, existing: seq<Group>, hosts: seq<string>,
                             h: string)
    requires h in hosts
    ensures var service := Services(lines, psl, existing);
            && ((exists o: nat :: h in HostsOf(service, hosts, o)) <==>
                !Covered(h, existing, psl) && LinearIdentify(lines, h).Some?)
            && (forall o: nat, o': nat :: h in HostsOf(service, hosts, o) && h in HostsOf(service, hosts, o') ==>
                o == o')
            && (forall o: nat :: h in HostsOf(service, hosts, o) ==>
                  multiset(HostsOf(service, hosts, o))[h] == multiset(hosts)[h])
  {
    var service := Services(lines, psl, existing);
    forall o: nat
      ensures h in HostsOf(service, hosts, o) <==> service(h) == Some(o)
      ensures service(h) == Some(o) ==> multiset(HostsOf(service, hosts, o))[h] == multiset(hosts)[h]
    {
      HostsOfIff(service, hosts, o, h);
    }
    if service(h).Some? {
      assert h in HostsOf(service, hosts, service(h).value);
    }
  }

  /** Saving a suggestion as a rule group removes its hosts: in later rounds they belong to no service. */
  lemma SavedSuggestionIsSettled(lines: seq<Line>, psl: Registrable, existing: seq<Group>, hosts: seq<string>,
                                 o: nat, saved: Group, h: string, later: seq<string>, o': nat)
    requires AllNormal(lines, psl)
    requires forall s :: s in ScopesOf(Services(lines, psl, existing), lines, hosts, o) ==> s in saved
    requires h in HostsOf(Services(lines, psl, existing), hosts, o)
    ensures h !in HostsOf(Services(lines, psl, existing + [saved]), later, o')
  {
    var service := Services(lines, psl, existing);
    HostsOfIff(service, hosts, o, h);
    var s := LinearIdentify(lines, h).value;
    assert s in ScopesOf(service, lines, hosts, o);
    SavedScopeCovers(lines, psl, existing, saved, h, s);
    HostsOfIff(Services(lines, psl, existing + [saved]), later, o', h);
  }

  /** A rule group with the scope a host was identified by covers the host. */
  lemma SavedScopeCovers(lines: seq<Line>, psl: Registrable, existing: seq<Group>, saved: Group, h: string, s: string)
    requires AllNormal(lines, psl) && LinearIdentify(lines, h) == Some(s) && s in saved
    ensures Covered(h, existing + [saved], psl)
  {
    IdentifiedIff(lines, h);
    ListedMatches(lines, psl, h, s);
    assert saved in existing + [saved];
  }
}
