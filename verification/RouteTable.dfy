/**
 The relay's compiled route table against the display resolver of the desktop app.

 The relay indexes rule groups by scope and walks a destination's labels; the desktop app asks
 each group in turn. Both put per-host overrides first and the final route last.
 */
module RouteTable {
  import opened Wrappers
  import opened Text
  import opened Scopes
  import opened CatalogIndex
  import opened Routes

  datatype RouteGroup = RouteGroup(domains: seq<string>, route: string)

  datatype Table = Table(overrides: map<string, string>, groups: seq<RouteGroup>, final: string)

  function NormalizeHost(h: string): string {
    StripDot(Lower(Trim(h)))
  }

  // ---- the simple form: ask one after the other

  predicate GroupMatches(g: RouteGroup, norm: Normalizer, key: string) {
    exists i :: 0 <= i < |g.domains| && norm(g.domains[i]).Some? && Covers(norm(g.domains[i]).value, key)
  }

  /** The first group, from index `i` on, with a domain covering the key. */
  function FirstGroup(groups: seq<RouteGroup>, norm: Normalizer, key: string, i: nat): (r: Option<nat>)
    requires i <= |groups|
    ensures r.Some? ==> i <= r.value < |groups| && GroupMatches(groups[r.value], norm, key)
    ensures r.Some? ==> forall j :: i <= j < r.value ==> !GroupMatches(groups[j], norm, key)
    ensures r.None? ==> forall j :: i <= j < |groups| ==> !GroupMatches(groups[j], norm, key)
    decreases |groups| - i
  {
    if i == |groups| then None
    else if GroupMatches(groups[i], norm, key) then Some(i)
    else FirstGroup(groups, norm, key, i + 1)
  }

  /** The most specific `*.suffix` override, from label `i` on. */
  function WildcardFrom<V>(overrides: map<string, V>, key: string, i: nat): (r: Option<string>)
    requires i <= |Split(key, '.')|
    ensures r.Some? ==> r.value in overrides
    decreases |Split(key, '.')| - i
  {
    if i == |Split(key, '.')| then None
    else if "*." + Tail(key, i) in overrides then Some("*." + Tail(key, i))
    else WildcardFrom(overrides, key, i + 1)
  }

  /** The override that applies: the exact key, then a wildcard if those are considered. */
  function OverrideKey<V>(overrides: map<string, V>, key: string, wildcards: bool): (r: Option<string>)
    ensures r.Some? ==> r.value in overrides
  {
    if key in overrides then Some(key)
    else if wildcards then WildcardFrom(overrides, key, 1)
    else None
  }

  function Resolve(overrides: map<string, Route>, groups: seq<RouteGroup>, final: string, norm: Normalizer,
                   key: string, wildcards: bool): Route
  {
    var o := OverrideKey(overrides, key, wildcards);
    if o.Some? then overrides[o.value] else GroupRoute(groups, final, norm, key)
  }

  /** The first matching group's route, else the final one. */
  function GroupRoute(groups: seq<RouteGroup>, final: string, norm: Normalizer, key: string): Route {
    var g := FirstGroup(groups, norm, key, 0);
    if g.Some? then KindOf(groups[g.value].route) else FinalOf(final)
  }

  /** The overrides that can apply: neither side uses one with an empty key. */
  function Kinds(overrides: map<string, string>): map<string, Route> {
    map k | k in overrides && k != "" :: KindOf(overrides[k])
  }

  /** The desktop resolver: wildcards are considered for every host. */
  function ResolveRoute(t: Table, norm: Normalizer, host: string): Route {
    Resolve(Kinds(t.overrides), t.groups, t.final, norm, Key(host), true)
  }

  // ---- the compiled form

  function GroupDomains(groups: seq<RouteGroup>): (r: seq<seq<string>>)
    ensures |r| == |groups| && forall i :: 0 <= i < |groups| ==> r[i] == groups[i].domains
  {
    seq(|groups|, i requires 0 <= i < |groups| => groups[i].domains)
  }

  /** All scopes of all groups, owned by their group's index. */
  function GroupLines(groups: seq<RouteGroup>, norm: Normalizer): seq<Line> {
    CatalogLines(GroupDomains(groups), norm)
  }

  /** Both scope maps give the lowest group that has the scope. */
  ghost predicate ScopeMaps(exact: map<string, nat>, suffix: map<string, nat>, lines: seq<Line>) {
    && (forall k :: k in exact <==> Listed(lines, "=" + k))
    && (forall k :: k in exact ==> exact[k] == FirstOwner(lines, "=" + k))
    && (forall k :: k in suffix <==> Listed(lines, k) && !IsExact(k))
    && (forall k :: k in suffix ==> suffix[k] == FirstOwner(lines, k))
  }

  /** Every kept name has the kind of some key of its form, and no form but the empty one is lost. */
  ghost predicate Files(compiled: map<string, Route>, kinds: map<string, Route>, form: string -> string) {
    && (forall n :: n in compiled ==> n != "" && exists g :: g in kinds && form(g) == n && compiled[n] == kinds[g])
    && (forall g :: g in kinds && form(g) != "" ==> form(g) in compiled)
  }

  /** What compiling makes of the given overrides. */
  ghost predicate OverridesFrom(compiled: map<string, Route>, given: map<string, string>) {
    Files(compiled, Kinds(given), NormalizeHost)
  }

  lemma ScopeMapsRepeat(exact: map<string, nat>, suffix: map<string, nat>, lines: seq<Line>, line: Line)
    requires ScopeMaps(exact, suffix, lines)
    requires line.scope.Some? ==> Listed(lines, line.scope.value)
    ensures ScopeMaps(exact, suffix, lines + [line])
  {
    forall s
      ensures Listed(lines + [line], s) <==> Listed(lines, s)
      ensures Listed(lines, s) ==> FirstOwner(lines + [line], s) == FirstOwner(lines, s)
    {
      ListedSnoc(lines, line, s);
      if Listed(lines, s) {
        OwnerSnoc(lines, line, s);
      }
    }
  }

  lemma ScopeMapsExact(exact: map<string, nat>, suffix: map<string, nat>, lines: seq<Line>, line: Line,
                       key: string)
    requires ScopeMaps(exact, suffix, lines)
    requires line.scope == Some("=" + key) && !Listed(lines, "=" + key)
    ensures ScopeMaps(exact[key := line.owner], suffix, lines + [line])
  {
    NewListed(lines, line, "=" + key);
    assert forall k :: "=" + k == "=" + key ==> k == key by {
      forall k | "=" + k == "=" + key
        ensures k == key
      {
        assert ("=" + k)[1..] == k && ("=" + key)[1..] == key;
      }
    }
    assert IsExact("=" + key);
  }

  lemma ScopeMapsSuffix(exact: map<string, nat>, suffix: map<string, nat>, lines: seq<Line>, line: Line,
                        scope: string)
    requires ScopeMaps(exact, suffix, lines) && !IsExact(scope)
    requires line.scope == Some(scope) && !Listed(lines, scope)
    ensures ScopeMaps(exact, suffix[scope := line.owner], lines + [line])
  {
    NewListed(lines, line, scope);
    assert forall k :: IsExact("=" + k);
  }

  lemma NoLinesMapped(services: seq<seq<string>>, norm: Normalizer)
    ensures ScopeMaps(map[], map[], CatalogLines(services[..0], norm))
  {
  }

  lemma CatalogNext(services: seq<seq<string>>, norm: Normalizer, i: nat)
    requires i < |services|
    ensures CatalogLines(services[..i + 1], norm) ==
            CatalogLines(services[..i], norm) + ServiceLines(services[i], norm, i)
  {
    assert services[..i + 1][..i] == services[..i];
  }

  class CompiledRoutes {
    var overrides: map<string, Route>
    var exact: map<string, nat>
    var suffix: map<string, nat>
    var routes: seq<Route>
    var final: Route

    constructor ()
      ensures overrides == map[] && exact == map[] && suffix == map[] && routes == [] && final == Tunnel
    {
      overrides, exact, suffix, routes, final := map[], map[], map[], [], Tunnel;
    }

    ghost predicate Compiles(t: Table, norm: Normalizer)
      reads this
    {
      && OverridesFrom(overrides, t.overrides)
      && ScopeMaps(exact, suffix, GroupLines(t.groups, norm))
      && |routes| == |t.groups|
      && (forall i :: 0 <= i < |routes| ==> routes[i] == KindOf(t.groups[i].route))
      && final == FinalOf(t.final)
    }

    /** Goes through the overrides in any order. */
    method CompileOverrides(given: map<string, string>)
      requires overrides == map[]
      modifies this`overrides
      ensures OverridesFrom(overrides, given)
    {
      var todo := given.Keys;
      while todo != {}
        invariant todo <= given.Keys
        invariant forall k :: k in overrides ==>
                  k != "" && exists g :: g in given && NormalizeHost(g) == k && overrides[k] == KindOf(given[g])
        invariant forall g :: g in given && g !in todo && NormalizeHost(g) != "" ==> NormalizeHost(g) in overrides
        decreases |todo|
      {
        var g :| g in todo;
        var key := NormalizeHost(g);
        if key != "" {
          overrides := overrides[key := KindOf(given[g])];
        }
        todo := todo - {g};
      }
    }

    /** Enters one group's domains, keeping the index of an earlier group. */
    method CompileGroup(domains: seq<string>, norm: Normalizer, idx: nat, ghost lines: seq<Line>)
      requires ScopeMaps(exact, suffix, lines)
      modifies this`exact, this`suffix
      ensures ScopeMaps(exact, suffix, lines + ServiceLines(domains, norm, idx))
    {
      assert lines + ServiceLines(domains[..0], norm, idx) == lines;
      for j := 0 to |domains|
        invariant ScopeMaps(exact, suffix, lines + ServiceLines(domains[..j], norm, idx))
      {
        assert domains[..j+1][..j] == domains[..j];
        ghost var before := lines + ServiceLines(domains[..j], norm, idx);
        assert lines + ServiceLines(domains[..j+1], norm, idx) == before + [Line(norm(domains[j]), idx)];
        CompileScope(norm(domains[j]), idx, before);
      }
      assert domains[..|domains|] == domains;
    }

    method CompileScope(nd: Option<string>, idx: nat, ghost lines: seq<Line>)
      requires ScopeMaps(exact, suffix, lines)
      modifies this`exact, this`suffix
      ensures ScopeMaps(exact, suffix, lines + [Line(nd, idx)])
    {
      ghost var line := Line(nd, idx);
      if nd.None? {
        ScopeMapsRepeat(exact, suffix, lines, line);
      } else if IsExact(nd.value) {
        var key := nd.value[1..];
        assert nd.value == "=" + key;
        if key in exact {
          ScopeMapsRepeat(exact, suffix, lines, line);
        } else {
          ScopeMapsExact(exact, suffix, lines, line, key);
          exact := exact[key := idx];
        }
      } else if nd.value in suffix {
        ScopeMapsRepeat(exact, suffix, lines, line);
      } else {
        ScopeMapsSuffix(exact, suffix, lines, line, nd.value);
        suffix := suffix[nd.value := idx];
      }
    }

    method CompileGroups(groups: seq<RouteGroup>, norm: Normalizer)
      requires exact == map[] && suffix == map[]
      modifies this`exact, this`suffix
      ensures ScopeMaps(exact, suffix, GroupLines(groups, norm))
    {
      ghost var ds := GroupDomains(groups);
      NoLinesMapped(ds, norm);
      for i := 0 to |groups|
        invariant ScopeMaps(exact, suffix, CatalogLines(ds[..i], norm))
      {
        CatalogNext(ds, norm, i);
        CompileGroup(groups[i].domains, norm, i, CatalogLines(ds[..i], norm));
      }
      assert ds[..|ds|] == ds;
    }

    method Compile(t: Table, norm: Normalizer)
      requires overrides == map[] && exact == map[] && suffix == map[] && routes == []
      modifies this
      ensures Compiles(t, norm)
    {
      CompileOverrides(t.overrides);
      CompileGroups(t.groups, norm);
      CompileRoutes(t.groups);
      final := FinalOf(t.final);
    }

    method CompileRoutes(groups: seq<RouteGroup>)
      requires routes == []
      modifies this`routes
      ensures |routes| == |groups| && forall i :: 0 <= i < |groups| ==> routes[i] == KindOf(groups[i].route)
    {
      for i := 0 to |groups|
        invariant |routes| == i && forall j :: 0 <= j < i ==> routes[j] == KindOf(groups[j].route)
      {
        routes := routes + [KindOf(groups[i].route)];
      }
    }

    /** Overrides, then the lowest group among the exact scope and all suffix scopes, then final. */
    method Lookup(key: string, ghost t: Table, ghost norm: Normalizer) returns (r: Route)
      requires Compiles(t, norm) && NoEmptyScope(norm)
      ensures r == Resolve(overrides, t.groups, t.final, norm, key, !HasPrefix(key, "*."))
    {
      if key in overrides {
        return overrides[key];
      }
      if key != "" && !HasPrefix(key, "*.") {
        var o := WildcardCandidate(key);
        if o.Some? {
          return overrides[o.value];
        }
      }
      r := GroupOrFinal(key, t, norm);
    }

    method GroupOrFinal(key: string, ghost t: Table, ghost norm: Normalizer) returns (r: Route)
      requires Compiles(t, norm) && NoEmptyScope(norm)
      ensures r == GroupRoute(t.groups, t.final, norm, key)
    {
      NoEmptyListed(t.groups, norm);
      var best := BestGroup(key);
      LowestIsFirst(exact, suffix, t.groups, norm, key, best);
      if best.Some? {
        return routes[best.value];
      }
      return final;
    }

    /** The candidates `*.b.c`, `*.c`, ... tried in order. */
    method WildcardCandidate(key: string) returns (r: Option<string>)
      ensures r == WildcardFrom(overrides, key, 1)
    {
      var labels := Split(key, '.');
      var i := 1;
      while i < |labels|
        invariant 1 <= i <= |labels|
        invariant WildcardFrom(overrides, key, 1) == WildcardFrom(overrides, key, i)
      {
        if "*." + Join(labels[i..], '.') in overrides {
          return Some("*." + Join(labels[i..], '.'));
        }
        i := i + 1;
      }
      r := None;
    }

    /** Walks the key dot by dot, keeping the lowest group index seen. */
    method BestGroup(key: string) returns (best: Option<nat>)
      requires "" !in suffix
      ensures Lowest(exact, suffix, key, best)
    {
      best := None;
      if key in exact {
        best := Some(exact[key]);
      }
      TailsChain(key);
      FoldIsLowest(exact, suffix, key, Tails(key), |Tails(key)|, best);
      WalkIsFold(suffix, Tails(key), 0, best);
      best := BestSuffix(key, best);
    }

    /** The walk along the labels, from what the exact scopes gave. */
    method BestSuffix(key: string, first: Option<nat>) returns (best: Option<nat>)
      ensures best == Walk(suffix, key, first)
    {
      best := first;
      var rest := key;
      while rest != ""
        invariant Walk(suffix, rest, best) == Walk(suffix, key, first)
        decreases |rest|
      {
        WalkOnce(suffix, rest, best);
        if rest in suffix && (best.None? || suffix[rest] < best.value) {
          best := Some(suffix[rest]);
        }
        var dot := IndexOf(rest, '.');
        if dot < 0 {
          return;
        }
        rest := rest[dot + 1..];
      }
    }
  }

  function Walk(suffix: map<string, nat>, rest: string, best: Option<nat>): Option<nat>
    decreases |rest|
  {
    if rest == "" then best
    else
      match AfterDot(rest)
      case None => Narrowed(suffix, rest, best)
      case Some(next) => Walk(suffix, next, Narrowed(suffix, rest, best))
  }

  /** The walk from the i-th tail on takes in the remaining tails. */
  lemma {:induction false} WalkIsFold(suffix: map<string, nat>, tails: seq<string>, i: nat, first: Option<nat>)
    requires "" !in suffix && Chain(tails) && i < |tails|
    ensures Walk(suffix, tails[i], Fold(suffix, tails, i, first)) == Fold(suffix, tails, |tails|, first)
    decreases |tails| - i
  {
    ChainNext(tails, i);
    WalkOnce(suffix, tails[i], Fold(suffix, tails, i, first));
    if i + 1 < |tails| {
      WalkIsFold(suffix, tails, i + 1, first);
    }
  }

  lemma WalkOnce(suffix: map<string, nat>, rest: string, best: Option<nat>)
    requires rest != "" || "" !in suffix
    ensures Walk(suffix, rest, best) ==
            match AfterDot(rest)
            case None => Narrowed(suffix, rest, best)
            case Some(next) => Walk(suffix, next, Narrowed(suffix, rest, best))
  {
  }

  /** The least of `first` and the entries of the first `n` tails. */
  function Fold(suffix: map<string, nat>, tails: seq<string>, n: nat, first: Option<nat>): Option<nat>
    requires n <= |tails|
  {
    if n == 0 then first else Narrowed(suffix, tails[n - 1], Fold(suffix, tails, n - 1, first))
  }

  function Narrowed(suffix: map<string, nat>, rest: string, best: Option<nat>): Option<nat> {
    if rest in suffix && (best.None? || suffix[rest] < best.value) then Some(suffix[rest]) else best
  }

  lemma {:induction false} FoldIsLowest(exact: map<string, nat>, suffix: map<string, nat>, key: string,
                                        tails: seq<string>, n: nat, first: Option<nat>)
    requires n <= |tails| && first == if key in exact then Some(exact[key]) else None
    ensures LowestUpTo(exact, suffix, key, tails, n, Fold(suffix, tails, n, first))
  {
    if n > 0 {
      FoldIsLowest(exact, suffix, key, tails, n - 1, first);
      LowestStep(exact, suffix, key, tails, n - 1, Fold(suffix, tails, n - 1, first));
    }
  }

  lemma FirstTail(key: string)
    ensures Tail(key, 0) == key
  {
    JoinSplit(key, '.');
    assert Split(key, '.')[0..] == Split(key, '.');
  }

  lemma NoEmptyListed(groups: seq<RouteGroup>, norm: Normalizer)
    requires NoEmptyScope(norm)
    ensures !Listed(GroupLines(groups, norm), "")
  {
    OwnerIsFirstService(GroupDomains(groups), norm, "");
  }

  /** Taking one more tail into account. */
  function Tails(key: string): seq<string> {
    seq(|Split(key, '.')|, i requires 0 <= i < |Split(key, '.')| => Tail(key, i))
  }

  /** What follows the first dot. */
  function AfterDot(text: string): (r: Option<string>)
    ensures r.Some? ==> |r.value| < |text|
  {
    var dot := IndexOf(text, '.');
    if dot < 0 then None else Some(text[dot + 1..])
  }

  /** Each text follows the one before, and the last has no dot. */
  ghost predicate Chain(tails: seq<string>) {
    && |tails| > 0
    && (forall i :: 0 <= i < |tails| - 1 ==> AfterDot(tails[i]) == Some(tails[i + 1]))
    && AfterDot(tails[|tails| - 1]) == None
  }

  lemma ChainNext(tails: seq<string>, i: nat)
    requires Chain(tails) && i < |tails|
    ensures AfterDot(tails[i]) == if i + 1 < |tails| then Some(tails[i + 1]) else None
  {
    if i < |tails| - 1 {
      assert AfterDot(tails[i]) == Some(tails[i + 1]);
    }
  }

  lemma TailFollows(key: string, i: nat)
    requires i + 1 < |Split(key, '.')|
    ensures AfterDot(Tail(key, i)) == Some(Tail(key, i + 1))
  {
    NextTail(key, i);
  }

  lemma TailsChain(key: string)
    ensures Chain(Tails(key)) && Tails(key)[0] == key
  {
    var tails, last := Tails(key), |Split(key, '.')| - 1;
    FirstTail(key);
    forall i | 0 <= i < |tails| - 1 ensures AfterDot(tails[i]) == Some(tails[i + 1]) {
      TailFollows(key, i);
      assert tails[i] == Tail(key, i) && tails[i + 1] == Tail(key, i + 1);
    }
    NextTail(key, last);
    assert tails[last] == Tail(key, last);
  }

  lemma LowestStep(exact: map<string, nat>, suffix: map<string, nat>, key: string, tails: seq<string>, i: nat,
                   best: Option<nat>)
    requires i < |tails| && LowestUpTo(exact, suffix, key, tails, i, best)
    ensures LowestUpTo(exact, suffix, key, tails, i + 1, Narrowed(suffix, tails[i], best))
  {
  }

  // ---- the walk against the first matching group

  /** No domain normalises to the empty scope. */
  ghost predicate NoEmptyScope(norm: Normalizer) {
    forall d :: norm(d) != Some("")
  }

  /** The scope normaliser never gives an empty scope, as `Lookup` needs. */
  lemma ScopesAreNotEmpty(psl: Registrable)
    ensures NoEmptyScope(ScopeNormalizer(psl))
  {
  }

  /** After the first dot of a tail comes the next tail; the last tail has no dot. */
  lemma NextTail(key: string, i: nat)
    requires i < |Split(key, '.')|
    ensures IndexOf(Tail(key, i), '.') < 0 <==> i == |Split(key, '.')| - 1
    ensures IndexOf(Tail(key, i), '.') >= 0 ==> Tail(key, i)[IndexOf(Tail(key, i), '.') + 1..] == Tail(key, i + 1)
  {
    var labels := Split(key, '.');
    var rest := Tail(key, i);
    assert '.' !in labels[i];
    if i == |labels| - 1 {
      assert labels[i..] == [labels[i]];
    } else {
      assert labels[i..][1..] == labels[i + 1..];
      assert rest == labels[i] + ['.'] + Tail(key, i + 1);
      assert rest[|labels[i]|] == '.';
      assert forall j :: 0 <= j < |labels[i]| ==> rest[j] == labels[i][j] && labels[i][j] in labels[i];
    }
  }

  /** `best` is the least of the exact entry and the suffix entries of the first `n` tails. */
  ghost predicate LowestUpTo(exact: map<string, nat>, suffix: map<string, nat>, key: string, tails: seq<string>,
                             n: nat, best: Option<nat>)
  {
    && (key in exact ==> best.Some? && best.value <= exact[key])
    && (forall j :: 0 <= j < n && j < |tails| && tails[j] in suffix ==>
          best.Some? && best.value <= suffix[tails[j]])
    && (best.Some? ==>
          || (key in exact && best.value == exact[key])
          || exists j :: 0 <= j < n && j < |tails| && tails[j] in suffix && best.value == suffix[tails[j]])
  }

  ghost predicate Lowest(exact: map<string, nat>, suffix: map<string, nat>, key: string, best: Option<nat>) {
    LowestUpTo(exact, suffix, key, Tails(key), |Tails(key)|, best)
  }

  /** A group matches a key exactly when one of its scopes covers it. */
  lemma GroupMatchesIff(g: RouteGroup, norm: Normalizer, key: string)
    ensures GroupMatches(g, norm, key) <==> exists s :: ServiceLists(g.domains, norm, s) && Covers(s, key)
  {
    if i :| 0 <= i < |g.domains| && norm(g.domains[i]).Some? && Covers(norm(g.domains[i]).value, key) {
      assert ServiceLists(g.domains, norm, norm(g.domains[i]).value);
    }
  }

  /** Every covering scope of any group is seen by the walk, with its lowest group. */
  lemma CoveringIsSeen(exact: map<string, nat>, suffix: map<string, nat>, groups: seq<RouteGroup>,
                       norm: Normalizer, key: string, best: Option<nat>, g: nat)
    requires ScopeMaps(exact, suffix, GroupLines(groups, norm)) && Lowest(exact, suffix, key, best)
    requires g < |groups| && GroupMatches(groups[g], norm, key)
    ensures best.Some? && best.value <= g
  {
    GroupMatchesIff(groups[g], norm, key);
    var s :| ServiceLists(groups[g].domains, norm, s) && Covers(s, key);
    assert ServiceLists(GroupDomains(groups)[g], norm, s);
    OwnerIsFirstService(GroupDomains(groups), norm, s);
    ScopeIsSeen(exact, suffix, GroupLines(groups, norm), key, best, s);
  }

  /** A listed scope that covers the key is one of those the walk looks up. */
  lemma ScopeIsSeen(exact: map<string, nat>, suffix: map<string, nat>, lines: seq<Line>, key: string,
                    best: Option<nat>, s: string)
    requires ScopeMaps(exact, suffix, lines) && Lowest(exact, suffix, key, best)
    requires Listed(lines, s) && Covers(s, key)
    ensures best.Some? && best.value <= FirstOwner(lines, s)
  {
    if IsExact(s) {
      assert s == "=" + key;
    } else {
      UnderIffTail(key, s);
      var j :| 0 <= j < |Split(key, '.')| && Tail(key, j) == s;
      TailIsSeen(exact, suffix, key, best, j);
    }
  }

  lemma TailIsSeen(exact: map<string, nat>, suffix: map<string, nat>, key: string, best: Option<nat>, j: nat)
    requires Lowest(exact, suffix, key, best) && j < |Split(key, '.')| && Tail(key, j) in suffix
    ensures best.Some? && best.value <= suffix[Tail(key, j)]
  {
    assert Tails(key)[j] == Tail(key, j);
  }

  /** The index found is that of a group that matches. */
  lemma SeenMatches(exact: map<string, nat>, suffix: map<string, nat>, groups: seq<RouteGroup>,
                    norm: Normalizer, key: string, best: Option<nat>)
    requires ScopeMaps(exact, suffix, GroupLines(groups, norm)) && Lowest(exact, suffix, key, best)
    requires best.Some?
    ensures best.value < |groups| && GroupMatches(groups[best.value], norm, key)
  {
    var s: string;
    if key in exact && best.value == exact[key] {
      s := "=" + key;
      assert s[1..] == key;
    } else {
      var j :| 0 <= j < |Tails(key)| && Tails(key)[j] in suffix && best.value == suffix[Tails(key)[j]];
      s := Tail(key, j);
      TailUnder(key, j);
    }
    assert Covers(s, key);
    OwnerIsFirstService(GroupDomains(groups), norm, s);
    assert ServiceLists(groups[best.value].domains, norm, s);
    GroupMatchesIff(groups[best.value], norm, key);
  }

  lemma LowestIsFirst(exact: map<string, nat>, suffix: map<string, nat>, groups: seq<RouteGroup>,
                      norm: Normalizer, key: string, best: Option<nat>)
    requires ScopeMaps(exact, suffix, GroupLines(groups, norm)) && Lowest(exact, suffix, key, best)
    ensures best == FirstGroup(groups, norm, key, 0)
  {
    var first := FirstGroup(groups, norm, key, 0);
    if first.Some? {
      CoveringIsSeen(exact, suffix, groups, norm, key, best, first.value);
    }
    if best.Some? {
      SeenMatches(exact, suffix, groups, norm, key, best);
    }
  }
}
