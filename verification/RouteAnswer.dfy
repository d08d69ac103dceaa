/**
 The answer of both route resolvers, spelled out: which override applies to a key, which group, and
 what the stored text of a route means.
 */
module RouteAnswer {
  import opened Wrappers
  import opened Text
  import opened Scopes
  import opened CatalogIndex
  import opened Routes
  import opened RouteTable
  import opened LegacyRules
  import opened LegacyJson

  /** The relay looks a host up as the desktop does, but without the white space around it. */
  lemma RelayKey(host: string)
    ensures NormalizeHost(host) == Key(Trim(host))
  {
  }

  /** Overrides are read as their texts say. */
  lemma KindsAre(overrides: map<string, string>, k: string)
    requires k in overrides && k != ""
    ensures k in Kinds(overrides) && RouteIs(Str(overrides[k]), Kinds(overrides)[k])
  {
    DecodeRouteIs(Str(overrides[k]));
  }

  /** An override with an empty key has no effect: a host whose key is empty is left to the groups. */
  lemma EmptyKeyUnused(t: Table, norm: Normalizer, host: string)
    requires Key(host) == ""
    ensures ResolveRoute(t, norm, host) == GroupRoute(t.groups, t.final, norm, "")
  {
    assert |Split("", '.')| == 1;
  }

  /** The name applies to the key: it is the key, or `*.` and what follows some dot of the key. */
  predicate Applies(name: string, key: string, wildcards: bool) {
    name == key || (wildcards && "*." <= name && HasSuffix(key, name[1..]))
  }

  /** The key itself goes first, and then the longest name. */
  ghost predicate Chosen(overrides: map<string, Route>, key: string, wildcards: bool, name: string) {
    && name in overrides && Applies(name, key, wildcards)
    && (name == key || (key !in overrides && forall n :: n in overrides && Applies(n, key, wildcards) ==>
                        |n| <= |name|))
  }

  /** The first group with a domain that covers the key. */
  ghost predicate First(groups: seq<RouteGroup>, norm: Normalizer, key: string, i: nat) {
    i < |groups| && Has(groups[i], norm, key) && forall j :: 0 <= j < i ==> !Has(groups[j], norm, key)
  }

  ghost predicate Has(g: RouteGroup, norm: Normalizer, key: string) {
    exists d, scope :: d in g.domains && norm(d) == Some(scope) && Covers(scope, key)
  }

  /** Main result: the answer is that of the chosen override; without one, what the first group's text says, blocked
      included; and without that direct if the final text says so, else tunnel. */
  lemma ResolveIs(overrides: map<string, Route>, groups: seq<RouteGroup>, final: string, norm: Normalizer,
                  key: string, wildcards: bool)
    ensures var r := Resolve(overrides, groups, final, norm, key, wildcards);
            if exists n :: n in overrides && Applies(n, key, wildcards)
            then exists n :: Chosen(overrides, key, wildcards, n) && r == overrides[n]
            else if exists i: nat :: First(groups, norm, key, i)
            then exists i: nat :: First(groups, norm, key, i) && RouteIs(Str(groups[i].route), r)
            else r == if Says(Str(final), "direct") then Direct else Tunnel
  {
    var o := OverrideKey(overrides, key, wildcards);
    OverrideIs(overrides, key, wildcards);
    if o.None? {
      GroupRouteIs(groups, final, norm, key);
    }
  }

  lemma GroupRouteIs(groups: seq<RouteGroup>, final: string, norm: Normalizer, key: string)
    ensures var r := GroupRoute(groups, final, norm, key);
            if exists i: nat :: First(groups, norm, key, i)
            then exists i: nat :: First(groups, norm, key, i) && RouteIs(Str(groups[i].route), r)
            else r == if Says(Str(final), "direct") then Direct else Tunnel
  {
    forall i | 0 <= i < |groups| ensures GroupMatches(groups[i], norm, key) <==> Has(groups[i], norm, key) {
      HasIff(groups[i], norm, key);
    }
    var g := FirstGroup(groups, norm, key, 0);
    if g.Some? {
      assert First(groups, norm, key, g.value);
      DecodeRouteIs(Str(groups[g.value].route));
    } else {
      DecodeRouteIs(Str(final));
    }
  }

  lemma HasIff(g: RouteGroup, norm: Normalizer, key: string)
    ensures GroupMatches(g, norm, key) <==> Has(g, norm, key)
  {
    if d, scope :| d in g.domains && norm(d) == Some(scope) && Covers(scope, key) {
      var i :| 0 <= i < |g.domains| && g.domains[i] == d;
      assert norm(g.domains[i]).Some?;
    }
  }

  lemma OverrideIs(overrides: map<string, Route>, key: string, wildcards: bool)
    ensures match OverrideKey(overrides, key, wildcards)
            case Some(n) => Chosen(overrides, key, wildcards, n)
            case None => forall n :: n in overrides ==> !Applies(n, key, wildcards)
  {
    if key !in overrides && wildcards {
      WildcardIs(overrides, key, 1);
      forall n | n in overrides && Applies(n, key, true)
        ensures exists j :: 1 <= j < |Split(key, '.')| && n == "*." + Tail(key, j)
      {
        AppliesIsTail(key, n);
      }
    }
  }

  /** The wildcard found is that of the longest tail that has one. */
  lemma {:induction false} WildcardIs(overrides: map<string, Route>, key: string, i: nat)
    requires 1 <= i <= |Split(key, '.')|
    ensures match WildcardFrom(overrides, key, i)
            case Some(n) =>
              && n in overrides && Applies(n, key, true)
              && (forall j :: i <= j < |Split(key, '.')| && "*." + Tail(key, j) in overrides ==>
                  |"*." + Tail(key, j)| <= |n|)
            case None => forall j :: i <= j < |Split(key, '.')| ==> "*." + Tail(key, j) !in overrides
    decreases |Split(key, '.')| - i
  {
    if i < |Split(key, '.')| {
      if "*." + Tail(key, i) in overrides {
        TailApplies(key, i);
        forall j | i < j < |Split(key, '.')| ensures |Tail(key, j)| < |Tail(key, i)| {
          TailsShrink(key, i, j);
        }
      } else {
        WildcardIs(overrides, key, i + 1);
      }
    }
  }

  lemma TailApplies(key: string, i: nat)
    requires 1 <= i < |Split(key, '.')|
    ensures Applies("*." + Tail(key, i), key, true)
  {
    TailUnder(key, i);
    FirstTail(key);
    TailsShrink(key, 0, i);
    assert ("*." + Tail(key, i))[1..] == "." + Tail(key, i);
  }

  lemma AppliesIsTail(key: string, name: string)
    requires Applies(name, key, true) && name != key
    ensures exists j :: 1 <= j < |Split(key, '.')| && name == "*." + Tail(key, j)
  {
    var rest := name[2..];
    assert name == "*." + rest && name[1..] == "." + rest;
    UnderIffTail(key, rest);
    FirstTail(key);
    var j :| 0 <= j < |Split(key, '.')| && Tail(key, j) == rest;
  }
}
