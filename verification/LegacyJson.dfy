/**
 What the merge of the old group files makes of their JSON: who decides a host, a rule group or the final
 route, and with which value, in the terms of the JSON fields alone.
 */
module LegacyJson {
  import opened Wrappers
  import opened Text
  import opened Lists
  import opened Sorting
  import opened Routes
  import opened LegacyRules

  // ---- routes

  /** A route value says a word: a string, or an object whose `kind` is a string, give or take case and
      surrounding white space. */
  predicate Says(v: Json, word: string) {
    || (v.Str? && Lower(Trim(v.s)) == word)
    || (v.Obj? && "kind" in v.fields && v.fields["kind"].Str? && Lower(Trim(v.fields["kind"].s)) == word)
  }

  /** Whatever says neither is tunnel. */
  predicate RouteIs(v: Json, r: Route) {
    (r == Direct <==> Says(v, "direct")) && (r == Blocked <==> Says(v, "blocked"))
  }

  lemma DecodeRouteIs(v: Json)
    ensures RouteIs(v, DecodeRoute(v))
  {
    WordsDiffer();
  }

  lemma WordsDiffer()
    ensures "direct" != "blocked"
  {
    assert "direct"[0] != "blocked"[0];
  }

  lemma RouteIsOne(v: Json, r: Route, q: Route)
    requires RouteIs(v, r) && RouteIs(v, q)
    ensures r == q
  {
  }

  // ---- hosts

  predicate HasRule(raw: Json, h: string) {
    raw.Obj? && "rules" in raw.fields && raw.fields["rules"].Obj? && h in raw.fields["rules"].fields
  }

  lemma HasRuleIff(raw: Json, h: string)
    ensures HasRule(raw, h) <==> h in ExtractLegacy(raw).rules
    ensures HasRule(raw, h) ==> RouteIs(raw.fields["rules"].fields[h], ExtractLegacy(raw).rules[h])
  {
    if HasRule(raw, h) {
      DecodeRouteIs(raw.fields["rules"].fields[h]);
    }
  }

  /** File `i` has the last word on a host: it is the active one, or the active one says nothing and `i` comes after
      all others that have a rule for the host. */
  ghost predicate LastWord(groups: seq<GroupFile>, activeId: Option<string>, h: string, i: nat) {
    && i < |groups| && HasRule(groups[i].raw, h)
    && (|| IsActive(groups, activeId, i)
        || forall j :: 0 <= j < |groups| && HasRule(groups[j].raw, h) ==>
             !IsActive(groups, activeId, j) && (j == i || After(groups, i, j)))
  }

  lemma LastWordDecides(groups: seq<GroupFile>, activeId: Option<string>, h: string, i: nat)
    ensures LastWord(groups, activeId, h, i) <==> DecidesHost(groups, activeId, h, i)
  {
    forall j | 0 <= j < |groups|
      ensures HasRule(groups[j].raw, h) <==> h in LegacyAt(groups, j).rules
      ensures DefinesHost(h)(Decoded(groups[j])) <==> h in LegacyAt(groups, j).rules
    {
      HasRuleIff(groups[j].raw, h);
    }
  }

  /** Main result: a host is in the merged rules exactly when some file has a rule for it, and its route is what the
      file with the last word says. */
  lemma HostByJson(groups: seq<GroupFile>, activeId: Option<string>, h: string)
    ensures h in Merged(groups, activeId).rules <==> exists i: nat :: LastWord(groups, activeId, h, i)
    ensures forall i: nat :: LastWord(groups, activeId, h, i) ==>
              && h in Merged(groups, activeId).rules
              && RouteIs(groups[i].raw.fields["rules"].fields[h], Merged(groups, activeId).rules[h])
  {
    var rules := Merged(groups, activeId).rules;
    if h in rules {
      HostRouteIff(groups, activeId, h, rules[h]);
      var i :| DecidesHost(groups, activeId, h, i) && LegacyAt(groups, i).rules[h] == rules[h];
      LastWordDecides(groups, activeId, h, i);
    }
    forall i: nat | LastWord(groups, activeId, h, i)
      ensures h in rules && RouteIs(groups[i].raw.fields["rules"].fields[h], rules[h])
    {
      LastWordDecides(groups, activeId, h, i);
      HostRouteIff(groups, activeId, h, LegacyAt(groups, i).rules[h]);
      HasRuleIff(groups[i].raw, h);
    }
  }

  /** Main result: the final route is direct exactly when the active file says so, and tunnel otherwise. */
  lemma FinalByJson(groups: seq<GroupFile>, activeId: Option<string>)
    ensures Merged(groups, activeId).finalRoute == Direct <==>
            exists a :: 0 <= a < |groups| && IsActive(groups, activeId, a) && SaysDirect(groups[a].raw)
    ensures Merged(groups, activeId).finalRoute != Blocked
  {
    FinalRouteIff(groups, activeId);
    forall a | 0 <= a < |groups|
      ensures LegacyAt(groups, a).finalRoute == Some(Direct) <==> SaysDirect(groups[a].raw)
    {
      FinalDirectIff(groups[a].raw);
    }
  }

  predicate SaysDirect(raw: Json) {
    raw.Obj? && "finalRoute" in raw.fields && Says(raw.fields["finalRoute"], "direct")
  }

  lemma FinalDirectIff(raw: Json)
    ensures ExtractLegacy(raw).finalRoute == Some(Direct) <==> SaysDirect(raw)
  {
    if raw.Get("finalRoute").Some? {
      DecodeRouteIs(raw.fields["finalRoute"]);
    }
  }

  // ---- rule groups

  /** An array of exactly these strings. */
  predicate AreStrings(v: Json, ss: seq<string>) {
    v.Arr? && |v.items| == |ss| && forall i :: 0 <= i < |ss| ==> v.items[i] == Str(ss[i])
  }

  /** An entry of `ruleGroups` is this rule group: an object with `id`, `name` and `route`, and `domains` if there are
      any, or an array of the four. */
  predicate IsRuleGroup(v: Json, rg: RuleGroup) {
    || (&& v.Obj? && "id" in v.fields && v.fields["id"] == Str(rg.id)
        && "name" in v.fields && v.fields["name"] == Str(rg.name)
        && (if "domains" in v.fields then AreStrings(v.fields["domains"], rg.domains) else rg.domains == [])
        && "route" in v.fields && RouteIs(v.fields["route"], rg.route))
    || (&& v.Arr? && |v.items| == 4 && v.items[0] == Str(rg.id) && v.items[1] == Str(rg.name)
        && AreStrings(v.items[2], rg.domains) && RouteIs(v.items[3], rg.route))
  }

  lemma DecodeStringsIff(v: Json, ss: seq<string>)
    ensures DecodeStrings(v) == Some(ss) <==> AreStrings(v, ss)
  {
    if AreStrings(v, ss) {
      assert DecodeStrings(v).value == ss;
    }
  }

  lemma DecodeRuleGroupIff(v: Json, rg: RuleGroup)
    ensures DecodeRuleGroup(v) == Some(rg) <==> IsRuleGroup(v, rg)
  {
    if v.Obj? {
      ObjectRuleGroupIff(v, rg);
    } else if v.Arr? && |v.items| == 4 {
      DecodeStringsIff(v.items[2], rg.domains);
      RouteOf(v.items[3], rg.route);
    }
  }

  lemma RouteOf(v: Json, r: Route)
    ensures DecodeRoute(v) == r <==> RouteIs(v, r)
  {
    DecodeRouteIs(v);
    if RouteIs(v, r) {
      RouteIsOne(v, r, DecodeRoute(v));
    }
  }

  lemma ObjectRuleGroupIff(v: Json, rg: RuleGroup)
    requires v.Obj?
    ensures DecodeRuleGroup(v) == Some(rg) <==> IsRuleGroup(v, rg)
  {
    DecodeStringsIff(v.Get("domains").GetOr(Arr([])), rg.domains);
    if "route" in v.fields {
      RouteOf(v.fields["route"], rg.route);
    }
  }

  function RawRuleGroups(raw: Json): seq<Json> {
    if raw.Obj? && "ruleGroups" in raw.fields && raw.fields["ruleGroups"].Arr? then raw.fields["ruleGroups"].items
    else []
  }

  /** The first entry that is a rule group with the id of `rg` is `rg`. */
  ghost predicate FirstWithId(items: seq<Json>, rg: RuleGroup) {
    exists k :: 0 <= k < |items| && IsRuleGroup(items[k], rg) && NoneBefore(items, k, rg.id)
  }

  ghost predicate NoneBefore(items: seq<Json>, k: nat, id: string) {
    forall j, other :: 0 <= j < k && j < |items| && IsRuleGroup(items[j], other) ==> other.id != id
  }

  lemma {:induction false} FirstEntryByJson(items: seq<Json>, rg: RuleGroup)
    ensures FirstEntry(DecodeRuleGroups(items), rg.id) == Some(rg) <==> FirstWithId(items, rg)
    ensures FirstEntry(DecodeRuleGroups(items), rg.id).None? <==> NoneBefore(items, |items|, rg.id)
  {
    if items != [] {
      var n := |items| - 1;
      var init, last := items[..n], items[n];
      FirstEntryByJson(init, rg);
      FirstWithIdSnoc(init, last, rg);
      assert items == init + [last];
      var g := DecodeRuleGroup(last);
      if g.Some? {
        DecodeRuleGroupIff(last, g.value);
        assert (DecodeRuleGroups(init) + [g.value])[..|DecodeRuleGroups(init)|] == DecodeRuleGroups(init);
      } else {
        assert DecodeRuleGroups(init) + [] == DecodeRuleGroups(init);
      }
      LastEntry(last, rg);
    }
  }

  /** What the last entry is. */
  lemma LastEntry(last: Json, rg: RuleGroup)
    ensures DecodeRuleGroup(last) == Some(rg) <==> IsRuleGroup(last, rg)
    ensures (DecodeRuleGroup(last).Some? && DecodeRuleGroup(last).value.id == rg.id) <==>
            exists other :: IsRuleGroup(last, other) && other.id == rg.id
  {
    DecodeRuleGroupIff(last, rg);
    if DecodeRuleGroup(last).Some? {
      DecodeRuleGroupIff(last, DecodeRuleGroup(last).value);
    }
    if other :| IsRuleGroup(last, other) && other.id == rg.id {
      DecodeRuleGroupIff(last, other);
    }
  }

  lemma FirstWithIdSnoc(init: seq<Json>, last: Json, rg: RuleGroup)
    ensures FirstWithId(init + [last], rg) <==>
            FirstWithId(init, rg) || (NoneBefore(init, |init|, rg.id) && IsRuleGroup(last, rg))
    ensures NoneBefore(init + [last], |init| + 1, rg.id) <==>
            NoneBefore(init, |init|, rg.id) && !exists other :: IsRuleGroup(last, other) && other.id == rg.id
  {
    var items, n := init + [last], |init|;
    forall k | 0 <= k <= n ensures NoneBefore(items, k, rg.id) <==> NoneBefore(init, k, rg.id) {
      assert forall j :: 0 <= j < k ==> items[j] == init[j];
    }
    if FirstWithId(init, rg) {
      var k :| 0 <= k < n && IsRuleGroup(init[k], rg) && NoneBefore(init, k, rg.id);
      assert items[k] == init[k];
    }
    if NoneBefore(init, n, rg.id) && IsRuleGroup(last, rg) {
      assert items[n] == last;
    }
    if FirstWithId(items, rg) {
      var k :| 0 <= k < |items| && IsRuleGroup(items[k], rg) && NoneBefore(items, k, rg.id);
      if k < n {
        assert items[k] == init[k];
      }
    }
    assert items[n] == last;
    if NoneBefore(init, n, rg.id) && !exists other :: IsRuleGroup(last, other) && other.id == rg.id {
      forall j, other | 0 <= j < n + 1 && IsRuleGroup(items[j], other) ensures other.id != rg.id {
        if j < n {
          assert items[j] == init[j];
        }
      }
    }
  }

  ghost predicate HoldsGroup(raw: Json, id: string) {
    exists k, rg :: 0 <= k < |RawRuleGroups(raw)| && IsRuleGroup(RawRuleGroups(raw)[k], rg) && rg.id == id
  }

  lemma HoldsGroupIff(raw: Json, id: string)
    ensures HoldsGroup(raw, id) <==> FirstEntry(ExtractLegacy(raw).ruleGroups, id).Some?
  {
    var items := RawRuleGroups(raw);
    FirstEntryByJson(items, RuleGroup(id, "", [], Tunnel));
  }

  /** File `i` decides a rule group id: it is the active one, or the active one holds none and `i` comes before all
      others that hold one. */
  ghost predicate FirstHolder(groups: seq<GroupFile>, activeId: Option<string>, id: string, i: nat) {
    && i < |groups| && HoldsGroup(groups[i].raw, id)
    && (|| IsActive(groups, activeId, i)
        || forall j :: 0 <= j < |groups| && HoldsGroup(groups[j].raw, id) ==>
             !IsActive(groups, activeId, j) && (j == i || After(groups, j, i)))
  }

  lemma FirstHolderDecides(groups: seq<GroupFile>, activeId: Option<string>, id: string, i: nat)
    ensures FirstHolder(groups, activeId, id, i) <==> DecidesGroup(groups, activeId, id, i)
  {
    forall j | 0 <= j < |groups|
      ensures HoldsGroup(groups[j].raw, id) <==> FirstEntry(LegacyAt(groups, j).ruleGroups, id).Some?
      ensures HasGroup(id)(Decoded(groups[j])) <==> FirstEntry(LegacyAt(groups, j).ruleGroups, id).Some?
    {
      HoldsGroupIff(groups[j].raw, id);
    }
  }

  /** Main result: the merged rule groups are exactly the first entries of their id in the file that decides it, field
      by field. */
  lemma RuleGroupByJson(groups: seq<GroupFile>, activeId: Option<string>, rg: RuleGroup)
    ensures rg in Merged(groups, activeId).ruleGroups <==>
            exists i: nat :: FirstHolder(groups, activeId, rg.id, i) && FirstWithId(RawRuleGroups(groups[i].raw), rg)
  {
    RuleGroupIff(groups, activeId, rg);
    forall i: nat | i < |groups|
      ensures FirstHolder(groups, activeId, rg.id, i) <==> DecidesGroup(groups, activeId, rg.id, i)
    {
      FirstHolderDecides(groups, activeId, rg.id, i);
    }
    forall i | 0 <= i < |groups|
      ensures FirstEntry(LegacyAt(groups, i).ruleGroups, rg.id) == Some(rg) <==>
              FirstWithId(RawRuleGroups(groups[i].raw), rg)
    {
      FirstEntryByJson(RawRuleGroups(groups[i].raw), rg);
    }
  }

  // ---- known hosts

  function RawKnownHosts(raw: Json): seq<Json> {
    if raw.Obj? && "knownHosts" in raw.fields && raw.fields["knownHosts"].Arr? then raw.fields["knownHosts"].items
    else []
  }

  /** The strings among the items, in order. */
  function StringsAmong(items: seq<Json>): seq<string> {
    if items == [] then []
    else (if items[0].Str? then [items[0].s] else []) + StringsAmong(items[1..])
  }

  lemma {:induction false} StringsSnoc(items: seq<Json>, last: Json)
    ensures StringsAmong(items + [last]) == StringsAmong(items) + (if last.Str? then [last.s] else [])
  {
    if items == [] {
      assert items + [last] == [last];
    } else {
      StringsSnoc(items[1..], last);
      assert (items + [last])[1..] == items[1..] + [last];
    }
  }

  lemma {:induction false} HostsAreStrings(items: seq<Json>)
    ensures DecodeHosts(items) == StringsAmong(items)
  {
    if items != [] {
      var n := |items| - 1;
      HostsAreStrings(items[..n]);
      StringsSnoc(items[..n], items[n]);
      assert items == items[..n] + [items[n]];
    }
  }

  /** Main result: of one file the newest thousand of the first occurrences of its strings are kept, in order. */
  lemma KnownHostsOfOne(file: GroupFile, activeId: Option<string>)
    ensures var all := FirstOf(StringsAmong(RawKnownHosts(file.raw)), Itself);
            var hosts := Merged([file], activeId).knownHosts;
            if |all| <= 1000 then hosts == all else |hosts| == 1000 && hosts == all[|all| - 1000..]
  {
    CappedOfOne([file], file, activeId);
    CapIs(FirstOf(StringsAmong(RawKnownHosts(file.raw)), Itself));
  }

  /** A single file is merged as it is, but for repeats and the cap on known hosts. */
  lemma OneMerged(file: GroupFile, activeId: Option<string>)
    ensures var merged, own := Merged([file], activeId), ExtractLegacy(file.raw);
            && merged.rules == own.rules && merged.ruleGroups == FirstOf(own.ruleGroups, GroupId)
            && merged.finalRoute == (if activeId == Some(file.id) then own.finalRoute.GetOr(Tunnel) else Tunnel)
            && merged.knownHosts == Capped(FirstOf(own.knownHosts, Itself))
  {
    OneInOrder(file, activeId);
    OneActive(file, activeId);
    OfOne(Decoded(file));
  }

  lemma OneActive(file: GroupFile, activeId: Option<string>)
    ensures ActiveOf([file], activeId) == if activeId == Some(file.id) then Some(Decoded(file)) else None
    ensures var active, others := ActiveOf([file], activeId), StableSort(OthersOf([file], activeId), SourceId);
            AsSeq(active) + others == [Decoded(file)]
  {
    OneInOrder(file, activeId);
    assert [file][..0] == [];
  }

  lemma OfOne(x: Source)
    ensures RulesOf([x]) == x.legacy.rules && AllRuleGroups([x]) == x.legacy.ruleGroups
    ensures AllHosts([x]) == x.legacy.knownHosts
  {
    assert [x][..0] == [] && RulesOf([]) == map[] && AllRuleGroups([]) == [] && AllHosts([]) == [];
    assert AllHosts([x]) == [] + x.legacy.knownHosts;
  }

  lemma CappedOfOne(groups: seq<GroupFile>, file: GroupFile, activeId: Option<string>)
    requires groups == [file]
    ensures Merged(groups, activeId).knownHosts == Capped(FirstOf(StringsAmong(RawKnownHosts(file.raw)), Itself))
  {
    OneMerged(file, activeId);
    HostsAreStrings(RawKnownHosts(file.raw));
  }

  lemma OneInOrder(file: GroupFile, activeId: Option<string>)
    ensures MergeOrder([file], activeId) == [Decoded(file)]
  {
    assert [file][..0] == [] && OthersOf([], activeId) == [] && ActiveOf([], activeId) == None;
    if activeId == Some(file.id) {
      assert ActiveOf([file], activeId) == Some(Decoded(file));
      assert OthersOf([file], activeId) == [] + [];
    } else {
      assert OthersOf([file], activeId) == [] + [Decoded(file)];
      SortOfOne(OthersOf([file], activeId));
    }
  }

  lemma SortOfOne(s: seq<Source>)
    requires |s| <= 1
    ensures StableSort(s, SourceId) == s
  {
    if |s| == 1 {
      assert s[..0] == [];
    }
  }

  ghost predicate Knows(groups: seq<GroupFile>, h: string) {
    exists i :: 0 <= i < |groups| && Str(h) in RawKnownHosts(groups[i].raw)
  }

  /** Main result: nothing else is known after the merge, and below the cap nothing is forgotten. */
  lemma KnownHostsByJson(groups: seq<GroupFile>, activeId: Option<string>, h: string)
    ensures h in Merged(groups, activeId).knownHosts ==> Knows(groups, h)
    ensures Knows(groups, h) && |Merged(groups, activeId).knownHosts| < 1000 ==>
              h in Merged(groups, activeId).knownHosts
  {
    var all := FirstOf(AllHosts(MergeOrder(groups, activeId)), Itself);
    KnownInOrder(groups, activeId);
    CapKeeps(all);
    InFirstOf(AllHosts(MergeOrder(groups, activeId)), h);
    HostsOfFiles(groups, activeId, h);
  }

  function MergeOrder(groups: seq<GroupFile>, activeId: Option<string>): seq<Source> {
    StableSort(OthersOf(groups, activeId), SourceId) + AsSeq(ActiveOf(groups, activeId))
  }

  lemma KnownInOrder(groups: seq<GroupFile>, activeId: Option<string>)
    ensures Merged(groups, activeId).knownHosts == Capped(FirstOf(AllHosts(MergeOrder(groups, activeId)), Itself))
  {
  }

  lemma CapIs(all: seq<string>)
    ensures if |all| <= 1000 then Capped(all) == all
            else |Capped(all)| == 1000 && Capped(all) == all[|all| - 1000..]
  {
  }

  lemma CapKeeps(all: seq<string>)
    ensures forall h :: h in Capped(all) ==> h in all
    ensures |Capped(all)| < 1000 ==> Capped(all) == all
  {
  }

  lemma HostsOfFiles(groups: seq<GroupFile>, activeId: Option<string>, h: string)
    ensures h in AllHosts(MergeOrder(groups, activeId)) <==> Knows(groups, h)
  {
    var order := MergeOrder(groups, activeId);
    InAllHosts(order, h);
    forall i | 0 <= i < |groups| && Str(h) in RawKnownHosts(groups[i].raw) ensures h in AllHosts(order) {
      HostOfFile(groups[i], h);
      SourcesAreFiles(groups, activeId, Decoded(groups[i]));
    }
    if x :| x in order && h in x.legacy.knownHosts {
      SourcesAreFiles(groups, activeId, x);
      var i :| 0 <= i < |groups| && x == Decoded(groups[i]);
      HostOfFile(groups[i], h);
    }
  }

  lemma HostOfFile(file: GroupFile, h: string)
    ensures h in Decoded(file).legacy.knownHosts <==> Str(h) in RawKnownHosts(file.raw)
  {
    HostsAreStrings(RawKnownHosts(file.raw));
    InStrings(RawKnownHosts(file.raw), h);
  }

  lemma {:induction false} InStrings(items: seq<Json>, h: string)
    ensures h in StringsAmong(items) <==> Str(h) in items
  {
    if items != [] {
      InStrings(items[1..], h);
    }
  }

  lemma InFirstOf(s: seq<string>, h: string)
    ensures h in FirstOf(s, Itself) <==> h in s
  {
    FirstOfKeys(s, Itself, h);
    var r := FirstOf(s, Itself);
    if h in s {
      var i :| 0 <= i < |s| && s[i] == h;
      assert Itself(s[i]) == h;
    }
    if h in r {
      var i :| 0 <= i < |r| && r[i] == h;
      assert Itself(r[i]) == h;
    }
  }

  lemma {:induction false} InAllHosts(sources: seq<Source>, h: string)
    ensures h in AllHosts(sources) <==> exists x :: x in sources && h in x.legacy.knownHosts
  {
    if sources != [] {
      var n := |sources| - 1;
      InAllHosts(sources[..n], h);
      assert forall x :: x in sources <==> x in sources[..n] || x == sources[n];
    }
  }

  /** The sources that are merged are exactly the decoded files. */
  lemma SourcesAreFiles(groups: seq<GroupFile>, activeId: Option<string>, x: Source)
    ensures x in MergeOrder(groups, activeId) <==> exists i :: 0 <= i < |groups| && x == Decoded(groups[i])
  {
    SortedHolds(OthersOf(groups, activeId), x);
    InOthers(groups, activeId, x);
    ActiveIsFile(groups, activeId, x);
  }

  lemma SortedHolds(s: seq<Source>, x: Source)
    ensures x in StableSort(s, SourceId) <==> x in s
  {
    StableSortElements(s, SourceId);
    assert x in StableSort(s, SourceId) <==> x in multiset(StableSort(s, SourceId));
    assert x in s <==> x in multiset(s);
  }

  lemma ActiveIsFile(groups: seq<GroupFile>, activeId: Option<string>, x: Source)
    ensures ActiveOf(groups, activeId) == Some(x) <==>
            exists i :: 0 <= i < |groups| && IsActive(groups, activeId, i) && x == Decoded(groups[i])
  {
    var a := ActiveExists(groups, activeId);
    forall i | 0 <= i < |groups| && IsActive(groups, activeId, i)
      ensures ActiveOf(groups, activeId) == Some(Decoded(groups[i]))
    {
      ActiveIs(groups, activeId, i);
    }
  }
}
