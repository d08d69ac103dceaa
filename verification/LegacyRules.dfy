/**
 The one-time merge of the rules that older builds kept on every group file into the global rule
 set: what each file contributes, and who wins where files disagree.
 */
module LegacyRules {
  import opened Wrappers
  import opened Text
  import opened Lists
  import opened Sorting
  import opened Routes

  /** A parsed JSON value. Object keys are unique. */
  datatype Json = Null | Bool(b: bool) | Num(n: int) | Str(s: string) | Arr(items: seq<Json>)
      | Obj(fields: map<string, Json>) {

    function Get(k: string): Option<Json> {
      if Obj? && k in fields then Some(fields[k]) else None
    }

    function Items(): seq<Json> {
      if Arr? then items else []
    }
  }

  datatype RuleGroup = RuleGroup(id: string, name: string, domains: seq<string>, route: Route)

  datatype RuleSet = RuleSet(rules: map<string, Route>, ruleGroups: seq<RuleGroup>, finalRoute: Route,
                             knownHosts: seq<string>)

  const EmptyRules := RuleSet(map[], [], Tunnel, [])

  const KNOWN_HOSTS_CAP: nat := 1000

  // ---- decoding one group file

  /** A route: a bare string, or an object with an optional string `kind`; anything else is tunnel. */
  function DecodeRoute(j: Json): Route {
    match j
    case Str(s) => KindOf(s)
    case Obj(_) =>
      (match j.Get("kind")
       case Some(Str(s)) => KindOf(s)
       case _ => Tunnel)
    case _ => Tunnel
  }

  function DecodeStrings(j: Json): Option<seq<string>> {
    if j.Arr? && forall i :: 0 <= i < |j.items| ==> j.items[i].Str?
    then Some(seq(|j.items|, i requires 0 <= i < |j.items| => j.items[i].s))
    else None
  }

  /** A rule group needs `id`, `name` and `route`; it may also come as the array of its four fields. */
  function DecodeRuleGroup(j: Json): Option<RuleGroup> {
    match j
    case Obj(_) =>
      var domains := DecodeStrings(j.Get("domains").GetOr(Arr([])));
      (match (j.Get("id"), j.Get("name"), j.Get("route"), domains)
       case (Some(Str(id)), Some(Str(name)), Some(route), Some(ds)) => Some(RuleGroup(id, name, ds, DecodeRoute(route)))
       case _ => None)
    case Arr(items) =>
      if |items| != 4 then None
      else
        (match (items[0], items[1], DecodeStrings(items[2]))
         case (Str(id), Str(name), Some(ds)) => Some(RuleGroup(id, name, ds, DecodeRoute(items[3])))
         case _ => None)
    case _ => None
  }

  datatype Legacy = Legacy(rules: map<string, Route>, ruleGroups: seq<RuleGroup>, finalRoute: Option<Route>,
                           knownHosts: seq<string>)

  function DecodeRules(j: Json): map<string, Route> {
    if j.Obj? then map k | k in j.fields :: DecodeRoute(j.fields[k]) else map[]
  }

  /** The entries that decode, in order. */
  function DecodeRuleGroups(items: seq<Json>): seq<RuleGroup> {
    if items == [] then []
    else
      var g := DecodeRuleGroup(items[|items| - 1]);
      DecodeRuleGroups(items[..|items| - 1]) + (if g.Some? then [g.value] else [])
  }

  function DecodeHosts(items: seq<Json>): seq<string> {
    if items == [] then []
    else
      var h := items[|items| - 1];
      DecodeHosts(items[..|items| - 1]) + (if h.Str? then [h.s] else [])
  }

  function ExtractLegacy(raw: Json): Legacy {
    Legacy(
      DecodeRules(raw.Get("rules").GetOr(Null)),
      DecodeRuleGroups(raw.Get("ruleGroups").GetOr(Null).Items()),
      match raw.Get("finalRoute") {
        case Some(v) => if v.Null? then None else Some(DecodeRoute(v).AsFinal())
        case None => None
      },
      DecodeHosts(raw.Get("knownHosts").GetOr(Null).Items()))
  }

  // ---- keys and caps

  function GroupId(g: RuleGroup): string {
    g.id
  }

  /** The newest `KNOWN_HOSTS_CAP` hosts. */
  function Capped(hosts: seq<string>): (r: seq<string>)
    ensures |r| <= KNOWN_HOSTS_CAP
  {
    if |hosts| > KNOWN_HOSTS_CAP then hosts[|hosts| - KNOWN_HOSTS_CAP..] else hosts
  }

  /** What reading and writing `rules.json` makes of a set. */
  function Normalized(set0: RuleSet): RuleSet {
    set0.(finalRoute := set0.finalRoute.AsFinal(), knownHosts := Capped(set0.knownHosts))
  }

  // ---- the merge, as a specification

  datatype GroupFile = GroupFile(id: string, raw: Json)

  datatype Source = Source(id: string, legacy: Legacy)

  function SourceId(s: Source): string {
    s.id
  }

  function Decoded(g: GroupFile): Source {
    Source(g.id, ExtractLegacy(g.raw))
  }

  /** The active group: the first file that carries the active id. */
  function ActiveOf(groups: seq<GroupFile>, activeId: Option<string>): Option<Source> {
    if groups == [] then None
    else
      var n := |groups| - 1;
      var before := ActiveOf(groups[..n], activeId);
      if before.None? && activeId == Some(groups[n].id) then Some(Decoded(groups[n])) else before
  }

  function OthersOf(groups: seq<GroupFile>, activeId: Option<string>): seq<Source> {
    if groups == [] then []
    else
      var n := |groups| - 1;
      OthersOf(groups[..n], activeId) +
      (if ActiveOf(groups[..n], activeId).None? && activeId == Some(groups[n].id) then [] else [Decoded(groups[n])])
  }

  function AsSeq(active: Option<Source>): seq<Source> {
    if active.Some? then [active.value] else []
  }

  /** Later sources overwrite earlier ones. */
  function RulesOf(sources: seq<Source>): map<string, Route> {
    if sources == [] then map[]
    else RulesOf(sources[..|sources| - 1]) + sources[|sources| - 1].legacy.rules
  }

  function AllRuleGroups(sources: seq<Source>): seq<RuleGroup> {
    if sources == [] then []
    else AllRuleGroups(sources[..|sources| - 1]) + sources[|sources| - 1].legacy.ruleGroups
  }

  function AllHosts(sources: seq<Source>): seq<string> {
    if sources == [] then []
    else AllHosts(sources[..|sources| - 1]) + sources[|sources| - 1].legacy.knownHosts
  }

  function Merged(groups: seq<GroupFile>, activeId: Option<string>): RuleSet {
    var active := ActiveOf(groups, activeId);
    var others := StableSort(OthersOf(groups, activeId), SourceId);
    RuleSet(
      RulesOf(others + AsSeq(active)),
      FirstOf(AllRuleGroups(AsSeq(active) + others), GroupId),
      (if active.Some? then active.value.legacy.finalRoute.GetOr(Tunnel) else Tunnel),
      Capped(FirstOf(AllHosts(others + AsSeq(active)), Itself)))
  }

  // ---- the code

  /** Groups split into the active one and the others. */
  method Separate(groups: seq<GroupFile>, activeId: Option<string>) returns (others: seq<Source>,
          active: Option<Source>)
    ensures others == OthersOf(groups, activeId) && active == ActiveOf(groups, activeId)
  {
    others, active := [], None;
    for i := 0 to |groups|
      invariant others == OthersOf(groups[..i], activeId) && active == ActiveOf(groups[..i], activeId)
    {
      assert groups[..i+1][..i] == groups[..i];
      var parsed := Decoded(groups[i]);
      if active.None? && activeId == Some(groups[i].id) {
        active := Some(parsed);
      } else {
        others := others + [parsed];
      }
    }
    assert groups[..|groups|] == groups;
  }

  method InsertRules(sources: seq<Source>) returns (rules: map<string, Route>)
    ensures rules == RulesOf(sources)
  {
    rules := map[];
    for i := 0 to |sources|
      invariant rules == RulesOf(sources[..i])
    {
      assert sources[..i+1][..i] == sources[..i];
      rules := rules + sources[i].legacy.rules;
    }
    assert sources[..|sources|] == sources;
  }

  /** One source's entries pushed onto the list, skipping keys seen before. */
  method PushNew<T>(items: seq<T>, key: T -> string, before: seq<T>, seen: set<string>, list: seq<T>)
    returns (nowSeen: set<string>, longer: seq<T>)
    requires forall k :: k in seen <==> HasKey(before, key, k)
    requires list == FirstOf(before, key)
    ensures forall k :: k in nowSeen <==> HasKey(before + items, key, k)
    ensures longer == FirstOf(before + items, key)
  {
    nowSeen, longer := seen, list;
    assert before + items[..0] == before;
    for i := 0 to |items|
      invariant forall k :: k in nowSeen <==> HasKey(before + items[..i], key, k)
      invariant longer == FirstOf(before + items[..i], key)
    {
      assert before + items[..i+1] == (before + items[..i]) + [items[i]];
      FirstOfSnoc(before + items[..i], items[i], key);
      if key(items[i]) !in nowSeen {
        nowSeen, longer := nowSeen + {key(items[i])}, longer + [items[i]];
      }
    }
    assert items[..|items|] == items;
  }

  method CollectRuleGroups(sources: seq<Source>) returns (list: seq<RuleGroup>)
    ensures list == FirstOf(AllRuleGroups(sources), GroupId)
  {
    list := [];
    var seen: set<string> := {};
    for i := 0 to |sources|
      invariant forall k :: k in seen <==> HasKey(AllRuleGroups(sources[..i]), GroupId, k)
      invariant list == FirstOf(AllRuleGroups(sources[..i]), GroupId)
    {
      assert sources[..i+1][..i] == sources[..i];
      seen, list := PushNew(sources[i].legacy.ruleGroups, GroupId, AllRuleGroups(sources[..i]), seen, list);
    }
    assert sources[..|sources|] == sources;
  }

  method CollectHosts(sources: seq<Source>) returns (list: seq<string>)
    ensures list == FirstOf(AllHosts(sources), Itself)
  {
    list := [];
    var seen: set<string> := {};
    for i := 0 to |sources|
      invariant forall k :: k in seen <==> HasKey(AllHosts(sources[..i]), Itself, k)
      invariant list == FirstOf(AllHosts(sources[..i]), Itself)
    {
      assert sources[..i+1][..i] == sources[..i];
      seen, list := PushNew(sources[i].legacy.knownHosts, Itself, AllHosts(sources[..i]), seen, list);
    }
    assert sources[..|sources|] == sources;
  }

  method MergeLegacyGroups(groups: seq<GroupFile>, activeId: Option<string>) returns (out: RuleSet)
    ensures out == Merged(groups, activeId)
  {
    var others, active := Separate(groups, activeId);
    others := StableSort(others, SourceId);
    var rules := InsertRules(others + AsSeq(active));
    var ruleGroups := CollectRuleGroups(AsSeq(active) + others);
    var final := if active.Some? then active.value.legacy.finalRoute.GetOr(Tunnel) else Tunnel;
    var hosts := CollectHosts(others + AsSeq(active));
    out := RuleSet(rules, ruleGroups, final, Capped(hosts));
  }

  // ---- who wins

  predicate IsActive(groups: seq<GroupFile>, activeId: Option<string>, i: nat)
    requires i < |groups|
  {
    activeId == Some(groups[i].id) && forall j :: 0 <= j < i ==> groups[j].id != groups[i].id
  }

  function LegacyAt(groups: seq<GroupFile>, i: nat): Legacy
    requires i < |groups|
  {
    ExtractLegacy(groups[i].raw)
  }

  /** Among the groups that are not active, `i` comes after `j`: greater id, or the same id and later in the input. */
  predicate After(groups: seq<GroupFile>, i: nat, j: nat)
    requires i < |groups| && j < |groups|
  {
    LexLt(groups[j].id, groups[i].id) || (groups[j].id == groups[i].id && j < i)
  }

  lemma {:induction false} ActiveExists(groups: seq<GroupFile>, activeId: Option<string>) returns (i: nat)
    ensures if ActiveOf(groups, activeId).Some?
            then i < |groups| && IsActive(groups, activeId, i) && ActiveOf(groups, activeId) == Some(Decoded(groups[i]))
            else forall j :: 0 <= j < |groups| ==> activeId != Some(groups[j].id)
  {
    i := 0;
    if groups != [] {
      var n := |groups| - 1;
      i := ActiveExists(groups[..n], activeId);
      assert forall j :: 0 <= j < n ==> groups[..n][j] == groups[j];
      if ActiveOf(groups[..n], activeId).None? {
        i := n;
      }
    }
  }

  lemma ActiveIs(groups: seq<GroupFile>, activeId: Option<string>, i: nat)
    requires i < |groups| && IsActive(groups, activeId, i)
    ensures ActiveOf(groups, activeId) == Some(Decoded(groups[i]))
  {
    var k := ActiveExists(groups, activeId);
  }

  lemma ActiveOrNot(groups: seq<GroupFile>, activeId: Option<string>, n: nat)
    requires n < |groups|
    ensures IsActive(groups, activeId, n) <==> ActiveOf(groups[..n], activeId).None? && activeId == Some(groups[n].id)
  {
    var k := ActiveExists(groups[..n], activeId);
    assert forall j :: 0 <= j < n ==> groups[..n][j] == groups[j];
  }

  /** The last, and the first, source with a property. */
  function LastWith(s: seq<Source>, p: Source -> bool): Option<Source> {
    if s == [] then None
    else if p(s[|s| - 1]) then Some(s[|s| - 1])
    else LastWith(s[..|s| - 1], p)
  }

  function FirstWith(s: seq<Source>, p: Source -> bool): Option<Source> {
    if s == [] then None
    else
      var first := FirstWith(s[..|s| - 1], p);
      if first.None? && p(s[|s| - 1]) then Some(s[|s| - 1]) else first
  }

  lemma {:induction false} LastWithIn(s: seq<Source>, p: Source -> bool)
    ensures var r := LastWith(s, p); r.Some? ==> p(r.value) && r.value in s
  {
    if s != [] && !p(s[|s| - 1]) {
      LastWithIn(s[..|s| - 1], p);
    }
  }

  lemma {:induction false} FirstWithIn(s: seq<Source>, p: Source -> bool)
    ensures var r := FirstWith(s, p); r.Some? ==> p(r.value) && r.value in s
  {
    if s != [] {
      FirstWithIn(s[..|s| - 1], p);
    }
  }

  lemma {:induction false} LastOfInsert(s: seq<Source>, x: Source, p: Source -> bool)
    requires Sorted(s, SourceId)
    ensures var r := LastWith(s, p);
            LastWith(Insert(s, x, SourceId), p) ==
              if p(x) && (r.None? || LexLe(r.value.id, x.id)) then Some(x) else r
    decreases |s|
  {
    var n := |s| - 1;
    if s == [] || LexLe(s[n].id, x.id) {
      assert (s + [x])[..|s|] == s;
      LastBelow(s, x, p);
    } else {
      LastOfInsert(s[..n], x, p);
      var shorter := Insert(s[..n], x, SourceId);
      assert (shorter + [s[n]])[..n + 1] == shorter;
    }
  }

  lemma LastBelow(s: seq<Source>, x: Source, p: Source -> bool)
    requires Sorted(s, SourceId) && (s == [] || LexLe(s[|s| - 1].id, x.id))
    ensures var r := LastWith(s, p); r.Some? ==> LexLe(r.value.id, x.id)
  {
    LastWithIn(s, p);
    var r := LastWith(s, p);
    if r.Some? {
      BelowLast(s, x, r.value);
    }
  }

  /** Whatever is in a sorted list is no greater than what its last element is no greater than. */
  lemma BelowLast(s: seq<Source>, x: Source, y: Source)
    requires Sorted(s, SourceId) && y in s && LexLe(s[|s| - 1].id, x.id)
    ensures LexLe(y.id, x.id)
  {
    var n := |s| - 1;
    var i :| 0 <= i < |s| && s[i] == y;
    if i < n {
      assert LexLe(SourceId(s[i]), SourceId(s[n]));
      LexTransitive(s[i].id, s[n].id, x.id);
    }
  }

  lemma {:induction false} FirstOfInsert(s: seq<Source>, x: Source, p: Source -> bool)
    requires Sorted(s, SourceId)
    ensures var r := FirstWith(s, p);
            FirstWith(Insert(s, x, SourceId), p) ==
              if p(x) && (r.None? || !LexLe(r.value.id, x.id)) then Some(x) else r
    decreases |s|
  {
    var n := |s| - 1;
    if s == [] || LexLe(s[n].id, x.id) {
      assert (s + [x])[..|s|] == s;
      FirstBelow(s, x, p);
    } else {
      FirstOfInsert(s[..n], x, p);
      var shorter := Insert(s[..n], x, SourceId);
      assert (shorter + [s[n]])[..n + 1] == shorter;
    }
  }

  lemma FirstBelow(s: seq<Source>, x: Source, p: Source -> bool)
    requires Sorted(s, SourceId) && (s == [] || LexLe(s[|s| - 1].id, x.id))
    ensures var r := FirstWith(s, p); r.Some? ==> LexLe(r.value.id, x.id)
  {
    FirstWithIn(s, p);
    var r := FirstWith(s, p);
    if r.Some? {
      BelowLast(s, x, r.value);
    }
  }

  /** Among the groups that are not active and have the property, the one that comes last by id. */
  ghost predicate IsLast(groups: seq<GroupFile>, activeId: Option<string>, p: Source -> bool, i: nat) {
    && i < |groups| && !IsActive(groups, activeId, i) && p(Decoded(groups[i]))
    && forall j :: 0 <= j < |groups| && !IsActive(groups, activeId, j) && p(Decoded(groups[j])) ==>
       j == i || After(groups, i, j)
  }

  ghost predicate IsFirst(groups: seq<GroupFile>, activeId: Option<string>, p: Source -> bool, i: nat) {
    && i < |groups| && !IsActive(groups, activeId, i) && p(Decoded(groups[i]))
    && forall j :: 0 <= j < |groups| && !IsActive(groups, activeId, j) && p(Decoded(groups[j])) ==>
       j == i || After(groups, j, i)
  }

  ghost predicate NoOther(groups: seq<GroupFile>, activeId: Option<string>, p: Source -> bool) {
    forall j :: 0 <= j < |groups| && p(Decoded(groups[j])) ==> IsActive(groups, activeId, j)
  }

  lemma InitActive(groups: seq<GroupFile>, activeId: Option<string>)
    requires groups != []
    ensures forall j :: 0 <= j < |groups| - 1 ==>
              groups[..|groups| - 1][j] == groups[j] &&
              (IsActive(groups[..|groups| - 1], activeId, j) <==> IsActive(groups, activeId, j))
  {
  }

  /** Adding one group to the input puts one more source into the sorted list, unless it is the active one. */
  lemma SortOneMore(groups: seq<GroupFile>, activeId: Option<string>)
    requires groups != []
    ensures var n := |groups| - 1;
            var before := StableSort(OthersOf(groups[..n], activeId), SourceId);
            && Sorted(before, SourceId)
            && StableSort(OthersOf(groups, activeId), SourceId) ==
                 if IsActive(groups, activeId, n) then before else Insert(before, Decoded(groups[n]), SourceId)
  {
    var n := |groups| - 1;
    var others, x := OthersOf(groups[..n], activeId), Decoded(groups[n]);
    ActiveOrNot(groups, activeId, n);
    StableSortIsSorted(others, SourceId);
    assert (others + [x])[..|others|] == others;
    assert others + [] == others;
  }

  lemma NoneBefore(groups: seq<GroupFile>, activeId: Option<string>, p: Source -> bool)
    requires groups != [] && NoOther(groups[..|groups| - 1], activeId, p)
    ensures var n := |groups| - 1;
            if IsActive(groups, activeId, n) || !p(Decoded(groups[n])) then NoOther(groups, activeId, p)
            else IsLast(groups, activeId, p, n) && IsFirst(groups, activeId, p, n)
  {
    var n := |groups| - 1;
    InitActive(groups, activeId);
    forall j | 0 <= j < n && p(Decoded(groups[j])) ensures IsActive(groups, activeId, j) {
      assert p(Decoded(groups[..n][j]));
    }
  }

  /** Where the last source with a property in sorted order comes from. */
  lemma {:induction false} LastOfOthers(groups: seq<GroupFile>, activeId: Option<string>, p: Source -> bool)
    returns (i: nat)
    ensures var r := LastWith(StableSort(OthersOf(groups, activeId), SourceId), p);
            if r.Some? then IsLast(groups, activeId, p, i) && r.value == Decoded(groups[i])
            else NoOther(groups, activeId, p)
    decreases |groups|
  {
    i := 0;
    if groups != [] {
      var n := |groups| - 1;
      var k := LastOfOthers(groups[..n], activeId, p);
      var sorted, x := StableSort(OthersOf(groups[..n], activeId), SourceId), Decoded(groups[n]);
      var r := LastWith(sorted, p);
      SortOneMore(groups, activeId);
      i := k;
      if !IsActive(groups, activeId, n) {
        LastOfInsert(sorted, x, p);
        if p(x) && (r.None? || LexLe(r.value.id, x.id)) {
          i := n;
        }
      }
      if r.None? {
        NoneBefore(groups, activeId, p);
      } else if i == n {
        NewLast(groups, activeId, p, k);
      } else {
        OldLast(groups, activeId, p, k);
      }
    }
  }

  lemma NewLast(groups: seq<GroupFile>, activeId: Option<string>, p: Source -> bool, k: nat)
    requires groups != [] && IsLast(groups[..|groups| - 1], activeId, p, k)
    requires var n := |groups| - 1;
             !IsActive(groups, activeId, n) && p(Decoded(groups[n])) && LexLe(groups[k].id, groups[n].id)
    ensures IsLast(groups, activeId, p, |groups| - 1)
  {
    var n := |groups| - 1;
    InitActive(groups, activeId);
    forall j | 0 <= j < n && !IsActive(groups, activeId, j) && p(Decoded(groups[j])) ensures After(groups, n, j) {
      assert j == k || After(groups[..n], k, j);
      if j != k {
        LexTransitiveOrEqual(groups[j].id, groups[k].id, groups[n].id);
      }
    }
  }

  lemma OldLast(groups: seq<GroupFile>, activeId: Option<string>, p: Source -> bool, k: nat)
    requires groups != [] && IsLast(groups[..|groups| - 1], activeId, p, k)
    requires var n := |groups| - 1;
             IsActive(groups, activeId, n) || !p(Decoded(groups[n])) || !LexLe(groups[k].id, groups[n].id)
    ensures IsLast(groups, activeId, p, k)
  {
    var n := |groups| - 1;
    InitActive(groups, activeId);
    LexTotal(groups[k].id, groups[n].id);
    forall j | 0 <= j < n && !IsActive(groups, activeId, j) && p(Decoded(groups[j]))
      ensures j == k || After(groups, k, j) {
      assert j == k || After(groups[..n], k, j);
    }
  }

  lemma LexTransitiveOrEqual(a: string, b: string, c: string)
    requires (LexLt(a, b) || a == b) && LexLe(b, c)
    ensures LexLt(a, c) || a == c
  {
    if a != b {
      LexTransitive(a, b, c);
    }
  }

  lemma {:induction false} FirstOfOthers(groups: seq<GroupFile>, activeId: Option<string>, p: Source -> bool)
    returns (i: nat)
    ensures var r := FirstWith(StableSort(OthersOf(groups, activeId), SourceId), p);
            if r.Some? then IsFirst(groups, activeId, p, i) && r.value == Decoded(groups[i])
            else NoOther(groups, activeId, p)
    decreases |groups|
  {
    i := 0;
    if groups != [] {
      var n := |groups| - 1;
      var k := FirstOfOthers(groups[..n], activeId, p);
      var sorted, x := StableSort(OthersOf(groups[..n], activeId), SourceId), Decoded(groups[n]);
      var r := FirstWith(sorted, p);
      SortOneMore(groups, activeId);
      i := k;
      if !IsActive(groups, activeId, n) {
        FirstOfInsert(sorted, x, p);
        if p(x) && (r.None? || !LexLe(r.value.id, x.id)) {
          i := n;
        }
      }
      if r.None? {
        NoneBefore(groups, activeId, p);
      } else if i == n {
        NewFirst(groups, activeId, p, k);
      } else {
        OldFirst(groups, activeId, p, k);
      }
    }
  }

  lemma NewFirst(groups: seq<GroupFile>, activeId: Option<string>, p: Source -> bool, k: nat)
    requires groups != [] && IsFirst(groups[..|groups| - 1], activeId, p, k)
    requires var n := |groups| - 1;
             !IsActive(groups, activeId, n) && p(Decoded(groups[n])) && !LexLe(groups[k].id, groups[n].id)
    ensures IsFirst(groups, activeId, p, |groups| - 1)
  {
    var n := |groups| - 1;
    InitActive(groups, activeId);
    LexTotal(groups[k].id, groups[n].id);
    forall j | 0 <= j < n && !IsActive(groups, activeId, j) && p(Decoded(groups[j])) ensures After(groups, j, n) {
      assert j == k || After(groups[..n], j, k);
      if j != k && groups[j].id != groups[k].id {
        LexTransitive(groups[n].id, groups[k].id, groups[j].id);
      }
    }
  }

  lemma OldFirst(groups: seq<GroupFile>, activeId: Option<string>, p: Source -> bool, k: nat)
    requires groups != [] && IsFirst(groups[..|groups| - 1], activeId, p, k)
    requires var n := |groups| - 1;
             IsActive(groups, activeId, n) || !p(Decoded(groups[n])) || LexLe(groups[k].id, groups[n].id)
    ensures IsFirst(groups, activeId, p, k)
  {
    var n := |groups| - 1;
    InitActive(groups, activeId);
    forall j | 0 <= j < n && !IsActive(groups, activeId, j) && p(Decoded(groups[j]))
      ensures j == k || After(groups, j, k) {
      assert j == k || After(groups[..n], j, k);
    }
  }

  // ---- main results

  function DefinesHost(h: string): Source -> bool {
    (s: Source) => h in s.legacy.rules
  }

  /** The group whose rule for `h` counts: the active one, else that of the greatest id defining it. */
  ghost predicate DecidesHost(groups: seq<GroupFile>, activeId: Option<string>, h: string, i: nat) {
    && i < |groups| && h in LegacyAt(groups, i).rules
    && (IsActive(groups, activeId, i) ||
        (IsLast(groups, activeId, DefinesHost(h), i) &&
         forall a :: 0 <= a < |groups| && IsActive(groups, activeId, a) ==> h !in LegacyAt(groups, a).rules))
  }

  lemma {:induction false} RulesAreLast(sources: seq<Source>, h: string)
    ensures h in RulesOf(sources) <==> LastWith(sources, DefinesHost(h)).Some?
    ensures var r := LastWith(sources, DefinesHost(h));
            r.Some? ==> h in r.value.legacy.rules && RulesOf(sources)[h] == r.value.legacy.rules[h]
  {
    LastWithIn(sources, DefinesHost(h));
    if sources != [] {
      LastWithIn(sources[..|sources| - 1], DefinesHost(h));
      RulesAreLast(sources[..|sources| - 1], h);
    }
  }

  lemma LastWithActive(others: seq<Source>, active: Option<Source>, p: Source -> bool)
    ensures LastWith(others + AsSeq(active), p) ==
              if active.Some? && p(active.value) then active else LastWith(others, p)
  {
    if active.Some? {
      assert (others + AsSeq(active))[..|others|] == others;
    } else {
      assert others + AsSeq(active) == others;
    }
  }

  /** The group that decides a host, if any does. */
  lemma HostDecided(groups: seq<GroupFile>, activeId: Option<string>, h: string) returns (i: nat)
    ensures var rules := Merged(groups, activeId).rules;
            if h in rules then DecidesHost(groups, activeId, h, i) && rules[h] == LegacyAt(groups, i).rules[h]
            else forall j :: 0 <= j < |groups| ==> h !in LegacyAt(groups, j).rules
  {
    var active := ActiveOf(groups, activeId);
    var others := StableSort(OthersOf(groups, activeId), SourceId);
    RulesAreLast(others + AsSeq(active), h);
    LastWithActive(others, active, DefinesHost(h));
    var a := ActiveExists(groups, activeId);
    i := LastOfOthers(groups, activeId, DefinesHost(h));
    if active.Some? && h in active.value.legacy.rules {
      i := a;
    } else {
      assert forall k :: 0 <= k < |groups| && IsActive(groups, activeId, k) ==> k == a;
      if LastWith(others, DefinesHost(h)).None? {
        forall j | 0 <= j < |groups| ensures h !in LegacyAt(groups, j).rules {
          assert DefinesHost(h)(Decoded(groups[j])) ==> IsActive(groups, activeId, j);
        }
      }
    }
  }

  lemma AfterIsStrict(groups: seq<GroupFile>, i: nat, j: nat)
    requires i < |groups| && j < |groups| && After(groups, i, j)
    ensures !After(groups, j, i)
  {
    if LexLe(groups[i].id, groups[j].id) && LexLe(groups[j].id, groups[i].id) {
      LexAntisymmetric(groups[i].id, groups[j].id);
    }
  }

  lemma DeciderIsUnique(groups: seq<GroupFile>, activeId: Option<string>, h: string, i: nat, j: nat)
    requires DecidesHost(groups, activeId, h, i) && DecidesHost(groups, activeId, h, j)
    ensures i == j
  {
    if !IsActive(groups, activeId, i) && After(groups, i, j) {
      AfterIsStrict(groups, i, j);
    }
  }

  /** Main result: every host takes the active group's route, else that of the greatest id defining it. */
  lemma HostRouteIff(groups: seq<GroupFile>, activeId: Option<string>, h: string, route: Route)
    ensures var rules := Merged(groups, activeId).rules;
            (h in rules && rules[h] == route) <==>
            exists i :: DecidesHost(groups, activeId, h, i) && LegacyAt(groups, i).rules[h] == route
  {
    var i := HostDecided(groups, activeId, h);
    if h in Merged(groups, activeId).rules {
      forall j | DecidesHost(groups, activeId, h, j) ensures j == i {
        DeciderIsUnique(groups, activeId, h, i, j);
      }
    }
  }

  /** The first entry with an id. */
  function FirstEntry(list: seq<RuleGroup>, id: string): Option<RuleGroup> {
    if list == [] then None
    else
      var first := FirstEntry(list[..|list| - 1], id);
      if first.None? && list[|list| - 1].id == id then Some(list[|list| - 1]) else first
  }

  function HasGroup(id: string): Source -> bool {
    (s: Source) => FirstEntry(s.legacy.ruleGroups, id).Some?
  }

  /** The file whose rule group with this id counts: the active one, else that of the smallest id holding one. */
  ghost predicate DecidesGroup(groups: seq<GroupFile>, activeId: Option<string>, id: string, i: nat) {
    && i < |groups| && FirstEntry(LegacyAt(groups, i).ruleGroups, id).Some?
    && (IsActive(groups, activeId, i) ||
        (IsFirst(groups, activeId, HasGroup(id), i) &&
         forall a :: 0 <= a < |groups| && IsActive(groups, activeId, a) ==>
         FirstEntry(LegacyAt(groups, a).ruleGroups, id).None?))
  }

  lemma {:induction false} FirstEntryIn(list: seq<RuleGroup>, id: string)
    ensures FirstEntry(list, id).Some? <==> HasKey(list, GroupId, id)
    ensures FirstEntry(list, id).Some? ==> FirstEntry(list, id).value.id == id
  {
    if list != [] {
      var n := |list| - 1;
      FirstEntryIn(list[..n], id);
      HasKeySnoc(list[..n], list[n], GroupId);
      assert list == list[..n] + [list[n]];
    }
  }

  lemma {:induction false} FirstOfEntries(list: seq<RuleGroup>, rg: RuleGroup)
    ensures rg in FirstOf(list, GroupId) <==> FirstEntry(list, rg.id) == Some(rg)
  {
    if list != [] {
      var n := |list| - 1;
      FirstOfEntries(list[..n], rg);
      FirstEntryIn(list[..n], list[n].id);
    }
  }

  lemma {:induction false} FirstEntryConcat(a: seq<RuleGroup>, b: seq<RuleGroup>, id: string)
    ensures FirstEntry(a + b, id) == if FirstEntry(a, id).Some? then FirstEntry(a, id) else FirstEntry(b, id)
    decreases |b|
  {
    if b == [] {
      assert a + b == a;
    } else {
      FirstEntryConcat(a, b[..|b| - 1], id);
      assert (a + b)[..|a + b| - 1] == a + b[..|b| - 1];
    }
  }

  lemma {:induction false} EntryOfAll(sources: seq<Source>, id: string)
    ensures FirstEntry(AllRuleGroups(sources), id) ==
              match FirstWith(sources, HasGroup(id))
              case Some(s) => FirstEntry(s.legacy.ruleGroups, id)
              case None => None
  {
    if sources != [] {
      var n := |sources| - 1;
      EntryOfAll(sources[..n], id);
      FirstWithIn(sources[..n], HasGroup(id));
      FirstEntryConcat(AllRuleGroups(sources[..n]), sources[n].legacy.ruleGroups, id);
    }
  }

  lemma {:induction false} FirstWithHead(x: Source, s: seq<Source>, p: Source -> bool)
    ensures FirstWith([x] + s, p) == if p(x) then Some(x) else FirstWith(s, p)
    decreases |s|
  {
    if s == [] {
      assert [x] + s == [x];
      assert [x][..0] == [];
    } else {
      FirstWithHead(x, s[..|s| - 1], p);
      assert ([x] + s)[..|s|] == [x] + s[..|s| - 1];
    }
  }

  lemma FirstWithActive(active: Option<Source>, others: seq<Source>, p: Source -> bool)
    ensures FirstWith(AsSeq(active) + others, p) ==
              if active.Some? && p(active.value) then active else FirstWith(others, p)
  {
    if active.Some? {
      FirstWithHead(active.value, others, p);
    } else {
      assert AsSeq(active) + others == others;
    }
  }

  lemma GroupDecided(groups: seq<GroupFile>, activeId: Option<string>, id: string) returns (i: nat)
    ensures var active, others := ActiveOf(groups, activeId), StableSort(OthersOf(groups, activeId), SourceId);
            var entry := FirstEntry(AllRuleGroups(AsSeq(active) + others), id);
            if entry.Some? then DecidesGroup(groups, activeId, id, i) &&
               entry == FirstEntry(LegacyAt(groups, i).ruleGroups, id)
            else forall j :: 0 <= j < |groups| ==> FirstEntry(LegacyAt(groups, j).ruleGroups, id).None?
  {
    var active := ActiveOf(groups, activeId);
    var others := StableSort(OthersOf(groups, activeId), SourceId);
    EntryOfAll(AsSeq(active) + others, id);
    FirstWithActive(active, others, HasGroup(id));
    FirstWithIn(others, HasGroup(id));
    var a := ActiveExists(groups, activeId);
    i := FirstOfOthers(groups, activeId, HasGroup(id));
    if active.Some? && HasGroup(id)(active.value) {
      i := a;
    } else {
      assert forall k :: 0 <= k < |groups| && IsActive(groups, activeId, k) ==> k == a;
      if FirstWith(others, HasGroup(id)).None? {
        forall j | 0 <= j < |groups| ensures FirstEntry(LegacyAt(groups, j).ruleGroups, id).None? {
          assert HasGroup(id)(Decoded(groups[j])) ==> IsActive(groups, activeId, j);
        }
      }
    }
  }

  lemma GroupDeciderIsUnique(groups: seq<GroupFile>, activeId: Option<string>, id: string, i: nat, j: nat)
    requires DecidesGroup(groups, activeId, id, i) && DecidesGroup(groups, activeId, id, j)
    ensures i == j
  {
    if !IsActive(groups, activeId, i) && After(groups, i, j) {
      AfterIsStrict(groups, i, j);
    }
  }

  /** Main result: exactly which rule groups survive, one for every id. */
  lemma RuleGroupIff(groups: seq<GroupFile>, activeId: Option<string>, rg: RuleGroup)
    ensures rg in Merged(groups, activeId).ruleGroups <==>
            exists i :: DecidesGroup(groups, activeId, rg.id, i) &&
              FirstEntry(LegacyAt(groups, i).ruleGroups, rg.id) == Some(rg)
  {
    var active := ActiveOf(groups, activeId);
    var others := StableSort(OthersOf(groups, activeId), SourceId);
    var all := AllRuleGroups(AsSeq(active) + others);
    FirstOfEntries(all, rg);
    var i := GroupDecided(groups, activeId, rg.id);
    if FirstEntry(all, rg.id).Some? {
      forall j | DecidesGroup(groups, activeId, rg.id, j) ensures j == i {
        GroupDeciderIsUnique(groups, activeId, rg.id, i, j);
      }
    }
  }

  /** Rule group ids are unique, and the active group's rule groups come first, in their own order. */
  lemma RuleGroupOrder(groups: seq<GroupFile>, activeId: Option<string>)
    ensures DistinctKeys(Merged(groups, activeId).ruleGroups, GroupId)
    ensures forall a :: 0 <= a < |groups| && IsActive(groups, activeId, a) ==>
              FirstOf(LegacyAt(groups, a).ruleGroups, GroupId) <= Merged(groups, activeId).ruleGroups
  {
    var active := ActiveOf(groups, activeId);
    var others := StableSort(OthersOf(groups, activeId), SourceId);
    FirstOfDistinct(AllRuleGroups(AsSeq(active) + others), GroupId);
    forall a | 0 <= a < |groups| && IsActive(groups, activeId, a)
      ensures FirstOf(LegacyAt(groups, a).ruleGroups, GroupId) <= Merged(groups, activeId).ruleGroups
    {
      ActiveIs(groups, activeId, a);
      var tail := AllRuleGroupsHead(active.value, others);
      FirstOfPrefix(active.value.legacy.ruleGroups, tail, GroupId);
    }
  }

  lemma {:induction false} AllRuleGroupsHead(x: Source, s: seq<Source>) returns (tail: seq<RuleGroup>)
    ensures AllRuleGroups([x] + s) == x.legacy.ruleGroups + tail
    decreases |s|
  {
    if s == [] {
      tail := [];
      assert [x] + s == [x] && [x][..0] == [];
    } else {
      var n := |s| - 1;
      var rest := AllRuleGroupsHead(x, s[..n]);
      tail := rest + s[n].legacy.ruleGroups;
      assert ([x] + s)[..n + 1] == [x] + s[..n];
      assert (x.legacy.ruleGroups + rest) + s[n].legacy.ruleGroups == x.legacy.ruleGroups + tail;
    }
  }

  /** The final route is direct exactly when the active group says so. */
  lemma FinalRouteIff(groups: seq<GroupFile>, activeId: Option<string>)
    ensures Merged(groups, activeId).finalRoute == Direct <==>
            exists a :: 0 <= a < |groups| && IsActive(groups, activeId, a) &&
              LegacyAt(groups, a).finalRoute == Some(Direct)
    ensures Merged(groups, activeId).finalRoute != Blocked
  {
    var a := ActiveExists(groups, activeId);
    forall k | 0 <= k < |groups| && IsActive(groups, activeId, k)
      ensures ActiveOf(groups, activeId) == Some(Decoded(groups[k])) {
      ActiveIs(groups, activeId, k);
    }
  }

  /** Known hosts never repeat; they are the newest thousand of the first occurrences, the other groups by
      id before the active one. */
  lemma KnownHostsNewest(groups: seq<GroupFile>, activeId: Option<string>)
    ensures var hosts := Merged(groups, activeId).knownHosts;
            && DistinctKeys(hosts, Itself)
            && exists dropped: seq<string> ::
                 && dropped + hosts ==
                      FirstOf(AllHosts(StableSort(OthersOf(groups, activeId), SourceId) +
                                       AsSeq(ActiveOf(groups, activeId))), Itself)
                 && (dropped != [] ==> |hosts| == 1000)
  {
    var order := StableSort(OthersOf(groups, activeId), SourceId) + AsSeq(ActiveOf(groups, activeId));
    var all := FirstOf(AllHosts(order), Itself);
    FirstOfDistinct(AllHosts(order), Itself);
    var dropped := if |all| > KNOWN_HOSTS_CAP then all[..|all| - KNOWN_HOSTS_CAP] else [];
    assert dropped + Capped(all) == all;
  }

  /** A merged set is unchanged by writing and reading it: the reload returns the same set. */
  lemma MergedIsNormal(groups: seq<GroupFile>, activeId: Option<string>)
    ensures Normalized(Merged(groups, activeId)) == Merged(groups, activeId)
  {
    FinalRouteIff(groups, activeId);
  }

  // ---- the order of the input does not matter

  lemma {:induction false} InOthers(groups: seq<GroupFile>, activeId: Option<string>, x: Source)
    ensures x in OthersOf(groups, activeId) <==>
            exists i :: 0 <= i < |groups| && !IsActive(groups, activeId, i) && x == Decoded(groups[i])
  {
    if groups != [] {
      var n := |groups| - 1;
      InOthers(groups[..n], activeId, x);
      InitActive(groups, activeId);
      ActiveOrNot(groups, activeId, n);
    }
  }

  function FileId(g: GroupFile): string {
    g.id
  }

  lemma OtherIsBefore(groups: seq<GroupFile>, activeId: Option<string>, x: Source)
    requires groups != [] && DistinctKeys(groups, FileId) && x in OthersOf(groups[..|groups| - 1], activeId)
    ensures SourceId(x) != groups[|groups| - 1].id
  {
    var n := |groups| - 1;
    InOthers(groups[..n], activeId, x);
    var k :| 0 <= k < n && x == Decoded(groups[..n][k]);
    assert FileId(groups[k]) != FileId(groups[n]);
  }

  lemma {:induction false} OthersDistinct(groups: seq<GroupFile>, activeId: Option<string>)
    requires DistinctKeys(groups, FileId)
    ensures DistinctKeys(OthersOf(groups, activeId), SourceId)
  {
    if groups != [] {
      var n := |groups| - 1;
      var others := OthersOf(groups[..n], activeId);
      assert DistinctKeys(groups[..n], FileId) by {
        assert forall i :: 0 <= i < n ==> groups[..n][i] == groups[i];
      }
      OthersDistinct(groups[..n], activeId);
      forall i | 0 <= i < |others| ensures SourceId(others[i]) != groups[n].id {
        OtherIsBefore(groups, activeId, others[i]);
      }
    }
  }

  lemma OneWithId(groups: seq<GroupFile>, i: nat, j: nat)
    requires DistinctKeys(groups, FileId)
    requires i < |groups| && j < |groups| && FileId(groups[i]) == FileId(groups[j])
    ensures i == j
  {
  }

  lemma NotActiveId(groups: seq<GroupFile>, activeId: Option<string>, i: nat)
    requires DistinctKeys(groups, FileId) && i < |groups| && !IsActive(groups, activeId, i)
    ensures activeId != Some(groups[i].id)
  {
    forall j | 0 <= j < i ensures groups[j].id != groups[i].id {
      assert FileId(groups[j]) != FileId(groups[i]);
    }
  }

  lemma SameActive(groups: seq<GroupFile>, shuffled: seq<GroupFile>, activeId: Option<string>)
    requires DistinctKeys(groups, FileId) && forall g :: g in groups <==> g in shuffled
    ensures ActiveOf(groups, activeId) == ActiveOf(shuffled, activeId)
  {
    var i := ActiveExists(groups, activeId);
    var j := ActiveExists(shuffled, activeId);
    if ActiveOf(groups, activeId).Some? {
      assert groups[i] in shuffled;
    }
    if ActiveOf(shuffled, activeId).Some? {
      assert shuffled[j] in groups;
      var k :| 0 <= k < |groups| && groups[k] == shuffled[j];
      OneWithId(groups, i, k);
    }
  }

  lemma SameOthers(groups: seq<GroupFile>, shuffled: seq<GroupFile>, activeId: Option<string>, x: Source)
    requires DistinctKeys(groups, FileId) && DistinctKeys(shuffled, FileId)
    requires forall g :: g in groups <==> g in shuffled
    requires x in OthersOf(groups, activeId)
    ensures x in OthersOf(shuffled, activeId)
  {
    InOthers(groups, activeId, x);
    InOthers(shuffled, activeId, x);
    var i :| 0 <= i < |groups| && !IsActive(groups, activeId, i) && x == Decoded(groups[i]);
    NotActiveId(groups, activeId, i);
    assert groups[i] in shuffled;
  }

  lemma DistinctShuffled(groups: seq<GroupFile>, shuffled: seq<GroupFile>)
    requires DistinctKeys(groups, FileId) && multiset(groups) == multiset(shuffled)
    ensures DistinctKeys(shuffled, FileId)
    ensures forall g :: g in groups <==> g in shuffled
  {
    forall g ensures g in groups <==> g in shuffled {
      assert g in multiset(groups) <==> g in multiset(shuffled);
    }
    forall i, j | 0 <= i < j < |shuffled| ensures FileId(shuffled[i]) != FileId(shuffled[j]) {
      assert shuffled[i] in groups && shuffled[j] in groups;
      var k :| 0 <= k < |groups| && groups[k] == shuffled[i];
      var m :| 0 <= m < |groups| && groups[m] == shuffled[j];
      if k == m {
        Twice(shuffled, i, j);
        Once(groups, k);
      } else {
        assert FileId(groups[if k < m then k else m]) != FileId(groups[if k < m then m else k]);
      }
    }
  }

  lemma Twice(s: seq<GroupFile>, i: nat, j: nat)
    requires i < j < |s| && s[i] == s[j]
    ensures multiset(s)[s[i]] >= 2
  {
    assert s == s[..j] + s[j..];
    assert s[i] in s[..j] && s[j] in s[j..];
  }

  lemma Once(s: seq<GroupFile>, k: nat)
    requires DistinctKeys(s, FileId) && k < |s|
    ensures multiset(s)[s[k]] <= 1
  {
    var rest := s[..k] + s[k + 1..];
    assert s == s[..k] + [s[k]] + s[k + 1..];
    assert multiset(s) == multiset(rest) + multiset{s[k]};
    forall m | 0 <= m < |rest| ensures rest[m] != s[k] {
      var at := if m < k then m else m + 1;
      assert rest[m] == s[at];
      assert FileId(s[at]) != FileId(s[k]);
    }
    assert s[k] !in rest;
  }

  /** With distinct ids the merge depends only on which files there are. */
  lemma SameFilesSameMerge(groups: seq<GroupFile>, shuffled: seq<GroupFile>, activeId: Option<string>)
    requires DistinctKeys(groups, FileId) && DistinctKeys(shuffled, FileId)
    requires forall g :: g in groups <==> g in shuffled
    ensures Merged(groups, activeId) == Merged(shuffled, activeId)
  {
    SameActive(groups, shuffled, activeId);
    var a, b := OthersOf(groups, activeId), OthersOf(shuffled, activeId);
    OthersDistinct(groups, activeId);
    OthersDistinct(shuffled, activeId);
    forall x ensures x in a <==> x in b {
      if x in a {
        SameOthers(groups, shuffled, activeId, x);
      }
      if x in b {
        SameOthers(shuffled, groups, activeId, x);
      }
    }
    SortOfDistinct(a, b, SourceId);
  }

  /** Main result: with distinct ids the merge does not depend on the order the files are read in. */
  lemma OrderIndependent(groups: seq<GroupFile>, shuffled: seq<GroupFile>, activeId: Option<string>)
    requires DistinctKeys(groups, FileId) && multiset(groups) == multiset(shuffled)
    ensures Merged(groups, activeId) == Merged(shuffled, activeId)
  {
    DistinctShuffled(groups, shuffled);
    SameFilesSameMerge(groups, shuffled, activeId);
  }
}
