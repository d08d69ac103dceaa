/**
 The one-time move of routing rules from group files to `rules.json`, as steps on a file store.

 Every file operation may fail, may leave a torn file behind when it is a write, and the process may
 die at it. Group files lose their old rule fields when they are rewritten, so none may be rewritten
 or deleted before `rules.json` holds the merge of them all.
 */
module RulesMigration {
  import opened Wrappers
  import opened LegacyRules
  import opened Lists
  import opened Sorting
  import opened Routes
  import opened LegacyJson
  import opened GroupFiles

  // ---- files

  datatype RulesFile = Good(set0: RuleSet) | BlankRules | CorruptRules

  datatype File = Parsed(json: Json) | Blank | Corrupt

  /** What is on disk: the rules, the group files by stem, and the active group of the settings. */
  datatype Store = Store(rules: Option<RulesFile>, groups: map<string, File>, activeId: Option<string>)

  /** The id of a raw group file: its `id` field, else the file stem. */
  function RawId(stem: string, json: Json): string {
    match json.Get("id")
    case Some(Str(s)) => s
    case _ => stem
  }

  /** The group files as read in one listing; nothing when one cannot be parsed. */
  function RawGroups(groups: map<string, File>, listing: seq<string>): Option<seq<GroupFile>>
    requires forall k :: k in listing ==> k in groups
  {
    if listing == [] then Some([])
    else
      var n := |listing| - 1;
      match (RawGroups(groups, listing[..n]), groups[listing[n]])
      case (Some(before), Parsed(json)) => Some(before + [GroupFile(RawId(listing[n], json), json)])
      case (Some(before), Blank) => Some(before)
      case _ => None
  }

  /** A directory listing names every file once, in any order. */
  ghost predicate ListsAll(listing: seq<string>, groups: map<string, File>) {
    && (forall k :: k in listing <==> k in groups)
    && forall i, j :: 0 <= i < j < |listing| ==> listing[i] != listing[j]
  }

  /** `set0` is the merge of the group files and the extra ones, read in some order. */
  ghost predicate MergeOf(groups: map<string, File>, extra: seq<GroupFile>, active: Option<string>, set0: RuleSet) {
    exists listing ::
      && ListsAll(listing, groups) && RawGroups(groups, listing).Some?
      && set0 == Merged(RawGroups(groups, listing).value + extra, active)
  }

  // ---- profile groups

  function GroupName(g: ProfileGroup): string {
    g.name
  }

  predicate ValidId(id: string) {
    id != "" && '/' !in id && '\\' !in id
  }

  const DEFAULT_GROUP_ID := "default"
  const DEFAULT_GROUP_NAME := "Default"

  /** The flat `routes.json` shaped like a group file. */
  function DefaultFile(routes: map<string, string>): GroupFile {
    GroupFile(DEFAULT_GROUP_ID,
      Obj(map["id" := Str(DEFAULT_GROUP_ID), "name" := Str(DEFAULT_GROUP_NAME),
              "rules" := Obj(map k | k in routes :: Str(routes[k]))]))
  }

  lemma RawIdIs(stem: string, json: Json)
    ensures forall id :: json.Obj? && "id" in json.fields && json.fields["id"] == Str(id) ==> RawId(stem, json) == id
    ensures !(json.Obj? && "id" in json.fields && json.fields["id"].Str?) ==> RawId(stem, json) == stem
  {
  }

  /** The stems of the files that are not blank, in order. */
  function NotBlank(groups: map<string, File>, names: seq<string>): (r: seq<string>)
    requires forall k :: k in names ==> k in groups
    ensures forall k :: k in r <==> k in names && !groups[k].Blank?
  {
    if names == [] then []
    else
      var n := |names| - 1;
      NotBlank(groups, names[..n]) + (if groups[names[n]].Blank? then [] else [names[n]])
  }

  /** Main result: a listing gives the JSON of every file that is not blank, under its own `id` or else its stem. */
  lemma {:induction false} RawGroupsAre(groups: map<string, File>, listing: seq<string>)
    requires forall k :: k in listing ==> k in groups
    ensures RawGroups(groups, listing).Some? ==>
              AreFiles(groups, NotBlank(groups, listing), RawGroups(groups, listing).value)
  {
    if listing != [] {
      var n := |listing| - 1;
      RawGroupsAre(groups, listing[..n]);
      var before, f := RawGroups(groups, listing[..n]), groups[listing[n]];
      if before.Some? && f.Parsed? {
        var last := GroupFile(RawId(listing[n], f.json), f.json);
        RawIdIs(listing[n], f.json);
        FilesSnoc(groups, NotBlank(groups, listing[..n]), before.value, listing[n], last);
      }
    }
  }

  ghost predicate AreFiles(groups: map<string, File>, stems: seq<string>, raw: seq<GroupFile>)
    requires forall k :: k in stems ==> k in groups
  {
    |raw| == |stems| && forall i :: 0 <= i < |raw| ==> IsFile(groups[stems[i]], stems[i], raw[i])
  }

  lemma FilesSnoc(groups: map<string, File>, stems: seq<string>, raw: seq<GroupFile>, stem: string, last: GroupFile)
    requires (forall k :: k in stems ==> k in groups) && AreFiles(groups, stems, raw)
    requires stem in groups && IsFile(groups[stem], stem, last)
    ensures AreFiles(groups, stems + [stem], raw + [last])
  {
  }

  /** And nothing exactly when one of them does not parse. */
  lemma {:induction false} RawGroupsFail(groups: map<string, File>, listing: seq<string>)
    requires forall k :: k in listing ==> k in groups
    ensures RawGroups(groups, listing).None? <==> exists k :: k in listing && groups[k].Corrupt?
  {
    if listing != [] {
      var n := |listing| - 1;
      RawGroupsFail(groups, listing[..n]);
      assert listing[n] in listing;
      if k :| k in listing && groups[k].Corrupt? {
        assert k in listing[..n] || k == listing[n];
      }
    }
  }

  /** The file parses, and `g` is its JSON under its string `id`, or under the stem when it has none. */
  predicate IsFile(f: File, stem: string, g: GroupFile) {
    && f == Parsed(g.raw)
    && if g.raw.Obj? && "id" in g.raw.fields && g.raw.fields["id"].Str? then g.raw.fields["id"] == Str(g.id)
       else g.id == stem
  }

  /** The flat routes are merged as the group `default`, each host with the route its text says. */
  lemma FlatRoutesMerge(routes: map<string, string>, activeId: Option<string>)
    ensures DefaultFile(routes).id == "default"
    ensures var merged := Merged([DefaultFile(routes)], activeId);
            && merged.rules.Keys == routes.Keys
            && (forall h :: h in routes ==> RouteIs(Str(routes[h]), merged.rules[h]))
            && merged.ruleGroups == [] && merged.finalRoute == Tunnel && merged.knownHosts == []
  {
    OneMerged(DefaultFile(routes), activeId);
    FlatRoutesAre(routes);
  }

  lemma FlatRoutesAre(routes: map<string, string>)
    ensures var flat := ExtractLegacy(DefaultFile(routes).raw);
            && flat.rules.Keys == routes.Keys
            && (forall h :: h in routes ==> RouteIs(Str(routes[h]), flat.rules[h]))
            && flat.ruleGroups == [] && flat.finalRoute == None && flat.knownHosts == []
  {
    forall h | h in routes ensures RouteIs(Str(routes[h]), DecodeRoute(Str(routes[h]))) {
      DecodeRouteIs(Str(routes[h]));
    }
  }

  // ---- steps

  /** What the commands do: everything that is not `SaveRules` may migrate first. */
  datatype Op =
    | GroupOp
    | Migrate(routes: map<string, string>)
    | SaveRules(set0: RuleSet)
    | ChangeActive

  /** With which active group and extra files an operation would do the merge. Unreadable settings count as none. */
  predicate Offers(op: Op, activeId: Option<string>, active: Option<string>, extra: seq<GroupFile>) {
    match op
    case GroupOp => extra == [] && (active == activeId || active == None)
    case Migrate(routes) =>
      extra == [DefaultFile(routes)] && (active == Some(activeId.GetOr(DEFAULT_GROUP_ID)) ||
                                         active == Some(DEFAULT_GROUP_ID))
    case _ => false
  }

  /** Rules stay as they are; without rules no group file changes; new rules are the merge of what was there. */
  ghost predicate Guarded(op: Op, a: Store, b: Store) {
    && (a.rules.Some? ==> b.rules == a.rules)
    && (b.rules.None? ==> b.groups == a.groups)
    && (a.rules.None? && b.rules.Some? ==>
          b.rules.value.Good? && Creates(op, a, b.rules.value.set0))
  }

  /** The operation makes the rules `set0` out of what there is. */
  ghost predicate Creates(op: Op, a: Store, set0: RuleSet) {
    exists active, extra :: Offers(op, a.activeId, active, extra) && MergeOf(a.groups, extra, active, set0)
  }

  /** One command, finished or broken off anywhere. */
  ghost predicate Next(a: Store, op: Op, b: Store) {
    match op
    case SaveRules(set0) => b.groups == a.groups && (b.rules == a.rules || b.rules == Some(Good(Normalized(set0))))
    case ChangeActive => b.groups == a.groups && b.rules == a.rules
    case _ => Guarded(op, a, b)
  }

  lemma GuardedSteps(op: Op, a: Store, b: Store, c: Store)
    requires Guarded(op, a, b) && Guarded(op, b, c) && b.activeId == a.activeId
    ensures Guarded(op, a, c)
  {
  }

  /** Once the rules are there, group files may change. */
  lemma GroupsMayChange(op: Op, a: Store, b: Store, groups: map<string, File>)
    requires Guarded(op, a, b) && b.rules.Some?
    ensures Guarded(op, a, b.(groups := groups))
  {
  }

  // ---- whole runs

  ghost predicate Run(states: seq<Store>, ops: seq<Op>) {
    |states| == |ops| + 1 && forall i :: 0 <= i < |ops| ==> Next(states[i], ops[i], states[i + 1])
  }

  /** Main result: while `rules.json` is absent, no group file has been rewritten or deleted. */
  lemma {:induction false} NothingLostBeforeMigration(states: seq<Store>, ops: seq<Op>, n: nat)
    requires Run(states, ops) && n < |states| && states[n].rules.None?
    ensures forall i :: 0 <= i <= n ==> states[i].rules.None? && states[i].groups == states[0].groups
  {
    if n > 0 {
      assert Next(states[n - 1], ops[n - 1], states[n - 1 + 1]);
      NothingLostBeforeMigration(states, ops, n - 1);
    }
  }

  /** Which command created `rules.json`. */
  lemma {:induction false} Creation(states: seq<Store>, ops: seq<Op>, n: nat) returns (c: nat)
    requires Run(states, ops) && n < |states| && states[0].rules.None? && states[n].rules.Some?
    ensures c < n && states[c].rules.None? && forall i :: c < i <= n ==> states[i].rules.Some?
  {
    if states[n - 1].rules.None? {
      c := n - 1;
    } else {
      c := Creation(states, ops, n - 1);
    }
  }

  /** Main result: rules created by anything but `save_rules` are the merge of all the original group files. */
  lemma CreatedRulesSeeEverything(states: seq<Store>, ops: seq<Op>, n: nat)
    requires Run(states, ops) && n < |ops| && states[n].rules.None? && states[n + 1].rules.Some? && !ops[n].SaveRules?
    ensures states[n + 1].rules.value.Good?
    ensures exists active, extra ::
              && Offers(ops[n], states[n].activeId, active, extra)
              && MergeOf(states[0].groups, extra, active, states[n + 1].rules.value.set0)
  {
    NothingLostBeforeMigration(states, ops, n);
    assert Next(states[n], ops[n], states[n + 1]);
  }

  /** The set of the last `save_rules` that took effect, if one did. */
  ghost predicate LastSaved(states: seq<Store>, ops: seq<Op>, m: nat, n: nat) {
    n < |states| && exists k, set0 :: m <= k < n && k < |ops| && ops[k] == SaveRules(set0) &&
                      states[n].rules == Some(Good(Normalized(set0)))
  }

  /** What a command does to rules that are there. */
  predicate SavesOrKeeps(a: Store, op: Op, b: Store) {
    a.rules.Some? ==>
      b.rules == a.rules || (op.SaveRules? && b.rules == Some(Good(Normalized(op.set0))))
  }

  lemma NextSavesOrKeeps(a: Store, op: Op, b: Store)
    requires Next(a, op, b)
    ensures SavesOrKeeps(a, op, b)
  {
  }

  /** Main result: once `rules.json` exists, only `save_rules` changes it. */
  lemma OnlySavesChangeRules(states: seq<Store>, ops: seq<Op>, m: nat, n: nat)
    requires Run(states, ops) && m <= n < |states| && states[m].rules.Some?
    ensures states[n].rules.Some?
    ensures states[n].rules == states[m].rules || LastSaved(states, ops, m, n)
  {
    forall i | 0 <= i < |ops| ensures SavesOrKeeps(states[i], ops[i], states[i + 1]) {
      NextSavesOrKeeps(states[i], ops[i], states[i + 1]);
    }
    SavedOrKept(states, ops, m, n);
  }

  lemma {:induction false} SavedOrKept(states: seq<Store>, ops: seq<Op>, m: nat, n: nat)
    requires |states| == |ops| + 1 && forall i :: 0 <= i < |ops| ==> SavesOrKeeps(states[i], ops[i], states[i + 1])
    requires m <= n < |states| && states[m].rules.Some?
    ensures states[n].rules.Some?
    ensures states[n].rules == states[m].rules || LastSaved(states, ops, m, n)
    decreases n
  {
    if m < n {
      SavedOrKept(states, ops, m, n - 1);
      assert SavesOrKeeps(states[n - 1], ops[n - 1], states[n - 1 + 1]);
      if states[n].rules != states[n - 1].rules {
        assert ops[n - 1] == SaveRules(ops[n - 1].set0);
      }
    }
  }

  /** Every save happened when there were rules already. */
  ghost predicate SavesAfterLoad(states: seq<Store>, ops: seq<Op>) {
    |ops| < |states| && forall i :: 0 <= i < |ops| && ops[i].SaveRules? ==> states[i].rules.Some?
  }

  /** Main result: when rules are only saved after they existed, `rules.json` was created, whenever that was and
      whatever failed before, as the merge of all the original group files, and only saves changed it since. */
  lemma SavesAfterLoadMerge(states: seq<Store>, ops: seq<Op>, n: nat) returns (c: nat)
    requires Run(states, ops) && SavesAfterLoad(states, ops)
    requires n < |states| && states[0].rules.None? && states[n].rules.Some?
    ensures c < n && states[c].groups == states[0].groups
    ensures states[c + 1].rules.Some? && states[c + 1].rules.value.Good?
    ensures exists active, extra ::
              && Offers(ops[c], states[c].activeId, active, extra)
              && MergeOf(states[0].groups, extra, active, states[c + 1].rules.value.set0)
    ensures states[n].rules == states[c + 1].rules || LastSaved(states, ops, c + 1, n)
  {
    c := Creation(states, ops, n);
    NothingLostBeforeMigration(states, ops, c);
    CreatedRulesSeeEverything(states, ops, c);
    OnlySavesChangeRules(states, ops, c + 1, n);
  }

  /** The other half: the first set saved over missing rules is all there will ever be; the old rules are not
      merged later. */
  lemma SaveBeforeMergeWins(states: seq<Store>, ops: seq<Op>, n: nat, m: nat)
    requires Run(states, ops) && n < m < |states| && states[n].rules.None? && states[n + 1].rules.Some? &&
             ops[n].SaveRules?
    ensures LastSaved(states, ops, n, m)
  {
    assert Next(states[n], ops[n], states[n + 1]);
    OnlySavesChangeRules(states, ops, n + 1, m);
  }

  // ---- what a created rule set is

  ghost predicate DistinctFileIds(groups: map<string, File>) {
    forall k, m :: k in groups && m in groups && k != m && groups[k].Parsed? && groups[m].Parsed? ==>
      RawId(k, groups[k].json) != RawId(m, groups[m].json)
  }

  lemma {:induction false} InRawGroups(groups: map<string, File>, listing: seq<string>, g: GroupFile)
    requires (forall k :: k in listing ==> k in groups) && RawGroups(groups, listing).Some?
    ensures g in RawGroups(groups, listing).value <==>
            exists k :: k in listing && groups[k].Parsed? && g == GroupFile(RawId(k, groups[k].json), groups[k].json)
    decreases |listing|
  {
    if listing != [] {
      var n := |listing| - 1;
      InRawGroups(groups, listing[..n], g);
      assert forall k :: k in listing <==> k in listing[..n] || k == listing[n];
    }
  }

  lemma {:induction false} RawGroupsDistinct(groups: map<string, File>, listing: seq<string>)
    requires (forall k :: k in listing ==> k in groups) && RawGroups(groups, listing).Some? && DistinctFileIds(groups)
    requires forall i, j :: 0 <= i < j < |listing| ==> listing[i] != listing[j]
    ensures DistinctKeys(RawGroups(groups, listing).value, FileId)
    decreases |listing|
  {
    if listing != [] {
      var n := |listing| - 1;
      RawGroupsDistinct(groups, listing[..n]);
      var before := RawGroups(groups, listing[..n]).value;
      forall i | 0 <= i < |before| && groups[listing[n]].Parsed?
        ensures FileId(before[i]) != RawId(listing[n], groups[listing[n]].json)
      {
        InRawGroups(groups, listing[..n], before[i]);
      }
    }
  }

  /** When no two group files share an id, the created rules do not depend on the directory order. */
  lemma CreatedRulesAreDetermined(groups: map<string, File>, active: Option<string>, first: RuleSet, second: RuleSet)
    requires DistinctFileIds(groups) && MergeOf(groups, [], active, first) && MergeOf(groups, [], active, second)
    ensures first == second
  {
    var a := MergedFrom(groups, active, first);
    var b := MergedFrom(groups, active, second);
    SameRawGroups(groups, a, b);
    SameFilesSameMerge(RawGroups(groups, a).value, RawGroups(groups, b).value, active);
  }

  lemma MergedFrom(groups: map<string, File>, active: Option<string>, set0: RuleSet) returns (listing: seq<string>)
    requires MergeOf(groups, [], active, set0)
    ensures ListsAll(listing, groups) && RawGroups(groups, listing).Some?
    ensures set0 == Merged(RawGroups(groups, listing).value, active)
  {
    listing :| ListsAll(listing, groups) && RawGroups(groups, listing).Some? &&
               set0 == Merged(RawGroups(groups, listing).value + [], active);
    assert RawGroups(groups, listing).value + [] == RawGroups(groups, listing).value;
  }

  lemma SameRawGroups(groups: map<string, File>, a: seq<string>, b: seq<string>)
    requires DistinctFileIds(groups) && ListsAll(a, groups) && ListsAll(b, groups)
    requires RawGroups(groups, a).Some? && RawGroups(groups, b).Some?
    ensures var x, y := RawGroups(groups, a).value, RawGroups(groups, b).value;
            DistinctKeys(x, FileId) && DistinctKeys(y, FileId) && forall g :: g in x <==> g in y
  {
    RawGroupsDistinct(groups, a);
    RawGroupsDistinct(groups, b);
    forall g ensures g in RawGroups(groups, a).value <==> g in RawGroups(groups, b).value {
      InRawGroups(groups, a, g);
      InRawGroups(groups, b, g);
    }
  }

  // ---- the code

  /** What becomes of one file operation. */
  datatype Fate = Works | Breaks(torn: bool, left: File, dies: bool)

  /** What a read of `rules.json` gives. */
  function Loaded(f: RulesFile): Option<RuleSet> {
    match f
    case Good(set0) => Some(Normalized(set0))
    case BlankRules => Some(EmptyRules)
    case CorruptRules => None
  }

  /** What writing or reading makes of a set: the final route is direct or tunnel, and a thousand hosts are kept, the
      newest. */
  predicate Trims(given: RuleSet, kept: RuleSet) {
    && kept.rules == given.rules && kept.ruleGroups == given.ruleGroups
    && kept.finalRoute == (if given.finalRoute == Direct then Direct else Tunnel)
    && kept.knownHosts == if |given.knownHosts| <= 1000 then given.knownHosts
                          else given.knownHosts[|given.knownHosts| - 1000..]
  }

  /** Main result: what a rules file is read as: a blank one as no rules at all, a corrupt one not at all. */
  lemma LoadedIs(f: RulesFile)
    ensures match f
            case Good(given) => Loaded(f).Some? && Trims(given, Loaded(f).value) && Trims(given, Normalized(given))
            case BlankRules => Loaded(f) == Some(RuleSet(map[], [], Tunnel, []))
            case CorruptRules => Loaded(f) == None
  {
  }

  class Disk {
    var rules: Option<RulesFile>
    var tmp: Option<RulesFile>
    var groups: map<string, File>
    var activeId: Option<string>

    /** The process died: nothing it does reaches the disk any more. */
    var dead: bool
    var clock: nat
    const fates: nat -> Fate
    /** Profiles embedded in old group files; decoding a profile is not part of this model. */
    const profileId: Json -> Option<string>

    ghost function State(): Store
      reads this
    {
      Store(rules, groups, activeId)
    }

    constructor (rules: Option<RulesFile>, groups: map<string, File>, activeId: Option<string>,
                 fates: nat -> Fate, profileId: Json -> Option<string>)
      ensures State() == Store(rules, groups, activeId) && this.fates == fates && this.profileId == profileId && !dead
    {
      this.rules, this.tmp, this.groups, this.activeId := rules, None, groups, activeId;
      this.dead, this.clock, this.fates, this.profileId := false, 0, fates, profileId;
    }

    /** Some write may be torn. */
    ghost predicate CanTear() {
      exists n :: fates(n).Breaks? && fates(n).torn
    }

    ghost predicate AllWork()
      reads this
    {
      !dead && forall n :: fates(n).Works?
    }

    method Fare() returns (f: Fate)
      modifies this`clock, this`dead
      ensures dead ==> f.Breaks?
      ensures !CanTear() && f.Breaks? ==> !f.torn
      ensures old(AllWork()) ==> f.Works? && AllWork()
      ensures old(dead) ==> f.Breaks? && !f.torn
    {
      if dead {
        return Breaks(false, Blank, true);
      }
      f := fates(clock);
      clock := clock + 1;
      if f.Breaks? && f.dies {
        dead := true;
      }
    }

    /** The files of the directory, in an order of its own. */
    method ListDir() returns (listing: seq<string>)
      ensures ListsAll(listing, groups)
    {
      listing := [];
      var left := groups.Keys;
      while left != {}
        invariant left <= groups.Keys
        invariant forall k :: k in listing <==> k in groups && k !in left
        invariant forall i, j :: 0 <= i < j < |listing| ==> listing[i] != listing[j]
        decreases |left|
      {
        var k :| k in left;
        listing := listing + [k];
        left := left - {k};
      }
    }

    // ---- rules.rs

    method ReadRawGroups() returns (listing: seq<string>, raw: Option<seq<GroupFile>>)
      ensures ListsAll(listing, groups) && raw == RawGroups(groups, listing)
    {
      listing := ListDir();
      var names := listing;
      var out: seq<GroupFile> := [];
      for i := 0 to |names|
        invariant RawGroups(groups, names[..i]) == Some(out)
      {
        assert names[..i+1][..i] == names[..i];
        match groups[names[i]] {
          case Blank =>
          case Corrupt =>
            BadFile(groups, names, i + 1);
            return listing, None;
          case Parsed(json) =>
            out := out + [GroupFile(RawId(names[i], json), json)];
        }
      }
      assert names[..|names|] == names;
      raw := Some(out);
    }

    /** Atomic write: a temporary file, then a rename over the target. */
    method WriteRulesFile(set0: RuleSet) returns (ok: bool)
      modifies this`rules, this`tmp, this`clock, this`dead
      ensures rules == old(rules) || rules == Some(Good(Normalized(set0)))
      ensures ok ==> rules == Some(Good(Normalized(set0)))
    {
      var f := Fare();
      if f.Breaks? {
        if f.torn {
          tmp := Some(CorruptRules);
        }
        return false;
      }
      tmp := Some(Good(Normalized(set0)));
      f := Fare();
      if f.Breaks? {
        var g := Fare();
        if g.Works? {
          tmp := None;
        }
        return false;
      }
      rules, tmp := tmp, None;
      ok := true;
    }

    method LoadRulesIn(active: Option<string>, extra: seq<GroupFile>) returns (r: Option<RuleSet>)
      modifies this`rules, this`tmp, this`clock, this`dead
      ensures rules == old(rules) ||
              (old(rules).None? && rules.Some? && rules.value.Good? && MergeOf(groups, extra, active, rules.value.set0))
      ensures r.Some? ==> rules.Some? && Loaded(rules.value) == r
    {
      if rules.Some? {
        return Loaded(rules.value);
      }
      var listing, raw := ReadRawGroups();
      if raw.None? {
        return None;
      }
      var set0 := Merged(raw.value + extra, active);
      MergedIsNormal(raw.value + extra, active);
      var ok := WriteRulesFile(set0);
      return if ok then Some(set0) else None;
    }

    method ReadActive() returns (id: Option<string>)
      modifies this`clock, this`dead
      ensures id == activeId || id == None
    {
      var f := Fare();
      return if f.Works? then activeId else None;
    }

    /** `ensure_migrated`, and `load_rules`. */
    method LoadRules() returns (r: Option<RuleSet>)
      modifies this`rules, this`tmp, this`clock, this`dead
      ensures Guarded(GroupOp, old(State()), State())
      ensures old(rules.Some? && rules.value.Good? && AllWork()) ==> r.Some? && AllWork()
      ensures r.Some? ==> rules.Some? && Loaded(rules.value) == r
      ensures old(rules.Some?) ==> r == Loaded(old(rules).value)
    {
      if rules.Some? {
        return Loaded(rules.value);
      }
      var active := ReadActive();
      r := LoadRulesIn(active, []);
      assert Offers(GroupOp, activeId, active, []);
    }

    method SaveRules(set0: RuleSet) returns (ok: bool)
      modifies this`rules, this`tmp, this`clock, this`dead
      ensures Next(old(State()), Op.SaveRules(set0), State())
      ensures ok ==> rules == Some(Good(Normalized(set0)))
    {
      ok := WriteRulesFile(set0);
    }

    // ---- groups.rs

    /** Migrate first, then write the file in place. */
    method SaveGroup(group: ProfileGroup) returns (ok: bool)
      modifies this`rules, this`tmp, this`groups, this`clock, this`dead
      ensures Guarded(GroupOp, old(State()), State())
      ensures groups == old(groups) || (ValidId(group.id) && group.id in groups &&
                                        groups == old(groups)[group.id := groups[group.id]])
      ensures !CanTear() ==> groups == old(groups) || groups == old(groups)[group.id := Parsed(Serialized(group))]
      ensures old(rules.Some? && rules.value.Good? && AllWork()) && ValidId(group.id) ==> ok
      ensures ok ==> rules.Some? && ValidId(group.id) && groups == old(groups)[group.id := Parsed(Serialized(group))]
    {
      ghost var before := State();
      var migrated := LoadRules();
      if migrated.None? || !ValidId(group.id) {
        return false;
      }
      ghost var loaded := State();
      ok := WriteGroup(group);
      GroupsMayChange(GroupOp, before, loaded, groups);
      assert State() == loaded.(groups := groups);
    }

    /** The file written in place. */
    method WriteGroup(group: ProfileGroup) returns (ok: bool)
      modifies this`groups, this`clock, this`dead
      ensures groups == old(groups) || (group.id in groups && groups == old(groups)[group.id := groups[group.id]])
      ensures !CanTear() ==> groups == old(groups) || groups == old(groups)[group.id := Parsed(Serialized(group))]
      ensures ok ==> groups == old(groups)[group.id := Parsed(Serialized(group))]
      ensures old(AllWork()) ==> ok
    {
      var f := Fare();
      if f.Breaks? {
        if f.torn {
          groups := groups[group.id := f.left];
        }
        return false;
      }
      groups := groups[group.id := Parsed(Serialized(group))];
      ok := true;
    }

    method DeleteGroup(id: string) returns (ok: bool)
      modifies this`rules, this`tmp, this`groups, this`clock, this`dead
      ensures Guarded(GroupOp, old(State()), State())
      ensures groups == old(groups) || groups == old(groups) - {id}
      ensures ok ==> rules.Some? && id !in groups
    {
      ghost var before := State();
      var migrated := LoadRules();
      if migrated.None? || !ValidId(id) {
        return false;
      }
      if id in groups {
        var f := Fare();
        if f.Breaks? {
          return false;
        }
        ghost var loaded := State();
        groups := groups - {id};
        GroupsMayChange(GroupOp, before, loaded, groups);
      }
      ok := true;
    }

    /** Reading one file touches at most the file of its group, and that only when it embeds profiles; untorn, that is
        the group written out. */
    ghost predicate Touched(json: Json, group: Option<ProfileGroup>, before: map<string, File>,
                            after: map<string, File>) {
      && (forall k :: k in before && !(Embeds(json) && group.Some? && k == group.value.id) ==>
            k in after && after[k] == before[k])
      && (after == before || (Embeds(json) && group.Some? && group.value.id in after &&
                              after == before[group.value.id := after[group.value.id]] &&
                              (!CanTear() ==> after[group.value.id] == Parsed(Serialized(group.value)))))
    }

    /** One file read: an old layout is normalised and, if that works, written back. */
    method ReadGroup(json: Json) returns (group: Option<ProfileGroup>)
      modifies this`rules, this`tmp, this`groups, this`clock, this`dead
      ensures Guarded(GroupOp, old(State()), State())
      ensures forall g :: group == Some(g) <==> IsGroup(json, profileId, g)
      ensures Touched(json, group, old(groups), groups)
      ensures old(rules.Some? && rules.value.Good? && AllWork()) && Embeds(json) && group.Some? &&
                ValidId(group.value.id) ==>
                groups == old(groups)[group.value.id := Parsed(Serialized(group.value))]
    {
      group := GroupOf(json, profileId);
      DecodesTo(json, profileId);
      EmbedsIff(json);
      if group.Some? && HasChildren(json) {
        var _ := SaveGroup(group.value);
      }
    }

    /** One file of a listing: its group, nothing for a blank file, failure for one that does not decode. */
    method ReadOne(name: string) returns (ok: bool, found: seq<ProfileGroup>)
      modifies this`rules, this`tmp, this`groups, this`clock, this`dead
      ensures Guarded(GroupOp, old(State()), State())
      ensures name in old(groups) ==>
                FileGroups(old(groups)[name], profileId) == if ok then Some(found) else None
      ensures forall k :: k in old(groups) && !(name in old(groups) && Rewrites(old(groups)[name], profileId, k)) ==>
                k in groups && groups[k] == old(groups)[k]
      ensures name in old(groups) && !CanTear() ==>
                groups == old(groups) || WritesBack(old(groups)[name], profileId, old(groups), groups)
    {
      if name !in groups || groups[name].Blank? {
        return true, [];
      }
      if groups[name].Corrupt? {
        return false, [];
      }
      DecodesTo(groups[name].json, profileId);
      var group := ReadGroup(groups[name].json);
      ok := group.Some?;
      found := if group.Some? then [group.value] else [];
    }

    /** Rewriting an old file can change one that is read later only if its id is not its file name. */
    method ReadEvery(names: seq<string>) returns (found: Option<seq<ProfileGroup>>)
      requires ListsAll(names, groups)
      modifies this`rules, this`tmp, this`groups, this`clock, this`dead
      ensures Guarded(GroupOp, old(State()), State())
      ensures StemsAreIds(old(groups), profileId) ==> found == GroupsOf(old(groups), names, profileId)
      ensures StemsAreIds(old(groups), profileId) && !CanTear() ==> WrittenBack(old(groups), groups, profileId)
    {
      var out: seq<ProfileGroup> := [];
      ghost var start, files, stems := State(), groups, StemsAreIds(groups, profileId);
      for i := 0 to |names|
        invariant Guarded(GroupOp, start, State()) && activeId == start.activeId
        invariant stems ==> GroupsOf(files, names[..i], profileId) == Some(out)
        invariant stems ==> forall j :: i <= j < |names| ==> names[j] in groups && groups[names[j]] == files[names[j]]
        invariant stems && !CanTear() ==> WrittenBack(files, groups, profileId)
      {
        ghost var before := State();
        GroupsStep(files, names, profileId, i);
        var ok, more := ReadOne(names[i]);
        if stems && !CanTear() {
          BackStep(files, before.groups, groups, profileId, names[i]);
        }
        GuardedSteps(GroupOp, start, before, State());
        if !ok {
          return None;
        }
        out := out + more;
      }
      assert names[..|names|] == names;
      found := Some(out);
    }

    /** When old files carry the ids they are named by, the groups are those of the files as they were, sorted by
        name. Untorn, old files are written back as the groups they are, and nothing else changes. */
    method ListGroups() returns (found: Option<seq<ProfileGroup>>)
      modifies this`rules, this`tmp, this`groups, this`clock, this`dead
      ensures Guarded(GroupOp, old(State()), State())
      ensures found.Some? ==> Sorted(found.value, GroupName)
      ensures StemsAreIds(old(groups), profileId) ==> exists names ::
                ListsAll(names, old(groups)) && Listed(old(groups), names, profileId, found)
      ensures StemsAreIds(old(groups), profileId) && !CanTear() ==> WrittenBack(old(groups), groups, profileId)
    {
      var names := ListDir();
      GroupsOfAre(groups, names, profileId);
      ghost var files := groups;
      found := ReadEvery(names);
      if found.Some? {
        StableSortIsSorted(found.value, GroupName);
        found := Some(StableSort(found.value, GroupName));
      }
      assert StemsAreIds(files, profileId) ==> Listed(files, names, profileId, found);
    }

    method LoadGroup(id: string) returns (group: Option<ProfileGroup>)
      modifies this`rules, this`tmp, this`groups, this`clock, this`dead
      ensures Guarded(GroupOp, old(State()), State())
      ensures forall g :: group == Some(g) <==>
                && id != "" && '/' !in id && '\\' !in id && id in old(groups) && old(groups)[id].Parsed?
                && IsGroup(old(groups)[id].json, profileId, g)
      ensures groups == old(groups) || (id in old(groups) && old(groups)[id].Parsed? &&
                                        Touched(old(groups)[id].json, group, old(groups), groups))
      ensures old(rules.Some? && rules.value.Good? && AllWork()) && group.Some? && Embeds(old(groups)[id].json) &&
                ValidId(group.value.id) ==>
                groups == old(groups)[group.value.id := Parsed(Serialized(group.value))]
    {
      group := None;
      if ValidId(id) && id in groups && groups[id].Parsed? {
        group := ReadGroup(groups[id].json);
      }
    }

    // ---- migrate_v2.rs

    /** The merge, with the flat routes among the group files. */
    method MergeFlatRoutes(active: Option<string>, routes: map<string, string>) returns (ok: bool)
      requires Offers(Migrate(routes), activeId, active, [DefaultFile(routes)])
      modifies this`rules, this`tmp, this`clock, this`dead
      ensures Guarded(Migrate(routes), old(State()), State())
      ensures ok ==> rules.Some?
    {
      var migrated := LoadRulesIn(active, [DefaultFile(routes)]);
      ok := migrated.Some?;
    }

    /** Writes `groups/default.json` unless it is there; the rules are merged first, with the flat routes. */
    method MigrateV2(profileIds: seq<string>, routes: map<string, string>, priorities: map<string, Priority>)
      returns (ok: bool)
      modifies this
      ensures Guarded(Migrate(routes), old(State()), State())
      ensures ok ==> DEFAULT_GROUP_ID in groups && (old(DEFAULT_GROUP_ID in groups) || (rules.Some? && activeId.Some?))
      ensures old(DEFAULT_GROUP_ID in groups) ==> State() == old(State())
      ensures ok && !old("default" in groups) ==>
                "default" in groups && FileIs(groups["default"], profileId,
                                              ProfileGroup("default", "Default", profileIds, priorities))
      ensures activeId == old(activeId) || activeId == Some("default")
    {
      if DEFAULT_GROUP_ID in groups {
        return true;
      }
      ghost var start := State();
      var before := ReadActive();
      var active := Some(before.GetOr(DEFAULT_GROUP_ID));
      var merged := MergeFlatRoutes(active, routes);
      if !merged {
        return false;
      }
      ghost var migrated := State();
      ok := SaveDefault(profileIds, priorities);
      GroupsMayChange(Migrate(routes), start, migrated, groups);
      if ok && before.None? {
        ok := Activate(DEFAULT_GROUP_ID);
      }
    }

    method Activate(id: string) returns (ok: bool)
      modifies this`activeId, this`clock, this`dead
      ensures activeId == if ok then Some(id) else old(activeId)
    {
      var f := Fare();
      ok := f.Works?;
      if ok {
        activeId := Some(id);
      }
    }

    method SaveDefault(profileIds: seq<string>, priorities: map<string, Priority>) returns (ok: bool)
      requires rules.Some?
      modifies this`rules, this`tmp, this`groups, this`clock, this`dead
      ensures rules == old(rules)
      ensures ok ==> "default" in groups && FileIs(groups["default"], profileId,
                                                   ProfileGroup("default", "Default", profileIds, priorities))
    {
      var group := ProfileGroup(DEFAULT_GROUP_ID, DEFAULT_GROUP_NAME, profileIds, priorities);
      GroupReadsBack(group, profileId, group);
      ok := SaveGroup(group);
    }
  }

  lemma {:induction false} BadFile(groups: map<string, File>, listing: seq<string>, n: nat)
    requires (forall k :: k in listing ==> k in groups) && n <= |listing| && RawGroups(groups, listing[..n]).None?
    ensures RawGroups(groups, listing).None?
    decreases |listing| - n
  {
    if n < |listing| {
      assert listing[..n + 1][..n] == listing[..n];
      BadFile(groups, listing, n + 1);
    } else {
      assert listing[..n] == listing;
    }
  }

  /** The group of one file, if it has one; nothing when it does not decode. */
  function FileGroups(f: File, profileId: Json -> Option<string>): Option<seq<ProfileGroup>> {
    match f
    case Parsed(json) => (match GroupOf(json, profileId) case Some(g) => Some([g]) case None => None)
    case Blank => Some([])
    case Corrupt => None
  }

  /** Reading the file rewrites the file of the group `id`. */
  ghost predicate Rewrites(f: File, profileId: Json -> Option<string>, id: string) {
    f.Parsed? && Embeds(f.json) && exists g :: IsGroup(f.json, profileId, g) && g.id == id
  }

  lemma DecodesTo(json: Json, profileId: Json -> Option<string>)
    ensures forall g :: GroupOf(json, profileId) == Some(g) <==> IsGroup(json, profileId, g)
  {
    forall g ensures GroupOf(json, profileId) == Some(g) <==> IsGroup(json, profileId, g) {
      GroupIff(json, profileId, g);
    }
  }

  /** The groups of the listed files, in order; nothing when one does not decode. */
  function GroupsOf(groups: map<string, File>, names: seq<string>,
                    profileId: Json -> Option<string>): Option<seq<ProfileGroup>>
    requires forall k :: k in names ==> k in groups
  {
    if names == [] then Some([])
    else
      var n := |names| - 1;
      match (GroupsOf(groups, names[..n], profileId), FileGroups(groups[names[n]], profileId))
      case (Some(before), Some(more)) => Some(before + more)
      case _ => None
  }

  /** Files that are rewritten when they are read are rewritten in place. */
  ghost predicate StemsAreIds(groups: map<string, File>, profileId: Json -> Option<string>) {
    forall k, id :: k in groups && Rewrites(groups[k], profileId, id) ==> id == k
  }

  /** The file is neither blank nor a group. */
  ghost predicate Unreadable(f: File, profileId: Json -> Option<string>) {
    f.Corrupt? || (f.Parsed? && forall g :: !IsGroup(f.json, profileId, g))
  }

  /** One group for every file that is not blank, in order, and each is what its file says. */
  ghost predicate ReadAs(groups: map<string, File>, names: seq<string>, profileId: Json -> Option<string>,
                         all: seq<ProfileGroup>)
    requires forall k :: k in names ==> k in groups
  {
    var stems := NotBlank(groups, names);
    |all| == |stems| && forall i :: 0 <= i < |all| ==> FileIs(groups[stems[i]], profileId, all[i])
  }

  ghost predicate FileIs(f: File, profileId: Json -> Option<string>, g: ProfileGroup) {
    f.Parsed? && IsGroup(f.json, profileId, g)
  }

  /** What a listing returns: the groups of the files by name, or nothing when some file is unreadable. */
  ghost predicate Listed(groups: map<string, File>, names: seq<string>, profileId: Json -> Option<string>,
                         found: Option<seq<ProfileGroup>>)
    requires forall k :: k in names ==> k in groups
  {
    match found
    case None => exists k :: k in names && Unreadable(groups[k], profileId)
    case Some(sorted) => exists all :: ReadAs(groups, names, profileId, all) && sorted == StableSort(all, GroupName)
  }

  lemma {:induction false} GroupsOfAre(groups: map<string, File>, names: seq<string>,
                                       profileId: Json -> Option<string>)
    requires forall k :: k in names ==> k in groups
    ensures var all := GroupsOf(groups, names, profileId);
            if all.Some? then ReadAs(groups, names, profileId, all.value)
            else exists k :: k in names && Unreadable(groups[k], profileId)
  {
    if names != [] {
      var n := |names| - 1;
      GroupsOfAre(groups, names[..n], profileId);
      var f := groups[names[n]];
      if f.Parsed? {
        DecodesTo(f.json, profileId);
      }
      assert names[n] in names;
      if k :| k in names[..n] && Unreadable(groups[k], profileId) {
        assert k in names;
      }
    }
  }

  // ---- reading again

  /** The file was written back as the group it is, under the group's id. */
  ghost predicate WritesBack(f: File, profileId: Json -> Option<string>, before: map<string, File>,
                             after: map<string, File>) {
    f.Parsed? && Embeds(f.json) &&
    exists g :: IsGroup(f.json, profileId, g) && after == before[g.id := Parsed(Serialized(g))]
  }

  /** Every file is as it was, or an old one written back as the group it is. */
  ghost predicate WrittenBack(before: map<string, File>, after: map<string, File>,
                              profileId: Json -> Option<string>) {
    after.Keys == before.Keys &&
    forall k :: k in before ==> after[k] == before[k] || BackInPlace(before[k], after[k], profileId)
  }

  ghost predicate BackInPlace(f: File, now: File, profileId: Json -> Option<string>) {
    f.Parsed? && Embeds(f.json) && exists g :: IsGroup(f.json, profileId, g) && now == Parsed(Serialized(g))
  }

  lemma BackStep(files: map<string, File>, before: map<string, File>, after: map<string, File>,
                 profileId: Json -> Option<string>, name: string)
    requires StemsAreIds(files, profileId) && WrittenBack(files, before, profileId)
    requires name in files && before[name] == files[name]
    requires after == before || WritesBack(files[name], profileId, before, after)
    ensures WrittenBack(files, after, profileId)
  {
    if after != before {
      var g :| IsGroup(files[name].json, profileId, g) && after == before[g.id := Parsed(Serialized(g))];
      assert Rewrites(files[name], profileId, g.id);
      assert BackInPlace(files[name], after[name], profileId);
    }
  }

  /** A file written back is the same group as before, and no other. */
  lemma BackIsSame(f: File, now: File, profileId: Json -> Option<string>, h: ProfileGroup)
    requires now == f || BackInPlace(f, now, profileId)
    ensures FileIs(now, profileId, h) <==> FileIs(f, profileId, h)
    ensures now.Blank? <==> f.Blank?
  {
    if now != f {
      var g :| IsGroup(f.json, profileId, g) && now == Parsed(Serialized(g));
      GroupReadsBack(g, profileId, h);
      if IsGroup(f.json, profileId, h) {
        GroupIsOne(f.json, profileId, g, h);
      }
    }
  }

  /** Main result: loading a group again, after the write-back of the first time, gives the same group, wherever the
      write-back went. */
  lemma LoadsSame(groups: map<string, File>, id: string, g: ProfileGroup, profileId: Json -> Option<string>,
                  h: ProfileGroup)
    requires id in groups && FileIs(groups[id], profileId, g)
    ensures FileIs(groups[g.id := Parsed(Serialized(g))][id], profileId, h) <==> h == g
  {
    GroupReadsBack(g, profileId, h);
    if FileIs(groups[id], profileId, h) {
      GroupIsOne(groups[id].json, profileId, g, h);
    }
  }

  /** Main result: a listing of the files written back gives what the first one gave. */
  lemma ListsSame(before: map<string, File>, after: map<string, File>, names: seq<string>,
                  profileId: Json -> Option<string>, found: Option<seq<ProfileGroup>>)
    requires WrittenBack(before, after, profileId) && forall k :: k in names ==> k in before
    ensures Listed(after, names, profileId, found) <==> Listed(before, names, profileId, found)
  {
    SameNotBlank(before, after, names, profileId);
    forall k, h | k in names ensures FileIs(after[k], profileId, h) <==> FileIs(before[k], profileId, h) {
      BackIsSame(before[k], after[k], profileId, h);
    }
    forall k | k in names ensures Unreadable(after[k], profileId) <==> Unreadable(before[k], profileId) {
      SameReadable(before[k], after[k], profileId);
    }
    forall all ensures ReadAs(after, names, profileId, all) <==> ReadAs(before, names, profileId, all) {
    }
  }

  lemma SameReadable(f: File, now: File, profileId: Json -> Option<string>)
    requires now == f || BackInPlace(f, now, profileId)
    ensures Unreadable(now, profileId) <==> Unreadable(f, profileId)
  {
    if now != f {
      var g :| IsGroup(f.json, profileId, g) && now == Parsed(Serialized(g));
      GroupReadsBack(g, profileId, g);
    }
  }

  lemma {:induction false} SameNotBlank(before: map<string, File>, after: map<string, File>, names: seq<string>,
                                        profileId: Json -> Option<string>)
    requires WrittenBack(before, after, profileId) && forall k :: k in names ==> k in before
    ensures NotBlank(after, names) == NotBlank(before, names)
  {
    if names != [] {
      SameNotBlank(before, after, names[..|names| - 1], profileId);
    }
  }

  /** And the files it leaves are named by their ids as before. */
  lemma StemsStay(before: map<string, File>, after: map<string, File>, profileId: Json -> Option<string>)
    requires WrittenBack(before, after, profileId) && StemsAreIds(before, profileId)
    ensures StemsAreIds(after, profileId)
  {
    forall k, id | k in after && Rewrites(after[k], profileId, id) ensures id == k {
      if after[k] != before[k] {
        var g :| IsGroup(before[k].json, profileId, g) && after[k] == Parsed(Serialized(g));
        GroupReadsBack(g, profileId, g);
      }
    }
  }

  lemma GroupsStep(groups: map<string, File>, names: seq<string>, profileId: Json -> Option<string>, n: nat)
    requires (forall k :: k in names ==> k in groups) && n < |names|
    ensures var before, more := GroupsOf(groups, names[..n], profileId), FileGroups(groups[names[n]], profileId);
            && GroupsOf(groups, names[..n + 1], profileId) ==
               (if before.Some? && more.Some? then Some(before.value + more.value) else None)
            && (before.None? || more.None? ==> GroupsOf(groups, names, profileId).None?)
  {
    assert names[..n + 1][..n] == names[..n];
    if GroupsOf(groups, names[..n + 1], profileId).None? {
      BadGroup(groups, names, profileId, n + 1);
    }
  }

  lemma {:induction false} BadGroup(groups: map<string, File>, names: seq<string>,
                                    profileId: Json -> Option<string>, n: nat)
    requires (forall k :: k in names ==> k in groups) && n <= |names| && GroupsOf(groups, names[..n], profileId).None?
    ensures GroupsOf(groups, names, profileId).None?
    decreases |names| - n
  {
    if n < |names| {
      assert names[..n + 1][..n] == names[..n];
      BadGroup(groups, names, profileId, n + 1);
    } else {
      assert names[..n] == names;
    }
  }
}
