/**
 The desktop app over its file store: the rule store of the window, which saves only what it has loaded,
 and the commands on groups. Every command is recorded, so that the results about runs speak of the code.
 */
module RulesApp {
  import opened Wrappers
  import opened LegacyRules
  import opened GroupFiles
  import opened RulesMigration

  class App {
    const disk: Disk
    /** The window's copy of the rules, and whether it was ever loaded. */
    var ruleSet: RuleSet
    var loaded: bool
    /** The store after every command, and the commands. */
    ghost var states: seq<Store>
    ghost var ops: seq<Op>

    ghost predicate Valid()
      reads this, disk
    {
      && Run(states, ops) && SavesAfterLoad(states, ops)
      && states[|ops|] == disk.State()
      && (loaded ==> disk.rules.Some?)
    }

    constructor (disk: Disk)
      ensures Valid() && this.disk == disk && !loaded && states == [disk.State()] && ops == []
    {
      this.disk, ruleSet, loaded := disk, EmptyRules, false;
      states, ops := [disk.State()], [];
    }

    /** Records a command that has just been carried out on the disk, finished or not. */
    ghost method Record(op: Op)
      requires Run(states, ops) && SavesAfterLoad(states, ops) && Next(states[|ops|], op, disk.State())
      requires op.SaveRules? ==> states[|ops|].rules.Some?
      requires loaded ==> disk.rules.Some?
      modifies this`states, this`ops
      ensures Valid() && states == old(states) + [disk.State()] && ops == old(ops) + [op]
    {
      OneCommandMore(states, ops, op, disk.State());
      states, ops := states + [disk.State()], ops + [op];
    }

    /** The window loads the rules; it keeps the old copy when that fails. */
    method LoadRules()
      requires Valid()
      modifies this, disk`rules, disk`tmp, disk`clock, disk`dead
      ensures Valid() && ops == old(ops) + [GroupOp] && old(states) <= states
      ensures old(loaded) ==> loaded
      ensures (ruleSet, loaded) == (old(ruleSet), old(loaded)) || (loaded && Some(ruleSet) == Loaded(disk.rules.value))
    {
      var r := disk.LoadRules();
      if r.Some? {
        ruleSet, loaded := r.value, true;
      }
      Record(GroupOp);
    }

    /** `commit`, behind the guard every caller of it has: nothing is saved before the first load. */
    method Update(next: RuleSet)
      requires Valid()
      modifies this, disk`rules, disk`tmp, disk`clock, disk`dead
      ensures Valid() && loaded == old(loaded) && old(states) <= states
      ensures ops == if loaded then old(ops) + [SaveRules(next)] else old(ops)
      ensures ruleSet == if loaded then next else old(ruleSet)
      ensures !loaded ==> disk.State() == old(disk.State())
    {
      if !loaded {
        return;
      }
      ruleSet := next;
      var _ := disk.SaveRules(next);
      Record(SaveRules(next));
    }

    method ListGroups() returns (found: Option<seq<ProfileGroup>>)
      requires Valid()
      modifies this`states, this`ops, disk`rules, disk`tmp, disk`groups, disk`clock, disk`dead
      ensures Valid() && ops == old(ops) + [GroupOp] && old(states) <= states
    {
      found := disk.ListGroups();
      Record(GroupOp);
    }

    method LoadGroup(id: string) returns (group: Option<ProfileGroup>)
      requires Valid()
      modifies this`states, this`ops, disk`rules, disk`tmp, disk`groups, disk`clock, disk`dead
      ensures Valid() && ops == old(ops) + [GroupOp] && old(states) <= states
    {
      group := disk.LoadGroup(id);
      Record(GroupOp);
    }

    method SaveGroup(group: ProfileGroup) returns (ok: bool)
      requires Valid()
      modifies this`states, this`ops, disk`rules, disk`tmp, disk`groups, disk`clock, disk`dead
      ensures Valid() && ops == old(ops) + [GroupOp] && old(states) <= states
    {
      ok := disk.SaveGroup(group);
      Record(GroupOp);
    }

    method DeleteGroup(id: string) returns (ok: bool)
      requires Valid()
      modifies this`states, this`ops, disk`rules, disk`tmp, disk`groups, disk`clock, disk`dead
      ensures Valid() && ops == old(ops) + [GroupOp] && old(states) <= states
    {
      ok := disk.DeleteGroup(id);
      Record(GroupOp);
    }

    method MigrateV2(profileIds: seq<string>, routes: map<string, string>, priorities: map<string, Priority>)
      returns (ok: bool)
      requires Valid()
      modifies this`states, this`ops, disk
      ensures Valid() && ops == old(ops) + [Migrate(routes)] && old(states) <= states
    {
      ok := disk.MigrateV2(profileIds, routes, priorities);
      Record(Migrate(routes));
    }

    method ChangeActive(id: Option<string>)
      requires Valid()
      modifies this`states, this`ops, disk`activeId
      ensures Valid() && ops == old(ops) + [Op.ChangeActive] && old(states) <= states
    {
      disk.activeId := id;
      Record(Op.ChangeActive);
    }

    /** The process starts anew on what is on disk. */
    method Restart()
      requires Valid()
      modifies this`ruleSet, this`loaded, disk`dead
      ensures Valid() && !loaded && !disk.dead && disk.State() == old(disk.State())
    {
      disk.dead := false;
      ruleSet, loaded := EmptyRules, false;
    }
  }

  lemma OneCommandMore(states: seq<Store>, ops: seq<Op>, op: Op, after: Store)
    requires Run(states, ops) && SavesAfterLoad(states, ops) && Next(states[|ops|], op, after)
    requires op.SaveRules? ==> states[|ops|].rules.Some?
    ensures Run(states + [after], ops + [op]) && SavesAfterLoad(states + [after], ops + [op])
  {
    var all, more := states + [after], ops + [op];
    forall i | 0 <= i < |more| ensures Next(all[i], more[i], all[i + 1]) {
      if i < |ops| {
        assert all[i] == states[i] && all[i + 1] == states[i + 1] && more[i] == ops[i];
      }
    }
  }

  /** Main result: whatever commands an app went through, and whatever failed or died in them, on a disk without
      `rules.json`: either no group file has been touched, or `rules.json` was made as the merge of all the
      original ones and changed by saves alone. */
  lemma AppLosesNothing(app: App)
    requires app.Valid() && app.states[0].rules.None?
    ensures app.disk.rules.None? ==> app.disk.groups == app.states[0].groups && !app.loaded
    ensures app.disk.rules.Some? ==>
              exists c, active, extra ::
                && 0 <= c < |app.ops| && app.states[c + 1].rules.Some? && app.states[c + 1].rules.value.Good?
                && Offers(app.ops[c], app.states[c].activeId, active, extra)
                && MergeOf(app.states[0].groups, extra, active, app.states[c + 1].rules.value.set0)
                && (app.disk.rules == app.states[c + 1].rules || LastSaved(app.states, app.ops, c + 1, |app.ops|))
  {
    var n := |app.ops|;
    if app.disk.rules.None? {
      NothingLostBeforeMigration(app.states, app.ops, n);
    } else {
      var c := SavesAfterLoadMerge(app.states, app.ops, n);
      var active, extra :| Offers(app.ops[c], app.states[c].activeId, active, extra) &&
                           MergeOf(app.states[0].groups, extra, active, app.states[c + 1].rules.value.set0);
    }
  }
}
