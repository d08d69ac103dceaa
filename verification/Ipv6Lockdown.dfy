/**
 The interface-level IPv6 lockdown on Linux and its crash recovery.

 The user's sysctl values are saved to a state file before they are changed and written back
 from it later, possibly by another process. `Next` lets the process die between any two
 writes, lets the state file be torn, and lets a session end for reconnect with the lockdown
 in place.
 */
module Ipv6Lockdown {
  import opened Wrappers

  datatype Leaf = DisableIpv6 | AcceptRa

  /** One sysctl, /proc/sys/net/ipv6/conf/<iface>/<leaf>. */
  datatype Reg = Reg(iface: string, leaf: Leaf)

  type Regs = map<Reg, string>

  /** The state file: missing, unparsable, or holding saved values. */
  datatype File = Absent | Torn | Saved(regs: Regs)

  datatype World = World(live: Regs, file: File)

  /** Every sysctl except the loopback interface's. */
  function Snapshot(live: Regs): Regs {
    map r | r in live && r.iface != "lo" :: live[r]
  }

  /** Both leaves of every interface in the snapshot, whether or not the leaf exists. */
  function Targets(snap: Regs): set<Reg> {
    set r, leaf | r in snap && leaf in {DisableIpv6, AcceptRa} :: Reg(r.iface, leaf)
  }

  function LockValue(leaf: Leaf): string {
    if leaf == DisableIpv6 then "1" else "0"
  }

  /** Writing a sysctl that does not exist fails and changes nothing. */
  function WriteReg(live: Regs, r: Reg, value: string): Regs {
    if r in live then live[r := value] else live
  }

  /**
   Where the process stands.
   - Recover: about to run the restore, at start-up (`next` is the lockdown flag of the session) or at exit
   - Restoring: sysctls of the state file still to be written back, then the file is removed
   - Ready: start-up restore finished
   - Snapshotted, Truncated: values read, state file being written
   - Locking: sysctls still to be locked
   - Running: the session is up
   */
  datatype Phase =
    | Idle
    | Recover(next: Option<bool>)
    | Restoring(todo: Regs, next: Option<bool>)
    | Ready(lock: bool)
    | Snapshotted(snap: Regs)
    | Truncated(snap: Regs)
    | Locking(targets: set<Reg>)
    | Running(lock: bool)

  datatype State = State(world: World, phase: Phase)

  /** Where a finished restore leads. */
  function After(next: Option<bool>): Phase {
    if next.Some? then Ready(next.value) else Idle
  }

  // ---- the steps

  /** A session starts, or a kept session is released. */
  predicate Start(s: State, s': State) {
    s.phase.Idle? && s'.phase.Recover? && s'.world == s.world
  }

  /** The restore reads the state file: nothing to do, an unparsable file to discard, or values. */
  predicate ReadFile(s: State, s': State) {
    && s.phase.Recover?
    && s' == match s.world.file
             case Absent => s.(phase := After(s.phase.next))
             case Torn => State(s.world.(file := Absent), After(s.phase.next))
             case Saved(regs) => s.(phase := Restoring(regs, s.phase.next))
  }

  predicate RestoreOne(s: State, s': State) {
    && s.phase.Restoring?
    && exists r :: r in s.phase.todo &&
         s' == State(s.world.(live := WriteReg(s.world.live, r, s.phase.todo[r])),
                     Restoring(s.phase.todo - {r}, s.phase.next))
  }

  predicate RemoveFile(s: State, s': State) {
    && s.phase.Restoring? && s.phase.todo == map[]
    && s' == State(s.world.(file := Absent), After(s.phase.next))
  }

  /** Interfaces are enumerated and their values read. */
  predicate TakeSnapshot(s: State, s': State) {
    s.phase == Ready(true) && s' == s.(phase := Snapshotted(Snapshot(s.world.live)))
  }

  /** Opening the state file for writing empties it; part of the text may follow. */
  predicate Truncate(s: State, s': State) {
    s.phase.Snapshotted? && s' == State(s.world.(file := Torn), Truncated(s.phase.snap))
  }

  predicate Persist(s: State, s': State) {
    s.phase.Truncated? && s' == State(s.world.(file := Saved(s.phase.snap)), Locking(Targets(s.phase.snap)))
  }

  /** An interface's disable_ipv6 is written before its accept_ra. */
  predicate LockOne(s: State, s': State) {
    && s.phase.Locking?
    && exists r :: r in s.phase.targets && (r.leaf == AcceptRa ==> Reg(r.iface, DisableIpv6) !in s.phase.targets) &&
         s' == State(s.world.(live := WriteReg(s.world.live, r, LockValue(r.leaf))), Locking(s.phase.targets - {r}))
  }

  /** The session comes up: locked, without a lockdown, or with a lockdown that could not be prepared
      (interfaces not listed, or the state file not written). */
  predicate ComeUp(s: State, s': State) {
    && (|| s.phase == Locking({})
        || s.phase.Ready?
        || s.phase.Snapshotted? || s.phase.Truncated?)
    && s' == s.(phase := Running(if s.phase.Ready? then s.phase.lock else true))
  }

  /** Clean shutdown: a session with lockdown restores, one without just ends. */
  predicate Stop(s: State, s': State) {
    s.phase.Running? && s' == s.(phase := if s.phase.lock then Recover(None) else Idle)
  }

  /** A crash anywhere, an early return, or an exit for reconnect: nothing is undone. */
  predicate Die(s: State, s': State) {
    s' == s.(phase := Idle)
  }

  /** The state file exists but cannot be read: the restore gives up and start-up goes on. */
  predicate ReadFault(s: State, s': State) {
    s.phase.Recover? && s.world.file != Absent && s' == s.(phase := After(s.phase.next))
  }

  /** A read fault that a lockdown may follow only if the live values still are the saved ones. */
  predicate BenignFault(s: State, s': State) {
    && ReadFault(s, s')
    && (s.phase.next == Some(true) && s.world.file.Saved? ==> Snapshot(s.world.live) == s.world.file.regs)
  }

  predicate Next(s: State, s': State) {
    || Start(s, s') || ReadFile(s, s') || RestoreOne(s, s') || RemoveFile(s, s')
    || TakeSnapshot(s, s') || Truncate(s, s') || Persist(s, s') || LockOne(s, s')
    || ComeUp(s, s') || Stop(s, s') || Die(s, s') || BenignFault(s, s')
  }

  // ---- safety

  /** Nothing is lost: either nothing is changed, or the state file still knows the user's values. */
  ghost predicate Safe(orig: Regs, w: World) {
    w.live == orig || w.file == Saved(Snapshot(orig))
  }

  /** The user's values on a machine where nothing is locked; a torn file may lie around. */
  ghost predicate Init(orig: Regs, s: State) {
    s.phase == Idle && s.world.live == orig && !s.world.file.Saved?
  }

  /** Only locked interfaces differ from the originals, and a readable file holds the originals. */
  ghost predicate Basic(orig: Regs, w: World) {
    && w.live.Keys == orig.Keys
    && (forall r :: r in orig && r.iface == "lo" ==> w.live[r] == orig[r])
    && (w.file.Saved? ==> w.file.regs == Snapshot(orig))
  }

  ghost predicate Inv(orig: Regs, s: State) {
    && Basic(orig, s.world)
    && match s.phase
       case Idle => Safe(orig, s.world)
       case Recover(_) => Safe(orig, s.world)
       case Restoring(todo, _) =>
         && s.world.file.Saved?
         && (forall r :: r in todo ==> r in Snapshot(orig) && todo[r] == orig[r])
         && (forall r :: r in orig && r !in todo ==> s.world.live[r] == orig[r])
       case Ready(lock) => Safe(orig, s.world) && (lock ==> s.world.live == orig)
       case Snapshotted(snap) => s.world.live == orig && snap == Snapshot(orig)
       case Truncated(snap) => s.world.live == orig && snap == Snapshot(orig)
       case Locking(_) => s.world.file.Saved?
       case Running(_) => Safe(orig, s.world)
  }

  lemma InvSafe(orig: Regs, s: State)
    requires Inv(orig, s)
    ensures Safe(orig, s.world)
  {
  }

  lemma LiveFromSnapshot(orig: Regs, w: World)
    requires Basic(orig, w) && Snapshot(w.live) == Snapshot(orig)
    ensures w.live == orig
  {
    forall r | r in orig
      ensures w.live[r] == orig[r]
    {
      if r.iface != "lo" {
        assert r in Snapshot(orig);
      }
    }
  }

  lemma InvRestoreOne(orig: Regs, s: State, s': State)
    requires Inv(orig, s) && RestoreOne(s, s')
    ensures Inv(orig, s')
  {
  }

  lemma InvLockOne(orig: Regs, s: State, s': State)
    requires Inv(orig, s) && LockOne(s, s')
    requires Locks(orig, s)
    ensures Inv(orig, s')
  {
  }

  ghost predicate Locks(orig: Regs, s: State) {
    s.phase.Locking? ==> forall r :: r in s.phase.targets ==> r.iface != "lo"
  }

  ghost predicate FullInv(orig: Regs, s: State) {
    Inv(orig, s) && Locks(orig, s)
  }

  lemma InvNext(orig: Regs, s: State, s': State)
    requires FullInv(orig, s) && Next(s, s')
    ensures FullInv(orig, s')
  {
    if RestoreOne(s, s') {
      InvRestoreOne(orig, s, s');
    } else if LockOne(s, s') {
      InvLockOne(orig, s, s');
    } else if BenignFault(s, s') && s.phase.next == Some(true) && s.world.file.Saved? {
      LiveFromSnapshot(orig, s.world);
    }
  }

  /** A run: the states a machine goes through, over any number of sessions. */
  ghost predicate IsRun(run: seq<State>) {
    |run| > 0 && forall i :: 0 <= i < |run| - 1 ==> Next(run[i], run[i + 1])
  }

  lemma {:induction false} RunInv(orig: Regs, run: seq<State>, k: nat)
    requires IsRun(run) && Init(orig, run[0]) && k < |run|
    ensures FullInv(orig, run[k])
  {
    if k > 0 {
      RunInv(orig, run, k - 1);
      InvNext(orig, run[k - 1], run[k]);
    }
  }

  /** Main result: in every state of every run, the user's values are live or saved. */
  lemma LockdownIsCrashSafe(orig: Regs, run: seq<State>, k: nat)
    requires IsRun(run) && Init(orig, run[0]) && k < |run|
    ensures Safe(orig, run[k].world)
  {
    RunInv(orig, run, k);
    InvSafe(orig, run[k]);
  }

  /** The world after a restore that runs to its end. */
  function Restored(w: World): World {
    match w.file
    case Absent => w
    case Torn => w.(file := Absent)
    case Saved(regs) => World(map r | r in w.live :: if r in regs then regs[r] else w.live[r], Absent)
  }

  /** Main result: wherever a run stands, a completed restore re-establishes the user's values. */
  lemma RestoreRecovers(orig: Regs, run: seq<State>, k: nat)
    requires IsRun(run) && Init(orig, run[0]) && k < |run|
    ensures Restored(run[k].world) == World(orig, Absent)
  {
    RunInv(orig, run, k);
    InvSafe(orig, run[k]);
  }

  /** The exact price of an unreadable state file: after a read fault, a lockdown that truncates the
      file is still safe if and only if the fault was benign. */
  lemma FaultSafeIff(orig: Regs, s: State)
    requires FullInv(orig, s) && s.phase == Recover(Some(true)) && s.world.file != Absent
    ensures var ready := s.(phase := Ready(true));
            var taken := ready.(phase := Snapshotted(Snapshot(s.world.live)));
            var cut := State(s.world.(file := Torn), Truncated(Snapshot(s.world.live)));
            && ReadFault(s, ready) && TakeSnapshot(ready, taken) && Truncate(taken, cut)
            && (Safe(orig, cut.world) <==> BenignFault(s, ready))
  {
    if s.world.file.Saved? && Snapshot(s.world.live) == s.world.file.regs {
      LiveFromSnapshot(orig, s.world);
    }
  }

  // ---- runs with any read fault

  /** An unreadable state file before a lockdown, while the live values are not the saved ones. */
  predicate HarmfulFault(s: State, s': State) {
    ReadFault(s, s') && s.phase.next == Some(true) && s.world.file.Saved? && Snapshot(s.world.live) != s.world.file.regs
  }

  predicate AnyNext(s: State, s': State) {
    Next(s, s') || ReadFault(s, s')
  }

  ghost predicate IsAnyRun(run: seq<State>) {
    |run| > 0 && forall i :: 0 <= i < |run| - 1 ==> AnyNext(run[i], run[i + 1])
  }

  /** The i-th step is a harmful fault, and the lockdown after it gets as far as emptying the state file. */
  predicate LosesAt(run: seq<State>, i: nat) {
    i + 3 < |run| && HarmfulFault(run[i], run[i + 1]) && Truncate(run[i + 2], run[i + 3])
  }

  /** What holds as long as every state was safe. */
  ghost predicate Weak(orig: Regs, s: State) {
    && Basic(orig, s.world) && Safe(orig, s.world) && Locks(orig, s)
    && match s.phase
       case Restoring(todo, _) => Inv(orig, s)
       case Snapshotted(snap) => snap == Snapshot(s.world.live)
       case Truncated(snap) => s.world.live == orig && snap == Snapshot(orig)
       case Locking(_) => s.world.file.Saved?
       case _ => true
  }

  lemma WeakLockOne(orig: Regs, s: State, s': State)
    requires Weak(orig, s) && LockOne(s, s')
    ensures Weak(orig, s')
  {
  }

  lemma WeakNext(orig: Regs, s: State, s': State)
    requires Weak(orig, s) && AnyNext(s, s')
    ensures Safe(orig, s'.world) || (Truncate(s, s') && s.world.live != orig)
    ensures Safe(orig, s'.world) ==> Weak(orig, s')
  {
    if RestoreOne(s, s') {
      InvRestoreOne(orig, s, s');
    } else if LockOne(s, s') {
      WeakLockOne(orig, s, s');
    }
  }

  /** Where values are read for a lockdown they are the user's, or there was a harmful fault just before. */
  lemma SnapshotAfter(orig: Regs, run: seq<State>, j: nat)
    requires IsAnyRun(run) && Init(orig, run[0]) && j < |run| && run[j].phase.Snapshotted?
    requires forall i :: 0 <= i <= j ==> Weak(orig, run[i])
    ensures run[j].world.live == orig || (j >= 2 && HarmfulFault(run[j - 2], run[j - 1]))
  {
    assert AnyNext(run[j - 1], run[j - 1 + 1]);
    assert run[j - 1].phase == Ready(true) && run[j - 1].world == run[j].world;
    assert AnyNext(run[j - 2], run[j - 2 + 1]);
    ReadyAfter(orig, run[j - 2], run[j - 1]);
  }

  lemma ReadyAfter(orig: Regs, s: State, s': State)
    requires Weak(orig, s) && AnyNext(s, s') && s'.phase == Ready(true)
    ensures s'.world.live == orig || HarmfulFault(s, s')
  {
    if ReadFault(s, s') && !HarmfulFault(s, s') {
      if s.world.file.Saved? {
        LiveFromSnapshot(orig, s.world);
      }
    } else if RemoveFile(s, s') {
      assert Inv(orig, s);
      assert forall r :: r in orig ==> s.world.live[r] == orig[r];
    }
  }

  lemma {:induction false} SafeRun(orig: Regs, run: seq<State>, k: nat)
    requires IsAnyRun(run) && Init(orig, run[0]) && k < |run| && forall i: nat :: !LosesAt(run, i)
    ensures forall i :: 0 <= i <= k ==> Weak(orig, run[i])
  {
    if k > 0 {
      SafeRun(orig, run, k - 1);
      assert AnyNext(run[k - 1], run[k - 1 + 1]);
      WeakNext(orig, run[k - 1], run[k]);
      if !Safe(orig, run[k].world) {
        SnapshotAfter(orig, run, k - 1);
        assert LosesAt(run, k - 3);
      }
    }
  }

  lemma {:induction false} WeakWhileSafe(orig: Regs, run: seq<State>, k: nat)
    requires IsAnyRun(run) && Init(orig, run[0]) && k < |run| && forall i :: 0 <= i <= k ==> Safe(orig, run[i].world)
    ensures Weak(orig, run[k])
  {
    if k > 0 {
      WeakWhileSafe(orig, run, k - 1);
      assert AnyNext(run[k - 1], run[k - 1 + 1]);
      WeakNext(orig, run[k - 1], run[k]);
    }
  }

  lemma LossIsUnsafe(orig: Regs, run: seq<State>, i: nat)
    requires IsAnyRun(run) && LosesAt(run, i) && Weak(orig, run[i])
    ensures !Safe(orig, run[i + 3].world)
  {
    assert AnyNext(run[i + 1], run[i + 1 + 1]);
    assert run[i + 2].world == run[i].world;
    assert run[i].world.live != orig;
  }

  /** Main result: with read faults of any kind, a run keeps the user's values live or saved throughout if and
      only if in no session a lockdown that empties the state file follows a fault that hid changed values. */
  lemma RunIsSafeIff(orig: Regs, run: seq<State>)
    requires IsAnyRun(run) && Init(orig, run[0])
    ensures (forall k :: 0 <= k < |run| ==> Safe(orig, run[k].world)) <==> forall i: nat :: !LosesAt(run, i)
  {
    if forall i: nat :: !LosesAt(run, i) {
      SafeRun(orig, run, |run| - 1);
    } else if forall k :: 0 <= k < |run| ==> Safe(orig, run[k].world) {
      var i: nat :| LosesAt(run, i);
      WeakWhileSafe(orig, run, i);
      LossIsUnsafe(orig, run, i);
      assert false;
    }
  }

  /** What can keep a lockdown from being prepared: the interfaces are not listed, the state file cannot be opened,
      or writing it fails after it was emptied. */
  datatype Fault = NoFault | NotListed | NotOpened | CutShort

  /** The world after a lockdown, or after the attempt. */
  function AfterLockdown(w: World, fault: Fault): World {
    match fault
    case NoFault => Locked(w.live)
    case CutShort => World(w.live, Torn)
    case _ => w
  }

  /** The world a finished lockdown leaves. */
  function Locked(live: Regs): World {
    World(map r | r in live :: if r.iface != "lo" then LockValue(r.leaf) else live[r], Saved(Snapshot(live)))
  }

  /** On every interface but loopback, disable_ipv6 is 1 and accept_ra 0; nothing else has changed. */
  ghost predicate IPv6IsOff(before: Regs, live: Regs) {
    && live.Keys == before.Keys
    && forall r :: r in live ==>
         live[r] == if r.iface == "lo" then before[r] else match r.leaf { case DisableIpv6 => "1" case AcceptRa => "0" }
  }

  /** The state file holds the values of every interface but loopback. */
  ghost predicate SavedInFile(before: Regs, file: File) {
    && file.Saved?
    && (forall r :: r in file.regs <==> r in before && r.iface != "lo")
    && (forall r :: r in file.regs ==> file.regs[r] == before[r])
  }

  lemma LockedIsOff(live: Regs)
    ensures IPv6IsOff(live, Locked(live).live) && SavedInFile(live, Locked(live).file)
  {
  }

  lemma RestoredFromIdle(orig: Regs, w: World)
    requires FullInv(orig, State(w, Idle))
    ensures Restored(w) == World(orig, Absent)
  {
  }

  lemma RestoredFromLocked(orig: Regs)
    ensures Restored(Locked(orig)) == World(orig, Absent)
  {
  }

  lemma SmallerMap(m: Regs, r: Reg)
    requires r in m
    ensures |m - {r}| < |m|
  {
    assert m == (m - {r})[r := m[r]];
  }

  function Ifaces(snap: Regs): set<string> {
    set r | r in snap :: r.iface
  }

  /** What is left to lock when the interfaces `ifaces` are still to come. */
  ghost function Remaining(snap: Regs, ifaces: set<string>): set<Reg> {
    set r | r in Targets(snap) && r.iface in ifaces
  }

  lemma RemainingStep(snap: Regs, ifaces: set<string>, i: string)
    requires i in ifaces && i in Ifaces(snap)
    ensures Reg(i, DisableIpv6) in Remaining(snap, ifaces) && Reg(i, AcceptRa) in Remaining(snap, ifaces)
    ensures Remaining(snap, ifaces - {i}) == Remaining(snap, ifaces) - {Reg(i, DisableIpv6), Reg(i, AcceptRa)}
  {
    assert DisableIpv6 in {DisableIpv6, AcceptRa} && AcceptRa in {DisableIpv6, AcceptRa};
    forall r | r in Remaining(snap, ifaces) && r.iface == i
      ensures r == Reg(i, DisableIpv6) || r == Reg(i, AcceptRa)
    {
      assert r.leaf == DisableIpv6 || r.leaf == AcceptRa;
    }
  }

  /** The snapshot's interfaces are those of the live sysctls, without loopback. */
  lemma SnapshotIfaces(live: Regs)
    ensures forall r :: r in live ==> (r.iface in Ifaces(Snapshot(live)) <==> r.iface != "lo")
  {
    forall r | r in live && r.iface != "lo"
      ensures r.iface in Ifaces(Snapshot(live))
    {
      assert r in Snapshot(live);
    }
  }

  // ---- the code, with the run it produces

  /** The two procedures over live registers and a state file. Every write appends a state to `run`,
      which the methods show to be a run of the machine above. */
  class Machine {
    var live: Regs
    var file: File
    ghost var phase: Phase
    ghost var run: seq<State>

    constructor (live: Regs, file: File)
      ensures Valid() && this.live == live && this.file == file && phase == Idle
      ensures run == [State(World(live, file), Idle)]
    {
      this.live, this.file, this.phase := live, file, Idle;
      this.run := [State(World(live, file), Idle)];
    }

    ghost predicate Valid()
      reads this
    {
      IsRun(run) && run[|run| - 1] == State(World(live, file), phase)
    }

    method Move(l: Regs, f: File, ghost p: Phase)
      requires Valid() && Next(State(World(live, file), phase), State(World(l, f), p))
      modifies this
      ensures Valid() && live == l && file == f && phase == p
      ensures run == old(run) + [State(World(l, f), p)]
    {
      live, file, phase := l, f, p;
      run := run + [State(World(l, f), p)];
    }

    method WriteBack(r: Reg, ghost todo: Regs, ghost next: Option<bool>, value: string)
      requires Valid() && phase == Restoring(todo, next) && r in todo && value == todo[r]
      modifies this
      ensures Valid() && old(run) <= run
      ensures live == WriteReg(old(live), r, value) && file == old(file) && phase == Restoring(todo - {r}, next)
    {
      assert RestoreOne(State(World(live, file), phase),
                        State(World(WriteReg(live, r, value), file), Restoring(todo - {r}, next)));
      Move(WriteReg(live, r, value), file, Restoring(todo - {r}, next));
    }

    method Lock(r: Reg, ghost targets: set<Reg>)
      requires Valid() && phase == Locking(targets) && r in targets
      requires r.leaf == AcceptRa ==> Reg(r.iface, DisableIpv6) !in targets
      modifies this
      ensures Valid() && old(run) <= run
      ensures live == WriteReg(old(live), r, LockValue(r.leaf)) && file == old(file) && phase == Locking(targets - {r})
    {
      assert LockOne(State(World(live, file), phase),
                     State(World(WriteReg(live, r, LockValue(r.leaf)), file), Locking(targets - {r})));
      Move(WriteReg(live, r, LockValue(r.leaf)), file, Locking(targets - {r}));
    }

    /** Snapshot and state file, up to the first lock. */
    method SaveState() returns (snap: Regs)
      requires Valid() && phase == Ready(true)
      modifies this
      ensures Valid() && old(run) <= run
      ensures snap == Snapshot(old(live)) && live == old(live) && file == Saved(snap) && phase == Locking(Targets(snap))
    {
      snap := Snapshot(live);
      Move(live, file, Snapshotted(snap));
      Move(live, Torn, Truncated(snap));
      Move(live, Saved(snap), Locking(Targets(snap)));
    }

    /** Writes every value of the state file back. */
    method WriteAllBack(regs: Regs, ghost next: Option<bool>)
      requires Valid() && file == Saved(regs) && phase == Restoring(regs, next)
      modifies this
      ensures Valid() && old(run) <= run && file == Saved(regs) && phase == Restoring(map[], next)
      ensures live == map r | r in old(live) :: if r in regs then regs[r] else old(live)[r]
    {
      ghost var before := live;
      var todo := regs;
      while todo != map[]
        invariant Valid() && old(run) <= run
        invariant file == Saved(regs) && phase == Restoring(todo, next)
        invariant forall r :: r in todo ==> r in regs && todo[r] == regs[r]
        invariant live.Keys == before.Keys
        invariant forall r :: r in live ==> live[r] == if r in regs && r !in todo then regs[r] else before[r]
        decreases |todo|
      {
        var r :| r in todo;
        assert |todo - {r}| < |todo| by {
          assert todo.Keys - {r} < todo.Keys;
          SmallerMap(todo, r);
        }
        WriteBack(r, todo, next, todo[r]);
        todo := todo - {r};
      }
    }

    /** `restoreSystemIPv6`: read the file, write every saved value back, remove the file. */
    method RestoreSystemIPv6()
      requires Valid() && phase.Recover?
      modifies this
      ensures Valid() && old(run) <= run
      ensures World(live, file) == Restored(old(World(live, file)))
      ensures phase == After(old(phase.next))
    {
      ghost var next := phase.next;
      match file {
        case Absent =>
          Move(live, Absent, After(next));
        case Torn =>
          Move(live, Absent, After(next));
        case Saved(regs) =>
          Move(live, file, Restoring(regs, next));
          WriteAllBack(regs, next);
          Move(live, Absent, After(next));
      }
    }

    /** One interface: disable_ipv6, then accept_ra. */
    method LockIface(i: string, ghost targets: set<Reg>)
      requires Valid() && phase == Locking(targets)
      requires Reg(i, DisableIpv6) in targets && Reg(i, AcceptRa) in targets
      modifies this
      ensures Valid() && old(run) <= run && file == old(file)
      ensures phase == Locking(targets - {Reg(i, DisableIpv6), Reg(i, AcceptRa)})
      ensures live.Keys == old(live).Keys
      ensures forall r :: r in live ==> live[r] == if r.iface == i then LockValue(r.leaf) else old(live)[r]
    {
      Lock(Reg(i, DisableIpv6), targets);
      Lock(Reg(i, AcceptRa), targets - {Reg(i, DisableIpv6)});
      assert targets - {Reg(i, DisableIpv6)} - {Reg(i, AcceptRa)} == targets - {Reg(i, DisableIpv6), Reg(i, AcceptRa)};
      forall r | r in live
        ensures live[r] == if r.iface == i then LockValue(r.leaf) else old(live)[r]
      {
        assert r.leaf == DisableIpv6 || r.leaf == AcceptRa;
      }
    }

    method LockAll(snap: Regs)
      requires Valid() && phase == Locking(Targets(snap))
      modifies this
      ensures Valid() && old(run) <= run && file == old(file) && phase == Locking({})
      ensures live.Keys == old(live).Keys
      ensures forall r :: r in live ==> live[r] == if r.iface in Ifaces(snap) then LockValue(r.leaf) else old(live)[r]
    {
      ghost var before := live;
      var ifaces := Ifaces(snap);
      assert Remaining(snap, ifaces) == Targets(snap);
      while ifaces != {}
        invariant Valid() && old(run) <= run
        invariant ifaces <= Ifaces(snap)
        invariant file == old(file) && phase == Locking(Remaining(snap, ifaces))
        invariant live.Keys == before.Keys
        invariant forall r :: r in live ==>
                    live[r] == if r.iface in Ifaces(snap) - ifaces then LockValue(r.leaf) else before[r]
        decreases |ifaces|
      {
        var i :| i in ifaces;
        RemainingStep(snap, ifaces, i);
        LockIface(i, Remaining(snap, ifaces));
        ifaces := ifaces - {i};
      }
    }

    method Up(lock: bool)
      requires Valid() && (phase == Locking({}) || phase.Ready? || phase.Snapshotted? || phase.Truncated?)
      requires lock == if phase.Ready? then phase.lock else true
      modifies this
      ensures Valid() && old(run) <= run && phase == Running(lock) && live == old(live) && file == old(file)
    {
      assert ComeUp(State(World(live, file), phase), State(World(live, file), Running(lock)));
      Move(live, file, Running(lock));
    }

    method Begin(ghost next: Option<bool>)
      requires Valid() && (phase == Idle || (phase == Running(true) && next == None))
      modifies this
      ensures Valid() && old(run) <= run && phase == Recover(next) && live == old(live) && file == old(file)
    {
      Move(live, file, Recover(next));
    }

    method End()
      requires Valid()
      modifies this
      ensures Valid() && old(run) <= run && phase == Idle && live == old(live) && file == old(file)
    {
      assert Die(State(World(live, file), phase), State(World(live, file), Idle));
      Move(live, file, Idle);
    }

    /** `disableSystemIPv6`: snapshot, persist, then lock every interface of the snapshot. When that cannot be
        prepared, the session comes up without. */
    method DisableSystemIPv6(fault: Fault)
      requires Valid() && phase == Ready(true)
      modifies this
      ensures Valid() && old(run) <= run && phase == Running(true)
      ensures World(live, file) == AfterLockdown(old(World(live, file)), fault)
      ensures fault == NoFault ==> IPv6IsOff(old(live), live) && SavedInFile(old(live), file)
      ensures fault != NoFault ==> live == old(live)
    {
      LockedIsOff(live);
      ghost var before := live;
      if fault == NoFault {
        var snap := SaveState();
        LockAll(snap);
        SnapshotIfaces(before);
      } else {
        GiveUp(fault);
      }
      Up(true);
    }

    /** How far an attempt gets that cannot be prepared. */
    method GiveUp(fault: Fault)
      requires Valid() && phase == Ready(true) && fault != NoFault
      modifies this
      ensures Valid() && old(run) <= run && (phase == Ready(true) || phase.Snapshotted? || phase.Truncated?)
      ensures World(live, file) == AfterLockdown(old(World(live, file)), fault)
    {
      if fault != NotListed {
        Move(live, file, Snapshotted(Snapshot(live)));
        if fault == CutShort {
          Move(live, Torn, Truncated(phase.snap));
        }
      }
    }

    /** One session of `Engine.Run` as far as the lockdown goes. `fails` is an early return between the
        start-up restore and the lockdown, `reconnect` an exit that keeps everything in place. */
    method Session(ghost orig: Regs, lockdown: bool, fails: bool, fault: Fault, reconnect: bool)
      requires Valid() && phase == Idle
      requires FullInv(orig, State(World(live, file), Idle))
      modifies this
      ensures Valid() && old(run) <= run && phase == Idle
      ensures World(live, file) == if lockdown && !fails && reconnect then AfterLockdown(World(orig, Absent), fault)
                                   else World(orig, Absent)
      ensures lockdown && !fails && reconnect && fault == NoFault ==>
                IPv6IsOff(orig, live) && SavedInFile(orig, file)
      ensures !(lockdown && !fails && reconnect && fault == NoFault) ==> live == orig
    {
      LockedIsOff(orig);
      RestoredFromIdle(orig, World(live, file));
      Begin(Some(lockdown));
      RestoreSystemIPv6();
      if fails {
        End();
        return;
      }
      if lockdown {
        DisableSystemIPv6(fault);
        if !reconnect {
          RestoredFromLocked(orig);
          Begin(None);
          RestoreSystemIPv6();
        }
      } else {
        Up(false);
      }
      End();
    }

    /** `ReleaseFirewall`: what a host does when it gives up on a session kept for reconnect. */
    method Release(ghost orig: Regs)
      requires Valid() && phase == Idle
      requires FullInv(orig, State(World(live, file), Idle))
      modifies this
      ensures Valid() && old(run) <= run && phase == Idle
      ensures World(live, file) == World(orig, Absent)
    {
      RestoredFromIdle(orig, World(live, file));
      Begin(None);
      RestoreSystemIPv6();
    }
  }
}
