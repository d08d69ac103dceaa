/**
 Reconnecting the members of a tunnel pool: each member retries with growing pauses, gives up after
 ten failures in a row and reports that on a channel with room for one error.
 */
module PoolReconnect {
  import opened Wrappers

  const FIRST_BACKOFF: nat := 5
  const MAX_BACKOFF: nat := 60
  const MAX_ATTEMPTS: nat := 10

  // ---- one member

  datatype Phase = Up | Waiting | Dead

  /** A member: what it is doing, the attempts of this outage, the next pause, the client in its slot of the
      pool, all pauses so far (in seconds) and the outcomes of all dials so far. */
  datatype Member = Member(phase: Phase, attempts: nat, backoff: nat, slot: nat, waits: seq<nat>, dials: seq<bool>)

  function Started(client: nat): Member {
    Member(Up, 0, FIRST_BACKOFF, client, [], [])
  }

  /** The client's `Run` returns: the first attempt of an outage begins with its pause. */
  function Dies(m: Member): Member
    requires m.phase == Up
  {
    m.(phase := Waiting, attempts := 1, waits := m.waits + [m.backoff])
  }

  function DialOk(m: Member, client: nat): Member
    requires m.phase == Waiting
  {
    m.(phase := Up, slot := client, backoff := FIRST_BACKOFF, dials := m.dials + [true])
  }

  /** A failed dial: the next attempt with a longer pause, or giving up. */
  function DialFails(m: Member): Member
    requires m.phase == Waiting
  {
    var longer := if m.backoff * 2 < MAX_BACKOFF then m.backoff * 2 else MAX_BACKOFF;
    var tried := m.(attempts := m.attempts + 1, backoff := longer, dials := m.dials + [false]);
    if tried.attempts > MAX_ATTEMPTS then tried.(phase := Dead) else tried.(waits := m.waits + [longer])
  }

  // ---- what the pauses are

  function Pow2(k: nat): (r: nat)
    ensures r >= 1
  {
    if k == 0 then 1 else 2 * Pow2(k - 1)
  }

  /** The pause before attempt `k + 1` of an outage. */
  function Pause(k: nat): nat {
    if FIRST_BACKOFF * Pow2(k) < MAX_BACKOFF then FIRST_BACKOFF * Pow2(k) else MAX_BACKOFF
  }

  lemma PauseNext(k: nat)
    ensures Pause(k + 1) == if Pause(k) * 2 < MAX_BACKOFF then Pause(k) * 2 else MAX_BACKOFF
  {
  }

  /** Failed dials since the last success, or since the start. */
  function Failures(dials: seq<bool>): nat {
    if dials == [] || dials[|dials| - 1] then 0 else 1 + Failures(dials[..|dials| - 1])
  }

  lemma FailuresSnoc(dials: seq<bool>, ok: bool)
    ensures Failures(dials + [ok]) == if ok then 0 else Failures(dials) + 1
  {
    assert (dials + [ok])[..|dials|] == dials;
  }

  /** Every pause is that of its attempt within its outage: the dials before it say which attempt it is. */
  ghost predicate PausesRight(m: Member) {
    |m.dials| <= |m.waits| <= |m.dials| + 1 && AllRight(m.waits, m.dials)
  }

  ghost predicate AllRight(waits: seq<nat>, dials: seq<bool>) {
    forall j :: 0 <= j < |waits| ==> RightPause(waits, dials, j)
  }

  ghost predicate RightPause(waits: seq<nat>, dials: seq<bool>, j: nat) {
    j < |waits| && j <= |dials| && waits[j] == Pause(Failures(dials[..j]))
  }

  lemma OnePauseMore(waits: seq<nat>, dials: seq<bool>, pause: nat)
    requires AllRight(waits, dials) && |waits| == |dials| && pause == Pause(Failures(dials))
    ensures AllRight(waits + [pause], dials)
  {
    assert dials[..|waits|] == dials;
    forall j | 0 <= j < |waits + [pause]| ensures RightPause(waits + [pause], dials, j) {
      assert j < |waits| ==> RightPause(waits, dials, j);
    }
  }

  lemma OneDialMore(waits: seq<nat>, dials: seq<bool>, ok: bool)
    requires AllRight(waits, dials)
    ensures AllRight(waits, dials + [ok])
  {
    forall j | 0 <= j < |waits| ensures RightPause(waits, dials + [ok], j) {
      assert RightPause(waits, dials, j);
      assert (dials + [ok])[..j] == dials[..j];
    }
  }

  /** What holds of a member at all times. */
  ghost predicate MemberInv(m: Member) {
    && PausesRight(m)
    && match m.phase {
       case Up => Failures(m.dials) == 0 && m.backoff == FIRST_BACKOFF && |m.waits| == |m.dials|
       case Waiting => m.attempts == Failures(m.dials) + 1 <= MAX_ATTEMPTS &&
                       m.backoff == Pause(Failures(m.dials)) && |m.waits| == |m.dials| + 1
       case Dead => Failures(m.dials) == MAX_ATTEMPTS && |m.waits| == |m.dials|
       }
  }

  lemma StartedInv(client: nat)
    ensures MemberInv(Started(client))
  {
  }

  lemma DiesInv(m: Member)
    requires MemberInv(m) && m.phase == Up
    ensures MemberInv(Dies(m))
  {
    assert Pause(0) == FIRST_BACKOFF;
    OnePauseMore(m.waits, m.dials, m.backoff);
  }

  lemma DialOkInv(m: Member, client: nat)
    requires MemberInv(m) && m.phase == Waiting
    ensures MemberInv(DialOk(m, client))
  {
    FailuresSnoc(m.dials, true);
    OneDialMore(m.waits, m.dials, true);
  }

  lemma DialFailsInv(m: Member)
    requires MemberInv(m) && m.phase == Waiting
    ensures MemberInv(DialFails(m))
  {
    FailuresSnoc(m.dials, false);
    PauseNext(Failures(m.dials));
    OneDialMore(m.waits, m.dials, false);
    OnePauseMore(m.waits, m.dials + [false], Pause(Failures(m.dials) + 1));
  }

  /** Ten pauses in a row: 435 seconds. */
  lemma TenPauses()
    ensures Pause(0) == 5 && Pause(1) == 10 && Pause(2) == 20 && Pause(3) == 40 && forall k :: 4 <= k ==> Pause(k) == 60
  {
    Doubles(0);
    Doubles(1);
    Doubles(2);
    Doubles(3);
    forall k | 4 <= k ensures Pause(k) == 60 {
      Pow2Grows(k);
    }
  }

  lemma Doubles(k: nat)
    ensures Pow2(k + 1) == 2 * Pow2(k)
  {
  }

  lemma {:induction false} Pow2Grows(k: nat)
    requires k >= 4
    ensures Pow2(k) >= 16
  {
    if k == 4 {
      Doubles(3);
      Doubles(2);
      Doubles(1);
      Doubles(0);
    } else {
      Pow2Grows(k - 1);
    }
  }

  function Sum(s: seq<nat>): nat {
    if s == [] then 0 else Sum(s[..|s| - 1]) + s[|s| - 1]
  }

  /** Seconds waited in the first `k` attempts of an outage. */
  function Waited(k: nat): nat {
    if k == 0 then 0 else Waited(k - 1) + Pause(k - 1)
  }

  lemma {:induction false} FailuresPrefix(dials: seq<bool>, back: nat)
    requires back <= Failures(dials)
    ensures back <= |dials| && Failures(dials[..|dials| - back]) == Failures(dials) - back
    decreases back
  {
    if back == 0 {
      assert dials[..|dials|] == dials;
    } else {
      var n := |dials| - 1;
      FailuresPrefix(dials[..n], back - 1);
      assert dials[..n][..n - (back - 1)] == dials[..|dials| - back];
    }
  }

  lemma OutagePause(m: Member, back: nat)
    requires PausesRight(m) && 0 < back <= Failures(m.dials)
    ensures back <= |m.dials| && m.waits[|m.dials| - back] == Pause(Failures(m.dials) - back)
  {
    FailuresPrefix(m.dials, back);
    assert RightPause(m.waits, m.dials, |m.dials| - back);
  }

  lemma OutagePauseAt(m: Member, f: nat, j: nat)
    requires PausesRight(m) && f == Failures(m.dials) && j < f
    ensures f <= |m.dials| <= |m.waits| && m.waits[|m.dials| - f + j] == Pause(j)
  {
    FailuresPrefix(m.dials, f);
    OutagePause(m, f - j);
  }

  /** The pauses of the current outage are those of its attempts, from the first on. */
  lemma {:induction false} SumOfOutage(m: Member, f: nat, k: nat)
    requires PausesRight(m) && k <= f == Failures(m.dials) <= |m.dials|
    ensures |m.dials| <= |m.waits| && Sum(m.waits[|m.dials| - f..|m.dials| - f + k]) == Waited(k)
    decreases k
  {
    if k > 0 {
      SumOfOutage(m, f, k - 1);
      OutagePauseAt(m, f, k - 1);
      SumNext(m.waits, |m.dials| - f, k - 1);
    }
  }

  lemma SumNext(waits: seq<nat>, start: nat, k: nat)
    requires start + k < |waits|
    ensures Sum(waits[start..start + (k + 1)]) == Sum(waits[start..start + k]) + waits[start + k]
  {
    var part := waits[start..start + (k + 1)];
    assert part[..k] == waits[start..start + k];
  }

  lemma {:induction false} FailuresAreFalse(dials: seq<bool>, k: nat)
    requires k == Failures(dials)
    ensures k <= |dials| && forall j :: |dials| - k <= j < |dials| ==> !dials[j]
  {
    if k > 0 {
      FailuresAreFalse(dials[..|dials| - 1], k - 1);
    }
  }

  lemma OutageSum(m: Member, k: nat)
    requires PausesRight(m) && k == Failures(m.dials)
    ensures k <= |m.dials| <= |m.waits| && Sum(m.waits[|m.dials| - k..|m.dials|]) == Waited(k)
  {
    FailuresPrefix(m.dials, k);
    SumOfOutage(m, k, k);
    assert |m.dials| - k + k == |m.dials|;
  }

  /** Main result: a dead member's last ten dials all failed, and it waited 435 seconds for them. */
  lemma DeadAfterTen(m: Member)
    requires MemberInv(m) && m.phase == Dead
    ensures var n := |m.dials|;
            && n >= MAX_ATTEMPTS && |m.waits| == n
            && (forall j :: n - MAX_ATTEMPTS <= j < n ==> !m.dials[j])
            && Sum(m.waits[n - MAX_ATTEMPTS..n]) == 435
  {
    var k := Failures(m.dials);
    FailuresAreFalse(m.dials, k);
    OutageSum(m, k);
    WaitedTen(k);
  }

  lemma WaitedTen(k: nat)
    requires k == MAX_ATTEMPTS
    ensures Waited(k) == 435
  {
    TenPauses();
    assert Waited(4) == 75 by {
      assert Waited(1) == 5;
      assert Waited(2) == 15;
      assert Waited(3) == 35;
    }
    WaitedSixties(k);
  }

  lemma {:induction false} WaitedSixties(k: nat)
    requires k >= 4 && Waited(4) == 75
    ensures Waited(k) == 75 + 60 * (k - 4)
  {
    if k > 4 {
      WaitedSixties(k - 1);
      TenPauses();
    }
  }

  // ---- the pool

  /** The members and the one-slot channel; `taken` is the error the engine received, after which it exits. */
  datatype State = State(members: seq<Member>, channel: Option<nat>, taken: Option<nat>, firstDead: Option<nat>)

  datatype Event = ClientDies(i: nat) | Connects(i: nat, client: nat) | Fails(i: nat) | Receives

  predicate Enabled(s: State, e: Event) {
    match e
    case ClientDies(i) => i < |s.members| && s.members[i].phase == Up
    case Connects(i, _) => i < |s.members| && s.members[i].phase == Waiting
    case Fails(i) => i < |s.members| && s.members[i].phase == Waiting
    case Receives => s.channel.Some? && s.taken.None?
  }

  function Step(s: State, e: Event): State
    requires Enabled(s, e)
  {
    match e
    case ClientDies(i) => s.(members := s.members[i := Dies(s.members[i])])
    case Connects(i, client) => s.(members := s.members[i := DialOk(s.members[i], client)])
    case Fails(i) =>
      var m := DialFails(s.members[i]);
      var after := s.(members := s.members[i := m]);
      if m.phase == Dead then
        after.(channel := if s.channel.None? then Some(i) else s.channel,
               firstDead := if s.firstDead.None? then Some(i) else s.firstDead)
      else after
    case Receives => s.(channel := None, taken := s.channel)
  }

  function Initial(clients: seq<nat>): State {
    State(seq(|clients|, i requires 0 <= i < |clients| => Started(clients[i])), None, None, None)
  }

  /** Every step is enabled where it happens. */
  ghost predicate Run(states: seq<State>, events: seq<Event>) {
    && |states| == |events| + 1
    && forall i :: 0 <= i < |events| ==> Enabled(states[i], events[i]) && states[i + 1] == Step(states[i], events[i])
  }

  /** The first error the engine gets, or will get. */
  function Reported(s: State): Option<nat> {
    if s.taken.Some? then s.taken else s.channel
  }

  ghost predicate Inv(s: State) {
    && (forall i :: 0 <= i < |s.members| ==> MemberInv(s.members[i]))
    && Reported(s) == s.firstDead
    && (s.firstDead.None? <==> forall i :: 0 <= i < |s.members| ==> s.members[i].phase != Dead)
    && (s.firstDead.Some? ==> s.firstDead.value < |s.members| && s.members[s.firstDead.value].phase == Dead)
  }

  /** A member that stays alive changes nothing about the reports. */
  lemma StaysAlive(s: State, i: nat, m: Member)
    requires Inv(s) && i < |s.members| && s.members[i].phase != Dead && MemberInv(m) && m.phase != Dead
    ensures Inv(s.(members := s.members[i := m]))
  {
    var r := s.(members := s.members[i := m]);
    assert forall j :: 0 <= j < |s.members| ==> (r.members[j].phase == Dead <==> s.members[j].phase == Dead);
    assert forall j :: 0 <= j < |s.members| ==> MemberInv(r.members[j]);
  }

  /** A member that gives up reports it unless another did before. */
  lemma GivesUp(s: State, i: nat, m: Member)
    requires Inv(s) && i < |s.members| && s.members[i].phase != Dead && MemberInv(m) && m.phase == Dead
    ensures Inv(s.(members := s.members[i := m], channel := if s.channel.None? then Some(i) else s.channel,
                   firstDead := if s.firstDead.None? then Some(i) else s.firstDead))
  {
    var members := s.members[i := m];
    assert members[i].phase == Dead;
    assert forall j :: 0 <= j < |s.members| ==> MemberInv(members[j]);
  }

  lemma StepInv(s: State, e: Event)
    requires Inv(s) && Enabled(s, e)
    ensures Inv(Step(s, e))
  {
    match e
    case ClientDies(i) =>
      DiesInv(s.members[i]);
      StaysAlive(s, i, Dies(s.members[i]));
    case Connects(i, client) =>
      DialOkInv(s.members[i], client);
      StaysAlive(s, i, DialOk(s.members[i], client));
    case Fails(i) =>
      var m := DialFails(s.members[i]);
      DialFailsInv(s.members[i]);
      if m.phase == Dead {
        GivesUp(s, i, m);
      } else {
        StaysAlive(s, i, m);
      }
    case Receives =>
  }

  /** Main result: in every run every member keeps its schedule, and the first member to give up has its
      error in the channel or already received. */
  lemma {:induction false} RunInv(states: seq<State>, events: seq<Event>, clients: seq<nat>, n: nat)
    requires Run(states, events) && states[0] == Initial(clients) && n < |states|
    ensures Inv(states[n])
  {
    if n == 0 {
      forall i | 0 <= i < |clients| ensures MemberInv(states[0].members[i]) {
        StartedInv(clients[i]);
      }
    } else {
      RunInv(states, events, clients, n - 1);
      StepInv(states[n - 1], events[n - 1]);
    }
  }

  /** The client of the last successful dial of member `i`, or the one it started with. */
  function LastClient(events: seq<Event>, i: nat, start: nat): nat {
    if events == [] then start
    else
      match events[|events| - 1]
      case Connects(k, client) => if k == i then client else LastClient(events[..|events| - 1], i, start)
      case _ => LastClient(events[..|events| - 1], i, start)
  }

  /** Main result: a slot always holds the client of its member's last successful dial; no other member touches it. */
  lemma {:induction false} SlotHoldsLast(states: seq<State>, events: seq<Event>, clients: seq<nat>, n: nat, i: nat)
    requires Run(states, events) && states[0] == Initial(clients) && n < |states| && i < |clients|
    ensures |states[n].members| == |clients| && states[n].members[i].slot == LastClient(events[..n], i, clients[i])
  {
    if n > 0 {
      SlotHoldsLast(states, events, clients, n - 1, i);
      assert events[..n][..n - 1] == events[..n - 1] && events[..n][n - 1] == events[n - 1];
      assert states[n - 1 + 1] == Step(states[n - 1], events[n - 1]);
    }
  }

  /** Dead is terminal. */
  lemma {:induction false} DeadStays(states: seq<State>, events: seq<Event>, m: nat, n: nat, i: nat)
    requires Run(states, events) && m <= n < |states| && i < |states[m].members| && states[m].members[i].phase == Dead
    ensures i < |states[n].members| && states[n].members[i] == states[m].members[i]
    decreases n
  {
    if m < n {
      DeadStays(states, events, m, n - 1, i);
      assert states[n - 1 + 1] == Step(states[n - 1], events[n - 1]);
    }
  }

  /** Main result: a member is dead exactly when its last ten dials in a row failed. */
  lemma DeadIff(states: seq<State>, events: seq<Event>, clients: seq<nat>, n: nat, i: nat)
    requires Run(states, events) && states[0] == Initial(clients) && n < |states| && i < |states[n].members|
    ensures states[n].members[i].phase == Dead <==> Failures(states[n].members[i].dials) == MAX_ATTEMPTS
    ensures Failures(states[n].members[i].dials) <= MAX_ATTEMPTS
  {
    RunInv(states, events, clients, n);
    assert MemberInv(states[n].members[i]);
  }

  // ---- the code

  /** Play of one member over the outcomes of its dials; a client that connects dies later on. */
  function Play(client: nat, outcomes: seq<Option<nat>>): (m: Member)
    ensures m.phase != Up
  {
    if outcomes == [] then Dies(Started(client))
    else
      var m, last := Play(client, outcomes[..|outcomes| - 1]), outcomes[|outcomes| - 1];
      if m.phase == Dead then m
      else if last.Some? then Dies(DialOk(m, last.value))
      else DialFails(m)
  }

  class Pool {
    var clients: seq<nat>
    var tunnels: seq<Phase>
    /** The error channel, with room for one. */
    var fatal: Option<nat>

    constructor (clients: seq<nat>)
      ensures this.clients == clients && fatal == None
      ensures |tunnels| == |clients|
    {
      this.clients := clients;
      this.tunnels := seq(|clients|, _ => Up);
      this.fatal := None;
    }

    method ReplaceClient(idx: nat, client: nat)
      requires idx < |clients|
      modifies this`clients
      ensures clients == old(clients)[idx := client]
    {
      clients := clients[idx := client];
    }

    /** A send that gives up when the channel is full. */
    method TrySend(idx: nat)
      modifies this`fatal
      ensures fatal == if old(fatal).None? then Some(idx) else old(fatal)
    {
      if fatal.None? {
        fatal := Some(idx);
      }
    }

    /** `reconnectPoolMember`, watched for as long as the outcomes of its dials are given. */
    method ReconnectPoolMember(idx: nat, outcomes: seq<Option<nat>>) returns (waits: seq<nat>)
      requires idx < |clients| && |tunnels| == |clients|
      modifies this
      ensures var m := Play(old(clients[idx]), outcomes);
              && waits == m.waits
              && clients == old(clients)[idx := m.slot]
              && tunnels == old(tunnels)[idx := m.phase]
              && fatal == if m.phase == Dead && old(fatal).None? then Some(idx) else old(fatal)
    {
      var backoff := FIRST_BACKOFF;
      var n := 0;
      waits := [];
      tunnels := tunnels[idx := Up];
      ghost var start := clients[idx];
      ghost var m := Started(start);
      while true
        invariant n <= |outcomes| && m.phase == Up && Dies(m) == Play(start, outcomes[..n])
        invariant backoff == m.backoff && waits == m.waits
        invariant clients == old(clients)[idx := m.slot] && fatal == old(fatal)
        invariant |tunnels| == |clients| && tunnels == old(tunnels)[idx := Up]
        decreases |outcomes| - n
      {
        tunnels := tunnels[idx := Waiting];
        var connected;
        n, waits, backoff, connected, m := Retry(idx, outcomes, n, waits, backoff, start, Dies(m));
        if !connected {
          return;
        }
      }
    }

    /** The attempts of one outage: until one connects, ten have failed, or the outcomes end. */
    method Retry(idx: nat, outcomes: seq<Option<nat>>, n0: nat, waits0: seq<nat>, backoff0: nat,
                 ghost start: nat, ghost m0: Member)
      returns (n: nat, waits: seq<nat>, backoff: nat, connected: bool, ghost m: Member)
      requires idx < |clients| && |tunnels| == |clients| && n0 <= |outcomes| && tunnels[idx] == Waiting
      requires m0.phase == Waiting && m0.attempts == 1 && m0 == Play(start, outcomes[..n0])
      requires backoff0 == m0.backoff && waits0 + [backoff0] == m0.waits && clients[idx] == m0.slot
      modifies this
      ensures clients == old(clients)[idx := m.slot] && |tunnels| == |clients|
      ensures waits == m.waits && tunnels == old(tunnels)[idx := m.phase]
      ensures connected ==> n0 < n <= |outcomes| && m.phase == Up && Dies(m) == Play(start, outcomes[..n])
      ensures connected ==> backoff == m.backoff && fatal == old(fatal)
      ensures !connected ==> m == Play(start, outcomes)
      ensures !connected ==> fatal == if m.phase == Dead && old(fatal).None? then Some(idx) else old(fatal)
    {
      n, waits, backoff, connected, m := n0, waits0, backoff0, false, m0;
      var attempts := 0;
      while true
        invariant n0 <= n <= |outcomes| && m == Play(start, outcomes[..n]) && m.slot == m0.slot
        invariant m.attempts == attempts + 1 && backoff == m.backoff &&
                  (m.phase == Dead <==> attempts + 1 > MAX_ATTEMPTS)
        invariant if m.phase == Dead then waits == m.waits else waits + [backoff] == m.waits
        invariant clients == old(clients) && tunnels == old(tunnels) && fatal == old(fatal)
        decreases |outcomes| - n
      {
        attempts := attempts + 1;
        if attempts > MAX_ATTEMPTS {
          tunnels := tunnels[idx := Dead];
          TrySend(idx);
          StaysDead(start, outcomes, n);
          return;
        }
        waits := waits + [backoff];
        if n == |outcomes| {
          assert outcomes[..n] == outcomes;
          return;
        }
        var outcome := outcomes[n];
        assert outcomes[..n + 1][..n] == outcomes[..n];
        n := n + 1;
        if outcome.Some? {
          ReplaceClient(idx, outcome.value);
          backoff := FIRST_BACKOFF;
          tunnels := tunnels[idx := Up];
          m, connected := DialOk(m, outcome.value), true;
          return;
        }
        backoff := if backoff * 2 < MAX_BACKOFF then backoff * 2 else MAX_BACKOFF;
        m := DialFails(m);
      }
    }
  }

  lemma {:induction false} StaysDead(client: nat, outcomes: seq<Option<nat>>, n: nat)
    requires n <= |outcomes| && Play(client, outcomes[..n]).phase == Dead
    ensures Play(client, outcomes) == Play(client, outcomes[..n])
    decreases |outcomes| - n
  {
    if n < |outcomes| {
      assert outcomes[..n + 1][..n] == outcomes[..n];
      StaysDead(client, outcomes, n + 1);
    } else {
      assert outcomes[..n] == outcomes;
    }
  }

  /** The watched method keeps the schedule proved for the machine. */
  lemma {:induction false} PlayInv(client: nat, outcomes: seq<Option<nat>>)
    ensures MemberInv(Play(client, outcomes))
  {
    if outcomes == [] {
      StartedInv(client);
      DiesInv(Started(client));
    } else {
      var n := |outcomes| - 1;
      PlayInv(client, outcomes[..n]);
      var m := Play(client, outcomes[..n]);
      if m.phase == Waiting {
        if outcomes[n].Some? {
          DialOkInv(m, outcomes[n].value);
          DiesInv(DialOk(m, outcomes[n].value));
        } else {
          DialFailsInv(m);
        }
      }
    }
  }

  // ---- the code against the machine

  /** The outcome of a dial of member `i`, if the event is one. */
  function DialOf(e: Event, i: nat): seq<Option<nat>> {
    match e
    case Connects(k, client) => if k == i then [Some(client)] else []
    case Fails(k) => if k == i then [None] else []
    case _ => []
  }

  function Outcomes(events: seq<Event>, i: nat): seq<Option<nat>> {
    if events == [] then [] else Outcomes(events[..|events| - 1], i) + DialOf(events[|events| - 1], i)
  }

  /** The watched method sees a client that has connected again when it dies. */
  function Watched(m: Member): Member {
    if m.phase == Up then Dies(m) else m
  }

  lemma PlaySnoc(client: nat, outcomes: seq<Option<nat>>, last: Option<nat>)
    ensures var m := Play(client, outcomes);
            Play(client, outcomes + [last]) ==
              if m.phase == Dead then m
              else if last.Some? then Dies(DialOk(m, last.value))
              else DialFails(m)
  {
    assert (outcomes + [last])[..|outcomes|] == outcomes;
  }

  lemma StepIsPlay(s: State, e: Event, i: nat, client: nat, outcomes: seq<Option<nat>>)
    requires Enabled(s, e) && i < |s.members| && Watched(s.members[i]) == Play(client, outcomes)
    ensures |Step(s, e).members| == |s.members|
    ensures Watched(Step(s, e).members[i]) == Play(client, outcomes + DialOf(e, i))
  {
    if DialOf(e, i) == [] {
      assert outcomes + [] == outcomes;
    } else {
      PlaySnoc(client, outcomes, DialOf(e, i)[0]);
    }
  }

  /** Main result: whatever the other members do, each member of a run is where the watched method is after the
      outcomes of that member's dials. */
  lemma {:induction false} MemberIsPlay(states: seq<State>, events: seq<Event>, clients: seq<nat>, n: nat, i: nat)
    requires Run(states, events) && states[0] == Initial(clients) && n < |states| && i < |clients|
    ensures |states[n].members| == |clients|
    ensures Watched(states[n].members[i]) == Play(clients[i], Outcomes(events[..n], i))
  {
    if n > 0 {
      MemberIsPlay(states, events, clients, n - 1, i);
      assert events[..n][..n - 1] == events[..n - 1] && events[..n][n - 1] == events[n - 1];
      assert states[n - 1 + 1] == Step(states[n - 1], events[n - 1]);
      StepIsPlay(states[n - 1], events[n - 1], i, clients[i], Outcomes(events[..n - 1], i));
    }
  }

  lemma RunSnoc(states: seq<State>, events: seq<Event>, e: Event)
    requires Run(states, events) && Enabled(states[|events|], e)
    ensures Run(states + [Step(states[|events|], e)], events + [e])
  {
    var more, all := states + [Step(states[|events|], e)], events + [e];
    forall k | 0 <= k < |all| ensures Enabled(more[k], all[k]) && more[k + 1] == Step(more[k], all[k]) {
      if k < |events| {
        assert states[k + 1] == Step(states[k], events[k]);
      }
    }
  }

  /** The other way round: whatever outcomes the method is given, in every pool there is a run in which its member
      comes to the same end. */
  lemma {:induction false} PlayIsRun(clients: seq<nat>, i: nat, outcomes: seq<Option<nat>>)
    returns (states: seq<State>, events: seq<Event>)
    requires i < |clients|
    ensures Run(states, events) && states[0] == Initial(clients)
    ensures |states[|events|].members| == |clients| && states[|events|].members[i] == Play(clients[i], outcomes)
    decreases |outcomes|
  {
    if outcomes == [] {
      states, events := [Initial(clients)], [];
      states, events := Extended(states, events, ClientDies(i));
    } else {
      var n := |outcomes| - 1;
      states, events := PlayIsRun(clients, i, outcomes[..n]);
      assert outcomes == outcomes[..n] + [outcomes[n]];
      PlaySnoc(clients[i], outcomes[..n], outcomes[n]);
      if states[|events|].members[i].phase == Waiting {
        if outcomes[n].Some? {
          states, events := Extended(states, events, Connects(i, outcomes[n].value));
          states, events := Extended(states, events, ClientDies(i));
        } else {
          states, events := Extended(states, events, Fails(i));
        }
      }
    }
  }

  lemma Extended(states: seq<State>, events: seq<Event>, e: Event) returns (more: seq<State>, all: seq<Event>)
    requires Run(states, events) && Enabled(states[|events|], e)
    ensures Run(more, all) && more[0] == states[0] && more[|all|] == Step(states[|events|], e)
  {
    RunSnoc(states, events, e);
    more, all := states + [Step(states[|events|], e)], events + [e];
  }
}
