/** The bridge manager between /sync events: handlers run through one at a time, timers firing in between. */
module BridgeManager {
  import opened Wrappers
  import opened Ids
  import opened SlotPool

  type Mxid = string
  type TimerId = nat

  /** Whether a Stop of this timer comes in time. If not, its callback still runs, however late. */
  type Race = TimerId -> bool

  predicate IsGhost(user: Mxid) {
    "@discord_" <= user
  }

  /** `timers` are the registered stop timers; `armed` are the timers whose callback is still to run, with
      the channel each callback is for; `born` counts the timers ever created. */
  datatype State = State(
    pool: Pool,
    rooms: map<Channel, RoomId>,
    channels: map<RoomId, Channel>,
    users: map<Channel, map<Mxid, string>>,
    timers: map<Channel, TimerId>,
    armed: map<TimerId, Channel>,
    born: nat)

  function UsersIn(m: State, c: Channel): map<Mxid, string> {
    if c in m.users then m.users[c] else map[]
  }

  function RoomOf(m: State, c: Channel): RoomId {
    if c in m.rooms then m.rooms[c] else ""
  }

  /** The callbacks that are left once the timers of some channels have been stopped. */
  ghost function Disarm(race: Race, timers: map<Channel, TimerId>, armed: map<TimerId, Channel>, cs: set<Channel>)
    : map<TimerId, Channel>
  {
    armed - set t | t in armed && race(t) && exists c :: c in cs && c in timers && timers[c] == t
  }

  /** Cancels the registered timers of some channels. */
  ghost function Cancel(race: Race, m: State, cs: set<Channel>): State {
    m.(timers := m.timers - cs, armed := Disarm(race, m.timers, m.armed, cs))
  }

  /** Takes a user out of some channels, dropping a channel that has no users left. */
  ghost function TakeOut(users: map<Channel, map<Mxid, string>>, user: Mxid, cs: set<Channel>)
    : map<Channel, map<Mxid, string>>
  {
    map c | c in users && (c in cs ==> users[c] - {user} != map[]) ::
      if c in cs then users[c] - {user} else users[c]
  }

  /** The other channels a user is in. */
  ghost function Elsewhere(m: State, user: Mxid, c: Channel): set<Channel> {
    set d | d in m.users && d != c && user in m.users[d]
  }

  ghost function Join(race: Race, m: State, room: RoomId, user: Mxid, name: string): State {
    if IsGhost(user) || room !in m.channels then m
    else
      var c := m.channels[room];
      var others := Elsewhere(m, user, c);
      var moved := Cancel(race, m, others + {c})
                   .(users := TakeOut(m.users, user, others), pool := StopAll(m.pool, others));
      if user in UsersIn(m, c) then moved
      else
        moved.(users := moved.users[c := UsersIn(m, c)[user := name]],
               pool := SlotPool.StartBridge(moved.pool, c, RoomOf(m, c)))
  }

  ghost function Leave(race: Race, m: State, room: RoomId, user: Mxid): State {
    if IsGhost(user) || room !in m.channels then m
    else
      var c := m.channels[room];
      var left := m.(users := TakeOut(m.users, user, {c}));
      if c in left.users then left
      else
        var quiet := Cancel(race, left, {c});
        quiet.(timers := quiet.timers[c := m.born], armed := quiet.armed[m.born := c], born := m.born + 1)
  }

  /** The debounce callback, as one step. */
  function TimerFires(m: State, t: TimerId): State {
    if t !in m.armed then m
    else
      var c := m.armed[t];
      m.(armed := m.armed - {t}, timers := m.timers - {c}, pool := if c in m.users then m.pool else Stop(m.pool, c))
  }

  /** The bridge the search over activeBridges finds on a slot. */
  ghost function Victim(p: Pool, i: nat): (v: Option<Channel>)
    ensures IsVictim(p, i, v)
  {
    if exists c :: c in p.bridges && p.bridges[c].slot == i then
      var c :| c in p.bridges && p.bridges[c].slot == i; Some(c)
    else None
  }

  /** LEAVE_CHANNEL from a sidecar, for the bridge found on its slot. */
  function SidecarLeaveOf(m: State, v: Option<Channel>): State {
    match v
    case None => m
    case Some(c) => m.(pool := Stop(m.pool, c))
  }

  /** The death of a slot, for the bridge found on it. */
  ghost function SlotDeathOf(race: Race, m: State, i: nat, v: Option<Channel>): State {
    if IsDead(m.pool, i) then m
    else Cancel(race, m, if v.Some? then {v.value} else {}).(pool := Bury(m.pool, i, v))
  }

  ghost function SidecarLeave(m: State, i: nat): State {
    SidecarLeaveOf(m, Victim(m.pool, i))
  }

  ghost function SlotDeath(race: Race, m: State, i: nat): State {
    SlotDeathOf(race, m, i, Victim(m.pool, i))
  }

  ghost function Close(race: Race, m: State): State {
    Cancel(race, m, m.timers.Keys).(pool := StopAll(m.pool, m.pool.bridges.Keys))
  }

  function LearnRoom(m: State, c: Channel, room: RoomId): State {
    m.(rooms := m.rooms[c := room], channels := m.channels[room := c])
  }

  datatype Event =
    | Joined(room: RoomId, user: Mxid, name: string)
    | Left(room: RoomId, user: Mxid)
    | Fired(timer: TimerId)
    | LeftBySidecar(slot: nat)
    | Died(slot: nat)
    | Removed(index: int)
    | Added
    | ManuallyJoined(channel: Channel)
    | ManuallyLeft(channel: Channel)
    | ManuallyLeftAll
    | Closed
    | RoomLearned(channel: Channel, room: RoomId)

  ghost function Step(race: Race, m: State, e: Event): State {
    match e
    case Joined(room, user, name) => Join(race, m, room, user, name)
    case Left(room, user) => Leave(race, m, room, user)
    case Fired(t) => TimerFires(m, t)
    case LeftBySidecar(i) => SidecarLeave(m, i)
    case Died(i) => SlotDeath(race, m, i)
    case Removed(i) => if 0 <= i < |m.pool.slots| then SlotDeath(race, m, i) else m
    case Added => m.(pool := AddSlot(m.pool))
    case ManuallyJoined(c) => if IsChannel(c) then m.(pool := SlotPool.StartBridge(m.pool, c, RoomOf(m, c))) else m
    case ManuallyLeft(c) => m.(pool := Stop(m.pool, c))
    case ManuallyLeftAll => m.(pool := StopAll(m.pool, m.pool.bridges.Keys))
    case Closed => Close(race, m)
    case RoomLearned(c, room) => if IsChannel(c) then LearnRoom(m, c, room) else m
  }

  ghost function Run(race: Race, m: State, es: seq<Event>): State
    decreases |es|
  {
    if es == [] then m else Run(race, Step(race, m, es[0]), es[1..])
  }

  // ---------------------------------------------------------------- invariant

  /** Each Matrix user is in at most one channel, no channel is listed without users, and ghosts are not
      tracked. */
  ghost predicate Roster(users: map<Channel, map<Mxid, string>>) {
    && (forall c :: c in users ==> users[c] != map[])
    && (forall c, u :: c in users && u in users[c] ==> !IsGhost(u))
    && (forall c, d, u :: c in users && u in users[c] && d in users && u in users[d] ==> c == d)
  }

  /** The roster holds, and a channel with users has no stop timer registered. */
  ghost predicate Membership(m: State) {
    Roster(m.users) && forall c :: c in m.timers ==> c !in m.users
  }

  ghost predicate Good(m: State) {
    && Settled(m.pool)
    && Membership(m)
    && (forall r :: r in m.channels ==> IsChannel(m.channels[r]))
    && (forall t :: t in m.armed ==> t < m.born)
    && (forall c :: c in m.timers ==> m.timers[c] < m.born)
  }

  lemma TakeOutKeepsRoster(users: map<Channel, map<Mxid, string>>, user: Mxid, cs: set<Channel>)
    requires Roster(users)
    ensures var after := TakeOut(users, user, cs);
            Roster(after)
            && (forall c, u :: c in after && u in after[c] ==> c in users && u in users[c] && !(c in cs && u == user))
            && (forall c :: c in users && c !in cs ==> c in after && after[c] == users[c])
  {
  }

  lemma AddKeepsRoster(users: map<Channel, map<Mxid, string>>, c: Channel, there: map<Mxid, string>,
                       user: Mxid, name: string)
    requires Roster(users) && !IsGhost(user)
    requires there == if c in users then users[c] else map[]
    requires forall d :: d in users && user in users[d] ==> d == c
    ensures Roster(users[c := there[user := name]])
  {
    var now := there[user := name];
    assert user in now;
    forall u | u in now ensures !IsGhost(u) && forall d :: d in users && u in users[d] ==> d == c {
      if u != user {
        assert u in users[c];
      }
    }
  }

  lemma JoinKeepsGood(race: Race, m: State, room: RoomId, user: Mxid, name: string)
    requires Good(m)
    ensures Good(Join(race, m, room, user, name))
  {
    if !IsGhost(user) && room in m.channels {
      var c := m.channels[room];
      var others := Elsewhere(m, user, c);
      StopAllKeepsSettled(m.pool, others);
      StartKeepsSettled(StopAll(m.pool, others), c, RoomOf(m, c));
      var users := TakeOut(m.users, user, others);
      TakeOutKeepsRoster(m.users, user, others);
      if user !in UsersIn(m, c) {
        AddKeepsRoster(users, c, UsersIn(m, c), user, name);
      }
    }
  }

  lemma CancelKeepsGood(race: Race, m: State, cs: set<Channel>)
    requires Good(m)
    ensures Good(Cancel(race, m, cs))
  {
  }

  lemma TakeOutKeepsGood(m: State, user: Mxid, cs: set<Channel>)
    requires Good(m)
    ensures Good(m.(users := TakeOut(m.users, user, cs)))
  {
    TakeOutKeepsRoster(m.users, user, cs);
  }

  lemma ArmKeepsGood(m: State, c: Channel)
    requires Good(m) && c !in m.users
    ensures Good(m.(timers := m.timers[c := m.born], armed := m.armed[m.born := c], born := m.born + 1))
  {
  }

  lemma LeaveKeepsGood(race: Race, m: State, room: RoomId, user: Mxid)
    requires Good(m)
    ensures Good(Leave(race, m, room, user))
  {
    if !IsGhost(user) && room in m.channels {
      var c := m.channels[room];
      var left := m.(users := TakeOut(m.users, user, {c}));
      TakeOutKeepsGood(m, user, {c});
      if c !in left.users {
        CancelKeepsGood(race, left, {c});
        ArmKeepsGood(Cancel(race, left, {c}), c);
      }
    }
  }

  lemma DeathKeepsGood(race: Race, m: State, i: nat)
    requires Good(m)
    ensures Good(SlotDeath(race, m, i))
  {
    BuryKeepsSettled(m.pool, i, Victim(m.pool, i));
  }

  lemma FiringKeepsGood(m: State, t: TimerId)
    requires Good(m)
    ensures Good(TimerFires(m, t))
  {
    if t in m.armed {
      StopKeepsSettled(m.pool, m.armed[t]);
    }
  }

  lemma PoolChangeKeepsGood(m: State, p: Pool)
    requires Good(m) && Settled(p)
    ensures Good(m.(pool := p))
  {
  }

  lemma CloseKeepsGood(race: Race, m: State)
    requires Good(m)
    ensures Good(Close(race, m))
  {
    StopAllKeepsSettled(m.pool, m.pool.bridges.Keys);
  }

  lemma StartKeepsGood(m: State, c: Channel)
    requires Good(m) && IsChannel(c)
    ensures Good(m.(pool := SlotPool.StartBridge(m.pool, c, RoomOf(m, c))))
  {
    StartKeepsSettled(m.pool, c, RoomOf(m, c));
    PoolChangeKeepsGood(m, SlotPool.StartBridge(m.pool, c, RoomOf(m, c)));
  }

  lemma StopKeepsGood(m: State, c: Channel)
    requires Good(m)
    ensures Good(m.(pool := Stop(m.pool, c)))
  {
    StopKeepsSettled(m.pool, c);
    PoolChangeKeepsGood(m, Stop(m.pool, c));
  }

  lemma StopAllKeepsGood(m: State)
    requires Good(m)
    ensures Good(m.(pool := StopAll(m.pool, m.pool.bridges.Keys)))
  {
    StopAllKeepsSettled(m.pool, m.pool.bridges.Keys);
    PoolChangeKeepsGood(m, StopAll(m.pool, m.pool.bridges.Keys));
  }

  lemma AddSlotKeepsGood(m: State)
    requires Good(m)
    ensures Good(m.(pool := AddSlot(m.pool)))
  {
    AddSlotKeepsSettled(m.pool);
    PoolChangeKeepsGood(m, AddSlot(m.pool));
  }

  lemma LearnRoomKeepsGood(m: State, c: Channel, room: RoomId)
    requires Good(m) && IsChannel(c)
    ensures Good(LearnRoom(m, c, room))
  {
  }

  lemma StepKeepsGood(race: Race, m: State, e: Event)
    requires Good(m)
    ensures Good(Step(race, m, e))
  {
    var after := Step(race, m, e);
    assert Good(after) by {
      match e
      case Joined(room, user, name) => JoinKeepsGood(race, m, room, user, name);
      case Left(room, user) => LeaveKeepsGood(race, m, room, user);
      case Fired(t) => FiringKeepsGood(m, t);
      case LeftBySidecar(i) =>
        assert after == SidecarLeave(m, i);
        if Victim(m.pool, i).Some? { StopKeepsGood(m, Victim(m.pool, i).value); }
      case Died(i) => DeathKeepsGood(race, m, i);
      case Removed(i) => if 0 <= i < |m.pool.slots| { DeathKeepsGood(race, m, i); }
      case Added => AddSlotKeepsGood(m);
      case ManuallyJoined(c) => if IsChannel(c) { StartKeepsGood(m, c); }
      case ManuallyLeft(c) => StopKeepsGood(m, c);
      case ManuallyLeftAll => StopAllKeepsGood(m);
      case Closed => CloseKeepsGood(race, m);
      case RoomLearned(c, room) => if IsChannel(c) { LearnRoomKeepsGood(m, c, room); }
    }
  }

  /** Every reachable state is good; what Stats reports then adds up. */
  lemma {:induction false} RunKeepsGood(race: Race, m: State, es: seq<Event>)
    requires Good(m)
    ensures Good(Run(race, m, es))
    ensures var p := Run(race, m, es).pool;
            Count(p.slots, KBusy) == |p.bridges|
            && Count(p.slots, KFree) + Count(p.slots, KDead) + |p.bridges| == |p.slots|
    decreases |es|
  {
    if es == [] {
      BusySlotsAreBridges(m.pool);
      KindsAddUp(m.pool.slots);
    } else {
      StepKeepsGood(race, m, es[0]);
      RunKeepsGood(race, Step(race, m, es[0]), es[1..]);
    }
  }

  // ------------------------------------------------------------- who is bridged

  /** The events that end a bridge of c. */
  ghost predicate Ends(m: State, e: Event, c: Channel) {
    match e
    case Joined(room, user, _) =>
      !IsGhost(user) && room in m.channels && m.channels[room] != c && user in UsersIn(m, c)
    case Left(_, _) => false
    case Fired(t) => t in m.armed && m.armed[t] == c && c !in m.users
    case LeftBySidecar(i) => c in m.pool.bridges && m.pool.bridges[c].slot == i
    case Died(i) => c in m.pool.bridges && m.pool.bridges[c].slot == i
    case Removed(i) => c in m.pool.bridges && m.pool.bridges[c].slot == i
    case ManuallyLeft(d) => c == d
    case ManuallyLeftAll => true
    case Closed => true
    case Added => false
    case ManuallyJoined(_) => false
    case RoomLearned(_, _) => false
  }

  lemma JoinSparesOthers(race: Race, m: State, room: RoomId, user: Mxid, name: string, c: Channel)
    requires Good(m) && c in m.pool.bridges
    ensures var e, after := Joined(room, user, name), Join(race, m, room, user, name).pool.bridges;
            (c in after <==> !Ends(m, e, c)) && (c in after ==> after[c] == m.pool.bridges[c])
  {
    if !IsGhost(user) && room in m.channels {
      var d := m.channels[room];
      var rest := StopAll(m.pool, Elsewhere(m, user, d));
      assert c in rest.bridges <==> c !in Elsewhere(m, user, d);
      StartSparesOthers(rest, d, RoomOf(m, d), c);
    }
  }

  lemma StartSparesOthers(p: Pool, d: Channel, room: RoomId, c: Channel)
    ensures c in p.bridges ==> c in SlotPool.StartBridge(p, d, room).bridges
                               && SlotPool.StartBridge(p, d, room).bridges[c] == p.bridges[c]
    ensures c !in p.bridges && c != d ==> c !in SlotPool.StartBridge(p, d, room).bridges
  {
  }

  lemma DeathSparesOthers(race: Race, m: State, i: nat, c: Channel)
    requires Good(m) && c in m.pool.bridges
    ensures var after := SlotDeath(race, m, i).pool.bridges;
            (c in after <==> m.pool.bridges[c].slot != i) && (c in after ==> after[c] == m.pool.bridges[c])
  {
    var v := Victim(m.pool, i);
    assert m.pool.bridges[c].slot == i ==> !IsDead(m.pool, i) && v == Some(c);
  }

  lemma SidecarLeaveSparesOthers(m: State, i: nat, c: Channel)
    requires Good(m) && c in m.pool.bridges
    ensures var after := SidecarLeave(m, i).pool.bridges;
            (c in after <==> m.pool.bridges[c].slot != i) && (c in after ==> after[c] == m.pool.bridges[c])
  {
  }

  lemma StopSparesOthers(p: Pool, d: Channel, c: Channel)
    requires c in p.bridges
    ensures c in Stop(p, d).bridges <==> c != d
    ensures c != d ==> Stop(p, d).bridges[c] == p.bridges[c]
  {
  }

  lemma StopAllSparesOthers(p: Pool, cs: set<Channel>, c: Channel)
    requires c in p.bridges
    ensures c in StopAll(p, cs).bridges <==> c !in cs
    ensures c !in cs ==> StopAll(p, cs).bridges[c] == p.bridges[c]
  {
  }

  /** Events that are neither calls nor deaths. */
  lemma OtherEventsSpare(race: Race, m: State, e: Event, c: Channel)
    requires Good(m) && c in m.pool.bridges && !e.Joined? && !e.Died? && !e.Removed?
    ensures c in Step(race, m, e).pool.bridges <==> !Ends(m, e, c)
    ensures c in Step(race, m, e).pool.bridges ==> Step(race, m, e).pool.bridges[c] == m.pool.bridges[c]
  {
    match e
    case ManuallyJoined(d) => StartSparesOthers(m.pool, d, RoomOf(m, d), c);
    case LeftBySidecar(i) => SidecarLeaveSparesOthers(m, i, c);
    case Left(room, user) => LeaveSparesThePool(race, m, room, user);
    case ManuallyLeftAll => StopAllSparesOthers(m.pool, m.pool.bridges.Keys, c);
    case Closed => StopAllSparesOthers(m.pool, m.pool.bridges.Keys, c);
    case Fired(t) => if t in m.armed { StopSparesOthers(m.pool, m.armed[t], c); }
    case ManuallyLeft(d) => StopSparesOthers(m.pool, d, c);
    case Added =>
    case RoomLearned(_, _) =>
  }

  /** A bridge outlives an event, unchanged, exactly when the event is none of those; in particular a
      leave never ends one, and a timer only when it fires over an empty channel. */
  lemma BridgeOutlivesExactly(race: Race, m: State, e: Event, c: Channel)
    requires Good(m) && c in m.pool.bridges
    ensures c in Step(race, m, e).pool.bridges <==> !Ends(m, e, c)
    ensures c in Step(race, m, e).pool.bridges ==> Step(race, m, e).pool.bridges[c] == m.pool.bridges[c]
  {
    if e.Joined? {
      JoinSparesOthers(race, m, e.room, e.user, e.name, c);
    } else if e.Died? {
      DeathSparesOthers(race, m, e.slot, c);
    } else if e.Removed? {
      if 0 <= e.index < |m.pool.slots| {
        DeathSparesOthers(race, m, e.index, c);
      }
    } else {
      OtherEventsSpare(race, m, e, c);
    }
  }

  /** A bridge comes up for an inactive channel only by a start, and then exactly when its room is known
      and there is a live slot to spare once the user's other channels have been stopped. */
  lemma JoinBridgesExactly(race: Race, m: State, room: RoomId, user: Mxid, name: string)
    requires Good(m) && !IsGhost(user) && room in m.channels
    requires m.channels[room] !in m.pool.bridges && user !in UsersIn(m, m.channels[room])
    ensures var c := m.channels[room];
            var rest := StopAll(m.pool, Elsewhere(m, user, c));
            c in Join(race, m, room, user, name).pool.bridges <==>
              RoomOf(m, c) != "" && |rest.bridges| < |rest.slots| - Count(rest.slots, KDead)
  {
    var c := m.channels[room];
    var rest := StopAll(m.pool, Elsewhere(m, user, c));
    StopAllKeepsSettled(m.pool, Elsewhere(m, user, c));
    if RoomOf(m, c) == "" {
      StartWithoutRoomRestores(rest, c, "");
    } else {
      StartSucceedsExactly(rest, c, RoomOf(m, c));
    }
  }

  // ------------------------------------------------------------------ debounce

  /** Events that may happen around a debounced leave: any timer may fire, and nothing else ends c's bridge. */
  ghost predicate Quiet(race: Race, m: State, es: seq<Event>, c: Channel)
    decreases |es|
  {
    es == [] || ((es[0].Fired? || !Ends(m, es[0], c)) && Quiet(race, Step(race, m, es[0]), es[1..], c))
  }

  /** Some timer of the run fired over an empty c. */
  ghost predicate FiredEmpty(race: Race, m: State, es: seq<Event>, c: Channel)
    decreases |es|
  {
    es != [] && ((es[0].Fired? && Ends(m, es[0], c)) || FiredEmpty(race, Step(race, m, es[0]), es[1..], c))
  }

  /** A started bridge stays, the same bridge on the same slot, until a callback sees no users. */
  lemma {:induction false} BridgeStaysUntilFiredEmpty(race: Race, m: State, es: seq<Event>, c: Channel)
    requires Good(m) && c in m.pool.bridges && Quiet(race, m, es, c) && !FiredEmpty(race, m, es, c)
    ensures c in Run(race, m, es).pool.bridges && Run(race, m, es).pool.bridges[c] == m.pool.bridges[c]
    decreases |es|
  {
    if es == [] {
    } else {
      BridgeOutlivesExactly(race, m, es[0], c);
      StepKeepsGood(race, m, es[0]);
      BridgeStaysUntilFiredEmpty(race, Step(race, m, es[0]), es[1..], c);
    }
  }

  /** The event takes the user out of c. */
  predicate TakesOut(m: State, e: Event, c: Channel, user: Mxid) {
    match e
    case Left(room, u) => u == user && room in m.channels && m.channels[room] == c
    case Joined(room, u, _) => u == user && room in m.channels && m.channels[room] != c
    case _ => false
  }

  ghost predicate Keeps(race: Race, m: State, es: seq<Event>, c: Channel, user: Mxid)
    decreases |es|
  {
    es == [] || (!TakesOut(m, es[0], c, user) && Keeps(race, Step(race, m, es[0]), es[1..], c, user))
  }

  /** While a user stays, no timer ends the bridge: neither one whose cancellation came too late, nor one
      whose entry a stale callback has removed. */
  lemma {:induction false} NoTimerBeatsAUser(race: Race, m: State, es: seq<Event>, c: Channel, user: Mxid)
    requires Good(m) && c in m.pool.bridges && user in UsersIn(m, c)
    requires Quiet(race, m, es, c) && Keeps(race, m, es, c, user)
    ensures c in Run(race, m, es).pool.bridges && Run(race, m, es).pool.bridges[c] == m.pool.bridges[c]
    ensures user in UsersIn(Run(race, m, es), c)
    decreases |es|
  {
    if es == [] {
    } else {
      BridgeOutlivesExactly(race, m, es[0], c);
      StepKeepsGood(race, m, es[0]);
      UserStays(race, m, es[0], c, user);
      NoTimerBeatsAUser(race, Step(race, m, es[0]), es[1..], c, user);
    }
  }

  lemma OtherUserStays(users: map<Channel, map<Mxid, string>>, other: Mxid, cs: set<Channel>, c: Channel, user: Mxid)
    requires c in users && user in users[c] && (c in cs ==> other != user)
    ensures c in TakeOut(users, other, cs) && user in TakeOut(users, other, cs)[c]
  {
  }

  lemma OnlyCallsChangeUsers(race: Race, m: State, e: Event)
    requires !e.Joined? && !e.Left?
    ensures Step(race, m, e).users == m.users
  {
  }

  lemma UserStays(race: Race, m: State, e: Event, c: Channel, user: Mxid)
    requires user in UsersIn(m, c) && !TakesOut(m, e, c, user)
    ensures user in UsersIn(Step(race, m, e), c)
  {
    match e {
      case Joined(room, other, name) =>
        if !IsGhost(other) && room in m.channels {
          OtherUserStays(m.users, other, Elsewhere(m, other, m.channels[room]), c, user);
        }
      case Left(room, other) =>
        if !IsGhost(other) && room in m.channels {
          OtherUserStays(m.users, other, {m.channels[room]}, c, user);
        }
      case _ => OnlyCallsChangeUsers(race, m, e);
    }
  }

  /** A new user is added under the name given; one who is there already stays as is. */
  lemma JoinTracks(race: Race, m: State, room: RoomId, user: Mxid, name: string)
    requires room in m.channels && !IsGhost(user)
    ensures var c := m.channels[room];
            user in UsersIn(Join(race, m, room, user, name), c)
            && UsersIn(Join(race, m, room, user, name), c) ==
               if user in UsersIn(m, c) then UsersIn(m, c) else UsersIn(m, c)[user := name]
  {
  }

  lemma LeaveSparesThePool(race: Race, m: State, room: RoomId, user: Mxid)
    ensures Leave(race, m, room, user).pool == m.pool && Leave(race, m, room, user).channels == m.channels
  {
  }

  lemma RejoinRestores(race: Race, m: State, room: RoomId, back: Mxid, name: string)
    requires Good(m) && room in m.channels && m.channels[room] in m.pool.bridges && !IsGhost(back)
    ensures var joined, c := Join(race, m, room, back, name), m.channels[room];
            Good(joined) && back in UsersIn(joined, c)
            && c in joined.pool.bridges && joined.pool.bridges[c] == m.pool.bridges[c]
  {
    JoinKeepsGood(race, m, room, back, name);
    JoinTracks(race, m, room, back, name);
    JoinSparesOthers(race, m, room, back, name, m.channels[room]);
  }

  /** Leave, then, whatever else happens in the meantime, rejoin before a callback has seen the channel
      empty: whatever fires afterwards, and whether or not the timer was cancelled in time, the bridge is
      the one from before the leave. */
  lemma RejoinKeepsTheBridge(race: Race, m: State, room: RoomId, user: Mxid, mid: seq<Event>, again: State,
                             back: Mxid, name: string, es: seq<Event>, c: Channel)
    requires Good(m) && room in m.channels && m.channels[room] == c && c in m.pool.bridges && !IsGhost(back)
    requires var left := Leave(race, m, room, user);
             Quiet(race, left, mid, c) && !FiredEmpty(race, left, mid, c) && again == Run(race, left, mid)
    requires room in again.channels && again.channels[room] == c
    requires var joined := Join(race, again, room, back, name);
             Quiet(race, joined, es, c) && Keeps(race, joined, es, c, back)
    ensures var end := Run(race, m, [Left(room, user)] + mid + [Joined(room, back, name)] + es);
            c in end.pool.bridges && end.pool.bridges[c] == m.pool.bridges[c]
  {
    var left := Leave(race, m, room, user);
    LeaveKeepsGood(race, m, room, user);
    LeaveSparesThePool(race, m, room, user);
    BridgeStaysUntilFiredEmpty(race, left, mid, c);
    RunKeepsGood(race, left, mid);
    RejoinRestores(race, again, room, back, name);
    NoTimerBeatsAUser(race, Join(race, again, room, back, name), es, c, back);
    RunRejoin(race, m, Left(room, user), mid, Joined(room, back, name), es);
  }

  lemma {:induction false} RunAppend(race: Race, m: State, xs: seq<Event>, ys: seq<Event>)
    ensures Run(race, m, xs + ys) == Run(race, Run(race, m, xs), ys)
    decreases |xs|
  {
    if xs == [] {
      assert xs + ys == ys;
    } else {
      RunAppend(race, Step(race, m, xs[0]), xs[1..], ys);
      assert (xs + ys)[1..] == xs[1..] + ys;
    }
  }

  lemma RunOne(race: Race, m: State, e: Event)
    ensures Run(race, m, [e]) == Step(race, m, e)
  {
    assert [e][1..] == [];
  }

  lemma RunRejoin(race: Race, m: State, a: Event, mid: seq<Event>, b: Event, es: seq<Event>)
    ensures Run(race, m, [a] + mid + [b] + es) == Run(race, Step(race, Run(race, Step(race, m, a), mid), b), es)
  {
    RunOne(race, m, a);
    RunAppend(race, m, [a], mid);
    RunOne(race, Run(race, m, [a] + mid), b);
    RunAppend(race, m, [a] + mid, [b]);
    RunAppend(race, m, [a] + mid + [b], es);
  }

  // ------------------------------------------------------- users left behind

  /** A join takes a bridge from under a channel's users exactly when its user switches away from that
      channel and somebody else is still there. */
  lemma SwitchLeavesUsersBehindExactly(race: Race, m: State, room: RoomId, user: Mxid, name: string, c: Channel)
    requires Good(m) && c in m.pool.bridges && c in m.users
    ensures var t := Join(race, m, room, user, name);
            c in t.users && c !in t.pool.bridges <==>
              && !IsGhost(user) && room in m.channels && m.channels[room] != c && user in m.users[c]
              && exists v :: v in m.users[c] && v != user
  {
    JoinSparesOthers(race, m, room, user, name, c);
    SomebodyElse(m.users[c], user);
    if !IsGhost(user) && room in m.channels {
      assert c in Elsewhere(m, user, m.channels[room]) <==> m.channels[room] != c && user in m.users[c];
    }
  }

  lemma SomebodyElse(there: map<Mxid, string>, user: Mxid)
    ensures there - {user} != map[] <==> exists v :: v in there && v != user
  {
    if v :| v in there && v != user {
      assert v in there - {user};
    }
  }

  lemma JoinKeepsChannels(race: Race, m: State, room: RoomId, user: Mxid, name: string)
    ensures Join(race, m, room, user, name).channels == m.channels && Join(race, m, room, user, name).rooms == m.rooms
  {
  }

  /** From the start, with two slots: two users join a channel, one of them switches to another, and the
      one who stayed has no bridge. */
  lemma SwitchStrandsTheOther(race: Race)
    ensures var es := [RoomLearned(7, "!a"), RoomLearned(9, "!b"), Joined("!a", "@u", "U"), Joined("!a", "@v", "V"),
                       Joined("!b", "@u", "U")];
            var end := Run(race, State(Pool([FREE, FREE], map[]), map[], map[], map[], map[], map[], 0), es);
            "@v" in UsersIn(end, 7) && 7 !in end.pool.bridges
  {
    var m0 := State(Pool([FREE, FREE], map[]), map[], map[], map[], map[], map[], 0);
    var m1 := Step(race, m0, RoomLearned(7, "!a"));
    var m2 := Step(race, m1, RoomLearned(9, "!b"));
    var m3 := Step(race, m2, Joined("!a", "@u", "U"));
    var m4 := Step(race, m3, Joined("!a", "@v", "V"));
    var m5 := Step(race, m4, Joined("!b", "@u", "U"));
    assert !IsGhost("@u") && !IsGhost("@v");
    FirstJoinBridges(race, m2);
    JoinTracks(race, m2, "!a", "@u", "U");
    JoinKeepsGood(race, m2, "!a", "@u", "U");
    JoinKeepsChannels(race, m2, "!a", "@u", "U");
    JoinTracks(race, m3, "!a", "@v", "V");
    JoinKeepsGood(race, m3, "!a", "@v", "V");
    JoinKeepsChannels(race, m3, "!a", "@v", "V");
    JoinSparesOthers(race, m3, "!a", "@v", "V", 7);
    assert "@u" in UsersIn(m4, 7) && "@v" in UsersIn(m4, 7);
    SwitchLeavesUsersBehindExactly(race, m4, "!b", "@u", "U", 7);
    UserStays(race, m4, Joined("!b", "@u", "U"), 7, "@v");
    FiveSteps(race, m0, RoomLearned(7, "!a"), RoomLearned(9, "!b"), Joined("!a", "@u", "U"), Joined("!a", "@v", "V"),
              Joined("!b", "@u", "U"));
  }

  lemma FirstJoinBridges(race: Race, m: State)
    requires m == State(Pool([FREE, FREE], map[]), map[7 := "!a", 9 := "!b"], map["!a" := 7, "!b" := 9],
                        map[], map[], map[], 0)
    ensures Good(m) && 7 in Join(race, m, "!a", "@u", "U").pool.bridges
  {
    assert Count([FREE], KDead) == 0 && [FREE, FREE][..1] == [FREE];
    assert Elsewhere(m, "@u", 7) == {};
    StopAllNone(m.pool);
    JoinBridgesExactly(race, m, "!a", "@u", "U");
  }

  lemma FiveSteps(race: Race, m: State, a: Event, b: Event, c: Event, d: Event, e: Event)
    ensures Run(race, m, [a, b, c, d, e])
            == Step(race, Step(race, Step(race, Step(race, Step(race, m, a), b), c), d), e)
  {
    assert [a, b, c, d, e] == [a] + [b] + [c] + [d] + [e];
    RunOne(race, m, a);
    RunAppend(race, m, [a], [b]);
    RunOne(race, Step(race, m, a), b);
    RunAppend(race, m, [a] + [b], [c]);
    RunOne(race, Run(race, m, [a] + [b]), c);
    RunAppend(race, m, [a] + [b] + [c], [d]);
    RunOne(race, Run(race, m, [a] + [b] + [c]), d);
    RunAppend(race, m, [a] + [b] + [c] + [d], [e]);
    RunOne(race, Run(race, m, [a] + [b] + [c] + [d]), e);
  }

  // ---------------------------------------------------------- the last leave

  /** c has no users, and timer t is still to fire for it. */
  ghost predicate Waiting(m: State, c: Channel, t: TimerId) {
    c !in m.users && t in m.armed && m.armed[t] == c
  }

  /** The leave that empties a channel registers a new timer and arms its callback; any other leaves the
      timers alone. */
  lemma LastLeaveArms(race: Race, m: State, room: RoomId, user: Mxid)
    requires Good(m) && room in m.channels && !IsGhost(user)
    ensures var c := m.channels[room];
            var after := Leave(race, m, room, user);
            if forall u :: u in UsersIn(m, c) ==> u == user then
              Countdown(after, c, m.born) && c in after.timers
            else
              after.timers == m.timers && after.armed == m.armed && c in after.users
  {
    var c := m.channels[room];
    if c in m.users {
      if forall u :: u in m.users[c] ==> u == user {
        assert m.users[c] - {user} == map[];
      } else {
        var u :| u in m.users[c] && u != user;
        assert u in UsersIn(m, c) && u in m.users[c] - {user};
      }
    }
  }

  /** The events that can disarm c's callback or fill the channel again. */
  predicate Touches(m: State, e: Event, c: Channel, t: TimerId) {
    match e
    case Joined(room, user, _) => !IsGhost(user) && room in m.channels && m.channels[room] == c
    case Left(room, user) => !IsGhost(user) && room in m.channels && m.channels[room] == c
    case Fired(u) => u == t
    case Died(i) => c in m.pool.bridges && m.pool.bridges[c].slot == i
    case Removed(i) => c in m.pool.bridges && m.pool.bridges[c].slot == i
    case Closed => true
    case _ => false
  }

  ghost predicate Untouched(race: Race, m: State, es: seq<Event>, c: Channel, t: TimerId)
    decreases |es|
  {
    es == [] || (!Touches(m, es[0], c, t) && Untouched(race, Step(race, m, es[0]), es[1..], c, t))
  }

  /** Waiting, and t is registered for no other channel and c for no other timer. */
  ghost predicate Countdown(m: State, c: Channel, t: TimerId) {
    Waiting(m, c, t)
    && (c in m.timers ==> m.timers[c] == t)
    && (forall d :: d in m.timers && m.timers[d] == t ==> d == c)
  }

  lemma CancelSpares(race: Race, m: State, cs: set<Channel>, c: Channel, t: TimerId)
    requires Countdown(m, c, t) && c !in cs
    ensures Countdown(Cancel(race, m, cs), c, t)
  {
  }

  lemma JoinSparesCountdown(race: Race, m: State, room: RoomId, user: Mxid, name: string, c: Channel, t: TimerId)
    requires Countdown(m, c, t) && (!IsGhost(user) && room in m.channels ==> m.channels[room] != c)
    ensures Countdown(Join(race, m, room, user, name), c, t)
  {
  }

  lemma LeaveSparesCountdown(race: Race, m: State, room: RoomId, user: Mxid, c: Channel, t: TimerId)
    requires Countdown(m, c, t) && t < m.born && (!IsGhost(user) && room in m.channels ==> m.channels[room] != c)
    ensures Countdown(Leave(race, m, room, user), c, t)
  {
    if !IsGhost(user) && room in m.channels {
      var d := m.channels[room];
      var left := m.(users := TakeOut(m.users, user, {d}));
      CancelSpares(race, left, {d}, c, t);
    }
  }

  lemma DeathSparesCountdown(race: Race, m: State, i: nat, c: Channel, t: TimerId)
    requires Countdown(m, c, t) && !(c in m.pool.bridges && m.pool.bridges[c].slot == i)
    ensures Countdown(SlotDeath(race, m, i), c, t)
  {
  }

  lemma CountdownGoesOn(race: Race, m: State, e: Event, c: Channel, t: TimerId)
    requires Good(m) && Countdown(m, c, t) && !Touches(m, e, c, t)
    ensures Countdown(Step(race, m, e), c, t)
  {
    match e
    case Joined(room, user, name) => JoinSparesCountdown(race, m, room, user, name, c, t);
    case Left(room, user) => LeaveSparesCountdown(race, m, room, user, c, t);
    case Died(i) => DeathSparesCountdown(race, m, i, c, t);
    case Removed(i) => if 0 <= i < |m.pool.slots| { DeathSparesCountdown(race, m, i, c, t); }
    case _ =>
  }

  /** And unless the channel is joined or left again, its own slot dies or the manager closes, the callback
      does its work: when it fires the bridge is gone. */
  lemma {:induction false} DebouncedStopHappens(race: Race, m: State, es: seq<Event>, c: Channel, t: TimerId)
    requires Good(m) && Countdown(m, c, t) && Untouched(race, m, es, c, t)
    ensures c !in TimerFires(Run(race, m, es), t).pool.bridges
    decreases |es|
  {
    if es == [] {
    } else {
      CountdownGoesOn(race, m, es[0], c, t);
      StepKeepsGood(race, m, es[0]);
      DebouncedStopHappens(race, Step(race, m, es[0]), es[1..], c, t);
    }
  }

  /** A join in time disarms the callback; one too late leaves it armed. Either way no timer is registered. */
  lemma JoinCancels(race: Race, m: State, room: RoomId, user: Mxid, name: string, t: TimerId)
    requires room in m.channels && !IsGhost(user)
    requires m.channels[room] in m.timers && m.timers[m.channels[room]] == t && t in m.armed
    ensures var after := Join(race, m, room, user, name);
            m.channels[room] !in after.timers && (t in after.armed <==> !race(t))
  {
  }

  /** The callback's first section: it looks, and decides whether to stop. */
  function CallbackLooks(m: State, t: TimerId): (State, Option<Channel>) {
    if t !in m.armed then (m, None)
    else
      var c := m.armed[t];
      (m.(armed := m.armed - {t}, timers := m.timers - {c}), if c in m.users then None else Some(c))
  }

  /** The event puts the user into c. */
  predicate PutsIn(m: State, e: Event, c: Channel, user: Mxid) {
    e.Joined? && e.user == user && !IsGhost(user) && e.room in m.channels && m.channels[e.room] == c
  }

  /** The user joins c somewhere in the run, and is not taken out again. */
  ghost predicate JoinsAndStays(race: Race, m: State, es: seq<Event>, c: Channel, user: Mxid)
    decreases |es|
  {
    es != []
    && var after := Step(race, m, es[0]);
       (PutsIn(m, es[0], c, user) && Keeps(race, after, es[1..], c, user))
       || JoinsAndStays(race, after, es[1..], c, user)
  }

  lemma WhoIsThereAfterJoin(race: Race, m: State, room: RoomId, other: Mxid, name: string, c: Channel, user: Mxid)
    requires user in UsersIn(m, c) ==> !IsGhost(user)
    ensures var e := Joined(room, other, name);
            user in UsersIn(Join(race, m, room, other, name), c) <==>
              (user in UsersIn(m, c) && !TakesOut(m, e, c, user)) || PutsIn(m, e, c, user)
  {
    if !IsGhost(other) && room in m.channels {
      WhoIsLeft(m, other, Elsewhere(m, other, m.channels[room]), c, user);
    }
  }

  lemma WhoIsThereAfterLeave(race: Race, m: State, room: RoomId, other: Mxid, c: Channel, user: Mxid)
    requires user in UsersIn(m, c) ==> !IsGhost(user)
    ensures user in UsersIn(Leave(race, m, room, other), c) <==>
              user in UsersIn(m, c) && !TakesOut(m, Left(room, other), c, user)
  {
    if !IsGhost(other) && room in m.channels {
      WhoIsLeft(m, other, {m.channels[room]}, c, user);
    }
  }

  lemma WhoIsThere(race: Race, m: State, e: Event, c: Channel, user: Mxid)
    requires user in UsersIn(m, c) ==> !IsGhost(user)
    ensures user in UsersIn(Step(race, m, e), c) <==>
              (user in UsersIn(m, c) && !TakesOut(m, e, c, user)) || PutsIn(m, e, c, user)
  {
    if e.Joined? {
      WhoIsThereAfterJoin(race, m, e.room, e.user, e.name, c, user);
    } else if e.Left? {
      WhoIsThereAfterLeave(race, m, e.room, e.user, c, user);
    } else {
      OnlyCallsChangeUsers(race, m, e);
    }
  }

  lemma WhoIsLeft(m: State, other: Mxid, cs: set<Channel>, c: Channel, user: Mxid)
    ensures user in UsersIn(m.(users := TakeOut(m.users, other, cs)), c) <==>
              user in UsersIn(m, c) && !(c in cs && user == other)
  {
    if c in m.users && c in cs && user != other && user in m.users[c] {
      assert user in m.users[c] - {other};
    }
  }

  lemma GhostsAreNowhere(m: State, c: Channel, user: Mxid)
    requires Good(m)
    ensures user in UsersIn(m, c) ==> !IsGhost(user)
  {
  }

  /** Who is in a channel after a run: those who were and were kept, and those who joined and stayed. */
  lemma {:induction false} WhoIsThereAfter(race: Race, m: State, es: seq<Event>, c: Channel, user: Mxid)
    requires Good(m)
    ensures user in UsersIn(Run(race, m, es), c) <==>
              (user in UsersIn(m, c) && Keeps(race, m, es, c, user)) || JoinsAndStays(race, m, es, c, user)
    decreases |es|
  {
    if es == [] {
    } else {
      GhostsAreNowhere(m, c, user);
      WhoIsThere(race, m, es[0], c, user);
      StepKeepsGood(race, m, es[0]);
      WhoIsThereAfter(race, Step(race, m, es[0]), es[1..], c, user);
    }
  }

  lemma NewcomersStayed(race: Race, m: State, es: seq<Event>, c: Channel, user: Mxid)
    requires Good(m) && c !in m.users
    ensures user in UsersIn(Run(race, m, es), c) <==> JoinsAndStays(race, m, es, c, user)
  {
    WhoIsThereAfter(race, m, es, c, user);
  }

  lemma InhabitedAfter(race: Race, m: State, es: seq<Event>, c: Channel)
    requires Good(m) && c !in m.users
    ensures c in Run(race, m, es).users <==> exists user :: JoinsAndStays(race, m, es, c, user)
  {
    if user :| JoinsAndStays(race, m, es, c, user) {
      NewcomersStayed(race, m, es, c, user);
    } else {
      NobodyIsThere(race, m, es, c);
    }
  }

  lemma NobodyIsThere(race: Race, m: State, es: seq<Event>, c: Channel)
    requires Good(m) && c !in m.users && forall user :: !JoinsAndStays(race, m, es, c, user)
    ensures c !in Run(race, m, es).users
  {
    RunKeepsGood(race, m, es);
    ListedIsInhabited(Run(race, m, es), c);
    if user :| user in UsersIn(Run(race, m, es), c) {
      NewcomersStayed(race, m, es, c, user);
      assert false;
    }
  }

  lemma LookKeepsGood(m: State, t: TimerId)
    requires Good(m)
    ensures Good(CallbackLooks(m, t).0)
  {
  }

  /** Taken as the two sections it is, the callback is not safe: after whatever run between its look and
      its stop, users are left behind without a bridge exactly when somebody joined the channel in between
      and stayed. */
  lemma LateStopLosesExactlyTheJoins(race: Race, m: State, t: TimerId, es: seq<Event>)
    requires Good(m) && CallbackLooks(m, t).1.Some?
    ensures var (seen, stop) := CallbackLooks(m, t);
            var c, before := stop.value, Run(race, seen, es);
            var end := before.(pool := Stop(before.pool, c));
            c in end.users && c !in end.pool.bridges <==> exists user :: JoinsAndStays(race, seen, es, c, user)
  {
    LookKeepsGood(m, t);
    InhabitedAfter(race, CallbackLooks(m, t).0, es, CallbackLooks(m, t).1.value);
  }

  lemma ListedIsInhabited(m: State, c: Channel)
    requires Good(m)
    ensures c in m.users <==> exists user :: user in UsersIn(m, c)
  {
    if c in m.users {
      var user :| user in m.users[c];
      assert user in UsersIn(m, c);
    }
  }

  /** After Close no bridge and no registered timer is left, and every slot that is not dead is free. */
  lemma CloseEmpties(race: Race, m: State)
    requires Good(m)
    ensures var q := Close(race, m);
            q.pool.bridges == map[] && q.timers == map[]
            && forall i :: 0 <= i < |q.pool.slots| ==> q.pool.slots[i] == if m.pool.slots[i] == DEAD then DEAD else FREE
  {
  }
}
