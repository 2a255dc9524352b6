/** What every event does to the bridge manager, said outright: to its users, its timers, its bridges, its
    slots and its rooms. */
module Effects {
  import opened Wrappers
  import opened Ids
  import opened SlotPool
  import opened BridgeManager

  /** A call-member event that is acted on: not a bridged Discord user's, and for a known room. */
  predicate Counts(m: State, user: Mxid, room: RoomId) {
    !("@discord_" <= user) && room in m.channels
  }

  // ------------------------------------------------------------------- users

  lemma PuppetsAreIgnored(race: Race, m: State, room: RoomId, user: Mxid, name: string)
    requires "@discord_" <= user || room !in m.channels
    ensures Step(race, m, Joined(room, user, name)) == m == Step(race, m, Left(room, user))
  {
  }

  lemma OthersAreTracked(race: Race, m: State, room: RoomId, user: Mxid, name: string)
    requires !("@discord_" <= user) && room in m.channels
    ensures user in UsersIn(Step(race, m, Joined(room, user, name)), m.channels[room])
    ensures user !in UsersIn(Step(race, m, Left(room, user)), m.channels[room])
  {
    JoinTracks(race, m, room, user, name);
    WhoIsLeft(m, user, {m.channels[room]}, m.channels[room], user);
  }

  /** In every run, no bridged Discord user is tracked. */
  lemma NoPuppetIsTracked(race: Race, m: State, es: seq<Event>, c: Channel, user: Mxid)
    requires Good(m) && user in UsersIn(BridgeManager.Run(race, m, es), c)
    ensures !("@discord_" <= user)
  {
    RunKeepsGood(race, m, es);
    GhostsAreNowhere(BridgeManager.Run(race, m, es), c, user);
  }

  predicate PutIn(m: State, e: Event, c: Channel, user: Mxid) {
    e.Joined? && e.user == user && Counts(m, user, e.room) && m.channels[e.room] == c
  }

  predicate TakenOut(m: State, e: Event, c: Channel, user: Mxid) {
    match e
    case Joined(room, u, _) => u == user && Counts(m, u, room) && m.channels[room] != c
    case Left(room, u) => u == user && Counts(m, u, room) && m.channels[room] == c
    case _ => false
  }

  lemma NamesStay(m: State, other: Mxid, cs: set<Channel>, c: Channel, user: Mxid)
    requires user in UsersIn(m.(users := TakeOut(m.users, other, cs)), c)
    ensures user in UsersIn(m, c)
    ensures UsersIn(m.(users := TakeOut(m.users, other, cs)), c)[user] == UsersIn(m, c)[user]
  {
  }

  lemma NameAfterJoin(race: Race, m: State, room: RoomId, other: Mxid, name: string, c: Channel, user: Mxid)
    requires user in UsersIn(Join(race, m, room, other, name), c)
    ensures UsersIn(Join(race, m, room, other, name), c)[user]
            == if user in UsersIn(m, c) then UsersIn(m, c)[user] else name
  {
    if Counts(m, other, room) {
      var d := m.channels[room];
      if c == d {
        JoinTracks(race, m, room, other, name);
      } else {
        NamesStay(m, other, Elsewhere(m, other, d), c, user);
      }
    }
  }

  /** Who is where after an event, and under which name. */
  lemma UsersExactly(race: Race, m: State, e: Event, c: Channel, user: Mxid)
    requires Good(m)
    ensures var after := UsersIn(Step(race, m, e), c);
            && (user in after <==> (user in UsersIn(m, c) && !TakenOut(m, e, c, user)) || PutIn(m, e, c, user))
            && (user in after ==>
                  after[user] == if user in UsersIn(m, c) then UsersIn(m, c)[user]
                                 else if e.Joined? then e.name else "")
  {
    GhostsAreNowhere(m, c, user);
    WhoIsThere(race, m, e, c, user);
    match e {
      case Joined(room, other, name) =>
        if user in UsersIn(Join(race, m, room, other, name), c) {
          NameAfterJoin(race, m, room, other, name, c, user);
        }
      case Left(room, other) =>
        if Counts(m, other, room) && user in UsersIn(Leave(race, m, room, other), c) {
          NamesStay(m, other, {m.channels[room]}, c, user);
        }
      case _ => OnlyCallsChangeUsers(race, m, e);
    }
  }

  // ------------------------------------------------------------------ timers

  /** The leave that empties c. */
  predicate Empties(m: State, e: Event, c: Channel) {
    e.Left? && Counts(m, e.user, e.room) && m.channels[e.room] == c && forall u :: u in UsersIn(m, c) ==> u == e.user
  }

  /** The event stops the timer registered for c. */
  predicate StopsTimer(m: State, e: Event, c: Channel) {
    match e
    case Joined(room, user, _) => Counts(m, user, room) && (m.channels[room] == c || user in UsersIn(m, c))
    case Left(_, _) => Empties(m, e, c)
    case Died(i) => !IsDead(m.pool, i) && c in m.pool.bridges && m.pool.bridges[c].slot == i
    case Removed(i) => i >= 0 && !IsDead(m.pool, i) && c in m.pool.bridges && m.pool.bridges[c].slot == i
    case Closed => true
    case _ => false
  }

  /** The callback that runs deletes its channel's entry, whichever timer is registered there. */
  predicate Unregisters(m: State, e: Event, c: Channel) {
    StopsTimer(m, e, c) || (e.Fired? && e.timer in m.armed && m.armed[e.timer] == c)
  }

  /** What an event must do to the timers: entries, callbacks and the next number. */
  ghost predicate TimersFollow(race: Race, m: State, e: Event, t: State) {
    && (forall c :: c in t.timers <==> (c in m.timers && !Unregisters(m, e, c)) || Empties(m, e, c))
    && (forall c :: c in t.timers ==> t.timers[c] == if Empties(m, e, c) then m.born else m.timers[c])
    && (forall u :: u in t.armed <==>
          (u in m.armed && e != Fired(u)
           && !(race(u) && exists c :: c in m.timers && m.timers[c] == u && StopsTimer(m, e, c)))
          || (u == m.born && exists c :: Empties(m, e, c)))
    && (forall u :: u in t.armed && u in m.armed ==> t.armed[u] == m.armed[u])
    && (forall c :: Empties(m, e, c) ==> m.born in t.armed && t.armed[m.born] == c && t.born == m.born + 1)
    && ((forall c :: !Empties(m, e, c)) ==> t.born == m.born)
  }

  lemma CancelExactly(race: Race, m: State, cs: set<Channel>)
    ensures var t := Cancel(race, m, cs);
            && (forall c :: c in t.timers <==> c in m.timers && c !in cs)
            && (forall c :: c in t.timers ==> t.timers[c] == m.timers[c])
            && (forall u :: u in t.armed <==>
                  u in m.armed && !(race(u) && exists c :: c in m.timers && m.timers[c] == u && c in cs))
            && (forall u :: u in t.armed ==> t.armed[u] == m.armed[u])
            && t.born == m.born
  {
  }

  /** An event that stops the timers of some channels and does nothing else to timers. */
  lemma CancelFollows(race: Race, m: State, e: Event, cs: set<Channel>, t: State)
    requires !e.Left? && !e.Fired? && t.born == m.born
    requires t.timers == Cancel(race, m, cs).timers && t.armed == Cancel(race, m, cs).armed
    requires forall c :: c in cs <==> StopsTimer(m, e, c)
    ensures TimersFollow(race, m, e, t)
  {
    CancelExactly(race, m, cs);
  }

  /** An event that has nothing to do with timers. */
  lemma NothingFollows(race: Race, m: State, e: Event, t: State)
    requires t.timers == m.timers && t.armed == m.armed && t.born == m.born
    requires forall c :: !Unregisters(m, e, c) && !Empties(m, e, c)
    requires e.Fired? ==> e.timer !in m.armed
    ensures TimersFollow(race, m, e, t)
  {
  }

  lemma JoinTimers(race: Race, m: State, room: RoomId, user: Mxid, name: string)
    ensures TimersFollow(race, m, Joined(room, user, name), Join(race, m, room, user, name))
  {
    var e, t := Joined(room, user, name), Join(race, m, room, user, name);
    if Counts(m, user, room) {
      var c := m.channels[room];
      var cs := Elsewhere(m, user, c) + {c};
      assert forall d :: d in cs <==> StopsTimer(m, e, d);
      CancelFollows(race, m, e, cs, t);
    } else {
      NothingFollows(race, m, e, t);
    }
  }

  lemma EmptiesExactly(m: State, room: RoomId, user: Mxid)
    requires Counts(m, user, room) && (m.channels[room] in m.users ==> m.users[m.channels[room]] != map[])
    ensures Empties(m, Left(room, user), m.channels[room]) <==>
              m.channels[room] !in TakeOut(m.users, user, {m.channels[room]})
  {
    var c := m.channels[room];
    if c in m.users {
      SomebodyElse(m.users[c], user);
      assert forall u :: u in UsersIn(m, c) <==> u in m.users[c];
      assert c !in TakeOut(m.users, user, {c}) <==> m.users[c] - {user} == map[];
    }
  }

  /** The leave that empties c stops its timer and makes a new one. */
  lemma ArmFollows(race: Race, m: State, e: Event, c: Channel, t: State)
    requires e.Left? && forall d :: Empties(m, e, d) <==> d == c
    requires var quiet := Cancel(race, m, {c});
             t.timers == quiet.timers[c := m.born] && t.armed == quiet.armed[m.born := c] && t.born == m.born + 1
    requires forall u :: u in m.armed ==> u < m.born
    ensures TimersFollow(race, m, e, t)
  {
    CancelExactly(race, m, {c});
    assert forall d :: d in {c} <==> StopsTimer(m, e, d);
  }

  lemma LeaveTimers(race: Race, m: State, room: RoomId, user: Mxid)
    requires forall c :: c in m.users ==> m.users[c] != map[]
    requires forall u :: u in m.armed ==> u < m.born
    ensures TimersFollow(race, m, Left(room, user), Leave(race, m, room, user))
  {
    var e, t := Left(room, user), Leave(race, m, room, user);
    if Counts(m, user, room) {
      var c := m.channels[room];
      EmptiesExactly(m, room, user);
      if Empties(m, e, c) {
        var left := m.(users := TakeOut(m.users, user, {c}));
        assert Cancel(race, left, {c}).timers == Cancel(race, m, {c}).timers;
        ArmFollows(race, m, e, c, t);
      } else {
        NothingFollows(race, m, e, t);
      }
    } else {
      NothingFollows(race, m, e, t);
    }
  }

  lemma VictimsTimer(m: State, e: Event, i: nat, c: Channel)
    requires Good(m) && (e == Died(i) || e == Removed(i)) && !IsDead(m.pool, i)
    ensures StopsTimer(m, e, c) <==> Victim(m.pool, i) == Some(c)
  {
  }

  lemma DeathTimers(race: Race, m: State, e: Event, i: nat)
    requires Good(m) && (e == Died(i) || e == Removed(i))
    ensures TimersFollow(race, m, e, SlotDeath(race, m, i))
  {
    var v := Victim(m.pool, i);
    if IsDead(m.pool, i) {
      NothingFollows(race, m, e, m);
    } else {
      var cs := if v.Some? then {v.value} else {};
      forall c ensures c in cs <==> StopsTimer(m, e, c) {
        VictimsTimer(m, e, i, c);
      }
      CancelFollows(race, m, e, cs, SlotDeath(race, m, i));
    }
  }

  lemma NobodyOutOfRange(race: Race, m: State, i: int)
    requires Good(m) && !(0 <= i < |m.pool.slots|)
    ensures TimersFollow(race, m, Removed(i), m)
  {
    NothingFollows(race, m, Removed(i), m);
  }

  lemma CloseTimers(race: Race, m: State)
    ensures TimersFollow(race, m, Closed, Close(race, m))
  {
    CancelExactly(race, m, m.timers.Keys);
  }

  lemma FiringTimers(race: Race, m: State, t: TimerId)
    ensures TimersFollow(race, m, Fired(t), TimerFires(m, t))
  {
  }

  /** Every event does to the timers exactly what TimersFollow says. */
  lemma TimersExactly(race: Race, m: State, e: Event)
    requires Good(m)
    ensures TimersFollow(race, m, e, Step(race, m, e))
  {
    if e.Joined? {
      JoinTimers(race, m, e.room, e.user, e.name);
    } else if e.Left? {
      LeaveTimers(race, m, e.room, e.user);
    } else if e.Fired? {
      FiringTimers(race, m, e.timer);
    } else if e.Died? {
      DeathTimers(race, m, e, e.slot);
    } else if e.Removed? {
      if 0 <= e.index < |m.pool.slots| {
        DeathTimers(race, m, e, e.index);
      } else {
        NobodyOutOfRange(race, m, e.index);
      }
    } else if e.Closed? {
      CloseTimers(race, m);
    } else {
      CommandsSpareTimers(race, m, e);
    }
  }

  lemma CommandsSpareTimers(race: Race, m: State, e: Event)
    requires !e.Joined? && !e.Left? && !e.Fired? && !e.Died? && !e.Removed? && !e.Closed?
    ensures TimersFollow(race, m, e, Step(race, m, e))
  {
    NothingFollows(race, m, e, Step(race, m, e));
  }

  /** So the death of a slot stops its bridge's timer, as a close stops every timer; a callback survives
      exactly if its stop came too late. */
  lemma DeathDisarms(race: Race, m: State, i: nat, c: Channel)
    requires Good(m) && c in m.pool.bridges && m.pool.bridges[c].slot == i
    requires c in m.timers && m.timers[c] in m.armed
    ensures var died, closed := Step(race, m, Died(i)), Step(race, m, Closed);
            && c !in died.timers && (m.timers[c] in died.armed <==> !race(m.timers[c]))
            && c !in closed.timers && (m.timers[c] in closed.armed <==> !race(m.timers[c]))
  {
    TimersExactly(race, m, Died(i));
    TimersExactly(race, m, Closed);
    assert StopsTimer(m, Died(i), c) && StopsTimer(m, Closed, c);
  }

  // ------------------------------------------------------------------- slots

  lemma StartSlots(p: Pool, c: Channel, room: RoomId)
    requires IsChannel(c)
    ensures var q := SlotPool.StartBridge(p, c, room);
            |q.slots| == |p.slots| && forall j: nat :: IsDead(q, j) <==> IsDead(p, j)
  {
    StartOutcome(p, c, room);
  }

  lemma StopAllSlots(p: Pool, cs: set<Channel>)
    ensures var q := StopAll(p, cs); |q.slots| == |p.slots| && forall j: nat :: IsDead(q, j) <==> IsDead(p, j)
  {
  }

  lemma DeathSlots(race: Race, m: State, i: nat)
    requires Good(m)
    ensures var q := SlotDeath(race, m, i).pool;
            |q.slots| == |m.pool.slots|
            && forall j: nat :: IsDead(q, j) <==> IsDead(m.pool, j) || (j == i && i < |m.pool.slots|)
  {
    DeathTouchesOneSlot(m.pool, i, Victim(m.pool, i));
  }

  /** What an event must do to the slots: a death or removal kills its own, an added bot makes a free one. */
  ghost predicate SlotsFollow(m: State, e: Event, q: Pool) {
    && |q.slots| == |m.pool.slots| + (if e.Added? then 1 else 0)
    && (e.Added? ==> q.slots == m.pool.slots + [0])
    && forall j: nat :: j < |m.pool.slots| ==>
         (q.slots[j] == 0xFFFF_FFFF_FFFF_FFFF <==>
            m.pool.slots[j] == 0xFFFF_FFFF_FFFF_FFFF || e == Died(j) || e == Removed(j))
  }

  lemma SameDeadFollows(m: State, e: Event, q: Pool)
    requires |q.slots| == |m.pool.slots| && !e.Added? && !e.Died? && !e.Removed?
    requires forall j: nat :: IsDead(q, j) <==> IsDead(m.pool, j)
    ensures SlotsFollow(m, e, q)
  {
    assert forall j: nat :: j < |q.slots| ==> (IsDead(q, j) <==> q.slots[j] == 0xFFFF_FFFF_FFFF_FFFF);
  }

  lemma JoinSlots(race: Race, m: State, room: RoomId, user: Mxid, name: string)
    requires forall r :: r in m.channels ==> IsChannel(m.channels[r])
    ensures SlotsFollow(m, Joined(room, user, name), Join(race, m, room, user, name).pool)
  {
    if Counts(m, user, room) {
      var c := m.channels[room];
      StopAllSlots(m.pool, Elsewhere(m, user, c));
      StartSlots(StopAll(m.pool, Elsewhere(m, user, c)), c, RoomOf(m, c));
    }
    SameDeadFollows(m, Joined(room, user, name), Join(race, m, room, user, name).pool);
  }

  lemma DeathSlotsFollow(race: Race, m: State, e: Event, i: nat)
    requires Good(m) && (e == Died(i) || e == Removed(i))
    ensures SlotsFollow(m, e, SlotDeath(race, m, i).pool)
  {
    var q := SlotDeath(race, m, i).pool;
    DeathSlots(race, m, i);
    forall j: nat | j < |m.pool.slots|
      ensures q.slots[j] == 0xFFFF_FFFF_FFFF_FFFF <==>
                m.pool.slots[j] == 0xFFFF_FFFF_FFFF_FFFF || e == Died(j) || e == Removed(j)
    {
      assert IsDead(q, j) <==> IsDead(m.pool, j) || j == i;
    }
  }

  lemma OtherSlots(race: Race, m: State, e: Event)
    requires !e.Joined? && !e.Died? && !e.Removed?
    ensures SlotsFollow(m, e, Step(race, m, e).pool)
  {
    if e.ManuallyJoined? && IsChannel(e.channel) {
      StartSlots(m.pool, e.channel, RoomOf(m, e.channel));
    } else if e.Left? {
      LeaveSparesThePool(race, m, e.room, e.user);
    } else if e.ManuallyLeftAll? || e.Closed? {
      StopAllSlots(m.pool, m.pool.bridges.Keys);
    }
    if !e.Added? {
      SameDeadFollows(m, e, Step(race, m, e).pool);
    }
  }

  /** Every event does to the slots exactly what SlotsFollow says. */
  lemma SlotsExactly(race: Race, m: State, e: Event)
    requires Good(m)
    ensures SlotsFollow(m, e, Step(race, m, e).pool)
  {
    if e.Joined? {
      JoinSlots(race, m, e.room, e.user, e.name);
    } else if e.Died? {
      DeathSlotsFollow(race, m, e, e.slot);
    } else if e.Removed? {
      if 0 <= e.index < |m.pool.slots| {
        DeathSlotsFollow(race, m, e, e.index);
      }
    } else {
      OtherSlots(race, m, e);
    }
  }

  // ----------------------------------------------------------------- bridges

  /** A manual join of an inactive channel with a room succeeds exactly when there are fewer bridges than
      live slots; it takes the lowest free slot, and nothing else moves. */
  lemma ManualJoinExactly(race: Race, m: State, c: Channel)
    requires Good(m) && 0 < c < 0xFFFF_FFFF_FFFF_FFFF && c !in m.pool.bridges
    ensures var p, t := m.pool, Step(race, m, ManuallyJoined(c));
            && t == m.(pool := t.pool)
            && (c in t.pool.bridges <==> RoomOf(m, c) != "" && |p.bridges| < |p.slots| - Count(p.slots, KDead))
            && (c !in t.pool.bridges ==> t.pool == p)
            && (c in t.pool.bridges ==>
                  var i := t.pool.bridges[c].slot;
                  && i < |p.slots| && p.slots[i] == 0 && (forall j :: 0 <= j < i ==> p.slots[j] != 0)
                  && t.pool == Pool(p.slots[i := c], p.bridges[c := Bridge(c, RoomOf(m, c), i, true)]))
  {
    if RoomOf(m, c) == "" {
      StartWithoutRoomRestores(m.pool, c, "");
    } else {
      StartSucceedsExactly(m.pool, c, RoomOf(m, c));
    }
  }

  /** The pool a join starts its bridge in: the user's other channels are stopped. */
  ghost function AfterSwitch(m: State, room: RoomId, user: Mxid): Pool
    requires room in m.channels
  {
    StopAll(m.pool, Elsewhere(m, user, m.channels[room]))
  }

  /** The events that bring up a bridge for c. */
  ghost predicate BringsUp(m: State, e: Event, c: Channel) {
    match e
    case Joined(room, user, _) =>
      && Counts(m, user, room) && m.channels[room] == c && user !in UsersIn(m, c) && RoomOf(m, c) != ""
      && var rest := AfterSwitch(m, room, user); |rest.bridges| < |rest.slots| - Count(rest.slots, KDead)
    case ManuallyJoined(d) =>
      d == c && IsChannel(c) && RoomOf(m, c) != "" && |m.pool.bridges| < |m.pool.slots| - Count(m.pool.slots, KDead)
    case _ => false
  }

  lemma JoinBringsUp(race: Race, m: State, room: RoomId, user: Mxid, name: string, c: Channel)
    requires Good(m) && c !in m.pool.bridges
    ensures c in Join(race, m, room, user, name).pool.bridges <==> BringsUp(m, Joined(room, user, name), c)
  {
    if Counts(m, user, room) {
      var d := m.channels[room];
      if d == c && user !in UsersIn(m, c) {
        JoinBridgesExactly(race, m, room, user, name);
      } else {
        StartSparesOthers(AfterSwitch(m, room, user), d, RoomOf(m, d), c);
      }
    }
  }

  lemma ManualJoinBringsUp(race: Race, m: State, d: Channel, c: Channel)
    requires Good(m) && c !in m.pool.bridges
    ensures c in Step(race, m, ManuallyJoined(d)).pool.bridges <==> BringsUp(m, ManuallyJoined(d), c)
  {
    if IsChannel(d) && d == c {
      ManualJoinExactly(race, m, c);
    } else if IsChannel(d) {
      StartSparesOthers(m.pool, d, RoomOf(m, d), c);
    }
  }

  lemma NothingElseBringsUp(race: Race, m: State, e: Event, c: Channel)
    requires c !in m.pool.bridges && !e.Joined? && !e.ManuallyJoined?
    ensures c !in Step(race, m, e).pool.bridges
  {
    if e.Left? {
      LeaveSparesThePool(race, m, e.room, e.user);
    }
  }

  /** Together with BridgeOutlivesExactly: which channels are bridged after any event. */
  lemma BridgeComesUpExactly(race: Race, m: State, e: Event, c: Channel)
    requires Good(m) && c !in m.pool.bridges
    ensures c in Step(race, m, e).pool.bridges <==> BringsUp(m, e, c)
  {
    if e.Joined? {
      JoinBringsUp(race, m, e.room, e.user, e.name, c);
    } else if e.ManuallyJoined? {
      ManualJoinBringsUp(race, m, e.channel, c);
    } else {
      NothingElseBringsUp(race, m, e, c);
    }
  }

  // ------------------------------------------------------------------- rooms

  lemma OnlyDiscoveriesChangeRooms(race: Race, m: State, e: Event)
    requires !e.RoomLearned?
    ensures Step(race, m, e).rooms == m.rooms && Step(race, m, e).channels == m.channels
  {
    if e.Joined? {
      JoinKeepsChannels(race, m, e.room, e.user, e.name);
    }
  }

  /** Only a discovery changes the room maps, one entry in each, and it changes nothing else. */
  lemma RoomsExactly(race: Race, m: State, e: Event)
    ensures var t := Step(race, m, e);
            if e.RoomLearned? && 0 < e.channel < 0xFFFF_FFFF_FFFF_FFFF then
              && t == m.(rooms := t.rooms, channels := t.channels)
              && e.channel in t.rooms && t.rooms[e.channel] == e.room
              && e.room in t.channels && t.channels[e.room] == e.channel
              && t.rooms - {e.channel} == m.rooms - {e.channel} && t.channels - {e.room} == m.channels - {e.room}
            else t.rooms == m.rooms && t.channels == m.channels
  {
    if !e.RoomLearned? {
      OnlyDiscoveriesChangeRooms(race, m, e);
    }
  }
}
