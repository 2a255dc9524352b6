/** The bridge manager as the object it is: every handler updates the fields in place. */
module Manager {
  import opened Wrappers
  import opened Bytes
  import opened Ids
  import opened SlotPool
  import BM = BridgeManager

  // ------------------------------------------------ one more turn of each loop

  lemma DisarmTwice(race: BM.Race, timers: map<Channel, BM.TimerId>, armed: map<BM.TimerId, Channel>,
                    cs: set<Channel>, more: set<Channel>)
    ensures BM.Disarm(race, timers - cs, BM.Disarm(race, timers, armed, cs), more)
            == BM.Disarm(race, timers, armed, cs + more)
  {
  }

  lemma CancelTwice(race: BM.Race, m: BM.State, cs: set<Channel>, more: set<Channel>)
    ensures BM.Cancel(race, BM.Cancel(race, m, cs), more) == BM.Cancel(race, m, cs + more)
  {
    DisarmTwice(race, m.timers, m.armed, cs, more);
    assert m.timers - cs - more == m.timers - (cs + more);
  }

  lemma CancelNone(race: BM.Race, m: BM.State, cs: set<Channel>)
    requires cs !! m.timers.Keys
    ensures BM.Cancel(race, m, cs) == m
  {
  }

  /** What becomes of a channel whose users are now `left`. */
  function Without(users: map<Channel, map<BM.Mxid, string>>, c: Channel, left: map<BM.Mxid, string>)
    : map<Channel, map<BM.Mxid, string>>
  {
    if left == map[] then users - {c} else users[c := left]
  }

  lemma TakeOutOneMore(users: map<Channel, map<BM.Mxid, string>>, user: BM.Mxid, cs: set<Channel>, c: Channel)
    requires c in users && c !in cs
    ensures Without(BM.TakeOut(users, user, cs), c, users[c] - {user}) == BM.TakeOut(users, user, cs + {c})
  {
  }

  lemma TakeOutNone(users: map<Channel, map<BM.Mxid, string>>, user: BM.Mxid)
    ensures BM.TakeOut(users, user, {}) == users
  {
  }

  lemma OneMoreChannel(race: BM.Race, m: BM.State, user: BM.Mxid, cs: set<Channel>, d: Channel)
    requires d in m.users && d !in cs
    ensures m.timers - cs - {d} == m.timers - (cs + {d})
    ensures BM.Disarm(race, m.timers - cs, BM.Disarm(race, m.timers, m.armed, cs), {d})
            == BM.Disarm(race, m.timers, m.armed, cs + {d})
    ensures Without(BM.TakeOut(m.users, user, cs), d, m.users[d] - {user}) == BM.TakeOut(m.users, user, cs + {d})
  {
    TakeOutOneMore(m.users, user, cs, d);
    DisarmTwice(race, m.timers, m.armed, cs, {d});
  }

  /** In a coherent pool the search has one answer, so the model's choice is the code's. */
  lemma OneVictim(p: Pool, i: nat)
    requires Coherent(p)
    ensures forall v :: IsVictim(p, i, v) ==> v == BM.Victim(p, i)
  {
  }

  class Manager {
    const race: BM.Race
    var slots: seq<uint64>
    var activeBridges: map<Channel, Bridge>
    var channelRooms: map<Channel, RoomId>
    var roomChannels: map<RoomId, Channel>
    var matrixUsers: map<Channel, map<BM.Mxid, string>>
    var stopTimers: map<Channel, BM.TimerId>
    /** The runtime's side of the timers: callbacks still to come, and how many timers were created. */
    var callbacks: map<BM.TimerId, Channel>
    var created: nat

    ghost function View(): BM.State
      reads this
    {
      BM.State(Pool(slots, activeBridges), channelRooms, roomChannels, matrixUsers, stopTimers, callbacks, created)
    }

    constructor (race: BM.Race, slotCount: nat)
      ensures this.race == race
      ensures View() == BM.State(Pool(seq(slotCount, _ => FREE), map[]), map[], map[], map[], map[], map[], 0)
      ensures BM.Good(View())
    {
      this.race := race;
      slots, activeBridges := seq(slotCount, _ => FREE), map[];
      channelRooms, roomChannels, matrixUsers := map[], map[], map[];
      stopTimers, callbacks, created := map[], map[], 0;
    }

    // ---------------------------------------------------------- the slot pool

    /** The first section of startBridge. */
    method ClaimSlot(c: Channel) returns (start: Option<Start>)
      modifies `slots, `activeBridges
      ensures (View().pool, start) == Claim(old(View().pool), c, BM.RoomOf(old(View()), c))
    {
      if c in activeBridges {
        return None;
      }
      var i := 0;
      while i < |slots| && slots[i] != FREE
        invariant 0 <= i <= |slots|
        invariant LowestFree(slots, 0) == LowestFree(slots, i)
      {
        i := i + 1;
      }
      if i == |slots| {
        return None;
      }
      slots := slots[i := c];
      var room := if c in channelRooms then channelRooms[c] else "";
      if room == "" {
        slots := slots[i := FREE];
        return None;
      }
      activeBridges := activeBridges[c := Bridge(c, "", i, false)];
      start := Some(Start(c, room, i));
    }

    /** The last section of startBridge. */
    method PublishBridge(s: Start)
      modifies `activeBridges
      ensures View().pool == Publish(old(View().pool), s)
    {
      activeBridges := activeBridges[s.channel := Bridge(s.channel, s.room, s.slot, true)];
    }

    method StartBridge(c: Channel)
      modifies `slots, `activeBridges
      ensures View().pool == SlotPool.StartBridge(old(View().pool), c, BM.RoomOf(old(View()), c))
    {
      var start := ClaimSlot(c);
      if start.Some? {
        PublishBridge(start.value);
      }
    }

    method StopBridgeForChannel(c: Channel)
      modifies `slots, `activeBridges
      ensures View().pool == Stop(old(View().pool), c)
    {
      if c !in activeBridges {
        return;
      }
      var bridge := activeBridges[c];
      activeBridges := activeBridges - {c};
      if bridge.slot < |slots| {
        if slots[bridge.slot] != DEAD {
          slots := slots[bridge.slot := FREE];
        }
      }
    }

    method StopChannels(channels: set<Channel>)
      modifies `slots, `activeBridges
      ensures View().pool == StopAll(old(View().pool), channels)
    {
      var todo := channels;
      StopAllNone(View().pool);
      while todo != {}
        invariant todo <= channels
        invariant View().pool == StopAll(old(View().pool), channels - todo)
        decreases |todo|
      {
        var c :| c in todo;
        StopAllOneMore(old(View().pool), channels - todo, c);
        StopBridgeForChannel(c);
        assert channels - todo + {c} == channels - (todo - {c});
        todo := todo - {c};
      }
      assert channels - {} == channels;
    }

    /** The search over activeBridges, in the map's own order. */
    method BridgeForSlot(i: nat) returns (v: Option<Channel>)
      ensures IsVictim(View().pool, i, v)
    {
      var todo := activeBridges.Keys;
      while todo != {}
        invariant todo <= activeBridges.Keys
        invariant forall c :: c in activeBridges && activeBridges[c].slot == i ==> c in todo
        decreases |todo|
      {
        var c :| c in todo;
        if activeBridges[c].slot == i {
          return Some(c);
        }
        todo := todo - {c};
      }
      v := None;
    }

    method HandleSlotDeath(i: nat)
      modifies this
      ensures exists v :: IsVictim(old(View().pool), i, v) && View() == BM.SlotDeathOf(race, old(View()), i, v)
    {
      if i < |slots| && slots[i] == DEAD {
        assert IsVictim(View().pool, i, BM.Victim(View().pool, i));
        return;
      }
      ghost var m := View();
      var channelToStop := BridgeForSlot(i);
      CancelNone(race, View(), {});
      if channelToStop.Some? {
        CancelTimer(channelToStop.value);
      }
      if i < |slots| {
        slots := slots[i := DEAD];
      }
      if channelToStop.Some? {
        StopBridgeForChannel(channelToStop.value);
      }
      assert View() == BM.SlotDeathOf(race, m, i, channelToStop);
    }

    method RemoveBot(i: int) returns (ok: bool)
      modifies this
      ensures ok <==> 0 <= i < |old(slots)| && old(slots)[i] != DEAD
      ensures if ok then
                exists v :: IsVictim(old(View().pool), i, v) && View() == BM.SlotDeathOf(race, old(View()), i, v)
              else View() == old(View())
    {
      if i < 0 || i >= |slots| {
        return false;
      }
      if slots[i] == DEAD {
        return false;
      }
      HandleSlotDeath(i);
      ok := true;
    }

    /** The index is read before the sidecar is started, and the slot appended once it is. */
    method AddBot(started: bool) returns (slot: Option<nat>)
      modifies `slots
      ensures started ==> slot == Some(|old(slots)|) && View() == BM.Step(race, old(View()), BM.Added)
      ensures !started ==> slot == None && View() == old(View())
    {
      var slotIdx := |slots|;
      if !started {
        return None;
      }
      slots := slots + [FREE];
      slot := Some(slotIdx);
    }

    /** busySlots counts the slots that are neither free nor dead. */
    method Stats() returns (bridges: nat, busySlots: nat, totalSlots: nat)
      ensures bridges == |activeBridges| && totalSlots == |slots| && busySlots == Count(slots, KBusy)
      ensures Settled(View().pool) ==> busySlots == bridges
    {
      bridges, busySlots, totalSlots := |activeBridges|, 0, |slots|;
      var i := 0;
      assert slots[..0] == [];
      while i < |slots|
        invariant 0 <= i <= |slots| && busySlots == Count(slots[..i], KBusy)
      {
        assert slots[..i + 1][..i] == slots[..i];
        if slots[i] != FREE && slots[i] != DEAD {
          busySlots := busySlots + 1;
        }
        i := i + 1;
      }
      assert slots[..i] == slots;
      if Settled(View().pool) {
        BusySlotsAreBridges(View().pool);
      }
    }

    // ----------------------------------------------------------------- timers

    method CancelTimer(c: Channel)
      modifies `stopTimers, `callbacks
      ensures View() == BM.Cancel(race, old(View()), {c})
    {
      if c in stopTimers {
        var t := stopTimers[c];
        assert c in {c};
        if race(t) {
          callbacks := callbacks - {t};
        }
        assert callbacks == BM.Disarm(race, stopTimers, old(callbacks), {c});
        stopTimers := stopTimers - {c};
      } else {
        CancelNone(race, View(), {c});
      }
    }

    /** The debounce callback of timer t. */
    method FireTimer(t: BM.TimerId)
      modifies this
      ensures View() == BM.TimerFires(old(View()), t)
    {
      if t !in callbacks {
        return;
      }
      var c := callbacks[t];
      callbacks := callbacks - {t};
      var stillEmpty := c !in matrixUsers;
      stopTimers := stopTimers - {c};
      if stillEmpty {
        StopBridgeForChannel(c);
      }
    }

    // -------------------------------------------------------- call membership

    method OnMatrixCallMember(room: RoomId, user: BM.Mxid, joined: bool, displayName: string)
      modifies this
      ensures View() == if joined then BM.Join(race, old(View()), room, user, displayName)
                        else BM.Leave(race, old(View()), room, user)
    {
      if "@discord_" <= user {
        return;
      }
      if room !in roomChannels {
        return;
      }
      if joined {
        OnJoin(roomChannels[room], user, displayName);
      } else {
        OnLeave(roomChannels[room], user);
      }
    }

    method OnJoin(c: Channel, user: BM.Mxid, displayName: string)
      modifies this
      ensures var m := old(View());
              var others := BM.Elsewhere(m, user, c);
              var moved := BM.Cancel(race, m, others + {c})
                           .(users := BM.TakeOut(m.users, user, others), pool := StopAll(m.pool, others));
              View() == if user in BM.UsersIn(m, c) then moved
                        else moved.(users := moved.users[c := BM.UsersIn(m, c)[user := displayName]],
                                    pool := SlotPool.StartBridge(moved.pool, c, BM.RoomOf(m, c)))
    {
      ghost var m := View();
      CancelTimer(c);
      var channelsToStop := LeaveOthers(c, user);
      CancelTwice(race, m, {c}, channelsToStop);
      assert {c} + channelsToStop == channelsToStop + {c};
      StopChannels(channelsToStop);
      var alreadyTracked := c in matrixUsers && user in matrixUsers[c];
      if !alreadyTracked {
        var users := if c in matrixUsers then matrixUsers[c] else map[];
        matrixUsers := matrixUsers[c := users[user := displayName]];
        StartBridge(c);
      }
    }

    /** The user has been taken out of the channels `cs` so far, and their timers cancelled. */
    ghost predicate LeftSoFar(m: BM.State, user: BM.Mxid, cs: set<Channel>)
      reads this
    {
      && matrixUsers == BM.TakeOut(m.users, user, cs)
      && stopTimers == m.timers - cs
      && callbacks == BM.Disarm(race, m.timers, m.armed, cs)
    }

    /** The loop of a join that takes the user out of every other channel. */
    method LeaveOthers(c: Channel, user: BM.Mxid) returns (channelsToStop: set<Channel>)
      modifies `matrixUsers, `stopTimers, `callbacks
      ensures channelsToStop == BM.Elsewhere(old(View()), user, c)
      ensures LeftSoFar(old(View()), user, channelsToStop)
    {
      ghost var m := View();
      channelsToStop := {};
      var todo := matrixUsers.Keys;
      LeftNone(user);
      while todo != {}
        invariant todo <= m.users.Keys && todo !! channelsToStop
        invariant BM.Elsewhere(m, user, c) - todo == channelsToStop <= BM.Elsewhere(m, user, c)
        invariant LeftSoFar(m, user, channelsToStop)
        decreases |todo|
      {
        var d :| d in todo;
        todo := todo - {d};
        var stop := LeaveOne(c, user, d, m, channelsToStop);
        if stop {
          channelsToStop := channelsToStop + {d};
        }
      }
    }

    lemma LeftNone(user: BM.Mxid)
      ensures LeftSoFar(View(), user, {})
    {
    }

    method LeaveOne(c: Channel, user: BM.Mxid, d: Channel, ghost m: BM.State, ghost cs: set<Channel>)
      returns (stop: bool)
      requires d in m.users && d !in cs && LeftSoFar(m, user, cs)
      modifies `matrixUsers, `stopTimers, `callbacks
      ensures stop <==> d in BM.Elsewhere(m, user, c)
      ensures LeftSoFar(m, user, if stop then cs + {d} else cs)
    {
      assert d in matrixUsers && matrixUsers[d] == m.users[d];
      stop := d != c && user in matrixUsers[d];
      if stop {
        OneMoreChannel(race, m, user, cs, d);
        var users := matrixUsers[d] - {user};
        matrixUsers := if users == map[] then matrixUsers - {d} else matrixUsers[d := users];
        CancelTimer(d);
      }
    }

    method OnLeave(c: Channel, user: BM.Mxid)
      modifies this
      ensures var m := old(View());
              var left := m.(users := BM.TakeOut(m.users, user, {c}));
              var quiet := BM.Cancel(race, left, {c});
              View() == if c in left.users then left
                        else quiet.(timers := quiet.timers[c := m.born], armed := quiet.armed[m.born := c],
                                    born := m.born + 1)
    {
      TakeOutNone(matrixUsers, user);
      if c in matrixUsers {
        TakeOutOneMore(matrixUsers, user, {}, c);
        var users := matrixUsers[c] - {user};
        matrixUsers := if users == map[] then matrixUsers - {c} else matrixUsers[c := users];
      }
      assert {} + {c} == {c};
      assert matrixUsers == BM.TakeOut(old(matrixUsers), user, {c});
      var noUsers := c !in matrixUsers;
      if noUsers {
        CancelTimer(c);
        stopTimers := stopTimers[c := created];
        callbacks := callbacks[created := c];
        created := created + 1;
      }
    }

    // ------------------------------------------------------------ everything else

    /** LEAVE_CHANNEL from the sidecar of slot i. */
    method OnSidecarLeave(i: nat)
      modifies `slots, `activeBridges
      ensures exists v :: IsVictim(old(View().pool), i, v) && View() == BM.SidecarLeaveOf(old(View()), v)
    {
      ghost var m := View();
      var bridge := BridgeForSlot(i);
      if bridge.Some? {
        StopBridgeForChannel(bridge.value);
      }
      assert View() == BM.SidecarLeaveOf(m, bridge);
    }

    method ManualLeaveAll()
      modifies `slots, `activeBridges
      ensures View() == BM.Step(race, old(View()), BM.ManuallyLeftAll)
    {
      StopChannels(activeBridges.Keys);
    }

    method CancelAll()
      modifies `stopTimers, `callbacks
      ensures View() == BM.Cancel(race, old(View()), old(stopTimers).Keys)
    {
      ghost var m := View();
      var todo := stopTimers.Keys;
      CancelNone(race, m, {});
      while todo != {}
        invariant todo <= m.timers.Keys
        invariant View() == BM.Cancel(race, m, m.timers.Keys - todo)
        decreases |todo|
      {
        var c :| c in todo;
        CancelTwice(race, m, m.timers.Keys - todo, {c});
        CancelTimer(c);
        assert m.timers.Keys - todo + {c} == m.timers.Keys - (todo - {c});
        todo := todo - {c};
      }
      assert m.timers.Keys - {} == m.timers.Keys;
    }

    method Close()
      modifies this
      ensures View() == BM.Close(race, old(View()))
    {
      CancelAll();
      StopChannels(activeBridges.Keys);
    }

    /** Commands and room discoveries. */
    method HandleCommand(e: BM.Event)
      requires e.Added? || e.ManuallyJoined? || e.ManuallyLeft? || e.ManuallyLeftAll? || e.RoomLearned?
      modifies this
      ensures View() == BM.Step(race, old(View()), e)
    {
      match e {
        case Added => var slot := AddBot(true);
        case ManuallyJoined(c) => if IsChannel(c) { StartBridge(c); }
        case ManuallyLeft(c) => StopBridgeForChannel(c);
        case ManuallyLeftAll => ManualLeaveAll();
        case RoomLearned(c, room) =>
          if IsChannel(c) {
            channelRooms, roomChannels := channelRooms[c := room], roomChannels[room := c];
          }
      }
    }

    /** Every handler, run through, is the model's step and keeps the model's invariant. */
    method Handle(e: BM.Event)
      requires BM.Good(View())
      modifies this
      ensures View() == BM.Step(race, old(View()), e) && BM.Good(View())
    {
      ghost var m := View();
      match e {
        case Joined(room, user, name) => OnMatrixCallMember(room, user, true, name);
        case Left(room, user) => OnMatrixCallMember(room, user, false, "");
        case Fired(t) => FireTimer(t);
        case LeftBySidecar(i) =>
          OneVictim(m.pool, i);
          OnSidecarLeave(i);
        case Died(i) =>
          OneVictim(m.pool, i);
          HandleSlotDeath(i);
        case Removed(i) =>
          if i >= 0 {
            OneVictim(m.pool, i);
          }
          var ok := RemoveBot(i);
        case Closed => Close();
        case _ => HandleCommand(e);
      }
      BM.StepKeepsGood(race, m, e);
    }
  }
}
