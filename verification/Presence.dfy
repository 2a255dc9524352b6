/** Discord presence mirrored into Matrix: voice states, call-member events and their renewal. */
module Presence {
  import opened Ids

  /** Milliseconds. */
  type Time = int

  const EXPIRY: Time := 14400000
  const RENEWAL: Time := 10800000

  /** The signaller: `active` is its own record, `events` are the non-empty call-member events on the
      server, each with its expiry time; `renewed` is when the last renewal ran. */
  datatype Calls = Calls(active: map<User, RoomId>, events: map<(RoomId, User), Time>, now: Time, renewed: Time)

  datatype State = State(voice: map<User, Channel>, calls: Calls)

  function RoomOf(rooms: map<Channel, RoomId>, c: Channel): RoomId {
    if c in rooms then rooms[c] else ""
  }

  /** A join whose send fails has no effect. */
  function JoinCall(s: Calls, u: User, room: RoomId, sent: bool): Calls {
    if !sent then s else s.(events := s.events[(room, u) := s.now + EXPIRY], active := s.active[u := room])
  }

  function LeaveCall(s: Calls, u: User, sent: bool): Calls {
    if u !in s.active then s
    else s.(active := s.active - {u}, events := if sent then s.events - {(s.active[u], u)} else s.events)
  }

  function OnVoiceState(rooms: map<Channel, RoomId>, s: State, u: User, c: Channel, left: bool, joined: bool): State {
    var was := if u in s.voice then s.voice[u] else 0;
    var out := if was != 0 && was != c then LeaveCall(s.calls, u, left) else s.calls;
    State(if c == 0 then s.voice - {u} else s.voice[u := c],
          if c != 0 && RoomOf(rooms, c) != "" then JoinCall(out, u, RoomOf(rooms, c), joined) else out)
  }

  ghost function Pairs(active: map<User, RoomId>, users: set<User>): set<(RoomId, User)> {
    set u | u in users && u in active :: (active[u], u)
  }

  /** The events of some active users, all with the same expiry. */
  ghost function Written(active: map<User, RoomId>, users: set<User>, expiry: Time): map<(RoomId, User), Time> {
    map k | k in Pairs(active, users) :: expiry
  }

  ghost function Reached(users: set<User>, sent: User -> bool): set<User> {
    set u | u in users && sent(u)
  }

  /** One renewal: the event of every active user is written again, unless the send fails. */
  ghost function Renew(s: Calls, sent: User -> bool): Calls {
    s.(renewed := s.now, events := s.events + Written(s.active, Reached(s.active.Keys, sent), s.now + EXPIRY))
  }

  /** Leaving for everyone: each record goes, and each event whose send succeeds. */
  ghost function LeaveAll(s: Calls, sent: User -> bool): Calls {
    s.(active := map[], events := s.events - Pairs(s.active, Reached(s.active.Keys, sent)))
  }

  // ---------------------------------------------------------------- agreement

  /** Each user has at most one non-empty event; it is in the room the signaller has on file, which is the
      room of the channel the user is in. */
  ghost predicate Agreement(rooms: map<Channel, RoomId>, s: State) {
    && (forall r, u :: (r, u) in s.calls.events ==> u in s.calls.active && s.calls.active[u] == r)
    && (forall u :: u in s.calls.active ==>
          && (s.calls.active[u], u) in s.calls.events && s.calls.active[u] != ""
          && u in s.voice && RoomOf(rooms, s.voice[u]) == s.calls.active[u])
    && (forall u :: u in s.voice ==> s.voice[u] != 0)
  }

  /** The user's event has to come down, and the send that would do it fails. */
  predicate LeaveFails(s: State, u: User, c: Channel, left: bool) {
    !left && u in s.calls.active && u in s.voice && s.voice[u] != c
  }

  lemma VoiceStateKeepsAgreement(rooms: map<Channel, RoomId>, s: State, u: User, c: Channel, left: bool, joined: bool)
    requires Agreement(rooms, s) && !LeaveFails(s, u, c, left)
    ensures Agreement(rooms, OnVoiceState(rooms, s, u, c, left, joined))
  {
  }

  /** A voice state keeps the agreement exactly unless it needed to take an event down, that send failed,
      and the new channel did not happen to put an event in the same room. */
  lemma VoiceStateKeepsAgreementExactly(rooms: map<Channel, RoomId>, s: State, u: User, c: Channel,
                                        left: bool, joined: bool)
    requires Agreement(rooms, s)
    ensures Agreement(rooms, OnVoiceState(rooms, s, u, c, left, joined)) <==>
              !LeaveFails(s, u, c, left) || (c != 0 && joined && RoomOf(rooms, c) == s.calls.active[u])
  {
    if LeaveFails(s, u, c, left) {
      var t := OnVoiceState(rooms, s, u, c, left, joined);
      assert (s.calls.active[u], u) in t.calls.events;
    } else {
      VoiceStateKeepsAgreement(rooms, s, u, c, left, joined);
    }
  }

  /** Where a user ends up: nowhere without a room, in the new room after a successful join, and otherwise
      out of the old one. Other users do not notice. */
  lemma VoiceStateMovesTheUser(rooms: map<Channel, RoomId>, s: State, u: User, c: Channel, joined: bool)
    requires Agreement(rooms, s)
    ensures var t, room := OnVoiceState(rooms, s, u, c, true, joined), RoomOf(rooms, c);
            && (c == 0 || room == "" ==> u !in t.calls.active)
            && (c != 0 && room != "" && joined ==> u in t.calls.active && t.calls.active[u] == room
                                                   && t.calls.events[(room, u)] == s.calls.now + 14400000)
            && (c != 0 && !joined && (u !in s.voice || s.voice[u] != c) ==> u !in t.calls.active)
            && (forall v :: v != u ==>
                  (v in t.calls.active <==> v in s.calls.active)
                  && (v in s.calls.active ==> t.calls.active[v] == s.calls.active[v]))
            && (forall r, v :: v != u ==> ((r, v) in t.calls.events <==> (r, v) in s.calls.events))
  {
    if u in s.voice && s.voice[u] == c && u in s.calls.active {
      assert RoomOf(rooms, c) == s.calls.active[u];
    }
  }

  /** Everything a voice state does, whichever sends fail: the user's record and events, and nobody else's. */
  lemma VoiceStateExactly(rooms: map<Channel, RoomId>, s: State, u: User, c: Channel, left: bool, joined: bool)
    ensures var t, room := Step(rooms, s, VoiceState(u, c, left, joined)), RoomOf(rooms, c);
            var moves := u in s.voice && s.voice[u] != 0 && s.voice[u] != c;
            var comes := c != 0 && room != "" && joined;
            && (u in t.voice <==> c != 0) && (c != 0 ==> t.voice[u] == c)
            && (u in t.calls.active <==> comes || (u in s.calls.active && !moves))
            && (u in t.calls.active ==> t.calls.active[u] == if comes then room else s.calls.active[u])
            && (forall r :: (r, u) in t.calls.events <==>
                  (comes && r == room)
                  || ((r, u) in s.calls.events && !(moves && left && u in s.calls.active && r == s.calls.active[u])))
            && (comes ==> t.calls.events[(room, u)] == s.calls.now + 14400000)
            && (forall v :: v != u ==> (v in t.voice <==> v in s.voice) && (v in s.voice ==> t.voice[v] == s.voice[v]))
            && (forall v :: v != u ==> (v in t.calls.active <==> v in s.calls.active)
                                       && (v in s.calls.active ==> t.calls.active[v] == s.calls.active[v]))
            && (forall r, v :: v != u ==> ((r, v) in t.calls.events <==> (r, v) in s.calls.events))
            && (forall k :: k in t.calls.events && !(comes && k == (room, u)) ==>
                  k in s.calls.events && t.calls.events[k] == s.calls.events[k])
            && t.calls.now == s.calls.now && t.calls.renewed == s.calls.renewed
  {
  }

  /** What a renewal does: an active user's event gets four more hours from now if its send succeeds, and stays
      as it was if it fails; no other event and no record changes. */
  lemma RenewalExactly(rooms: map<Channel, RoomId>, m: State, sent: User -> bool)
    ensures var s, t := m.calls, Step(rooms, m, Renewal(sent)).calls;
            && Step(rooms, m, Renewal(sent)).voice == m.voice
            && t.active == s.active && t.now == s.now && t.renewed == s.now
            && (forall r, u :: (r, u) in t.events <==>
                  (r, u) in s.events || (u in s.active && s.active[u] == r && sent(u)))
            && (forall r, u :: (r, u) in t.events ==>
                  t.events[(r, u)] == if u in s.active && s.active[u] == r && sent(u) then s.now + 14400000
                                      else s.events[(r, u)])
  {
    var s := m.calls;
    var w := Written(s.active, Reached(s.active.Keys, sent), s.now + EXPIRY);
    forall r, u ensures (r, u) in w <==> u in s.active && s.active[u] == r && sent(u) {
      if u in s.active && s.active[u] == r && sent(u) {
        assert u in Reached(s.active.Keys, sent);
      }
    }
  }

  // -------------------------------------------------------------------- runs

  datatype Event =
    | VoiceState(user: User, channel: Channel, left: bool, joined: bool)
    | Renewal(sent: User -> bool)
    | Wait(ms: nat)
    | Shutdown(sent: User -> bool)

  ghost function Step(rooms: map<Channel, RoomId>, s: State, e: Event): State {
    match e
    case VoiceState(u, c, left, joined) => OnVoiceState(rooms, s, u, c, left, joined)
    case Renewal(sent) => s.(calls := Renew(s.calls, sent))
    case Wait(d) => s.(calls := s.calls.(now := s.calls.now + d))
    case Shutdown(sent) => s.(calls := LeaveAll(s.calls, sent))
  }

  ghost function Run(rooms: map<Channel, RoomId>, s: State, es: seq<Event>): State
    decreases |es|
  {
    if es == [] then s else Run(rooms, Step(rooms, s, es[0]), es[1..])
  }

  /** The event needs no send that takes an event down, or those it needs succeed. */
  ghost predicate LeavesReach(s: State, e: Event) {
    match e
    case VoiceState(u, c, left, _) => !LeaveFails(s, u, c, left)
    case Shutdown(sent) => forall u :: u in s.calls.active ==> sent(u)
    case _ => true
  }

  ghost predicate LeavesSucceed(rooms: map<Channel, RoomId>, s: State, es: seq<Event>)
    decreases |es|
  {
    es == [] || (LeavesReach(s, es[0]) && LeavesSucceed(rooms, Step(rooms, s, es[0]), es[1..]))
  }

  /** Leaving for everyone forgets everyone, and leaves standing exactly the events whose send failed. */
  lemma LeaveAllLeavesTheFailed(rooms: map<Channel, RoomId>, s: State, sent: User -> bool)
    requires Agreement(rooms, s)
    ensures var t := LeaveAll(s.calls, sent);
            && t.active == map[]
            && (forall r, u :: (r, u) in t.events <==> (r, u) in s.calls.events && !sent(u))
            && (t.events == map[] <==> forall u :: u in s.calls.active ==> sent(u))
  {
    var t := LeaveAll(s.calls, sent);
    forall r, u ensures (r, u) in t.events <==> (r, u) in s.calls.events && !sent(u) {
      if (r, u) in s.calls.events {
        assert r == s.calls.active[u];
        assert (r, u) in Pairs(s.calls.active, Reached(s.calls.active.Keys, sent)) <==> sent(u);
      }
    }
    if forall u :: u in s.calls.active ==> sent(u) {
      forall k ensures k !in t.events {
        assert (k.0, k.1) == k;
      }
      assert t.events == map[];
    } else {
      var u :| u in s.calls.active && !sent(u);
      assert (s.calls.active[u], u) in t.events;
    }
  }

  lemma StepKeepsAgreement(rooms: map<Channel, RoomId>, s: State, e: Event)
    requires Agreement(rooms, s) && LeavesReach(s, e)
    ensures Agreement(rooms, Step(rooms, s, e))
    ensures e.Shutdown? ==> Step(rooms, s, e).calls.events == map[] && Step(rooms, s, e).calls.active == map[]
  {
    match e {
      case VoiceState(u, c, left, joined) => VoiceStateKeepsAgreement(rooms, s, u, c, left, joined);
      case Renewal(sent) =>
        var t := Step(rooms, s, e);
        assert t.calls.events.Keys == s.calls.events.Keys;
      case Wait(d) =>
      case Shutdown(sent) => LeaveAllLeavesTheFailed(rooms, s, sent);
    }
  }

  /** In every run, joins and renewals failing or not. */
  lemma {:induction false} RunKeepsAgreement(rooms: map<Channel, RoomId>, s: State, es: seq<Event>)
    requires Agreement(rooms, s) && LeavesSucceed(rooms, s, es)
    ensures Agreement(rooms, Run(rooms, s, es))
    decreases |es|
  {
    if es == [] {
    } else {
      StepKeepsAgreement(rooms, s, es[0]);
      RunKeepsAgreement(rooms, Step(rooms, s, es[0]), es[1..]);
    }
  }

  lemma RunTwo(rooms: map<Channel, RoomId>, s: State, a: Event, b: Event)
    ensures Run(rooms, s, [a, b]) == Step(rooms, Step(rooms, s, a), b)
  {
    assert [a, b][1..] == [b] && [b][1..] == [];
    assert Run(rooms, Step(rooms, s, a), [b]) == Run(rooms, Step(rooms, Step(rooms, s, a), b), []);
  }

  /** From the start: a move whose take-down fails leaves the user with an event in both rooms. */
  lemma FailedLeaveStaysInBothRooms(u: User, now: Time)
    ensures var rooms: map<Channel, RoomId> := map[1 := "!a", 2 := "!b"];
            var es := [VoiceState(u, 1, true, true), VoiceState(u, 2, false, true)];
            var t := Run(rooms, State(map[], Calls(map[], map[], now, now)), es);
            ("!a", u) in t.calls.events && ("!b", u) in t.calls.events && t.calls.active == map[u := "!b"]
  {
    var rooms: map<Channel, RoomId> := map[1 := "!a", 2 := "!b"];
    var s := State(map[], Calls(map[], map[], now, now));
    RunTwo(rooms, s, VoiceState(u, 1, true, true), VoiceState(u, 2, false, true));
  }

  // ---------------------------------------------------------------- freshness

  /** Every active event was written at or after the last renewal, which is at most three hours ago. */
  ghost predicate Fresh(s: State) {
    && s.calls.renewed <= s.calls.now <= s.calls.renewed + RENEWAL
    && forall u :: u in s.calls.active ==>
         (s.calls.active[u], u) in s.calls.events
         && s.calls.events[(s.calls.active[u], u)] >= s.calls.renewed + EXPIRY
  }

  function Waited(es: seq<Event>): nat {
    if es == [] then 0 else (if es[0].Wait? then es[0].ms else 0) + Waited(es[1..])
  }

  /** Time passes in waits, and only there. */
  lemma {:induction false} TimePasses(rooms: map<Channel, RoomId>, s: State, es: seq<Event>)
    ensures Run(rooms, s, es).calls.now == s.calls.now + Waited(es)
    decreases |es|
  {
    if es == [] {
    } else {
      TimePasses(rooms, Step(rooms, s, es[0]), es[1..]);
    }
  }

  /** The ticker is on time and its sends succeed. */
  ghost predicate OnTime(rooms: map<Channel, RoomId>, s: State, es: seq<Event>)
    decreases |es|
  {
    es == [] ||
    ((es[0].Wait? ==> s.calls.now + es[0].ms <= s.calls.renewed + 10800000)
     && (es[0].Renewal? ==> forall u :: u in s.calls.active ==> es[0].sent(u))
     && OnTime(rooms, Step(rooms, s, es[0]), es[1..]))
  }

  /** Then no active event ever comes within an hour of its expiry, whenever it was written. */
  lemma {:induction false} RenewalKeepsEventsAlive(rooms: map<Channel, RoomId>, s: State, es: seq<Event>)
    requires Agreement(rooms, s) && Fresh(s) && LeavesSucceed(rooms, s, es) && OnTime(rooms, s, es)
    ensures var t := Run(rooms, s, es);
            Fresh(t) && forall u :: u in t.calls.active ==>
              t.calls.events[(t.calls.active[u], u)] >= t.calls.now + 3600000
    decreases |es|
  {
    if es == [] {
    } else {
      StepKeepsAgreement(rooms, s, es[0]);
      StepKeepsFresh(rooms, s, es[0]);
      RenewalKeepsEventsAlive(rooms, Step(rooms, s, es[0]), es[1..]);
    }
  }

  lemma StepKeepsFresh(rooms: map<Channel, RoomId>, s: State, e: Event)
    requires Agreement(rooms, s) && Fresh(s) && LeavesReach(s, e) && OnTime(rooms, s, [e])
    ensures Fresh(Step(rooms, s, e))
  {
    if e.Renewal? {
      assert forall u :: u in s.calls.active ==> e.sent(u);
    }
  }

  // ------------------------------------------------------------ the Go objects

  class Signaller {
    var active: map<User, RoomId>
    /** The server's side, and the clock. */
    var events: map<(RoomId, User), Time>
    var now: Time
    var renewed: Time

    constructor (now: Time)
      ensures active == map[] && events == map[] && this.now == now && renewed == now
    {
      active, events, this.now, renewed := map[], map[], now, now;
    }

    function View(): Calls
      reads this
    {
      Calls(active, events, now, renewed)
    }

    method Join(u: User, room: RoomId, sent: bool) returns (ok: bool)
      modifies `active, `events
      ensures ok == sent
      ensures View() == JoinCall(old(View()), u, room, sent)
    {
      if !sent {
        return false;
      }
      events := events[(room, u) := now + EXPIRY];
      active := active[u := room];
      ok := true;
    }

    method Leave(u: User, sent: bool) returns (ok: bool)
      modifies `active, `events
      ensures ok <==> sent || u !in old(active)
      ensures View() == LeaveCall(old(View()), u, sent)
    {
      if u !in active {
        return true;
      }
      var room := active[u];
      active := active - {u};
      if !sent {
        return false;
      }
      events := events - {(room, u)};
      ok := true;
    }

    /** The users in `done` have left, as far as their sends succeeded. */
    ghost predicate LeftSoFar(was: Calls, sent: User -> bool, done: set<User>)
      reads this
    {
      View() == was.(active := was.active - done, events := was.events - Pairs(was.active, Reached(done, sent)))
    }

    method LeaveOne(u: User, ghost was: Calls, sent: User -> bool, ghost done: set<User>)
      requires LeftSoFar(was, sent, done) && u in was.active && u !in done
      modifies `active, `events
      ensures LeftSoFar(was, sent, done + {u})
    {
      assert Reached(done + {u}, sent) == Reached(done, sent) + if sent(u) then {u} else {};
      PairsGrow(was.active, Reached(done, sent), u);
      var ok := Leave(u, sent(u));
      assert was.active - done - {u} == was.active - (done + {u});
    }

    lemma LeftNone(sent: User -> bool)
      ensures LeftSoFar(View(), sent, {})
    {
    }

    lemma LeftAllOf(was: Calls, sent: User -> bool)
      requires LeftSoFar(was, sent, was.active.Keys)
      ensures View() == LeaveAll(was, sent)
    {
    }

    /** Leaves for every user that was active when it started, one after the other; a failure is logged
        and the loop goes on. */
    method LeaveEveryone(sent: User -> bool)
      modifies `active, `events
      ensures View() == LeaveAll(old(View()), sent)
    {
      ghost var was, done := View(), {};
      var ids := active.Keys;
      LeftNone(sent);
      while ids != {}
        invariant ids !! done && ids + done == was.active.Keys
        invariant LeftSoFar(was, sent, done)
        decreases |ids|
      {
        var u :| u in ids;
        LeaveOne(u, was, sent, done);
        ids, done := ids - {u}, done + {u};
      }
      assert done == was.active.Keys;
      LeftAllOf(was, sent);
    }

    /** The users in `seen` have been dealt with. */
    ghost predicate RenewedSoFar(had: map<(RoomId, User), Time>, sent: User -> bool, seen: set<User>)
      reads this
    {
      events == had + Written(active, Reached(seen, sent), now + EXPIRY)
    }

    method RenewOne(u: User, ghost had: map<(RoomId, User), Time>, sent: User -> bool, ghost seen: set<User>)
      requires RenewedSoFar(had, sent, seen) && u in active && u !in seen
      modifies `events
      ensures RenewedSoFar(had, sent, seen + {u})
    {
      assert Reached(seen + {u}, sent) == Reached(seen, sent) + if sent(u) then {u} else {};
      if sent(u) {
        WrittenGrows(had, active, Reached(seen, sent), u, now + EXPIRY);
        events := events[(active[u], u) := now + EXPIRY];
      }
    }

    lemma RenewedNone(sent: User -> bool)
      ensures RenewedSoFar(events, sent, {})
    {
    }

    /** The loop over the users that are active. */
    method RenewEach(sent: User -> bool)
      modifies `events
      ensures RenewedSoFar(old(events), sent, active.Keys)
    {
      ghost var had, seen := events, {};
      var ids := active.Keys;
      RenewedNone(sent);
      while ids != {}
        invariant ids !! seen && ids + seen == active.Keys
        invariant RenewedSoFar(had, sent, seen)
        decreases |ids|
      {
        var u :| u in ids;
        RenewOne(u, had, sent, seen);
        ids, seen := ids - {u}, seen + {u};
      }
      assert seen == active.Keys;
    }

    /** One tick of the renewal loop. */
    method RenewEveryone(sent: User -> bool)
      modifies `events, `renewed
      ensures View() == Renew(old(View()), sent)
    {
      RenewEach(sent);
      renewed := now;
    }
  }

  lemma PairsGrow(active: map<User, RoomId>, done: set<User>, u: User)
    requires u in active
    ensures Pairs(active, done + {u}) == Pairs(active, done) + {(active[u], u)}
  {
  }

  lemma WrittenGrows(had: map<(RoomId, User), Time>, active: map<User, RoomId>, users: set<User>, u: User, expiry: Time)
    requires u in active
    ensures had + Written(active, users + {u}, expiry)
            == (had + Written(active, users, expiry))[(active[u], u) := expiry]
  {
    PairsGrow(active, users, u);
  }

  class VoiceTracker {
    const rooms: map<Channel, RoomId>
    const signaller: Signaller
    var voiceStates: map<User, Channel>

    constructor (rooms: map<Channel, RoomId>, signaller: Signaller)
      ensures this.rooms == rooms && this.signaller == signaller && voiceStates == map[]
    {
      this.rooms, this.signaller, voiceStates := rooms, signaller, map[];
    }

    method OnVoice(u: User, c: Channel, left: bool, joined: bool)
      modifies this, signaller`active, signaller`events
      ensures State(voiceStates, signaller.View())
              == OnVoiceState(rooms, old(State(voiceStates, signaller.View())), u, c, left, joined)
    {
      var oldChannel := if u in voiceStates then voiceStates[u] else 0;
      if c == 0 {
        voiceStates := voiceStates - {u};
      } else {
        voiceStates := voiceStates[u := c];
      }
      if oldChannel != 0 && oldChannel != c {
        var ok := signaller.Leave(u, left);
      }
      if c != 0 {
        var room := if c in rooms then rooms[c] else "";
        if room != "" {
          var ok := signaller.Join(u, room, joined);
        }
      }
    }
  }
}
