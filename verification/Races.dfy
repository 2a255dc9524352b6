/** What the sections of the bridge manager can do to each other: who is left without a bridge by a late
    stop, which bridge a late stop hits, and when a debounced stop is final. */
module Races {
  import opened Wrappers
  import opened Ids
  import opened Interleavings
  import SP = SlotPool
  import BM = BridgeManager

  // ------------------------------------------------------ who is in a channel

  /** The section puts the user into c. */
  predicate PutsIn(s: System, x: Section, c: Channel, user: BM.Mxid) {
    x.Tracks? && s.sync.Tracking? && s.sync.channel == c && s.sync.user == user
  }

  ghost predicate Stays(race: BM.Race, s: System, xs: seq<Section>, c: Channel, user: BM.Mxid)
    decreases |xs|
  {
    xs == [] || (!TakesOut(s, xs[0], c, user) && Stays(race, Next(race, s, xs[0]), xs[1..], c, user))
  }

  /** The user is tracked in c somewhere in the run, and is not taken out again. */
  ghost predicate TrackedAndStays(race: BM.Race, s: System, xs: seq<Section>, c: Channel, user: BM.Mxid)
    decreases |xs|
  {
    xs != []
    && var after := Next(race, s, xs[0]);
       (PutsIn(s, xs[0], c, user) && Stays(race, after, xs[1..], c, user))
       || TrackedAndStays(race, after, xs[1..], c, user)
  }

  lemma WhoIsThere(race: BM.Race, s: System, x: Section, c: Channel, user: BM.Mxid)
    requires user in BM.UsersIn(s.m, c) ==> !BM.IsGhost(user)
    ensures user in BM.UsersIn(Next(race, s, x).m, c) <==>
              (user in BM.UsersIn(s.m, c) && !TakesOut(s, x, c, user)) || PutsIn(s, x, c, user)
  {
    match x
    case JoinBegins(d, u, _) => BM.WhoIsLeft(s.m, u, BM.Elsewhere(s.m, u, d), c, user);
    case LeaveBegins(d, u) => BM.WhoIsLeft(s.m, u, {d}, c, user);
    case _ =>
  }

  lemma {:induction false} WhoIsThereAfter(race: BM.Race, s: System, xs: seq<Section>, c: Channel, user: BM.Mxid)
    requires Kept(s)
    ensures user in BM.UsersIn(Run(race, s, xs).m, c) <==>
              (user in BM.UsersIn(s.m, c) && Stays(race, s, xs, c, user)) || TrackedAndStays(race, s, xs, c, user)
    decreases |xs|
  {
    if xs == [] {
    } else {
      WhoIsThere(race, s, xs[0], c, user);
      NextKeeps(race, s, xs[0]);
      WhoIsThereAfter(race, Next(race, s, xs[0]), xs[1..], c, user);
    }
  }

  lemma NobodyIsThere(race: BM.Race, s: System, xs: seq<Section>, c: Channel)
    requires Kept(s) && c !in s.m.users && forall user :: !TrackedAndStays(race, s, xs, c, user)
    ensures c !in Run(race, s, xs).m.users
  {
    var end := Run(race, s, xs);
    InterleavingsKeepMembership(race, s, xs);
    if c in end.m.users {
      var user :| user in end.m.users[c];
      WhoIsThereAfter(race, s, xs, c, user);
      assert false;
    }
  }

  /** A callback that is between its look and its stop, at the end of any run from a moment when its channel
      was empty: its stop leaves users without a bridge exactly when somebody was tracked in between and
      stayed, whenever that join began. */
  lemma LateStopLosesExactlyTheTracked(race: BM.Race, s: System, xs: seq<Section>, t: BM.TimerId, c: Channel)
    requires Kept(s) && c !in s.m.users
    requires t in Run(race, s, xs).looked && Run(race, s, xs).looked[t] == c
    ensures var end := Next(race, Run(race, s, xs), StopsLate(t));
            c in end.m.users && c !in end.m.pool.bridges <==> exists user :: TrackedAndStays(race, s, xs, c, user)
  {
    if user :| TrackedAndStays(race, s, xs, c, user) {
      WhoIsThereAfter(race, s, xs, c, user);
    } else {
      NobodyIsThere(race, s, xs, c);
    }
  }

  /** One slot, bridging channel 7; nothing is known of rooms, which the claims are given. */
  function Bridged(users: map<Channel, map<BM.Mxid, string>>, timers: map<Channel, BM.TimerId>,
                   armed: map<BM.TimerId, Channel>, born: nat): BM.State {
    BM.State(SP.Pool([7], map[7 := SP.Bridge(7, "!a", 0, true)]), map[], map[], users, timers, armed, born)
  }

  /** The moment before: the channel is bridged and empty, and timer 0 is about to fire for it. */
  const EMPTIED := System(Bridged(map[], map[7 := 0], map[0 := 7], 1), map[], Idle)

  lemma FirstJoinBegins(race: BM.Race)
    ensures Next(race, Fresh(1), JoinBegins(7, "@v", "V")) == Fresh(1).(sync := Switching(7, "@v", "V", {}))
  {
    assert !BM.IsGhost("@v");
    assert BM.Elsewhere(Fresh(1).m, "@v", 7) == {};
  }

  lemma FirstJoinEnds(race: BM.Race)
    ensures Run(race, Fresh(1).(sync := Switching(7, "@v", "V", {})), [Checks, Tracks, Claims("!a"), Publishes])
            == System(Bridged(map[7 := map["@v" := "V"]], map[], map[], 0), map[], Idle)
  {
    JoinEnds(race, Fresh(1).(sync := Switching(7, "@v", "V", {})), "!a");
    assert Fresh(1).m.pool.slots == [SP.FREE] && SP.LowestFree([SP.FREE], 0) == Some(0);
  }

  lemma FirstLeave(race: BM.Race)
    ensures Run(race, System(Bridged(map[7 := map["@v" := "V"]], map[], map[], 0), map[], Idle),
                [LeaveBegins(7, "@v"), Arms]) == EMPTIED
  {
    var s := System(Bridged(map[7 := map["@v" := "V"]], map[], map[], 0), map[], Idle);
    assert !BM.IsGhost("@v") && map["@v" := "V"] - {"@v"} == map[];
    var t := System(Bridged(map[], map[], map[], 0), map[], Arming(7));
    assert LeaveBegun(s, 7, "@v") == t;
    assert BM.Cancel(race, t.m, {7}) == t.m;
    RunTwo(race, s, LeaveBegins(7, "@v"), Arms);
  }

  /** A user joins and leaves again. */
  lemma EmptiedIsReached(race: BM.Race)
    ensures Run(race, Fresh(1), [JoinBegins(7, "@v", "V")] + [Checks, Tracks, Claims("!a"), Publishes]
                                + [LeaveBegins(7, "@v"), Arms]) == EMPTIED
  {
    FirstJoinBegins(race);
    FirstJoinEnds(race);
    FirstLeave(race);
    var join, ends := [JoinBegins(7, "@v", "V")], [Checks, Tracks, Claims("!a"), Publishes];
    var leave := [LeaveBegins(7, "@v"), Arms];
    RunOne(race, Fresh(1), JoinBegins(7, "@v", "V"));
    RunAppend(race, Fresh(1), join, ends);
    RunAppend(race, Fresh(1), join + ends, leave);
  }

  lemma LateJoinBegins(race: BM.Race)
    requires !race(0)
    ensures Run(race, EMPTIED, [JoinBegins(7, "@u", "U"), Looks(0)])
            == System(Bridged(map[], map[], map[], 1), map[0 := 7], Switching(7, "@u", "U", {}))
  {
    assert !BM.IsGhost("@u");
    var s1 := System(Bridged(map[], map[], map[0 := 7], 1), map[], Switching(7, "@u", "U", {}));
    assert BM.Elsewhere(EMPTIED.m, "@u", 7) == {};
    assert JoinBegun(race, EMPTIED, 7, "@u", "U") == s1;
    RunTwo(race, EMPTIED, JoinBegins(7, "@u", "U"), Looks(0));
  }

  lemma LateJoinTracks(race: BM.Race)
    ensures Run(race, System(Bridged(map[], map[], map[], 1), map[0 := 7], Switching(7, "@u", "U", {})),
                [Checks, Tracks])
            == System(Bridged(map[7 := map["@u" := "U"]], map[], map[], 1), map[0 := 7], Starting(7))
  {
    RunTwo(race, System(Bridged(map[], map[], map[], 1), map[0 := 7], Switching(7, "@u", "U", {})), Checks, Tracks);
  }

  lemma LateJoinIsStopped(race: BM.Race)
    ensures var s := System(Bridged(map[7 := map["@u" := "U"]], map[], map[], 1), map[0 := 7], Starting(7));
            var end := Run(race, s, [Claims("!a"), StopsLate(0)]);
            end.m.users == s.m.users && 7 !in end.m.pool.bridges
  {
    var s := System(Bridged(map[7 := map["@u" := "U"]], map[], map[], 1), map[0 := 7], Starting(7));
    RunTwo(race, s, Claims("!a"), StopsLate(0));
  }

  /** From there: a join begins, too late to cancel the timer; the callback looks; the join goes on and finds
      the bridge still there; and the callback stops it. */
  lemma JoinAcrossTheLookIsLost(race: BM.Race)
    requires !race(0)
    ensures var end := Run(race, EMPTIED, [JoinBegins(7, "@u", "U"), Looks(0)]
                                          + ([Checks, Tracks] + [Claims("!a"), StopsLate(0)]));
            "@u" in BM.UsersIn(end.m, 7) && 7 !in end.m.pool.bridges
  {
    var s := System(Bridged(map[], map[], map[], 1), map[0 := 7], Switching(7, "@u", "U", {}));
    LateJoinBegins(race);
    LateJoinTracks(race);
    LateJoinIsStopped(race);
    RunAppend(race, s, [Checks, Tracks], [Claims("!a"), StopsLate(0)]);
    RunAppend(race, EMPTIED, [JoinBegins(7, "@u", "U"), Looks(0)], [Checks, Tracks] + [Claims("!a"), StopsLate(0)]);
  }

  // ------------------------------------------------- which bridge a stop hits

  /** The section is a claim that gives c a slot. */
  predicate ClaimsFor(s: System, x: Section, c: Channel) {
    x.Claims? && s.sync.Starting? && s.sync.channel == c && SP.Claim(s.m.pool, c, x.room).1.Some?
  }

  ghost predicate ClaimsAnew(race: BM.Race, s: System, xs: seq<Section>, c: Channel)
    decreases |xs|
  {
    xs != [] && (ClaimsFor(s, xs[0], c) || ClaimsAnew(race, Next(race, s, xs[0]), xs[1..], c))
  }

  /** If c has a bridge, or one about to be published, it is on slot i. */
  predicate Only(s: System, i: nat, c: Channel) {
    && (c in s.m.pool.bridges ==> s.m.pool.bridges[c].slot == i)
    && (s.sync.Publishing? && s.sync.start.channel == c ==> s.sync.start.slot == i)
  }

  /** If c has a bridge, or one about to be published, it is not on slot i. */
  predicate Off(s: System, i: nat, c: Channel) {
    && (c in s.m.pool.bridges ==> s.m.pool.bridges[c].slot != i)
    && (s.sync.Publishing? && s.sync.start.channel == c ==> s.sync.start.slot != i)
  }

  lemma DeadStaysDead(race: BM.Race, s: System, x: Section, i: nat)
    requires SP.IsDead(s.m.pool, i)
    ensures SP.IsDead(Next(race, s, x).m.pool, i)
  {
    if x.Claims? && s.sync.Starting? {
      SP.ClaimOutcome(s.m.pool, s.sync.channel, x.room);
    }
  }

  lemma StaysOnly(race: BM.Race, s: System, x: Section, i: nat, c: Channel)
    requires SP.IsDead(s.m.pool, i) && Only(s, i, c) && !ClaimsFor(s, x, c)
    ensures Only(Next(race, s, x), i, c)
  {
    if x.Claims? && s.sync.Starting? {
      SP.ClaimOutcome(s.m.pool, s.sync.channel, x.room);
    }
  }

  lemma ClaimMovesOff(race: BM.Race, s: System, x: Section, i: nat, c: Channel)
    requires SP.IsDead(s.m.pool, i) && ClaimsFor(s, x, c)
    ensures Off(Next(race, s, x), i, c)
  {
    SP.ClaimOutcome(s.m.pool, c, x.room);
  }

  lemma StaysOff(race: BM.Race, s: System, x: Section, i: nat, c: Channel)
    requires SP.IsDead(s.m.pool, i) && Off(s, i, c)
    ensures Off(Next(race, s, x), i, c)
  {
    if x.Claims? && s.sync.Starting? {
      SP.ClaimOutcome(s.m.pool, s.sync.channel, x.room);
    }
  }

  lemma {:induction false} OffForGood(race: BM.Race, s: System, xs: seq<Section>, i: nat, c: Channel)
    requires SP.IsDead(s.m.pool, i) && Off(s, i, c)
    ensures Off(Run(race, s, xs), i, c)
    decreases |xs|
  {
    if xs == [] {
    } else {
      StaysOff(race, s, xs[0], i, c);
      DeadStaysDead(race, s, xs[0], i);
      OffForGood(race, Next(race, s, xs[0]), xs[1..], i, c);
    }
  }

  lemma {:induction false} MovedExactly(race: BM.Race, s: System, xs: seq<Section>, i: nat, c: Channel)
    requires SP.IsDead(s.m.pool, i) && Only(s, i, c)
    ensures if ClaimsAnew(race, s, xs, c) then Off(Run(race, s, xs), i, c) else Only(Run(race, s, xs), i, c)
    decreases |xs|
  {
    if xs == [] {
    } else {
      var t := Next(race, s, xs[0]);
      DeadStaysDead(race, s, xs[0], i);
      if ClaimsFor(s, xs[0], c) {
        ClaimMovesOff(race, s, xs[0], i, c);
        OffForGood(race, t, xs[1..], i, c);
      } else {
        StaysOnly(race, s, xs[0], i, c);
        MovedExactly(race, t, xs[1..], i, c);
      }
    }
  }

  /** A death marks its slot and then, with the lock dropped in between, stops its victim by channel id. After
      any run in between, the stop ends a bridge exactly if the channel has one; and that bridge is a newer one,
      on another slot, exactly if the channel was claimed a slot anew in that run. */
  lemma DeathHitsANewerBridgeExactly(race: BM.Race, s: System, i: nat, c: Channel, xs: seq<Section>)
    requires i < |s.m.pool.slots| && !SP.IsDead(s.m.pool, i) && SP.IsVictim(s.m.pool, i, Some(c))
    requires s.sync.Publishing? && s.sync.start.channel == c ==> s.sync.start.slot == i
    ensures var before := Run(race, Next(race, s, Dies(i, Some(c))), xs);
            && c !in Next(race, before, Stops(c)).m.pool.bridges
            && (c in before.m.pool.bridges ==>
                  (before.m.pool.bridges[c].slot != i <==> ClaimsAnew(race, Next(race, s, Dies(i, Some(c))), xs, c)))
  {
    MovedExactly(race, Next(race, s, Dies(i, Some(c))), xs, i, c);
  }

  /** Two slots and no users: channel 7 on slot 0, gone, and on slot 1. */
  function TwoSlots(pool: SP.Pool): System {
    System(BM.State(pool, map[], map[], map[], map[], map[], 0), map[], Idle)
  }

  const ON_ZERO := SP.Pool([7, SP.FREE], map[7 := SP.Bridge(7, "!a", 0, true)])
  const NOWHERE := SP.Pool([SP.DEAD, SP.FREE], map[])
  const ON_ONE := SP.Pool([SP.DEAD, 7], map[7 := SP.Bridge(7, "!a", 1, true)])

  lemma ZeroDies(race: BM.Race)
    ensures Run(race, TwoSlots(ON_ZERO), [Dies(0, Some(7)), Stops(7)]) == TwoSlots(NOWHERE)
  {
    var s := TwoSlots(ON_ZERO);
    assert BM.Cancel(race, s.m, {7}) == s.m;
    RunTwo(race, s, Dies(0, Some(7)), Stops(7));
    assert SP.Stop(SP.MarkDead(ON_ZERO, 0), 7) == NOWHERE;
  }

  lemma StartsOnOne(race: BM.Race)
    ensures Run(race, TwoSlots(NOWHERE), [StartBegins(7)] + [Claims("!a"), Publishes]) == TwoSlots(ON_ONE)
  {
    var s := TwoSlots(NOWHERE).(sync := Starting(7));
    assert SP.LowestFree([SP.DEAD, SP.FREE], 0) == SP.LowestFree([SP.DEAD, SP.FREE], 1) == Some(1);
    assert SP.StartBridge(NOWHERE, 7, "!a") == ON_ONE;
    RunOne(race, TwoSlots(NOWHERE), StartBegins(7));
    RunTwo(race, s, Claims("!a"), Publishes);
    RunAppend(race, TwoSlots(NOWHERE), [StartBegins(7)], [Claims("!a"), Publishes]);
  }

  /** The failure, concretely: slot 0 dies, somebody else stops its channel, the channel is started again on
      slot 1, and the death's own stop takes that bridge down. */
  lemma DeathStopsTheNewBridge(race: BM.Race)
    ensures var xs := [Dies(0, Some(7)), Stops(7)] + ([StartBegins(7)] + [Claims("!a"), Publishes]);
            Run(race, TwoSlots(ON_ZERO), xs) == TwoSlots(ON_ONE)
            && Run(race, TwoSlots(ON_ZERO), xs + [Stops(7)]) == TwoSlots(NOWHERE)
  {
    var dies, starts := [Dies(0, Some(7)), Stops(7)], [StartBegins(7)] + [Claims("!a"), Publishes];
    ZeroDies(race);
    StartsOnOne(race);
    RunAppend(race, TwoSlots(ON_ZERO), dies, starts);
    RunAppend(race, TwoSlots(ON_ZERO), dies + starts, [Stops(7)]);
    RunOne(race, TwoSlots(ON_ONE), Stops(7));
    assert SP.Stop(ON_ONE, 7) == NOWHERE;
  }

  // ------------------------------------------------------ the debounced stop

  /** Timers are numbered as they are made. */
  ghost predicate Numbered(s: System) {
    (forall u :: u in s.m.armed ==> u < s.m.born) && (forall d :: d in s.m.timers ==> s.m.timers[d] < s.m.born)
  }

  lemma NextKeepsNumbered(race: BM.Race, s: System, x: Section)
    requires Numbered(s)
    ensures Numbered(Next(race, s, x))
  {
  }

  lemma {:induction false} RunKeepsNumbered(race: BM.Race, s: System, xs: seq<Section>)
    requires Numbered(s)
    ensures Numbered(Run(race, s, xs))
    decreases |xs|
  {
    if xs == [] {
    } else {
      NextKeepsNumbered(race, s, xs[0]);
      RunKeepsNumbered(race, Next(race, s, xs[0]), xs[1..]);
    }
  }

  /** c is empty and timer t is to fire for it, with no handler for c in hand that could fill or re-arm it. */
  ghost predicate Counting(s: System, c: Channel, t: BM.TimerId) {
    && BM.Countdown(s.m, c, t) && Numbered(s)
    && !((s.sync.Switching? || s.sync.Tracking? || s.sync.Arming?) && s.sync.channel == c)
  }

  /** The section begins a join or leave of c, cancels its timer, or is the look itself. */
  predicate Disturbs(s: System, x: Section, c: Channel, t: BM.TimerId) {
    match x
    case JoinBegins(d, user, _) => s.sync.Idle? && !BM.IsGhost(user) && d == c
    case LeaveBegins(d, user) => s.sync.Idle? && !BM.IsGhost(user) && d == c
    case Looks(u) => u == t
    case Dies(_, victim) => victim == Some(c)
    case CancelsAll => true
    case _ => false
  }

  ghost predicate Undisturbed(race: BM.Race, s: System, xs: seq<Section>, c: Channel, t: BM.TimerId)
    decreases |xs|
  {
    xs == [] || (!Disturbs(s, xs[0], c, t) && Undisturbed(race, Next(race, s, xs[0]), xs[1..], c, t))
  }

  /** The section that arms the timer starts the count, in every state that can be reached. */
  lemma ArmsStartsCounting(race: BM.Race, slotCount: nat, xs: seq<Section>)
    requires Run(race, Fresh(slotCount), xs).sync.Arming?
    ensures var s := Run(race, Fresh(slotCount), xs); Counting(Next(race, s, Arms), s.sync.channel, s.m.born)
  {
    FreshIsKept(race, slotCount, xs);
    RunKeepsNumbered(race, Fresh(slotCount), xs);
    ArmedIsCounting(race, Run(race, Fresh(slotCount), xs));
  }

  lemma ArmedIsCounting(race: BM.Race, s: System)
    requires Kept(s) && Numbered(s) && s.sync.Arming?
    ensures Counting(Armed(race, s), s.sync.channel, s.m.born)
  {
  }

  lemma JoinKeepsCounting(race: BM.Race, s: System, d: Channel, user: BM.Mxid, name: string, c: Channel, t: BM.TimerId)
    requires Counting(s, c, t) && d != c
    ensures Counting(JoinBegun(race, s, d, user, name), c, t)
  {
    BM.CancelSpares(race, s.m, BM.Elsewhere(s.m, user, d) + {d}, c, t);
  }

  lemma LeaveKeepsCounting(s: System, d: Channel, user: BM.Mxid, c: Channel, t: BM.TimerId)
    requires Counting(s, c, t) && d != c
    ensures Counting(LeaveBegun(s, d, user), c, t)
  {
  }

  lemma ArmingKeepsCounting(race: BM.Race, s: System, c: Channel, t: BM.TimerId)
    requires Counting(s, c, t) && s.sync.Arming?
    ensures Counting(Armed(race, s), c, t)
  {
    BM.CancelSpares(race, s.m, {s.sync.channel}, c, t);
  }

  lemma LookingKeepsCounting(s: System, u: BM.TimerId, c: Channel, t: BM.TimerId)
    requires Counting(s, c, t) && u != t
    ensures Counting(Looked(s, u), c, t)
  {
  }

  lemma DyingKeepsCounting(race: BM.Race, s: System, i: nat, victim: Option<Channel>, c: Channel, t: BM.TimerId)
    requires Counting(s, c, t) && victim != Some(c)
    ensures Counting(Died(race, s, i, victim), c, t)
  {
    BM.CancelSpares(race, s.m, if victim.Some? then {victim.value} else {}, c, t);
  }

  lemma NextKeepsCounting(race: BM.Race, s: System, x: Section, c: Channel, t: BM.TimerId)
    requires Counting(s, c, t) && !Disturbs(s, x, c, t)
    ensures Counting(Next(race, s, x), c, t)
  {
    var after := Next(race, s, x);
    assert Counting(after, c, t) by {
      match x
      case JoinBegins(d, user, name) =>
        if s.sync.Idle? && SP.IsChannel(d) && !BM.IsGhost(user) { JoinKeepsCounting(race, s, d, user, name, c, t); }
      case LeaveBegins(d, user) => if s.sync.Idle? && !BM.IsGhost(user) { LeaveKeepsCounting(s, d, user, c, t); }
      case Arms => if s.sync.Arming? { ArmingKeepsCounting(race, s, c, t); }
      case Looks(u) => LookingKeepsCounting(s, u, c, t);
      case Dies(i, victim) => DyingKeepsCounting(race, s, i, victim, c, t);
      case _ =>
    }
  }

  lemma {:induction false} CountingGoesOn(race: BM.Race, s: System, xs: seq<Section>, c: Channel, t: BM.TimerId)
    requires Counting(s, c, t) && Undisturbed(race, s, xs, c, t)
    ensures Counting(Run(race, s, xs), c, t)
    decreases |xs|
  {
    if xs == [] {
    } else {
      NextKeepsCounting(race, s, xs[0], c, t);
      CountingGoesOn(race, Next(race, s, xs[0]), xs[1..], c, t);
    }
  }

  /** The callback of t has seen c empty and is going to stop it. */
  ghost predicate Decided(s: System, c: Channel, t: BM.TimerId) {
    && t in s.looked && s.looked[t] == c && t !in s.m.armed
    && t < s.m.born && Numbered(s)
  }

  lemma {:induction false} DecisionStands(race: BM.Race, s: System, xs: seq<Section>, c: Channel, t: BM.TimerId)
    requires Decided(s, c, t) && StopsLate(t) !in xs
    ensures Decided(Run(race, s, xs), c, t)
    decreases |xs|
  {
    if xs == [] {
    } else {
      assert xs[0] in xs && forall x :: x in xs[1..] ==> x in xs;
      NextKeepsDecision(race, s, xs[0], c, t);
      DecisionStands(race, Next(race, s, xs[0]), xs[1..], c, t);
    }
  }

  lemma NextKeepsDecision(race: BM.Race, s: System, x: Section, c: Channel, t: BM.TimerId)
    requires Decided(s, c, t) && x != StopsLate(t)
    ensures Decided(Next(race, s, x), c, t)
  {
    NextKeepsNumbered(race, s, x);
  }

  /** In every interleaving: from the moment a timer is armed, unless the channel is joined or left again, its
      own slot dies or the timers are cancelled before the look, the callback does its work: whatever runs
      between its look and its stop, after the stop the bridge is gone. */
  lemma DebouncedStopHappens(race: BM.Race, s: System, xs: seq<Section>, ys: seq<Section>, c: Channel, t: BM.TimerId)
    requires Counting(s, c, t) && Undisturbed(race, s, xs, c, t) && StopsLate(t) !in ys
    ensures c !in Run(race, s, xs + [Looks(t)] + ys + [StopsLate(t)]).m.pool.bridges
  {
    CountingGoesOn(race, s, xs, c, t);
    var seen := Looked(Run(race, s, xs), t);
    RunOne(race, Run(race, s, xs), Looks(t));
    RunAppend(race, s, xs, [Looks(t)]);
    DecisionStands(race, seen, ys, c, t);
    RunAppend(race, s, xs + [Looks(t)], ys);
    RunAppend(race, s, xs + [Looks(t)] + ys, [StopsLate(t)]);
    RunOne(race, Run(race, seen, ys), StopsLate(t));
  }

  /** The handler in hand is still to start c, or has claimed and is still to publish it. */
  predicate WillStart(s: System, c: Channel) {
    match s.sync
    case Publishing(start) => start.channel == c
    case Starting(d) => d == c
    case Tracking(d, _, _) => d == c
    case Switching(d, user, _, _) => d == c && user !in BM.UsersIn(s.m, c)
    case _ => false
  }

  predicate NoBegins(xs: seq<Section>, c: Channel) {
    forall x :: x in xs ==> !(x.JoinBegins? && x.channel == c) && x != StartBegins(c)
  }

  ghost predicate ComesBack(race: BM.Race, s: System, xs: seq<Section>, c: Channel) {
    NoBegins(xs, c) && c in Run(race, s, xs).m.pool.bridges
  }

  lemma StaysGone(race: BM.Race, s: System, x: Section, c: Channel)
    requires c !in s.m.pool.bridges && !WillStart(s, c) && NoBegins([x], c)
    ensures c !in Next(race, s, x).m.pool.bridges
  {
    if x.Claims? && s.sync.Starting? {
      SP.ClaimOutcome(s.m.pool, s.sync.channel, x.room);
    }
  }

  lemma StaysUnstarted(race: BM.Race, s: System, x: Section, c: Channel)
    requires !WillStart(s, c) && NoBegins([x], c)
    ensures !WillStart(Next(race, s, x), c)
  {
    assert x in [x];
    if x.Claims? && s.sync.Starting? {
      SP.ClaimOutcome(s.m.pool, s.sync.channel, x.room);
    }
  }

  lemma {:induction false} GoneForGood(race: BM.Race, s: System, xs: seq<Section>, c: Channel)
    requires c !in s.m.pool.bridges && !WillStart(s, c) && NoBegins(xs, c)
    ensures c !in Run(race, s, xs).m.pool.bridges
    decreases |xs|
  {
    if xs == [] {
    } else {
      assert xs[0] in xs && forall x :: x in xs[1..] ==> x in xs;
      StaysGone(race, s, xs[0], c);
      StaysUnstarted(race, s, xs[0], c);
      GoneForGood(race, Next(race, s, xs[0]), xs[1..], c);
    }
  }

  lemma PrependComesBack(race: BM.Race, s: System, x: Section, xs: seq<Section>, c: Channel)
    requires ComesBack(race, Next(race, s, x), xs, c) && !x.JoinBegins? && !x.StartBegins?
    ensures ComesBack(race, s, [x] + xs, c)
  {
    assert ([x] + xs)[1..] == xs;
  }

  /** A start of c in hand gets through, given a room and, if the pool is full, one more slot. */
  lemma StartGetsThrough(race: BM.Race, s: System, c: Channel) returns (xs: seq<Section>)
    requires s.sync == Starting(c) && c !in s.m.pool.bridges
    ensures ComesBack(race, s, xs, c)
  {
    var added := Next(race, s, Adds);
    assert added.m.pool.slots[|s.m.pool.slots|] == SP.FREE;
    SP.ClaimOutcome(added.m.pool, c, "!a");
    var claimed := Next(race, added, Claims("!a"));
    assert c in claimed.m.pool.bridges;
    assert ComesBack(race, claimed, [], c);
    PrependComesBack(race, added, Claims("!a"), [], c);
    PrependComesBack(race, s, Adds, [Claims("!a")] + [], c);
    xs := [Adds] + ([Claims("!a")] + []);
  }

  lemma TrackingGetsThrough(race: BM.Race, s: System, c: Channel) returns (xs: seq<Section>)
    requires s.sync.Tracking? && s.sync.channel == c && c !in s.m.pool.bridges
    ensures ComesBack(race, s, xs, c)
  {
    xs := StartGetsThrough(race, Next(race, s, Tracks), c);
    PrependComesBack(race, s, Tracks, xs, c);
    xs := [Tracks] + xs;
  }

  lemma {:induction false} SwitchGetsThrough(race: BM.Race, s: System, c: Channel) returns (xs: seq<Section>)
    requires s.sync.Switching? && s.sync.channel == c && s.sync.user !in BM.UsersIn(s.m, c)
    requires c !in s.m.pool.bridges
    ensures ComesBack(race, s, xs, c)
    decreases |s.sync.stops|
  {
    if s.sync.stops == {} {
      xs := TrackingGetsThrough(race, Next(race, s, Checks), c);
      PrependComesBack(race, s, Checks, xs, c);
      xs := [Checks] + xs;
    } else {
      var d :| d in s.sync.stops;
      xs := SwitchGetsThrough(race, Next(race, s, StopsOther(d)), c);
      PrependComesBack(race, s, StopsOther(d), xs, c);
      xs := [StopsOther(d)] + xs;
    }
  }

  /** Once a channel has no bridge, it can get one without a new join or manual start of it if and only if the
      handler in hand is still to start or publish it; so a stop is final exactly when none is. */
  lemma StopIsFinalExactly(race: BM.Race, s: System, c: Channel)
    requires c !in s.m.pool.bridges
    ensures (exists xs :: ComesBack(race, s, xs, c)) <==> WillStart(s, c)
  {
    if WillStart(s, c) {
      var xs;
      match s.sync {
        case Publishing(start) =>
          assert ComesBack(race, Next(race, s, Publishes), [], c);
          PrependComesBack(race, s, Publishes, [], c);
          xs := [Publishes] + [];
        case Starting(_) => xs := StartGetsThrough(race, s, c);
        case Tracking(_, _, _) => xs := TrackingGetsThrough(race, s, c);
        case Switching(_, _, _, _) => xs := SwitchGetsThrough(race, s, c);
      }
      assert ComesBack(race, s, xs, c);
    } else if xs :| ComesBack(race, s, xs, c) {
      GoneForGood(race, s, xs, c);
      assert false;
    }
  }
}
