/** The bridge manager one lock-protected section at a time: the /sync goroutine in the middle of a handler,
    callbacks between their look and their stop, and stops, deaths and cancellations from anywhere. */
module Interleavings {
  import opened Wrappers
  import opened Ids
  import SP = SlotPool
  import BM = BridgeManager

  /** How far the /sync goroutine has got in the handler it is running. */
  datatype Sync =
    | Idle
    | Switching(channel: Channel, user: BM.Mxid, name: string, stops: set<Channel>)
    | Tracking(channel: Channel, user: BM.Mxid, name: string)
    | Starting(channel: Channel)
    | Publishing(start: SP.Start)
    | Arming(channel: Channel)

  /** `looked` are the callbacks that saw their channel empty and have not stopped it yet. */
  datatype System = System(m: BM.State, looked: map<BM.TimerId, Channel>, sync: Sync)

  /** The sections. Those of the /sync goroutine do nothing out of turn. `Stops` is a stop by anybody else:
      a sidecar's leave, the second half of a slot's death, a manual leave, a close. */
  datatype Section =
    | JoinBegins(channel: Channel, user: BM.Mxid, name: string)
    | StopsOther(channel: Channel)
    | Checks
    | Tracks
    | StartBegins(channel: Channel)
    | Claims(room: RoomId)
    | Publishes
    | LeaveBegins(channel: Channel, user: BM.Mxid)
    | Arms
    | Looks(timer: BM.TimerId)
    | StopsLate(timer: BM.TimerId)
    | Stops(channel: Channel)
    | Dies(slot: nat, victim: Option<Channel>)
    | Adds
    | CancelsAll

  ghost function JoinBegun(race: BM.Race, s: System, c: Channel, user: BM.Mxid, name: string): System {
    var others := BM.Elsewhere(s.m, user, c);
    System(BM.Cancel(race, s.m, others + {c}).(users := BM.TakeOut(s.m.users, user, others)), s.looked,
           Switching(c, user, name, others))
  }

  function StoppedOther(s: System, d: Channel): System
    requires s.sync.Switching?
  {
    s.(m := s.m.(pool := SP.Stop(s.m.pool, d)), sync := s.sync.(stops := s.sync.stops - {d}))
  }

  function Checked(s: System): System
    requires s.sync.Switching?
  {
    s.(sync := if s.sync.user in BM.UsersIn(s.m, s.sync.channel) then Idle
               else Tracking(s.sync.channel, s.sync.user, s.sync.name))
  }

  function Tracked(s: System): System
    requires s.sync.Tracking?
  {
    var c := s.sync.channel;
    s.(m := s.m.(users := s.m.users[c := BM.UsersIn(s.m, c)[s.sync.user := s.sync.name]]), sync := Starting(c))
  }

  function Claimed(s: System, room: RoomId): System
    requires s.sync.Starting?
  {
    var (pool, start) := SP.Claim(s.m.pool, s.sync.channel, room);
    s.(m := s.m.(pool := pool), sync := if start.Some? then Publishing(start.value) else Idle)
  }

  function Published(s: System): System
    requires s.sync.Publishing?
  {
    s.(m := s.m.(pool := SP.Publish(s.m.pool, s.sync.start)), sync := Idle)
  }

  ghost function LeaveBegun(s: System, c: Channel, user: BM.Mxid): System {
    var users := BM.TakeOut(s.m.users, user, {c});
    s.(m := s.m.(users := users), sync := if c in users then Idle else Arming(c))
  }

  ghost function Armed(race: BM.Race, s: System): System
    requires s.sync.Arming?
  {
    var c, quiet := s.sync.channel, BM.Cancel(race, s.m, {s.sync.channel});
    s.(m := quiet.(timers := quiet.timers[c := s.m.born], armed := quiet.armed[s.m.born := c], born := s.m.born + 1),
       sync := Idle)
  }

  function Looked(s: System, t: BM.TimerId): System {
    var (seen, stop) := BM.CallbackLooks(s.m, t);
    s.(m := seen, looked := if stop.Some? then s.looked[t := stop.value] else s.looked)
  }

  ghost function Died(race: BM.Race, s: System, i: nat, victim: Option<Channel>): System {
    s.(m := BM.Cancel(race, s.m, if victim.Some? then {victim.value} else {}).(pool := SP.MarkDead(s.m.pool, i)))
  }

  ghost function Next(race: BM.Race, s: System, x: Section): System {
    match x
    case JoinBegins(c, user, name) =>
      if s.sync.Idle? && SP.IsChannel(c) && !BM.IsGhost(user) then JoinBegun(race, s, c, user, name) else s
    case StopsOther(d) => if s.sync.Switching? && d in s.sync.stops then StoppedOther(s, d) else s
    case Checks => if s.sync.Switching? && s.sync.stops == {} then Checked(s) else s
    case Tracks => if s.sync.Tracking? then Tracked(s) else s
    case StartBegins(c) => if s.sync.Idle? && SP.IsChannel(c) then s.(sync := Starting(c)) else s
    case Claims(room) => if s.sync.Starting? then Claimed(s, room) else s
    case Publishes => if s.sync.Publishing? then Published(s) else s
    case LeaveBegins(c, user) => if s.sync.Idle? && !BM.IsGhost(user) then LeaveBegun(s, c, user) else s
    case Arms => if s.sync.Arming? then Armed(race, s) else s
    case Looks(t) => Looked(s, t)
    case StopsLate(t) =>
      if t in s.looked then s.(m := s.m.(pool := SP.Stop(s.m.pool, s.looked[t])), looked := s.looked - {t}) else s
    case Stops(c) => s.(m := s.m.(pool := SP.Stop(s.m.pool, c)))
    case Dies(i, victim) =>
      if !SP.IsDead(s.m.pool, i) && SP.IsVictim(s.m.pool, i, victim) then Died(race, s, i, victim) else s
    case Adds => s.(m := s.m.(pool := SP.AddSlot(s.m.pool)))
    case CancelsAll => s.(m := BM.Cancel(race, s.m, s.m.timers.Keys))
  }

  ghost function Run(race: BM.Race, s: System, xs: seq<Section>): System
    decreases |xs|
  {
    if xs == [] then s else Run(race, Next(race, s, xs[0]), xs[1..])
  }

  // --------------------------------------------------- membership and timers

  /** The channel has no timer and the user is in no other channel. */
  ghost predicate Settling(m: BM.State, c: Channel, user: BM.Mxid) {
    && SP.IsChannel(c) && !BM.IsGhost(user) && c !in m.timers
    && forall d :: d in m.users && user in m.users[d] ==> d == c
  }

  /** The invariant between handlers holds in the middle of them too, and says what the /sync goroutine may
      rely on when it comes back for the lock. */
  ghost predicate Kept(s: System) {
    BM.Membership(s.m)
    && match s.sync
       case Switching(c, user, _, _) => Settling(s.m, c, user)
       case Tracking(c, user, _) => Settling(s.m, c, user)
       case Starting(c) => SP.IsChannel(c)
       case Arming(c) => c !in s.m.users
       case _ => true
  }

  lemma JoinBegunKeeps(race: BM.Race, s: System, c: Channel, user: BM.Mxid, name: string)
    requires Kept(s) && SP.IsChannel(c) && !BM.IsGhost(user)
    ensures Kept(JoinBegun(race, s, c, user, name))
  {
    BM.TakeOutKeepsRoster(s.m.users, user, BM.Elsewhere(s.m, user, c));
  }

  lemma TrackedKeeps(s: System)
    requires Kept(s) && s.sync.Tracking?
    ensures Kept(Tracked(s))
  {
    var c := s.sync.channel;
    BM.AddKeepsRoster(s.m.users, c, BM.UsersIn(s.m, c), s.sync.user, s.sync.name);
  }

  lemma LeaveBegunKeeps(s: System, c: Channel, user: BM.Mxid)
    requires Kept(s)
    ensures Kept(LeaveBegun(s, c, user))
  {
    BM.TakeOutKeepsRoster(s.m.users, user, {c});
  }

  lemma ArmedKeeps(race: BM.Race, s: System)
    requires Kept(s) && s.sync.Arming?
    ensures Kept(Armed(race, s))
  {
  }

  lemma LookedKeeps(s: System, t: BM.TimerId)
    requires Kept(s)
    ensures Kept(Looked(s, t))
  {
  }

  lemma CancelKeeps(race: BM.Race, s: System, cs: set<Channel>, pool: SP.Pool)
    requires Kept(s)
    ensures Kept(s.(m := BM.Cancel(race, s.m, cs).(pool := pool)))
  {
  }

  lemma PoolChangeKeeps(s: System, pool: SP.Pool, looked: map<BM.TimerId, Channel>)
    requires Kept(s)
    ensures Kept(s.(m := s.m.(pool := pool), looked := looked))
  {
  }

  lemma SyncKeeps(race: BM.Race, s: System, x: Section)
    requires Kept(s)
    requires x.StopsOther? || x.Checks? || x.StartBegins? || x.Claims? || x.Publishes?
    ensures Kept(Next(race, s, x))
  {
    if x.StopsOther? && s.sync.Switching? {
      PoolChangeKeeps(s, SP.Stop(s.m.pool, x.channel), s.looked);
    }
  }

  lemma NextKeeps(race: BM.Race, s: System, x: Section)
    requires Kept(s)
    ensures Kept(Next(race, s, x))
  {
    var after := Next(race, s, x);
    assert Kept(after) by {
      match x
      case JoinBegins(c, user, name) =>
        if s.sync.Idle? && SP.IsChannel(c) && !BM.IsGhost(user) { JoinBegunKeeps(race, s, c, user, name); }
      case Tracks => if s.sync.Tracking? { TrackedKeeps(s); }
      case LeaveBegins(c, user) => if s.sync.Idle? && !BM.IsGhost(user) { LeaveBegunKeeps(s, c, user); }
      case Arms => if s.sync.Arming? { ArmedKeeps(race, s); }
      case Looks(t) => LookedKeeps(s, t);
      case StopsLate(t) =>
        if t in s.looked { PoolChangeKeeps(s, SP.Stop(s.m.pool, s.looked[t]), s.looked - {t}); }
      case Stops(c) => PoolChangeKeeps(s, SP.Stop(s.m.pool, c), s.looked);
      case Dies(i, victim) =>
        CancelKeeps(race, s, if victim.Some? then {victim.value} else {}, SP.MarkDead(s.m.pool, i));
      case Adds => PoolChangeKeeps(s, SP.AddSlot(s.m.pool), s.looked);
      case CancelsAll => CancelKeeps(race, s, s.m.timers.Keys, s.m.pool);
      case _ => SyncKeeps(race, s, x);
    }
  }

  /** In every interleaving, with no hypothesis: each Matrix user is in at most one channel, no listed channel
      is empty, no ghost is tracked, and no channel has both users and a registered timer. */
  lemma {:induction false} InterleavingsKeepMembership(race: BM.Race, s: System, xs: seq<Section>)
    requires Kept(s)
    ensures Kept(Run(race, s, xs)) && BM.Membership(Run(race, s, xs).m)
    decreases |xs|
  {
    if xs == [] {
    } else {
      NextKeeps(race, s, xs[0]);
      InterleavingsKeepMembership(race, Next(race, s, xs[0]), xs[1..]);
    }
  }

  /** The manager as it is made, with nothing under way. */
  function Fresh(slotCount: nat): System {
    System(BM.State(SP.Pool(seq(slotCount, _ => SP.FREE), map[]), map[], map[], map[], map[], map[], 0), map[], Idle)
  }

  /** The start state has everything the laws over interleavings ask for. */
  lemma FreshIsKept(race: BM.Race, slotCount: nat, xs: seq<Section>)
    ensures var s := Fresh(slotCount);
            && Kept(s) && BM.Good(s.m) && SP.Coherent(s.m.pool) && SP.Sane(PoolOf(s)) && SP.StartStands(PoolOf(s))
            && Kept(Run(race, s, xs)) && SP.Sane(PoolOf(Run(race, s, xs)))
            && (SP.StopsRespectStarts(PoolOf(s), PoolSections(race, s, xs)) ==>
                  SP.Coherent(Run(race, s, xs).m.pool) && SP.StartStands(PoolOf(Run(race, s, xs))))
  {
    var s := Fresh(slotCount);
    var sections := PoolSections(race, s, xs);
    InterleavingsKeepMembership(race, s, xs);
    RunsThePool(race, s, xs);
    SP.DeathIsAbsorbing(PoolOf(s), sections);
    if SP.StopsRespectStarts(PoolOf(s), sections) {
      SP.InterleavingsKeepCoherent(PoolOf(s), sections);
    }
  }

  // ------------------------------------------------------ who can end a bridge

  /** The section stops c. */
  predicate Hits(s: System, x: Section, c: Channel) {
    match x
    case Stops(d) => d == c
    case StopsLate(t) => t in s.looked && s.looked[t] == c
    case StopsOther(d) => d == c && s.sync.Switching? && d in s.sync.stops
    case _ => false
  }

  lemma BridgeEndsExactly(race: BM.Race, s: System, x: Section, c: Channel)
    requires c in s.m.pool.bridges
    ensures c in Next(race, s, x).m.pool.bridges <==> !Hits(s, x, c)
  {
    match x
    case Stops(d) => BM.StopSparesOthers(s.m.pool, d, c);
    case StopsLate(t) => if t in s.looked { BM.StopSparesOthers(s.m.pool, s.looked[t], c); }
    case StopsOther(d) => if s.sync.Switching? && d in s.sync.stops { BM.StopSparesOthers(s.m.pool, d, c); }
    case Claims(room) => if s.sync.Starting? { SP.ClaimOutcome(s.m.pool, s.sync.channel, room); }
    case _ =>
  }

  /** The section takes the user out of c. */
  predicate TakesOut(s: System, x: Section, c: Channel, user: BM.Mxid) {
    match x
    case JoinBegins(d, u, _) => s.sync.Idle? && SP.IsChannel(d) && u == user && d != c
    case LeaveBegins(d, u) => s.sync.Idle? && u == user && d == c
    case _ => false
  }

  /** The section begins a switch by one of c's users to another channel. */
  predicate SwitchesAway(s: System, x: Section, c: Channel) {
    x.JoinBegins? && s.sync.Idle? && SP.IsChannel(x.channel) && x.channel != c && x.user in BM.UsersIn(s.m, c)
  }

  /** The user stays, nobody switches away from c, and c is stopped by nobody but callbacks. */
  ghost predicate Peaceful(race: BM.Race, s: System, xs: seq<Section>, c: Channel, user: BM.Mxid)
    decreases |xs|
  {
    xs == [] ||
    (&& xs[0] != Stops(c) && !TakesOut(s, xs[0], c, user) && !SwitchesAway(s, xs[0], c)
     && Peaceful(race, Next(race, s, xs[0]), xs[1..], c, user))
  }

  /** No stop of c is already decided. */
  ghost predicate Unthreatened(s: System, c: Channel) {
    (forall t :: t in s.looked ==> s.looked[t] != c) && (s.sync.Switching? ==> c !in s.sync.stops)
  }

  lemma NextStaysUnthreatened(race: BM.Race, s: System, x: Section, c: Channel, user: BM.Mxid)
    requires user in BM.UsersIn(s.m, c) && Unthreatened(s, c) && !TakesOut(s, x, c, user) && !SwitchesAway(s, x, c)
    ensures user in BM.UsersIn(Next(race, s, x).m, c) && Unthreatened(Next(race, s, x), c)
  {
    match x
    case JoinBegins(d, u, _) => BM.WhoIsLeft(s.m, u, BM.Elsewhere(s.m, u, d), c, user);
    case LeaveBegins(d, u) => BM.WhoIsLeft(s.m, u, {d}, c, user);
    case _ =>
  }

  /** A callback that looks while a user is there never stops the channel, however the sections fall: once a
      user is tracked, with no stop of the channel decided before, the bridge stays as long as the user does
      and nobody switches away or stops it by hand. */
  lemma {:induction false} NoCallbackBeatsATrackedUser(race: BM.Race, s: System, xs: seq<Section>, c: Channel,
                                                       user: BM.Mxid)
    requires c in s.m.pool.bridges && user in BM.UsersIn(s.m, c) && Unthreatened(s, c)
    requires Peaceful(race, s, xs, c, user)
    ensures c in Run(race, s, xs).m.pool.bridges && user in BM.UsersIn(Run(race, s, xs).m, c)
    decreases |xs|
  {
    if xs == [] {
    } else {
      BridgeEndsExactly(race, s, xs[0], c);
      NextStaysUnthreatened(race, s, xs[0], c, user);
      NoCallbackBeatsATrackedUser(race, Next(race, s, xs[0]), xs[1..], c, user);
    }
  }

  // ------------------------------------------------------- the pool's own run

  function PoolOf(s: System): SP.System {
    SP.System(s.m.pool, if s.sync.Publishing? then Some(s.sync.start) else None)
  }

  /** What a section does to the pool. */
  ghost function PoolSection(s: System, x: Section): seq<SP.Section> {
    match x
    case StopsOther(d) => if s.sync.Switching? && d in s.sync.stops then [SP.Stopping(d)] else []
    case Claims(room) => if s.sync.Starting? then [SP.Claiming(s.sync.channel, room)] else []
    case Publishes => if s.sync.Publishing? then [SP.Publishing] else []
    case StopsLate(t) => if t in s.looked then [SP.Stopping(s.looked[t])] else []
    case Stops(c) => [SP.Stopping(c)]
    case Dies(i, victim) =>
      if !SP.IsDead(s.m.pool, i) && SP.IsVictim(s.m.pool, i, victim) then [SP.Dying(i)] else []
    case Adds => [SP.Adding]
    case _ => []
  }

  ghost function PoolSections(race: BM.Race, s: System, xs: seq<Section>): seq<SP.Section>
    decreases |xs|
  {
    if xs == [] then [] else PoolSection(s, xs[0]) + PoolSections(race, Next(race, s, xs[0]), xs[1..])
  }

  lemma NextRunsThePool(race: BM.Race, s: System, x: Section)
    requires Kept(s)
    ensures SP.Run(PoolOf(s), PoolSection(s, x)) == PoolOf(Next(race, s, x))
  {
    if PoolSection(s, x) != [] {
      SP.RunOne(PoolOf(s), PoolSection(s, x)[0]);
    }
  }

  /** The pool sees a run of its own sections, so all that holds of those runs holds here. */
  lemma {:induction false} RunsThePool(race: BM.Race, s: System, xs: seq<Section>)
    requires Kept(s)
    ensures SP.Run(PoolOf(s), PoolSections(race, s, xs)) == PoolOf(Run(race, s, xs))
    decreases |xs|
  {
    if xs == [] {
    } else {
      var t := Next(race, s, xs[0]);
      NextKeeps(race, s, xs[0]);
      NextRunsThePool(race, s, xs[0]);
      RunsThePool(race, t, xs[1..]);
      SP.RunAppend(PoolOf(s), PoolSection(s, xs[0]), PoolSections(race, t, xs[1..]));
    }
  }

  /** In every interleaving of the whole manager where no stop hits the channel being started, bridges and
      slots agree; and in every interleaving at all, dead slots stay dead and indices in range. */
  lemma InterleavingsKeepThePool(race: BM.Race, s: System, xs: seq<Section>)
    requires Kept(s) && SP.Sane(PoolOf(s))
    ensures var p, q := s.m.pool, Run(race, s, xs).m.pool;
            && SP.Keyed(q) && |p.slots| <= |q.slots|
            && (forall i :: 0 <= i < |p.slots| && p.slots[i] == SP.DEAD ==> q.slots[i] == SP.DEAD)
    ensures (&& SP.Coherent(s.m.pool) && SP.StartStands(PoolOf(s))
             && SP.StopsRespectStarts(PoolOf(s), PoolSections(race, s, xs)))
            ==> SP.Coherent(Run(race, s, xs).m.pool)
  {
    var sections := PoolSections(race, s, xs);
    RunsThePool(race, s, xs);
    SP.DeathIsAbsorbing(PoolOf(s), sections);
    if SP.Coherent(s.m.pool) && SP.StartStands(PoolOf(s)) && SP.StopsRespectStarts(PoolOf(s), sections) {
      SP.InterleavingsKeepCoherent(PoolOf(s), sections);
    }
  }

  // ------------------------------------------------------- handlers run through

  lemma {:induction false} RunAppend(race: BM.Race, s: System, xs: seq<Section>, ys: seq<Section>)
    ensures Run(race, s, xs + ys) == Run(race, Run(race, s, xs), ys)
    decreases |xs|
  {
    if xs == [] {
      assert xs + ys == ys;
    } else {
      RunAppend(race, Next(race, s, xs[0]), xs[1..], ys);
      assert (xs + ys)[1..] == xs[1..] + ys;
    }
  }

  lemma RunOne(race: BM.Race, s: System, x: Section)
    ensures Run(race, s, [x]) == Next(race, s, x)
  {
    assert [x][1..] == [];
  }

  lemma RunTwo(race: BM.Race, s: System, x: Section, y: Section)
    ensures Run(race, s, [x, y]) == Next(race, Next(race, s, x), y)
  {
    assert [x, y] == [x] + [y];
    RunOne(race, s, x);
    RunAppend(race, s, [x], [y]);
    RunOne(race, Next(race, s, x), y);
  }

  function StopEach(ds: seq<Channel>): seq<Section> {
    if ds == [] then [] else [StopsOther(ds[0])] + StopEach(ds[1..])
  }

  /** The stops of a switch, in whatever order, stop what was collected. */
  lemma {:induction false} SwitchStops(race: BM.Race, s: System, ds: seq<Channel>, done: set<Channel>, p: SP.Pool)
    requires s.sync.Switching? && s.m.pool == SP.StopAll(p, done) && done !! s.sync.stops
    requires (set d | d in ds) == s.sync.stops && forall i, j :: 0 <= i < j < |ds| ==> ds[i] != ds[j]
    ensures Run(race, s, StopEach(ds))
            == s.(m := s.m.(pool := SP.StopAll(p, done + s.sync.stops)), sync := s.sync.(stops := {}))
    decreases |ds|
  {
    if ds == [] {
      assert done + s.sync.stops == done;
    } else {
      var d, t := ds[0], StoppedOther(s, ds[0]);
      assert d in s.sync.stops;
      SP.StopAllOneMore(p, done, d);
      assert (set e | e in ds[1..]) == t.sync.stops;
      assert done + {d} + t.sync.stops == done + s.sync.stops;
      SwitchStops(race, t, ds[1..], done + {d}, p);
      assert StopEach(ds)[1..] == StopEach(ds[1..]);
    }
  }

  lemma StartEnds(race: BM.Race, s: System, room: RoomId)
    requires s.sync.Starting?
    ensures Run(race, s, [Claims(room), Publishes])
            == s.(m := s.m.(pool := SP.StartBridge(s.m.pool, s.sync.channel, room)), sync := Idle)
  {
    RunTwo(race, s, Claims(room), Publishes);
  }

  lemma JoinEnds(race: BM.Race, s: System, room: RoomId)
    requires s.sync.Switching? && s.sync.stops == {}
    ensures var c, users := s.sync.channel, BM.UsersIn(s.m, s.sync.channel);
            Run(race, s, [Checks, Tracks, Claims(room), Publishes]) ==
              if s.sync.user in users then s.(sync := Idle)
              else System(s.m.(users := s.m.users[c := users[s.sync.user := s.sync.name]],
                               pool := SP.StartBridge(s.m.pool, c, room)), s.looked, Idle)
  {
    assert [Checks, Tracks, Claims(room), Publishes] == [Checks, Tracks] + [Claims(room), Publishes];
    RunAppend(race, s, [Checks, Tracks], [Claims(room), Publishes]);
    RunTwo(race, s, Checks, Tracks);
    var tracked := Next(race, Next(race, s, Checks), Tracks);
    if tracked.sync.Starting? {
      StartEnds(race, tracked, room);
    } else {
      RunTwo(race, tracked, Claims(room), Publishes);
    }
  }

  /** A join run through is its sections one after the other. */
  lemma JoinIsARun(race: BM.Race, s: System, room: RoomId, user: BM.Mxid, name: string, ds: seq<Channel>)
    requires s.sync.Idle? && !BM.IsGhost(user) && room in s.m.channels && SP.IsChannel(s.m.channels[room])
    requires (set d | d in ds) == BM.Elsewhere(s.m, user, s.m.channels[room])
    requires forall i, j :: 0 <= i < j < |ds| ==> ds[i] != ds[j]
    ensures var c := s.m.channels[room];
            Run(race, s, [JoinBegins(c, user, name)] + StopEach(ds)
                         + [Checks, Tracks, Claims(BM.RoomOf(s.m, c)), Publishes])
            == s.(m := BM.Join(race, s.m, room, user, name))
  {
    var c := s.m.channels[room];
    var begun := JoinBegun(race, s, c, user, name);
    RunOne(race, s, JoinBegins(c, user, name));
    RunAppend(race, s, [JoinBegins(c, user, name)], StopEach(ds));
    SP.StopAllNone(s.m.pool);
    SwitchStops(race, begun, ds, {}, s.m.pool);
    assert {} + begun.sync.stops == begun.sync.stops;
    var stopped := Run(race, begun, StopEach(ds));
    RunAppend(race, s, [JoinBegins(c, user, name)] + StopEach(ds),
              [Checks, Tracks, Claims(BM.RoomOf(s.m, c)), Publishes]);
    JoinEnds(race, stopped, BM.RoomOf(s.m, c));
    SwitchKeepsTheChannel(s.m, user, c);
  }

  /** Taking a user out of the other channels does not touch this one. */
  lemma SwitchKeepsTheChannel(m: BM.State, user: BM.Mxid, c: Channel)
    ensures BM.UsersIn(m.(users := BM.TakeOut(m.users, user, BM.Elsewhere(m, user, c))), c) == BM.UsersIn(m, c)
  {
  }

  lemma LeaveIsARun(race: BM.Race, s: System, room: RoomId, user: BM.Mxid)
    requires s.sync.Idle? && !BM.IsGhost(user) && room in s.m.channels
    ensures Run(race, s, [LeaveBegins(s.m.channels[room], user), Arms]) == s.(m := BM.Leave(race, s.m, room, user))
  {
    RunTwo(race, s, LeaveBegins(s.m.channels[room], user), Arms);
  }

  lemma FiringIsARun(race: BM.Race, s: System, t: BM.TimerId)
    requires t !in s.looked
    ensures Run(race, s, [Looks(t), StopsLate(t)]) == s.(m := BM.TimerFires(s.m, t))
  {
    RunTwo(race, s, Looks(t), StopsLate(t));
    if t in s.m.armed {
      assert s.looked[t := s.m.armed[t]] - {t} == s.looked;
    }
  }

  lemma FirstDeathIsARun(race: BM.Race, s: System, i: nat, c: Channel)
    requires !SP.IsDead(s.m.pool, i) && BM.Victim(s.m.pool, i) == Some(c)
    ensures Next(race, Next(race, s, Dies(i, Some(c))), Stops(c)) == s.(m := BM.Step(race, s.m, BM.Died(i)))
  {
  }

  /** A death run through: nothing if the slot is dead already, and otherwise the marking and the stop. */
  lemma DeathIsARun(race: BM.Race, s: System, i: nat)
    ensures var v := BM.Victim(s.m.pool, i);
            Run(race, s, [Dies(i, v)] + if v.Some? && !SP.IsDead(s.m.pool, i) then [Stops(v.value)] else [])
            == s.(m := BM.Step(race, s.m, BM.Died(i)))
  {
    var v := BM.Victim(s.m.pool, i);
    if v.Some? && !SP.IsDead(s.m.pool, i) {
      RunTwo(race, s, Dies(i, v), Stops(v.value));
      FirstDeathIsARun(race, s, i, v.value);
      assert [Dies(i, v)] + [Stops(v.value)] == [Dies(i, v), Stops(v.value)];
    } else {
      RunOne(race, s, Dies(i, v));
      assert [Dies(i, v)] + [] == [Dies(i, v)];
    }
  }

  /** A manual join run through is its beginning, its claim and its publish. */
  lemma ManualJoinIsARun(race: BM.Race, s: System, c: Channel)
    requires s.sync.Idle?
    ensures Run(race, s, [StartBegins(c)] + [Claims(BM.RoomOf(s.m, c)), Publishes])
            == s.(m := BM.Step(race, s.m, BM.ManuallyJoined(c)))
  {
    RunOne(race, s, StartBegins(c));
    RunAppend(race, s, [StartBegins(c)], [Claims(BM.RoomOf(s.m, c)), Publishes]);
    if SP.IsChannel(c) {
      StartEnds(race, s.(sync := Starting(c)), BM.RoomOf(s.m, c));
    } else {
      RunTwo(race, s, Claims(BM.RoomOf(s.m, c)), Publishes);
    }
  }

  /** A manual leave, a sidecar's leave and an added bot are one section each. */
  lemma OneSectionEvents(race: BM.Race, s: System, c: Channel, i: nat)
    ensures Next(race, s, Stops(c)) == s.(m := BM.Step(race, s.m, BM.ManuallyLeft(c)))
    ensures var v := BM.Victim(s.m.pool, i);
            (if v.Some? then Next(race, s, Stops(v.value)) else s) == s.(m := BM.Step(race, s.m, BM.LeftBySidecar(i)))
    ensures Next(race, s, Adds) == s.(m := BM.Step(race, s.m, BM.Added))
  {
  }

  function StopAny(ds: seq<Channel>): seq<Section> {
    if ds == [] then [] else [Stops(ds[0])] + StopAny(ds[1..])
  }

  /** Stops one after the other, in whatever order, stop them all. */
  lemma {:induction false} StopsAll(race: BM.Race, s: System, ds: seq<Channel>, done: set<Channel>, p: SP.Pool)
    requires s.m.pool == SP.StopAll(p, done) && forall d :: d in ds ==> d !in done
    requires forall i, j :: 0 <= i < j < |ds| ==> ds[i] != ds[j]
    ensures Run(race, s, StopAny(ds)) == s.(m := s.m.(pool := SP.StopAll(p, done + set d | d in ds)))
    decreases |ds|
  {
    if ds == [] {
      assert done + (set d | d in ds) == done;
    } else {
      var d, t := ds[0], Next(race, s, Stops(ds[0]));
      assert d in ds && forall e :: e in ds[1..] ==> e in ds;
      SP.StopAllOneMore(p, done, d);
      StopsAll(race, t, ds[1..], done + {d}, p);
      assert done + {d} + (set e | e in ds[1..]) == done + set e | e in ds;
      assert StopAny(ds)[1..] == StopAny(ds[1..]);
    }
  }

  lemma StopsEach(race: BM.Race, s: System, ds: seq<Channel>, cs: set<Channel>)
    requires (set d | d in ds) == cs && forall i, j :: 0 <= i < j < |ds| ==> ds[i] != ds[j]
    ensures Run(race, s, StopAny(ds)) == s.(m := s.m.(pool := SP.StopAll(s.m.pool, cs)))
  {
    SP.StopAllNone(s.m.pool);
    StopsAll(race, s, ds, {}, s.m.pool);
    assert {} + cs == cs;
  }

  /** A close run through cancels the timers and stops every channel that was bridged, in any order. */
  lemma CloseIsARun(race: BM.Race, s: System, ds: seq<Channel>)
    requires (set d | d in ds) == s.m.pool.bridges.Keys && forall i, j :: 0 <= i < j < |ds| ==> ds[i] != ds[j]
    ensures Run(race, s, [CancelsAll] + StopAny(ds)) == s.(m := BM.Step(race, s.m, BM.Closed))
  {
    RunOne(race, s, CancelsAll);
    RunAppend(race, s, [CancelsAll], StopAny(ds));
    StopsEach(race, Next(race, s, CancelsAll), ds, s.m.pool.bridges.Keys);
  }

  /** In every interleaving, no bridged Discord user is tracked, nor is one about to be. */
  lemma NoPuppetIsTracked(race: BM.Race, s: System, xs: seq<Section>, c: Channel, user: BM.Mxid)
    requires Kept(s) && user in BM.UsersIn(Run(race, s, xs).m, c)
    ensures !("@discord_" <= user)
  {
    InterleavingsKeepMembership(race, s, xs);
    assert !BM.IsGhost(user);
  }

  lemma PuppetsAreIgnored(race: BM.Race, s: System, c: Channel, user: BM.Mxid, name: string)
    requires "@discord_" <= user
    ensures Next(race, s, JoinBegins(c, user, name)) == s == Next(race, s, LeaveBegins(c, user))
  {
  }
}
