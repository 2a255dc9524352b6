/** The pool of sidecar slots and the bridges that use them, one lock-protected section at a time. */
module SlotPool {
  import opened Wrappers
  import opened Bytes
  import opened Ids

  const FREE: uint64 := 0
  const DEAD: uint64 := 0xFFFF_FFFF_FFFF_FFFF

  /** A slot holds a channel id unless it is free or dead; Discord ids are neither of these numbers. */
  predicate IsChannel(c: uint64) {
    c != FREE && c != DEAD
  }

  lemma ChannelIds(c: uint64)
    ensures IsChannel(c) <==> 1 <= c <= 0xFFFF_FFFF_FFFF_FFFE
  {
  }

  /** `connected` is false for the sentinel that a claim leaves until the bridge is published. */
  datatype Bridge = Bridge(channel: Channel, room: RoomId, slot: nat, connected: bool)

  datatype Pool = Pool(slots: seq<uint64>, bridges: map<Channel, Bridge>)

  /** A start that has claimed its slot and has not published its bridge yet. */
  datatype Start = Start(channel: Channel, room: RoomId, slot: nat)

  // ---------------------------------------------------------------- sections

  function LowestFree(slots: seq<uint64>, from: nat): (r: Option<nat>)
    requires from <= |slots|
    ensures r.Some? ==> from <= r.value < |slots| && slots[r.value] == FREE
                        && forall j :: from <= j < r.value ==> slots[j] != FREE
    ensures r.None? ==> forall j :: from <= j < |slots| ==> slots[j] != FREE
    decreases |slots| - from
  {
    if from == |slots| then None
    else if slots[from] == FREE then Some(from)
    else LowestFree(slots, from + 1)
  }

  /** The claiming section of startBridge; `room` is the channel's room, empty when none is known. */
  function Claim(p: Pool, c: Channel, room: RoomId): (Pool, Option<Start>) {
    if c in p.bridges then (p, None)
    else
      match LowestFree(p.slots, 0)
      case None => (p, None)
      case Some(i) =>
        var taken := p.slots[i := c];
        if room == "" then (p.(slots := taken[i := FREE]), None)
        else (Pool(taken, p.bridges[c := Bridge(c, "", i, false)]), Some(Start(c, room, i)))
  }

  /** The publishing section of startBridge: unconditional. */
  function Publish(p: Pool, s: Start): Pool {
    p.(bridges := p.bridges[s.channel := Bridge(s.channel, s.room, s.slot, true)])
  }

  /** The section of stopBridgeForChannel. */
  function Stop(p: Pool, c: Channel): Pool {
    if c !in p.bridges then p
    else
      var i := p.bridges[c].slot;
      Pool(if i < |p.slots| && p.slots[i] != DEAD then p.slots[i := FREE] else p.slots, p.bridges - {c})
  }

  /** The section of HandleSlotDeath; it does nothing to a slot that is dead already. */
  function MarkDead(p: Pool, i: nat): Pool {
    if i < |p.slots| then p.(slots := p.slots[i := DEAD]) else p
  }

  function AddSlot(p: Pool): Pool {
    p.(slots := p.slots + [FREE])
  }

  // ----------------------------------------------------- what the pool keeps

  /** Every bridge is filed under its own channel and points at an existing slot. */
  ghost predicate Keyed(p: Pool) {
    forall c :: c in p.bridges ==> IsChannel(c) && p.bridges[c].channel == c && p.bridges[c].slot < |p.slots|
  }

  predicate Busy(v: uint64) {
    v != FREE && v != DEAD
  }

  /** Bridges and slots agree: a bridge's slot holds its channel or is dead, a busy slot's channel is
      bridged on that slot, and no two bridges share a slot. */
  ghost predicate Coherent(p: Pool) {
    && Keyed(p)
    && (forall c :: c in p.bridges ==> p.slots[p.bridges[c].slot] == c || p.slots[p.bridges[c].slot] == DEAD)
    && (forall i :: 0 <= i < |p.slots| && Busy(p.slots[i]) ==>
          p.slots[i] in p.bridges && p.bridges[p.slots[i]].slot == i)
    && (forall c, d :: c in p.bridges && d in p.bridges && p.bridges[c].slot == p.bridges[d].slot ==> c == d)
  }

  // ----------------------------------------------------------- interleavings

  /** The pool, and the one start the /sync goroutine may have in hand. */
  datatype System = System(pool: Pool, starting: Option<Start>)

  /** The sections, as any goroutine may run them. A claim waits while a start is in hand. */
  datatype Section = Claiming(channel: Channel, room: RoomId) | Publishing | Stopping(channel: Channel)
                   | Dying(slot: nat) | Adding

  function Next(s: System, x: Section): System {
    match x
    case Claiming(c, room) =>
      if s.starting.Some? || !IsChannel(c) then s
      else var (pool, start) := Claim(s.pool, c, room); System(pool, start)
    case Publishing =>
      if s.starting.None? then s else System(Publish(s.pool, s.starting.value), None)
    case Stopping(c) => s.(pool := Stop(s.pool, c))
    case Dying(i) => s.(pool := MarkDead(s.pool, i))
    case Adding => s.(pool := AddSlot(s.pool))
  }

  function Run(s: System, xs: seq<Section>): System
    decreases |xs|
  {
    if xs == [] then s else Run(Next(s, xs[0]), xs[1..])
  }

  /** No stop of a channel falls between that channel's claim and its publish. */
  predicate StopsRespectStarts(s: System, xs: seq<Section>)
    decreases |xs|
  {
    xs == [] ||
    (!(xs[0].Stopping? && s.starting.Some? && s.starting.value.channel == xs[0].channel)
     && StopsRespectStarts(Next(s, xs[0]), xs[1..]))
  }

  /** The bridge being started is still the sentinel on the claimed slot. */
  ghost predicate StartStands(s: System) {
    s.starting.Some? ==>
      s.starting.value.channel in s.pool.bridges
      && s.pool.bridges[s.starting.value.channel].slot == s.starting.value.slot
  }

  lemma StopKeepsCoherent(p: Pool, c: Channel)
    requires Coherent(p)
    ensures Coherent(Stop(p, c))
    ensures c in p.bridges ==> !Busy(Stop(p, c).slots[p.bridges[c].slot])
  {
  }

  /** A claim either changes nothing, or takes the lowest free slot for the channel's sentinel. */
  lemma ClaimOutcome(p: Pool, c: Channel, room: RoomId)
    ensures var (q, start) := Claim(p, c, room);
            if start.None? then
              q == p && (c in p.bridges || room == "" || forall j :: 0 <= j < |p.slots| ==> p.slots[j] != FREE)
            else
              var i := start.value.slot;
              && start.value == Start(c, room, i) && c !in p.bridges && room != ""
              && i < |p.slots| && p.slots[i] == FREE && (forall j :: 0 <= j < i ==> p.slots[j] != FREE)
              && q == Pool(p.slots[i := c], p.bridges[c := Bridge(c, "", i, false)])
  {
  }

  lemma ClaimKeepsCoherent(p: Pool, c: Channel, room: RoomId)
    requires Coherent(p) && IsChannel(c)
    ensures Coherent(Claim(p, c, room).0)
    ensures StartStands(System(Claim(p, c, room).0, Claim(p, c, room).1))
  {
    ClaimOutcome(p, c, room);
  }

  lemma MarkDeadKeepsCoherent(p: Pool, i: nat)
    requires Coherent(p)
    ensures Coherent(MarkDead(p, i))
  {
  }

  lemma PublishKeepsCoherent(s: System)
    requires Coherent(s.pool) && s.starting.Some? && StartStands(s)
    ensures Coherent(Next(s, Publishing).pool)
  {
  }

  lemma ClaimingKeepsCoherent(s: System, c: Channel, room: RoomId)
    requires Coherent(s.pool) && StartStands(s)
    ensures Coherent(Next(s, Claiming(c, room)).pool) && StartStands(Next(s, Claiming(c, room)))
  {
    if s.starting.None? && IsChannel(c) {
      ClaimKeepsCoherent(s.pool, c, room);
    }
  }

  lemma StoppingKeepsCoherent(s: System, c: Channel)
    requires Coherent(s.pool) && StartStands(s)
    requires !(s.starting.Some? && s.starting.value.channel == c)
    ensures Coherent(Next(s, Stopping(c)).pool) && StartStands(Next(s, Stopping(c)))
  {
    StopKeepsCoherent(s.pool, c);
  }

  lemma DyingKeepsCoherent(s: System, i: nat)
    requires Coherent(s.pool) && StartStands(s)
    ensures Coherent(Next(s, Dying(i)).pool) && StartStands(Next(s, Dying(i)))
  {
    MarkDeadKeepsCoherent(s.pool, i);
  }

  lemma AddingKeepsCoherent(s: System)
    requires Coherent(s.pool) && StartStands(s)
    ensures Coherent(Next(s, Adding).pool) && StartStands(Next(s, Adding))
  {
  }

  lemma NextKeepsCoherent(s: System, x: Section)
    requires Coherent(s.pool) && StartStands(s)
    requires !(x.Stopping? && s.starting.Some? && s.starting.value.channel == x.channel)
    ensures Coherent(Next(s, x).pool) && StartStands(Next(s, x))
  {
    var after := Next(s, x);
    assert Coherent(after.pool) && StartStands(after) by {
      match x
      case Claiming(c, room) => ClaimingKeepsCoherent(s, c, room);
      case Publishing => if s.starting.Some? { PublishKeepsCoherent(s); }
      case Stopping(c) => StoppingKeepsCoherent(s, c);
      case Dying(i) => DyingKeepsCoherent(s, i);
      case Adding => AddingKeepsCoherent(s);
    }
  }

  /** In every interleaving that respects starts, bridges and slots agree at every moment. */
  lemma {:induction false} InterleavingsKeepCoherent(s: System, xs: seq<Section>)
    requires Coherent(s.pool) && StartStands(s) && StopsRespectStarts(s, xs)
    ensures Coherent(Run(s, xs).pool) && StartStands(Run(s, xs))
    decreases |xs|
  {
    if xs == [] {
    } else {
      NextKeepsCoherent(s, xs[0]);
      InterleavingsKeepCoherent(Next(s, xs[0]), xs[1..]);
    }
  }

  /** So the map-order searches for the bridge on a slot have one possible answer. */
  lemma SearchHasOneAnswer(s: System, xs: seq<Section>, c: Channel, d: Channel)
    requires Coherent(s.pool) && StartStands(s) && StopsRespectStarts(s, xs)
    requires c in Run(s, xs).pool.bridges && d in Run(s, xs).pool.bridges
    requires Run(s, xs).pool.bridges[c].slot == Run(s, xs).pool.bridges[d].slot
    ensures c == d
  {
    InterleavingsKeepCoherent(s, xs);
  }

  /** Neither the claim nor the publish of a start. */
  predicate FromElsewhere(xs: seq<Section>) {
    forall x :: x in xs ==> x.Stopping? || x.Dying? || x.Adding?
  }

  /** While a start is in hand: its slot holds its channel, was released or died, and no other bridge is on it. */
  ghost predicate InHand(s: System) {
    && Coherent(s.pool) && s.starting.Some?
    && var t := s.starting.value;
       t.slot < |s.pool.slots| && (s.pool.slots[t.slot] == t.channel || !Busy(s.pool.slots[t.slot]))
       && forall d :: d in s.pool.bridges ==> (s.pool.bridges[d].slot == t.slot <==> d == t.channel)
  }

  lemma StopWhileStarting(s: System, c: Channel)
    requires InHand(s)
    ensures var t, e := s.starting.value, Next(s, Stopping(c));
            InHand(e) && (t.channel in e.pool.bridges <==> t.channel in s.pool.bridges && c != t.channel)
            && (e.pool.slots[t.slot] == DEAD <==> s.pool.slots[t.slot] == DEAD)
  {
    StopKeepsCoherent(s.pool, c);
    var e := Stop(s.pool, c);
    assert forall d :: d in e.bridges ==> d in s.pool.bridges && e.bridges[d] == s.pool.bridges[d];
  }

  lemma DeathWhileStarting(s: System, i: nat)
    requires InHand(s)
    ensures var t, e := s.starting.value, Next(s, Dying(i));
            InHand(e) && (e.pool.slots[t.slot] == DEAD <==> s.pool.slots[t.slot] == DEAD || i == t.slot)
  {
  }

  lemma OneSectionWhileStarting(s: System, x: Section)
    requires InHand(s) && (x.Stopping? || x.Dying? || x.Adding?)
    ensures var t, e := s.starting.value, Next(s, x);
            InHand(e) && e.starting == s.starting
            && (t.channel in e.pool.bridges <==> t.channel in s.pool.bridges && x != Stopping(t.channel))
            && (e.pool.slots[t.slot] == DEAD <==> s.pool.slots[t.slot] == DEAD || x == Dying(t.slot))
  {
    match x
    case Stopping(c) => StopWhileStarting(s, c);
    case Dying(i) => DeathWhileStarting(s, i);
    case Adding =>
  }

  lemma {:induction false} WhileStarting(s: System, xs: seq<Section>)
    requires InHand(s) && FromElsewhere(xs)
    ensures var t, e := s.starting.value, Run(s, xs);
            InHand(e) && e.starting == s.starting
            && (t.channel in e.pool.bridges <==> t.channel in s.pool.bridges && Stopping(t.channel) !in xs)
            && (e.pool.slots[t.slot] == DEAD <==> s.pool.slots[t.slot] == DEAD || Dying(t.slot) in xs)
    decreases |xs|
  {
    if xs == [] {
    } else {
      assert forall x :: x in xs <==> x == xs[0] || x in xs[1..];
      OneSectionWhileStarting(s, xs[0]);
      WhileStarting(Next(s, xs[0]), xs[1..]);
    }
  }

  lemma PublishWhileInHand(s: System)
    requires InHand(s) && IsChannel(s.starting.value.channel)
    ensures Coherent(Next(s, Publishing).pool) <==>
              s.starting.value.channel in s.pool.bridges || s.pool.slots[s.starting.value.slot] == DEAD
  {
    var t, p, q := s.starting.value, s.pool, Next(s, Publishing).pool;
    assert q.bridges[t.channel].slot == t.slot && q.slots == p.slots;
    if t.channel !in p.bridges && p.slots[t.slot] != DEAD {
      assert p.slots[t.slot] == FREE;
      assert !Coherent(q);
    }
  }

  /** Publishing is unconditional, so a stop in between breaks the agreement. Exactly: after a claim that
      got slot i, any sections from other goroutines and the publish, the pool is coherent if and only if
      none of those sections stopped the channel, or one of them found slot i dead. */
  lemma PublishIsSafeExactly(p: Pool, c: Channel, room: RoomId, xs: seq<Section>)
    requires Coherent(p) && IsChannel(c) && FromElsewhere(xs)
    requires Claim(p, c, room).1.Some?
    ensures var s := Next(System(p, None), Claiming(c, room));
            var i := s.starting.value.slot;
            Coherent(Next(Run(s, xs), Publishing).pool) <==> Stopping(c) !in xs || Dying(i) in xs
  {
    var s := Next(System(p, None), Claiming(c, room));
    ClaimKeepsCoherent(p, c, room);
    WhileStarting(s, xs);
    PublishWhileInHand(Run(s, xs));
  }

  /** The failure, concretely: the slot of a published bridge is handed out again. */
  lemma StoppedStartSharesItsSlot()
    ensures var xs := [Claiming(7, "!a"), Stopping(7), Publishing, Claiming(9, "!b"), Publishing];
            var p := Run(System(Pool([FREE], map[]), None), xs).pool;
            7 in p.bridges && 9 in p.bridges && p.bridges[7].slot == 0 && p.bridges[9].slot == 0
  {
  }

  // ------------------------------------------- what no interleaving can break

  ghost predicate Sane(s: System) {
    Keyed(s.pool)
    && (s.starting.Some? ==> IsChannel(s.starting.value.channel) && s.starting.value.slot < |s.pool.slots|)
  }

  /** Without any hypothesis on the run: bridges stay keyed and in range, slots are only added, and a
      dead slot is dead for good. */
  lemma {:induction false} DeathIsAbsorbing(s: System, xs: seq<Section>)
    requires Sane(s)
    ensures var e := Run(s, xs);
            Sane(e) && |s.pool.slots| <= |e.pool.slots|
            && forall i :: 0 <= i < |s.pool.slots| && s.pool.slots[i] == DEAD ==> e.pool.slots[i] == DEAD
    decreases |xs|
  {
    if xs == [] {
    } else {
      DeathIsAbsorbing(Next(s, xs[0]), xs[1..]);
    }
  }

  ghost predicate Abandoned(s: System, i: nat) {
    i < |s.pool.slots| && s.pool.slots[i] == DEAD
    && (forall c :: c in s.pool.bridges ==> s.pool.bridges[c].slot != i)
    && (s.starting.Some? ==> s.starting.value.slot != i)
  }

  /** Once a dead slot has no bridge, nothing ever puts one on it again. */
  lemma {:induction false} DeadSlotStaysEmpty(s: System, xs: seq<Section>, i: nat)
    requires Abandoned(s, i)
    ensures Abandoned(Run(s, xs), i)
    decreases |xs|
  {
    if xs == [] {
    } else {
      DeadSlotStaysEmpty(Next(s, xs[0]), xs[1..], i);
    }
  }

  /** HandleSlotDeath run through: the victim is the bridge the search finds. */
  function Bury(p: Pool, i: nat, victim: Option<Channel>): Pool {
    match victim
    case None => MarkDead(p, i)
    case Some(c) => Stop(MarkDead(p, i), c)
  }

  /** The outcome of the search over activeBridges, in whatever order. */
  ghost predicate IsVictim(p: Pool, i: nat, victim: Option<Channel>) {
    match victim
    case None => forall c :: c in p.bridges ==> p.bridges[c].slot != i
    case Some(c) => c in p.bridges && p.bridges[c].slot == i
  }

  ghost predicate NoBridgeOn(p: Pool, i: nat) {
    forall c :: c in p.bridges ==> p.bridges[c].slot != i
  }

  predicate IsDead(p: Pool, i: nat) {
    i < |p.slots| && p.slots[i] == DEAD
  }

  /** HandleSlotDeath with its guard against a second death. */
  function Death(p: Pool, i: nat, victim: Option<Channel>): Pool {
    if IsDead(p, i) then p else Bury(p, i, victim)
  }

  /** The first death of a slot leaves no bridge on it, and the same death reported again changes nothing. */
  lemma DeathEmptiesTheSlot(p: Pool, i: nat, victim: Option<Channel>, again: Option<Channel>)
    requires Coherent(p) && i < |p.slots| && IsVictim(p, i, victim)
    ensures var q := Death(p, i, victim);
            && Coherent(q) && IsDead(q, i) && Death(q, i, again) == q
            && (NoBridgeOn(q, i) <==> IsDead(p, i) ==> victim.None?)
  {
    MarkDeadKeepsCoherent(p, i);
    if victim.Some? {
      StopKeepsCoherent(MarkDead(p, i), victim.value);
    }
    DeathTouchesOneSlot(p, i, victim);
  }

  lemma PublishReturns(s: System, i: nat)
    requires s.starting.Some? && s.starting.value.slot == i
    ensures !NoBridgeOn(Run(s, [Publishing]).pool, i)
  {
    RunOne(s, Publishing);
    var c, q := s.starting.value.channel, Next(s, Publishing).pool;
    assert c in q.bridges && q.bridges[c].slot == i;
  }

  /** It leaves none there for good exactly when no start is in hand on that slot and the slot was not
      dead with a bridge on it already: the publish of such a start puts its bridge on the dead slot, and
      the guard then keeps every later report of the death from taking it off. */
  lemma DeathLeavesNoBridge(s: System, i: nat, victim: Option<Channel>)
    requires Coherent(s.pool) && i < |s.pool.slots| && IsVictim(s.pool, i, victim)
    ensures (forall xs :: NoBridgeOn(Run(System(Death(s.pool, i, victim), s.starting), xs).pool, i)) <==>
              !(s.starting.Some? && s.starting.value.slot == i) && (IsDead(s.pool, i) ==> victim.None?)
  {
    var dead := System(Death(s.pool, i, victim), s.starting);
    DeathEmptiesTheSlot(s.pool, i, victim, None);
    if s.starting.Some? && s.starting.value.slot == i {
      PublishReturns(dead, i);
    } else if NoBridgeOn(dead.pool, i) {
      forall xs ensures NoBridgeOn(Run(dead, xs).pool, i) {
        DeadSlotStaysEmpty(dead, xs, i);
      }
    } else {
      var none: seq<Section> := [];
      assert Run(dead, none) == dead;
      assert !NoBridgeOn(Run(System(Death(s.pool, i, victim), s.starting), none).pool, i);
    }
  }

  /** Only a stop of its channel ends a bridge; a publish can at most move it. */
  lemma {:induction false} OnlyItsStopEndsABridge(s: System, xs: seq<Section>, c: Channel)
    requires c in s.pool.bridges && Stopping(c) !in xs
    ensures c in Run(s, xs).pool.bridges
    decreases |xs|
  {
    if xs == [] {
    } else {
      assert forall x :: x in xs[1..] ==> x in xs;
      OnlyItsStopEndsABridge(Next(s, xs[0]), xs[1..], c);
    }
  }

  /** The failure, concretely: a slot dies, with its death run through, while a start is in hand on it. */
  lemma PublishOutlivesItsSlot()
    ensures var xs := [Claiming(7, "!a"), Dying(0), Stopping(7), Publishing];
            var p := Run(System(Pool([FREE], map[]), None), xs).pool;
            p == Pool([DEAD], map[7 := Bridge(7, "!a", 0, true)]) && Coherent(p) && Death(p, 0, Some(7)) == p
  {
    var s0 := System(Pool([FREE], map[]), None);
    var s1 := Next(s0, Claiming(7, "!a"));
    assert LowestFree([FREE], 0) == Some(0);
    assert s1 == System(Pool([7], map[7 := Bridge(7, "", 0, false)]), Some(Start(7, "!a", 0)));
    var s2 := Next(s1, Dying(0));
    var s3 := Next(s2, Stopping(7));
    assert s3.pool == Pool([DEAD], map[]);
    RunTwo(s0, Claiming(7, "!a"), Dying(0));
    RunTwo(s2, Stopping(7), Publishing);
    var dies, publishes := [Claiming(7, "!a"), Dying(0)], [Stopping(7), Publishing];
    RunAppend(s0, dies, publishes);
    assert dies + publishes == [Claiming(7, "!a"), Dying(0), Stopping(7), Publishing];
  }

  /** A death touches its own slot and its own bridge, and nothing else. */
  lemma DeathTouchesOneSlot(p: Pool, i: nat, victim: Option<Channel>)
    requires Coherent(p) && IsVictim(p, i, victim)
    ensures var q := Bury(p, i, victim);
            && |q.slots| == |p.slots| && (i < |p.slots| ==> q.slots[i] == DEAD)
            && (forall j :: 0 <= j < |p.slots| && j != i ==> q.slots[j] == p.slots[j])
            && (forall c :: c in q.bridges <==> c in p.bridges && p.bridges[c].slot != i)
            && (forall c :: c in q.bridges ==> q.bridges[c] == p.bridges[c])
  {
  }

  /** The handlers are runs of sections: a start is a claim and a publish, a death is a marking and a stop. */
  lemma HandlersAreRuns(p: Pool, c: Channel, room: RoomId, i: nat, victim: Channel)
    requires IsChannel(c)
    ensures Run(System(p, None), [Claiming(c, room), Publishing]).pool == StartBridge(p, c, room)
    ensures Run(System(p, None), [Dying(i), Stopping(victim)]).pool == Bury(p, i, Some(victim))
    ensures Next(System(p, None), Adding).pool == AddSlot(p)
  {
    RunTwo(System(p, None), Claiming(c, room), Publishing);
    RunTwo(System(p, None), Dying(i), Stopping(victim));
  }

  lemma {:induction false} RunAppend(s: System, xs: seq<Section>, ys: seq<Section>)
    ensures Run(s, xs + ys) == Run(Run(s, xs), ys)
    decreases |xs|
  {
    if xs == [] {
      assert xs + ys == ys;
    } else {
      RunAppend(Next(s, xs[0]), xs[1..], ys);
      assert (xs + ys)[1..] == xs[1..] + ys;
    }
  }

  lemma RunOne(s: System, x: Section)
    ensures Run(s, [x]) == Next(s, x)
  {
    assert [x][1..] == [];
  }

  lemma RunTwo(s: System, x: Section, y: Section)
    ensures Run(s, [x, y]) == Next(Next(s, x), y)
  {
    assert [x, y][1..] == [y] && [y][1..] == [];
    assert Run(Next(s, x), [y]) == Run(Next(Next(s, x), y), []);
  }

  // ------------------------------------------------------------ conservation

  datatype Kind = KFree | KDead | KBusy

  function KindOf(v: uint64): Kind {
    if v == FREE then KFree else if v == DEAD then KDead else KBusy
  }

  function Count(slots: seq<uint64>, k: Kind): nat {
    if slots == [] then 0
    else Count(slots[..|slots| - 1], k) + if KindOf(slots[|slots| - 1]) == k then 1 else 0
  }

  lemma {:induction false} KindsAddUp(slots: seq<uint64>)
    ensures Count(slots, KFree) + Count(slots, KDead) + Count(slots, KBusy) == |slots|
    ensures Count(slots, KFree) > 0 <==> LowestFree(slots, 0).Some?
  {
    if slots == [] {
    } else {
      var front := slots[..|slots| - 1];
      KindsAddUp(front);
      if LowestFree(front, 0).Some? {
        assert slots[LowestFree(front, 0).value] == FREE;
      }
    }
  }

  /** The state between handlers: coherent, every bridge published, and none on a dead slot. */
  ghost predicate Settled(p: Pool) {
    Coherent(p)
    && forall c :: c in p.bridges ==> p.bridges[c].connected && p.slots[p.bridges[c].slot] == c
  }

  function BusyChannels(slots: seq<uint64>): set<uint64> {
    if slots == [] then {}
    else
      var last := slots[|slots| - 1];
      BusyChannels(slots[..|slots| - 1]) + if Busy(last) then {last} else {}
  }

  lemma {:induction false} BusyChannelsAre(slots: seq<uint64>, c: uint64)
    ensures c in BusyChannels(slots) <==> Busy(c) && c in slots
  {
    if slots == [] {
    } else {
      BusyChannelsAre(slots[..|slots| - 1], c);
      assert slots == slots[..|slots| - 1] + [slots[|slots| - 1]];
    }
  }

  lemma {:induction false} BusyChannelsCounted(slots: seq<uint64>)
    requires forall i, j :: 0 <= i < j < |slots| && Busy(slots[i]) ==> slots[i] != slots[j]
    ensures |BusyChannels(slots)| == Count(slots, KBusy)
  {
    if slots == [] {
    } else {
      BusyChannelsCounted(slots[..|slots| - 1]);
      BusyChannelsAre(slots[..|slots| - 1], slots[|slots| - 1]);
    }
  }

  /** Between handlers the busy slots are as many as the active bridges. */
  lemma BusySlotsAreBridges(p: Pool)
    requires Settled(p)
    ensures Count(p.slots, KBusy) == |p.bridges|
  {
    BusyChannelsCounted(p.slots);
    forall c ensures c in BusyChannels(p.slots) <==> c in p.bridges {
      BusyChannelsAre(p.slots, c);
      if c in p.bridges {
        assert p.slots[p.bridges[c].slot] == c;
      }
    }
    assert BusyChannels(p.slots) == p.bridges.Keys;
  }

  /** startBridge run through. */
  function StartBridge(p: Pool, c: Channel, room: RoomId): Pool {
    match Claim(p, c, room)
    case (q, None) => q
    case (q, Some(s)) => Publish(q, s)
  }

  /** A start run through either changes nothing or adds one published bridge on the lowest free slot. */
  lemma StartOutcome(p: Pool, c: Channel, room: RoomId)
    ensures var q := StartBridge(p, c, room);
            if c in p.bridges || room == "" || (forall j :: 0 <= j < |p.slots| ==> p.slots[j] != FREE) then q == p
            else
              exists i :: 0 <= i < |p.slots| && p.slots[i] == FREE && (forall j :: 0 <= j < i ==> p.slots[j] != FREE)
                          && q == Pool(p.slots[i := c], p.bridges[c := Bridge(c, room, i, true)])
  {
    ClaimOutcome(p, c, room);
    var (q, start) := Claim(p, c, room);
    if start.Some? {
      var i := start.value.slot;
      assert StartBridge(p, c, room).bridges == p.bridges[c := Bridge(c, room, i, true)];
    }
  }

  lemma StartKeepsSettled(p: Pool, c: Channel, room: RoomId)
    requires Settled(p) && IsChannel(c)
    ensures Settled(StartBridge(p, c, room))
  {
    var q := StartBridge(p, c, room);
    StartOutcome(p, c, room);
    if q != p {
      var i :| 0 <= i < |p.slots| && p.slots[i] == FREE
               && q == Pool(p.slots[i := c], p.bridges[c := Bridge(c, room, i, true)]);
      NewBridgeKeepsSettled(p, c, room, i);
    }
  }

  lemma NewBridgeKeepsSettled(p: Pool, c: Channel, room: RoomId, i: nat)
    requires Settled(p) && IsChannel(c) && c !in p.bridges && i < |p.slots| && p.slots[i] == FREE
    ensures Settled(Pool(p.slots[i := c], p.bridges[c := Bridge(c, room, i, true)]))
  {
  }

  lemma StopKeepsSettled(p: Pool, c: Channel)
    requires Settled(p)
    ensures Settled(Stop(p, c))
  {
    StopKeepsCoherent(p, c);
  }

  lemma BuryKeepsSettled(p: Pool, i: nat, victim: Option<Channel>)
    requires Settled(p) && IsVictim(p, i, victim)
    ensures Settled(Bury(p, i, victim))
  {
    MarkDeadKeepsCoherent(p, i);
    var q := MarkDead(p, i);
    if victim.Some? {
      StopKeepsCoherent(q, victim.value);
    }
    assert forall c :: c in Bury(p, i, victim).bridges ==> c in p.bridges && p.bridges[c].slot != i;
  }

  /** Allocation is work-conserving: a channel that is not bridged and has a room gets a bridge exactly
      when there are fewer bridges than live slots, and it gets the lowest free slot. Nothing else moves. */
  lemma StartSucceedsExactly(p: Pool, c: Channel, room: RoomId)
    requires Settled(p) && IsChannel(c) && c !in p.bridges && room != ""
    ensures var q := StartBridge(p, c, room);
            && (c in q.bridges <==> |p.bridges| < |p.slots| - Count(p.slots, KDead))
            && (c !in q.bridges ==> q == p)
            && (c in q.bridges ==>
                  var i := q.bridges[c].slot;
                  && i < |p.slots| && p.slots[i] == FREE && (forall j :: 0 <= j < i ==> p.slots[j] != FREE)
                  && q == Pool(p.slots[i := c], p.bridges[c := Bridge(c, room, i, true)]))
  {
    KindsAddUp(p.slots);
    BusySlotsAreBridges(p);
    StartOutcome(p, c, room);
  }

  lemma AddSlotKeepsSettled(p: Pool)
    requires Settled(p)
    ensures Settled(AddSlot(p))
  {
  }

  /** A slot added while running serves the next start, however full the pool was. */
  lemma AddSlotMakesRoom(p: Pool, c: Channel, room: RoomId)
    requires Settled(p) && IsChannel(c) && c !in p.bridges && room != ""
    ensures var q := AddSlot(p);
            && Settled(q) && q.bridges == p.bridges && q.slots == p.slots + [0]
            && c in StartBridge(q, c, room).bridges
            && StartBridge(q, c, room).bridges[c].slot <= |p.slots|
  {
    var q := AddSlot(p);
    AddSlotKeepsSettled(p);
    StartSucceedsExactly(q, c, room);
    StartOutcome(q, c, room);
    assert q.slots[|p.slots|] == FREE;
  }

  /** Without a room, or with a bridge already there, a start leaves the pool as it was. */
  lemma StartWithoutRoomRestores(p: Pool, c: Channel, room: RoomId)
    requires room == "" || c in p.bridges
    ensures StartBridge(p, c, room) == p
  {
  }

  /** Start then stop gives the slot back: the pool is as before. */
  lemma StopUndoesStart(p: Pool, c: Channel, room: RoomId)
    requires Settled(p) && IsChannel(c) && c !in p.bridges
    ensures Stop(StartBridge(p, c, room), c) == p
  {
  }

  // ------------------------------------------------------ stopping many at once

  /** The effect of stopping every channel in `cs`, in any order. */
  ghost function StopAll(p: Pool, cs: set<Channel>): Pool {
    Pool(seq(|p.slots|, i requires 0 <= i < |p.slots| =>
           if p.slots[i] != DEAD && exists c :: c in cs && c in p.bridges && p.bridges[c].slot == i then FREE
           else p.slots[i]),
         p.bridges - cs)
  }

  lemma StopAllNone(p: Pool)
    ensures StopAll(p, {}) == p
  {
  }

  lemma StopAllOneMore(p: Pool, cs: set<Channel>, c: Channel)
    requires c !in cs
    ensures Stop(StopAll(p, cs), c) == StopAll(p, cs + {c})
  {
  }

  lemma StopAllKeepsSettled(p: Pool, cs: set<Channel>)
    requires Settled(p)
    ensures Settled(StopAll(p, cs))
  {
  }
}
