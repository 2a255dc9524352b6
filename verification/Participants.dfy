/** LiveKit participants: one connection per Discord user, set up by goroutines that race with disconnects. */
module Participants {
  import opened Wrappers
  import opened Ids

  type Room = nat
  type Goroutine = nat

  /** A call of ensureParticipant that has marked its user as connecting; `room` once it has a connection. */
  datatype Flight = Flight(user: User, room: Option<Room>)

  /** `connecting` is the source's map of flags. `owner` says whom a room was made for, `closing` holds the
      rooms taken out of the map and not hung up yet, `gone` those hung up or lost, `published` those that
      ever entered the map. */
  datatype State = State(
    participants: map<User, Room>,
    connecting: set<User>,
    flights: map<Goroutine, Flight>,
    owner: map<Room, User>,
    closing: set<Room>,
    gone: set<Room>,
    published: set<Room>)

  const START := State(map[], {}, map[], map[], {}, {}, {})

  /** The sections, run by any goroutine at any time. Dialled makes a new room; Lost is the disconnect
      callback of a room, which may come at any moment after that. */
  datatype Section =
    | Begin(g: Goroutine, user: User)
    | DialFailed(g: Goroutine)
    | Dialled(g: Goroutine, room: Room)
    | PublishFailed(g: Goroutine)
    | Published(g: Goroutine)
    | Lost(room: Room)
    | RemoveUser(user: User)
    | HungUp(room: Room)
    | CloseAll

  predicate Enabled(s: State, x: Section) {
    match x
    case Begin(g, _) => g !in s.flights
    case DialFailed(g) => g in s.flights && s.flights[g].room.None?
    case Dialled(g, r) => g in s.flights && s.flights[g].room.None? && r !in s.owner
    case PublishFailed(g) => g in s.flights && s.flights[g].room.Some?
    case Published(g) => g in s.flights && s.flights[g].room.Some?
    case Lost(r) => r in s.owner
    case RemoveUser(_) => true
    case HungUp(r) => r in s.closing
    case CloseAll => true
  }

  function Next(s: State, x: Section): State
    requires Enabled(s, x)
  {
    match x
    case Begin(g, u) =>
      if u in s.participants || u in s.connecting then s
      else s.(connecting := s.connecting + {u}, flights := s.flights[g := Flight(u, None)])
    case DialFailed(g) =>
      s.(connecting := s.connecting - {s.flights[g].user}, flights := s.flights - {g})
    case Dialled(g, r) =>
      s.(flights := s.flights[g := s.flights[g].(room := Some(r))], owner := s.owner[r := s.flights[g].user])
    case PublishFailed(g) =>
      s.(gone := s.gone + {s.flights[g].room.value},
         connecting := s.connecting - {s.flights[g].user}, flights := s.flights - {g})
    case Published(g) =>
      var f := s.flights[g];
      s.(participants := s.participants[f.user := f.room.value], published := s.published + {f.room.value},
         connecting := s.connecting - {f.user}, flights := s.flights - {g})
    case Lost(r) =>
      var u := s.owner[r];
      s.(gone := s.gone + {r},
         participants := if u in s.participants && s.participants[u] == r then s.participants - {u} else s.participants)
    case RemoveUser(u) =>
      if u !in s.participants then s
      else s.(participants := s.participants - {u}, closing := s.closing + {s.participants[u]})
    case HungUp(r) => s.(closing := s.closing - {r}, gone := s.gone + {r})
    case CloseAll => s.(participants := map[], closing := s.closing + s.participants.Values)
  }

  predicate Possible(s: State, xs: seq<Section>)
    decreases |xs|
  {
    xs == [] || (Enabled(s, xs[0]) && Possible(Next(s, xs[0]), xs[1..]))
  }

  function Run(s: State, xs: seq<Section>): State
    requires Possible(s, xs)
    decreases |xs|
  {
    if xs == [] then s else Run(Next(s, xs[0]), xs[1..])
  }

  // ---------------------------------------------------------------- invariant

  ghost predicate HasFlight(s: State, u: User) {
    exists g :: g in s.flights && s.flights[g].user == u
  }

  /** No user is both connected and connecting, and each connecting user has exactly one connect in flight. */
  ghost predicate OnePerUser(s: State) {
    && (forall u :: u in s.participants ==> u !in s.connecting)
    && (forall g :: g in s.flights ==> s.flights[g].user in s.connecting)
    && (forall g, h :: g in s.flights && h in s.flights && s.flights[g].user == s.flights[h].user ==> g == h)
    && (forall u :: u in s.connecting ==> HasFlight(s, u))
  }

  ghost predicate Held(s: State, r: Room) {
    r in s.owner && s.owner[r] in s.participants && s.participants[s.owner[r]] == r
  }

  ghost predicate InFlight(s: State, r: Room) {
    exists g :: g in s.flights && s.flights[g].room == Some(r)
  }

  /** Rooms are filed under the user they were made for; those held or being hung up were published, and
      those in flight were not. */
  ghost predicate Filed(s: State) {
    && (forall u :: u in s.participants ==>
          s.participants[u] in s.owner && s.owner[s.participants[u]] == u && s.participants[u] in s.published)
    && (forall g :: g in s.flights && s.flights[g].room.Some? ==>
          s.flights[g].room.value in s.owner && s.owner[s.flights[g].room.value] == s.flights[g].user
          && s.flights[g].room.value !in s.published)
    && (forall r :: r in s.published ==> r in s.owner)
    && (forall r :: r in s.closing ==> r in s.published)
  }

  /** Every room ever connected is held, in flight, being hung up, or gone. */
  ghost predicate Conserved(s: State) {
    Filed(s) && forall r :: r in s.owner ==> Held(s, r) || InFlight(s, r) || r in s.closing || r in s.gone
  }

  lemma StaysConnecting(s: State, x: Section, u: User)
    requires OnePerUser(s) && Enabled(s, x) && u in Next(s, x).connecting
    ensures HasFlight(Next(s, x), u)
  {
    var t := Next(s, x);
    if u !in s.connecting {
      assert t.flights[x.g].user == u;
    } else {
      assert HasFlight(s, u);
      var g :| g in s.flights && s.flights[g].user == u;
      assert g in t.flights && t.flights[g].user == u;
    }
  }

  lemma KeepsOnePerUser(s: State, x: Section)
    requires OnePerUser(s) && Enabled(s, x)
    ensures OnePerUser(Next(s, x))
  {
    forall u | u in Next(s, x).connecting ensures HasFlight(Next(s, x), u) {
      StaysConnecting(s, x, u);
    }
  }

  lemma DialKeepsFiled(s: State, g: Goroutine, r: Room)
    requires Filed(s) && Enabled(s, Dialled(g, r))
    ensures Filed(Next(s, Dialled(g, r)))
  {
  }

  lemma PublishKeepsFiled(s: State, g: Goroutine)
    requires OnePerUser(s) && Filed(s) && Enabled(s, Published(g))
    ensures Filed(Next(s, Published(g)))
  {
  }

  lemma KeepsFiled(s: State, x: Section)
    requires OnePerUser(s) && Filed(s) && Enabled(s, x)
    ensures Filed(Next(s, x))
  {
    if x.Dialled? {
      DialKeepsFiled(s, x.g, x.room);
    } else if x.Published? {
      PublishKeepsFiled(s, x.g);
    }
  }

  lemma StaysHeld(s: State, x: Section, r: Room)
    requires OnePerUser(s) && Filed(s) && Enabled(s, x) && Held(s, r)
    ensures var t := Next(s, x); Held(t, r) || r in t.closing || r in t.gone
  {
  }

  lemma StaysInFlight(s: State, x: Section, r: Room)
    requires Filed(s) && Enabled(s, x) && InFlight(s, r)
    ensures var t := Next(s, x); Held(t, r) || InFlight(t, r) || r in t.gone
  {
    var t := Next(s, x);
    var g :| g in s.flights && s.flights[g].room == Some(r);
    if g in t.flights {
      assert t.flights[g].room == Some(r);
    }
  }

  lemma KeepsConserved(s: State, x: Section)
    requires OnePerUser(s) && Conserved(s) && Enabled(s, x)
    ensures Conserved(Next(s, x))
  {
    var t := Next(s, x);
    KeepsFiled(s, x);
    forall r | r in t.owner
      ensures Held(t, r) || InFlight(t, r) || r in t.closing || r in t.gone
    {
      if r !in s.owner {
        assert t.flights[x.g].room == Some(r);
      } else if Held(s, r) {
        StaysHeld(s, x, r);
      } else if InFlight(s, r) {
        StaysInFlight(s, x, r);
      }
    }
  }

  /** In every interleaving. */
  lemma {:induction false} RunKeepsParticipants(s: State, xs: seq<Section>)
    requires OnePerUser(s) && Conserved(s) && Possible(s, xs)
    ensures OnePerUser(Run(s, xs)) && Conserved(Run(s, xs))
    decreases |xs|
  {
    if xs == [] {
    } else {
      KeepsOnePerUser(s, xs[0]);
      KeepsConserved(s, xs[0]);
      RunKeepsParticipants(Next(s, xs[0]), xs[1..]);
    }
  }

  /** Every room published in any run from the start is still held, being hung up, or gone. */
  lemma PublishedRoomsAreAccountedFor(xs: seq<Section>, r: Room)
    requires Possible(START, xs) && r in Run(START, xs).published
    ensures var s := Run(START, xs); Held(s, r) || r in s.closing || r in s.gone
  {
    RunKeepsParticipants(START, xs);
    var s := Run(START, xs);
    assert r in s.owner && !InFlight(s, r);
  }

  /** What every section does to the two maps and to the fate of rooms. */
  lemma SectionsExactly(s: State, x: Section, u: User, r: Room)
    requires Enabled(s, x)
    ensures var t := Next(s, x);
            var ends := (x.DialFailed? || x.PublishFailed? || x.Published?) && s.flights[x.g].user == u;
            && (u in t.connecting <==>
                  (u in s.connecting && !ends) || (x.Begin? && x.user == u && u !in s.participants))
            && (u in t.participants <==>
                  (x.Published? && s.flights[x.g].user == u)
                  || (u in s.participants && x != RemoveUser(u) && x != CloseAll
                      && !(x.Lost? && s.owner[x.room] == u && s.participants[u] == x.room)))
            && (u in t.participants ==>
                  t.participants[u] == if x.Published? && s.flights[x.g].user == u then s.flights[x.g].room.value
                                       else s.participants[u])
            && (r in t.gone <==>
                  r in s.gone || x == Lost(r) || x == HungUp(r) || (x.PublishFailed? && s.flights[x.g].room == Some(r)))
            && (r in t.closing <==>
                  (r in s.closing && x != HungUp(r))
                  || (x.RemoveUser? && x.user in s.participants && s.participants[x.user] == r)
                  || (x.CloseAll? && r in s.participants.Values))
  {
  }

  // ---------------------------------------------------------- who stays connected

  predicate Drops(x: Section, u: User, r: Room) {
    x == Lost(r) || x == RemoveUser(u) || x == CloseAll
  }

  /** A participant's entry survives a section exactly unless it is the loss of its own room, its removal
      or a close: publishing overwrites nothing, and the callback of an older room removes nothing. */
  lemma EntrySurvivesExactly(s: State, x: Section, u: User)
    requires OnePerUser(s) && Conserved(s) && Enabled(s, x) && u in s.participants
    ensures (u in Next(s, x).participants && Next(s, x).participants[u] == s.participants[u])
            <==> !Drops(x, u, s.participants[u])
    ensures x.Published? ==> s.flights[x.g].user !in s.participants
  {
    if x.Published? {
      assert s.flights[x.g].user in s.connecting;
    }
  }

  lemma {:induction false} EntryStays(s: State, xs: seq<Section>, u: User)
    requires OnePerUser(s) && Conserved(s) && Possible(s, xs) && u in s.participants
    requires forall x :: x in xs ==> !Drops(x, u, s.participants[u])
    ensures u in Run(s, xs).participants && Run(s, xs).participants[u] == s.participants[u]
    decreases |xs|
  {
    if xs == [] {
    } else {
      assert xs[0] in xs && forall x :: x in xs[1..] ==> x in xs;
      EntrySurvivesExactly(s, xs[0], u);
      KeepsOnePerUser(s, xs[0]);
      KeepsConserved(s, xs[0]);
      EntryStays(Next(s, xs[0]), xs[1..], u);
    }
  }

  /** No participant holds a room that is gone. */
  ghost predicate HeldAlive(s: State) {
    forall u :: u in s.participants ==> s.participants[u] !in s.gone && s.participants[u] !in s.closing
  }

  /** This is kept by every section but one: publishing a room that was lost while it was in flight puts a
      dead room in the map, and its callback has already run. */
  lemma HeldAliveExactly(s: State, x: Section)
    requires OnePerUser(s) && Conserved(s) && HeldAlive(s) && Enabled(s, x)
    ensures HeldAlive(Next(s, x)) <==> !(x.Published? && s.flights[x.g].room.value in s.gone)
  {
    var t := Next(s, x);
    match x {
      case PublishFailed(g) => assert s.flights[g].user in s.connecting;
      case Published(g) =>
        var f := s.flights[g];
        assert t.participants[f.user] == f.room.value;
      case Lost(r) =>
      case _ =>
    }
  }

  /** From the start: a room lost between its connect and its publish ends up held, and gone. */
  lemma LostInFlightIsHeld(g: Goroutine, u: User, r: Room)
    ensures var xs := [Begin(g, u), Dialled(g, r), Lost(r), Published(g)];
            Possible(START, xs) && Held(Run(START, xs), r) && r in Run(START, xs).gone
  {
    var xs := [Begin(g, u), Dialled(g, r), Lost(r), Published(g)];
    var a := Next(START, Begin(g, u));
    var b := Next(a, Dialled(g, r));
    var c := Next(b, Lost(r));
    RunLast(c, Published(g));
    assert xs[1..][1..][1..] == [Published(g)] && xs[1..][1..] == [Lost(r), Published(g)];
    assert xs[1..] == [Dialled(g, r), Lost(r), Published(g)];
    assert Possible(b, xs[1..][1..]) && Run(b, xs[1..][1..]) == Next(c, Published(g));
    assert Possible(a, xs[1..]) && Run(a, xs[1..]) == Next(c, Published(g));
  }

  /** After a close with no connect in flight, nothing is held until somebody connects again. */
  lemma {:induction false} CloseIsFinalWithoutFlights(s: State, xs: seq<Section>)
    requires OnePerUser(s) && s.flights == map[] && s.participants == map[]
    requires Possible(s, xs) && forall x :: x in xs ==> !x.Begin?
    ensures Run(s, xs).participants == map[] && Run(s, xs).flights == map[]
    decreases |xs|
  {
    if xs == [] {
    } else {
      assert xs[0] in xs && forall x :: x in xs[1..] ==> x in xs;
      KeepsOnePerUser(s, xs[0]);
      CloseIsFinalWithoutFlights(Next(s, xs[0]), xs[1..]);
    }
  }

  /** With one in flight it is not: a connect that has its room finishes into the emptied map, */
  lemma CloseMissesTheConnectInFlight(s: State, g: Goroutine)
    requires OnePerUser(s) && Conserved(s) && Enabled(s, Published(g))
    ensures Possible(s, [CloseAll, Published(g)])
    ensures Held(Run(s, [CloseAll, Published(g)]), s.flights[g].room.value)
  {
    RunLast(Next(s, CloseAll), Published(g));
    assert [CloseAll, Published(g)][1..] == [Published(g)];
  }

  /** and so does one that is still dialling. */
  lemma CloseMissesTheDial(s: State, g: Goroutine, r: Room)
    requires Enabled(s, Dialled(g, r))
    ensures Possible(s, [CloseAll, Dialled(g, r), Published(g)])
    ensures Held(Run(s, [CloseAll, Dialled(g, r), Published(g)]), r)
  {
    var xs := [CloseAll, Dialled(g, r), Published(g)];
    var t := Next(s, CloseAll);
    RunLast(Next(t, Dialled(g, r)), Published(g));
    assert xs[1..] == [Dialled(g, r), Published(g)] && xs[1..][1..] == [Published(g)];
    assert Possible(t, xs[1..]) && Run(t, xs[1..]) == Run(Next(t, Dialled(g, r)), [Published(g)]);
  }

  lemma {:induction false} FreshRoom(rooms: set<Room>) returns (r: Room)
    ensures forall q :: q in rooms ==> q < r
    decreases |rooms|
  {
    if rooms == {} {
      r := 0;
    } else {
      var q :| q in rooms;
      var least := FreshRoom(rooms - {q});
      r := if least > q then least else q + 1;
      assert forall p :: p in rooms ==> p == q || p in rooms - {q};
    }
  }

  predicate NoBegin(xs: seq<Section>) {
    forall x :: x in xs ==> !x.Begin?
  }

  /** A run of the connects under way, without a new one, that leaves somebody connected. */
  ghost predicate FillsAgain(s: State, xs: seq<Section>) {
    Possible(s, xs) && NoBegin(xs) && Run(s, xs).participants != map[]
  }

  lemma FlightFills(s: State, g: Goroutine) returns (xs: seq<Section>)
    requires g in s.flights
    ensures FillsAgain(s, xs)
  {
    var u := s.flights[g].user;
    if s.flights[g].room.Some? {
      xs := [Published(g)];
      RunLast(s, Published(g));
      assert u in Run(s, xs).participants;
    } else {
      var r := FreshRoom(s.owner.Keys);
      var t := Next(s, Dialled(g, r));
      xs := [Dialled(g, r), Published(g)];
      RunLast(t, Published(g));
      assert xs[1..] == [Published(g)];
      assert Run(s, xs) == Next(t, Published(g)) && u in Run(s, xs).participants;
    }
  }

  /** Exactly: after a close the map can fill again without a new connect if and only if one was under
      way, at whatever stage. */
  lemma CloseIsFinalExactly(s: State)
    requires OnePerUser(s)
    ensures (exists xs :: FillsAgain(Next(s, CloseAll), xs)) <==> s.flights != map[]
  {
    var t := Next(s, CloseAll);
    KeepsOnePerUser(s, CloseAll);
    if s.flights != map[] {
      var g :| g in s.flights;
      var xs := FlightFills(t, g);
    } else if xs :| FillsAgain(t, xs) {
      CloseIsFinalWithoutFlights(t, xs);
      assert false;
    }
  }

  // ------------------------------------------------------------- the Go object

  datatype Outcome = DialFails | PublishFails(room: Room) | Connects(room: Room)

  /** The sections of one call of ensureParticipant. */
  function Sections(g: Goroutine, u: User, outcome: Outcome): seq<Section> {
    match outcome
    case DialFails => [Begin(g, u), DialFailed(g)]
    case PublishFails(r) => [Begin(g, u), Dialled(g, r), PublishFailed(g)]
    case Connects(r) => [Begin(g, u), Dialled(g, r), Published(g)]
  }

  /** Uninterrupted, a connect leaves the maps as they were, or with the one new participant. */
  lemma SectionsRun(s: State, g: Goroutine, u: User, outcome: Outcome)
    requires Enabled(s, Begin(g, u)) && u !in s.participants && u !in s.connecting
    requires !outcome.DialFails? ==> outcome.room !in s.owner
    ensures Possible(s, Sections(g, u, outcome))
    ensures var t, a := Run(s, Sections(g, u, outcome)), Next(s, Begin(g, u));
            && t.participants == (if outcome.Connects? then s.participants[u := outcome.room] else s.participants)
            && t.connecting == s.connecting && t.flights == s.flights
            && match outcome
               case DialFails => t == Next(a, DialFailed(g))
               case PublishFails(r) => t == Next(Next(a, Dialled(g, r)), PublishFailed(g))
               case Connects(r) => t == Next(Next(a, Dialled(g, r)), Published(g))
  {
    var xs, a := Sections(g, u, outcome), Next(s, Begin(g, u));
    if outcome.DialFails? {
      RunLast(a, DialFailed(g));
      assert xs[1..] == [DialFailed(g)];
    } else {
      var b, last := Next(a, Dialled(g, outcome.room)), xs[2];
      RunLast(b, last);
      assert xs[1..] == [Dialled(g, outcome.room), last] && xs[1..][1..] == [last];
      assert Possible(a, xs[1..]) && Run(a, xs[1..]) == Run(b, [last]);
    }
  }

  lemma RunLast(s: State, x: Section)
    requires Enabled(s, x)
    ensures Possible(s, [x]) && Run(s, [x]) == Next(s, x)
  {
  }

  class LiveKitManager {
    var participants: map<User, Room>
    var connecting: set<User>
    /** What the LiveKit side and the goroutines hold besides the two maps. */
    ghost var rest: State
    /** Rooms that have been told to disconnect, in order. */
    var disconnected: seq<Room>

    ghost function View(): State
      reads this
    {
      rest.(participants := participants, connecting := connecting)
    }

    constructor ()
      ensures View() == START && disconnected == []
    {
      participants, connecting, rest, disconnected := map[], {}, START, [];
    }

    /** The first section of ensureParticipant: whether this goroutine goes on to connect. */
    method BeginConnect(ghost g: Goroutine, u: User) returns (goOn: bool)
      requires Enabled(View(), Begin(g, u))
      modifies this`connecting, this`rest
      ensures View() == Next(old(View()), Begin(g, u))
      ensures goOn <==> u !in old(participants) && u !in old(connecting)
    {
      if u in participants {
        return false;
      }
      if u in connecting {
        return false;
      }
      connecting := connecting + {u};
      rest := rest.(flights := rest.flights[g := Flight(u, None)]);
      goOn := true;
    }

    /** The section that ends a connect attempt that failed before a room was made. */
    method ClearConnecting(ghost g: Goroutine, u: User)
      requires Enabled(View(), DialFailed(g)) && View().flights[g].user == u
      modifies this`connecting, this`rest
      ensures View() == Next(old(View()), DialFailed(g))
    {
      rest := Next(View(), DialFailed(g));
      connecting := connecting - {u};
    }

    /** The track could not be published: hang the new room up, then clear the flag. */
    method GiveUp(ghost g: Goroutine, u: User, room: Room)
      requires Enabled(View(), PublishFailed(g)) && View().flights[g] == Flight(u, Some(room))
      modifies this`connecting, this`rest, this`disconnected
      ensures View() == Next(old(View()), PublishFailed(g)) && disconnected == old(disconnected) + [room]
    {
      disconnected := disconnected + [room];
      rest := Next(View(), PublishFailed(g));
      connecting := connecting - {u};
    }

    /** The last section of ensureParticipant. */
    method PublishParticipant(ghost g: Goroutine, u: User, room: Room)
      requires Enabled(View(), Published(g)) && View().flights[g] == Flight(u, Some(room))
      modifies this`participants, this`connecting, this`rest
      ensures View() == Next(old(View()), Published(g))
    {
      rest := Next(View(), Published(g));
      participants := participants[u := room];
      connecting := connecting - {u};
    }

    /** ensureParticipant without interruption, for a given outcome of its two network calls. */
    method EnsureParticipant(ghost g: Goroutine, u: User, outcome: Outcome) returns (ok: bool)
      requires Enabled(View(), Begin(g, u))
      requires !outcome.DialFails? ==> outcome.room !in View().owner
      modifies this
      ensures u in old(participants) || u in old(connecting) ==> ok && View() == old(View())
      ensures u !in old(participants) && u !in old(connecting) ==>
                && (ok <==> outcome.Connects?)
                && Possible(old(View()), Sections(g, u, outcome))
                && View() == Run(old(View()), Sections(g, u, outcome))
                && disconnected == old(disconnected) + if outcome.PublishFails? then [outcome.room] else []
    {
      ghost var before := View();
      var goOn := BeginConnect(g, u);
      if !goOn {
        return true;
      }
      SectionsRun(before, g, u, outcome);
      if outcome.DialFails? {
        ClearConnecting(g, u);
        return false;
      }
      rest := Next(View(), Dialled(g, outcome.room));
      if outcome.PublishFails? {
        GiveUp(g, u, outcome.room);
        return false;
      }
      PublishParticipant(g, u, outcome.room);
      ok := true;
    }

    /** The OnDisconnected callback registered for a room and its user. */
    method OnDisconnected(u: User, roomRef: Room)
      requires Enabled(View(), Lost(roomRef)) && View().owner[roomRef] == u
      modifies this`participants, this`rest
      ensures View() == Next(old(View()), Lost(roomRef))
    {
      rest := rest.(gone := rest.gone + {roomRef});
      if u in participants && participants[u] == roomRef {
        participants := participants - {u};
      }
    }

    method RemoveParticipant(u: User)
      modifies this
      ensures var s := Next(old(View()), RemoveUser(u));
              View() == if u in old(participants) then Next(s, HungUp(old(participants)[u])) else s
      ensures disconnected == old(disconnected) + if u in old(participants) then [old(participants)[u]] else []
    {
      ghost var s := Next(View(), RemoveUser(u));
      if u in participants {
        var room := participants[u];
        participants := participants - {u};
        rest := Next(s, HungUp(room));
        disconnected := disconnected + [room];
      }
    }

    /** Swaps the map out, then disconnects every room that was in it. */
    method Close()
      modifies this
      ensures participants == map[] && connecting == old(connecting)
      ensures old(disconnected) <= disconnected
      ensures forall r :: r in disconnected[|old(disconnected)|..] <==> r in old(participants).Values
      ensures View() == Next(old(View()), CloseAll)
                        .(closing := old(View()).closing, gone := old(View()).gone + old(participants).Values)
    {
      ghost var before := disconnected;
      var swapped := participants;
      participants := map[];
      var todo := swapped.Keys;
      while todo != {}
        invariant todo <= swapped.Keys && before <= disconnected
        invariant participants == map[] && connecting == old(connecting) && rest == old(rest)
        invariant forall r :: r in disconnected[|before|..] <==>
                    exists u :: u in swapped && u !in todo && swapped[u] == r
        decreases |todo|
      {
        var u :| u in todo;
        ghost var earlier := disconnected[|before|..];
        disconnected := disconnected + [swapped[u]];
        assert disconnected[|before|..] == earlier + [swapped[u]];
        todo := todo - {u};
        assert u in swapped && u !in todo;
      }
      rest := rest.(gone := rest.gone + swapped.Values);
    }
  }
}
