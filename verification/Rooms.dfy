/** Voice channels and their Matrix rooms: the two maps in memory, the table they are reloaded from, and the
    m.bridge events they are recovered from when the table has no rows. */
module Rooms {
  import opened Wrappers
  import opened Ids

  type Row = (Channel, RoomId)

  /** The table is keyed by channel; `marks` are the rooms whose m.bridge event names a channel. */
  datatype State = State(rooms: map<Channel, RoomId>, channels: map<RoomId, Channel>, table: map<Channel, RoomId>,
                         marks: set<Row>)

  /** The pair of assignments that every way of finding a room ends in. */
  function Learn(s: State, c: Channel, r: RoomId): State {
    s.(rooms := s.rooms[c := r], channels := s.channels[r := c])
  }

  function Save(s: State, c: Channel, r: RoomId, saved: bool): State {
    if saved then s.(table := s.table[c := r]) else s
  }

  function Mark(s: State, c: Channel, r: RoomId, marked: bool): State {
    if marked then s.(marks := s.marks + {(c, r)}) else s
  }

  /** ensureMatrixRoom: `created` is the room the server would make, None if it fails; `saved` and `marked`
      say whether writing its row and sending its event succeed. */
  function Ensure(s: State, c: Channel, created: Option<RoomId>, saved: bool, marked: bool): State {
    if c in s.rooms || created.None? then s
    else Mark(Save(Learn(s, c, created.value), c, created.value, saved), c, created.value, marked)
  }

  function Load(s: State, rows: seq<Row>): State
    decreases |rows|
  {
    if rows == [] then s else Load(Learn(s, rows[0].0, rows[0].1), rows[1..])
  }

  /** The scan of the m.bridge events, which also writes a row for each room it finds. */
  function Scan(s: State, found: seq<Row>, saves: Row -> bool): State
    decreases |found|
  {
    if found == [] then s
    else Scan(Save(Learn(s, found[0].0, found[0].1), found[0].0, found[0].1, saves(found[0])), found[1..], saves)
  }

  /** A query returns the rows of the table, in some order. */
  ghost predicate IsListing(rows: seq<Row>, table: map<Channel, RoomId>) {
    && (forall i, j :: 0 <= i < j < |rows| ==> rows[i].0 != rows[j].0)
    && (forall i :: 0 <= i < |rows| ==> rows[i].0 in table && table[rows[i].0] == rows[i].1)
    && (forall c :: c in table ==> exists i :: 0 <= i < |rows| && rows[i].0 == c)
  }

  /** A scan that can read every room finds every mark once, in some order. */
  ghost predicate FindsAll(found: seq<Row>, marks: set<Row>) {
    (forall i, j :: 0 <= i < j < |found| ==> found[i] != found[j]) && (forall row :: row in found <==> row in marks)
  }

  /** DiscoverExistingRooms: the rows of the table, or the scan if there are none. */
  function Discover(s: State, rows: seq<Row>, found: seq<Row>, saves: Row -> bool): State {
    if rows != [] then Load(s, rows) else Scan(s, found, saves)
  }

  /** The process starts again. */
  function Restart(s: State, rows: seq<Row>, found: seq<Row>, saves: Row -> bool): State {
    Discover(s.(rooms := map[], channels := map[]), rows, found, saves)
  }

  /** Looking a channel's room up and then that room's channel leads back. */
  ghost predicate Inverse(s: State) {
    forall c :: c in s.rooms ==> s.rooms[c] in s.channels && s.channels[s.rooms[c]] == c
  }

  /** Learning a room keeps the maps inverse exactly when no other channel has that room already. */
  lemma LearnKeepsInverseExactly(s: State, c: Channel, r: RoomId)
    requires Inverse(s)
    ensures Inverse(Learn(s, c, r)) <==> forall d :: d in s.rooms && d != c ==> s.rooms[d] != r
  {
    if d :| d in s.rooms && d != c && s.rooms[d] == r {
      assert Learn(s, c, r).rooms[d] == r;
    }
  }

  /** The way back is never out of date. */
  ghost predicate NoStale(s: State) {
    forall r :: r in s.channels ==> s.channels[r] in s.rooms && s.rooms[s.channels[r]] == r
  }

  /** Learning a room leaves an entry out of date exactly when the channel had another one. */
  lemma LearnLeavesNoStaleExactly(s: State, c: Channel, r: RoomId)
    requires Inverse(s) && NoStale(s)
    ensures NoStale(Learn(s, c, r)) <==> (c in s.rooms ==> s.rooms[c] == r)
  {
    var t := Learn(s, c, r);
    if c in s.rooms && s.rooms[c] != r {
      assert s.rooms[c] in t.channels && t.channels[s.rooms[c]] == c;
    }
  }

  /** CHANNEL_LIST again for a channel that has a room changes nothing, whatever the server would answer. */
  lemma RepeatKeepsTheRoom(s: State, c: Channel, created: Option<RoomId>, saved: bool, marked: bool,
                           again: Option<RoomId>, savedAgain: bool, markedAgain: bool)
    ensures var t := Ensure(s, c, created, saved, marked);
            (c in s.rooms || created.Some? ==> c in t.rooms && Ensure(t, c, again, savedAgain, markedAgain) == t)
            && (c in s.rooms ==> t == s)
  {
  }

  /** A created room becomes the channel's, in both maps, and nothing else changes; a failed one changes nothing. */
  lemma EnsureExactly(s: State, c: Channel, created: Option<RoomId>, saved: bool, marked: bool)
    requires c !in s.rooms
    ensures var t := Ensure(s, c, created, saved, marked);
            if created.None? then t == s
            else
              var r := created.value;
              && c in t.rooms && t.rooms[c] == r && t.rooms - {c} == s.rooms
              && r in t.channels && t.channels[r] == c && t.channels - {r} == s.channels - {r}
              && (saved ==> c in t.table && t.table[c] == r && t.table - {c} == s.table - {c})
              && (!saved ==> t.table == s.table)
              && (forall row :: row in t.marks <==> row in s.marks || (marked && row == (c, r)))
  {
  }

  // -------------------------------------------------------------------- runs

  datatype Event =
    | Listed(channel: Channel, created: Option<RoomId>, saved: bool, marked: bool)
    | Restarted(rows: seq<Row>, found: seq<Row>, saves: Row -> bool)

  function Step(s: State, e: Event): State {
    match e
    case Listed(c, created, saved, marked) => Ensure(s, c, created, saved, marked)
    case Restarted(rows, found, saves) => Restart(s, rows, found, saves)
  }

  function Run(s: State, es: seq<Event>): State
    decreases |es|
  {
    if es == [] then s else Run(Step(s, es[0]), es[1..])
  }

  /** The event writes a new room to memory. */
  predicate Creates(s: State, e: Event) {
    e.Listed? && e.channel !in s.rooms && e.created.Some?
  }

  ghost predicate IsNew(s: State, r: RoomId) {
    r !in s.channels && r !in s.table.Values && forall row :: row in s.marks ==> row.1 != r
  }

  /** Created rooms are new, and a restart's query and scan succeed. */
  ghost predicate Sound(s: State, es: seq<Event>)
    decreases |es|
  {
    es == [] ||
    ((Creates(s, es[0]) ==> IsNew(s, es[0].created.value))
     && (es[0].Restarted? ==> IsListing(es[0].rows, s.table) && FindsAll(es[0].found, s.marks))
     && Sound(Step(s, es[0]), es[1..]))
  }

  ghost predicate AllSaved(s: State, es: seq<Event>)
    decreases |es|
  {
    es == [] || ((Creates(s, es[0]) ==> es[0].saved) && AllSaved(Step(s, es[0]), es[1..]))
  }

  ghost predicate AllMarked(s: State, es: seq<Event>)
    decreases |es|
  {
    es == [] || ((Creates(s, es[0]) ==> es[0].marked) && AllMarked(Step(s, es[0]), es[1..]))
  }

  ghost predicate Injective(table: map<Channel, RoomId>) {
    forall c, d :: c in table && d in table && table[c] == table[d] ==> c == d
  }

  /** What memory holds once the first k rows have been loaded. */
  ghost predicate LoadedSoFar(s: State, rows: seq<Row>, k: nat)
    requires k <= |rows|
  {
    && Inverse(s) && NoStale(s)
    && (forall c :: c in s.rooms <==> exists i :: 0 <= i < k && rows[i].0 == c)
    && (forall c :: c in s.rooms ==> c in s.table && s.rooms[c] == s.table[c])
  }

  lemma LoadOneMore(s: State, rows: seq<Row>, k: nat)
    requires k < |rows| && IsListing(rows, s.table) && Injective(s.table) && LoadedSoFar(s, rows, k)
    ensures LoadedSoFar(Learn(s, rows[k].0, rows[k].1), rows, k + 1)
  {
    var (c, r) := rows[k];
    var t := Learn(s, c, r);
    LearnKeepsInverseExactly(s, c, r);
    LearnLeavesNoStaleExactly(s, c, r);
    forall d ensures d in t.rooms <==> exists i :: 0 <= i < k + 1 && rows[i].0 == d {
      if d == c {
        assert rows[k].0 == d;
      } else if d in s.rooms {
        var i :| 0 <= i < k && rows[i].0 == d;
        assert 0 <= i < k + 1;
      }
    }
  }

  lemma {:induction false} LoadRebuilds(s: State, rows: seq<Row>, k: nat)
    requires k <= |rows| && IsListing(rows, s.table) && Injective(s.table) && LoadedSoFar(s, rows, k)
    ensures var t := Load(s, rows[k..]);
            t.rooms == s.table && t.table == s.table && t.marks == s.marks && Inverse(t) && NoStale(t)
    decreases |rows| - k
  {
    if k == |rows| {
      assert s.rooms.Keys == s.table.Keys;
      assert s.rooms == s.table;
    } else {
      assert rows[k..][1..] == rows[k + 1..] && rows[k..][0] == rows[k];
      LoadOneMore(s, rows, k);
      LoadRebuilds(Learn(s, rows[k].0, rows[k].1), rows, k + 1);
    }
  }

  lemma ListingIsEmptyExactly(rows: seq<Row>, table: map<Channel, RoomId>)
    requires IsListing(rows, table)
    ensures rows == [] <==> table == map[]
  {
    if rows != [] {
      assert rows[0].0 in table;
    } else {
      assert forall c :: c !in table;
    }
  }

  /** A restart with rows in the table puts exactly the table back in memory, with inverse maps. */
  lemma RestartRebuilds(s: State, rows: seq<Row>, found: seq<Row>, saves: Row -> bool)
    requires IsListing(rows, s.table) && Injective(s.table) && s.table != map[]
    ensures var t := Restart(s, rows, found, saves);
            t.rooms == s.table && t.table == s.table && t.marks == s.marks && Inverse(t) && NoStale(t)
  {
    ListingIsEmptyExactly(rows, s.table);
    assert rows[0..] == rows;
    LoadRebuilds(s.(rooms := map[], channels := map[]), rows, 0);
  }

  /** No room is marked for two channels and no channel has two marked rooms. */
  ghost predicate OneToOne(marks: set<Row>) {
    forall a, b :: a in marks && b in marks ==> (a.0 == b.0 <==> a.1 == b.1)
  }

  /** What memory and table hold once the scan has been through some of the marks. */
  ghost predicate ScannedSoFar(s: State, seen: set<Row>, saves: Row -> bool) {
    && Inverse(s) && NoStale(s)
    && (forall c :: c in s.rooms ==> (c, s.rooms[c]) in seen)
    && (forall row :: row in seen ==> row.0 in s.rooms && s.rooms[row.0] == row.1)
    && (forall c :: c in s.table <==> c in s.rooms && saves((c, s.rooms[c])))
    && (forall c :: c in s.table ==> s.table[c] == s.rooms[c])
  }

  lemma ScanOneMore(s: State, row: Row, seen: set<Row>, saves: Row -> bool)
    requires ScannedSoFar(s, seen, saves) && OneToOne(seen + {row}) && row !in seen
    ensures ScannedSoFar(Save(Learn(s, row.0, row.1), row.0, row.1, saves(row)), seen + {row}, saves)
  {
    assert row in seen + {row};
    assert forall other :: other in seen ==> other in seen + {row};
    LearnKeepsInverseExactly(s, row.0, row.1);
    LearnLeavesNoStaleExactly(s, row.0, row.1);
    assert row.0 !in s.rooms;
  }

  lemma {:induction false} ScanCovers(s: State, found: seq<Row>, k: nat, seen: set<Row>, saves: Row -> bool)
    requires k <= |found| && FindsAll(found, s.marks) && OneToOne(s.marks)
    requires forall row :: row in seen <==> row in found[..k]
    requires ScannedSoFar(s, seen, saves)
    ensures var t := Scan(s, found[k..], saves); ScannedSoFar(t, s.marks, saves) && t.marks == s.marks
    decreases |found| - k
  {
    if k == |found| {
      assert found[..k] == found;
      assert seen == s.marks;
    } else {
      var row := found[k];
      assert found[k..][0] == row && found[k..][1..] == found[k + 1..];
      assert found[..k + 1] == found[..k] + [row];
      assert row !in seen;
      assert forall other :: other in seen + {row} ==> other in found;
      ScanOneMore(s, row, seen, saves);
      ScanCovers(Save(Learn(s, row.0, row.1), row.0, row.1, saves(row)), found, k + 1, seen + {row}, saves);
    }
  }

  /** A restart on an empty table puts exactly the marked rooms back in memory, with inverse maps, and in the
      table those of them whose row is written. */
  lemma RestartRecovers(s: State, rows: seq<Row>, found: seq<Row>, saves: Row -> bool)
    requires s.table == map[] && IsListing(rows, s.table) && FindsAll(found, s.marks) && OneToOne(s.marks)
    ensures var t := Restart(s, rows, found, saves);
            ScannedSoFar(t, s.marks, saves) && t.marks == s.marks
  {
    ListingIsEmptyExactly(rows, s.table);
    assert found[0..] == found;
    ScanCovers(s.(rooms := map[], channels := map[]), found, 0, {}, saves);
  }

  /** The table never knows more than memory, and never a room twice; and as long as it is empty, neither do
      the marks. */
  ghost predicate Backed(s: State) {
    && Inverse(s) && NoStale(s)
    && Injective(s.table)
    && (forall c :: c in s.table ==> c in s.rooms && s.rooms[c] == s.table[c])
    && (s.table == map[] ==> forall row :: row in s.marks ==> row.0 in s.rooms && s.rooms[row.0] == row.1)
  }

  lemma CreateKeepsBacked(s: State, c: Channel, r: RoomId, saved: bool, marked: bool)
    requires Backed(s) && c !in s.rooms && IsNew(s, r)
    ensures Backed(Ensure(s, c, Some(r), saved, marked))
  {
    LearnKeepsInverseExactly(s, c, r);
    LearnLeavesNoStaleExactly(s, c, r);
    assert forall d :: d in s.table ==> s.table[d] in s.table.Values;
    if saved {
      assert c in s.table[c := r];
    }
  }

  lemma RestartKeepsBacked(s: State, rows: seq<Row>, found: seq<Row>, saves: Row -> bool)
    requires Backed(s) && IsListing(rows, s.table) && FindsAll(found, s.marks)
    ensures var t := Restart(s, rows, found, saves);
            && Backed(t)
            && (s.table != map[] ==> t.rooms == s.table && t.table == s.table)
            && (s.table == map[] ==> forall c, r :: (c in t.rooms && t.rooms[c] == r) <==> (c, r) in s.marks)
  {
    if s.table != map[] {
      RestartRebuilds(s, rows, found, saves);
    } else {
      RestartRecovers(s, rows, found, saves);
    }
  }

  lemma StepKeepsBacked(s: State, e: Event)
    requires Backed(s) && Sound(s, [e])
    ensures Backed(Step(s, e))
    ensures forall c :: c in s.table ==> c in Step(s, e).table && Step(s, e).table[c] == s.table[c]
  {
    match e {
      case Listed(c, created, saved, marked) =>
        if Creates(s, e) {
          CreateKeepsBacked(s, c, created.value, saved, marked);
        }
      case Restarted(rows, found, saves) => RestartKeepsBacked(s, rows, found, saves);
    }
  }

  /** In every sound run the maps stay inverse; and a channel that the table knows keeps its room for good,
      over repeated lists and restarts. */
  lemma {:induction false} RunKeepsRooms(s: State, es: seq<Event>, c: Channel)
    requires Backed(s) && Sound(s, es)
    ensures Backed(Run(s, es))
    ensures c in s.table ==> c in Run(s, es).rooms && Run(s, es).rooms[c] == s.table[c] && c in Run(s, es).table
    decreases |es|
  {
    if es == [] {
    } else {
      StepKeepsBacked(s, es[0]);
      RunKeepsRooms(Step(s, es[0]), es[1..], c);
    }
  }

  lemma CreateSaves(s: State, e: Event)
    requires Backed(s) && e.Listed?
    ensures Step(s, e).rooms == Step(s, e).table <==> s.rooms == s.table && (Creates(s, e) ==> e.saved)
  {
    var t := Step(s, e);
    if Creates(s, e) {
      var c := e.channel;
      assert c in t.rooms && c !in s.table;
      assert t.rooms - {c} == s.rooms && s.table - {c} == s.table;
      if e.saved {
        assert t.table - {c} == s.table;
      }
    }
  }

  lemma {:induction false} UnsavedRoomsAreMissing(s: State, es: seq<Event>)
    requires Backed(s) && Sound(s, es) && forall e :: e in es ==> e.Listed?
    ensures Run(s, es).rooms == Run(s, es).table <==> s.rooms == s.table && AllSaved(s, es)
    decreases |es|
  {
    if es == [] {
    } else {
      assert es[0] in es && forall e :: e in es[1..] ==> e in es;
      StepKeepsBacked(s, es[0]);
      CreateSaves(s, es[0]);
      UnsavedRoomsAreMissing(Step(s, es[0]), es[1..]);
    }
  }

  /** Every room in memory has its mark. */
  ghost predicate Marked(s: State) {
    forall c :: c in s.rooms ==> (c, s.rooms[c]) in s.marks
  }

  lemma CreateMarks(s: State, e: Event)
    requires Backed(s) && Sound(s, [e]) && e.Listed?
    ensures Marked(Step(s, e)) <==> Marked(s) && (Creates(s, e) ==> e.marked)
  {
    var t := Step(s, e);
    if Creates(s, e) {
      var c := e.channel;
      assert c in t.rooms && t.rooms[c] == e.created.value;
      assert (c, e.created.value) !in s.marks;
      forall d | d in s.rooms ensures (d, t.rooms[d]) in t.marks <==> (d, s.rooms[d]) in s.marks {
        assert d != c && t.rooms[d] == s.rooms[d];
      }
    }
  }

  lemma {:induction false} UnmarkedRoomsAreMissing(s: State, es: seq<Event>)
    requires Backed(s) && Sound(s, es) && forall e :: e in es ==> e.Listed?
    ensures Marked(Run(s, es)) <==> Marked(s) && AllMarked(s, es)
    decreases |es|
  {
    if es == [] {
    } else {
      assert es[0] in es && forall e :: e in es[1..] ==> e in es;
      StepKeepsBacked(s, es[0]);
      CreateMarks(s, es[0]);
      UnmarkedRoomsAreMissing(Step(s, es[0]), es[1..]);
    }
  }

  /** A restart loses nothing exactly when the table has rows and equals memory, or has none and every room
      in memory is marked. */
  lemma RestartLosesNothingExactly(s: State, rows: seq<Row>, found: seq<Row>, saves: Row -> bool)
    requires Backed(s) && IsListing(rows, s.table) && FindsAll(found, s.marks)
    ensures Restart(s, rows, found, saves).rooms == s.rooms <==>
              if s.table != map[] then s.rooms == s.table else Marked(s)
  {
    var t := Restart(s, rows, found, saves);
    RestartKeepsBacked(s, rows, found, saves);
    if s.table == map[] && Marked(s) {
      forall c | c in s.rooms ensures c in t.rooms && t.rooms[c] == s.rooms[c] {
        assert (c, s.rooms[c]) in s.marks;
      }
      forall c | c in t.rooms ensures c in s.rooms {
        assert (c, t.rooms[c]) in s.marks;
      }
    }
  }

  /** Over runs: when there are rows, exactly if memory was all in the table at first and every room created
      since was saved; when there are none, exactly if memory was all marked and every room created since was. */
  lemma RestartIsExactWhenAllSaved(s: State, es: seq<Event>, rows: seq<Row>, found: seq<Row>, saves: Row -> bool)
    requires Backed(s) && Sound(s, es) && forall e :: e in es ==> e.Listed?
    requires IsListing(rows, Run(s, es).table) && FindsAll(found, Run(s, es).marks)
    ensures Restart(Run(s, es), rows, found, saves).rooms == Run(s, es).rooms <==>
              if Run(s, es).table != map[] then s.rooms == s.table && AllSaved(s, es)
              else Marked(s) && AllMarked(s, es)
  {
    RunKeepsRooms(s, es, 0);
    UnsavedRoomsAreMissing(s, es);
    UnmarkedRoomsAreMissing(s, es);
    RestartLosesNothingExactly(Run(s, es), rows, found, saves);
  }

  lemma RunThree(s: State, a: Event, b: Event, c: Event)
    ensures Run(s, [a, b, c]) == Step(Step(Step(s, a), b), c)
    ensures Sound(s, [a, b, c]) <==> Sound(s, [a]) && Sound(Step(s, a), [b]) && Sound(Step(Step(s, a), b), [c])
  {
    var t, u := Step(s, a), Step(Step(s, a), b);
    assert [a, b, c][1..] == [b, c] && [b, c][1..] == [c] && [a][1..] == [] && [b][1..] == [] && [c][1..] == [];
    assert Run(u, [c]) == Run(Step(u, c), []);
    assert Run(t, [b, c]) == Run(u, [c]);
    assert Sound(t, []) && Sound(u, []) && Sound(Step(u, c), []);
  }

  /** From the start: two rooms are created, the second row is not written, and a restart forgets the second
      room although it is marked. */
  lemma UnsavedRoomIsForgotten(saves: Row -> bool)
    ensures var es := [Listed(1, Some("!a"), true, true), Listed(2, Some("!b"), false, true),
                       Restarted([(1, "!a")], [(1, "!a"), (2, "!b")], saves)];
            Sound(State(map[], map[], map[], {}), es)
            && Run(State(map[], map[], map[], {}), es).rooms == map[1 := "!a"]
  {
    var s := State(map[], map[], map[], {});
    var a, b := Listed(1, Some("!a"), true, true), Listed(2, Some("!b"), false, true);
    var u := Step(Step(s, a), b);
    assert u == State(map[1 := "!a", 2 := "!b"], map["!a" := 1, "!b" := 2], map[1 := "!a"], {(1, "!a"), (2, "!b")});
    assert Sound(s, [a]) && Sound(Step(s, a), [b]);
    OneRowOfTwo(u, saves);
    RunThree(s, a, b, Restarted([(1, "!a")], [(1, "!a"), (2, "!b")], saves));
  }

  lemma OneRowOfTwo(u: State, saves: Row -> bool)
    requires u.table == map[1 := "!a"] && u.marks == {(1, "!a"), (2, "!b")}
    ensures var e := Restarted([(1, "!a")], [(1, "!a"), (2, "!b")], saves);
            Sound(u, [e]) && Step(u, e).rooms == map[1 := "!a"]
  {
    var rows: seq<Row>, found: seq<Row> := [(1, "!a")], [(1, "!a"), (2, "!b")];
    assert rows[0] == (1, "!a") && IsListing(rows, u.table);
    assert 1 in u.table;
    RestartRebuilds(u, rows, found, saves);
    assert Sound(Step(u, Restarted(rows, found, saves)), []);
  }

  // ------------------------------------------------------------- the Go object

  class RoomMaps {
    var channelRooms: map<Channel, RoomId>
    var roomChannels: map<RoomId, Channel>
    var table: map<Channel, RoomId>
    /** The server's m.bridge events. */
    var marks: set<Row>

    function View(): State
      reads this
    {
      State(channelRooms, roomChannels, table, marks)
    }

    /** A new process on an existing database and server. */
    constructor (table: map<Channel, RoomId>, marks: set<Row>)
      ensures View() == State(map[], map[], table, marks)
    {
      channelRooms, roomChannels, this.table, this.marks := map[], map[], table, marks;
    }

    method EnsureMatrixRoom(c: Channel, created: Option<RoomId>, saved: bool, marked: bool)
      returns (room: Option<RoomId>)
      modifies this
      ensures View() == Ensure(old(View()), c, created, saved, marked)
      ensures room == if c in channelRooms then Some(channelRooms[c]) else None
    {
      if c in channelRooms {
        return Some(channelRooms[c]);
      }
      if created.None? {
        return None;
      }
      channelRooms := channelRooms[c := created.value];
      roomChannels := roomChannels[created.value := c];
      if saved {
        table := table[c := created.value];
      }
      if marked {
        marks := marks + {(c, created.value)};
      }
      room := created;
    }

    /** The fast path of DiscoverExistingRooms. */
    method LoadFromTable(rows: seq<Row>)
      modifies `channelRooms, `roomChannels
      ensures View() == Load(old(View()), rows)
    {
      var i := 0;
      ghost var whole := Load(View(), rows);
      assert rows[0..] == rows;
      while i < |rows|
        invariant 0 <= i <= |rows| && table == old(table) && marks == old(marks)
        invariant Load(View(), rows[i..]) == whole
      {
        assert rows[i..][0] == rows[i] && rows[i..][1..] == rows[i + 1..];
        channelRooms := channelRooms[rows[i].0 := rows[i].1];
        roomChannels := roomChannels[rows[i].1 := rows[i].0];
        i := i + 1;
      }
    }

    /** Its slow path, for the results of the scan in the order they arrive. */
    method ScanRooms(found: seq<Row>, saves: Row -> bool)
      modifies `channelRooms, `roomChannels, `table
      ensures View() == Scan(old(View()), found, saves)
    {
      var i := 0;
      ghost var whole := Scan(View(), found, saves);
      assert found[0..] == found;
      while i < |found|
        invariant 0 <= i <= |found| && marks == old(marks)
        invariant Scan(View(), found[i..], saves) == whole
      {
        assert found[i..][0] == found[i] && found[i..][1..] == found[i + 1..];
        channelRooms := channelRooms[found[i].0 := found[i].1];
        roomChannels := roomChannels[found[i].1 := found[i].0];
        if saves(found[i]) {
          table := table[found[i].0 := found[i].1];
        }
        i := i + 1;
      }
    }

    /** No rows from the query, or a query that fails, means a scan. */
    method DiscoverExistingRooms(rows: seq<Row>, found: seq<Row>, saves: Row -> bool)
      modifies `channelRooms, `roomChannels, `table
      ensures View() == Discover(old(View()), rows, found, saves)
    {
      if |rows| > 0 {
        LoadFromTable(rows);
      } else {
        ScanRooms(found, saves);
      }
    }
  }
}
