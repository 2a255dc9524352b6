/** The subscriber as the object it is: its map of tracks and the mixer's inputs, updated together. */
module Subscriber {
  import opened Wrappers
  import opened TrackModes

  class Subscriber {
    var tracks: map<Sid, Track>
    /** The inputs registered with the mixer, and whether its output is muted. */
    var inputs: set<Input>
    var muted: bool
    /** The cancel channels closed so far; `made` and `epoch` number the channels and the inputs made. */
    var closed: seq<nat>
    var made: nat
    var epoch: nat

    function View(): State
      reads this
    {
      State(tracks, inputs, muted, closed, made, epoch)
    }

    constructor ()
      ensures View() == START && Accounted(View()) && ModesFollow(View())
    {
      tracks, inputs, muted, closed, made, epoch := map[], {}, true, [], 0, 0;
    }

    method OnTrackSubscribed(sid: Sid, identity: string, audio: bool)
      modifies this
      ensures View() == if Ignored(identity, audio) then old(View()) else Subscribe(old(View()), sid)
    {
      if "discord:" <= identity || "@discord_" <= identity || identity == "discord-bridge-listener" {
        return;
      }
      if !audio {
        return;
      }
      tracks := tracks[sid := Track(Passthrough, None, made)];
      made := made + 1;
      if |tracks| == 1 {
        tracks := tracks[sid := tracks[sid].(mode := Passthrough)];
        assert tracks == old(tracks)[sid := Track(Passthrough, None, old(made))];
        muted := true;
      } else {
        ActivateMixerLocked();
      }
    }

    method OnTrackUnsubscribed(sid: Sid)
      modifies this
      ensures View() == Unsubscribe(old(View()), sid)
    {
      if sid in tracks {
        var entry := tracks[sid];
        tracks := tracks - {sid};
        closed := closed + [entry.cancel];
        if entry.input.Some? {
          inputs := inputs - {entry.input.value};
        }
      }
      if |tracks| == 1 {
        ActivatePassthroughLocked();
      } else if |tracks| == 0 {
        muted := true;
      }
    }

    /** The tracks in `done` have been switched to the mixer. */
    ghost predicate MixedSoFar(was: map<Sid, Track>, had: set<Input>, done: set<Sid>)
      reads this
    {
      && tracks.Keys == was.Keys
      && (forall sid :: sid in was ==> tracks[sid] == if sid in done then Mixed(was[sid], epoch) else was[sid])
      && inputs == had + NewInputsIn(was, done, epoch)
    }

    method MixOne(sid: Sid, ghost was: map<Sid, Track>, ghost had: set<Input>, ghost done: set<Sid>)
      requires MixedSoFar(was, had, done) && sid in was && sid !in done
      modifies `tracks, `inputs
      ensures MixedSoFar(was, had, done + {sid})
    {
      NewInputsGrow(was, done, sid, epoch);
      var entry := tracks[sid];
      if entry.input.None? {
        var input := Input(entry.cancel, epoch);
        entry := entry.(input := Some(input));
        inputs := inputs + {input};
      }
      tracks := tracks[sid := entry.(mode := Mixer)];
    }

    lemma MixedNone()
      ensures MixedSoFar(tracks, inputs, {})
    {
    }

    lemma MixedAll(was: map<Sid, Track>, had: set<Input>)
      requires MixedSoFar(was, had, was.Keys)
      ensures tracks == (map sid | sid in was :: Mixed(was[sid], epoch)) && inputs == had + NewInputs(was, epoch)
    {
    }

    /** The loop over the tracks. */
    method MixEvery()
      modifies `tracks, `inputs
      ensures MixedSoFar(old(tracks), old(inputs), old(tracks).Keys)
    {
      ghost var was, had, done := tracks, inputs, {};
      var todo := tracks.Keys;
      MixedNone();
      while todo != {}
        invariant todo !! done && todo + done == was.Keys
        invariant MixedSoFar(was, had, done)
        decreases |todo|
      {
        var sid :| sid in todo;
        MixOne(sid, was, had, done);
        todo, done := todo - {sid}, done + {sid};
      }
      assert done == was.Keys;
    }

    method ActivateMixerLocked()
      modifies `tracks, `inputs, `muted, `epoch
      ensures View() == ActivateMixer(old(View()))
    {
      ghost var was, had := tracks, inputs;
      MixEvery();
      MixedAll(was, had);
      muted := false;
      epoch := epoch + 1;
    }

    /** The tracks in `done` have been switched to passthrough. */
    ghost predicate PassedSoFar(was: map<Sid, Track>, had: set<Input>, done: set<Sid>)
      reads this
    {
      && tracks.Keys == was.Keys
      && (forall sid :: sid in was ==>
            tracks[sid] == if sid in done then Track(Passthrough, None, was[sid].cancel) else was[sid])
      && inputs == had - InputsIn(was, done)
    }

    method PassOne(sid: Sid, ghost was: map<Sid, Track>, ghost had: set<Input>, ghost done: set<Sid>)
      requires PassedSoFar(was, had, done) && sid in was && sid !in done
      modifies `tracks, `inputs
      ensures PassedSoFar(was, had, done + {sid})
    {
      InputsGrow(was, done, sid);
      var entry := tracks[sid].(mode := Passthrough);
      if entry.input.Some? {
        inputs := inputs - {entry.input.value};
        entry := entry.(input := None);
      }
      tracks := tracks[sid := entry];
    }

    lemma PassedNone()
      ensures PassedSoFar(tracks, inputs, {})
    {
    }

    lemma PassedAll(was: map<Sid, Track>, had: set<Input>)
      requires PassedSoFar(was, had, was.Keys)
      ensures tracks == map sid | sid in was :: Track(Passthrough, None, was[sid].cancel)
      ensures inputs == had - InputsOf(was)
    {
    }

    /** The loop over the tracks. */
    method PassEvery()
      modifies `tracks, `inputs
      ensures PassedSoFar(old(tracks), old(inputs), old(tracks).Keys)
    {
      ghost var was, had, done := tracks, inputs, {};
      var todo := tracks.Keys;
      PassedNone();
      while todo != {}
        invariant todo !! done && todo + done == was.Keys
        invariant PassedSoFar(was, had, done)
        decreases |todo|
      {
        var sid :| sid in todo;
        PassOne(sid, was, had, done);
        todo, done := todo - {sid}, done + {sid};
      }
      assert done == was.Keys;
    }

    method ActivatePassthroughLocked()
      modifies `tracks, `inputs, `muted
      ensures View() == ActivatePassthrough(old(View()))
    {
      ghost var was, had := tracks, inputs;
      PassEvery();
      PassedAll(was, had);
      muted := true;
    }

    /** The tracks in `done` have been deleted, and since `before` exactly their channels were closed. */
    ghost predicate ClosedSoFar(was: map<Sid, Track>, had: set<Input>, before: seq<nat>, done: set<Sid>)
      reads this
    {
      && tracks == was - done
      && inputs == had - InputsIn(was, done)
      && before <= closed
      && (forall i, j :: |before| <= i < j < |closed| ==> closed[i] != closed[j])
      && (forall z: nat :: z in closed[|before|..] <==> OwnedIn(was, done, z))
    }

    method CloseOne(sid: Sid, ghost was: map<Sid, Track>, ghost had: set<Input>, ghost before: seq<nat>,
                    ghost done: set<Sid>)
      requires ClosedSoFar(was, had, before, done) && sid in was && sid !in done && done <= was.Keys
      requires Distinct(was)
      modifies `tracks, `inputs, `closed
      ensures ClosedSoFar(was, had, before, done + {sid})
    {
      InputsGrow(was, done, sid);
      var entry := tracks[sid];
      ghost var earlier := closed[|before|..];
      assert forall i :: |before| <= i < |closed| ==> closed[i] in earlier;
      assert entry.cancel !in earlier;
      closed := closed + [entry.cancel];
      assert closed[|before|..] == earlier + [entry.cancel];
      OwnedGrows(was, done, sid);
      if entry.input.Some? {
        inputs := inputs - {entry.input.value};
      }
      tracks := tracks - {sid};
    }

    lemma ClosedAll(was: map<Sid, Track>, had: set<Input>, before: seq<nat>)
      requires ClosedSoFar(was, had, before, was.Keys)
      ensures tracks == map[] && inputs == had - InputsOf(was)
      ensures forall z: nat :: z in closed[|before|..] <==> Owned(was, z)
    {
    }

    /** The loop over the tracks. */
    method CloseEvery()
      requires Distinct(tracks)
      modifies `tracks, `inputs, `closed
      ensures ClosedSoFar(old(tracks), old(inputs), old(closed), old(tracks).Keys)
    {
      ghost var was, had, before, done := tracks, inputs, closed, {};
      ClosedNone();
      var todo := tracks.Keys;
      while todo != {}
        invariant todo !! done && todo + done == was.Keys
        invariant ClosedSoFar(was, had, before, done)
        decreases |todo|
      {
        var sid :| sid in todo;
        CloseOne(sid, was, had, before, done);
        todo, done := todo - {sid}, done + {sid};
      }
      assert done == was.Keys;
    }

    /** Closes every cancel channel, in the map's order, and drops every track and input. */
    method Close()
      requires Distinct(tracks)
      modifies `tracks, `inputs, `closed
      ensures Closes(old(View()), View())
    {
      ghost var was, had, before := tracks, inputs, closed;
      CloseEvery();
      ClosedAll(was, had, before);
    }

    lemma ClosedNone()
      ensures ClosedSoFar(tracks, inputs, closed, {})
    {
    }
  }

  ghost function InputsIn(tracks: map<Sid, Track>, done: set<Sid>): set<Input> {
    set sid | sid in done && sid in tracks && tracks[sid].input.Some? :: tracks[sid].input.value
  }

  ghost function NewInputsIn(tracks: map<Sid, Track>, done: set<Sid>, epoch: nat): set<Input> {
    set sid | sid in done && sid in tracks && tracks[sid].input.None? :: Input(tracks[sid].cancel, epoch)
  }

  ghost predicate OwnedIn(tracks: map<Sid, Track>, done: set<Sid>, z: nat) {
    exists sid :: sid in done && sid in tracks && tracks[sid].cancel == z
  }

  lemma OwnedGrows(tracks: map<Sid, Track>, done: set<Sid>, sid: Sid)
    requires sid in tracks
    ensures forall z: nat :: OwnedIn(tracks, done + {sid}, z) <==> OwnedIn(tracks, done, z) || z == tracks[sid].cancel
  {
  }

  lemma InputsGrow(tracks: map<Sid, Track>, done: set<Sid>, sid: Sid)
    requires sid in tracks
    ensures InputsIn(tracks, done + {sid})
            == InputsIn(tracks, done) + if tracks[sid].input.Some? then {tracks[sid].input.value} else {}
  {
  }

  lemma NewInputsGrow(tracks: map<Sid, Track>, done: set<Sid>, sid: Sid, epoch: nat)
    requires sid in tracks
    ensures NewInputsIn(tracks, done + {sid}, epoch)
            == NewInputsIn(tracks, done, epoch)
               + if tracks[sid].input.None? then {Input(tracks[sid].cancel, epoch)} else {}
  {
  }
}
