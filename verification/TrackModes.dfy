/** The subscriber's tracks: raw passthrough for a single speaker, the mixer for two or more. */
module TrackModes {
  import opened Wrappers

  type Sid = string

  datatype Mode = Passthrough | Mixer

  /** A mixer input. NewInput never returns one twice: `epoch` tells apart those made for one owner. */
  datatype Input = Input(owner: nat, epoch: nat)

  /** `cancel` is the number of the track's cancel channel. */
  datatype Track = Track(mode: Mode, input: Option<Input>, cancel: nat)

  /** `inputs` are those registered with the mixer, `closed` the cancel channels closed so far, in order,
      `made` how many were made, and `epoch` how often the mixer has been switched on. */
  datatype State = State(tracks: map<Sid, Track>, inputs: set<Input>, muted: bool,
                         closed: seq<nat>, made: nat, epoch: nat)

  const START := State(map[], {}, true, [], 0, 0)

  predicate Ignored(identity: string, audio: bool) {
    "discord:" <= identity || "@discord_" <= identity || identity == "discord-bridge-listener" || !audio
  }

  function Mixed(t: Track, epoch: nat): Track {
    Track(Mixer, if t.input.Some? then t.input else Some(Input(t.cancel, epoch)), t.cancel)
  }

  ghost function InputsOf(tracks: map<Sid, Track>): set<Input> {
    set sid | sid in tracks && tracks[sid].input.Some? :: tracks[sid].input.value
  }

  /** The inputs that tracks without one are given when the mixer is switched on. */
  ghost function NewInputs(tracks: map<Sid, Track>, epoch: nat): set<Input> {
    set sid | sid in tracks && tracks[sid].input.None? :: Input(tracks[sid].cancel, epoch)
  }

  ghost function ActivateMixer(s: State): State {
    s.(tracks := map sid | sid in s.tracks :: Mixed(s.tracks[sid], s.epoch),
       inputs := s.inputs + NewInputs(s.tracks, s.epoch), muted := false, epoch := s.epoch + 1)
  }

  ghost function ActivatePassthrough(s: State): State {
    s.(tracks := map sid | sid in s.tracks :: Track(Passthrough, None, s.tracks[sid].cancel),
       inputs := s.inputs - InputsOf(s.tracks), muted := true)
  }

  /** The entry written for a subscribed track. */
  function Added(s: State, sid: Sid): State {
    s.(tracks := s.tracks[sid := Track(Passthrough, None, s.made)], made := s.made + 1)
  }

  /** The entry deleted, its channel closed and its input removed. */
  function WithoutTrack(s: State, sid: Sid): State
    requires sid in s.tracks
  {
    var gone := s.tracks[sid];
    s.(tracks := s.tracks - {sid}, closed := s.closed + [gone.cancel],
       inputs := if gone.input.Some? then s.inputs - {gone.input.value} else s.inputs)
  }

  ghost function Subscribe(s: State, sid: Sid): State {
    var t := Added(s, sid);
    if |t.tracks| == 1 then t.(muted := true) else ActivateMixer(t)
  }

  ghost function Unsubscribe(s: State, sid: Sid): State {
    var t := if sid in s.tracks then WithoutTrack(s, sid) else s;
    if |t.tracks| == 1 then ActivatePassthrough(t)
    else if |t.tracks| == 0 then t.(muted := true)
    else t
  }

  /** Whose tracks the bridge must not play back: Discord users', by either kind of identity, and its own. */
  predicate IsBridge(identity: string) {
    "discord:" <= identity || "@discord_" <= identity || identity == "discord-bridge-listener"
  }

  // ---------------------------------------------------------------- invariants

  /** The mode follows the number of tracks. */
  ghost predicate ModesFollow(s: State) {
    && (|s.tracks| >= 2 ==>
          !s.muted && forall sid :: sid in s.tracks ==> s.tracks[sid].mode == Mixer && s.tracks[sid].input.Some?)
    && (|s.tracks| <= 1 ==>
          s.muted && forall sid :: sid in s.tracks ==> s.tracks[sid].mode == Passthrough && s.tracks[sid].input.None?)
  }

  ghost predicate Owned(tracks: map<Sid, Track>, z: nat) {
    exists sid :: sid in tracks && tracks[sid].cancel == z
  }

  ghost predicate Distinct(tracks: map<Sid, Track>) {
    forall a, b :: a in tracks && b in tracks && tracks[a].cancel == tracks[b].cancel ==> a == b
  }

  /** No cancel channel was closed twice, and no track has a closed one or another track's. */
  ghost predicate ClosedOnce(s: State) {
    && Distinct(s.tracks)
    && (forall sid :: sid in s.tracks ==> s.tracks[sid].cancel < s.made && s.tracks[sid].cancel !in s.closed)
    && (forall i, j :: 0 <= i < j < |s.closed| ==> s.closed[i] != s.closed[j])
    && (forall z :: z in s.closed ==> z < s.made)
  }

  /** And every cancel channel ever made belongs to a track or was closed. */
  ghost predicate Cancels(s: State) {
    ClosedOnce(s) && forall z: nat :: z < s.made && z !in s.closed ==> Owned(s.tracks, z)
  }

  /** The mixer's inputs are exactly the tracks', each made for its own track. */
  ghost predicate Inputs(s: State) {
    && s.inputs == InputsOf(s.tracks)
    && (forall sid :: sid in s.tracks && s.tracks[sid].input.Some? ==>
          s.tracks[sid].input.value.owner == s.tracks[sid].cancel && s.tracks[sid].input.value.epoch < s.epoch)
  }

  ghost predicate Accounted(s: State) {
    Cancels(s) && Inputs(s)
  }

  /** So no two tracks share an input. */
  lemma InputsAreDistinct(s: State, a: Sid, b: Sid)
    requires Accounted(s) && a in s.tracks && b in s.tracks && s.tracks[a].input.Some?
    requires s.tracks[a].input == s.tracks[b].input
    ensures a == b
  {
  }

  lemma InputsOfHas(tracks: map<Sid, Track>, i: Input)
    ensures i in InputsOf(tracks) <==> exists sid :: sid in tracks && tracks[sid].input == Some(i)
  {
  }

  /** Changing modes and inputs, but no id and no cancel channel, leaves the cancel channels accounted for. */
  lemma SameCancels(s: State, t: State)
    requires Cancels(s) && t.closed == s.closed && t.made == s.made && t.tracks.Keys == s.tracks.Keys
    requires forall sid :: sid in s.tracks ==> t.tracks[sid].cancel == s.tracks[sid].cancel
    ensures Cancels(t)
  {
    forall z: nat | z < t.made && z !in t.closed ensures Owned(t.tracks, z) {
      assert Owned(s.tracks, z);
      var sid :| sid in s.tracks && s.tracks[sid].cancel == z;
      assert sid in t.tracks;
    }
  }

  lemma MixerKeepsAccounted(s: State)
    requires Accounted(s)
    ensures Accounted(ActivateMixer(s))
  {
    var t := ActivateMixer(s);
    SameCancels(s, t);
    forall i ensures i in t.inputs <==> i in InputsOf(t.tracks) {
      InputsOfHas(s.tracks, i);
      InputsOfHas(t.tracks, i);
      if i in t.inputs {
        var sid :| sid in s.tracks && Mixed(s.tracks[sid], s.epoch).input == Some(i);
        assert t.tracks[sid].input == Some(i);
      }
    }
  }

  lemma PassthroughKeepsAccounted(s: State)
    requires Accounted(s)
    ensures Accounted(ActivatePassthrough(s))
  {
    var t := ActivatePassthrough(s);
    SameCancels(s, t);
    assert InputsOf(t.tracks) == {};
  }

  lemma AddKeepsCancels(s: State, sid: Sid)
    requires Cancels(s) && sid !in s.tracks
    ensures Cancels(Added(s, sid))
  {
    var t := Added(s, sid);
    forall z: nat | z < t.made && z !in t.closed ensures Owned(t.tracks, z) {
      if z == s.made {
        assert t.tracks[sid].cancel == z;
      } else {
        assert Owned(s.tracks, z);
        var a :| a in s.tracks && s.tracks[a].cancel == z;
        assert t.tracks[a].cancel == z;
      }
    }
  }

  lemma AddKeepsInputs(s: State, sid: Sid)
    requires Inputs(s) && sid !in s.tracks
    ensures Inputs(Added(s, sid))
  {
    var t := Added(s, sid);
    forall i ensures i in InputsOf(t.tracks) <==> i in InputsOf(s.tracks) {
      InputsOfHas(s.tracks, i);
      InputsOfHas(t.tracks, i);
      if a :| a in s.tracks && s.tracks[a].input == Some(i) {
        assert t.tracks[a].input == Some(i);
      }
    }
  }

  lemma RemoveKeepsCancels(s: State, sid: Sid)
    requires Cancels(s) && sid in s.tracks
    ensures Cancels(WithoutTrack(s, sid))
  {
    var t := WithoutTrack(s, sid);
    forall z: nat | z < t.made && z !in t.closed ensures Owned(t.tracks, z) {
      assert z !in s.closed && Owned(s.tracks, z);
      var a :| a in s.tracks && s.tracks[a].cancel == z;
      assert a in t.tracks;
    }
  }

  lemma RemoveKeepsInputs(s: State, sid: Sid)
    requires Accounted(s) && sid in s.tracks
    ensures Inputs(WithoutTrack(s, sid))
  {
    var t := WithoutTrack(s, sid);
    forall i ensures i in t.inputs <==> i in InputsOf(t.tracks) {
      InputsOfHas(s.tracks, i);
      InputsOfHas(t.tracks, i);
      if a :| a in s.tracks && s.tracks[a].input == Some(i) {
        assert a != sid ==> a in t.tracks && t.tracks[a].input == Some(i);
      }
    }
  }

  /** Overwriting a track under its own id loses its cancel channel: nothing will ever close it. Exactly
      the subscriptions with a new id keep the account. */
  lemma SubscribeKeepsAccountedExactly(s: State, sid: Sid)
    requires Accounted(s)
    ensures Accounted(Subscribe(s, sid)) <==> sid !in s.tracks
  {
    var t, u := Added(s, sid), Subscribe(s, sid);
    if sid !in s.tracks {
      AddKeepsCancels(s, sid);
      AddKeepsInputs(s, sid);
      MixerKeepsAccounted(t);
    } else {
      OverwrittenCancelIsLost(s, sid);
    }
  }

  lemma OverwrittenCancelIsLost(s: State, sid: Sid)
    requires Cancels(s) && sid in s.tracks
    ensures !Cancels(Subscribe(s, sid))
  {
    var z, u := s.tracks[sid].cancel, Subscribe(s, sid);
    assert u.closed == s.closed && z < u.made;
    forall a | a in u.tracks ensures u.tracks[a].cancel != z {
      assert u.tracks[a].cancel == Added(s, sid).tracks[a].cancel;
    }
    assert !Owned(u.tracks, z);
  }

  lemma UnsubscribeKeepsAccounted(s: State, sid: Sid)
    requires Accounted(s)
    ensures Accounted(Unsubscribe(s, sid))
  {
    if sid in s.tracks {
      RemoveKeepsCancels(s, sid);
      RemoveKeepsInputs(s, sid);
      PassthroughKeepsAccounted(WithoutTrack(s, sid));
    } else {
      PassthroughKeepsAccounted(s);
    }
  }

  lemma SubscribeKeepsModes(s: State, sid: Sid)
    requires ModesFollow(s)
    ensures ModesFollow(Subscribe(s, sid))
  {
    var t := Added(s, sid);
    if |t.tracks| == 1 {
      OnlyOne(t.tracks, sid);
    } else {
      assert ActivateMixer(t).tracks.Keys == t.tracks.Keys;
    }
  }

  lemma OnlyOne(tracks: map<Sid, Track>, sid: Sid)
    requires |tracks| == 1 && sid in tracks
    ensures forall k :: k in tracks ==> k == sid
  {
    assert |tracks.Keys - {sid}| == 0;
    forall k | k in tracks ensures k == sid {
      assert k != sid ==> k in tracks.Keys - {sid};
    }
  }

  lemma UnsubscribeKeepsModes(s: State, sid: Sid)
    requires ModesFollow(s)
    ensures ModesFollow(Unsubscribe(s, sid))
  {
    var t := if sid in s.tracks then WithoutTrack(s, sid) else s;
    assert t.tracks.Keys == s.tracks.Keys - {sid};
    assert ActivatePassthrough(t).tracks.Keys == t.tracks.Keys;
  }

  // -------------------------------------------------------------------- runs

  datatype Event = Subscribed(sid: Sid, identity: string, audio: bool) | Unsubscribed(sid: Sid) | Closing

  /** Closing every track, in any order; the output's mute flag is left as it is. */
  ghost predicate Closes(s: State, t: State) {
    && t.tracks == map[] && t.inputs == s.inputs - InputsOf(s.tracks)
    && t.muted == s.muted && t.made == s.made && t.epoch == s.epoch
    && s.closed <= t.closed
    && (forall i, j :: |s.closed| <= i < j < |t.closed| ==> t.closed[i] != t.closed[j])
    && (forall z: nat :: z in t.closed[|s.closed|..] <==> Owned(s.tracks, z))
  }

  ghost predicate Next(s: State, e: Event, t: State) {
    match e
    case Subscribed(sid, identity, audio) => t == if Ignored(identity, audio) then s else Subscribe(s, sid)
    case Unsubscribed(sid) => t == Unsubscribe(s, sid)
    case Closing => Closes(s, t)
  }

  ghost predicate IsRun(states: seq<State>, es: seq<Event>) {
    |states| == |es| + 1 && forall k :: 0 <= k < |es| ==> Next(states[k], es[k], states[k + 1])
  }

  /** No track is subscribed under an id that is in use. */
  predicate NewId(s: State, e: Event) {
    e.Subscribed? && !Ignored(e.identity, e.audio) ==> e.sid !in s.tracks
  }

  ghost predicate NewIds(states: seq<State>, es: seq<Event>)
    requires IsRun(states, es)
  {
    forall k :: 0 <= k < |es| ==> NewId(states[k], es[k])
  }

  lemma CloseClosesOnce(s: State, t: State)
    requires ClosedOnce(s) && Closes(s, t)
    ensures ClosedOnce(t)
  {
    var news := t.closed[|s.closed|..];
    assert t.closed == s.closed + news;
    forall z | z in news ensures z !in s.closed && z < s.made {
      assert Owned(s.tracks, z);
    }
    forall i, j | 0 <= i < j < |t.closed| ensures t.closed[i] != t.closed[j] {
      if i < |s.closed| <= j {
        assert t.closed[i] in s.closed && t.closed[j] in news;
      }
    }
  }

  lemma SameCancelsClosesOnce(s: State, t: State)
    requires ClosedOnce(s) && t.closed == s.closed && t.made == s.made && t.tracks.Keys == s.tracks.Keys
    requires forall sid :: sid in s.tracks ==> t.tracks[sid].cancel == s.tracks[sid].cancel
    ensures ClosedOnce(t)
  {
  }

  lemma SubscribeClosesOnce(s: State, sid: Sid)
    requires ClosedOnce(s)
    ensures ClosedOnce(Subscribe(s, sid))
  {
    var t := Added(s, sid);
    assert ClosedOnce(t);
    SameCancelsClosesOnce(t, Subscribe(s, sid));
  }

  lemma UnsubscribeClosesOnce(s: State, sid: Sid)
    requires ClosedOnce(s)
    ensures ClosedOnce(Unsubscribe(s, sid))
  {
    var t := if sid in s.tracks then WithoutTrack(s, sid) else s;
    assert ClosedOnce(t);
    SameCancelsClosesOnce(t, Unsubscribe(s, sid));
  }

  lemma StepClosesOnce(s: State, e: Event, t: State)
    requires ClosedOnce(s) && Next(s, e, t)
    ensures ClosedOnce(t)
  {
    match e
    case Subscribed(sid, _, _) => SubscribeClosesOnce(s, sid);
    case Unsubscribed(sid) => UnsubscribeClosesOnce(s, sid);
    case Closing => CloseClosesOnce(s, t);
  }

  /** Every run, Close included, ids reused or not: no cancel channel is ever closed twice. */
  lemma {:induction false} RunClosesOnce(states: seq<State>, es: seq<Event>)
    requires IsRun(states, es) && ClosedOnce(states[0])
    ensures ClosedOnce(states[|es|])
    decreases |es|
  {
    if es == [] {
    } else {
      var k := |es| - 1;
      RunClosesOnce(states[..k + 1], es[..k]);
      StepClosesOnce(states[k], es[k], states[k + 1]);
    }
  }

  lemma CloseKeepsAccounted(s: State, t: State)
    requires Accounted(s) && Closes(s, t)
    ensures Accounted(t)
  {
    CloseClosesOnce(s, t);
    assert t.closed == s.closed + t.closed[|s.closed|..];
    forall z | 0 <= z < t.made ensures z in t.closed {
      assert z !in s.closed ==> Owned(s.tracks, z) && z in t.closed[|s.closed|..];
    }
  }

  lemma StepKeepsAccounted(s: State, e: Event, t: State)
    requires Accounted(s) && Next(s, e, t) && NewId(s, e)
    ensures Accounted(t)
  {
    match e
    case Subscribed(sid, identity, audio) => SubscribeKeepsAccountedExactly(s, sid);
    case Unsubscribed(sid) => UnsubscribeKeepsAccounted(s, sid);
    case Closing => CloseKeepsAccounted(s, t);
  }

  lemma StepKeepsModes(s: State, e: Event, t: State)
    requires ModesFollow(s) && Next(s, e, t) && e != Closing
    ensures ModesFollow(t)
  {
    match e
    case Subscribed(sid, identity, audio) => SubscribeKeepsModes(s, sid);
    case Unsubscribed(sid) => UnsubscribeKeepsModes(s, sid);
  }

  /** Every run with new ids, Close included and whatever comes after it: inputs and cancel channels stay accounted for,
      so each cancel channel is closed at most once and no input stays behind. */
  lemma {:induction false} RunKeepsAccounted(states: seq<State>, es: seq<Event>)
    requires IsRun(states, es) && NewIds(states, es) && Accounted(states[0])
    ensures Accounted(states[|es|])
    decreases |es|
  {
    if es == [] {
    } else {
      var k := |es| - 1;
      RunKeepsAccounted(states[..k + 1], es[..k]);
      StepKeepsAccounted(states[k], es[k], states[k + 1]);
    }
  }

  /** Every run without Close: the modes follow the number of tracks. */
  lemma {:induction false} RunKeepsModes(states: seq<State>, es: seq<Event>)
    requires IsRun(states, es) && ModesFollow(states[0]) && Closing !in es
    ensures ModesFollow(states[|es|])
    decreases |es|
  {
    if es == [] {
    } else {
      var k := |es| - 1;
      RunKeepsModes(states[..k + 1], es[..k]);
      StepKeepsModes(states[k], es[k], states[k + 1]);
    }
  }

  /** A bridge identity's track, and one that is not audio, changes nothing; any other is there afterwards. */
  lemma SubscribesExactly(s: State, sid: Sid, identity: string, audio: bool, t: State)
    requires Next(s, Subscribed(sid, identity, audio), t)
    ensures "discord:" <= identity ==> t == s
    ensures "@discord_" <= identity ==> t == s
    ensures identity == "discord-bridge-listener" ==> t == s
    ensures !audio ==> t == s
    ensures !IsBridge(identity) && audio ==> t.tracks.Keys == s.tracks.Keys + {sid} && t == Subscribe(s, sid)
  {
  }

  /** The event brings in an audio track of somebody else than the bridge, under this id. */
  predicate BringsIn(e: Event, sid: Sid) {
    e.Subscribed? && e.sid == sid && e.audio
    && !("discord:" <= e.identity) && !("@discord_" <= e.identity) && e.identity != "discord-bridge-listener"
  }

  /** In every run, each track was brought in: nothing the bridge publishes itself is ever there. */
  lemma {:induction false} NoBridgeTrack(states: seq<State>, es: seq<Event>, sid: Sid)
    requires IsRun(states, es) && states[0] == START && sid in states[|es|].tracks
    ensures exists e :: e in es && BringsIn(e, sid)
    decreases |es|
  {
    if es != [] {
      var k := |es| - 1;
      if sid in states[k].tracks {
        NoBridgeTrack(states[..k + 1], es[..k], sid);
        var e :| e in es[..k] && BringsIn(e, sid);
        assert e in es;
      } else {
        assert es[k] in es && BringsIn(es[k], sid);
      }
    }
  }

  /** What a subscription does to the others: their ids and cancel channels stay, nothing is closed, and an
      input that is there is kept. */
  lemma SubscribeSpares(s: State, sid: Sid, other: Sid)
    requires other in s.tracks && other != sid
    ensures var t := Subscribe(s, sid);
            && other in t.tracks && t.tracks[other].cancel == s.tracks[other].cancel && t.closed == s.closed
            && (|s.tracks.Keys + {sid}| >= 2 && s.tracks[other].input.Some? ==>
                  t.tracks[other].input == s.tracks[other].input)
            && s.inputs <= t.inputs
  {
    assert Added(s, sid).tracks.Keys == s.tracks.Keys + {sid};
  }

  /** A subscription gets a new cancel channel. */
  lemma CancelIsNew(s: State, sid: Sid)
    ensures var t := Subscribe(s, sid); sid in t.tracks && t.tracks[sid].cancel == s.made && t.made == s.made + 1
  {
  }

  lemma PassthroughSpares(s: State)
    ensures var t := ActivatePassthrough(s);
            && t.tracks.Keys == s.tracks.Keys && t.made == s.made && t.closed == s.closed
            && forall sid :: sid in t.tracks ==> t.tracks[sid].cancel == s.tracks[sid].cancel
  {
  }

  /** The end of one closes its channel, and nothing else. */
  lemma UnsubscribesExactly(s: State, sid: Sid, t: State)
    requires Next(s, Unsubscribed(sid), t)
    ensures t.tracks.Keys == s.tracks.Keys - {sid} && t.made == s.made
    ensures t.closed == s.closed + if sid in s.tracks then [s.tracks[sid].cancel] else []
    ensures forall other :: other in t.tracks ==> t.tracks[other].cancel == s.tracks[other].cancel
  {
    var left := if sid in s.tracks then WithoutTrack(s, sid) else s;
    PassthroughSpares(left);
    assert left.tracks.Keys == s.tracks.Keys - {sid};
  }

  /** After Close every cancel channel ever made is closed and no input is registered. */
  lemma CloseReleasesAll(s: State, t: State)
    requires Accounted(s) && Closes(s, t)
    ensures t.tracks == map[] && t.inputs == {} && forall z: nat :: z < t.made ==> z in t.closed
  {
    CloseKeepsAccounted(s, t);
    forall z: nat | z < t.made ensures z in t.closed {
      assert !Owned(t.tracks, z);
    }
  }

  /** Close leaves the output unmuted exactly when the mixer was on. */
  lemma CloseKeepsModesExactly(s: State, t: State)
    requires ModesFollow(s) && Closes(s, t)
    ensures ModesFollow(t) <==> |s.tracks| <= 1
  {
  }
}
