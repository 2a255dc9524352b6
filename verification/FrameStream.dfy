/** The sidecar's OpusFrameStream: a queue of at most five frames in front of a reader that may push back. */
module FrameStream {
  import opened Bytes

  const CAPACITY := 5

  type Frame = seq<byte>

  /** Where a frame that has left the queue went. */
  datatype Exit = Delivered | Dropped

  /** `exits[k]` is the exit of the k-th frame ever pushed; frames from |exits| on are still queued. */
  datatype Stream = Stream(pushed: seq<Frame>, exits: seq<Exit>, frames: seq<Frame>, reading: bool, asked: nat)

  const EMPTY := Stream([], [], [], false, 0)

  /** The readable side: whether the k-th push reports room for more. */
  type Answers = nat -> bool

  /** The frames that took one exit, in the order they were pushed. */
  function Leaving(pushed: seq<Frame>, exits: seq<Exit>, e: Exit): seq<Frame>
    requires |exits| <= |pushed|
    decreases |exits|
  {
    if exits == [] then []
    else
      var k := |exits| - 1;
      Leaving(pushed, exits[..k], e) + if exits[k] == e then [pushed[k]] else []
  }

  /** The queue is what was pushed and has not left: a suffix, never longer than the capacity, and empty
      while a read is outstanding. */
  ghost predicate Good(s: Stream) {
    && |s.exits| <= |s.pushed|
    && s.frames == s.pushed[|s.exits|..]
    && |s.frames| <= CAPACITY
    && (s.reading ==> s.frames == [])
  }

  function Flush(a: Answers, s: Stream): Stream
    decreases |s.frames|
  {
    if s.frames == [] then s.(reading := true)
    else
      var t := s.(frames := s.frames[1..], exits := s.exits + [Delivered], asked := s.asked + 1);
      if !a(s.asked) then t.(reading := false) else Flush(a, t)
  }

  function PushFrame(a: Answers, s: Stream, f: Frame): Stream {
    var over := if |s.frames| >= CAPACITY then |s.frames| - CAPACITY + 1 else 0;
    var t := s.(frames := s.frames[over..] + [f],
                exits := s.exits + seq(over, _ => Dropped),
                pushed := s.pushed + [f]);
    if s.reading then Flush(a, t) else t
  }

  function Read(a: Answers, s: Stream): Stream {
    Flush(a, s.(reading := true))
  }

  lemma OneMoreExit(exits: seq<Exit>, e: Exit, n: nat)
    ensures exits + [e] + seq(n, _ => e) == exits + seq(n + 1, _ => e)
    ensures exits + [e] + seq(0, _ => e) == exits + [e]
  {
  }

  lemma OneMoreAtTheEnd(exits: seq<Exit>, e: Exit, n: nat)
    ensures exits + seq(n, _ => e) + [e] == exits + seq(n + 1, _ => e)
  {
  }

  /** Flushing delivers frames from the front of the queue, one or more of them unless it is empty, and
      stops at the first refusal of more, if there is one. */
  lemma {:induction false} FlushDelivers(a: Answers, s: Stream)
    requires |s.exits| <= |s.pushed| && s.frames == s.pushed[|s.exits|..]
    ensures var t := Flush(a, s);
            var n := |s.frames| - |t.frames|;
            && t.pushed == s.pushed && n >= 0 && t.exits == s.exits + seq(n, _ => Delivered)
            && t.frames == t.pushed[|t.exits|..]
            && t.asked == s.asked + n
            && (t.reading ==> t.frames == [])
            && (!t.reading ==> n > 0 && !a(t.asked - 1))
            && (forall k :: s.asked <= k < t.asked - 1 ==> a(k))
            && (t.reading <==> forall k :: s.asked <= k < s.asked + |s.frames| ==> a(k))
    decreases |s.frames|
  {
    if s.frames == [] {
      assert s.exits + seq(0, _ => Delivered) == s.exits;
    } else {
      var t := s.(frames := s.frames[1..], exits := s.exits + [Delivered], asked := s.asked + 1);
      if a(s.asked) {
        FlushDelivers(a, t);
        var n := |t.frames| - |Flush(a, t).frames|;
        OneMoreExit(s.exits, Delivered, n);
      } else {
        OneMoreExit(s.exits, Delivered, 0);
      }
    }
  }

  /** A push keeps the queue good. It drops one frame, the oldest, exactly when the queue was full, which
      only happens while no read is outstanding. */
  lemma PushKeepsGood(a: Answers, s: Stream, f: Frame)
    requires Good(s)
    ensures var t := PushFrame(a, s, f);
            && Good(t) && t.pushed == s.pushed + [f]
            && (|s.frames| < 5 && !s.reading ==> t.exits == s.exits)
            && (|s.frames| == 5 ==> !s.reading && t.exits == s.exits + [Dropped])
            && (s.reading ==> t.exits == s.exits + [Delivered] && t.reading == a(s.asked) && t.asked == s.asked + 1)
            && (!s.reading ==> !t.reading && t.asked == s.asked)
  {
    var over := if |s.frames| >= CAPACITY then |s.frames| - CAPACITY + 1 else 0;
    var t := s.(frames := s.frames[over..] + [f], exits := s.exits + seq(over, _ => Dropped), pushed := s.pushed + [f]);
    assert t.frames == t.pushed[|t.exits|..];
    assert s.exits + seq(0, _ => Dropped) == s.exits;
    assert s.exits + seq(1, _ => Dropped) == s.exits + [Dropped];
    if s.reading {
      FlushDelivers(a, t);
      assert seq(1, _ => Delivered) == [Delivered];
    }
  }

  /** A read takes the whole queue if every push has room for more, and otherwise stops at the refusal. */
  lemma ReadKeepsGood(a: Answers, s: Stream)
    requires Good(s)
    ensures var t := Read(a, s);
            && Good(t) && t.pushed == s.pushed
            && (forall k :: |s.exits| <= k < |t.exits| ==> t.exits[k] == Delivered)
            && s.exits <= t.exits && (s.frames != [] ==> |s.exits| < |t.exits|)
            && (t.reading <==> forall k :: s.asked <= k < s.asked + |s.frames| ==> a(k))
  {
    FlushDelivers(a, s.(reading := true));
  }

  // -------------------------------------------------------------------- runs

  datatype Event = Push(frame: Frame) | Demand

  function Step(a: Answers, s: Stream, e: Event): Stream {
    match e
    case Push(f) => PushFrame(a, s, f)
    case Demand => Read(a, s)
  }

  function Run(a: Answers, s: Stream, es: seq<Event>): Stream
    decreases |es|
  {
    if es == [] then s else Run(a, Step(a, s, es[0]), es[1..])
  }

  function Pushes(es: seq<Event>): seq<Frame> {
    if es == [] then [] else (if es[0].Push? then [es[0].frame] else []) + Pushes(es[1..])
  }

  lemma StepKeepsGood(a: Answers, s: Stream, e: Event)
    requires Good(s)
    ensures Good(Step(a, s, e)) && s.exits <= Step(a, s, e).exits
    ensures Step(a, s, e).pushed == s.pushed + if e.Push? then [e.frame] else []
  {
    match e
    case Push(f) =>
      PushKeepsGood(a, s, f);
      assert s.reading || |s.frames| == CAPACITY || PushFrame(a, s, f).exits == s.exits;
    case Demand => ReadKeepsGood(a, s);
  }

  /** Every run: what was pushed is, in order, what left followed by the queue, and exits are final. */
  lemma {:induction false} RunKeepsGood(a: Answers, s: Stream, es: seq<Event>)
    requires Good(s)
    ensures Good(Run(a, s, es)) && s.exits <= Run(a, s, es).exits
    ensures Run(a, s, es).pushed == s.pushed + Pushes(es)
    decreases |es|
  {
    if es == [] {
    } else {
      StepKeepsGood(a, s, es[0]);
      RunKeepsGood(a, Step(a, s, es[0]), es[1..]);
      var now, later := if es[0].Push? then [es[0].frame] else [], Pushes(es[1..]);
      assert s.pushed + now + later == s.pushed + (now + later);
    }
  }

  lemma {:induction false} ExitsPartition(pushed: seq<Frame>, exits: seq<Exit>)
    requires |exits| <= |pushed|
    ensures |Leaving(pushed, exits, Delivered)| + |Leaving(pushed, exits, Dropped)| == |exits|
    decreases |exits|
  {
    if exits == [] {
    } else {
      ExitsPartition(pushed, exits[..|exits| - 1]);
    }
  }

  /** Conservation over every run from the start: pushed = delivered + dropped + queued. */
  lemma FramesAreConserved(a: Answers, es: seq<Event>)
    ensures var t := Run(a, EMPTY, es);
            Good(t) && |t.frames| <= 5 && t.pushed == Pushes(es)
            && |Pushes(es)| == |Leaving(t.pushed, t.exits, Delivered)| + |Leaving(t.pushed, t.exits, Dropped)|
                               + |t.frames|
  {
    RunKeepsGood(a, EMPTY, es);
    ExitsPartition(Run(a, EMPTY, es).pushed, Run(a, EMPTY, es).exits);
  }

  predicate AlwaysRoom(a: Answers, asked: nat, until: nat) {
    forall k :: asked <= k < until ==> a(k)
  }

  lemma {:induction false} AllDeliveredPrefix(pushed: seq<Frame>, exits: seq<Exit>, n: nat)
    requires n <= |exits| <= |pushed| && forall k :: 0 <= k < n ==> exits[k] == Delivered
    ensures Leaving(pushed, exits[..n], Delivered) == pushed[..n]
    ensures Leaving(pushed, exits[..n], Dropped) == []
  {
    if n > 0 {
      AllDeliveredPrefix(pushed, exits, n - 1);
      assert exits[..n][..n - 1] == exits[..n - 1];
      assert pushed[..n] == pushed[..n - 1] + [pushed[n - 1]];
    }
  }

  /** Frames are dropped only under backpressure: once a read is outstanding, and as long as the pushes
      that follow report room, every frame goes straight through and the read stays outstanding. */
  lemma {:induction false} NoDropWithoutBackpressure(a: Answers, s: Stream, es: seq<Event>)
    requires Good(s) && s.reading && AlwaysRoom(a, s.asked, s.asked + |Pushes(es)|)
    ensures var t := Run(a, s, es);
            t.reading && t.exits == s.exits + seq(|Pushes(es)|, _ => Delivered)
            && t.asked == s.asked + |Pushes(es)|
    decreases |es|
  {
    if es == [] {
      assert s.exits + seq(0, _ => Delivered) == s.exits;
    } else {
      var t := Step(a, s, es[0]);
      var n := |Pushes(es[1..])|;
      match es[0] {
        case Push(f) =>
          PushKeepsGood(a, s, f);
          assert |Pushes(es)| == 1 + n;
          NoDropWithoutBackpressure(a, t, es[1..]);
          OneMoreExit(s.exits, Delivered, n);
        case Demand =>
          ReadKeepsGood(a, s);
          FlushDelivers(a, s.(reading := true));
          NoDropWithoutBackpressure(a, t, es[1..]);
      }
    }
  }

  /** The readable side has not asked yet, or its last answer was that it has no room. */
  predicate Pressing(a: Answers, s: Stream, demanded: bool) {
    !demanded || (s.asked > 0 && !a(s.asked - 1))
  }

  lemma StepKeepsPressing(a: Answers, s: Stream, e: Event, demanded: bool)
    requires Good(s) && (!s.reading ==> Pressing(a, s, demanded))
    ensures var t := Step(a, s, e);
            !t.reading ==> Pressing(a, t, demanded || e == Demand)
  {
    match e
    case Demand => FlushDelivers(a, s.(reading := true));
    case Push(f) => PushKeepsGood(a, s, f);
  }

  lemma {:induction false} RunKeepsPressing(a: Answers, s: Stream, es: seq<Event>, demanded: bool)
    requires Good(s) && (!s.reading ==> Pressing(a, s, demanded))
    ensures var t := Run(a, s, es);
            !t.reading ==> Pressing(a, t, demanded || Demand in es)
    decreases |es|
  {
    if es == [] {
    } else {
      StepKeepsGood(a, s, es[0]);
      StepKeepsPressing(a, s, es[0], demanded);
      RunKeepsPressing(a, Step(a, s, es[0]), es[1..], demanded || es[0] == Demand);
      assert Demand in es <==> es[0] == Demand || Demand in es[1..];
    }
  }

  /** Whatever the answers before it: a push drops a frame exactly when five are queued, and then nothing
      has asked yet or the last answer was a refusal. */
  lemma DropsMeanBackpressure(a: Answers, es: seq<Event>, f: Frame)
    ensures var t := Run(a, EMPTY, es);
            var u := PushFrame(a, t, f);
            && t.exits <= u.exits && (Dropped in u.exits[|t.exits|..] <==> |t.frames| == 5)
            && (|t.frames| > 0 ==> Pressing(a, t, Demand in es))
  {
    RunKeepsGood(a, EMPTY, es);
    RunKeepsPressing(a, EMPTY, es, false);
    PushKeepsGood(a, Run(a, EMPTY, es), f);
  }

  lemma AllDelivered(t: Stream)
    requires Good(t) && t.reading && forall k :: 0 <= k < |t.exits| ==> t.exits[k] == Delivered
    ensures t.frames == [] && Leaving(t.pushed, t.exits, Delivered) == t.pushed
    ensures Leaving(t.pushed, t.exits, Dropped) == []
  {
    AllDeliveredPrefix(t.pushed, t.exits, |t.exits|);
    assert t.exits[..|t.exits|] == t.exits && t.pushed[..|t.exits|] == t.pushed;
  }

  lemma FirstDemand(a: Answers, es: seq<Event>)
    ensures Run(a, EMPTY, [Demand] + es) == Run(a, EMPTY.(reading := true), es)
  {
    assert ([Demand] + es)[1..] == es;
  }

  /** From the start: a reader that never pushes back after its first read gets every frame, in order. */
  lemma UnpressedReaderGetsEverything(a: Answers, es: seq<Event>)
    requires AlwaysRoom(a, 0, |Pushes(es)|)
    ensures var t := Run(a, EMPTY, [Demand] + es);
            Good(t) && t.frames == [] && Leaving(t.pushed, t.exits, Delivered) == Pushes(es)
            && Leaving(t.pushed, t.exits, Dropped) == []
  {
    var s := EMPTY.(reading := true);
    FirstDemand(a, es);
    NoDropWithoutBackpressure(a, s, es);
    RunKeepsGood(a, s, es);
    AllDelivered(Run(a, s, es));
  }

  function LastFive(x: seq<Frame>): seq<Frame> {
    if |x| <= 5 then x else x[|x| - 5..]
  }

  lemma LastFiveOfLastFive(x: seq<Frame>, y: seq<Frame>)
    ensures LastFive(LastFive(x) + y) == LastFive(x + y)
  {
  }

  lemma UnreadPush(a: Answers, s: Stream, f: Frame)
    requires Good(s) && !s.reading
    ensures var t := PushFrame(a, s, f);
            Good(t) && !t.reading && t.asked == s.asked && t.frames == LastFive(s.frames + [f])
  {
  }

  /** The opposite case: while nothing reads, a queue keeps the last five frames pushed and drops the rest. */
  lemma {:induction false} UnreadQueueKeepsTheLastFive(a: Answers, s: Stream, es: seq<Event>)
    requires Good(s) && !s.reading && forall e :: e in es ==> e.Push?
    ensures var t := Run(a, s, es);
            !t.reading && t.asked == s.asked && t.frames == LastFive(s.frames + Pushes(es))
    decreases |es|
  {
    if es == [] {
      assert s.frames + [] == s.frames;
    } else {
      assert es[0] in es && forall e :: e in es[1..] ==> e in es;
      var f, rest := es[0].frame, Pushes(es[1..]);
      UnreadPush(a, s, f);
      UnreadQueueKeepsTheLastFive(a, PushFrame(a, s, f), es[1..]);
      LastFiveOfLastFive(s.frames + [f], rest);
      assert s.frames + ([f] + rest) == s.frames + [f] + rest;
    }
  }

  // --------------------------------------------------- the JavaScript object

  class OpusFrameStream {
    const answers: Answers
    var frames: seq<Frame>
    var reading: bool
    /** The frames given to the readable side, in order. */
    var delivered: seq<Frame>
    ghost var pushed: seq<Frame>
    ghost var exits: seq<Exit>

    ghost predicate Consistent()
      reads this
    {
      |exits| + |frames| == |pushed| && frames == pushed[|exits|..] && delivered == Leaving(pushed, exits, Delivered)
    }

    ghost function View(): Stream
      reads this
    {
      Stream(pushed, exits, frames, reading, |delivered|)
    }

    ghost predicate Valid()
      reads this
    {
      Consistent() && Good(View())
    }

    constructor (answers: Answers)
      ensures Valid() && View() == EMPTY && this.answers == answers
    {
      this.answers := answers;
      frames, reading, delivered, pushed, exits := [], false, [], [], [];
    }

    /** One shift and push; whether the readable side has room for more. */
    method DeliverOne() returns (more: bool)
      requires Consistent() && frames != []
      modifies `frames, `delivered, `exits
      ensures Consistent() && more == answers(|old(delivered)|)
      ensures View() == old(View()).(frames := old(frames)[1..], exits := old(exits) + [Delivered],
                                     asked := |old(delivered)| + 1)
    {
      LeavingGrows(pushed, exits, Delivered);
      var frame := frames[0];
      frames := frames[1..];
      exits := exits + [Delivered];
      delivered := delivered + [frame];
      more := answers(|delivered| - 1);
    }

    method FlushQueue()
      requires Consistent()
      modifies this
      ensures Consistent() && View() == Flush(answers, old(View()))
    {
      ghost var whole := Flush(answers, View());
      while |frames| > 0
        invariant Consistent() && Flush(answers, View()) == whole
        decreases |frames|
      {
        ghost var before := View();
        var more := DeliverOne();
        assert Flush(answers, before) == if more then Flush(answers, View()) else View().(reading := false);
        if !more {
          reading := false;
          return;
        }
      }
      reading := true;
    }

    /** The loop that makes room for one frame. */
    /** One shift. */
    method DropOne()
      requires Consistent() && frames != []
      modifies `frames, `exits
      ensures Consistent()
      ensures View() == old(View()).(frames := old(frames)[1..], exits := old(exits) + [Dropped])
    {
      LeavingGrows(pushed, exits, Dropped);
      exits := exits + [Dropped];
      frames := frames[1..];
    }

    method DropOldest()
      requires Valid()
      modifies `frames, `exits
      ensures Consistent()
      ensures var over := if |old(frames)| >= CAPACITY then |old(frames)| - CAPACITY + 1 else 0;
              View() == old(View()).(frames := old(frames)[over..], exits := old(exits) + seq(over, _ => Dropped))
    {
      ghost var before := View();
      ghost var over := 0;
      while |frames| >= CAPACITY
        invariant over <= |before.frames| && frames == before.frames[over..] && Consistent()
        invariant over > 0 ==> |before.frames| - over >= CAPACITY - 1
        invariant View() == before.(frames := frames, exits := before.exits + seq(over, _ => Dropped))
        decreases |frames|
      {
        DropOne();
        over := over + 1;
        OneMoreAtTheEnd(before.exits, Dropped, over - 1);
      }
    }

    method PushOne(f: Frame)
      requires Valid()
      modifies this
      ensures Valid() && View() == PushFrame(answers, old(View()), f)
    {
      ghost var before := View();
      DropOldest();
      assert Leaving(pushed + [f], exits, Delivered) == delivered by {
        LeavingIgnoresTheQueue(pushed, [f], exits, Delivered);
      }
      frames := frames + [f];
      pushed := pushed + [f];
      if reading {
        FlushQueue();
      }
      PushKeepsGood(answers, before, f);
    }

    method ReadMore()
      requires Valid()
      modifies this
      ensures Valid() && View() == Read(answers, old(View()))
    {
      ReadKeepsGood(answers, View());
      reading := true;
      FlushQueue();
    }
  }

  lemma LeavingGrows(pushed: seq<Frame>, exits: seq<Exit>, e: Exit)
    requires |exits| < |pushed|
    ensures Leaving(pushed, exits + [e], e) == Leaving(pushed, exits, e) + [pushed[|exits|]]
    ensures forall e' :: e' != e ==> Leaving(pushed, exits + [e], e') == Leaving(pushed, exits, e')
  {
  }

  lemma {:induction false} LeavingIgnoresTheQueue(pushed: seq<Frame>, more: seq<Frame>, exits: seq<Exit>, e: Exit)
    requires |exits| <= |pushed|
    ensures Leaving(pushed + more, exits, e) == Leaving(pushed, exits, e)
    decreases |exits|
  {
    if exits != [] {
      LeavingIgnoresTheQueue(pushed, more, exits[..|exits| - 1], e);
    }
  }
}
