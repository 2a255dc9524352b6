/** The re-framing output: mono samples in calls of any length, 960-sample stereo blocks to the encoder. */
module OpusOutput {
  import opened Bytes
  import opened Limiter

  const FRAME := 960

  type Samples = seq<int16>

  /** What happens to one block: the encoder fails, or it yields a packet that the handler takes or refuses. */
  datatype Fate = EncodeError | Encoded(packet: seq<byte>, accepted: bool)

  /** The encoder and the handler, which may keep any state: the fate of the k-th block given to them. */
  type Sink = (nat, Samples) -> Fate

  datatype Attempt = Attempt(block: Samples, fate: Fate)

  /** The samples waiting in the mono buffer, and every block tried so far. */
  datatype Out = Out(pending: Samples, log: seq<Attempt>)

  datatype Written = Written(out: Out, consumed: nat, refused: bool)

  /** Each sample limited, then duplicated to both channels. */
  function Stereo(block: Samples): (s: Samples)
    ensures |s| == 2 * |block|
  {
    seq(2 * |block|, j requires 0 <= j < 2 * |block| => SoftLimit(block[j / 2]))
  }

  predicate Refused(a: Attempt) {
    a.fate.Encoded? && !a.fate.accepted
  }

  /** How many samples the next turn copies: what fits, or what there is. */
  function Copied(o: Out, input: Samples): (n: nat)
    requires |o.pending| <= FRAME
    ensures n <= |input| && |o.pending| + n <= FRAME
    ensures |o.pending| + n < FRAME ==> n == |input|
  {
    if FRAME - |o.pending| <= |input| then FRAME - |o.pending| else |input|
  }

  function Try(sink: Sink, log: seq<Attempt>, block: Samples): Attempt {
    Attempt(block, sink(|log|, Stereo(block)))
  }

  /** The unmuted call. A turn copies nothing when the buffer is already full; it then empties the
      buffer or leaves the loop, which is why the recursion ends. */
  function Write(sink: Sink, o: Out, input: Samples): (w: Written)
    requires |o.pending| <= FRAME
    ensures |w.out.pending| <= FRAME && w.consumed <= |input| && o.log <= w.out.log
    ensures w.refused ==> |w.out.pending| == FRAME
    ensures !w.refused ==> w.consumed == |input|
    ensures !w.refused && (|o.pending| < FRAME || input != []) ==> |w.out.pending| < FRAME
    decreases |input|, |o.pending|
  {
    if input == [] then Written(o, 0, false)
    else
      var n := Copied(o, input);
      var filled := o.pending + input[..n];
      if |filled| < FRAME then Written(o.(pending := filled), n, false)
      else
        var attempt := Try(sink, o.log, filled);
        var log := o.log + [attempt];
        if Refused(attempt) then Written(Out(filled, log), n, true)
        else
          var w := Write(sink, Out([], log), input[n..]);
          w.(consumed := n + w.consumed)
  }

  /** One turn of the loop, unrolled. */
  lemma WriteTurn(sink: Sink, o: Out, input: Samples)
    requires |o.pending| <= FRAME && input != []
    ensures var n := Copied(o, input);
            var filled := o.pending + input[..n];
            var attempt := Try(sink, o.log, filled);
            if |filled| < FRAME then Write(sink, o, input) == Written(Out(filled, o.log), n, false) && input[n..] == []
            else if Refused(attempt) then Write(sink, o, input) == Written(Out(filled, o.log + [attempt]), n, true)
            else
              var w := Write(sink, Out([], o.log + [attempt]), input[n..]);
              Write(sink, o, input) == w.(consumed := n + w.consumed)
  {
  }

  // ------------------------------------------------------------ conservation

  /** The samples of the blocks that are done with: sent on, or dropped by an encoder error. */
  function Settled(log: seq<Attempt>): Samples {
    if log == [] then []
    else Settled(log[..|log| - 1]) + if Refused(log[|log| - 1]) then [] else log[|log| - 1].block
  }

  /** Everything taken in so far, in order. */
  function Content(o: Out): Samples {
    Settled(o.log) + o.pending
  }

  predicate FullBlocks(log: seq<Attempt>) {
    forall k :: 0 <= k < |log| ==> |log[k].block| == FRAME
  }

  lemma JoinTakes(x: Samples, input: Samples, n: nat, m: nat)
    requires n <= |input| && m <= |input| - n
    ensures x + input[..n] + input[n..][..m] == x + input[..n + m]
  {
  }

  /** A block that is settled moves from the buffer to the settled samples. */
  lemma TurnContent(o: Out, taken: Samples, fate: Fate)
    ensures var filled := o.pending + taken;
            var log := o.log + [Attempt(filled, fate)];
            && Content(Out(filled, o.log)) == Content(o) + taken
            && (Refused(Attempt(filled, fate)) ==> Content(Out(filled, log)) == Content(o) + taken)
            && (!Refused(Attempt(filled, fate)) ==> Content(Out([], log)) == Content(o) + taken)
  {
  }

  /** Under any failures no sample is lost, repeated or reordered on the way in: the call appends exactly
      what it consumed. */
  lemma {:induction false} WriteConserves(sink: Sink, o: Out, input: Samples)
    requires |o.pending| <= FRAME
    ensures Content(Write(sink, o, input).out) == Content(o) + input[..Write(sink, o, input).consumed]
    decreases |input|, |o.pending|
  {
    if input == [] {
      assert Content(o) + input[..0] == Content(o);
    } else {
      WriteTurn(sink, o, input);
      var n := Copied(o, input);
      var filled := o.pending + input[..n];
      var attempt := Try(sink, o.log, filled);
      TurnContent(o, input[..n], attempt.fate);
      if |filled| == FRAME && !Refused(attempt) {
        var next := Out([], o.log + [attempt]);
        WriteConserves(sink, next, input[n..]);
        JoinTakes(Content(o), input, n, Write(sink, next, input[n..]).consumed);
      }
    }
  }

  /** Only whole blocks are tried, and a refused block is still in the buffer when the call returns. */
  lemma {:induction false} WriteTriesFullBlocks(sink: Sink, o: Out, input: Samples)
    requires |o.pending| <= FRAME && FullBlocks(o.log)
    ensures var w := Write(sink, o, input);
            FullBlocks(w.out.log)
            && (w.refused ==> |w.out.log| > |o.log|
                              && w.out.log[|w.out.log| - 1].block == w.out.pending
                              && Refused(w.out.log[|w.out.log| - 1]))
    decreases |input|, |o.pending|
  {
    if input == [] {
    } else {
      WriteTurn(sink, o, input);
      var n := Copied(o, input);
      var filled := o.pending + input[..n];
      var attempt := Try(sink, o.log, filled);
      if |filled| == FRAME && !Refused(attempt) {
        WriteTriesFullBlocks(sink, Out([], o.log + [attempt]), input[n..]);
      }
    }
  }

  /** A full buffer, left by a refusal, is tried again before any new sample is taken. */
  lemma RefusedBlockComesFirst(sink: Sink, o: Out, input: Samples)
    requires |o.pending| == FRAME && input != []
    ensures var w := Write(sink, o, input);
            |w.out.log| > |o.log| && w.out.log[|o.log|] == Try(sink, o.log, o.pending)
            && (Refused(w.out.log[|o.log|]) ==> w == Written(o.(log := o.log + [w.out.log[|o.log|]]), 0, true))
  {
    assert o.pending + input[..0] == o.pending;
    var log := o.log + [Try(sink, o.log, o.pending)];
    var w := Write(sink, o, input);
    assert log <= w.out.log;
    assert w.out.log[|o.log|] == log[|o.log|];
  }

  /** The second part of a cut finishes the block that the first part began. */
  lemma CutInsideABlock(sink: Sink, o: Out, a: Samples, b: Samples)
    requires a != [] && b != [] && |o.pending| + |a| < FRAME
    ensures var whole, second := Write(sink, o, a + b), Write(sink, Write(sink, o, a).out, b);
            whole.out == second.out && whole.refused == second.refused
            && whole.consumed == |a| + second.consumed
  {
    var after := o.(pending := o.pending + a);
    assert a[..|a|] == a;
    WriteTurn(sink, o, a);
    assert Write(sink, o, a).out == after;
    var n, m := Copied(o, a + b), Copied(after, b);
    assert n == |a| + m;
    assert (a + b)[..n] == a + b[..m] && (a + b)[n..] == b[m..];
    assert o.pending + (a + b[..m]) == after.pending + b[..m];
    WriteTurn(sink, o, a + b);
    WriteTurn(sink, after, b);
  }

  /** Cutting an input in two changes nothing, unless the first call is refused. */
  lemma {:induction false} CutsDoNotMatter(sink: Sink, o: Out, a: Samples, b: Samples)
    requires |o.pending| <= FRAME && !Write(sink, o, a).refused
    ensures var whole, second := Write(sink, o, a + b), Write(sink, Write(sink, o, a).out, b);
            whole.out == second.out && whole.refused == second.refused
            && whole.consumed == |a| + second.consumed
    decreases |a|, |o.pending|
  {
    var room := FRAME - |o.pending|;
    if a == [] {
      assert a + b == b;
    } else if b == [] {
      assert a + b == a;
    } else if room <= |a| {
      WriteTurn(sink, o, a);
      WriteTurn(sink, o, a + b);
      assert (a + b)[..room] == a[..room] && (a + b)[room..] == a[room..] + b;
      var log := o.log + [Try(sink, o.log, o.pending + a[..room])];
      CutsDoNotMatter(sink, Out([], log), a[room..], b);
    } else {
      CutInsideABlock(sink, o, a, b);
    }
  }

  // -------------------------------------------------------------------- runs

  /** One WriteSample call, with the mute flag it reads. */
  datatype Call = Call(muted: bool, sample: Samples)

  function Step(sink: Sink, o: Out, c: Call): Written
    requires |o.pending| <= FRAME
  {
    if c.muted then Written(o, 0, false) else Write(sink, o, c.sample)
  }

  function Run(sink: Sink, o: Out, calls: seq<Call>): (r: Out)
    requires |o.pending| <= FRAME
    ensures |r.pending| <= FRAME
    decreases |calls|
  {
    if calls == [] then o else Run(sink, Step(sink, o, calls[0]).out, calls[1..])
  }

  /** The samples the calls take in: all of an unmuted call's, unless it is refused part-way. */
  function Taken(sink: Sink, o: Out, calls: seq<Call>): Samples
    requires |o.pending| <= FRAME
    decreases |calls|
  {
    if calls == [] then []
    else
      var w := Step(sink, o, calls[0]);
      calls[0].sample[..w.consumed] + Taken(sink, w.out, calls[1..])
  }

  predicate NoRefusal(sink: Sink, o: Out, calls: seq<Call>)
    requires |o.pending| <= FRAME
    decreases |calls|
  {
    calls == [] || (!Step(sink, o, calls[0]).refused && NoRefusal(sink, Step(sink, o, calls[0]).out, calls[1..]))
  }

  function Unmuted(calls: seq<Call>): Samples {
    if calls == [] then [] else (if calls[0].muted then [] else calls[0].sample) + Unmuted(calls[1..])
  }

  /** Over any calls and any failures: the settled blocks followed by the buffer are the samples taken. */
  lemma {:induction false} RunConserves(sink: Sink, o: Out, calls: seq<Call>)
    requires |o.pending| <= FRAME && FullBlocks(o.log)
    ensures Content(Run(sink, o, calls)) == Content(o) + Taken(sink, o, calls)
    ensures FullBlocks(Run(sink, o, calls).log)
    decreases |calls|
  {
    if calls == [] {
    } else {
      var w := Step(sink, o, calls[0]);
      if calls[0].muted {
        assert Content(o) + calls[0].sample[..0] == Content(o);
      } else {
        WriteConserves(sink, o, calls[0].sample);
        WriteTriesFullBlocks(sink, o, calls[0].sample);
      }
      RunConserves(sink, w.out, calls[1..]);
      var taken, more := calls[0].sample[..w.consumed], Taken(sink, w.out, calls[1..]);
      assert Content(o) + taken + more == Content(o) + (taken + more);
    }
  }

  /** Without a refusal, muted calls may be left out and the rest run together as one call. */
  lemma {:induction false} RunIsOneWrite(sink: Sink, o: Out, calls: seq<Call>)
    requires |o.pending| < FRAME && NoRefusal(sink, o, calls)
    ensures Write(sink, o, Unmuted(calls)) == Written(Run(sink, o, calls), |Unmuted(calls)|, false)
    decreases |calls|
  {
    if calls == [] {
    } else {
      var a, b := if calls[0].muted then [] else calls[0].sample, Unmuted(calls[1..]);
      RunIsOneWrite(sink, Step(sink, o, calls[0]).out, calls[1..]);
      if calls[0].muted {
        assert a + b == b;
      } else {
        CutsDoNotMatter(sink, o, a, b);
      }
    }
  }

  lemma {:induction false} SettledBlocks(log: seq<Attempt>, k: nat)
    requires FullBlocks(log) && k < |log| && forall j :: 0 <= j < |log| ==> !Refused(log[j])
    ensures |Settled(log)| == FRAME * |log|
    ensures Settled(log)[FRAME * k..FRAME * k + FRAME] == log[k].block
    decreases |log|
  {
    var front := log[..|log| - 1];
    if k < |front| {
      SettledBlocks(front, k);
    } else if front != [] {
      SettledBlocks(front, 0);
    }
  }

  lemma {:induction false} RefusalsShow(sink: Sink, o: Out, input: Samples)
    requires |o.pending| <= FRAME && !Write(sink, o, input).refused
    requires forall j :: 0 <= j < |o.log| ==> !Refused(o.log[j])
    ensures forall j :: 0 <= j < |Write(sink, o, input).out.log| ==> !Refused(Write(sink, o, input).out.log[j])
    decreases |input|, |o.pending|
  {
    if input != [] {
      var room := FRAME - |o.pending|;
      if room <= |input| {
        var filled := o.pending + input[..room];
        var attempt := Try(sink, o.log, filled);
        RefusalsShow(sink, Out([], o.log + [attempt]), input[room..]);
      }
    }
  }

  /** Full blocks, none refused, and a buffer that is not full cut their content in only one way. */
  lemma ContentCutsUp(r: Out)
    requires |r.pending| < FRAME && FullBlocks(r.log) && forall j :: 0 <= j < |r.log| ==> !Refused(r.log[j])
    ensures var x := Content(r);
            && |r.log| == |x| / FRAME && |r.pending| == |x| % FRAME && r.pending == x[|x| - |x| % FRAME..]
            && forall k :: 0 <= k < |r.log| ==>
                 FRAME * k + FRAME <= |x| && r.log[k].block == x[FRAME * k..FRAME * k + FRAME]
  {
    var x := Content(r);
    if |r.log| > 0 {
      SettledBlocks(r.log, 0);
    }
    assert |x| == FRAME * |r.log| + |r.pending|;
    forall k | 0 <= k < |r.log|
      ensures FRAME * k + FRAME <= |x| && r.log[k].block == x[FRAME * k..FRAME * k + FRAME]
    {
      SettledBlocks(r.log, k);
      assert x[FRAME * k..FRAME * k + FRAME] == Settled(r.log)[FRAME * k..FRAME * k + FRAME];
    }
  }

  /** Re-framing. Whatever the cuts, the mutes and the encoder errors: the k-th block tried is the k-th
      run of 960 unmuted samples, every whole block is tried once, and the buffer holds the remainder. */
  lemma Reframes(sink: Sink, calls: seq<Call>)
    requires NoRefusal(sink, Out([], []), calls)
    ensures var x, r := Unmuted(calls), Run(sink, Out([], []), calls);
            && |r.log| == |x| / 960 && |r.pending| == |x| % 960 && r.pending == x[|x| - |x| % 960..]
            && forall k :: 0 <= k < |r.log| ==>
                 960 * k + 960 <= |x| && r.log[k].block == x[960 * k..960 * k + 960]
                 && !Refused(r.log[k])
  {
    var x, o := Unmuted(calls), Out([], []);
    RunIsOneWrite(sink, o, calls);
    WriteConserves(sink, o, x);
    WriteTriesFullBlocks(sink, o, x);
    RefusalsShow(sink, o, x);
    assert Content(o) + x[..|x|] == x;
    ContentCutsUp(Run(sink, o, calls));
  }

  // ----------------------------------------------------------- the Go object

  class Output {
    const sink: Sink
    const mono: array<int16>
    const stereo: array<int16>
    var pos: nat
    var muted: bool
    /** Every stereo block given to the encoder, and every packet the handler accepted. */
    var encoded: seq<Samples>
    var sent: seq<seq<byte>>
    ghost var log: seq<Attempt>

    ghost predicate Valid()
      reads this
    {
      && mono.Length == FRAME && stereo.Length == 2 * FRAME && mono != stereo
      && pos <= FRAME
      && encoded == Heard(log) && sent == Accepted(log)
    }

    ghost function View(): (o: Out)
      requires Valid()
      reads this, mono
      ensures |o.pending| <= FRAME
    {
      Out(mono[..pos], log)
    }

    constructor (sink: Sink)
      ensures Valid() && View() == Out([], []) && muted && fresh(mono) && fresh(stereo)
      ensures this.sink == sink
    {
      this.sink := sink;
      mono, stereo := new int16[FRAME], new int16[2 * FRAME];
      pos, muted := 0, true;
      encoded, sent, log := [], [], [];
    }

    /** Limits the mono buffer into the stereo one. */
    method FillStereo()
      requires Valid()
      modifies stereo
      ensures stereo[..] == Stereo(mono[..])
    {
      var j := 0;
      while j < FRAME
        invariant 0 <= j <= FRAME
        invariant forall i :: 0 <= i < 2 * j ==> stereo[i] == SoftLimit(mono[i / 2])
      {
        var s := SoftLimit(mono[j]);
        stereo[j * 2] := s;
        stereo[j * 2 + 1] := s;
        j := j + 1;
      }
    }

    /** The encoder and, for a packet, the handler. */
    method Deliver() returns (fate: Fate)
      requires Valid() && pos == FRAME && stereo[..] == Stereo(mono[..])
      modifies `encoded, `sent, `log
      ensures Valid()
      ensures fate == sink(|old(log)|, Stereo(mono[..]))
      ensures log == old(log) + [Attempt(mono[..], fate)]
    {
      fate := sink(|encoded|, stereo[..]);
      encoded := encoded + [stereo[..]];
      if fate.Encoded? && fate.accepted {
        sent := sent + [fate.packet];
      }
      log := log + [Attempt(mono[..], fate)];
      LogGrows(old(log), Attempt(mono[..], fate));
    }

    /** Go's copy(mono[pos:], sample[i:]). */
    method Copy(sample: Samples, i: nat) returns (n: nat)
      requires Valid() && i <= |sample|
      modifies mono, this`pos
      ensures Valid()
      ensures n == Copied(old(View()), sample[i..])
      ensures View() == old(View()).(pending := old(View()).pending + sample[i..][..n])
    {
      n := if FRAME - pos <= |sample| - i then FRAME - pos else |sample| - i;
      forall k | 0 <= k < n {
        mono[pos + k] := sample[i + k];
      }
      pos := pos + n;
    }

    /** One turn of the loop: copy, and once the buffer is full, try the block. */
    method Turn(sample: Samples, i: nat) returns (n: nat, stop: bool)
      requires Valid() && i < |sample|
      modifies this`pos, this`encoded, this`sent, this`log, mono, stereo
      ensures Valid()
      ensures n == Copied(old(View()), sample[i..])
      ensures var filled := old(View()).pending + sample[i..][..n];
              if |filled| < FRAME then !stop && View() == Out(filled, old(log))
              else
                var attempt := Try(sink, old(log), filled);
                stop == Refused(attempt)
                && View() == Out(if stop then filled else [], old(log) + [attempt])
    {
      n := Copy(sample, i);
      stop := false;
      if pos >= FRAME {
        ghost var filled := View().pending;
        assert mono[..] == filled;
        FillStereo();
        var fate := Deliver();
        assert mono[..] == filled && mono[..pos] == filled;
        if fate == EncodeError {
          pos := 0;
        } else if !fate.accepted {
          stop := true;
        } else {
          pos := 0;
        }
      }
    }

    method WriteSample(sample: Samples) returns (ok: bool)
      requires Valid()
      modifies this`pos, this`encoded, this`sent, this`log, mono, stereo
      ensures Valid()
      ensures muted ==> ok && View() == old(View())
      ensures !muted ==> View() == Write(sink, old(View()), sample).out
      ensures !muted ==> ok == !Write(sink, old(View()), sample).refused
    {
      if muted {
        return true;
      }
      var i := 0;
      ghost var whole, rest := Write(sink, View(), sample), sample;
      while i < |sample|
        invariant 0 <= i <= |sample| && rest == sample[i..] && Valid()
        invariant Agree(Write(sink, View(), rest), whole)
        decreases |sample| - i, pos
      {
        WriteTurn(sink, View(), rest);
        var n, stop := Turn(sample, i);
        i, rest := i + n, rest[n..];
        if stop {
          return false;
        }
      }
      ok := true;
    }
  }

  /** The same effect and the same return value. */
  predicate Agree(w: Written, w': Written) {
    w.out == w'.out && w.refused == w'.refused
  }

  function Heard(log: seq<Attempt>): (h: seq<Samples>)
    ensures |h| == |log|
  {
    if log == [] then [] else Heard(log[..|log| - 1]) + [Stereo(log[|log| - 1].block)]
  }

  function Accepted(log: seq<Attempt>): seq<seq<byte>> {
    if log == [] then []
    else
      var last := log[|log| - 1];
      Accepted(log[..|log| - 1]) + if last.fate.Encoded? && last.fate.accepted then [last.fate.packet] else []
  }

  lemma LogGrows(log: seq<Attempt>, a: Attempt)
    ensures Heard(log + [a]) == Heard(log) + [Stereo(a.block)]
    ensures Accepted(log + [a]) == Accepted(log) + if a.fate.Encoded? && a.fate.accepted then [a.fate.packet] else []
  {
    assert (log + [a])[..|log|] == log;
  }

  /** The encoder hears every block tried, each sample limited and on both channels. */
  lemma {:induction false} HeardBlocks(log: seq<Attempt>, k: nat, j: nat)
    requires FullBlocks(log) && k < |log| && j < FRAME
    ensures |Heard(log)[k]| == 2 * FRAME
    ensures Heard(log)[k][2 * j] == SoftLimit(log[k].block[j]) == Heard(log)[k][2 * j + 1]
    decreases |log|
  {
    if k < |log| - 1 {
      HeardBlocks(log[..|log| - 1], k, j);
    } else {
      assert Heard(log)[k] == Stereo(log[k].block);
      assert 2 * j / 2 == j && (2 * j + 1) / 2 == j;
    }
  }

  function Failures(log: seq<Attempt>): nat {
    if log == [] then 0
    else Failures(log[..|log| - 1]) + if log[|log| - 1].fate.EncodeError? || Refused(log[|log| - 1]) then 1 else 0
  }

  /** Each failure costs one packet, and nothing else does: without failures the k-th packet sent is the
      encoding of the k-th block. */
  lemma {:induction false} PacketsFollowBlocks(log: seq<Attempt>)
    ensures |Accepted(log)| + Failures(log) == |log|
    ensures Failures(log) == 0 ==> forall k :: 0 <= k < |log| ==>
              log[k].fate.Encoded? && Accepted(log)[k] == log[k].fate.packet
    decreases |log|
  {
    if log == [] {
    } else {
      var front := log[..|log| - 1];
      PacketsFollowBlocks(front);
      if Failures(log) == 0 {
        forall k | 0 <= k < |log| ensures log[k].fate.Encoded? && Accepted(log)[k] == log[k].fate.packet {
          if k < |front| {
            assert front[k] == log[k];
          }
        }
      }
    }
  }

  // ------------------------------------------------------- the frames sent on

  /** Every logged fate is what the sink answered, for that block in that turn. */
  ghost predicate Answered(sink: Sink, log: seq<Attempt>) {
    forall k :: 0 <= k < |log| ==> log[k].fate == sink(k, Stereo(log[k].block))
  }

  lemma {:induction false} WriteAsksTheSink(sink: Sink, o: Out, input: Samples)
    requires |o.pending| <= FRAME && Answered(sink, o.log)
    ensures Answered(sink, Write(sink, o, input).out.log)
    decreases |input|, |o.pending|
  {
    if input == [] {
    } else {
      WriteTurn(sink, o, input);
      var n := Copied(o, input);
      var filled := o.pending + input[..n];
      var attempt := Try(sink, o.log, filled);
      if |filled| == FRAME && !Refused(attempt) {
        WriteAsksTheSink(sink, Out([], o.log + [attempt]), input[n..]);
      }
    }
  }

  lemma {:induction false} RunAsksTheSink(sink: Sink, o: Out, calls: seq<Call>)
    requires |o.pending| <= FRAME && Answered(sink, o.log)
    ensures Answered(sink, Run(sink, o, calls).log)
    decreases |calls|
  {
    if calls == [] {
    } else {
      if !calls[0].muted {
        WriteAsksTheSink(sink, o, calls[0].sample);
      }
      RunAsksTheSink(sink, Step(sink, o, calls[0]).out, calls[1..]);
    }
  }

  function Block(x: Samples, k: nat): Samples
    requires FRAME * k + FRAME <= |x|
  {
    x[FRAME * k..FRAME * k + FRAME]
  }

  /** The sink's answer to the k-th block of x. */
  function Answer(sink: Sink, x: Samples, k: nat): Fate
    requires FRAME * k + FRAME <= |x|
  {
    sink(k, Stereo(Block(x, k)))
  }

  /** The packets of the first n blocks of x that the handler takes, in order. */
  function Packets(sink: Sink, x: Samples, n: nat): seq<seq<byte>>
    requires FRAME * n <= |x|
  {
    if n == 0 then []
    else
      var fate := Answer(sink, x, n - 1);
      Packets(sink, x, n - 1) + if fate.Encoded? && fate.accepted then [fate.packet] else []
  }

  lemma {:induction false} AcceptedArePackets(sink: Sink, log: seq<Attempt>, x: Samples)
    requires Answered(sink, log) && FRAME * |log| <= |x|
    requires forall k :: 0 <= k < |log| ==> log[k].block == Block(x, k)
    ensures Accepted(log) == Packets(sink, x, |log|)
    decreases |log|
  {
    if log == [] {
    } else {
      AcceptedArePackets(sink, log[..|log| - 1], x);
    }
  }

  lemma WholeBlocks(n: nat)
    ensures FRAME * (n / FRAME) == n - n % FRAME
  {
  }

  lemma FramesOf(sink: Sink, x: Samples, r: Out)
    requires Answered(sink, r.log) && |r.log| == |x| / FRAME && FRAME * |r.log| <= |x|
    requires forall k :: 0 <= k < |r.log| ==>
               FRAME * k + FRAME <= |x| && r.log[k].block == x[FRAME * k..FRAME * k + FRAME]
    ensures Accepted(r.log) == Packets(sink, x, |x| / FRAME)
  {
    AcceptedArePackets(sink, r.log, x);
  }

  /** What is sent on, without refusals: the encodings of the 960-sample blocks of the unmuted input, each
      limited and doubled to stereo, in order; a block the encoder fails on is left out, and only that one. */
  lemma FramesFollowTheInput(sink: Sink, calls: seq<Call>)
    requires NoRefusal(sink, Out([], []), calls)
    ensures var x, r := Unmuted(calls), Run(sink, Out([], []), calls);
            FRAME * (|x| / FRAME) <= |x| && Accepted(r.log) == Packets(sink, x, |x| / FRAME)
            && r.pending == x[|x| - |x| % FRAME..]
  {
    var x, r := Unmuted(calls), Run(sink, Out([], []), calls);
    Reframes(sink, calls);
    RunAsksTheSink(sink, Out([], []), calls);
    WholeBlocks(|x|);
    FramesOf(sink, x, r);
  }

  lemma {:induction false} AllPackets(sink: Sink, x: Samples, n: nat, k: nat)
    requires FRAME * n <= |x| && k < n
    requires forall j :: 0 <= j < n ==> Answer(sink, x, j).Encoded? && Answer(sink, x, j).accepted
    ensures |Packets(sink, x, n)| == n && Packets(sink, x, n)[k] == Answer(sink, x, k).packet
    decreases n
  {
    if k < n - 1 {
      AllPackets(sink, x, n - 1, k);
    } else if n > 1 {
      AllPackets(sink, x, n - 1, 0);
    }
  }

  /** When the encoder fails on no block either: frame k is the encoding of block k, there is one for every
      whole block, and pos is the remainder. */
  lemma FrameIsItsBlock(sink: Sink, calls: seq<Call>, k: nat)
    requires NoRefusal(sink, Out([], []), calls)
    requires forall a :: a in Run(sink, Out([], []), calls).log ==> a.fate.Encoded?
    requires k < |Unmuted(calls)| / FRAME
    ensures var x, r := Unmuted(calls), Run(sink, Out([], []), calls);
            && |Accepted(r.log)| == |x| / 960 && |r.pending| == |x| % 960
            && 960 * k + 960 <= |x|
            && sink(k, Stereo(x[960 * k..960 * k + 960])) == Encoded(Accepted(r.log)[k], true)
  {
    var x, r := Unmuted(calls), Run(sink, Out([], []), calls);
    Reframes(sink, calls);
    RunAsksTheSink(sink, Out([], []), calls);
    FramesFollowTheInput(sink, calls);
    forall j | 0 <= j < |r.log| ensures Answer(sink, x, j).Encoded? && Answer(sink, x, j).accepted {
      assert r.log[j] in r.log && r.log[j].fate == Answer(sink, x, j);
    }
    AllPackets(sink, x, |r.log|, k);
  }

  // ---------------------------------------------------------- with refusals

  /** The attempts that settled their block, in order: all but the refused ones. */
  function Settling(log: seq<Attempt>): seq<Attempt> {
    if log == [] then []
    else Settling(log[..|log| - 1]) + if Refused(log[|log| - 1]) then [] else [log[|log| - 1]]
  }

  lemma {:induction false} SettlingIsFull(log: seq<Attempt>)
    requires FullBlocks(log)
    ensures var kept := Settling(log); FullBlocks(kept) && forall k :: 0 <= k < |kept| ==> !Refused(kept[k])
    decreases |log|
  {
    if log != [] {
      SettlingIsFull(log[..|log| - 1]);
    }
  }

  lemma {:induction false} SettlingWasTried(log: seq<Attempt>, a: Attempt)
    requires a in Settling(log)
    ensures a in log
    decreases |log|
  {
    if a != log[|log| - 1] {
      SettlingWasTried(log[..|log| - 1], a);
    }
  }

  lemma SettledGrows(log: seq<Attempt>, a: Attempt)
    ensures Settled(log + [a]) == Settled(log) + if Refused(a) then [] else a.block
  {
    assert (log + [a])[..|log|] == log;
  }

  lemma {:induction false} SettlingSettles(log: seq<Attempt>)
    ensures Settled(Settling(log)) == Settled(log)
    decreases |log|
  {
    if log != [] {
      var front, last := log[..|log| - 1], log[|log| - 1];
      SettlingSettles(front);
      SettledGrows(Settling(front), last);
      assert Refused(last) ==> Settling(log) == Settling(front);
    }
  }

  lemma {:induction false} SettlingSends(log: seq<Attempt>)
    ensures Accepted(Settling(log)) == Accepted(log)
    decreases |log|
  {
    if log != [] {
      var front, last := log[..|log| - 1], log[|log| - 1];
      SettlingSends(front);
      LogGrows(Settling(front), last);
      assert Refused(last) ==> Settling(log) == Settling(front);
    }
  }

  lemma {:induction false} SettledLength(kept: seq<Attempt>)
    requires FullBlocks(kept) && forall k :: 0 <= k < |kept| ==> !Refused(kept[k])
    ensures |Settled(kept)| == FRAME * |kept|
    decreases |kept|
  {
    if kept != [] {
      SettledLength(kept[..|kept| - 1]);
    }
  }

  lemma SliceOfPrefix(x: Samples, y: Samples, lo: nat, hi: nat)
    requires lo <= hi <= |x|
    ensures (x + y)[lo..hi] == x[lo..hi] && (x + y)[|x|..] == y
  {
  }

  lemma KeptBlock(kept: seq<Attempt>, pending: Samples, k: nat)
    requires FullBlocks(kept) && forall j :: 0 <= j < |kept| ==> !Refused(kept[j])
    requires k < |kept|
    ensures var x := Settled(kept) + pending; FRAME * k + FRAME <= |x| && kept[k].block == Block(x, k)
  {
    SettledBlocks(kept, k);
    SettledLength(kept);
    SliceOfPrefix(Settled(kept), pending, FRAME * k, FRAME * k + FRAME);
  }

  lemma AnswerOf(sink: Sink, log: seq<Attempt>, a: Attempt)
    requires Answered(sink, log) && a in Settling(log)
    ensures exists n: nat :: sink(n, Stereo(a.block)) == a.fate
  {
    SettlingWasTried(log, a);
    var n :| 0 <= n < |log| && log[n] == a;
    assert sink(n, Stereo(a.block)) == a.fate;
  }

  /** The k-th block settled is the k-th 960 samples of x, with the sink's answer for it. */
  ghost predicate SettledInOrder(sink: Sink, kept: seq<Attempt>, x: Samples) {
    forall k :: 0 <= k < |kept| ==>
      && 960 * k + 960 <= |x| && kept[k].block == x[960 * k..960 * k + 960]
      && !Refused(kept[k]) && exists n: nat :: sink(n, Stereo(kept[k].block)) == kept[k].fate
  }

  lemma DelayOf(sink: Sink, r: Out, x: Samples)
    requires FullBlocks(r.log) && Answered(sink, r.log) && x == Settled(Settling(r.log)) + r.pending
    ensures var kept := Settling(r.log);
            |x| == 960 * |kept| + |r.pending| && r.pending == x[960 * |kept|..] && SettledInOrder(sink, kept, x)
  {
    var kept := Settling(r.log);
    SettlingIsFull(r.log);
    SettledLength(kept);
    SliceOfPrefix(Settled(kept), r.pending, 0, 0);
    forall k | 0 <= k < |kept|
      ensures 960 * k + 960 <= |x| && kept[k].block == x[960 * k..960 * k + 960]
      ensures exists n: nat :: sink(n, Stereo(kept[k].block)) == kept[k].fate
    {
      KeptBlock(kept, r.pending, k);
      AnswerOf(sink, r.log, kept[k]);
    }
  }

  /** Over any calls, mutes, errors and refusals: the blocks settled are the samples taken in, in order, the
      frames sent are those of the settled blocks, and the rest of what was taken in is in the buffer. A
      refusal delays a block and changes nothing else. */
  lemma RefusalsOnlyDelay(sink: Sink, calls: seq<Call>)
    ensures var x, r := Taken(sink, Out([], []), calls), Run(sink, Out([], []), calls);
            var kept := Settling(r.log);
            && |x| == 960 * |kept| + |r.pending| && r.pending == x[960 * |kept|..]
            && Accepted(r.log) == Accepted(kept) && SettledInOrder(sink, kept, x)
  {
    var o := Out([], []);
    var x, r := Taken(sink, o, calls), Run(sink, o, calls);
    RunConserves(sink, o, calls);
    RunAsksTheSink(sink, o, calls);
    SettlingSettles(r.log);
    SettlingSends(r.log);
    assert x == Content(o) + x == Settled(Settling(r.log)) + r.pending;
    DelayOf(sink, r, x);
  }
}
