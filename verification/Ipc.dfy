/** The IPC wire format: framing, Go's blocking reader and writer, and the sidecar's incremental parser. */
module Ipc {
  import opened Wrappers
  import opened Bytes

  datatype Message = Message(kind: byte, userId: uint64, payload: seq<byte>)

  const HEADER := 11

  /** The bytes Go's WriteMessage produces; the length field keeps only the low 16 bits of the payload size. */
  function Frame(m: Message): (bs: seq<byte>)
    ensures |bs| == HEADER + |m.payload|
  {
    [m.kind] + ToLE(8, m.userId) + ToLE(2, Truncate16(|m.payload|)) + m.payload
  }

  predicate Fits(m: Message) {
    |m.payload| <= 0xFFFF
  }

  predicate AllFit(ms: seq<Message>) {
    forall m | m in ms :: Fits(m)
  }

  function Frames(ms: seq<Message>): seq<byte> {
    if ms == [] then [] else Frame(ms[0]) + Frames(ms[1..])
  }

  function DeclaredLength(b: seq<byte>): uint16
    requires |b| >= HEADER
  {
    ReadU16(b[9..11])
  }

  /** No complete frame starts this buffer. */
  predicate Incomplete(b: seq<byte>) {
    |b| < HEADER || |b| < HEADER + DeclaredLength(b)
  }

  function HeadMessage(b: seq<byte>): (m: Message)
    requires !Incomplete(b)
    ensures Fits(m)
  {
    Message(b[0], ReadU64(b[1..9]), b[HEADER..HEADER + DeclaredLength(b)])
  }

  /** `ms` are the messages in `bytes`, and `rest` is what is left over: too short to be a frame. */
  ghost predicate Decodes(bytes: seq<byte>, ms: seq<Message>, rest: seq<byte>) {
    AllFit(ms) && bytes == Frames(ms) + rest && Incomplete(rest)
  }

  // ---------------------------------------------------------------- framing

  /** The layout: type, user id, length, payload, at offsets 0, 1, 9 and 11, numbers low byte first. */
  lemma FrameLayout(m: Message)
    requires Fits(m)
    ensures var f, n := Frame(m), |m.payload|;
            && |f| == 11 + n && f[0] == m.kind && f[1..9] == ToLE(8, m.userId) && f[11..] == m.payload
            && f[9] == n % 256 && f[10] == n / 256
            && f[1] == m.userId % 256
  {
    var n := |m.payload|;
    TwoBytes(n);
    assert Frame(m)[9..11] == ToLE(2, n);
    assert ToLE(8, m.userId)[0] == m.userId % 256;
  }

  /** Every buffer that is long enough starts with the frame of the message read off it. */
  lemma HeadIsAFrame(b: seq<byte>)
    requires !Incomplete(b)
    ensures b == Frame(HeadMessage(b)) + b[HEADER + DeclaredLength(b)..]
  {
  }

  /** A frame followed by anything declares its payload's size modulo 65536. */
  lemma FrameDeclares(m: Message, tail: seq<byte>)
    ensures DeclaredLength(Frame(m) + tail) == Truncate16(|m.payload|)
  {
    assert (Frame(m) + tail)[9..11] == ToLE(2, Truncate16(|m.payload|));
    ReadBackU16(Truncate16(|m.payload|));
  }

  lemma HeadOfFrame(m: Message, tail: seq<byte>)
    requires Fits(m)
    ensures !Incomplete(Frame(m) + tail)
    ensures HeadMessage(Frame(m) + tail) == m
    ensures (Frame(m) + tail)[HEADER + DeclaredLength(Frame(m) + tail)..] == tail
  {
    var b := Frame(m) + tail;
    FrameDeclares(m, tail);
    assert b[1..9] == ToLE(8, m.userId);
    ReadBackU64(m.userId);
    assert b[HEADER..HEADER + |m.payload|] == m.payload;
  }

  /** WriteMessage then a read gives the message back exactly when its payload is at most 65535 bytes. */
  lemma RoundTripExactly(m: Message, tail: seq<byte>)
    ensures (!Incomplete(Frame(m) + tail) && HeadMessage(Frame(m) + tail) == m) <==> Fits(m)
  {
    if Fits(m) {
      HeadOfFrame(m, tail);
    } else {
      FrameDeclares(m, tail);
    }
  }

  lemma CompleteIt(b: seq<byte>) returns (m: Message, more: seq<byte>)
    requires Incomplete(b)
    ensures Fits(m) && more != [] && b + more == Frame(m)
  {
    var header := if |b| < HEADER then b + seq(HEADER - |b|, _ => 0) else b;
    var full := header + seq(HEADER + DeclaredLength(header) - |header|, _ => 0);
    assert full[9..11] == header[9..11];
    HeadIsAFrame(full);
    m, more := HeadMessage(full), full[|b|..];
    assert full[HEADER + DeclaredLength(full)..] == [];
    assert b + more == full;
  }

  lemma PrefixIsIncomplete(b: seq<byte>, m: Message, more: seq<byte>)
    requires Fits(m) && more != [] && b + more == Frame(m)
    ensures Incomplete(b)
  {
    if |b| >= HEADER {
      assert b[9..11] == (b + more)[9..11] == (Frame(m) + [])[9..11];
      FrameDeclares(m, []);
    }
  }

  /** "Incomplete" means: a strict prefix of the frame of some message. */
  lemma IncompleteIsStrictPrefix(b: seq<byte>)
    ensures Incomplete(b) <==> exists m, more: seq<byte> :: Fits(m) && more != [] && b + more == Frame(m)
  {
    if Incomplete(b) {
      var m, more := CompleteIt(b);
    } else if m, more: seq<byte> :| Fits(m) && more != [] && b + more == Frame(m) {
      PrefixIsIncomplete(b, m, more);
      assert false;
    }
  }

  // ------------------------------------------------------- streams of frames

  lemma Regroup(x: seq<byte>, y: seq<byte>, z: seq<byte>)
    ensures x + (y + z) == x + y + z
  {
  }

  lemma {:induction false} FramesAppend(a: seq<Message>, b: seq<Message>)
    ensures Frames(a + b) == Frames(a) + Frames(b)
  {
    if a == [] {
      assert a + b == b;
    } else {
      FramesAppend(a[1..], b);
      assert (a + b)[1..] == a[1..] + b;
      Regroup(Frame(a[0]), Frames(a[1..]), Frames(b));
    }
  }

  /** A decoding with messages in it starts with the message read off the head of the bytes. */
  lemma PeelHead(bytes: seq<byte>, ms: seq<Message>, rest: seq<byte>)
    requires Decodes(bytes, ms, rest)
    ensures ms == [] ==> Incomplete(bytes) && rest == bytes
    ensures ms != [] ==> !Incomplete(bytes) && HeadMessage(bytes) == ms[0]
    ensures ms != [] ==> Decodes(bytes[HEADER + DeclaredLength(bytes)..], ms[1..], rest)
  {
    if ms == [] {
      assert bytes == rest;
    } else {
      var tail := Frames(ms[1..]) + rest;
      assert bytes == Frame(ms[0]) + tail;
      HeadOfFrame(ms[0], tail);
    }
  }

  /** A byte stream has at most one decoding. */
  lemma {:induction false} DecodingIsUnique(bytes: seq<byte>, ms: seq<Message>, rest: seq<byte>,
                                            ms': seq<Message>, rest': seq<byte>)
    requires Decodes(bytes, ms, rest) && Decodes(bytes, ms', rest')
    ensures ms == ms' && rest == rest'
    decreases |ms|
  {
    PeelHead(bytes, ms, rest);
    PeelHead(bytes, ms', rest');
    if ms == [] || ms' == [] {
    } else {
      DecodingIsUnique(bytes[HEADER + DeclaredLength(bytes)..], ms[1..], rest, ms'[1..], rest');
      assert ms == [ms[0]] + ms[1..] && ms' == [ms'[0]] + ms'[1..];
    }
  }

  /** And it has one: what is read off the head, again and again. */
  lemma {:induction false} DecodingExists(bytes: seq<byte>) returns (ms: seq<Message>, rest: seq<byte>)
    ensures Decodes(bytes, ms, rest)
    decreases |bytes|
  {
    if Incomplete(bytes) {
      ms, rest := [], bytes;
    } else {
      HeadIsAFrame(bytes);
      var m := HeadMessage(bytes);
      var more;
      more, rest := DecodingExists(bytes[HEADER + DeclaredLength(bytes)..]);
      ms := [m] + more;
      assert ms[1..] == more;
    }
  }

  /** Decoding what was left over together with the next chunk continues the decoding of the whole stream. */
  lemma DecodingContinues(before: seq<byte>, done: seq<Message>, kept: seq<byte>,
                          data: seq<byte>, more: seq<Message>, rest: seq<byte>)
    requires Decodes(before, done, kept)
    requires Decodes(kept + data, more, rest)
    ensures Decodes(before + data, done + more, rest)
  {
    FramesAppend(done, more);
    assert before + data == Frames(done) + (kept + data);
  }

  /** One turn of a parsing loop: the head frame moves from the buffer to the messages. */
  lemma HeadMovesOver(bytes: seq<byte>, ms: seq<Message>, b: seq<byte>)
    requires AllFit(ms) && bytes == Frames(ms) + b && !Incomplete(b)
    ensures AllFit(ms + [HeadMessage(b)])
    ensures bytes == Frames(ms + [HeadMessage(b)]) + b[HEADER + DeclaredLength(b)..]
  {
    var m := HeadMessage(b);
    var tail := b[HEADER + DeclaredLength(b)..];
    HeadIsAFrame(b);
    FramesAppend(ms, [m]);
    assert Frames([m]) == Frame(m) + Frames([]);
    assert Frames(ms) + b == Frames(ms) + Frame(m) + tail;
  }

  /** What a reader has seen after any part of a stream of frames: the first messages, and a strict
      prefix of the next frame (nothing, once all messages are out). */
  lemma {:induction false} PartOfAStream(ms: seq<Message>, part: seq<byte>, got: seq<Message>, rest: seq<byte>)
    requires AllFit(ms) && part <= Frames(ms)
    requires Decodes(part, got, rest)
    ensures got <= ms
    ensures |got| == |ms| ==> rest == []
    ensures |got| < |ms| ==> rest < Frame(ms[|got|])
    decreases |ms|
  {
    if got == [] {
      assert part == rest;
      if ms != [] && |rest| >= |Frame(ms[0])| {
        assert rest == Frame(ms[0]) + rest[|Frame(ms[0])|..];
        HeadOfFrame(ms[0], rest[|Frame(ms[0])|..]);
      }
    } else {
      var all := Frames(ms);
      var more := all[|part|..];
      assert all == part + more;
      Regroup(Frame(got[0]), Frames(got[1..]), rest);
      Regroup(Frame(got[0]), Frames(got[1..]) + rest, more);
      HeadOfFrame(got[0], Frames(got[1..]) + rest + more);
      HeadOfFrame(ms[0], Frames(ms[1..]));
      PartOfAStream(ms[1..], Frames(got[1..]) + rest, got[1..], rest);
    }
  }

  function Flatten(chunks: seq<seq<byte>>): seq<byte> {
    if chunks == [] then [] else chunks[0] + Flatten(chunks[1..])
  }

  lemma {:induction false} FlattenSnoc(chunks: seq<seq<byte>>, k: nat)
    requires k < |chunks|
    ensures Flatten(chunks[..k + 1]) == Flatten(chunks[..k]) + chunks[k]
  {
    if k == 0 {
      assert chunks[..1][1..] == [] && chunks[..0] == [];
    } else {
      FlattenSnoc(chunks[1..], k - 1);
      assert chunks[..k + 1][1..] == chunks[1..][..k];
      assert chunks[..k][1..] == chunks[1..][..k - 1];
    }
  }

  // ------------------------------------------------------------- Go's Conn

  datatype ReadError = HeaderCut | PayloadCut

  /** One end of the socket as Go sees it: the bytes still to come before end of file, and the bytes
      the peer will receive. */
  class Conn {
    var inbound: seq<byte>
    var outbound: seq<byte>

    constructor (stream: seq<byte>)
      ensures inbound == stream && outbound == []
    {
      inbound, outbound := stream, [];
    }

    /** io.ReadFull: n bytes, or an error that has swallowed what there was. */
    method ReadFull(n: nat) returns (data: Option<seq<byte>>)
      modifies this`inbound
      ensures n <= |old(inbound)| ==> data == Some(old(inbound)[..n]) && inbound == old(inbound)[n..]
      ensures n > |old(inbound)| ==> data == None && inbound == []
    {
      if n <= |inbound| {
        data, inbound := Some(inbound[..n]), inbound[n..];
      } else {
        data, inbound := None, [];
      }
    }

    method ReadMessage() returns (r: Result<Message, ReadError>)
      modifies this`inbound
      ensures r.Ok? ==> Fits(r.value) && old(inbound) == Frame(r.value) + inbound
      ensures r.Err? <==> Incomplete(old(inbound))
      ensures r.Err? ==> inbound == []
      ensures r == Err(HeaderCut) <==> |old(inbound)| < HEADER
    {
      ghost var stream := inbound;
      var header := ReadFull(HEADER);
      if header == None {
        return Err(HeaderCut);
      }
      var h := header.value;
      var kind, userId := h[0], ReadU64(h[1..9]);
      var payloadLen := ReadU16(h[9..11]);
      assert h[1..9] == stream[1..9] && h[9..11] == stream[9..11];
      var payload: seq<byte> := [];
      if payloadLen > 0 {
        var body := ReadFull(payloadLen);
        if body == None {
          return Err(PayloadCut);
        }
        payload := body.value;
      }
      assert payload == stream[HEADER..HEADER + payloadLen];
      HeadIsAFrame(stream);
      r := Ok(Message(kind, userId, payload));
    }

    /** net.Conn.Write, when the socket takes at most `room` more bytes before it fails. */
    method Write(data: seq<byte>, room: nat) returns (ok: bool)
      modifies this`outbound
      ensures ok <==> |data| <= room
      ensures outbound == old(outbound) + if ok then data else data[..room]
    {
      ok := |data| <= room;
      outbound := outbound + if ok then data else data[..room];
    }

    /** The peer always receives a prefix of the frame, and all of it exactly when no error is returned. */
    method WriteMessage(m: Message, room: nat) returns (ok: bool)
      modifies this`outbound
      ensures ok <==> |Frame(m)| <= room
      ensures outbound == old(outbound) + if ok then Frame(m) else Frame(m)[..room]
    {
      ghost var before := outbound;
      var header := FillHeader(m);
      PartsOfAFrame(before, header[..], m.payload, room);
      ok := Write(header[..], room);
      if !ok {
        return;
      }
      if |m.payload| > 0 {
        ok := Write(m.payload, room - HEADER);
      }
    }
  }

  /** What the peer has after a header and a payload, or after the write that failed. */
  lemma PartsOfAFrame(before: seq<byte>, header: seq<byte>, payload: seq<byte>, room: nat)
    ensures before + header + payload == before + (header + payload)
    ensures room < |header| ==> before + header[..room] == before + (header + payload)[..room]
    ensures |header| <= room <= |header| + |payload| ==>
              before + header + payload[..room - |header|] == before + (header + payload)[..room]
  {
  }

  method FillHeader(m: Message) returns (header: array<byte>)
    ensures fresh(header) && header[..] + m.payload == Frame(m)
    ensures header[..] == [m.kind] + ToLE(8, m.userId) + ToLE(2, Truncate16(|m.payload|))
  {
    header := new byte[HEADER];
    header[0] := m.kind;
    PutLE(header, 1, 8, m.userId);
    assert header[..1] == [m.kind] && header[..9] == header[..1] + header[1..9];
    PutLE(header, 9, 2, Truncate16(|m.payload|));
    assert header[..] == header[..9] + header[9..11];
  }

  /** One message further. */
  lemma OneMoreFrame(stream: seq<byte>, seen: seq<Message>, m: Message, unread: seq<byte>)
    requires stream == Frames(seen) + (Frame(m) + unread)
    ensures stream == Frames(seen + [m]) + unread
  {
    FramesAppend(seen, [m]);
    assert Frames([m]) == Frame(m) + Frames([]) == Frame(m);
    Regroup(Frames(seen), Frame(m), unread);
  }

  /** ReadMessage until it fails returns the one decoding of the stream. */
  method ReadAll(stream: seq<byte>) returns (ms: seq<Message>, why: ReadError)
    ensures exists rest :: Decodes(stream, ms, rest) && (why == HeaderCut <==> |rest| < HEADER)
  {
    var conn := new Conn(stream);
    ms := [];
    while true
      invariant AllFit(ms) && stream == Frames(ms) + conn.inbound
      decreases |conn.inbound|
    {
      ghost var rest := conn.inbound;
      var r := conn.ReadMessage();
      match r {
        case Ok(m) =>
          OneMoreFrame(stream, ms, m, conn.inbound);
          ms := ms + [m];
        case Err(e) =>
          assert Decodes(stream, ms, rest);
          return ms, e;
      }
    }
  }

  const READY: byte := 0x05
  const SHUTDOWN: byte := 0x06

  predicate ShutsDown(ms: seq<Message>) {
    exists m :: m in ms && m.kind == SHUTDOWN
  }

  /** The messages the bridge passes to its handler: those before the first SHUTDOWN, READY left out. */
  function Handled(ms: seq<Message>): seq<Message> {
    if ms == [] || ms[0].kind == SHUTDOWN then []
    else (if ms[0].kind == READY then [] else [ms[0]]) + Handled(ms[1..])
  }

  lemma {:induction false} HandledAppend(before: seq<Message>, ms: seq<Message>)
    requires !ShutsDown(before)
    ensures Handled(before + ms) == Handled(before) + Handled(ms)
    decreases |before|
  {
    if before == [] {
      assert before + ms == ms;
    } else {
      var m, rest := before[0], before[1..];
      assert m in before && forall n :: n in rest ==> n in before;
      HandledAppend(rest, ms);
      assert (before + ms)[0] == m && (before + ms)[1..] == rest + ms;
      var head := if m.kind == READY then [] else [m];
      assert head + (Handled(rest) + Handled(ms)) == head + Handled(rest) + Handled(ms);
    }
  }

  lemma ShutsDownAppend(before: seq<Message>, ms: seq<Message>)
    ensures ShutsDown(before + ms) <==> ShutsDown(before) || ShutsDown(ms)
  {
    assert forall m :: m in before + ms <==> m in before || m in ms;
  }

  /** What is handled, message by message: READY, 0x05, is passed over, SHUTDOWN, 0x06, ends it, and every
      other message is handed on, in order. */
  lemma HandledExactly(before: seq<Message>, m: Message, more: seq<Message>)
    requires forall n :: n in before ==> n.kind != 0x06
    ensures Handled([]) == [] && !ShutsDown(before)
    ensures m.kind == 0x05 ==> Handled(before + [m]) == Handled(before)
    ensures m.kind == 0x06 ==> Handled(before + ([m] + more)) == Handled(before) && ShutsDown(before + ([m] + more))
    ensures m.kind != 0x05 && m.kind != 0x06 ==> Handled(before + [m]) == Handled(before) + [m]
  {
    HandledAppend(before, [m]);
    HandledAppend(before, [m] + more);
    ShutsDownAppend(before, [m] + more);
    assert [m][1..] == [] && m in [m] + more;
  }

  /** A slot's read loop: it ends at a read error, which is the death of the slot unless the bridge itself
      is stopping, or at a SHUTDOWN message. What it hands over is a matter of the one decoding of the stream. */
  method ReadLoop(stream: seq<byte>, stopping: bool) returns (handled: seq<Message>, died: bool)
    ensures exists ms, rest ::
              Decodes(stream, ms, rest) && handled == Handled(ms) && (died <==> !ShutsDown(ms) && !stopping)
  {
    var conn := new Conn(stream);
    handled := [];
    ghost var seen: seq<Message> := [];
    while true
      invariant AllFit(seen) && stream == Frames(seen) + conn.inbound
      invariant !ShutsDown(seen) && handled == Handled(seen)
      decreases |conn.inbound|
    {
      ghost var unread := conn.inbound;
      var r := conn.ReadMessage();
      match r {
        case Err(_) =>
          assert Decodes(stream, seen, unread);
          return handled, !stopping;
        case Ok(m) =>
          ReadOn(stream, seen, m, conn.inbound);
          if m.kind == SHUTDOWN {
            ghost var more, rest := DecodingExists(conn.inbound);
            EndsWithShutdown(stream, seen, m, conn.inbound, more, rest);
            return handled, false;
          }
          if m.kind != READY {
            handled := handled + [m];
          }
          seen := seen + [m];
      }
    }
  }

  lemma ReadOn(stream: seq<byte>, seen: seq<Message>, m: Message, unread: seq<byte>)
    requires AllFit(seen) && Fits(m) && !ShutsDown(seen) && stream == Frames(seen) + (Frame(m) + unread)
    ensures AllFit(seen + [m]) && stream == Frames(seen + [m]) + unread
    ensures Handled(seen + [m]) == Handled(seen) + if m.kind == READY || m.kind == SHUTDOWN then [] else [m]
    ensures ShutsDown(seen + [m]) <==> m.kind == SHUTDOWN
  {
    OneMoreFrame(stream, seen, m, unread);
    HandledAppend(seen, [m]);
    ShutsDownAppend(seen, [m]);
    assert [m][1..] == [];
    assert m in [m];
  }

  /** Whatever follows a SHUTDOWN is not handled. */
  lemma EndsWithShutdown(stream: seq<byte>, seen: seq<Message>, m: Message, unread: seq<byte>,
                         more: seq<Message>, rest: seq<byte>)
    requires AllFit(seen) && Fits(m) && !ShutsDown(seen) && m.kind == SHUTDOWN
    requires stream == Frames(seen + [m]) + unread && Decodes(unread, more, rest)
    ensures var ms := seen + ([m] + more); Decodes(stream, ms, rest) && Handled(ms) == Handled(seen) && ShutsDown(ms)
  {
    FramesAppend(seen + [m], more);
    assert seen + [m] + more == seen + ([m] + more);
    HandledAppend(seen, [m] + more);
    ShutsDownAppend(seen, [m] + more);
    assert m in [m] + more;
  }

  // ------------------------------------------------------ the sidecar's side

  datatype RangeError = RangeError

  /** writeUInt16LE throws for a payload over 65535 bytes, so nothing is sent; otherwise one write. */
  method SidecarWrite(m: Message) returns (r: Result<seq<byte>, RangeError>)
    ensures Fits(m) ==> r == Ok(Frame(m))
    ensures !Fits(m) ==> r == Err(RangeError)
  {
    var userBuf := new byte[8];
    PutLE(userBuf, 0, 8, m.userId);
    if |m.payload| > 0xFFFF {
      return Err(RangeError);
    }
    var lenBuf := new byte[2];
    PutLE(lenBuf, 0, 2, |m.payload|);
    assert userBuf[..] == userBuf[0..8] && lenBuf[..] == lenBuf[0..2];
    r := Ok([m.kind] + userBuf[..] + lenBuf[..] + m.payload);
  }

  class IPCReader {
    var buffer: seq<byte>
    ghost var received: seq<byte>
    /** The onMessage calls made so far, in order. */
    var delivered: seq<Message>

    ghost predicate Valid()
      reads this
    {
      Decodes(received, delivered, buffer)
    }

    constructor ()
      ensures Valid() && received == [] && delivered == [] && buffer == []
    {
      buffer, received, delivered := [], [], [];
    }

    /** The loop: every whole frame at the head of the buffer is delivered. */
    method TakeFrames() returns (ghost news: seq<Message>)
      modifies `buffer, `delivered
      ensures delivered == old(delivered) + news
      ensures Decodes(old(buffer), news, buffer)
    {
      news := [];
      ghost var all := buffer;
      while |buffer| >= HEADER
        invariant delivered == old(delivered) + news && AllFit(news)
        invariant all == Frames(news) + buffer
        decreases |buffer|
      {
        var payloadLen := ReadU16(buffer[9..11]);
        var totalLen := HEADER + payloadLen;
        if |buffer| < totalLen {
          break;
        }
        var m := Message(buffer[0], ReadU64(buffer[1..9]), buffer[HEADER..totalLen]);
        HeadMovesOver(all, news, buffer);
        news := news + [m];
        delivered := delivered + [m];
        buffer := buffer[totalLen..];
      }
    }

    method Feed(data: seq<byte>)
      requires Valid()
      modifies this
      ensures Valid()
      ensures received == old(received) + data
      ensures old(delivered) <= delivered
      ensures Decodes(old(buffer) + data, delivered[|old(delivered)|..], buffer)
    {
      ghost var kept := buffer;
      received := received + data;
      buffer := buffer + data;
      ghost var news := TakeFrames();
      assert delivered[|old(delivered)|..] == news;
      DecodingContinues(old(received), old(delivered), kept, data, news, buffer);
    }
  }

  /** The socket's data handler: every chunk is fed to one reader. However a stream of frames is cut,
      and wherever it stops, exactly its whole messages come out. */
  method OnData(chunks: seq<seq<byte>>) returns (got: seq<Message>, rest: seq<byte>)
    ensures Decodes(Flatten(chunks), got, rest)
  {
    var reader := new IPCReader();
    var k := 0;
    assert chunks[..0] == [];
    while k < |chunks|
      invariant 0 <= k <= |chunks|
      invariant reader.Valid() && reader.received == Flatten(chunks[..k])
    {
      reader.Feed(chunks[k]);
      FlattenSnoc(chunks, k);
      k := k + 1;
    }
    assert chunks[..k] == chunks;
    got, rest := reader.delivered, reader.buffer;
  }

  /** Messages written by Go or by the sidecar, cut into any chunks, reach the sidecar unchanged. */
  method SendInChunks(ms: seq<Message>, chunks: seq<seq<byte>>) returns (got: seq<Message>)
    requires AllFit(ms) && Flatten(chunks) == Frames(ms)
    ensures got == ms
  {
    var rest;
    got, rest := OnData(chunks);
    PartOfAStream(ms, Frames(ms), got, rest);
    if |got| < |ms| {
      assert Decodes(Frames(ms), ms, []);
      DecodingIsUnique(Frames(ms), ms, [], got, rest);
      assert false;
    }
  }

  /** The incremental parser and the blocking reader agree on every byte stream, whole or cut off: both
      return the one decoding of it. */
  method ReadersAgree(chunks: seq<seq<byte>>) returns (js: seq<Message>, go: seq<Message>)
    ensures js == go
    ensures exists rest :: Decodes(Flatten(chunks), js, rest)
  {
    var rest, why;
    js, rest := OnData(chunks);
    go, why := ReadAll(Flatten(chunks));
    ghost var rest' :| Decodes(Flatten(chunks), go, rest');
    DecodingIsUnique(Flatten(chunks), js, rest, go, rest');
  }
}
