/** The length-prefixed payloads inside IPC messages, built on one side and parsed on the other. */
module Payloads {
  import opened Wrappers
  import opened Bytes
  import opened Ipc

  datatype Panic = SliceOutOfRange

  /** Go's p[lo:hi], which panics unless lo <= hi <= len(p). */
  function Slice(p: seq<byte>, lo: nat, hi: nat): Result<seq<byte>, Panic> {
    if lo <= hi <= |p| then Ok(p[lo..hi]) else Err(SliceOutOfRange)
  }

  // -------------------------------------------- VOICE_STATE and CHANNEL_LIST

  datatype VoiceState = VoiceState(channelId: uint64, categoryId: uint64, name: seq<byte>)

  function VoiceStateBytes(v: VoiceState): (p: seq<byte>)
    requires |v.name| <= 0xFFFF
    ensures |p| == 18 + |v.name|
  {
    ToLE(8, v.channelId) + ToLE(8, v.categoryId) + ToLE(2, |v.name|) + v.name
  }

  method VoiceStatePayload(v: VoiceState) returns (r: Result<seq<byte>, RangeError>)
    ensures |v.name| <= 0xFFFF ==> r == Ok(VoiceStateBytes(v))
    ensures |v.name| > 0xFFFF ==> r == Err(RangeError)
  {
    var buf := new byte[18 + |v.name|];
    PutLE(buf, 0, 8, v.channelId);
    PutLE(buf, 8, 8, v.categoryId);
    assert buf[..8] == buf[0..8] && buf[..16] == buf[..8] + buf[8..16];
    if |v.name| > 0xFFFF {
      return Err(RangeError);
    }
    PutLE(buf, 16, 2, |v.name|);
    assert buf[..18] == buf[..16] + buf[16..18];
    CopyInto(buf, 18, v.name);
    assert buf[..] == buf[..18] + buf[18..18 + |v.name|];
    r := Ok(buf[..]);
  }

  /** The name is cut out with 16-bit arithmetic: its end is 18 + nameLen modulo 65536. */
  function ParseVoiceState(p: seq<byte>): Result<VoiceState, Panic> {
    var channelId := if |p| >= 8 then ReadU64(p[..8]) else 0;
    if |p| < 18 then Ok(VoiceState(channelId, 0, []))
    else
      var categoryId := ReadU64(p[8..16]);
      var nameLen := ReadU16(p[16..18]);
      if |p| < 18 + nameLen then Ok(VoiceState(channelId, categoryId, []))
      else match Slice(p, 18, Truncate16(18 + nameLen))
        case Err(e) => Err(e)
        case Ok(name) => Ok(VoiceState(channelId, categoryId, name))
  }

  /** The parse panics exactly when the name is all there and 18 + nameLen wraps; such a payload is
      longer than any frame can carry. */
  lemma VoiceStatePanicsExactly(p: seq<byte>)
    ensures ParseVoiceState(p).Err? <==>
              |p| >= 18 && ReadU16(p[16..18]) >= 0xFFFF - 17 && |p| >= 18 + ReadU16(p[16..18])
    ensures |p| <= 0xFFFF ==> ParseVoiceState(p).Ok?
  {
  }

  lemma Piece(before: seq<byte>, piece: seq<byte>, after: seq<byte>)
    ensures (before + piece + after)[|before|..|before| + |piece|] == piece
  {
  }

  lemma VoiceStateParsesBack(v: VoiceState)
    requires |v.name| <= 0xFFFF - 18
    ensures ParseVoiceState(VoiceStateBytes(v)) == Ok(v)
  {
    var p := VoiceStateBytes(v);
    var channel, category, len := ToLE(8, v.channelId), ToLE(8, v.categoryId), ToLE(2, |v.name|);
    assert p == [] + channel + (category + len + v.name) == channel + category + (len + v.name)
             == channel + category + len + v.name == channel + category + len + v.name + [];
    Piece([], channel, category + len + v.name);
    Piece(channel, category, len + v.name);
    Piece(channel + category, len, v.name);
    Piece(channel + category + len, v.name, []);
    ReadBackU64(v.channelId);
    ReadBackU64(v.categoryId);
    ReadBackU16(|v.name|);
  }

  /** The layout: channel, category and length at offsets 0, 8 and 16, numbers low byte first, then the name. */
  lemma VoiceStateLayout(v: VoiceState)
    requires |v.name| <= 0xFFFF
    ensures var p := VoiceStateBytes(v);
            && p[..8] == ToLE(8, v.channelId) && p[8..16] == ToLE(8, v.categoryId) && p[18..] == v.name
            && p[16..18] == [|v.name| % 256, |v.name| / 256]
  {
    TwoBytes(|v.name|);
    VoiceStatePieces(v, []);
    assert VoiceStateBytes(v) + [] == VoiceStateBytes(v);
  }

  lemma VoiceStatePieces(v: VoiceState, tail: seq<byte>)
    requires |v.name| <= 0xFFFF
    ensures var p := VoiceStateBytes(v) + tail;
            && p[..8] == ToLE(8, v.channelId) && p[8..16] == ToLE(8, v.categoryId)
            && p[16..18] == ToLE(2, |v.name|) && p[18..18 + |v.name|] == v.name
  {
    var channel, category, len := ToLE(8, v.channelId), ToLE(8, v.categoryId), ToLE(2, |v.name|);
    var p := VoiceStateBytes(v) + tail;
    assert p == [] + channel + (category + len + v.name + tail) == channel + category + (len + v.name + tail)
             == channel + category + len + (v.name + tail) == channel + category + len + v.name + tail;
    Piece([], channel, category + len + v.name + tail);
    Piece(channel, category, len + v.name + tail);
    Piece(channel + category, len, v.name + tail);
    Piece(channel + category + len, v.name, tail);
  }

  lemma CutPiece(p: seq<byte>, n: nat, lo: nat, hi: nat)
    requires lo <= hi <= n <= |p|
    ensures p[..n][lo..hi] == p[lo..hi]
  {
  }

  /** A payload that is cut short or goes on: what is there of the ids counts, a name that is not all there is
      empty, and what follows is ignored. */
  lemma CutVoiceStateParses(v: VoiceState, tail: seq<byte>, n: nat)
    requires |v.name| <= 0xFFFF - 18 && n <= |VoiceStateBytes(v) + tail|
    ensures ParseVoiceState((VoiceStateBytes(v) + tail)[..n]) ==
              Ok(if n < 8 then VoiceState(0, 0, [])
                 else if n < 18 then VoiceState(v.channelId, 0, [])
                 else if n < 18 + |v.name| then VoiceState(v.channelId, v.categoryId, [])
                 else v)
  {
    var p := VoiceStateBytes(v) + tail;
    VoiceStatePieces(v, tail);
    ReadBackU64(v.channelId);
    ReadBackU64(v.categoryId);
    ReadBackU16(|v.name|);
    if n >= 8 {
      CutPiece(p, n, 0, 8);
    }
    if n >= 18 {
      CutPiece(p, n, 8, 16);
      CutPiece(p, n, 16, 18);
    }
    if n >= 18 + |v.name| {
      CutPiece(p, n, 18, 18 + |v.name|);
    }
  }

  /** Sidecar to bridge, end to end: the message leaves the sidecar exactly when the name has at most
      65517 bytes, and whatever leaves is read and parsed back to the same ids and name. */
  method SendVoiceState(kind: byte, userId: uint64, v: VoiceState) returns (wire: Result<seq<byte>, RangeError>)
    ensures wire.Ok? <==> |v.name| <= 0xFFFF - 18
    ensures wire.Ok? ==> exists m :: Decodes(wire.value, [m], []) && m.kind == kind && m.userId == userId
                                     && ParseVoiceState(m.payload) == Ok(v)
  {
    var payload := VoiceStatePayload(v);
    if payload.Err? {
      return Err(RangeError);
    }
    var m := Message(kind, userId, payload.value);
    wire := SidecarWrite(m);
    if wire.Ok? {
      VoiceStateParsesBack(v);
      DecodesAlone(m);
    }
  }

  lemma DecodesAlone(m: Message)
    requires Fits(m)
    ensures Decodes(Frame(m), [m], [])
  {
  }

  // --------------------------------------------------------------- USER_INFO

  datatype UserInfo = UserInfo(name: seq<byte>, avatar: seq<byte>)

  function UserInfoBytes(u: UserInfo): (p: seq<byte>)
    requires |u.name| <= 0xFFFF && |u.avatar| <= 0xFFFF
    ensures |p| == 4 + |u.name| + |u.avatar|
  {
    ToLE(2, |u.name|) + u.name + ToLE(2, |u.avatar|) + u.avatar
  }

  method UserInfoPayload(u: UserInfo) returns (r: Result<seq<byte>, RangeError>)
    ensures |u.name| <= 0xFFFF && |u.avatar| <= 0xFFFF ==> r == Ok(UserInfoBytes(u))
    ensures |u.name| > 0xFFFF || |u.avatar| > 0xFFFF ==> r == Err(RangeError)
  {
    var n, a := |u.name|, |u.avatar|;
    if n > 0xFFFF {
      return Err(RangeError);
    }
    var buf := new byte[2 + n + 2 + a];
    PutLE(buf, 0, 2, n);
    CopyInto(buf, 2, u.name);
    assert buf[..2] == buf[0..2] && buf[..2 + n] == buf[..2] + buf[2..2 + n];
    if a > 0xFFFF {
      return Err(RangeError);
    }
    PutLE(buf, 2 + n, 2, a);
    assert buf[..4 + n] == buf[..2 + n] + buf[2 + n..4 + n];
    CopyInto(buf, 4 + n, u.avatar);
    assert buf[..] == buf[..4 + n] + buf[4 + n..4 + n + a];
    r := Ok(buf[..]);
  }

  /** None for a payload too short to hold a name length: the message is ignored. */
  function ParseUserInfo(p: seq<byte>): Result<Option<UserInfo>, Panic> {
    if |p| < 2 then Ok(None)
    else
      var nameLen := ReadU16(p[0..2]);
      var offset := 2 + nameLen;
      match if |p| >= offset then Slice(p, 2, Truncate16(offset)) else Ok([])
      case Err(e) => Err(e)
      case Ok(name) =>
        if |p| < offset + 2 then Ok(Some(UserInfo(name, [])))
        else
          var avatarLen := ReadU16(p[offset..offset + 2]);
          if |p| < offset + 2 + avatarLen then Ok(Some(UserInfo(name, [])))
          else Ok(Some(UserInfo(name, p[offset + 2..offset + 2 + avatarLen])))
  }

  lemma UserInfoPanicsExactly(p: seq<byte>)
    ensures ParseUserInfo(p).Err? <==>
              |p| >= 2 && ReadU16(p[0..2]) >= 0xFFFF - 1 && |p| >= 2 + ReadU16(p[0..2])
    ensures |p| <= 0xFFFF ==> ParseUserInfo(p).Ok?
  {
  }

  lemma UserInfoPieces(u: UserInfo)
    requires 4 + |u.name| + |u.avatar| <= 0xFFFF
    ensures var p, n := UserInfoBytes(u), |u.name|;
            && p[0..2] == ToLE(2, n) && p[2..2 + n] == u.name
            && p[2 + n..4 + n] == ToLE(2, |u.avatar|) && p[4 + n..4 + n + |u.avatar|] == u.avatar
  {
    var p, n := UserInfoBytes(u), |u.name|;
    var len, avatarLen := ToLE(2, n), ToLE(2, |u.avatar|);
    assert p == [] + len + (u.name + avatarLen + u.avatar) == len + u.name + (avatarLen + u.avatar)
             == len + u.name + avatarLen + u.avatar == len + u.name + avatarLen + u.avatar + [];
    Piece([], len, u.name + avatarLen + u.avatar);
    Piece(len, u.name, avatarLen + u.avatar);
    Piece(len + u.name, avatarLen, u.avatar);
    Piece(len + u.name + avatarLen, u.avatar, []);
  }

  lemma ParsesPieces(p: seq<byte>, u: UserInfo)
    requires |p| == 4 + |u.name| + |u.avatar| <= 0xFFFF
    requires p[0..2] == ToLE(2, |u.name|) && p[2..2 + |u.name|] == u.name
    requires p[2 + |u.name|..4 + |u.name|] == ToLE(2, |u.avatar|)
    requires p[4 + |u.name|..4 + |u.name| + |u.avatar|] == u.avatar
    ensures ParseUserInfo(p) == Ok(Some(u))
  {
    ReadBackU16(|u.name|);
    ReadBackU16(|u.avatar|);
  }

  lemma UserInfoParsesBack(u: UserInfo)
    requires 4 + |u.name| + |u.avatar| <= 0xFFFF
    ensures ParseUserInfo(UserInfoBytes(u)) == Ok(Some(u))
  {
    UserInfoPieces(u);
    ParsesPieces(UserInfoBytes(u), u);
  }

  lemma LayoutOfPieces(p: seq<byte>, u: UserInfo)
    requires |p| == 4 + |u.name| + |u.avatar| <= 0xFFFF
    requires p[0..2] == ToLE(2, |u.name|) && p[2 + |u.name|..4 + |u.name|] == ToLE(2, |u.avatar|)
    requires p[4 + |u.name|..4 + |u.name| + |u.avatar|] == u.avatar
    ensures p[0..2] == [|u.name| % 256, |u.name| / 256] && p[4 + |u.name|..] == u.avatar
    ensures p[2 + |u.name|..4 + |u.name|] == [|u.avatar| % 256, |u.avatar| / 256]
  {
    TwoBytes(|u.name|);
    TwoBytes(|u.avatar|);
  }

  /** The layout: each string after its length, low bytes first, the name and then the avatar. */
  lemma UserInfoLayout(u: UserInfo)
    requires 4 + |u.name| + |u.avatar| <= 0xFFFF
    ensures var p, n, a := UserInfoBytes(u), |u.name|, |u.avatar|;
            && p[0..2] == [n % 256, n / 256] && p[2..2 + n] == u.name
            && p[2 + n..4 + n] == [a % 256, a / 256] && p[4 + n..] == u.avatar
  {
    UserInfoPieces(u);
    LayoutOfPieces(UserInfoBytes(u), u);
  }

  lemma ParsesCutName(p: seq<byte>, nameLen: nat)
    requires 2 <= |p| < 2 + nameLen <= 0xFFFF && p[0..2] == ToLE(2, nameLen)
    ensures ParseUserInfo(p) == Ok(Some(UserInfo([], [])))
  {
    ReadBackU16(nameLen);
  }

  lemma ParsesCutAvatar(p: seq<byte>, u: UserInfo)
    requires 4 + |u.name| + |u.avatar| <= 0xFFFF && 2 + |u.name| <= |p| < 4 + |u.name| + |u.avatar|
    requires p[0..2] == ToLE(2, |u.name|) && p[2..2 + |u.name|] == u.name
    requires |p| >= 4 + |u.name| ==> p[2 + |u.name|..4 + |u.name|] == ToLE(2, |u.avatar|)
    ensures ParseUserInfo(p) == Ok(Some(UserInfo(u.name, [])))
  {
    ReadBackU16(|u.name|);
    ReadBackU16(|u.avatar|);
  }

  /** A payload that is cut short: ignored without a name length, and otherwise a name or avatar that is not
      all there is empty. */
  lemma CutUserInfoParses(u: UserInfo, n: nat)
    requires 4 + |u.name| + |u.avatar| <= 0xFFFF && n <= 4 + |u.name| + |u.avatar|
    ensures ParseUserInfo(UserInfoBytes(u)[..n]) ==
              Ok(if n < 2 then None
                 else if n < 2 + |u.name| then Some(UserInfo([], []))
                 else if n < 4 + |u.name| + |u.avatar| then Some(UserInfo(u.name, []))
                 else Some(u))
  {
    var p, q := UserInfoBytes(u), UserInfoBytes(u)[..n];
    UserInfoPieces(u);
    if n < 2 {
    } else if n < 2 + |u.name| {
      CutPiece(p, n, 0, 2);
      ParsesCutName(q, |u.name|);
    } else if n < |p| {
      CutPiece(p, n, 0, 2);
      CutPiece(p, n, 2, 2 + |u.name|);
      if n >= 4 + |u.name| {
        CutPiece(p, n, 2 + |u.name|, 4 + |u.name|);
      }
      ParsesCutAvatar(q, u);
    } else {
      assert q == p;
      UserInfoParsesBack(u);
    }
  }

  method SendUserInfo(kind: byte, userId: uint64, u: UserInfo) returns (wire: Result<seq<byte>, RangeError>)
    ensures wire.Ok? <==> |u.name| + |u.avatar| <= 0xFFFF - 4
    ensures wire.Ok? ==> exists m :: Decodes(wire.value, [m], []) && m.kind == kind && m.userId == userId
                                     && ParseUserInfo(m.payload) == Ok(Some(u))
  {
    var payload := UserInfoPayload(u);
    if payload.Err? {
      return Err(RangeError);
    }
    var m := Message(kind, userId, payload.value);
    wire := SidecarWrite(m);
    if wire.Ok? {
      UserInfoParsesBack(u);
      DecodesAlone(m);
    }
  }

  // ------------------------------------------------------------ MATRIX_USERS

  type Name = seq<byte>

  function EntryBytes(name: Name): (bs: seq<byte>)
    ensures |bs| == 2 + |name|
  {
    ToLE(2, Truncate16(|name|)) + name
  }

  function EntriesBytes(names: seq<Name>): (bs: seq<byte>)
    ensures |bs| == EntriesSize(names)
  {
    if names == [] then [] else EntryBytes(names[0]) + EntriesBytes(names[1..])
  }

  function EntriesSize(names: seq<Name>): nat {
    if names == [] then 0 else 2 + |names[0]| + EntriesSize(names[1..])
  }

  function UserListBytes(names: seq<Name>): (p: seq<byte>)
    ensures |p| == 2 + EntriesSize(names)
  {
    ToLE(2, Truncate16(|names|)) + EntriesBytes(names)
  }

  lemma {:induction false} EntriesSnoc(names: seq<Name>, k: nat)
    requires k < |names|
    ensures EntriesBytes(names[..k + 1]) == EntriesBytes(names[..k]) + EntryBytes(names[k])
    ensures EntriesSize(names[..k + 1]) == EntriesSize(names[..k]) + 2 + |names[k]|
  {
    if k == 0 {
      assert names[..1][1..] == [] && names[..0] == [];
    } else {
      EntriesSnoc(names[1..], k - 1);
      assert names[..k + 1][1..] == names[1..][..k];
      assert names[..k][1..] == names[1..][..k - 1];
    }
  }

  /** Writes one entry at `offset`, keeping everything before it. */
  method PutEntry(payload: array<byte>, offset: nat, name: Name)
    requires offset + 2 + |name| <= payload.Length
    modifies payload
    ensures payload[..offset + 2 + |name|] == old(payload[..offset]) + EntryBytes(name)
  {
    PutLE(payload, offset, 2, Truncate16(|name|));
    assert payload[..offset + 2] == payload[..offset] + payload[offset..offset + 2];
    CopyInto(payload, offset + 2, name);
    assert payload[..offset + 2 + |name|] == payload[..offset + 2] + payload[offset + 2..offset + 2 + |name|];
  }

  method SizeUserList(names: seq<Name>) returns (size: nat)
    ensures size == 2 + EntriesSize(names)
  {
    size := 2;
    var k := 0;
    assert names[..0] == [];
    while k < |names|
      invariant 0 <= k <= |names| && size == 2 + EntriesSize(names[..k])
    {
      EntriesSnoc(names, k);
      size, k := size + 2 + |names[k]|, k + 1;
    }
    assert names[..|names|] == names;
  }

  /** The loop that writes the entries: it fills the buffer that was sized for them, exactly. */
  method FillEntries(payload: array<byte>, names: seq<Name>) returns (offset: nat)
    requires payload.Length == 2 + EntriesSize(names)
    modifies payload
    ensures payload[..] == old(payload[..2]) + EntriesBytes(names)
    ensures offset == payload.Length
  {
    ghost var count := payload[..2];
    offset := 2;
    var k := 0;
    assert names[..0] == [];
    while k < |names|
      invariant 0 <= k <= |names| && offset == 2 + EntriesSize(names[..k]) <= payload.Length
      invariant payload[..offset] == count + EntriesBytes(names[..k])
    {
      EntriesSnoc(names, k);
      PrefixFits(names, k + 1);
      PutEntry(payload, offset, names[k]);
      assert count + EntriesBytes(names[..k]) + EntryBytes(names[k]) == count + EntriesBytes(names[..k + 1]);
      offset, k := offset + 2 + |names[k]|, k + 1;
    }
    assert names[..k] == names;
    assert payload[..] == payload[..offset];
  }

  /** The encoder of pushMatrixUsers: size the buffer, then fill it. */
  method EncodeUserList(names: seq<Name>) returns (payload: array<byte>, offset: nat)
    ensures payload[..] == UserListBytes(names)
    ensures offset == payload.Length
  {
    var size := SizeUserList(names);
    payload := new byte[size];
    PutLE(payload, 0, 2, Truncate16(|names|));
    assert payload[..2] == payload[0..2];
    offset := FillEntries(payload, names);
  }

  lemma {:induction false} PrefixFits(names: seq<Name>, k: nat)
    requires k <= |names|
    ensures EntriesSize(names[..k]) <= EntriesSize(names)
    ensures 2 * |names| <= EntriesSize(names)
    decreases |names|
  {
    if names == [] {
    } else {
      PrefixFits(names[1..], if k == 0 then 0 else k - 1);
      if k > 0 {
        assert names[..k][1..] == names[1..][..k - 1];
      }
    }
  }

  /** What the sidecar's decoder makes of entries starting at `offset`; reading a length past the end throws. */
  function DecodeEntries(p: seq<byte>, offset: nat, count: nat): Result<seq<Name>, RangeError>
    decreases count
  {
    if count == 0 || offset >= |p| then Ok([])
    else if offset + 2 > |p| then Err(RangeError)
    else
      var nameLen := ReadU16(p[offset..offset + 2]);
      match DecodeEntries(p, offset + 2 + nameLen, count - 1)
      case Err(e) => Err(e)
      case Ok(more) =>
        Ok((if offset + 2 + nameLen <= |p| then [p[offset + 2..offset + 2 + nameLen]] else []) + more)
  }

  function Prefixed(names: seq<Name>, r: Result<seq<Name>, RangeError>): Result<seq<Name>, RangeError> {
    match r
    case Err(e) => Err(e)
    case Ok(more) => Ok(names + more)
  }

  /** One turn of the decoder's loop: a name that is all there moves over to the names read. */
  lemma EntryMovesOver(p: seq<byte>, offset: nat, count: nat, names: seq<Name>)
    requires count > 0 && offset + 2 <= |p|
    ensures var next := offset + 2 + ReadU16(p[offset..offset + 2]);
            var read := if next <= |p| then names + [p[offset + 2..next]] else names;
            Prefixed(names, DecodeEntries(p, offset, count)) == Prefixed(read, DecodeEntries(p, next, count - 1))
  {
    var next := offset + 2 + ReadU16(p[offset..offset + 2]);
    var tail := DecodeEntries(p, next, count - 1);
    if tail.Ok? {
      var head := if next <= |p| then [p[offset + 2..next]] else [];
      assert names + (head + tail.value) == names + head + tail.value;
      assert next > |p| ==> names + head == names;
    }
  }

  lemma NothingPrefixed(r: Result<seq<Name>, RangeError>)
    ensures Prefixed([], r) == r
  {
    if r.Ok? {
      assert [] + r.value == r.value;
    }
  }

  /** None: fewer than two bytes, ignored. */
  method DecodeUserList(p: seq<byte>) returns (r: Option<Result<seq<Name>, RangeError>>)
    ensures r == DecodeUserListBytes(p)
  {
    if |p| < 2 {
      return None;
    }
    var count := ReadU16(p[0..2]);
    var names: seq<Name> := [];
    var offset, i := 2, 0;
    NothingPrefixed(DecodeEntries(p, 2, count));
    while i < count && offset < |p|
      invariant 0 <= i <= count && offset >= 2
      invariant DecodeEntries(p, 2, count) == Prefixed(names, DecodeEntries(p, offset, count - i))
      decreases count - i
    {
      if offset + 2 > |p| {
        return Some(Err(RangeError));
      }
      EntryMovesOver(p, offset, count - i, names);
      var nameLen := ReadU16(p[offset..offset + 2]);
      offset := offset + 2;
      if offset + nameLen <= |p| {
        names := names + [p[offset..offset + nameLen]];
      }
      offset := offset + nameLen;
      i := i + 1;
    }
    assert names + [] == names;
    r := Some(Ok(names));
  }

  lemma {:induction false} EntriesDecodeBack(p: seq<byte>, offset: nat, names: seq<Name>)
    requires offset <= |p| && p[offset..] == EntriesBytes(names)
    requires EntriesSize(names) <= 0xFFFF
    ensures DecodeEntries(p, offset, |names|) == Ok(names)
    decreases |names|
  {
    if names == [] {
    } else {
      var n := |names[0]|;
      var tail := p[offset..];
      assert tail[..2] == ToLE(2, n) && tail[2..2 + n] == names[0] && tail[2 + n..] == EntriesBytes(names[1..]);
      assert p[offset..offset + 2] == tail[..2];
      assert p[offset + 2..offset + 2 + n] == tail[2..2 + n];
      assert p[offset + 2 + n..] == tail[2 + n..];
      ReadBackU16(n);
      EntriesDecodeBack(p, offset + 2 + n, names[1..]);
      assert names == [names[0]] + names[1..];
    }
  }

  /** Whatever the decoder returns fits in the bytes it read. */
  lemma {:induction false} DecodedFits(p: seq<byte>, offset: nat, count: nat)
    requires DecodeEntries(p, offset, count).Ok? && offset <= |p|
    ensures EntriesSize(DecodeEntries(p, offset, count).value) <= |p| - offset
    decreases count
  {
    if count == 0 || offset == |p| {
    } else {
      var next := offset + 2 + ReadU16(p[offset..offset + 2]);
      if next <= |p| {
        DecodedFits(p, next, count - 1);
        var more := DecodeEntries(p, next, count - 1).value;
        assert ([p[offset + 2..next]] + more)[1..] == more;
      } else {
        assert DecodeEntries(p, next, count - 1) == Ok([]);
      }
    }
  }

  /** What updateBotNickname makes of a whole payload. */
  function DecodeUserListBytes(p: seq<byte>): Option<Result<seq<Name>, RangeError>> {
    if |p| < 2 then None else Some(DecodeEntries(p, 2, ReadU16(p[0..2])))
  }

  lemma UserListHeader(names: seq<Name>)
    requires |names| <= 0xFFFF
    ensures UserListBytes(names)[0..2] == ToLE(2, |names|)
    ensures UserListBytes(names)[2..] == EntriesBytes(names)
  {
  }

  lemma DecodesBack(p: seq<byte>, names: seq<Name>)
    requires |p| >= 2 && |names| <= 0xFFFF && EntriesSize(names) <= 0xFFFF
    requires p[0..2] == ToLE(2, |names|) && p[2..] == EntriesBytes(names)
    ensures DecodeUserListBytes(p) == Some(Ok(names))
  {
    ReadBackU16(|names|);
    EntriesDecodeBack(p, 2, names);
  }

  lemma UserListDecodesBack(names: seq<Name>)
    requires 2 + EntriesSize(names) <= 0xFFFF
    ensures DecodeUserListBytes(UserListBytes(names)) == Some(Ok(names))
  {
    PrefixFits(names, 0);
    UserListHeader(names);
    DecodesBack(UserListBytes(names), names);
  }

  lemma ShortPayloadCannotCarry(p: seq<byte>, names: seq<Name>)
    requires |p| <= 0xFFFF < 2 + EntriesSize(names)
    ensures DecodeUserListBytes(p) != Some(Ok(names))
  {
    if |p| >= 2 && DecodeEntries(p, 2, ReadU16(p[0..2])).Ok? {
      DecodedFits(p, 2, ReadU16(p[0..2]));
    }
  }

  /** Bridge to sidecar, end to end: the list arrives as it was sent exactly when its encoding has at
      most 65535 bytes (Go sends a longer one with a truncated length). */
  lemma UserListArrivesExactly(kind: byte, userId: uint64, names: seq<Name>, tail: seq<byte>)
    ensures
      var wire := Frame(Message(kind, userId, UserListBytes(names))) + tail;
      (!Incomplete(wire) && DecodeUserListBytes(HeadMessage(wire).payload) == Some(Ok(names)))
      <==> 2 + EntriesSize(names) <= 0xFFFF
  {
    var m := Message(kind, userId, UserListBytes(names));
    var wire := Frame(m) + tail;
    if 2 + EntriesSize(names) <= 0xFFFF {
      HeadOfFrame(m, tail);
      UserListDecodesBack(names);
    } else if !Incomplete(wire) {
      ShortPayloadCannotCarry(HeadMessage(wire).payload, names);
    }
  }

  /** The layout: the count, then each name after its length, low bytes first. */
  lemma UserListLayout(names: seq<Name>)
    requires |names| <= 0xFFFF
    ensures UserListBytes(names)[0..2] == [|names| % 256, |names| / 256]
    ensures UserListBytes(names)[2..] == EntriesBytes(names) && EntriesBytes([]) == []
  {
    TwoBytes(|names|);
    UserListHeader(names);
  }

  lemma EntryLayout(names: seq<Name>, k: nat)
    requires k < |names| && |names[k]| <= 0xFFFF
    ensures EntriesBytes(names[..k + 1])
            == EntriesBytes(names[..k]) + ([|names[k]| % 256, |names[k]| / 256] + names[k])
  {
    TwoBytes(|names[k]|);
    EntriesSnoc(names, k);
  }

  /** The names that are all there in the first n bytes of an encoding, and how many bytes follow them. */
  function WholeNames(names: seq<Name>, n: nat): (seq<Name>, nat) {
    if names == [] || n < 2 + |names[0]| then ([], n)
    else
      var (more, rest) := WholeNames(names[1..], n - 2 - |names[0]|);
      ([names[0]] + more, rest)
  }

  lemma PrefixSlices(cut: seq<byte>, all: seq<byte>, lo: nat, hi: nat)
    requires cut <= all && lo <= hi <= |cut|
    ensures cut[lo..hi] == all[lo..hi] && cut[hi..] <= all[hi..]
  {
  }

  lemma EntryPieces(len: seq<byte>, name: Name, more: seq<byte>)
    requires |len| == 2
    ensures var all := len + name + more;
            all[0..2] == len && all[2..2 + |name|] == name && all[2 + |name|..] == more
  {
  }

  lemma HeadOfEntries(cut: seq<byte>, names: seq<Name>)
    requires names != [] && |names[0]| <= 0xFFFF && 2 <= |cut| && cut <= EntriesBytes(names)
    ensures ReadU16(cut[0..2]) == |names[0]|
    ensures |cut| >= 2 + |names[0]| ==>
              cut[2..2 + |names[0]|] == names[0] && cut[2 + |names[0]|..] <= EntriesBytes(names[1..])
  {
    var all, n := EntriesBytes(names), |names[0]|;
    assert all == ToLE(2, n) + names[0] + EntriesBytes(names[1..]);
    EntryPieces(ToLE(2, n), names[0], EntriesBytes(names[1..]));
    PrefixSlices(cut, all, 0, 2);
    ReadBackU16(n);
    if |cut| >= 2 + n {
      PrefixSlices(cut, all, 2, 2 + n);
    }
  }

  lemma Shifted(p: seq<byte>, offset: nat, lo: nat, hi: nat)
    requires lo <= hi && offset + hi <= |p|
    ensures p[offset..][lo..hi] == p[offset + lo..offset + hi] && p[offset..][lo..] == p[offset + lo..]
  {
  }

  lemma EntryIsTaken(p: seq<byte>, offset: nat, count: nat)
    requires count > 0 && offset + 2 <= |p| && offset + 2 + ReadU16(p[offset..offset + 2]) <= |p|
    ensures var next := offset + 2 + ReadU16(p[offset..offset + 2]);
            DecodeEntries(p, offset, count) == Prefixed([p[offset + 2..next]], DecodeEntries(p, next, count - 1))
  {
    EntryMovesOver(p, offset, count, []);
    NothingPrefixed(DecodeEntries(p, offset, count));
    assert [] + [p[offset + 2..offset + 2 + ReadU16(p[offset..offset + 2])]]
           == [p[offset + 2..offset + 2 + ReadU16(p[offset..offset + 2])]];
  }

  /** What decoding cut entries gives: the names that are all there, unless the cut falls inside a length. */
  function CutResult(names: seq<Name>, n: nat): Result<seq<Name>, RangeError> {
    if WholeNames(names, n).1 == 1 then Err(RangeError) else Ok(WholeNames(names, n).0)
  }

  lemma CutResultStep(names: seq<Name>, n: nat)
    requires names != [] && n >= 2 + |names[0]|
    ensures CutResult(names, n) == Prefixed([names[0]], CutResult(names[1..], n - 2 - |names[0]|))
  {
  }

  lemma HeadAt(p: seq<byte>, offset: nat, names: seq<Name>)
    requires names != [] && |names[0]| <= 0xFFFF && offset + 2 <= |p| && p[offset..] <= EntriesBytes(names)
    ensures ReadU16(p[offset..offset + 2]) == |names[0]|
    ensures offset + 2 + |names[0]| <= |p| ==>
              p[offset + 2..offset + 2 + |names[0]|] == names[0]
              && p[offset + 2 + |names[0]|..] <= EntriesBytes(names[1..])
  {
    var n := |names[0]|;
    HeadOfEntries(p[offset..], names);
    Shifted(p, offset, 0, 2);
    if offset + 2 + n <= |p| {
      Shifted(p, offset, 2, 2 + n);
      Shifted(p, offset, 2 + n, 2 + n);
    }
  }

  lemma {:induction false} CutEntriesDecode(p: seq<byte>, offset: nat, names: seq<Name>)
    requires offset <= |p| && p[offset..] <= EntriesBytes(names)
    requires forall name :: name in names ==> |name| <= 0xFFFF
    ensures DecodeEntries(p, offset, |names|) == CutResult(names, |p| - offset)
    decreases |names|
  {
    if names != [] && |p| - offset >= 2 {
      var n := |names[0]|;
      HeadAt(p, offset, names);
      if |p| - offset >= 2 + n {
        CutEntriesDecode(p, offset + 2 + n, names[1..]);
        EntryIsTaken(p, offset, |names|);
        CutResultStep(names, |p| - offset);
      } else {
        CutNameIsSkipped(p, offset, |names|);
      }
    }
  }

  lemma CutNameIsSkipped(p: seq<byte>, offset: nat, count: nat)
    requires count > 0 && offset + 2 <= |p| < offset + 2 + ReadU16(p[offset..offset + 2])
    ensures DecodeEntries(p, offset, count) == Ok([])
  {
    var none: seq<Name> := [];
    assert DecodeEntries(p, offset + 2 + ReadU16(p[offset..offset + 2]), count - 1) == Ok(none);
    assert none + none == none;
  }
}
