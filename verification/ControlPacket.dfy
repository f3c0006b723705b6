/** protocol.go: the OpenVPN control packet and its wire form. */
module ControlPacket {
  import opened Bytes

  const OP_SOFT_RESET: byte := 3
  const OP_CONTROL: byte := 4
  const OP_ACK: byte := 5

  type SessionID = s: seq<byte> | |s| == 8 witness [0, 0, 0, 0, 0, 0, 0, 0]

  datatype Packet = Packet(
    opcode: byte,
    keyID: byte,
    sessionID: SessionID,
    ackIDs: seq<Word32>,
    remoteSessionID: Option<SessionID>,
    packetID: Word32,
    payload: seq<byte>)

  datatype Error =
    | InvalidOpcode
    | InvalidKeyId
    | TooManyAcks
    | AcksWithoutRemote
    | TooShort
    | TruncatedAcks
    | TruncatedRemote
    | TruncatedPacketId

  // ----- specification -----

  function AckBytes(acks: seq<Word32>): (r: seq<byte>)
    ensures |r| == 4 * |acks|
  {
    if acks == [] then [] else AckBytes(acks[..|acks| - 1]) + BE32(acks[|acks| - 1])
  }

  function ReadAcks(raw: seq<byte>, pos: nat, n: nat): (r: seq<Word32>)
    requires pos + 4 * n <= |raw|
    ensures |r| == n
  {
    if n == 0 then [] else ReadAcks(raw, pos, n - 1) + [Get32(raw, pos + 4 * (n - 1))]
  }

  function MarshalError(p: Packet): Option<Error> {
    if p.opcode == 0 || p.opcode > 31 then Some(InvalidOpcode)
    else if p.keyID > 7 then Some(InvalidKeyId)
    else if |p.ackIDs| > 255 then Some(TooManyAcks)
    else if |p.ackIDs| > 0 && p.remoteSessionID.None? then Some(AcksWithoutRemote)
    else None
  }

  /** First byte, session id and ack count. */
  function Prefix(p: Packet): seq<byte>
    requires MarshalError(p).None?
  {
    [p.opcode * 8 + p.keyID] + p.sessionID + [|p.ackIDs|]
  }

  function AckSection(p: Packet): seq<byte>
    requires MarshalError(p).None?
  {
    AckBytes(p.ackIDs) + if |p.ackIDs| > 0 then p.remoteSessionID.value else []
  }

  function Body(p: Packet): seq<byte> {
    if p.opcode == OP_ACK then [] else BE32(p.packetID) + p.payload
  }

  function Marshal(p: Packet): Result<seq<byte>, Error> {
    if MarshalError(p).Some? then Err(MarshalError(p).value) else Ok(Prefix(p) + AckSection(p) + Body(p))
  }

  function Parse(raw: seq<byte>): Result<Packet, Error> {
    if |raw| < 10 then Err(TooShort)
    else
      var acks: nat := raw[9];
      if acks > 64 then Err(TooManyAcks)
      else if |raw| < 10 + 4 * acks then Err(TruncatedAcks)
      else if acks > 0 && |raw| < 10 + 4 * acks + 8 then Err(TruncatedRemote)
      else ParseBody(raw, acks)
  }

  /** The part after the ack array and the remote session id. */
  function ParseBody(raw: seq<byte>, acks: nat): Result<Packet, Error>
    requires BodyAt(acks) <= |raw|
  {
    var pos := BodyAt(acks);
    var remote := if acks > 0 then Some(raw[pos - 8..pos]) else None;
    if raw[0] / 8 == OP_ACK then
      Ok(Packet(raw[0] / 8, raw[0] % 8, raw[1..9], ReadAcks(raw, 10, acks), remote, 0, raw[pos..]))
    else if |raw| < pos + 4 then Err(TruncatedPacketId)
    else
      Ok(Packet(raw[0] / 8, raw[0] % 8, raw[1..9], ReadAcks(raw, 10, acks), remote, Get32(raw, pos), raw[pos + 4..]))
  }

  function BodyAt(acks: nat): nat {
    if acks > 0 then 10 + 4 * acks + 8 else 10
  }

  // ----- the two routines -----

  method MarshalPacket(p: Packet) returns (r: Result<seq<byte>, Error>)
    ensures r == Marshal(p)
  {
    if p.opcode == 0 || p.opcode > 31 {
      return Err(InvalidOpcode);
    }
    if p.keyID > 7 {
      return Err(InvalidKeyId);
    }
    if |p.ackIDs| > 255 {
      return Err(TooManyAcks);
    }
    if |p.ackIDs| > 0 && p.remoteSessionID.None? {
      return Err(AcksWithoutRemote);
    }
    var b := [p.opcode * 8 + p.keyID] + p.sessionID + [|p.ackIDs|];
    for i := 0 to |p.ackIDs|
      invariant b == Prefix(p) + AckBytes(p.ackIDs[..i])
    {
      assert p.ackIDs[..i + 1][..i] == p.ackIDs[..i];
      b := b + BE32(p.ackIDs[i]);
    }
    assert p.ackIDs[..|p.ackIDs|] == p.ackIDs;
    if |p.ackIDs| > 0 {
      b := b + p.remoteSessionID.value;
    }
    assert b == Prefix(p) + AckSection(p);
    if p.opcode != OP_ACK {
      b := b + BE32(p.packetID);
      b := b + p.payload;
    }
    assert b == Prefix(p) + AckSection(p) + Body(p);
    r := Ok(b);
  }

  method ParsePacket(raw: seq<byte>) returns (r: Result<Packet, Error>)
    ensures r == Parse(raw)
  {
    if |raw| < 10 {
      return Err(TooShort);
    }
    var p := Packet(raw[0] / 8, raw[0] % 8, raw[1..9], [], None, 0, []);
    var pos := 9;
    var ackCount: nat := raw[pos];
    pos := pos + 1;
    if ackCount > 64 {
      return Err(TooManyAcks);
    }
    if |raw| < pos + ackCount * 4 {
      return Err(TruncatedAcks);
    }
    var acks := [];
    for i := 0 to ackCount
      invariant pos == 10 + 4 * i && acks == ReadAcks(raw, 10, i)
    {
      acks := acks + [Get32(raw, pos)];
      pos := pos + 4;
    }
    p := p.(ackIDs := acks);
    if ackCount > 0 {
      if |raw| < pos + 8 {
        return Err(TruncatedRemote);
      }
      p := p.(remoteSessionID := Some(raw[pos..pos + 8]));
      pos := pos + 8;
    }
    if p.opcode == OP_ACK {
      if pos != |raw| {
        p := p.(payload := raw[pos..]);
      }
      assert p.payload == raw[pos..];
      return Ok(p);
    }
    if |raw| < pos + 4 {
      return Err(TruncatedPacketId);
    }
    p := p.(packetID := Get32(raw, pos));
    pos := pos + 4;
    r := Ok(p.(payload := raw[pos..]));
  }

  // ----- ack arrays -----

  lemma {:induction false} ReadAcksBack(raw: seq<byte>, pos: nat, acks: seq<Word32>)
    requires pos + 4 * |acks| <= |raw| && raw[pos..pos + 4 * |acks|] == AckBytes(acks)
    ensures ReadAcks(raw, pos, |acks|) == acks
  {
    if acks != [] {
      var init, last := acks[..|acks| - 1], acks[|acks| - 1];
      var at := pos + 4 * |init|;
      var bytes := raw[pos..at + 4];
      assert raw[pos..at] == bytes[..4 * |init|] == AckBytes(init);
      ReadAcksBack(raw, pos, init);
      assert raw[at..at + 4] == bytes[4 * |init|..] == BE32(last);
      Get32OfSlice(raw, at, last);
      assert init + [last] == acks;
    }
  }

  lemma Get32OfSlice(raw: seq<byte>, at: nat, v: Word32)
    requires at + 4 <= |raw| && raw[at..at + 4] == BE32(v)
    ensures Get32(raw, at) == v
  {
  }

  lemma {:induction false} AckBytesBack(raw: seq<byte>, pos: nat, n: nat)
    requires pos + 4 * n <= |raw|
    ensures AckBytes(ReadAcks(raw, pos, n)) == raw[pos..pos + 4 * n]
  {
    if n > 0 {
      var acks := ReadAcks(raw, pos, n);
      AckBytesBack(raw, pos, n - 1);
      assert acks[..n - 1] == ReadAcks(raw, pos, n - 1);
      Get32RoundTrip(raw, pos + 4 * (n - 1));
    }
  }

  // ----- round trips -----

  /** The packets whose every field survives the wire. */
  predicate Canonical(p: Packet) {
    && |p.ackIDs| <= 64
    && (p.remoteSessionID.Some? <==> |p.ackIDs| > 0)
    && (p.opcode == OP_ACK ==> p.packetID == 0 && p.payload == [])
  }

  /** The wire form, piece by piece. */
  lemma MarshalLayout(p: Packet)
    requires MarshalError(p).None?
    ensures var raw, n := Marshal(p).value, |p.ackIDs|;
      && |raw| == BodyAt(n) + |Body(p)|
      && raw[0] == p.opcode * 8 + p.keyID
      && raw[1..9] == p.sessionID
      && raw[9] == n
      && (n > 0 ==> raw[BodyAt(n) - 8..BodyAt(n)] == p.remoteSessionID.value)
      && raw[BodyAt(n)..] == Body(p)
      && ReadAcks(raw, 10, n) == p.ackIDs
  {
    var raw, n := Marshal(p).value, |p.ackIDs|;
    var remote := if n > 0 then p.remoteSessionID.value else [];
    assert raw == Prefix(p) + AckBytes(p.ackIDs) + (remote + Body(p));
    assert raw[10..10 + 4 * n] == AckBytes(p.ackIDs);
    ReadAcksBack(raw, 10, p.ackIDs);
  }

  /** What a parser makes of a marshalled packet with at most 64 acks. */
  lemma ParseOfMarshal(p: Packet)
    requires MarshalError(p).None? && |p.ackIDs| <= 64
    ensures var q := p.(remoteSessionID := if |p.ackIDs| > 0 then p.remoteSessionID else None);
      Parse(Marshal(p).value) == Ok(if p.opcode == OP_ACK then q.(packetID := 0, payload := []) else q)
  {
    var raw, n := Marshal(p).value, |p.ackIDs|;
    MarshalLayout(p);
    if p.opcode != OP_ACK {
      BodyFields(raw, BodyAt(n), p);
    }
  }

  lemma BodyFields(raw: seq<byte>, pos: nat, p: Packet)
    requires pos <= |raw| && raw[pos..] == BE32(p.packetID) + p.payload
    ensures |raw| >= pos + 4 && Get32(raw, pos) == p.packetID && raw[pos + 4..] == p.payload
  {
  }

  /** A packet that marshals is read back unchanged exactly when it is canonical; 65 to 255 acks never parse. */
  lemma ParseMarshal(p: Packet)
    requires MarshalError(p).None?
    ensures Parse(Marshal(p).value) == Ok(p) <==> Canonical(p)
    ensures |p.ackIDs| > 64 ==> Parse(Marshal(p).value) == Err(TooManyAcks)
  {
    if |p.ackIDs| > 64 {
      MarshalLayout(p);
    } else {
      ParseOfMarshal(p);
    }
  }

  /** Every accepted datagram with a non-zero opcode and no bytes after a pure ACK is its packet's one wire form. */
  lemma MarshalParse(raw: seq<byte>)
    requires Parse(raw).Ok? && raw[0] / 8 != 0
    requires raw[0] / 8 == OP_ACK ==> |raw| == BodyAt(raw[9])
    ensures MarshalError(Parse(raw).value).None? && Canonical(Parse(raw).value)
    ensures Marshal(Parse(raw).value) == Ok(raw)
  {
    var p, n := Parse(raw).value, raw[9];
    var pos := BodyAt(n);
    ParsedPrefix(raw);
    ParsedBody(raw, pos, p);
    assert raw == raw[..10] + raw[10..pos] + raw[pos..];
  }

  lemma ParsedPrefix(raw: seq<byte>)
    requires Parse(raw).Ok? && raw[0] / 8 != 0
    ensures MarshalError(Parse(raw).value).None?
    ensures raw[..10] == Prefix(Parse(raw).value)
    ensures raw[10..BodyAt(raw[9])] == AckSection(Parse(raw).value)
  {
    var p, n: nat := Parse(raw).value, raw[9];
    var pos := BodyAt(n);
    AckBytesBack(raw, 10, n);
    assert raw[..10] == [raw[0]] + raw[1..9] + [raw[9]];
    if n > 0 {
      assert raw[10..pos] == raw[10..10 + 4 * n] + raw[pos - 8..pos];
    }
  }

  lemma ParsedBody(raw: seq<byte>, pos: nat, p: Packet)
    requires pos <= |raw|
    requires p.opcode == OP_ACK ==> pos == |raw|
    requires p.opcode != OP_ACK ==> pos + 4 <= |raw| && p.packetID == Get32(raw, pos) && p.payload == raw[pos + 4..]
    ensures raw[pos..] == Body(p)
  {
    if p.opcode != OP_ACK {
      Get32RoundTrip(raw, pos);
      assert raw[pos..] == raw[pos..pos + 4] + raw[pos + 4..];
    }
  }

  // ----- in bytes -----

  /** Which packets have a wire form. */
  lemma MarshalsIff(p: Packet)
    ensures Marshal(p).Ok? <==>
        1 <= p.opcode <= 31 && p.keyID <= 7 && |p.ackIDs| <= 255 && (|p.ackIDs| > 0 ==> p.remoteSessionID.Some?)
  {
  }

  lemma {:induction false} AckAt(acks: seq<Word32>, i: nat)
    requires i < |acks|
    ensures AckBytes(acks)[4 * i..4 * i + 4] == BE32(acks[i])
  {
    if i < |acks| - 1 {
      var init := acks[..|acks| - 1];
      AckAt(init, i);
      assert AckBytes(acks)[4 * i..4 * i + 4] == AckBytes(init)[4 * i..4 * i + 4];
    }
  }

  lemma AckBytesAt(p: Packet)
    requires Marshal(p).Ok?
    ensures var raw, n := Marshal(p).value, |p.ackIDs|;
      |raw| >= 10 + 4 * n && raw[10..10 + 4 * n] == AckBytes(p.ackIDs)
  {
    hide AckBytes, Body;
    var rest := (if |p.ackIDs| > 0 then p.remoteSessionID.value else []) + Body(p);
    assert Marshal(p).value == Prefix(p) + AckBytes(p.ackIDs) + rest;
  }

  lemma AckInWire(p: Packet, i: nat)
    requires Marshal(p).Ok? && i < |p.ackIDs|
    ensures |Marshal(p).value| >= 10 + 4 * |p.ackIDs|
    ensures Marshal(p).value[10 + 4 * i..14 + 4 * i] == BE32(p.ackIDs[i])
  {
    AckBytesAt(p);
    AckAt(p.ackIDs, i);
    hide Marshal, AckBytes, BE32;
    var raw, n := Marshal(p).value, |p.ackIDs|;
    assert raw[10 + 4 * i..14 + 4 * i] == raw[10..10 + 4 * n][4 * i..4 * i + 4];
  }

  /** The wire form: opcode and key id in one byte, session id, ack count, and the acks in order with their session. */
  lemma WirePrefix(p: Packet)
    requires Marshal(p).Ok?
    ensures var raw, n := Marshal(p).value, |p.ackIDs|;
      && |raw| >= (if n == 0 then 10 else 18 + 4 * n)
      && raw[0] / 8 == p.opcode && raw[0] % 8 == p.keyID && raw[1..9] == p.sessionID && raw[9] == n
      && (forall i :: 0 <= i < n ==> raw[10 + 4 * i..14 + 4 * i] == BE32(p.ackIDs[i]))
      && (n > 0 ==> raw[10 + 4 * n..18 + 4 * n] == p.remoteSessionID.value)
  {
    assert MarshalError(p).None? && p.keyID <= 7;
    MarshalLayout(p);
    hide Marshal, MarshalError, AckBytes, BE32, ReadAcks, Body;
    var raw, n := Marshal(p).value, |p.ackIDs|;
    forall i | 0 <= i < n
      ensures raw[10 + 4 * i..14 + 4 * i] == BE32(p.ackIDs[i])
    {
      AckInWire(p, i);
    }
  }

  /** After that a pure ACK, opcode 5, ends, and any other packet goes on with its packet id and its payload. */
  lemma WireBody(p: Packet)
    requires Marshal(p).Ok?
    ensures var raw, at := Marshal(p).value, if p.ackIDs == [] then 10 else 18 + 4 * |p.ackIDs|;
      if p.opcode == 5 then |raw| == at
      else |raw| == at + 4 + |p.payload| && raw[at..at + 4] == BE32(p.packetID) && raw[at + 4..] == p.payload
  {
    MarshalLayout(p);
    var raw, at := Marshal(p).value, if p.ackIDs == [] then 10 else 18 + 4 * |p.ackIDs|;
    assert raw[at..] == Body(p);
    if p.opcode != 5 {
      assert raw[at..at + 4] == raw[at..][..4] && raw[at + 4..] == raw[at..][4..];
    }
  }

  /** Which datagrams are accepted: at most 64 acks, and nothing missing. */
  lemma ParsesIff(raw: seq<byte>)
    ensures Parse(raw).Ok? <==>
        && |raw| >= 10
        && raw[9] <= 64
        && var acks: int := raw[9];
           |raw| >= (if acks == 0 then 10 else 18 + 4 * acks) + (if raw[0] / 8 == 5 then 0 else 4)
  {
  }
}
