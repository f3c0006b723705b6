/** What controlUDPConn puts on the wire and makes of what it hears, written out. */
module StreamInBytes {
  import opened Bytes
  import opened ControlPacket
  import opened ControlStream

  /** A chunk travels in a packet of opcode 4 and key id 0 without acks; an acknowledgement is a pure ACK, opcode 5. */
  lemma PacketsSent(id: Word32, chunk: seq<byte>, localSID: SessionID, remoteSID: SessionID)
    ensures Parse(CarrierBytes(localSID, id, chunk)) == Ok(Packet(4, 0, localSID, [], None, id, chunk))
    ensures Parse(AckBytesFor(id, localSID, remoteSID)) == Ok(Packet(5, 0, localSID, [id], Some(remoteSID), 0, []))
  {
    ParseMarshal(Carrier(localSID, id, chunk));
    AckMeans(id, localSID, remoteSID);
    hide Marshal, Parse;
  }

  /** Taken are the peer's packets of opcode 4 that do not name another session; opcode 3 asks for new keys. */
  lemma TakenIff(raw: seq<byte>, localSID: SessionID, remoteSID: SessionID, id: Word32, payload: seq<byte>)
    ensures Classify(raw, localSID, remoteSID) == Data(id, payload) <==>
        && Parse(raw).Ok?
        && var p := Parse(raw).value;
           && p.sessionID == remoteSID && p.opcode == 4 && p.packetID == id && p.payload == payload
           && (p.remoteSessionID == None || p.remoteSessionID == Some(localSID))
    ensures Classify(raw, localSID, remoteSID) == Rekey <==>
        Parse(raw).Ok? && Parse(raw).value.sessionID == remoteSID && Parse(raw).value.opcode == 3
  {
    hide Parse;
  }

  /** A write goes out in chunks of 1000 bytes, and a last one of what is left. */
  lemma {:induction false} ChunkAt(p: seq<byte>, i: nat)
    ensures |Chunks(p)| == (|p| + 999) / 1000
    ensures i < |Chunks(p)| ==>
        1000 * i < |p| && Chunks(p)[i] == p[1000 * i..if 1000 * (i + 1) <= |p| then 1000 * (i + 1) else |p|]
  {
    if p != [] {
      var n := if |p| > 1000 then 1000 else |p|;
      var rest := p[n..];
      FirstChunk(p);
      hide Chunks;
      if i == 0 {
        ChunkAt(rest, 0);
      } else {
        ChunkAt(rest, i - 1);
        if i - 1 < |Chunks(rest)| {
          SliceOfRest(p, rest, n, i - 1);
        }
      }
    }
  }

  lemma FirstChunk(p: seq<byte>)
    requires p != []
    ensures var n := if |p| > 1000 then 1000 else |p|; Chunks(p) == [p[..n]] + Chunks(p[n..])
  {
  }

  lemma SliceOfRest(p: seq<byte>, rest: seq<byte>, n: nat, k: nat)
    requires n == (if |p| > 1000 then 1000 else |p|) && rest == p[n..] && 1000 * k < |rest|
    ensures rest[1000 * k..if 1000 * (k + 1) <= |rest| then 1000 * (k + 1) else |rest|]
         == p[1000 * (k + 1)..if 1000 * (k + 2) <= |p| then 1000 * (k + 2) else |p|]
  {
    var lo, hi := 1000 * k, if 1000 * (k + 1) <= |rest| then 1000 * (k + 1) else |rest|;
    SliceOfSlice(p, n, lo, hi);
  }

  lemma SliceOfSlice(p: seq<byte>, n: nat, lo: nat, hi: nat)
    requires n <= |p| && lo <= hi <= |p| - n
    ensures p[n..][lo..hi] == p[n + lo..n + hi]
  {
  }

  /** Datagram k carries chunk k under the number after those of the chunks before it. */
  lemma SentAt(sid: SessionID, chunks: seq<seq<byte>>, k: nat)
    requires k < |chunks|
    ensures Parse(Datagrams(sid, 1, chunks)[k]) == Ok(Packet(4, 0, sid, [], None, (1 + k) % WRAP32, chunks[k]))
  {
    DatagramAt(sid, 1, chunks, k);
    PacketsSent(IdAfter(1, k), chunks[k], sid, sid);
    hide Parse, CarrierBytes, Datagrams;
  }

  /** A datagram that a Read passes over: no packet for it, or an empty one that could be acknowledged. */
  predicate PassedOver(e: Event, acked: bool, localSID: SessionID, remoteSID: SessionID) {
    && e.Datagram?
    && var v := Classify(e.raw, localSID, remoteSID);
       v == Skip || (v.Data? && acked && v.payload == [])
  }

  /** How a Read ends at an event that it does not pass over. */
  function EndAt(e: Event, acked: bool, localSID: SessionID, remoteSID: SessionID): ReadEnd {
    if e.SocketError? then Failed
    else if Classify(e.raw, localSID, remoteSID) == Rekey then RekeyRequested
    else if !acked then AckFailed
    else GotBytes
  }

  /** A Read ends at the first event it does not pass over, and has used the events up to that one. */
  lemma {:induction false} ScanMeans(
    events: seq<Event>, ok: nat -> bool, i: nat, localSID: SessionID, remoteSID: SessionID)
    ensures var r := Scan(events, ok, i, localSID, remoteSID);
      && (r.end == WouldBlock ==> r.used == |events|)
      && (forall j :: 0 <= j < r.used && (r.end == WouldBlock || j < r.used - 1) ==>
        PassedOver(events[j], ok(i + j), localSID, remoteSID))
      && (r.end != WouldBlock ==>
        var last := r.used - 1;
        && 0 <= last < |events|
        && !PassedOver(events[last], ok(i + last), localSID, remoteSID)
        && r.end == EndAt(events[last], ok(i + last), localSID, remoteSID))
  {
    hide Classify;
    ScanNext(events, ok, i, localSID, remoteSID);
    if events != [] {
      ScanMeans(events[1..], ok, i + 1, localSID, remoteSID);
      hide Scan;
      RoundMeans(events[0], ok(i), localSID, remoteSID);
      var r := Scan(events, ok, i, localSID, remoteSID);
      var rest := Scan(events[1..], ok, i + 1, localSID, remoteSID);
      if PassedOver(events[0], ok(i), localSID, remoteSID) {
        assert r == Reading(1 + rest.used, rest.end);
        forall j | 0 <= j < r.used && (r.end == WouldBlock || j < r.used - 1)
          ensures PassedOver(events[j], ok(i + j), localSID, remoteSID)
        {
          assert j > 0 ==> events[j] == events[1..][j - 1] && ok(i + j) == ok(i + 1 + (j - 1));
        }
      }
    }
  }

  lemma RoundMeans(e: Event, acked: bool, localSID: SessionID, remoteSID: SessionID)
    ensures var round, v := RoundFor(e, localSID, remoteSID, acked), VerdictOf(e, localSID, remoteSID);
      if PassedOver(e, acked, localSID, remoteSID)
      then !round.Ended? && !(round.Took? && v.payload != [])
      else if round.Ended? then round.end == EndAt(e, acked, localSID, remoteSID) && round.end != WouldBlock
      else round.Took? && v.payload != [] && EndAt(e, acked, localSID, remoteSID) == GotBytes
  {
    hide Classify;
  }

  /** The packets accepted are acknowledged one by one, in order. */
  lemma {:induction false} AckedInOrder(vs: seq<Verdict>, localSID: SessionID, remoteSID: SessionID, i: nat)
    requires (forall k :: 0 <= k < |vs| ==> vs[k].Data?) && i < |vs|
    ensures |Acks(vs, localSID, remoteSID)| == |vs|
    ensures Acks(vs, localSID, remoteSID)[i] == AckBytesFor(vs[i].id, localSID, remoteSID)
  {
    hide AckBytesFor;
    var init := vs[..|vs| - 1];
    if init != [] {
      AckedInOrder(init, localSID, remoteSID, if i < |init| then i else 0);
    }
  }

  /** Their payloads follow one another. */
  lemma {:induction false} PayloadsFollow(vs: seq<Verdict>, i: nat)
    requires (forall k :: 0 <= k < |vs| ==> vs[k].Data?) && i < |vs|
    ensures Payloads(vs[..i]) + vs[i].payload <= Payloads(vs)
  {
    var init, last := vs[..|vs| - 1], vs[|vs| - 1];
    assert Payloads(vs) == Payloads(init) + last.payload;
    if i < |init| {
      PayloadsFollow(init, i);
      assert init[..i] == vs[..i];
      hide Payloads;
    } else {
      assert init == vs[..i];
    }
  }
}
