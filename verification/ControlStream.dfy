/** tlsprobe.go: controlUDPConn, a byte stream cut into numbered, acknowledged control packets. */
module ControlStream {
  import opened Bytes
  import opened ControlPacket

  const MAX_PAYLOAD: nat := 1000

  // ----- writing -----

  function Chunks(p: seq<byte>): seq<seq<byte>> {
    if p == [] then [] else
      var n := if |p| > MAX_PAYLOAD then MAX_PAYLOAD else |p|;
      [p[..n]] + Chunks(p[n..])
  }

  function Flatten(chunks: seq<seq<byte>>): seq<byte> {
    if chunks == [] then [] else chunks[0] + Flatten(chunks[1..])
  }

  function IdAfter(id: Word32, k: nat): Word32 {
    (id + k) % WRAP32
  }

  /** The control packet that carries one chunk. */
  function Carrier(sid: SessionID, id: Word32, chunk: seq<byte>): Packet {
    Packet(OP_CONTROL, 0, sid, [], None, id, chunk)
  }

  function CarrierBytes(sid: SessionID, id: Word32, chunk: seq<byte>): seq<byte> {
    Marshal(Carrier(sid, id, chunk)).value
  }

  /** The datagrams for the chunks, numbered consecutively from id. */
  function Datagrams(sid: SessionID, id: Word32, chunks: seq<seq<byte>>): (r: seq<seq<byte>>)
    ensures |r| == |chunks|
  {
    if chunks == [] then [] else
      Datagrams(sid, id, chunks[..|chunks| - 1]) + [CarrierBytes(sid, IdAfter(id, |chunks| - 1), chunks[|chunks| - 1])]
  }

  lemma {:induction false} ChunksCover(p: seq<byte>)
    ensures Flatten(Chunks(p)) == p
    ensures forall i :: 0 <= i < |Chunks(p)| ==> 1 <= |Chunks(p)[i]| <= MAX_PAYLOAD
  {
    if p != [] {
      var n := if |p| > MAX_PAYLOAD then MAX_PAYLOAD else |p|;
      ChunksCover(p[n..]);
      assert p == p[..n] + p[n..];
      assert Chunks(p)[1..] == Chunks(p[n..]);
    }
  }

  lemma {:induction false} FlattenAppend(a: seq<seq<byte>>, b: seq<seq<byte>>)
    ensures Flatten(a + b) == Flatten(a) + Flatten(b)
  {
    if a == [] {
      assert a + b == b;
    } else {
      assert (a + b)[1..] == a[1..] + b;
      FlattenAppend(a[1..], b);
    }
  }

  /** The first k chunks of p are the bytes of p before those still to write. */
  lemma CountIsSent(p: seq<byte>, k: nat, rest: seq<byte>)
    requires k <= |Chunks(p)| && Chunks(p)[k..] == Chunks(rest)
    ensures |rest| <= |p| && Flatten(Chunks(p)[..k]) == p[..|p| - |rest|]
    ensures rest != [] ==> k < |Chunks(p)|
    ensures rest == [] ==> k == |Chunks(p)|
  {
    var cs := Chunks(p);
    ChunksCover(p);
    ChunksCover(rest);
    assert Chunks(rest) == [] <==> rest == [];
    hide Flatten, Chunks;
    FlattenSplit(cs, k);
    PrefixOfSum(p, Flatten(cs[..k]), rest);
  }

  lemma FlattenSplit(cs: seq<seq<byte>>, k: nat)
    requires k <= |cs|
    ensures Flatten(cs) == Flatten(cs[..k]) + Flatten(cs[k..])
  {
    hide Flatten;
    assert cs[..k] + cs[k..] == cs;
    FlattenAppend(cs[..k], cs[k..]);
  }

  lemma PrefixOfSum(p: seq<byte>, x: seq<byte>, y: seq<byte>)
    requires p == x + y
    ensures x == p[..|p| - |y|]
  {
  }

  lemma NextChunk(cs: seq<seq<byte>>, k: nat, rest: seq<byte>)
    requires k <= |cs| && cs[k..] == Chunks(rest) && rest != []
    ensures var n := if |rest| > MAX_PAYLOAD then MAX_PAYLOAD else |rest|;
      k < |cs| && cs[k] == rest[..n] && cs[k + 1..] == Chunks(rest[n..])
  {
    assert cs[k..][0] == cs[k] && cs[k..][1..] == cs[k + 1..];
  }

  lemma DatagramsNext(sid: SessionID, cs: seq<seq<byte>>, c: seq<byte>)
    ensures Datagrams(sid, 1, cs + [c]) == Datagrams(sid, 1, cs) + [CarrierBytes(sid, IdAfter(1, |cs|), c)]
  {
    hide CarrierBytes;
    assert (cs + [c])[..|cs|] == cs;
  }

  // ----- reading -----

  /** What the stream makes of a datagram. */
  datatype Verdict = Skip | Data(id: Word32, payload: seq<byte>) | Rekey

  function Classify(raw: seq<byte>, localSID: SessionID, remoteSID: SessionID): Verdict {
    var parsed := Parse(raw);
    if parsed.Err? then Skip
    else
      var p := parsed.value;
      if p.sessionID != remoteSID then Skip
      else if p.opcode == OP_ACK then Skip
      else if p.opcode == OP_CONTROL then
        if p.remoteSessionID.Some? && p.remoteSessionID.value != localSID then Skip else Data(p.packetID, p.payload)
      else if p.opcode == OP_SOFT_RESET then Rekey
      else Skip
  }

  datatype Event = Datagram(raw: seq<byte>) | SocketError

  /** The data packets among the events, in order. */
  function Accepted(events: seq<Event>, localSID: SessionID, remoteSID: SessionID): seq<Verdict> {
    if events == [] then [] else
      var init, last := events[..|events| - 1], events[|events| - 1];
      var v := VerdictOf(last, localSID, remoteSID);
      Accepted(init, localSID, remoteSID) + if v.Data? then [v] else []
  }

  function VerdictOf(e: Event, localSID: SessionID, remoteSID: SessionID): Verdict {
    if e.Datagram? then Classify(e.raw, localSID, remoteSID) else Skip
  }

  lemma AcceptedNext(all: seq<Event>, u: nat, localSID: SessionID, remoteSID: SessionID)
    requires u < |all|
    ensures var v := VerdictOf(all[u], localSID, remoteSID);
      Accepted(all[..u + 1], localSID, remoteSID)
      == Accepted(all[..u], localSID, remoteSID) + if v.Data? then [v] else []
  {
    assert all[..u + 1][..u] == all[..u];
  }

  function Payloads(vs: seq<Verdict>): seq<byte> {
    if vs == [] then [] else
      var last := vs[|vs| - 1];
      Payloads(vs[..|vs| - 1]) + if last.Data? then last.payload else []
  }

  function AckBytesFor(id: Word32, localSID: SessionID, remoteSID: SessionID): seq<byte> {
    Marshal(Packet(OP_ACK, 0, localSID, [id], Some(remoteSID), 0, [])).value
  }

  function Acks(vs: seq<Verdict>, localSID: SessionID, remoteSID: SessionID): seq<seq<byte>> {
    if vs == [] then [] else
      var last := vs[|vs| - 1];
      Acks(vs[..|vs| - 1], localSID, remoteSID) + if last.Data? then [AckBytesFor(last.id, localSID, remoteSID)] else []
  }

  datatype ReadEnd = GotBytes | Failed | RekeyRequested | AckFailed | WouldBlock

  datatype Round = Ignored | Took | Ended(end: ReadEnd)

  function RoundFor(e: Event, localSID: SessionID, remoteSID: SessionID, okNow: bool): Round {
    if e.SocketError? then Ended(Failed)
    else
      match VerdictOf(e, localSID, remoteSID)
      case Skip => Ignored
      case Rekey => Ended(RekeyRequested)
      case Data(_, _) => if okNow then Took else Ended(AckFailed)
  }

  /** How a Read on an empty buffer ends, and how many events it uses. */
  datatype Reading = Reading(used: nat, end: ReadEnd)

  /** ok(i) says whether an acknowledgement could be written for the event used as number i. */
  function Scan(events: seq<Event>, ok: nat -> bool, i: nat, localSID: SessionID, remoteSID: SessionID): (r: Reading)
    ensures r.used <= |events| && (r.end != WouldBlock ==> r.used > 0)
  {
    if events == [] then Reading(0, WouldBlock)
    else
      var round := RoundFor(events[0], localSID, remoteSID, ok(i));
      if round.Ended? then Reading(1, round.end)
      else if round.Took? && VerdictOf(events[0], localSID, remoteSID).payload != [] then Reading(1, GotBytes)
      else
        var r := Scan(events[1..], ok, i + 1, localSID, remoteSID);
        Reading(r.used + 1, r.end)
  }

  lemma RoundEnds(e: Event, localSID: SessionID, remoteSID: SessionID, okNow: bool)
    ensures RoundFor(e, localSID, remoteSID, okNow).Ended? ==> RoundFor(e, localSID, remoteSID, okNow).end != GotBytes
  {
    hide VerdictOf;
  }

  /** A scan continued after u events. */
  function Onward(u: nat, r: Reading): Reading {
    Reading(u + r.used, r.end)
  }

  /** One round of a scan. */
  lemma ScanNext(events: seq<Event>, ok: nat -> bool, i: nat, localSID: SessionID, remoteSID: SessionID)
    ensures events == [] ==> Scan(events, ok, i, localSID, remoteSID) == Reading(0, WouldBlock)
    ensures events != [] ==>
        var round := RoundFor(events[0], localSID, remoteSID, ok(i));
        Scan(events, ok, i, localSID, remoteSID) ==
          if round.Ended? then Reading(1, round.end)
          else if round.Took? && VerdictOf(events[0], localSID, remoteSID).payload != [] then Reading(1, GotBytes)
          else Onward(1, Scan(events[1..], ok, i + 1, localSID, remoteSID))
  {
    hide VerdictOf, RoundFor;
  }

  /** How many of the events a Read used it heard: all but a last one whose acknowledgement failed. */
  function HeardOf(r: Reading): (n: nat)
    ensures n <= r.used
  {
    if r.end == AckFailed && r.used > 0 then r.used - 1 else r.used
  }

  function UsedBy(calls: seq<Reading>): nat {
    if calls == [] then 0 else UsedBy(calls[..|calls| - 1]) + calls[|calls| - 1].used
  }

  /** A failed acknowledgement is one of a datagram that was taken. */
  predicate FailuresUse(calls: seq<Reading>) {
    forall i :: 0 <= i < |calls| && calls[i].end == AckFailed ==> calls[i].used > 0
  }

  function Range(from: nat, n: nat): (r: seq<nat>)
    ensures |r| == n
  {
    seq(n, i requires i >= 0 => from + i)
  }

  /** The places of the events that a sequence of Reads heard. */
  function PickedBy(calls: seq<Reading>): seq<nat> {
    if calls == [] then []
    else
      var init := calls[..|calls| - 1];
      PickedBy(init) + Range(UsedBy(init), HeardOf(calls[|calls| - 1]))
  }

  lemma ReadCounted(calls: seq<Reading>, r: Reading)
    ensures UsedBy(calls + [r]) == UsedBy(calls) + r.used
    ensures PickedBy(calls + [r]) == PickedBy(calls) + Range(UsedBy(calls), HeardOf(r))
  {
    assert (calls + [r])[..|calls|] == calls;
  }

  lemma RangeNext(from: nat, n: nat)
    ensures Range(from, n + 1) == Range(from, n) + [from + n]
  {
  }

  /** What happens to an accepted packet, in order. */
  datatype Action = Acked(id: Word32) | Readable(bytes: seq<byte>)

  function ActionsFor(v: Verdict): seq<Action> {
    if !v.Data? then [] else if v.payload == [] then [Acked(v.id)] else [Acked(v.id), Readable(v.payload)]
  }

  function Actions(vs: seq<Verdict>): seq<Action> {
    if vs == [] then [] else Actions(vs[..|vs| - 1]) + ActionsFor(vs[|vs| - 1])
  }

  /** Bytes become readable only right after the acknowledgement of their packet. */
  lemma {:induction false} AckedBeforeReadable(vs: seq<Verdict>, i: nat)
    requires i < |Actions(vs)| && Actions(vs)[i].Readable?
    ensures i > 0 && Actions(vs)[i - 1].Acked?
  {
    var n := |Actions(vs[..|vs| - 1])|;
    if i < n {
      AckedBeforeReadable(vs[..|vs| - 1], i);
    } else {
      assert Actions(vs)[i] == ActionsFor(vs[|vs| - 1])[i - n];
    }
  }

  /** What a connection has taken from its socket. */
  datatype Bookkeeping = Bookkeeping(consumed: seq<Event>, heard: seq<Event>, picked: seq<nat>)

  /** From before on, u of the events are taken, and all of them heard but for a lost last one. */
  ghost predicate Progress(before: Bookkeeping, events: seq<Event>, u: nat, lost: bool, now: Bookkeeping,
                           rest: seq<Event>) {
    && u <= |events| && (lost ==> u > 0)
    && rest == events[u..]
    && now.consumed == before.consumed + events[..u]
    && var h := if lost then u - 1 else u;
       && now.heard == before.heard + events[..h]
       && now.picked == before.picked + Range(|before.consumed|, h)
  }

  lemma NoProgress(now: Bookkeeping, events: seq<Event>)
    ensures Progress(now, events, 0, false, now, events)
  {
  }

  /** One more event is taken, and heard or lost. */
  lemma ProgressNext(before: Bookkeeping, events: seq<Event>, u: nat, now: Bookkeeping, rest: seq<Event>)
    requires Progress(before, events, u, false, now, rest) && rest != []
    ensures var consumed := now.consumed + [rest[0]];
      && Progress(before, events, u + 1, true, Bookkeeping(consumed, now.heard, now.picked), rest[1..])
      && Progress(before, events, u + 1, false,
                  Bookkeeping(consumed, now.heard + [rest[0]], now.picked + [|now.consumed|]), rest[1..])
  {
    RangeNext(|before.consumed|, u);
    assert rest[0] == events[u] && rest[1..] == events[u + 1..];
    assert events[..u + 1] == events[..u] + [events[u]];
  }

  /** The events heard are those consumed at the places picked, in order. */
  ghost predicate Picks(heard: seq<Event>, consumed: seq<Event>, picked: seq<nat>) {
    && |heard| == |picked|
    && Increasing(picked, |consumed|)
    && forall i :: 0 <= i < |heard| ==> heard[i] == consumed[picked[i]]
  }

  predicate Increasing(picked: seq<nat>, n: nat) {
    && (forall i :: 0 <= i < |picked| ==> picked[i] < n)
    && (forall i, j :: 0 <= i < j < |picked| ==> picked[i] < picked[j])
  }

  lemma PicksNext(heard: seq<Event>, consumed: seq<Event>, picked: seq<nat>, e: Event)
    requires Picks(heard, consumed, picked)
    ensures Picks(heard, consumed + [e], picked)
    ensures Picks(heard + [e], consumed + [e], picked + [|consumed|])
  {
  }

  /** The bytes, acknowledgements and actions that the accepted packets call for. */
  ghost predicate Consistent(vs: seq<Verdict>, bytes: seq<byte>, acks: seq<seq<byte>>, actions: seq<Action>,
                             localSID: SessionID, remoteSID: SessionID) {
    bytes == Payloads(vs) && acks == Acks(vs, localSID, remoteSID) && actions == Actions(vs)
  }

  class ControlConn {
    const localSID: SessionID
    const remoteSID: SessionID
    var nextID: Word32
    var readBuf: seq<byte>
    var inbox: seq<Event>            // what the socket will still yield
    var sent: seq<seq<byte>>         // data datagrams written
    var acks: seq<seq<byte>>         // acknowledgements written
    ghost var written: seq<seq<byte>> // chunks sent
    ghost var consumed: seq<Event>   // events taken from the socket
    ghost var heard: seq<Event>      // those without the data packets whose acknowledgement failed
    ghost var picked: seq<nat>       // their places among the events taken
    ghost var calls: seq<Reading>    // the Reads so far
    ghost var accepted: seq<Verdict> // data packets accepted and acknowledged
    ghost var actions: seq<Action>   // what was done to them
    ghost var delivered: seq<byte>   // bytes returned by Read

    /** Every data packet heard is acknowledged once, and its bytes are then either returned or buffered, in order. */
    ghost predicate Valid()
      reads this
    {
      && Picks(heard, consumed, picked)
      && accepted == Accepted(heard, localSID, remoteSID)
      && Consistent(accepted, delivered + readBuf, acks, actions, localSID, remoteSID)
    }

    constructor (localSID: SessionID, remoteSID: SessionID, inbox: seq<Event>)
      ensures Valid() && this.localSID == localSID && this.remoteSID == remoteSID && this.inbox == inbox
      ensures Session() && Sent() && written == [] && calls == []
      ensures consumed == heard == [] && delivered == [] && readBuf == []
    {
      this.localSID, this.remoteSID, this.inbox := localSID, remoteSID, inbox;
      nextID, readBuf, sent, acks := 1, [], [], [];
      written, consumed, heard, accepted, actions, delivered := [], [], [], [], [], [];
      picked, calls := [], [];
    }

    ghost function Books(): Bookkeeping
      reads this
    {
      Bookkeeping(consumed, heard, picked)
    }

    /** The Reads so far account for every event. */
    ghost predicate Session()
      reads this
    {
      |consumed| == UsedBy(calls) && picked == PickedBy(calls) && FailuresUse(calls)
    }

    /** The datagrams sent are those of the chunks written, numbered from 1. */
    ghost predicate Sent()
      reads this
    {
      sent == Datagrams(localSID, 1, written) && nextID == IdAfter(1, |written|)
    }

    /** One data packet out, under the next id; a failed write uses no id. */
    method SendChunk(chunk: seq<byte>, okNow: bool)
      requires Sent()
      modifies this`nextID, this`sent, this`written
      ensures Sent() && written == if okNow then old(written) + [chunk] else old(written)
    {
      hide Datagrams, CarrierBytes, IdAfter;
      if okNow {
        sent := sent + [CarrierBytes(localSID, nextID, chunk)];
        DatagramsNext(localSID, written, chunk);
        NextId(1, |written|);
        written := written + [chunk];
        nextID := (nextID + 1) % WRAP32;
      }
    }

    /** ok(i) says whether the i-th UDP write of this call succeeds; k is how many did. */
    method Write(p: seq<byte>, ok: nat -> bool) returns (total: nat, err: bool, ghost k: nat)
      requires Sent()
      modifies this`nextID, this`sent, this`written
      ensures k <= |Chunks(p)| && (forall i :: 0 <= i < k ==> ok(i))
      ensures err <==> k < |Chunks(p)|
      ensures err ==> !ok(k)
      ensures Sent() && written == old(written) + Chunks(p)[..k]
      ensures total <= |p| && Flatten(Chunks(p)[..k]) == p[..total]
    {
      hide CarrierBytes, Datagrams, Flatten;
      var rest := p;
      var i := 0;
      total, err, k := 0, false, 0;
      ghost var cs := Chunks(p);
      assert cs[..0] == [] && cs[0..] == cs;
      while |rest| > 0
        invariant i == k <= |cs| && cs[k..] == Chunks(rest)
        invariant forall j :: 0 <= j < k ==> ok(j)
        invariant Sent() && written == old(written) + cs[..k]
        invariant total + |rest| == |p|
        decreases |rest|
      {
        var n := |rest|;
        if n > MAX_PAYLOAD {
          n := MAX_PAYLOAD;
        }
        NextChunk(cs, k, rest);
        var okNow := ok(i);
        SendChunk(rest[..n], okNow);
        if !okNow {
          err := true;
          CountIsSent(p, k, rest);
          return;
        }
        assert cs[..k + 1] == cs[..k] + [cs[k]];
        total := total + n;
        rest := rest[n..];
        i, k := i + 1, k + 1;
      }
      CountIsSent(p, k, rest);
    }

    /** Return up to n buffered bytes. */
    method Drain(n: nat) returns (data: seq<byte>)
      requires Valid()
      modifies this`readBuf, this`delivered
      ensures Valid()
      ensures data == old(readBuf)[..if n < |old(readBuf)| then n else |old(readBuf)|]
      ensures delivered == old(delivered) + data && readBuf == old(readBuf)[|data|..]
    {
      hide Consistent, Picks;
      var m := if n < |readBuf| then n else |readBuf|;
      data := readBuf[..m];
      assert delivered + readBuf == (delivered + data) + readBuf[m..];
      delivered := delivered + data;
      readBuf := readBuf[m..];
    }

    /** Acknowledge a data packet, then buffer its payload. */
    method Accept(v: Verdict, ghost e: Event)
      requires Valid() && readBuf == [] && v.Data? && v == VerdictOf(e, localSID, remoteSID)
      requires |consumed| > 0 && Picks(heard + [e], consumed, picked + [|consumed| - 1])
      modifies this`readBuf, this`acks, this`accepted, this`actions, this`heard, this`picked
      ensures Valid() && readBuf == v.payload && heard == old(heard) + [e]
      ensures picked == old(picked) + [|consumed| - 1]
      ensures actions == old(actions) + ActionsFor(v)
    {
      hide Consistent, Picks, Accepted, AckBytesFor, VerdictOf;
      AcceptedOne(heard, e, localSID, remoteSID);
      ConsistentNext(accepted, v, delivered + readBuf, acks, actions, localSID, remoteSID);
      assert delivered + readBuf + v.payload == delivered + v.payload;
      acks := acks + [AckBytesFor(v.id, localSID, remoteSID)];
      actions := actions + [Acked(v.id)];
      accepted, heard, picked := accepted + [v], heard + [e], picked + [|consumed| - 1];
      if |v.payload| != 0 {
        readBuf := v.payload;
        actions := actions + [Readable(v.payload)];
      }
      assert actions == old(actions) + ActionsFor(v) && readBuf == v.payload;
    }

    /** The loop body of Read on the next event; okNow says whether an acknowledgement can be written. */
    method HandleEvent(okNow: bool) returns (round: Round)
      requires Valid() && readBuf == [] && inbox != []
      modifies this`readBuf, this`inbox, this`acks, this`accepted, this`actions, this`consumed, this`heard, this`picked
      ensures Valid() && inbox == old(inbox)[1..] && consumed == old(consumed) + [old(inbox)[0]]
      ensures round == RoundFor(old(inbox)[0], localSID, remoteSID, okNow)
      ensures heard == if round == Ended(AckFailed) then old(heard) else old(heard) + [old(inbox)[0]]
      ensures picked == if round == Ended(AckFailed) then old(picked) else old(picked) + [|old(consumed)|]
      ensures readBuf == if round.Took? then VerdictOf(old(inbox)[0], localSID, remoteSID).payload else []
    {
      hide Classify, Consistent, Picks, Accepted;
      var event := inbox[0];
      inbox := inbox[1..];
      PicksNext(heard, consumed, picked, event);
      consumed := consumed + [event];
      AcceptedOne(heard, event, localSID, remoteSID);
      if event.SocketError? {
        heard, picked := heard + [event], picked + [|consumed| - 1];
        return Ended(Failed);
      }
      var verdict := Classify(event.raw, localSID, remoteSID);
      if verdict.Skip? {
        heard, picked := heard + [event], picked + [|consumed| - 1];
        return Ignored;
      }
      if verdict.Rekey? {
        heard, picked := heard + [event], picked + [|consumed| - 1];
        return Ended(RekeyRequested);
      }
      if !okNow {
        return Ended(AckFailed);
      }
      Accept(verdict, event);
      round := Took;
    }

    /** The loop of Read on an empty buffer: it ends with bytes in the buffer, with an error, or with nothing left. */
    method Fill(ok: nat -> bool) returns (end: ReadEnd, ghost used: nat)
      requires Valid() && readBuf == []
      modifies this`readBuf, this`inbox, this`acks, this`accepted, this`actions
      modifies this`consumed, this`heard, this`picked
      ensures Valid() && (readBuf != [] <==> end == GotBytes)
      ensures Reading(used, end) == Scan(old(inbox), ok, 0, localSID, remoteSID)
      ensures Progress(old(Books()), old(inbox), used, end == AckFailed, Books(), inbox)
    {
      hide Valid, RoundFor, VerdictOf, Scan, Progress;
      ghost var all := inbox;
      NoProgress(Books(), inbox);
      used := 0;
      var i := 0;
      while |inbox| > 0
        invariant Valid() && readBuf == [] && i == used
        invariant Progress(old(Books()), all, used, false, Books(), inbox)
        invariant Scan(all, ok, 0, localSID, remoteSID) == Onward(used, Scan(inbox, ok, used, localSID, remoteSID))
        decreases |inbox|
      {
        ghost var event := inbox[0];
        ScanNext(inbox, ok, used, localSID, remoteSID);
        RoundEnds(event, localSID, remoteSID, ok(i));
        ProgressNext(old(Books()), all, used, Books(), inbox);
        var round := HandleEvent(ok(i));
        i, used := i + 1, used + 1;
        if round.Ended? {
          end := round.end;
          return;
        }
        if |readBuf| > 0 {
          end := GotBytes;
          return;
        }
      }
      ScanNext(inbox, ok, used, localSID, remoteSID);
      end := WouldBlock;
    }

    /**
     * ok(i) says whether an acknowledgement could be written for event i; used is how many events were consumed.
     * Every event it consumes is heard, but for a last one whose acknowledgement failed.
     */
    method Read(n: nat, ok: nat -> bool) returns (data: seq<byte>, end: ReadEnd, ghost used: nat)
      requires Valid() && Session()
      modifies this`readBuf, this`inbox, this`acks, this`accepted, this`actions
      modifies this`consumed, this`heard, this`picked, this`calls, this`delivered
      ensures Valid() && Session() && calls == old(calls) + [Reading(used, end)]
      ensures delivered == old(delivered) + data
      ensures Reading(used, end) ==
        if old(readBuf) != [] then Reading(0, GotBytes) else Scan(old(inbox), ok, 0, localSID, remoteSID)
      ensures inbox == old(inbox)[used..] && consumed == old(consumed) + old(inbox)[..used]
      ensures heard == old(heard) + old(inbox)[..HeardOf(Reading(used, end))]
      ensures end != GotBytes ==> data == [] && readBuf == []
      ensures end == GotBytes ==> |data| <= n && (|data| == n || readBuf == [])
    {
      hide Consistent, Picks, Accepted, RoundFor, VerdictOf, Scan, PickedBy, UsedBy, Range;
      used, end, data := 0, GotBytes, [];
      NoProgress(Books(), inbox);
      if |readBuf| == 0 {
        end, used := Fill(ok);
      }
      if end == GotBytes {
        data := Drain(n);
      }
      ReadCounted(calls, Reading(used, end));
      calls := calls + [Reading(used, end)];
    }
  }

  lemma AcceptedOne(events: seq<Event>, e: Event, localSID: SessionID, remoteSID: SessionID)
    ensures var v := VerdictOf(e, localSID, remoteSID);
      Accepted(events + [e], localSID, remoteSID) == Accepted(events, localSID, remoteSID) + if v.Data? then [v] else []
  {
    assert (events + [e])[..|events|] == events;
  }

  lemma NextId(id: Word32, k: nat)
    ensures (IdAfter(id, k) + 1) % WRAP32 == IdAfter(id, k + 1)
  {
  }

  // ----- the two ends together -----

  function AsEvents(raws: seq<seq<byte>>): (r: seq<Event>)
    ensures |r| == |raws|
  {
    seq(|raws|, i requires 0 <= i < |raws| => Datagram(raws[i]))
  }

  /** A written chunk is accepted by the peer, under the number it was sent with. */
  lemma CarrierAccepted(sid: SessionID, id: Word32, chunk: seq<byte>, peerSID: SessionID)
    ensures Classify(CarrierBytes(sid, id, chunk), peerSID, sid) == Data(id, chunk)
  {
    ParseMarshal(Carrier(sid, id, chunk));
  }

  /** Delivered in order and exactly once, what one end writes is what the other end accepts. */
  lemma {:induction false} StreamArrives(sid: SessionID, id: Word32, chunks: seq<seq<byte>>, peerSID: SessionID)
    ensures Payloads(Accepted(AsEvents(Datagrams(sid, id, chunks)), peerSID, sid)) == Flatten(chunks)
  {
    hide CarrierBytes, Classify;
    var events := AsEvents(Datagrams(sid, id, chunks));
    if chunks != [] {
      var n := |chunks| - 1;
      var init, last := chunks[..n], chunks[n];
      assert events[..n] == AsEvents(Datagrams(sid, id, init));
      StreamArrives(sid, id, init, peerSID);
      CarrierAccepted(sid, IdAfter(id, n), last, peerSID);
      AcceptedNext(events, n, peerSID, sid);
      assert events[..n + 1] == events;
      PayloadsNext(Accepted(events[..n], peerSID, sid), Data(IdAfter(id, n), last));
      assert chunks == init + [last];
      FlattenAppend(init, [last]);
    }
  }

  /** What one more accepted packet adds to the bytes, the acknowledgements and the actions. */
  lemma ConsistentNext(vs: seq<Verdict>, v: Verdict, bytes: seq<byte>, acks: seq<seq<byte>>, actions: seq<Action>,
                       localSID: SessionID, remoteSID: SessionID)
    requires v.Data? && Consistent(vs, bytes, acks, actions, localSID, remoteSID)
    ensures Consistent(vs + [v], bytes + v.payload, acks + [AckBytesFor(v.id, localSID, remoteSID)],
                       actions + ActionsFor(v), localSID, remoteSID)
  {
    hide AckBytesFor, ActionsFor;
    assert (vs + [v])[..|vs|] == vs;
  }

  lemma PayloadsNext(vs: seq<Verdict>, v: Verdict)
    requires v.Data?
    ensures Payloads(vs + [v]) == Payloads(vs) + v.payload
  {
  }

  lemma {:induction false} DatagramsPrefix(sid: SessionID, id: Word32, chunks: seq<seq<byte>>, u: nat)
    requires u <= |chunks|
    ensures Datagrams(sid, id, chunks)[..u] == Datagrams(sid, id, chunks[..u])
  {
    hide CarrierBytes;
    var n := |chunks|;
    if u == n {
      assert chunks[..u] == chunks;
    } else {
      DatagramsPrefix(sid, id, chunks[..n - 1], u);
      assert chunks[..n - 1][..u] == chunks[..u];
    }
  }

  /** At every point the peer has accepted exactly the bytes of the datagrams it consumed: a prefix of those written. */
  lemma ReaderSeesPrefix(sid: SessionID, id: Word32, chunks: seq<seq<byte>>, u: nat, peerSID: SessionID)
    requires u <= |chunks|
    ensures Payloads(Accepted(AsEvents(Datagrams(sid, id, chunks))[..u], peerSID, sid)) == Flatten(chunks[..u])
    ensures Flatten(chunks[..u]) <= Flatten(chunks)
  {
    hide Datagrams, Accepted;
    DatagramsPrefix(sid, id, chunks, u);
    assert AsEvents(Datagrams(sid, id, chunks))[..u] == AsEvents(Datagrams(sid, id, chunks[..u]));
    StreamArrives(sid, id, chunks[..u], peerSID);
    FlattenPrefix(chunks, u);
  }

  /** Two successful writes in a row are, to the peer, one write of the joined bytes. */
  lemma WritesJoin(written: seq<seq<byte>>, p: seq<byte>, q: seq<byte>, sid: SessionID, peerSID: SessionID)
    ensures var chunks := written + Chunks(p) + Chunks(q);
      Payloads(Accepted(AsEvents(Datagrams(sid, 1, chunks)), peerSID, sid)) == Flatten(written) + p + q
  {
    hide Datagrams, Accepted, Payloads, AsEvents;
    StreamArrives(sid, 1, written + Chunks(p) + Chunks(q), peerSID);
    FlattenAppend(written + Chunks(p), Chunks(q));
    FlattenAppend(written, Chunks(p));
    ChunksCover(p);
    ChunksCover(q);
  }

  lemma {:induction false} AcceptedAppend(a: seq<Event>, b: seq<Event>, localSID: SessionID, remoteSID: SessionID)
    ensures Accepted(a + b, localSID, remoteSID) == Accepted(a, localSID, remoteSID) + Accepted(b, localSID, remoteSID)
  {
    hide Classify;
    if b == [] {
      assert a + b == a;
    } else {
      var n := |b| - 1;
      AcceptedAppend(a, b[..n], localSID, remoteSID);
      assert (a + b)[..|a + b| - 1] == a + b[..n];
      assert (a + b)[|a + b| - 1] == b[n];
    }
  }

  /** Unparseable and foreign datagrams and pure ACKs change nothing, wherever they arrive. */
  lemma NoiseIgnored(before: seq<Event>, noise: seq<byte>, after: seq<Event>, localSID: SessionID, remoteSID: SessionID)
    requires Parse(noise).Ok? ==> Parse(noise).value.sessionID != remoteSID || Parse(noise).value.opcode == OP_ACK
    ensures Accepted(before + [Datagram(noise)] + after, localSID, remoteSID)
         == Accepted(before + after, localSID, remoteSID)
  {
    AcceptedAppend(before + [Datagram(noise)], after, localSID, remoteSID);
    AcceptedAppend(before, after, localSID, remoteSID);
    AcceptedOne(before, Datagram(noise), localSID, remoteSID);
    hide Parse, Accepted;
  }

  // ----- which chunks the peer has -----

  function Picked(chunks: seq<seq<byte>>, picked: seq<nat>): seq<seq<byte>>
    requires Increasing(picked, |chunks|)
  {
    seq(|picked|, i requires 0 <= i < |picked| => chunks[picked[i]])
  }

  /** The first places, none left out. */
  predicate Initial(picked: seq<nat>) {
    forall i :: 0 <= i < |picked| ==> picked[i] == i
  }

  lemma DatagramAt(sid: SessionID, id: Word32, chunks: seq<seq<byte>>, i: nat)
    requires i < |chunks|
    ensures Datagrams(sid, id, chunks)[i] == CarrierBytes(sid, IdAfter(id, i), chunks[i])
  {
    hide CarrierBytes;
    DatagramsPrefix(sid, id, chunks, i + 1);
    var cs := chunks[..i + 1];
    assert Datagrams(sid, id, chunks)[i] == Datagrams(sid, id, chunks)[..i + 1][i] == Datagrams(sid, id, cs)[i];
  }

  /** The datagrams at some places bring the chunks at those places. */
  lemma {:induction false} PickedArrive(sid: SessionID, chunks: seq<seq<byte>>, picked: seq<nat>, heard: seq<Event>,
                                        peerSID: SessionID)
    requires Picks(heard, AsEvents(Datagrams(sid, 1, chunks)), picked)
    ensures Payloads(Accepted(heard, peerSID, sid)) == Flatten(Picked(chunks, picked))
  {
    hide CarrierBytes, Datagrams, Payloads, Accepted, Classify;
    if picked == [] {
      NothingArrives(peerSID, sid);
      assert heard == [] && Picked(chunks, picked) == [];
    } else {
      var n := |picked| - 1;
      var rest, last := picked[..n], picked[n];
      PickedArrive(sid, chunks, rest, heard[..n], peerSID);
      DatagramAt(sid, 1, chunks, last);
      CarrierAccepted(sid, IdAfter(1, last), chunks[last], peerSID);
      AcceptedOne(heard[..n], heard[n], peerSID, sid);
      PayloadsNext(Accepted(heard[..n], peerSID, sid), VerdictOf(heard[n], peerSID, sid));
      assert heard == heard[..n] + [heard[n]];
      assert Picked(chunks, picked) == Picked(chunks, rest) + [chunks[last]];
      FlattenAppend(Picked(chunks, rest), [chunks[last]]);
      FlattenOne(chunks[last]);
      hide Flatten, Picked, Picks, VerdictOf;
    }
  }

  lemma NothingArrives(localSID: SessionID, remoteSID: SessionID)
    ensures Payloads(Accepted([], localSID, remoteSID)) == [] == Flatten([])
  {
  }

  lemma FlattenOne(chunk: seq<byte>)
    ensures Flatten([chunk]) == chunk
  {
    assert [chunk][1..] == [];
  }

  lemma InitialFits(picked: seq<nat>, n: nat)
    requires Increasing(picked, n) && Initial(picked)
    ensures |picked| <= n
  {
    if picked != [] {
      assert picked[|picked| - 1] < n;
    }
  }

  lemma PickedInitial(chunks: seq<seq<byte>>, picked: seq<nat>)
    requires Increasing(picked, |chunks|) && Initial(picked) && |picked| <= |chunks|
    ensures Picked(chunks, picked) == chunks[..|picked|]
  {
  }

  lemma FlattenPrefix(chunks: seq<seq<byte>>, k: nat)
    requires k <= |chunks|
    ensures Flatten(chunks[..k]) <= Flatten(chunks)
  {
    hide Flatten;
    FlattenSplit(chunks, k);
  }

  lemma InitialIsPrefix(chunks: seq<seq<byte>>, picked: seq<nat>)
    requires Increasing(picked, |chunks|) && Initial(picked)
    ensures |picked| <= |chunks| && Picked(chunks, picked) == chunks[..|picked|]
    ensures Flatten(Picked(chunks, picked)) <= Flatten(chunks)
  {
    hide Flatten, Picked, Initial, Increasing;
    InitialFits(picked, |chunks|);
    PickedInitial(chunks, picked);
    FlattenPrefix(chunks, |picked|);
  }

  /** Chunks of the sizes Write sends. */
  predicate Sendable(chunks: seq<seq<byte>>, n: nat) {
    |chunks| == n && forall i :: 0 <= i < n ==> 1 <= |chunks[i]| <= MAX_PAYLOAD
  }

  /** With these contents, the bytes that arrive are the first bytes written. */
  ghost predicate ReadsPrefix(chunks: seq<seq<byte>>, picked: seq<nat>) {
    Increasing(picked, |chunks|) && Flatten(Picked(chunks, picked)) <= Flatten(chunks)
  }

  lemma {:induction false} OneByteEach(chunks: seq<seq<byte>>, i: nat)
    requires forall k :: 0 <= k < |chunks| ==> |chunks[k]| == 1
    ensures |Flatten(chunks)| == |chunks|
    ensures i < |chunks| ==> Flatten(chunks)[i] == chunks[i][0]
  {
    if chunks != [] {
      OneByteEach(chunks[1..], if i > 0 then i - 1 else 0);
    }
  }

  lemma {:induction false} FirstGap(picked: seq<nat>, n: nat) returns (k: nat)
    requires Increasing(picked, n) && !Initial(picked)
    ensures k < |picked| && k < picked[k]
  {
    k := |picked| - 1;
    if Initial(picked[..k]) {
      assert k > 0 ==> picked[..k][k - 1] == picked[k - 1] == k - 1;
    } else {
      k := FirstGap(picked[..k], n);
    }
  }

  /** Whatever is written, the bytes read are its first bytes: exactly if the places heard are the first ones. */
  lemma PrefixForAllIff(picked: seq<nat>, n: nat)
    requires Increasing(picked, n)
    ensures (forall chunks :: Sendable(chunks, n) ==> ReadsPrefix(chunks, picked)) <==> Initial(picked)
  {
    if Initial(picked) {
      forall chunks | Sendable(chunks, n)
        ensures ReadsPrefix(chunks, picked)
      {
        InitialIsPrefix(chunks, picked);
      }
    } else {
      var k := FirstGap(picked, n);
      var chunks: seq<seq<byte>> := seq(n, i requires 0 <= i < n => if i == picked[k] then [1] else [0]);
      OneByteEach(chunks, k);
      OneByteEach(Picked(chunks, picked), k);
      hide Flatten;
      assert Flatten(chunks)[k] == 0 && Flatten(Picked(chunks, picked))[k] == 1;
      assert Sendable(chunks, n) && !ReadsPrefix(chunks, picked);
    }
  }

  /** No Read that ended with a failed acknowledgement is followed by one that hears anything. */
  predicate QuietAfterFailure(calls: seq<Reading>) {
    forall i, j :: 0 <= i < j < |calls| && calls[i].end == AckFailed ==> HeardOf(calls[j]) == 0
  }

  predicate NoFailure(calls: seq<Reading>) {
    forall i :: 0 <= i < |calls| ==> calls[i].end != AckFailed
  }

  lemma InitialRange(picked: seq<nat>, c: nat, h: nat)
    requires Increasing(picked, c) && |picked| <= c
    ensures Increasing(picked + Range(c, h), c + h)
    ensures Initial(picked + Range(c, h)) <==> Initial(picked) && (h == 0 || |picked| == c)
  {
    var all := picked + Range(c, h);
    if Initial(all) {
      assert forall i :: 0 <= i < |picked| ==> all[i] == picked[i];
      assert h > 0 ==> all[|picked|] == c;
    }
  }

  /** The places heard are the first ones exactly while nothing is heard after a failure. */
  lemma {:induction false} InitialIff(calls: seq<Reading>)
    requires FailuresUse(calls)
    ensures Increasing(PickedBy(calls), UsedBy(calls)) && |PickedBy(calls)| <= UsedBy(calls)
    ensures |PickedBy(calls)| == UsedBy(calls) <==> NoFailure(calls)
    ensures Initial(PickedBy(calls)) <==> QuietAfterFailure(calls)
  {
    if calls != [] {
      var n := |calls| - 1;
      var init, last := calls[..n], calls[n];
      InitialIff(init);
      assert calls == init + [last];
      ReadCounted(init, last);
      hide Initial, QuietAfterFailure, NoFailure, PickedBy, UsedBy, Increasing, Range;
      InitialRange(PickedBy(init), UsedBy(init), HeardOf(last));
      QuietNext(init, last);
    }
  }

  lemma QuietNext(calls: seq<Reading>, r: Reading)
    ensures NoFailure(calls + [r]) <==> NoFailure(calls) && r.end != AckFailed
    ensures QuietAfterFailure(calls + [r])
       <==> QuietAfterFailure(calls) && (HeardOf(r) == 0 || NoFailure(calls))
  {
    hide HeardOf;
    var all := calls + [r];
    assert all[|calls|] == r && forall i :: 0 <= i < |calls| ==> all[i] == calls[i];
  }

  // ----- two connections -----

  /** b reads what a has sent: everything consumed and everything still to come are a's datagrams, in order. */
  ghost predicate ReadsFrom(a: ControlConn, b: ControlConn)
    reads a, b
  {
    && a.Sent() && b.Valid() && b.Session()
    && b.remoteSID == a.localSID
    && b.consumed + b.inbox == AsEvents(a.sent)
  }

  lemma HeardOfSent(a: ControlConn, b: ControlConn)
    requires ReadsFrom(a, b)
    ensures Picks(b.heard, AsEvents(a.sent), b.picked) && Increasing(b.picked, |a.written|)
    ensures b.delivered + b.readBuf == Flatten(Picked(a.written, b.picked))
  {
    hide Datagrams, Payloads, Accepted, Acks, Actions, PickedBy, UsedBy, Flatten;
    assert forall i :: 0 <= i < |b.consumed| ==> AsEvents(a.sent)[i] == b.consumed[i];
    PickedArrive(a.localSID, a.written, b.picked, b.heard, b.localSID);
  }

  /**
   * As long as no Read hears anything after one that ended with a failed acknowledgement, the bytes returned and
   * buffered are exactly those of the first datagrams, a prefix of everything written.
   */
  lemma StreamJoined(a: ControlConn, b: ControlConn)
    requires ReadsFrom(a, b) && QuietAfterFailure(b.calls)
    ensures |b.heard| <= |a.written|
    ensures b.delivered + b.readBuf == Flatten(a.written[..|b.heard|]) <= Flatten(a.written)
    ensures b.inbox == [] && NoFailure(b.calls) ==> b.delivered + b.readBuf == Flatten(a.written)
  {
    HeardOfSent(a, b);
    InitialIff(b.calls);
    InitialIsPrefix(a.written, b.picked);
    hide Datagrams, Payloads, Accepted, Acks, Actions, PickedBy, UsedBy, Flatten, QuietAfterFailure, NoFailure;
    assert b.inbox == [] && |b.heard| == |b.consumed| ==> a.written[..|b.heard|] == a.written;
  }

  /**
   * And only so long: the bytes returned and buffered are those of the chunks heard, and they are a prefix of what
   * was written whatever that was, exactly if no Read hears anything after one that ended with a failed
   * acknowledgement.
   */
  lemma BytesIntactIff(a: ControlConn, b: ControlConn)
    requires ReadsFrom(a, b)
    ensures Increasing(b.picked, |a.written|) && b.delivered + b.readBuf == Flatten(Picked(a.written, b.picked))
    ensures (forall chunks :: Sendable(chunks, |a.written|) ==> ReadsPrefix(chunks, b.picked))
       <==> QuietAfterFailure(b.calls)
  {
    HeardOfSent(a, b);
    InitialIff(b.calls);
    PrefixForAllIff(b.picked, |a.written|);
    hide Datagrams, Payloads, Accepted, Picks, PickedBy, UsedBy, Flatten, QuietAfterFailure, Sendable, ReadsPrefix;
  }

  // ----- failed acknowledgements -----

  ghost predicate IsCarrier(e: Event, sid: SessionID) {
    exists id: Word32, chunk: seq<byte> :: e == Datagram(CarrierBytes(sid, id, chunk))
  }

  lemma DatagramsAreCarriers(sid: SessionID, id: Word32, chunks: seq<seq<byte>>, i: nat)
    requires i < |chunks|
    ensures IsCarrier(AsEvents(Datagrams(sid, id, chunks))[i], sid)
  {
    hide CarrierBytes;
    DatagramAt(sid, id, chunks, i);
  }

  lemma CarrierIsData(e: Event, sid: SessionID, peerSID: SessionID)
    requires IsCarrier(e, sid)
    ensures VerdictOf(e, peerSID, sid).Data?
  {
    hide CarrierBytes, Classify;
    var id: Word32, chunk: seq<byte> :| e == Datagram(CarrierBytes(sid, id, chunk));
    CarrierAccepted(sid, id, chunk, peerSID);
  }

  /** Data packets are accepted one for one. */
  lemma {:induction false} CarriersAccepted(events: seq<Event>, sid: SessionID, peerSID: SessionID)
    requires forall i :: 0 <= i < |events| ==> IsCarrier(events[i], sid)
    ensures |Accepted(events, peerSID, sid)| == |events|
    ensures forall i :: 0 <= i < |events| ==> Accepted(events, peerSID, sid)[i] == VerdictOf(events[i], peerSID, sid)
  {
    hide IsCarrier, VerdictOf;
    if events != [] {
      var n := |events| - 1;
      CarriersAccepted(events[..n], sid, peerSID);
      CarrierIsData(events[n], sid, peerSID);
    }
  }

  /** A data packet is determined by its number and payload. */
  lemma CarrierOfVerdict(d: Event, e: Event, sid: SessionID, peerSID: SessionID)
    requires IsCarrier(d, sid) && IsCarrier(e, sid) && VerdictOf(d, peerSID, sid) == VerdictOf(e, peerSID, sid)
    ensures d == e
  {
    var i: Word32, c: seq<byte> :| d == Datagram(CarrierBytes(sid, i, c));
    var j: Word32, b: seq<byte> :| e == Datagram(CarrierBytes(sid, j, b));
    CarrierAccepted(sid, i, c, peerSID);
    CarrierAccepted(sid, j, b, peerSID);
    hide CarrierBytes, Classify;
  }

  /** Of data packets, the ones accepted are the first ones sent exactly if the ones heard are. */
  lemma FirstPacketsIff(heard: seq<Event>, all: seq<Event>, sid: SessionID, peerSID: SessionID)
    requires |heard| <= |all|
    requires forall i :: 0 <= i < |heard| ==> IsCarrier(heard[i], sid)
    requires forall i :: 0 <= i < |all| ==> IsCarrier(all[i], sid)
    ensures Accepted(heard, peerSID, sid) == Accepted(all[..|heard|], peerSID, sid) <==> heard == all[..|heard|]
  {
    hide Accepted, VerdictOf, IsCarrier;
    var first := all[..|heard|];
    CarriersAccepted(heard, sid, peerSID);
    CarriersAccepted(first, sid, peerSID);
    if Accepted(heard, peerSID, sid) == Accepted(first, peerSID, sid) {
      forall i | 0 <= i < |heard|
        ensures heard[i] == first[i]
      {
        CarrierOfVerdict(heard[i], first[i], sid, peerSID);
      }
    }
  }

  /**
   * With failed acknowledgements: the packets accepted are the first packets sent exactly while nothing was heard
   * after an event that was lost to one.
   */
  lemma StreamIntactIff(a: ControlConn, b: ControlConn)
    requires ReadsFrom(a, b)
    ensures |b.heard| <= |b.consumed| <= |AsEvents(a.sent)|
    ensures b.accepted == Accepted(AsEvents(a.sent)[..|b.heard|], b.localSID, b.remoteSID)
       <==> b.heard == b.consumed[..|b.heard|]
  {
    SentFacts(a, b);
    hide ReadsFrom, Datagrams, Accepted, IsCarrier, AsEvents;
    var sid, n, all := a.localSID, |b.heard|, AsEvents(a.sent);
    forall i | 0 <= i < |all|
      ensures IsCarrier(all[i], sid)
    {
      DatagramsAreCarriers(sid, 1, a.written, i);
    }
    FirstPacketsIff(b.heard, all, sid, b.localSID);
  }

  lemma SentFacts(a: ControlConn, b: ControlConn)
    requires ReadsFrom(a, b)
    ensures b.remoteSID == a.localSID && a.sent == Datagrams(a.localSID, 1, a.written)
    ensures |AsEvents(a.sent)| == |a.written|
    ensures b.accepted == Accepted(b.heard, b.localSID, b.remoteSID)
    ensures |b.heard| <= |b.consumed| <= |AsEvents(a.sent)|
    ensures b.consumed[..|b.heard|] == AsEvents(a.sent)[..|b.heard|]
    ensures forall i :: 0 <= i < |b.heard| ==> b.heard[i] in AsEvents(a.sent)
  {
    InitialIff(b.calls);
    HeardOfSent(a, b);
    hide Datagrams, Accepted, Consistent, PickedBy, UsedBy, QuietAfterFailure, NoFailure, Flatten, Picked, Initial;
    SameStart(b.consumed, b.inbox, |b.heard|);
    PickedAmong(b.heard, AsEvents(a.sent), b.picked);
    hide Picks, Increasing, FailuresUse;
  }

  lemma SameStart(consumed: seq<Event>, inbox: seq<Event>, n: nat)
    requires n <= |consumed|
    ensures (consumed + inbox)[..n] == consumed[..n]
  {
  }

  lemma PickedAmong(heard: seq<Event>, all: seq<Event>, picked: seq<nat>)
    requires Picks(heard, all, picked)
    ensures forall i :: 0 <= i < |heard| ==> heard[i] in all
  {
  }

  /** The two datagrams of two one-byte writes. */
  lemma TwoDatagrams(sid: SessionID)
    ensures Datagrams(sid, 1, [[1], [2]]) == [CarrierBytes(sid, 1, [1]), CarrierBytes(sid, 2, [2])]
  {
    hide *;
    var one: seq<byte>, two: seq<byte> := [1], [2];
    FirstIds(sid);
    DatagramsNext(sid, [], one);
    DatagramsNext(sid, [one], two);
    assert [] + [one] == [one] && [one] + [two] == [one, two];
  }

  lemma FirstIds(sid: SessionID)
    ensures Datagrams(sid, 1, []) == [] && IdAfter(1, 0) == 1 && IdAfter(1, 1) == 2
  {
  }

  lemma TwoEvents(sid: SessionID, first: Event, second: Event)
    requires first == Datagram(CarrierBytes(sid, 1, [1])) && second == Datagram(CarrierBytes(sid, 2, [2]))
    ensures AsEvents(Datagrams(sid, 1, [[1], [2]])) == [first, second]
  {
    TwoDatagrams(sid);
    hide Datagrams, CarrierBytes;
  }

  lemma TwoBytes()
    ensures Flatten([[1], [2]]) == [1, 2]
  {
    var cs: seq<seq<byte>> := [[1], [2]];
    assert cs[1..] == [[2]] && cs[1..][1..] == [];
    assert Flatten(cs[1..]) == [2];
  }

  lemma ScanOne(events: seq<Event>, ok: nat -> bool, v: Verdict, localSID: SessionID, remoteSID: SessionID)
    requires events != [] && events[0].Datagram? && VerdictOf(events[0], localSID, remoteSID) == v && v.Data?
    requires v.payload != []
    ensures Scan(events, ok, 0, localSID, remoteSID) == Reading(1, if ok(0) then GotBytes else AckFailed)
  {
    hide VerdictOf;
  }

  function Never(i: nat): bool {
    false
  }

  function Always(i: nat): bool {
    true
  }

  /** How the peer reads the two datagrams, the first one's acknowledgement failing. */
  lemma PastFailedAck(first: Event, second: Event, localSID: SessionID, remoteSID: SessionID)
    requires first == Datagram(CarrierBytes(remoteSID, 1, [1])) && second == Datagram(CarrierBytes(remoteSID, 2, [2]))
    ensures Scan([first, second], Never, 0, localSID, remoteSID) == Reading(1, AckFailed)
    ensures Scan([second], Always, 0, localSID, remoteSID) == Reading(1, GotBytes)
    ensures Payloads(Accepted([second], localSID, remoteSID)) == [2]
    ensures HeardOf(Reading(1, AckFailed)) == 0 && HeardOf(Reading(1, GotBytes)) == 1
  {
    hide CarrierBytes, Classify, Scan, Payloads, Accepted;
    CarrierAccepted(remoteSID, 1, [1], localSID);
    CarrierAccepted(remoteSID, 2, [2], localSID);
    assert !Never(0) && Always(0);
    ScanOne([first, second], Never, Data(1, [1]), localSID, remoteSID);
    ScanOne([second], Always, Data(2, [2]), localSID, remoteSID);
    OneAccepted(second, Data(2, [2]), localSID, remoteSID);
  }

  lemma OneAccepted(e: Event, v: Verdict, localSID: SessionID, remoteSID: SessionID)
    requires v == VerdictOf(e, localSID, remoteSID) && v.Data?
    ensures Payloads(Accepted([e], localSID, remoteSID)) == v.payload
  {
    hide VerdictOf;
    AcceptedOne([], e, localSID, remoteSID);
    assert [] + [e] == [e] && [] + [v] == [v];
    PayloadsNext([], v);
  }

  /** After a failed acknowledgement a later Read returns the bytes behind the lost ones: no prefix of those written. */
  method ReadPastFailedAck(localSID: SessionID, remoteSID: SessionID) returns (data: seq<byte>, conn: ControlConn)
    ensures conn.Valid() && conn.Session() && conn.localSID == localSID && conn.remoteSID == remoteSID
    ensures conn.consumed + conn.inbox == AsEvents(Datagrams(remoteSID, 1, [[1], [2]]))
    ensures conn.calls == [Reading(1, AckFailed), Reading(1, GotBytes)]
    ensures data == [2] && !(data <= Flatten([[1], [2]]))
  {
    hide *;
    var first, second := Datagram(CarrierBytes(remoteSID, 1, [1])), Datagram(CarrierBytes(remoteSID, 2, [2]));
    PastFailedAck(first, second, localSID, remoteSID);
    TwoEvents(remoteSID, first, second);
    conn := new ControlConn(localSID, remoteSID, [first, second]);
    var end;
    ghost var used;
    data, end, used := conn.Read(10, Never);
    assert conn.inbox == [second] && conn.heard == [] && conn.calls == [Reading(1, AckFailed)];
    data, end, used := conn.Read(10, Always);
    assert conn.heard == [second];
    BytesOf(conn);
    TwoBytes();
    assert conn.delivered == data && |data + conn.readBuf| == 1;
    assert data + [] == data;
    assert data[0] == 2 && Flatten([[1], [2]])[0] == 1;
  }

  lemma BytesOf(c: ControlConn)
    requires c.Valid()
    ensures c.delivered + c.readBuf == Payloads(Accepted(c.heard, c.localSID, c.remoteSID))
  {
    hide Payloads, Accepted, Acks, Actions;
  }

  /** An acknowledgement is itself a pure ACK for exactly the packet it answers. */
  lemma AckMeans(id: Word32, localSID: SessionID, remoteSID: SessionID)
    ensures Parse(AckBytesFor(id, localSID, remoteSID)) == Ok(Packet(OP_ACK, 0, localSID, [id], Some(remoteSID), 0, []))
  {
    ParseMarshal(Packet(OP_ACK, 0, localSID, [id], Some(remoteSID), 0, []));
  }
}
