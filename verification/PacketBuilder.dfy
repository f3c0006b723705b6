/** dataprobe.go: a second checksum routine, a UDP packet builder and a DNS reply parser, beside packetnat.go. */
module PacketBuilder {
  import opened Bytes
  import opened Checksum
  import opened PacketNat
  import opened NatChecksums

  // ----- the second checksum routine -----

  /** One pass over a shrinking slice: the same checksum as ChecksumWords followed by FinishChecksum. */
  method Checksum16(data: seq<byte>) returns (csum: Word16)
    ensures csum == Finish(Accumulate(data, 0))
  {
    hide Accumulate;
    var b := data;
    var sum: Word32 := 0;
    while |b| >= 2
      invariant Accumulate(b, sum) == Accumulate(data, 0)
    {
      AddWord(b, sum);
      sum := (sum + Get16(b, 0)) % WRAP32;
      b := b[2..];
    }
    AddLast(b, sum);
    if |b| == 1 {
      sum := (sum + b[0] as int * 0x100) % WRAP32;
    }
    ghost var total := sum;
    hide WordSum;
    while sum / 0x1_0000 != 0
      invariant Fold(sum) == Fold(total)
      decreases sum
    {
      sum := sum % 0x1_0000 + sum / 0x1_0000;
    }
    csum := 0xffff - sum;
  }

  // ----- the builder -----

  datatype Datagram = Datagram(
    src: IPv4,
    dst: IPv4,
    srcPort: Word16,
    dstPort: Word16,
    payload: seq<byte>,
    ipID: Word16)
  {
    function Total(): nat {
      28 + |payload|
    }
  }

  /** The header up to the addresses, with a blank checksum. */
  function Fields(d: Datagram): (r: seq<byte>)
    requires d.Total() <= MAX_PACKET
    ensures |r| == 12
  {
    [0x45, 0] + BE16(d.Total()) + BE16(d.ipID) + BE16(0x4000) + [64, 17, 0, 0]
  }

  function BlankHeader(d: Datagram): (r: seq<byte>)
    requires d.Total() <= MAX_PACKET
    ensures |r| == 20
  {
    Fields(d) + d.src + d.dst
  }

  function Header(d: Datagram): (r: seq<byte>)
    requires d.Total() <= MAX_PACKET
    ensures |r| == 20
  {
    Put16(BlankHeader(d), 10, Finish(Accumulate(BlankHeader(d), 0)))
  }

  function UdpHeader(d: Datagram): (r: seq<byte>)
    requires d.Total() <= MAX_PACKET
    ensures |r| == 8
  {
    BE16(d.srcPort) + BE16(d.dstPort) + BE16(8 + |d.payload|) + [0, 0]
  }

  function Build(d: Datagram): (r: seq<byte>)
    requires d.Total() <= MAX_PACKET
    ensures |r| == d.Total()
  {
    Header(d) + UdpHeader(d) + d.payload
  }

  /** The header fields; the checksum field keeps its zeros. */
  method WriteFields(pkt: array<byte>, d: Datagram)
    requires d.Total() <= MAX_PACKET && pkt.Length == d.Total() && pkt[10] == 0 && pkt[11] == 0
    modifies pkt
    ensures pkt[..12] == Fields(d)
    ensures pkt[12..] == old(pkt[12..])
  {
    pkt[0], pkt[1] := 0x45, 0;
    pkt[2], pkt[3] := d.Total() / 0x100, d.Total() % 0x100;
    pkt[4], pkt[5] := d.ipID / 0x100, d.ipID % 0x100;
    pkt[6], pkt[7] := 0x40, 0;
    pkt[8], pkt[9] := 64, 17;
  }

  method WriteBlankHeader(pkt: array<byte>, d: Datagram)
    requires d.Total() <= MAX_PACKET && pkt.Length == d.Total() && pkt[10] == 0 && pkt[11] == 0
    modifies pkt
    ensures pkt[..20] == BlankHeader(d)
    ensures pkt[20..] == old(pkt[20..])
  {
    WriteFields(pkt, d);
    hide Fields;
    ghost var p := pkt[..];
    CopyAddress(pkt, SOURCE, d.src);
    CopyAddress(pkt, DESTINATION, d.dst);
    AddressesPlaced(p, d.src, d.dst);
    assert pkt[20..] == pkt[..][20..] && pkt[..20] == pkt[..][..20] && p[..12] == Fields(d);
  }

  lemma AddressesPlaced(p: seq<byte>, src: IPv4, dst: IPv4)
    requires |p| >= 20
    ensures var q := SetAddress(SetAddress(p, SOURCE, src), DESTINATION, dst);
      q[..20] == p[..12] + src + dst && q[20..] == p[20..]
  {
  }

  method WriteIPv4Header(pkt: array<byte>, d: Datagram)
    requires d.Total() <= MAX_PACKET && pkt.Length == d.Total() && pkt[10] == 0 && pkt[11] == 0
    modifies pkt
    ensures pkt[..20] == Header(d)
    ensures pkt[20..] == old(pkt[20..])
  {
    WriteBlankHeader(pkt, d);
    hide BlankHeader, Finish, Accumulate;
    var csum := Checksum16(pkt[..20]);
    pkt[10], pkt[11] := csum / 0x100, csum % 0x100;
  }

  method WriteUdp(pkt: array<byte>, d: Datagram)
    requires d.Total() <= MAX_PACKET && pkt.Length == d.Total()
    modifies pkt
    ensures pkt[..20] == old(pkt[..20])
    ensures pkt[20..28] == UdpHeader(d)
    ensures pkt[28..] == d.payload
  {
    var n := 8 + |d.payload|;
    pkt[20], pkt[21] := d.srcPort / 0x100, d.srcPort % 0x100;
    pkt[22], pkt[23] := d.dstPort / 0x100, d.dstPort % 0x100;
    pkt[24], pkt[25] := n / 0x100, n % 0x100;
    pkt[26], pkt[27] := 0, 0;
    for i := 0 to |d.payload|
      invariant pkt[..20] == old(pkt[..20]) && pkt[20..28] == UdpHeader(d)
      invariant forall k :: 0 <= k < i ==> pkt[28 + k] == d.payload[k]
    {
      pkt[28 + i] := d.payload[i];
    }
    assert |pkt[28..]| == |d.payload|;
    assert forall k :: 0 <= k < |d.payload| ==> pkt[28..][k] == pkt[28 + k] == d.payload[k];
  }

  /** src and dst are None where the address has no IPv4 form. */
  method BuildIPv4Udp(src: Option<IPv4>, dst: Option<IPv4>, srcPort: Word16, dstPort: Word16,
                      payload: seq<byte>, ipID: Word16)
    returns (r: Option<array<byte>>)
    ensures r.None? <==> src.None? || dst.None? || 28 + |payload| > MAX_PACKET
    ensures r.Some? ==> fresh(r.value)
    ensures r.Some? ==> r.value[..] == Build(Datagram(src.value, dst.value, srcPort, dstPort, payload, ipID))
  {
    if src.None? || dst.None? || 28 + |payload| > MAX_PACKET {
      return None;
    }
    var d := Datagram(src.value, dst.value, srcPort, dstPort, payload, ipID);
    var pkt := new byte[d.Total()](_ => 0);
    WriteIPv4Header(pkt, d);
    WriteUdp(pkt, d);
    hide Header, UdpHeader;
    assert pkt[..] == pkt[..20] + pkt[20..28] + pkt[28..];
    r := Some(pkt);
  }

  // ----- agreement with packetnat.go -----

  /** Every field of a built packet, where packetnat.go looks for it. */
  lemma BuiltFields(d: Datagram)
    requires d.Total() <= MAX_PACKET
    ensures var p := Build(d);
      && p[0] == 0x45 && p[9] == 17 && Get16(p, 2) == d.Total()
      && p[12..16] == d.src && p[16..20] == d.dst
      && Get16(p, 20) == d.srcPort && Get16(p, 22) == d.dstPort && Get16(p, 24) == 8 + |d.payload|
      && p[28..] == d.payload
  {
  }

  lemma BuiltShape(d: Datagram)
    requires d.Total() <= MAX_PACKET
    ensures var p := Build(d);
      TransportOk(p) && HeaderLen(p) == 20 && PacketLen(p) == d.Total() && ChecksumAt(p) == 26
  {
  }

  /** The flow of a built packet is the one it was built for. */
  lemma BuiltFlow(d: Datagram)
    requires d.Total() <= MAX_PACKET
    ensures ParseFlow(Build(d), true) == Flow(FlowKey(17, d.src, d.dst, d.srcPort, d.dstPort))
    ensures ParseFlow(Build(d), false) == Flow(FlowKey(17, d.dst, d.src, d.dstPort, d.srcPort))
  {
  }

  /** checksum16 wrote the header checksum that recalcIPv4TransportChecksums would write. */
  lemma BuiltHeaderChecksum(d: Datagram)
    requires d.Total() <= MAX_PACKET
    ensures HeaderOk(Build(d)) && WithHeaderChecksum(Build(d)) == Build(d)
  {
    var p, h, b := Build(d), Header(d), BlankHeader(d);
    BuiltShape(d);
    assert p[..20] == h;
    var z := Put16(p, 10, 0);
    SlicePut(p, 0, 20, 10, 0);
    assert p[0..20] == h && z[..20] == z[0..20];
    assert Put16(h, 10, 0) == b by {
      PutTwice(b, 10, Finish(Accumulate(b, 0)), 0);
      assert b[10] == 0 && b[11] == 0;
    }
    assert HeaderChecksum(p) == Finish(Accumulate(b, 0)) == Get16(h, 10) == Get16(p, 10);
    PutSame(p, 10);
  }

  lemma PutSame(p: seq<byte>, i: nat)
    requires i + 2 <= |p|
    ensures Put16(p, i, Get16(p, i)) == p
  {
  }

  /** Recomputing the checksums of a built packet only fills in the UDP checksum that the builder leaves out. */
  lemma RecalcFillsUdpChecksum(d: Datagram)
    requires d.Total() <= MAX_PACKET
    ensures RecalcStatus(Build(d)) == Done
    ensures Recalc(Build(d)) == Put16(Build(d), 26, TransportChecksum(Build(d)))
    ensures Verifies(Recalc(Build(d)))
  {
    BuiltShape(d);
    BuiltHeaderChecksum(d);
    RecalcVerifies(Build(d));
  }

  // ----- the DNS reply parser -----

  datatype Reply = Reply(
    sourceIP: IPv4,
    sourcePort: Word16,
    destPort: Word16,
    txID: Word16,
    rcode: byte,
    answers: Word16)

  datatype ReplyError =
    | NotIPv4Packet
    | BadIhl
    | BadTotal
    | NotUdp
    | BadUdpLength
    | WrongSource
    | WrongDest
    | WrongTx
    | NotResponse

  datatype ReplyResult = Accepted(reply: Reply) | Rejected(error: ReplyError)

  function ParseDnsReply(p: seq<byte>, wantTx: Word16, wantPort: Word16): ReplyResult {
    if |p| < 28 || p[0] / 0x10 != 4 then Rejected(NotIPv4Packet)
    else if HeaderLen(p) < 20 || |p| < HeaderLen(p) + 8 then Rejected(BadIhl)
    else if Get16(p, 2) < HeaderLen(p) + 8 || Get16(p, 2) > |p| then Rejected(BadTotal)
    else if p[9] != 17 then Rejected(NotUdp)
    else ParseUdp(p, p[HeaderLen(p)..Get16(p, 2)], wantTx, wantPort)
  }

  function ParseUdp(p: seq<byte>, udp: seq<byte>, wantTx: Word16, wantPort: Word16): ReplyResult
    requires |p| >= 28 && |udp| >= 8
  {
    var n := Get16(udp, 4);
    if n < 20 || n > |udp| then Rejected(BadUdpLength)
    else
      var flags := Get16(udp, 10);
      var r := Reply(p[12..16], Get16(udp, 0), Get16(udp, 2), Get16(udp, 8), flags % 0x10, Get16(udp, 14));
      if r.sourcePort != 53 then Rejected(WrongSource)
      else if r.destPort != wantPort then Rejected(WrongDest)
      else if r.txID != wantTx then Rejected(WrongTx)
      else if flags < 0x8000 then Rejected(NotResponse)
      else Accepted(r)
  }

  /** A reply that is accepted is, to packetnat.go, an inbound packet of the flow that asked. */
  lemma AcceptedReplyFlow(p: seq<byte>, wantTx: Word16, wantPort: Word16)
    requires ParseDnsReply(p, wantTx, wantPort).Accepted?
    ensures RecalcStatus(p) == Done && ParseFlow(p, false).Flow?
    ensures var key, r := ParseFlow(p, false).key, ParseDnsReply(p, wantTx, wantPort).reply;
      && key.protocol == 17 && key.remoteIP == r.sourceIP && key.remotePort == r.sourcePort == 53
      && key.localPort == r.destPort == wantPort && r.txID == wantTx
  {
  }

  /** The parser accepts a built datagram exactly when it is an answer from port 53 to the query that was asked. */
  lemma BuiltReplyParses(d: Datagram, wantTx: Word16, wantPort: Word16)
    requires d.Total() <= MAX_PACKET
    ensures ParseDnsReply(Build(d), wantTx, wantPort).Accepted?
       <==> |d.payload| >= 12 && d.srcPort == 53 && d.dstPort == wantPort
            && Get16(d.payload, 0) == wantTx && d.payload[2] >= 0x80
    ensures var r := ParseDnsReply(Build(d), wantTx, wantPort);
      r.Accepted? ==> r.reply == Reply(d.src, 53, wantPort, wantTx, Get16(d.payload, 2) % 0x10, Get16(d.payload, 6))
  {
    var p := Build(d);
    BuiltFields(d);
    var udp := p[20..];
    assert udp == p[20..d.Total()];
    assert forall k :: 0 <= k < |d.payload| ==> udp[8 + k] == p[28..][k] == d.payload[k];
  }

  // ----- in bytes -----

  /** Every byte of a built packet but the header checksum; the UDP checksum is left 0. */
  lemma BuiltInBytes(d: Datagram, total: Word16, udp: Word16)
    requires total == 28 + |d.payload| && udp == 8 + |d.payload|
    ensures var p := Build(d);
      && |p| == total
      && p[..10] == [0x45, 0, total / 0x100, total % 0x100, d.ipID / 0x100, d.ipID % 0x100, 0x40, 0, 64, 17]
      && p[12..16] == d.src && p[16..20] == d.dst
      && p[20..24] == [d.srcPort / 0x100, d.srcPort % 0x100, d.dstPort / 0x100, d.dstPort % 0x100]
      && p[24..28] == [udp / 0x100, udp % 0x100, 0, 0]
      && p[28..] == d.payload
  {
    BuiltFields(d);
    assert Build(d)[20..28] == UdpHeader(d);
    assert Build(d)[24..28] == UdpHeader(d)[4..8];
  }

  /** Which packets are taken for the reply, and what of it is read. */
  lemma ReplyInBytes(p: seq<byte>, wantTx: Word16, wantPort: Word16, r: Reply)
    ensures ParseDnsReply(p, wantTx, wantPort) == Accepted(r) <==>
        && |p| >= 28 && p[0] / 0x10 == 4 && p[9] == 17
        && var ihl: nat, total := p[0] % 0x10 * 4, p[2] as int * 0x100 + p[3];
           && 20 <= ihl && ihl + 20 <= total <= |p|
           && var n := p[ihl + 4] as int * 0x100 + p[ihl + 5];
              && 20 <= n <= total - ihl
              && r == Reply(p[12..16], p[ihl] as int * 0x100 + p[ihl + 1], p[ihl + 2] as int * 0x100 + p[ihl + 3],
                            p[ihl + 8] as int * 0x100 + p[ihl + 9], p[ihl + 11] % 0x10,
                            p[ihl + 14] as int * 0x100 + p[ihl + 15])
              && r.sourcePort == 53 && r.destPort == wantPort && r.txID == wantTx && p[ihl + 10] >= 0x80
  {
  }
}
