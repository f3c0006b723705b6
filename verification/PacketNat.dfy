/** packetnat.go: flow keys, in-place address rewriting, checksum recomputation and MSS clamping. */
module PacketNat {
  import opened Bytes
  import opened Checksum

  /** How a packet edit ends. Panicked is Go's run-time error for a slice whose bounds cross. */
  datatype Status =
    | Done
    | NotIPv4
    | BadHeaderLength
    | BadAddress
    | ShortTcp
    | ShortUdp
    | BadTcpHeader
    | UnsupportedProtocol
    | Panicked

  datatype FlowKey = FlowKey(
    protocol: byte,
    localIP: IPv4,
    remoteIP: IPv4,
    localPort: Word16,
    remotePort: Word16)

  datatype FlowResult = Flow(key: FlowKey) | NoFlow(error: Status)

  const SOURCE: nat := 12
  const DESTINATION: nat := 16

  predicate IsIPv4(p: seq<byte>) {
    |p| >= 20 && p[0] / 0x10 == 4
  }

  function HeaderLen(p: seq<byte>): nat
    requires |p| >= 20
  {
    p[0] % 0x10 * 4
  }

  /** The total-length field, replaced by the slice length when it is 0 or too large. */
  function PacketLen(p: seq<byte>): nat
    requires |p| >= 20
  {
    var total := Get16(p, 2);
    if total == 0 || total > |p| then |p| else total
  }

  predicate HasTransport(p: seq<byte>)
    requires |p| >= 20
  {
    p[9] == 6 || p[9] == 17
  }

  function ParseFlow(p: seq<byte>, outbound: bool): FlowResult {
    if !IsIPv4(p) then NoFlow(NotIPv4)
    else
      var ihl := HeaderLen(p);
      if ihl < 20 || |p| < ihl + 4 then NoFlow(BadHeaderLength)
      else if !HasTransport(p) then NoFlow(UnsupportedProtocol)
      else
        var src, dst := p[12..16], p[16..20];
        var sp, dp := Get16(p, ihl), Get16(p, ihl + 2);
        if outbound then Flow(FlowKey(p[9], src, dst, sp, dp))
        else Flow(FlowKey(p[9], dst, src, dp, sp))
  }

  /** Only complete headers of TCP and UDP have a flow; outbound its local end is the sender, inbound the receiver. */
  lemma FlowInBytes(p: seq<byte>, k: FlowKey)
    ensures ParseFlow(p, true) == Flow(k) <==>
        && |p| >= 20 && p[0] / 0x10 == 4 && (p[9] == 6 || p[9] == 17) && k.protocol == p[9]
        && k.localIP == p[12..16] && k.remoteIP == p[16..20]
        && var ihl: nat := p[0] % 0x10 * 4;
           && 20 <= ihl && ihl + 4 <= |p|
           && k.localPort == p[ihl] as int * 0x100 + p[ihl + 1]
           && k.remotePort == p[ihl + 2] as int * 0x100 + p[ihl + 3]
    ensures ParseFlow(p, false) == Flow(k) <==>
        ParseFlow(p, true) == Flow(FlowKey(k.protocol, k.remoteIP, k.localIP, k.remotePort, k.localPort))
  {
  }

  // ----- checksum recomputation -----

  /** The verdict of recalcIPv4TransportChecksums; it depends on header fields only. */
  function RecalcStatus(p: seq<byte>): Status {
    if !IsIPv4(p) then NotIPv4
    else if HeaderLen(p) < 20 || |p| < HeaderLen(p) then BadHeaderLength
    else if !HasTransport(p) then Done
    else if PacketLen(p) < HeaderLen(p) then Panicked
    else if p[9] == 6 && PacketLen(p) - HeaderLen(p) < 20 then ShortTcp
    else if p[9] == 17 && PacketLen(p) - HeaderLen(p) < 8 then ShortUdp
    else Done
  }

  /** The header is well formed, so its checksum field is written. */
  predicate HeaderOk(p: seq<byte>) {
    IsIPv4(p) && 20 <= HeaderLen(p) <= |p|
  }

  predicate TransportOk(p: seq<byte>) {
    HeaderOk(p) && HasTransport(p) && RecalcStatus(p) == Done
  }

  function HeaderSum(p: seq<byte>): Word32
    requires HeaderOk(p)
  {
    Accumulate(p[..HeaderLen(p)], 0)
  }

  /** The pseudo-header and the transport words from lo to hi, in a uint32. */
  function PseudoSum(p: seq<byte>, lo: nat, hi: nat): Word32
    requires 20 <= lo <= hi <= |p|
  {
    Accumulate(p[lo..hi], ((Accumulate(p[12..20], 0) + p[9]) % WRAP32 + (hi - lo)) % WRAP32)
  }

  function PseudoChecksum(p: seq<byte>, lo: nat, hi: nat, at: nat): Word16
    requires 20 <= lo <= at && at + 2 <= hi <= |p|
  {
    var csum := Finish(PseudoSum(Put16(p, at, 0), lo, hi));
    if p[9] == 17 && csum == 0 then 0xffff else csum
  }

  function TransportSum(p: seq<byte>): Word32
    requires TransportOk(p)
  {
    PseudoSum(p, HeaderLen(p), PacketLen(p))
  }

  /** Where the transport checksum sits in the packet. */
  function ChecksumAt(p: seq<byte>): nat
    requires TransportOk(p)
  {
    HeaderLen(p) + if p[9] == 6 then 16 else 6
  }

  function HeaderChecksum(p: seq<byte>): Word16
    requires HeaderOk(p)
  {
    Finish(HeaderSum(Put16(p, 10, 0)))
  }

  function TransportChecksum(p: seq<byte>): Word16
    requires TransportOk(p)
  {
    PseudoChecksum(p, HeaderLen(p), PacketLen(p), ChecksumAt(p))
  }

  function WithHeaderChecksum(p: seq<byte>): (r: seq<byte>)
    requires HeaderOk(p)
    ensures |r| == |p|
  {
    Put16(p, 10, HeaderChecksum(p))
  }

  function WithTransportChecksum(p: seq<byte>): (r: seq<byte>)
    ensures |r| == |p|
  {
    if TransportOk(p) then Put16(p, ChecksumAt(p), TransportChecksum(p)) else p
  }

  /** The packet recalcIPv4TransportChecksums leaves behind, whatever its verdict. */
  function Recalc(p: seq<byte>): (r: seq<byte>)
    ensures |r| == |p|
  {
    if HeaderOk(p) then WithTransportChecksum(WithHeaderChecksum(p)) else p
  }

  /** The fields that decide the verdict and the places of the checksums. */
  ghost predicate SameShape(p: seq<byte>, q: seq<byte>) {
    |p| == |q| && (|p| >= 20 ==> p[0] == q[0] && p[2] == q[2] && p[3] == q[3] && p[9] == q[9])
  }

  lemma ShapeDecides(p: seq<byte>, q: seq<byte>)
    requires SameShape(p, q)
    ensures RecalcStatus(p) == RecalcStatus(q) && (HeaderOk(p) <==> HeaderOk(q)) && (TransportOk(p) <==> TransportOk(q))
    ensures HeaderOk(p) ==> HeaderLen(p) == HeaderLen(q) && PacketLen(p) == PacketLen(q)
    ensures TransportOk(p) ==> ChecksumAt(p) == ChecksumAt(q)
  {
  }

  method PutUint16(packet: array<byte>, at: nat, v: Word16)
    requires at + 2 <= packet.Length
    modifies packet
    ensures packet[..] == Put16(old(packet[..]), at, v)
  {
    packet[at], packet[at + 1] := v / 0x100, v % 0x100;
  }

  method WriteHeaderChecksum(packet: array<byte>)
    requires HeaderOk(packet[..])
    modifies packet
    ensures packet[..] == WithHeaderChecksum(old(packet[..]))
  {
    var ihl := HeaderLen(packet[..]);
    PutUint16(packet, 10, 0);
    assert packet[..ihl] == packet[..][..ihl];
    var sum := ChecksumWords(packet[..ihl], 0);
    var csum := FinishChecksum(sum);
    PutUint16(packet, 10, csum);
  }

  method ComputePseudoSum(packet: array<byte>, ihl: nat, total: nat) returns (sum: Word32)
    requires 20 <= ihl <= total <= packet.Length
    ensures sum == PseudoSum(packet[..], ihl, total)
  {
    assert packet[12..20] == packet[..][12..20];
    assert packet[ihl..total] == packet[..][ihl..total];
    sum := ChecksumWords(packet[12..20], 0);
    sum := (sum + packet[9]) % WRAP32;
    sum := (sum + (total - ihl)) % WRAP32;
    sum := ChecksumWords(packet[ihl..total], sum);
  }

  method WriteTransportChecksum(packet: array<byte>, ihl: nat, total: nat, at: nat)
    requires 20 <= ihl <= at && at + 2 <= total <= packet.Length
    modifies packet
    ensures packet[..] == Put16(old(packet[..]), at, PseudoChecksum(old(packet[..]), ihl, total, at))
  {
    PutUint16(packet, at, 0);
    var sum := ComputePseudoSum(packet, ihl, total);
    var csum := FinishChecksum(sum);
    if packet[..][9] == 17 && csum == 0 {
      csum := 0xffff;
    }
    PutUint16(packet, at, csum);
  }

  method RecalcChecksums(packet: array<byte>) returns (status: Status)
    modifies packet
    ensures status == RecalcStatus(old(packet[..]))
    ensures packet[..] == Recalc(old(packet[..]))
  {
    if packet.Length < 20 || packet[0] / 0x10 != 4 {
      return NotIPv4;
    }
    var ihl: nat := packet[0] % 0x10 * 4;
    if ihl < 20 || packet.Length < ihl {
      return BadHeaderLength;
    }
    var total: nat := Get16(packet[..], 2);
    if total == 0 || total > packet.Length {
      total := packet.Length;
    }
    ShapeDecides(packet[..], WithHeaderChecksum(packet[..]));
    WriteHeaderChecksum(packet);
    status := RecalcTransport(packet, ihl, total);
  }

  /** The part after the header checksum. */
  method RecalcTransport(packet: array<byte>, ihl: nat, total: nat) returns (status: Status)
    requires HeaderOk(packet[..]) && ihl == HeaderLen(packet[..]) && total == PacketLen(packet[..])
    modifies packet
    ensures status == RecalcStatus(old(packet[..]))
    ensures packet[..] == WithTransportChecksum(old(packet[..]))
  {
    var proto := packet[9];
    if proto != 6 && proto != 17 {
      return Done;
    }
    if total < ihl {
      return Panicked;
    }
    if proto == 6 {
      if total - ihl < 20 {
        return ShortTcp;
      }
      WriteTransportChecksum(packet, ihl, total, ihl + 16);
    } else {
      if total - ihl < 8 {
        return ShortUdp;
      }
      WriteTransportChecksum(packet, ihl, total, ihl + 6);
    }
    return Done;
  }

  // ----- address rewriting -----

  function SetAddress(p: seq<byte>, at: nat, ip: IPv4): (r: seq<byte>)
    requires |p| >= 20 && at in {SOURCE, DESTINATION}
    ensures |r| == |p| && r[at..at + 4] == ip
  {
    p[..at] + ip + p[at + 4..]
  }

  function RewriteStatus(p: seq<byte>, ip: Option<IPv4>): Status {
    if ip.None? || !IsIPv4(p) then BadAddress else RecalcStatus(p)
  }

  function Rewrite(p: seq<byte>, at: nat, ip: Option<IPv4>): (r: seq<byte>)
    requires at in {SOURCE, DESTINATION}
    ensures |r| == |p|
  {
    if ip.None? || !IsIPv4(p) then p else Recalc(SetAddress(p, at, ip.value))
  }

  method CopyAddress(packet: array<byte>, at: nat, ip: IPv4)
    requires packet.Length >= 20 && at in {SOURCE, DESTINATION}
    modifies packet
    ensures packet[..] == SetAddress(old(packet[..]), at, ip)
  {
    packet[at], packet[at + 1], packet[at + 2], packet[at + 3] := ip[0], ip[1], ip[2], ip[3];
  }

  method RewriteSource(packet: array<byte>, ip: Option<IPv4>) returns (status: Status)
    modifies packet
    ensures status == RewriteStatus(old(packet[..]), ip)
    ensures packet[..] == Rewrite(old(packet[..]), SOURCE, ip)
  {
    if ip.None? || packet.Length < 20 || packet[0] / 0x10 != 4 {
      return BadAddress;
    }
    ShapeDecides(packet[..], SetAddress(packet[..], SOURCE, ip.value));
    CopyAddress(packet, SOURCE, ip.value);
    status := RecalcChecksums(packet);
  }

  method RewriteDestination(packet: array<byte>, ip: Option<IPv4>) returns (status: Status)
    modifies packet
    ensures status == RewriteStatus(old(packet[..]), ip)
    ensures packet[..] == Rewrite(old(packet[..]), DESTINATION, ip)
  {
    if ip.None? || packet.Length < 20 || packet[0] / 0x10 != 4 {
      return BadAddress;
    }
    ShapeDecides(packet[..], SetAddress(packet[..], DESTINATION, ip.value));
    CopyAddress(packet, DESTINATION, ip.value);
    status := RecalcChecksums(packet);
  }
}
