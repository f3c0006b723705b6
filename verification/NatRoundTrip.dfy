/** The two directions of the NAT together: what leaves through the tunnel, and what a reply turns back into. */
module NatRoundTrip {
  import opened Bytes
  import opened PacketNat
  import opened NatChecksums
  import opened MssClamp

  /** The MSS limit every capture loop uses. */
  const TUNNEL_MSS: Word16 := 1180

  datatype ReverseKey = ReverseKey(protocol: byte, remoteIP: IPv4, localPort: Word16, remotePort: Word16)

  function ReverseKeyOfFlow(k: FlowKey): ReverseKey {
    ReverseKey(k.protocol, k.remoteIP, k.localPort, k.remotePort)
  }

  function ReverseKeyOfInbound(p: seq<byte>): Option<ReverseKey> {
    match ParseFlow(p, false)
    case Flow(k) => Some(ReverseKey(k.protocol, k.remoteIP, k.localPort, k.remotePort))
    case NoFlow(_) => None
  }

  /** How a packet fares: sent on, refused with an error, or the end of the process in a slice panic. */
  datatype Passage = Sent(packet: seq<byte>) | Dropped | Crashed

  /** A step that panics takes the process down; any other failure only stops this packet. */
  function Failure(status: Status): Passage {
    if status == Panicked then Crashed else Dropped
  }

  /** What a capture loop does to an outbound packet: clamp, then rewrite the source. */
  function Outbound(p: seq<byte>, vpn: IPv4): Passage {
    var clamped := ClampStatus(p, TUNNEL_MSS);
    if clamped != Done then Failure(clamped)
    else
      var q := Clamp(p, TUNNEL_MSS);
      var rewritten := RewriteStatus(q, Some(vpn));
      if rewritten != Done then Failure(rewritten) else Sent(Rewrite(q, SOURCE, Some(vpn)))
  }

  /** What receiveVPN does to a reply: rewrite the destination, then clamp and ignore an error of that. */
  function Inbound(p: seq<byte>, local: IPv4): Passage {
    var rewritten := RewriteStatus(p, Some(local));
    if rewritten != Done then Failure(rewritten)
    else
      var q := Rewrite(p, DESTINATION, Some(local));
      if ClampStatus(q, TUNNEL_MSS) == Panicked then Crashed else Sent(Clamp(q, TUNNEL_MSS))
  }

  /** The reply answers the packet: one protocol, addresses and ports exchanged. */
  ghost predicate Mirrors(reply: seq<byte>, sent: seq<byte>) {
    && ParseFlow(reply, false).Flow?
    && ParseFlow(sent, true).Flow?
    && reply[9] == sent[9]
    && reply[12..16] == sent[16..20]
    && reply[16..20] == sent[12..16]
    && Get16(reply, HeaderLen(reply)) == Get16(sent, HeaderLen(sent) + 2)
    && Get16(reply, HeaderLen(reply) + 2) == Get16(sent, HeaderLen(sent))
  }

  // ----- edits that keep the flow key -----

  /** The bytes a flow key is read from. */
  ghost predicate SameFlowBytes(p: seq<byte>, q: seq<byte>) {
    && |p| == |q|
    && (|p| >= 20 ==>
      && p[0] == q[0]
      && p[9] == q[9]
      && p[12..20] == q[12..20]
      && (forall k :: 20 <= HeaderLen(p) <= k < HeaderLen(p) + 4 && k < |p| ==> p[k] == q[k]))
  }

  lemma SameFlow(p: seq<byte>, q: seq<byte>, outbound: bool)
    requires SameFlowBytes(p, q)
    ensures ParseFlow(p, outbound) == ParseFlow(q, outbound)
  {
    if |p| >= 20 {
      assert p[12..16] == p[12..20][..4] && q[12..16] == q[12..20][..4];
      assert p[16..20] == p[12..20][4..] && q[16..20] == q[12..20][4..];
    }
  }

  lemma RecalcKeepsFlow(p: seq<byte>, outbound: bool)
    ensures ParseFlow(Recalc(p), outbound) == ParseFlow(p, outbound)
  {
    RecalcFrame(p);
    SameFlow(p, Recalc(p), outbound);
  }

  lemma ClampKeepsFlow(p: seq<byte>, outbound: bool)
    ensures ParseFlow(Clamp(p, TUNNEL_MSS), outbound) == ParseFlow(p, outbound)
  {
    var q := Clamped(p, TUNNEL_MSS);
    ClampedKeepsShape(p, TUNNEL_MSS);
    SameFlow(p, q, outbound);
    RecalcKeepsFlow(q, outbound);
  }

  lemma SetAddressFlow(p: seq<byte>, outbound: bool, ip: IPv4)
    requires ParseFlow(p, outbound).Flow?
    ensures ParseFlow(SetAddress(p, if outbound then SOURCE else DESTINATION, ip), outbound)
         == Flow(ParseFlow(p, outbound).key.(localIP := ip))
  {
  }

  lemma RewriteFlow(p: seq<byte>, outbound: bool, ip: IPv4)
    requires ParseFlow(p, outbound).Flow?
    ensures ParseFlow(Rewrite(p, if outbound then SOURCE else DESTINATION, Some(ip)), outbound)
         == Flow(ParseFlow(p, outbound).key.(localIP := ip))
  {
    SetAddressFlow(p, outbound, ip);
    RecalcKeepsFlow(SetAddress(p, if outbound then SOURCE else DESTINATION, ip), outbound);
  }

  lemma RewriteVerifies(p: seq<byte>, at: nat, ip: IPv4)
    requires RewriteStatus(p, Some(ip)) == Done && at in {SOURCE, DESTINATION} && |p| <= MAX_PACKET
    ensures RecalcStatus(Rewrite(p, at, Some(ip))) == Done && Verifies(Rewrite(p, at, Some(ip)))
  {
    var moved := SetAddress(p, at, ip);
    SetAddressShape(p, at, ip);
    RecalcVerifies(moved);
    RecalcFrame(moved);
  }

  lemma ClampKeepsVerifying(p: seq<byte>)
    requires RecalcStatus(p) == Done && Verifies(p) && |p| <= MAX_PACKET
    ensures Verifies(Clamp(p, TUNNEL_MSS))
  {
    ClampedKeepsShape(p, TUNNEL_MSS);
    if Clamped(p, TUNNEL_MSS) != p {
      RecalcVerifies(Clamped(p, TUNNEL_MSS));
    }
  }

  // ----- each direction -----

  /** A tunnelled packet has the sender's flow key with the VPN address as its local end, and good checksums. */
  lemma OutboundFlow(p: seq<byte>, k: FlowKey, vpn: IPv4)
    requires ParseFlow(p, true) == Flow(k) && Outbound(p, vpn).Sent? && |p| <= MAX_PACKET
    ensures ParseFlow(Outbound(p, vpn).packet, true) == Flow(k.(localIP := vpn))
    ensures Verifies(Outbound(p, vpn).packet)
  {
    var q := Clamp(p, TUNNEL_MSS);
    ClampKeepsFlow(p, true);
    RewriteFlow(q, true, vpn);
    RewriteVerifies(q, SOURCE, vpn);
  }

  lemma InboundFlow(p: seq<byte>, k: FlowKey, local: IPv4)
    requires ParseFlow(p, false) == Flow(k) && Inbound(p, local).Sent? && |p| <= MAX_PACKET
    ensures ParseFlow(Inbound(p, local).packet, false) == Flow(k.(localIP := local))
    ensures Verifies(Inbound(p, local).packet)
  {
    var q := Rewrite(p, DESTINATION, Some(local));
    RewriteFlow(p, false, local);
    RewriteVerifies(p, DESTINATION, local);
    ClampKeepsFlow(q, false);
    ClampKeepsVerifying(q);
  }

  // ----- each direction, in bytes -----

  lemma OutboundParts(p: seq<byte>, vpn: IPv4)
    requires Outbound(p, vpn).Sent?
    ensures HeaderOk(Clamp(p, 1180)) && Outbound(p, vpn).packet == Rewrite(Clamp(p, 1180), SOURCE, Some(vpn))
  {
    hide Clamp, Clamped, ClampStatus, Rewrite;
  }

  lemma InboundParts(p: seq<byte>, local: IPv4)
    requires Inbound(p, local).Sent?
    ensures HeaderOk(p) && Inbound(p, local).packet == Clamp(Rewrite(p, DESTINATION, Some(local)), 1180)
  {
    hide Clamp, Clamped, ClampStatus, Rewrite;
  }

  lemma RewriteKeepsOptions(p: seq<byte>, at: nat, ip: IPv4)
    requires HeaderOk(p) && at in {SOURCE, DESTINATION} && TcpInBytes(p)
    ensures var q := Rewrite(p, at, Some(ip));
      TcpInBytes(q) && OptionBytes(q) == OptionBytes(p) && (SynInBytes(q) <==> SynInBytes(p))
  {
    var q := Rewrite(p, at, Some(ip));
    SynNames(p);
    SynNames(q);
    RewriteSameTcp(p, at, ip);
    hide Rewrite;
    SameTcpSameOptions(p, q);
  }

  /** Whatever SYN leaves, no MSS value in it is above 1180, and no other option of it has changed. */
  lemma OutboundOptions(p: seq<byte>, vpn: IPv4)
    requires Outbound(p, vpn).Sent? && TcpInBytes(p) && p[p[0] % 0x10 * 4 + 13] / 2 % 2 == 1
    ensures TcpInBytes(Outbound(p, vpn).packet)
    ensures ParseOptions(OptionBytes(Outbound(p, vpn).packet)) == ClampAll(ParseOptions(OptionBytes(p)), 1180)
  {
    OutboundParts(p, vpn);
    ClampInBytes(p, 1180);
    hide Outbound, Clamp, Rewrite, ParseOptions, ClampAll, TcpInBytes, OptionBytes;
    RewriteKeepsOptions(Clamp(p, 1180), SOURCE, vpn);
  }

  lemma InboundOptions(p: seq<byte>, local: IPv4)
    requires Inbound(p, local).Sent? && TcpInBytes(p) && p[p[0] % 0x10 * 4 + 13] / 2 % 2 == 1
    ensures TcpInBytes(Inbound(p, local).packet)
    ensures ParseOptions(OptionBytes(Inbound(p, local).packet)) == ClampAll(ParseOptions(OptionBytes(p)), 1180)
  {
    InboundParts(p, local);
    assert SynInBytes(p);
    hide Inbound, Clamp, Rewrite, ParseOptions, ClampAll, TcpInBytes, OptionBytes, SynInBytes;
    RewriteKeepsOptions(p, DESTINATION, local);
    ClampInBytes(Rewrite(p, DESTINATION, Some(local)), 1180);
  }

  /** What leaves: every packet that can be recalculated, of TCP only those with a complete header. */
  lemma SentIff(p: seq<byte>, ip: IPv4)
    ensures Outbound(p, ip).Sent? <==> RecalcStatus(p) == Done && (p[9] == 6 ==> TcpInBytes(p))
    ensures Inbound(p, ip).Sent? <==> RecalcStatus(p) == Done
  {
    ClampKeepsStatus(p);
    SynNames(p);
    InboundCrashesIff(p, ip);
    PanicsIff(p);
    VerdictInBytes(p, 1180);
    hide Clamp, Clamped, Rewrite, RecalcStatus, TcpInBytes, SynInBytes;
  }

  /** A byte the NAT may touch when it writes the address at bytes at to at + 3. */
  ghost predicate Touched(p: seq<byte>, at: nat, k: nat) {
    AddressOrSum(p, at, k) || MssValue(p, k)
  }

  ghost predicate AddressOrSum(p: seq<byte>, at: nat, k: nat) {
    && |p| >= 20
    && var t := k - p[0] % 0x10 * 4;
       || k == 10
       || k == 11
       || at <= k < at + 4
       || (p[9] == 6 && (t == 16 || t == 17))
       || (p[9] == 17 && (t == 6 || t == 7))
  }

  ghost predicate MssValue(p: seq<byte>, k: nat) {
    TcpInBytes(p) && SynInBytes(p) && IsMssByte(OptionBytes(p), k - p[0] % 0x10 * 4 - 20)
  }

  lemma SetAddressTouches(p: seq<byte>, at: nat, ip: IPv4, k: nat)
    requires HeaderOk(p) && at in {SOURCE, DESTINATION} && k < |p|
    ensures SetAddress(p, at, ip)[at..at + 4] == ip
    ensures SetAddress(p, at, ip)[k] != p[k] ==> at <= k < at + 4
  {
  }

  lemma RecalcTouches(p: seq<byte>, k: nat)
    requires HeaderOk(p) && k < |p|
    ensures |Recalc(p)| == |p| && Recalc(p)[12..16] == p[12..16] && Recalc(p)[16..20] == p[16..20]
    ensures Recalc(p)[0] == p[0] && Recalc(p)[9] == p[9]
    ensures Recalc(p)[k] != p[k] ==> forall at: nat :: AddressOrSum(p, at, k)
  {
    RecalcFrame(p);
    if Recalc(p)[k] != p[k] {
      ChangesInBytes(p, k);
    }
  }

  lemma RewriteTouches(p: seq<byte>, at: nat, ip: IPv4, k: nat)
    requires HeaderOk(p) && at in {SOURCE, DESTINATION} && k < |p|
    ensures var q := Rewrite(p, at, Some(ip));
      && |q| == |p| && q[at..at + 4] == ip && q[0] == p[0] && q[9] == p[9]
      && (q[k] != p[k] ==> AddressOrSum(p, at, k))
  {
    var moved := SetAddress(p, at, ip);
    SetAddressShape(p, at, ip);
    SetAddressTouches(p, at, ip, k);
    RecalcTouches(moved, k);
    hide Recalc, SetAddress;
  }

  /** Without an IPv4 address or packet nothing is written; with a bad header only the address is. */
  lemma RewriteRefuses(p: seq<byte>, at: nat, ip: IPv4)
    requires at in {SOURCE, DESTINATION}
    ensures RewriteStatus(p, None) == BadAddress && Rewrite(p, at, None) == p
    ensures if |p| >= 20 && p[0] / 0x10 == 4 then RewriteStatus(p, Some(ip)) == RecalcStatus(p)
            else RewriteStatus(p, Some(ip)) == BadAddress && Rewrite(p, at, Some(ip)) == p
    ensures RewriteStatus(p, Some(ip)) == BadHeaderLength ==> Rewrite(p, at, Some(ip)) == p[..at] + ip + p[at + 4..]
  {
    if |p| >= 20 {
      SetAddressShape(p, at, ip);
    }
  }

  lemma ClampTouches(p: seq<byte>, at: nat, k: nat)
    requires k < |p|
    ensures var q := Clamp(p, 1180); |q| == |p| && (q[k] != p[k] ==> Touched(p, at, k))
    ensures |p| >= 20 ==> Clamp(p, 1180)[0] == p[0] && Clamp(p, 1180)[9] == p[9]
  {
    ClampKeepsFields(p);
    hide Clamp, HasTcpHeader, TcpInBytes, OptionBytes, OptionsOf, SynInBytes, IsSyn, IsMssByte, ClampAll, ParseOptions,
         IsChecksumByte, AddressOrSum;
    if Clamp(p, 1180)[k] != p[k] {
      ClampFrame(p, 1180, k);
      ClampInBytes(p, 1180);
      SynNames(p);
      if IsChecksumByte(p, k) {
        ChecksumByteTouched(p, at, k);
      }
    }
  }

  lemma ClampKeepsFields(p: seq<byte>)
    ensures |Clamp(p, 1180)| == |p|
    ensures |p| >= 20 ==> Clamp(p, 1180)[0] == p[0] && Clamp(p, 1180)[9] == p[9]
  {
    ClampedKeepsShape(p, 1180);
    RecalcFrame(Clamped(p, 1180));
    hide Clamped, Recalc;
  }

  lemma ChecksumByteTouched(p: seq<byte>, at: nat, k: nat)
    requires IsChecksumByte(p, k)
    ensures AddressOrSum(p, at, k)
  {
  }

  lemma RewriteKeepsMss(p: seq<byte>, at: nat, ip: IPv4, k: nat)
    requires HeaderOk(p) && at in {SOURCE, DESTINATION} && MssValue(Rewrite(p, at, Some(ip)), k)
    ensures MssValue(p, k)
  {
    var q := Rewrite(p, at, Some(ip));
    RewriteTouches(p, at, ip, 0);
    assert p[9] == 6;
    RewriteSameTcp(p, at, ip);
    SameTcpSameMss(p, q, k);
  }

  lemma SameTcpSameMss(p: seq<byte>, q: seq<byte>, k: nat)
    requires SameTcp(p, q) && MssValue(q, k)
    ensures MssValue(p, k)
  {
    SynNames(p);
    SynNames(q);
    SameTcpSameOptions(q, p);
    hide HasTcpHeader, OptionsOf, OptionBytes, IsMssByte, TcpInBytes, SynInBytes, IsSyn;
  }

  lemma ClampKeepsAddresses(p: seq<byte>)
    requires HeaderOk(p)
    ensures |Clamp(p, 1180)| == |p| && Clamp(p, 1180)[16..20] == p[16..20]
  {
    var q := Clamped(p, 1180);
    ClampedKeepsShape(p, 1180);
    assert |q| == |p| && q[..20] == p[..20];
    assert q[16..20] == q[..20][16..] && p[16..20] == p[..20][16..];
    hide Clamped;
    RecalcTouches(q, 0);
    hide Recalc;
  }

  /** What leaves has the VPN address as its source and differs from what was captured in no other byte but these. */
  lemma OutboundBytes(p: seq<byte>, vpn: IPv4, k: nat)
    requires Outbound(p, vpn).Sent? && k < |p|
    ensures |Outbound(p, vpn).packet| == |p| && Outbound(p, vpn).packet[12..16] == vpn
    ensures Outbound(p, vpn).packet[k] != p[k] ==> Touched(p, 12, k)
  {
    OutboundParts(p, vpn);
    ClampTouches(p, 12, k);
    RewriteTouches(Clamp(p, 1180), SOURCE, vpn, k);
    hide Outbound, Clamp, Rewrite, MssValue;
  }

  lemma InboundAddress(p: seq<byte>, local: IPv4)
    requires Inbound(p, local).Sent?
    ensures |Inbound(p, local).packet| == |p| >= 20 && Inbound(p, local).packet[16..20] == local
  {
    InboundParts(p, local);
    var q := Rewrite(p, DESTINATION, Some(local));
    RewriteTouches(p, DESTINATION, local, 0);
    assert HeaderOk(q);
    hide Inbound, Rewrite, Clamp;
    ClampKeepsAddresses(q);
  }

  lemma InboundBytes(p: seq<byte>, local: IPv4, k: nat)
    requires Inbound(p, local).Sent? && k < |p|
    ensures |Inbound(p, local).packet| == |p| && Inbound(p, local).packet[16..20] == local
    ensures Inbound(p, local).packet[k] != p[k] ==> Touched(p, 16, k)
  {
    InboundParts(p, local);
    RewriteTouches(p, DESTINATION, local, k);
    var q := Rewrite(p, DESTINATION, Some(local));
    ClampTouches(q, 16, k);
    if MssValue(q, k) {
      RewriteKeepsMss(p, DESTINATION, local, k);
    }
    InboundAddress(p, local);
    hide Inbound, Clamp, Rewrite, MssValue;
  }

  // ----- when the process dies -----

  lemma RewriteKeepsStatus(p: seq<byte>, at: nat, ip: IPv4)
    requires IsIPv4(p) && at in {SOURCE, DESTINATION}
    ensures RecalcStatus(Rewrite(p, at, Some(ip))) == RecalcStatus(p)
  {
    SetAddressShape(p, at, ip);
    RecalcFrame(SetAddress(p, at, ip));
  }

  lemma ClampKeepsStatus(p: seq<byte>)
    ensures RecalcStatus(Clamp(p, TUNNEL_MSS)) == RecalcStatus(p)
    ensures IsIPv4(Clamp(p, TUNNEL_MSS)) <==> IsIPv4(p)
  {
    ClampedKeepsShape(p, TUNNEL_MSS);
    RecalcFrame(Clamped(p, TUNNEL_MSS));
  }

  /** An outbound packet ends the process exactly when its lengths cross and, for TCP, its header got past the clamp. */
  lemma OutboundCrashesIff(p: seq<byte>, vpn: IPv4)
    ensures Outbound(p, vpn) == Crashed <==> CrossedLengths(p) && (p[9] == 6 ==> HasTcpHeader(p))
  {
    PanicsIff(p);
    ClampPanicsIff(p, TUNNEL_MSS);
    ClampKeepsStatus(p);
    hide Clamp, Clamped, RecalcStatus, Rewrite;
  }

  /** A reply ends the process exactly when its lengths cross; after a successful rewrite the clamp cannot. */
  lemma InboundCrashesIff(p: seq<byte>, local: IPv4)
    ensures Inbound(p, local) == Crashed <==> CrossedLengths(p)
  {
    PanicsIff(p);
    if RewriteStatus(p, Some(local)) == Done {
      RewriteKeepsStatus(p, DESTINATION, local);
      var q := Rewrite(p, DESTINATION, Some(local));
      PanicsIff(q);
      ClampPanicsIff(q, TUNNEL_MSS);
    }
  }

  lemma MirrorFlow(reply: seq<byte>, sent: seq<byte>)
    requires Mirrors(reply, sent)
    ensures ParseFlow(reply, false) == ParseFlow(sent, true)
  {
  }

  /**
   * A reply to a tunnelled packet is found under the flow's reverse key. If its rewrite succeeds it becomes a packet
   * of that very flow; if its lengths cross it ends the process.
   */
  lemma RoundTrip(p: seq<byte>, k: FlowKey, vpn: IPv4, reply: seq<byte>)
    requires ParseFlow(p, true) == Flow(k) && Outbound(p, vpn).Sent?
    requires Mirrors(reply, Outbound(p, vpn).packet)
    requires |p| <= MAX_PACKET && |reply| <= MAX_PACKET
    ensures ReverseKeyOfInbound(reply) == Some(ReverseKeyOfFlow(k))
    ensures Inbound(reply, k.localIP).Sent? <==> RecalcStatus(reply) == Done
    ensures Inbound(reply, k.localIP).Sent? ==>
        && ParseFlow(Inbound(reply, k.localIP).packet, false) == Flow(k)
        && Verifies(Inbound(reply, k.localIP).packet)
    ensures Inbound(reply, k.localIP) == Crashed <==> CrossedLengths(reply)
  {
    OutboundFlow(p, k, vpn);
    MirrorFlow(reply, Outbound(p, vpn).packet);
    InboundCrashesIff(reply, k.localIP);
    PanicsIff(reply);
    if Inbound(reply, k.localIP).Sent? {
      InboundFlow(reply, k.(localIP := vpn), k.localIP);
    }
    hide Clamp, Clamped, Rewrite, Verifies;
  }

  /** A flow that answers under another reverse key is another flow: only the local address is forgotten. */
  lemma ReverseKeyForgetsLocalAddress(a: FlowKey, b: FlowKey)
    ensures ReverseKeyOfFlow(a) == ReverseKeyOfFlow(b) <==> a == b.(localIP := a.localIP)
  {
  }
}
