/** receiveVPN over the flow tables: whom a tunnelled reply is handed to, in every reachable state. */
module FlowDelivery {
  import opened Bytes
  import opened PacketNat
  import opened NatChecksums
  import opened NatRoundTrip
  import opened FlowTables
  import FlowSystem

  /** The flow a tunnelled packet is looked up to, if any. */
  function Recipient(t: Tables, packet: seq<byte>): Option<Entry> {
    var rk := ReverseKeyOfInbound(packet);
    if rk.Some? && rk.value in t.reverse then Some(t.reverse[rk.value]) else None
  }

  /** What becomes of a tunnelled packet: the flow's own packet, nothing, or the end of the process. */
  function Delivered(t: Tables, packet: seq<byte>): Passage {
    var f := Recipient(t, packet);
    if f.None? then Dropped else Inbound(packet, f.value.key.localIP)
  }

  /** Whatever arrives, in any reachable state: only a live flow is looked up, and it is made a packet of its own. */
  lemma DeliveredToItsFlow(run: seq<FlowSystem.State>, steps: seq<FlowSystem.Step>, vpnPort: Word16, n: nat,
                           packet: seq<byte>)
    requires FlowSystem.IsRun(run, steps, vpnPort) && n < |run| && |packet| <= MAX_PACKET
    requires Delivered(run[n].tables, packet).Sent?
    ensures var t := run[n].tables; var f := Recipient(t, packet).value;
      && f.id in t.flows && t.flows[f.id] == f && !f.ipv6Drop
      && ParseFlow(Delivered(t, packet).packet, false) == Flow(f.key)
      && Verifies(Delivered(t, packet).packet)
  {
    hide ParseFlow, Inbound, Verifies;
    var t := run[n].tables;
    var f := Recipient(t, packet).value;
    FlowSystem.RunKeepsInv(run, steps, vpnPort, n);
    assert ReverseOk(t, ReverseKeyOfFlow(f.key));
    var k := ParseFlow(packet, false).key;
    InboundFlow(packet, k, f.key.localIP);
    ReverseKeyForgetsLocalAddress(k, f.key);
  }

  /**
   * While no two live flows have shared a reverse key, the reply to a packet of a live flow, sent through the tunnel,
   * is looked up to that flow and reaches the application as a packet of that flow whenever the rewrite accepts it.
   */
  lemma ReplyReachesItsFlow(run: seq<FlowSystem.State>, steps: seq<FlowSystem.Step>, vpnPort: Word16, n: nat,
                            id: FlowId, p: seq<byte>, vpn: IPv4, reply: seq<byte>)
    requires FlowSystem.IsRun(run, steps, vpnPort) && n < |run|
    requires forall i :: 0 <= i <= n ==> NoSharing(run[i].tables)
    requires id in run[n].tables.flows && !run[n].tables.flows[id].ipv6Drop
    requires ParseFlow(p, true) == Flow(run[n].tables.flows[id].key) && Outbound(p, vpn).Sent?
    requires Mirrors(reply, Outbound(p, vpn).packet) && |p| <= MAX_PACKET && |reply| <= MAX_PACKET
    ensures var t := run[n].tables;
      && Recipient(t, reply) == Some(t.flows[id])
      && Delivered(t, reply) == Inbound(reply, t.flows[id].key.localIP)
      && (Delivered(t, reply).Sent? ==> ParseFlow(Delivered(t, reply).packet, false) == Flow(t.flows[id].key))
  {
    hide ParseFlow, Inbound, Verifies, Mirrors, Outbound;
    FlowSystem.RunFound(run, steps, vpnPort, n);
    RoundTrip(p, run[n].tables.flows[id].key, vpn, reply);
  }

  // ----- a packet that ends the process -----

  /** A packet from the tunnel ends the process exactly when some flow is looked up and its lengths cross. */
  lemma DeliveryCrashesIff(t: Tables, packet: seq<byte>)
    ensures Delivered(t, packet) == Crashed <==> Recipient(t, packet).Some? && CrossedLengths(packet)
  {
    var f := Recipient(t, packet);
    if f.Some? {
      InboundCrashesIff(packet, f.value.key.localIP);
    }
  }

  /** 24 bytes from the remote end of a flow: a 20-byte header that gives the total length as 1, and the two ports. */
  function CrossedReply(k: FlowKey): seq<byte> {
    [0x45, 0, 0, 1, 0, 0, 0, 0, 64, k.protocol, 0, 0] + k.remoteIP + k.localIP + BE16(k.remotePort) + BE16(k.localPort)
  }

  lemma CrossedReplyFields(k: FlowKey)
    requires k.protocol in {6, 17}
    ensures CrossedLengths(CrossedReply(k)) && ReverseKeyOfInbound(CrossedReply(k)) == Some(ReverseKeyOfFlow(k))
  {
    var p := CrossedReply(k);
    assert p[12..16] == k.remoteIP && p[16..20] == k.localIP;
    BE16RoundTrip(k.remotePort);
    BE16RoundTrip(k.localPort);
    assert p[20..22] == BE16(k.remotePort) && p[22..24] == BE16(k.localPort);
    assert Get16(p, 20) == k.remotePort && Get16(p, 22) == k.localPort;
  }

  /** For any flow that its replies find, one such packet ends the process. */
  lemma ReplyCrashes(t: Tables, id: FlowId)
    requires FlowsAgree(t) && Found(t) && id in t.flows && !t.flows[id].ipv6Drop
    ensures Recipient(t, CrossedReply(t.flows[id].key)) == Some(t.flows[id])
    ensures Delivered(t, CrossedReply(t.flows[id].key)) == Crashed
  {
    var packet := CrossedReply(t.flows[id].key);
    CrossedReplyFields(t.flows[id].key);
    DeliveryCrashesIff(t, packet);
    hide CrossedReply, CrossedLengths;
  }

  /** A run of two steps whose live flow does so. */
  lemma CrashHappens(f: Entry, vpnPort: Word16) returns (run: seq<FlowSystem.State>, steps: seq<FlowSystem.Step>)
    requires EntryOk(f) && !f.shared && !f.ipv6Drop && f.handle == 0
    ensures FlowSystem.IsRun(run, steps, vpnPort) && |run| == 3
    ensures f.id in run[2].tables.flows && run[2].tables.flows[f.id] == f
    ensures Delivered(run[2].tables, CrossedReply(f.key)) == Crashed
  {
    var rk := ReverseKeyOfFlow(f.key);
    var one := EMPTY.(flows := map[f.id := f], reverse := map[rk := f]);
    assert Install(EMPTY, f) == one;
    steps := [FlowSystem.Open(0, f), FlowSystem.InstallOpened(0)];
    run := [
      FlowSystem.INITIAL,
      FlowSystem.State(EMPTY, 1, map[0 := FlowSystem.Installing(f)], []),
      FlowSystem.State(one, 1, map[], [])];
    ReplyCrashes(one, f.id);
  }
}
