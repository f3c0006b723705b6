/**
 * receiveVPN beside the flow manager, under every interleaving: the flow is looked up under the lock and its handle
 * used after it, so the manager may remove the flow and close the handle in between.
 */
module FlowReceiver {
  import opened Bytes
  import opened PacketNat
  import opened NatChecksums
  import opened NatRoundTrip
  import opened FlowTables
  import opened FlowSystem
  import opened FlowDelivery
  import opened PacketBuilder

  /** Where receiveVPN is: at its read, with a rewritten packet for a flow it has looked up, returned, or dead. */
  datatype Receiver = Reading | Holding(flow: Entry, packet: seq<byte>) | Ended | Dead

  /** ports names the UDP port each capture handle was opened for; captureUDPPort keeps both for its lifetime. */
  datatype World = World(base: State, ports: map<Handle, Word16>, receiver: Receiver)

  const START: World := World(INITIAL, map[], Reading)

  datatype Move =
    | Manage(step: Step)              // any step of the manager
    | Lookup(packet: seq<byte>)       // windows_discord.go:588-602
    | Inject(ok: bool)                // 604-607

  /** A send on a closed handle fails; ok says whether one on an open handle succeeds. */
  ghost predicate CanMove(w: World, move: Move, vpnPort: Word16) {
    && w.receiver != Dead
    && match move
       case Manage(step) =>
         && Enabled(w.base, step, vpnPort)
         && (step.InstallShared? ==> OfPort(w.ports, step.flow))
       case Lookup(_) => w.receiver == Reading
       case Inject(_) => w.receiver.Holding?
  }

  predicate OfPort(ports: map<Handle, Word16>, f: Entry) {
    f.handle in ports && ports[f.handle] == f.key.localPort
  }

  ghost function Moved(w: World, move: Move, vpnPort: Word16): World
    requires CanMove(w, move, vpnPort)
  {
    match move
    case Manage(step) =>
      World(Next(w.base, step, vpnPort), PortsAfter(w, step), w.receiver)
    case Lookup(packet) =>
      w.(receiver := match Delivered(w.base.tables, packet)
                     case Sent(q) => Holding(Recipient(w.base.tables, packet).value, q)
                     case Dropped => Reading
                     case Crashed => Dead)
    case Inject(ok) =>
      w.(receiver := if ok && w.receiver.flow.handle !in w.base.closes then Reading else Ended)
  }

  function PortsAfter(w: World, step: Step): map<Handle, Word16> {
    if step.ProtectPort? && ProtectOpens(w.base.tables, step.port, step.e) && step.ok
    then w.ports[w.base.opens := step.port] else w.ports
  }

  ghost predicate IsHistory(ws: seq<World>, moves: seq<Move>, vpnPort: Word16) {
    && |ws| == |moves| + 1
    && ws[0] == START
    && (forall i :: 0 <= i < |moves| ==>
      CanMove(ws[i], moves[i], vpnPort) && ws[i + 1] == Moved(ws[i], moves[i], vpnPort))
  }

  // ----- a handle leaves its table for the hands that close it, and never returns -----

  /** Some thread is about to close the handle. */
  predicate AboutToClose(s: State, t: Thread, h: Handle) {
    t in s.tasks && s.tasks[t].Closing? && h in s.tasks[t].handles
  }

  ghost predicate Retired(s: State, h: Handle) {
    h in s.closes || exists t :: AboutToClose(s, t, h)
  }

  predicate HasPort(s: State, h: Handle, port: Word16) {
    port in s.tables.udpHandles && s.tables.udpHandles[port] == h
  }

  predicate HasFlow(s: State, f: Entry) {
    f.id in s.tables.flows && s.tables.flows[f.id] == f
  }

  lemma RetiredStep(s: State, step: Step, vpnPort: Word16, h: Handle)
    requires Enabled(s, step, vpnPort) && Retired(s, h)
    ensures Retired(Next(s, step, vpnPort), h)
  {
    var s' := Next(s, step, vpnPort);
    if h !in s.closes {
      var t :| AboutToClose(s, t, h);
      if step.CloseNext? && step.t == t {
        var hs := s.tasks[t].handles;
        assert hs == [hs[0]] + hs[1..];
        assert h == hs[0] ==> h in s'.closes;
        assert h != hs[0] ==> AboutToClose(s', t, h);
      } else {
        assert AboutToClose(s', t, h);
      }
    }
  }

  /** A flow that owns its handle stays in the table until its handle is on the way to being closed. */
  lemma FlowStep(s: State, step: Step, vpnPort: Word16, f: Entry)
    requires Enabled(s, step, vpnPort) && FlowsAgree(s.tables) && HasFlow(s, f) && !f.shared
    ensures HasFlow(Next(s, step, vpnPort), f) || Retired(Next(s, step, vpnPort), f.handle)
  {
    var s' := Next(s, step, vpnPort);
    if step.UnprotectEndpoint? {
      UnprotectKeepsOwners(s.tables, step.e, f.id);
    } else if step.RemoveFlow? && step.id == f.id {
      assert AboutToClose(s', step.t, f.handle);
    } else if step.TakeAll? {
      TakenFlow(s.tables, step.ids, step.ports, f);
      assert AboutToClose(s', step.t, f.handle);
    }
  }

  lemma TakenFlow(t: Tables, ids: seq<FlowId>, ports: seq<Word16>, f: Entry)
    requires Enumerates(t, ids, ports) && f.id in t.flows && t.flows[f.id] == f && !f.shared
    ensures f.handle in TakenHandles(t, ids, ports)
  {
    assert TakenHandles(t, ids, ports)[IndexOf(ids, f.id)] == f.handle;
  }

  lemma TakenPort(t: Tables, ids: seq<FlowId>, ports: seq<Word16>, port: Word16)
    requires Enumerates(t, ids, ports) && port in t.udpHandles
    ensures t.udpHandles[port] in TakenHandles(t, ids, ports)
  {
    assert TakenHandles(t, ids, ports)[|ids| + IndexOf(ports, port)] == t.udpHandles[port];
  }

  /** So does the handle of a captured port. */
  lemma PortStep(s: State, step: Step, vpnPort: Word16, h: Handle, port: Word16)
    requires Enabled(s, step, vpnPort) && UdpAgree(s.tables, vpnPort) && HasPort(s, h, port)
    ensures HasPort(Next(s, step, vpnPort), h, port) || Retired(Next(s, step, vpnPort), h)
  {
    var s' := Next(s, step, vpnPort);
    if step.UnprotectEndpoint? {
      UnprotectHandles(s.tables, step.e, vpnPort);
      if LastEndpoint(s.tables, step.e) && s.tables.udpEndpointPorts[step.e] == port {
        assert AboutToClose(s', step.t, h);
      }
    } else if step.TakeAll? {
      TakenPort(s.tables, step.ids, step.ports, port);
      assert AboutToClose(s', step.t, h);
    }
  }

  // ----- the invariant -----

  ghost predicate PortsOk(w: World) {
    forall h: Handle :: h in w.ports ==> h < w.base.opens && (HasPort(w.base, h, w.ports[h]) || Retired(w.base, h))
  }

  ghost predicate SharedOk(w: World) {
    var flows := w.base.tables.flows;
    forall id :: id in flows && flows[id].shared ==> OfPort(w.ports, flows[id])
  }

  ghost predicate HeldOk(w: World) {
    w.receiver.Holding? ==>
      var f := w.receiver.flow;
      if f.shared then OfPort(w.ports, f) else HasFlow(w.base, f) || Retired(w.base, f.handle)
  }

  ghost predicate WorldInv(w: World, vpnPort: Word16) {
    Inv(w.base, vpnPort) && PortsOk(w) && SharedOk(w) && HeldOk(w)
  }

  lemma PortsStep(w: World, step: Step, vpnPort: Word16)
    requires CanMove(w, Manage(step), vpnPort) && Inv(w.base, vpnPort) && PortsOk(w)
    ensures PortsOk(Moved(w, Manage(step), vpnPort))
  {
    var w' := Moved(w, Manage(step), vpnPort);
    OpensGrow(w.base, step, vpnPort);
    forall h: Handle | h in w'.ports
      ensures h < w'.base.opens && (HasPort(w'.base, h, w'.ports[h]) || Retired(w'.base, h))
    {
      if h in w.ports {
        if Retired(w.base, h) {
          RetiredStep(w.base, step, vpnPort, h);
        } else {
          PortStep(w.base, step, vpnPort, h, w.ports[h]);
        }
        assert h < w.base.opens;
      } else {
        NewPort(w, step, vpnPort);
      }
      hide Next, Retired;
    }
  }

  lemma OpensGrow(s: State, step: Step, vpnPort: Word16)
    requires Enabled(s, step, vpnPort)
    ensures s.opens <= Next(s, step, vpnPort).opens
  {
  }

  lemma NewPort(w: World, step: Step, vpnPort: Word16)
    requires CanMove(w, Manage(step), vpnPort) && PortsAfter(w, step) != w.ports
    ensures var w' := Moved(w, Manage(step), vpnPort);
      && w'.ports == w.ports[w.base.opens := step.port] && HasPort(w'.base, w.base.opens, step.port)
      && w.base.opens < w'.base.opens
  {
  }

  lemma InstallFrom(t: Tables, f: Entry, id: FlowId)
    requires id in Install(t, f).flows
    ensures (id in t.flows && Install(t, f).flows[id] == t.flows[id]) || Install(t, f).flows[id] == f
  {
  }

  lemma ProtectKeepsFlows(t: Tables, port: Word16, e: Endpoint, got: Option<Handle>)
    ensures Protect(t, port, e, got).flows == t.flows
  {
  }

  lemma RemoveFrom(t: Tables, gone: FlowId, id: FlowId)
    requires id in Remove(t, gone).flows
    ensures id in t.flows && Remove(t, gone).flows[id] == t.flows[id]
  {
  }

  /** No step but an installation brings a new shared flow into the table. */
  lemma SharedFrom(s: State, step: Step, vpnPort: Word16, id: FlowId)
    requires Enabled(s, step, vpnPort) && TasksOk(s) && FlowsAgree(s.tables)
    requires id in Next(s, step, vpnPort).tables.flows && Next(s, step, vpnPort).tables.flows[id].shared
    ensures var f := Next(s, step, vpnPort).tables.flows[id];
      (id in s.tables.flows && s.tables.flows[id] == f) || (step.InstallShared? && step.flow == f)
  {
    hide Install, Protect, Unprotect, Remove, EntryOk;
    var t := s.tables;
    match step
    case InstallOpened(th) =>
      if s.tasks[th].flow.id !in t.flows {
        InstallFrom(t, s.tasks[th].flow, id);
      }
    case InstallShared(f) => InstallFrom(t, f, id);
    case ProtectPort(port, e, _) =>
      ProtectKeepsFlows(t, port, e, None);
      ProtectKeepsFlows(t, port, e, Some(s.opens));
    case UnprotectEndpoint(_, e) => UnprotectKeepsOwners(t, e, id);
    case RemoveFlow(_, gone) => RemoveFrom(t, gone, id);
    case TakeAll(_, _, _) =>
    case Open(_, _) =>
    case CloseNext(_) =>
  }

  lemma SharedStep(w: World, step: Step, vpnPort: Word16)
    requires CanMove(w, Manage(step), vpnPort) && Inv(w.base, vpnPort) && SharedOk(w) && PortsOk(w)
    ensures SharedOk(Moved(w, Manage(step), vpnPort))
  {
    var w' := Moved(w, Manage(step), vpnPort);
    forall id | id in w'.base.tables.flows && w'.base.tables.flows[id].shared
      ensures OfPort(w'.ports, w'.base.tables.flows[id])
    {
      SharedFrom(w.base, step, vpnPort, id);
      PortsKept(w, step, w'.base.tables.flows[id]);
      hide Next;
    }
  }

  lemma PortsKept(w: World, step: Step, f: Entry)
    requires PortsOk(w) && OfPort(w.ports, f)
    ensures OfPort(PortsAfter(w, step), f)
  {
  }

  lemma HeldStep(w: World, step: Step, vpnPort: Word16)
    requires CanMove(w, Manage(step), vpnPort) && WorldInv(w, vpnPort)
    ensures HeldOk(Moved(w, Manage(step), vpnPort))
  {
    if w.receiver.Holding? {
      var f := w.receiver.flow;
      if f.shared {
        PortsKept(w, step, f);
      } else if Retired(w.base, f.handle) {
        RetiredStep(w.base, step, vpnPort, f.handle);
      } else {
        FlowStep(w.base, step, vpnPort, f);
      }
      hide Next, Retired;
    }
  }

  lemma LookupHeld(w: World, packet: seq<byte>, vpnPort: Word16)
    requires CanMove(w, Lookup(packet), vpnPort) && WorldInv(w, vpnPort)
    ensures HeldOk(Moved(w, Lookup(packet), vpnPort))
  {
    hide Inbound, Retired;
    var t := w.base.tables;
    if Recipient(t, packet).Some? {
      assert ReverseOk(t, ReverseKeyOfInbound(packet).value);
    }
  }

  lemma MoveKeepsInv(w: World, move: Move, vpnPort: Word16)
    requires CanMove(w, move, vpnPort) && WorldInv(w, vpnPort)
    ensures WorldInv(Moved(w, move, vpnPort), vpnPort)
  {
    match move
    case Manage(step) =>
      StepKeepsInv(w.base, step, vpnPort);
      PortsStep(w, step, vpnPort);
      SharedStep(w, step, vpnPort);
      HeldStep(w, step, vpnPort);
      hide Next, Inv, PortsOk, SharedOk, HeldOk;
    case Lookup(packet) =>
      LookupHeld(w, packet, vpnPort);
      hide Inv, Delivered, Recipient;
    case Inject(_) =>
  }

  lemma {:induction false} HistoryKeepsInv(ws: seq<World>, moves: seq<Move>, vpnPort: Word16, n: nat)
    requires IsHistory(ws, moves, vpnPort) && n < |ws|
    ensures WorldInv(ws[n], vpnPort)
  {
    if n == 0 {
      assert Locates(INITIAL, map[]);
    } else {
      HistoryKeepsInv(ws, moves, vpnPort, n - 1);
      MoveKeepsInv(ws[n - 1], moves[n - 1], vpnPort);
    }
  }

  // ----- when the handle of a held flow is still open -----

  /** A handle that a thread is about to close, or that a table owns, has not been closed. */
  lemma NotYetClosed(s: State, vpnPort: Word16, h: Handle, t: Thread)
    requires Inv(s, vpnPort) && AboutToClose(s, t, h)
    ensures h !in s.closes
  {
    var places :| Locates(s, places);
    var i :| 0 <= i < |s.tasks[t].handles| && s.tasks[t].handles[i] == h;
    OwnedIsOpen(s, places, InHand(t, i), h);
  }

  /** What still keeps the handle of a looked-up flow from being closed. */
  ghost predicate StillOwned(s: State, f: Entry) {
    if f.shared then HasPort(s, f.handle, f.key.localPort) else HasFlow(s, f)
  }

  lemma OpenIff(s: State, vpnPort: Word16, f: Entry)
    requires Inv(s, vpnPort) && (StillOwned(s, f) || Retired(s, f.handle))
    ensures f.handle !in s.closes <==> StillOwned(s, f) || exists t :: AboutToClose(s, t, f.handle)
  {
    HandlesConserved(s, vpnPort);
    forall t | AboutToClose(s, t, f.handle)
      ensures f.handle !in s.closes
    {
      NotYetClosed(s, vpnPort, f.handle, t);
    }
    hide Inv;
  }

  /**
   * In every reachable state, the flow receiveVPN holds can still be injected into exactly while the table that owns
   * its handle still does (the flow itself, or for a shared flow its captured port), or the thread that took the
   * handle out has not closed it yet; otherwise the send fails and receiveVPN ends.
   */
  lemma HeldHandleOpenIff(ws: seq<World>, moves: seq<Move>, vpnPort: Word16, n: nat)
    requires IsHistory(ws, moves, vpnPort) && n < |ws| && ws[n].receiver.Holding?
    ensures var s, f := ws[n].base, ws[n].receiver.flow;
      f.handle !in s.closes <==> StillOwned(s, f) || exists t :: AboutToClose(s, t, f.handle)
    ensures Moved(ws[n], Inject(true), vpnPort).receiver == Ended <==> ws[n].receiver.flow.handle in ws[n].base.closes
  {
    HistoryKeepsInv(ws, moves, vpnPort, n);
    OpenIff(ws[n].base, vpnPort, ws[n].receiver.flow);
  }

  /** At the lookup itself, a flow that owns its handle is open; a shared one exactly while its port's handle is. */
  lemma TableHandleOpenIff(ws: seq<World>, moves: seq<Move>, vpnPort: Word16, n: nat, id: FlowId)
    requires IsHistory(ws, moves, vpnPort) && n < |ws| && id in ws[n].base.tables.flows
    ensures var s, f := ws[n].base, ws[n].base.tables.flows[id];
      if !f.shared then f.handle !in s.closes
      else f.handle !in s.closes <==> StillOwned(s, f) || exists t :: AboutToClose(s, t, f.handle)
  {
    HistoryKeepsInv(ws, moves, vpnPort, n);
    OpenIff(ws[n].base, vpnPort, ws[n].base.tables.flows[id]);
  }

  // ----- both ways of meeting a closed handle -----

  /** A plain UDP reply of a flow. */
  function PlainReply(k: FlowKey): seq<byte> {
    Build(Datagram(k.remoteIP, k.localIP, k.remotePort, k.localPort, [], 0))
  }

  lemma PlainReplyDelivered(t: Tables, f: Entry)
    requires f.key.protocol == 17 && ReverseKeyOfFlow(f.key) in t.reverse && t.reverse[ReverseKeyOfFlow(f.key)] == f
    ensures Recipient(t, PlainReply(f.key)) == Some(f) && Delivered(t, PlainReply(f.key)).Sent?
  {
    var d := Datagram(f.key.remoteIP, f.key.localIP, f.key.remotePort, f.key.localPort, [], 0);
    BuiltFlow(d);
    BuiltShape(d);
    PanicsIff(Build(d));
    InboundCrashesIff(Build(d), f.key.localIP);
    hide Build, ParseFlow, CrossedLengths, Rewrite;
  }

  function OnePort(port: Word16, e: Endpoint): Tables {
    EMPTY.(udpHandles := map[port := 0], udpPortRefs := map[port := {e}], udpEndpointPorts := map[e := port])
  }

  lemma OnePortTables(port: Word16, e: Endpoint)
    ensures Protect(EMPTY, port, e, Some(0)) == OnePort(port, e)
    ensures LastEndpoint(OnePort(port, e), e) && UnprotectCloses(OnePort(port, e), e) == [0]
    ensures Unprotect(OnePort(port, e), e) == EMPTY
  {
    var t := OnePort(port, e);
    assert t.udpPortRefs[port] - {e} == {};
    assert t.udpEndpointPorts - {e} == map[] && t.udpPortRefs - {port} == map[] && t.udpHandles - {port} == map[];
    assert PortKeys(EMPTY, port) == {};
  }

  /** The states of a capture that unprotects its port and then installs a shared flow. */
  function CaptureState(f: Entry, i: nat): State {
    State(if i == 1 then OnePort(f.key.localPort, 1) else if i == 4 then Install(EMPTY, f) else EMPTY,
          if i == 0 then 0 else 1,
          if i == 2 then map[0 := Closing([0])] else map[],
          if i <= 2 then [] else [0])
  }

  function CaptureStep(f: Entry, i: nat): Step {
    if i == 0 then ProtectPort(f.key.localPort, 1, true)
    else if i == 1 then UnprotectEndpoint(0, 1)
    else if i == 2 then CloseNext(0)
    else InstallShared(f)
  }

  lemma CaptureRuns(f: Entry, vpnPort: Word16, i: nat)
    requires EntryOk(f) && f.shared && f.handle == 0 && Protectable(f.key.localPort, 1, vpnPort) && i < 4
    ensures Enabled(CaptureState(f, i), CaptureStep(f, i), vpnPort)
    ensures CaptureState(f, i + 1) == Next(CaptureState(f, i), CaptureStep(f, i), vpnPort)
  {
    OnePortTables(f.key.localPort, 1);
    hide OnePort, Protect, Unprotect, Install;
    var s, s' := CaptureState(f, i), CaptureState(f, i + 1);
    var next := Next(s, CaptureStep(f, i), vpnPort);
    assert next.tables == s'.tables && next.opens == s'.opens;
    assert next.tasks == s'.tasks && next.closes == s'.closes;
  }

  function CaptureWorld(f: Entry, q: seq<byte>, i: nat): World {
    World(CaptureState(f, if i < 4 then i else 4),
          if i == 0 then map[] else map[0 := f.key.localPort],
          if i <= 4 then Reading
          else if i == 5 then Holding(f, q)
          else Ended)
  }

  function CaptureMove(f: Entry, i: nat): Move {
    if i < 4 then Manage(CaptureStep(f, i)) else if i == 4 then Lookup(PlainReply(f.key)) else Inject(true)
  }

  lemma CaptureMoves(f: Entry, q: seq<byte>, vpnPort: Word16, i: nat)
    requires EntryOk(f) && f.shared && f.handle == 0 && Protectable(f.key.localPort, 1, vpnPort) && i < 6
    requires Delivered(Install(EMPTY, f), PlainReply(f.key)) == Sent(q)
    requires Recipient(Install(EMPTY, f), PlainReply(f.key)) == Some(f)
    ensures CanMove(CaptureWorld(f, q, i), CaptureMove(f, i), vpnPort)
    ensures CaptureWorld(f, q, i + 1) == Moved(CaptureWorld(f, q, i), CaptureMove(f, i), vpnPort)
  {
    hide Delivered, Recipient, PlainReply, Enabled, Next, Install, OnePort, EntryOk, Protectable;
    if i < 4 {
      CaptureRuns(f, vpnPort, i);
    }
  }

  /** A history given state by state. */
  lemma HistoryOf(world: nat -> World, move: nat -> Move, k: nat, vpnPort: Word16)
    returns (ws: seq<World>, moves: seq<Move>)
    requires world(0) == START
    requires forall i: nat :: i < k ==>
        CanMove(world(i), move(i), vpnPort) && world(i + 1) == Moved(world(i), move(i), vpnPort)
    ensures IsHistory(ws, moves, vpnPort) && |ws| == k + 1
    ensures forall i: nat :: i < k ==> moves[i] == move(i)
    ensures forall i: nat :: i <= k ==> ws[i] == world(i)
  {
    hide CanMove, Moved;
    ws := seq(k + 1, i requires 0 <= i < k + 1 => world(i));
    moves := seq(k, i requires 0 <= i < k => move(i));
  }

  lemma CaptureFacts(f: Entry, q: seq<byte>)
    ensures CaptureWorld(f, q, 0) == START
    ensures CaptureWorld(f, q, 4).base.tables == Install(EMPTY, f) && CaptureWorld(f, q, 4).base.closes == [0]
    ensures CaptureWorld(f, q, 5).receiver == Holding(f, q) && CaptureWorld(f, q, 6).receiver == Ended
  {
  }

  /** A flow alone in the tables is found. */
  lemma InstalledAlone(f: Entry)
    requires EntryOk(f) && !f.ipv6Drop
    ensures var t := Install(EMPTY, f);
      && f.id in t.flows && t.flows[f.id] == f && Found(t)
      && ReverseKeyOfFlow(f.key) in t.reverse && t.reverse[ReverseKeyOfFlow(f.key)] == f
  {
  }

  /**
   * A capture thread may install a shared flow after its port was unprotected and its handle closed: the flow is live
   * and found by its replies, and the first reply ends receiveVPN.
   */
  lemma SharedFlowOnClosedHandle(f: Entry, vpnPort: Word16) returns (ws: seq<World>, moves: seq<Move>)
    requires EntryOk(f) && f.shared && f.handle == 0 && Protectable(f.key.localPort, 1, vpnPort)
    ensures IsHistory(ws, moves, vpnPort) && |ws| == 7
    ensures HasFlow(ws[4].base, f) && Found(ws[4].base.tables) && f.handle in ws[4].base.closes
    ensures ws[5].receiver.Holding? && ws[5].receiver.flow == f && ws[6].receiver == Ended
  {
    assert !f.ipv6Drop && f.key.protocol == 17;
    hide Install, CaptureWorld, CaptureMove, Found, EntryOk, Protectable, ReverseKeyOfFlow;
    hide Delivered, Recipient, PlainReply, IsHistory, CanMove, Moved;
    InstalledAlone(f);
    PlainReplyDelivered(Install(EMPTY, f), f);
    var q := Delivered(Install(EMPTY, f), PlainReply(f.key)).packet;
    CaptureFacts(f, q);
    forall i: nat | i < 6
      ensures CanMove(CaptureWorld(f, q, i), CaptureMove(f, i), vpnPort)
      ensures CaptureWorld(f, q, i + 1) == Moved(CaptureWorld(f, q, i), CaptureMove(f, i), vpnPort)
    {
      CaptureMoves(f, q, vpnPort, i);
    }
    ws, moves := HistoryOf((i: nat) => CaptureWorld(f, q, i), (i: nat) => CaptureMove(f, i), 6, vpnPort);
  }

  /** A plain TCP reply of a flow: 20 bytes of each header, the acknowledgement bit set. */
  function TcpReply(k: FlowKey): seq<byte> {
    [0x45, 0, 0, 40, 0, 0, 0, 0, 64, 6, 0, 0] + k.remoteIP + k.localIP + BE16(k.remotePort) + BE16(k.localPort)
    + [0, 0, 0, 0, 0, 0, 0, 0, 0x50, 0x10, 0, 0, 0, 0, 0, 0]
  }

  lemma TcpReplyFields(k: FlowKey)
    requires k.protocol == 6
    ensures |TcpReply(k)| == 40 && RecalcStatus(TcpReply(k)) == Done && IsIPv4(TcpReply(k))
    ensures ReverseKeyOfInbound(TcpReply(k)) == Some(ReverseKeyOfFlow(k))
  {
    var p := TcpReply(k);
    assert p[12..16] == k.remoteIP && p[16..20] == k.localIP;
    BE16RoundTrip(k.remotePort);
    BE16RoundTrip(k.localPort);
    assert p[20..22] == BE16(k.remotePort) && p[22..24] == BE16(k.localPort);
    assert Get16(p, 20) == k.remotePort && Get16(p, 22) == k.localPort;
  }

  lemma TcpReplyDelivered(t: Tables, f: Entry)
    requires f.key.protocol == 6 && ReverseKeyOfFlow(f.key) in t.reverse && t.reverse[ReverseKeyOfFlow(f.key)] == f
    ensures Recipient(t, TcpReply(f.key)) == Some(f) && Delivered(t, TcpReply(f.key)).Sent?
  {
    TcpReplyFields(f.key);
    PanicsIff(TcpReply(f.key));
    InboundCrashesIff(TcpReply(f.key), f.key.localIP);
    hide TcpReply, CrossedLengths, Rewrite, RecalcStatus, IsIPv4, ReverseKeyOfInbound;
  }

  /** The states of a flow that is opened, installed, looked up, removed and closed. */
  function RemovalState(f: Entry, i: nat): State {
    State(if i == 2 then Install(EMPTY, f) else EMPTY,
          if i == 0 then 0 else 1,
          if i == 1 then map[0 := Installing(f)] else if i == 3 then map[0 := Closing([0])] else map[],
          if i <= 3 then [] else [0])
  }

  function RemovalStep(f: Entry, i: nat): Step {
    if i == 0 then Open(0, f) else if i == 1 then InstallOpened(0) else if i == 2 then RemoveFlow(0, f.id)
    else CloseNext(0)
  }

  lemma RemovalRuns(f: Entry, vpnPort: Word16, i: nat)
    requires EntryOk(f) && !f.shared && !f.ipv6Drop && f.handle == 0 && i < 4
    ensures Enabled(RemovalState(f, i), RemovalStep(f, i), vpnPort)
    ensures RemovalState(f, i + 1) == Next(RemovalState(f, i), RemovalStep(f, i), vpnPort)
  {
    InstalledAlone(f);
    RemovedAlone(f);
    hide Install, Remove, EntryOk, Found, ReverseKeyOfFlow;
    var s, s' := RemovalState(f, i), RemovalState(f, i + 1);
    var next := Next(s, RemovalStep(f, i), vpnPort);
    assert next.tables == s'.tables && next.opens == s'.opens;
    assert next.tasks == s'.tasks && next.closes == s'.closes;
  }

  lemma RemovedAlone(f: Entry)
    requires !f.ipv6Drop && !f.shared
    ensures Remove(Install(EMPTY, f), f.id) == EMPTY && RemoveCloses(Install(EMPTY, f), f.id) == [f.handle]
  {
    var t := Install(EMPTY, f);
    assert t.flows - {f.id} == map[] && t.reverse - {ReverseKeyOfFlow(f.key)} == map[];
  }

  function RemovalWorld(f: Entry, q: seq<byte>, i: nat): World {
    World(RemovalState(f, if i <= 2 then i else if i <= 5 then i - 1 else 4),
          map[],
          if i <= 2 then Reading else if i <= 5 then Holding(f, q) else Ended)
  }

  function RemovalMove(f: Entry, i: nat): Move {
    if i < 2 then Manage(RemovalStep(f, i)) else if i == 2 then Lookup(TcpReply(f.key))
    else if i < 5 then Manage(RemovalStep(f, i - 1)) else Inject(true)
  }

  lemma RemovalMoves(f: Entry, q: seq<byte>, vpnPort: Word16, i: nat)
    requires EntryOk(f) && !f.shared && !f.ipv6Drop && f.handle == 0 && i < 6
    requires Delivered(Install(EMPTY, f), TcpReply(f.key)) == Sent(q)
    requires Recipient(Install(EMPTY, f), TcpReply(f.key)) == Some(f)
    ensures CanMove(RemovalWorld(f, q, i), RemovalMove(f, i), vpnPort)
    ensures RemovalWorld(f, q, i + 1) == Moved(RemovalWorld(f, q, i), RemovalMove(f, i), vpnPort)
  {
    hide Delivered, Recipient, TcpReply, Enabled, Next, Install, EntryOk;
    if i < 2 {
      RemovalRuns(f, vpnPort, i);
    } else if 3 <= i < 5 {
      RemovalRuns(f, vpnPort, i - 1);
    }
  }

  lemma RemovalFacts(f: Entry, q: seq<byte>)
    ensures RemovalWorld(f, q, 0) == START
    ensures RemovalWorld(f, q, 3).receiver == Holding(f, q) && RemovalWorld(f, q, 3).base.closes == []
    ensures RemovalWorld(f, q, 3).base.tables == Install(EMPTY, f)
    ensures RemovalWorld(f, q, 6).receiver == Ended && RemovalWorld(f, q, 6).base.closes == [0]
  {
  }

  /** A flow may be removed and its handle closed between the lookup and the send; that send ends receiveVPN. */
  lemma RemovedUnderTheReceiver(f: Entry, vpnPort: Word16) returns (ws: seq<World>, moves: seq<Move>)
    requires EntryOk(f) && !f.shared && !f.ipv6Drop && f.handle == 0
    ensures IsHistory(ws, moves, vpnPort) && |ws| == 7
    ensures ws[3].receiver.Holding? && ws[3].receiver.flow == f && HasFlow(ws[3].base, f) && ws[3].base.closes == []
    ensures moves[5] == Inject(true) && f.handle in ws[6].base.closes && ws[6].receiver == Ended
  {
    assert f.key.protocol == 6;
    hide Install, RemovalWorld, Found, EntryOk, ReverseKeyOfFlow;
    hide Delivered, Recipient, TcpReply, IsHistory, CanMove, Moved;
    InstalledAlone(f);
    TcpReplyDelivered(Install(EMPTY, f), f);
    var q := Delivered(Install(EMPTY, f), TcpReply(f.key)).packet;
    RemovalFacts(f, q);
    forall i: nat | i < 6
      ensures CanMove(RemovalWorld(f, q, i), RemovalMove(f, i), vpnPort)
      ensures RemovalWorld(f, q, i + 1) == Moved(RemovalWorld(f, q, i), RemovalMove(f, i), vpnPort)
    {
      RemovalMoves(f, q, vpnPort, i);
    }
    ws, moves := HistoryOf((i: nat) => RemovalWorld(f, q, i), (i: nat) => RemovalMove(f, i), 6, vpnPort);
  }

  /** From any reachable state in which receiveVPN holds a live flow of its own handle, three moves end it so. */
  lemma AnyHeldFlowCanBeRemoved(w: World, vpnPort: Word16, t: Thread)
    returns (ws: seq<World>)
    requires WorldInv(w, vpnPort) && w.receiver.Holding? && !w.receiver.flow.shared && HasFlow(w.base, w.receiver.flow)
    requires t !in w.base.tasks
    ensures |ws| == 4 && ws[0] == w && ws[3].receiver == Ended
    ensures CanMove(w, Manage(RemoveFlow(t, w.receiver.flow.id)), vpnPort)
    ensures ws[1] == Moved(w, Manage(RemoveFlow(t, w.receiver.flow.id)), vpnPort)
    ensures CanMove(ws[1], Manage(CloseNext(t)), vpnPort) && ws[2] == Moved(ws[1], Manage(CloseNext(t)), vpnPort)
    ensures CanMove(ws[2], Inject(true), vpnPort) && ws[3] == Moved(ws[2], Inject(true), vpnPort)
  {
    var f := w.receiver.flow;
    var w1 := Moved(w, Manage(RemoveFlow(t, f.id)), vpnPort);
    assert w1.base.tasks[t] == Closing([f.handle]);
    var w2 := Moved(w1, Manage(CloseNext(t)), vpnPort);
    assert w2.base.closes == w.base.closes + [f.handle];
    ws := [w, w1, w2, Moved(w2, Inject(true), vpnPort)];
  }
}
