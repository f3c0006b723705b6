/**
 * windowsFlowManager under every interleaving. Each locked section is one step; opening a per-flow handle
 * and closing a handle happen outside the lock and are steps of their own.
 */
module FlowSystem {
  import opened Bytes
  import opened PacketNat
  import opened NatRoundTrip
  import opened FlowTables

  type Thread = nat

  /** What a thread holds outside the lock: a flow about to be installed, or handles it is about to close. */
  datatype Task = Installing(flow: Entry) | Closing(handles: seq<Handle>)

  datatype State = State(
    tables: Tables,
    opens: nat,                // handles 0 .. opens - 1 have been opened
    tasks: map<Thread, Task>,
    closes: seq<Handle>)       // every Close call so far

  const INITIAL: State := State(EMPTY, 0, map[], [])

  datatype Step =
    | Open(t: Thread, flow: Entry)                              // windows_discord.go:212, 236, 282
    | InstallOpened(t: Thread)                                  // 217-224, 242-250, 287-295
    | InstallShared(flow: Entry)                                // 496-504
    | ProtectPort(port: Word16, e: Endpoint, ok: bool)          // 387-412
    | UnprotectEndpoint(t: Thread, e: Endpoint)                 // 428-449
    | RemoveFlow(t: Thread, id: FlowId)                         // 523-531
    | TakeAll(t: Thread, ids: seq<FlowId>, ports: seq<Word16>)  // 640-654
    | CloseNext(t: Thread)                                      // 220, 245, 290, 451, 533, 657, 661

  function Held(task: Task): seq<Handle> {
    match task
    case Installing(f) => [f.handle]
    case Closing(hs) => hs
  }

  function ToClose(tasks: map<Thread, Task>, t: Thread, hs: seq<Handle>): map<Thread, Task> {
    if hs == [] then tasks else tasks[t := Closing(hs)]
  }

  function UnprotectCloses(t: Tables, e: Endpoint): seq<Handle> {
    if LastEndpoint(t, e) && t.udpEndpointPorts[e] in t.udpHandles then [t.udpHandles[t.udpEndpointPorts[e]]] else []
  }

  function RemoveCloses(t: Tables, id: FlowId): seq<Handle> {
    if id in t.flows && !t.flows[id].shared then [t.flows[id].handle] else []
  }

  /** ids lists the flows that own their handle, ports the captured ports, each once. */
  ghost predicate Enumerates(t: Tables, ids: seq<FlowId>, ports: seq<Word16>) {
    && (forall i :: 0 <= i < |ids| ==> ids[i] in t.flows && !t.flows[ids[i]].shared)
    && (forall id :: id in t.flows && !t.flows[id].shared ==> id in ids)
    && (forall i, j :: 0 <= i < j < |ids| ==> ids[i] != ids[j])
    && (forall i :: 0 <= i < |ports| ==> ports[i] in t.udpHandles)
    && (forall p :: p in t.udpHandles ==> p in ports)
    && (forall i, j :: 0 <= i < j < |ports| ==> ports[i] != ports[j])
  }

  ghost function TakenHandles(t: Tables, ids: seq<FlowId>, ports: seq<Word16>): seq<Handle>
    requires Enumerates(t, ids, ports)
  {
    seq(|ids|, i requires 0 <= i < |ids| => t.flows[ids[i]].handle)
    + seq(|ports|, i requires 0 <= i < |ports| => t.udpHandles[ports[i]])
  }

  ghost predicate Enabled(s: State, step: Step, vpnPort: Word16) {
    match step
    case Open(t, f) => t !in s.tasks && EntryOk(f) && !f.shared && f.handle == s.opens
    case InstallOpened(t) => t in s.tasks && s.tasks[t].Installing?
    case InstallShared(f) => EntryOk(f) && f.shared && f.handle < s.opens
    case ProtectPort(port, e, _) => Protectable(port, e, vpnPort)
    case UnprotectEndpoint(t, e) => t !in s.tasks && e != 0
    case RemoveFlow(t, _) => t !in s.tasks
    case TakeAll(t, ids, ports) => t !in s.tasks && Enumerates(s.tables, ids, ports)
    case CloseNext(t) => t in s.tasks && s.tasks[t].Closing? && s.tasks[t].handles != []
  }

  ghost function Next(s: State, step: Step, vpnPort: Word16): State
    requires Enabled(s, step, vpnPort)
  {
    match step
    case Open(t, f) => s.(opens := s.opens + 1, tasks := s.tasks[t := Installing(f)])
    case InstallOpened(t) =>
      var f := s.tasks[t].flow;
      if f.id in s.tables.flows then s.(tasks := s.tasks[t := Closing([f.handle])])
      else s.(tables := Install(s.tables, f), tasks := s.tasks - {t})
    case InstallShared(f) => s.(tables := Install(s.tables, f))
    case ProtectPort(port, e, ok) =>
      if ProtectOpens(s.tables, port, e) && ok then
        s.(tables := Protect(s.tables, port, e, Some(s.opens)), opens := s.opens + 1)
      else s.(tables := Protect(s.tables, port, e, None))
    case UnprotectEndpoint(t, e) =>
      s.(tables := Unprotect(s.tables, e), tasks := ToClose(s.tasks, t, UnprotectCloses(s.tables, e)))
    case RemoveFlow(t, id) =>
      s.(tables := Remove(s.tables, id), tasks := ToClose(s.tasks, t, RemoveCloses(s.tables, id)))
    case TakeAll(t, ids, ports) =>
      s.(tables := EMPTY, tasks := ToClose(s.tasks, t, TakenHandles(s.tables, ids, ports)))
    case CloseNext(t) =>
      var hs := s.tasks[t].handles;
      s.(closes := s.closes + [hs[0]], tasks := if |hs| == 1 then s.tasks - {t} else s.tasks[t := Closing(hs[1..])])
  }

  ghost predicate IsRun(run: seq<State>, steps: seq<Step>, vpnPort: Word16) {
    && |run| == |steps| + 1
    && run[0] == INITIAL
    && (forall i :: 0 <= i < |steps| ==>
      Enabled(run[i], steps[i], vpnPort) && run[i + 1] == Next(run[i], steps[i], vpnPort))
  }

  // ----- where every handle is -----

  datatype Place = InFlow(id: FlowId) | InUdp(port: Word16) | InHand(t: Thread, i: nat) | Closed(i: nat)

  predicate HoldsAt(s: State, pl: Place, h: Handle) {
    match pl
    case InFlow(id) => id in s.tables.flows && !s.tables.flows[id].shared && s.tables.flows[id].handle == h
    case InUdp(p) => p in s.tables.udpHandles && s.tables.udpHandles[p] == h
    case InHand(t, i) => t in s.tasks && i < |Held(s.tasks[t])| && Held(s.tasks[t])[i] == h
    case Closed(i) => i < |s.closes| && s.closes[i] == h
  }

  /** where names the one place of every opened handle, and no place holds anything else. */
  ghost predicate Locates(s: State, places: map<Handle, Place>) {
    && (forall h: Handle :: h in places <==> h < s.opens)
    && (forall pl, h: Handle :: HoldsAt(s, pl, h) ==> h in places && places[h] == pl)
    && (forall h: Handle :: h in places ==> HoldsAt(s, places[h], h))
  }

  ghost predicate SameHolders(s: State, s': State) {
    s'.opens == s.opens && forall pl, h: Handle :: HoldsAt(s', pl, h) <==> HoldsAt(s, pl, h)
  }

  /** Handle x moves from one place to another, and nothing else moves. */
  ghost predicate MovesOne(s: State, s': State, x: Handle, from: Place, to: Place) {
    && s'.opens == s.opens
    && HoldsAt(s, from, x)
    && (forall pl, h: Handle :: HoldsAt(s', pl, h) <==> (if pl == to then h == x else pl != from && HoldsAt(s, pl, h)))
  }

  /** A new handle appears at one place, and nothing moves. */
  ghost predicate OpensOne(s: State, s': State, at: Place) {
    && s'.opens == s.opens + 1
    && (forall pl, h: Handle :: HoldsAt(s', pl, h) <==> (if pl == at then h == s.opens else HoldsAt(s, pl, h)))
  }

  lemma PlaceHoldsOne(s: State, pl: Place, a: Handle, b: Handle)
    requires HoldsAt(s, pl, a) && HoldsAt(s, pl, b)
    ensures a == b
  {
  }

  lemma LocatesMoved(s: State, s': State, x: Handle, from: Place, to: Place, places: map<Handle, Place>)
    requires Locates(s, places) && MovesOne(s, s', x, from, to)
    requires forall h: Handle :: !HoldsAt(s, to, h)
    ensures Locates(s', places[x := to])
  {
    var places' := places[x := to];
    forall h | h in places' ensures HoldsAt(s', places'[h], h) {
      if h != x && places[h] == from {
        PlaceHoldsOne(s, from, h, x);
      }
    }
  }

  lemma LocatesOpened(s: State, s': State, at: Place, places: map<Handle, Place>)
    requires Locates(s, places) && OpensOne(s, s', at)
    requires forall h: Handle :: !HoldsAt(s, at, h)
    ensures Locates(s', places[s.opens := at])
  {
  }

  lemma OpenMoves(s: State, t: Thread, f: Entry, vpnPort: Word16)
    requires Enabled(s, Open(t, f), vpnPort)
    ensures OpensOne(s, Next(s, Open(t, f), vpnPort), InHand(t, 0))
  {
  }

  /** A flow that meets an existing identity keeps its handle in hand; otherwise the handle moves into the table. */
  lemma InstallMoves(s: State, t: Thread, vpnPort: Word16)
    requires Enabled(s, InstallOpened(t), vpnPort) && !s.tasks[t].flow.shared
    ensures var s', f := Next(s, InstallOpened(t), vpnPort), s.tasks[t].flow;
      if f.id in s.tables.flows then SameHolders(s, s') else MovesOne(s, s', f.handle, InHand(t, 0), InFlow(f.id))
  {
  }

  lemma InstallSharedMoves(s: State, f: Entry, vpnPort: Word16)
    requires Enabled(s, InstallShared(f), vpnPort)
    ensures SameHolders(s, Next(s, InstallShared(f), vpnPort))
  {
  }

  lemma ProtectMoves(s: State, port: Word16, e: Endpoint, ok: bool, vpnPort: Word16)
    requires Enabled(s, ProtectPort(port, e, ok), vpnPort)
    ensures var s' := Next(s, ProtectPort(port, e, ok), vpnPort);
      if ProtectOpens(s.tables, port, e) && ok then OpensOne(s, s', InUdp(port)) else SameHolders(s, s')
  {
  }

  /** Unprotecting drops shared flows only. */
  lemma UnprotectKeepsOwners(t: Tables, e: Endpoint, id: FlowId)
    requires FlowsAgree(t)
    ensures id in Unprotect(t, e).flows ==> id in t.flows && Unprotect(t, e).flows[id] == t.flows[id]
    ensures id in t.flows && !t.flows[id].shared ==> id in Unprotect(t, e).flows
  {
  }

  lemma UnprotectFlowHolders(s: State, t: Thread, e: Endpoint, id: FlowId, h: Handle, vpnPort: Word16)
    requires Enabled(s, UnprotectEndpoint(t, e), vpnPort) && FlowsAgree(s.tables)
    ensures HoldsAt(Next(s, UnprotectEndpoint(t, e), vpnPort), InFlow(id), h) <==> HoldsAt(s, InFlow(id), h)
  {
    UnprotectKeepsOwners(s.tables, e, id);
  }

  lemma UnprotectHandles(t: Tables, e: Endpoint, vpnPort: Word16)
    requires UdpAgree(t, vpnPort)
    ensures LastEndpoint(t, e) ==>
        && t.udpEndpointPorts[e] in t.udpHandles
        && Unprotect(t, e).udpHandles == t.udpHandles - {t.udpEndpointPorts[e]}
    ensures !LastEndpoint(t, e) ==> Unprotect(t, e).udpHandles == t.udpHandles
  {
  }

  /** The handle of a port that loses its last endpoint moves into the hands of the unprotecting thread. */
  lemma UnprotectMoves(s: State, t: Thread, e: Endpoint, vpnPort: Word16)
    requires Enabled(s, UnprotectEndpoint(t, e), vpnPort) && FlowsAgree(s.tables) && UdpAgree(s.tables, vpnPort)
    ensures LastEndpoint(s.tables, e) ==>
        && |UnprotectCloses(s.tables, e)| == 1
        && MovesOne(s, Next(s, UnprotectEndpoint(t, e), vpnPort), UnprotectCloses(s.tables, e)[0],
                    InUdp(s.tables.udpEndpointPorts[e]), InHand(t, 0))
    ensures !LastEndpoint(s.tables, e) ==> SameHolders(s, Next(s, UnprotectEndpoint(t, e), vpnPort))
  {
    hide Unprotect, FlowsAgree, UdpAgree;
    UnprotectHandles(s.tables, e, vpnPort);
    var s' := Next(s, UnprotectEndpoint(t, e), vpnPort);
    forall pl: Place, h: Handle | pl.InFlow? ensures HoldsAt(s', pl, h) <==> HoldsAt(s, pl, h) {
      UnprotectFlowHolders(s, t, e, pl.id, h, vpnPort);
    }
  }

  lemma RemoveMoves(s: State, t: Thread, id: FlowId, vpnPort: Word16)
    requires Enabled(s, RemoveFlow(t, id), vpnPort)
    ensures var s', hs := Next(s, RemoveFlow(t, id), vpnPort), RemoveCloses(s.tables, id);
      if hs == [] then SameHolders(s, s') else MovesOne(s, s', hs[0], InFlow(id), InHand(t, 0))
  {
  }

  // ----- steps that move several handles at once -----

  /** Every place's handle moves to to(place), and every handle comes from from(place). */
  lemma LocatesRelabelled(s: State, s': State, places: map<Handle, Place>, to: Place -> Place, from: Place -> Place)
    returns (places': map<Handle, Place>)
    requires Locates(s, places) && s'.opens == s.opens
    requires forall pl, h: Handle :: HoldsAt(s, pl, h) ==> HoldsAt(s', to(pl), h)
    requires forall pl, h: Handle :: HoldsAt(s', pl, h) ==> HoldsAt(s, from(pl), h) && to(from(pl)) == pl
    ensures Locates(s', places')
  {
    places' := map h | h in places :: to(places[h]);
    forall pl, h | HoldsAt(s', pl, h) ensures h in places' && places'[h] == pl {
      assert HoldsAt(s, from(pl), h) && places[h] == from(pl);
    }
    forall h | h in places' ensures HoldsAt(s', places'[h], h) {
      assert HoldsAt(s, places[h], h);
    }
  }

  lemma CloseMoves(s: State, t: Thread, places: map<Handle, Place>, vpnPort: Word16)
    returns (places': map<Handle, Place>)
    requires Locates(s, places) && Enabled(s, CloseNext(t), vpnPort)
    ensures Locates(Next(s, CloseNext(t), vpnPort), places')
  {
    var s', n := Next(s, CloseNext(t), vpnPort), |s.closes|;
    var to := (pl: Place) =>
      if pl == InHand(t, 0) then Closed(n) else if pl.InHand? && pl.t == t then InHand(t, pl.i - 1) else pl;
    var from := (pl: Place) =>
      if pl == Closed(n) then InHand(t, 0) else if pl.InHand? && pl.t == t then InHand(t, pl.i + 1) else pl;
    places' := LocatesRelabelled(s, s', places, to, from);
  }

  ghost function IndexOf<T>(s: seq<T>, x: T): (i: nat)
    requires x in s
    ensures i < |s| && s[i] == x
  {
    var i :| 0 <= i < |s| && s[i] == x;
    i
  }

  ghost function TakenTo(t: Thread, ids: seq<FlowId>, ports: seq<Word16>, pl: Place): Place {
    if pl.InFlow? && pl.id in ids then InHand(t, IndexOf(ids, pl.id))
    else if pl.InUdp? && pl.port in ports then InHand(t, |ids| + IndexOf(ports, pl.port))
    else pl
  }

  ghost function TakenFrom(t: Thread, ids: seq<FlowId>, ports: seq<Word16>, pl: Place): Place {
    if pl.InHand? && pl.t == t && pl.i < |ids| then InFlow(ids[pl.i])
    else if pl.InHand? && pl.t == t && pl.i < |ids| + |ports| then InUdp(ports[pl.i - |ids|])
    else pl
  }

  lemma TakeAllForward(s: State, t: Thread, ids: seq<FlowId>, ports: seq<Word16>, vpnPort: Word16, pl: Place, h: Handle)
    requires Enabled(s, TakeAll(t, ids, ports), vpnPort) && HoldsAt(s, pl, h)
    ensures HoldsAt(Next(s, TakeAll(t, ids, ports), vpnPort), TakenTo(t, ids, ports, pl), h)
  {
    var hs := TakenHandles(s.tables, ids, ports);
    if pl.InFlow? {
      assert hs[IndexOf(ids, pl.id)] == h;
    } else if pl.InUdp? {
      assert hs[|ids| + IndexOf(ports, pl.port)] == h;
    }
  }

  lemma TakeAllFromHand(s: State, t: Thread, ids: seq<FlowId>, ports: seq<Word16>, i: nat)
    requires Enumerates(s.tables, ids, ports) && i < |ids| + |ports|
    ensures HoldsAt(s, TakenFrom(t, ids, ports, InHand(t, i)), TakenHandles(s.tables, ids, ports)[i])
    ensures TakenTo(t, ids, ports, TakenFrom(t, ids, ports, InHand(t, i))) == InHand(t, i)
  {
  }

  lemma TakeAllBackward(s: State, t: Thread, ids: seq<FlowId>, ports: seq<Word16>, vpnPort: Word16,
                        pl: Place, h: Handle)
    requires Enabled(s, TakeAll(t, ids, ports), vpnPort)
    requires HoldsAt(Next(s, TakeAll(t, ids, ports), vpnPort), pl, h)
    ensures HoldsAt(s, TakenFrom(t, ids, ports, pl), h)
    ensures TakenTo(t, ids, ports, TakenFrom(t, ids, ports, pl)) == pl
  {
    if pl.InHand? && pl.t == t {
      TakeAllFromHand(s, t, ids, ports, pl.i);
    }
  }

  lemma TakeAllMoves(s: State, t: Thread, ids: seq<FlowId>, ports: seq<Word16>,
                     places: map<Handle, Place>, vpnPort: Word16)
    returns (places': map<Handle, Place>)
    requires Locates(s, places) && Enabled(s, TakeAll(t, ids, ports), vpnPort)
    ensures Locates(Next(s, TakeAll(t, ids, ports), vpnPort), places')
  {
    var s' := Next(s, TakeAll(t, ids, ports), vpnPort);
    var to := (pl: Place) => TakenTo(t, ids, ports, pl);
    var from := (pl: Place) => TakenFrom(t, ids, ports, pl);
    forall pl, h | HoldsAt(s, pl, h) ensures HoldsAt(s', to(pl), h) {
      TakeAllForward(s, t, ids, ports, vpnPort, pl, h);
    }
    forall pl, h | HoldsAt(s', pl, h) ensures HoldsAt(s, from(pl), h) && to(from(pl)) == pl {
      TakeAllBackward(s, t, ids, ports, vpnPort, pl, h);
    }
    places' := LocatesRelabelled(s, s', places, to, from);
  }

  // ----- every run -----

  ghost predicate TasksOk(s: State) {
    forall t :: t in s.tasks && s.tasks[t].Installing? ==> EntryOk(s.tasks[t].flow) && !s.tasks[t].flow.shared
  }

  /** What every reachable state satisfies. */
  ghost predicate Inv(s: State, vpnPort: Word16) {
    && FlowsAgree(s.tables)
    && UdpAgree(s.tables, vpnPort)
    && TasksOk(s)
    && (exists places :: Locates(s, places))
  }

  lemma TablesStep(s: State, step: Step, vpnPort: Word16)
    requires FlowsAgree(s.tables) && TasksOk(s) && Enabled(s, step, vpnPort)
    ensures FlowsAgree(Next(s, step, vpnPort).tables)
  {
    match step
    case InstallOpened(t) => InstallKeeps(s.tables, s.tasks[t].flow);
    case InstallShared(f) => InstallKeeps(s.tables, f);
    case UnprotectEndpoint(_, e) => UnprotectKeeps(s.tables, e);
    case RemoveFlow(_, id) => RemoveKeeps(s.tables, id);
    case TakeAll(_, _, _) =>
    case _ => SameFlowsAgree(s.tables, Next(s, step, vpnPort).tables);
  }

  lemma UdpStep(s: State, step: Step, vpnPort: Word16)
    requires UdpAgree(s.tables, vpnPort) && Enabled(s, step, vpnPort)
    ensures UdpAgree(Next(s, step, vpnPort).tables, vpnPort)
  {
    match step
    case ProtectPort(port, e, _) =>
      ProtectKeepsUdp(s.tables, port, e, None, vpnPort);
      ProtectKeepsUdp(s.tables, port, e, Some(s.opens), vpnPort);
    case UnprotectEndpoint(_, e) => UnprotectKeepsUdp(s.tables, e, vpnPort);
    case _ =>
  }

  lemma TasksStep(s: State, step: Step, vpnPort: Word16)
    requires TasksOk(s) && Enabled(s, step, vpnPort)
    ensures TasksOk(Next(s, step, vpnPort))
  {
  }

  lemma HandlesStep(s: State, step: Step, vpnPort: Word16) returns (places': map<Handle, Place>)
    requires Inv(s, vpnPort) && Enabled(s, step, vpnPort)
    ensures Locates(Next(s, step, vpnPort), places')
  {
    var places :| Locates(s, places);
    var s' := Next(s, step, vpnPort);
    places' := places;
    match step
    case Open(t, f) =>
      OpenMoves(s, t, f, vpnPort);
      LocatesOpened(s, s', InHand(t, 0), places);
      places' := places[s.opens := InHand(t, 0)];
    case InstallOpened(t) =>
      var f := s.tasks[t].flow;
      InstallMoves(s, t, vpnPort);
      if f.id !in s.tables.flows {
        LocatesMoved(s, s', f.handle, InHand(t, 0), InFlow(f.id), places);
        places' := places[f.handle := InFlow(f.id)];
      }
    case InstallShared(f) => InstallSharedMoves(s, f, vpnPort);
    case ProtectPort(port, e, ok) =>
      ProtectMoves(s, port, e, ok, vpnPort);
      if ProtectOpens(s.tables, port, e) && ok {
        LocatesOpened(s, s', InUdp(port), places);
        places' := places[s.opens := InUdp(port)];
      }
    case UnprotectEndpoint(t, e) =>
      UnprotectMoves(s, t, e, vpnPort);
      if LastEndpoint(s.tables, e) {
        var h := UnprotectCloses(s.tables, e)[0];
        LocatesMoved(s, s', h, InUdp(s.tables.udpEndpointPorts[e]), InHand(t, 0), places);
        places' := places[h := InHand(t, 0)];
      }
    case RemoveFlow(t, id) =>
      RemoveMoves(s, t, id, vpnPort);
      var hs := RemoveCloses(s.tables, id);
      if hs != [] {
        LocatesMoved(s, s', hs[0], InFlow(id), InHand(t, 0), places);
        places' := places[hs[0] := InHand(t, 0)];
      }
    case TakeAll(t, ids, ports) => places' := TakeAllMoves(s, t, ids, ports, places, vpnPort);
    case CloseNext(t) => places' := CloseMoves(s, t, places, vpnPort);
  }

  lemma StepKeepsInv(s: State, step: Step, vpnPort: Word16)
    requires Inv(s, vpnPort) && Enabled(s, step, vpnPort)
    ensures Inv(Next(s, step, vpnPort), vpnPort)
  {
    TablesStep(s, step, vpnPort);
    UdpStep(s, step, vpnPort);
    TasksStep(s, step, vpnPort);
    var places' := HandlesStep(s, step, vpnPort);
  }

  /** Flow tables, UDP tables and handle places agree in every state of every interleaving. */
  lemma {:induction false} RunKeepsInv(run: seq<State>, steps: seq<Step>, vpnPort: Word16, n: nat)
    requires IsRun(run, steps, vpnPort) && n < |run|
    ensures Inv(run[n], vpnPort)
  {
    if n == 0 {
      assert Locates(INITIAL, map[]);
    } else {
      RunKeepsInv(run, steps, vpnPort, n - 1);
      StepKeepsInv(run[n - 1], steps[n - 1], vpnPort);
    }
  }

  ghost predicate Somewhere(s: State, h: Handle) {
    exists pl :: HoldsAt(s, pl, h)
  }

  lemma OwnedIsOpen(s: State, places: map<Handle, Place>, pl: Place, h: Handle)
    requires Locates(s, places) && HoldsAt(s, pl, h) && !pl.Closed?
    ensures h !in s.closes
  {
    if h in s.closes {
      var i :| 0 <= i < |s.closes| && s.closes[i] == h;
      assert HoldsAt(s, Closed(i), h);
    }
  }

  /** Every opened handle is in exactly one place, so none is closed twice or while something still owns it. */
  lemma HandlesConserved(s: State, vpnPort: Word16)
    requires Inv(s, vpnPort)
    ensures forall h: Handle {:trigger Somewhere(s, h)} :: Somewhere(s, h) <==> h < s.opens
    ensures forall a, b, h: Handle :: HoldsAt(s, a, h) && HoldsAt(s, b, h) ==> a == b
    ensures forall i, j :: 0 <= i < j < |s.closes| ==> s.closes[i] != s.closes[j]
    ensures forall id :: id in s.tables.flows && !s.tables.flows[id].shared ==> s.tables.flows[id].handle !in s.closes
    ensures forall p :: p in s.tables.udpHandles ==> s.tables.udpHandles[p] !in s.closes
  {
    var places :| Locates(s, places);
    forall h: Handle ensures Somewhere(s, h) <==> h < s.opens {
      if h < s.opens {
        assert HoldsAt(s, places[h], h);
      }
    }
    forall i, j | 0 <= i < j < |s.closes| ensures s.closes[i] != s.closes[j] {
      assert HoldsAt(s, Closed(i), s.closes[i]) && HoldsAt(s, Closed(j), s.closes[j]);
    }
    forall id | id in s.tables.flows && !s.tables.flows[id].shared ensures s.tables.flows[id].handle !in s.closes {
      OwnedIsOpen(s, places, InFlow(id), s.tables.flows[id].handle);
    }
    forall p | p in s.tables.udpHandles ensures s.tables.udpHandles[p] !in s.closes {
      OwnedIsOpen(s, places, InUdp(p), s.tables.udpHandles[p]);
    }
  }

  /** No step replaces the entry of a live flow. */
  lemma StepOverwritesNothing(s: State, step: Step, vpnPort: Word16)
    requires Inv(s, vpnPort) && Enabled(s, step, vpnPort)
    ensures NothingOverwritten(s.tables, Next(s, step, vpnPort).tables)
  {
    match step
    case UnprotectEndpoint(_, e) =>
      var t, u := s.tables, Unprotect(s.tables, e);
      forall id ensures id in u.flows ==> id in t.flows && u.flows[id] == t.flows[id] {
        UnprotectKeepsOwners(s.tables, e, id);
      }
    case _ =>
  }

  // ----- replies find their flow exactly while no two live flows share a reverse key -----

  lemma StepFound(s: State, step: Step, vpnPort: Word16)
    requires Inv(s, vpnPort) && Enabled(s, step, vpnPort) && Found(s.tables)
    requires NoSharing(s.tables) && NoSharing(Next(s, step, vpnPort).tables)
    ensures Found(Next(s, step, vpnPort).tables)
  {
    match step
    case InstallOpened(t) =>
      if s.tasks[t].flow.id !in s.tables.flows {
        InstallFound(s.tables, s.tasks[t].flow);
      }
    case InstallShared(f) => InstallFound(s.tables, f);
    case UnprotectEndpoint(_, e) => UnprotectFound(s.tables, e);
    case RemoveFlow(_, id) => RemoveFound(s.tables, id);
    case _ =>
  }

  lemma {:induction false} RunFound(run: seq<State>, steps: seq<Step>, vpnPort: Word16, n: nat)
    requires IsRun(run, steps, vpnPort) && n < |run|
    requires forall i :: 0 <= i <= n ==> NoSharing(run[i].tables)
    ensures Found(run[n].tables)
  {
    if n > 0 {
      RunFound(run, steps, vpnPort, n - 1);
      RunKeepsInv(run, steps, vpnPort, n - 1);
      assert NoSharing(run[n].tables) && NoSharing(run[n - 1].tables);
      assert run[n] == Next(run[n - 1], steps[n - 1], vpnPort);
      StepFound(run[n - 1], steps[n - 1], vpnPort);
    }
  }

  /** Over any run, every live IPv4 flow is always found by its replies iff no two live flows ever share a key. */
  lemma FoundIffNeverShared(run: seq<State>, steps: seq<Step>, vpnPort: Word16)
    requires IsRun(run, steps, vpnPort)
    ensures (forall i :: 0 <= i < |run| ==> Found(run[i].tables))
       <==> (forall i :: 0 <= i < |run| ==> NoSharing(run[i].tables))
  {
    forall i | 0 <= i < |run| && Found(run[i].tables) ensures NoSharing(run[i].tables) {
      RunKeepsInv(run, steps, vpnPort, i);
      FoundMeansNoSharing(run[i].tables);
    }
    if forall i :: 0 <= i < |run| ==> NoSharing(run[i].tables) {
      forall i | 0 <= i < |run| ensures Found(run[i].tables) {
        RunFound(run, steps, vpnPort, i);
      }
    }
  }

  /**
   * Absence of sharing in the last state alone is not enough: once a second flow with the same reverse key has
   * come and gone, the first one is live, shares with nobody, and gets no replies.
   */
  lemma SharingLosesReplies(f: Entry, g: Entry, vpnPort: Word16) returns (run: seq<State>, steps: seq<Step>)
    requires EntryOk(f) && EntryOk(g) && !f.shared && !g.shared && Shares(f, g)
    requires f.id != g.id && f.handle == 0 && g.handle == 1
    ensures IsRun(run, steps, vpnPort)
    ensures var last := run[|run| - 1].tables; last.flows == map[f.id := f] && NoSharing(last) && !Found(last)
  {
    steps := [Open(0, f), InstallOpened(0), Open(0, g), InstallOpened(0), RemoveFlow(0, g.id)];
    var rk := ReverseKeyOfFlow(f.key);
    var one := EMPTY.(flows := map[f.id := f], reverse := map[rk := f]);
    var two := one.(flows := map[f.id := f, g.id := g], reverse := map[rk := g]);
    var gone := one.(reverse := map[]);
    assert Install(EMPTY, f) == one && Install(one, g) == two && Remove(two, g.id) == gone;
    run := [
      INITIAL,
      State(EMPTY, 1, map[0 := Installing(f)], []),
      State(one, 1, map[], []),
      State(one, 2, map[0 := Installing(g)], []),
      State(two, 2, map[], []),
      State(gone, 2, map[0 := Closing([1])], [])];
  }
}
