/** windowsFlowManager itself: the map fields, and each locked section as a method on them. */
module FlowManager {
  import opened Bytes
  import opened PacketNat
  import opened NatRoundTrip
  import opened FlowTables
  import FlowSystem

  /** The flows left once all but those in todo have been looked at. */
  function Left(flows: map<FlowId, Entry>, todo: set<FlowId>, port: Word16): map<FlowId, Entry> {
    map id | id in flows && (id in todo || !OnUdpPort(flows[id], port)) :: flows[id]
  }

  /** The reverse keys gone by then. */
  function Gone(flows: map<FlowId, Entry>, todo: set<FlowId>, port: Word16): set<ReverseKey> {
    set id | id in flows && id !in todo && OnUdpPort(flows[id], port) :: ReverseKeyOfFlow(flows[id].key)
  }

  lemma OneLess(t: Tables, todo: set<FlowId>, port: Word16, id: FlowId)
    requires id in todo && todo <= t.flows.Keys
    ensures var f, rest := t.flows[id], todo - {id};
      var left, kept := Left(t.flows, todo, port), t.reverse - Gone(t.flows, todo, port);
      && id in left && left[id] == f
      && (f.key.protocol == 17 && f.key.localPort == port ==>
        && Left(t.flows, rest, port) == left - {id}
        && t.reverse - Gone(t.flows, rest, port) == kept - {ReverseKeyOfFlow(f.key)})
      && (!(f.key.protocol == 17 && f.key.localPort == port) ==>
        Left(t.flows, rest, port) == left && t.reverse - Gone(t.flows, rest, port) == kept)
  {
    GoneNext(t.flows, todo, port, id);
  }

  lemma GoneNext(flows: map<FlowId, Entry>, todo: set<FlowId>, port: Word16, id: FlowId)
    requires id in todo && todo <= flows.Keys
    ensures Gone(flows, todo - {id}, port) ==
        Gone(flows, todo, port) + if OnUdpPort(flows[id], port) then {ReverseKeyOfFlow(flows[id].key)} else {}
  {
  }

  lemma LeftAtEnds(t: Tables, port: Word16)
    ensures Left(t.flows, t.flows.Keys, port) == t.flows && Gone(t.flows, t.flows.Keys, port) == {}
    ensures DropPortFlows(t, port) ==
        t.(flows := Left(t.flows, {}, port), reverse := t.reverse - Gone(t.flows, {}, port))
  {
  }

  class FlowManager {
    var flows: map<FlowId, Entry>
    var reverse: map<ReverseKey, Entry>
    var udpHandles: map<Word16, Handle>
    var udpPortRefs: map<Word16, set<Endpoint>>
    var udpEndpointPorts: map<Endpoint, Word16>
    var opens: nat      // handles opened so far; the next one gets this number
    var openCalls: nat  // calls of open so far, failed ones included

    ghost function View(): Tables
      reads this
    {
      Tables(flows, reverse, udpHandles, udpPortRefs, udpEndpointPorts)
    }

    constructor ()
      ensures View() == EMPTY && opens == openCalls == 0
    {
      opens, openCalls := 0, 0;
      flows, reverse := map[], map[];
      udpHandles, udpPortRefs, udpEndpointPorts := map[], map[], map[];
    }

    /** The section that installs a freshly built flow unless its identity is taken. */
    method InstallFlow(f: Entry) returns (existing: Option<Entry>)
      modifies this`flows, this`reverse
      ensures View() == Install(old(View()), f)
      ensures existing == if f.id in old(flows) then Some(old(flows)[f.id]) else None
    {
      if f.id in flows {
        return Some(flows[f.id]);
      }
      flows := flows[f.id := f];
      if !f.ipv6Drop {
        reverse := reverse[ReverseKeyOfFlow(f.key) := f];
      }
      existing := None;
    }

    /** The driver's open call; ok says whether it succeeds. */
    method OpenHandle(ok: bool) returns (h: Option<Handle>)
      modifies this`opens, this`openCalls
      ensures openCalls == old(openCalls) + 1 && opens == old(opens) + if ok then 1 else 0
      ensures h == if ok then Some(old(opens)) else None
    {
      openCalls := openCalls + 1;
      h := None;
      if ok {
        h := Some(opens);
        opens := opens + 1;
      }
    }

    /** The tables and the open calls of one locked section: a step of FlowSystem, with open called only when needed. */
    method ProtectPort(port: Word16, e: Endpoint, ok: bool) returns (capture: Option<Handle>)
      modifies this
      ensures View() == Protect(old(View()), port, e, if ok then Some(old(opens)) else None)
      ensures openCalls == old(openCalls) + if ProtectOpens(old(View()), port, e) then 1 else 0
      ensures opens == old(opens) + if ProtectOpens(old(View()), port, e) && ok then 1 else 0
      ensures capture == if ProtectOpens(old(View()), port, e) && ok then Some(old(opens)) else None
    {
      capture := None;
      if e in udpEndpointPorts {
        return;
      }
      if port in udpPortRefs {
        udpPortRefs := udpPortRefs[port := udpPortRefs[port] + {e}];
        udpEndpointPorts := udpEndpointPorts[e := port];
        return;
      }
      capture := OpenHandle(ok);
      if capture.None? {
        return;
      }
      udpHandles := udpHandles[port := capture.value];
      udpPortRefs := udpPortRefs[port := {e}];
      udpEndpointPorts := udpEndpointPorts[e := port];
    }

    /** The handle to close once the lock is released, if the port lost its last endpoint. */
    method UnprotectEndpoint(e: Endpoint) returns (closing: seq<Handle>)
      modifies this`flows, this`reverse, this`udpHandles, this`udpPortRefs, this`udpEndpointPorts
      ensures View() == Unprotect(old(View()), e)
      ensures closing == FlowSystem.UnprotectCloses(old(View()), e)
    {
      closing := [];
      if e !in udpEndpointPorts {
        return;
      }
      var port := udpEndpointPorts[e];
      udpEndpointPorts := udpEndpointPorts - {e};
      if port in udpPortRefs {
        var refs := udpPortRefs[port] - {e};
        if |refs| == 0 {
          udpPortRefs := udpPortRefs - {port};
          if port in udpHandles {
            closing := [udpHandles[port]];
          }
          udpHandles := udpHandles - {port};
          DropFlowsOn(port);
        } else {
          udpPortRefs := udpPortRefs[port := refs];
        }
      }
    }

    /** The loop over flows that forgets every flow of a UDP port. */
    method DropFlowsOn(port: Word16)
      modifies this`flows, this`reverse
      ensures View() == DropPortFlows(old(View()), port)
    {
      hide Left, Gone, DropPortFlows, OnUdpPort, ReverseKeyOfFlow;
      ghost var t := View();
      LeftAtEnds(t, port);
      var todo := flows.Keys;
      while todo != {}
        invariant todo <= t.flows.Keys
        invariant flows == Left(t.flows, todo, port)
        invariant reverse == t.reverse - Gone(t.flows, todo, port)
        decreases |todo|
      {
        var id :| id in todo;
        OneLess(t, todo, port, id);
        var f := flows[id];
        if f.key.protocol == 17 && f.key.localPort == port {
          flows := flows - {id};
          reverse := reverse - {ReverseKeyOfFlow(f.key)};
        }
        todo := todo - {id};
      }
    }

    /** The removed flow; its handle is closed after the lock unless it is shared. */
    method RemoveFlow(id: FlowId) returns (removed: Option<Entry>)
      modifies this`flows, this`reverse
      ensures View() == Remove(old(View()), id)
      ensures removed == if id in old(flows) then Some(old(flows)[id]) else None
    {
      if id !in flows {
        return None;
      }
      var f := flows[id];
      flows := flows - {id};
      if !f.ipv6Drop {
        reverse := reverse - {ReverseKeyOfFlow(f.key)};
      }
      removed := Some(f);
    }

    /** close(): empty every table and list the handles to close, flows first. */
    method TakeAll() returns (closing: seq<Handle>, ghost ids: seq<FlowId>, ghost ports: seq<Word16>)
      modifies this`flows, this`reverse, this`udpHandles, this`udpPortRefs, this`udpEndpointPorts
      ensures View() == EMPTY
      ensures FlowSystem.Enumerates(old(View()), ids, ports)
      ensures closing == FlowSystem.TakenHandles(old(View()), ids, ports)
    {
      var flowHandles, udp;
      flowHandles, ids := ListFlowHandles();
      udp, ports := ListUdpHandles();
      closing := flowHandles + udp;
      flows, reverse := map[], map[];
      udpHandles, udpPortRefs, udpEndpointPorts := map[], map[], map[];
    }

    method ListFlowHandles() returns (handles: seq<Handle>, ghost ids: seq<FlowId>)
      ensures forall i :: 0 <= i < |ids| ==> ids[i] in flows && !flows[ids[i]].shared
      ensures forall id :: id in flows && !flows[id].shared ==> id in ids
      ensures forall i, j :: 0 <= i < j < |ids| ==> ids[i] != ids[j]
      ensures |handles| == |ids| && forall i :: 0 <= i < |ids| ==> handles[i] == flows[ids[i]].handle
    {
      handles, ids := [], [];
      var todo := flows.Keys;
      while todo != {}
        invariant todo <= flows.Keys
        invariant forall i :: 0 <= i < |ids| ==> ids[i] in flows && !flows[ids[i]].shared && ids[i] !in todo
        invariant forall id :: id in flows && !flows[id].shared ==> id in todo || id in ids
        invariant forall i, j :: 0 <= i < j < |ids| ==> ids[i] != ids[j]
        invariant |handles| == |ids| && forall i :: 0 <= i < |ids| ==> handles[i] == flows[ids[i]].handle
        decreases |todo|
      {
        var id :| id in todo;
        todo := todo - {id};
        if !flows[id].shared {
          handles := handles + [flows[id].handle];
          ids := ids + [id];
        }
      }
    }

    method ListUdpHandles() returns (handles: seq<Handle>, ghost ports: seq<Word16>)
      ensures forall i :: 0 <= i < |ports| ==> ports[i] in udpHandles
      ensures forall p :: p in udpHandles ==> p in ports
      ensures forall i, j :: 0 <= i < j < |ports| ==> ports[i] != ports[j]
      ensures |handles| == |ports| && forall i :: 0 <= i < |ports| ==> handles[i] == udpHandles[ports[i]]
    {
      handles, ports := [], [];
      var todo := udpHandles.Keys;
      while todo != {}
        invariant todo <= udpHandles.Keys
        invariant forall i :: 0 <= i < |ports| ==> ports[i] in udpHandles && ports[i] !in todo
        invariant forall p :: p in udpHandles ==> p in todo || p in ports
        invariant forall i, j :: 0 <= i < j < |ports| ==> ports[i] != ports[j]
        invariant |handles| == |ports| && forall i :: 0 <= i < |ports| ==> handles[i] == udpHandles[ports[i]]
        decreases |todo|
      {
        var p :| p in todo;
        todo := todo - {p};
        handles := handles + [udpHandles[p]];
        ports := ports + [p];
      }
    }
  }
}
