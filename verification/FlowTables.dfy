/** The tables of windowsFlowManager and what each of its locked sections does to them. */
module FlowTables {
  import opened Bytes
  import opened PacketNat
  import opened NatRoundTrip

  datatype Address = V4(ip: IPv4) | V6(groups: seq<Word16>)

  /** The tuple that windowsFlowIdentity prints. */
  datatype FlowId = FlowId(protocol: byte, local: Address, localPort: Word16, remote: Address, remotePort: Word16)

  /** A WinDivert handle, as a token. */
  type Handle = nat

  /** A socket endpoint id. */
  type Endpoint = nat

  datatype Entry = Entry(id: FlowId, key: FlowKey, ifIdx: Word32, handle: Handle, ipv6Drop: bool, shared: bool)

  datatype Tables = Tables(
    flows: map<FlowId, Entry>,
    reverse: map<ReverseKey, Entry>,
    udpHandles: map<Word16, Handle>,
    udpPortRefs: map<Word16, set<Endpoint>>,
    udpEndpointPorts: map<Endpoint, Word16>)

  const EMPTY: Tables := Tables(map[], map[], map[], map[], map[])

  /** The Go zero value, which a dropped IPv6 flow keeps as its key. */
  const ZERO_KEY: FlowKey := FlowKey(0, [0, 0, 0, 0], [0, 0, 0, 0], 0, 0)

  function IdOf(k: FlowKey): FlowId {
    FlowId(k.protocol, V4(k.localIP), k.localPort, V4(k.remoteIP), k.remotePort)
  }

  /** How the three places that build an entry fill it in. */
  predicate EntryOk(f: Entry) {
    if f.ipv6Drop then !f.shared && f.key == ZERO_KEY && (f.id.local.V6? || f.id.remote.V6?)
    else f.id == IdOf(f.key) && f.key.protocol in {6, 17} && (f.shared <==> f.key.protocol == 17)
  }

  // ----- locked sections -----

  function Install(t: Tables, f: Entry): Tables {
    if f.id in t.flows then t
    else if f.ipv6Drop then t.(flows := t.flows[f.id := f])
    else t.(flows := t.flows[f.id := f], reverse := t.reverse[ReverseKeyOfFlow(f.key) := f])
  }

  /** protectUDPPort never looks at the tables for these. */
  predicate Protectable(port: Word16, e: Endpoint, vpnPort: Word16) {
    port != 0 && e != 0 && !(vpnPort != 0 && port == vpnPort)
  }

  /** The protected section opens a handle exactly for a new endpoint on a port without one. */
  predicate ProtectOpens(t: Tables, port: Word16, e: Endpoint) {
    e !in t.udpEndpointPorts && port !in t.udpPortRefs
  }

  /** got is the result of the open call under the lock; it matters only when ProtectOpens. */
  function Protect(t: Tables, port: Word16, e: Endpoint, got: Option<Handle>): Tables {
    if e in t.udpEndpointPorts then t
    else if port in t.udpPortRefs then
      t.(udpPortRefs := t.udpPortRefs[port := t.udpPortRefs[port] + {e}],
         udpEndpointPorts := t.udpEndpointPorts[e := port])
    else if got.None? then t
    else
      t.(udpHandles := t.udpHandles[port := got.value],
         udpPortRefs := t.udpPortRefs[port := {e}],
         udpEndpointPorts := t.udpEndpointPorts[e := port])
  }

  predicate OnUdpPort(f: Entry, port: Word16) {
    f.key.protocol == 17 && f.key.localPort == port
  }

  function PortKeys(t: Tables, port: Word16): set<ReverseKey> {
    set id | id in t.flows && OnUdpPort(t.flows[id], port) :: ReverseKeyOfFlow(t.flows[id].key)
  }

  function DropPortFlows(t: Tables, port: Word16): Tables {
    t.(flows := map id | id in t.flows && !OnUdpPort(t.flows[id], port) :: t.flows[id],
       reverse := t.reverse - PortKeys(t, port))
  }

  /** The last endpoint on its port goes away. */
  predicate LastEndpoint(t: Tables, e: Endpoint) {
    && e in t.udpEndpointPorts
    && t.udpEndpointPorts[e] in t.udpPortRefs
    && t.udpPortRefs[t.udpEndpointPorts[e]] - {e} == {}
  }

  function Unprotect(t: Tables, e: Endpoint): Tables {
    if e !in t.udpEndpointPorts then t
    else
      var port := t.udpEndpointPorts[e];
      var u := t.(udpEndpointPorts := t.udpEndpointPorts - {e});
      if port !in t.udpPortRefs then u
      else if !LastEndpoint(t, e) then u.(udpPortRefs := u.udpPortRefs[port := u.udpPortRefs[port] - {e}])
      else DropPortFlows(u.(udpPortRefs := u.udpPortRefs - {port}, udpHandles := u.udpHandles - {port}), port)
  }

  function Remove(t: Tables, id: FlowId): Tables {
    if id !in t.flows then t
    else
      var f := t.flows[id];
      t.(flows := t.flows - {id}, reverse := if f.ipv6Drop then t.reverse else t.reverse - {ReverseKeyOfFlow(f.key)})
  }

  // ----- what every locked section keeps -----

  /** flows is keyed by identity, and every reverse entry is a live flow under its own reverse key. */
  ghost predicate FlowsAgree(t: Tables) {
    && (forall id :: id in t.flows ==> t.flows[id].id == id && EntryOk(t.flows[id]))
    && (forall rk :: rk in t.reverse ==> ReverseOk(t, rk))
  }

  ghost predicate ReverseOk(t: Tables, rk: ReverseKey)
    requires rk in t.reverse
  {
    var f := t.reverse[rk];
    f.id in t.flows && t.flows[f.id] == f && !f.ipv6Drop && ReverseKeyOfFlow(f.key) == rk
  }

  /** The three UDP tables describe one relation between endpoints and captured ports. */
  ghost predicate UdpAgree(t: Tables, vpnPort: Word16) {
    && (forall e :: e in t.udpEndpointPorts ==>
      t.udpEndpointPorts[e] in t.udpPortRefs && e in t.udpPortRefs[t.udpEndpointPorts[e]])
    && (forall p, e :: p in t.udpPortRefs && e in t.udpPortRefs[p] ==>
      e in t.udpEndpointPorts && t.udpEndpointPorts[e] == p)
    && (forall p :: p in t.udpPortRefs ==> t.udpPortRefs[p] != {})
    && t.udpHandles.Keys == t.udpPortRefs.Keys
    && (vpnPort != 0 ==> vpnPort !in t.udpHandles)
  }

  lemma InstallKeeps(t: Tables, f: Entry)
    requires FlowsAgree(t) && EntryOk(f)
    ensures FlowsAgree(Install(t, f))
  {
    var u := Install(t, f);
    forall rk | rk in u.reverse ensures ReverseOk(u, rk) {
      if rk in t.reverse {
        assert ReverseOk(t, rk);
      }
    }
  }

  lemma RemoveKeeps(t: Tables, id: FlowId)
    requires FlowsAgree(t)
    ensures FlowsAgree(Remove(t, id))
  {
    var u := Remove(t, id);
    forall rk | rk in u.reverse ensures ReverseOk(u, rk) {
      assert ReverseOk(t, rk);
    }
  }

  lemma DropPortFlowsKeeps(t: Tables, port: Word16)
    requires FlowsAgree(t)
    ensures FlowsAgree(DropPortFlows(t, port))
  {
    var u := DropPortFlows(t, port);
    forall rk | rk in u.reverse ensures ReverseOk(u, rk) {
      assert ReverseOk(t, rk);
    }
  }

  lemma UnprotectKeeps(t: Tables, e: Endpoint)
    requires FlowsAgree(t)
    ensures FlowsAgree(Unprotect(t, e))
  {
    if LastEndpoint(t, e) {
      var port := t.udpEndpointPorts[e];
      var v := t.(udpEndpointPorts := t.udpEndpointPorts - {e},
                  udpPortRefs := t.udpPortRefs - {port},
                  udpHandles := t.udpHandles - {port});
      SameFlowsAgree(t, v);
      DropPortFlowsKeeps(v, port);
    } else {
      SameFlowsAgree(t, Unprotect(t, e));
    }
  }

  lemma SameFlowsAgree(t: Tables, u: Tables)
    requires FlowsAgree(t) && u.flows == t.flows && u.reverse == t.reverse
    ensures FlowsAgree(u)
  {
  }

  lemma UnprotectKeepsUdp(t: Tables, e: Endpoint, vpnPort: Word16)
    requires UdpAgree(t, vpnPort)
    ensures UdpAgree(Unprotect(t, e), vpnPort)
  {
    if e in t.udpEndpointPorts {
      var u, port := Unprotect(t, e), t.udpEndpointPorts[e];
      forall p, x | p in u.udpPortRefs && x in u.udpPortRefs[p]
        ensures x in u.udpEndpointPorts && u.udpEndpointPorts[x] == p
      {
        assert x in t.udpPortRefs[p];
      }
    }
  }

  lemma JoinKeepsUdp(t: Tables, port: Word16, e: Endpoint, vpnPort: Word16)
    requires UdpAgree(t, vpnPort) && port in t.udpPortRefs && e !in t.udpEndpointPorts
    ensures UdpAgree(Protect(t, port, e, None), vpnPort)
  {
    var u := Protect(t, port, e, None);
    forall p | p in u.udpPortRefs
      ensures u.udpPortRefs[p] == (if p == port then t.udpPortRefs[p] + {e} else t.udpPortRefs[p])
      ensures u.udpPortRefs[p] != {}
    {
      assert p == port ==> e in u.udpPortRefs[p];
    }
  }

  lemma OpenKeepsUdp(t: Tables, port: Word16, e: Endpoint, h: Handle, vpnPort: Word16)
    requires UdpAgree(t, vpnPort) && ProtectOpens(t, port, e) && Protectable(port, e, vpnPort)
    ensures UdpAgree(Protect(t, port, e, Some(h)), vpnPort)
  {
    var u := Protect(t, port, e, Some(h));
    assert forall p :: p in u.udpPortRefs && p != port ==> p in t.udpPortRefs && u.udpPortRefs[p] == t.udpPortRefs[p];
  }

  lemma ProtectKeepsUdp(t: Tables, port: Word16, e: Endpoint, got: Option<Handle>, vpnPort: Word16)
    requires UdpAgree(t, vpnPort) && Protectable(port, e, vpnPort)
    ensures UdpAgree(Protect(t, port, e, got), vpnPort)
  {
    hide UdpAgree;
    if ProtectOpens(t, port, e) && got.Some? {
      OpenKeepsUdp(t, port, e, got.value, vpnPort);
    } else if e !in t.udpEndpointPorts && port in t.udpPortRefs {
      JoinKeepsUdp(t, port, e, vpnPort);
    }
  }

  /** No locked section replaces the entry of a live identity by another one. */
  ghost predicate NothingOverwritten(t: Tables, u: Tables) {
    forall id :: id in t.flows && id in u.flows ==> u.flows[id] == t.flows[id]
  }

  // ----- what each locked section adds and takes away -----

  /** Two flows have one identity only if they are one flow. */
  lemma IdentitiesDiffer(a: FlowKey, b: FlowKey)
    ensures IdOf(a) == IdOf(b) <==> a == b
  {
  }

  /** An endpoint is its port's last one exactly when no other endpoint has that port. */
  lemma LastEndpointIff(t: Tables, e: Endpoint, vpnPort: Word16)
    requires UdpAgree(t, vpnPort) && e in t.udpEndpointPorts
    ensures LastEndpoint(t, e) <==>
        forall x :: x in t.udpEndpointPorts && t.udpEndpointPorts[x] == t.udpEndpointPorts[e] ==> x == e
  {
    var port := t.udpEndpointPorts[e];
    var others := t.udpPortRefs[port] - {e};
    if others != {} {
      var x :| x in others;
      assert x in t.udpPortRefs[port];
      assert x in t.udpEndpointPorts && t.udpEndpointPorts[x] == port && x != e;
    } else {
      assert forall x :: x in t.udpPortRefs[port] ==> x == e || x in others;
    }
  }

  /** With the last endpoint of a port go the UDP flows with that local port, and no others. */
  lemma UnprotectDrops(t: Tables, e: Endpoint, id: FlowId)
    requires LastEndpoint(t, e) && id in t.flows
    ensures id in Unprotect(t, e).flows <==>
        !(t.flows[id].key.protocol == 17 && t.flows[id].key.localPort == t.udpEndpointPorts[e])
    ensures id in Unprotect(t, e).flows ==> Unprotect(t, e).flows[id] == t.flows[id]
  {
  }

  lemma UnprotectDropsReverse(t: Tables, e: Endpoint, rk: ReverseKey)
    requires FlowsAgree(t) && LastEndpoint(t, e) && rk in t.reverse
    ensures rk in Unprotect(t, e).reverse <==> !(rk.protocol == 17 && rk.localPort == t.udpEndpointPorts[e])
    ensures rk in Unprotect(t, e).reverse ==> Unprotect(t, e).reverse[rk] == t.reverse[rk]
  {
    assert ReverseOk(t, rk);
    var port := t.udpEndpointPorts[e];
    var f := t.reverse[rk];
    if rk.protocol == 17 && rk.localPort == port {
      assert f.id in t.flows && OnUdpPort(t.flows[f.id], port);
      assert rk in PortKeys(t, port);
    }
    var v := t.(udpEndpointPorts := t.udpEndpointPorts - {e},
                udpPortRefs := t.udpPortRefs - {port},
                udpHandles := t.udpHandles - {port});
    assert PortKeys(v, port) == PortKeys(t, port);
  }

  /** While another endpoint is on the port nothing goes but the endpoint; otherwise the port's handle goes too. */
  lemma UnprotectTakes(t: Tables, e: Endpoint)
    ensures var u := Unprotect(t, e);
      && u.udpEndpointPorts == t.udpEndpointPorts - {e}
      && u.flows.Keys <= t.flows.Keys && u.reverse.Keys <= t.reverse.Keys
      && (LastEndpoint(t, e) ==> u.udpHandles == t.udpHandles - {t.udpEndpointPorts[e]})
      && (!LastEndpoint(t, e) ==> u.udpHandles == t.udpHandles && u.flows == t.flows && u.reverse == t.reverse)
  {
  }

  /** A new endpoint gets its port when that is captured already or the open call has given a handle for it. */
  lemma ProtectAdds(t: Tables, port: Word16, e: Endpoint, got: Option<Handle>, vpnPort: Word16)
    requires UdpAgree(t, vpnPort) && e !in t.udpEndpointPorts
    ensures var u := Protect(t, port, e, got);
      && u.flows == t.flows && u.reverse == t.reverse
      && (port in t.udpHandles ==> u.udpHandles == t.udpHandles)
      && (port !in t.udpHandles && got.Some? ==> u.udpHandles == t.udpHandles[port := got.value])
      && (port in t.udpHandles || got.Some? ==> u.udpEndpointPorts == t.udpEndpointPorts[e := port])
      && (port !in t.udpHandles && got.None? ==> u == t)
  {
  }

  /** The first flow of an identity is the one that stays, and a TCP or UDP one is entered for its replies. */
  lemma InstallAdds(t: Tables, f: Entry)
    ensures var u, k := Install(t, f), f.key;
      && (f.id in t.flows ==> u == t)
      && (f.id !in t.flows ==> u.flows == t.flows[f.id := f])
      && (f.id !in t.flows && f.ipv6Drop ==> u.reverse == t.reverse)
      && (f.id !in t.flows && !f.ipv6Drop ==>
        u.reverse == t.reverse[ReverseKey(k.protocol, k.remoteIP, k.localPort, k.remotePort) := f])
  {
  }

  /** A flow that goes leaves every other flow, and every reverse key but its own, as it was. */
  lemma RemoveTakes(t: Tables, id: FlowId)
    ensures Remove(t, id).flows == t.flows - {id}
    ensures id in t.flows && !t.flows[id].ipv6Drop ==>
        var k := t.flows[id].key;
        Remove(t, id).reverse == t.reverse - {ReverseKey(k.protocol, k.remoteIP, k.localPort, k.remotePort)}
    ensures id !in t.flows || t.flows[id].ipv6Drop ==> Remove(t, id).reverse == t.reverse
  {
  }

  // ----- the converse: every live IPv4 flow is found by its replies -----

  ghost predicate Found(t: Tables) {
    forall id :: id in t.flows && !t.flows[id].ipv6Drop ==>
      ReverseKeyOfFlow(t.flows[id].key) in t.reverse && t.reverse[ReverseKeyOfFlow(t.flows[id].key)] == t.flows[id]
  }

  predicate Shares(f: Entry, g: Entry) {
    !f.ipv6Drop && !g.ipv6Drop && ReverseKeyOfFlow(f.key) == ReverseKeyOfFlow(g.key)
  }

  ghost predicate NoSharing(t: Tables) {
    forall a, b :: a in t.flows && b in t.flows && Shares(t.flows[a], t.flows[b]) ==> a == b
  }

  lemma FoundMeansNoSharing(t: Tables)
    requires FlowsAgree(t) && Found(t)
    ensures NoSharing(t)
  {
  }

  lemma InstallFound(t: Tables, f: Entry)
    requires FlowsAgree(t) && Found(t) && EntryOk(f) && NoSharing(Install(t, f))
    ensures Found(Install(t, f))
  {
    var u := Install(t, f);
    forall id | id in u.flows && !u.flows[id].ipv6Drop
      ensures ReverseKeyOfFlow(u.flows[id].key) in u.reverse
      ensures u.reverse[ReverseKeyOfFlow(u.flows[id].key)] == u.flows[id]
    {
      if id != f.id {
        assert u.flows[id] == t.flows[id];
        if f.id !in t.flows && !f.ipv6Drop {
          assert u.flows[f.id] == f;
        }
      }
    }
  }

  lemma RemoveFound(t: Tables, id: FlowId)
    requires FlowsAgree(t) && Found(t) && NoSharing(t)
    ensures Found(Remove(t, id))
  {
  }

  lemma UnprotectFound(t: Tables, e: Endpoint)
    requires FlowsAgree(t) && Found(t)
    ensures Found(Unprotect(t, e))
  {
    var u := Unprotect(t, e);
    forall x | x in u.flows && !u.flows[x].ipv6Drop
      ensures ReverseKeyOfFlow(u.flows[x].key) in u.reverse
      ensures u.reverse[ReverseKeyOfFlow(u.flows[x].key)] == u.flows[x]
    {
      assert u.flows[x] == t.flows[x];
    }
  }
}
