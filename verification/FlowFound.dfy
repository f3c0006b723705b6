/** Which single flow its replies find: flows of one reverse key share one entry of reverse, and the last write wins. */
module FlowFound {
  import opened Bytes
  import opened PacketNat
  import opened NatRoundTrip
  import opened FlowTables
  import opened FlowSystem

  predicate Lives(t: Tables, f: Entry) {
    f.id in t.flows && t.flows[f.id] == f
  }

  /** Replies of f are looked up to f. */
  predicate FoundOne(t: Tables, f: Entry) {
    ReverseKeyOfFlow(f.key) in t.reverse && t.reverse[ReverseKeyOfFlow(f.key)] == f
  }

  /** Writing g takes the reverse key of f. */
  predicate Takes(t: Tables, g: Entry, f: Entry) {
    g.id !in t.flows && g.id != f.id && Shares(g, f)
  }

  /** The step installs, or removes, another flow with the reverse key of f. */
  predicate Disturbs(s: State, step: Step, f: Entry) {
    match step
    case InstallOpened(t) => t in s.tasks && s.tasks[t].Installing? && Takes(s.tables, s.tasks[t].flow, f)
    case InstallShared(g) => Takes(s.tables, g, f)
    case RemoveFlow(_, id) => id in s.tables.flows && id != f.id && Shares(s.tables.flows[id], f)
    case _ => false
  }

  // ----- each table operation on the reverse entry of a flow that stays -----

  lemma InstallOne(t: Tables, g: Entry, f: Entry)
    requires Lives(t, f) && !f.ipv6Drop
    ensures Lives(Install(t, g), f) && (FoundOne(Install(t, g), f) <==> FoundOne(t, f) && !Takes(t, g, f))
  {
  }

  lemma RemoveOne(t: Tables, id: FlowId, f: Entry)
    requires Lives(t, f) && !f.ipv6Drop && id != f.id
    ensures Lives(Remove(t, id), f)
    ensures FoundOne(Remove(t, id), f) <==> FoundOne(t, f) && !(id in t.flows && Shares(t.flows[id], f))
  {
  }

  /** Flows of one reverse key share their UDP port, so a port takes all of them along or none. */
  lemma UnprotectOne(t: Tables, e: Endpoint, f: Entry)
    requires FlowsAgree(t) && !f.ipv6Drop && Lives(t, f) && Lives(Unprotect(t, e), f)
    ensures FoundOne(Unprotect(t, e), f) <==> FoundOne(t, f)
  {
    if LastEndpoint(t, e) {
      var port := t.udpEndpointPorts[e];
      assert !OnUdpPort(f, port);
      assert ReverseKeyOfFlow(f.key) !in PortKeys(t, port);
    }
  }

  lemma ProtectOne(t: Tables, port: Word16, e: Endpoint, got: Option<Handle>)
    ensures Protect(t, port, e, got).flows == t.flows && Protect(t, port, e, got).reverse == t.reverse
  {
  }

  /** While f stays, a step that does not disturb it keeps it found or lost, and one that does loses it. */
  lemma StepOne(s: State, step: Step, vpnPort: Word16, f: Entry)
    requires Inv(s, vpnPort) && Enabled(s, step, vpnPort) && !f.ipv6Drop
    requires Lives(s.tables, f) && Lives(Next(s, step, vpnPort).tables, f)
    ensures FoundOne(Next(s, step, vpnPort).tables, f) <==> FoundOne(s.tables, f) && !Disturbs(s, step, f)
  {
    hide Install, Remove, Unprotect, Protect, FoundOne, Takes, Shares, UdpAgree, Locates;
    match step
    case InstallOpened(t) =>
      InstallOne(s.tables, s.tasks[t].flow, f);
      Untaken(s.tables, s.tasks[t].flow, f);
    case InstallShared(g) => InstallOne(s.tables, g, f);
    case RemoveFlow(_, id) =>
      if id != f.id {
        RemoveOne(s.tables, id, f);
      } else {
        RemovedGone(s.tables, id, f);
      }
    case UnprotectEndpoint(_, e) => UnprotectOne(s.tables, e, f);
    case ProtectPort(port, e, _) =>
      ProtectOne(s.tables, port, e, None);
      ProtectOne(s.tables, port, e, Some(s.opens));
      SameFound(s.tables, Next(s, step, vpnPort).tables, f);
    case TakeAll(_, _, _) =>
    case Open(_, _) =>
    case CloseNext(_) =>
  }

  lemma Untaken(t: Tables, g: Entry, f: Entry)
    ensures g.id in t.flows ==> !Takes(t, g, f)
  {
  }

  lemma RemovedGone(t: Tables, id: FlowId, f: Entry)
    requires id == f.id
    ensures !Lives(Remove(t, id), f)
  {
  }

  lemma SameFound(t: Tables, u: Tables, f: Entry)
    requires u.reverse == t.reverse
    ensures FoundOne(u, f) <==> FoundOne(t, f)
  {
  }

  // ----- the life of one flow -----

  /** f is installed by step b and in the table in every state from there to n. */
  ghost predicate LivesSince(run: seq<State>, b: nat, n: nat, f: Entry) {
    && b < n < |run|
    && f.id !in run[b].tables.flows
    && (forall i :: b < i <= n ==> Lives(run[i].tables, f))
  }

  lemma InstallBorn(t: Tables, g: Entry, f: Entry)
    requires f.id !in t.flows && !f.ipv6Drop && Lives(Install(t, g), f)
    ensures FoundOne(Install(t, g), f)
  {
  }

  /** No other operation brings in an identity. */
  lemma NoneBorn(t: Tables, port: Word16, e: Endpoint, got: Option<Handle>, id: FlowId, f: Entry)
    requires f.id !in t.flows
    ensures !Lives(Protect(t, port, e, got), f) && !Lives(Unprotect(t, e), f) && !Lives(Remove(t, id), f)
  {
  }

  /** A flow that a step brings into the table is found at once. */
  lemma Born(s: State, step: Step, vpnPort: Word16, f: Entry)
    requires Inv(s, vpnPort) && Enabled(s, step, vpnPort) && !f.ipv6Drop
    requires f.id !in s.tables.flows && Lives(Next(s, step, vpnPort).tables, f)
    ensures FoundOne(Next(s, step, vpnPort).tables, f)
  {
    hide Install, Remove, Unprotect, Protect, FoundOne, UdpAgree, Locates, FlowsAgree;
    var t := s.tables;
    match step
    case InstallOpened(th) =>
      if s.tasks[th].flow.id !in t.flows {
        InstallBorn(t, s.tasks[th].flow, f);
      }
    case InstallShared(g) => InstallBorn(t, g, f);
    case ProtectPort(port, e, _) =>
      NoneBorn(t, port, e, None, f.id, f);
      NoneBorn(t, port, e, Some(s.opens), f.id, f);
    case UnprotectEndpoint(_, e) => NoneBorn(t, 0, e, None, f.id, f);
    case RemoveFlow(_, id) => NoneBorn(t, 0, 0, None, id, f);
    case TakeAll(_, _, _) =>
    case Open(_, _) =>
    case CloseNext(_) =>
  }

  /** Every live flow was installed at some step and has stayed since. */
  lemma {:induction false} WasBorn(run: seq<State>, steps: seq<Step>, vpnPort: Word16, n: nat, f: Entry)
    returns (b: nat)
    requires IsRun(run, steps, vpnPort) && n < |run| && Lives(run[n].tables, f)
    ensures LivesSince(run, b, n, f)
  {
    RunKeepsInv(run, steps, vpnPort, n - 1);
    if f.id !in run[n - 1].tables.flows {
      b := n - 1;
    } else {
      StepOverwritesNothing(run[n - 1], steps[n - 1], vpnPort);
      b := WasBorn(run, steps, vpnPort, n - 1, f);
    }
    hide Inv, Enabled, Next;
  }

  /** Step i of the run disturbs f. */
  ghost predicate DisturbedAt(run: seq<State>, steps: seq<Step>, i: nat, f: Entry) {
    i < |steps| && i < |run| && Disturbs(run[i], steps[i], f)
  }

  /**
   * Flow by flow, over any run: a live IPv4 flow is found by its replies exactly while no flow with its reverse key
   * has been installed or removed since its own installation.
   */
  lemma {:induction false} FoundIffUndisturbed(run: seq<State>, steps: seq<Step>, vpnPort: Word16,
                                               b: nat, n: nat, f: Entry)
    requires IsRun(run, steps, vpnPort) && LivesSince(run, b, n, f) && !f.ipv6Drop
    ensures FoundOne(run[n].tables, f) <==> forall i :: b < i < n ==> !DisturbedAt(run, steps, i, f)
    decreases n
  {
    hide Inv, Enabled, Next, Disturbs, FoundOne;
    RunKeepsInv(run, steps, vpnPort, n - 1);
    if n == b + 1 {
      assert run[n] == Next(run[b], steps[b], vpnPort);
      Born(run[b], steps[b], vpnPort, f);
    } else {
      assert Lives(run[n - 1].tables, f) && Lives(run[n].tables, f);
      assert run[n] == Next(run[n - 1], steps[n - 1], vpnPort);
      FoundIffUndisturbed(run, steps, vpnPort, b, n - 1, f);
      StepOne(run[n - 1], steps[n - 1], vpnPort, f);
      assert DisturbedAt(run, steps, n - 1, f) <==> Disturbs(run[n - 1], steps[n - 1], f);
    }
  }
}
