/**
 * The SYN gate of the Windows bootstrap: CONNECT events mark intents, and captureInitialTCPSYN hands every
 * intercepted SYN either back to the network unmodified or, once, to the tunnel.
 */
module SynGate {
  import opened Bytes
  import opened PacketNat
  import opened NatChecksums
  import opened MssClamp
  import opened NatRoundTrip

  /** Milliseconds of a clock that never goes back. */
  type Time = nat

  const INTENT_TTL: nat := 3000
  const POLL_FOR: nat := 8

  /** The strings windowsTCPIntentKey and windowsTCPRemoteIntentKey print, as tuples. */
  datatype IntentKey =
    | FullKey(localPort: Word16, remoteIP: IPv4, remotePort: Word16)
    | RemoteKey(remoteIP: IPv4, remotePort: Word16)

  type Intents = map<IntentKey, Time>

  function FullOf(k: FlowKey): IntentKey {
    FullKey(k.localPort, k.remoteIP, k.remotePort)
  }

  function RemoteOf(k: FlowKey): IntentKey {
    RemoteKey(k.remoteIP, k.remotePort)
  }

  predicate Live(intents: Intents, key: IntentKey, now: Time) {
    key in intents && now < intents[key]
  }

  function MarkKey(localPort: Word16, remoteIP: IPv4, remotePort: Word16): IntentKey {
    if localPort != 0 then FullKey(localPort, remoteIP, remotePort) else RemoteKey(remoteIP, remotePort)
  }

  /** Which live intent a poll consumes: the exact one before the one for any local port. */
  function Consumed(intents: Intents, k: FlowKey, now: Time): Option<IntentKey> {
    if Live(intents, FullOf(k), now) then Some(FullOf(k))
    else if Live(intents, RemoteOf(k), now) then Some(RemoteOf(k))
    else None
  }

  /** The intents after one poll: the consumed one is gone, and so is every expired one looked at. */
  function AfterPoll(intents: Intents, k: FlowKey, now: Time): Intents {
    if Live(intents, FullOf(k), now) then intents - {FullOf(k)} else intents - {FullOf(k), RemoteOf(k)}
  }

  class IntentTable {
    var intents: Intents

    constructor ()
      ensures intents == map[]
    {
      intents := map[];
    }

    method Mark(localPort: Word16, remoteIP: IPv4, remotePort: Word16, now: Time)
      modifies this
      ensures intents == if remotePort == 0 then old(intents)
                         else old(intents)[MarkKey(localPort, remoteIP, remotePort) := now + INTENT_TTL]
    {
      if remotePort == 0 {
        return;
      }
      var key := RemoteKey(remoteIP, remotePort);
      if localPort != 0 {
        key := FullKey(localPort, remoteIP, remotePort);
      }
      intents := intents[key := now + INTENT_TTL];
    }

    /** One locked round of consumeTCPIntent. */
    method Poll(k: FlowKey, now: Time) returns (hit: bool)
      modifies this
      ensures hit <==> Consumed(old(intents), k, now).Some?
      ensures intents == AfterPoll(old(intents), k, now)
    {
      var keys := [FullOf(k), RemoteOf(k)];
      for i := 0 to |keys|
        invariant intents == old(intents) - (set j | 0 <= j < i :: keys[j])
        invariant forall j :: 0 <= j < i ==> !Live(old(intents), keys[j], now)
      {
        if keys[i] in intents {
          var expires := intents[keys[i]];
          intents := intents - {keys[i]};
          if now < expires {
            assert i == 1 ==> keys[0] == FullOf(k);
            return true;
          }
        }
        assert (set j | 0 <= j < i + 1 :: keys[j]) == (set j | 0 <= j < i :: keys[j]) + {keys[i]};
      }
      assert (set j | 0 <= j < 2 :: keys[j]) == {FullOf(k), RemoteOf(k)} by {
        assert keys[0] == FullOf(k) && keys[1] == RemoteOf(k);
      }
      hit := false;
    }
  }

  // ----- the gate as steps -----

  type Packet = seq<byte>

  /**
   * Where captureInitialTCPSYN is with the packet it last received. grant names the step that let it through; Dead is
   * the end of the process.
   */
  datatype Gate =
    | Idle
    | Got(p: Packet)
    | Looking(p: Packet, k: FlowKey)
    | Unknown(p: Packet, k: FlowKey)
    | Waiting(p: Packet, k: FlowKey, deadline: Time)
    | Polling(p: Packet, k: FlowKey, deadline: Time, now: Time)
    | Missed(p: Packet, k: FlowKey, deadline: Time)
    | Installing(p: Packet, k: FlowKey, grant: nat)
    | Tunnelling(p: Packet, k: FlowKey, grant: nat)
    | Stopped
    | Dead

  datatype Outcome = Reinjected(sent: Packet) | Tunnelled(sent: Packet, grant: nat)

  datatype State = State(
    now: Time,
    bootstrapActive: bool,
    flows: set<FlowKey>,      // the TCP flows of the manager, which other threads add and remove
    intents: Intents,
    marks: nat,               // CONNECT events that marked an intent
    consumptions: nat,        // polls that consumed one
    gate: Gate,
    received: seq<Packet>,
    outcomes: seq<Outcome>,
    steps: nat)

  const INITIAL: State := State(0, false, {}, map[], 0, 0, Idle, [], [], 0)

  datatype Step =
    | Tick(now: Time)
    | SetActive(on: bool)
    | FlowsChange(flows: set<FlowKey>)
    | Mark(localPort: Word16, remoteIP: IPv4, remotePort: Word16)   // windows_discord.go:97-107
    | Receive(p: Packet)                                            // 305-312
    | ReceiveFails                                                  // 306-308
    | CheckActive(sendOk: bool)                                     // 313-324
    | Lookup                                                        // 325-329
    | StartWait                                                     // 115
    | ReadClock                                                     // 117
    | Poll                                                          // 118-129
    | GiveUp(sendOk: bool)                                          // 130-132, 330-334
    | Retry                                                         // 133
    | Install(ok: bool)                                             // 336-341
    | Tunnel(sendOk: bool)                                          // 342-353

  /** bootstrapActive was loaded before a Mark takes the lock, so it says nothing about the moment of the step. */
  predicate Enabled(s: State, step: Step) {
    s.gate != Dead &&
    match step
    case Tick(now) => s.now <= now
    case SetActive(_) => true
    case FlowsChange(_) => true
    case Mark(_, _, rp) => rp != 0
    case Receive(p) => s.gate == Idle && p != []
    case ReceiveFails => s.gate == Idle
    case CheckActive(_) => s.gate.Got?
    case Lookup => s.gate.Looking?
    case StartWait => s.gate.Unknown?
    case ReadClock => s.gate.Waiting?
    case Poll => s.gate.Polling?
    case GiveUp(_) => s.gate.Missed? && (!s.bootstrapActive || s.gate.deadline <= s.now)
    case Retry => s.gate.Missed? && s.bootstrapActive && s.now < s.gate.deadline
    case Install(_) => s.gate.Installing?
    case Tunnel(_) => s.gate.Tunnelling?
  }

  /** Hand a packet back unmodified. stops says whether a failing send ends the loop. */
  function Reinject(s: State, p: Packet, stops: bool): State {
    s.(outcomes := s.outcomes + [Reinjected(p)], gate := if stops then Stopped else Idle)
  }

  function Act(s: State, step: Step, vpn: IPv4): State
    requires Enabled(s, step)
  {
    match step
    case Tick(now) => s.(now := now)
    case SetActive(on) => s.(bootstrapActive := on)
    case FlowsChange(flows) => s.(flows := flows)
    case Mark(lp, ip, rp) => s.(intents := s.intents[MarkKey(lp, ip, rp) := s.now + INTENT_TTL], marks := s.marks + 1)
    case Receive(p) => s.(received := s.received + [p], gate := Got(p))
    case ReceiveFails => s.(gate := Stopped)
    case CheckActive(sendOk) =>
      var p := s.gate.p;
      if !s.bootstrapActive then Reinject(s, p, !sendOk)
      else
        var f := ParseFlow(p, true);
        if f.NoFlow? || f.key.protocol != 6 then Reinject(s, p, false) else s.(gate := Looking(p, f.key))
    case Lookup =>
      if s.gate.k in s.flows then s.(gate := Tunnelling(s.gate.p, s.gate.k, s.steps))
      else s.(gate := Unknown(s.gate.p, s.gate.k))
    case StartWait => s.(gate := Waiting(s.gate.p, s.gate.k, s.now + POLL_FOR))
    case ReadClock => s.(gate := Polling(s.gate.p, s.gate.k, s.gate.deadline, s.now))
    case Poll =>
      var g := s.gate;
      var t := s.(intents := AfterPoll(s.intents, g.k, g.now));
      if Consumed(s.intents, g.k, g.now).Some?
      then t.(gate := Installing(g.p, g.k, s.steps), consumptions := s.consumptions + 1)
      else t.(gate := Missed(g.p, g.k, g.deadline))
    case GiveUp(sendOk) => Reinject(s, s.gate.p, !sendOk)
    case Retry => s.(gate := Waiting(s.gate.p, s.gate.k, s.gate.deadline))
    case Install(ok) => s.(gate := if ok then Tunnelling(s.gate.p, s.gate.k, s.gate.grant) else Stopped)
    case Tunnel(sendOk) =>
      var q := Outbound(s.gate.p, vpn);
      if q == Crashed then s.(gate := Dead)
      else if q == Dropped || !sendOk then s.(gate := Stopped)
      else s.(outcomes := s.outcomes + [Tunnelled(q.packet, s.gate.grant)], gate := Idle)
  }

  function Next(s: State, step: Step, vpn: IPv4): State
    requires Enabled(s, step)
  {
    Act(s, step, vpn).(steps := s.steps + 1)
  }

  ghost predicate IsRun(run: seq<State>, steps: seq<Step>, vpn: IPv4) {
    && |run| == |steps| + 1
    && run[0] == INITIAL
    && (forall i :: 0 <= i < |steps| ==> Enabled(run[i], steps[i]) && run[i + 1] == Next(run[i], steps[i], vpn))
  }

  // ----- every packet is accounted for -----

  /** The packet the gate still has to deal with. */
  function InHand(g: Gate): Option<Packet> {
    if g == Idle || g == Stopped || g == Dead then None else Some(g.p)
  }

  predicate OutcomeOk(p: Packet, o: Outcome, vpn: IPv4) {
    match o
    case Reinjected(sent) => sent == p
    case Tunnelled(sent, _) => Outbound(p, vpn) == Sent(sent)
  }

  /** Outcome i is packet i's, and at most the last packet is without one: it is in hand, or the loop has stopped. */
  ghost predicate Accounted(s: State, vpn: IPv4) {
    && |s.outcomes| <= |s.received| <= |s.outcomes| + 1
    && (forall i :: 0 <= i < |s.outcomes| ==> OutcomeOk(s.received[i], s.outcomes[i], vpn))
    && (s.gate == Idle ==> |s.received| == |s.outcomes|)
    && (InHand(s.gate).Some? ==>
      |s.received| == |s.outcomes| + 1 && s.received[|s.outcomes|] == InHand(s.gate).value)
  }

  /** The three things a step can do to the log: receive a packet, decide the one in hand, or neither. */
  ghost predicate LogStep(s: State, s': State, vpn: IPv4) {
    || (&& s.gate == Idle
        && InHand(s'.gate).Some?
        && s'.received == s.received + [InHand(s'.gate).value]
        && s'.outcomes == s.outcomes)
    || (&& InHand(s.gate).Some?
        && InHand(s'.gate).None?
        && s'.received == s.received
        && |s'.outcomes| == |s.outcomes| + 1
        && s'.outcomes[..|s.outcomes|] == s.outcomes
        && Decides(s.gate, s'.outcomes[|s.outcomes|], vpn))
    || (&& s'.received == s.received
        && s'.outcomes == s.outcomes
        && (|| s'.gate == Stopped
            || s'.gate == Dead
            || (InHand(s'.gate) == InHand(s.gate) && (s'.gate == Idle <==> s.gate == Idle))))
  }

  predicate Decides(g: Gate, o: Outcome, vpn: IPv4) {
    && InHand(g).Some?
    && OutcomeOk(InHand(g).value, o, vpn)
    && (o.Tunnelled? ==> g.Tunnelling? && o.grant == g.grant)
  }

  lemma NextLogs(s: State, step: Step, vpn: IPv4)
    requires Enabled(s, step)
    ensures LogStep(s, Next(s, step, vpn), vpn) && Next(s, step, vpn).steps == s.steps + 1
  {
    hide ParseFlow, Outbound, AfterPoll, Consumed, MarkKey;
  }

  lemma AccountedStep(s: State, s': State, vpn: IPv4)
    requires Accounted(s, vpn) && LogStep(s, s', vpn)
    ensures Accounted(s', vpn)
  {
  }

  // ----- consumptions never exceed marks -----

  lemma PollShrinks(intents: Intents, k: FlowKey, now: Time)
    ensures |AfterPoll(intents, k, now)| <= |intents|
    ensures Consumed(intents, k, now).Some? ==> |AfterPoll(intents, k, now)| < |intents|
  {
  }

  /** Every intent still in the table was marked and not consumed. */
  predicate MarksCover(s: State) {
    |s.intents| + s.consumptions <= s.marks
  }

  lemma MarksStep(s: State, step: Step, vpn: IPv4)
    requires MarksCover(s) && Enabled(s, step)
    ensures MarksCover(Next(s, step, vpn))
  {
    if step.Poll? {
      PollShrinks(s.intents, s.gate.k, s.gate.now);
    } else if step.Mark? {
      var key := MarkKey(step.localPort, step.remoteIP, step.remotePort);
      assert s.intents[key := s.now + INTENT_TTL].Keys == s.intents.Keys + {key};
    }
  }

  // ----- nothing is tunnelled without a flow or a live intent of its own -----

  /** Step j of the run let p through: its flow was found then, or a live intent for it was consumed then. */
  ghost predicate GrantedAt(run: seq<State>, steps: seq<Step>, j: nat, p: Packet) {
    && j < |steps| <= |run|
    && ParseFlow(p, true).Flow?
    && ParseFlow(p, true).key.protocol == 6
    && var k := ParseFlow(p, true).key;
       || (steps[j] == Lookup && run[j].gate == Looking(p, k) && k in run[j].flows)
       || (steps[j] == Poll && run[j].gate.Polling? && run[j].gate.p == p && run[j].gate.now <= run[j].now
           && Consumed(run[j].intents, k, run[j].gate.now).Some?)
  }

  /** Every tunnelled outcome was let through before step j. */
  ghost predicate GrantsBefore(outcomes: seq<Outcome>, j: nat) {
    forall i :: 0 <= i < |outcomes| && outcomes[i].Tunnelled? ==> outcomes[i].grant < j
  }

  /** No two tunnelled packets were let through by one step. */
  ghost predicate GrantsIncrease(outcomes: seq<Outcome>) {
    forall i, j :: 0 <= i < j < |outcomes| && outcomes[i].Tunnelled? && outcomes[j].Tunnelled? ==>
      outcomes[i].grant < outcomes[j].grant
  }

  predicate Granted(g: Gate) {
    g.Installing? || g.Tunnelling?
  }

  /** The gate's key is its packet's, its clock reading is in the past, and its grant is real and its own. */
  ghost predicate GateOk(run: seq<State>, steps: seq<Step>, s: State) {
    var g := s.gate;
    && (!(g.Idle? || g.Got? || g.Stopped? || g.Dead?) ==> ParseFlow(g.p, true) == Flow(g.k) && g.k.protocol == 6)
    && (g.Polling? ==> g.now <= s.now)
    && (Granted(g) ==> GrantedAt(run, steps, g.grant, g.p) && g.grant < s.steps && GrantsBefore(s.outcomes, g.grant))
  }

  ghost predicate GrantsOk(run: seq<State>, steps: seq<Step>, s: State) {
    && GrantsBefore(s.outcomes, s.steps)
    && GrantsIncrease(s.outcomes)
    && forall i :: 0 <= i < |s.outcomes| && i < |s.received| && s.outcomes[i].Tunnelled? ==>
      GrantedAt(run, steps, s.outcomes[i].grant, s.received[i])
  }

  lemma GateStep(run: seq<State>, steps: seq<Step>, n: nat, vpn: IPv4)
    requires IsRun(run, steps, vpn) && n < |steps| && run[n].steps == n
    requires GateOk(run, steps, run[n]) && GrantsBefore(run[n].outcomes, n)
    ensures GateOk(run, steps, run[n + 1])
  {
    hide ParseFlow, Outbound, AfterPoll, Consumed;
    var s, step := run[n], steps[n];
    assert run[n + 1] == Next(s, step, vpn);
    match step
    case Lookup =>
      if s.gate.k in s.flows {
        assert GrantedAt(run, steps, n, s.gate.p);
      }
    case Poll =>
      if Consumed(s.intents, s.gate.k, s.gate.now).Some? {
        assert GrantedAt(run, steps, n, s.gate.p);
      }
    case _ =>
  }

  lemma GrantsStep(run: seq<State>, steps: seq<Step>, s: State, s': State, vpn: IPv4)
    requires Accounted(s, vpn) && LogStep(s, s', vpn) && s.steps <= s'.steps
    requires GateOk(run, steps, s) && GrantsOk(run, steps, s)
    ensures GrantsOk(run, steps, s')
  {
    hide ParseFlow, Outbound, GrantedAt, OutcomeOk;
    var n := |s.outcomes|;
    if |s'.outcomes| > n {
      assert s'.outcomes == s.outcomes + [s'.outcomes[n]];
    }
  }

  // ----- packets let through by intents -----

  /** How many tunnelled packets were let through by a poll. */
  function LetThrough(outcomes: seq<Outcome>, steps: seq<Step>): nat {
    if outcomes == [] then 0
    else
      var last := outcomes[|outcomes| - 1];
      LetThrough(outcomes[..|outcomes| - 1], steps)
      + if last.Tunnelled? && PolledIn(steps, last.grant) then 1 else 0
  }

  predicate PolledIn(steps: seq<Step>, j: nat) {
    j < |steps| && steps[j] == Poll
  }

  /** Each consuming poll lets at most one packet through. */
  predicate PollsCover(s: State, steps: seq<Step>) {
    var inHand := if Granted(s.gate) && PolledIn(steps, s.gate.grant) then 1 else 0;
    LetThrough(s.outcomes, steps) + inHand <= s.consumptions
  }

  lemma LetThroughNext(outcomes: seq<Outcome>, o: Outcome, steps: seq<Step>)
    ensures LetThrough(outcomes + [o], steps)
         == LetThrough(outcomes, steps) + if o.Tunnelled? && PolledIn(steps, o.grant) then 1 else 0
  {
    assert (outcomes + [o])[..|outcomes|] == outcomes;
  }

  lemma PollsStep(s: State, step: Step, steps: seq<Step>, vpn: IPv4)
    requires PollsCover(s, steps) && Enabled(s, step) && s.steps < |steps| && steps[s.steps] == step
    ensures PollsCover(Next(s, step, vpn), steps)
  {
    hide ParseFlow, Outbound, AfterPoll, Consumed, LetThrough;
    var s' := Next(s, step, vpn);
    if |s'.outcomes| > |s.outcomes| {
      LetThroughNext(s.outcomes, s'.outcomes[|s.outcomes|], steps);
    }
  }

  // ----- every run -----

  lemma {:induction false} RunKeepsGate(run: seq<State>, steps: seq<Step>, vpn: IPv4, n: nat)
    requires IsRun(run, steps, vpn) && n < |run|
    ensures run[n].steps == n && Accounted(run[n], vpn) && MarksCover(run[n]) && PollsCover(run[n], steps)
    ensures GateOk(run, steps, run[n]) && GrantsOk(run, steps, run[n])
  {
    if n > 0 {
      RunKeepsGate(run, steps, vpn, n - 1);
      NextLogs(run[n - 1], steps[n - 1], vpn);
      AccountedStep(run[n - 1], run[n], vpn);
      MarksStep(run[n - 1], steps[n - 1], vpn);
      PollsStep(run[n - 1], steps[n - 1], steps, vpn);
      GateStep(run, steps, n - 1, vpn);
      GrantsStep(run, steps, run[n - 1], run[n], vpn);
    }
  }

  /**
   * Over every run: each received packet but possibly the last has exactly one outcome, its own bytes handed back
   * or its NATed form tunnelled; the last one lacks an outcome only while it is in hand, after the loop has stopped
   * with an error, or because it ended the process; a tunnelled packet was let through by a step of its own, which
   * found its flow or consumed a live intent for it; and intents let through no more packets than were marked.
   */
  lemma GateAccounting(run: seq<State>, steps: seq<Step>, vpn: IPv4, n: nat)
    requires IsRun(run, steps, vpn) && n < |run|
    ensures |run[n].outcomes| <= |run[n].received| <= |run[n].outcomes| + 1
    ensures run[n].gate == Idle ==> |run[n].received| == |run[n].outcomes|
    ensures forall i :: 0 <= i < |run[n].outcomes| ==> OutcomeOk(run[n].received[i], run[n].outcomes[i], vpn)
    ensures forall i :: 0 <= i < |run[n].outcomes| && run[n].outcomes[i].Tunnelled? ==>
        run[n].outcomes[i].grant < n && GrantedAt(run, steps, run[n].outcomes[i].grant, run[n].received[i])
    ensures GrantsIncrease(run[n].outcomes)
    ensures LetThrough(run[n].outcomes, steps) <= run[n].consumptions <= run[n].marks
  {
    RunKeepsGate(run, steps, vpn, n);
  }

  /** The gate ends the process exactly when it tunnels a SYN whose lengths cross and whose TCP header is complete. */
  lemma GateCrashesIff(run: seq<State>, steps: seq<Step>, vpn: IPv4, n: nat)
    requires IsRun(run, steps, vpn) && n < |steps|
    ensures run[n + 1].gate == Dead
       <==> steps[n].Tunnel? && CrossedLengths(run[n].gate.p) && HasTcpHeader(run[n].gate.p)
  {
    assert Enabled(run[n], steps[n]) && run[n + 1] == Next(run[n], steps[n], vpn);
    if steps[n].Tunnel? {
      RunKeepsGate(run, steps, vpn, n);
      GateProtocol(run[n].gate.p);
      OutboundCrashesIff(run[n].gate.p, vpn);
    }
    hide CrossedLengths, HasTcpHeader, Outbound, ParseFlow;
  }

  lemma GateProtocol(p: Packet)
    requires ParseFlow(p, true).Flow?
    ensures |p| > 9 && ParseFlow(p, true).key.protocol == p[9]
  {
  }
}
