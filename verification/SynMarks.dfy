/** Which CONNECT lets which SYN through: each consuming poll has a mark of its own, and no live mark is missed. */
module SynMarks {
  import opened Bytes
  import opened PacketNat
  import opened NatRoundTrip
  import opened SynGate

  /** What a CONNECT from a local port to ip:rp (0 stands for any port) says of a packet's flow. */
  predicate Announces(localPort: Word16, ip: IPv4, rp: Word16, k: FlowKey) {
    k.remoteIP == ip && k.remotePort == rp && (localPort == 0 || k.localPort == localPort)
  }

  /** Within three seconds a CONNECT is found by the SYN it announces. */
  lemma MarkedIsFound(intents: Intents, lp: Word16, ip: IPv4, rp: Word16, marked: Time, k: FlowKey, now: Time)
    requires Announces(lp, ip, rp, k) && now < marked + 3000
    ensures Consumed(intents[MarkKey(lp, ip, rp) := marked + INTENT_TTL], k, now).Some?
  {
  }

  /** The keys of CONNECTs are those their packets look for, and no others. */
  lemma KeysAnnounce(lp: Word16, ip: IPv4, rp: Word16, k: FlowKey)
    ensures MarkKey(lp, ip, rp) in {FullOf(k), RemoteOf(k)} <==> Announces(lp, ip, rp, k)
  {
  }

  // ----- the mark behind an intent -----

  predicate Marks(step: Step, key: IntentKey) {
    step.Mark? && MarkKey(step.localPort, step.remoteIP, step.remotePort) == key
  }

  /** The last step before n that marked key. */
  function LastMark(steps: seq<Step>, key: IntentKey, n: nat): (r: Option<nat>)
    requires n <= |steps|
    ensures r.Some? ==> r.value < n && Marks(steps[r.value], key)
  {
    if n == 0 then None
    else if Marks(steps[n - 1], key) then Some(n - 1)
    else LastMark(steps, key, n - 1)
  }

  /** An intent is in the table since its last mark, and runs out 3000 ms after that. */
  lemma {:induction false} IntentIsMarked(run: seq<State>, steps: seq<Step>, vpn: IPv4, key: IntentKey, n: nat)
    requires IsRun(run, steps, vpn) && n <= |steps| && key in run[n].intents
    ensures LastMark(steps, key, n).Some?
    ensures run[n].intents[key] == run[LastMark(steps, key, n).value].now + 3000
    ensures forall m :: LastMark(steps, key, n).value < m <= n ==> key in run[m].intents
  {
    var s, step := run[n - 1], steps[n - 1];
    IntentsStep(s, step, vpn, key);
    if !Marks(step, key) {
      IntentIsMarked(run, steps, vpn, key, n - 1);
    }
  }

  lemma IntentsStep(s: State, step: Step, vpn: IPv4, key: IntentKey)
    requires Enabled(s, step)
    ensures Marks(step, key) ==> Next(s, step, vpn).intents == s.intents[key := s.now + 3000]
    ensures !Marks(step, key) && key in Next(s, step, vpn).intents ==>
        key in s.intents && s.intents[key] == Next(s, step, vpn).intents[key]
    ensures key in s.intents && key !in Next(s, step, vpn).intents ==>
        step == Poll && (Consumed(s.intents, s.gate.k, s.gate.now) == Some(key) || s.intents[key] <= s.gate.now)
  {
    hide ParseFlow, Outbound;
  }

  // ----- every consuming poll has its own mark -----

  /** Step n is a poll that lets the packet of flow k through. */
  predicate Consumes(run: seq<State>, steps: seq<Step>, n: nat) {
    n < |steps| <= |run| && steps[n] == Poll && run[n].gate.Polling?
    && Consumed(run[n].intents, run[n].gate.k, run[n].gate.now).Some?
  }

  /** The step that marked the intent this poll consumes. */
  function MarkBehind(run: seq<State>, steps: seq<Step>, n: nat): Option<nat>
    requires Consumes(run, steps, n)
  {
    LastMark(steps, Consumed(run[n].intents, run[n].gate.k, run[n].gate.now).value, n)
  }

  /** The mark is of the flow's remote end and of its local port or any, and less than 3000 ms old. */
  lemma MarkMeans(run: seq<State>, steps: seq<Step>, vpn: IPv4, n: nat)
    requires IsRun(run, steps, vpn) && Consumes(run, steps, n)
    ensures MarkBehind(run, steps, n).Some?
    ensures var j, k := MarkBehind(run, steps, n).value, run[n].gate.k;
      && j < n && steps[j].Mark?
      && steps[j].remoteIP == k.remoteIP && steps[j].remotePort == k.remotePort
      && (steps[j].localPort == 0 || steps[j].localPort == k.localPort)
      && run[n].gate.now < run[j].now + 3000
  {
    IntentIsMarked(run, steps, vpn, Consumed(run[n].intents, run[n].gate.k, run[n].gate.now).value, n);
  }

  lemma MarksDiffer(run: seq<State>, steps: seq<Step>, vpn: IPv4, a: nat, b: nat)
    requires IsRun(run, steps, vpn) && a < b && Consumes(run, steps, a) && Consumes(run, steps, b)
    ensures MarkBehind(run, steps, a) != MarkBehind(run, steps, b)
  {
    var key := Consumed(run[a].intents, run[a].gate.k, run[a].gate.now).value;
    MarkMeans(run, steps, vpn, a);
    MarkMeans(run, steps, vpn, b);
    var key' := Consumed(run[b].intents, run[b].gate.k, run[b].gate.now).value;
    IntentIsMarked(run, steps, vpn, key', b);
    ConsumedIsGone(run, steps, vpn, a);
    assert LastMark(steps, key', b).value <= a ==> key' in run[a + 1].intents;
  }

  lemma ConsumedIsGone(run: seq<State>, steps: seq<Step>, vpn: IPv4, n: nat)
    requires IsRun(run, steps, vpn) && Consumes(run, steps, n)
    ensures Consumed(run[n].intents, run[n].gate.k, run[n].gate.now).value !in run[n + 1].intents
  {
    assert Enabled(run[n], steps[n]) && run[n + 1] == Next(run[n], steps[n], vpn);
  }

  /** A tunnelled packet that a poll let through. */
  predicate ByPoll(s: State, steps: seq<Step>, i: nat) {
    i < |s.outcomes| && s.outcomes[i].Tunnelled? && PolledIn(steps, s.outcomes[i].grant)
  }

  /**
   * Over every run: a packet that goes to the tunnel without a flow was announced by a CONNECT to its own remote end,
   * from its own local port or an unknown one, at most three seconds before the poll looked at the clock; and no
   * CONNECT lets two packets through.
   */
  lemma EveryPollHasItsMark(run: seq<State>, steps: seq<Step>, vpn: IPv4, n: nat, i: nat)
    requires IsRun(run, steps, vpn) && n < |run| && ByPoll(run[n], steps, i) && i < |run[n].received|
    ensures var g := run[n].outcomes[i].grant;
      && Consumes(run, steps, g) && g < n
      && MarkBehind(run, steps, g).Some?
      && var j := MarkBehind(run, steps, g).value;
         && j < g && steps[j].Mark?
         && run[g].gate.now < run[j].now + 3000
         && var flow := ParseFlow(run[n].received[i], true);
            && flow.Flow?
            && Announces(steps[j].localPort, steps[j].remoteIP, steps[j].remotePort, flow.key)
    ensures forall i' :: 0 <= i' < i && ByPoll(run[n], steps, i') ==>
        && Consumes(run, steps, run[n].outcomes[i'].grant)
        && MarkBehind(run, steps, run[n].outcomes[i'].grant) != MarkBehind(run, steps, run[n].outcomes[i].grant)
  {
    hide Outbound, ParseFlow;
    GrantConsumes(run, steps, vpn, n, i);
    var g := run[n].outcomes[i].grant;
    MarkMeans(run, steps, vpn, g);
    forall i' | 0 <= i' < i && ByPoll(run[n], steps, i')
      ensures Consumes(run, steps, run[n].outcomes[i'].grant)
      ensures MarkBehind(run, steps, run[n].outcomes[i'].grant) != MarkBehind(run, steps, g)
    {
      GateAccounting(run, steps, vpn, n);
      GrantConsumes(run, steps, vpn, n, i');
      MarksDiffer(run, steps, vpn, run[n].outcomes[i'].grant, g);
    }
  }

  lemma GrantConsumes(run: seq<State>, steps: seq<Step>, vpn: IPv4, n: nat, i: nat)
    requires IsRun(run, steps, vpn) && n < |run| && ByPoll(run[n], steps, i)
    ensures i < |run[n].received|
    ensures Consumes(run, steps, run[n].outcomes[i].grant) && run[n].outcomes[i].grant < n
    ensures ParseFlow(run[n].received[i], true) == Flow(run[run[n].outcomes[i].grant].gate.k)
  {
    hide Outbound, ParseFlow, Consumed;
    RunKeepsGate(run, steps, vpn, n);
    var g := run[n].outcomes[i].grant;
    assert GrantedAt(run, steps, g, run[n].received[i]);
    RunKeepsGate(run, steps, vpn, g);
  }

  // ----- no live mark is missed -----

  /** A poll between two steps consumed the intent. */
  ghost predicate TakenBetween(run: seq<State>, steps: seq<Step>, key: IntentKey, lo: nat, hi: nat) {
    exists m :: lo <= m < hi && Consumes(run, steps, m)
      && Consumed(run[m].intents, run[m].gate.k, run[m].gate.now) == Some(key)
  }

  /** A poll between two steps read a clock that had reached t. */
  ghost predicate ReadAfter(run: seq<State>, steps: seq<Step>, t: Time, lo: nat, hi: nat) {
    exists m :: lo <= m < hi <= |steps| < |run| && steps[m] == Poll && run[m].gate.Polling? && t <= run[m].gate.now
  }

  /** An intent marked at step j, good until limit, stays until a poll consumes it or finds it expired. */
  ghost predicate Stays(run: seq<State>, steps: seq<Step>, key: IntentKey, limit: Time, j: nat, n: nat)
    requires n < |run|
  {
    || (key in run[n].intents && limit <= run[n].intents[key])
    || TakenBetween(run, steps, key, j, n)
    || ReadAfter(run, steps, limit, j, n)
  }

  lemma StaysOneStep(run: seq<State>, steps: seq<Step>, vpn: IPv4, key: IntentKey, limit: Time, n: nat)
    requires IsRun(run, steps, vpn) && n < |steps| && limit <= run[n].now + 3000
    requires Marks(steps[n], key) || (key in run[n].intents && limit <= run[n].intents[key])
    ensures Stays(run, steps, key, limit, n, n + 1)
  {
    var s, step := run[n], steps[n];
    assert Enabled(s, step) && run[n + 1] == Next(s, step, vpn);
    IntentsStep(s, step, vpn, key);
    assert step == Poll ==> s.gate.Polling?;
    hide Enabled, Next, MarkKey, AfterPoll;
    if key !in run[n + 1].intents {
      assert steps[n] == Poll;
      assert Consumed(s.intents, s.gate.k, s.gate.now) == Some(key) ==> Consumes(run, steps, n);
    }
  }

  lemma StaysOn(run: seq<State>, steps: seq<Step>, vpn: IPv4, key: IntentKey, limit: Time, j: nat, n: nat)
    requires IsRun(run, steps, vpn) && j < n < |steps| && limit <= run[n].now + 3000
    requires Stays(run, steps, key, limit, j, n)
    ensures Stays(run, steps, key, limit, j, n + 1)
  {
    assert |run| == |steps| + 1;
    hide IsRun, Marks, Consumes, Consumed;
    if key in run[n].intents && limit <= run[n].intents[key] {
      StaysOneStep(run, steps, vpn, key, limit, n);
    }
  }

  lemma {:induction false} MarkStays(
    run: seq<State>, steps: seq<Step>, vpn: IPv4, key: IntentKey, j: nat, n: nat)
    requires IsRun(run, steps, vpn) && j < n <= |steps| && Marks(steps[j], key)
    ensures Stays(run, steps, key, run[j].now + 3000, j, n)
    decreases n
  {
    assert |run| == |steps| + 1;
    hide *;
    TimeGrows(run, steps, vpn, j, n - 1);
    if j == n - 1 {
      StaysOneStep(run, steps, vpn, key, run[j].now + 3000, j);
    } else {
      MarkStays(run, steps, vpn, key, j, n - 1);
      StaysOn(run, steps, vpn, key, run[j].now + 3000, j, n - 1);
    }
  }

  lemma ClockStep(s: State, step: Step, vpn: IPv4)
    requires Enabled(s, step)
    ensures var t := Next(s, step, vpn);
      s.now <= t.now && (t.gate.Polling? ==> t.gate == s.gate || t.gate.now == s.now)
    ensures step == Poll ==> s.gate.Polling?
  {
    hide ParseFlow, Outbound, Consumed, AfterPoll, MarkKey;
  }

  lemma {:induction false} TimeGrows(run: seq<State>, steps: seq<Step>, vpn: IPv4, j: nat, n: nat)
    requires IsRun(run, steps, vpn) && j <= n <= |steps|
    ensures run[j].now <= run[n].now
  {
    hide Enabled, Next;
    if j < n {
      TimeGrows(run, steps, vpn, j, n - 1);
      ClockStep(run[n - 1], steps[n - 1], vpn);
    }
  }

  /** The clock readings of successive polls grow. */
  lemma {:induction false} ReadingsGrow(run: seq<State>, steps: seq<Step>, vpn: IPv4, m: nat, n: nat)
    requires IsRun(run, steps, vpn) && m < n <= |steps| && steps[m] == Poll
    ensures run[m].gate.Polling? && run[m].gate.now <= run[n].now
    ensures run[n].gate.Polling? ==> run[m].gate.now <= run[n].gate.now
  {
    hide Enabled, Next, Accounted, MarksCover, PollsCover, GrantsOk, GrantedAt;
    ClockStep(run[m], steps[m], vpn);
    ClockStep(run[n - 1], steps[n - 1], vpn);
    RunKeepsGate(run, steps, vpn, m);
    TimeGrows(run, steps, vpn, m, n - 1);
    if m < n - 1 {
      ReadingsGrow(run, steps, vpn, m, n - 1);
    }
  }

  /**
   * Over every run: a poll for a packet announced by a CONNECT less than three seconds before its clock reading lets
   * the packet through, unless another poll has used that very announcement before.
   */
  lemma AnnouncedIsLetThrough(run: seq<State>, steps: seq<Step>, vpn: IPv4, j: nat, n: nat)
    requires IsRun(run, steps, vpn) && j < n < |steps| && steps[j].Mark? && steps[n] == Poll
    requires run[n].gate.Polling? && run[n].gate.now < run[j].now + 3000
    requires Announces(steps[j].localPort, steps[j].remoteIP, steps[j].remotePort, run[n].gate.k)
    ensures
      || Consumes(run, steps, n)
      || TakenBetween(run, steps, MarkKey(steps[j].localPort, steps[j].remoteIP, steps[j].remotePort), j, n)
  {
    var key := MarkKey(steps[j].localPort, steps[j].remoteIP, steps[j].remotePort);
    assert Enabled(run[n], steps[n]) && Enabled(run[j], steps[j]);
    MarkStays(run, steps, vpn, key, j, n);
    if ReadAfter(run, steps, run[j].now + 3000, j, n) {
      var m :| j <= m < n && steps[m] == Poll && run[m].gate.Polling? && run[j].now + 3000 <= run[m].gate.now;
      ReadingsGrow(run, steps, vpn, m, n);
    }
  }

  // ----- handed back only after the wait -----

  predicate InWait(g: Gate) {
    g.Waiting? || g.Polling? || g.Missed?
  }

  lemma WaitStep(s: State, step: Step, vpn: IPv4)
    requires Enabled(s, step) && InWait(Next(s, step, vpn).gate)
    ensures var g := Next(s, step, vpn).gate;
      if step == StartWait then s.gate == Unknown(g.p, g.k) && g.deadline == s.now + 8
      else InWait(s.gate) && s.gate.p == g.p && s.gate.k == g.k && s.gate.deadline == g.deadline
  {
    hide ParseFlow, Outbound, Consumed, AfterPoll, MarkKey;
  }

  lemma {:induction false} WaitStarted(run: seq<State>, steps: seq<Step>, vpn: IPv4, n: nat) returns (w: nat)
    requires IsRun(run, steps, vpn) && n <= |steps| && InWait(run[n].gate)
    ensures w < n && steps[w] == StartWait && run[w].gate == Unknown(run[n].gate.p, run[n].gate.k)
    ensures run[n].gate.deadline == run[w].now + 8
  {
    hide Enabled, Next;
    WaitStep(run[n - 1], steps[n - 1], vpn);
    if steps[n - 1] == StartWait {
      return n - 1;
    }
    w := WaitStarted(run, steps, vpn, n - 1);
  }

  lemma {:induction false} LastPollMissed(run: seq<State>, steps: seq<Step>, vpn: IPv4, n: nat) returns (m: nat)
    requires IsRun(run, steps, vpn) && n <= |steps| && run[n].gate.Missed?
    ensures m < n && steps[m] == Poll && run[m].gate.Polling?
    ensures run[m].gate.p == run[n].gate.p && run[m].gate.k == run[n].gate.k
    ensures Consumed(run[m].intents, run[m].gate.k, run[m].gate.now).None?
  {
    hide ParseFlow, Outbound, AfterPoll;
    assert Enabled(run[n - 1], steps[n - 1]) && run[n] == Next(run[n - 1], steps[n - 1], vpn);
    if steps[n - 1] == Poll {
      return n - 1;
    }
    m := LastPollMissed(run, steps, vpn, n - 1);
  }

  lemma {:induction false} LookupMissed(run: seq<State>, steps: seq<Step>, vpn: IPv4, n: nat) returns (m: nat)
    requires IsRun(run, steps, vpn) && n <= |steps| && run[n].gate.Unknown?
    ensures m < n && steps[m] == Lookup && run[m].gate == Looking(run[n].gate.p, run[n].gate.k)
    ensures run[n].gate.k !in run[m].flows
  {
    hide ParseFlow, Outbound, Consumed, AfterPoll;
    assert Enabled(run[n - 1], steps[n - 1]) && run[n] == Next(run[n - 1], steps[n - 1], vpn);
    if steps[n - 1] == Lookup {
      return n - 1;
    }
    m := LookupMissed(run, steps, vpn, n - 1);
  }

  /**
   * A TCP packet handed back while the bootstrap is active had no flow when it was looked up, no live intent at its
   * last poll, and waited 8 ms.
   */
  lemma HandedBackAfterWait(run: seq<State>, steps: seq<Step>, vpn: IPv4, n: nat) returns (look: nat, w: nat, m: nat)
    requires IsRun(run, steps, vpn) && n < |steps| && steps[n].GiveUp?
    ensures run[n].gate.Missed? && run[n + 1].outcomes == run[n].outcomes + [Reinjected(run[n].gate.p)]
    ensures look < w < n && m < n
    ensures steps[look] == Lookup && run[look].gate == Looking(run[n].gate.p, run[n].gate.k)
    ensures run[n].gate.k !in run[look].flows
    ensures steps[w] == StartWait && (run[w].now + 8 <= run[n].now || !run[n].bootstrapActive)
    ensures steps[m] == Poll && run[m].gate.Polling? && run[m].gate.p == run[n].gate.p
    ensures var k := run[n].gate.k;
      forall key :: key in {FullKey(k.localPort, k.remoteIP, k.remotePort), RemoteKey(k.remoteIP, k.remotePort)} ==>
        key in run[m].intents ==> run[m].intents[key] <= run[m].gate.now
  {
    assert Enabled(run[n], steps[n]) && run[n + 1] == Next(run[n], steps[n], vpn);
    w := WaitStarted(run, steps, vpn, n);
    m := LastPollMissed(run, steps, vpn, n);
    look := LookupMissed(run, steps, vpn, w);
  }

  // ----- what ends the loop, and what it is for -----

  /** The loop ends when a receive, a send of its own, an installation or a rewrite fails. */
  lemma StopsIff(s: State, step: Step, vpn: IPv4)
    requires Enabled(s, step) && s.gate != Stopped
    ensures Next(s, step, vpn).gate == Stopped <==>
        || step == ReceiveFails
        || (step == CheckActive(false) && !s.bootstrapActive)
        || step == GiveUp(false)
        || step == Step.Install(false)
        || (step.Tunnel? && Outbound(s.gate.p, vpn) == Dropped)
        || (step == Tunnel(false) && Outbound(s.gate.p, vpn).Sent?)
  {
    hide ParseFlow, Outbound, AfterPoll, Consumed, MarkKey;
  }

  /** A packet is handed back when the bootstrap is off, when it has no TCP flow, or when the polling gives up. */
  lemma HandedBackIff(s: State, step: Step, vpn: IPv4)
    requires Enabled(s, step)
    ensures Next(s, step, vpn).outcomes == s.outcomes + [Reinjected(if InHand(s.gate).Some? then s.gate.p else [])] <==>
        || step.GiveUp?
        || (step.CheckActive?
            && (!s.bootstrapActive || !ParseFlow(s.gate.p, true).Flow? || ParseFlow(s.gate.p, true).key.protocol != 6))
  {
    hide ParseFlow, Outbound, AfterPoll, Consumed, MarkKey;
    var n, after := |s.outcomes|, Next(s, step, vpn).outcomes;
    assert |after| == n || after[n].Tunnelled? || step.GiveUp? || step.CheckActive?;
  }

  lemma Extend(run: seq<State>, steps: seq<Step>, step: Step, vpn: IPv4)
    returns (run': seq<State>, steps': seq<Step>)
    requires IsRun(run, steps, vpn) && Enabled(run[|run| - 1], step)
    ensures IsRun(run', steps', vpn) && steps' == steps + [step]
    ensures |run'| == |run| + 1 && run'[|run|] == Next(run[|run| - 1], step, vpn)
  {
    hide Enabled, Next;
    run', steps' := run + [Next(run[|run| - 1], step, vpn)], steps + [step];
  }

  /** A run up to the lookup of an announced SYN that has no flow yet. */
  lemma SynArrives(p: Packet, k: FlowKey, vpn: IPv4) returns (run: seq<State>, steps: seq<Step>)
    requires ParseFlow(p, true) == Flow(k) && k.protocol == 6 && k.remotePort != 0 && p != []
    ensures IsRun(run, steps, vpn)
    ensures steps == [SetActive(true), Step.Mark(0, k.remoteIP, k.remotePort), Receive(p), CheckActive(true), Lookup]
    ensures |run| == 6 && run[5] == State(
        0, true, {}, map[RemoteKey(k.remoteIP, k.remotePort) := 3000], 1, 0, Unknown(p, k), [p], [], 5)
  {
    hide ParseFlow, Outbound, IsRun;
    run, steps := AtRest(vpn);
    run, steps := Extend(run, steps, SetActive(true), vpn);
    run, steps := Extend(run, steps, Step.Mark(0, k.remoteIP, k.remotePort), vpn);
    run, steps := Extend(run, steps, Receive(p), vpn);
    run, steps := Extend(run, steps, CheckActive(true), vpn);
    run, steps := Extend(run, steps, Lookup, vpn);
  }

  lemma AtRest(vpn: IPv4) returns (run: seq<State>, steps: seq<Step>)
    ensures IsRun(run, steps, vpn) && run == [INITIAL] && steps == []
  {
    run, steps := [INITIAL], [];
  }

  /** The gate as it is meant: an announced SYN is received, polled for, and tunnelled. */
  lemma AnnouncedSynIsTunnelled(p: Packet, k: FlowKey, vpn: IPv4) returns (run: seq<State>, steps: seq<Step>)
    requires ParseFlow(p, true) == Flow(k) && k.protocol == 6 && k.remotePort != 0 && p != []
    requires Outbound(p, vpn).Sent?
    ensures IsRun(run, steps, vpn) && |run| == 11 && run[10].gate == Idle && run[10].intents == map[]
    ensures run[10].received == [p] && run[10].outcomes == [Tunnelled(Outbound(p, vpn).packet, 7)]
  {
    hide ParseFlow, Outbound, IsRun;
    run, steps := SynArrives(p, k, vpn);
    run, steps := Extend(run, steps, StartWait, vpn);
    run, steps := Extend(run, steps, ReadClock, vpn);
    run, steps := Extend(run, steps, Poll, vpn);
    assert run[|run| - 1].intents == map[];
    run, steps := Extend(run, steps, Step.Install(true), vpn);
    run, steps := Extend(run, steps, Tunnel(true), vpn);
  }
}
