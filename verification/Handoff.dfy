/**
 * The direct, VPN, direct handoff of runLinuxDiscordBootstrap: two output streams that may repeat lines, a
 * sync.Once around UseVPN, a one-slot ready channel, and the main loop's handedOff flag.
 */
module Handoff {
  import ProxyMode

  type Mode = ProxyMode.Mode

  const DIRECT: Mode := ProxyMode.Direct
  const VPN: Mode := ProxyMode.Vpn

  type Stream = nat

  datatype Once = NotRun | Running(stream: Stream) | Ran
  datatype Loop = Looping | Switching | Stopped

  datatype State = State(
    mode: Mode,
    history: seq<Mode>,   // the modes the proxy has been in, oldest first
    once: Once,           // activateOnce
    ready: bool,          // the slot of the ready channel
    handedOff: bool,
    loop: Loop,
    vpnCalls: nat,        // UseVPN calls so far
    directCalls: nat)     // UseDirect calls so far

  const INITIAL: State := State(DIRECT, [DIRECT], NotRun, false, false, Looping, 0, 0)

  datatype Step =
    | LaunchLine(st: Stream)    // linux_bootstrap_proxy.go:619-622
    | UseVpn(st: Stream)        // 693
    | ReadyLine(st: Stream)     // 624-629
    | TakeReady                 // 711-713
    | UseDirect                 // 714
    | Stop                      // 709-710, 718-725

  predicate Enabled(s: State, step: Step) {
    match step
    case LaunchLine(st) => !s.once.Running?
    case UseVpn(st) => s.once == Running(st)
    case ReadyLine(st) => s.once != Running(st)
    case TakeReady => s.loop == Looping && s.ready
    case UseDirect => s.loop == Switching
    case Stop => s.loop == Looping
  }

  function Swap(s: State, mode: Mode): State {
    if s.mode == mode then s else s.(mode := mode, history := s.history + [mode])
  }

  function Next(s: State, step: Step): State
    requires Enabled(s, step)
  {
    match step
    case LaunchLine(st) => if s.once == NotRun then s.(once := Running(st)) else s
    case UseVpn(st) => Swap(s, VPN).(once := Ran, vpnCalls := s.vpnCalls + 1)
    case ReadyLine(st) => s.(ready := true)
    case TakeReady => s.(ready := false, handedOff := true, loop := if s.handedOff then Looping else Switching)
    case UseDirect => Swap(s, DIRECT).(loop := Looping, directCalls := s.directCalls + 1)
    case Stop => s.(loop := Stopped)
  }

  ghost predicate IsRun(run: seq<State>, steps: seq<Step>) {
    && |run| == |steps| + 1
    && run[0] == INITIAL
    && (forall i :: 0 <= i < |steps| ==> Enabled(run[i], steps[i]) && run[i + 1] == Next(run[i], steps[i]))
  }

  /** The order of the two switches decides the history; each happens at most once. */
  ghost predicate Inv(s: State) {
    && s.vpnCalls == (if s.once == Ran then 1 else 0)
    && s.directCalls == (if s.handedOff && s.loop != Switching then 1 else 0)
    && (s.loop == Switching ==> s.handedOff)
    && (s.once != Ran ==> s.history == [DIRECT])
    && (s.once == Ran && s.directCalls == 0 ==> s.history == [DIRECT, VPN])
    && (s.once == Ran && s.directCalls == 1 ==> s.history == [DIRECT, VPN] || s.history == [DIRECT, VPN, DIRECT])
    && s.mode == s.history[|s.history| - 1]
  }

  lemma StepKeepsInv(s: State, step: Step)
    requires Inv(s) && Enabled(s, step)
    ensures Inv(Next(s, step))
  {
  }

  lemma {:induction false} RunKeepsInv(run: seq<State>, steps: seq<Step>, n: nat)
    requires IsRun(run, steps) && n < |run|
    ensures Inv(run[n])
  {
    if n > 0 {
      RunKeepsInv(run, steps, n - 1);
      StepKeepsInv(run[n - 1], steps[n - 1]);
    }
  }

  /** In every run, whatever lines repeat, the history is a prefix of direct, VPN, direct, each switch made once. */
  lemma HistoryIsPrefix(run: seq<State>, steps: seq<Step>, n: nat)
    requires IsRun(run, steps) && n < |run|
    ensures run[n].history <= [DIRECT, VPN, DIRECT]
    ensures run[n].vpnCalls <= 1 && run[n].directCalls <= 1
  {
    RunKeepsInv(run, steps, n);
  }

  // ----- when the proxy stays direct after the handoff -----

  /** After the switch back the mode is direct unless the activation came later; if it had come before, for good. */
  lemma {:induction false} AfterDirect(run: seq<State>, steps: seq<Step>, d: nat, n: nat)
    requires IsRun(run, steps) && d < n < |run| && steps[d] == UseDirect
    ensures run[n].mode == DIRECT <==> run[d].once == Ran || run[n].once != Ran
    ensures run[d].once == Ran ==> run[n].once == Ran
    ensures run[n].handedOff && run[n].loop != Switching && run[n].directCalls == 1
    decreases n
  {
    RunKeepsInv(run, steps, n - 1);
    if n > d + 1 {
      AfterDirect(run, steps, d, n - 1);
    }
  }

  /** One more step at the end of a run. */
  lemma Extend(run: seq<State>, steps: seq<Step>, step: Step)
    returns (run': seq<State>, steps': seq<Step>)
    requires IsRun(run, steps) && Enabled(run[|run| - 1], step)
    ensures IsRun(run', steps') && run < run' && steps < steps' && |run'| == |run| + 1
    ensures run'[|run|] == Next(run[|run| - 1], step)
  {
    run', steps' := run + [Next(run[|run| - 1], step)], steps + [step];
  }

  /** If activateOnce has not run at the switch back, some continuation takes the proxy back to the VPN path. */
  lemma VpnAfterDirect(run: seq<State>, steps: seq<Step>)
    returns (run': seq<State>, steps': seq<Step>)
    requires IsRun(run, steps) && steps != [] && steps[|steps| - 1] == UseDirect && run[|steps| - 1].once != Ran
    ensures IsRun(run', steps') && run < run' && steps < steps' && run'[|run'| - 1].mode == VPN
  {
    run', steps' := run, steps;
    RunKeepsInv(run, steps, |run| - 1);
    if run[|run| - 1].once == NotRun {
      run', steps' := Extend(run, steps, LaunchLine(0));
    }
    ghost var mid, midSteps := run', steps';
    run', steps' := Extend(mid, midSteps, UseVpn(mid[|mid| - 1].once.stream));
  }

  /** Every SESSION_ESTABLISHED line is processed after some launch line has switched the proxy. */
  ghost predicate LaunchFirst(steps: seq<Step>) {
    forall i :: 0 <= i < |steps| && steps[i].ReadyLine? ==> exists j :: 0 <= j < i && steps[j].UseVpn?
  }

  lemma {:induction false} ReadyNeedsLaunch(run: seq<State>, steps: seq<Step>, n: nat)
    requires IsRun(run, steps) && n < |run| && LaunchFirst(steps)
    ensures (exists j :: 0 <= j < n && steps[j].UseVpn?) ==> run[n].once == Ran
    ensures run[n].ready || run[n].handedOff ==> run[n].once == Ran
  {
    if n > 0 {
      ReadyNeedsLaunch(run, steps, n - 1);
      var s, step := run[n - 1], steps[n - 1];
      if step.ReadyLine? {
        var j :| 0 <= j < n - 1 && steps[j].UseVpn?;
      }
    }
  }

  /** If launch comes first, the finished handoff leaves exactly direct, VPN, direct, and the proxy stays direct. */
  lemma {:induction false} HandoffStaysDirect(run: seq<State>, steps: seq<Step>, n: nat)
    requires IsRun(run, steps) && n < |run| && LaunchFirst(steps)
    ensures run[n].directCalls == 1 ==> run[n].mode == DIRECT && run[n].history == [DIRECT, VPN, DIRECT]
  {
    RunKeepsInv(run, steps, n);
    if n > 0 && run[n].directCalls == 1 {
      HandoffStaysDirect(run, steps, n - 1);
      RunKeepsInv(run, steps, n - 1);
      ReadyNeedsLaunch(run, steps, n - 1);
    }
  }

  /** Without that order the handoff can end on the VPN path: session line first, launch line later. */
  lemma SessionBeforeLaunch() returns (run: seq<State>, steps: seq<Step>)
    ensures IsRun(run, steps)
    ensures var last := run[|run| - 1]; last.handedOff && last.directCalls == 1 && last.mode == VPN
  {
    steps := [ReadyLine(0), TakeReady, UseDirect, LaunchLine(1), UseVpn(1)];
    run := [INITIAL];
    run := run + [Next(run[0], steps[0])];
    run := run + [Next(run[1], steps[1])];
    run := run + [Next(run[2], steps[2])];
    run := run + [Next(run[3], steps[3])];
    run := run + [Next(run[4], steps[4])];
  }

  /** The handoff as it is meant: launch line, VPN, session line, direct. */
  lemma HandoffHappens(st: Stream) returns (run: seq<State>, steps: seq<Step>)
    ensures IsRun(run, steps) && LaunchFirst(steps)
    ensures steps == [LaunchLine(st), UseVpn(st), ReadyLine(st), TakeReady, UseDirect]
    ensures run[2].mode == VPN && run[2].history == [DIRECT, VPN]
    ensures run[5].mode == DIRECT && run[5].history == [DIRECT, VPN, DIRECT] && run[5].handedOff
  {
    steps := [LaunchLine(st), UseVpn(st), ReadyLine(st), TakeReady, UseDirect];
    assert steps[1].UseVpn?;
    run := [INITIAL];
    run := run + [Next(run[0], steps[0])];
    run := run + [Next(run[1], steps[1])];
    run := run + [Next(run[2], steps[2])];
    run := run + [Next(run[3], steps[3])];
    run := run + [Next(run[4], steps[4])];
  }
}
