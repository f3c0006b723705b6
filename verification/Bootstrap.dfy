/**
 * The handoff and the proxy it switches, together: UseVPN and UseDirect are setMode calls of the one proxy, beside
 * its accepting, dialling and closing of clients.
 */
module Bootstrap {
  import opened Bytes
  import Handoff
  import ProxyMode

  type Mode = ProxyMode.Mode

  const DIRECT: Mode := ProxyMode.Direct

  datatype State = State(hand: Handoff.State, proxy: ProxyMode.State)

  const INITIAL: State := State(Handoff.INITIAL, ProxyMode.INITIAL)

  /**
   * A UseVPN or UseDirect call swaps the mode as a step of both; its snapshot and its closes are steps of the proxy
   * alone, so the call has returned once it is no longer among the proxy's calls.
   */
  datatype Step =
    | Switch(use: Handoff.Step, call: ProxyMode.Call)   // linux_bootstrap_proxy.go:692-693, 714
    | Hand(hand: Handoff.Step)                          // any other step of the handoff
    | Proxy(proxy: ProxyMode.Step)                      // any other step of the proxy

  predicate Switches(h: Handoff.Step) {
    h.UseVpn? || h.UseDirect?
  }

  /** The setMode step that a UseVPN or UseDirect call begins with. */
  function SwapOf(h: Handoff.Step, call: ProxyMode.Call): ProxyMode.Step {
    ProxyMode.Swap(call, if h.UseVpn? then ProxyMode.Vpn else DIRECT)
  }

  ghost predicate Enabled(s: State, step: Step) {
    match step
    case Switch(h, call) =>
      Switches(h) && Handoff.Enabled(s.hand, h) && ProxyMode.Enabled(s.proxy, SwapOf(h, call))
    case Hand(h) => !Switches(h) && Handoff.Enabled(s.hand, h)
    case Proxy(p) => !p.Swap? && ProxyMode.Enabled(s.proxy, p)
  }

  ghost function Next(s: State, step: Step): State
    requires Enabled(s, step)
  {
    match step
    case Switch(h, call) => State(Handoff.Next(s.hand, h), ProxyMode.Next(s.proxy, SwapOf(h, call)))
    case Hand(h) => s.(hand := Handoff.Next(s.hand, h))
    case Proxy(p) => s.(proxy := ProxyMode.Next(s.proxy, p))
  }

  ghost predicate IsRun(run: seq<State>, steps: seq<Step>) {
    && |run| == |steps| + 1
    && run[0] == INITIAL
    && (forall i :: 0 <= i < |steps| ==> Enabled(run[i], steps[i]) && run[i + 1] == Next(run[i], steps[i]))
  }

  /** Both halves satisfy their own invariants and agree on the mode. */
  ghost predicate Inv(s: State) {
    Handoff.Inv(s.hand) && ProxyMode.Inv(s.proxy) && s.hand.mode == s.proxy.mode
  }

  lemma HandStep(s: Handoff.State, step: Handoff.Step)
    requires Handoff.Enabled(s, step)
    ensures Handoff.Next(s, step).mode == if Switches(step) then SwapOf(step, 0).mode else s.mode
    ensures s.once == Handoff.Ran ==> !step.UseVpn? && Handoff.Next(s, step).once == Handoff.Ran
  {
  }

  lemma ProxyStep(s: ProxyMode.State, step: ProxyMode.Step)
    requires ProxyMode.Enabled(s, step)
    ensures ProxyMode.Next(s, step).mode == if step.Swap? then step.mode else s.mode
  {
  }

  lemma StepKeepsInv(s: State, step: Step)
    requires Inv(s) && Enabled(s, step)
    ensures Inv(Next(s, step))
  {
    hide Handoff.Inv, Handoff.Next, Handoff.Enabled, ProxyMode.Inv, ProxyMode.Next, ProxyMode.Enabled;
    match step
    case Switch(h, call) =>
      Handoff.StepKeepsInv(s.hand, h);
      HandStep(s.hand, h);
      ProxyMode.StepKeepsInv(s.proxy, SwapOf(h, call));
      ProxyStep(s.proxy, SwapOf(h, call));
    case Hand(h) =>
      Handoff.StepKeepsInv(s.hand, h);
      HandStep(s.hand, h);
    case Proxy(p) =>
      ProxyMode.StepKeepsInv(s.proxy, p);
      ProxyStep(s.proxy, p);
  }

  lemma InitialInv()
    ensures Inv(INITIAL)
  {
  }

  lemma {:induction false} RunKeepsInv(run: seq<State>, steps: seq<Step>, n: nat)
    requires IsRun(run, steps) && n < |run|
    ensures Inv(run[n])
  {
    hide Inv, Next, Enabled;
    if n == 0 {
      InitialInv();
    } else {
      RunKeepsInv(run, steps, n - 1);
      StepKeepsInv(run[n - 1], steps[n - 1]);
    }
  }

  /** Step d is a UseDirect call made when the activation has run. */
  ghost predicate HandsBack(run: seq<State>, steps: seq<Step>, d: nat) {
    && d < |steps| && d < |run|
    && steps[d].Switch? && steps[d].use == Handoff.UseDirect
    && run[d].hand.once == Handoff.Ran
  }

  /** A switch back made after the activation has run is never undone. */
  lemma {:induction false} DirectForGood(run: seq<State>, steps: seq<Step>, d: nat, n: nat)
    requires IsRun(run, steps) && d < n < |run| && HandsBack(run, steps, d)
    ensures run[n].hand.once == Handoff.Ran && run[n].hand.mode == DIRECT
    decreases n
  {
    hide Handoff.Next, Handoff.Enabled, ProxyMode.Next, ProxyMode.Enabled;
    var s, step := run[n - 1], steps[n - 1];
    assert Enabled(s, step) && run[n] == Next(s, step);
    if n > d + 1 {
      DirectForGood(run, steps, d, n - 1);
    }
    match step
    case Switch(h, _) => HandStep(s.hand, h);
    case Hand(h) => HandStep(s.hand, h);
    case Proxy(_) =>
  }

  /**
   * Once UseDirect has been called with the activation run, then whenever no setMode call is in flight, every open
   * client that has dialled was dialled direct: nothing is left on the VPN that is disconnected next.
   */
  lemma AllDirectAfterHandoff(run: seq<State>, steps: seq<Step>, d: nat, n: nat, c: ProxyMode.ConnId)
    requires IsRun(run, steps) && d < n < |run| && HandsBack(run, steps, d)
    requires forall call :: !ProxyMode.Switching(run[n].proxy, call)
    requires c in run[n].proxy.clients && run[n].proxy.clients[c].alive
    ensures run[n].proxy.clients[c].dialled in {None, Some(DIRECT)}
  {
    RunKeepsInv(run, steps, n);
    DirectForGood(run, steps, d, n);
    ProxyMode.QuietMeansFresh(run[n].proxy);
    assert !ProxyMode.Stale(run[n].proxy, c);
  }
}
