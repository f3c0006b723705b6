/**
 * linuxHTTPProxy's mode switch under every interleaving of accepting, dialling, handler exit and any number of
 * concurrent setMode and Close calls.
 */
module ProxyMode {
  import opened Bytes

  datatype Mode = Direct | Vpn

  type ConnId = nat
  type Call = nat

  /** Where the handler of a client connection is. It is in the active map while Handling or Exiting. */
  datatype Stage = Accepted | Handling | Exiting | Gone

  datatype Client = Client(stage: Stage, alive: bool, dialled: Option<Mode>)

  /**
   * A setMode call past its swap, or a Close call (Closing without switching). before is bookkeeping: the clients
   * that had dialled at the swap.
   */
  datatype Phase =
    | Swapped(before: set<ConnId>)
    | Closing(switching: bool, before: set<ConnId>, rest: seq<ConnId>)

  datatype State = State(mode: Mode, clients: map<ConnId, Client>, calls: map<Call, Phase>)

  const INITIAL: State := State(Direct, map[], map[])

  datatype Step =
    | Accept(c: ConnId)                        // linux_bootstrap_proxy.go:500
    | Track(c: ConnId)                         // 504
    | LoadMode(c: ConnId)                      // 521
    | CloseClient(c: ConnId)                   // 507
    | Untrack(c: ConnId)                       // 506
    | Swap(call: Call, mode: Mode)             // 470-473
    | Snapshot(call: Call, list: seq<ConnId>)  // 474-479
    | CloseNext(call: Call)                    // 480-482, 607-609
    | Shutdown(call: Call, list: seq<ConnId>)  // 601-606

  predicate Active(s: State, c: ConnId) {
    c in s.clients && (s.clients[c].stage == Handling || s.clients[c].stage == Exiting)
  }

  function Dialled(s: State): set<ConnId> {
    set c | c in s.clients && s.clients[c].dialled.Some?
  }

  ghost predicate ListsActive(s: State, list: seq<ConnId>) {
    forall c :: c in list <==> Active(s, c)
  }

  ghost predicate Enabled(s: State, step: Step) {
    match step
    case Accept(c) => c !in s.clients
    case Track(c) => c in s.clients && s.clients[c].stage == Accepted
    case LoadMode(c) => c in s.clients && s.clients[c].stage == Handling && s.clients[c].dialled.None?
    case CloseClient(c) => c in s.clients && s.clients[c].stage == Handling
    case Untrack(c) => c in s.clients && s.clients[c].stage == Exiting
    case Swap(call, _) => call !in s.calls
    case Snapshot(call, list) => call in s.calls && s.calls[call].Swapped? && ListsActive(s, list)
    case CloseNext(call) => call in s.calls && s.calls[call].Closing? && s.calls[call].rest != []
    case Shutdown(call, list) => call !in s.calls && ListsActive(s, list)
  }

  function Put(s: State, c: ConnId, cl: Client): State {
    s.(clients := s.clients[c := cl])
  }

  /** Record a call's remaining closes; a call with none left has returned. */
  function WithRest(s: State, call: Call, switching: bool, before: set<ConnId>, rest: seq<ConnId>): State {
    s.(calls := if rest == [] then s.calls - {call} else s.calls[call := Closing(switching, before, rest)])
  }

  ghost function Next(s: State, step: Step): State
    requires Enabled(s, step)
  {
    match step
    case Accept(c) => Put(s, c, Client(Accepted, true, None))
    case Track(c) => Put(s, c, s.clients[c].(stage := Handling))
    case LoadMode(c) => Put(s, c, s.clients[c].(dialled := Some(s.mode)))
    case CloseClient(c) => Put(s, c, s.clients[c].(stage := Exiting, alive := false))
    case Untrack(c) => Put(s, c, s.clients[c].(stage := Gone))
    case Swap(call, mode) =>
      if s.mode == mode then s
      else s.(mode := mode, calls := s.calls[call := Swapped(Dialled(s))])
    case Snapshot(call, list) => WithRest(s, call, true, s.calls[call].before, list)
    case CloseNext(call) =>
      var ph := s.calls[call];
      var c := ph.rest[0];
      var s' := if c in s.clients then Put(s, c, s.clients[c].(alive := false)) else s;
      WithRest(s', call, ph.switching, ph.before, ph.rest[1..])
    case Shutdown(call, list) => WithRest(s, call, false, {}, list)
  }

  ghost predicate IsRun(run: seq<State>, steps: seq<Step>) {
    && |run| == |steps| + 1
    && run[0] == INITIAL
    && (forall i :: 0 <= i < |steps| ==> Enabled(run[i], steps[i]) && run[i + 1] == Next(run[i], steps[i]))
  }

  // ----- the invariant -----

  /** Tracked before dialling, closed before untracking. */
  ghost predicate StagesOk(s: State) {
    forall c :: c in s.clients ==>
      && (s.clients[c].stage == Accepted ==> s.clients[c].dialled.None?)
      && (s.clients[c].stage == Exiting || s.clients[c].stage == Gone ==> !s.clients[c].alive)
  }

  /** An open client whose upstream was dialled under another mode than the current one. */
  predicate Stale(s: State, c: ConnId) {
    c in s.clients && s.clients[c].alive && s.clients[c].dialled.Some? && s.clients[c].dialled.value != s.mode
  }

  /** A setMode call that changed the mode and has not returned. */
  predicate Switching(s: State, call: Call) {
    call in s.calls && (s.calls[call].Swapped? || s.calls[call].switching)
  }

  /** The call is bound to close c: it has not taken its snapshot yet, or c is still on its list. */
  predicate WillClose(s: State, call: Call, c: ConnId) {
    Switching(s, call) && (s.calls[call].Swapped? || c in s.calls[call].rest)
  }

  ghost predicate Covered(s: State, c: ConnId) {
    exists call :: WillClose(s, call, c)
  }

  ghost predicate StaleCovered(s: State) {
    forall c :: Stale(s, c) ==> Covered(s, c)
  }

  /** Each call is still bound to close every open client that had dialled at its swap. */
  ghost predicate BeforeCovered(s: State) {
    forall call, c :: call in s.calls && c in s.calls[call].before ==>
      c in s.clients && s.clients[c].dialled.Some? && (s.clients[c].alive ==> WillClose(s, call, c))
  }

  ghost predicate Inv(s: State) {
    StagesOk(s) && StaleCovered(s) && BeforeCovered(s)
  }

  lemma StagesStep(s: State, step: Step)
    requires StagesOk(s) && Enabled(s, step)
    ensures StagesOk(Next(s, step))
  {
  }

  /** An open client that has dialled is in the active map, so every snapshot lists it. */
  lemma DialledIsActive(s: State, c: ConnId)
    requires StagesOk(s) && c in s.clients && s.clients[c].alive && s.clients[c].dialled.Some?
    ensures Active(s, c)
  {
  }

  lemma WillCloseStep(s: State, step: Step, call: Call, c: ConnId)
    requires StagesOk(s) && Enabled(s, step) && WillClose(s, call, c)
    requires c in s.clients && s.clients[c].dialled.Some?
    requires c in Next(s, step).clients && Next(s, step).clients[c].alive
    ensures WillClose(Next(s, step), call, c)
  {
    var s' := Next(s, step);
    assert s.clients[c].alive;
    match step
    case Snapshot(k, list) =>
      if k == call {
        DialledIsActive(s, c);
        assert c in list;
      }
    case CloseNext(k) =>
      if k == call {
        var rest := s.calls[k].rest;
        assert rest == [rest[0]] + rest[1..];
      }
    case _ =>
  }

  lemma StaleStep(s: State, step: Step, c: ConnId)
    requires Inv(s) && Enabled(s, step) && Stale(Next(s, step), c)
    ensures Covered(Next(s, step), c)
  {
    var s' := Next(s, step);
    if Stale(s, c) {
      var call :| WillClose(s, call, c);
      WillCloseStep(s, step, call, c);
    } else {
      assert step.Swap? && s.mode != step.mode;
      assert WillClose(s', step.call, c);
    }
  }

  lemma BeforeStep(s: State, step: Step, call: Call, c: ConnId)
    requires Inv(s) && Enabled(s, step)
    requires call in Next(s, step).calls && c in Next(s, step).calls[call].before
    ensures var s' := Next(s, step);
      c in s'.clients && s'.clients[c].dialled.Some? && (s'.clients[c].alive ==> WillClose(s', call, c))
  {
    var s' := Next(s, step);
    if call in s.calls && c in s.calls[call].before {
      assert c in s.clients && s.clients[c].dialled.Some?;
      if s'.clients[c].alive {
        WillCloseStep(s, step, call, c);
      }
    }
  }

  lemma StepKeepsInv(s: State, step: Step)
    requires Inv(s) && Enabled(s, step)
    ensures Inv(Next(s, step))
  {
    var s' := Next(s, step);
    StagesStep(s, step);
    forall c | Stale(s', c) ensures Covered(s', c) {
      StaleStep(s, step, c);
    }
    forall call, c | call in s'.calls && c in s'.calls[call].before
      ensures c in s'.clients && s'.clients[c].dialled.Some? && (s'.clients[c].alive ==> WillClose(s', call, c))
    {
      BeforeStep(s, step, call, c);
    }
  }

  lemma {:induction false} RunKeepsInv(run: seq<State>, steps: seq<Step>, n: nat)
    requires IsRun(run, steps) && n < |run|
    ensures Inv(run[n])
  {
    if n > 0 {
      RunKeepsInv(run, steps, n - 1);
      StepKeepsInv(run[n - 1], steps[n - 1]);
    }
  }

  // ----- what the invariant buys -----

  lemma QuietMeansFresh(s: State)
    requires Inv(s) && forall call :: !Switching(s, call)
    ensures forall c :: !Stale(s, c)
  {
  }

  /** Whenever no setMode is in flight, no open client is connected through the other path. */
  lemma NoStaleWhenQuiet(run: seq<State>, steps: seq<Step>, n: nat)
    requires IsRun(run, steps) && n < |run|
    ensures (forall call :: !Switching(run[n], call)) ==> forall c :: !Stale(run[n], c)
  {
    RunKeepsInv(run, steps, n);
  }

  /** When a setMode call that changed the mode returns, everything dialled before its swap is closed. */
  lemma ReturnedCallClosedAll(s: State, step: Step, call: Call, c: ConnId)
    requires Inv(s) && Enabled(s, step)
    requires call in s.calls && c in s.calls[call].before && call !in Next(s, step).calls
    ensures c in Next(s, step).clients && !Next(s, step).clients[c].alive
  {
    var s' := Next(s, step);
    assert c in s.clients && s.clients[c].dialled.Some?;
    if s'.clients[c].alive {
      WillCloseStep(s, step, call, c);
    }
  }

  // ----- what is listed is closed -----

  /** The call has c on its list, or c has been closed. */
  predicate ListedOrClosed(s: State, call: Call, c: ConnId) {
    c in s.clients && (s.clients[c].alive ==> call in s.calls && s.calls[call].Closing? && c in s.calls[call].rest)
  }

  lemma ListedStep(s: State, step: Step, call: Call, c: ConnId)
    requires Enabled(s, step) && ListedOrClosed(s, call, c)
    ensures ListedOrClosed(Next(s, step), call, c)
  {
    match step
    case CloseNext(k) =>
      if k == call {
        var rest := s.calls[k].rest;
        assert rest == [rest[0]] + rest[1..];
      }
    case _ =>
  }

  /** Step j lists what is active, in a setMode call after its swap or in Close. */
  predicate Lists(steps: seq<Step>, j: nat, call: Call) {
    && j < |steps|
    && ((steps[j].Snapshot? && steps[j].call == call) || (steps[j].Shutdown? && steps[j].call == call))
  }

  lemma {:induction false} ListedStays(run: seq<State>, steps: seq<Step>, j: nat, n: nat, call: Call, c: ConnId)
    requires IsRun(run, steps) && Lists(steps, j, call) && j < n <= |steps| && Active(run[j], c)
    ensures ListedOrClosed(run[n], call, c)
  {
    assert Enabled(run[n - 1], steps[n - 1]) && run[n] == Next(run[n - 1], steps[n - 1]);
    if n == j + 1 {
      assert c in steps[j].list;
    } else {
      ListedStays(run, steps, j, n - 1, call, c);
      ListedStep(run[n - 1], steps[n - 1], call, c);
    }
  }

  /** When a Close call or a setMode call that changed the mode returns, every client then in the map is closed. */
  lemma ReturnedCallClosedListed(run: seq<State>, steps: seq<Step>, j: nat, n: nat, call: Call)
    requires IsRun(run, steps) && Lists(steps, j, call) && j < n <= |steps| && call !in run[n].calls
    ensures forall c :: Active(run[j], c) ==> c in run[n].clients && !run[n].clients[c].alive
  {
    forall c | Active(run[j], c)
      ensures c in run[n].clients && !run[n].clients[c].alive
    {
      ListedStays(run, steps, j, n, call, c);
    }
  }

  /** Step j is a setMode call's swap to another mode. */
  predicate SwitchesAt(run: seq<State>, steps: seq<Step>, j: nat, call: Call) {
    j < |steps| && j < |run| && steps[j].Swap? && steps[j].call == call && steps[j].mode != run[j].mode
  }

  predicate DialledBy(s: State, c: ConnId) {
    c in s.clients && s.clients[c].dialled.Some?
  }

  /** The swap that changes the mode notes exactly the clients that have dialled. */
  lemma SwapNotes(s: State, call: Call, mode: Mode, c: ConnId)
    requires Enabled(s, Swap(call, mode)) && mode != s.mode
    ensures var s' := Next(s, Swap(call, mode));
      s'.mode == mode && call in s'.calls && s'.calls[call].Swapped? && (c in s'.calls[call].before <==> DialledBy(s, c))
  {
  }

  lemma DeadStays(s: State, step: Step, c: ConnId)
    requires Enabled(s, step) && DialledBy(s, c)
    ensures DialledBy(Next(s, step), c)
    ensures !s.clients[c].alive ==> !Next(s, step).clients[c].alive
  {
  }

  lemma {:induction false} SwitchStays(run: seq<State>, steps: seq<Step>, j: nat, n: nat, call: Call, c: ConnId)
    requires IsRun(run, steps) && SwitchesAt(run, steps, j, call) && j < n <= |steps| && DialledBy(run[j], c)
    ensures DialledBy(run[n], c) && (run[n].clients[c].alive ==> WillClose(run[n], call, c))
    decreases n
  {
    var s, step := run[n - 1], steps[n - 1];
    assert Enabled(s, step) && run[n] == Next(s, step);
    RunKeepsInv(run, steps, n - 1);
    if n > j + 1 {
      SwitchStays(run, steps, j, n - 1, call, c);
      DeadStays(s, step, c);
      hide Next, Enabled, StaleCovered, BeforeCovered;
      if run[n].clients[c].alive {
        WillCloseStep(s, step, call, c);
      }
    }
  }

  /** When a setMode call that changed the mode has returned, every client that had dialled at its swap is closed. */
  lemma ReturnedSwitchClosedDialled(run: seq<State>, steps: seq<Step>, j: nat, n: nat, call: Call)
    requires IsRun(run, steps) && SwitchesAt(run, steps, j, call) && j < n <= |steps| && call !in run[n].calls
    ensures forall c :: c in run[j].clients && run[j].clients[c].dialled.Some? ==>
        c in run[n].clients && !run[n].clients[c].alive
  {
    forall c | DialledBy(run[j], c)
      ensures c in run[n].clients && !run[n].clients[c].alive
    {
      SwitchStays(run, steps, j, n, call, c);
    }
  }

  // ----- the object -----

  /** The steps lead from s to s', each enabled where it is taken. */
  ghost predicate Leads(s: State, steps: seq<Step>, s': State)
    decreases |steps|
  {
    if steps == [] then s' == s
    else Enabled(s, steps[0]) && Leads(Next(s, steps[0]), steps[1..], s')
  }

  lemma {:induction false} LeadsOn(s: State, steps: seq<Step>, mid: State, step: Step)
    requires Leads(s, steps, mid) && Enabled(mid, step)
    ensures Leads(s, steps + [step], Next(mid, step))
    decreases |steps|
  {
    hide Next, Enabled;
    var all := steps + [step];
    if steps == [] {
      assert all[1..] == [];
    } else {
      LeadsOn(Next(s, steps[0]), steps[1..], mid, step);
      assert all[1..] == steps[1..] + [step];
    }
  }

  /** linuxHTTPProxy: mode and active are its fields, open the client sockets not yet closed. */
  class HttpProxy {
    var mode: Mode
    var active: set<ConnId>
    var open: set<ConnId>
    ghost var model: State

    /** The fields are those of the model state. */
    ghost predicate Valid()
      reads this
    {
      && mode == model.mode
      && (forall c :: c in active <==> Active(model, c))
      && (forall c :: c in open <==> c in model.clients && model.clients[c].alive)
    }

    constructor ()
      ensures Valid() && model == INITIAL
    {
      mode, active, open, model := Direct, {}, {}, INITIAL;
    }

    method AcceptConn(c: ConnId)
      requires Valid() && Enabled(model, Accept(c))
      modifies this
      ensures Valid() && model == Next(old(model), Accept(c))
    {
      open := open + {c};
      model := Next(model, Accept(c));
    }

    /** track: the step is Track when the handler starts and Untrack when it has ended. */
    method TrackConn(c: ConnId, add: bool)
      requires Valid() && Enabled(model, if add then Track(c) else Untrack(c))
      modifies this
      ensures Valid() && model == Next(old(model), if add then Track(c) else Untrack(c))
    {
      if add {
        active := active + {c};
      } else {
        active := active - {c};
      }
      model := Next(model, if add then Track(c) else Untrack(c));
    }

    /** The load in dial that decides which path a client's upstream takes. */
    method LoadMode(c: ConnId) returns (m: Mode)
      requires Valid() && Enabled(model, Step.LoadMode(c))
      modifies this
      ensures Valid() && model == Next(old(model), Step.LoadMode(c)) && model.clients[c].dialled == Some(m)
    {
      m := mode;
      model := Next(model, Step.LoadMode(c));
    }

    /** The handler's deferred close. */
    method CloseConn(c: ConnId)
      requires Valid() && Enabled(model, CloseClient(c))
      modifies this
      ensures Valid() && model == Next(old(model), CloseClient(c))
    {
      open := open - {c};
      model := Next(model, CloseClient(c));
    }

    /** The atomic swap of setMode. */
    method SwapMode(call: Call, m: Mode) returns (changed: bool)
      requires Valid() && Enabled(model, Swap(call, m))
      modifies this
      ensures Valid() && model == Next(old(model), Swap(call, m)) && active == old(active) && open == old(open)
      ensures changed <==> old(mode) != m
    {
      changed := mode != m;
      mode := m;
      model := Next(model, Swap(call, m));
    }

    /** The locked copy of the active map, in any order. */
    method SnapshotActive(call: Call) returns (conns: seq<ConnId>)
      requires Valid() && call in model.calls && model.calls[call].Swapped?
      modifies this`model
      ensures Valid() && ListsActive(old(model), conns) && model == Next(old(model), Snapshot(call, conns))
    {
      conns := ListActive();
      model := Next(model, Snapshot(call, conns));
    }

    /** The loop that copies the keys of active. */
    method ListActive() returns (conns: seq<ConnId>)
      ensures forall c :: c in conns <==> c in active
    {
      conns := [];
      var todo := active;
      while todo != {}
        invariant todo <= active
        invariant forall c :: c in conns <==> c in active && c !in todo
        decreases |todo|
      {
        var c :| c in todo;
        todo := todo - {c};
        conns := conns + [c];
      }
    }

    /** One close of the loop in setMode; a close of a closed connection does nothing. */
    method CloseListed(call: Call, c: ConnId)
      requires Valid() && Enabled(model, CloseNext(call)) && model.calls[call].rest[0] == c
      modifies this
      ensures Valid() && model == Next(old(model), CloseNext(call))
      ensures mode == old(mode) && active == old(active) && open == old(open) - {c}
    {
      open := open - {c};
      model := Next(model, CloseNext(call));
    }

    /** The loop of setMode over its snapshot, with no step of others between its own. */
    method CloseAll(call: Call, conns: seq<ConnId>, ghost start: State, ghost before: seq<Step>)
      returns (ghost steps: seq<Step>)
      requires Valid() && Leads(start, before, model)
      requires if conns == [] then call !in model.calls
               else call in model.calls && model.calls[call].Closing? && model.calls[call].rest == conns
      modifies this
      ensures Valid() && Leads(start, steps, model) && call !in model.calls
      ensures mode == old(mode) && active == old(active) && open == old(open) - (set c | c in conns)
    {
      steps := before;
      var i := 0;
      while i < |conns|
        invariant i <= |conns| && Valid() && Leads(start, steps, model)
        invariant mode == old(mode) && active == old(active) && open == old(open) - (set c | c in conns[..i])
        invariant if i == |conns| then call !in model.calls
                  else call in model.calls && model.calls[call].Closing? && model.calls[call].rest == conns[i..]
        decreases |conns| - i
      {
        LeadsOn(start, steps, model, CloseNext(call));
        hide Leads;
        steps := steps + [CloseNext(call)];
        CloseListed(call, conns[i]);
        assert conns[i..][1..] == conns[i + 1..];
        assert conns[..i + 1] == conns[..i] + [conns[i]];
        i := i + 1;
      }
      assert conns[..i] == conns;
    }

    /** One Close call with no step of others between its own. */
    method Close(call: Call) returns (ghost steps: seq<Step>)
      requires Valid() && call !in model.calls
      modifies this
      ensures Valid() && Leads(old(model), steps, model)
      ensures mode == old(mode) && active == old(active) && open == old(open) - active && call !in model.calls
    {
      ghost var start := model;
      var conns := ListActive();
      LeadsOn(start, [], model, Shutdown(call, conns));
      steps := [] + [Shutdown(call, conns)];
      hide Leads;
      model := Next(model, Shutdown(call, conns));
      steps := CloseAll(call, conns, start, steps);
      assert (set c | c in conns) == active;
    }

    /** One setMode call with no step of others between its own: the steps it takes, and what it leaves open. */
    method SetMode(call: Call, m: Mode) returns (ghost steps: seq<Step>)
      requires Valid() && call !in model.calls
      modifies this
      ensures Valid() && Leads(old(model), steps, model)
      ensures mode == m && active == old(active) && call !in model.calls
      ensures open == if old(mode) != m then old(open) - active else old(open)
    {
      ghost var start := model;
      LeadsOn(start, [], model, Swap(call, m));
      steps := [] + [Swap(call, m)];
      hide Leads;
      var changed := SwapMode(call, m);
      if !changed {
        return;
      }
      ghost var swapped := model;
      var conns := SnapshotActive(call);
      LeadsOn(start, steps, swapped, Snapshot(call, conns));
      steps := steps + [Snapshot(call, conns)];
      steps := CloseAll(call, conns, start, steps);
      assert (set c | c in conns) == active;
    }
  }

  /** A setMode call run to its end keeps the invariant, as every sequence of steps does. */
  lemma {:induction false} LeadsKeepsInv(s: State, steps: seq<Step>, s': State)
    requires Inv(s) && Leads(s, steps, s')
    ensures Inv(s')
    decreases |steps|
  {
    if steps != [] {
      StepKeepsInv(s, steps[0]);
      LeadsKeepsInv(Next(s, steps[0]), steps[1..], s');
    }
  }
}
