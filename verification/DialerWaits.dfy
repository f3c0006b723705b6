/** No caller of linuxVPNDialer is forgotten, and none that has gone is still waited for. */
module DialerWaits {
  import opened Bytes
  import opened VpnDialer

  /** The call has registered its channel and has not returned. */
  predicate Expecting(s: State, c: Call) {
    At(s, c, Sending) || At(s, c, Waiting) || At(s, c, Cleanup)
  }

  /** The pending map, the reader or Close has the channel, to send on it once. */
  ghost predicate Held(s: State, c: Call) {
    exists h :: Holds(s, h, c)
  }

  /** The result lies in the channel. */
  predicate Answered(s: State, c: Call) {
    c in s.dials && |s.dials[c].buf| == 1
  }

  ghost predicate NoneForgotten(s: State) {
    forall c :: Expecting(s, c) ==> Held(s, c) || Answered(s, c)
  }

  /** While the dialer is open, only calls that have not returned are pending. */
  ghost predicate PendingWaits(s: State) {
    s.closer == NotClosed ==> forall id :: id in s.pending ==> Expecting(s, s.pending[id])
  }

  /** Who holds a channel after a step other than the one that empties the pending map. */
  function Onto(s: State, step: Step, h: Holder): Holder {
    match step
    case TakePending(k) => if k in s.responses && h == ByPending(s.responses[k].id) then ByReader else h
    case WrapFails(k) => if k in s.responses && h == ByPending(s.responses[k].id) then ByReader else h
    case CloseSend => if h.ByCloser? && h.i > 0 then ByCloser(h.i - 1) else h
    case _ => h
  }

  lemma HeldOn(s: State, step: Step, c: Call, h: Holder)
    requires Enabled(s, step) && ChannelsOk(s) && IdsOk(s) && Holds(s, h, c)
    requires Target(s, step) != Some(c) && step != Unregister(c)
    ensures Held(Next(s, step), c)
  {
    if step.CloseTake? && h.ByPending? {
      assert h.id in step.ids;
      var i :| 0 <= i < |step.ids| && step.ids[i] == h.id;
      assert Holds(Next(s, step), ByCloser(i), c);
    } else {
      HeldElsewhere(s, step, c, h);
      assert Holds(Next(s, step), Onto(s, step, h), c);
    }
  }

  lemma HeldElsewhere(s: State, step: Step, c: Call, h: Holder)
    requires Enabled(s, step) && ChannelsOk(s) && IdsOk(s) && Holds(s, h, c)
    requires Target(s, step) != Some(c) && step != Unregister(c) && !(step.CloseTake? && h.ByPending?)
    ensures Holds(Next(s, step), Onto(s, step, h), c)
  {
    assert HeldOk(s, h, c);
    if step.Register? || step.Unregister? {
      OthersId(s, step.c, c);
    }
    hide Arrives, IdsOk, ChannelsOk;
    if h.ByPending? {
      PendingOn(s, step, c, h.id);
    }
  }

  lemma OthersId(s: State, d: Call, c: Call)
    requires IdsOk(s) && HasId(s, d) && HasId(s, c)
    ensures s.dials[d].id == s.dials[c].id <==> d == c
  {
  }

  lemma PendingOn(s: State, step: Step, c: Call, id: Word32)
    requires Enabled(s, step) && !step.CloseTake? && id in s.pending && s.pending[id] == c
    requires step.Register? || step.Unregister? ==> s.dials[step.c].id != id
    ensures Holds(Next(s, step), Onto(s, step, ByPending(id)), c)
  {
    hide Arrives;
  }

  lemma ExpectingFrom(s: State, step: Step, c: Call)
    requires Enabled(s, step) && Expecting(Next(s, step), c)
    ensures step == Register(c) || (Expecting(s, c) && step != Unregister(c))
  {
    hide Arrives;
    if c !in s.dials || s.dials[c].pc != Next(s, step).dials[c].pc {
      assert step.StartDial? || step.AllocId? || step.Register? || step.SendRequest? || step.SendFails? || step.Cancel?;
    }
  }

  lemma AnsweredStays(s: State, step: Step, c: Call)
    requires Enabled(s, step) && Expecting(Next(s, step), c) && Answered(s, c)
    requires step != Register(c) && Target(s, step) != Some(c)
    ensures Answered(Next(s, step), c)
  {
    hide Arrives;
  }

  lemma TargetAnswered(s: State, step: Step, c: Call)
    requires Enabled(s, step) && ChannelsOk(s) && Target(s, step) == Some(c)
    ensures Answered(Next(s, step), c)
  {
    SendNeverBlocks(s, step, c);
    SendsOf(s, step, c);
  }

  lemma RegisterHolds(s: State, c: Call)
    requires Enabled(s, Register(c))
    ensures Held(Next(s, Register(c)), c)
  {
    assert Holds(Next(s, Register(c)), ByPending(s.dials[c].id), c);
  }

  lemma NoneForgottenStep(s: State, step: Step)
    requires Enabled(s, step) && ChannelsOk(s) && IdsOk(s) && NoneForgotten(s)
    ensures NoneForgotten(Next(s, step))
  {
    hide Next, Enabled, ChannelsOk, IdsOk, Expecting, Answered, Held, Target;
    forall c | Expecting(Next(s, step), c)
      ensures Held(Next(s, step), c) || Answered(Next(s, step), c)
    {
      CallNotForgotten(s, step, c);
    }
  }

  lemma CallNotForgotten(s: State, step: Step, c: Call)
    requires Enabled(s, step) && ChannelsOk(s) && IdsOk(s) && NoneForgotten(s) && Expecting(Next(s, step), c)
    ensures Held(Next(s, step), c) || Answered(Next(s, step), c)
  {
    hide Next, Enabled, ChannelsOk, IdsOk, Expecting, Answered, Target;
    ExpectingFrom(s, step, c);
    if step == Register(c) {
      RegisterHolds(s, c);
    } else if Target(s, step) == Some(c) {
      TargetAnswered(s, step, c);
    } else if Answered(s, c) {
      AnsweredStays(s, step, c);
    } else if Held(s, c) {
      var h :| Holds(s, h, c);
      HeldOn(s, step, c, h);
    }
  }

  lemma PendingFrom(s: State, step: Step, id: Word32)
    requires Enabled(s, step) && id in Next(s, step).pending
    ensures || step == Register(Next(s, step).pending[id])
            || (id in s.pending && s.pending[id] == Next(s, step).pending[id])
    ensures step.Unregister? ==> step.c in s.dials && id != s.dials[step.c].id
    ensures Next(s, step).closer == NotClosed ==> s.closer == NotClosed
  {
  }

  lemma PendingWaitsStep(s: State, step: Step)
    requires Enabled(s, step) && ChannelsOk(s) && IdsOk(s) && PendingWaits(s)
    ensures PendingWaits(Next(s, step))
  {
    var s' := Next(s, step);
    hide Next, Enabled, IdsOk, Expecting;
    forall id | s'.closer == NotClosed && id in s'.pending
      ensures Expecting(s', s'.pending[id])
    {
      PendingFrom(s, step, id);
      var c := s'.pending[id];
      if step == Register(c) {
        RegisteredExpects(s, c);
      } else {
        assert HeldOk(s, ByPending(id), c);
        StillExpects(s, step, c);
      }
    }
  }

  lemma RegisteredExpects(s: State, c: Call)
    requires Enabled(s, Register(c))
    ensures Expecting(Next(s, Register(c)), c)
  {
  }

  lemma StillExpects(s: State, step: Step, c: Call)
    requires Enabled(s, step) && Expecting(s, c) && s.closer == NotClosed && s.dials[c].buf == []
    requires step != Unregister(c)
    ensures Expecting(Next(s, step), c)
  {
  }

  /**
   * With at most 2^32 - 1 increments, in every interleaving: the result of a call that waits is in its channel, or the
   * channel is pending, with the reader or on Close's list; and until the dialer is closed, no call that has returned,
   * cancelled or not, is pending.
   */
  lemma {:induction false} NoCallerForgotten(run: seq<State>, steps: seq<Step>, n: nat)
    requires IsRun(run, steps) && n < |run| && run[n].allocs < WRAP32
    ensures NoneForgotten(run[n]) && PendingWaits(run[n])
  {
    LengthOf(run, steps);
    hide *;
    if n == 0 {
      AtStart(run, steps);
    } else {
      RunAllocs(run, steps, n - 1);
      NoCallerForgotten(run, steps, n - 1);
      RunKeepsInv(run, steps, n - 1);
      StepAt(run, steps, n - 1);
      OneStep(run[n - 1], steps[n - 1], run[n]);
    }
  }

  lemma LengthOf(run: seq<State>, steps: seq<Step>)
    requires IsRun(run, steps)
    ensures |run| == |steps| + 1
  {
  }

  lemma AtStart(run: seq<State>, steps: seq<Step>)
    requires IsRun(run, steps)
    ensures NoneForgotten(run[0]) && PendingWaits(run[0])
  {
  }

  lemma StepAt(run: seq<State>, steps: seq<Step>, i: nat)
    requires IsRun(run, steps) && i < |steps|
    ensures Enabled(run[i], steps[i]) && run[i + 1] == Next(run[i], steps[i])
  {
    hide Enabled, Next;
  }

  lemma OneStep(s: State, step: Step, s': State)
    requires Enabled(s, step) && s' == Next(s, step) && Inv(s) && NoneForgotten(s) && PendingWaits(s)
    ensures NoneForgotten(s') && PendingWaits(s')
  {
    hide Enabled, Next, NoneForgotten, PendingWaits, IdsOk, ChannelsOk;
    NoneForgottenStep(s, step);
    PendingWaitsStep(s, step);
  }

  /** An addition that yields 0 is made again, once. */
  lemma ZeroIsSkipped(s: State, c: Call)
    requires Enabled(s, AllocId(c))
    ensures var d := Next(s, AllocId(c)).dials[c];
      && d.id == (s.nextID + 1) % 0x1_0000_0000
      && (At(s, c, Start) && s.nextID == 0xffff_ffff ==> d.pc == Again)
      && (At(s, c, Again) || s.nextID != 0xffff_ffff ==> d.pc == Registering)
  {
  }

  /** The child reads the first 8187 characters of an address. */
  lemma ArrivesCutOff(address: Address)
    ensures |address| <= 8187 ==> Arrives(address) == address
    ensures |address| > 8187 ==> Arrives(address) == address[..8187] != address
  {
  }
}
