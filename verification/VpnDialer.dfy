/**
 * linuxVPNDialer and the child's request loop under every interleaving of dialling, answering, delivering,
 * cancelling and Close. A dial call and the result channel it makes share one name.
 */
module VpnDialer {
  import opened Bytes

  type Call = nat
  type Address = string
  type Conn = nat
  type Serial = nat

  datatype Result = Connected(conn: Conn) | Failed

  datatype Pc = Start | Again | Registering | Sending | Waiting | Cleanup | Returned(result: Result)

  /** One DialContext call: buf is the content of its channel (capacity 1), sends counts the sends on it. */
  datatype Dial = Dial(address: Address, pc: Pc, id: Word32, buf: seq<Result>, sends: nat)

  datatype Job = Job(id: Word32, address: Address)
  datatype Response = Response(id: Word32, result: Result)

  /** The longest address that fits the child's 8192-byte request buffer beside the kind byte and the id. */
  const MAX_TARGET: nat := 8187

  /** What the child reads of an address: a datagram that is too long for its buffer is cut off. */
  function Arrives(address: Address): Address {
    if |address| > MAX_TARGET then address[..MAX_TARGET] else address
  }

  /** readLoop between taking a channel out of pending and sending on it. */
  datatype Reader = Idle | Holding(channel: Option<Call>, result: Result)

  datatype Closer = NotClosed | Flagged | Draining(rest: seq<Call>)

  datatype State = State(
    nextID: Word32,
    allocs: nat,                        // atomic increments of nextID so far
    pending: map<Word32, Call>,
    dials: map<Call, Dial>,
    jobs: map<Serial, Job>,             // sent to the child and not yet answered
    responses: map<Serial, Response>,   // answered and not yet read
    reader: Reader,
    closer: Closer,
    dialledFor: seq<Address>,           // the address each child connection was dialled for
    closed: seq<Conn>)                  // connections the parent has closed

  const INITIAL: State := State(0, 0, map[], map[], map[], map[], Idle, NotClosed, [], [])

  datatype Step =
    | StartDial(c: Call, address: Address)                  // linux_bootstrap_proxy.go:55-58
    | AllocId(c: Call)                                      // 59-62
    | Register(c: Call)                                     // 63-66
    | SendRequest(c: Call, k: Serial)                       // 68-75
    | SendFails(c: Call)                                    // 76
    | Receive(c: Call)                                      // 84-85
    | Cancel(c: Call)                                       // 86
    | Unregister(c: Call)                                   // 77-80, 87-90
    | SeeClosed(c: Call)                                    // 91-92
    | ChildDials(k: Serial, k': Serial)                     // 263, 280
    | ChildFails(k: Serial, k': Serial)                     // 264-279
    | ChildIgnores(k: Serial)                               // 254-256, 280
    | TakePending(k: Serial)                                // 131-140, 97-100
    | WrapFails(k: Serial)                                  // 142-153, 97-100
    | Deliver                                               // 101-107
    | CloseFlag                                             // 164-167
    | CloseTake(ids: seq<Word32>)                           // 168-171
    | CloseSend                                             // 172-174

  predicate At(s: State, c: Call, pc: Pc) {
    c in s.dials && s.dials[c].pc == pc
  }

  /** CloseTake walks the pending map in any order. */
  ghost predicate Lists(s: State, ids: seq<Word32>) {
    && (forall id :: id in ids <==> id in s.pending)
    && (forall i, j :: 0 <= i < j < |ids| ==> ids[i] != ids[j])
  }

  ghost predicate Enabled(s: State, step: Step) {
    match step
    case StartDial(c, _) => c !in s.dials
    case AllocId(c) => At(s, c, Start) || At(s, c, Again)
    case Register(c) => At(s, c, Registering)
    case SendRequest(c, k) => At(s, c, Sending) && k !in s.jobs
    case SendFails(c) => At(s, c, Sending)
    case Receive(c) => At(s, c, Waiting) && s.dials[c].buf != []
    case Cancel(c) => At(s, c, Waiting)
    case Unregister(c) => At(s, c, Cleanup)
    case SeeClosed(c) => At(s, c, Waiting) && s.closer != NotClosed
    case ChildDials(k, k') => k in s.jobs && k' !in s.responses
    case ChildFails(k, k') => k in s.jobs && k' !in s.responses
    case ChildIgnores(k) => k in s.jobs
    case TakePending(k) => k in s.responses && s.reader == Idle
    case WrapFails(k) => k in s.responses && s.responses[k].result.Connected? && s.reader == Idle
    case Deliver => s.reader.Holding? && (s.reader.channel.Some? ==> s.reader.channel.value in s.dials)
    case CloseFlag => s.closer == NotClosed
    case CloseTake(ids) => s.closer == Flagged && Lists(s, ids)
    case CloseSend => s.closer.Draining? && s.closer.rest != [] && s.closer.rest[0] in s.dials
  }

  function SetPc(s: State, c: Call, pc: Pc): State
    requires c in s.dials
  {
    s.(dials := s.dials[c := s.dials[c].(pc := pc)])
  }

  function Send(s: State, c: Call, r: Result): State
    requires c in s.dials
  {
    var d := s.dials[c];
    s.(dials := s.dials[c := d.(buf := d.buf + [r], sends := d.sends + 1)])
  }

  ghost function Next(s: State, step: Step): State
    requires Enabled(s, step)
  {
    match step
    case StartDial(c, address) => s.(dials := s.dials[c := Dial(address, Start, 0, [], 0)])
    case AllocId(c) =>
      var id := (s.nextID + 1) % WRAP32;
      var pc := if id == 0 && s.dials[c].pc == Start then Again else Registering;
      s.(nextID := id, allocs := s.allocs + 1, dials := s.dials[c := s.dials[c].(pc := pc, id := id)])
    case Register(c) => SetPc(s, c, Sending).(pending := s.pending[s.dials[c].id := c])
    case SendRequest(c, k) =>
      SetPc(s, c, Waiting).(jobs := s.jobs[k := Job(s.dials[c].id, Arrives(s.dials[c].address))])
    case SendFails(c) => SetPc(s, c, Cleanup)
    case Receive(c) =>
      var d := s.dials[c];
      s.(dials := s.dials[c := d.(pc := Returned(d.buf[0]), buf := d.buf[1..])])
    case Cancel(c) => SetPc(s, c, Cleanup)
    case Unregister(c) => SetPc(s, c, Returned(Failed)).(pending := s.pending - {s.dials[c].id})
    case SeeClosed(c) => SetPc(s, c, Returned(Failed))
    case ChildDials(k, k') =>
      var job := s.jobs[k];
      s.(jobs := s.jobs - {k},
         responses := s.responses[k' := Response(job.id, Connected(|s.dialledFor|))],
         dialledFor := s.dialledFor + [job.address])
    case ChildFails(k, k') =>
      s.(jobs := s.jobs - {k}, responses := s.responses[k' := Response(s.jobs[k].id, Failed)])
    case ChildIgnores(k) => s.(jobs := s.jobs - {k})
    case TakePending(k) =>
      var r := s.responses[k];
      s.(responses := s.responses - {k},
         pending := s.pending - {r.id},
         reader := Holding(if r.id in s.pending then Some(s.pending[r.id]) else None, r.result))
    case WrapFails(k) =>
      var r := s.responses[k];
      s.(responses := s.responses - {k},
         pending := s.pending - {r.id},
         reader := Holding(if r.id in s.pending then Some(s.pending[r.id]) else None, Failed),
         closed := s.closed + [r.result.conn])
    case Deliver =>
      var h := s.reader;
      if h.channel.Some? then Send(s, h.channel.value, h.result).(reader := Idle)
      else s.(reader := Idle, closed := if h.result.Connected? then s.closed + [h.result.conn] else s.closed)
    case CloseFlag => s.(closer := Flagged)
    case CloseTake(ids) =>
      var rest := seq(|ids|, i requires 0 <= i < |ids| && ids[i] in s.pending => s.pending[ids[i]]);
      s.(pending := map[], closer := Draining(rest))
    case CloseSend => Send(s, s.closer.rest[0], Failed).(closer := Draining(s.closer.rest[1..]))
  }

  ghost predicate IsRun(run: seq<State>, steps: seq<Step>) {
    && |run| == |steps| + 1
    && run[0] == INITIAL
    && (forall i :: 0 <= i < |steps| ==> Enabled(run[i], steps[i]) && run[i + 1] == Next(run[i], steps[i]))
  }

  // ----- ids: fewer than 2^32 increments never repeat one -----

  predicate HasId(s: State, c: Call) {
    c in s.dials && s.dials[c].pc != Start
  }

  ghost predicate IdOk(s: State, c: Call) {
    HasId(s, c) ==> s.dials[c].pc != Again && 1 <= s.dials[c].id <= s.allocs
  }

  ghost predicate IdsOk(s: State) {
    && s.nextID == s.allocs
    && (forall c :: IdOk(s, c))
    && (forall a, b :: HasId(s, a) && HasId(s, b) && s.dials[a].id == s.dials[b].id ==> a == b)
  }

  /** A call that has its id keeps it, and its address. */
  lemma DialKept(s: State, step: Step, c: Call)
    requires Enabled(s, step) && c in s.dials
    ensures c in Next(s, step).dials && Next(s, step).dials[c].address == s.dials[c].address
    ensures HasId(s, c) && s.dials[c].pc != Again ==>
        HasId(Next(s, step), c) && Next(s, step).dials[c].id == s.dials[c].id && Next(s, step).dials[c].pc != Again
  {
  }

  lemma NewId(s: State, step: Step, c: Call)
    requires Enabled(s, step) && IdOk(s, c) && s.nextID == s.allocs && Next(s, step).allocs < WRAP32
    requires HasId(Next(s, step), c) && !HasId(s, c)
    ensures step == AllocId(c) && Next(s, step).allocs == s.allocs + 1
    ensures Next(s, step).dials[c].id == s.allocs + 1 && Next(s, step).dials[c].pc == Registering
  {
  }

  lemma AllocsGrow(s: State, step: Step)
    requires Enabled(s, step) && s.nextID == s.allocs && Next(s, step).allocs < WRAP32
    ensures s.allocs <= Next(s, step).allocs == Next(s, step).nextID
  {
  }

  lemma IdsStep(s: State, step: Step)
    requires IdsOk(s) && Enabled(s, step) && Next(s, step).allocs < WRAP32
    ensures IdsOk(Next(s, step))
  {
    var s' := Next(s, step);
    AllocsGrow(s, step);
    forall c | HasId(s', c)
      ensures IdOk(s', c)
      ensures HasId(s, c) ==> s'.dials[c].id == s.dials[c].id <= s.allocs
      ensures !HasId(s, c) ==> step == AllocId(c) && s'.dials[c].id == s.allocs + 1
    {
      assert IdOk(s, c);
      if HasId(s, c) {
        DialKept(s, step, c);
      } else {
        NewId(s, step, c);
      }
    }
  }

  // ----- channels: at most one party will ever send on each -----

  datatype Holder = ByPending(id: Word32) | ByReader | ByCloser(i: nat)

  predicate Holds(s: State, h: Holder, c: Call) {
    match h
    case ByPending(id) => id in s.pending && s.pending[id] == c
    case ByReader => s.reader.Holding? && s.reader.channel == Some(c)
    case ByCloser(i) => s.closer.Draining? && i < |s.closer.rest| && s.closer.rest[i] == c
  }

  predicate Registered(s: State, c: Call) {
    HasId(s, c) && s.dials[c].pc != Again && s.dials[c].pc != Registering
  }

  /** A channel somebody will send on is registered, under its own id, and has had no send. */
  ghost predicate HeldOk(s: State, h: Holder, c: Call) {
    Holds(s, h, c) ==>
      Registered(s, c) && s.dials[c].sends == 0 && s.dials[c].buf == [] && (h.ByPending? ==> h.id == s.dials[c].id)
  }

  predicate BufferOk(s: State, c: Call) {
    c in s.dials ==> |s.dials[c].buf| <= s.dials[c].sends <= 1 && (!Registered(s, c) ==> s.dials[c].sends == 0)
  }

  ghost predicate ChannelsOk(s: State) {
    && (forall h, c :: HeldOk(s, h, c))
    && (forall g, h, c :: Holds(s, g, c) && Holds(s, h, c) ==> g == h)
    && (forall c :: BufferOk(s, c))
  }

  /** Who held a channel before the step. */
  ghost function From(s: State, step: Step, h: Holder): Holder
    requires Enabled(s, step)
  {
    match step
    case TakePending(k) => if h == ByReader then ByPending(s.responses[k].id) else h
    case WrapFails(k) => if h == ByReader then ByPending(s.responses[k].id) else h
    case CloseTake(ids) => if h.ByCloser? && h.i < |ids| then ByPending(ids[h.i]) else h
    case CloseSend => if h.ByCloser? then ByCloser(h.i + 1) else h
    case _ => h
  }

  lemma HolderFrom(s: State, step: Step, h: Holder, c: Call)
    requires Enabled(s, step) && ChannelsOk(s) && Holds(Next(s, step), h, c)
    ensures (step == Register(c) && h == ByPending(s.dials[c].id)) || Holds(s, From(s, step, h), c)
  {
  }

  lemma HolderFromInjective(s: State, step: Step, g: Holder, h: Holder, c: Call)
    requires Enabled(s, step) && Holds(Next(s, step), g, c) && Holds(Next(s, step), h, c)
    requires From(s, step, g) == From(s, step, h)
    ensures g == h
  {
  }

  /** The call a step sends to, if it sends. */
  function Target(s: State, step: Step): Option<Call> {
    match step
    case Deliver => if s.reader.Holding? then s.reader.channel else None
    case CloseSend => if s.closer.Draining? && s.closer.rest != [] then Some(s.closer.rest[0]) else None
    case _ => None
  }

  lemma TargetHeld(s: State, step: Step, c: Call)
    requires Enabled(s, step) && Target(s, step) == Some(c)
    ensures Holds(s, if step.Deliver? then ByReader else ByCloser(0), c)
    ensures forall h :: Holds(Next(s, step), h, c) ==>
        From(s, step, h) != if step.Deliver? then ByReader else ByCloser(0)
  {
  }

  lemma SendsOf(s: State, step: Step, c: Call)
    requires Enabled(s, step) && c in s.dials
    ensures Target(s, step) == Some(c) ==> Next(s, step).dials[c].sends == s.dials[c].sends + 1
    ensures Target(s, step) == Some(c) ==> |Next(s, step).dials[c].buf| == |s.dials[c].buf| + 1
    ensures Target(s, step) != Some(c) ==> Next(s, step).dials[c].sends == s.dials[c].sends
    ensures Target(s, step) != Some(c) ==> |Next(s, step).dials[c].buf| <= |s.dials[c].buf|
  {
  }

  lemma RegisteredStep(s: State, step: Step, c: Call)
    requires Enabled(s, step)
    ensures Registered(s, c) ==> Registered(Next(s, step), c)
    ensures c in Next(s, step).dials && c !in s.dials ==>
        step.StartDial? && Next(s, step).dials[c].sends == 0 && Next(s, step).dials[c].buf == []
  {
  }

  lemma HeldStep(s: State, step: Step, h: Holder, c: Call)
    requires Enabled(s, step) && IdsOk(s) && ChannelsOk(s) && Holds(Next(s, step), h, c)
    ensures HeldOk(Next(s, step), h, c)
  {
    HolderFrom(s, step, h, c);
    assert BufferOk(s, c);
    if Holds(s, From(s, step, h), c) {
      assert HeldOk(s, From(s, step, h), c);
      if Target(s, step) == Some(c) {
        TargetHeld(s, step, c);
      }
    }
    SendsOf(s, step, c);
    DialKept(s, step, c);
    RegisteredStep(s, step, c);
    if h.ByPending? {
      HeldIdStep(s, step, h, c);
    }
  }

  lemma HeldIdStep(s: State, step: Step, h: Holder, c: Call)
    requires Enabled(s, step) && ChannelsOk(s) && Holds(Next(s, step), h, c) && h.ByPending?
    ensures c in s.dials && h.id == s.dials[c].id
  {
    HolderFrom(s, step, h, c);
    assert HeldOk(s, h, c);
  }

  lemma BufferStep(s: State, step: Step, c: Call)
    requires Enabled(s, step) && ChannelsOk(s)
    ensures BufferOk(Next(s, step), c)
  {
    assert BufferOk(s, c);
    RegisteredStep(s, step, c);
    if c in s.dials {
      SendsOf(s, step, c);
      if Target(s, step) == Some(c) {
        TargetHeld(s, step, c);
        assert HeldOk(s, if step.Deliver? then ByReader else ByCloser(0), c);
      }
    }
  }

  lemma ChannelsStep(s: State, step: Step)
    requires Enabled(s, step) && IdsOk(s) && ChannelsOk(s)
    ensures ChannelsOk(Next(s, step))
  {
    var s' := Next(s, step);
    forall h, c ensures HeldOk(s', h, c) {
      if Holds(s', h, c) {
        HeldStep(s, step, h, c);
      }
    }
    forall g, h, c | Holds(s', g, c) && Holds(s', h, c) ensures g == h {
      OneHolderStep(s, step, g, h, c);
    }
    forall c ensures BufferOk(s', c) {
      BufferStep(s, step, c);
    }
  }

  lemma OneHolderStep(s: State, step: Step, g: Holder, h: Holder, c: Call)
    requires Enabled(s, step) && ChannelsOk(s) && Holds(Next(s, step), g, c) && Holds(Next(s, step), h, c)
    ensures g == h
  {
    HolderFrom(s, step, g, c);
    HolderFrom(s, step, h, c);
    if step == Register(c) {
      assert HeldOk(s, g, c) && HeldOk(s, h, c);
    } else {
      HolderFromInjective(s, step, g, h, c);
    }
  }

  /** No send on a result channel ever blocks: the channel has had no send and is empty. */
  lemma SendNeverBlocks(s: State, step: Step, c: Call)
    requires ChannelsOk(s) && Enabled(s, step) && Target(s, step) == Some(c)
    ensures s.dials[c].buf == [] && s.dials[c].sends == 0
  {
    TargetHeld(s, step, c);
    assert HeldOk(s, if step.Deliver? then ByReader else ByCloser(0), c);
  }

  // ----- a caller gets a connection dialled for its own address -----

  predicate IsFor(s: State, c: Call, n: Conn) {
    c in s.dials && n < |s.dialledFor| && Arrives(s.dials[c].address) == s.dialledFor[n]
  }

  /** Whoever has this id asked for an address that arrives as this one. */
  ghost predicate IdAsked(s: State, id: Word32, address: Address) {
    id <= s.allocs && forall c :: HasId(s, c) && s.dials[c].id == id ==> Arrives(s.dials[c].address) == address
  }

  /** A response with a connection carries one dialled for whoever has its id. */
  ghost predicate ResponseOk(s: State, r: Response) {
    r.result.Connected? ==> r.result.conn < |s.dialledFor| && IdAsked(s, r.id, s.dialledFor[r.result.conn])
  }

  predicate ReaderOk(s: State) {
    s.reader.Holding? && s.reader.result.Connected? ==>
      && s.reader.result.conn < |s.dialledFor|
      && (s.reader.channel.Some? ==> IsFor(s, s.reader.channel.value, s.reader.result.conn))
  }

  predicate DialOk(s: State, c: Call) {
    c in s.dials ==>
      && (forall r :: r in s.dials[c].buf && r.Connected? ==> IsFor(s, c, r.conn))
      && (s.dials[c].pc.Returned? && s.dials[c].pc.result.Connected? ==> IsFor(s, c, s.dials[c].pc.result.conn))
  }

  ghost predicate AddressesOk(s: State) {
    && (forall k :: k in s.jobs ==> IdAsked(s, s.jobs[k].id, s.jobs[k].address))
    && (forall k :: k in s.responses ==> ResponseOk(s, s.responses[k]))
    && ReaderOk(s)
    && (forall c :: DialOk(s, c))
  }

  lemma IdAskedStep(s: State, step: Step, id: Word32, address: Address)
    requires IdsOk(s) && Enabled(s, step) && Next(s, step).allocs < WRAP32 && IdAsked(s, id, address)
    ensures IdAsked(Next(s, step), id, address)
  {
    var s' := Next(s, step);
    AllocsGrow(s, step);
    forall c | HasId(s', c) && s'.dials[c].id == id ensures Arrives(s'.dials[c].address) == address {
      assert IdOk(s, c);
      if HasId(s, c) {
        DialKept(s, step, c);
      } else {
        NewId(s, step, c);
      }
    }
  }

  lemma DialledForGrows(s: State, step: Step)
    requires Enabled(s, step)
    ensures s.dialledFor <= Next(s, step).dialledFor
  {
  }

  lemma IsForStep(s: State, step: Step, c: Call, n: Conn)
    requires Enabled(s, step) && IsFor(s, c, n)
    ensures IsFor(Next(s, step), c, n)
  {
    DialKept(s, step, c);
    DialledForGrows(s, step);
  }

  lemma ResponseStep(s: State, step: Step, r: Response)
    requires IdsOk(s) && Enabled(s, step) && Next(s, step).allocs < WRAP32 && ResponseOk(s, r)
    ensures ResponseOk(Next(s, step), r)
  {
    if r.result.Connected? {
      DialledForGrows(s, step);
      IdAskedStep(s, step, r.id, s.dialledFor[r.result.conn]);
    }
  }

  /** Where a job or response of the next state comes from. */
  lemma MessagesFrom(s: State, step: Step, k: Serial)
    requires Enabled(s, step)
    ensures k in Next(s, step).jobs ==>
        || (k in s.jobs && s.jobs[k] == Next(s, step).jobs[k])
        || (step.SendRequest? && Next(s, step).jobs[k] == Job(s.dials[step.c].id, Arrives(s.dials[step.c].address)))
    ensures k in Next(s, step).responses ==>
        || (k in s.responses && s.responses[k] == Next(s, step).responses[k])
        || (step.ChildFails? && Next(s, step).responses[k].result == Failed)
        || (step.ChildDials? && Next(s, step).responses[k] == Response(s.jobs[step.k].id, Connected(|s.dialledFor|))
            && Next(s, step).dialledFor == s.dialledFor + [s.jobs[step.k].address])
  {
  }

  lemma JobStep(s: State, step: Step, k: Serial)
    requires IdsOk(s) && AddressesOk(s) && Enabled(s, step) && Next(s, step).allocs < WRAP32 && k in Next(s, step).jobs
    ensures IdAsked(Next(s, step), Next(s, step).jobs[k].id, Next(s, step).jobs[k].address)
  {
    MessagesFrom(s, step, k);
    var job := Next(s, step).jobs[k];
    if step.SendRequest? && !(k in s.jobs && s.jobs[k] == job) {
      assert IdOk(s, step.c);
    }
    IdAskedStep(s, step, job.id, job.address);
  }

  lemma NewResponseStep(s: State, step: Step, k: Serial)
    requires IdsOk(s) && AddressesOk(s) && Enabled(s, step) && Next(s, step).allocs < WRAP32
    requires k in Next(s, step).responses
    ensures ResponseOk(Next(s, step), Next(s, step).responses[k])
  {
    MessagesFrom(s, step, k);
    if k in s.responses && s.responses[k] == Next(s, step).responses[k] {
      ResponseStep(s, step, s.responses[k]);
    } else if step.ChildDials? {
      IdAskedStep(s, step, s.jobs[step.k].id, s.jobs[step.k].address);
    }
  }

  lemma ReaderStep(s: State, step: Step)
    requires IdsOk(s) && ChannelsOk(s) && AddressesOk(s) && Enabled(s, step)
    ensures ReaderOk(Next(s, step))
  {
    var s' := Next(s, step);
    DialledForGrows(s, step);
    if step.TakePending? {
      var r := s.responses[step.k];
      assert ResponseOk(s, r);
      if r.id in s.pending {
        assert HeldOk(s, ByPending(r.id), s.pending[r.id]);
      }
    } else if s'.reader == s.reader && s.reader.Holding? && s.reader.result.Connected? && s.reader.channel.Some? {
      IsForStep(s, step, s.reader.channel.value, s.reader.result.conn);
    }
  }

  /** What a call's channel and result can newly contain. */
  lemma DialFrom(s: State, step: Step, c: Call, r: Result)
    requires Enabled(s, step) && c in Next(s, step).dials
    requires r.Connected?
    requires r in Next(s, step).dials[c].buf || Next(s, step).dials[c].pc == Returned(r)
    ensures c in s.dials
    ensures r in s.dials[c].buf || s.dials[c].pc == Returned(r) || (step.Deliver? && s.reader == Holding(Some(c), r))
  {
  }

  lemma DialStep(s: State, step: Step, c: Call)
    requires AddressesOk(s) && Enabled(s, step)
    ensures DialOk(Next(s, step), c)
  {
    var s' := Next(s, step);
    if c in s'.dials {
      forall r: Result | r.Connected? && (r in s'.dials[c].buf || s'.dials[c].pc == Returned(r))
        ensures IsFor(s', c, r.conn)
      {
        DialFrom(s, step, c, r);
        assert DialOk(s, c);
        IsForStep(s, step, c, r.conn);
      }
    }
  }

  lemma AddressesStep(s: State, step: Step)
    requires IdsOk(s) && ChannelsOk(s) && AddressesOk(s) && Enabled(s, step) && Next(s, step).allocs < WRAP32
    ensures AddressesOk(Next(s, step))
  {
    var s' := Next(s, step);
    forall k | k in s'.jobs ensures IdAsked(s', s'.jobs[k].id, s'.jobs[k].address) {
      JobStep(s, step, k);
    }
    forall k | k in s'.responses ensures ResponseOk(s', s'.responses[k]) {
      NewResponseStep(s, step, k);
    }
    ReaderStep(s, step);
    forall c ensures DialOk(s', c) {
      DialStep(s, step, c);
    }
  }

  // ----- every child connection is in exactly one place -----

  datatype Place = InResponse(k: Serial) | InReader | InChannel(c: Call) | WithCaller(c: Call) | Shut(i: nat)

  predicate ConnAt(s: State, pl: Place, n: Conn) {
    match pl
    case InResponse(k) => k in s.responses && s.responses[k].result == Connected(n)
    case InReader => s.reader.Holding? && s.reader.result == Connected(n)
    case InChannel(c) => c in s.dials && s.dials[c].buf == [Connected(n)]
    case WithCaller(c) => c in s.dials && s.dials[c].pc == Returned(Connected(n))
    case Shut(i) => i < |s.closed| && s.closed[i] == n
  }

  ghost predicate Somewhere(s: State, n: Conn) {
    exists pl :: ConnAt(s, pl, n)
  }

  ghost predicate ConnsOk(s: State) {
    && (forall n: Conn :: Somewhere(s, n) <==> n < |s.dialledFor|)
    && (forall a, b, n: Conn :: ConnAt(s, a, n) && ConnAt(s, b, n) ==> a == b)
  }

  /** Where the connection at a place goes. */
  ghost function MovesTo(s: State, step: Step, pl: Place): Place
    requires Enabled(s, step)
  {
    match step
    case TakePending(k) => if pl == InResponse(k) then InReader else pl
    case WrapFails(k) => if pl == InResponse(k) then Shut(|s.closed|) else pl
    case Deliver =>
      if pl != InReader then pl
      else if s.reader.channel.Some? then InChannel(s.reader.channel.value)
      else Shut(|s.closed|)
    case Receive(c) => if pl == InChannel(c) then WithCaller(c) else pl
    case _ => pl
  }

  ghost function MovesFrom(s: State, step: Step, pl: Place): Place
    requires Enabled(s, step)
  {
    match step
    case TakePending(k) => if pl == InReader then InResponse(k) else pl
    case WrapFails(k) => if pl == Shut(|s.closed|) then InResponse(k) else pl
    case Deliver =>
      if s.reader.channel.Some? then if pl == InChannel(s.reader.channel.value) then InReader else pl
      else if pl == Shut(|s.closed|) then InReader else pl
    case Receive(c) => if pl == WithCaller(c) then InChannel(c) else pl
    case _ => pl
  }

  lemma ConnForward(s: State, step: Step, pl: Place, n: Conn)
    requires Enabled(s, step) && ChannelsOk(s) && ConnAt(s, pl, n)
    ensures ConnAt(Next(s, step), MovesTo(s, step, pl), n)
  {
    if Target(s, step).Some? {
      SendNeverBlocks(s, step, Target(s, step).value);
    }
    hide ChannelsOk, Arrives;
  }

  lemma SendBackward(s: State, step: Step, pl: Place, n: Conn)
    requires Enabled(s, step) && ChannelsOk(s) && ConnAt(Next(s, step), pl, n) && Target(s, step).Some?
    ensures ConnAt(s, MovesFrom(s, step, pl), n) && MovesTo(s, step, MovesFrom(s, step, pl)) == pl
  {
    var t := Target(s, step).value;
    SendNeverBlocks(s, step, t);
    hide ChannelsOk;
    assert Next(s, step).dials[t].buf == [if step.Deliver? then s.reader.result else Failed];
  }

  lemma ReceiveBackward(s: State, c: Call, pl: Place, n: Conn)
    requires Enabled(s, Receive(c)) && ChannelsOk(s) && ConnAt(Next(s, Receive(c)), pl, n)
    ensures var from := MovesFrom(s, Receive(c), pl); ConnAt(s, from, n) && MovesTo(s, Receive(c), from) == pl
  {
    assert BufferOk(s, c);
    hide ChannelsOk;
    assert s.dials[c].buf == [s.dials[c].buf[0]];
  }

  lemma ConnBackward(s: State, step: Step, pl: Place, n: Conn)
    requires Enabled(s, step) && ChannelsOk(s) && ConnAt(Next(s, step), pl, n)
    ensures || (step.ChildDials? && pl == InResponse(step.k') && n == |s.dialledFor|)
            || (ConnAt(s, MovesFrom(s, step, pl), n) && MovesTo(s, step, MovesFrom(s, step, pl)) == pl)
  {
    if Target(s, step).Some? {
      SendBackward(s, step, pl, n);
    } else if step.Receive? {
      ReceiveBackward(s, step.c, pl, n);
    } else {
      hide ChannelsOk, Arrives;
    }
  }

  lemma ConnsStep(s: State, step: Step)
    requires Enabled(s, step) && ChannelsOk(s) && ConnsOk(s)
    ensures ConnsOk(Next(s, step))
  {
    var s' := Next(s, step);
    forall a, b, n: Conn | ConnAt(s', a, n) && ConnAt(s', b, n) ensures a == b {
      ConnBackward(s, step, a, n);
      ConnBackward(s, step, b, n);
      assert Somewhere(s, n) ==> n < |s.dialledFor|;
    }
    forall n: Conn ensures Somewhere(s', n) <==> n < |s'.dialledFor| {
      SomewhereStep(s, step, n);
    }
  }

  lemma SomewhereStep(s: State, step: Step, n: Conn)
    requires Enabled(s, step) && ChannelsOk(s) && ConnsOk(s)
    ensures Somewhere(Next(s, step), n) <==> n < |Next(s, step).dialledFor|
  {
    var s' := Next(s, step);
    DialledForGrows(s, step);
    if n < |s.dialledFor| {
      assert Somewhere(s, n);
      var pl :| ConnAt(s, pl, n);
      ConnForward(s, step, pl, n);
    } else if n < |s'.dialledFor| {
      assert ConnAt(s', InResponse(step.k'), n);
    } else if Somewhere(s', n) {
      var pl :| ConnAt(s', pl, n);
      ConnBackward(s, step, pl, n);
      assert Somewhere(s, n);
    }
  }

  // ----- every run -----

  ghost predicate Inv(s: State) {
    IdsOk(s) && ChannelsOk(s) && AddressesOk(s) && ConnsOk(s)
  }

  lemma StepKeepsInv(s: State, step: Step)
    requires Inv(s) && Enabled(s, step) && Next(s, step).allocs < WRAP32
    ensures Inv(Next(s, step))
  {
    IdsStep(s, step);
    ChannelsStep(s, step);
    AddressesStep(s, step);
    ConnsStep(s, step);
  }

  lemma {:induction false} RunKeepsInv(run: seq<State>, steps: seq<Step>, n: nat)
    requires IsRun(run, steps) && n < |run| && run[n].allocs < WRAP32
    ensures Inv(run[n])
  {
    if n == 0 {
      InitialInv();
    } else {
      RunAllocs(run, steps, n - 1);
      RunKeepsInv(run, steps, n - 1);
      NextKeepsInv(run[n - 1], steps[n - 1], run[n]);
    }
  }

  lemma RunAllocs(run: seq<State>, steps: seq<Step>, i: nat)
    requires IsRun(run, steps) && i < |steps|
    ensures run[i].allocs <= run[i + 1].allocs
  {
    AllocsMonotone(run[i], steps[i]);
  }

  lemma NextKeepsInv(s: State, step: Step, s': State)
    requires Inv(s) && Enabled(s, step) && s' == Next(s, step) && s'.allocs < WRAP32
    ensures Inv(s')
  {
    StepKeepsInv(s, step);
  }

  lemma InitialInv()
    ensures Inv(INITIAL)
  {
  }

  lemma AllocsMonotone(s: State, step: Step)
    requires Enabled(s, step)
    ensures s.allocs <= Next(s, step).allocs
  {
  }

  /**
   * With at most 2^32 - 1 increments, in every interleaving: a channel gets at most one value, a returned
   * connection was dialled for what the child read of the caller's own address, which is that address exactly if it
   * fits the child's buffer, no two callers get one connection, and no connection is closed by the parent once a
   * caller has it.
   */
  lemma DialerCorrelates(run: seq<State>, steps: seq<Step>, n: nat)
    requires IsRun(run, steps) && n < |run| && run[n].allocs < WRAP32
    ensures forall c :: c in run[n].dials ==> run[n].dials[c].sends <= 1
    ensures forall c :: c in run[n].dials && run[n].dials[c].pc.Returned? && run[n].dials[c].pc.result.Connected? ==>
        IsFor(run[n], c, run[n].dials[c].pc.result.conn)
    ensures forall c, k: Conn :: c in run[n].dials && IsFor(run[n], c, k) ==>
        (run[n].dialledFor[k] == run[n].dials[c].address <==> |run[n].dials[c].address| <= MAX_TARGET)
    ensures forall a, b, k: Conn :: ConnAt(run[n], WithCaller(a), k) && ConnAt(run[n], WithCaller(b), k) ==> a == b
    ensures forall c, k: Conn :: ConnAt(run[n], WithCaller(c), k) ==> k !in run[n].closed
  {
    RunKeepsInv(run, steps, n);
    var s := run[n];
    forall c | c in s.dials ensures s.dials[c].sends <= 1 && DialOk(s, c) {
      assert BufferOk(s, c);
    }
    forall c, k: Conn | ConnAt(s, WithCaller(c), k) ensures k !in s.closed {
      ElsewhereIsOpen(s, WithCaller(c), k);
    }
  }

  /** One dial of one caller, from its request to its result: eight steps and the states between them. */
  function OneDialStep(address: Address, i: nat): Step {
    if i == 0 then StartDial(0, address) else if i == 1 then AllocId(0) else if i == 2 then Register(0)
    else if i == 3 then SendRequest(0, 0) else if i == 4 then ChildDials(0, 0) else if i == 5 then TakePending(0)
    else if i == 6 then Deliver else Receive(0)
  }

  function OneDialState(address: Address, i: nat): State {
    var pc := if i <= 1 then Start else if i == 2 then Registering else if i == 3 then Sending
              else if i <= 7 then Waiting else Returned(Connected(0));
    var buf := if i == 7 then [Connected(0)] else [];
    var dial := Dial(address, pc, if i <= 1 then 0 else 1, buf, if i >= 7 then 1 else 0);
    State(if i <= 1 then 0 else 1, if i <= 1 then 0 else 1,
          if 3 <= i <= 5 then map[1 := 0] else map[],
          if i == 0 then map[] else map[0 := dial],
          if i == 4 then map[0 := Job(1, Arrives(address))] else map[],
          if i == 5 then map[0 := Response(1, Connected(0))] else map[],
          if i == 6 then Holding(Some(0), Connected(0)) else Idle,
          NotClosed,
          if i >= 5 then [Arrives(address)] else [],
          [])
  }

  lemma OneDialAsks(address: Address, i: nat)
    requires i < 4
    ensures Enabled(OneDialState(address, i), OneDialStep(address, i))
    ensures OneDialState(address, i + 1) == Next(OneDialState(address, i), OneDialStep(address, i))
  {
  }

  lemma OneDialAnswers(address: Address, i: nat)
    requires 4 <= i < 8
    ensures Enabled(OneDialState(address, i), OneDialStep(address, i))
    ensures OneDialState(address, i + 1) == Next(OneDialState(address, i), OneDialStep(address, i))
  {
    var s, s' := OneDialState(address, i), OneDialState(address, i + 1);
    var next := Next(s, OneDialStep(address, i));
    assert i == 4 ==> next.jobs == s'.jobs && next.responses == s'.responses && next.dialledFor == s'.dialledFor;
    assert i == 5 ==> next.responses == s'.responses && next.pending == s'.pending;
    assert i >= 6 ==> next.dials[0].buf == s'.dials[0].buf && next.dials == s'.dials;
  }

  /** Whenever the cut-off form of a longer address dials, its caller is handed that connection. */
  lemma LongAddressMisdialled(address: Address) returns (run: seq<State>, steps: seq<Step>)
    requires |address| > MAX_TARGET
    ensures IsRun(run, steps)
    ensures var last := run[|run| - 1];
      && 0 in last.dials && last.dials[0].address == address && last.dials[0].pc == Returned(Connected(0))
      && |last.dialledFor| == 1 && last.dialledFor[0] == address[..MAX_TARGET] != address
  {
    steps := seq(8, i requires 0 <= i < 8 => OneDialStep(address, i));
    run := seq(9, i requires 0 <= i < 9 => OneDialState(address, i));
    assert run[0] == INITIAL;
    var last := run[8];
    assert last.dials[0].pc == Returned(Connected(0)) && last.dialledFor == [Arrives(address)];
    forall i: nat | i < 8
      ensures Enabled(OneDialState(address, i), OneDialStep(address, i))
      ensures OneDialState(address, i + 1) == Next(OneDialState(address, i), OneDialStep(address, i))
    {
      if i < 4 {
        OneDialAsks(address, i);
      } else {
        OneDialAnswers(address, i);
      }
    }
    hide OneDialState, OneDialStep, Next, Enabled;
  }

  function Zeros(n: nat): string {
    seq(n, _ => '0')
  }

  predicate IsDigit(c: char) {
    '0' <= c <= '9'
  }

  /** The number a string of digits stands for; leading zeros are allowed. */
  function DecimalValue(s: string): nat {
    if s == "" then 0
    else
      var last := s[|s| - 1];
      10 * DecimalValue(s[..|s| - 1]) + if IsDigit(last) then last as int - '0' as int else 0
  }

  /** The address is the host and a decimal port of this value. */
  predicate Names(address: Address, host: string, digits: string, port: nat) {
    && address == host + ":" + digits
    && digits != "" && (forall i :: 0 <= i < |digits| ==> IsDigit(digits[i]))
    && DecimalValue(digits) == port < 0x1_0000
  }

  lemma {:induction false} ZerosAreZero(n: nat)
    ensures DecimalValue(Zeros(n)) == 0
  {
    if n > 0 {
      ZerosAreZero(n - 1);
      assert Zeros(n)[..n - 1] == Zeros(n - 1);
    }
  }

  lemma AppendDigit(s: string, c: char)
    requires IsDigit(c)
    ensures DecimalValue(s + [c]) == 10 * DecimalValue(s) + (c as int - '0' as int)
  {
    assert (s + [c])[..|s|] == s;
  }

  /** A zero-padded port of 8080 on any host, one byte too long for the child: what arrives names port 808. */
  lemma PaddedPortCut(host: string) returns (address: Address, digits: string)
    requires |host| <= 253
    ensures |address| == MAX_TARGET + 1
    ensures Names(address, host, digits + "0", 8080) && Names(Arrives(address), host, digits, 808)
  {
    var z := Zeros(MAX_TARGET - 4 - |host|);
    ZerosAreZero(|z|);
    AppendDigit(z, '8');
    AppendDigit(z + "8", '0');
    AppendDigit(z + "8" + "0", '8');
    digits := z + "8" + "0" + "8";
    AppendDigit(digits, '0');
    address := host + ":" + (digits + "0");
    hide DecimalValue;
    assert address[..MAX_TARGET] == host + ":" + digits;
  }

  /** A run in which a caller that asks for port 8080 of a host is handed a connection to its port 808. */
  lemma PaddedPortMisdialled(host: string) returns (run: seq<State>, steps: seq<Step>, digits: string)
    requires |host| <= 253
    ensures IsRun(run, steps)
    ensures var last := run[|run| - 1];
      && 0 in last.dials && last.dials[0].pc == Returned(Connected(0)) && |last.dialledFor| == 1
      && Names(last.dials[0].address, host, digits + "0", 8080) && Names(last.dialledFor[0], host, digits, 808)
  {
    hide IsRun, Names;
    var address;
    address, digits := PaddedPortCut(host);
    run, steps := LongAddressMisdialled(address);
  }

  // ----- a connection nobody waits for -----

  /** What the reader holds stays in its hands until it delivers. */
  lemma {:induction false} HeldUntilDelivered(run: seq<State>, steps: seq<Step>, i: nat, j: nat)
    requires IsRun(run, steps) && i <= j < |run| && run[i].reader.Holding?
    requires forall m :: i <= m < j ==> steps[m] != Deliver
    ensures run[j].reader == run[i].reader
    decreases j
  {
    if i < j {
      HeldUntilDelivered(run, steps, i, j - 1);
      ReaderKept(run[j - 1], steps[j - 1]);
    }
  }

  lemma ReaderKept(s: State, step: Step)
    requires Enabled(s, step) && s.reader.Holding? && step != Deliver
    ensures Next(s, step).reader == s.reader
  {
  }

  /**
   * The connection a response brings in is handed to the channel registered under its id when the reader takes it,
   * and if there is none the next delivery closes it, whatever happens in between.
   */
  lemma UnwantedIsClosed(run: seq<State>, steps: seq<Step>, i: nat, j: nat, n: Conn)
    requires IsRun(run, steps) && i < j < |steps| && steps[i].TakePending? && steps[j] == Deliver
    requires run[i].responses[steps[i].k].result == Connected(n) && run[j + 1].allocs < WRAP32
    requires forall m :: i < m < j ==> steps[m] != Deliver
    ensures var id := run[i].responses[steps[i].k].id;
      if id in run[i].pending then ConnAt(run[j + 1], InChannel(run[i].pending[id]), n) && n !in run[j + 1].closed
      else n in run[j + 1].closed && run[j + 1].dials == run[j].dials
  {
    TakenBy(run[i], steps[i].k);
    HeldUntilDelivered(run, steps, i + 1, j);
    RunAllocs(run, steps, j);
    RunKeepsInv(run, steps, j);
    RunKeepsInv(run, steps, j + 1);
    DeliverDecides(run[j], n);
    if run[j].reader.channel.Some? {
      ElsewhereIsOpen(run[j + 1], InChannel(run[j].reader.channel.value), n);
    }
    hide Inv, Next;
  }

  lemma ElsewhereIsOpen(s: State, pl: Place, n: Conn)
    requires ConnsOk(s) && ConnAt(s, pl, n) && !pl.Shut?
    ensures n !in s.closed
  {
    assert forall m :: 0 <= m < |s.closed| ==> ConnAt(s, Shut(m), s.closed[m]);
  }

  lemma TakenBy(s: State, k: Serial)
    requires Enabled(s, TakePending(k))
    ensures var r := s.responses[k];
      Next(s, TakePending(k)).reader == Holding(if r.id in s.pending then Some(s.pending[r.id]) else None, r.result)
  {
  }

  lemma DeliverDecides(s: State, n: Conn)
    requires ChannelsOk(s) && Enabled(s, Deliver) && s.reader.result == Connected(n)
    ensures s.reader.channel.Some? ==> ConnAt(Next(s, Deliver), InChannel(s.reader.channel.value), n)
    ensures s.reader.channel.None? ==> n in Next(s, Deliver).closed && Next(s, Deliver).dials == s.dials
  {
    if s.reader.channel.Some? {
      SendNeverBlocks(s, Deliver, s.reader.channel.value);
    }
  }

  // ----- the object -----

  /** linuxVPNDialer: each atomic addition and each locked section is the step of the model it stands for. */
  class Dialer {
    var nextID: Word32
    var pending: map<Word32, Call>
    ghost var model: State

    ghost predicate Valid()
      reads this
    {
      nextID == model.nextID && pending == model.pending
    }

    constructor ()
      ensures Valid() && model == INITIAL
    {
      nextID, pending, model := 0, map[], INITIAL;
    }

    /** One atomic addition of DialContext; it is the call's id unless it yields 0 the first time. */
    method AddId(c: Call) returns (id: Word32)
      requires Valid() && Enabled(model, AllocId(c))
      modifies this
      ensures Valid() && model == Next(old(model), AllocId(c)) && model.dials[c].id == id
    {
      nextID := (nextID + 1) % WRAP32;
      id := nextID;
      model := Next(model, AllocId(c));
    }

    method RegisterCall(c: Call, id: Word32)
      requires Valid() && Enabled(model, Register(c)) && model.dials[c].id == id
      modifies this
      ensures Valid() && model == Next(old(model), Register(c))
    {
      pending := pending[id := c];
      model := Next(model, Register(c));
    }

    method UnregisterCall(c: Call, id: Word32)
      requires Valid() && Enabled(model, Unregister(c)) && model.dials[c].id == id
      modifies this
      ensures Valid() && model == Next(old(model), Unregister(c))
    {
      pending := pending - {id};
      model := Next(model, Unregister(c));
    }

    /** The locked part of deliver for response k: the channel leaves the map with whoever will send on it. */
    method TakeChannel(id: Word32, ghost k: Serial) returns (channel: Option<Call>)
      requires Valid() && Enabled(model, TakePending(k)) && model.responses[k].id == id
      modifies this
      ensures Valid() && model == Next(old(model), TakePending(k)) && model.reader.channel == channel
    {
      channel := if id in pending then Some(pending[id]) else None;
      pending := pending - {id};
      model := Next(model, TakePending(k));
    }

    /** The locked part of Close: every pending channel, each id once, in any order. */
    method TakeAllChannels() returns (channels: seq<Call>, ghost ids: seq<Word32>)
      requires Valid() && model.closer == Flagged
      modifies this
      ensures Lists(old(model), ids) && model == Next(old(model), CloseTake(ids))
      ensures Valid() && model.closer == Draining(channels)
    {
      channels, ids := [], [];
      var todo := pending.Keys;
      while todo != {}
        invariant todo <= pending.Keys && pending == old(pending) && model == old(model)
        invariant forall id :: id in ids <==> id in pending && id !in todo
        invariant forall i, j :: 0 <= i < j < |ids| ==> ids[i] != ids[j]
        invariant |channels| == |ids|
        invariant forall i :: 0 <= i < |ids| ==> ids[i] in pending && channels[i] == pending[ids[i]]
        decreases |todo|
      {
        var id :| id in todo;
        todo := todo - {id};
        channels := channels + [pending[id]];
        ids := ids + [id];
      }
      pending := map[];
      model := Next(model, CloseTake(ids));
    }
  }
}
