/** Data-channel packet ids: the single Linux sender and the Windows senders that share an atomic counter. */
module PacketIds {
  import opened Bytes
  import opened DataChannel

  // ----- Linux: sendPayload of bridgeTunAndVPN -----

  datatype Stop = NoMorePayloads | Wrapped | WriteFailed

  /**
   * The sends of one bridge, writes[i] saying whether the i-th UDP write succeeds. ids are the packet ids under
   * which a payload was encrypted; encryptDataV2 refuses id 0, which ends the loop.
   */
  method BridgeSends(writes: seq<bool>) returns (ids: seq<Word32>, stop: Stop)
    ensures forall i :: 0 <= i < |ids| ==> ids[i] == i + 1
    ensures |ids| <= |writes| && |ids| < WRAP32
    ensures stop == NoMorePayloads ==> |ids| == |writes| && forall i :: 0 <= i < |ids| ==> writes[i]
    ensures stop == WriteFailed ==>
        0 < |ids| && !writes[|ids| - 1] && forall i :: 0 <= i < |ids| - 1 ==> writes[i]
    ensures stop == Wrapped <==> |ids| == WRAP32 - 1 && |writes| >= WRAP32 && forall i :: 0 <= i < |ids| ==> writes[i]
  {
    var packetID: Word32 := 0;
    ids := [];
    for n := 0 to |writes|
      invariant n == |ids| == packetID < WRAP32
      invariant forall i :: 0 <= i < n ==> ids[i] == i + 1 && writes[i]
    {
      packetID := (packetID + 1) % WRAP32;
      if packetID == 0 {
        return ids, Wrapped;
      }
      ids := ids + [packetID];
      if !writes[n] {
        return ids, WriteFailed;
      }
    }
    stop := NoMorePayloads;
  }

  // ----- Windows: sendPacketToVPN and keepalive on one atomic counter -----

  type Thread = nat

  /**
   * adds counts the atomic additions; addition p yields id p mod 2^32. A thread whose addition yielded 0 adds again:
   * it is in retrying, under the position of that addition. used lists the positions whose ids threads went on with.
   */
  datatype Counter = Counter(adds: nat, retrying: map<Thread, nat>, used: seq<nat>)

  const ZERO: Counter := Counter(0, map[], [])

  function IdAt(p: nat): Word32 {
    p % WRAP32
  }

  function Add(s: Counter, t: Thread): Counter {
    var p := s.adds + 1;
    if t in s.retrying then Counter(p, s.retrying - {t}, s.used + [p])
    else if IdAt(p) == 0 then Counter(p, s.retrying[t := p], s.used)
    else Counter(p, s.retrying, s.used + [p])
  }

  /** The counter after the given threads have each added once, in that order. */
  function Run(threads: seq<Thread>): Counter {
    if threads == [] then ZERO else Add(Run(threads[..|threads| - 1]), threads[|threads| - 1])
  }

  /** At most one position lies between two uses, and then it is a multiple of 2^32. */
  ghost predicate Dense(used: seq<nat>, adds: nat) {
    && (forall i :: 0 <= i < |used| ==> 1 <= used[i] <= adds)
    && (forall i, j :: 0 <= i < j < |used| && j == i + 1 ==> StepOk(used[i], used[j]))
    && (used == [] ==> adds == 0)
    && (used != [] ==> adds == used[|used| - 1] || (adds == used[|used| - 1] + 1 && adds % WRAP32 == 0))
  }

  predicate StepOk(p: nat, q: nat) {
    q == p + 1 || (q == p + 2 && (p + 1) % WRAP32 == 0)
  }

  ghost predicate RetryingOk(s: Counter) {
    forall t :: t in s.retrying ==> s.retrying[t] % WRAP32 == 0 && 0 < s.retrying[t] <= s.adds
  }

  lemma NextMultiple(p: nat)
    requires p % WRAP32 == 0
    ensures (p + 1) % WRAP32 == 1 && (p + 1) / WRAP32 == p / WRAP32
  {
  }

  /** Using the next position keeps the uses dense. */
  lemma UseNext(used: seq<nat>, adds: nat)
    requires Dense(used, adds)
    ensures Dense(used + [adds + 1], adds + 1)
  {
    var u := used + [adds + 1];
    forall i, j | 0 <= i < j < |u| && j == i + 1
      ensures StepOk(u[i], u[j])
    {
      if j < |used| {
        assert StepOk(used[i], used[j]);
      }
    }
  }

  /** So does leaving one out whose id is 0. */
  lemma SkipZero(used: seq<nat>, adds: nat)
    requires Dense(used, adds)
    ensures IdAt(adds + 1) == 0 && adds > 0 ==> Dense(used, adds + 1)
    ensures adds == 0 ==> IdAt(adds + 1) != 0
  {
    if adds % WRAP32 == 0 {
      NextMultiple(adds);
    }
  }

  lemma AddKeeps(s: Counter, t: Thread)
    requires Dense(s.used, s.adds) && RetryingOk(s)
    ensures Dense(Add(s, t).used, Add(s, t).adds) && RetryingOk(Add(s, t))
  {
    UseNext(s.used, s.adds);
    SkipZero(s.used, s.adds);
    hide Dense;
  }

  lemma {:induction false} RunKeeps(threads: seq<Thread>)
    ensures Dense(Run(threads).used, Run(threads).adds) && RetryingOk(Run(threads)) && Run(threads).adds == |threads|
  {
    if threads != [] {
      RunKeeps(threads[..|threads| - 1]);
      AddKeeps(Run(threads[..|threads| - 1]), threads[|threads| - 1]);
    }
  }

  /** Between uses i and j the counter moves j - i places plus one for every multiple of 2^32 it steps over. */
  lemma {:induction false} Span(used: seq<nat>, adds: nat, i: nat, j: nat)
    requires Dense(used, adds) && i <= j < |used|
    ensures 0 <= used[j] - used[i] <= (j - i) + (used[j] / WRAP32 - used[i] / WRAP32)
    ensures i < j ==> used[i] < used[j]
    decreases j
  {
    if i < j {
      Span(used, adds, i, j - 1);
      assert StepOk(used[j - 1], used[j]);
      SpanStep(used[j - 1], used[j]);
    }
  }

  lemma SpanStep(p: nat, q: nat)
    requires StepOk(p, q)
    ensures p < q && q - p <= 1 + (q / WRAP32 - p / WRAP32)
  {
  }

  /** Two uses with one id are at least 2^32 - 1 uses apart, whatever the interleaving. */
  lemma {:induction false} IdsRepeatFarApart(threads: seq<Thread>, i: nat, j: nat)
    requires i < j < |Run(threads).used| && IdAt(Run(threads).used[i]) == IdAt(Run(threads).used[j])
    ensures j - i >= WRAP32 - 1
  {
    var s := Run(threads);
    RunKeeps(threads);
    Span(s.used, s.adds, i, j);
    var d := s.used[j] / WRAP32 - s.used[i] / WRAP32;
    assert s.used[j] - s.used[i] == WRAP32 * d;
    assert d >= 1;
  }

  /** So the nonces of any 2^32 - 1 consecutive uses are pairwise distinct under one key. */
  lemma {:induction false} NoncesDistinct(threads: seq<Thread>, hmacKey: seq<byte>, i: nat, j: nat)
    requires |hmacKey| >= 8 && i < j < |Run(threads).used| && j - i < WRAP32 - 1
    ensures Nonce(BE32(IdAt(Run(threads).used[i])), hmacKey) != Nonce(BE32(IdAt(Run(threads).used[j])), hmacKey)
  {
    var u := Run(threads).used;
    if IdAt(u[i]) == IdAt(u[j]) {
      IdsRepeatFarApart(threads, i, j);
    }
    NoncesDiffer(IdAt(u[i]), IdAt(u[j]), hmacKey);
  }

  /** Addition m was the second one of a thread whose first had yielded 0, and it yields 0 again. */
  ghost predicate ZeroAgain(threads: seq<Thread>, m: nat) {
    1 <= m <= |threads| && IdAt(m) == 0 && threads[m - 1] in Run(threads[..m - 1]).retrying
  }

  lemma ZeroAgainEarlier(threads: seq<Thread>, m: nat)
    requires 1 <= m < |threads|
    ensures ZeroAgain(threads, m) <==> ZeroAgain(threads[..|threads| - 1], m)
  {
    assert threads[..|threads| - 1][..m - 1] == threads[..m - 1];
  }

  /** Some id in use is 0 exactly when some thread that is adding again meets a multiple of 2^32. */
  lemma {:induction false} ZeroIdIff(threads: seq<Thread>)
    ensures (exists i :: 0 <= i < |Run(threads).used| && IdAt(Run(threads).used[i]) == 0)
       <==> (exists m :: ZeroAgain(threads, m))
  {
    if threads != [] {
      var n, before := |threads|, threads[..|threads| - 1];
      ZeroIdIff(before);
      RunKeeps(before);
      UsedNext(Run(before), threads[n - 1]);
      forall m: nat | 1 <= m < n
        ensures ZeroAgain(threads, m) <==> ZeroAgain(before, m)
      {
        ZeroAgainEarlier(threads, m);
      }
      ZeroUsed(Run(before).used, Run(threads).used);
      assert ZeroAgain(threads, n) <==> IdAt(n) == 0 && threads[n - 1] in Run(before).retrying;
      hide Run, ZeroAgain;
      if exists m :: ZeroAgain(before, m) {
        var m: nat :| ZeroAgain(before, m);
        ZeroAgainBound(before, m);
        assert ZeroAgain(threads, m);
      }
      if exists m :: ZeroAgain(threads, m) {
        var m: nat :| ZeroAgain(threads, m);
        ZeroAgainBound(threads, m);
        assert m == n || ZeroAgain(before, m);
      }
    }
  }

  lemma ZeroAgainBound(threads: seq<Thread>, m: nat)
    requires ZeroAgain(threads, m)
    ensures 1 <= m <= |threads|
  {
  }

  /** One addition uses the next position, unless its id is 0 and the thread will add again. */
  lemma UsedNext(s: Counter, t: Thread)
    ensures Add(s, t).used == if IdAt(s.adds + 1) == 0 && t !in s.retrying then s.used else s.used + [s.adds + 1]
  {
  }

  lemma ZeroUsed(used: seq<nat>, used': seq<nat>)
    requires used' == used || (|used'| == |used| + 1 && used' == used + [used'[|used|]])
    ensures (exists i :: 0 <= i < |used'| && IdAt(used'[i]) == 0)
       <==> (exists i :: 0 <= i < |used| && IdAt(used[i]) == 0) || (used' != used && IdAt(used'[|used|]) == 0)
  {
    if i :| 0 <= i < |used| && IdAt(used[i]) == 0 {
      assert IdAt(used'[i]) == 0;
    }
  }

  lemma MultiplesApart(x: nat, p: nat)
    requires p % WRAP32 == 0 && x % WRAP32 == 0 && 0 < p < x
    ensures x >= 2 * WRAP32
  {
  }

  lemma {:induction false} ZeroIdIsLate(threads: seq<Thread>, i: nat)
    requires i < |Run(threads).used| && IdAt(Run(threads).used[i]) == 0
    ensures Run(threads).used[i] >= 2 * WRAP32
  {
    var before := threads[..|threads| - 1];
    var s := Run(before);
    if i < |s.used| {
      ZeroIdIsLate(before, i);
    } else {
      RunKeeps(before);
      var t := threads[|threads| - 1];
      assert t in s.retrying;
      MultiplesApart(s.adds + 1, s.retrying[t]);
    }
  }

  /** In particular no id is 0 within the first 2^33 - 1 additions. */
  lemma {:induction false} IdsNonZero(threads: seq<Thread>, i: nat)
    requires |threads| < 2 * WRAP32 && i < |Run(threads).used|
    ensures IdAt(Run(threads).used[i]) != 0
  {
    RunKeeps(threads);
    if IdAt(Run(threads).used[i]) == 0 {
      ZeroIdIsLate(threads, i);
    }
  }

  function Times(t: Thread, n: nat): seq<Thread> {
    seq(n, _ => t)
  }

  /** A thread that adds n times without meeting 0 leaves the retrying threads as they were. */
  lemma {:induction false} AddsBetween(threads: seq<Thread>, t: Thread, n: nat)
    requires t !in Run(threads).retrying && forall p :: |threads| < p <= |threads| + n ==> IdAt(p) != 0
    ensures Run(threads + Times(t, n)).retrying == Run(threads).retrying
    decreases n
  {
    var all := threads + Times(t, n);
    if n == 0 {
      assert all == threads;
    } else {
      AddsBetween(threads, t, n - 1);
      assert all == threads + Times(t, n - 1) + [t];
      AddOne(threads + Times(t, n - 1), t);
      hide Run;
    }
  }

  lemma AddOne(threads: seq<Thread>, t: Thread)
    ensures Run(threads + [t]) == Add(Run(threads), t) && Run(threads).adds == |threads|
  {
    assert (threads + [t])[..|threads|] == threads;
    RunKeeps(threads);
  }

  /** The bound is sharp: a thread that meets 0 and then waits out a full round of the counter goes on with id 0. */
  lemma ZeroIdHappens() returns (threads: seq<Thread>)
    ensures |threads| == 2 * WRAP32 && Run(threads).used != []
    ensures IdAt(Run(threads).used[|Run(threads).used| - 1]) == 0
  {
    var first := Times(0, WRAP32 - 1);
    AddsBetween([], 0, WRAP32 - 1);
    assert [] + first == first;
    AddOne(first, 0);
    var met := first + [0];
    AddsBetween(met, 1, WRAP32 - 1);
    var waited := met + Times(1, WRAP32 - 1);
    AddOne(waited, 0);
    threads := waited + [0];
  }

  // ----- when a nonce comes back -----

  /** Two uses have one nonce under the key. */
  ghost predicate NonceRepeats(used: seq<nat>, hmacKey: seq<byte>) {
    exists i, j :: 0 <= i < j < |used| && SameNonce(used, hmacKey, i, j)
  }

  predicate SameNonce(used: seq<nat>, hmacKey: seq<byte>, i: nat, j: nat)
    requires i < |used| && j < |used|
  {
    Nonce(BE32(IdAt(used[i])), hmacKey) == Nonce(BE32(IdAt(used[j])), hmacKey)
  }

  /** The first round of the counter is used without a gap. */
  lemma {:induction false} FirstRound(used: seq<nat>, adds: nat, i: nat)
    requires Dense(used, adds) && used != [] && used[0] == 1 && i < |used| && i < WRAP32 - 1
    ensures used[i] == i + 1
  {
    if i > 0 {
      FirstRound(used, adds, i - 1);
      assert StepOk(used[i - 1], used[i]);
    }
  }

  lemma {:induction false} FirstUse(threads: seq<Thread>)
    ensures Run(threads).used != [] ==> Run(threads).used[0] == 1
  {
    if threads != [] {
      var before := threads[..|threads| - 1];
      FirstUse(before);
      RunKeeps(before);
    }
  }

  /** Use number 2^32 - 1, counted from 0, steps over the multiple and has id 1 again. */
  lemma {:induction false} BackToOne(threads: seq<Thread>)
    requires |Run(threads).used| >= WRAP32
    ensures Run(threads).used[0] == 1 && Run(threads).used[WRAP32 - 1] == WRAP32 + 1
  {
    var s := Run(threads);
    RunKeeps(threads);
    FirstUse(threads);
    FirstRound(s.used, s.adds, WRAP32 - 2);
    assert StepOk(s.used[WRAP32 - 2], s.used[WRAP32 - 1]);
    if IdAt(s.used[WRAP32 - 1]) == 0 {
      ZeroIdIsLate(threads, WRAP32 - 1);
    }
    hide Run, Dense;
  }

  /** Over every interleaving, a nonce comes back exactly when ids have been used 2^32 times: at the 2^32nd use. */
  lemma {:induction false} NonceRepeatsIff(threads: seq<Thread>, hmacKey: seq<byte>)
    requires |hmacKey| >= 8
    ensures NonceRepeats(Run(threads).used, hmacKey) <==> |Run(threads).used| >= WRAP32
  {
    var used := Run(threads).used;
    if |used| >= WRAP32 {
      BackToOne(threads);
      assert SameNonce(used, hmacKey, 0, WRAP32 - 1);
    } else {
      forall i: nat, j: nat | i < j < |used|
        ensures !SameNonce(used, hmacKey, i, j)
      {
        NoncesDistinct(threads, hmacKey, i, j);
      }
    }
    hide Run, SameNonce;
  }

  /** One sender alone: after 2^32 + 1 additions its last packet has the nonce of its first. */
  lemma NonceReuseHappens(t: Thread, hmacKey: seq<byte>) returns (threads: seq<Thread>)
    requires |hmacKey| >= 8
    ensures threads == Times(t, WRAP32 + 1)
    ensures |Run(threads).used| == WRAP32 && SameNonce(Run(threads).used, hmacKey, 0, WRAP32 - 1)
  {
    threads := Times(t, WRAP32 + 1);
    var s := Run(threads);
    RunKeeps(threads);
    FirstUse(threads);
    var last := |s.used| - 1;
    assert s.adds == s.used[last] == WRAP32 + 1;
    if last < WRAP32 - 1 {
      FirstRound(s.used, s.adds, last);
      assert false;
    }
    BackToOne(threads);
    if last > WRAP32 - 1 {
      Span(s.used, s.adds, WRAP32 - 1, last);
      assert false;
    }
  }
}
