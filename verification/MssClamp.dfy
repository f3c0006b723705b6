/** clampTCPMSS: the TCP option walk (section 3.2 of RFC 9293) that lowers MSS values in place. */
module MssClamp {
  import opened Bytes
  import opened Checksum
  import opened PacketNat
  import opened NatChecksums

  // ----- the meaning of an option area -----

  datatype TcpOption = NoOperation | TcpOption(kind: byte, data: seq<byte>)

  /** The options a receiver reads, up to the end-of-list option or the first malformed one. */
  function ParseOptions(opts: seq<byte>): seq<TcpOption> {
    if |opts| == 0 || opts[0] == 0 then []
    else if opts[0] == 1 then [NoOperation] + ParseOptions(opts[1..])
    else if !HasOption(opts) then []
    else [TcpOption(opts[0], opts[2..opts[1]])] + ParseOptions(opts[opts[1]..])
  }

  /** A complete kind-length-value option stands at the front. */
  predicate HasOption(opts: seq<byte>) {
    |opts| >= 2 && 2 <= opts[1] <= |opts|
  }

  /** Lower one option's value: only a maximum-segment-size option of length 4 can change. */
  function ClampOption(o: TcpOption, maxMSS: Word16): TcpOption {
    if o.TcpOption? && o.kind == 2 && |o.data| == 2 && Get16(o.data, 0) > maxMSS then TcpOption(2, BE16(maxMSS)) else o
  }

  function ClampAll(os: seq<TcpOption>, maxMSS: Word16): seq<TcpOption> {
    if os == [] then [] else [ClampOption(os[0], maxMSS)] + ClampAll(os[1..], maxMSS)
  }

  // ----- the walk over the bytes -----

  function ClampHead(head: seq<byte>, maxMSS: Word16): (r: seq<byte>)
    requires |head| >= 2
    ensures |r| == |head|
  {
    if head[0] == 2 && |head| == 4 && Get16(head, 2) > maxMSS then Put16(head, 2, maxMSS) else head
  }

  /** The option area after the walk. */
  function ClampOptions(opts: seq<byte>, maxMSS: Word16): (r: seq<byte>)
    ensures |r| == |opts|
  {
    if |opts| == 0 || opts[0] == 0 then opts
    else if opts[0] == 1 then opts[..1] + ClampOptions(opts[1..], maxMSS)
    else if !HasOption(opts) then opts
    else ClampHead(opts[..opts[1]], maxMSS) + ClampOptions(opts[opts[1]..], maxMSS)
  }

  /** Whether byte k belongs to the value of a length-4 MSS option. */
  predicate IsMssByte(opts: seq<byte>, k: int) {
    if |opts| == 0 || opts[0] == 0 || k < 0 then false
    else if opts[0] == 1 then IsMssByte(opts[1..], k - 1)
    else if !HasOption(opts) then false
    else if k < opts[1] then opts[0] == 2 && opts[1] == 4 && 2 <= k
    else IsMssByte(opts[opts[1]..], k - opts[1])
  }

  // ----- whole packets -----

  predicate IsSyn(p: seq<byte>)
    requires HasTcpHeader(p)
  {
    p[HeaderLen(p) + 13] / 2 % 2 == 1
  }

  predicate HasTcpHeader(p: seq<byte>) {
    && IsIPv4(p)
    && p[9] == 6
    && HeaderLen(p) >= 20
    && |p| >= HeaderLen(p) + 20
    && TcpHeaderLen(p) >= 20
    && |p| >= HeaderLen(p) + TcpHeaderLen(p)
  }

  function TcpHeaderLen(p: seq<byte>): nat
    requires |p| >= 20 && |p| >= HeaderLen(p) + 20
  {
    p[HeaderLen(p) + 12] / 0x10 * 4
  }

  function OptionsOf(p: seq<byte>): seq<byte>
    requires HasTcpHeader(p)
  {
    p[HeaderLen(p) + 20..HeaderLen(p) + TcpHeaderLen(p)]
  }

  function WithOptions(p: seq<byte>, opts: seq<byte>): (r: seq<byte>)
    requires HasTcpHeader(p) && |opts| == TcpHeaderLen(p) - 20
    ensures |r| == |p|
  {
    p[..HeaderLen(p) + 20] + opts + p[HeaderLen(p) + TcpHeaderLen(p)..]
  }

  /** The packet after the walk and before recalculation. */
  function Clamped(p: seq<byte>, maxMSS: Word16): (r: seq<byte>)
    ensures |r| == |p|
  {
    if HasTcpHeader(p) && IsSyn(p) then WithOptions(p, ClampOptions(OptionsOf(p), maxMSS)) else p
  }

  function ClampStatus(p: seq<byte>, maxMSS: Word16): Status {
    if !IsIPv4(p) || p[9] != 6 then Done
    else if HeaderLen(p) < 20 || |p| < HeaderLen(p) + 20 then ShortTcp
    else if !HasTcpHeader(p) then BadTcpHeader
    else if Clamped(p, maxMSS) != p then RecalcStatus(p)
    else Done
  }

  function Clamp(p: seq<byte>, maxMSS: Word16): seq<byte> {
    if Clamped(p, maxMSS) != p then Recalc(Clamped(p, maxMSS)) else p
  }

  // ----- the loop -----

  /** The packet once the options from i on have been walked. */
  function WalkFrom(p: seq<byte>, i: nat, hi: nat, maxMSS: Word16): seq<byte>
    requires i <= hi <= |p|
  {
    p[..i] + ClampOptions(p[i..hi], maxMSS) + p[hi..]
  }

  lemma WalkStops(p: seq<byte>, i: nat, hi: nat, maxMSS: Word16)
    requires i <= hi <= |p|
    requires i == hi || p[i] == 0 || (p[i] != 1 && (i + 1 >= hi || p[i + 1] < 2 || i + p[i + 1] > hi))
    ensures WalkFrom(p, i, hi, maxMSS) == p
  {
  }

  lemma WalkNoOperation(p: seq<byte>, i: nat, hi: nat, maxMSS: Word16)
    requires i < hi <= |p| && p[i] == 1
    ensures WalkFrom(p, i, hi, maxMSS) == WalkFrom(p, i + 1, hi, maxMSS)
  {
  }

  /** The packet once the option of n bytes at i has been clamped. */
  function ClampAt(p: seq<byte>, i: nat, n: nat, maxMSS: Word16): (r: seq<byte>)
    requires 2 <= n && i + n <= |p|
    ensures |r| == |p|
  {
    p[..i] + ClampHead(p[i..i + n], maxMSS) + p[i + n..]
  }

  lemma ClampAtFrame(p: seq<byte>, i: nat, n: nat, maxMSS: Word16)
    requires 2 <= n && i + n <= |p|
    ensures ClampAt(p, i, n, maxMSS)[..i] == p[..i]
    ensures ClampAt(p, i, n, maxMSS)[i..i + n] == ClampHead(p[i..i + n], maxMSS)
    ensures ClampAt(p, i, n, maxMSS)[i + n..] == p[i + n..]
  {
  }

  lemma ClampAtIsPut(p: seq<byte>, i: nat, n: nat, maxMSS: Word16)
    requires 2 <= n && i + n <= |p|
    ensures (p[i] == 2 && n == 4 && Get16(p, i + 2) > maxMSS) ==>
        ClampAt(p, i, n, maxMSS) == Put16(p, i + 2, maxMSS) && ClampAt(p, i, n, maxMSS) != p
    ensures !(p[i] == 2 && n == 4 && Get16(p, i + 2) > maxMSS) ==> ClampAt(p, i, n, maxMSS) == p
  {
    var head := p[i..i + n];
    if p[i] == 2 && n == 4 {
      assert Get16(head, 2) == Get16(p, i + 2);
    }
  }

  lemma Regroup(a: seq<byte>, b: seq<byte>, c: seq<byte>, d: seq<byte>)
    ensures a + (b + c) + d == (a + b) + c + d
  {
  }

  lemma WalkOption(p: seq<byte>, i: nat, hi: nat, n: nat, maxMSS: Word16)
    requires i + 1 < hi <= |p| && p[i] != 0 && p[i] != 1 && p[i + 1] == n && 2 <= n && i + n <= hi
    ensures WalkFrom(p, i, hi, maxMSS) == WalkFrom(ClampAt(p, i, n, maxMSS), i + n, hi, maxMSS)
  {
    var q := ClampAt(p, i, n, maxMSS);
    var head, rest := ClampHead(p[i..i + n], maxMSS), ClampOptions(p[i + n..hi], maxMSS);
    assert ClampOptions(p[i..hi], maxMSS) == head + rest by {
      assert p[i..hi][n..] == p[i + n..hi];
      assert p[i..hi][..n] == p[i..i + n];
    }
    assert q[..i + n] == p[..i] + head;
    assert q[i + n..hi] == p[i + n..hi] && q[hi..] == p[hi..] by {
      ClampAtFrame(p, i, n, maxMSS);
      SameTail(p, q, i + n, hi);
    }
    Regroup(p[..i], head, rest, p[hi..]);
  }

  /** Lower the MSS value of the option at i, if it has one above maxMSS. */
  method ClampValue(packet: array<byte>, i: nat, n: nat, maxMSS: Word16) returns (lowered: bool)
    requires 2 <= n && i + n <= packet.Length
    modifies packet
    ensures packet[..] == ClampAt(old(packet[..]), i, n, maxMSS)
    ensures lowered <==> packet[..] != old(packet[..])
  {
    ClampAtIsPut(packet[..], i, n, maxMSS);
    lowered := false;
    if packet[i] == 2 && n == 4 {
      var cur := Get16(packet[..], i + 2);
      if cur > maxMSS {
        PutUint16(packet, i + 2, maxMSS);
        lowered := true;
      }
    }
  }

  lemma DifferenceBefore(p: seq<byte>, q: seq<byte>, i: nat, j: nat)
    requires i <= j <= |p| == |q| && p[..i] == q[..i] && p[j..] == q[j..]
    ensures p != q <==> p[i..j] != q[i..j]
  {
  }

  lemma StillDifferent(p: seq<byte>, q: seq<byte>, i: nat, j: nat)
    requires i <= j <= |p| == |q|
    requires p[..i] != q[..i] || p[i..j] != q[i..j]
    ensures p[..j] != q[..j]
  {
  }

  /** Where the walk goes from i; None ends it. */
  function NextOption(p: seq<byte>, i: nat, hi: nat): Option<nat>
    requires i < hi <= |p|
  {
    if p[i] == 0 then None
    else if p[i] == 1 then Some(i + 1)
    else if i + 1 >= hi || p[i + 1] < 2 || i + p[i + 1] > hi then None
    else Some(i + p[i + 1])
  }

  /** The packet after one round. */
  function ClampRound(p: seq<byte>, i: nat, hi: nat, maxMSS: Word16): (r: seq<byte>)
    requires i < hi <= |p|
    ensures |r| == |p|
  {
    if p[i] != 1 && NextOption(p, i, hi).Some? then ClampAt(p, i, p[i + 1], maxMSS) else p
  }

  lemma RoundMeaning(p: seq<byte>, i: nat, hi: nat, maxMSS: Word16)
    requires i < hi <= |p|
    ensures var q, next := ClampRound(p, i, hi, maxMSS), NextOption(p, i, hi);
      match next
      case None => q == p && WalkFrom(p, i, hi, maxMSS) == p
      case Some(j) =>
        && i < j <= hi
        && WalkFrom(q, j, hi, maxMSS) == WalkFrom(p, i, hi, maxMSS)
        && q[..i] == p[..i]
        && q[j..] == p[j..]
  {
    hide WalkFrom, ClampAt;
    if NextOption(p, i, hi).None? {
      WalkStops(p, i, hi, maxMSS);
    } else if p[i] == 1 {
      WalkNoOperation(p, i, hi, maxMSS);
    } else {
      WalkOption(p, i, hi, p[i + 1], maxMSS);
      ClampAtFrame(p, i, p[i + 1], maxMSS);
    }
  }

  /** One round of the loop. */
  method WalkRound(packet: array<byte>, i: nat, hi: nat, maxMSS: Word16) returns (next: Option<nat>, lowered: bool)
    requires i < hi <= packet.Length
    modifies packet
    ensures next == NextOption(old(packet[..]), i, hi)
    ensures packet[..] == ClampRound(old(packet[..]), i, hi, maxMSS)
    ensures lowered <==> packet[..] != old(packet[..])
  {
    if packet[i] == 0 {
      return None, false;
    }
    if packet[i] == 1 {
      return Some(i + 1), false;
    }
    if i + 1 >= hi {
      return None, false;
    }
    var n := packet[i + 1];
    if n < 2 || i + n > hi {
      return None, false;
    }
    lowered := ClampValue(packet, i, n, maxMSS);
    next := Some(i + n);
  }

  /** The loop of clampTCPMSS over the option bytes from lo to hi. */
  method WalkOptions(packet: array<byte>, lo: nat, hi: nat, maxMSS: Word16) returns (changed: bool)
    requires lo <= hi <= packet.Length
    modifies packet
    ensures packet[..] == WalkFrom(old(packet[..]), lo, hi, maxMSS)
    ensures changed <==> packet[..] != old(packet[..])
  {
    ghost var p := packet[..];
    changed := false;
    var i := lo;
    while i < hi
      invariant lo <= i <= hi
      invariant WalkFrom(packet[..], i, hi, maxMSS) == WalkFrom(p, lo, hi, maxMSS)
      invariant packet[..][i..] == p[i..]
      invariant if changed then packet[..][..i] != p[..i] else packet[..] == p
    {
      ghost var now := packet[..];
      RoundMeaning(now, i, hi, maxMSS);
      var next, lowered := WalkRound(packet, i, hi, maxMSS);
      if next.None? {
        return;
      }
      SameTail(now, p, i, next.value);
      if changed || lowered {
        DifferenceBefore(now, packet[..], i, next.value);
        StillDifferent(packet[..], p, i, next.value);
      }
      changed := changed || lowered;
      i := next.value;
    }
    WalkStops(packet[..], i, hi, maxMSS);
  }

  lemma SameTail(p: seq<byte>, q: seq<byte>, i: nat, j: nat)
    requires i <= j <= |p| == |q| && p[i..] == q[i..]
    ensures p[j..] == q[j..] && p[i..j] == q[i..j]
  {
  }

  datatype OptionArea = NoWalk(status: Status) | Walk(lo: nat, hi: nat)

  /** The checks before the loop: where the options of a SYN lie, or the verdict without a walk. */
  method LocateOptions(packet: array<byte>, maxMSS: Word16) returns (area: OptionArea)
    ensures area.Walk? <==> HasTcpHeader(packet[..]) && IsSyn(packet[..])
    ensures area.Walk? ==>
        area == Walk(HeaderLen(packet[..]) + 20, HeaderLen(packet[..]) + TcpHeaderLen(packet[..]))
    ensures area.NoWalk? ==> area.status == ClampStatus(packet[..], maxMSS)
  {
    if packet.Length < 20 || packet[0] / 0x10 != 4 || packet[9] != 6 {
      return NoWalk(Done);
    }
    var ihl: nat := packet[0] % 0x10 * 4;
    if ihl < 20 || packet.Length < ihl + 20 {
      return NoWalk(ShortTcp);
    }
    var hdrLen: nat := packet[ihl + 12] / 0x10 * 4;
    if hdrLen < 20 || packet.Length - ihl < hdrLen {
      return NoWalk(BadTcpHeader);
    }
    if packet[ihl + 13] / 2 % 2 == 0 {
      return NoWalk(Done);
    }
    return Walk(ihl + 20, ihl + hdrLen);
  }

  method ClampTcpMss(packet: array<byte>, maxMSS: Word16) returns (changed: bool, status: Status)
    modifies packet
    ensures changed <==> Clamped(old(packet[..]), maxMSS) != old(packet[..])
    ensures status == ClampStatus(old(packet[..]), maxMSS)
    ensures packet[..] == Clamp(old(packet[..]), maxMSS)
  {
    hide WithOptions, ClampOptions, OptionsOf, WalkFrom, Recalc, RecalcStatus;
    ghost var p := packet[..];
    var area := LocateOptions(packet, maxMSS);
    match area
    case NoWalk(verdict) =>
      return false, verdict;
    case Walk(lo, hi) =>
      ClampedIsWalk(p, maxMSS);
      changed, status := ClampSyn(packet, lo, hi, maxMSS, Clamped(p, maxMSS));
  }

  method ClampSyn(packet: array<byte>, lo: nat, hi: nat, maxMSS: Word16, ghost walked: seq<byte>)
    returns (changed: bool, status: Status)
    requires lo <= hi <= packet.Length && walked == WalkFrom(packet[..], lo, hi, maxMSS)
    modifies packet
    ensures changed <==> walked != old(packet[..])
    ensures status == if changed then RecalcStatus(walked) else Done
    ensures packet[..] == if changed then Recalc(walked) else walked
  {
    changed := WalkOptions(packet, lo, hi, maxMSS);
    status := Done;
    if changed {
      status := RecalcChecksums(packet);
    }
  }

  lemma ClampedIsWalk(p: seq<byte>, maxMSS: Word16)
    requires HasTcpHeader(p) && IsSyn(p)
    ensures Clamped(p, maxMSS) == WalkFrom(p, HeaderLen(p) + 20, HeaderLen(p) + TcpHeaderLen(p), maxMSS)
    ensures RecalcStatus(Clamped(p, maxMSS)) == RecalcStatus(p)
  {
  }

  lemma ClampedKeepsShape(p: seq<byte>, maxMSS: Word16)
    ensures RecalcStatus(Clamped(p, maxMSS)) == RecalcStatus(p)
    ensures HasTcpHeader(p) ==> forall k :: 0 <= k < HeaderLen(p) + 20 ==> Clamped(p, maxMSS)[k] == p[k]
  {
  }

  // ----- clamping preserves the meaning of the options -----

  /** The options read after the walk are the options read before it, each with its MSS value lowered. */
  lemma {:induction false} ClampOptionsMeaning(opts: seq<byte>, maxMSS: Word16)
    ensures ParseOptions(ClampOptions(opts, maxMSS)) == ClampAll(ParseOptions(opts), maxMSS)
  {
    var out := ClampOptions(opts, maxMSS);
    if |opts| == 0 || opts[0] == 0 {
    } else if opts[0] == 1 {
      ClampOptionsMeaning(opts[1..], maxMSS);
      assert out[1..] == ClampOptions(opts[1..], maxMSS);
    } else if HasOption(opts) {
      var n := opts[1];
      var rest := ParseOptions(opts[n..]);
      ClampOptionsMeaning(opts[n..], maxMSS);
      assert out[n..] == ClampOptions(opts[n..], maxMSS);
      assert out[..n] == ClampHead(opts[..n], maxMSS);
      ClampHeadMeaning(opts, out, n, maxMSS);
      assert ([TcpOption(opts[0], opts[2..n])] + rest)[1..] == rest;
    }
  }

  lemma ClampHeadMeaning(opts: seq<byte>, out: seq<byte>, n: nat, maxMSS: Word16)
    requires 2 <= n <= |opts| == |out| && out[..n] == ClampHead(opts[..n], maxMSS)
    ensures out[0] == opts[0] && out[1] == opts[1]
    ensures TcpOption(out[0], out[2..n]) == ClampOption(TcpOption(opts[0], opts[2..n]), maxMSS)
  {
  }

  lemma {:induction false} ClampOptionsFrame(opts: seq<byte>, maxMSS: Word16, k: nat)
    requires k < |opts| && !IsMssByte(opts, k)
    ensures ClampOptions(opts, maxMSS)[k] == opts[k]
  {
    if opts[0] != 0 {
      if opts[0] == 1 {
        if k > 0 {
          ClampOptionsFrame(opts[1..], maxMSS, k - 1);
        }
      } else if HasOption(opts) && opts[1] <= k {
        ClampOptionsFrame(opts[opts[1]..], maxMSS, k - opts[1]);
      }
    }
  }

  lemma {:induction false} ClampOptionsTwice(opts: seq<byte>, maxMSS: Word16)
    ensures ClampOptions(ClampOptions(opts, maxMSS), maxMSS) == ClampOptions(opts, maxMSS)
  {
    var out := ClampOptions(opts, maxMSS);
    if |opts| == 0 || opts[0] == 0 {
    } else if opts[0] == 1 {
      ClampOptionsTwice(opts[1..], maxMSS);
      assert out[1..] == ClampOptions(opts[1..], maxMSS);
    } else if HasOption(opts) {
      var n := opts[1];
      ClampOptionsTwice(opts[n..], maxMSS);
      assert out[n..] == ClampOptions(opts[n..], maxMSS);
      assert out[..n] == ClampHead(opts[..n], maxMSS);
      ClampHeadMeaning(opts, out, n, maxMSS);
    }
  }

  // ----- whole packets -----

  /** Recalculation leaves the TCP header fields the walk reads, and the options, alone. */
  lemma RecalcKeepsOptions(p: seq<byte>)
    requires HasTcpHeader(p)
    ensures var r := Recalc(p); HasTcpHeader(r) && OptionsOf(r) == OptionsOf(p) && IsSyn(r) == IsSyn(p)
  {
  }

  lemma ClampedOptions(p: seq<byte>, maxMSS: Word16)
    requires HasTcpHeader(p) && IsSyn(p)
    ensures var q := Clamped(p, maxMSS);
      HasTcpHeader(q) && OptionsOf(q) == ClampOptions(OptionsOf(p), maxMSS) && IsSyn(q)
  {
  }

  lemma ClampedOnce(p: seq<byte>, maxMSS: Word16)
    requires HasTcpHeader(p) && IsSyn(p) && ClampOptions(OptionsOf(p), maxMSS) == OptionsOf(p)
    ensures Clamped(p, maxMSS) == p
  {
  }

  /** Whatever the verdict, the options of the clamped packet are the old ones with every MSS value lowered. */
  lemma ClampPreservesMeaning(p: seq<byte>, maxMSS: Word16)
    requires HasTcpHeader(p) && IsSyn(p)
    ensures HasTcpHeader(Clamp(p, maxMSS))
    ensures ParseOptions(OptionsOf(Clamp(p, maxMSS))) == ClampAll(ParseOptions(OptionsOf(p)), maxMSS)
  {
    var q := Clamped(p, maxMSS);
    ClampedOptions(p, maxMSS);
    ClampOptionsMeaning(OptionsOf(p), maxMSS);
    RecalcKeepsOptions(q);
  }

  lemma WithOptionsAt(p: seq<byte>, opts: seq<byte>, k: nat)
    requires HasTcpHeader(p) && |opts| == TcpHeaderLen(p) - 20 && k < |p|
    ensures var j := k - HeaderLen(p) - 20;
      if 0 <= j < |opts| then WithOptions(p, opts)[k] == opts[j] && p[k] == OptionsOf(p)[j]
      else WithOptions(p, opts)[k] == p[k]
  {
  }

  lemma SpliceFrame(p: seq<byte>, lo: nat, out: seq<byte>, k: nat)
    requires lo + |out| <= |p| && k < |p| && (p[..lo] + out + p[lo + |out|..])[k] != p[k]
    ensures lo <= k < lo + |out| && out[k - lo] != p[lo..lo + |out|][k - lo]
  {
  }

  lemma ClampedFrame(p: seq<byte>, maxMSS: Word16, k: nat)
    requires HasTcpHeader(p) && k < |p| && Clamped(p, maxMSS)[k] != p[k]
    ensures IsMssByte(OptionsOf(p), k - HeaderLen(p) - 20)
  {
    hide IsMssByte, ClampOptions, ClampHead;
    var opts, lo := OptionsOf(p), HeaderLen(p) + 20;
    SpliceFrame(p, lo, ClampOptions(opts, maxMSS), k);
    if !IsMssByte(opts, k - lo) {
      ClampOptionsFrame(opts, maxMSS, k - lo);
    }
  }

  /** Only MSS values and checksums change. */
  lemma ClampFrame(p: seq<byte>, maxMSS: Word16, k: nat)
    requires k < |p| == |Clamp(p, maxMSS)| && Clamp(p, maxMSS)[k] != p[k]
    ensures IsChecksumByte(p, k) || (HasTcpHeader(p) && IsMssByte(OptionsOf(p), k - HeaderLen(p) - 20))
  {
    var q := Clamped(p, maxMSS);
    if q[k] != p[k] {
      ClampedFrame(p, maxMSS, k);
    } else {
      RecalcFrame(q);
      ClampedKeepsShape(p, maxMSS);
      assert IsChecksumByte(q, k);
    }
  }

  /** Clamping panics exactly when a value was lowered in a packet whose lengths cross. */
  lemma ClampPanicsIff(p: seq<byte>, maxMSS: Word16)
    ensures ClampStatus(p, maxMSS) == Panicked <==> CrossedLengths(p) && Clamped(p, maxMSS) != p
  {
    PanicsIff(p);
  }

  /** A second clamp changes nothing. */
  lemma ClampTwice(p: seq<byte>, maxMSS: Word16)
    ensures Clamped(Clamp(p, maxMSS), maxMSS) == Clamp(p, maxMSS)
    ensures Clamp(Clamp(p, maxMSS), maxMSS) == Clamp(p, maxMSS)
  {
    if HasTcpHeader(p) && IsSyn(p) {
      var q := Clamped(p, maxMSS);
      ClampedOptions(p, maxMSS);
      ClampOptionsTwice(OptionsOf(p), maxMSS);
      RecalcKeepsOptions(q);
      ClampedOnce(q, maxMSS);
      ClampedOnce(Recalc(q), maxMSS);
    }
  }

  // ----- clamping commutes with address rewriting -----

  /** The two packets agree on every field the walk reads. */
  ghost predicate SameTcp(p: seq<byte>, q: seq<byte>) {
    && |p| == |q| >= 20
    && p[0] == q[0]
    && p[9] == q[9]
    && (forall k :: HeaderLen(p) + 12 <= k < |p| && k != HeaderLen(p) + 16 && k != HeaderLen(p) + 17 ==> p[k] == q[k])
  }

  lemma SameTcpSameOptions(p: seq<byte>, q: seq<byte>)
    requires SameTcp(p, q) && HasTcpHeader(p)
    ensures HasTcpHeader(q) && TcpHeaderLen(q) == TcpHeaderLen(p)
    ensures IsSyn(q) == IsSyn(p) && OptionsOf(q) == OptionsOf(p)
  {
  }

  /** The walk writes the same bytes at the same places. */
  lemma SameTcpSameWalk(p: seq<byte>, q: seq<byte>, maxMSS: Word16, k: nat)
    requires SameTcp(p, q) && k < |p|
    ensures
      || (Clamped(p, maxMSS)[k] == p[k] && Clamped(q, maxMSS)[k] == q[k])
      || (HeaderLen(p) + 20 <= k && Clamped(p, maxMSS)[k] == Clamped(q, maxMSS)[k])
  {
    if HasTcpHeader(p) {
      SameTcpSameOptions(p, q);
      WithOptionsAt(p, ClampOptions(OptionsOf(p), maxMSS), k);
      WithOptionsAt(q, ClampOptions(OptionsOf(p), maxMSS), k);
    } else if HasTcpHeader(q) {
      SameTcpSameOptions(q, p);
    }
  }

  lemma BlankSameTcp(p: seq<byte>)
    requires RecalcStatus(p) == Done && p[9] == 6
    ensures SameTcp(p, Blank(p))
  {
  }

  lemma ClampedOfBlank(p: seq<byte>, maxMSS: Word16)
    requires RecalcStatus(p) == Done
    ensures RecalcStatus(Clamped(p, maxMSS)) == Done
    ensures Blank(Clamped(p, maxMSS)) == Clamped(Blank(p), maxMSS)
  {
    ClampedKeepsShape(p, maxMSS);
    if p[9] == 6 {
      var l, r := Blank(Clamped(p, maxMSS)), Clamped(Blank(p), maxMSS);
      BlankSameTcp(p);
      forall k: nat | k < |p| ensures l[k] == r[k] {
        SameTcpSameWalk(p, Blank(p), maxMSS, k);
      }
    }
  }

  lemma ClampedOfSetAddress(p: seq<byte>, maxMSS: Word16, at: nat, ip: IPv4)
    requires |p| >= 20 && at in {SOURCE, DESTINATION}
    ensures Clamped(SetAddress(p, at, ip), maxMSS) == SetAddress(Clamped(p, maxMSS), at, ip)
  {
    if HeaderLen(p) >= 20 {
      var q := SetAddress(p, at, ip);
      var l, r := Clamped(q, maxMSS), SetAddress(Clamped(p, maxMSS), at, ip);
      forall k: nat | k < |p| ensures l[k] == r[k] {
        SameTcpSameWalk(p, q, maxMSS, k);
      }
    }
  }

  /** Whether or not the walk changed anything, the clamped packet agrees with the walked one off its checksums. */
  lemma ClampBlank(p: seq<byte>, maxMSS: Word16)
    requires RecalcStatus(p) == Done
    ensures |Clamp(p, maxMSS)| == |p| && RecalcStatus(Clamp(p, maxMSS)) == Done
    ensures Blank(Clamp(p, maxMSS)) == Clamped(Blank(p), maxMSS)
  {
    ClampedOfBlank(p, maxMSS);
    BlankOfRecalc(Clamped(p, maxMSS));
  }

  lemma ClampKeepsNormal(p: seq<byte>, maxMSS: Word16)
    requires RecalcStatus(p) == Done && Recalc(p) == p
    ensures RecalcStatus(Clamp(p, maxMSS)) == Done && Recalc(Clamp(p, maxMSS)) == Clamp(p, maxMSS)
  {
    ClampBlank(p, maxMSS);
    ClampedOfBlank(p, maxMSS);
    RecalcIdempotent(Clamped(p, maxMSS));
  }

  /** Clamping and rewriting an address give one packet in either order. */
  lemma ClampCommutesWithRewrite(p: seq<byte>, maxMSS: Word16, at: nat, ip: IPv4)
    requires RecalcStatus(p) == Done && at in {SOURCE, DESTINATION}
    ensures Rewrite(Clamp(p, maxMSS), at, Some(ip)) == Clamp(Rewrite(p, at, Some(ip)), maxMSS)
  {
    var clampFirst := Clamp(p, maxMSS);
    var rewriteFirst := Rewrite(p, at, Some(ip));
    ClampBlank(p, maxMSS);
    RewriteBlank(clampFirst, at, ip);
    RewriteBlank(p, at, ip);
    ClampBlank(rewriteFirst, maxMSS);
    ClampKeepsNormal(rewriteFirst, maxMSS);
    ClampedOfSetAddress(Blank(p), maxMSS, at, ip);
    RecalcAgrees(Rewrite(clampFirst, at, Some(ip)), Clamp(rewriteFirst, maxMSS));
  }

  lemma RewriteSameTcp(p: seq<byte>, at: nat, ip: IPv4)
    requires HeaderOk(p) && p[9] == 6 && at in {SOURCE, DESTINATION}
    ensures SameTcp(p, Rewrite(p, at, Some(ip)))
    ensures RecalcStatus(Rewrite(p, at, Some(ip))) == RecalcStatus(p)
  {
    var moved := SetAddress(p, at, ip);
    SetAddressShape(p, at, ip);
    ShapeDecides(p, moved);
    assert SameTcp(p, moved);
    RecalcFrame(moved);
    RecalcSameTcp(moved);
  }

  lemma RecalcSameTcp(p: seq<byte>)
    requires HeaderOk(p) && p[9] == 6
    ensures SameTcp(p, Recalc(p))
  {
  }

  lemma SameTcpSameStatus(p: seq<byte>, q: seq<byte>, maxMSS: Word16)
    requires SameTcp(p, q) && RecalcStatus(p) == RecalcStatus(q)
    ensures ClampStatus(p, maxMSS) == ClampStatus(q, maxMSS)
  {
    if HasTcpHeader(p) {
      SameTcpSameOptions(p, q);
      if IsSyn(p) {
        ClampedDiffers(p, maxMSS);
        ClampedDiffers(q, maxMSS);
      }
    } else if HasTcpHeader(q) {
      SameTcpSameOptions(q, p);
    }
  }

  lemma ClampStatusAfterRewrite(p: seq<byte>, maxMSS: Word16, at: nat, ip: IPv4)
    requires HeaderOk(p) && at in {SOURCE, DESTINATION}
    ensures ClampStatus(Rewrite(p, at, Some(ip)), maxMSS) == ClampStatus(p, maxMSS)
  {
    var r := Rewrite(p, at, Some(ip));
    if p[9] == 6 {
      RewriteSameTcp(p, at, ip);
      SameTcpSameStatus(p, r, maxMSS);
    } else {
      RewriteKeepsProtocol(p, at, ip);
    }
  }

  lemma RewriteKeepsProtocol(p: seq<byte>, at: nat, ip: IPv4)
    requires HeaderOk(p) && at in {SOURCE, DESTINATION}
    ensures Rewrite(p, at, Some(ip))[9] == p[9]
  {
  }

  lemma ClampedDiffers(p: seq<byte>, maxMSS: Word16)
    requires HasTcpHeader(p) && IsSyn(p)
    ensures Clamped(p, maxMSS) != p <==> ClampOptions(OptionsOf(p), maxMSS) != OptionsOf(p)
  {
  }

  /** One order succeeds exactly when the other does. */
  lemma ClampAndRewriteSucceedTogether(p: seq<byte>, maxMSS: Word16, at: nat, ip: IPv4)
    requires at in {SOURCE, DESTINATION}
    ensures
      (ClampStatus(p, maxMSS) == Done && RewriteStatus(Clamp(p, maxMSS), Some(ip)) == Done)
      <==>
      (RewriteStatus(p, Some(ip)) == Done && ClampStatus(Rewrite(p, at, Some(ip)), maxMSS) == Done)
  {
    if HeaderOk(p) {
      ClampStatusAfterRewrite(p, maxMSS, at, ip);
    }
    ClampedKeepsShape(p, maxMSS);
    RecalcFrame(Clamped(p, maxMSS));
  }

  // ----- in bytes -----

  /** A complete TCP header of an IPv4 packet. */
  predicate TcpInBytes(p: seq<byte>) {
    && |p| >= 20
    && p[0] / 0x10 == 4
    && p[9] == 6
    && var ihl: nat := p[0] % 0x10 * 4;
       && 20 <= ihl && ihl + 20 <= |p|
       && var hdr: nat := p[ihl + 12] / 0x10 * 4;
          20 <= hdr && ihl + hdr <= |p|
  }

  /** The option bytes of a TCP header. */
  function OptionBytes(p: seq<byte>): seq<byte>
    requires TcpInBytes(p)
  {
    var ihl: nat := p[0] % 0x10 * 4;
    p[ihl + 20..ihl + p[ihl + 12] / 0x10 * 4]
  }

  /** The SYN bit, the second lowest of the flag byte. */
  predicate SynInBytes(p: seq<byte>)
    requires TcpInBytes(p)
  {
    p[p[0] % 0x10 * 4 + 13] / 2 % 2 == 1
  }

  lemma SynNames(p: seq<byte>)
    ensures TcpInBytes(p) <==> HasTcpHeader(p)
    ensures TcpInBytes(p) ==> OptionBytes(p) == OptionsOf(p) && (SynInBytes(p) <==> IsSyn(p))
  {
  }

  /** Every SYN is clamped, whatever the verdict, and nothing else is touched. */
  lemma ClampInBytes(p: seq<byte>, maxMSS: Word16)
    ensures TcpInBytes(p) && SynInBytes(p) ==>
        && TcpInBytes(Clamp(p, maxMSS))
        && ParseOptions(OptionBytes(Clamp(p, maxMSS))) == ClampAll(ParseOptions(OptionBytes(p)), maxMSS)
    ensures !(TcpInBytes(p) && SynInBytes(p)) ==> Clamp(p, maxMSS) == p
  {
    SynNames(p);
    SynNames(Clamp(p, maxMSS));
    if TcpInBytes(p) && SynInBytes(p) {
      hide *;
      ClampPreservesMeaning(p, maxMSS);
    } else {
      NoSynNoClamp(p, maxMSS);
    }
  }

  lemma NoSynNoClamp(p: seq<byte>, maxMSS: Word16)
    requires !(HasTcpHeader(p) && IsSyn(p))
    ensures Clamp(p, maxMSS) == p
  {
  }

  /** The verdicts before the walk. */
  lemma VerdictInBytes(p: seq<byte>, maxMSS: Word16)
    ensures !(|p| >= 20 && p[0] / 0x10 == 4 && p[9] == 6) ==> ClampStatus(p, maxMSS) == Done
    ensures |p| >= 20 && p[0] / 0x10 == 4 && p[9] == 6 ==>
        var ihl: nat := p[0] % 0x10 * 4;
        if ihl < 20 || |p| < ihl + 20 then ClampStatus(p, maxMSS) == ShortTcp
        else if !TcpInBytes(p) then ClampStatus(p, maxMSS) == BadTcpHeader
        else if !SynInBytes(p) then ClampStatus(p, maxMSS) == Done
        else ClampStatus(p, maxMSS) in {Done, RecalcStatus(p)}
  {
    hide ClampOptions, RecalcStatus;
    ClampedKeepsShape(p, maxMSS);
  }

  /** The walk over well-formed options: an end stops it, a no-operation is skipped, an MSS value is lowered. */
  lemma WalkInBytes(kind: byte, data: seq<byte>, rest: seq<byte>, maxMSS: Word16)
    requires kind > 1 && |data| <= 253
    ensures ClampOptions([], maxMSS) == [] && ClampOptions([0] + rest, maxMSS) == [0] + rest
    ensures ClampOptions([1] + rest, maxMSS) == [1] + ClampOptions(rest, maxMSS)
    ensures ClampOptions([kind, |data| + 2] + data + rest, maxMSS)
         == [kind, |data| + 2] + Lowered(kind, data, maxMSS) + ClampOptions(rest, maxMSS)
  {
    assert ([1] + rest)[1..] == rest && ([1] + rest)[..1] == [1];
    var head := [kind, |data| + 2] + data;
    var opts := head + rest;
    assert opts[1] == |data| + 2 && opts[..opts[1]] == head && opts[opts[1]..] == rest;
    HeadInBytes(kind, data, maxMSS);
  }

  function Lowered(kind: byte, data: seq<byte>, maxMSS: Word16): seq<byte> {
    if kind == 2 && |data| == 2 then BE16(if Get16(data, 0) > maxMSS then maxMSS else Get16(data, 0)) else data
  }

  lemma HeadInBytes(kind: byte, data: seq<byte>, maxMSS: Word16)
    requires |data| <= 253
    ensures ClampHead([kind, |data| + 2] + data, maxMSS) == [kind, |data| + 2] + Lowered(kind, data, maxMSS)
  {
    var head := [kind, |data| + 2] + data;
    if kind == 2 && |data| == 2 {
      assert Get16(head, 2) == Get16(data, 0);
      assert data == BE16(Get16(data, 0));
    }
  }

  /** A truncated or ill-sized option ends the walk. */
  lemma WalkEndsInBytes(opts: seq<byte>, maxMSS: Word16)
    requires |opts| >= 1 && opts[0] > 1 && (|opts| == 1 || opts[1] < 2 || opts[1] > |opts|)
    ensures ClampOptions(opts, maxMSS) == opts && ParseOptions(opts) == []
  {
  }

  /** Reading and lowering options, one at a time. */
  lemma OptionsInBytes(kind: byte, data: seq<byte>, rest: seq<byte>, maxMSS: Word16)
    requires kind > 1 && |data| <= 253
    ensures ParseOptions([]) == [] && ParseOptions([0] + rest) == []
    ensures ParseOptions([1] + rest) == [NoOperation] + ParseOptions(rest)
    ensures ParseOptions([kind, |data| + 2] + data + rest) == [TcpOption(kind, data)] + ParseOptions(rest)
    ensures ClampOption(NoOperation, maxMSS) == NoOperation
    ensures ClampOption(TcpOption(kind, data), maxMSS) == TcpOption(kind, Lowered(kind, data, maxMSS))
  {
    assert ([1] + rest)[1..] == rest;
    var opts := [kind, |data| + 2] + data + rest;
    assert opts[1] == |data| + 2 && opts[2..opts[1]] == data && opts[opts[1]..] == rest;
    if kind == 2 && |data| == 2 {
      assert data == BE16(Get16(data, 0));
    }
  }
}
