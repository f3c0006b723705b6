/** What recalcIPv4TransportChecksums promises: sums that verify, untouched bytes, idempotence. */
module NatChecksums {
  import opened Bytes
  import opened Checksum
  import opened PacketNat

  /** Every caller's buffer is at most this long. */
  const MAX_PACKET: nat := 65535

  lemma SlicePut(p: seq<byte>, lo: nat, hi: nat, i: nat, v: Word16)
    requires lo <= i && i + 2 <= hi <= |p|
    ensures Put16(p, i, v)[lo..hi] == Put16(p[lo..hi], i - lo, v)
  {
  }

  lemma SliceKept(p: seq<byte>, lo: nat, hi: nat, i: nat, v: Word16)
    requires i + 2 <= |p| && lo <= hi <= |p| && (hi <= i || i + 2 <= lo)
    ensures Put16(p, i, v)[lo..hi] == p[lo..hi]
  {
  }

  lemma PutTwice(p: seq<byte>, i: nat, v: Word16, w: Word16)
    requires i + 2 <= |p|
    ensures Put16(Put16(p, i, v), i, w) == Put16(p, i, w)
  {
  }

  lemma PutCommutes(p: seq<byte>, i: nat, v: Word16, j: nat, w: Word16)
    requires i + 2 <= |p| && j + 2 <= |p| && (i + 2 <= j || j + 2 <= i)
    ensures Put16(Put16(p, i, v), j, w) == Put16(Put16(p, j, w), i, v)
  {
  }

  // ----- the uint32 accumulators never wrap -----

  lemma HeaderSumExact(p: seq<byte>)
    requires HeaderOk(p)
    ensures HeaderSum(p) == WordSum(p[..HeaderLen(p)])
    ensures 0 < HeaderSum(p) < 0x100_0000
  {
    WordSumBound(p[..HeaderLen(p)]);
  }

  /** The pseudo-header sum over unbounded numbers. */
  function ExactPseudoSum(p: seq<byte>, lo: nat, hi: nat): nat
    requires 20 <= lo <= hi <= |p|
  {
    WordSum(p[12..20]) + p[9] + (hi - lo) + WordSum(p[lo..hi])
  }

  lemma PseudoSumExact(p: seq<byte>, lo: nat, hi: nat)
    requires 20 <= lo <= hi <= |p| <= MAX_PACKET
    ensures PseudoSum(p, lo, hi) == ExactPseudoSum(p, lo, hi) < WRAP32 - 0x1_0000
  {
    var a, b := WordSum(p[12..20]), WordSum(p[lo..hi]);
    assert a <= 5 * 0xffff by { WordSumBound(p[12..20]); }
    assert b <= 0x8000 * 0xffff by { WordSumBound(p[lo..hi]); }
    NoWrap(a + p[9]);
    NoWrap(a + p[9] + (hi - lo));
    NoWrap(a + p[9] + (hi - lo) + b);
    NoWrap(a);
    hide WordSum;
  }

  lemma NoWrap(x: nat)
    requires x < WRAP32
    ensures x % WRAP32 == x
  {
  }

  // ----- writing a field changes a sum by exactly its value -----

  lemma HeaderSumPut(p: seq<byte>, i: nat, v: Word16)
    requires HeaderOk(p) && i % 2 == 0 && 10 <= i && i + 2 <= HeaderLen(p)
    ensures HeaderOk(Put16(p, i, v))
    ensures HeaderSum(Put16(p, i, v)) == HeaderSum(p) - Get16(p, i) + v
  {
    var q, n := Put16(p, i, v), HeaderLen(p);
    SlicePut(p, 0, n, i, v);
    assert p[0..n] == p[..n] && q[0..n] == q[..n];
    WordSumPut16(p[..n], i, v);
    HeaderSumExact(p);
    HeaderSumExact(q);
  }

  lemma PseudoSumPut(p: seq<byte>, lo: nat, hi: nat, at: nat, v: Word16)
    requires 20 <= lo <= at && at + 2 <= hi <= |p| <= MAX_PACKET && (at - lo) % 2 == 0
    ensures PseudoSum(Put16(p, at, v), lo, hi) == PseudoSum(p, lo, hi) - Get16(p, at) + v
  {
    PseudoSumExact(p, lo, hi);
    PseudoSumExact(Put16(p, at, v), lo, hi);
    assert ExactPseudoSum(Put16(p, at, v), lo, hi) == ExactPseudoSum(p, lo, hi) - Get16(p, at) + v by {
      SlicePut(p, lo, hi, at, v);
      SliceKept(p, 12, 20, at, v);
      WordSumPut16(p[lo..hi], at - lo, v);
    }
  }

  /** A word of either address counts once in the pseudo-header. */
  lemma PseudoSumPutAddress(p: seq<byte>, lo: nat, hi: nat, i: nat, v: Word16)
    requires 20 <= lo <= hi <= |p| <= MAX_PACKET && i in {12, 14, 16, 18}
    ensures PseudoSum(Put16(p, i, v), lo, hi) == PseudoSum(p, lo, hi) - Get16(p, i) + v
  {
    SlicePut(p, 12, 20, i, v);
    SliceKept(p, lo, hi, i, v);
    WordSumPut16(p[12..20], i - 12, v);
    PseudoSumExact(p, lo, hi);
    PseudoSumExact(Put16(p, i, v), lo, hi);
  }

  lemma PseudoChecksumIgnoresHeader(p: seq<byte>, lo: nat, hi: nat, at: nat, v: Word16)
    requires 20 <= lo <= at && at + 2 <= hi <= |p|
    ensures PseudoChecksum(Put16(p, 10, v), lo, hi, at) == PseudoChecksum(p, lo, hi, at)
  {
  }

  lemma PseudoChecksumIgnoresItself(p: seq<byte>, lo: nat, hi: nat, at: nat, v: Word16)
    requires 20 <= lo <= at && at + 2 <= hi <= |p|
    ensures PseudoChecksum(Put16(p, at, v), lo, hi, at) == PseudoChecksum(p, lo, hi, at)
  {
    PutTwice(p, at, v, 0);
  }

  lemma HeaderChecksumIgnoresItself(p: seq<byte>, v: Word16)
    requires HeaderOk(p)
    ensures HeaderOk(Put16(p, 10, v)) && HeaderChecksum(Put16(p, 10, v)) == HeaderChecksum(p)
  {
    PutTwice(p, 10, v, 0);
  }

  lemma HeaderSumIgnoresTransport(p: seq<byte>, at: nat, v: Word16)
    requires HeaderOk(p) && HeaderLen(p) <= at && at + 2 <= |p|
    ensures HeaderOk(Put16(p, at, v)) && HeaderSum(Put16(p, at, v)) == HeaderSum(p)
    ensures HeaderChecksum(Put16(p, at, v)) == HeaderChecksum(p)
  {
  }

  // ----- every successful recalculation verifies -----

  lemma HeaderChecksumVerifies(p: seq<byte>)
    requires HeaderOk(p)
    ensures var r := WithHeaderChecksum(p); HeaderOk(r) && Finish(HeaderSum(r)) == 0
  {
    var z, c := Put16(p, 10, 0), HeaderChecksum(p);
    HeaderSumExact(z);
    ComplementVerifies(HeaderSum(z), c);
    HeaderSumPut(z, 10, c);
    PutTwice(p, 10, 0, c);
  }

  lemma PseudoChecksumVerifies(p: seq<byte>, lo: nat, hi: nat, at: nat)
    requires 20 <= lo <= at && at + 2 <= hi <= |p| <= MAX_PACKET && (at - lo) % 2 == 0
    ensures Finish(PseudoSum(Put16(p, at, PseudoChecksum(p, lo, hi, at)), lo, hi)) == 0
    ensures p[9] == 17 ==> PseudoChecksum(p, lo, hi, at) != 0
  {
    var z, c := Put16(p, at, 0), PseudoChecksum(p, lo, hi, at);
    PseudoSumExact(z, lo, hi);
    ComplementVerifies(PseudoSum(z, lo, hi), c);
    PseudoSumPut(z, lo, hi, at, c);
    PutTwice(p, at, 0, c);
  }

  ghost predicate Verifies(p: seq<byte>) {
    && HeaderOk(p)
    && Finish(HeaderSum(p)) == 0
    && (HasTransport(p) ==>
      && TransportOk(p)
      && Finish(TransportSum(p)) == 0
      && (p[9] == 17 ==> Get16(p, ChecksumAt(p)) != 0))
  }

  /** The bytes recalculation may write: the two checksum fields. */
  ghost predicate IsChecksumByte(p: seq<byte>, k: nat) {
    || (HeaderOk(p) && (k == 10 || k == 11))
    || (TransportOk(p) && (k == ChecksumAt(p) || k == ChecksumAt(p) + 1))
  }

  lemma RecalcFrame(p: seq<byte>)
    ensures forall k :: 0 <= k < |p| && !IsChecksumByte(p, k) ==> Recalc(p)[k] == p[k]
    ensures SameShape(p, Recalc(p)) && RecalcStatus(Recalc(p)) == RecalcStatus(p)
  {
    if HeaderOk(p) {
      ShapeDecides(p, WithHeaderChecksum(p));
      ShapeDecides(p, Recalc(p));
    }
  }

  /** After every successful recalculation both sums verify, and a UDP checksum is not 0. */
  lemma RecalcVerifies(p: seq<byte>)
    requires RecalcStatus(p) == Done && |p| <= MAX_PACKET
    ensures Verifies(Recalc(p))
  {
    var h := WithHeaderChecksum(p);
    HeaderChecksumVerifies(p);
    ShapeDecides(p, h);
    if HasTransport(p) {
      var n, m, at := HeaderLen(p), PacketLen(p), ChecksumAt(p);
      PseudoChecksumVerifies(h, n, m, at);
      HeaderSumIgnoresTransport(h, at, TransportChecksum(h));
      ShapeDecides(p, Recalc(p));
    }
  }

  /** The total length is set, fits the slice, and ends inside the header. */
  predicate CrossedLengths(p: seq<byte>) {
    HeaderOk(p) && HasTransport(p) && 0 < Get16(p, 2) < HeaderLen(p)
  }

  /** The transport slice of packetnat.go:112 has crossed bounds for exactly these packets. */
  lemma PanicsIff(p: seq<byte>)
    ensures RecalcStatus(p) == Panicked <==> CrossedLengths(p)
  {
  }

  /** Both checksums written are functions of the packet handed in. */
  lemma ChecksumsWritten(p: seq<byte>)
    requires RecalcStatus(p) == Done
    ensures Get16(Recalc(p), 10) == HeaderChecksum(p)
    ensures HasTransport(p) ==>
        Recalc(p) == Put16(Put16(p, 10, HeaderChecksum(p)), ChecksumAt(p), TransportChecksum(p))
    ensures !HasTransport(p) ==> Recalc(p) == Put16(p, 10, HeaderChecksum(p))
  {
    var h := WithHeaderChecksum(p);
    ShapeDecides(p, h);
    if HasTransport(p) {
      PseudoChecksumIgnoresHeader(p, HeaderLen(p), PacketLen(p), ChecksumAt(p), HeaderChecksum(p));
    }
  }

  lemma FieldsWritten(p: seq<byte>)
    requires RecalcStatus(p) == Done
    ensures Get16(Recalc(p), 10) == HeaderChecksum(p)
    ensures HasTransport(p) ==> Get16(Recalc(p), ChecksumAt(p)) == TransportChecksum(p)
  {
    ChecksumsWritten(p);
  }

  // ----- recalculation forgets the old checksums -----

  /** The packet with both checksum fields zeroed. */
  function Blank(p: seq<byte>): (r: seq<byte>)
    requires RecalcStatus(p) == Done
    ensures |r| == |p|
  {
    var z := Put16(p, 10, 0);
    if HasTransport(p) then Put16(z, ChecksumAt(p), 0) else z
  }

  lemma BlankShape(p: seq<byte>)
    requires RecalcStatus(p) == Done
    ensures SameShape(p, Blank(p)) && RecalcStatus(Blank(p)) == Done
  {
  }

  lemma BlankOfRecalc(p: seq<byte>)
    requires RecalcStatus(p) == Done
    ensures RecalcStatus(Recalc(p)) == Done && Blank(Recalc(p)) == Blank(p)
  {
    RecalcFrame(p);
    ShapeDecides(p, Recalc(p));
    ChecksumsWritten(p);
  }

  /** Blanking changes neither checksum to be written. */
  lemma BlankChecksums(p: seq<byte>)
    requires RecalcStatus(p) == Done
    ensures RecalcStatus(Blank(p)) == Done && HeaderChecksum(Blank(p)) == HeaderChecksum(p)
    ensures HasTransport(p) ==> TransportChecksum(Blank(p)) == TransportChecksum(p)
  {
    hide HeaderSum, PseudoChecksum;
    BlankShape(p);
    var z := Put16(p, 10, 0);
    ShapeDecides(p, z);
    ShapeDecides(p, Blank(p));
    HeaderChecksumIgnoresItself(p, 0);
    if HasTransport(p) {
      var n, m, at := HeaderLen(p), PacketLen(p), ChecksumAt(p);
      HeaderSumIgnoresTransport(z, at, 0);
      PseudoChecksumIgnoresHeader(p, n, m, at, 0);
      PseudoChecksumIgnoresItself(z, n, m, at, 0);
    }
  }

  lemma BlankFilled(p: seq<byte>, h: Word16, t: Word16)
    requires RecalcStatus(p) == Done
    ensures HasTransport(p) ==>
        Put16(Put16(Blank(p), 10, h), ChecksumAt(p), t) == Put16(Put16(p, 10, h), ChecksumAt(p), t)
    ensures !HasTransport(p) ==> Put16(Blank(p), 10, h) == Put16(p, 10, h)
  {
  }

  lemma RecalcOfBlank(p: seq<byte>)
    requires RecalcStatus(p) == Done
    ensures RecalcStatus(Blank(p)) == Done && Recalc(Blank(p)) == Recalc(p)
  {
    hide Recalc, HeaderChecksum, TransportChecksum, Blank;
    BlankShape(p);
    ShapeDecides(p, Blank(p));
    ChecksumsWritten(p);
    ChecksumsWritten(Blank(p));
    BlankChecksums(p);
    BlankFilled(p, HeaderChecksum(p), if HasTransport(p) then TransportChecksum(p) else 0);
  }

  /** Packets that differ in checksum bytes only are recalculated to one packet. */
  lemma RecalcAgrees(p: seq<byte>, q: seq<byte>)
    requires RecalcStatus(p) == Done && RecalcStatus(q) == Done && Blank(p) == Blank(q)
    ensures Recalc(p) == Recalc(q)
  {
    RecalcOfBlank(p);
    RecalcOfBlank(q);
  }

  lemma RecalcIdempotent(p: seq<byte>)
    requires RecalcStatus(p) == Done
    ensures RecalcStatus(Recalc(p)) == Done && Recalc(Recalc(p)) == Recalc(p)
  {
    BlankOfRecalc(p);
    RecalcAgrees(Recalc(p), p);
  }

  // ----- address rewriting -----

  lemma SetAddressShape(p: seq<byte>, at: nat, ip: IPv4)
    requires |p| >= 20 && at in {SOURCE, DESTINATION}
    ensures SameShape(p, SetAddress(p, at, ip)) && RecalcStatus(SetAddress(p, at, ip)) == RecalcStatus(p)
  {
  }

  lemma SetAddressOfBlank(p: seq<byte>, at: nat, ip: IPv4)
    requires RecalcStatus(p) == Done && at in {SOURCE, DESTINATION}
    ensures RecalcStatus(SetAddress(p, at, ip)) == Done
    ensures Blank(SetAddress(p, at, ip)) == SetAddress(Blank(p), at, ip)
  {
    SetAddressShape(p, at, ip);
    ShapeDecides(p, SetAddress(p, at, ip));
  }

  lemma RewriteBlank(p: seq<byte>, at: nat, ip: IPv4)
    requires RecalcStatus(p) == Done && at in {SOURCE, DESTINATION}
    ensures var r := Rewrite(p, at, Some(ip));
      RecalcStatus(r) == Done && Recalc(r) == r && Blank(r) == SetAddress(Blank(p), at, ip)
  {
    var moved := SetAddress(p, at, ip);
    SetAddressOfBlank(p, at, ip);
    BlankOfRecalc(moved);
    RecalcIdempotent(moved);
  }

  /** Only the last value of an address field matters. */
  lemma RewriteTwice(p: seq<byte>, at: nat, first: IPv4, last: IPv4)
    requires RecalcStatus(p) == Done && at in {SOURCE, DESTINATION}
    ensures Rewrite(Rewrite(p, at, Some(first)), at, Some(last)) == Rewrite(p, at, Some(last))
  {
    var r := Rewrite(p, at, Some(first));
    RewriteBlank(p, at, first);
    RewriteBlank(r, at, last);
    RewriteBlank(p, at, last);
    SetAddressTwice(Blank(p), at, first, last);
    RecalcAgrees(Rewrite(r, at, Some(last)), Rewrite(p, at, Some(last)));
  }

  lemma SetAddressTwice(p: seq<byte>, at: nat, first: IPv4, last: IPv4)
    requires |p| >= 20 && at in {SOURCE, DESTINATION}
    ensures SetAddress(SetAddress(p, at, first), at, last) == SetAddress(p, at, last)
  {
  }

  /** Rewriting an address and rewriting it back restores a normalised packet byte for byte. */
  lemma RewriteBack(p: seq<byte>, at: nat, ip: IPv4)
    requires RecalcStatus(p) == Done && Recalc(p) == p && at in {SOURCE, DESTINATION}
    ensures Rewrite(Rewrite(p, at, Some(ip)), at, Some(p[at..at + 4])) == p
  {
    RewriteTwice(p, at, ip, p[at..at + 4]);
    assert SetAddress(p, at, p[at..at + 4]) == p;
  }

  // ----- agreement with incremental update -----

  /** Equation 3 in section 3 of RFC 1624: HC' = ~(~HC + ~m + m'), in one's complement arithmetic. */
  function Incremental(hc: Word16, m: Word16, m': Word16): Word16 {
    0xffff - Fold(0xffff - hc + (0xffff - m) + m')
  }

  lemma IncrementalSum(sum: Word32, m: Word16, m': Word16)
    requires 0 < sum && 0 < sum - m + m' < WRAP32
    ensures Finish(sum - m + m') == Incremental(Finish(sum), m, m')
  {
    var inc := Fold(sum) + (0xffff - m) + m';
    var q: int := FoldQuotient(sum);
    SameResidueSameChecksum(sum - m + m', inc, q - 1);
  }

  lemma HeaderChecksumIncrement(p: seq<byte>, i: nat, v: Word16)
    requires HeaderOk(p) && i % 2 == 0 && 12 <= i && i + 2 <= HeaderLen(p)
    ensures HeaderOk(Put16(p, i, v))
    ensures HeaderChecksum(Put16(p, i, v)) == Incremental(HeaderChecksum(p), Get16(p, i), v)
  {
    var z := Put16(p, 10, 0);
    PutCommutes(p, i, v, 10, 0);
    HeaderSumPut(z, i, v);
    HeaderSumExact(z);
    HeaderSumExact(Put16(z, i, v));
    IncrementalSum(HeaderSum(z), Get16(p, i), v);
  }

  /** The checksum before a UDP 0 is written as 0xffff. */
  function RawChecksum(p: seq<byte>, lo: nat, hi: nat, at: nat): Word16
    requires 20 <= lo <= at && at + 2 <= hi <= |p|
  {
    Finish(PseudoSum(Put16(p, at, 0), lo, hi))
  }

  /** The form a checksum takes on the wire: UDP writes 0 as 0xffff, its other one's complement zero. */
  function OnWire(protocol: byte, c: Word16): Word16 {
    if protocol == 17 && c == 0 then 0xffff else c
  }

  lemma RawChecksumIncrement(p: seq<byte>, lo: nat, hi: nat, at: nat, i: nat, v: Word16)
    requires 20 <= lo <= at && at + 2 <= hi <= |p| <= MAX_PACKET && i in {12, 14, 16, 18}
    requires 0 < PseudoSum(Put16(p, at, 0), lo, hi) && 0 < PseudoSum(Put16(Put16(p, at, 0), i, v), lo, hi)
    ensures RawChecksum(Put16(p, i, v), lo, hi, at) == Incremental(RawChecksum(p, lo, hi, at), Get16(p, i), v)
  {
    var z := Put16(p, at, 0);
    PutCommutes(p, i, v, at, 0);
    PseudoSumPutAddress(z, lo, hi, i, v);
    PseudoSumExact(z, lo, hi);
    PseudoSumExact(Put16(z, i, v), lo, hi);
    IncrementalSum(PseudoSum(z, lo, hi), Get16(p, i), v);
  }

  /** The pseudo-header of a TCP or UDP packet contains the protocol number, so its sum is never 0. */
  lemma PseudoSumPositive(p: seq<byte>, lo: nat, hi: nat)
    requires 20 <= lo <= hi <= |p| <= MAX_PACKET && p[9] > 0
    ensures 0 < PseudoSum(p, lo, hi)
  {
    PseudoSumExact(p, lo, hi);
  }

  /** The two zeros of one's complement arithmetic lead to one update on the wire. */
  lemma IncrementalOnWire(hc: Word16, m: Word16, m': Word16)
    ensures OnWire(17, Incremental(OnWire(17, hc), m, m')) == OnWire(17, Incremental(hc, m, m'))
  {
    if hc == 0 && (0xffff - m) + m' > 0 {
      SameResidueSameChecksum(0xffff + (0xffff - m) + m', (0xffff - m) + m', 1);
    }
  }

  lemma PseudoChecksumIncrement(p: seq<byte>, lo: nat, hi: nat, at: nat, i: nat, v: Word16)
    requires 20 <= lo <= at && at + 2 <= hi <= |p| <= MAX_PACKET && p[9] in {6, 17} && i in {12, 14, 16, 18}
    ensures PseudoChecksum(Put16(p, i, v), lo, hi, at)
         == OnWire(p[9], Incremental(PseudoChecksum(p, lo, hi, at), Get16(p, i), v))
  {
    PseudoSumPositive(Put16(p, at, 0), lo, hi);
    PseudoSumPositive(Put16(Put16(p, at, 0), i, v), lo, hi);
    RawChecksumIncrement(p, lo, hi, at, i, v);
    IncrementalOnWire(RawChecksum(p, lo, hi, at), Get16(p, i), v);
  }

  function IncrementalAddress(hc: Word16, before: IPv4, after: IPv4): Word16 {
    Incremental(Incremental(hc, Get16(before, 0), Get16(after, 0)), Get16(before, 2), Get16(after, 2))
  }

  lemma SetAddressAsWords(p: seq<byte>, at: nat, ip: IPv4)
    requires |p| >= 20 && at in {SOURCE, DESTINATION}
    ensures SetAddress(p, at, ip) == Put16(Put16(p, at, Get16(ip, 0)), at + 2, Get16(ip, 2))
  {
  }

  lemma HeaderChecksumOfAddress(p: seq<byte>, at: nat, ip: IPv4)
    requires HeaderOk(p) && at in {SOURCE, DESTINATION}
    ensures HeaderOk(SetAddress(p, at, ip))
    ensures HeaderChecksum(SetAddress(p, at, ip)) == IncrementalAddress(HeaderChecksum(p), p[at..at + 4], ip)
  {
    var w1, w2 := Get16(ip, 0), Get16(ip, 2);
    SetAddressAsWords(p, at, ip);
    HeaderChecksumIncrement(p, at, w1);
    HeaderChecksumIncrement(Put16(p, at, w1), at + 2, w2);
  }

  lemma PseudoChecksumOfAddress(p: seq<byte>, lo: nat, hi: nat, at: nat, field: nat, ip: IPv4)
    requires 20 <= lo <= at && at + 2 <= hi <= |p| <= MAX_PACKET && p[9] in {6, 17} && field in {SOURCE, DESTINATION}
    ensures PseudoChecksum(SetAddress(p, field, ip), lo, hi, at)
         == OnWire(p[9], IncrementalAddress(PseudoChecksum(p, lo, hi, at), p[field..field + 4], ip))
  {
    hide PseudoChecksum, Incremental;
    var w1, w2 := Get16(ip, 0), Get16(ip, 2);
    SetAddressAsWords(p, field, ip);
    var p1 := Put16(p, field, w1);
    var m1, m2 := Get16(p, field), Get16(p1, field + 2);
    assert m2 == Get16(p[field..field + 4], 2) && m1 == Get16(p[field..field + 4], 0);
    PseudoChecksumIncrement(p, lo, hi, at, field, w1);
    PseudoChecksumIncrement(p1, lo, hi, at, field + 2, w2);
    IncrementalOnWire(Incremental(PseudoChecksum(p, lo, hi, at), m1, w1), m2, w2);
  }

  /** Rewriting an address of a packet with good checksums writes what RFC 1624 would, a UDP 0 as 0xffff. */
  lemma RewriteIsIncremental(p: seq<byte>, at: nat, ip: IPv4)
    requires RecalcStatus(p) == Done && Recalc(p) == p && at in {SOURCE, DESTINATION} && |p| <= MAX_PACKET
    ensures Get16(Rewrite(p, at, Some(ip)), 10) == IncrementalAddress(Get16(p, 10), p[at..at + 4], ip)
    ensures HasTransport(p) ==>
        Get16(Rewrite(p, at, Some(ip)), ChecksumAt(p))
        == OnWire(p[9], IncrementalAddress(Get16(p, ChecksumAt(p)), p[at..at + 4], ip))
  {
    hide HeaderChecksum, PseudoChecksum, IncrementalAddress, OnWire, Recalc;
    var moved := SetAddress(p, at, ip);
    SetAddressShape(p, at, ip);
    ShapeDecides(p, moved);
    FieldsWritten(p);
    FieldsWritten(moved);
    HeaderChecksumOfAddress(p, at, ip);
    if HasTransport(p) {
      PseudoChecksumOfAddress(p, HeaderLen(p), PacketLen(p), ChecksumAt(p), at, ip);
    }
  }

  // ----- in bytes -----

  /** The bytes that may change: 10 and 11, and 16 and 17 of a TCP header or 6 and 7 of a UDP header. */
  lemma ChangesInBytes(p: seq<byte>, k: nat)
    requires k < |p| && Recalc(p)[k] != p[k]
    ensures |p| >= 20
    ensures var t := k - p[0] % 0x10 * 4;
      || k == 10
      || k == 11
      || (p[9] == 6 && (t == 16 || t == 17))
      || (p[9] == 17 && (t == 6 || t == 7))
  {
    RecalcFrame(p);
  }

  /** Where the packet ends: at its total length, unless that is 0 or more than the slice has. */
  function EndOf(p: seq<byte>): nat
    requires |p| >= 20
  {
    var total := p[2] as int * 0x100 + p[3];
    if total == 0 || total > |p| then |p| else total
  }

  /** Recalculation succeeds exactly on these packets. */
  lemma DoneInBytes(p: seq<byte>)
    ensures RecalcStatus(p) == Done <==>
        && |p| >= 20
        && p[0] / 0x10 == 4
        && var ihl: nat := p[0] % 0x10 * 4;
           && 20 <= ihl <= |p|
           && (p[9] == 6 ==> ihl + 20 <= EndOf(p))
           && (p[9] == 17 ==> ihl + 8 <= EndOf(p))
  {
  }

  /** And ends in a slice panic exactly on these, whose total length lies inside the header. */
  lemma PanicsInBytes(p: seq<byte>)
    ensures CrossedLengths(p) <==>
        && |p| >= 20
        && p[0] / 0x10 == 4
        && (p[9] == 6 || p[9] == 17)
        && var ihl, total := p[0] % 0x10 * 4, p[2] as int * 0x100 + p[3];
           20 <= ihl <= |p| && 0 < total < ihl
    ensures RecalcStatus(p) == Panicked <==> CrossedLengths(p)
  {
  }

  /** The sums that verify: of the header, and of both addresses, the protocol, the length and the segment. */
  lemma SumsInBytes(p: seq<byte>)
    requires RecalcStatus(p) == Done && |p| <= MAX_PACKET
    ensures var r, ihl, end := Recalc(p), p[0] % 0x10 * 4, EndOf(p);
      && WordSum(r[..ihl]) < WRAP32 && Finish(WordSum(r[..ihl])) == 0
      && (p[9] == 6 || p[9] == 17 ==>
        var sum := WordSum(r[12..20]) + p[9] + (end - ihl) + WordSum(r[ihl..end]);
        sum < WRAP32 && Finish(sum) == 0)
  {
    hide Recalc, Accumulate, WordSum;
    RecalcVerifies(p);
    RecalcFrame(p);
    var r := Recalc(p);
    HeaderSumExact(r);
    assert HeaderLen(r) == HeaderLen(p) && EndOf(p) == PacketLen(p);
    if p[9] == 6 || p[9] == 17 {
      PseudoSumExact(r, HeaderLen(p), EndOf(p));
    }
  }
}
