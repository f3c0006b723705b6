/** The Internet checksum of section 1 of RFC 1071, as packetnat.go accumulates and folds it. */
module Checksum {
  import opened Bytes

  /** The exact (unbounded) sum of the big-endian 16-bit words; a lone last byte is a high byte. */
  function WordSum(data: seq<byte>): nat {
    if |data| == 0 then 0
    else if |data| == 1 then data[0] as int * 0x100
    else Get16(data, 0) + WordSum(data[2..])
  }

  /** What a uint32 accumulator holds after adding the words of data to sum. */
  function Accumulate(data: seq<byte>, sum: nat): Word32 {
    (sum + WordSum(data)) % WRAP32
  }

  /** End-around-carry folding down to 16 bits. */
  function Fold(sum: nat): Word16 {
    if sum < 0x1_0000 then sum else Fold(sum % 0x1_0000 + sum / 0x1_0000)
  }

  /** How many times the folding loop runs. */
  function FoldRounds(sum: nat): nat {
    if sum < 0x1_0000 then 0 else 1 + FoldRounds(sum % 0x1_0000 + sum / 0x1_0000)
  }

  function Finish(sum: Word32): Word16 {
    0xffff - Fold(sum)
  }

  method ChecksumWords(packet: seq<byte>, start: Word32) returns (sum: Word32)
    ensures sum == Accumulate(packet, start)
  {
    var data := packet;
    sum := start;
    while |data| >= 2
      invariant Accumulate(data, sum) == Accumulate(packet, start)
    {
      AddWord(data, sum);
      sum := (sum + Get16(data, 0)) % WRAP32;
      data := data[2..];
    }
    if |data| == 1 {
      sum := (sum + data[0] as int * 0x100) % WRAP32;
    }
  }

  method FinishChecksum(start: Word32) returns (csum: Word16)
    ensures csum == Finish(start)
  {
    var sum := start;
    while sum / 0x1_0000 != 0
      invariant Fold(sum) == Fold(start)
      decreases sum
    {
      sum := sum % 0x1_0000 + sum / 0x1_0000;
    }
    csum := 0xffff - sum;
  }

  /** Taking the first word of data into the accumulator. */
  lemma AddWord(data: seq<byte>, sum: Word32)
    requires |data| >= 2
    ensures Accumulate(data[2..], (sum + Get16(data, 0)) % WRAP32) == Accumulate(data, sum)
  {
    WrapAdd(sum + Get16(data, 0), WordSum(data[2..]));
  }

  /** What is left at the end: nothing, or a lone high byte. */
  lemma AddLast(data: seq<byte>, sum: Word32)
    requires |data| < 2
    ensures Accumulate(data, sum) == if |data| == 1 then (sum + data[0] as int * 0x100) % WRAP32 else sum
  {
  }

  lemma WrapAdd(a: nat, b: nat)
    ensures (a % WRAP32 + b) % WRAP32 == (a + b) % WRAP32
  {
  }

  // ----- folding is arithmetic modulo 65535 -----

  /** Folding takes off a multiple of 65535, and reaches 0 from 0 only. */
  lemma {:induction false} FoldQuotient(sum: nat) returns (q: nat)
    ensures sum == 0xffff * q + Fold(sum)
    ensures Fold(sum) == 0 <==> sum == 0
    decreases sum
  {
    if sum < 0x1_0000 {
      q := 0;
    } else {
      var hi, lo := sum / 0x1_0000, sum % 0x1_0000;
      var rest := FoldQuotient(lo + hi);
      q := hi + rest;
    }
  }

  lemma {:induction false} FoldKeepsResidue(sum: nat)
    ensures Fold(sum) % 0xffff == sum % 0xffff
    ensures Fold(sum) == 0 <==> sum == 0
  {
    var q := FoldQuotient(sum);
    if Fold(sum) == 0xffff {
      ResidueIs(sum, q + 1, 0);
    } else {
      ResidueIs(sum, q, Fold(sum));
    }
  }

  lemma ResidueIs(x: nat, k: nat, r: nat)
    requires x == 0xffff * k + r && r < 0xffff
    ensures x % 0xffff == r
  {
    var d := x / 0xffff - k;
    assert 0xffff * d == r - x % 0xffff;
    assert d == 0;
  }

  lemma FoldEndsInTwoRounds(sum: Word32)
    ensures FoldRounds(sum) <= 2
  {
    if sum >= 0x1_0000 {
      var s1 := sum % 0x1_0000 + sum / 0x1_0000;
      assert s1 <= 0x1_fffe;
      if s1 >= 0x1_0000 {
        var s2 := s1 % 0x1_0000 + s1 / 0x1_0000;
        assert s1 / 0x1_0000 == 1 && s2 < 0x1_0000;
        assert FoldRounds(s1) == 1 + FoldRounds(s2);
      }
      assert FoldRounds(sum) == 1 + FoldRounds(s1);
    }
  }

  /** The checksum is the one value that brings the sum to a multiple of 65535, 65535 itself only for a sum of 0. */
  lemma FinishMeans(sum: Word32)
    ensures (sum + Finish(sum)) % 0xffff == 0 && (Finish(sum) == 0xffff <==> sum == 0)
  {
    var q := FoldQuotient(sum);
    ResidueIs(sum + Finish(sum), q + 1, 0);
  }

  // ----- sums of edited data -----

  /** Words are read big-endian, in pairs from the front, and a lone last byte is a high byte. */
  lemma WordsOf(a: byte, b: byte, rest: seq<byte>)
    ensures WordSum([]) == 0 && WordSum([a]) == a as int * 0x100
    ensures WordSum([a, b] + rest) == a as int * 0x100 + b + WordSum(rest)
  {
    assert ([a, b] + rest)[2..] == rest;
  }

  lemma {:induction false} WordSumBound(data: seq<byte>)
    ensures 2 * WordSum(data) <= 0xffff * (|data| + 1)
  {
    if |data| >= 2 {
      WordSumBound(data[2..]);
    }
  }

  lemma {:induction false} WordSumPut16(data: seq<byte>, i: nat, v: Word16)
    requires i % 2 == 0 && i + 2 <= |data|
    ensures WordSum(Put16(data, i, v)) == WordSum(data) - Get16(data, i) + v
  {
    var put := Put16(data, i, v);
    if i == 0 {
      assert put[2..] == data[2..];
    } else {
      assert put[2..] == Put16(data[2..], i - 2, v);
      WordSumPut16(data[2..], i - 2, v);
    }
  }

  lemma PositiveMultipleVerifies(n: nat)
    requires 0 < n && 0xffff * n < WRAP32
    ensures Finish(0xffff * n) == 0
  {
    var q := FoldQuotient(0xffff * n);
  }

  /** A sum whose checksum field held 0 verifies once the field holds its complement. */
  lemma ComplementVerifies(sum: Word32, c: Word16)
    requires 0 < sum && sum + c < WRAP32
    requires c == Finish(sum) || (Finish(sum) == 0 && c == 0xffff)
    ensures Finish(sum + c) == 0
  {
    var q := FoldQuotient(sum);
    if c == Finish(sum) {
      assert sum + c == 0xffff * (q + 1);
      PositiveMultipleVerifies(q + 1);
    } else {
      assert sum + c == 0xffff * (q + 2);
      PositiveMultipleVerifies(q + 2);
    }
  }

  /** Two positive sums with one residue have one checksum. */
  lemma SameResidueSameChecksum(a: Word32, b: Word32, d: int)
    requires a > 0 && b > 0 && a - b == 0xffff * d
    ensures Finish(a) == Finish(b)
  {
    var qa := FoldQuotient(a);
    var qb := FoldQuotient(b);
    var k := qa - qb - d;
    assert 0xffff * k == Fold(b) - Fold(a);
    assert k == 0;
  }
}
