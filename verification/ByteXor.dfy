/** Go's ^ on bytes. */
module ByteXor {

  function Xor(a: int, b: int): (r: int)
    requires 0 <= a < 0x100 && 0 <= b < 0x100
    ensures 0 <= r < 0x100
  {
    (a as bv8 ^ b as bv8) as int
  }

  lemma XorOf(x: bv8, y: bv8)
    ensures Xor(x as int, y as int) == (x ^ y) as int
  {
    hide Xor;
    AsInt(x);
    AsInt(y);
    XorOfBits(x as int, y as int, x, y);
  }

  lemma XorOfBits(a: int, b: int, x: bv8, y: bv8)
    requires 0 <= a < 0x100 && 0 <= b < 0x100 && a as bv8 == x && b as bv8 == y
    ensures Xor(a, b) == (x ^ y) as int
  {
  }

  lemma AsInt(x: bv8)
    ensures (x as int) as bv8 == x
  {
  }

  lemma HighBits(x: bv8)
    ensures (x >> 1) as int == x as int / 2
  {
  }

  lemma LowBit(x: bv8)
    ensures x as int % 2 == if x & 1 == 0 then 0 else 1
  {
  }

  lemma BitsOfXor(x: bv8, y: bv8)
    ensures (x ^ y) >> 1 == (x >> 1) ^ (y >> 1)
    ensures (x ^ y) & 1 == if x & 1 == y & 1 then 0 else 1
    ensures (x ^ y) ^ y == x
  {
  }

  /** Exclusive or works bit by bit, from the lowest. */
  lemma XorLowest(x: bv8, y: bv8)
    ensures Xor(x as int, y as int) % 2 == if x as int % 2 == y as int % 2 then 0 else 1
  {
    XorOf(x, y);
    BitsOfXor(x, y);
    LowBit(x);
    LowBit(y);
    LowBit(x ^ y);
    hide Xor;
  }

  lemma XorRest(x: bv8, y: bv8)
    ensures Xor(x as int, y as int) / 2 == Xor(x as int / 2, y as int / 2)
  {
    hide Xor;
    XorOf(x, y);
    XorOf(x >> 1, y >> 1);
    BitsOfXor(x, y);
    HighBits(x);
    HighBits(y);
    HighBits(x ^ y);
  }

  /** It undoes itself. */
  lemma XorTwice(x: bv8, y: bv8)
    ensures Xor(Xor(x as int, y as int), y as int) == x as int
  {
    hide Xor;
    XorOf(x, y);
    XorOf(x ^ y, y);
    BitsOfXor(x, y);
  }
}
