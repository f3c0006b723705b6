/** keymethod.go: the TLS 1.0 pseudo-random function (section 5 of RFC 2246) and the OpenVPN keys it yields. */
module KeyDerivation {
  import opened Bytes
  import opened ByteXor
  import opened ControlPacket
  import KeyMethodText

  const MASTER_SIZE: nat := 48
  const FIELD_SIZE: nat := 64
  const EXPANSION_SIZE: nat := 4 * FIELD_SIZE

  /** HMAC over one hash: any function of a key and a message with a fixed, positive output length. */
  datatype Hmac = Hmac(size: nat, mac: (seq<byte>, seq<byte>) -> seq<byte>) {
    ghost predicate Fixed() {
      size > 0 && forall key, message :: |mac(key, message)| == size
    }
  }

  // ----- P_hash -----

  /** A(i) of RFC 2246: the seed, MACed i times. */
  function A(h: Hmac, secret: seq<byte>, seed: seq<byte>, i: nat): seq<byte> {
    if i == 0 then seed else h.mac(secret, A(h, secret, seed, i - 1))
  }

  /** HMAC(A(1) + seed) + ... + HMAC(A(k) + seed). */
  function Blocks(h: Hmac, secret: seq<byte>, seed: seq<byte>, k: nat): seq<byte> {
    if k == 0 then [] else Blocks(h, secret, seed, k - 1) + h.mac(secret, A(h, secret, seed, k) + seed)
  }

  lemma {:induction false} BlocksLength(h: Hmac, secret: seq<byte>, seed: seq<byte>, k: nat)
    requires h.Fixed()
    ensures |Blocks(h, secret, seed, k)| >= k
  {
    if k > 0 {
      BlocksLength(h, secret, seed, k - 1);
    }
  }

  lemma {:induction false} BlocksExtend(h: Hmac, secret: seq<byte>, seed: seq<byte>, k: nat, m: nat)
    requires k <= m
    ensures Blocks(h, secret, seed, k) <= Blocks(h, secret, seed, m)
    decreases m
  {
    if k < m {
      BlocksExtend(h, secret, seed, k, m - 1);
    }
  }

  /** The first n bytes of the endless chain of blocks. */
  ghost function Stream(h: Hmac, secret: seq<byte>, seed: seq<byte>, n: nat): (r: seq<byte>)
    requires h.Fixed()
    ensures |r| == n
  {
    BlocksLength(h, secret, seed, n);
    Blocks(h, secret, seed, n)[..n]
  }

  /** However many blocks are computed, enough of them begin with the same bytes. */
  lemma StreamOfBlocks(h: Hmac, secret: seq<byte>, seed: seq<byte>, n: nat, k: nat)
    requires h.Fixed() && n <= |Blocks(h, secret, seed, k)|
    ensures Blocks(h, secret, seed, k)[..n] == Stream(h, secret, seed, n)
  {
    BlocksLength(h, secret, seed, n);
    if k <= n {
      BlocksExtend(h, secret, seed, k, n);
    } else {
      BlocksExtend(h, secret, seed, n, k);
    }
  }

  /** Shorter outputs are prefixes of longer ones. */
  lemma StreamPrefix(h: Hmac, secret: seq<byte>, seed: seq<byte>, m: nat, n: nat)
    requires h.Fixed() && m <= n
    ensures Stream(h, secret, seed, m) == Stream(h, secret, seed, n)[..m]
  {
    BlocksLength(h, secret, seed, n);
    StreamOfBlocks(h, secret, seed, m, n);
    assert Blocks(h, secret, seed, n)[..n][..m] == Blocks(h, secret, seed, n)[..m];
  }

  method PHash(h: Hmac, secret: seq<byte>, seed: seq<byte>, n: nat) returns (r: seq<byte>)
    requires h.Fixed()
    ensures r == Stream(h, secret, seed, n)
  {
    var out := [];
    var a := seed;
    ghost var k: nat := 0;
    while |out| < n
      invariant a == A(h, secret, seed, k)
      invariant out == Blocks(h, secret, seed, k)
      decreases n - |out|
    {
      a := h.mac(secret, a);
      var block := h.mac(secret, a + seed);
      out := out + block;
      k := k + 1;
    }
    StreamOfBlocks(h, secret, seed, n, k);
    r := out[..n];
  }

  // ----- the PRF -----

  function Half(secret: seq<byte>): (n: nat)
    ensures n <= |secret|
  {
    (|secret| + 1) / 2
  }

  function FirstHalf(secret: seq<byte>): seq<byte> {
    secret[..Half(secret)]
  }

  function SecondHalf(secret: seq<byte>): seq<byte> {
    secret[|secret| - Half(secret)..]
  }

  /** The halves are equally long, cover the secret, and share exactly its middle byte when it has one. */
  lemma HalvesCover(secret: seq<byte>)
    ensures |FirstHalf(secret)| == |SecondHalf(secret)|
    ensures |FirstHalf(secret)| + |SecondHalf(secret)| == |secret| + |secret| % 2
    ensures |secret| % 2 <= |SecondHalf(secret)|
    ensures secret == FirstHalf(secret) + SecondHalf(secret)[|secret| % 2..]
    ensures |secret| % 2 == 1 ==> FirstHalf(secret)[Half(secret) - 1] == SecondHalf(secret)[0] == secret[|secret| / 2]
  {
  }

  /** PRF(secret, seed) = P_MD5(S1, seed) XOR P_SHA1(S2, seed), n bytes of it. */
  ghost function Prf(md5: Hmac, sha1: Hmac, secret: seq<byte>, seed: seq<byte>, n: nat): (r: seq<byte>)
    requires md5.Fixed() && sha1.Fixed()
    ensures |r| == n
  {
    var a, b := Stream(md5, FirstHalf(secret), seed, n), Stream(sha1, SecondHalf(secret), seed, n);
    seq(n, i requires 0 <= i < n => Xor(a[i], b[i]))
  }

  lemma PrfPrefix(md5: Hmac, sha1: Hmac, secret: seq<byte>, seed: seq<byte>, m: nat, n: nat)
    requires md5.Fixed() && sha1.Fixed() && m <= n
    ensures Prf(md5, sha1, secret, seed, m) == Prf(md5, sha1, secret, seed, n)[..m]
  {
    StreamPrefix(md5, FirstHalf(secret), seed, m, n);
    StreamPrefix(sha1, SecondHalf(secret), seed, m, n);
  }

  method Tls10Prf(md5: Hmac, sha1: Hmac, secret: seq<byte>, seed: seq<byte>, n: nat) returns (out: array<byte>)
    requires md5.Fixed() && sha1.Fixed()
    ensures fresh(out) && out[..] == Prf(md5, sha1, secret, seed, n)
  {
    var half := (|secret| + 1) / 2;
    var a := PHash(md5, secret[..half], seed, n);
    var b := PHash(sha1, secret[|secret| - half..], seed, n);
    out := new byte[n];
    for i := 0 to n
      invariant forall j :: 0 <= j < i ==> out[j] == Xor(a[j], b[j])
    {
      out[i] := Xor(a[i], b[i]);
    }
  }

  // ----- the OpenVPN keys -----

  type Random = KeyMethodText.Random
  type PreMaster = s: seq<byte> | |s| == 48 witness seq(48, _ => 0)

  datatype KeySource = KeySource(preMaster: PreMaster, random1: Random, random2: Random)

  datatype DataKeyBlock = DataKeyBlock(
    clientCipher: array<byte>, clientHMAC: array<byte>, serverCipher: array<byte>, serverHMAC: array<byte>)

  function Ascii(s: string): seq<byte> {
    seq(|s|, i requires 0 <= i < |s| => s[i] as int % 0x100)
  }

  function MasterSeed(client: KeySource, server: KeySource): seq<byte> {
    Ascii("OpenVPN master secret") + client.random1 + server.random1
  }

  function KeySeed(client: KeySource, server: KeySource, clientSID: SessionID, serverSID: SessionID): seq<byte> {
    Ascii("OpenVPN key expansion") + client.random2 + server.random2 + clientSID + serverSID
  }

  ghost function Master(md5: Hmac, sha1: Hmac, client: KeySource, server: KeySource): seq<byte>
    requires md5.Fixed() && sha1.Fixed()
  {
    Prf(md5, sha1, client.preMaster, MasterSeed(client, server), MASTER_SIZE)
  }

  ghost function Expansion(md5: Hmac, sha1: Hmac, client: KeySource, server: KeySource,
                           clientSID: SessionID, serverSID: SessionID): (r: seq<byte>)
    requires md5.Fixed() && sha1.Fixed()
    ensures |r| == EXPANSION_SIZE
  {
    Prf(md5, sha1, Master(md5, sha1, client, server), KeySeed(client, server, clientSID, serverSID), EXPANSION_SIZE)
  }

  /** copy(dst[:], src[from:from+64]) for a fresh dst. */
  method CopyField(src: array<byte>, from: nat) returns (dst: array<byte>)
    requires from + FIELD_SIZE <= src.Length
    ensures fresh(dst) && dst[..] == src[from..from + FIELD_SIZE]
  {
    dst := new byte[FIELD_SIZE];
    for i := 0 to FIELD_SIZE
      invariant forall j :: 0 <= j < i ==> dst[j] == src[from + j]
    {
      dst[i] := src[from + i];
    }
  }

  method Erase(a: array<byte>)
    modifies a
    ensures forall i :: 0 <= i < a.Length ==> a[i] == 0
  {
    for i := 0 to a.Length
      invariant forall j :: 0 <= j < i ==> a[j] == 0
    {
      a[i] := 0;
    }
  }

  /** The four key fields, copied out of the expansion; the expansion buffer is erased afterwards. */
  method SplitKeys(raw: array<byte>) returns (keys: DataKeyBlock)
    requires raw.Length == EXPANSION_SIZE
    modifies raw
    ensures fresh(keys.clientCipher) && fresh(keys.clientHMAC) && fresh(keys.serverCipher) && fresh(keys.serverHMAC)
    ensures keys.clientCipher[..] == old(raw[0..64])
    ensures keys.clientHMAC[..] == old(raw[64..128])
    ensures keys.serverCipher[..] == old(raw[128..192])
    ensures keys.serverHMAC[..] == old(raw[192..256])
    ensures forall i :: 0 <= i < raw.Length ==> raw[i] == 0
  {
    var clientCipher := CopyField(raw, 0);
    var clientHMAC := CopyField(raw, 64);
    var serverCipher := CopyField(raw, 128);
    var serverHMAC := CopyField(raw, 192);
    Erase(raw);
    keys := DataKeyBlock(clientCipher, clientHMAC, serverCipher, serverHMAC);
  }

  lemma FieldsCover(raw: seq<byte>)
    requires |raw| == EXPANSION_SIZE
    ensures raw[0..64] + raw[64..128] + raw[128..192] + raw[192..256] == raw
  {
  }

  /** The four fields together are the expansion, although raw, the buffer they were copied from, ends all zero. */
  method DeriveKeys(md5: Hmac, sha1: Hmac, client: KeySource, server: KeySource,
                    clientSID: SessionID, serverSID: SessionID)
    returns (master: array<byte>, keys: DataKeyBlock, raw: array<byte>)
    requires md5.Fixed() && sha1.Fixed()
    ensures master[..] == Master(md5, sha1, client, server)
    ensures keys.clientCipher[..] + keys.clientHMAC[..] + keys.serverCipher[..] + keys.serverHMAC[..]
         == Expansion(md5, sha1, client, server, clientSID, serverSID)
    ensures keys.clientCipher.Length == keys.clientHMAC.Length == 64
    ensures keys.serverCipher.Length == keys.serverHMAC.Length == 64
    ensures forall i :: 0 <= i < raw.Length ==> raw[i] == 0
    ensures raw.Length == EXPANSION_SIZE
  {
    hide Prf, Ascii;
    var seedMaster := Ascii("OpenVPN master secret");
    seedMaster := seedMaster + client.random1;
    seedMaster := seedMaster + server.random1;
    master := Tls10Prf(md5, sha1, client.preMaster, seedMaster, MASTER_SIZE);
    var seedKeys := Ascii("OpenVPN key expansion");
    seedKeys := seedKeys + client.random2;
    seedKeys := seedKeys + server.random2;
    seedKeys := seedKeys + clientSID;
    seedKeys := seedKeys + serverSID;
    raw := Tls10Prf(md5, sha1, master[..], seedKeys, EXPANSION_SIZE);
    assert raw[0..64] == raw[..][0..64] && raw[64..128] == raw[..][64..128];
    assert raw[128..192] == raw[..][128..192] && raw[192..256] == raw[..][192..256];
    FieldsCover(raw[..]);
    keys := SplitKeys(raw);
  }

  /** Every fixed-width field of a seed decides it, so two handshakes share a seed only if they share all its parts. */
  lemma KeySeedInjective(c: KeySource, s: KeySource, cid: SessionID, sid: SessionID,
                         c': KeySource, s': KeySource, cid': SessionID, sid': SessionID)
    ensures KeySeed(c, s, cid, sid) == KeySeed(c', s', cid', sid')
       <==> c.random2 == c'.random2 && s.random2 == s'.random2 && cid == cid' && sid == sid'
    ensures KeySeed(c, s, cid, sid) != MasterSeed(c', s')
  {
    var tag := Ascii("OpenVPN key expansion");
    var k, k' := KeySeed(c, s, cid, sid), KeySeed(c', s', cid', sid');
    var n := |tag|;
    if k == k' {
      assert c.random2 == k[n..n + 32] == c'.random2;
      assert s.random2 == k[n + 32..n + 64] == s'.random2;
      assert cid == k[n + 64..n + 72] == cid';
      assert sid == k[n + 72..n + 80] == sid';
    }
  }

  // ----- in bytes -----

  /** The two labels, byte by byte. */
  lemma Labels()
    ensures Ascii("OpenVPN master secret") ==
        [79, 112, 101, 110, 86, 80, 78, 32, 109, 97, 115, 116, 101, 114, 32, 115, 101, 99, 114, 101, 116]
    ensures Ascii("OpenVPN key expansion") ==
        [79, 112, 101, 110, 86, 80, 78, 32, 107, 101, 121, 32, 101, 120, 112, 97, 110, 115, 105, 111, 110]
  {
  }

  /** The master secret is the first 48 bytes from the client's pre-master secret and both first randoms. */
  lemma MasterInBytes(md5: Hmac, sha1: Hmac, client: KeySource, server: KeySource, seed: seq<byte>)
    requires md5.Fixed() && sha1.Fixed()
    requires |seed| == 85 && seed[..21] == Ascii("OpenVPN master secret")
    requires seed[21..53] == client.random1 && seed[53..85] == server.random1
    ensures Master(md5, sha1, client, server) == Prf(md5, sha1, client.preMaster, seed, 48)
  {
    hide Prf;
    Labels();
    hide Ascii;
    assert seed == seed[..21] + seed[21..53] + seed[53..85];
    assert seed == MasterSeed(client, server);
  }

  /** The keys are 256 bytes from the master secret, both second randoms and both session ids, client's first. */
  lemma ExpansionInBytes(md5: Hmac, sha1: Hmac, client: KeySource, server: KeySource,
                         clientSID: SessionID, serverSID: SessionID, seed: seq<byte>)
    requires md5.Fixed() && sha1.Fixed()
    requires |seed| == 101 && seed[..21] == Ascii("OpenVPN key expansion")
    requires seed[21..53] == client.random2 && seed[53..85] == server.random2
    requires seed[85..93] == clientSID && seed[93..101] == serverSID
    ensures Expansion(md5, sha1, client, server, clientSID, serverSID)
         == Prf(md5, sha1, Master(md5, sha1, client, server), seed, 256)
  {
    hide Prf;
    Labels();
    hide Ascii;
    assert seed == seed[..21] + seed[21..53] + seed[53..85] + seed[85..93] + seed[93..101];
    assert seed == KeySeed(client, server, clientSID, serverSID);
  }

  /** Where each part of a seed lies. */
  lemma SeedLayout(c: KeySource, s: KeySource, cid: SessionID, sid: SessionID)
    ensures var seed := MasterSeed(c, s);
      && |seed| == 85 && seed[..21] == Ascii("OpenVPN master secret")
      && seed[21..53] == c.random1 && seed[53..85] == s.random1
    ensures var seed := KeySeed(c, s, cid, sid);
      && |seed| == 101 && seed[..21] == Ascii("OpenVPN key expansion")
      && seed[21..53] == c.random2 && seed[53..85] == s.random2
      && seed[85..93] == cid && seed[93..101] == sid
  {
    Labels();
    hide Ascii;
  }

  /** Byte i is the exclusive or of the MD5 stream of the first half and the SHA-1 stream of the second. */
  lemma PrfByte(md5: Hmac, sha1: Hmac, secret: seq<byte>, seed: seq<byte>, n: nat, i: nat)
    requires md5.Fixed() && sha1.Fixed() && i < n
    ensures var half := (|secret| + 1) / 2;
      Prf(md5, sha1, secret, seed, n)[i] ==
      Xor(Stream(md5, secret[..half], seed, n)[i], Stream(sha1, secret[|secret| - half..], seed, n)[i])
  {
  }

  /** Byte b of block k is that byte of the MAC of A(k + 1) and the seed. */
  lemma StreamByte(h: Hmac, secret: seq<byte>, seed: seq<byte>, n: nat, k: nat, b: nat)
    requires h.Fixed() && b < h.size && k * h.size + b < n
    ensures A(h, secret, seed, 0) == seed && A(h, secret, seed, k + 1) == h.mac(secret, A(h, secret, seed, k))
    ensures Stream(h, secret, seed, n)[k * h.size + b] == h.mac(secret, A(h, secret, seed, k + 1) + seed)[b]
  {
    BlocksSize(h, secret, seed, k);
    BlocksSize(h, secret, seed, k + 1);
    var some := Blocks(h, secret, seed, k + 1);
    assert some[k * h.size + b] == h.mac(secret, A(h, secret, seed, k + 1) + seed)[b];
    var m := if n < k + 1 then k + 1 else n;
    BlocksExtend(h, secret, seed, k + 1, m);
    BlocksLength(h, secret, seed, m);
    StreamOfBlocks(h, secret, seed, n, m);
    assert Blocks(h, secret, seed, m)[..n][k * h.size + b] == some[k * h.size + b];
  }

  lemma {:induction false} BlocksSize(h: Hmac, secret: seq<byte>, seed: seq<byte>, k: nat)
    requires h.Fixed()
    ensures |Blocks(h, secret, seed, k)| == k * h.size
  {
    if k > 0 {
      BlocksSize(h, secret, seed, k - 1);
      assert k * h.size == (k - 1) * h.size + h.size;
    }
  }
}
