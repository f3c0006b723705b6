/** datachannel.go: the P_DATA_V2 wire format around an abstract AES-256-GCM. */
module DataChannel {
  import opened Bytes

  const OPCODE_DATA_V2: nat := 9
  const TAG_SIZE: nat := 16

  /** An authenticated cipher: seal(key, nonce, plaintext, aad) and open(key, nonce, sealed, aad). */
  datatype Aead = Aead(
    seal: (seq<byte>, seq<byte>, seq<byte>, seq<byte>) -> seq<byte>,
    unseal: (seq<byte>, seq<byte>, seq<byte>, seq<byte>) -> Option<seq<byte>>)

  /** What is assumed of GCM: a fixed overhead, and opening undoes sealing. */
  ghost predicate IsGcm(a: Aead) {
    forall key: seq<byte>, nonce: seq<byte>, text: seq<byte>, aad: seq<byte> ::
      var sealed := a.seal(key, nonce, text, aad);
      |sealed| == |text| + TAG_SIZE && a.unseal(key, nonce, sealed, aad) == Some(text)
  }

  /** GCM is deterministic: only the sealed form of a text opens to it. */
  ghost predicate IsDeterministic(a: Aead) {
    forall key: seq<byte>, nonce: seq<byte>, sealed: seq<byte>, aad: seq<byte> ::
      var text := a.unseal(key, nonce, sealed, aad);
      text.Some? ==> a.seal(key, nonce, text.value, aad) == sealed
  }

  datatype Error =
    | ZeroPacketId
    | PeerIdTooLarge
    | KeyIdTooLarge
    | ShortImplicitIv
    | BadKeyLength
    | BadSealedLength
    | PacketTooShort
    | NotDataV2
    | AuthenticationFailed

  datatype Data = Data(peerID: Word32, keyID: byte, packetID: Word32, payload: seq<byte>)

  function Header(peerID: Word32, keyID: byte): Result<seq<byte>, Error> {
    if peerID > 0xFF_FFFF then Err(PeerIdTooLarge)
    else if keyID > 7 then Err(KeyIdTooLarge)
    else Ok(BE32((OPCODE_DATA_V2 * 8 + keyID) * 0x100_0000 + peerID))
  }

  function Nonce(pid: seq<byte>, hmacKey: seq<byte>): Result<seq<byte>, Error> {
    if |hmacKey| < 8 then Err(ShortImplicitIv) else Ok(pid + hmacKey[..8])
  }

  function Encrypt(a: Aead, peerID: Word32, keyID: byte, packetID: Word32,
                   aesKey: seq<byte>, hmacKey: seq<byte>, plaintext: seq<byte>): Result<seq<byte>, Error> {
    if packetID == 0 then Err(ZeroPacketId)
    else if Header(peerID, keyID).Err? then Header(peerID, keyID)
    else
      var header, pid := Header(peerID, keyID).value, BE32(packetID);
      if Nonce(pid, hmacKey).Err? then Nonce(pid, hmacKey)
      else if |aesKey| != 32 then Err(BadKeyLength)
      else
        var sealed := a.seal(aesKey, Nonce(pid, hmacKey).value, plaintext, header + pid);
        if |sealed| != |plaintext| + TAG_SIZE then Err(BadSealedLength)
        else Ok(header + pid + sealed[|plaintext|..] + sealed[..|plaintext|])
  }

  function Decrypt(a: Aead, packet: seq<byte>, aesKey: seq<byte>, hmacKey: seq<byte>): Result<Data, Error> {
    if |packet| < 4 + 4 + TAG_SIZE + 1 then Err(PacketTooShort)
    else if packet[0] / 8 != OPCODE_DATA_V2 then Err(NotDataV2)
    else
      var packetID := Get32(packet, 4);
      if packetID == 0 then Err(ZeroPacketId)
      else if Nonce(packet[4..8], hmacKey).Err? then Err(ShortImplicitIv)
      else if |aesKey| != 32 then Err(BadKeyLength)
      else
        var nonce := Nonce(packet[4..8], hmacKey).value;
        var plaintext := a.unseal(aesKey, nonce, packet[24..] + packet[8..24], packet[..8]);
        if plaintext.None? then Err(AuthenticationFailed)
        else Ok(Data(PeerOf(packet), packet[0] % 8, packetID, plaintext.value))
  }

  function PeerOf(packet: seq<byte>): Word32
    requires |packet| >= 4
  {
    packet[1] as int * 0x1_0000 + packet[2] as int * 0x100 + packet[3]
  }

  // ----- the header -----

  lemma HeaderBytes(peerID: Word32, keyID: byte)
    requires peerID <= 0xFF_FFFF && keyID <= 7
    ensures var h := Header(peerID, keyID).value; |h| == 4 && h[0] == 72 + keyID && PeerOf(h) == peerID
  {
  }

  lemma HeaderOfBytes(h: seq<byte>)
    requires |h| == 4 && h[0] / 8 == OPCODE_DATA_V2
    ensures Header(PeerOf(h), h[0] % 8) == Ok(h)
  {
    HeaderBytes(PeerOf(h), h[0] % 8);
    PeerOfInjective(Header(PeerOf(h), h[0] % 8).value, h);
  }

  lemma PeerOfInjective(g: seq<byte>, h: seq<byte>)
    requires |g| == |h| == 4 && g[0] == h[0] && PeerOf(g) == PeerOf(h)
    ensures g == h
  {
    assert g[1] == PeerOf(g) / 0x1_0000 && h[1] == PeerOf(h) / 0x1_0000;
    assert g[3] == PeerOf(g) % 0x100 && h[3] == PeerOf(h) % 0x100;
  }

  // ----- both directions -----

  /** The wire layout: header, packet id, tag, ciphertext. */
  lemma EncryptLayout(a: Aead, peerID: Word32, keyID: byte, packetID: Word32,
                      aesKey: seq<byte>, hmacKey: seq<byte>, text: seq<byte>)
    requires Encrypt(a, peerID, keyID, packetID, aesKey, hmacKey, text).Ok?
    ensures var out := Encrypt(a, peerID, keyID, packetID, aesKey, hmacKey, text).value;
      && |out| == 24 + |text|
      && out[..4] == Header(peerID, keyID).value
      && out[4..8] == BE32(packetID)
      && out[24..] + out[8..24] == a.seal(aesKey, BE32(packetID) + hmacKey[..8], text, out[..8])
  {
    var out := Encrypt(a, peerID, keyID, packetID, aesKey, hmacKey, text).value;
    var header, pid := Header(peerID, keyID).value, BE32(packetID);
    HeaderBytes(peerID, keyID);
    var sealed := a.seal(aesKey, pid + hmacKey[..8], text, header + pid);
    assert out[..8] == header + pid;
    assert out[8..24] == sealed[|text|..] && out[24..] == sealed[..|text|];
    assert sealed == sealed[..|text|] + sealed[|text|..];
  }

  predicate ValidKeys(peerID: Word32, keyID: byte, packetID: Word32, aesKey: seq<byte>, hmacKey: seq<byte>) {
    peerID <= 0xFF_FFFF && keyID <= 7 && packetID != 0 && |aesKey| == 32 && |hmacKey| >= 8
  }

  /** Encryption succeeds exactly on valid parameters. */
  lemma EncryptSucceeds(a: Aead, peerID: Word32, keyID: byte, packetID: Word32,
                        aesKey: seq<byte>, hmacKey: seq<byte>, text: seq<byte>)
    requires IsGcm(a)
    ensures Encrypt(a, peerID, keyID, packetID, aesKey, hmacKey, text).Ok?
       <==> ValidKeys(peerID, keyID, packetID, aesKey, hmacKey)
  {
  }

  lemma DecryptsTo(a: Aead, packet: seq<byte>, d: Data, aesKey: seq<byte>, hmacKey: seq<byte>)
    requires |packet| >= 25 && packet[0] == 72 + d.keyID && d.keyID <= 7 && PeerOf(packet) == d.peerID
    requires packet[4..8] == BE32(d.packetID) && d.packetID != 0 && |aesKey| == 32 && |hmacKey| >= 8
    requires a.unseal(aesKey, BE32(d.packetID) + hmacKey[..8], packet[24..] + packet[8..24], packet[..8])
          == Some(d.payload)
    ensures Decrypt(a, packet, aesKey, hmacKey) == Ok(d)
  {
  }

  /** Decryption undoes encryption of every non-empty payload; an empty one encrypts to 24 bytes that it rejects. */
  lemma RoundTrip(a: Aead, peerID: Word32, keyID: byte, packetID: Word32,
                  aesKey: seq<byte>, hmacKey: seq<byte>, text: seq<byte>)
    requires IsGcm(a) && ValidKeys(peerID, keyID, packetID, aesKey, hmacKey)
    ensures Encrypt(a, peerID, keyID, packetID, aesKey, hmacKey, text).Ok?
    ensures var out := Encrypt(a, peerID, keyID, packetID, aesKey, hmacKey, text).value;
      Decrypt(a, out, aesKey, hmacKey)
      == if text == [] then Err(PacketTooShort) else Ok(Data(peerID, keyID, packetID, text))
  {
    EncryptSucceeds(a, peerID, keyID, packetID, aesKey, hmacKey, text);
    EncryptLayout(a, peerID, keyID, packetID, aesKey, hmacKey, text);
    if text != [] {
      var out := Encrypt(a, peerID, keyID, packetID, aesKey, hmacKey, text).value;
      HeaderBytes(peerID, keyID);
      assert out[0] == out[..4][0] && PeerOf(out) == PeerOf(out[..4]);
      assert a.unseal(aesKey, BE32(packetID) + hmacKey[..8], out[24..] + out[8..24], out[..8]) == Some(text);
      DecryptsTo(a, out, Data(peerID, keyID, packetID, text), aesKey, hmacKey);
    }
  }

  /** Conversely, an accepted packet is the one encryption of what it decrypts to. */
  lemma DecryptInverts(a: Aead, packet: seq<byte>, aesKey: seq<byte>, hmacKey: seq<byte>)
    requires IsGcm(a) && IsDeterministic(a) && Decrypt(a, packet, aesKey, hmacKey).Ok?
    ensures var d := Decrypt(a, packet, aesKey, hmacKey).value;
      Encrypt(a, d.peerID, d.keyID, d.packetID, aesKey, hmacKey, d.payload) == Ok(packet)
  {
    var d := Decrypt(a, packet, aesKey, hmacKey).value;
    var h := packet[..4];
    HeaderOfBytes(h);
    assert PeerOf(h) == PeerOf(packet);
    Get32RoundTrip(packet, 4);
    assert packet[4..8] == BE32(d.packetID);
    assert h + BE32(d.packetID) == packet[..8];
    var nonce, sealed := BE32(d.packetID) + hmacKey[..8], packet[24..] + packet[8..24];
    assert a.unseal(aesKey, nonce, sealed, packet[..8]) == Some(d.payload);
    assert a.seal(aesKey, nonce, d.payload, packet[..8]) == sealed;
    assert |sealed| == |d.payload| + TAG_SIZE;
    assert sealed[|d.payload|..] == packet[8..24] && sealed[..|d.payload|] == packet[24..];
    assert packet == packet[..8] + packet[8..24] + packet[24..];
  }

  /** Under one HMAC key, two nonces are equal only for one packet id. */
  lemma NoncesDiffer(p: Word32, q: Word32, hmacKey: seq<byte>)
    requires |hmacKey| >= 8
    ensures Nonce(BE32(p), hmacKey) == Nonce(BE32(q), hmacKey) <==> p == q
  {
    var np, nq := BE32(p) + hmacKey[..8], BE32(q) + hmacKey[..8];
    assert np[..4] == BE32(p) && nq[..4] == BE32(q);
    BE32RoundTrip(p);
    BE32RoundTrip(q);
  }

  // ----- in bytes -----

  /** The header: opcode 9 above the key id, then the peer id, most significant byte first. */
  lemma HeaderInBytes(keyID: byte, a: byte, b: byte, c: byte)
    requires keyID <= 7
    ensures Header((a as int * 0x100 + b) * 0x100 + c, keyID) == Ok([9 * 8 + keyID, a, b, c])
  {
    BigEndian(9 * 8 + keyID, a, b, c);
  }

  /** The nonce of a packet: its four id bytes, most significant first, and the first eight bytes of the HMAC key. */
  lemma NonceInBytes(a: byte, b: byte, c: byte, d: byte, hmacKey: seq<byte>)
    requires |hmacKey| >= 8
    ensures Nonce(BE32(((a as int * 0x100 + b) * 0x100 + c) * 0x100 + d), hmacKey) == Ok([a, b, c, d] + hmacKey[..8])
  {
    BigEndian(a, b, c, d);
  }

  /** Which packets are opened: the tag goes behind the ciphertext, and the first eight bytes are authenticated. */
  lemma DecryptsIff(a: Aead, packet: seq<byte>, aesKey: seq<byte>, hmacKey: seq<byte>)
    ensures Decrypt(a, packet, aesKey, hmacKey).Ok? <==>
        && |packet| >= 25 && packet[0] / 8 == 9 && packet[4..8] != [0, 0, 0, 0] && |aesKey| == 32 && |hmacKey| >= 8
        && a.unseal(aesKey, packet[4..8] + hmacKey[..8], packet[24..] + packet[8..24], packet[..8]).Some?
  {
    if |packet| >= 25 {
      assert Get32(packet, 4) == 0 <==> packet[4..8] == [0, 0, 0, 0];
    }
  }
}
