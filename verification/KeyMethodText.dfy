/** keymethod.go: the length-prefixed strings and the server's key-method record, read from a byte stream. */
module KeyMethodText {
  import opened Bytes

  const KEY_METHOD_2: byte := 2

  datatype Error = ShortRead | ContainsNul | StringTooLong | MissingNul | BadPrefix | BadMethod

  /** What a read yields and what it leaves unread; a short read uses the stream up. */
  datatype Step<+T> = Step(result: Result<T, Error>, rest: seq<byte>)

  type Random = s: seq<byte> | |s| == 32 witness seq(32, _ => 0)

  datatype Header = Header(random1: Random, random2: Random)

  datatype Texts = Texts(options: seq<byte>, username: seq<byte>, password: seq<byte>, peerInfo: seq<byte>)

  datatype Record = Record(source: Header, texts: Texts)

  // ----- writing -----

  function EncodeString(s: seq<byte>): Result<seq<byte>, Error> {
    if s == [] then Ok(BE16(0))
    else if 0 in s then Err(ContainsNul)
    else if |s| + 1 > 0xffff then Err(StringTooLong)
    else Ok(BE16(|s| + 1) + s + [0])
  }

  class Writer {
    var data: seq<byte>

    /** A refused string leaves the buffer as it was. */
    method WriteString(s: seq<byte>) returns (error: Option<Error>)
      modifies this
      ensures error == (if EncodeString(s).Ok? then None else Some(EncodeString(s).error))
      ensures data == old(data) + if EncodeString(s).Ok? then EncodeString(s).value else []
    {
      if s == [] {
        data := data + BE16(0);
        return None;
      }
      var i := 0;
      while i < |s|
        invariant 0 <= i <= |s| && 0 !in s[..i]
      {
        if s[i] == 0 {
          return Some(ContainsNul);
        }
        i := i + 1;
      }
      assert s[..i] == s;
      var n := |s| + 1;
      if n > 0xffff {
        return Some(StringTooLong);
      }
      data := data + BE16(n);
      data := data + s;
      data := data + [0];
      assert data == old(data) + (BE16(n) + s + [0]);
      error := None;
    }
  }

  // ----- reading, as functions of the stream -----

  function TakeExact(s: seq<byte>, n: nat): Step<seq<byte>> {
    if |s| < n then Step(Err(ShortRead), []) else Step(Ok(s[..n]), s[n..])
  }

  function TakeString(s: seq<byte>, max: nat): Step<seq<byte>> {
    if |s| < 2 then Step(Err(ShortRead), [])
    else
      var n: nat := Get16(s, 0);
      if n == 0 then Step(Ok([]), s[2..])
      else if n > max then Step(Err(StringTooLong), s[2..])
      else if |s| < 2 + n then Step(Err(ShortRead), [])
      else if s[n + 1] != 0 then Step(Err(MissingNul), s[n + 2..])
      else Step(Ok(s[2..n + 1]), s[n + 2..])
  }

  function TakeHeader(s: seq<byte>): Step<Header> {
    if |s| < 4 then Step(Err(ShortRead), [])
    else if Get32(s, 0) != 0 then Step(Err(BadPrefix), s[4..])
    else if |s| < 5 then Step(Err(ShortRead), [])
    else if s[4] % 8 != KEY_METHOD_2 then Step(Err(BadMethod), s[5..])
    else if |s| < 69 then Step(Err(ShortRead), [])
    else Step(Ok(Header(s[5..37], s[37..69])), s[69..])
  }

  function TakeTexts(s: seq<byte>): Step<Texts> {
    var a := TakeString(s, 8192);
    if a.result.Err? then Step(Err(a.result.error), a.rest)
    else
      var b := TakeString(a.rest, 1024);
      if b.result.Err? then Step(Err(b.result.error), b.rest)
      else
        var c := TakeString(b.rest, 1024);
        if c.result.Err? then Step(Err(c.result.error), c.rest)
        else
          var d := TakeString(c.rest, 16384);
          if d.result.Err? then Step(Err(d.result.error), d.rest)
          else Step(Ok(Texts(a.result.value, b.result.value, c.result.value, d.result.value)), d.rest)
  }

  function TakeRecord(s: seq<byte>): Step<Record> {
    var h := TakeHeader(s);
    if h.result.Err? then Step(Err(h.result.error), h.rest)
    else
      var t := TakeTexts(h.rest);
      if t.result.Err? then Step(Err(t.result.error), t.rest)
      else Step(Ok(Record(h.result.value, t.result.value)), t.rest)
  }

  lemma SliceOfRest(all: seq<byte>, n: nat)
    requires 2 + n <= |all|
    ensures all[2..][..n] == all[2..n + 2] && all[2..][n..] == all[n + 2..]
  {
  }

  // ----- reading, as the code does it -----

  class Reader {
    var rest: seq<byte>

    /** io.ReadFull. */
    method ReadFull(n: nat) returns (r: Result<seq<byte>, Error>)
      modifies this
      ensures Step(r, rest) == TakeExact(old(rest), n)
    {
      if |rest| < n {
        rest := [];
        return Err(ShortRead);
      }
      r := Ok(rest[..n]);
      rest := rest[n..];
    }

    method ReadString(max: nat) returns (r: Result<seq<byte>, Error>)
      modifies this
      ensures Step(r, rest) == TakeString(old(rest), max)
    {
      ghost var all := rest;
      var prefix := ReadFull(2);
      if prefix.Err? {
        return prefix;
      }
      var n: nat := Get16(prefix.value, 0);
      if n == 0 {
        return Ok([]);
      }
      if n > max {
        return Err(StringTooLong);
      }
      r := ReadFull(n);
      if r.Err? {
        return;
      }
      SliceOfRest(all, n);
      assert r.value == all[2..][..n] == all[2..n + 2];
      if r.value[n - 1] != 0 {
        return Err(MissingNul);
      }
      r := Ok(r.value[..n - 1]);
      assert r.value == all[2..n + 1];
    }

    method ReadHeader() returns (r: Result<Header, Error>)
      modifies this
      ensures Step(r, rest) == TakeHeader(old(rest))
    {
      ghost var all := rest;
      var zero := ReadFull(4);
      if zero.Err? {
        return Err(ShortRead);
      }
      if Get32(zero.value, 0) != 0 {
        return Err(BadPrefix);
      }
      var kind := ReadFull(1);
      if kind.Err? {
        return Err(ShortRead);
      }
      if kind.value[0] % 8 != KEY_METHOD_2 {
        return Err(BadMethod);
      }
      assert rest == all[5..];
      var random1 := ReadFull(32);
      if random1.Err? {
        return Err(ShortRead);
      }
      var random2 := ReadFull(32);
      if random2.Err? {
        return Err(ShortRead);
      }
      assert random1.value == all[5..37] && random2.value == all[37..69] && rest == all[69..];
      r := Ok(Header(random1.value, random2.value));
    }

    method ReadServerRecord() returns (r: Result<Record, Error>)
      modifies this
      ensures Step(r, rest) == TakeRecord(old(rest))
    {
      hide TakeString, TakeHeader;
      var header := ReadHeader();
      if header.Err? {
        return Err(header.error);
      }
      var options := ReadString(8192);
      if options.Err? {
        return Err(options.error);
      }
      var username := ReadString(1024);
      if username.Err? {
        return Err(username.error);
      }
      var password := ReadString(1024);
      if password.Err? {
        return Err(password.error);
      }
      var peerInfo := ReadString(16384);
      if peerInfo.Err? {
        return Err(peerInfo.error);
      }
      r := Ok(Record(header.value, Texts(options.value, username.value, password.value, peerInfo.value)));
    }
  }

  // ----- round trips -----

  predicate Fits(s: seq<byte>, max: nat) {
    s == [] || |s| < max
  }

  /** A written string is read back, with the bytes after it unread, exactly when it is within the reader's limit. */
  lemma StringRoundTrip(s: seq<byte>, max: nat, tail: seq<byte>)
    requires EncodeString(s).Ok?
    ensures TakeString(EncodeString(s).value + tail, max) == Step(Ok(s), tail) <==> Fits(s, max)
    ensures !Fits(s, max) ==> TakeString(EncodeString(s).value + tail, max).result == Err(StringTooLong)
  {
    var wire := EncodeString(s).value;
    var all := wire + tail;
    if s == [] {
      assert all[2..] == tail;
    } else {
      var n := |s| + 1;
      BE16RoundTrip(n);
      assert Get16(all, 0) == n;
      assert all[2..n + 1] == wire[2..n + 1] == s;
      assert all[n + 1] == wire[n + 1] == 0;
      assert all[n + 2..] == tail;
    }
  }

  /** A non-empty NUL-free string that a reader accepts came from its one wire form. */
  lemma StringUnique(all: seq<byte>, max: nat)
    requires TakeString(all, max).result.Ok?
    requires TakeString(all, max).result.value != [] && 0 !in TakeString(all, max).result.value
    ensures var got := TakeString(all, max);
      EncodeString(got.result.value).Ok? && all == EncodeString(got.result.value).value + got.rest
  {
  }

  predicate Writable(t: Texts) {
    && EncodeString(t.options).Ok?
    && EncodeString(t.username).Ok?
    && EncodeString(t.password).Ok?
    && EncodeString(t.peerInfo).Ok?
  }

  predicate WithinLimits(t: Texts) {
    Fits(t.options, 8192) && Fits(t.username, 1024) && Fits(t.password, 1024) && Fits(t.peerInfo, 16384)
  }

  function EncodeTexts(t: Texts): seq<byte>
    requires Writable(t)
  {
    EncodeString(t.options).value
    + (EncodeString(t.username).value + (EncodeString(t.password).value + EncodeString(t.peerInfo).value))
  }

  /** The server's record; kind is its key-method byte. */
  function EncodeRecord(rec: Record, kind: byte): seq<byte>
    requires Writable(rec.texts)
  {
    BE32(0) + [kind] + rec.source.random1 + rec.source.random2 + EncodeTexts(rec.texts)
  }

  lemma TextsRoundTrip(t: Texts, tail: seq<byte>)
    requires Writable(t)
    ensures TakeTexts(EncodeTexts(t) + tail) == Step(Ok(t), tail) <==> WithinLimits(t)
    ensures !WithinLimits(t) ==> TakeTexts(EncodeTexts(t) + tail).result == Err(StringTooLong)
  {
    hide EncodeString, TakeString, Fits;
    var a, b, c, d := EncodeString(t.options).value, EncodeString(t.username).value,
                      EncodeString(t.password).value, EncodeString(t.peerInfo).value;
    assert EncodeTexts(t) + tail == a + (b + (c + (d + tail)));
    StringRoundTrip(t.options, 8192, b + (c + (d + tail)));
    StringRoundTrip(t.username, 1024, c + (d + tail));
    StringRoundTrip(t.password, 1024, d + tail);
    StringRoundTrip(t.peerInfo, 16384, tail);
  }

  lemma HeaderRoundTrip(h: Header, kind: byte, tail: seq<byte>)
    requires kind % 8 == KEY_METHOD_2
    ensures TakeHeader(BE32(0) + [kind] + h.random1 + h.random2 + tail) == Step(Ok(h), tail)
  {
    var all := BE32(0) + [kind] + h.random1 + h.random2 + tail;
    BE32RoundTrip(0);
    assert all[5..37] == h.random1 && all[37..69] == h.random2 && all[69..] == tail;
  }

  /** A server record is read back exactly, the bytes after it unread, iff its strings are within the limits. */
  lemma RecordRoundTrip(rec: Record, kind: byte, tail: seq<byte>)
    requires Writable(rec.texts) && kind % 8 == KEY_METHOD_2
    ensures TakeRecord(EncodeRecord(rec, kind) + tail) == Step(Ok(rec), tail) <==> WithinLimits(rec.texts)
    ensures !WithinLimits(rec.texts) ==> TakeRecord(EncodeRecord(rec, kind) + tail).result == Err(StringTooLong)
  {
    hide TakeHeader, TakeTexts, EncodeTexts, Writable, WithinLimits;
    var texts := EncodeTexts(rec.texts);
    var head := BE32(0) + [kind] + rec.source.random1 + rec.source.random2;
    assert EncodeRecord(rec, kind) + tail == head + (texts + tail);
    HeaderRoundTrip(rec.source, kind, texts + tail);
    TextsRoundTrip(rec.texts, tail);
  }

  // ----- in bytes -----

  /** A string on the wire: its length with the terminator, in two bytes, then itself and a zero; or just two zeros. */
  lemma StringInBytes(s: seq<byte>, hi: byte, lo: byte)
    requires |s| + 1 == hi as int * 0x100 + lo
    ensures EncodeString([]) == Ok([0, 0])
    ensures s != [] ==> EncodeString(s) == if 0 in s then Err(ContainsNul) else Ok([hi, lo] + s + [0])
  {
    BigEndian(hi, lo, 0, 0);
  }

  /** Exactly the NUL-free strings of fewer than 65535 bytes can be written. */
  lemma WritableIff(s: seq<byte>)
    ensures EncodeString(s).Ok? <==> 0 !in s && |s| <= 65534
  {
  }

  /** The record starts with four zeros, a byte whose low three bits are 2, and two times 32 bytes. */
  lemma HeaderIff(s: seq<byte>, h: Header)
    ensures TakeHeader(s).result == Ok(h) <==>
        && |s| >= 69 && s[..4] == [0, 0, 0, 0] && s[4] % 8 == 2
        && s[5..37] == h.random1 && s[37..69] == h.random2
  {
    if |s| >= 4 {
      assert s[..4] == [s[0], s[1], s[2], s[3]];
    }
  }

  /** Which bytes are read as which string: two zeros; or a length within the limit, that many bytes less one, a 0. */
  lemma StringIff(s: seq<byte>, max: nat, v: seq<byte>, rest: seq<byte>)
    ensures TakeString(s, max) == Step(Ok(v), rest) <==>
        && |s| >= 2
        && var n := s[0] as int * 0x100 + s[1];
           || (n == 0 && v == [] && rest == s[2..])
           || (1 <= n <= max && n + 2 <= |s| && s[n + 1] == 0 && v == s[2..n + 1] && rest == s[n + 2..])
  {
  }

  /** The four strings of a record, each with its limit, in order. */
  lemma TextsInOrder(s: seq<byte>, t: Texts, rest: seq<byte>)
    ensures TakeTexts(s) == Step(Ok(t), rest) <==>
        exists a, b, c ::
          && TakeString(s, 8192) == Step(Ok(t.options), a)
          && TakeString(a, 1024) == Step(Ok(t.username), b)
          && TakeString(b, 1024) == Step(Ok(t.password), c)
          && TakeString(c, 16384) == Step(Ok(t.peerInfo), rest)
  {
    hide TakeString;
    if TakeTexts(s) == Step(Ok(t), rest) {
      var a := TakeString(s, 8192).rest;
      var b := TakeString(a, 1024).rest;
      var c := TakeString(b, 1024).rest;
      assert TakeString(c, 16384) == Step(Ok(t.peerInfo), rest);
    }
  }
}
