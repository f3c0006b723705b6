/** pushprobe.go: NUL-terminated control messages, the PUSH_REPLY exchange and its option list. */
module PushReply {
  import opened Bytes
  import opened ControlText

  const MAX_MESSAGE: nat := 262144
  const MAX_MESSAGES: nat := 16
  const REPLY: string := "PUSH_REPLY"
  const MORE: string := "push-continuation 2"
  const LAST: string := "push-continuation 1"
  const CONTINUATION: string := "push-continuation "

  datatype Error = EndOfStream | MessageTooLong | AuthFailed | ServerStopped | TooManyMessages

  /** What a read yields and what it leaves unread. */
  datatype Step<+T> = Step(result: Result<T, Error>, rest: string)

  // ----- one message -----

  function TakeMessage(s: string, max: nat): Step<string> {
    var k := IndexOfNul(s);
    if k <= max && k < |s| then Step(Ok(s[..k]), s[k + 1..])
    else if |s| <= max then Step(Err(EndOfStream), "")
    else Step(Err(MessageTooLong), s[max + 1..])
  }

  /** A NUL-free message is read back, and nothing after its terminator is, exactly when it is within the limit. */
  lemma MessageRoundTrip(msg: string, max: nat, tail: string)
    requires NUL !in msg
    ensures TakeMessage(msg + [NUL] + tail, max) == Step(Ok(msg), tail) <==> |msg| <= max
    ensures |msg| > max ==> TakeMessage(msg + [NUL] + tail, max).result == Err(MessageTooLong)
  {
    var s := msg + [NUL] + tail;
    var k := |msg|;
    assert s[..k] == msg && s[k] == NUL;
    NulAfter(s, k);
    assert s[..k] == msg && s[k + 1..] == tail;
  }

  /** Without a terminator in the first max + 1 bytes: the end of the stream, or a message too long. */
  lemma MessageEnds(s: string, max: nat)
    requires NUL !in if |s| > max then s[..max + 1] else s
    ensures TakeMessage(s, max) ==
        if |s| <= max then Step(Err(EndOfStream), "") else Step(Err(MessageTooLong), s[max + 1..])
  {
    NulAfter(s, if |s| > max then max + 1 else |s|);
    assert s[..|s|] == s;
  }

  // ----- the exchange -----

  datatype Kind = Refused(error: Error) | Reply(more: bool) | Ignored

  function Classify(msg: string): Kind {
    if "AUTH_FAILED" <= msg then Refused(AuthFailed)
    else if "RESTART" <= msg || "HALT" <= msg then Refused(ServerStopped)
    else if REPLY <= msg then Reply(Contains(msg, "," + MORE))
    else Ignored
  }

  /** readPushReply with parts collected so far and i messages read. */
  function TakeReply(s: string, parts: seq<string>, i: nat): Step<seq<string>>
    requires i <= MAX_MESSAGES
    decreases MAX_MESSAGES - i
  {
    if i == MAX_MESSAGES then Step(Err(TooManyMessages), s)
    else
      var got := TakeMessage(s, MAX_MESSAGE);
      if got.result.Err? then Step(Err(got.result.error), got.rest)
      else
        var msg := got.result.value;
        match Classify(msg)
        case Refused(e) => Step(Err(e), got.rest)
        case Reply(more) =>
          if more then TakeReply(got.rest, parts + [msg], i + 1) else Step(Ok(parts + [msg]), got.rest)
        case Ignored => TakeReply(got.rest, parts, i + 1)
  }

  class Reader {
    var rest: string

    method ReadMessage(max: nat) returns (r: Result<string, Error>)
      modifies this
      ensures Step(r, rest) == TakeMessage(old(rest), max)
    {
      ghost var all := rest;
      var b := "";
      while |b| <= max
        invariant |b| <= |all| && |b| <= max + 1
        invariant b == all[..|b|] && rest == all[|b|..] && NUL !in b
        decreases max + 1 - |b|
      {
        NulAfter(all, |b|);
        if rest == "" {
          return Err(EndOfStream);
        }
        var c := rest[0];
        rest := rest[1..];
        if c == NUL {
          return Ok(b);
        }
        b := b + [c];
      }
      NulAfter(all, |b|);
      r := Err(MessageTooLong);
    }

    method ReadPushReply() returns (r: Result<seq<string>, Error>)
      modifies this
      ensures Step(r, rest) == TakeReply(old(rest), [], 0)
    {
      hide TakeMessage, Classify;
      var parts := [];
      var i := 0;
      while i < MAX_MESSAGES
        invariant i <= MAX_MESSAGES
        invariant TakeReply(rest, parts, i) == TakeReply(old(rest), [], 0)
      {
        var msg := ReadMessage(MAX_MESSAGE);
        if msg.Err? {
          return Err(msg.error);
        }
        var kind := Classify(msg.value);
        if kind.Refused? {
          return Err(kind.error);
        }
        if kind.Reply? {
          parts := parts + [msg.value];
          if !kind.more {
            return Ok(parts);
          }
        }
        i := i + 1;
      }
      r := Err(TooManyMessages);
    }
  }

  // ----- the option list -----

  predicate Kept(item: string) {
    item != "" && !(CONTINUATION <= item)
  }

  /** The trimmed items that are options, in order. */
  function Options(items: seq<string>): seq<string> {
    if items == [] then []
    else
      var last := TrimSpace(items[|items| - 1]);
      Options(items[..|items| - 1]) + if Kept(last) then [last] else []
  }

  function Body(msg: string): string {
    TrimPrefix(TrimPrefix(msg, REPLY), ",")
  }

  function Flatten(messages: seq<string>): seq<string> {
    if messages == [] then []
    else Flatten(messages[..|messages| - 1]) + Options(Split(Body(messages[|messages| - 1])))
  }

  /** The inner loop: the options of one message. */
  method KeepOptions(items: seq<string>) returns (out: seq<string>)
    ensures out == Options(items)
  {
    out := [];
    for i := 0 to |items|
      invariant out == Options(items[..i])
    {
      assert items[..i + 1][..i] == items[..i];
      var item := TrimSpace(items[i]);
      if item == "" || CONTINUATION <= item {
        continue;
      }
      out := out + [item];
    }
    assert items[..|items|] == items;
  }

  method FlattenPushOptions(messages: seq<string>) returns (out: seq<string>)
    ensures out == Flatten(messages)
  {
    out := [];
    for m := 0 to |messages|
      invariant out == Flatten(messages[..m])
    {
      assert messages[..m + 1][..m] == messages[..m];
      var body := TrimPrefix(messages[m], REPLY);
      body := TrimPrefix(body, ",");
      var kept := KeepOptions(Split(body));
      out := out + kept;
    }
    assert messages[..|messages|] == messages;
  }

  /** An item is dropped exactly when nothing but spaces is left of it or it marks a continuation. */
  lemma OptionKept(items: seq<string>, item: string)
    ensures Options([]) == []
    ensures Options(items + [item]) ==
        if TrimSpace(item) == "" || "push-continuation " <= TrimSpace(item) then Options(items)
        else Options(items) + [TrimSpace(item)]
  {
    assert (items + [item])[..|items|] == items;
    hide TrimSpace;
  }

  /** What is split at commas: the message after PUSH_REPLY and one comma, if it has them. */
  lemma BodyOfMessage(msg: string)
    ensures Body("PUSH_REPLY," + msg) == msg
    ensures !("," <= msg) ==> Body("PUSH_REPLY" + msg) == msg
    ensures !("PUSH_REPLY" <= msg) && !("," <= msg) ==> Body(msg) == msg
  {
    var whole := "PUSH_REPLY," + msg;
    assert whole[..10] == "PUSH_REPLY" && whole[10..] == "," + msg;
    assert ("," + msg)[1..] == msg;
    assert ("PUSH_REPLY" + msg)[10..] == msg;
  }
}
