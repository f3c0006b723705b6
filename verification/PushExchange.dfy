/** The server's side of the PUSH_REPLY exchange, and that readPushReply with flattenPushOptions undoes it. */
module PushExchange {
  import opened Bytes
  import opened ControlText
  import opened PushReply

  // ----- one reply -----

  function Tail(items: seq<string>): string {
    if items == [] then "" else "," + (items[0] + Tail(items[1..]))
  }

  /** A PUSH_REPLY message that lists the items. */
  function Compose(items: seq<string>): string {
    REPLY + Tail(items)
  }

  predicate Plain(items: seq<string>) {
    forall i :: 0 <= i < |items| ==> ',' !in items[i] && NUL !in items[i]
  }

  lemma {:induction false} SplitTail(items: seq<string>)
    requires items != [] && Plain(items)
    ensures Split(Tail(items)[1..]) == items
  {
    var rest := Tail(items[1..]);
    assert Tail(items)[1..] == items[0] + rest;
    if |items| == 1 {
      assert items[0] + rest == items[0];
      SplitWhole(items[0]);
    } else {
      SplitTail(items[1..]);
      assert rest == "," + rest[1..];
      SplitFirst(items[0], rest[1..]);
      assert items == [items[0]] + items[1..];
    }
  }

  lemma BodyOfReply(tail: string)
    ensures TrimPrefix(REPLY + tail, REPLY) == tail
  {
  }

  /** What flattening makes of a reply is what it makes of the items it lists. */
  lemma ReplyFlattens(items: seq<string>)
    requires Plain(items)
    ensures Options(Split(Body(Compose(items)))) == Options(items)
  {
    BodyOfReply(Tail(items));
    if items == [] {
      assert Body(Compose(items)) == "";
      assert Options([""]) == Options([]);
    } else {
      assert "," <= Tail(items);
      SplitTail(items);
    }
  }

  predicate Lists(items: seq<string>, p: string) {
    exists i :: 0 <= i < |items| && p <= items[i]
  }

  /** A comma and then the pattern: only where an item starts with the pattern. */
  lemma {:induction false} TailContains(items: seq<string>, p: string)
    requires Plain(items) && p != "" && ',' !in p
    ensures Contains(Tail(items), "," + p) <==> Lists(items, p)
  {
    if items != [] {
      var rest := Tail(items[1..]);
      var s := items[0] + rest;
      assert Tail(items)[1..] == s;
      StartsAt(items[0], rest, p);
      ContainsSkips(items[0], rest, "," + p);
      TailContains(items[1..], p);
      ListsStep(items, p);
      assert "," + p <= Tail(items) <==> p <= s by {
        PrefixCons(',', p, s);
      }
    }
  }

  lemma PrefixCons(c: char, p: string, s: string)
    ensures [c] + p <= [c] + s <==> p <= s
  {
    assert ([c] + p)[1..] == p && ([c] + s)[1..] == s;
    if [c] + p <= [c] + s {
      assert ([c] + s)[..1 + |p|] == [c] + p;
      assert s[..|p|] == ([c] + s)[..1 + |p|][1..];
    }
  }

  lemma ListsStep(items: seq<string>, p: string)
    requires items != []
    ensures Lists(items, p) <==> p <= items[0] || Lists(items[1..], p)
  {
  }

  /** A comma-free pattern cannot reach past the item it starts in. */
  lemma StartsAt(item: string, rest: string, p: string)
    requires ',' !in p && (rest == "" || rest[0] == ',')
    ensures p <= item + rest <==> p <= item
  {
    if |p| > |item| {
      assert rest != "" ==> (item + rest)[|item|] == ',' && p[|item|] in p;
    } else if p <= item + rest {
      assert p == (item + rest)[..|p|] == item[..|p|];
    }
  }

  lemma {:induction false} TailNulFree(items: seq<string>)
    requires Plain(items)
    ensures NUL !in Tail(items)
  {
    if items != [] {
      TailNulFree(items[1..]);
    }
  }

  lemma ReplyKind(items: seq<string>)
    requires Plain(items)
    ensures Classify(Compose(items)) == Reply(Lists(items, MORE))
    ensures NUL !in Compose(items)
  {
    TailContains(items, MORE);
    ContainsSkips(REPLY, Tail(items), "," + MORE);
    TailNulFree(items);
    assert Compose(items)[0] == 'P';
  }

  // ----- options and markers -----

  /** An option that a server may push. */
  predicate GoodOption(o: string) {
    o != "" && TrimSpace(o) == o && ',' !in o && NUL !in o && !(CONTINUATION <= o)
  }

  predicate GoodOptions(options: seq<string>) {
    forall i :: 0 <= i < |options| ==> GoodOption(options[i])
  }

  lemma {:induction false} OptionsKept(options: seq<string>)
    requires GoodOptions(options)
    ensures Options(options) == options
  {
    hide TrimSpace;
    if options != [] {
      var n := |options| - 1;
      assert GoodOption(options[n]);
      OptionsKept(options[..n]);
      assert options == options[..n] + [options[n]];
    }
  }

  lemma MarkerDropped(options: seq<string>, marker: string)
    requires marker == MORE || marker == LAST
    ensures Options(options + [marker]) == Options(options)
  {
    assert Visible(marker[0]) && Visible(marker[|marker| - 1]) && marker[..18] == CONTINUATION;
    TrimKeeps(marker);
    hide TrimSpace;
    assert (options + [marker])[..|options|] == options;
  }

  lemma OptionContinuesNothing(o: string)
    requires GoodOption(o)
    ensures !(MORE <= o)
  {
  }

  lemma OnlyMarkersContinue(options: seq<string>)
    requires GoodOptions(options)
    ensures !Lists(options, MORE)
    ensures Lists(options + [MORE], MORE)
    ensures !Lists(options + [LAST], MORE)
  {
    forall i | 0 <= i < |options|
      ensures !(MORE <= options[i])
    {
      OptionContinuesNothing(options[i]);
    }
    assert (options + [MORE])[|options|] == MORE;
    assert MORE[18] != LAST[18];
  }

  // ----- a whole exchange -----

  /** A message of the server: one that the client passes over, or a batch of options. */
  datatype Turn = Note(text: string) | Push(options: seq<string>)

  function Items(options: seq<string>, more: bool, announce: bool): seq<string> {
    options + if more then [MORE] else if announce then [LAST] else []
  }

  function Message(t: Turn, more: bool, announce: bool): string {
    match t
    case Note(text) => text
    case Push(options) => Compose(Items(options, more, announce))
  }

  /** Every batch but the last is marked as continued; announce says whether the last one is marked as final. */
  function Messages(turns: seq<Turn>, announce: bool): seq<string> {
    if turns == [] then []
    else [Message(turns[0], |turns| > 1, announce)] + Messages(turns[1..], announce)
  }

  function Wire(messages: seq<string>): string {
    if messages == [] then "" else messages[0] + [NUL] + Wire(messages[1..])
  }

  function Pushed(turns: seq<Turn>): seq<string> {
    if turns == [] then []
    else (if turns[0].Push? then turns[0].options else []) + Pushed(turns[1..])
  }

  predicate GoodTurn(t: Turn) {
    match t
    case Note(text) => NUL !in text && Classify(text).Ignored?
    case Push(options) => GoodOptions(options)
  }

  predicate WellFormed(turns: seq<Turn>, announce: bool) {
    && turns != []
    && GoodTurn(turns[0])
    && |Message(turns[0], |turns| > 1, announce)| <= MAX_MESSAGE
    && if |turns| == 1 then turns[0].Push? else WellFormed(turns[1..], announce)
  }

  lemma ItemsPlain(options: seq<string>, more: bool, announce: bool)
    requires GoodOptions(options)
    ensures Plain(Items(options, more, announce))
  {
  }

  /** The client sees each message as what the server meant by it. */
  lemma TurnUnderstood(t: Turn, more: bool, announce: bool)
    requires GoodTurn(t)
    ensures NUL !in Message(t, more, announce)
    ensures t.Note? ==> Classify(Message(t, more, announce)).Ignored?
    ensures t.Push? ==> Classify(Message(t, more, announce)) == Reply(more)
    ensures t.Push? ==> Options(Split(Body(Message(t, more, announce)))) == t.options
  {
    if t.Push? {
      hide GoodOptions, Classify, Split, Compose, Lists;
      var items := Items(t.options, more, announce);
      ItemsPlain(t.options, more, announce);
      ReplyKind(items);
      ReplyFlattens(items);
      OptionsKept(t.options);
      OnlyMarkersContinue(t.options);
      if more {
        MarkerDropped(t.options, MORE);
      } else if announce {
        MarkerDropped(t.options, LAST);
      } else {
        assert items == t.options;
      }
    }
  }

  lemma FlattenNext(parts: seq<string>, msg: string)
    ensures Flatten(parts + [msg]) == Flatten(parts) + Options(Split(Body(msg)))
  {
  }

  lemma WireNext(turns: seq<Turn>, announce: bool, tail: string)
    requires turns != []
    ensures var msg := Message(turns[0], |turns| > 1, announce);
      Wire(Messages(turns, announce)) + tail == msg + [NUL] + (Wire(Messages(turns[1..], announce)) + tail)
  {
  }

  lemma PushedNext(turns: seq<Turn>, before: seq<string>)
    requires turns != []
    ensures turns[0].Push? ==> before + turns[0].options + Pushed(turns[1..]) == before + Pushed(turns)
    ensures turns[0].Note? ==> before + Pushed(turns[1..]) == before + Pushed(turns)
    ensures |turns| == 1 && turns[0].Push? ==> before + turns[0].options == before + Pushed(turns)
  {
    var rest := Pushed(turns[1..]);
    if turns[0].Push? {
      assert Pushed(turns) == turns[0].options + rest;
      Assoc(before, turns[0].options, rest);
      assert |turns| == 1 ==> turns[0].options + rest == turns[0].options;
    } else {
      assert Pushed(turns) == [] + rest == rest;
    }
  }

  lemma Assoc(a: seq<string>, b: seq<string>, c: seq<string>)
    ensures a + b + c == a + (b + c)
  {
  }

  /** One round of readPushReply on a message it passes over, collects, or stops at. */
  lemma TakeNext(s: string, parts: seq<string>, i: nat, msg: string, after: string)
    requires i < MAX_MESSAGES && TakeMessage(s, MAX_MESSAGE) == Step(Ok(msg), after)
    ensures Classify(msg).Ignored? ==> TakeReply(s, parts, i) == TakeReply(after, parts, i + 1)
    ensures Classify(msg) == Reply(true) ==> TakeReply(s, parts, i) == TakeReply(after, parts + [msg], i + 1)
    ensures Classify(msg) == Reply(false) ==> TakeReply(s, parts, i) == Step(Ok(parts + [msg]), after)
  {
  }

  /** From any point of an exchange: its options follow those already read, and the bytes after it stay unread. */
  lemma {:induction false} ExchangeFrom(turns: seq<Turn>, announce: bool, tail: string, parts: seq<string>, i: nat)
    requires WellFormed(turns, announce) && i <= MAX_MESSAGES
    ensures var got := TakeReply(Wire(Messages(turns, announce)) + tail, parts, i);
      if i + |turns| <= MAX_MESSAGES
      then got.result.Ok? && got.rest == tail && Flatten(got.result.value) == Flatten(parts) + Pushed(turns)
      else got.result == Err(TooManyMessages)
    decreases |turns|
  {
    hide TakeMessage, Classify, Flatten, Message, Wire, Messages, GoodTurn, Options, Body, Split, Pushed;
    var msg := Message(turns[0], |turns| > 1, announce);
    var s, after := Wire(Messages(turns, announce)) + tail, Wire(Messages(turns[1..], announce)) + tail;
    if i < MAX_MESSAGES {
      hide TakeReply;
      WireNext(turns, announce, tail);
      TurnUnderstood(turns[0], |turns| > 1, announce);
      MessageRoundTrip(msg, MAX_MESSAGE, after);
      FlattenNext(parts, msg);
      TakeNext(s, parts, i, msg, after);
      PushedNext(turns, Flatten(parts));
      if |turns| == 1 {
        EmptyWire(announce, turns[1..], tail);
      } else {
        ExchangeFrom(turns[1..], announce, tail, if turns[0].Push? then parts + [msg] else parts, i + 1);
      }
    }
  }

  lemma EmptyWire(announce: bool, turns: seq<Turn>, tail: string)
    requires turns == []
    ensures Wire(Messages(turns, announce)) + tail == tail
  {
  }

  /** Options split over any exchange come back as one list, in order, if and only if it has at most 16 messages. */
  lemma ExchangeRoundTrip(turns: seq<Turn>, announce: bool, tail: string)
    requires WellFormed(turns, announce)
    ensures var got := TakeReply(Wire(Messages(turns, announce)) + tail, [], 0);
      && (got.result.Ok? <==> |turns| <= MAX_MESSAGES)
      && (got.result.Ok? ==> got.rest == tail && Flatten(got.result.value) == Pushed(turns))
  {
    ExchangeFrom(turns, announce, tail, [], 0);
  }

  // ----- any exchange -----

  /** The message ends the exchange, well or badly. */
  predicate Ends(msg: string) {
    || "AUTH_FAILED" <= msg
    || "RESTART" <= msg
    || "HALT" <= msg
    || ("PUSH_REPLY" <= msg && !Contains(msg, ",push-continuation 2"))
  }

  function Replies(messages: seq<string>): seq<string> {
    if messages == [] then []
    else (if "PUSH_REPLY" <= messages[0] then [messages[0]] else []) + Replies(messages[1..])
  }

  predicate Readable(messages: seq<string>) {
    forall i :: 0 <= i < |messages| ==> NUL !in messages[i] && |messages[i]| <= 262144
  }

  /** Where the last of the messages is the first that ends the exchange. */
  predicate EndsWithLast(messages: seq<string>) {
    && messages != []
    && Ends(messages[|messages| - 1])
    && forall i :: 0 <= i < |messages| - 1 ==> !Ends(messages[i])
  }

  function Verdict(messages: seq<string>, parts: seq<string>): Result<seq<string>, Error>
    requires messages != []
  {
    var last := messages[|messages| - 1];
    if "AUTH_FAILED" <= last then Err(AuthFailed)
    else if "RESTART" <= last || "HALT" <= last then Err(ServerStopped)
    else Ok(parts + Replies(messages))
  }

  lemma OneKind(msg: string)
    ensures Ends(msg) <==> Classify(msg).Refused? || Classify(msg) == Reply(false)
    ensures "AUTH_FAILED" <= msg ==> Classify(msg) == Refused(AuthFailed)
    ensures "RESTART" <= msg || "HALT" <= msg ==> Classify(msg) == Refused(ServerStopped)
    ensures "PUSH_REPLY" <= msg <==> Classify(msg).Reply?
  {
    assert "AUTH_FAILED"[0] == 'A' && "RESTART"[0] == 'R' && "HALT"[0] == 'H' && "PUSH_REPLY"[0] == 'P';
    assert "," + MORE == ",push-continuation 2";
    hide Contains;
  }

  lemma WireOf(messages: seq<string>, tail: string)
    requires messages != []
    ensures Wire(messages) + tail == messages[0] + [NUL] + (Wire(messages[1..]) + tail)
  {
  }

  function Collected(parts: seq<string>, msg: string): seq<string> {
    if "PUSH_REPLY" <= msg then parts + [msg] else parts
  }

  lemma CollectedNext(messages: seq<string>, parts: seq<string>)
    requires messages != []
    ensures parts + Replies(messages) == Collected(parts, messages[0]) + Replies(messages[1..])
  {
    var rest := Replies(messages[1..]);
    if "PUSH_REPLY" <= messages[0] {
      assert Replies(messages) == [messages[0]] + rest;
      Assoc(parts, [messages[0]], rest);
    } else {
      assert Replies(messages) == [] + rest == rest;
    }
  }

  lemma VerdictNext(messages: seq<string>, parts: seq<string>)
    requires |messages| > 1
    ensures Verdict(messages, parts) == Verdict(messages[1..], Collected(parts, messages[0]))
  {
    CollectedNext(messages, parts);
    hide Replies, Collected;
    assert messages[1..][|messages| - 2] == messages[|messages| - 1];
  }

  lemma VerdictLast(msg: string, parts: seq<string>)
    requires Ends(msg)
    ensures Classify(msg).Refused? ==> Verdict([msg], parts) == Err(Classify(msg).error)
    ensures Classify(msg) == Reply(false) ==> Verdict([msg], parts) == Ok(parts + [msg])
    ensures Classify(msg).Refused? || Classify(msg) == Reply(false)
  {
    OneKind(msg);
    CollectedNext([msg], parts);
    hide Contains, Classify;
    assert [msg][1..] == [] && Collected(parts, msg) + [] == Collected(parts, msg);
  }

  /** What is left of an exchange once it has been read up to one message. */
  predicate Decided(s: string, messages: seq<string>, tail: string, parts: seq<string>, i: nat)
    requires messages != [] && i <= 16
  {
    var got := TakeReply(s, parts, i);
    if i + |messages| <= 16 then got == Step(Verdict(messages, parts), tail) else got.result == Err(TooManyMessages)
  }

  lemma DecidedLast(s: string, msg: string, tail: string, parts: seq<string>, i: nat)
    requires Ends(msg) && i < 16 && TakeMessage(s, 262144) == Step(Ok(msg), tail)
    ensures Decided(s, [msg], tail, parts, i)
  {
    hide TakeMessage, Classify, TakeReply, Verdict, Ends;
    VerdictLast(msg, parts);
    TakeEnds(s, parts, i, msg, tail);
  }

  lemma DecidedBefore(s: string, messages: seq<string>, after: string, tail: string, parts: seq<string>, i: nat)
    requires |messages| > 1 && !Ends(messages[0]) && i < 16
    requires TakeMessage(s, 262144) == Step(Ok(messages[0]), after)
    requires Decided(after, messages[1..], tail, Collected(parts, messages[0]), i + 1)
    ensures Decided(s, messages, tail, parts, i)
  {
    hide TakeMessage, Classify, TakeReply, Verdict, Ends, Collected;
    NotEnding(messages[0]);
    VerdictNext(messages, parts);
    TakeEnds(s, parts, i, messages[0], after);
  }

  lemma {:induction false} EndsFrom(messages: seq<string>, tail: string, parts: seq<string>, i: nat)
    requires Readable(messages) && EndsWithLast(messages) && i <= 16
    ensures Decided(Wire(messages) + tail, messages, tail, parts, i)
    decreases |messages|
  {
    if i < 16 {
      hide TakeMessage, Wire, Ends, Decided;
      var msg, rest := messages[0], messages[1..];
      WireOf(messages, tail);
      MessageRoundTrip(msg, 262144, Wire(rest) + tail);
      if |messages| == 1 {
        assert messages == [msg];
        NoMore(rest, tail);
        DecidedLast(Wire(messages) + tail, msg, tail, parts, i);
      } else {
        EndsFrom(rest, tail, Collected(parts, msg), i + 1);
        DecidedBefore(Wire(messages) + tail, messages, Wire(rest) + tail, tail, parts, i);
      }
    }
  }

  lemma NotEnding(msg: string)
    requires !Ends(msg)
    ensures Classify(msg) == Reply(true) || Classify(msg).Ignored?
    ensures forall parts: seq<string> :: Collected(parts, msg) == if Classify(msg).Reply? then parts + [msg] else parts
  {
    OneKind(msg);
    hide Contains, Classify;
  }

  lemma NoMore(messages: seq<string>, tail: string)
    requires messages == []
    ensures Wire(messages) + tail == tail
  {
  }

  lemma TakeEnds(s: string, parts: seq<string>, i: nat, msg: string, after: string)
    requires i < MAX_MESSAGES && TakeMessage(s, MAX_MESSAGE) == Step(Ok(msg), after)
    ensures Classify(msg).Refused? ==> TakeReply(s, parts, i) == Step(Err(Classify(msg).error), after)
    ensures Classify(msg) == Reply(false) ==> TakeReply(s, parts, i) == Step(Ok(parts + [msg]), after)
    ensures Classify(msg) == Reply(true) ==> TakeReply(s, parts, i) == TakeReply(after, parts + [msg], i + 1)
    ensures Classify(msg).Ignored? ==> TakeReply(s, parts, i) == TakeReply(after, parts, i + 1)
  {
  }

  /**
   * Whatever the server sends, the first message that ends the exchange decides it: a refused login, a server that
   * stops, or the replies so far; unless that message is not among the first sixteen.
   */
  lemma FirstEndDecides(messages: seq<string>, tail: string)
    requires Readable(messages) && EndsWithLast(messages)
    ensures var got := TakeReply(Wire(messages) + tail, [], 0);
      if |messages| <= 16 then got == Step(Verdict(messages, []), tail) else got.result == Err(TooManyMessages)
  {
    EndsFrom(messages, tail, [], 0);
  }

  lemma TakeOver(s: string, parts: seq<string>, i: nat, msg: string, after: string)
    requires i < 16 && TakeMessage(s, 262144) == Step(Ok(msg), after) && !Ends(msg)
    ensures TakeReply(s, parts, i) == TakeReply(after, Collected(parts, msg), i + 1)
  {
    hide TakeMessage, Classify, TakeReply, Ends, Collected;
    NotEnding(msg);
    TakeEnds(s, parts, i, msg, after);
  }

  lemma TakeFails(s: string, parts: seq<string>, i: nat)
    requires i <= 16 && TakeMessage(s, 262144).result.Err?
    ensures TakeReply(s, parts, i).result ==
        Err(if i == 16 then TooManyMessages else TakeMessage(s, 262144).result.error)
  {
    hide TakeMessage, Classify;
  }

  lemma {:induction false} CutShortFrom(messages: seq<string>, tail: string, parts: seq<string>, i: nat)
    requires Readable(messages) && i <= 16 && TakeMessage(tail, 262144).result.Err?
    requires forall j :: 0 <= j < |messages| ==> !Ends(messages[j])
    ensures TakeReply(Wire(messages) + tail, parts, i).result ==
        Err(if i + |messages| >= 16 then TooManyMessages else TakeMessage(tail, 262144).result.error)
    decreases |messages|
  {
    hide TakeMessage, TakeReply, Wire, Ends, Collected;
    if messages == [] {
      NoMore(messages, tail);
      TakeFails(tail, parts, i);
    } else if i == 16 {
      NoneLeft(Wire(messages) + tail, parts);
    } else {
      var msg, rest := messages[0], messages[1..];
      WireOf(messages, tail);
      MessageRoundTrip(msg, 262144, Wire(rest) + tail);
      TakeOver(Wire(messages) + tail, parts, i, msg, Wire(rest) + tail);
      CutShortFrom(rest, tail, Collected(parts, msg), i + 1);
    }
  }

  lemma NoneLeft(s: string, parts: seq<string>)
    ensures TakeReply(s, parts, 16).result == Err(TooManyMessages)
  {
    hide TakeMessage, Classify;
  }

  /** An exchange that nothing ends fails: after sixteen messages, or where the stream or the limit breaks it off. */
  lemma CutShort(messages: seq<string>, tail: string)
    requires Readable(messages) && forall j :: 0 <= j < |messages| ==> !Ends(messages[j])
    requires NUL !in if |tail| > 262144 then tail[..262145] else tail
    ensures TakeReply(Wire(messages) + tail, [], 0).result == Err(
        if |messages| >= 16 then TooManyMessages else if |tail| <= 262144 then EndOfStream else MessageTooLong)
  {
    MessageEnds(tail, 262144);
    CutShortFrom(messages, tail, [], 0);
  }

  /** A first message that refuses the login, or stops the server, ends the exchange. */
  lemma RefusedAtOnce(text: string, tail: string)
    requires NUL !in text && |text| <= 262100
    ensures TakeReply("AUTH_FAILED" + text + [NUL] + tail, [], 0) == Step(Err(AuthFailed), tail)
    ensures TakeReply("RESTART" + text + [NUL] + tail, [], 0) == Step(Err(ServerStopped), tail)
    ensures TakeReply("HALT" + text + [NUL] + tail, [], 0) == Step(Err(ServerStopped), tail)
  {
    RefusedFirst("AUTH_FAILED" + text, tail);
    RefusedFirst("RESTART" + text, tail);
    RefusedFirst("HALT" + text, tail);
  }

  lemma RefusedFirst(msg: string, tail: string)
    requires NUL !in msg && |msg| <= 262144 && ("AUTH_FAILED" <= msg || "RESTART" <= msg || "HALT" <= msg)
    ensures TakeReply(msg + [NUL] + tail, [], 0)
         == Step(Err(if "AUTH_FAILED" <= msg then AuthFailed else ServerStopped), tail)
  {
    FirstEndDecides([msg], tail);
    assert Wire([msg]) + tail == msg + [NUL] + tail;
  }
}
