// A report through the whole system: from the client that sends it, through a
// reachable state of the server, to every subscriber's reading of it.
module Reports {
  import opened Text
  import opened Codec
  import opened Stream
  import opened Broker
  import opened Subscriptions
  import opened Runs
  import opened Pipeline
  import E = Events

  // Header values that stay on their line.
  predicate OneLine(f: Frame)
  {
    forall k :: k in f.headers ==> '\n' !in f.headers[k]
  }

  // Subscription ids in the second index.
  predicate IdsOnOneLine(b: Broker)
  {
    forall t, c :: t in b.channels && c in b.channels[t] ==> '\n' !in b.channels[t][c]
  }

  // The frames of a run came out of the parser.
  predicate ParsedEvent(e: Event)
  {
    e.Inbound? ==> WellFormed(e.frame)
  }

  lemma FrameIdsOnOneLine(b: Broker, c: int, f: Frame, ch: Choice)
    requires LegalChoice(b, c, f, ch) && IdsOnOneLine(b) && WellFormed(f)
    ensures IdsOnOneLine(Process(b, c, f, ch).broker)
  {
    ProcessEntries(b, c, f, ch);
    var b' := Process(b, c, f, ch).broker;
    forall t, d | t in b'.channels && d in b'.channels[t] ensures '\n' !in b'.channels[t][d] {
      assert OldOrNew(b, c, f, t, d, b'.channels[t][d]);
    }
  }

  lemma {:induction false} RunIdsOnOneLine(es: seq<Event>)
    requires LegalRun(es) && forall i :: 0 <= i < |es| ==> ParsedEvent(es[i])
    ensures IdsOnOneLine(Run(es).broker)
  {
    if es != [] {
      var m := |es| - 1;
      RunIdsOnOneLine(es[..m]);
      assert ParsedEvent(es[m]);
      if es[m].Inbound? {
        FrameIdsOnOneLine(Run(es[..m]).broker, es[m].c, es[m].frame, es[m].choice);
      }
    }
  }

  lemma CopyOnOneLine(topic: string, body: string, k: nat, counter: int, subscription: string)
    requires '\n' !in topic && (k > 0 ==> '\n' !in subscription)
    ensures OneLine(MessageCopy(topic, body, k, counter, subscription))
  {
    E.DecimalHasNo(Wrap32(counter + k - 1), '\n');
  }

  lemma {:induction false} BroadcastOnOneLine(b: Broker, topic: string, body: string, visits: seq<Visit>, counter: int)
    requires '\n' !in topic
    requires ChannelMap(b, topic) != map[] ==> forall i :: 0 <= i < |visits| ==> '\n' !in visits[i].subscription
    ensures forall d :: d in Broadcast(b, topic, body, visits, counter).0 ==> OneLine(d.frame)
    decreases |visits|
  {
    if visits != [] {
      var here, next := FirstSend(b, topic, body, visits[0], counter);
      CopyOnOneLine(topic, body, |ChannelMap(b, topic)|, counter, visits[0].subscription);
      BroadcastOnOneLine(b, topic, body, visits[1..], next);
      assert [visits[0]] + visits[1..] == visits;
      BroadcastCons(b, topic, body, visits[0], visits[1..], counter, here, next);
    }
  }

  // The topic that the server makes of a channel name.
  function TopicOf(channel: string): string
  {
    StripSlash(Trim(Java, "/" + channel))
  }

  lemma TopicOnOneLine(channel: string)
    requires '\n' !in channel
    ensures '\n' !in TopicOf(channel)
  {
    var _, _ := TrimSplits(Java, "/" + channel);
  }

  lemma MessageKey(k: string)
    requires k == "destination" || k == "subscription" || k == "message-id"
    ensures '\n' !in k && ':' !in k && !E.KnownKey(k)
  {
  }

  // Reading a MESSAGE of the report.
  lemma MessageIsReport(f: Frame, order: seq<string>, topic: string, user: string, e: E.Event, infoOrder: seq<string>)
    requires E.Sendable("", user, e) && Enumerates(infoOrder, e.info.Keys) && Enumerates(order, f.headers.Keys)
    requires IsMessage(f, topic, BodyText(user, e, infoOrder)) && OneLine(f)
    ensures E.ReadEvent(PrintText(f, order)) == Ok(E.Received(user, e))
  {
    forall k | k in f.headers ensures '\n' !in k && ':' !in k && !E.KnownKey(k) {
      assert k == "destination" || k == "subscription" || k == "message-id";
      MessageKey(k);
    }
    MessageReads(f, order, user, e, infoOrder);
  }

  // In every reachable state, under id ownership, a report reaches exactly the
  // channel's subscribers, once each, and each of them, in whatever order its
  // MESSAGE was printed, reads the same event from it.
  lemma ReportReachesSubscribers(es: seq<Event>, owner: string -> int, c: int, f: Frame, ch: Choice,
                                 channel: string, user: string, e: E.Event, infoOrder: seq<string>)
    requires LegalRun(es) && Accepts(es) <= ID_SPACE
    requires forall i :: 0 <= i < |es| ==> Owned(es[i], owner)
    requires forall i :: 0 <= i < |es| ==> ParsedEvent(es[i])
    requires E.Sendable(channel, user, e) && Enumerates(infoOrder, e.info.Keys)
    requires Parse(E.SendText(channel, user, e, infoOrder)) == Ok(f)
    requires LegalChoice(Run(es).broker, c, f, ch)
    ensures var out := Process(Run(es).broker, c, f, ch).out;
      && Enumerates(Recipients(out), Subscribers(SimpleRun(es), TopicOf(channel)))
      && forall d, order :: d in out && Enumerates(order, d.frame.headers.Keys) ==>
           E.ReadEvent(PrintText(d.frame, order)) == Ok(E.Received(user, e))
  {
    var b := Run(es).broker;
    IndexAgreement(es, owner);
    RunIdsOnOneLine(es);
    SendParses(channel, user, e, infoOrder);
    ReportOut(b, c, f, ch, channel, user, e, infoOrder);
  }

  lemma ReportOut(b: Broker, c: int, f: Frame, ch: Choice,
                  channel: string, user: string, e: E.Event, infoOrder: seq<string>)
    requires Agree(b) && IdsOnOneLine(b) && LegalChoice(b, c, f, ch)
    requires E.Sendable(channel, user, e) && Enumerates(infoOrder, e.info.Keys)
    requires f == Frame("SEND", map["destination" := Trim(Java, "/" + channel)], BodyText(user, e, infoOrder))
    ensures var out := Process(b, c, f, ch).out;
      && Enumerates(Recipients(out), Subscribers(Abs(b), TopicOf(channel)))
      && forall d, order :: d in out && Enumerates(order, d.frame.headers.Keys) ==>
           E.ReadEvent(PrintText(d.frame, order)) == Ok(E.Received(user, e))
  {
    var topic, out := TopicOf(channel), Process(b, c, f, ch).out;
    assert f.body != "";
    BroadcastRefines(b, c, f, ch);
    assert out == ProcessFrame(b, c, f, ch).out + [] == ProcessFrame(b, c, f, ch).out;
    TopicOnOneLine(channel);
    VisitsOnOneLine(b, topic, ch.visits);
    forall d, order | d in out && Enumerates(order, d.frame.headers.Keys)
      ensures E.ReadEvent(PrintText(d.frame, order)) == Ok(E.Received(user, e))
    {
      BroadcastOnOneLine(b, topic, f.body, ch.visits, b.counter);
      MessageIsReport(d.frame, order, topic, user, e, infoOrder);
    }
  }

  lemma VisitsOnOneLine(b: Broker, topic: string, visits: seq<Visit>)
    requires IdsOnOneLine(b) && LegalVisits(b, topic, visits)
    ensures ChannelMap(b, topic) != map[] ==> forall i :: 0 <= i < |visits| ==> '\n' !in visits[i].subscription
  {
  }

  // ------------------------------------------------------------ over the wire

  // What the client takes from the socket: everything before the first NUL.
  function FrameText(bytes: seq<byte>): string
  {
    Pieces(Chars(bytes), NUL)[0]
  }

  // Text of single-byte characters arrives as it was sent, at the server's
  // decoder and at a client.
  lemma WireCarries(text: string)
    requires Plain(text)
    ensures Decode("", EncodeText(text + [NUL])) == Decoded([Parse(text)], "")
    ensures FrameText(EncodeText(text + [NUL])) == text
  {
    var bytes := EncodeText(text + [NUL]);
    CharsOfPlain(text + [NUL]);
    DecodeIsCut("", bytes);
    assert "" + Chars(bytes) == text + [NUL] + "" && Chars(bytes) == text + [NUL] + "";
    CutAfterPiece(text, "");
    PiecesOfPiece("", NUL);
    PiecesAfterPiece(text, "", NUL);
  }

  lemma BodyIsPlain(channel: string, user: string, e: E.Event, infoOrder: seq<string>)
    requires E.Sendable(channel, user, e) && Enumerates(infoOrder, e.info.Keys)
    requires Plain(E.SendText(channel, user, e, infoOrder))
    ensures Plain(BodyText(user, e, infoOrder)) && Plain(TopicOf(channel))
  {
    var line, top := "destination:/" + channel, Unlines(ReportLines(user, e, infoOrder), '\n');
    var rest := top + ("description: \n" + e.description + NL + NL);
    SendLayout(channel, user, e, infoOrder, line, top);
    assert top[0] == 'u';
    TrimEnding(top, e.description);
    var head := "SEND" + NL + Unlines([line], '\n') + NL;
    PlainParts(head, rest);
    assert head == "SEND\ndestination:" + ("/" + channel) + (NL + NL) by { assert [line][1..] == []; }
    PlainParts("SEND\ndestination:" + ("/" + channel), NL + NL);
    PlainParts("SEND\ndestination:", "/" + channel);
    PlainTrim(rest);
    PlainTrim("/" + channel);
  }

  lemma PlainParts(s: string, t: string)
    requires Plain(s + t)
    ensures Plain(s) && Plain(t)
  {
    assert forall i :: 0 <= i < |s| ==> (s + t)[i] == s[i];
    assert forall i :: 0 <= i < |t| ==> (s + t)[|s| + i] == t[i];
  }

  lemma PlainTrim(s: string)
    requires Plain(s)
    ensures Plain(Trim(Java, s))
  {
    var _, _ := TrimSplits(Java, s);
  }

  lemma PlainCopy(topic: string, body: string, k: nat, counter: int, subscription: string)
    requires k > 0 && Plain(topic) && Plain(body) && Plain(subscription)
    ensures PlainFrame(MessageCopy(topic, body, k, counter, subscription))
  {
    var f := MessageCopy(topic, body, k, counter, subscription);
    MessageCopyComplete(topic, body, k, counter, subscription);
    PlainDecimal(Wrap32(counter + k - 1));
    forall key | key in f.headers ensures Plain(key) && Plain(f.headers[key]) {
      assert key == "destination" || key == "subscription" || key == "message-id";
      PlainKey(key);
    }
  }

  lemma PlainKey(k: string)
    requires k == "destination" || k == "subscription" || k == "message-id"
    ensures Plain(k)
  {
  }

  lemma PlainDecimal(n: int)
    ensures Plain(Decimal(n))
  {
  }

  // Subscription ids of single-byte characters.
  predicate PlainIds(b: Broker)
  {
    forall t, c :: t in b.channels && c in b.channels[t] ==> Plain(b.channels[t][c])
  }

  // The frames of a run came out of the parser and are plain.
  predicate PlainEvent(e: Event)
  {
    e.Inbound? ==> WellFormed(e.frame) && PlainFrame(e.frame)
  }

  lemma FramePlainIds(b: Broker, c: int, f: Frame, ch: Choice)
    requires LegalChoice(b, c, f, ch) && PlainIds(b) && PlainFrame(f)
    ensures PlainIds(Process(b, c, f, ch).broker)
  {
    ProcessEntries(b, c, f, ch);
    var b' := Process(b, c, f, ch).broker;
    forall t, d | t in b'.channels && d in b'.channels[t] ensures Plain(b'.channels[t][d]) {
      assert OldOrNew(b, c, f, t, d, b'.channels[t][d]);
    }
  }

  lemma {:induction false} RunPlainIds(es: seq<Event>)
    requires LegalRun(es) && forall i :: 0 <= i < |es| ==> PlainEvent(es[i])
    ensures PlainIds(Run(es).broker)
  {
    if es != [] {
      var m := |es| - 1;
      RunPlainIds(es[..m]);
      assert PlainEvent(es[m]);
      if es[m].Inbound? {
        FramePlainIds(Run(es[..m]).broker, es[m].c, es[m].frame, es[m].choice);
      }
    }
  }

  lemma {:induction false} BroadcastPlain(b: Broker, topic: string, body: string, visits: seq<Visit>, counter: int)
    requires Plain(topic) && Plain(body) && ChannelMap(b, topic) != map[]
    requires forall i :: 0 <= i < |visits| ==> Plain(visits[i].subscription)
    ensures forall d :: d in Broadcast(b, topic, body, visits, counter).0 ==> PlainFrame(d.frame)
    decreases |visits|
  {
    if visits != [] {
      var here, next := FirstSend(b, topic, body, visits[0], counter);
      SendsPlain(b, topic, body, visits[0], counter, here, next);
      BroadcastPlain(b, topic, body, visits[1..], next);
      assert [visits[0]] + visits[1..] == visits;
      BroadcastCons(b, topic, body, visits[0], visits[1..], counter, here, next);
    }
  }

  lemma SendsPlain(b: Broker, topic: string, body: string, v: Visit, counter: int, here: seq<Delivery>, next: int)
    requires Plain(topic) && Plain(body) && Plain(v.subscription) && ChannelMap(b, topic) != map[]
    requires Sends(b, topic, body, v, counter, here, next)
    ensures forall d :: d in here ==> PlainFrame(d.frame)
  {
    PlainCopy(topic, body, |ChannelMap(b, topic)|, counter, v.subscription);
  }

  // The copies of a plain report.
  lemma ReportCopiesPlain(b: Broker, c: int, f: Frame, ch: Choice, channel: string, body: string)
    requires Agree(b) && PlainIds(b) && LegalChoice(b, c, f, ch)
    requires f == Frame("SEND", map["destination" := Trim(Java, "/" + channel)], body)
    requires body != "" && Plain(body) && Plain(TopicOf(channel))
    ensures forall d :: d in Process(b, c, f, ch).out ==> PlainFrame(d.frame)
  {
    var topic, out := TopicOf(channel), Process(b, c, f, ch).out;
    BroadcastRefines(b, c, f, ch);
    assert out == ProcessFrame(b, c, f, ch).out + [] == ProcessFrame(b, c, f, ch).out;
    if ChannelMap(b, topic) == map[] {
      NoSubscriber(b, topic);
      assert forall d :: d in out ==> d.to in Recipients(out);
    } else {
      VisitsPlain(b, topic, ch.visits);
      BroadcastPlain(b, topic, body, ch.visits, b.counter);
    }
  }

  lemma NoSubscriber(b: Broker, topic: string)
    requires ChannelMap(b, topic) == map[]
    ensures Subscribers(Abs(b), topic) == {}
  {
  }

  lemma VisitsPlain(b: Broker, topic: string, visits: seq<Visit>)
    requires PlainIds(b) && LegalVisits(b, topic, visits) && ChannelMap(b, topic) != map[]
    ensures forall i :: 0 <= i < |visits| ==> Plain(visits[i].subscription)
  {
  }

  // Byte for byte, in every reachable state under id ownership, when all that
  // was ever received is plain: the server decodes the SEND, a MESSAGE goes to
  // exactly the channel's subscribers, and each reads the event from its bytes.
  lemma ReportOverWire(es: seq<Event>, owner: string -> int, c: int, f: Frame, ch: Choice,
                       channel: string, user: string, e: E.Event, infoOrder: seq<string>)
    requires LegalRun(es) && Accepts(es) <= ID_SPACE
    requires forall i :: 0 <= i < |es| ==> Owned(es[i], owner)
    requires forall i :: 0 <= i < |es| ==> PlainEvent(es[i])
    requires E.Sendable(channel, user, e) && Enumerates(infoOrder, e.info.Keys)
    requires Plain(E.SendText(channel, user, e, infoOrder))
    requires Parse(E.SendText(channel, user, e, infoOrder)) == Ok(f)
    requires LegalChoice(Run(es).broker, c, f, ch)
    ensures Decode("", EncodeText(E.SendText(channel, user, e, infoOrder) + [NUL])) == Decoded([Ok(f)], "")
    ensures var out := Process(Run(es).broker, c, f, ch).out;
      && Enumerates(Recipients(out), Subscribers(SimpleRun(es), TopicOf(channel)))
      && forall d, order :: d in out && Enumerates(order, d.frame.headers.Keys) ==>
           E.ReadEvent(FrameText(Encode(d.frame, order))) == Ok(E.Received(user, e))
  {
    WireCarries(E.SendText(channel, user, e, infoOrder));
    PlainIsParsed(es);
    ReportReachesSubscribers(es, owner, c, f, ch, channel, user, e, infoOrder);
    RunCopiesPlain(es, owner, c, f, ch, channel, user, e, infoOrder);
    forall d, order | d in Process(Run(es).broker, c, f, ch).out && Enumerates(order, d.frame.headers.Keys)
      ensures E.ReadEvent(FrameText(Encode(d.frame, order))) == Ok(E.Received(user, e))
    {
      WirePrint(d.frame, order);
    }
  }

  lemma PlainIsParsed(es: seq<Event>)
    requires forall i :: 0 <= i < |es| ==> PlainEvent(es[i])
    ensures forall i :: 0 <= i < |es| ==> ParsedEvent(es[i])
  {
    forall i | 0 <= i < |es| ensures ParsedEvent(es[i]) {
      assert PlainEvent(es[i]);
    }
  }

  lemma RunCopiesPlain(es: seq<Event>, owner: string -> int, c: int, f: Frame, ch: Choice,
                       channel: string, user: string, e: E.Event, infoOrder: seq<string>)
    requires LegalRun(es) && Accepts(es) <= ID_SPACE
    requires forall i :: 0 <= i < |es| ==> Owned(es[i], owner)
    requires forall i :: 0 <= i < |es| ==> PlainEvent(es[i])
    requires E.Sendable(channel, user, e) && Enumerates(infoOrder, e.info.Keys)
    requires Plain(E.SendText(channel, user, e, infoOrder))
    requires Parse(E.SendText(channel, user, e, infoOrder)) == Ok(f)
    requires LegalChoice(Run(es).broker, c, f, ch)
    ensures forall d :: d in Process(Run(es).broker, c, f, ch).out ==> PlainFrame(d.frame)
  {
    IndexAgreement(es, owner);
    RunPlainIds(es);
    SendParses(channel, user, e, infoOrder);
    BodyIsPlain(channel, user, e, infoOrder);
    BodyNotEmpty(user, e, infoOrder);
    ReportCopiesPlain(Run(es).broker, c, f, ch, channel, f.body);
  }

  lemma BodyNotEmpty(user: string, e: E.Event, infoOrder: seq<string>)
    requires Enumerates(infoOrder, e.info.Keys)
    ensures BodyText(user, e, infoOrder) != ""
  {
  }

  lemma WirePrint(f: Frame, order: seq<string>)
    requires PlainFrame(f) && Enumerates(order, f.headers.Keys)
    ensures FrameText(Encode(f, order)) == PrintText(f, order)
  {
    PlainPrintText(f, order);
    WireCarries(PrintText(f, order));
  }
}
