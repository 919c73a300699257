// Properties of whole runs of the broker: connection ids, agreement of the
// subscription indexes with the simple relation, and broadcasts.
module Runs {
  import opened Text
  import opened Codec
  import opened Broker
  import opened Subscriptions

  // ---------------------------------------------------------- connection ids

  // Ids are handed out in order, so up to 2^32 of them are different, and
  // nothing in the state mentions an id that was not handed out.
  ghost predicate IdsInOrder(s: Server, n: nat)
  {
    && s.nextId == Wrap32(n)
    && (forall c :: c in s.seen ==> exists i: nat :: i < n && c == Wrap32(i))
    && s.broker.handlers <= s.seen
    && (forall t, c :: t in s.broker.topics && c in s.broker.topics[t] ==> c in s.seen)
    && (forall t, c :: t in s.broker.channels && c in s.broker.channels[t] ==> c in s.seen)
  }

  const ID_SPACE: int := 0x1_0000_0000

  lemma FreshId(s: Server, n: nat)
    requires IdsInOrder(s, n) && n < ID_SPACE
    ensures s.nextId !in s.seen
  {
  }

  // Whom `b'` mentions: `c`, and those whom `b` mentions.
  predicate MentionsOld(b: Broker, c: int, b': Broker)
  {
    && b'.handlers <= b.handlers
    && (forall t, d :: t in b'.topics && d in b'.topics[t] ==> d == c || (t in b.topics && d in b.topics[t]))
    && (forall t, d :: t in b'.channels && d in b'.channels[t] ==> d == c || (t in b.channels && d in b.channels[t]))
  }

  lemma ProcessIds(b: Broker, c: int, f: Frame, ch: Choice)
    requires Enumerates(ch.headerOrder, f.headers.Keys)
    ensures MentionsOld(b, c, Process(b, c, f, ch).broker)
  {
    ProcessEffect(b, c, f, ch);
    if Drops(b, c, f) {
      DisconnectIds(b, c, ch.found);
    } else if f.command == "SUBSCRIBE" {
      SubscribeEffect(b, c, f, ch);
      SubscribeIds(b, f.headers["destination"], HeaderOption(f, "id"), c);
    } else if f.command == "UNSUBSCRIBE" {
      UnsubscribeEffect(b, c, f, ch);
      UnsubscribeIds(b, c, f.headers["id"]);
    }
  }

  lemma DisconnectIds(b: Broker, c: int, found: string)
    ensures MentionsOld(b, c, Disconnect(b, c, found))
  {
  }

  lemma SubscribeIds(b: Broker, t: string, id: Option<string>, c: int)
    ensures MentionsOld(b, c, Subscribe(b, t, id, c).0)
  {
  }

  lemma UnsubscribeIds(b: Broker, c: int, id: string)
    ensures MentionsOld(b, c, Unsubscribe(b, c, id))
  {
  }

  lemma {:induction false} ConnectionIds(es: seq<Event>)
    requires LegalRun(es)
    ensures IdsInOrder(Run(es), Accepts(es))
  {
    if es != [] {
      var n := |es| - 1;
      ConnectionIds(es[..n]);
      StepIds(Run(es[..n]), es[n], Accepts(es[..n]), Accepts(es));
    }
  }

  lemma StepIds(s: Server, e: Event, n: nat, total: nat)
    requires IdsInOrder(s, n) && Legal(s, e) && total == if e.Accept? then n + 1 else n
    ensures IdsInOrder(Step(s, e), total)
  {
    match e
    case Accept =>
      WrapAgain(n, 1);
    case Inbound(c, f, ch) =>
      ProcessIds(s.broker, c, f, ch);
  }

  ghost predicate AllSeen(s: Server, n: nat)
  {
    forall i: nat :: i < n ==> Wrap32(i) in s.seen
  }

  lemma {:induction false} IdsSeen(es: seq<Event>)
    requires LegalRun(es)
    ensures AllSeen(Run(es), Accepts(es))
  {
    if es != [] {
      var n := |es| - 1;
      IdsSeen(es[..n]);
      ConnectionIds(es[..n]);
      StepSeen(Run(es[..n]), es[n], Accepts(es[..n]), Accepts(es));
    }
  }

  lemma StepSeen(s: Server, e: Event, n: nat, total: nat)
    requires AllSeen(s, n) && s.nextId == Wrap32(n) && Legal(s, e) && total == if e.Accept? then n + 1 else n
    ensures AllSeen(Step(s, e), total)
  {
    forall i: nat | i < total ensures Wrap32(i) in Step(s, e).seen {
      assert i < n ==> Wrap32(i) in s.seen;
    }
  }

  // The next id is a new one exactly as long as fewer than 2^32 were handed
  // out.
  lemma NextIdFreshIff(es: seq<Event>)
    requires LegalRun(es)
    ensures Run(es).nextId !in Run(es).seen <==> Accepts(es) < ID_SPACE
  {
    ConnectionIds(es);
    IdsSeen(es);
    if Accepts(es) < ID_SPACE {
      FreshId(Run(es), Accepts(es));
    } else {
      var i := Accepts(es) % ID_SPACE;
      SameWrap(Accepts(es));
      assert i < Accepts(es) && Wrap32(i) in Run(es).seen;
    }
  }

  lemma SameWrap(n: nat)
    ensures Wrap32(n % ID_SPACE) == Wrap32(n)
  {
    var m := 0x8000_0000;
    assert (n % ID_SPACE + m) % ID_SPACE == (n + m) % ID_SPACE;
  }

  // The accept at event `n` got an id that was handed out before.
  ghost predicate Reuses(es: seq<Event>, n: nat)
    requires LegalRun(es) && n < |es|
  {
    es[n].Accept? && At(es, n).nextId in At(es, n).seen
  }

  // No connection id is reused in a run if and only if it has at most 2^32
  // accepts.
  lemma {:induction false} NeverReusedIff(es: seq<Event>)
    requires LegalRun(es)
    ensures (forall n :: 0 <= n < |es| ==> !Reuses(es, n)) <==> Accepts(es) <= ID_SPACE
  {
    if es != [] {
      var m := |es| - 1;
      NeverReusedIff(es[..m]);
      NextIdFreshIff(es[..m]);
      assert Reuses(es, m) <==> es[m].Accept? && Run(es[..m]).nextId in Run(es[..m]).seen;
      ReusesPrefix(es, m);
    }
  }

  lemma ReusesPrefix(es: seq<Event>, m: nat)
    requires LegalRun(es) && m <= |es| && LegalRun(es[..m])
    ensures forall n :: 0 <= n < m ==> (Reuses(es[..m], n) <==> Reuses(es, n))
  {
    forall n | 0 <= n < m ensures Reuses(es[..m], n) <==> Reuses(es, n) {
      assert es[..m][..n] == es[..n];
    }
  }

  // --------------------------------------------------- index agreement

  // The simple relation, computed on its own along a run.
  ghost function SimpleRun(es: seq<Event>): Live
    requires LegalRun(es)
  {
    if es == [] then map[]
    else
      var n := |es| - 1;
      SimpleStep(Run(es[..n]), SimpleRun(es[..n]), es[n])
  }

  ghost function SimpleStep(s: Server, a: Live, e: Event): Live
  {
    match e
    case Accept => a[s.nextId := map[]]
    case Inbound(c, f, _) => Simple(a, c, f, !MayLogIn(s.broker.users, f))
  }

  ghost predicate HarmlessEvent(s: Server, e: Event)
  {
    e.Inbound? ==> Harmless(s.broker, e.c, e.frame)
  }

  ghost predicate HarmlessRun(es: seq<Event>)
    requires LegalRun(es)
  {
    es == [] || (HarmlessRun(es[..|es| - 1]) && HarmlessEvent(Run(es[..|es| - 1]), es[|es| - 1]))
  }

  lemma AcceptAgrees(s: Server, n: nat)
    requires IdsInOrder(s, n) && n < ID_SPACE && Agree(s.broker)
    ensures Agree(Step(s, Accept).broker)
    ensures Abs(Step(s, Accept).broker) == Abs(s.broker)[s.nextId := map[]]
  {
    FreshId(s, n);
    var b' := Step(s, Accept).broker;
    assert forall c :: c in s.broker.handlers ==> TopicsOf(b', c) == TopicsOf(s.broker, c);
    assert TopicsOf(b', s.nextId) == map[];
  }

  ghost predicate AgreesThroughout(es: seq<Event>)
    requires LegalRun(es)
  {
    Agree(Run(es).broker) && (es == [] || AgreesThroughout(es[..|es| - 1]))
  }

  // Index agreement, exactly: the indexes agree after every prefix of a run
  // if and only if every frame was harmless when it arrived.
  lemma {:induction false} AgreementIffHarmless(es: seq<Event>)
    requires LegalRun(es) && Accepts(es) <= ID_SPACE
    ensures AgreesThroughout(es) <==> HarmlessRun(es)
  {
    if es != [] {
      var m := |es| - 1;
      AgreementIffHarmless(es[..m]);
      if Agree(Run(es[..m]).broker) {
        ConnectionIds(es[..m]);
        match es[m]
        case Accept => AcceptAgrees(Run(es[..m]), Accepts(es[..m]));
        case Inbound(c, f, ch) => FrameAgrees(Run(es[..m]).broker, c, f, ch);
      }
    }
  }

  // In a harmless run the indexes are the simple relation.
  lemma {:induction false} IndexesAreSimple(es: seq<Event>)
    requires LegalRun(es) && Accepts(es) <= ID_SPACE && HarmlessRun(es)
    ensures Agree(Run(es).broker) && Abs(Run(es).broker) == SimpleRun(es)
  {
    if es != [] {
      var m := |es| - 1;
      IndexesAreSimple(es[..m]);
      ConnectionIds(es[..m]);
      var s := Run(es[..m]);
      match es[m]
      case Accept => AcceptAgrees(s, Accepts(es[..m]));
      case Inbound(c, f, ch) =>
        FrameAgrees(s.broker, c, f, ch);
        FrameSimulates(s.broker, c, f, ch);
    }
  }

  // What clients promise: a SUBSCRIBE carries an id, and different
  // connections use different subscription ids.
  predicate Owned(e: Event, owner: string -> int)
  {
    e.Inbound? && e.frame.command in {"SUBSCRIBE", "UNSUBSCRIBE"} ==>
      && ("id" in e.frame.headers ==> owner(e.frame.headers["id"]) == e.c)
      && (e.frame.command == "SUBSCRIBE" ==> "id" in e.frame.headers)
  }

  predicate OwnedState(b: Broker, owner: string -> int)
  {
    forall t, c :: t in b.channels && c in b.channels[t] ==> owner(b.channels[t][c]) == c
  }

  // An entry of the second index is an old one, or the id of the SUBSCRIBE.
  predicate OldOrNew(b: Broker, c: int, f: Frame, t: string, d: int, id: string)
  {
    || (t in b.channels && d in b.channels[t] && b.channels[t][d] == id)
    || (d == c && f.command == "SUBSCRIBE" && "id" in f.headers && f.headers["id"] == id)
  }

  lemma ProcessEntries(b: Broker, c: int, f: Frame, ch: Choice)
    requires Enumerates(ch.headerOrder, f.headers.Keys)
    ensures var b' := Process(b, c, f, ch).broker;
      forall t, d :: t in b'.channels && d in b'.channels[t] ==> OldOrNew(b, c, f, t, d, b'.channels[t][d])
  {
    ProcessEffect(b, c, f, ch);
    if !Drops(b, c, f) && f.command == "SUBSCRIBE" {
      SubscribeEffect(b, c, f, ch);
    } else if !Drops(b, c, f) && f.command == "UNSUBSCRIBE" {
      UnsubscribeEffect(b, c, f, ch);
    }
  }

  lemma OwnedFrame(b: Broker, c: int, f: Frame, ch: Choice, owner: string -> int)
    requires LegalChoice(b, c, f, ch) && OwnedState(b, owner) && Owned(Inbound(c, f, ch), owner)
    ensures Harmless(b, c, f) && OwnedState(Process(b, c, f, ch).broker, owner)
  {
    ProcessEntries(b, c, f, ch);
    var b' := Process(b, c, f, ch).broker;
    forall t, d | t in b'.channels && d in b'.channels[t] ensures owner(b'.channels[t][d]) == d {
      assert OldOrNew(b, c, f, t, d, b'.channels[t][d]);
    }
  }

  lemma {:induction false} OwnedIsHarmless(es: seq<Event>, owner: string -> int)
    requires LegalRun(es) && forall i :: 0 <= i < |es| ==> Owned(es[i], owner)
    ensures HarmlessRun(es) && OwnedState(Run(es).broker, owner)
  {
    if es != [] {
      var m := |es| - 1;
      OwnedIsHarmless(es[..m], owner);
      if es[m].Inbound? {
        OwnedFrame(Run(es[..m]).broker, es[m].c, es[m].frame, es[m].choice, owner);
      }
    }
  }

  // Index agreement under id ownership.
  lemma IndexAgreement(es: seq<Event>, owner: string -> int)
    requires LegalRun(es) && Accepts(es) <= ID_SPACE
    requires forall i :: 0 <= i < |es| ==> Owned(es[i], owner)
    ensures Agree(Run(es).broker) && Abs(Run(es).broker) == SimpleRun(es)
  {
    OwnedIsHarmless(es, owner);
    IndexesAreSimple(es);
  }

  // ------------------------------------------------------------- broadcast

  function Recipients(out: seq<Delivery>): (r: seq<int>)
    ensures |r| == |out| && forall i :: 0 <= i < |r| ==> r[i] == out[i].to
  {
    seq(|out|, i requires 0 <= i < |out| => out[i].to)
  }

  function Subscribers(a: Live, t: string): set<int>
  {
    set c | c in a && t in a[c]
  }

  // A complete MESSAGE for this topic and body.
  predicate IsMessage(f: Frame, topic: string, body: string)
  {
    && f.command == "MESSAGE" && f.body == body
    && f.headers.Keys == {"destination", "subscription", "message-id"}
    && f.headers["destination"] == "/" + topic
  }

  function Keep(cs: seq<int>, live: set<int>): seq<int>
  {
    if cs == [] then [] else (if cs[0] in live then [cs[0]] else []) + Keep(cs[1..], live)
  }

  lemma {:induction false} KeepFacts(cs: seq<int>, live: set<int>)
    ensures forall c :: c in Keep(cs, live) <==> c in cs && c in live
    ensures NoRepeats(cs) ==> NoRepeats(Keep(cs, live))
  {
    if cs != [] {
      KeepFacts(cs[1..], live);
      if NoRepeats(cs) {
        assert forall i :: 0 <= i < |cs| - 1 ==> cs[1..][i] == cs[i + 1];
      }
    }
  }

  lemma {:induction false} BroadcastReaches(b: Broker, topic: string, body: string, visits: seq<Visit>, counter: int)
    ensures Recipients(Broadcast(b, topic, body, visits, counter).0) == Keep(Connections(visits), b.handlers)
    decreases |visits|
  {
    if visits != [] {
      assert Connections(visits)[1..] == Connections(visits[1..]);
      var here, next := FirstSend(b, topic, body, visits[0], counter);
      BroadcastReaches(b, topic, body, visits[1..], next);
      assert [visits[0]] + visits[1..] == visits;
      BroadcastCons(b, topic, body, visits[0], visits[1..], counter, here, next);
    }
  }

  lemma MessageCopyComplete(topic: string, body: string, k: nat, counter: int, subscription: string)
    requires k > 0
    ensures IsMessage(MessageCopy(topic, body, k, counter, subscription), topic, body)
  {
    assert MessageCopy(topic, body, k, counter, subscription).headers.Keys
        == {"destination"} + {"subscription"} + {"message-id"};
  }

  lemma {:induction false} BroadcastFrames(b: Broker, topic: string, body: string, visits: seq<Visit>, counter: int)
    requires ChannelMap(b, topic) != map[]
    ensures forall d :: d in Broadcast(b, topic, body, visits, counter).0 ==> IsMessage(d.frame, topic, body)
    decreases |visits|
  {
    if visits != [] {
      var k := |ChannelMap(b, topic)|;
      BroadcastFrames(b, topic, body, visits[1..], Wrap32(counter + k));
      MessageCopyComplete(topic, body, k, counter, visits[0].subscription);
    }
  }

  // A broadcast refines the simple relation: in an agreeing state a SEND
  // delivers one complete MESSAGE to each live subscriber of the topic, none
  // to anyone else, and leaves the relation alone. What `Process` adds is at
  // most the sender's receipt.
  lemma BroadcastRefines(b: Broker, c: int, f: Frame, ch: Choice)
    requires Agree(b) && LegalChoice(b, c, f, ch)
    requires Broadcasts(f)
    ensures var topic := StripSlash(f.headers["destination"]);
      var out := ProcessFrame(b, c, f, ch).out;
      && Enumerates(Recipients(out), Subscribers(Abs(b), topic))
      && forall d :: d in out ==> IsMessage(d.frame, topic, f.body)
    ensures Process(b, c, f, ch).out == ProcessFrame(b, c, f, ch).out
      + (if "receipt" in f.headers then SendTo(b, c, ReceiptFrame(f.headers["receipt"])) else [])
    ensures Abs(Process(b, c, f, ch).broker) == Abs(b)
  {
    assert Harmless(b, c, f);
    FrameSimulates(b, c, f, ch);
    SendReaches(b, c, f, ch);
    SendReceipt(b, c, f, ch);
  }

  lemma SendReceipt(b: Broker, c: int, f: Frame, ch: Choice)
    requires Enumerates(ch.headerOrder, f.headers.Keys) && Broadcasts(f)
    ensures Process(b, c, f, ch).out == ProcessFrame(b, c, f, ch).out
      + (if "receipt" in f.headers then SendTo(b, c, ReceiptFrame(f.headers["receipt"])) else [])
  {
  }

  lemma SendReaches(b: Broker, c: int, f: Frame, ch: Choice)
    requires Agree(b) && LegalChoice(b, c, f, ch) && Broadcasts(f)
    ensures var topic := StripSlash(f.headers["destination"]);
      var out := ProcessFrame(b, c, f, ch).out;
      && Enumerates(Recipients(out), Subscribers(Abs(b), topic))
      && forall d :: d in out ==> IsMessage(d.frame, topic, f.body)
  {
    var topic := StripSlash(f.headers["destination"]);
    var out := ProcessFrame(b, c, f, ch).out;
    SendIsBroadcast(b, c, f, ch);
    BroadcastReaches(b, topic, f.body, ch.visits, b.counter);
    LiveMembers(b, topic, ch.visits);
    if out != [] {
      assert Recipients(out)[0] in Recipients(out);
      assert ChannelMap(b, topic) != map[];
      BroadcastFrames(b, topic, f.body, ch.visits, b.counter);
    }
  }

  // A topic without a set has no visits to make.
  lemma SendIsBroadcast(b: Broker, c: int, f: Frame, ch: Choice)
    requires LegalChoice(b, c, f, ch) && Broadcasts(f)
    ensures ProcessFrame(b, c, f, ch).out == Broadcast(b, StripSlash(f.headers["destination"]), f.body, ch.visits, b.counter).0
  {
    var topic := StripSlash(f.headers["destination"]);
    if topic !in b.topics {
      EnumeratesLength(Connections(ch.visits), TopicSet(b, topic));
    }
  }

  lemma LiveMembers(b: Broker, topic: string, visits: seq<Visit>)
    requires Agree(b) && LegalVisits(b, topic, visits)
    ensures Enumerates(Keep(Connections(visits), b.handlers), Subscribers(Abs(b), topic))
  {
    KeepFacts(Connections(visits), b.handlers);
    forall d ensures d in Keep(Connections(visits), b.handlers) <==> d in Subscribers(Abs(b), topic) {
      assert d in b.handlers ==> (topic in TopicsOf(b, d) <==> d in TopicSet(b, topic));
    }
  }

  // The id a MESSAGE names belongs to its channel, though not always to its
  // receiver.
  predicate NamesAnId(f: Frame, ids: map<int, string>)
  {
    "subscription" in f.headers && HasId(ids, f.headers["subscription"])
  }

  lemma {:induction false} BroadcastNamesIds(b: Broker, topic: string, body: string, visits: seq<Visit>, counter: int)
    requires ChannelMap(b, topic) != map[]
    requires forall i :: 0 <= i < |visits| ==> HasId(ChannelMap(b, topic), visits[i].subscription)
    ensures forall d :: d in Broadcast(b, topic, body, visits, counter).0 ==> NamesAnId(d.frame, ChannelMap(b, topic))
    decreases |visits|
  {
    if visits != [] {
      var here, next := FirstSend(b, topic, body, visits[0], counter);
      BroadcastNamesIds(b, topic, body, visits[1..], next);
      assert [visits[0]] + visits[1..] == visits;
      BroadcastCons(b, topic, body, visits[0], visits[1..], counter, here, next);
    }
  }

  lemma MessagesNameIds(b: Broker, c: int, f: Frame, ch: Choice)
    requires Agree(b) && LegalChoice(b, c, f, ch) && Broadcasts(f)
    ensures var ids := ChannelMap(b, StripSlash(f.headers["destination"]));
      forall d :: d in ProcessFrame(b, c, f, ch).out ==> NamesAnId(d.frame, ids)
  {
    var topic := StripSlash(f.headers["destination"]);
    var out := ProcessFrame(b, c, f, ch).out;
    BroadcastReaches(b, topic, f.body, ch.visits, b.counter);
    KeepFacts(Connections(ch.visits), b.handlers);
    if out != [] {
      assert Recipients(out)[0] in Recipients(out);
      assert ChannelMap(b, topic) != map[];
      BroadcastNamesIds(b, topic, f.body, ch.visits, b.counter);
    }
  }
}
