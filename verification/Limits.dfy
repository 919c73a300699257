// Where the server stops doing what its comments assume: concrete states in
// which an assumption is missing, and the exact conditions.
module Limits {
  import opened Text
  import opened Codec
  import opened Broker
  import opened Subscriptions
  import opened Runs
  import opened MessageIds

  // One more event of a run.
  lemma Extend(es: seq<Event>, e: Event) returns (es': seq<Event>)
    requires LegalRun(es) && Legal(Run(es), e)
    ensures LegalRun(es') && Run(es') == Step(Run(es), e) && es' == es + [e]
  {
    es' := es + [e];
    assert es'[..|es' | - 1] == es;
  }

  // What a client that was accepted does next, for a frame that leaves nothing
  // open.
  lemma Send(es: seq<Event>, c: int, f: Frame) returns (es': seq<Event>, ch: Choice)
    requires LegalRun(es) && c in Run(es).seen && Run(es).broker.users == map[] && f.command != "SEND"
    ensures LegalRun(es') && LegalChoice(Run(es).broker, c, f, ch)
    ensures Run(es') == Run(es).(broker := Process(Run(es).broker, c, f, ch).broker)
  {
    var order := EnumerationExists(f.headers.Keys);
    ch := Choice(order, [], "");
    es' := Extend(es, Inbound(c, f, ch));
  }

  lemma OneAccepted() returns (es: seq<Event>)
    ensures LegalRun(es) && |es| == 1 && Run(es) == Server(Init().(handlers := {0}), 1, {0})
  {
    es := Extend([], Accept);
  }

  lemma TwoAccepted() returns (es: seq<Event>)
    ensures LegalRun(es) && Run(es) == Server(Init().(handlers := {0, 1}), 2, {0, 1})
  {
    es := OneAccepted();
    es := Extend(es, Accept);
  }

  function Subscribing(t: string, id: string): Frame
  {
    Frame("SUBSCRIBE", map["destination" := t, "id" := id], "")
  }

  lemma SubscribeStep(b: Broker, c: int, t: string, id: string, ch: Choice)
    requires LegalChoice(b, c, Subscribing(t, id), ch) && t != "" && c !in TopicSet(b, t)
    ensures Process(b, c, Subscribing(t, id), ch).broker == Subscribe(b, t, Some(id), c).0
  {
    SubscribeEffect(b, c, Subscribing(t, id), ch);
  }

  lemma UnsubscribeStep(b: Broker, c: int, id: string, ch: Choice)
    requires LegalChoice(b, c, Frame("UNSUBSCRIBE", map["id" := id], ""), ch)
    ensures Process(b, c, Frame("UNSUBSCRIBE", map["id" := id], ""), ch).broker == Unsubscribe(b, c, id)
  {
  }

  // Two connections subscribed to one topic under these ids.
  lemma TwoSubscribed(t: string, id: string, id': string) returns (es: seq<Event>)
    requires t != ""
    ensures LegalRun(es) && Run(es).seen == {0, 1}
    ensures Run(es).broker == Broker({0, 1}, map[t := {0, 1}], map[t := map[0 := id, 1 := id']], map[], 0)
  {
    var ch;
    es := TwoAccepted();
    var b := Run(es).broker;
    es, ch := Send(es, 0, Subscribing(t, id));
    SubscribeStep(b, 0, t, id, ch);
    FirstSubscribes(b, t, id);
    b := Run(es).broker;
    es, ch := Send(es, 1, Subscribing(t, id'));
    SubscribeStep(b, 1, t, id', ch);
    SecondSubscribes(b, t, id, id');
  }

  lemma FirstSubscribes(b: Broker, t: string, id: string)
    requires b == Init().(handlers := {0, 1})
    ensures Subscribe(b, t, Some(id), 0).0 == Broker({0, 1}, map[t := {0}], map[t := map[0 := id]], map[], 0)
  {
    var b' := Subscribe(b, t, Some(id), 0).0;
    assert TopicSet(b, t) + {0} == {0};
    assert b'.topics == map[t := {0}];
    assert b'.channels == map[t := map[0 := id]];
  }

  lemma SecondSubscribes(b: Broker, t: string, id: string, id': string)
    requires b == Broker({0, 1}, map[t := {0}], map[t := map[0 := id]], map[], 0)
    ensures Subscribe(b, t, Some(id'), 1).0 == Broker({0, 1}, map[t := {0, 1}], map[t := map[0 := id, 1 := id']], map[], 0)
  {
    var b' := Subscribe(b, t, Some(id'), 1).0;
    assert TopicSet(b, t) + {1} == {0, 1};
    assert b'.topics == map[t := {0, 1}];
    assert b'.channels == map[t := map[0 := id, 1 := id']];
  }

  // A reachable state in which one of them has unsubscribed: the other's id is
  // gone as well, while it is still in the first index.
  lemma SharedIdBreaks(t: string, id: string) returns (es: seq<Event>)
    requires t != ""
    ensures LegalRun(es) && Run(es).seen == {0, 1}
    ensures var b := Run(es).broker;
      !Agree(b) && 1 in b.handlers && t in b.topics && 1 in b.topics[t] && t in b.channels && 1 !in b.channels[t]
  {
    var ch;
    es := TwoSubscribed(t, id, id);
    var b := Run(es).broker;
    es, ch := Send(es, 0, Frame("UNSUBSCRIBE", map["id" := id], ""));
    UnsubscribeStep(b, 0, id, ch);
    BothGone(b, t, id);
  }

  lemma BothGone(b: Broker, t: string, id: string)
    requires b == Broker({0, 1}, map[t := {0, 1}], map[t := map[0 := id, 1 := id]], map[], 0)
    ensures var b' := Unsubscribe(b, 0, id);
      b'.handlers == {0, 1} && t in b'.topics && b'.topics[t] == {1} && t in b'.channels && b'.channels[t] == map[]
    ensures !Agree(Unsubscribe(b, 0, id))
  {
    var b' := Unsubscribe(b, 0, id);
    assert ChannelMap(b, t)[0] == id && HasId(ChannelMap(b, t), id);
    assert b.topics[t] - {0} == {1};
    assert WithoutId(b.channels[t], id) == map[];
    assert 1 in TopicSet(b', t) && 1 !in ChannelMap(b', t);
  }

  // A SUBSCRIBE without an id throws after the first index was changed.
  lemma MissingIdBreaks(t: string) returns (es: seq<Event>)
    requires t != ""
    ensures LegalRun(es) && |es| == 2 && es[1].Inbound? && Idless(es[1].frame) && LegalRun(es[..1])
    ensures Process(Run(es[..1]).broker, es[1].c, es[1].frame, es[1].choice).threw
    ensures var b := Run(es).broker;
      !Agree(b) && 0 in b.handlers && t in b.topics && 0 in b.topics[t] && t in b.channels && 0 !in b.channels[t]
  {
    var f := Frame("SUBSCRIBE", map["destination" := t], "");
    es := OneAccepted();
    var order := EnumerationExists(f.headers.Keys);
    var b := Run(es).broker;
    IdlessStep(b, t, Choice(order, [], ""));
    var es' := Extend(es, Inbound(0, f, Choice(order, [], "")));
    assert es'[..1] == es;
    es := es';
  }

  lemma IdlessStep(b: Broker, t: string, ch: Choice)
    requires b == Init().(handlers := {0}) && t != ""
    requires LegalChoice(b, 0, Frame("SUBSCRIBE", map["destination" := t], ""), ch)
    ensures var o := Process(b, 0, Frame("SUBSCRIBE", map["destination" := t], ""), ch);
      o.threw && o.broker.handlers == {0} && o.broker.topics == map[t := {0}] && o.broker.channels == map[t := map[]]
  {
    var b' := Subscribe(b, t, None, 0).0;
    assert TopicSet(b, t) + {0} == {0};
    assert Process(b, 0, Frame("SUBSCRIBE", map["destination" := t], ""), ch).broker == b';
    assert b'.topics == map[t := {0}];
    assert b'.channels == map[t := map[]];
  }

  predicate On(users: map<string, User>, u: string, c: int)
  {
    u in users && users[u].connectionId == c
  }

  // Nobody is left logged in over connection `c`.
  ghost predicate LoggedOut(users: map<string, User>, c: int)
  {
    forall u :: On(users, u, c) ==> !users[u].connected
  }

  // Disconnecting c logs out everybody who logged in over it, whichever user
  // it finds first, exactly when no logged-in user shares c with another.
  lemma LogoutCompleteIff(users: map<string, User>, c: int)
    ensures (forall found :: LegalFound(users, c, found) ==> LoggedOut(LogOut(users, c, found), c))
       <==> (forall u, v :: On(users, u, c) && On(users, v, c) && u != v ==> !users[u].connected)
  {
    if forall u, v :: On(users, u, c) && On(users, v, c) && u != v ==> !users[u].connected {
      forall found | LegalFound(users, c, found) ensures LoggedOut(LogOut(users, c, found), c) {
        LogoutLeaves(users, c, found);
      }
    } else {
      var u, v :| On(users, u, c) && On(users, v, c) && u != v && users[u].connected;
      assert LegalFound(users, c, v);
      assert On(LogOut(users, c, v), u, c) && LogOut(users, c, v)[u].connected;
    }
  }

  lemma LogoutLeaves(users: map<string, User>, c: int, found: string)
    requires LegalFound(users, c, found)
    requires forall u, v :: On(users, u, c) && On(users, v, c) && u != v ==> !users[u].connected
    ensures LoggedOut(LogOut(users, c, found), c)
  {
    var after := LogOut(users, c, found);
    forall u | On(after, u, c) ensures !after[u].connected {
      assert On(users, u, c);
      if u != found {
        assert On(users, found, c);
      }
    }
  }

  function Connecting(login: string, passcode: string): Frame
  {
    Frame("CONNECT", map["login" := login, "passcode" := passcode], "")
  }

  lemma ConnectStep(b: Broker, c: int, login: string, passcode: string, ch: Choice)
    requires Enumerates(ch.headerOrder, Connecting(login, passcode).headers.Keys) && login !in b.users
    ensures Process(b, c, Connecting(login, passcode), ch).broker == b.(users := b.users[login := User(passcode, true, c)])
  {
  }

  // One more frame of client `c`, with a given choice of the user found.
  lemma SendFinding(es: seq<Event>, c: int, f: Frame, found: string) returns (es': seq<Event>, ch: Choice)
    requires LegalRun(es) && c in Run(es).seen && !Broadcasts(f) && LegalFound(Run(es).broker.users, c, found)
    ensures LegalRun(es') && LegalChoice(Run(es).broker, c, f, ch) && ch.found == found && es' == es + [Inbound(c, f, ch)]
    ensures Run(es') == Run(es).(broker := Process(Run(es).broker, c, f, ch).broker)
  {
    var order := EnumerationExists(f.headers.Keys);
    ch := Choice(order, [], found);
    es' := Extend(es, Inbound(c, f, ch));
  }

  // Two users logged in over one connection.
  lemma TwoLogins(u: string, v: string) returns (es: seq<Event>)
    requires u != v
    ensures LegalRun(es) && Run(es).seen == {0}
    ensures Run(es).broker == Broker({0}, map[], map[], map[u := User("", true, 0), v := User("", true, 0)], 0)
  {
    var ch;
    es := OneAccepted();
    var b := Run(es).broker;
    es, ch := SendFinding(es, 0, Connecting(u, ""), "");
    ConnectStep(b, 0, u, "", ch);
    b := Run(es).broker;
    es, ch := SendFinding(es, 0, Connecting(v, ""), u);
    ConnectStep(b, 0, v, "", ch);
    assert Run(es).broker.users == map[u := User("", true, 0), v := User("", true, 0)];
  }

  // A run from the start in which a client logs in twice over one connection,
  // under different names, and then disconnects: one of the two stays logged
  // in, over a connection that has no handler any more.
  lemma LogoutMissesOne(u: string, v: string) returns (es: seq<Event>)
    requires u != v
    ensures LegalRun(es) && |es| > 0 && es[|es| - 1].Inbound? && es[|es| - 1].frame.command == "DISCONNECT"
    ensures var b := Run(es).broker;
      0 !in b.handlers && v in b.users && b.users[v] == User("", true, 0) && !LoggedOut(b.users, 0)
  {
    var ch;
    es := TwoLogins(u, v);
    var b := Run(es).broker;
    es, ch := SendFinding(es, 0, Frame("DISCONNECT", map[], ""), u);
    DropEffect(b, 0, Frame("DISCONNECT", map[], ""), ch);
    assert On(Run(es).broker.users, v, 0);
  }

  // After a broadcast the counter is larger exactly when what it took, counted
  // modulo 2^32, is not nothing and does not pass the largest int.
  lemma NextIdLargerIff(b: Broker, topic: string, body: string, visits: seq<Visit>, counter: int)
    requires MIN_INT <= counter <= MAX_INT && LegalVisits(b, topic, visits)
    ensures var taken := Taken(|TopicSet(b, topic)|, |ChannelMap(b, topic)|) % 0x1_0000_0000;
      Broadcast(b, topic, body, visits, counter).1 > counter <==> 0 < taken && counter + taken <= MAX_INT
  {
    var taken := Taken(|TopicSet(b, topic)|, |ChannelMap(b, topic)|);
    BroadcastTakes(b, topic, body, visits, counter, counter + taken);
    WrapLargerIff(counter, taken);
  }

  lemma WrapLargerIff(n: int, taken: nat)
    requires MIN_INT <= n <= MAX_INT
    ensures Wrap32(n + taken) > n <==> 0 < taken % 0x1_0000_0000 && n + taken % 0x1_0000_0000 <= MAX_INT
  {
    var k := taken % 0x1_0000_0000;
    assert Wrap32(n + taken) == Wrap32(n + k) by {
      assert (n + taken + 0x8000_0000) % 0x1_0000_0000 == (n + k + 0x8000_0000) % 0x1_0000_0000;
    }
    if n + k > MAX_INT {
      assert (n + k + 0x8000_0000) % 0x1_0000_0000 == n + k + 0x8000_0000 - 0x1_0000_0000;
    }
  }

  // ------------------------------------------- whose id a MESSAGE carries

  // Every copy that `c` can get names c's own id.
  ghost predicate NamesOwn(b: Broker, topic: string, body: string, counter: int, c: int, id: string)
  {
    forall visits, d :: LegalVisits(b, topic, visits) && d in Broadcast(b, topic, body, visits, counter).0 && d.to == c ==>
      Names(d.frame, id)
  }

  predicate Names(f: Frame, id: string)
  {
    "subscription" in f.headers && f.headers["subscription"] == id
  }

  // A subscriber's copy carries its own subscription id, whatever the visiting
  // order, if and only if every entry of the channel has that id: the inner
  // loop overwrites the header with each of them.
  lemma NamesOwnIff(b: Broker, topic: string, body: string, counter: int, c: int)
    requires c in b.handlers && c in TopicSet(b, topic) && c in ChannelMap(b, topic)
    ensures NamesOwn(b, topic, body, counter, c, ChannelMap(b, topic)[c])
       <==> forall d :: d in ChannelMap(b, topic) ==> ChannelMap(b, topic)[d] == ChannelMap(b, topic)[c]
  {
    var ids := ChannelMap(b, topic);
    if forall d :: d in ids ==> ids[d] == ids[c] {
      forall visits, d | LegalVisits(b, topic, visits) && d in Broadcast(b, topic, body, visits, counter).0 && d.to == c
        ensures Names(d.frame, ids[c])
      {
        BroadcastNamesIds(b, topic, body, visits, counter);
        assert NamesAnId(d.frame, ids);
      }
    } else {
      var x :| x in ids && ids[x] != ids[c];
      var visits := VisitsEndingOn(b, topic, x);
      var i :| 0 <= i < |visits| && Connections(visits)[i] == c;
      var d := BroadcastReachesOne(b, topic, body, visits, counter, i);
      assert Names(d.frame, ids[x]) && !Names(d.frame, ids[c]);
    }
  }

  // Visits whose inner loops all end on x's id.
  lemma VisitsEndingOn(b: Broker, topic: string, x: int) returns (visits: seq<Visit>)
    requires x in ChannelMap(b, topic)
    ensures LegalVisits(b, topic, visits)
    ensures forall i :: 0 <= i < |visits| ==> visits[i].subscription == ChannelMap(b, topic)[x]
  {
    var order := EnumerationExists(TopicSet(b, topic));
    var id := ChannelMap(b, topic)[x];
    visits := seq(|order|, i requires 0 <= i < |order| => Visit(order[i], id));
    assert Connections(visits) == order;
    assert HasId(ChannelMap(b, topic), id);
  }

  lemma {:induction false} BroadcastReachesOne(b: Broker, topic: string, body: string, visits: seq<Visit>, counter: int, i: nat)
    returns (d: Delivery)
    requires i < |visits| && visits[i].connection in b.handlers && ChannelMap(b, topic) != map[]
    ensures d in Broadcast(b, topic, body, visits, counter).0 && d.to == visits[i].connection
    ensures Names(d.frame, visits[i].subscription)
    decreases |visits|
  {
    var here, next := FirstSend(b, topic, body, visits[0], counter);
    assert [visits[0]] + visits[1..] == visits;
    BroadcastCons(b, topic, body, visits[0], visits[1..], counter, here, next);
    if i == 0 {
      d := here[0];
    } else {
      d := BroadcastReachesOne(b, topic, body, visits[1..], next, i - 1);
    }
  }

  // A run from the start that ends with a SEND whose copy for connection 0
  // carries the id of connection 1.
  lemma OthersIdSent(t: string, id: string, id': string, body: string) returns (es: seq<Event>, d: Delivery)
    requires t != "" && t[0] != '/' && id != id' && body != ""
    ensures LegalRun(es) && |es| > 0 && LegalRun(es[..|es| - 1]) && Legal(Run(es[..|es| - 1]), es[|es| - 1])
    ensures es[|es| - 1].Inbound? && es[|es| - 1].frame == Frame("SEND", map["destination" := t], body)
    ensures var b := Run(es[..|es| - 1]).broker;
      t in b.channels && 0 in b.channels[t] && b.channels[t][0] == id
    ensures d in StepOut(Run(es[..|es| - 1]), es[|es| - 1]) && d.to == 0 && Names(d.frame, id')
  {
    var before := TwoSubscribed(t, id, id');
    var b, f := Run(before).broker, Frame("SEND", map["destination" := t], body);
    var visits := VisitsEndingOn(b, t, 1);
    var order := EnumerationExists(f.headers.Keys);
    var ch := Choice(order, visits, "");
    es := Extend(before, Inbound(0, f, ch));
    assert es[..|es| - 1] == before;
    var i :| 0 <= i < |visits| && Connections(visits)[i] == 0;
    d := BroadcastReachesOne(b, t, body, visits, b.counter, i);
    SentIsBroadcast(b, t, body, ch);
  }

  lemma SentIsBroadcast(b: Broker, t: string, body: string, ch: Choice)
    requires t in b.topics && t != "" && t[0] != '/' && body != ""
    requires Enumerates(ch.headerOrder, Frame("SEND", map["destination" := t], body).headers.Keys)
    ensures Process(b, 0, Frame("SEND", map["destination" := t], body), ch).out == Broadcast(b, t, body, ch.visits, b.counter).0
  {
  }
}
