// The broker as the objects it is: user table, connection registry and
// protocol, each method proved against the broker's functions.
module Server {
  import opened Text
  import opened Codec
  import opened FrameCodec
  import B = Broker

  class User {
    const username: string
    const password: string
    var connected: bool
    var connectionId: int

    constructor (username: string, password: string)
      ensures this.username == username && Value() == B.User(password, false, -1)
    {
      this.username, this.password := username, password;
      connected, connectionId := false, -1;
    }

    function Value(): B.User
      reads this
    {
      B.User(password, connected, connectionId)
    }

    method SetConnected(connected: bool)
      modifies this
      ensures Value() == B.User(password, connected, old(connectionId))
    {
      this.connected := connected;
    }

    method SetConnectionId(connectionId: int)
      modifies this
      ensures Value() == B.User(password, old(connected), connectionId)
    {
      this.connectionId := connectionId;
    }
  }

  class ServerStorage {
    var users: map<string, User>

    // Every user is stored under its own name, so no object is stored twice.
    ghost predicate Valid()
      reads this
    {
      forall u :: u in users ==> users[u].username == u
    }

    ghost function Table(): map<string, B.User>
      reads this, users.Values
    {
      map u | u in users :: users[u].Value()
    }

    constructor ()
      ensures Valid() && Table() == map[]
    {
      users := map[];
    }

    method AddUser(username: string, password: string) returns (added: bool)
      requires Valid()
      modifies this
      ensures Valid() && added == (username !in old(users))
      ensures Table() == if added then old(Table())[username := B.User(password, false, -1)] else old(Table())
      ensures forall u :: u in old(users) ==> u in users && users[u] == old(users[u])
      ensures forall u :: u in users ==> u in old(users) || fresh(users[u])
    {
      added := username !in users;
      if added {
        var user := new User(username, password);
        users := users[username := user];
      }
    }

    method ConnectUser(username: string, connectionId: int)
      requires Valid()
      modifies users.Values
      ensures Table() == if username in users
        then old(Table())[username := B.User(users[username].password, true, connectionId)] else old(Table())
    {
      if username in users {
        users[username].SetConnected(true);
        users[username].SetConnectionId(connectionId);
      }
    }

    // A new login is added with the passcode given; then it is connected.
    method LogIn(username: string, password: string, connectionId: int)
      requires Valid()
      modifies this, users.Values
      ensures Valid() && Table() == B.LogIn(old(Table()), username, password, connectionId)
    {
      if username !in users {
        var _ := AddUser(username, password);
      }
      ConnectUser(username, connectionId);
    }

    // Logs out one user whose connection this is; which one, if several, is
    // up to the map's order.
    method DisconnectUser(connectionId: int) returns (ghost found: string)
      requires Valid()
      modifies users.Values
      ensures B.LegalFound(old(Table()), connectionId, found)
      ensures Table() == B.LogOut(old(Table()), connectionId, found)
    {
      if u :| u in users && users[u].connectionId == connectionId {
        found := u;
        users[u].SetConnected(false);
      } else {
        found := "";
        assert forall u :: u in old(Table()) ==> old(Table())[u].connectionId != connectionId;
      }
    }
  }

  class ConnectionsImpl {
    const storage: ServerStorage
    var clientHandlers: set<int>
    var topicSubscribers: map<string, set<int>>
    var channelSubscriptions: map<string, map<int, string>>
    var messageIdCounter: int
    // every call of a handler's `send`, in order
    var delivered: seq<B.Delivery>

    ghost predicate Valid()
      reads this, storage
    {
      && storage.Valid()
      && topicSubscribers.Keys == channelSubscriptions.Keys
      && MIN_INT <= messageIdCounter <= MAX_INT
    }

    ghost function State(): B.Broker
      reads this, storage, storage.users.Values
    {
      B.Broker(clientHandlers, topicSubscribers, channelSubscriptions, storage.Table(), messageIdCounter)
    }

    constructor (storage: ServerStorage)
      requires storage.Valid() && storage.Table() == map[]
      ensures Valid() && this.storage == storage && State() == B.Init() && delivered == []
    {
      this.storage := storage;
      clientHandlers, topicSubscribers, channelSubscriptions, messageIdCounter, delivered := {}, map[], map[], 0, [];
    }

    method AddConnection(connectionId: int)
      requires Valid()
      modifies this`clientHandlers
      ensures Valid() && State() == old(State()).(handlers := old(clientHandlers) + {connectionId})
    {
      clientHandlers := clientHandlers + {connectionId};
    }

    method Send(connectionId: int, frame: Frame) returns (sent: bool)
      modifies this`delivered
      ensures delivered == old(delivered) + B.SendTo(State(), connectionId, frame)
      ensures sent == (connectionId in clientHandlers)
    {
      sent := connectionId in clientHandlers;
      if sent {
        delivered := delivered + [B.Delivery(connectionId, frame)];
      }
    }

    method GenerateMessageId() returns (id: int)
      requires MIN_INT <= messageIdCounter <= MAX_INT
      modifies this`messageIdCounter
      ensures id == old(messageIdCounter) && messageIdCounter == Wrap32(id + 1)
    {
      id := messageIdCounter;
      messageIdCounter := Wrap32(messageIdCounter + 1);
    }

    function ExistsSubscription(channel: string, connectionId: int): bool
      reads this
    {
      channel in topicSubscribers && connectionId in topicSubscribers[channel]
    }

    method Subscribe(channel: string, subscriptionId: Option<string>, connectionId: int) returns (threw: bool)
      requires Valid()
      modifies this`topicSubscribers, this`channelSubscriptions
      ensures Valid() && (State(), threw) == B.Subscribe(old(State()), channel, subscriptionId, connectionId)
    {
      threw := false;
      if channel !in topicSubscribers {
        topicSubscribers := topicSubscribers[channel := {}];
        channelSubscriptions := channelSubscriptions[channel := map[]];
      }
      assert topicSubscribers == old(topicSubscribers)[channel := B.TopicSet(old(State()), channel)];
      assert channelSubscriptions == old(channelSubscriptions)[channel := B.ChannelMap(old(State()), channel)];
      if connectionId !in topicSubscribers[channel] {
        topicSubscribers := topicSubscribers[channel := topicSubscribers[channel] + {connectionId}];
        match subscriptionId
        case None => threw := true;
        case Some(id) =>
          channelSubscriptions := channelSubscriptions[channel := channelSubscriptions[channel][connectionId := id]];
      }
    }

    method Unsubscribe(connectionId: int, subscriptionId: string)
      requires Valid()
      modifies this`topicSubscribers, this`channelSubscriptions
      ensures Valid() && State() == B.Unsubscribe(old(State()), connectionId, subscriptionId)
    {
      var todo := channelSubscriptions.Keys;
      ghost var before, after := State(), B.Unsubscribe(State(), connectionId, subscriptionId);
      while todo != {}
        invariant todo <= channelSubscriptions.Keys == topicSubscribers.Keys
        invariant PartDone(before, after, todo, topicSubscribers, channelSubscriptions)
        decreases todo
      {
        var channel :| channel in todo;
        var subscriptions := channelSubscriptions[channel];
        ghost var topics, channels := topicSubscribers, channelSubscriptions;
        assert PartDoneAt(before, after, todo, topics, channels, channel);
        if exists d :: d in subscriptions && subscriptions[d] == subscriptionId {
          channelSubscriptions := channelSubscriptions[channel := B.WithoutId(subscriptions, subscriptionId)];
          topicSubscribers := topicSubscribers[channel := topicSubscribers[channel] - {connectionId}];
        }
        UnsubscribeOne(before, connectionId, subscriptionId, channel);
        OneMoreDone(before, after, todo, topics, channels, channel, topicSubscribers, channelSubscriptions);
        todo := todo - {channel};
      }
      AllDone(before, after, topicSubscribers, channelSubscriptions);
    }

    method Disconnect(connectionId: int) returns (ghost found: string)
      requires Valid()
      modifies this`clientHandlers, this`topicSubscribers, this`channelSubscriptions, storage.users.Values
      ensures Valid() && B.LegalFound(old(storage.Table()), connectionId, found)
      ensures State() == B.Disconnect(old(State()), connectionId, found)
    {
      RemoveSubscriptions(connectionId);
      clientHandlers := clientHandlers - {connectionId};
      found := storage.DisconnectUser(connectionId);
    }

    // Sends a copy of the message to every member of the topic's set, in some
    // order; the set may hold connections that have no handler any more.
    method SendToChannel(channel: string, body: string) returns (ghost visits: seq<B.Visit>)
      requires Valid()
      modifies this`delivered, this`messageIdCounter
      ensures Valid() && B.LegalVisits(old(State()), channel, visits)
      ensures var r := if channel in topicSubscribers
          then B.Broadcast(old(State()), channel, body, visits, old(messageIdCounter)) else ([], old(messageIdCounter));
        delivered == old(delivered) + r.0 && messageIdCounter == r.1
    {
      visits := [];
      if channel in topicSubscribers {
        visits := SendToAll(channel, body);
      }
    }

    // The loop over the set.
    method SendToAll(channel: string, body: string) returns (ghost visits: seq<B.Visit>)
      requires Valid() && channel in topicSubscribers
      modifies this`delivered, this`messageIdCounter
      ensures Valid() && Visited(old(State()), channel, {}, visits)
      ensures var r := B.Broadcast(old(State()), channel, body, visits, old(messageIdCounter));
        delivered == old(delivered) + r.0 && messageIdCounter == r.1
    {
      visits := [];
      var message := B.MessageFrame(channel, body);
      var subscriptions := channelSubscriptions[channel];
      var todo := topicSubscribers[channel];
      ghost var b, out := State(), [];
      NothingSent(b, channel, body);
      while todo != {}
        invariant MIN_INT <= messageIdCounter <= MAX_INT
        invariant SentSoFar(b, channel, body, todo, visits, out, messageIdCounter)
        invariant delivered == old(delivered) + out
        decreases todo
      {
        ghost var any := NotEmpty(todo);
        var connectionId :| connectionId in todo;
        label Round:
        var copy, last := Stamp(CopyMessage(message), subscriptions);
        var _ := Send(connectionId, copy);
        ghost var v := B.Visit(connectionId, last);
        SendRound(b, channel, body, todo, visits, out, old@Round(messageIdCounter), v, copy, messageIdCounter);
        visits, todo, out := visits + [v], todo - {connectionId}, out + B.SendTo(b, connectionId, copy);
      }
    }

    // The inner loop: every subscription id of the channel is written into the
    // copy with a message id of its own; the last round is what stays.
    method Stamp(message: Frame, subscriptions: map<int, string>) returns (copy: Frame, ghost last: string)
      requires MIN_INT <= messageIdCounter <= MAX_INT
      modifies this`messageIdCounter
      ensures StampedSoFar(message, subscriptions, old(messageIdCounter), |subscriptions|, copy, last, messageIdCounter)
    {
      copy, last := message, "";
      var todo := subscriptions.Keys;
      ghost var first, n := messageIdCounter, 0;
      while todo != {}
        invariant todo <= subscriptions.Keys && n + |todo| == |subscriptions|
        invariant MIN_INT <= messageIdCounter <= MAX_INT
        invariant StampedSoFar(message, subscriptions, first, n, copy, last, messageIdCounter)
        decreases todo
      {
        ghost var any := NotEmpty(todo);
        var d :| d in todo;
        ghost var copy0, last0, counter0 := copy, last, messageIdCounter;
        copy := StampOnce(copy, subscriptions[d]);
        last := subscriptions[d];
        StampRound(message, subscriptions, first, n, copy0, last0, counter0, d);
        todo := todo - {d};
        n := n + 1;
      }
    }

    // One round of it.
    method StampOnce(message: Frame, subscription: string) returns (copy: Frame)
      requires MIN_INT <= messageIdCounter <= MAX_INT
      modifies this`messageIdCounter
      ensures messageIdCounter == Wrap32(old(messageIdCounter) + 1)
      ensures copy == message.(headers := message.headers["subscription" := subscription]["message-id" := Decimal(old(messageIdCounter))])
    {
      copy := message.(headers := message.headers["subscription" := subscription]);
      var id := GenerateMessageId();
      copy := copy.(headers := copy.headers["message-id" := Decimal(id)]);
    }

    // The loop of `disconnect` over the channels.
    method RemoveSubscriptions(connectionId: int)
      requires Valid()
      modifies this`topicSubscribers, this`channelSubscriptions
      ensures Valid()
      ensures topicSubscribers == B.Disconnect(old(State()), connectionId, "").topics
      ensures channelSubscriptions == B.Disconnect(old(State()), connectionId, "").channels
    {
      var todo := channelSubscriptions.Keys;
      ghost var before, after := State(), B.Disconnect(State(), connectionId, "");
      while todo != {}
        invariant todo <= channelSubscriptions.Keys == topicSubscribers.Keys
        invariant PartDone(before, after, todo, topicSubscribers, channelSubscriptions)
        decreases todo
      {
        var channel :| channel in todo;
        var subscriptions := B.WithoutConnection(channelSubscriptions[channel], connectionId);
        ghost var topics, channels := topicSubscribers, channelSubscriptions;
        channelSubscriptions := channelSubscriptions[channel := subscriptions];
        if subscriptions == map[] {
          channelSubscriptions := channelSubscriptions - {channel};
          topicSubscribers := topicSubscribers - {channel};
        }
        DisconnectRound(before, connectionId, todo, topics, channels, channel);
        todo := todo - {channel};
      }
      AllDone(before, after, topicSubscribers, channelSubscriptions);
    }
  }

  // MessageFrame.copy: the topic is taken out of the destination header, and
  // the constructor puts the slash back.
  function CopyMessage(m: Frame): Frame
    requires "destination" in m.headers
  {
    B.MessageFrame(B.StripSlash(m.headers["destination"]), m.body)
  }

  function Stamped(m: Frame, subscription: string, n: int): Frame
  {
    m.(headers := m.headers["subscription" := subscription]["message-id" := Decimal(Wrap32(n))])
  }

  lemma NotEmpty<T>(s: set<T>) returns (x: T)
    requires s != {}
    ensures x in s
  {
    x :| x in s;
  }

  // The copy after n rounds of the inner loop.
  ghost predicate StampedSoFar(message: Frame, subscriptions: map<int, string>, first: int, n: nat,
                               copy: Frame, last: string, counter: int)
  {
    && counter == Wrap32(first + n)
    && if n == 0 then copy == message else B.HasId(subscriptions, last) && copy == Stamped(message, last, first + n - 1)
  }

  lemma StampRound(message: Frame, subscriptions: map<int, string>, first: int, n: nat,
                   copy: Frame, last: string, counter: int, d: int)
    requires StampedSoFar(message, subscriptions, first, n, copy, last, counter) && d in subscriptions
    ensures StampedSoFar(message, subscriptions, first, n + 1,
                         copy.(headers := copy.headers["subscription" := subscriptions[d]]["message-id" := Decimal(counter)]),
                         subscriptions[d], Wrap32(counter + 1))
  {
    WrapAgain(first + n, 1);
    Restamped(message, last, subscriptions[d], first + n - 1, first + n);
  }

  // A later stamp leaves nothing of an earlier one.
  lemma Restamped(m: Frame, early: string, late: string, i: int, j: int)
    ensures var s := Stamped(m, early, i);
      s.(headers := s.headers["subscription" := late]["message-id" := Decimal(Wrap32(j))]) == Stamped(m, late, j)
  {
    assert Stamped(m, early, i).headers["subscription" := late]["message-id" := Decimal(Wrap32(j))]
        == m.headers["subscription" := late]["message-id" := Decimal(Wrap32(j))];
  }

  // The members of the topic's set that a broadcast has been to.
  ghost predicate Visited(b: B.Broker, topic: string, todo: set<int>, visits: seq<B.Visit>)
  {
    && todo <= B.TopicSet(b, topic)
    && Enumerates(B.Connections(visits), B.TopicSet(b, topic) - todo)
    && forall i :: 0 <= i < |visits| && B.ChannelMap(b, topic) != map[] ==>
         B.HasId(B.ChannelMap(b, topic), visits[i].subscription)
  }

  lemma NothingVisited(b: B.Broker, topic: string)
    ensures Visited(b, topic, B.TopicSet(b, topic), [])
  {
    assert B.Connections([]) == [];
  }

  lemma OneMoreVisited(b: B.Broker, topic: string, todo: set<int>, visits: seq<B.Visit>, v: B.Visit)
    requires Visited(b, topic, todo, visits) && v.connection in todo
    requires B.ChannelMap(b, topic) != map[] ==> B.HasId(B.ChannelMap(b, topic), v.subscription)
    ensures Visited(b, topic, todo - {v.connection}, visits + [v])
  {
    assert B.Connections(visits + [v]) == B.Connections(visits) + [v.connection];
  }

  // What a broadcast has sent so far.
  ghost predicate SentSoFar(b: B.Broker, topic: string, body: string, todo: set<int>, visits: seq<B.Visit>,
                            out: seq<B.Delivery>, counter: int)
  {
    && Visited(b, topic, todo, visits)
    && B.Broadcast(b, topic, body, visits, b.counter) == (out, counter)
  }

  lemma NothingSent(b: B.Broker, topic: string, body: string)
    ensures SentSoFar(b, topic, body, B.TopicSet(b, topic), [], [], b.counter)
  {
    NothingVisited(b, topic);
  }

  lemma SendRound(b: B.Broker, topic: string, body: string, todo: set<int>, visits: seq<B.Visit>,
                  out: seq<B.Delivery>, counter: int, v: B.Visit, copy: Frame, counter': int)
    requires SentSoFar(b, topic, body, todo, visits, out, counter) && v.connection in todo
    requires StampedSoFar(B.MessageFrame(topic, body), B.ChannelMap(b, topic), counter, |B.ChannelMap(b, topic)|, copy,
                          v.subscription, counter')
    ensures SentSoFar(b, topic, body, todo - {v.connection}, visits + [v],
                      out + B.SendTo(b, v.connection, copy), counter')
  {
    BroadcastSnoc(b, topic, body, visits, v, b.counter, B.SendTo(b, v.connection, copy), counter');
    OneMoreVisited(b, topic, todo, visits, v);
  }

  lemma {:induction false} BroadcastSnoc(b: B.Broker, topic: string, body: string, visits: seq<B.Visit>, v: B.Visit,
                                         counter: int, here: seq<B.Delivery>, next: int)
    requires B.Sends(b, topic, body, v, B.Broadcast(b, topic, body, visits, counter).1, here, next)
    ensures B.Broadcast(b, topic, body, visits + [v], counter)
         == (B.Broadcast(b, topic, body, visits, counter).0 + here, next)
    decreases |visits|
  {
    if visits == [] {
      assert [v] + [] == visits + [v];
      B.BroadcastCons(b, topic, body, v, [], counter, here, next);
      assert [] + here == here + [];
    } else {
      var rest := visits[1..];
      var first, second := B.FirstSend(b, topic, body, visits[0], counter);
      assert [visits[0]] + (rest + [v]) == visits + [v] && [visits[0]] + rest == visits;
      B.BroadcastCons(b, topic, body, visits[0], rest, counter, first, second);
      BroadcastSnoc(b, topic, body, rest, v, second, here, next);
      B.BroadcastCons(b, topic, body, visits[0], rest + [v], counter, first, second);
      var early := B.Broadcast(b, topic, body, rest, second).0;
      assert first + (early + here) == (first + early) + here;
    }
  }

  // The two indexes in the middle of a loop over the channels: untouched where
  // the loop has still to go, final elsewhere.
  ghost predicate PartDone(before: B.Broker, after: B.Broker, todo: set<string>,
                           topics: map<string, set<int>>, channels: map<string, map<int, string>>)
  {
    && before.topics.Keys == before.channels.Keys
    && todo <= before.topics.Keys
    && forall t :: PartDoneAt(before, after, todo, topics, channels, t)
  }

  ghost predicate PartDoneAt(before: B.Broker, after: B.Broker, todo: set<string>,
                             topics: map<string, set<int>>, channels: map<string, map<int, string>>, t: string)
    requires before.topics.Keys == before.channels.Keys && todo <= before.topics.Keys
  {
    if t in todo then
      t in topics && topics[t] == before.topics[t] && t in channels && channels[t] == before.channels[t]
    else
      && (t in topics <==> t in after.topics) && (t in topics ==> topics[t] == after.topics[t])
      && (t in channels <==> t in after.channels) && (t in channels ==> channels[t] == after.channels[t])
  }

  // A round that brings channel `t` to its final state and leaves the others.
  lemma OneMoreDone(before: B.Broker, after: B.Broker, todo: set<string>,
                    topics: map<string, set<int>>, channels: map<string, map<int, string>>, t: string,
                    topics': map<string, set<int>>, channels': map<string, map<int, string>>)
    requires PartDone(before, after, todo, topics, channels) && t in todo
    requires PartDoneAt(before, after, todo - {t}, topics', channels', t)
    requires forall u :: u != t ==> (u in topics' <==> u in topics) && (u in topics ==> topics'[u] == topics[u])
    requires forall u :: u != t ==> (u in channels' <==> u in channels) && (u in channels ==> channels'[u] == channels[u])
    ensures PartDone(before, after, todo - {t}, topics', channels')
  {
    forall u ensures PartDoneAt(before, after, todo - {t}, topics', channels', u) {
      assert PartDoneAt(before, after, todo, topics, channels, u);
    }
  }

  lemma AllDone(before: B.Broker, after: B.Broker, topics: map<string, set<int>>, channels: map<string, map<int, string>>)
    requires PartDone(before, after, {}, topics, channels)
    ensures topics == after.topics && channels == after.channels
  {
    forall t
      ensures (t in topics <==> t in after.topics) && (t in topics ==> topics[t] == after.topics[t])
      ensures (t in channels <==> t in after.channels) && (t in channels ==> channels[t] == after.channels[t])
    {
      assert PartDoneAt(before, after, {}, topics, channels, t);
    }
  }

  lemma DisconnectRound(b: B.Broker, c: int, todo: set<string>,
                        topics: map<string, set<int>>, channels: map<string, map<int, string>>, t: string)
    requires PartDone(b, B.Disconnect(b, c, ""), todo, topics, channels) && t in todo && t in channels
    ensures var m := B.WithoutConnection(channels[t], c);
      PartDone(b, B.Disconnect(b, c, ""), todo - {t},
               if m == map[] then topics - {t} else topics,
               if m == map[] then channels[t := m] - {t} else channels[t := m])
  {
    var m := B.WithoutConnection(channels[t], c);
    assert PartDoneAt(b, B.Disconnect(b, c, ""), todo, topics, channels, t);
    OneMoreDone(b, B.Disconnect(b, c, ""), todo, topics, channels, t,
                if m == map[] then topics - {t} else topics,
                if m == map[] then channels[t := m] - {t} else channels[t := m]);
  }

  lemma UnsubscribeOne(b: B.Broker, c: int, id: string, t: string)
    requires t in b.topics && t in b.channels
    ensures var after := B.Unsubscribe(b, c, id);
      if B.HasId(b.channels[t], id) then
        after.topics[t] == b.topics[t] - {c} && after.channels[t] == B.WithoutId(b.channels[t], id)
      else after.topics[t] == b.topics[t] && after.channels[t] == b.channels[t]
  {
    var m := b.channels[t];
    if !B.HasId(m, id) {
      forall d | d in m ensures m[d] != id {
        assert m[d] == id ==> B.HasId(m, id);
      }
      assert B.WithoutId(m, id) == m;
    }
  }
}
