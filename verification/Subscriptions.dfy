// The two subscription indexes against one simple relation.
module Subscriptions {
  import opened Text
  import opened Codec
  import opened Broker

  // The simple view: for each connection that can still be sent to, its
  // topics and the subscription id it gave for each.
  type Live = map<int, map<string, string>>

  function Abs(b: Broker): Live
  {
    map c | c in b.handlers :: TopicsOf(b, c)
  }

  function TopicsOf(b: Broker, c: int): map<string, string>
  {
    map t | t in b.channels && c in b.channels[t] :: b.channels[t][c]
  }

  // The two indexes agree: same channels, second contained in first, and the
  // same for every connection that still has a handler.
  predicate Agree(b: Broker)
  {
    && b.topics.Keys == b.channels.Keys
    && (forall t, c :: t in b.channels && c in b.channels[t] ==> c in b.topics[t])
    && (forall t, c :: t in b.topics && c in b.topics[t] && c in b.handlers ==> c in b.channels[t])
  }

  // What one frame of `c` does in the simple view; `refused` says that a
  // CONNECT is turned down.
  function Simple(a: Live, c: int, f: Frame, refused: bool): Live
  {
    if c !in a then a
    else if f.command == "CONNECT" then
      if refused then a - {c} else a
    else if f.command == "SEND" then
      if "destination" !in f.headers || f.body == "" then a - {c} else a
    else if f.command == "SUBSCRIBE" then
      if "destination" !in f.headers || f.headers["destination"] == "" || f.headers["destination"] in a[c] then a - {c}
      else if "id" !in f.headers then a
      else a[c := a[c][f.headers["destination"] := f.headers["id"]]]
    else if f.command == "UNSUBSCRIBE" then
      if "id" !in f.headers then a - {c}
      else a[c := map t | t in a[c] && a[c][t] != f.headers["id"] :: a[c][t]]
    else if f.command == "DISCONNECT" then a - {c}
    else a
  }

  // The guard a frame has to pass for the indexes to go on agreeing: a
  // SUBSCRIBE that is let through by a live connection carries an id, and an
  // UNSUBSCRIBE names an id that nobody else alive holds (and nobody at all
  // on a channel where the caller holds a different one).
  predicate Harmless(b: Broker, c: int, f: Frame)
  {
    && (f.command == "SUBSCRIBE" && MaySubscribe(b, c, f) ==> "id" in f.headers || c !in b.handlers)
    && (f.command == "UNSUBSCRIBE" && "id" in f.headers ==> UnsubscribeSafe(b, c, f.headers["id"]))
  }

  predicate UnsubscribeSafe(b: Broker, c: int, id: string)
  {
    forall t, d :: t in b.channels && d in b.channels[t] ==> SafeAt(b, c, id, t, d)
  }

  // The holder `d` of `id` on `t` is the caller, or a connection without a
  // handler on a channel where the caller holds no other id.
  predicate SafeAt(b: Broker, c: int, id: string, t: string, d: int)
    requires t in b.channels && d in b.channels[t]
  {
    b.channels[t][d] == id ==>
      d == c || (d !in b.handlers && (c in b.channels[t] ==> b.channels[t][c] == id))
  }

  lemma DisconnectAgrees(b: Broker, c: int, found: string)
    requires Agree(b)
    ensures Agree(Disconnect(b, c, found))
    ensures Abs(Disconnect(b, c, found)) == Abs(b) - {c}
  {
    var b' := Disconnect(b, c, found);
    forall d | d in b'.handlers
      ensures TopicsOf(b', d) == TopicsOf(b, d)
    {
      assert d != c;
      forall t | t in b.channels && d in b.channels[t]
        ensures t in b'.channels
      {
        assert d in WithoutConnection(b.channels[t], c);
      }
    }
  }

  // SUBSCRIBE keeps the agreement exactly when it carries an id or comes from
  // a connection without a handler.
  lemma SubscribeAgrees(b: Broker, c: int, t: string, id: Option<string>)
    requires Agree(b) && c !in TopicSet(b, t)
    ensures Agree(Subscribe(b, t, id, c).0) <==> id.Some? || c !in b.handlers
  {
    var b' := Subscribe(b, t, id, c).0;
    assert c in b'.topics[t];
    assert id.None? ==> c !in b'.channels[t];
  }

  lemma SubscribeAbs(b: Broker, c: int, t: string, id: Option<string>)
    requires Agree(b) && c !in TopicSet(b, t)
    ensures Abs(Subscribe(b, t, id, c).0)
         == if c in b.handlers && id.Some? then Abs(b)[c := TopicsOf(b, c)[t := id.value]] else Abs(b)
  {
    var b' := Subscribe(b, t, id, c).0;
    forall d | d in b.handlers
      ensures TopicsOf(b', d) == if d == c && id.Some? then TopicsOf(b, d)[t := id.value] else TopicsOf(b, d)
    {
      SubscribeTopicsOf(b, c, t, id, d);
    }
  }

  lemma SubscribeTopicsOf(b: Broker, c: int, t: string, id: Option<string>, d: int)
    requires c !in TopicSet(b, t)
    ensures TopicsOf(Subscribe(b, t, id, c).0, d)
         == if d == c && id.Some? then TopicsOf(b, d)[t := id.value] else TopicsOf(b, d)
  {
    var b', m := Subscribe(b, t, id, c).0, if id.Some? then ChannelMap(b, t)[c := id.value] else ChannelMap(b, t);
    SubscribeChannels(b, c, t, id);
    forall u
      ensures u in TopicsOf(b', d) <==> if u == t then d in m else u in TopicsOf(b, d)
      ensures u in TopicsOf(b', d) ==> TopicsOf(b', d)[u] == if u == t then m[d] else TopicsOf(b, d)[u]
    {
      assert u == t || (u in b'.channels <==> u in b.channels);
    }
  }

  lemma SubscribeChannels(b: Broker, c: int, t: string, id: Option<string>)
    requires c !in TopicSet(b, t)
    ensures Subscribe(b, t, id, c).0.channels
         == b.channels[t := if id.Some? then ChannelMap(b, t)[c := id.value] else ChannelMap(b, t)]
  {
    assert b.channels[t := ChannelMap(b, t)][t := ChannelMap(b, t)] == b.channels[t := ChannelMap(b, t)];
  }

  // UNSUBSCRIBE keeps the agreement exactly when its id is safe.
  lemma UnsubscribeAgrees(b: Broker, c: int, id: string)
    requires Agree(b)
    ensures Agree(Unsubscribe(b, c, id)) <==> UnsubscribeSafe(b, c, id)
  {
    var b' := Unsubscribe(b, c, id);
    if UnsubscribeSafe(b, c, id) {
      forall t, d | t in b'.channels && d in b'.channels[t]
        ensures d in b'.topics[t]
      {
        if h :| h in b.channels[t] && b.channels[t][h] == id {
          assert SafeAt(b, c, id, t, h);
        }
      }
      forall t, d | t in b'.topics && d in b'.topics[t] && d in b'.handlers
        ensures d in b'.channels[t]
      {
        assert SafeAt(b, c, id, t, d);
      }
    } else {
      var t, d :| t in b.channels && d in b.channels[t] && !SafeAt(b, c, id, t, d);
      assert HasId(ChannelMap(b, t), id);
      assert d !in b'.channels[t];
      if d in b.handlers {
        assert d in b'.topics[t];
      } else {
        assert c in b'.channels[t];
      }
    }
  }

  lemma UnsubscribeAbs(b: Broker, c: int, id: string)
    requires Agree(b) && UnsubscribeSafe(b, c, id)
    ensures Abs(Unsubscribe(b, c, id))
         == if c in b.handlers then Abs(b)[c := map t | t in TopicsOf(b, c) && TopicsOf(b, c)[t] != id :: TopicsOf(b, c)[t]]
            else Abs(b)
  {
    var b' := Unsubscribe(b, c, id);
    var left := map t | t in TopicsOf(b, c) && TopicsOf(b, c)[t] != id :: TopicsOf(b, c)[t];
    forall d | d in b.handlers
      ensures TopicsOf(b', d) == if d == c then left else TopicsOf(b, d)
    {
      assert forall t :: t in b.channels && d in b.channels[t] ==> SafeAt(b, c, id, t, d);
    }
  }

  // One frame: agreement is kept exactly when the frame is harmless.
  lemma FrameAgrees(b: Broker, c: int, f: Frame, ch: Choice)
    requires Agree(b) && LegalChoice(b, c, f, ch)
    ensures Agree(Process(b, c, f, ch).broker) <==> Harmless(b, c, f)
  {
    ProcessEffect(b, c, f, ch);
    if Drops(b, c, f) {
      DisconnectAgrees(b, c, ch.found);
    } else if f.command == "SUBSCRIBE" {
      SubscribeAgrees(b, c, f.headers["destination"], HeaderOption(f, "id"));
    } else if f.command == "UNSUBSCRIBE" {
      UnsubscribeAgrees(b, c, f.headers["id"]);
    }
  }

  // One harmless frame does to the indexes what it does in the simple view.
  lemma FrameSimulates(b: Broker, c: int, f: Frame, ch: Choice)
    requires Agree(b) && LegalChoice(b, c, f, ch) && Harmless(b, c, f)
    ensures Abs(Process(b, c, f, ch).broker) == Simple(Abs(b), c, f, !MayLogIn(b.users, f))
  {
    ProcessEffect(b, c, f, ch);
    SimpleDrops(b, c, f);
    if Drops(b, c, f) {
      DisconnectAgrees(b, c, ch.found);
    } else if f.command == "SUBSCRIBE" {
      SubscribeAbs(b, c, f.headers["destination"], HeaderOption(f, "id"));
    } else if f.command == "UNSUBSCRIBE" {
      UnsubscribeAbs(b, c, f.headers["id"]);
    } else {
      SameTopicsOf(b, Process(b, c, f, ch).broker);
    }
  }

  lemma SameTopicsOf(b: Broker, b': Broker)
    requires b'.channels == b.channels && b'.handlers == b.handlers
    ensures Abs(b') == Abs(b)
  {
    assert forall d :: d in b.handlers ==> TopicsOf(b', d) == TopicsOf(b, d);
  }

  // The simple view drops a connection for the same frames.
  lemma SimpleDrops(b: Broker, c: int, f: Frame)
    requires Agree(b)
    ensures Drops(b, c, f) ==> Simple(Abs(b), c, f, !MayLogIn(b.users, f)) == Abs(b) - {c}
    ensures !Drops(b, c, f) && f.command == "SUBSCRIBE" && c in b.handlers ==> f.headers["destination"] !in Abs(b)[c]
  {
    if c !in b.handlers {
      assert Abs(b) - {c} == Abs(b);
    } else if f.command == "SUBSCRIBE" && "destination" in f.headers {
      var t := f.headers["destination"];
      assert c in TopicSet(b, t) <==> t in TopicsOf(b, c);
    }
  }
}
