// The server's shared state and what one client frame does to it: the two
// subscription indexes, the user table, login, broadcast, receipts, errors and
// disconnects. A step is one accepted connection or one whole frame.
module Broker {
  import opened Text
  import opened Codec

  // A known login: its passcode, whether it is logged in, and the connection
  // that logged in last.
  datatype User = User(password: string, connected: bool, connectionId: int)

  // `handlers` are the connections that can still be sent to; `topics` and
  // `channels` are the two indexes (topic -> connections, and
  // topic -> connection -> subscription id).
  datatype Broker = Broker(handlers: set<int>,
                           topics: map<string, set<int>>,
                           channels: map<string, map<int, string>>,
                           users: map<string, User>,
                           counter: int)

  // One call of a connection handler's `send`.
  datatype Delivery = Delivery(to: int, frame: Frame)

  // One subscriber visited by a broadcast, with the subscription id that its
  // inner loop visited last.
  datatype Visit = Visit(connection: int, subscription: string)

  // What the hash maps leave open while one frame is processed: the order in
  // which its headers are printed, the order of a broadcast, and which user a
  // logout finds first.
  datatype Choice = Choice(headerOrder: seq<string>, visits: seq<Visit>, found: string)

  // The new state, the frames handed to connection handlers in order, and
  // whether processing ended in an exception.
  datatype Outcome = Outcome(broker: Broker, out: seq<Delivery>, threw: bool)

  function Init(): Broker
  {
    Broker({}, map[], map[], map[], 0)
  }

  // ------------------------------------------------------- server's frames

  function ConnectedFrame(): Frame
  {
    Frame("CONNECTED", map["version " := "1.2"], "")
  }

  function ReceiptFrame(receipt: string): Frame
  {
    Frame("RECEIPT", map["receipt-id" := receipt], "")
  }

  function MessageFrame(topic: string, body: string): Frame
  {
    Frame("MESSAGE", map["destination" := "/" + topic], body)
  }

  ghost function ErrorFrame(description: string, intro: string, f: Frame, order: seq<string>): Frame
    requires Enumerates(order, f.headers.Keys)
  {
    var h := map["message" := description];
    Frame("ERROR",
          if "receipt" in f.headers then h["receipt-id" := "message-" + f.headers["receipt"]] else h,
          intro + "\n-----\n" + Print(f, order) + "\n-----")
  }

  // A topic name without its leading slash.
  function StripSlash(topic: string): string
  {
    if topic != "" && topic[0] == '/' then topic[1..] else topic
  }

  // ------------------------------------------------ operations on the state

  // Sending to a connection without a handler does nothing.
  function SendTo(b: Broker, c: int, f: Frame): seq<Delivery>
  {
    if c in b.handlers then [Delivery(c, f)] else []
  }

  function WithoutConnection(m: map<int, string>, c: int): map<int, string>
  {
    m - {c}
  }

  // Drops c's subscriptions, then every channel left without any, then the
  // handler; logs out one user that has c as its connection.
  function Disconnect(b: Broker, c: int, found: string): Broker
  {
    Broker(b.handlers - {c},
           map t | t in b.topics && !(t in b.channels && WithoutConnection(b.channels[t], c) == map[]) :: b.topics[t],
           map t | t in b.channels && WithoutConnection(b.channels[t], c) != map[] :: WithoutConnection(b.channels[t], c),
           LogOut(b.users, c, found),
           b.counter)
  }

  function LogOut(users: map<string, User>, c: int, found: string): map<string, User>
  {
    if found in users && users[found].connectionId == c then users[found := users[found].(connected := false)] else users
  }

  function LogIn(users: map<string, User>, login: string, passcode: string, c: int): map<string, User>
  {
    users[login := User(if login in users then users[login].password else passcode, true, c)]
  }

  function TopicSet(b: Broker, t: string): set<int>
  {
    if t in b.topics then b.topics[t] else {}
  }

  function ChannelMap(b: Broker, t: string): map<int, string>
  {
    if t in b.channels then b.channels[t] else map[]
  }

  // A missing id is found out only after the set was changed: storing a null
  // in the second index throws.
  function Subscribe(b: Broker, t: string, id: Option<string>, c: int): (Broker, bool)
  {
    var b0 := b.(topics := b.topics[t := TopicSet(b, t)], channels := b.channels[t := ChannelMap(b, t)]);
    if c in b0.topics[t] then (b0, false)
    else
      var b1 := b0.(topics := b0.topics[t := b0.topics[t] + {c}]);
      match id
      case None => (b1, true)
      case Some(i) => (b1.(channels := b1.channels[t := b1.channels[t][c := i]]), false)
  }

  // Removes every entry with this id, whoever owns it, but takes only the
  // caller out of the first index.
  function Unsubscribe(b: Broker, c: int, id: string): Broker
  {
    b.(topics := map t | t in b.topics :: if HasId(ChannelMap(b, t), id) then b.topics[t] - {c} else b.topics[t],
       channels := map t | t in b.channels :: WithoutId(b.channels[t], id))
  }

  predicate HasId(m: map<int, string>, id: string)
  {
    exists d :: d in m && m[d] == id
  }

  function WithoutId(m: map<int, string>, id: string): map<int, string>
  {
    map d | d in m && m[d] != id :: m[d]
  }

  // One MESSAGE per visited subscriber. The inner loop runs over all `k`
  // subscription ids of the channel, taking a message id for each; the copy
  // keeps what the last round wrote.
  function MessageCopy(topic: string, body: string, k: nat, counter: int, subscription: string): Frame
  {
    var m := MessageFrame(topic, body);
    if k == 0 then m
    else m.(headers := m.headers["subscription" := subscription]["message-id" := Decimal(Wrap32(counter + k - 1))])
  }

  // Visiting the subscribers in the given order; also the counter afterwards.
  function Broadcast(b: Broker, topic: string, body: string, visits: seq<Visit>, counter: int): (seq<Delivery>, int)
    decreases |visits|
  {
    if visits == [] then ([], counter)
    else
      var k := |ChannelMap(b, topic)|;
      var here := SendTo(b, visits[0].connection, MessageCopy(topic, body, k, counter, visits[0].subscription));
      var later := Broadcast(b, topic, body, visits[1..], Wrap32(counter + k));
      (here + later.0, later.1)
  }

  // One visit of a broadcast that starts at `counter`.
  ghost predicate Sends(b: Broker, topic: string, body: string, v: Visit, counter: int,
                        here: seq<Delivery>, next: int)
  {
    var k := |ChannelMap(b, topic)|;
    here == SendTo(b, v.connection, MessageCopy(topic, body, k, counter, v.subscription)) && next == Wrap32(counter + k)
  }

  lemma BroadcastCons(b: Broker, topic: string, body: string, v: Visit, visits: seq<Visit>, counter: int,
                      here: seq<Delivery>, next: int)
    requires Sends(b, topic, body, v, counter, here, next)
    ensures var r := Broadcast(b, topic, body, visits, next);
      Broadcast(b, topic, body, [v] + visits, counter) == (here + r.0, r.1)
  {
    assert ([v] + visits)[1..] == visits;
  }

  lemma FirstSend(b: Broker, topic: string, body: string, v: Visit, counter: int)
    returns (here: seq<Delivery>, next: int)
    ensures Sends(b, topic, body, v, counter, here, next)
  {
    var k := |ChannelMap(b, topic)|;
    here, next := SendTo(b, v.connection, MessageCopy(topic, body, k, counter, v.subscription)), Wrap32(counter + k);
  }

  // ---------------------------------------------------- one frame, by command

  ghost function Fail(b: Broker, c: int, f: Frame, ch: Choice, description: string, intro: string): Outcome
    requires Enumerates(ch.headerOrder, f.headers.Keys)
  {
    Outcome(Disconnect(b, c, ch.found),
            SendTo(b, c, ErrorFrame(description, intro, f, ch.headerOrder)),
            false)
  }

  // The reason a CONNECT is turned down, if any, in the order it is tested.
  function ConnectRefusal(users: map<string, User>, f: Frame): Option<string>
  {
    if "login" !in f.headers || "passcode" !in f.headers then Some("Missing login or passcode")
    else
      var login := f.headers["login"];
      if login !in users then None
      else if users[login].connected then Some("User already logged in")
      else if users[login].password != f.headers["passcode"] then Some("Wrong password")
      else None
  }

  ghost function ProcessConnect(b: Broker, c: int, f: Frame, ch: Choice): Outcome
    requires Enumerates(ch.headerOrder, f.headers.Keys)
  {
    match ConnectRefusal(b.users, f)
    case Some(reason) => Fail(b, c, f, ch, reason, "the message:")
    case None =>
      Outcome(b.(users := LogIn(b.users, f.headers["login"], f.headers["passcode"], c)),
              SendTo(b, c, ConnectedFrame()), false)
  }

  ghost function ProcessSend(b: Broker, c: int, f: Frame, ch: Choice): Outcome
    requires Enumerates(ch.headerOrder, f.headers.Keys)
  {
    if "destination" !in f.headers || f.body == "" then Fail(b, c, f, ch, "Invalid SEND frame", "the message")
    else
      var topic := StripSlash(f.headers["destination"]);
      if topic !in b.topics then Outcome(b, [], false)
      else
        var r := Broadcast(b, topic, f.body, ch.visits, b.counter);
        Outcome(b.(counter := r.1), r.0, false)
  }

  // The reason a SUBSCRIBE is turned down, if any.
  function SubscribeRefusal(b: Broker, c: int, f: Frame): Option<string>
  {
    if "destination" !in f.headers || f.headers["destination"] == "" then
      Some("Missing or invalid topic to subscribe to")
    else if c in TopicSet(b, f.headers["destination"]) then Some("the user already subscribed to this channel")
    else None
  }

  function HeaderOption(f: Frame, key: string): Option<string>
  {
    if key in f.headers then Some(f.headers[key]) else None
  }

  ghost function ProcessSubscribe(b: Broker, c: int, f: Frame, ch: Choice): Outcome
    requires Enumerates(ch.headerOrder, f.headers.Keys)
  {
    match SubscribeRefusal(b, c, f)
    case Some(reason) => Fail(b, c, f, ch, reason, "the message")
    case None =>
      var r := Subscribe(b, f.headers["destination"], HeaderOption(f, "id"), c);
      Outcome(r.0, [], r.1)
  }

  ghost function ProcessUnsubscribe(b: Broker, c: int, f: Frame, ch: Choice): Outcome
    requires Enumerates(ch.headerOrder, f.headers.Keys)
  {
    if "id" !in f.headers then Fail(b, c, f, ch, "Missing id", "the message")
    else Outcome(Unsubscribe(b, c, f.headers["id"]), [], false)
  }

  function ProcessDisconnect(b: Broker, c: int, f: Frame, ch: Choice): Outcome
  {
    Outcome(Disconnect(b, c, ch.found),
            if "receipt" in f.headers then SendTo(b, c, ReceiptFrame(f.headers["receipt"])) else [],
            false)
  }

  // The frame's own `process`; frames other than the five client frames do
  // nothing.
  ghost function ProcessFrame(b: Broker, c: int, f: Frame, ch: Choice): Outcome
    requires Enumerates(ch.headerOrder, f.headers.Keys)
  {
    if f.command == "CONNECT" then ProcessConnect(b, c, f, ch)
    else if f.command == "SEND" then ProcessSend(b, c, f, ch)
    else if f.command == "SUBSCRIBE" then ProcessSubscribe(b, c, f, ch)
    else if f.command == "UNSUBSCRIBE" then ProcessUnsubscribe(b, c, f, ch)
    else if f.command == "DISCONNECT" then ProcessDisconnect(b, c, f, ch)
    else Outcome(b, [], false)
  }

  // The protocol around it: a receipt for every frame but DISCONNECT, unless
  // an exception ended the processing.
  ghost function Process(b: Broker, c: int, f: Frame, ch: Choice): Outcome
    requires Enumerates(ch.headerOrder, f.headers.Keys)
  {
    var o := ProcessFrame(b, c, f, ch);
    if o.threw || f.command == "DISCONNECT" || "receipt" !in f.headers then o
    else o.(out := o.out + SendTo(o.broker, c, ReceiptFrame(f.headers["receipt"])))
  }

  // A SEND that is not rejected.
  predicate Broadcasts(f: Frame)
  {
    f.command == "SEND" && "destination" in f.headers && f.body != ""
  }

  // Who may log in: a new user, or one who is logged out and knows the passcode.
  predicate MayLogIn(users: map<string, User>, f: Frame)
  {
    && "login" in f.headers && "passcode" in f.headers
    && (f.headers["login"] in users ==>
          !users[f.headers["login"]].connected && users[f.headers["login"]].password == f.headers["passcode"])
  }

  // Who may subscribe: anybody who names a topic and is not in its set.
  predicate MaySubscribe(b: Broker, c: int, f: Frame)
  {
    && "destination" in f.headers && f.headers["destination"] != ""
    && !(f.headers["destination"] in b.topics && c in b.topics[f.headers["destination"]])
  }

  // The frames answered with an ERROR.
  predicate Rejected(b: Broker, c: int, f: Frame)
  {
    || (f.command == "CONNECT" && !MayLogIn(b.users, f))
    || (f.command == "SEND" && ("destination" !in f.headers || f.body == ""))
    || (f.command == "SUBSCRIBE" && !MaySubscribe(b, c, f))
    || (f.command == "UNSUBSCRIBE" && "id" !in f.headers)
  }

  // The frames after which the connection has no handler any more.
  predicate Drops(b: Broker, c: int, f: Frame)
  {
    f.command == "DISCONNECT" || Rejected(b, c, f)
  }

  // Every other frame leaves the handlers alone, and only CONNECT touches
  // the users.
  lemma ProcessEffect(b: Broker, c: int, f: Frame, ch: Choice)
    requires Enumerates(ch.headerOrder, f.headers.Keys)
    ensures Drops(b, c, f) ==> Process(b, c, f, ch).broker == Disconnect(b, c, ch.found)
    ensures !Drops(b, c, f) ==> Process(b, c, f, ch).broker.handlers == b.handlers
    ensures !Drops(b, c, f) && f.command != "CONNECT" ==> Process(b, c, f, ch).broker.users == b.users
    ensures !Drops(b, c, f) && f.command !in {"SUBSCRIBE", "UNSUBSCRIBE"} ==>
      Process(b, c, f, ch).broker.topics == b.topics && Process(b, c, f, ch).broker.channels == b.channels
  {
    if Drops(b, c, f) {
      DropEffect(b, c, f, ch);
    } else if f.command == "CONNECT" {
      ConnectEffect(b, c, f, ch);
    } else if f.command == "SUBSCRIBE" {
      SubscribeEffect(b, c, f, ch);
    } else if f.command == "UNSUBSCRIBE" {
      UnsubscribeEffect(b, c, f, ch);
    } else {
      OtherEffect(b, c, f, ch);
    }
  }

  lemma DropEffect(b: Broker, c: int, f: Frame, ch: Choice)
    requires Enumerates(ch.headerOrder, f.headers.Keys) && Drops(b, c, f)
    ensures Process(b, c, f, ch).broker == Disconnect(b, c, ch.found)
  {
  }

  lemma ConnectEffect(b: Broker, c: int, f: Frame, ch: Choice)
    requires Enumerates(ch.headerOrder, f.headers.Keys) && !Drops(b, c, f) && f.command == "CONNECT"
    ensures Process(b, c, f, ch).broker == b.(users := LogIn(b.users, f.headers["login"], f.headers["passcode"], c))
  {
  }

  lemma SubscribeEffect(b: Broker, c: int, f: Frame, ch: Choice)
    requires Enumerates(ch.headerOrder, f.headers.Keys) && !Drops(b, c, f) && f.command == "SUBSCRIBE"
    ensures Process(b, c, f, ch).broker == Subscribe(b, f.headers["destination"], HeaderOption(f, "id"), c).0
    ensures Process(b, c, f, ch).broker.handlers == b.handlers && Process(b, c, f, ch).broker.users == b.users
  {
  }

  lemma UnsubscribeEffect(b: Broker, c: int, f: Frame, ch: Choice)
    requires Enumerates(ch.headerOrder, f.headers.Keys) && !Drops(b, c, f) && f.command == "UNSUBSCRIBE"
    ensures Process(b, c, f, ch).broker == Unsubscribe(b, c, f.headers["id"])
    ensures Process(b, c, f, ch).broker.handlers == b.handlers && Process(b, c, f, ch).broker.users == b.users
  {
  }

  lemma OtherEffect(b: Broker, c: int, f: Frame, ch: Choice)
    requires Enumerates(ch.headerOrder, f.headers.Keys) && !Drops(b, c, f)
    requires f.command != "CONNECT" && f.command != "SUBSCRIBE" && f.command != "UNSUBSCRIBE"
    ensures Process(b, c, f, ch).broker == b.(counter := Process(b, c, f, ch).broker.counter)
  {
  }

  lemma SendEffect(b: Broker, c: int, f: Frame, ch: Choice)
    requires Enumerates(ch.headerOrder, f.headers.Keys)
    requires Broadcasts(f)
    ensures var topic := StripSlash(f.headers["destination"]);
      Process(b, c, f, ch).broker
        == if topic in b.topics then b.(counter := Broadcast(b, topic, f.body, ch.visits, b.counter).1) else b
  {
  }

  // The command of the frame's own answer to its sender, "" for none.
  function Answer(b: Broker, c: int, f: Frame): string
  {
    if Rejected(b, c, f) then "ERROR"
    else if f.command == "CONNECT" then "CONNECTED"
    else if f.command == "DISCONNECT" && "receipt" in f.headers then "RECEIPT"
    else ""
  }

  // One delivery to `c` with this command, or none.
  predicate OneTo(out: seq<Delivery>, c: int, command: string, sent: bool)
  {
    if sent then |out| == 1 && out[0].to == c && out[0].frame.command == command else out == []
  }

  // A frame that is not broadcast is answered to its sender, if that can be
  // reached, by exactly its answer; a rejected sender is gone afterwards.
  lemma FrameReplies(b: Broker, c: int, f: Frame, ch: Choice)
    requires Enumerates(ch.headerOrder, f.headers.Keys) && !Broadcasts(f)
    ensures OneTo(ProcessFrame(b, c, f, ch).out, c, Answer(b, c, f), c in b.handlers && Answer(b, c, f) != "")
    ensures Rejected(b, c, f) ==> c !in ProcessFrame(b, c, f, ch).broker.handlers
  {
    if Rejected(b, c, f) {
      RejectedReply(b, c, f, ch);
    } else if f.command == "CONNECT" || f.command == "DISCONNECT" {
      SessionReply(b, c, f, ch);
    } else {
      NoReply(b, c, f, ch);
    }
  }

  lemma RejectedReply(b: Broker, c: int, f: Frame, ch: Choice)
    requires Enumerates(ch.headerOrder, f.headers.Keys) && Rejected(b, c, f)
    ensures OneTo(ProcessFrame(b, c, f, ch).out, c, "ERROR", c in b.handlers)
    ensures c !in ProcessFrame(b, c, f, ch).broker.handlers
  {
  }

  lemma SessionReply(b: Broker, c: int, f: Frame, ch: Choice)
    requires Enumerates(ch.headerOrder, f.headers.Keys) && !Rejected(b, c, f)
    requires f.command == "CONNECT" || f.command == "DISCONNECT"
    ensures OneTo(ProcessFrame(b, c, f, ch).out, c, Answer(b, c, f), c in b.handlers && Answer(b, c, f) != "")
  {
  }

  lemma NoReply(b: Broker, c: int, f: Frame, ch: Choice)
    requires Enumerates(ch.headerOrder, f.headers.Keys) && !Rejected(b, c, f) && !Broadcasts(f)
    requires f.command != "CONNECT" && f.command != "DISCONNECT"
    ensures ProcessFrame(b, c, f, ch).out == [] && Answer(b, c, f) == ""
  {
  }

  // And by at most a RECEIPT after it, which never follows an ERROR.
  lemma ProcessReplies(b: Broker, c: int, f: Frame, ch: Choice) returns (own: seq<Delivery>, receipts: seq<Delivery>)
    requires Enumerates(ch.headerOrder, f.headers.Keys) && !Broadcasts(f)
    ensures Process(b, c, f, ch).out == own + receipts
    ensures OneTo(own, c, Answer(b, c, f), c in b.handlers && Answer(b, c, f) != "")
    ensures OneTo(receipts, c, "RECEIPT", receipts != []) && (Rejected(b, c, f) ==> receipts == [])
  {
    var o := ProcessFrame(b, c, f, ch);
    FrameReplies(b, c, f, ch);
    own := o.out;
    receipts := if o.threw || f.command == "DISCONNECT" || "receipt" !in f.headers then []
                else SendTo(o.broker, c, ReceiptFrame(f.headers["receipt"]));
    assert own + [] == own;
  }

  // ------------------------------------------------------- legal choices

  ghost predicate LegalFound(users: map<string, User>, c: int, found: string)
  {
    (exists u :: u in users && users[u].connectionId == c) ==>
      found in users && users[found].connectionId == c
  }

  function Connections(visits: seq<Visit>): (r: seq<int>)
    ensures |r| == |visits| && forall i :: 0 <= i < |r| ==> r[i] == visits[i].connection
  {
    seq(|visits|, i requires 0 <= i < |visits| => visits[i].connection)
  }

  // A broadcast visits each member of the topic's set once, and its inner
  // loop ends on one of the channel's ids.
  ghost predicate LegalVisits(b: Broker, topic: string, visits: seq<Visit>)
  {
    && Enumerates(Connections(visits), TopicSet(b, topic))
    && forall i :: 0 <= i < |visits| && ChannelMap(b, topic) != map[] ==>
         HasId(ChannelMap(b, topic), visits[i].subscription)
  }

  ghost predicate LegalChoice(b: Broker, c: int, f: Frame, ch: Choice)
  {
    && Enumerates(ch.headerOrder, f.headers.Keys)
    && LegalFound(b.users, c, ch.found)
    && (Broadcasts(f) ==>
          LegalVisits(b, StripSlash(f.headers["destination"]), ch.visits))
  }

  // ----------------------------------------------------- the whole server

  // `nextId` is the int counter of connection ids; `seen` remembers every id
  // ever registered.
  datatype Server = Server(broker: Broker, nextId: int, seen: set<int>)

  datatype Event = Accept | Inbound(c: int, frame: Frame, choice: Choice)

  function InitServer(): Server
  {
    Server(Init(), 0, {})
  }

  // Frames come only from accepted connections, also after their handler is
  // gone.
  ghost predicate Legal(s: Server, e: Event)
  {
    match e
    case Accept => true
    case Inbound(c, f, ch) => c in s.seen && LegalChoice(s.broker, c, f, ch)
  }

  ghost function StepOut(s: Server, e: Event): seq<Delivery>
    requires Legal(s, e)
  {
    match e
    case Accept => []
    case Inbound(c, f, ch) => Process(s.broker, c, f, ch).out
  }

  ghost function Step(s: Server, e: Event): Server
    requires Legal(s, e)
  {
    match e
    case Accept =>
      Server(s.broker.(handlers := s.broker.handlers + {s.nextId}), Wrap32(s.nextId + 1), s.seen + {s.nextId})
    case Inbound(c, f, ch) => s.(broker := Process(s.broker, c, f, ch).broker)
  }

  // Runs are event lists, built by appending.
  ghost predicate LegalRun(es: seq<Event>)
    decreases |es|, 0
  {
    es == [] || (LegalRun(es[..|es| - 1]) && Legal(Run(es[..|es| - 1]), es[|es| - 1]))
  }

  ghost function Run(es: seq<Event>): Server
    requires LegalRun(es)
    decreases |es|, 1
  {
    if es == [] then InitServer() else Step(Run(es[..|es| - 1]), es[|es| - 1])
  }

  // Everything handed to connection handlers during a run.
  ghost function Out(es: seq<Event>): seq<Delivery>
    requires LegalRun(es)
  {
    if es == [] then [] else Out(es[..|es| - 1]) + StepOut(Run(es[..|es| - 1]), es[|es| - 1])
  }

  function Accepts(es: seq<Event>): nat
  {
    if es == [] then 0 else Accepts(es[..|es| - 1]) + (if es[|es| - 1].Accept? then 1 else 0)
  }

  // ---------------------------------------------------- general run lemmas

  lemma {:induction false} LegalPrefix(es: seq<Event>, n: nat)
    requires LegalRun(es) && n <= |es|
    ensures LegalRun(es[..n])
  {
    if n < |es| {
      LegalPrefix(es[..|es| - 1], n);
      assert es[..|es| - 1][..n] == es[..n];
    } else {
      assert es[..n] == es;
    }
  }

  // The n-th step of a run.
  lemma RunStep(es: seq<Event>, n: nat)
    requires LegalRun(es) && n < |es|
    ensures LegalRun(es[..n]) && LegalRun(es[..n + 1]) && Legal(Run(es[..n]), es[n])
    ensures Run(es[..n + 1]) == Step(Run(es[..n]), es[n])
    ensures Out(es[..n + 1]) == Out(es[..n]) + StepOut(Run(es[..n]), es[n])
  {
    LegalPrefix(es, n);
    LegalPrefix(es, n + 1);
    assert es[..n + 1][..n] == es[..n];
  }

  // The state before the n-th event of a run.
  ghost function At(es: seq<Event>, n: nat): Server
    requires LegalRun(es) && n <= |es|
  {
    LegalPrefix(es, n);
    Run(es[..n])
  }

  lemma AtStep(es: seq<Event>, n: nat)
    requires LegalRun(es) && n < |es|
    ensures Legal(At(es, n), es[n]) && At(es, n + 1) == Step(At(es, n), es[n])
  {
    RunStep(es, n);
  }
}
