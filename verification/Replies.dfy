// What a client is told, frame by frame: the texts and headers of the server's
// answers, spelled out for every case.
module Replies {
  import opened Text
  import opened Codec
  import opened Broker
  import opened Subscriptions
  import opened Runs

  // ------------------------------------------------------------------ CONNECT

  predicate Welcomed(out: seq<Delivery>, c: int)
  {
    out != [] && out[0] == Delivery(c, Frame("CONNECTED", map["version " := "1.2"], ""))
  }

  // A CONNECT from a connection that can be reached is answered CONNECTED if
  // and only if it has both headers and its login is unknown, or the user of
  // that name is not connected and has that passcode. The user is then
  // connected over it and nothing else changes; a refusal connects nobody.
  lemma ConnectAnswered(b: Broker, c: int, f: Frame, ch: Choice)
    requires f.command == "CONNECT" && c in b.handlers && Enumerates(ch.headerOrder, f.headers.Keys)
    ensures var o := Process(b, c, f, ch);
      && (Welcomed(o.out, c) <==>
            && "login" in f.headers && "passcode" in f.headers
            && var login, passcode := f.headers["login"], f.headers["passcode"];
               login !in b.users || (!b.users[login].connected && b.users[login].password == passcode))
      && (Welcomed(o.out, c) ==>
            o.broker == b.(users := b.users[f.headers["login"] := User(f.headers["passcode"], true, c)]))
      && (!Welcomed(o.out, c) ==> forall u :: IsConnected(o.broker.users, u) ==> IsConnected(b.users, u))
  {
    if MayLogIn(b.users, f) {
      ConnectEffect(b, c, f, ch);
      LoggedInNow(b.users, f, c);
    } else {
      DropEffect(b, c, f, ch);
    }
  }

  predicate IsConnected(users: map<string, User>, u: string)
  {
    u in users && users[u].connected
  }

  lemma LoggedInNow(users: map<string, User>, f: Frame, c: int)
    requires MayLogIn(users, f)
    ensures LogIn(users, f.headers["login"], f.headers["passcode"], c)
         == users[f.headers["login"] := User(f.headers["passcode"], true, c)]
  {
  }

  // -------------------------------------------------------------------- ERROR

  // `body` is the first line, a rule, the frame as it is printed in some header
  // order with its NUL, and a rule.
  ghost predicate Quotes(body: string, first: string, f: Frame)
  {
    exists order :: Enumerates(order, f.headers.Keys) && body == QuoteOf(first, f, order)
  }

  ghost function QuoteOf(first: string, f: Frame, order: seq<string>): string
    requires Enumerates(order, f.headers.Keys)
  {
    first + "\n-----\n" + (PrintText(f, order) + "\0") + "\n-----"
  }

  // An ERROR about `f` and nothing else.
  ghost predicate OneError(out: seq<Delivery>, c: int, f: Frame, message: string, first: string)
  {
    && |out| == 1 && out[0].to == c && out[0].frame.command == "ERROR"
    && ErrorHeaders(out[0].frame.headers, f, message) && Quotes(out[0].frame.body, first, f)
  }

  predicate ErrorHeaders(h: map<string, string>, f: Frame, message: string)
  {
    if "receipt" in f.headers then h == map["message" := message, "receipt-id" := "message-" + f.headers["receipt"]]
    else h == map["message" := message]
  }

  lemma FailSays(b: Broker, c: int, f: Frame, ch: Choice, description: string, intro: string)
    requires Enumerates(ch.headerOrder, f.headers.Keys) && c in b.handlers
    ensures OneError(Fail(b, c, f, ch, description, intro).out, c, f, description, intro)
  {
    var e := ErrorFrame(description, intro, f, ch.headerOrder);
    assert e.body == QuoteOf(intro, f, ch.headerOrder);
    assert ErrorHeaders(e.headers, f, description);
  }

  // Whichever test a CONNECT fails, and in this order.
  lemma ConnectErrors(b: Broker, c: int, f: Frame, ch: Choice)
    requires f.command == "CONNECT" && c in b.handlers && Enumerates(ch.headerOrder, f.headers.Keys)
    ensures var out := Process(b, c, f, ch).out;
      if "login" !in f.headers || "passcode" !in f.headers then OneError(out, c, f, "Missing login or passcode", "the message:")
      else
        var login := f.headers["login"];
        && (IsConnected(b.users, login) ==> OneError(out, c, f, "User already logged in", "the message:"))
        && (login in b.users && !b.users[login].connected && b.users[login].password != f.headers["passcode"] ==>
              OneError(out, c, f, "Wrong password", "the message:"))
  {
    if !MayLogIn(b.users, f) {
      FailSays(b, c, f, ch, ConnectRefusal(b.users, f).value, "the message:");
      RefusedOut(b, c, f, ch);
    }
  }

  lemma RefusedOut(b: Broker, c: int, f: Frame, ch: Choice)
    requires f.command == "CONNECT" && Enumerates(ch.headerOrder, f.headers.Keys) && ConnectRefusal(b.users, f).Some?
    requires c in b.handlers
    ensures Process(b, c, f, ch).out == Fail(b, c, f, ch, ConnectRefusal(b.users, f).value, "the message:").out
  {
    NoneAfterFail(b, c, f, ch, ConnectRefusal(b.users, f).value, "the message:");
  }

  // A client that failed has no handler for a RECEIPT.
  lemma NoneAfterFail(b: Broker, c: int, f: Frame, ch: Choice, description: string, intro: string)
    requires Enumerates(ch.headerOrder, f.headers.Keys)
    ensures forall g :: SendTo(Fail(b, c, f, ch, description, intro).broker, c, g) == []
  {
  }

  lemma SendErrors(b: Broker, c: int, f: Frame, ch: Choice)
    requires f.command == "SEND" && c in b.handlers && Enumerates(ch.headerOrder, f.headers.Keys)
    requires "destination" !in f.headers || f.body == ""
    ensures OneError(Process(b, c, f, ch).out, c, f, "Invalid SEND frame", "the message")
  {
    FailSays(b, c, f, ch, "Invalid SEND frame", "the message");
    NoneAfterFail(b, c, f, ch, "Invalid SEND frame", "the message");
  }

  lemma SubscribeErrors(b: Broker, c: int, f: Frame, ch: Choice)
    requires f.command == "SUBSCRIBE" && c in b.handlers && Enumerates(ch.headerOrder, f.headers.Keys)
    ensures var out := Process(b, c, f, ch).out;
      if "destination" !in f.headers || f.headers["destination"] == "" then
        OneError(out, c, f, "Missing or invalid topic to subscribe to", "the message")
      else
        f.headers["destination"] in b.topics && c in b.topics[f.headers["destination"]] ==>
          OneError(out, c, f, "the user already subscribed to this channel", "the message")
  {
    if !MaySubscribe(b, c, f) {
      FailSays(b, c, f, ch, SubscribeRefusal(b, c, f).value, "the message");
      NoneAfterFail(b, c, f, ch, SubscribeRefusal(b, c, f).value, "the message");
    }
  }

  lemma UnsubscribeErrors(b: Broker, c: int, f: Frame, ch: Choice)
    requires f.command == "UNSUBSCRIBE" && c in b.handlers && Enumerates(ch.headerOrder, f.headers.Keys)
    requires "id" !in f.headers
    ensures OneError(Process(b, c, f, ch).out, c, f, "Missing id", "the message")
  {
    FailSays(b, c, f, ch, "Missing id", "the message");
    NoneAfterFail(b, c, f, ch, "Missing id", "the message");
  }

  // Every rejected frame gets its one ERROR: a text for the first test that it
  // fails, the receipt it asked for, and the frame itself.
  lemma ErrorSays(b: Broker, c: int, f: Frame, ch: Choice) returns (message: string, first: string)
    requires Rejected(b, c, f) && c in b.handlers && Enumerates(ch.headerOrder, f.headers.Keys)
    ensures OneError(Process(b, c, f, ch).out, c, f, message, first)
    ensures first == if f.command == "CONNECT" then "the message:" else "the message"
    ensures message == (match f.command
      case "CONNECT" =>
        if "login" !in f.headers || "passcode" !in f.headers then "Missing login or passcode"
        else if IsConnected(b.users, f.headers["login"]) then "User already logged in" else "Wrong password"
      case "SEND" => "Invalid SEND frame"
      case "SUBSCRIBE" =>
        if "destination" !in f.headers || f.headers["destination"] == "" then "Missing or invalid topic to subscribe to"
        else "the user already subscribed to this channel"
      case _ => "Missing id")
  {
    match f.command
    case "CONNECT" =>
      ConnectErrors(b, c, f, ch);
      first := "the message:";
      message := if "login" !in f.headers || "passcode" !in f.headers then "Missing login or passcode"
        else if IsConnected(b.users, f.headers["login"]) then "User already logged in" else "Wrong password";
    case "SEND" =>
      SendErrors(b, c, f, ch);
      message, first := "Invalid SEND frame", "the message";
    case "SUBSCRIBE" =>
      SubscribeErrors(b, c, f, ch);
      first := "the message";
      message := if "destination" !in f.headers || f.headers["destination"] == "" then "Missing or invalid topic to subscribe to"
        else "the user already subscribed to this channel";
    case _ =>
      UnsubscribeErrors(b, c, f, ch);
      message, first := "Missing id", "the message";
  }

  // ------------------------------------------------------ the other answers

  // The RECEIPT that a frame asks for.
  function ReceiptFor(c: int, f: Frame): seq<Delivery>
  {
    if "receipt" in f.headers then [Delivery(c, Frame("RECEIPT", map["receipt-id" := f.headers["receipt"]], ""))] else []
  }

  // What a client that can be reached is told about a frame that went well and
  // is not broadcast.
  lemma AcceptedSays(b: Broker, c: int, f: Frame, ch: Choice)
    requires !Rejected(b, c, f) && !Idless(f) && f.command != "SEND" && c in b.handlers
    requires Enumerates(ch.headerOrder, f.headers.Keys)
    ensures Process(b, c, f, ch).out
         == (if f.command == "CONNECT" then [Delivery(c, Frame("CONNECTED", map["version " := "1.2"], ""))] else [])
            + ReceiptFor(c, f)
  {
    if f.command == "CONNECT" {
      ConnectEffect(b, c, f, ch);
    } else if f.command == "SUBSCRIBE" {
      SubscribeEffect(b, c, f, ch);
    }
  }

  // The topic of a SEND is its destination without one leading slash, and the
  // destination of the MESSAGE has one again.
  lemma SendSays(b: Broker, c: int, f: Frame, ch: Choice, topic: string)
    requires Agree(b) && LegalChoice(b, c, f, ch)
    requires f.command == "SEND" && f.body != "" && "destination" in f.headers
    requires f.headers["destination"] == "/" + topic
      || (f.headers["destination"] == topic && (topic == "" || topic[0] != '/'))
    ensures var out := ProcessFrame(b, c, f, ch).out;
      && Enumerates(Recipients(out), Subscribers(Abs(b), topic))
      && (forall d :: d in out ==> IsMessage(d.frame, topic, f.body))
      && Process(b, c, f, ch).out == out + (if c in b.handlers then ReceiptFor(c, f) else [])
  {
    assert StripSlash(f.headers["destination"]) == topic by { assert ("/" + topic)[1..] == topic; }
    BroadcastRefines(b, c, f, ch);
    var out := ProcessFrame(b, c, f, ch).out;
    assert out + [] == out;
  }
}
