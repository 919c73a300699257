// The protocol object that processes one client's frames, and the frames'
// own `process` methods, proved against the broker's step.
module Protocol {
  import opened Text
  import opened Codec
  import opened FrameCodec
  import opened Server
  import B = Broker

  class StompMessagesProtocol {
    var connectionId: int
    const connections: ConnectionsImpl
    var shouldTerminate: bool

    constructor (connections: ConnectionsImpl, connectionId: int)
      ensures this.connections == connections && this.connectionId == connectionId && !shouldTerminate
    {
      this.connections, this.connectionId := connections, connectionId;
      shouldTerminate := false;
    }

    // Two states and what was sent in between are the given outcome.
    twostate predicate Applied(o: B.Outcome)
      reads connections, connections.storage, connections.storage.users.Values
    {
      && connections.Valid()
      && connections.State() == o.broker
      && connections.delivered == old(connections.delivered) + o.out
    }

    // `threw` is an exception leaving the method, `ch` what the hash maps
    // chose on the way. DISCONNECT alone sets the flag, since no client frame
    // is an ERROR.
    method Process(message: StompFrame) returns (threw: bool, ghost ch: B.Choice)
      requires connections.Valid()
      modifies this`shouldTerminate, connections, connections.storage, connections.storage.users.Values
      ensures B.LegalChoice(old(connections.State()), connectionId, message.Value(), ch)
      ensures Applied(B.Process(old(connections.State()), connectionId, message.Value(), ch))
      ensures threw == B.Process(old(connections.State()), connectionId, message.Value(), ch).threw
      ensures shouldTerminate == (old(shouldTerminate) || message.command == "DISCONNECT")
    {
      threw, ch := ProcessFrame(message);
      if threw {
        return;
      }
      if message.command == "DISCONNECT" {
        shouldTerminate := true;
      } else if "receipt" in message.headers {
        ghost var o := B.ProcessFrame(old(connections.State()), connectionId, message.Value(), ch);
        var receipt := B.ReceiptFrame(message.headers["receipt"]);
        var _ := connections.Send(connectionId, receipt);
        Regroup(old(connections.delivered), o.out, B.SendTo(o.broker, connectionId, receipt));
      }
    }

    // The frame's own `process`, chosen by its class.
    method ProcessFrame(message: StompFrame) returns (threw: bool, ghost ch: B.Choice)
      requires connections.Valid()
      modifies connections, connections.storage, connections.storage.users.Values
      ensures B.LegalChoice(old(connections.State()), connectionId, message.Value(), ch)
      ensures Applied(B.ProcessFrame(old(connections.State()), connectionId, message.Value(), ch))
      ensures threw == B.ProcessFrame(old(connections.State()), connectionId, message.Value(), ch).threw
    {
      threw := false;
      match message.command
      case "CONNECT" => ch := ProcessConnect(message);
      case "SEND" => ch := ProcessSend(message);
      case "SUBSCRIBE" => threw, ch := ProcessSubscribe(message);
      case "UNSUBSCRIBE" => ch := ProcessUnsubscribe(message);
      case "DISCONNECT" => ch := ProcessDisconnect(message);
      case _ => ch := SomeChoice(connections.State(), connectionId, message.Value());
    }

    method ProcessConnect(message: StompFrame) returns (ghost ch: B.Choice)
      requires connections.Valid() && message.command == "CONNECT"
      modifies connections, connections.storage, connections.storage.users.Values
      ensures B.LegalChoice(old(connections.State()), connectionId, message.Value(), ch)
      ensures Applied(B.ProcessConnect(old(connections.State()), connectionId, message.Value(), ch))
    {
      var refusal := Refusal(message);
      if refusal.Some? {
        ch := Fail(message, refusal.value, "the message:");
      } else {
        ch := SomeChoice(connections.State(), connectionId, message.Value());
        Admit(message.headers["login"], message.headers["passcode"]);
      }
    }

    method Admit(login: string, passcode: string)
      requires connections.Valid()
      modifies connections, connections.storage, connections.storage.users.Values
      ensures var b := old(connections.State());
        Applied(B.Outcome(b.(users := B.LogIn(b.users, login, passcode, connectionId)),
                          B.SendTo(b, connectionId, B.ConnectedFrame()), false))
    {
      connections.storage.LogIn(login, passcode, connectionId);
      var _ := connections.Send(connectionId, B.ConnectedFrame());
    }

    method Refusal(message: StompFrame) returns (reason: Option<string>)
      requires connections.Valid()
      ensures reason == B.ConnectRefusal(connections.storage.Table(), message.Value())
    {
      if "login" !in message.headers || "passcode" !in message.headers {
        return Some("Missing login or passcode");
      }
      var login := message.headers["login"];
      if login in connections.storage.users {
        var user := connections.storage.users[login];
        if user.connected {
          return Some("User already logged in");
        }
        if user.password != message.headers["passcode"] {
          return Some("Wrong password");
        }
      }
      return None;
    }

    method ProcessSend(message: StompFrame) returns (ghost ch: B.Choice)
      requires connections.Valid() && message.command == "SEND"
      modifies connections, connections.storage, connections.storage.users.Values
      ensures B.LegalChoice(old(connections.State()), connectionId, message.Value(), ch)
      ensures Applied(B.ProcessSend(old(connections.State()), connectionId, message.Value(), ch))
    {
      if "destination" !in message.headers || message.body == "" {
        ch := Fail(message, "Invalid SEND frame", "the message");
      } else {
        ch := SomeChoice(connections.State(), connectionId, message.Value());
        var topic := B.StripSlash(message.headers["destination"]);
        ghost var visits := connections.SendToChannel(topic, message.body);
        ch := ch.(visits := visits);
      }
    }

    method ProcessSubscribe(message: StompFrame) returns (threw: bool, ghost ch: B.Choice)
      requires connections.Valid() && message.command == "SUBSCRIBE"
      modifies connections, connections.storage, connections.storage.users.Values
      ensures B.LegalChoice(old(connections.State()), connectionId, message.Value(), ch)
      ensures Applied(B.ProcessSubscribe(old(connections.State()), connectionId, message.Value(), ch))
      ensures threw == B.ProcessSubscribe(old(connections.State()), connectionId, message.Value(), ch).threw
    {
      threw := false;
      if "destination" !in message.headers || message.headers["destination"] == "" {
        ch := Fail(message, "Missing or invalid topic to subscribe to", "the message");
      } else if connections.ExistsSubscription(message.headers["destination"], connectionId) {
        ch := Fail(message, "the user already subscribed to this channel", "the message");
      } else {
        ch := SomeChoice(connections.State(), connectionId, message.Value());
        var id := B.HeaderOption(message.Value(), "id");
        threw := connections.Subscribe(message.headers["destination"], id, connectionId);
      }
    }

    method ProcessUnsubscribe(message: StompFrame) returns (ghost ch: B.Choice)
      requires connections.Valid() && message.command == "UNSUBSCRIBE"
      modifies connections, connections.storage, connections.storage.users.Values
      ensures B.LegalChoice(old(connections.State()), connectionId, message.Value(), ch)
      ensures Applied(B.ProcessUnsubscribe(old(connections.State()), connectionId, message.Value(), ch))
    {
      if "id" !in message.headers {
        ch := Fail(message, "Missing id", "the message");
      } else {
        ch := SomeChoice(connections.State(), connectionId, message.Value());
        connections.Unsubscribe(connectionId, message.headers["id"]);
      }
    }

    method ProcessDisconnect(message: StompFrame) returns (ghost ch: B.Choice)
      requires connections.Valid() && message.command == "DISCONNECT"
      modifies connections, connections.storage, connections.storage.users.Values
      ensures B.LegalChoice(old(connections.State()), connectionId, message.Value(), ch)
      ensures Applied(B.ProcessDisconnect(old(connections.State()), connectionId, message.Value(), ch))
    {
      ch := SomeChoice(connections.State(), connectionId, message.Value());
      var receipt := None;
      if "receipt" in message.headers {
        receipt := Some(B.ReceiptFrame(message.headers["receipt"]));
      }
      ghost var found := SendAndDrop(receipt);
      ch := ch.(found := found);
    }

    // An ERROR that quotes the frame, then the sender is disconnected.
    method Fail(message: StompFrame, description: string, intro: string) returns (ghost ch: B.Choice)
      requires connections.Valid()
      modifies connections, connections.storage, connections.storage.users.Values
      ensures Enumerates(ch.headerOrder, message.headers.Keys)
      ensures B.LegalFound(old(connections.storage.Table()), connectionId, ch.found)
      ensures Applied(B.Fail(old(connections.State()), connectionId, message.Value(), ch, description, intro))
    {
      var error, order := MakeError(message, description, intro);
      ghost var found := SendAndDrop(Some(error));
      ch := B.Choice(order, [], found);
    }

    // The last frame for the sender, if there is one, and its disconnection.
    method SendAndDrop(last: Option<Frame>) returns (ghost found: string)
      requires connections.Valid()
      modifies connections, connections.storage, connections.storage.users.Values
      ensures B.LegalFound(old(connections.storage.Table()), connectionId, found)
      ensures Applied(B.Outcome(B.Disconnect(old(connections.State()), connectionId, found),
                                if last.Some? then B.SendTo(old(connections.State()), connectionId, last.value) else [], false))
    {
      if last.Some? {
        var _ := connections.Send(connectionId, last.value);
      }
      found := connections.Disconnect(connectionId);
    }

    static method MakeError(message: StompFrame, description: string, intro: string)
      returns (error: Frame, ghost order: seq<string>)
      ensures Enumerates(order, message.headers.Keys)
      ensures error == B.ErrorFrame(description, intro, message.Value(), order)
    {
      var text;
      text, order := message.ToText();
      var content := intro + "\n-----\n" + text + "\n-----";
      var headers := map["message" := description];
      if "receipt" in message.headers {
        headers := headers["receipt-id" := "message-" + message.headers["receipt"]];
      }
      error := Frame("ERROR", headers, content);
    }
  }

  // A choice for the frames that leave nothing open.
  lemma SomeChoice(b: B.Broker, c: int, f: Frame) returns (ch: B.Choice)
    ensures Enumerates(ch.headerOrder, f.headers.Keys) && B.LegalFound(b.users, c, ch.found)
    ensures f.command != "SEND" ==> B.LegalChoice(b, c, f, ch)
  {
    var order := EnumerationExists(f.headers.Keys);
    if u :| u in b.users && b.users[u].connectionId == c {
      ch := B.Choice(order, [], u);
    } else {
      ch := B.Choice(order, [], "");
    }
  }
}
