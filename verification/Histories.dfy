// What clients see over whole runs: receipts, silence after the end, message
// ids.
module Histories {
  import opened Text
  import opened Codec
  import opened Broker
  import opened Subscriptions
  import opened Runs

  // --------------------------------------------------------------- receipts

  // The receipt ids handed to connection `c`, in order.
  function ReceiptsTo(out: seq<Delivery>, c: int): seq<string>
  {
    if out == [] then []
    else
      var d := out[|out| - 1];
      ReceiptsTo(out[..|out| - 1], c)
        + (if d.to == c && d.frame.command == "RECEIPT" && "receipt-id" in d.frame.headers
           then [d.frame.headers["receipt-id"]] else [])
  }

  // Processing that ends in an exception: a SUBSCRIBE without an id.
  predicate Throws(b: Broker, c: int, f: Frame)
  {
    f.command == "SUBSCRIBE" && MaySubscribe(b, c, f) && "id" !in f.headers
  }

  // The receipt headers of the client frames that `c` got processed without
  // error while it had a handler.
  ghost function ExpectedReceipts(es: seq<Event>, c: int): seq<string>
    requires LegalRun(es)
  {
    if es == [] then []
    else
      var n := |es| - 1;
      ExpectedReceipts(es[..n], c) + OwedReceipt(Run(es[..n]).broker, es[n], c)
  }

  predicate Receipted(b: Broker, e: Event, c: int)
  {
    && e.Inbound? && e.c == c && c in b.handlers
    && "receipt" in e.frame.headers
    && !Rejected(b, c, e.frame) && !Throws(b, c, e.frame)
  }

  function OwedReceipt(b: Broker, e: Event, c: int): seq<string>
  {
    if Receipted(b, e, c) then [e.frame.headers["receipt"]] else []
  }

  lemma {:induction false} ReceiptsAppend(xs: seq<Delivery>, ys: seq<Delivery>, c: int)
    ensures ReceiptsTo(xs + ys, c) == ReceiptsTo(xs, c) + ReceiptsTo(ys, c)
  {
    if ys == [] {
      assert xs + ys == xs;
    } else {
      ReceiptsAppend(xs, ys[..|ys| - 1], c);
      assert (xs + ys)[..|xs + ys| - 1] == xs + ys[..|ys| - 1];
    }
  }

  lemma {:induction false} NoReceipts(out: seq<Delivery>, c: int)
    requires forall d :: d in out ==> d.frame.command != "RECEIPT"
    ensures ReceiptsTo(out, c) == []
  {
    if out != [] {
      NoReceipts(out[..|out| - 1], c);
    }
  }

  lemma {:induction false} BroadcastCommands(b: Broker, topic: string, body: string, visits: seq<Visit>, counter: int)
    ensures forall d :: d in Broadcast(b, topic, body, visits, counter).0 ==> d.frame.command == "MESSAGE"
    decreases |visits|
  {
    if visits != [] {
      BroadcastCommands(b, topic, body, visits[1..], Wrap32(counter + |ChannelMap(b, topic)|));
    }
  }

  lemma SentReceipt(b: Broker, to: int, receipt: string, c: int)
    ensures ReceiptsTo(SendTo(b, to, ReceiptFrame(receipt)), c) == if to == c && c in b.handlers then [receipt] else []
  {
    if to in b.handlers {
      var d := Delivery(to, ReceiptFrame(receipt));
      assert SendTo(b, to, ReceiptFrame(receipt))[..0] == [];
    }
  }

  lemma FrameCommands(b: Broker, c: int, f: Frame, ch: Choice)
    requires Enumerates(ch.headerOrder, f.headers.Keys) && f.command != "DISCONNECT"
    ensures forall d :: d in ProcessFrame(b, c, f, ch).out ==> d.frame.command != "RECEIPT"
    ensures ProcessFrame(b, c, f, ch).threw <==> Throws(b, c, f)
  {
    if f.command == "SEND" && "destination" in f.headers {
      BroadcastCommands(b, StripSlash(f.headers["destination"]), f.body, ch.visits, b.counter);
    }
  }

  lemma FrameReceipts(b: Broker, e: Event, c: int)
    requires e.Inbound? && LegalChoice(b, e.c, e.frame, e.choice)
    ensures ReceiptsTo(Process(b, e.c, e.frame, e.choice).out, c) == OwedReceipt(b, e, c)
  {
    var f, ch := e.frame, e.choice;
    if f.command == "DISCONNECT" {
      if "receipt" in f.headers {
        SentReceipt(b, e.c, f.headers["receipt"], c);
      }
    } else {
      var o := ProcessFrame(b, e.c, f, ch);
      FrameCommands(b, e.c, f, ch);
      NoReceipts(o.out, c);
      ProcessEffect(b, e.c, f, ch);
      assert o.broker == Process(b, e.c, f, ch).broker;
      if !o.threw && "receipt" in f.headers {
        SentReceipt(o.broker, e.c, f.headers["receipt"], c);
        ReceiptsAppend(o.out, SendTo(o.broker, e.c, ReceiptFrame(f.headers["receipt"])), c);
      }
    }
  }

  // Receipts are exact: one for each frame that asked for one and went well
  // while the sender could be reached, in order, and no other.
  lemma {:induction false} ReceiptsExact(es: seq<Event>, c: int)
    requires LegalRun(es)
    ensures ReceiptsTo(Out(es), c) == ExpectedReceipts(es, c)
  {
    if es != [] {
      var n := |es| - 1;
      var s := Run(es[..n]);
      ReceiptsExact(es[..n], c);
      ReceiptsAppend(Out(es[..n]), StepOut(s, es[n]), c);
      if es[n].Inbound? {
        FrameReceipts(s.broker, es[n], c);
      }
    }
  }

  // ----------------------------------------------------- answers are exact

  // How many frames with this command were delivered to `c`.
  function CountTo(out: seq<Delivery>, c: int, command: string): nat
  {
    if out == [] then 0
    else
      var d := out[|out| - 1];
      CountTo(out[..|out| - 1], c, command) + (if d.to == c && d.frame.command == command then 1 else 0)
  }

  lemma {:induction false} CountAppend(xs: seq<Delivery>, ys: seq<Delivery>, c: int, command: string)
    ensures CountTo(xs + ys, c, command) == CountTo(xs, c, command) + CountTo(ys, c, command)
  {
    if ys == [] {
      assert xs + ys == xs;
    } else {
      CountAppend(xs, ys[..|ys| - 1], c, command);
      assert (xs + ys)[..|xs + ys| - 1] == xs + ys[..|ys| - 1];
    }
  }

  lemma {:induction false} NoneCounted(out: seq<Delivery>, c: int, command: string)
    requires forall d :: d in out ==> d.frame.command != command
    ensures CountTo(out, c, command) == 0
  {
    if out != [] {
      NoneCounted(out[..|out| - 1], c, command);
    }
  }

  lemma OneCounted(out: seq<Delivery>, to: int, sent: string, reached: bool, c: int, command: string)
    requires OneTo(out, to, sent, reached)
    ensures CountTo(out, c, command) == if reached && to == c && sent == command then 1 else 0
  {
    assert out != [] ==> out[..|out| - 1] == [];
  }

  // Event `e` calls for an answer with this command to `c`: it is c's frame,
  // and `c` can be reached.
  predicate Answered(b: Broker, e: Event, c: int, command: string)
  {
    e.Inbound? && e.c == c && c in b.handlers && !Broadcasts(e.frame) && Answer(b, c, e.frame) == command
  }

  ghost function ExpectedAnswers(es: seq<Event>, c: int, command: string): nat
    requires LegalRun(es)
  {
    if es == [] then 0
    else
      var n := |es| - 1;
      ExpectedAnswers(es[..n], c, command) + (if Answered(Run(es[..n]).broker, es[n], c, command) then 1 else 0)
  }

  // Commands that only a frame's own answer has.
  predicate OwnAnswer(command: string)
  {
    command != "MESSAGE" && command != "RECEIPT" && command != ""
  }

  lemma FrameAnswers(b: Broker, e: Event, c: int, command: string)
    requires e.Inbound? && LegalChoice(b, e.c, e.frame, e.choice) && OwnAnswer(command)
    ensures CountTo(Process(b, e.c, e.frame, e.choice).out, c, command) == if Answered(b, e, c, command) then 1 else 0
  {
    var out := Process(b, e.c, e.frame, e.choice).out;
    if Broadcasts(e.frame) {
      BroadcastSends(b, e.c, e.frame, e.choice);
      NoneCounted(out, c, command);
    } else {
      var own, receipts := ProcessReplies(b, e.c, e.frame, e.choice);
      ReplyCounted(out, own, receipts, e.c, Answer(b, e.c, e.frame), e.c in b.handlers, c, command);
    }
  }

  lemma ReplyCounted(out: seq<Delivery>, own: seq<Delivery>, receipts: seq<Delivery>, to: int, answer: string, live: bool,
                     c: int, command: string)
    requires out == own + receipts && OneTo(own, to, answer, live && answer != "")
    requires OneTo(receipts, to, "RECEIPT", receipts != []) && OwnAnswer(command)
    ensures CountTo(out, c, command) == if live && to == c && answer == command then 1 else 0
  {
    CountAppend(own, receipts, c, command);
    OneCounted(own, to, answer, live && answer != "", c, command);
    OneCounted(receipts, to, "RECEIPT", receipts != [], c, command);
  }

  lemma BroadcastSends(b: Broker, c: int, f: Frame, ch: Choice)
    requires Enumerates(ch.headerOrder, f.headers.Keys) && Broadcasts(f)
    ensures forall d :: d in Process(b, c, f, ch).out ==> d.frame.command == "MESSAGE" || d.frame.command == "RECEIPT"
  {
    BroadcastCommands(b, StripSlash(f.headers["destination"]), f.body, ch.visits, b.counter);
  }

  // Over every run, a connection gets exactly one ERROR for each of its frames
  // that was rejected while it had a handler, exactly one CONNECTED for each
  // CONNECT accepted then, and no others.
  lemma {:induction false} AnswersExact(es: seq<Event>, c: int, command: string)
    requires LegalRun(es) && OwnAnswer(command)
    ensures CountTo(Out(es), c, command) == ExpectedAnswers(es, c, command)
  {
    if es != [] {
      var n := |es| - 1;
      var s := Run(es[..n]);
      AnswersExact(es[..n], c, command);
      CountAppend(Out(es[..n]), StepOut(s, es[n]), c, command);
      if es[n].Inbound? {
        FrameAnswers(s.broker, es[n], c, command);
      }
    }
  }

  // ---------------------------------------------------- silence after the end

  // Connection `c` was registered and has no handler any more.
  predicate Gone(s: Server, c: int)
  {
    c in s.seen && c !in s.broker.handlers
  }

  lemma {:induction false} BroadcastToHandlers(b: Broker, topic: string, body: string, visits: seq<Visit>, counter: int)
    ensures forall d :: d in Broadcast(b, topic, body, visits, counter).0 ==> d.to in b.handlers
    decreases |visits|
  {
    if visits != [] {
      BroadcastToHandlers(b, topic, body, visits[1..], Wrap32(counter + |ChannelMap(b, topic)|));
    }
  }

  lemma DeliveredToHandlers(b: Broker, c: int, f: Frame, ch: Choice)
    requires Enumerates(ch.headerOrder, f.headers.Keys)
    ensures forall d :: d in Process(b, c, f, ch).out ==> d.to in b.handlers
  {
    if Broadcasts(f) {
      BroadcastDelivered(b, c, f, ch);
    } else {
      RepliesDelivered(b, c, f, ch);
    }
  }

  lemma BroadcastDelivered(b: Broker, c: int, f: Frame, ch: Choice)
    requires Enumerates(ch.headerOrder, f.headers.Keys) && Broadcasts(f)
    ensures forall d :: d in Process(b, c, f, ch).out ==> d.to in b.handlers
  {
    BroadcastToHandlers(b, StripSlash(f.headers["destination"]), f.body, ch.visits, b.counter);
  }

  lemma RepliesDelivered(b: Broker, c: int, f: Frame, ch: Choice)
    requires Enumerates(ch.headerOrder, f.headers.Keys) && !Broadcasts(f)
    ensures forall d :: d in Process(b, c, f, ch).out ==> d.to in b.handlers
  {
    if c !in b.handlers {
      NoReply(b, c, f, ch);
    } else {
      ReplyCommands(b, c, f, ch);
    }
  }

  lemma NoReply(b: Broker, c: int, f: Frame, ch: Choice)
    requires Enumerates(ch.headerOrder, f.headers.Keys) && !Broadcasts(f) && c !in b.handlers
    ensures Process(b, c, f, ch).out == []
  {
    FrameReplies(b, c, f, ch);
    ProcessEffect(b, c, f, ch);
  }

  lemma GoneStep(s: Server, n: nat, e: Event, c: int)
    requires IdsInOrder(s, n) && Legal(s, e) && Gone(s, c)
    requires e.Accept? ==> n < ID_SPACE
    ensures Gone(Step(s, e), c)
    ensures forall d :: d in StepOut(s, e) ==> d.to != c
  {
    if e.Accept? {
      FreshId(s, n);
    } else {
      ProcessIds(s.broker, e.c, e.frame, e.choice);
      DeliveredToHandlers(s.broker, e.c, e.frame, e.choice);
    }
  }

  // Once a connection's handler is gone, it never comes back and nothing is
  // delivered to it in the rest of the run.
  lemma {:induction false} GoneForGood(es: seq<Event>, n: nat, c: int)
    requires LegalRun(es) && Accepts(es) <= ID_SPACE && n <= |es|
    requires LegalRun(es[..n]) && Gone(Run(es[..n]), c)
    ensures Gone(Run(es), c)
    ensures |Out(es[..n])| <= |Out(es)|
    ensures forall i :: |Out(es[..n])| <= i < |Out(es)| ==> Out(es)[i].to != c
  {
    if n == |es| {
      assert es[..n] == es;
    } else {
      var m := |es| - 1;
      assert es[..m][..n] == es[..n];
      GoneForGood(es[..m], n, c);
      ConnectionIds(es[..m]);
      AcceptsRoom(es, m);
      GoneStep(Run(es[..m]), Accepts(es[..m]), es[m], c);
    }
  }

  lemma AcceptsRoom(es: seq<Event>, m: nat)
    requires |es| == m + 1 && Accepts(es) <= ID_SPACE
    ensures Accepts(es[..m]) <= ID_SPACE && (es[m].Accept? ==> Accepts(es[..m]) < ID_SPACE)
  {
  }

  // Silence after the end: after the frame that ended c's connection (a
  // DISCONNECT, or one answered with an ERROR) nothing is delivered to c,
  // even if it goes on sending.
  lemma SilenceAfterEnd(es: seq<Event>, n: nat)
    requires LegalRun(es) && Accepts(es) <= ID_SPACE && n < |es|
    requires LegalRun(es[..n]) && LegalRun(es[..n + 1])
    requires es[n].Inbound? && Drops(Run(es[..n]).broker, es[n].c, es[n].frame)
    ensures forall i :: |Out(es[..n + 1])| <= i < |Out(es)| ==> Out(es)[i].to != es[n].c
  {
    RunStep(es, n);
    ProcessEffect(Run(es[..n]).broker, es[n].c, es[n].frame, es[n].choice);
    GoneForGood(es, n + 1, es[n].c);
  }

  // Nothing follows an ERROR to the same connection.
  predicate ErrorsLast(out: seq<Delivery>)
  {
    forall i, j :: 0 <= i < j < |out| && out[i].frame.command == "ERROR" ==> out[j].to != out[i].to
  }

  // An ERROR is the last thing its connection ever gets.
  lemma {:induction false} ErrorIsLast(es: seq<Event>)
    requires LegalRun(es) && Accepts(es) <= ID_SPACE
    ensures ErrorsLast(Out(es))
  {
    if es != [] {
      var m := |es| - 1;
      AcceptsRoom(es, m);
      ErrorIsLast(es[..m]);
      ErrorEndsFrame(Run(es[..m]), es[m]);
      forall i, d | 0 <= i < |Out(es[..m])| && Out(es[..m])[i].frame.command == "ERROR" && d in StepOut(Run(es[..m]), es[m])
        ensures d.to != Out(es[..m])[i].to
      {
        ErrorMakesGone(es[..m], Out(es[..m])[i]);
        ConnectionIds(es[..m]);
        GoneStep(Run(es[..m]), Accepts(es[..m]), es[m], Out(es[..m])[i].to);
      }
      GlueErrors(Out(es[..m]), StepOut(Run(es[..m]), es[m]));
    }
  }

  lemma GlueErrors(before: seq<Delivery>, latest: seq<Delivery>)
    requires ErrorsLast(before) && ErrorsLast(latest)
    requires forall i, d :: 0 <= i < |before| && before[i].frame.command == "ERROR" && d in latest ==> d.to != before[i].to
    ensures ErrorsLast(before + latest)
  {
  }

  // What the sender of any other frame is sent.
  lemma ReplyCommands(b: Broker, c: int, f: Frame, ch: Choice)
    requires Enumerates(ch.headerOrder, f.headers.Keys) && !Broadcasts(f)
    ensures var out := Process(b, c, f, ch).out;
      && (Rejected(b, c, f) ==> |out| <= 1)
      && forall d :: d in out ==> d.to == c && d.frame.command != "MESSAGE" && (d.frame.command == "ERROR" ==> Rejected(b, c, f))
  {
    var own, receipts := ProcessReplies(b, c, f, ch);
    OwnAndReceipts(own, receipts, c, Answer(b, c, f), c in b.handlers && Answer(b, c, f) != "");
  }

  lemma OwnAndReceipts(own: seq<Delivery>, receipts: seq<Delivery>, c: int, answer: string, sent: bool)
    requires OneTo(own, c, answer, sent) && OneTo(receipts, c, "RECEIPT", receipts != [])
    ensures receipts == [] ==> |own + receipts| <= 1
    ensures forall d :: d in own + receipts ==> d.to == c && (d.frame.command == answer || d.frame.command == "RECEIPT")
  {
  }

  lemma ErrorEndsFrame(s: Server, e: Event)
    requires Legal(s, e)
    ensures ErrorsLast(StepOut(s, e))
  {
    if e.Inbound? {
      if Broadcasts(e.frame) {
        BroadcastSends(s.broker, e.c, e.frame, e.choice);
      } else {
        ReplyCommands(s.broker, e.c, e.frame, e.choice);
      }
    }
  }

  lemma ErrorDrops(b: Broker, e: Event, d: Delivery)
    requires e.Inbound? && LegalChoice(b, e.c, e.frame, e.choice)
    requires d in Process(b, e.c, e.frame, e.choice).out && IsError(d)
    ensures Drops(b, e.c, e.frame) && d.to == e.c
  {
    if Broadcasts(e.frame) {
      BroadcastSends(b, e.c, e.frame, e.choice);
    } else {
      ReplyCommands(b, e.c, e.frame, e.choice);
    }
  }

  lemma StaysGone(es: seq<Event>, c: int)
    requires LegalRun(es) && es != [] && Accepts(es) <= ID_SPACE && Gone(Run(es[..|es| - 1]), c)
    ensures Gone(Run(es), c)
  {
    var m := |es| - 1;
    AcceptsRoom(es, m);
    ConnectionIds(es[..m]);
    GoneStep(Run(es[..m]), Accepts(es[..m]), es[m], c);
  }

  predicate IsError(d: Delivery)
  {
    d.frame.command == "ERROR"
  }

  lemma {:induction false} ErrorMakesGone(es: seq<Event>, d: Delivery)
    requires LegalRun(es) && Accepts(es) <= ID_SPACE && d in Out(es) && IsError(d)
    ensures Gone(Run(es), d.to)
    decreases |es|, 1
  {
    LastOut(es, d);
    if d in Out(es[..|es| - 1]) {
      EarlierErrorGone(es, d);
    } else {
      LatestErrorGone(es, d);
    }
  }

  lemma {:induction false} EarlierErrorGone(es: seq<Event>, d: Delivery)
    requires LegalRun(es) && es != [] && Accepts(es) <= ID_SPACE && d in Out(es[..|es| - 1]) && IsError(d)
    ensures Gone(Run(es), d.to)
    decreases |es|, 0
  {
    AcceptsRoom(es, |es| - 1);
    ErrorMakesGone(es[..|es| - 1], d);
    StaysGone(es, d.to);
  }

  lemma LastOut(es: seq<Event>, d: Delivery)
    requires LegalRun(es) && d in Out(es)
    ensures es != [] && (d in Out(es[..|es| - 1]) || d in StepOut(Run(es[..|es| - 1]), es[|es| - 1]))
  {
  }

  lemma LatestErrorGone(es: seq<Event>, d: Delivery)
    requires LegalRun(es) && es != [] && d in StepOut(Run(es[..|es| - 1]), es[|es| - 1]) && IsError(d)
    ensures Gone(Run(es), d.to)
  {
    ErrorStepGone(Run(es[..|es| - 1]), es[|es| - 1], d);
  }

  lemma ErrorStepGone(s: Server, e: Event, d: Delivery)
    requires Legal(s, e) && d in StepOut(s, e) && IsError(d)
    ensures Gone(Step(s, e), d.to)
  {
    ErrorDrops(s.broker, e, d);
    ProcessEffect(s.broker, e.c, e.frame, e.choice);
  }
}
