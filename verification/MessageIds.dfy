// Message ids over whole runs: every delivered MESSAGE carries one, and they
// strictly increase in delivery order as long as the int counter has not
// wrapped.
module MessageIds {
  import opened Text
  import opened Codec
  import opened Broker
  import opened Subscriptions
  import opened Runs
  import opened Histories

  // The MESSAGE frames among the deliveries.
  function Messages(out: seq<Delivery>): seq<Frame>
  {
    if out == [] then []
    else (if out[0].frame.command == "MESSAGE" then [out[0].frame] else []) + Messages(out[1..])
  }

  // `ids` are the message ids of these frames.
  predicate Numbered(frames: seq<Frame>, ids: seq<int>)
  {
    |ids| == |frames| && forall i :: 0 <= i < |ids| ==> HasNumber(frames[i], ids[i])
  }

  predicate HasNumber(f: Frame, id: int)
  {
    "message-id" in f.headers && f.headers["message-id"] == Decimal(id)
  }

  // Strictly increasing numbers from `lo` up to but excluding `hi`.
  predicate Increasing(ids: seq<int>, lo: int, hi: int)
  {
    && (forall i :: 0 <= i < |ids| ==> lo <= ids[i] < hi)
    && forall i, j :: 0 <= i < j < |ids| ==> ids[i] < ids[j]
  }

  lemma IncreasingAppend(xs: seq<int>, ys: seq<int>, lo: int, mid: int, hi: int)
    requires Increasing(xs, lo, mid) && Increasing(ys, mid, hi) && lo <= mid <= hi
    ensures Increasing(xs + ys, lo, hi)
  {
  }

  lemma NumberedAppend(fs: seq<Frame>, gs: seq<Frame>, xs: seq<int>, ys: seq<int>)
    requires Numbered(fs, xs) && Numbered(gs, ys)
    ensures Numbered(fs + gs, xs + ys)
  {
  }

  lemma {:induction false} MessagesAppend(xs: seq<Delivery>, ys: seq<Delivery>)
    ensures Messages(xs + ys) == Messages(xs) + Messages(ys)
  {
    if xs == [] {
      assert xs + ys == ys;
    } else {
      assert (xs + ys)[0] == xs[0] && (xs + ys)[1..] == xs[1..] + ys;
      MessagesAppend(xs[1..], ys);
      Regroup(if xs[0].frame.command == "MESSAGE" then [xs[0].frame] else [], Messages(xs[1..]), Messages(ys));
    }
  }

  // Ids taken by a broadcast over `n` set members with `k` subscriptions.
  function Taken(n: nat, k: nat): nat
  {
    if n == 0 then 0 else k + Taken(n - 1, k)
  }

  lemma {:induction false} TakenIsProduct(n: nat, k: nat)
    ensures Taken(n, k) == n * k
  {
    if n > 0 {
      TakenIsProduct(n - 1, k);
      assert n * k == (n - 1) * k + k;
    }
  }

  lemma {:induction false} BroadcastCounter(b: Broker, topic: string, body: string, visits: seq<Visit>, n: int)
    ensures Broadcast(b, topic, body, visits, Wrap32(n)).1 == Wrap32(n + Taken(|visits|, |ChannelMap(b, topic)|))
    decreases |visits|
  {
    if visits != [] {
      var k := |ChannelMap(b, topic)|;
      CounterStep(b, topic, body, visits, n, k);
      BroadcastCounter(b, topic, body, visits[1..], n + k);
    }
  }

  lemma CounterStep(b: Broker, topic: string, body: string, visits: seq<Visit>, n: int, k: nat)
    requires visits != [] && k == |ChannelMap(b, topic)|
    ensures Broadcast(b, topic, body, visits, Wrap32(n)).1 == Broadcast(b, topic, body, visits[1..], Wrap32(n + k)).1
  {
    WrapAgain(n, k);
    var here := FirstAndLater(b, topic, body, visits, Wrap32(n), Wrap32(n + k));
  }

  lemma FirstAndLater(b: Broker, topic: string, body: string, visits: seq<Visit>, counter: int, next: int)
    returns (here: seq<Delivery>)
    requires visits != [] && next == Wrap32(counter + |ChannelMap(b, topic)|)
    ensures Sends(b, topic, body, visits[0], counter, here, next)
    ensures var r := Broadcast(b, topic, body, visits[1..], next);
      Broadcast(b, topic, body, visits, counter) == (here + r.0, r.1)
  {
    var next';
    here, next' := FirstSend(b, topic, body, visits[0], counter);
    assert [visits[0]] + visits[1..] == visits;
    BroadcastCons(b, topic, body, visits[0], visits[1..], counter, here, next);
  }

  lemma BroadcastTakes(b: Broker, topic: string, body: string, visits: seq<Visit>, n: int, total: int)
    requires LegalVisits(b, topic, visits)
    requires total == n + Taken(|TopicSet(b, topic)|, |ChannelMap(b, topic)|)
    ensures Broadcast(b, topic, body, visits, Wrap32(n)).1 == Wrap32(total)
  {
    BroadcastCounter(b, topic, body, visits, n);
    EnumeratesLength(Connections(visits), TopicSet(b, topic));
  }

  // A broadcast advances the counter by members times subscriptions.
  lemma BroadcastAdvances(b: Broker, topic: string, body: string, visits: seq<Visit>, n: int)
    requires LegalVisits(b, topic, visits)
    ensures Broadcast(b, topic, body, visits, Wrap32(n)).1
         == Wrap32(n + |TopicSet(b, topic)| * |ChannelMap(b, topic)|)
  {
    BroadcastTakes(b, topic, body, visits, n, n + Taken(|TopicSet(b, topic)|, |ChannelMap(b, topic)|));
    TakenIsProduct(|TopicSet(b, topic)|, |ChannelMap(b, topic)|);
  }

  lemma {:induction false} BroadcastNumbers(b: Broker, topic: string, body: string, visits: seq<Visit>, counter: int,
                                            n: nat)
    returns (ids: seq<int>)
    requires ChannelMap(b, topic) != map[] && (visits != [] ==> counter == n)
    requires n + Taken(|visits|, |ChannelMap(b, topic)|) <= MAX_INT + 1
    ensures Numbered(Messages(Broadcast(b, topic, body, visits, counter).0), ids)
    ensures Increasing(ids, n, n + Taken(|visits|, |ChannelMap(b, topic)|))
    decreases |visits|
  {
    if visits == [] {
      ids := [];
    } else {
      var k, c := |ChannelMap(b, topic)|, visits[0].connection;
      var here, next := FirstSend(b, topic, body, visits[0], n);
      assert [visits[0]] + visits[1..] == visits;
      BroadcastCons(b, topic, body, visits[0], visits[1..], n, here, next);
      var rest := BroadcastNumbers(b, topic, body, visits[1..], next, n + k);
      var first := OneNumbered(b, c, topic, body, k, n, visits[0].subscription);
      MessagesAppend(here, Broadcast(b, topic, body, visits[1..], next).0);
      NumberedAppend(Messages(here), Messages(Broadcast(b, topic, body, visits[1..], next).0), first, rest);
      IncreasingAppend(first, rest, n, n + k, n + Taken(|visits|, k));
      ids := first + rest;
    }
  }

  lemma OneNumbered(b: Broker, c: int, topic: string, body: string, k: nat, n: nat, subscription: string)
    returns (ids: seq<int>)
    requires k > 0 && n + k <= MAX_INT + 1
    ensures Numbered(Messages(SendTo(b, c, MessageCopy(topic, body, k, n, subscription))), ids)
    ensures Increasing(ids, n, n + k)
  {
    var out := SendTo(b, c, MessageCopy(topic, body, k, n, subscription));
    ids := if c in b.handlers then [n + k - 1] else [];
    if out != [] {
      assert Messages(out) == [out[0].frame] by {
        assert out[1..] == [];
      }
    }
  }

  // ------------------------------------------------------------ whole runs

  // The message ids an event takes: set members times subscriptions.
  function IssuedBy(b: Broker, e: Event): nat
  {
    if e.Inbound? && Broadcasts(e.frame) then
      var topic := StripSlash(e.frame.headers["destination"]);
      Taken(|TopicSet(b, topic)|, |ChannelMap(b, topic)|)
    else 0
  }

  ghost function Issued(es: seq<Event>): nat
    requires LegalRun(es)
  {
    if es == [] then 0 else Issued(es[..|es| - 1]) + IssuedBy(Run(es[..|es| - 1]).broker, es[|es| - 1])
  }

  lemma StepCounter(s: Server, e: Event, n: nat, total: nat)
    requires Legal(s, e) && s.broker.counter == Wrap32(n) && total == n + IssuedBy(s.broker, e)
    ensures Step(s, e).broker.counter == Wrap32(total)
  {
    if e.Inbound? {
      FrameCounter(s.broker, e, n, total);
    }
  }

  lemma FrameCounter(b: Broker, e: Event, n: nat, total: nat)
    requires e.Inbound? && LegalChoice(b, e.c, e.frame, e.choice) && b.counter == Wrap32(n)
    requires total == n + IssuedBy(b, e)
    ensures Process(b, e.c, e.frame, e.choice).broker.counter == Wrap32(total)
  {
    if Broadcasts(e.frame) {
      SendCounter(b, e, n, total);
    } else {
      SameCounter(b, e.c, e.frame, e.choice);
    }
  }

  lemma SendCounter(b: Broker, e: Event, n: nat, total: nat)
    requires e.Inbound? && LegalChoice(b, e.c, e.frame, e.choice) && b.counter == Wrap32(n)
    requires Broadcasts(e.frame) && total == n + IssuedBy(b, e)
    ensures Process(b, e.c, e.frame, e.choice).broker.counter == Wrap32(total)
  {
    var topic := StripSlash(e.frame.headers["destination"]);
    SendEffect(b, e.c, e.frame, e.choice);
    if topic in b.topics {
      BroadcastTakes(b, topic, e.frame.body, e.choice.visits, n, total);
    } else {
      assert TopicSet(b, topic) == {};
    }
  }

  lemma SameCounter(b: Broker, c: int, f: Frame, ch: Choice)
    requires Enumerates(ch.headerOrder, f.headers.Keys)
    requires !Broadcasts(f)
    ensures Process(b, c, f, ch).broker.counter == b.counter
  {
  }

  lemma LastCounter(es: seq<Event>, counter: int)
    requires LegalRun(es) && es != [] && Step(Run(es[..|es| - 1]), es[|es| - 1]).broker.counter == counter
    ensures Run(es).broker.counter == counter
  {
  }

  lemma CounterAfter(es: seq<Event>, s: Server, e: Event, n: nat, total: nat)
    requires LegalRun(es) && es != [] && s == Run(es[..|es| - 1]) && e == es[|es| - 1]
    requires s.broker.counter == Wrap32(n) && total == n + IssuedBy(s.broker, e)
    ensures Run(es).broker.counter == Wrap32(total)
  {
    StepCounter(s, e, n, total);
    LastCounter(es, Wrap32(total));
  }

  // The counter is the number of ids issued, wrapped to an int.
  lemma {:induction false} CounterIsIssued(es: seq<Event>)
    requires LegalRun(es)
    ensures Run(es).broker.counter == Wrap32(Issued(es))
  {
    if es != [] {
      var m := |es| - 1;
      CounterIsIssued(es[..m]);
      CounterAfter(es, Run(es[..m]), es[m], Issued(es[..m]), Issued(es));
    }
  }

  lemma {:induction false} NoMessages(out: seq<Delivery>)
    requires forall d :: d in out ==> d.frame.command != "MESSAGE"
    ensures Messages(out) == []
  {
    if out != [] {
      NoMessages(out[1..]);
    }
  }

  lemma SomebodyReached(out: seq<Delivery>)
    ensures out != [] ==> exists c :: c in Recipients(out)
  {
    if out != [] {
      assert Recipients(out)[0] in Recipients(out);
    }
  }

  lemma SendNumbers(b: Broker, e: Event, n: nat) returns (ids: seq<int>)
    requires Agree(b) && e.Inbound? && LegalChoice(b, e.c, e.frame, e.choice) && b.counter == Wrap32(n)
    requires Broadcasts(e.frame)
    requires n + IssuedBy(b, e) <= MAX_INT + 1
    ensures Numbered(Messages(ProcessFrame(b, e.c, e.frame, e.choice).out), ids)
    ensures Increasing(ids, n, n + IssuedBy(b, e))
  {
    var topic := StripSlash(e.frame.headers["destination"]);
    var visits := e.choice.visits;
    EnumeratesLength(Connections(visits), TopicSet(b, topic));
    if ChannelMap(b, topic) == map[] {
      // Nobody alive is left in the set, so nothing is delivered.
      BroadcastReaches(b, topic, e.frame.body, visits, b.counter);
      KeepFacts(Connections(visits), b.handlers);
      var out := ProcessFrame(b, e.c, e.frame, e.choice).out;
      SomebodyReached(out);
      ids := [];
    } else {
      ids := BroadcastNumbers(b, topic, e.frame.body, visits, b.counter, n);
    }
  }

  lemma OtherFrames(b: Broker, e: Event)
    requires e.Inbound? && LegalChoice(b, e.c, e.frame, e.choice)
    requires !Broadcasts(e.frame)
    ensures Messages(Process(b, e.c, e.frame, e.choice).out) == []
  {
    ReplyCommands(b, e.c, e.frame, e.choice);
    NoMessages(Process(b, e.c, e.frame, e.choice).out);
  }

  lemma StepNumbers(s: Server, e: Event, n: nat) returns (ids: seq<int>)
    requires Legal(s, e) && Agree(s.broker) && s.broker.counter == Wrap32(n)
    requires n + IssuedBy(s.broker, e) <= MAX_INT + 1
    ensures Numbered(Messages(StepOut(s, e)), ids)
    ensures Increasing(ids, n, n + IssuedBy(s.broker, e))
  {
    ids := [];
    if e.Inbound? {
      var b, f := s.broker, e.frame;
      if Broadcasts(f) {
        ids := SendNumbers(b, e, n);
        BroadcastRefines(b, e.c, f, e.choice);
        var receipt := if "receipt" in f.headers then SendTo(b, e.c, ReceiptFrame(f.headers["receipt"])) else [];
        NoMessages(receipt);
        MessagesAppend(ProcessFrame(b, e.c, f, e.choice).out, receipt);
      } else {
        OtherFrames(b, e);
      }
    }
  }

  // Every MESSAGE delivered in a harmless run carries a message id, and the
  // ids strictly increase in delivery order while fewer than 2^31 were issued.
  lemma {:induction false} MessageIdsIncrease(es: seq<Event>) returns (ids: seq<int>)
    requires LegalRun(es) && Accepts(es) <= ID_SPACE && HarmlessRun(es)
    requires Issued(es) <= MAX_INT + 1
    ensures Numbered(Messages(Out(es)), ids) && Increasing(ids, 0, Issued(es))
  {
    if es == [] {
      ids := [];
    } else {
      var m := |es| - 1;
      var s, n := Run(es[..m]), Issued(es[..m]);
      ids := MessageIdsIncrease(es[..m]);
      IndexesAreSimple(es[..m]);
      CounterIsIssued(es[..m]);
      var more := StepNumbers(s, es[m], n);
      MessagesAppend(Out(es[..m]), StepOut(s, es[m]));
      IncreasingAppend(ids, more, 0, n, Issued(es));
      ids := ids + more;
    }
  }

  // And so no two delivered MESSAGEs carry the same message-id header.
  lemma MessageIdsDistinct(es: seq<Event>)
    requires LegalRun(es) && Accepts(es) <= ID_SPACE && HarmlessRun(es)
    requires Issued(es) <= MAX_INT + 1
    ensures var ms := Messages(Out(es));
      && (forall m :: m in ms ==> "message-id" in m.headers)
      && forall i, j :: 0 <= i < j < |ms| ==> ms[i].headers["message-id"] != ms[j].headers["message-id"]
  {
    var ms := Messages(Out(es));
    var ids := MessageIdsIncrease(es);
    forall i | 0 <= i < |ms| ensures "message-id" in ms[i].headers && ms[i].headers["message-id"] == Decimal(ids[i]) {
      assert HasNumber(ms[i], ids[i]);
    }
    forall i, j | 0 <= i < j < |ms| ensures Decimal(ids[i]) != Decimal(ids[j]) {
      if Decimal(ids[i]) == Decimal(ids[j]) {
        DecimalInjective(ids[i], ids[j]);
      }
    }
  }

  // ------------------------------------------------------- which id it is

  // The whole copy that the i-th visit of a broadcast sends, when `n` ids were
  // taken before it and each visit takes `k`: its id is the last of its own,
  // and without any subscription it has neither id nor subscription.
  function CopyAt(topic: string, body: string, visits: seq<Visit>, i: nat, k: nat, n: int): Delivery
    requires i < |visits|
  {
    Delivery(visits[i].connection,
             Frame("MESSAGE",
                   if k == 0 then map["destination" := "/" + topic]
                   else map["destination" := "/" + topic, "subscription" := visits[i].subscription,
                            "message-id" := Decimal(Wrap32(n + Taken(i + 1, k) - 1))],
                   body))
  }

  lemma OneCopy(b: Broker, topic: string, body: string, visits: seq<Visit>, n: int, here: seq<Delivery>, next: int, d: Delivery)
    requires visits != [] && Sends(b, topic, body, visits[0], Wrap32(n), here, next)
    requires visits[0].connection in b.handlers
    requires d == CopyAt(topic, body, visits, 0, |ChannelMap(b, topic)|, n)
    ensures here == [d]
  {
    var k := |ChannelMap(b, topic)|;
    WrapAgain(n, k - 1);
    assert Taken(1, k) == k + Taken(0, k) == k;
    SameHeaders("/" + topic, visits[0].subscription, Decimal(Wrap32(n + k - 1)));
  }

  lemma SameHeaders(destination: string, subscription: string, id: string)
    ensures map["destination" := destination]["subscription" := subscription]["message-id" := id]
         == map["destination" := destination, "subscription" := subscription, "message-id" := id]
  {
  }

  lemma CopyTail(topic: string, body: string, visits: seq<Visit>, i: nat, k: nat, n: int)
    requires 0 < i < |visits|
    ensures CopyAt(topic, body, visits[1..], i - 1, k, n + k) == CopyAt(topic, body, visits, i, k, n)
  {
    assert Taken(i + 1, k) == k + Taken(i, k);
  }

  lemma {:induction false} BroadcastSends(b: Broker, topic: string, body: string, visits: seq<Visit>, n: int, i: nat, k: nat, d: Delivery)
    requires i < |visits| && visits[i].connection in b.handlers && k == |ChannelMap(b, topic)|
    requires d == CopyAt(topic, body, visits, i, k, n)
    ensures d in Broadcast(b, topic, body, visits, Wrap32(n)).0
    decreases |visits|
  {
    if i == 0 {
      FirstInBroadcast(b, topic, body, visits, n, d);
    } else {
      CopyTail(topic, body, visits, i, k, n);
      BroadcastSends(b, topic, body, visits[1..], n + k, i - 1, k, d);
      LaterInBroadcast(b, topic, body, visits, n, k, d);
    }
  }

  lemma FirstInBroadcast(b: Broker, topic: string, body: string, visits: seq<Visit>, n: int, d: Delivery)
    requires visits != [] && visits[0].connection in b.handlers && d == CopyAt(topic, body, visits, 0, |ChannelMap(b, topic)|, n)
    ensures d in Broadcast(b, topic, body, visits, Wrap32(n)).0
  {
    var counter := Wrap32(n);
    var next := Wrap32(counter + |ChannelMap(b, topic)|);
    var here := FirstAndLater(b, topic, body, visits, counter, next);
    OneCopy(b, topic, body, visits, n, here, next, d);
  }

  lemma LaterInBroadcast(b: Broker, topic: string, body: string, visits: seq<Visit>, n: int, k: nat, d: Delivery)
    requires visits != [] && k == |ChannelMap(b, topic)| && d in Broadcast(b, topic, body, visits[1..], Wrap32(n + k)).0
    ensures d in Broadcast(b, topic, body, visits, Wrap32(n)).0
  {
    WrapAgain(n, k);
    var here := FirstAndLater(b, topic, body, visits, Wrap32(n), Wrap32(n + k));
  }

  // In every run: the i-th copy of a SEND has exactly these headers, and its
  // message-id counts all ids taken in the run before it and those that its
  // own broadcast took up to it.
  lemma CopiesNumbered(es: seq<Event>, m: nat, topic: string, i: nat, n: nat)
    requires LegalRun(es) && m < |es| && es[m].Inbound? && Broadcasts(es[m].frame)
    requires topic == StripSlash(es[m].frame.headers["destination"]) && LegalRun(es[..m]) && n == Issued(es[..m])
    requires i < |es[m].choice.visits| && es[m].choice.visits[i].connection in Run(es[..m]).broker.handlers
    requires Legal(Run(es[..m]), es[m])
    ensures CopyAt(topic, es[m].frame.body, es[m].choice.visits, i, |ChannelMap(Run(es[..m]).broker, topic)|, n)
         in StepOut(Run(es[..m]), es[m])
  {
    var b, f, ch := Run(es[..m]).broker, es[m].frame, es[m].choice;
    CounterIsIssued(es[..m]);
    BroadcastSends(b, topic, f.body, ch.visits, n, i, |ChannelMap(b, topic)|,
      CopyAt(topic, f.body, ch.visits, i, |ChannelMap(b, topic)|, n));
    SendIsBroadcast(b, es[m].c, f, ch);
    SendReceipt(b, es[m].c, f, ch);
  }
}
