// A run of the reactor that closes a connection before the receipt of its
// DISCONNECT is written: one read brings a CONNECT and a DISCONNECT, and the
// selector writes the first reply while the worker decodes the second frame.
module Unflushed {
  import opened Text
  import opened Codec
  import opened Stream
  import opened Buffers
  import opened Reactor
  import opened Drops
  import W = Writes
  import R = Reads
  import P = ActorPool
  import B = Broker

  // The write side with one connection and one worker.
  predicate Side(w: W.State, o: W.Outbox, tasks: seq<int>, p: W.Selector, sender: W.Sender)
  {
    && w.known == {0} && w.open == {0} && W.Out(w, 0) == o && w.tasks == tasks && w.selector == p
    && w.senders == [sender]
  }

  const IDLE := W.Sender([], W.BeforeAdd)

  // ------------------------------------------------------- the worker sends

  lemma SendOnce(es: seq<Step>, s: State) returns (es': seq<Step>, s': State)
    requires Reached(1, es, s) && W.Enabled(s.w, W.SendStep(0))
    ensures Reached(1, es', s') && s' == s.(w := W.Do(s.w, W.SendStep(0)))
  {
    es', s' := Extend(1, es, s, SendStep(0));
  }

  lemma AddStep(w: W.State, o: W.Outbox, p: W.Selector, m: W.Send)
    requires Side(w, o, [], p, W.Sender([m], W.BeforeAdd)) && m.to == 0
    ensures W.Enabled(w, W.SendStep(0))
    ensures Side(W.Do(w, W.SendStep(0)), W.DoAdd(o, m.bytes), [], p, W.Sender([m], W.Added))
  {
  }

  lemma PostStep(w: W.State, o: W.Outbox, p: W.Selector, m: W.Send)
    requires Side(w, o, [], p, W.Sender([m], W.Added)) && m.to == 0
    ensures W.Enabled(w, W.SendStep(0)) && Side(W.Do(w, W.SendStep(0)), o, [0], p, W.Sender([m], W.Posted))
  {
  }

  lemma WakeStep(w: W.State, o: W.Outbox, p: W.Selector, m: W.Send)
    requires Side(w, o, [0], p, W.Sender([m], W.Posted)) && m.to == 0
    ensures W.Enabled(w, W.SendStep(0)) && Side(W.Do(w, W.SendStep(0)), o, [0], p, IDLE) && W.Do(w, W.SendStep(0)).wakeup
  {
    assert [m][1..] == [];
  }

  // The whole of `send`.
  lemma SendAll(es: seq<Step>, s: State, o: W.Outbox, p: W.Selector, m: W.Send) returns (es': seq<Step>, s': State)
    requires Reached(1, es, s) && Side(s.w, o, [], p, W.Sender([m], W.BeforeAdd)) && m.to == 0
    ensures Reached(1, es', s') && s' == s.(w := s'.w)
    ensures Side(s'.w, W.DoAdd(o, m.bytes), [0], p, IDLE) && s'.w.wakeup
  {
    AddStep(s.w, o, p, m);
    es', s' := SendOnce(es, s);
    PostStep(s'.w, W.DoAdd(o, m.bytes), p, m);
    es', s' := SendOnce(es', s');
    WakeStep(s'.w, W.DoAdd(o, m.bytes), p, m);
    es', s' := SendOnce(es', s');
  }

  // The end of a frame's processing.
  lemma EndFrame(es: seq<Step>, s: State, data: seq<byte>, pos: nat, ending: Ending) returns (es': seq<Step>, s': State)
    requires Reached(1, es, s) && Processing(s, data, pos, ending) && s.w.senders == [IDLE] && !ending.Throw?
    ensures Reached(1, es', s') && Draining(s', data, pos) && s'.w == s.w && s'.ready == s.ready && s'.at == s.at
    ensures R.In(s'.r, 0) == R.In(s.r, 0)
    ensures s'.ending == if ending.Terminate? then s.ending + {0} else s.ending
  {
    es', s' := Extend(1, es, s, EndProcess(0));
  }

  // One frame of a read, decoded, answered with one message and finished.
  lemma Answer(es: seq<Step>, s: State, data: seq<byte>, k: nat, f: Frame, m: W.Send, ending: Ending, o: W.Outbox, p: W.Selector)
    returns (es': seq<Step>, s': State)
    requires Reached(1, es, s) && Draining(s, data, k) && k < |data| && data[k] == 0
    requires Parse(R.In(s.r, 0).decoder) == Ok(f) && Fits(R.In(s.r, 0).decoder, ending) && !ending.Throw?
    requires Side(s.w, o, [], p, IDLE) && m.to == 0
    ensures Reached(1, es', s') && Draining(s', data, k + 1)
    ensures Side(s'.w, W.DoAdd(o, m.bytes), [0], p, IDLE) && s'.w.wakeup && s'.ready == s.ready && s'.at == s.at
    ensures R.In(s'.r, 0) == R.In(s.r, 0).(decoder := "", fed := R.In(s.r, 0).fed + [0], processed := R.In(s.r, 0).processed + [f])
    ensures s'.ending == if ending.Terminate? then s.ending + {0} else s.ending
  {
    es', s' := FeedNul(es, s, data, k, f, [m], ending);
    es', s' := SendAll(es', s', o, p, m);
    es', s' := EndFrame(es', s', data, k + 1, ending);
  }

  // ---------------------------------------------------- the selector writes

  // What only workers change.
  predicate SameTasks(s: State, s': State)
  {
    s'.r == s.r && s'.endings == s.endings && s'.ending == s.ending
  }

  lemma Move(es: seq<Step>, s: State, e: W.Step) returns (es': seq<Step>, s': State)
    requires Reached(1, es, s) && SelectorOwn(s, e) && W.Enabled(s.w, e)
    ensures Reached(1, es', s') && s' == s.(w := W.Do(s.w, e))
  {
    es', s' := Extend(1, es, s, SelectorStep(e));
  }

  // Back to select, and out of it by the wakeup.
  lemma Woken(es: seq<Step>, s: State, o: W.Outbox) returns (es': seq<Step>, s': State)
    requires Reached(1, es, s) && Side(s.w, o, [0], W.Away, IDLE) && s.w.wakeup
    requires s.at == AfterRead(0, false) && s.ready == [] && s.r.reader.Elsewhere?
    ensures Reached(1, es', s') && Side(s'.w, o, [0], W.TestingTasks, IDLE) && SameTasks(s, s')
    ensures s'.at == NextKey && s'.ready == []
  {
    es', s' := Extend(1, es, s, CheckWrite);
    es', s' := Extend(1, es', s', TakeKey);
    es', s' := Extend(1, es', s', Select([]));
  }

  // The task turns OP_WRITE on.
  lemma TurnedOn(es: seq<Step>, s: State, o: W.Outbox) returns (es': seq<Step>, s': State)
    requires Reached(1, es, s) && Side(s.w, o, [0], W.TestingTasks, IDLE) && s.at == NextKey && s.ready == []
    requires s.r.reader.Elsewhere?
    ensures Reached(1, es', s') && Side(s'.w, o.(opWrite := true), [], W.Selecting, IDLE) && SameTasks(s, s')
    ensures s'.at == NextKey && s'.ready == []
  {
    es', s' := Move(es, s, W.TestTasks);
    es', s' := Move(es', s', W.RunTask);
    es', s' := Move(es', s', W.TestTasks);
    es', s' := Extend(1, es', s', TakeKey);
  }

  // The key is ready for writing.
  lemma Entered(es: seq<Step>, s: State, o: W.Outbox) returns (es': seq<Step>, s': State)
    requires Reached(1, es, s) && Side(s.w, o, [], W.Selecting, IDLE) && o.opWrite && s.at == NextKey && s.ready == []
    requires s.r.reader.Elsewhere?
    ensures Reached(1, es', s') && Side(s'.w, o, [], W.TestingQueue(0), IDLE) && SameTasks(s, s')
  {
    es', s' := Extend(1, es, s, Select([Key(0, false, true)]));
    es', s' := Move(es', s', W.TestTasks);
    es', s' := Extend(1, es', s', TakeKey);
    es', s' := Extend(1, es', s', CheckWrite);
  }

  // The one buffer is written and both emptiness tests see the queue empty.
  lemma Drained(es: seq<Step>, s: State, bytes: seq<byte>) returns (es': seq<Step>, s': State)
    requires Reached(1, es, s) && Side(s.w, W.Outbox([Buf(bytes, 0)], true, [bytes], []), [], W.TestingQueue(0), IDLE)
    ensures Reached(1, es', s') && Side(s'.w, W.Outbox([], true, [bytes], bytes), [], W.CheckingEnd(0), IDLE)
    ensures SameTasks(s, s')
  {
    es', s' := Move(es, s, W.TestQueue);
    es', s' := Move(es', s', W.WriteChannel(|bytes|));
    assert [] + bytes[..|bytes|] == bytes;
    es', s' := Move(es', s', W.CheckTop);
    es', s' := Move(es', s', W.TestQueue);
    es', s' := Move(es', s', W.TestAgain);
  }

  // From the reply in the queue to the test of the termination flag.
  lemma Flushed(es: seq<Step>, s: State, bytes: seq<byte>) returns (es': seq<Step>, s': State)
    requires Reached(1, es, s) && s.w.wakeup
    requires Side(s.w, W.Outbox([Buf(bytes, 0)], false, [bytes], []), [0], W.Away, IDLE)
    requires s.at == AfterRead(0, false) && s.ready == [] && s.r.reader.Elsewhere?
    ensures Reached(1, es', s') && Side(s'.w, W.Outbox([], true, [bytes], bytes), [], W.CheckingEnd(0), IDLE)
    ensures SameTasks(s, s')
  {
    var o := W.Outbox([Buf(bytes, 0)], false, [bytes], []);
    es', s' := Woken(es, s, o);
    es', s' := TurnedOn(es', s', o);
    es', s' := Entered(es', s', o.(opWrite := true));
    es', s' := Drained(es', s', bytes);
  }

  // ---------------------------------------------------------- the whole run

  // A read that consists of two frames.
  predicate TwoFrames(data: seq<byte>, text1: string, text2: string)
  {
    && |data| == |text1| + |text2| + 2 <= R.BUFFER_SIZE
    && data[|text1|] == 0 && data[|data| - 1] == 0
    && (forall i :: 0 <= i < |text1| ==> data[i] != 0)
    && (forall i :: |text1| + 1 <= i < |data| - 1 ==> data[i] != 0)
    && Chars(data[..|text1|]) == text1 && Chars(data[|text1| + 1..|data| - 1]) == text2
  }

  // The first reply is in the write queue.
  lemma FirstReplied(data: seq<byte>, k: nat, text: string, f: Frame, reply: seq<byte>) returns (es: seq<Step>, s: State)
    requires k < |data| <= R.BUFFER_SIZE && data[k] == 0 && forall i :: 0 <= i < k ==> data[i] != 0
    requires Chars(data[..k]) == text && Parse(text) == Ok(f) && Fits(text, Continue)
    ensures Reached(1, es, s) && Draining(s, data, k + 1) && s.at == AfterRead(0, false) && s.ready == [] && s.ending == {}
    ensures Side(s.w, W.Outbox([Buf(reply, 0)], false, [reply], []), [0], W.Away, IDLE) && s.w.wakeup
    ensures R.In(s.r, 0) == R.Inbox("", data, data[..k + 1], [f], false, [])
  {
    es, s := FeedFirst(data, k);
    es, s := Answer(es, s, data, k, f, W.Send(0, reply), Continue, W.Outbox([], false, [], []), W.Away);
    OneAdded(reply);
    UpToNul(data, k);
    assert [] + [f] == [f];
  }

  lemma OneAdded(bytes: seq<byte>)
    ensures W.DoAdd(W.Outbox([], false, [], []), bytes) == W.Outbox([Buf(bytes, 0)], false, [bytes], [])
  {
  }

  lemma AnotherAdded(before: seq<byte>, bytes: seq<byte>)
    ensures W.DoAdd(W.Outbox([], true, [before], before), bytes) == W.Outbox([Buf(bytes, 0)], true, [before, bytes], before)
  {
  }

  lemma FirstAnswered(data: seq<byte>, k: nat, text: string, f: Frame, reply: seq<byte>) returns (es: seq<Step>, s: State)
    requires k < |data| <= R.BUFFER_SIZE && data[k] == 0 && forall i :: 0 <= i < k ==> data[i] != 0
    requires Chars(data[..k]) == text && Parse(text) == Ok(f) && Fits(text, Continue)
    ensures Reached(1, es, s) && Draining(s, data, k + 1) && s.ending == {}
    ensures Side(s.w, W.Outbox([], true, [reply], reply), [], W.CheckingEnd(0), IDLE)
    ensures R.In(s.r, 0) == R.Inbox("", data, data[..k + 1], [f], false, [])
  {
    es, s := FirstReplied(data, k, text, f, reply);
    var s0 := s;
    es, s := Flushed(es, s, reply);
    SameDraining(s0, s, data, k + 1);
  }

  lemma SameDraining(s: State, s': State, data: seq<byte>, pos: nat)
    requires Draining(s, data, pos) && SameTasks(s, s') && s'.w.senders == [IDLE]
    ensures Draining(s', data, pos)
  {
  }

  // The second frame's text.
  lemma SecondFed(es: seq<Step>, s: State, data: seq<byte>, p: nat, k: nat, text: string, processed: seq<Frame>)
    returns (es': seq<Step>, s': State)
    requires Reached(1, es, s) && Draining(s, data, p)
    requires p <= k < |data| && forall i :: p <= i < k ==> data[i] != 0
    requires Chars(data[p..k]) == text && R.In(s.r, 0) == R.Inbox("", data, data[..p], processed, false, [])
    ensures Reached(1, es', s') && Draining(s', data, k) && SelectorSame(s, s')
    ensures R.In(s'.r, 0) == R.Inbox(text, data, data[..k], processed, false, [])
  {
    es', s' := FeedSpan(es, s, data, p, k - p);
    FedFrom(R.In(s.r, 0), data, p, k, text);
  }

  lemma FedFrom(i: R.Inbox, data: seq<byte>, p: nat, k: nat, text: string)
    requires p <= k < |data| && Chars(data[p..p + (k - p)]) == text && i.decoder == "" && i.fed == data[..p]
    ensures i.decoder + Chars(data[p..p + (k - p)]) == text && i.fed + data[p..p + (k - p)] == data[..k]
  {
    assert p + (k - p) == k;
    assert data[..p] + data[p..k] == data[..k];
  }

  // The worker answers the second frame before the selector tests the flag.
  lemma SecondAnswered(es: seq<Step>, s: State, data: seq<byte>, k: nat, text: string, f1: Frame, f: Frame, reply: seq<byte>, receipt: seq<byte>)
    returns (es': seq<Step>, s': State)
    requires Reached(1, es, s) && Draining(s, data, k) && s.ending == {}
    requires Side(s.w, W.Outbox([], true, [reply], reply), [], W.CheckingEnd(0), IDLE)
    requires |data| == k + 1 && data[k] == 0 && R.In(s.r, 0) == R.Inbox(text, data, data[..k], [f1], false, [])
    requires Parse(text) == Ok(f) && Fits(text, Terminate)
    ensures Reached(1, es', s') && Receipted(s'.w, reply, receipt) && s'.ending == {0}
    ensures R.In(s'.r, 0) == R.Inbox("", data, data, [f1, f], false, [])
  {
    es', s' := Answer(es, s, data, k, f, W.Send(0, receipt), Terminate, W.Outbox([], true, [reply], reply), W.CheckingEnd(0));
    AnotherAdded(reply, receipt);
    UpToNul(data, k);
    assert data[..k + 1] == data && [f1] + [f] == [f1, f];
  }

  // The selector has seen the queue empty, and a worker has put the receipt
  // there since.
  predicate Receipted(w: W.State, reply: seq<byte>, receipt: seq<byte>)
  {
    Side(w, W.Outbox([Buf(receipt, 0)], true, [reply, receipt], reply), [0], W.CheckingEnd(0), IDLE)
  }

  lemma SecondDone(es: seq<Step>, s: State, data: seq<byte>, p: nat, text: string, f1: Frame, f: Frame, reply: seq<byte>, receipt: seq<byte>)
    returns (es': seq<Step>, s': State)
    requires Reached(1, es, s) && Draining(s, data, p) && s.ending == {}
    requires Side(s.w, W.Outbox([], true, [reply], reply), [], W.CheckingEnd(0), IDLE)
    requires p < |data| && R.In(s.r, 0) == R.Inbox("", data, data[..p], [f1], false, [])
    requires data[|data| - 1] == 0 && Chars(data[p..|data| - 1]) == text && forall i :: p <= i < |data| - 1 ==> data[i] != 0
    requires Parse(text) == Ok(f) && Fits(text, Terminate)
    ensures Reached(1, es', s') && Receipted(s'.w, reply, receipt) && s'.ending == {0}
    ensures R.In(s'.r, 0) == R.Inbox("", data, data, [f1, f], false, [])
  {
    es', s' := SecondFed(es, s, data, p, |data| - 1, text, [f1]);
    es', s' := SecondAnswered(es', s', data, |data| - 1, text, f1, f, reply, receipt);
  }

  lemma BothAnswered(data: seq<byte>, text1: string, text2: string, f1: Frame, f2: Frame, reply: seq<byte>, receipt: seq<byte>)
    returns (es: seq<Step>, s: State)
    requires TwoFrames(data, text1, text2) && Parse(text1) == Ok(f1) && Fits(text1, Continue)
    requires Parse(text2) == Ok(f2) && Fits(text2, Terminate)
    ensures Reached(1, es, s) && Receipted(s.w, reply, receipt) && s.ending == {0}
    ensures R.In(s.r, 0) == R.Inbox("", data, data, [f1, f2], false, [])
  {
    var k := |text1|;
    es, s := FirstAnswered(data, k, text1, f1, reply);
    es, s := SecondDone(es, s, data, k + 1, text2, f1, f2, reply, receipt);
  }

  // A CONNECT and a DISCONNECT with a receipt in one read: both frames are
  // processed and answered, and the channel is closed with the first answer
  // written and the receipt still in the queue.
  lemma ReceiptUnwritten() returns (es: seq<Step>, s: State, f1: Frame, f2: Frame, reply: seq<byte>, receipt: seq<byte>)
    ensures f1 == ConnectFrame() && f2 == DisconnectFrame()
    ensures reply == Encode(B.ConnectedFrame(), ["version "]) && receipt == Encode(B.ReceiptFrame("7"), ["receipt-id"])
    ensures Reached(1, es, s) && 0 in s.w.known && 0 !in s.w.open && s.ending == {0}
    ensures R.In(s.r, 0).processed == [f1, f2] && R.In(s.r, 0).fed == R.In(s.r, 0).received
    ensures W.Out(s.w, 0) == W.Outbox([Buf(receipt, 0)], true, [reply, receipt], reply)
  {
    f1, f2 := ConnectFrame(), DisconnectFrame();
    var text1 := ConnectText(f1);
    var text2 := DisconnectText(f2);
    var data := TwoFramesData(text1, text2);
    reply, receipt := Encode(B.ConnectedFrame(), ["version "]), Encode(B.ReceiptFrame("7"), ["receipt-id"]);
    es, s := BothAnswered(data, text1, text2, f1, f2, reply, receipt);
    es, s := ClosedNow(es, s, reply, receipt);
  }

  lemma ClosedNow(es: seq<Step>, s: State, reply: seq<byte>, receipt: seq<byte>) returns (es': seq<Step>, s': State)
    requires Reached(1, es, s) && Receipted(s.w, reply, receipt) && s.ending == {0}
    ensures Reached(1, es', s') && s'.w.known == {0} && 0 !in s'.w.open && SameTasks(s, s')
    ensures W.Out(s'.w, 0) == W.Outbox([Buf(receipt, 0)], true, [reply, receipt], reply)
  {
    es', s' := Move(es, s, W.CheckEnd(true));
  }

  function ConnectFrame(): Frame
  {
    Frame("CONNECT", map["login" := "a", "passcode" := "b"], "")
  }

  function DisconnectFrame(): Frame
  {
    Frame("DISCONNECT", map["receipt" := "7"], "")
  }

  // These are the broker's answers to the two frames from a first connection.
  lemma FramesAnswered(b: B.Broker, ch1: B.Choice, ch2: B.Choice)
    requires b == B.Init().(handlers := {0})
    requires Enumerates(ch1.headerOrder, ConnectFrame().headers.Keys) && Enumerates(ch2.headerOrder, DisconnectFrame().headers.Keys)
    ensures var o := B.Process(b, 0, ConnectFrame(), ch1);
      && !o.threw && o.out == [B.Delivery(0, B.ConnectedFrame())]
      && B.Process(o.broker, 0, DisconnectFrame(), ch2).out == [B.Delivery(0, B.ReceiptFrame("7"))]
  {
  }

  lemma ConnectText(f: Frame) returns (text: string)
    requires f == ConnectFrame()
    ensures |text| < 100 && Plain(text) && Parse(text) == Ok(f) && Fits(text, Continue)
  {
    var order := ["login", "passcode"];
    ConnectPlain(f, order);
    text := PrintText(f, order);
    TwoHeaders(f.headers, "login", "passcode");
    assert |text| == |f.command| + |NL| + |Unlines(HeaderLines(f.headers, order), '\n')| + |NL| + |f.body|;
    TextParses(f, order);
  }

  lemma ConnectPlain(f: Frame, order: seq<string>)
    requires f == ConnectFrame() && order == ["login", "passcode"]
    ensures WellFormed(f) && PlainFrame(f) && Enumerates(order, f.headers.Keys)
  {
    assert forall k :: k in f.headers ==> k in order && Word(k) && Word(f.headers[k]);
  }

  // A word that can stand on either side of a header's colon.
  predicate Word(s: string)
  {
    Plain(s) && Trimmed(Java, s) && ':' !in s && '\n' !in s
  }

  lemma DisconnectText(f: Frame) returns (text: string)
    requires f == DisconnectFrame()
    ensures |text| < 100 && Plain(text) && Parse(text) == Ok(f) && Fits(text, Terminate)
  {
    var order := ["receipt"];
    DisconnectPlain(f, order);
    text := PrintText(f, order);
    OneHeader(f.headers, "receipt");
    assert |text| == |f.command| + |NL| + |Unlines(HeaderLines(f.headers, order), '\n')| + |NL| + |f.body|;
    TextParses(f, order);
  }

  lemma DisconnectPlain(f: Frame, order: seq<string>)
    requires f == DisconnectFrame() && order == ["receipt"]
    ensures WellFormed(f) && PlainFrame(f) && Enumerates(order, f.headers.Keys)
  {
  }

  lemma TwoHeaders(h: map<string, string>, j: string, k: string)
    requires j in h && k in h
    ensures |Unlines(HeaderLines(h, [j, k]), '\n')| == |j| + |h[j]| + |k| + |h[k]| + 4
  {
    assert [j, k][1..] == [k] && HeaderLines(h, [j, k]) == [j + ":" + h[j], k + ":" + h[k]];
    assert [j + ":" + h[j], k + ":" + h[k]][1..] == [k + ":" + h[k]];
    OneHeader(h, k);
    assert HeaderLines(h, [k]) == [k + ":" + h[k]];
  }

  lemma TwoFramesData(text1: string, text2: string) returns (data: seq<byte>)
    requires Plain(text1) && Plain(text2) && |text1| < 100 && |text2| < 100
    ensures TwoFrames(data, text1, text2)
  {
    PlainBytes(text1);
    PlainBytes(text2);
    var a, b := EncodeText(text1), EncodeText(text2);
    data := a + [0] + b + [0];
    assert data[..|a|] == a && data[|a| + 1..|a| + 1 + |b|] == b;
    assert forall i :: |a| + 1 <= i < |a| + 1 + |b| ==> data[i] == b[i - |a| - 1];
  }
}
