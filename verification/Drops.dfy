// A run of the reactor in which an exception drops bytes: every complete frame
// that was read parses, and still not all of it is decoded.
module Drops {
  import opened Text
  import opened Codec
  import opened Stream
  import opened Buffers
  import opened Reactor
  import W = Writes
  import R = Reads
  import P = ActorPool
  import ReadOrder

  lemma {:induction false} RunSnoc(s: State, es: seq<Step>, e: Step)
    requires LegalRun(s, es) && Enabled(Run(s, es), e)
    ensures LegalRun(s, es + [e]) && Run(s, es + [e]) == Do(Run(s, es), e)
    decreases |es|
  {
    if es == [] {
      assert ([] + [e])[1..] == [];
    } else {
      assert (es + [e])[0] == es[0] && (es + [e])[1..] == es[1..] + [e];
      RunSnoc(Do(s, es[0]), es[1..], e);
    }
  }

  // One more step of a run.
  lemma Extend(n: nat, es: seq<Step>, s: State, e: Step) returns (es': seq<Step>, s': State)
    requires Reached(n, es, s) && Enabled(s, e)
    ensures Reached(n, es', s') && s' == Do(s, e)
  {
    RunSnoc(Init(n), es, e);
    es', s' := es + [e], Do(s, e);
  }

  // The selector is parked and nobody is in the middle of a send.
  predicate Parked(s: State)
  {
    && s.w.selector.Selecting? && s.w.tasks == [] && s.w.senders == [W.Sender([], W.BeforeAdd)]
    && s.ready == [] && s.at.NextKey? && |s.endings| == 1
  }

  lemma Start() returns (es: seq<Step>, s: State)
    ensures Reached(1, es, s) && Parked(s) && s.r == R.Init(1) && s.w == W.Init(1) && s.nextId == 0 && s.ending == {}
  {
    es, s := [], Init(1);
  }

  lemma OneAccepted() returns (es: seq<Step>, s: State)
    ensures Reached(1, es, s) && Parked(s) && s.r == R.Init(1) && s.ending == {}
    ensures s.w.open == {0} && s.w.known == {0} && W.Out(s.w, 0) == W.Outbox([], false, [], [])
  {
    es, s := Start();
    es, s := Extend(1, es, s, Select([NewClient]));
    es, s := Extend(1, es, s, SelectorStep(W.TestTasks));
    es, s := Extend(1, es, s, TakeKey);
    es, s := Extend(1, es, s, Register);
    es, s := Extend(1, es, s, TakeKey);
  }

  // The selector has handed on the read of the first connection's key.
  predicate AfterFirstRead(s: State)
  {
    && s.w.selector.Away? && s.at == AfterRead(0, false) && s.ready == [] && s.ending == {}
    && s.w.open == {0} && s.w.known == {0} && s.w.tasks == [] && W.Out(s.w, 0) == W.Outbox([], false, [], [])
  }

  lemma OneLeased() returns (es: seq<Step>, s: State)
    ensures Reached(1, es, s) && s.w.senders == [W.Sender([], W.BeforeAdd)] && |s.endings| == 1
    ensures s.r == R.DoLease(R.Init(1), 0) && AfterFirstRead(s)
  {
    es, s := OneAccepted();
    es, s := Extend(1, es, s, Select([Key(0, true, false)]));
    es, s := Extend(1, es, s, SelectorStep(W.TestTasks));
    es, s := Extend(1, es, s, TakeKey);
  }

  // Worker 0 is inside the task of one read of connection 0.
  predicate Draining(s: State, data: seq<byte>, pos: nat)
  {
    && |s.endings| == 1 && s.w.senders == [W.Sender([], W.BeforeAdd)]
    && s.r.local == [R.Loop] && s.r.reader.Elsewhere?
    && s.r.pool == P.Start(P.Submit(P.Init(1), 0, R.ReadTask(0, data)), 0)
    && R.Mem(s.r, 0) == Buf(data, pos)
  }

  lemma OnePicked(data: seq<byte>) returns (es: seq<Step>, s: State)
    requires |data| <= R.BUFFER_SIZE
    ensures Reached(1, es, s) && Draining(s, data, 0) && R.In(s.r, 0) == R.Inbox("", data, [], [], false, [])
    ensures AfterFirstRead(s)
  {
    es, s := OneLeased();
    PickRead(s.r, data);
    es, s := Extend(1, es, s, ReadChannel(data));
    es, s := Extend(1, es, s, SubmitTask);
    es, s := Extend(1, es, s, Pick(0));
  }

  // The read side of it.
  lemma PickRead(r: R.State, data: seq<byte>)
    requires r == R.DoLease(R.Init(1), 0) && |data| <= R.BUFFER_SIZE
    ensures R.Enabled(r, R.ReadChannel(data)) && R.Enabled(R.Do(r, R.ReadChannel(data)), R.SubmitTask)
    ensures R.Enabled(R.Do(R.Do(r, R.ReadChannel(data)), R.SubmitTask), R.Pick(0))
    ensures var r' := R.Do(R.Do(R.Do(r, R.ReadChannel(data)), R.SubmitTask), R.Pick(0));
      && r'.local == [R.Loop] && r'.reader.Elsewhere? && R.Mem(r', 0) == Buf(data, 0)
      && r'.pool == P.Start(P.Submit(P.Init(1), 0, R.ReadTask(0, data)), 0)
      && R.In(r', 0) == R.Inbox("", data, [], [], false, [])
  {
    assert [] + data == data;
  }

  // How the processing of a frame with this text may well end.
  function SomeEnding(raw: string): (e: Ending)
    ensures Fits(raw, e)
  {
    match Parse(raw)
    case Err(_) => Continue
    case Ok(f) => if f.command == "DISCONNECT" then Terminate else Continue
  }

  // The selector's side is as it was.
  predicate SelectorSame(s: State, s': State)
  {
    s'.w == s.w && s'.ready == s.ready && s'.at == s.at && s'.ending == s.ending
  }

  // Decoding a byte that is not a NUL.
  lemma FeedOne(es: seq<Step>, s: State, data: seq<byte>, pos: nat) returns (es': seq<Step>, s': State)
    requires Reached(1, es, s) && Draining(s, data, pos) && pos < |data| && data[pos] != 0
    ensures Reached(1, es', s') && Draining(s', data, pos + 1) && SelectorSame(s, s')
    ensures R.In(s'.r, 0) == R.In(s.r, 0).(decoder := R.In(s.r, 0).decoder + [ToChar(data[pos])], fed := R.In(s.r, 0).fed + [data[pos]])
  {
    es', s' := Extend(1, es, s, FeedByte(0, [], SomeEnding(R.In(s.r, 0).decoder)));
  }

  // Decoding `k` such bytes.
  lemma {:induction false} FeedSpan(es: seq<Step>, s: State, data: seq<byte>, p: nat, k: nat)
    returns (es': seq<Step>, s': State)
    requires Reached(1, es, s) && Draining(s, data, p)
    requires p + k <= |data| && forall i :: p <= i < p + k ==> data[i] != 0
    ensures Reached(1, es', s') && Draining(s', data, p + k) && SelectorSame(s, s')
    ensures FedSpan(R.In(s.r, 0), R.In(s'.r, 0), data, p, k)
  {
    var i := R.In(s.r, 0);
    if k == 0 {
      es', s' := es, s;
      assert i.decoder + "" == i.decoder && i.fed + [] == i.fed;
    } else {
      es', s' := FeedSpan(es, s, data, p, k - 1);
      var i1 := R.In(s'.r, 0);
      es', s' := FeedOne(es', s', data, p + k - 1);
      SpanOn(i, i1, R.In(s'.r, 0), data, p, k);
    }
  }

  // The inbox after the bytes of a read from `p` on.
  predicate FedSpan(i: R.Inbox, i': R.Inbox, data: seq<byte>, p: nat, k: nat)
    requires p + k <= |data|
  {
    i' == i.(decoder := i.decoder + Chars(data[p..p + k]), fed := i.fed + data[p..p + k])
  }

  lemma SpanOn(i: R.Inbox, i1: R.Inbox, i': R.Inbox, data: seq<byte>, p: nat, k: nat)
    requires 0 < k && p + k <= |data| && FedSpan(i, i1, data, p, k - 1)
    requires i' == i1.(decoder := i1.decoder + [ToChar(data[p + k - 1])], fed := i1.fed + [data[p + k - 1]])
    ensures FedSpan(i, i', data, p, k)
  {
    SpanNext(i, data, p, k);
  }

  lemma SpanNext(i: R.Inbox, data: seq<byte>, p: nat, k: nat)
    requires 0 < k && p + k <= |data|
    ensures i.decoder + Chars(data[p..p + k - 1]) + [ToChar(data[p + k - 1])] == i.decoder + Chars(data[p..p + k])
    ensures i.fed + data[p..p + k - 1] + [data[p + k - 1]] == i.fed + data[p..p + k]
  {
    var before, x := data[p..p + k - 1], data[p + k - 1];
    assert data[p..p + k] == before + [x];
    assert Chars(data[p..p + k]) == Chars(before) + [ToChar(x)];
    Regroup(i.fed, before, [x]);
    Regroup(i.decoder, Chars(before), [ToChar(x)]);
  }

  // Worker 0 is processing a frame that it will end so.
  predicate Processing(s: State, data: seq<byte>, pos: nat, ending: Ending)
  {
    && s.endings == [ending]
    && s.r.local == [R.Processing] && s.r.reader.Elsewhere?
    && s.r.pool == P.Start(P.Submit(P.Init(1), 0, R.ReadTask(0, data)), 0)
    && R.Mem(s.r, 0) == Buf(data, pos)
  }

  // Decoding the NUL of a frame that parses.
  lemma FeedNul(es: seq<Step>, s: State, data: seq<byte>, k: nat, f: Frame, sends: seq<W.Send>, ending: Ending)
    returns (es': seq<Step>, s': State)
    requires Reached(1, es, s) && Draining(s, data, k) && k < |data| && data[k] == 0
    requires Parse(R.In(s.r, 0).decoder) == Ok(f) && Fits(R.In(s.r, 0).decoder, ending)
    ensures Reached(1, es', s') && Processing(s', data, k + 1, ending)
    ensures s'.w == s.w.(senders := [W.Sender(sends, W.BeforeAdd)])
    ensures s'.ready == s.ready && s'.at == s.at && s'.ending == s.ending
    ensures R.In(s'.r, 0) == R.In(s.r, 0).(decoder := "", fed := R.In(s.r, 0).fed + [0], processed := R.In(s.r, 0).processed + [f])
  {
    NulRead(s.r, data, k, f);
    es', s' := NulStep(es, s, sends, ending);
  }

  lemma NulStep(es: seq<Step>, s: State, sends: seq<W.Send>, ending: Ending) returns (es': seq<Step>, s': State)
    requires Reached(1, es, s) && R.Enabled(s.r, R.FeedByte(0)) && R.ActOf(s.r, 0) == 0 && Fits(R.In(s.r, 0).decoder, ending)
    requires |s.endings| == 1 && s.w.senders == [W.Sender([], W.BeforeAdd)]
    requires R.Do(s.r, R.FeedByte(0)).local == [R.Processing]
    ensures Reached(1, es', s') && s'.r == R.Do(s.r, R.FeedByte(0)) && s'.endings == [ending]
    ensures s'.w == s.w.(senders := [W.Sender(sends, W.BeforeAdd)])
    ensures s'.ready == s.ready && s'.at == s.at && s'.ending == s.ending
  {
    NulEnabled(s, sends, ending);
    es', s' := Extend(1, es, s, FeedByte(0, sends, ending));
    FeedEndings(s, 0, sends, ending);
    FeedWrites(s, 0, sends, ending);
    FeedRest(s, 0, sends, ending);
    BeginOne(s.w, sends);
  }

  // The read side of decoding that NUL.
  lemma NulRead(r: R.State, data: seq<byte>, k: nat, f: Frame)
    requires r.local == [R.Loop] && r.pool == P.Start(P.Submit(P.Init(1), 0, R.ReadTask(0, data)), 0)
    requires k < |data| && data[k] == 0 && R.Mem(r, 0) == Buf(data, k)
    requires Parse(R.In(r, 0).decoder) == Ok(f)
    ensures R.Enabled(r, R.FeedByte(0)) && R.ActOf(r, 0) == 0
    ensures var r' := R.Do(r, R.FeedByte(0));
      && r'.local == [R.Processing] && r'.pool == r.pool && r'.reader == r.reader && R.Mem(r', 0) == Buf(data, k + 1)
      && R.In(r', 0) == R.In(r, 0).(decoder := "", fed := R.In(r, 0).fed + [0], processed := R.In(r, 0).processed + [f])
  {
  }

  lemma IdlessFits(raw: string, f: Frame)
    requires Parse(raw) == Ok(f) && Idless(f)
    ensures Fits(raw, Throw)
  {
    NotDisconnect(f);
  }

  lemma NotDisconnect(f: Frame)
    requires Idless(f)
    ensures f.command != "DISCONNECT"
  {
  }

  lemma NulEnabled(s: State, sends: seq<W.Send>, ending: Ending)
    requires R.Enabled(s.r, R.FeedByte(0)) && R.ActOf(s.r, 0) == 0 && Fits(R.In(s.r, 0).decoder, ending)
    requires |s.endings| == 1 && s.w.senders == [W.Sender([], W.BeforeAdd)]
    ensures Enabled(s, FeedByte(0, sends, ending))
  {
  }

  lemma FeedRest(s: State, v: int, sends: seq<W.Send>, ending: Ending)
    requires Enabled(s, FeedByte(v, sends, ending))
    ensures var s' := DoFeed(s, v, sends, ending);
      s'.ready == s.ready && s'.at == s.at && s'.ending == s.ending
  {
  }

  lemma BeginOne(w: W.State, sends: seq<W.Send>)
    requires w.senders == [W.Sender([], W.BeforeAdd)]
    ensures W.Enabled(w, W.Begin(0, sends)) && W.Do(w, W.Begin(0, sends)) == w.(senders := [W.Sender(sends, W.BeforeAdd)])
  {
  }

  lemma Raise(es: seq<Step>, s: State, data: seq<byte>, k: nat, f: Frame) returns (es': seq<Step>, s': State)
    requires Reached(1, es, s) && Processing(s, data, k, Throw) && Idless(f) && s.w.senders == [W.Sender([], W.BeforeAdd)]
    requires k <= |data| && R.In(s.r, 0) == R.Inbox("", data, data[..k], [f], false, [])
    ensures Reached(1, es', s') && s'.r.reader.Elsewhere? && s'.r.local == [R.Unwinding]
    ensures s'.r.pool == s.r.pool && R.Mem(s'.r, 0) == Buf(data, k)
    ensures R.In(s'.r, 0) == R.Inbox("", data, data[..k], [f], true, [])
  {
    es', s' := Extend(1, es, s, EndProcess(0));
  }

  lemma Leave(es: seq<Step>, s: State, data: seq<byte>, k: nat, f: Frame) returns (es': seq<Step>, s': State)
    requires Reached(1, es, s) && s.r.reader.Elsewhere? && s.r.local == [R.Unwinding]
    requires s.r.pool == P.Start(P.Submit(P.Init(1), 0, R.ReadTask(0, data)), 0) && R.Mem(s.r, 0) == Buf(data, k)
    requires k <= |data| && R.In(s.r, 0) == R.Inbox("", data, data[..k], [f], true, [])
    ensures Reached(1, es', s') && s'.r.reader.Elsewhere? && P.Quiet(s'.r.pool) && R.Tasks(s'.r, 0) == [R.ReadTask(0, data)]
    ensures R.In(s'.r, 0) == R.Inbox("", data, data[..k], [f], true, [R.End(k, true)])
  {
    ReleaseRead(s.r, data, k);
    es', s' := Extend(1, es, s, Release(0));
    CompleteRead(s'.r, data);
    es', s' := Extend(1, es', s', Complete(0));
  }

  lemma ReleaseRead(r: R.State, data: seq<byte>, k: nat)
    requires r.local == [R.Unwinding] && R.Mem(r, 0) == Buf(data, k)
    requires r.pool == P.Start(P.Submit(P.Init(1), 0, R.ReadTask(0, data)), 0)
    ensures R.Enabled(r, R.Release(0))
    ensures var r' := R.Do(r, R.Release(0));
      && r'.reader == r.reader && r'.local == [R.Loop] && r'.pool == P.Finish(r.pool, 0)
      && R.In(r', 0) == R.In(r, 0).(ends := R.In(r, 0).ends + [R.End(k, true)])
  {
  }

  lemma CompleteRead(r: R.State, data: seq<byte>)
    requires r.local == [R.Loop] && r.pool == P.Finish(P.Start(P.Submit(P.Init(1), 0, R.ReadTask(0, data)), 0), 0)
    ensures R.Enabled(r, R.Complete(0))
    ensures var r' := R.Do(r, R.Complete(0));
      r'.reader == r.reader && r'.inbox == r.inbox && P.Quiet(r'.pool) && R.Tasks(r', 0) == [R.ReadTask(0, data)]
  {
  }

  // The text of a read's first frame, from the start of its task.
  lemma FeedFirst(data: seq<byte>, k: nat) returns (es: seq<Step>, s: State)
    requires k < |data| <= R.BUFFER_SIZE && forall i :: 0 <= i < k ==> data[i] != 0
    ensures Reached(1, es, s) && Draining(s, data, k) && AfterFirstRead(s)
    ensures R.In(s.r, 0) == R.Inbox(Chars(data[..k]), data, data[..k], [], false, [])
  {
    es, s := OnePicked(data);
    es, s := FeedSpan(es, s, data, 0, k);
    assert data[0..k] == data[..k] && "" + Chars(data[..k]) == Chars(data[..k]) && [] + data[..k] == data[..k];
  }

  lemma FirstThrows(data: seq<byte>, k: nat, text: string, f: Frame) returns (es: seq<Step>, s: State)
    requires k < |data| <= R.BUFFER_SIZE && data[k] == 0 && forall i :: 0 <= i < k ==> data[i] != 0
    requires Chars(data[..k]) == text && Parse(text) == Ok(f) && Idless(f)
    ensures Reached(1, es, s) && Processing(s, data, k + 1, Throw) && s.w.senders == [W.Sender([], W.BeforeAdd)]
    ensures R.In(s.r, 0) == R.Inbox("", data, data[..k + 1], [f], false, [])
  {
    es, s := FeedFirst(data, k);
    IdlessFits(text, f);
    es, s := FeedNul(es, s, data, k, f, [], Throw);
    UpToNul(data, k);
    assert [] + [f] == [f];
  }

  lemma UpToNul(data: seq<byte>, k: nat)
    requires k < |data| && data[k] == 0
    ensures data[..k] + [0] == data[..k + 1]
  {
  }

  // One read whose first frame throws, up to the end of its task.
  lemma OneDropped(data: seq<byte>, k: nat, text: string, f: Frame) returns (es: seq<Step>, s: State)
    requires k < |data| <= R.BUFFER_SIZE && data[k] == 0 && forall i :: 0 <= i < k ==> data[i] != 0
    requires Chars(data[..k]) == text && Parse(text) == Ok(f) && Idless(f)
    ensures Reached(1, es, s) && s.r.reader.Elsewhere? && P.Quiet(s.r.pool) && R.Tasks(s.r, 0) == [R.ReadTask(0, data)]
    ensures R.In(s.r, 0) == R.Inbox("", data, data[..k + 1], [f], true, [R.End(k + 1, true)])
  {
    es, s := FirstThrows(data, k, text, f);
    es, s := Raise(es, s, data, k + 1, f);
    es, s := Leave(es, s, data, k + 1, f);
  }

  // A SUBSCRIBE without an id and one more byte in the same read: the byte is
  // dropped, although the only complete frame parses and is processed.
  lemma BytesDropped() returns (es: seq<Step>, s: State, f: Frame)
    ensures Reached(1, es, s) && P.Quiet(s.r.pool) && !s.r.reader.Submitting?
    ensures Decode("", R.In(s.r, 0).received).out == [Ok(f)] && R.In(s.r, 0).processed == [f]
    ensures |R.In(s.r, 0).ends| == |R.Tasks(s.r, 0)| == 1 && ReadOrder.CutShort(s.r, 0, 0)
    ensures R.In(s.r, 0).received == R.In(s.r, 0).fed + [65]
  {
    f := Frame("SUBSCRIBE", map["destination" := "t"], "");
    var text := SubscribeText(f);
    var data := EncodeText(text) + [0, 65];
    SubscribeData(f, text, data);
    es, s := OneDropped(data, |text|, text, f);
    assert data == data[..|text| + 1] + [65];
  }

  lemma SubscribeText(f: Frame) returns (text: string)
    requires f == Frame("SUBSCRIBE", map["destination" := "t"], "")
    ensures |text| < 100 && Plain(text) && Parse(text) == Ok(f) && Idless(f)
  {
    var order := ["destination"];
    OneKey(f);
    text := PrintText(f, order);
    OneHeader(f.headers, "destination");
    assert |text| == |f.command| + |NL| + |Unlines(HeaderLines(f.headers, order), '\n')| + |NL| + |f.body|;
    PlainWords(f);
    TextParses(f, order);
  }

  lemma OneKey(f: Frame)
    requires f.headers == map["destination" := "t"]
    ensures Enumerates(["destination"], f.headers.Keys)
  {
  }

  lemma PlainWords(f: Frame)
    requires f == Frame("SUBSCRIBE", map["destination" := "t"], "")
    ensures WellFormed(f) && PlainFrame(f) && Idless(f)
  {
  }

  lemma TextParses(f: Frame, order: seq<string>)
    requires WellFormed(f) && PlainFrame(f) && Enumerates(order, f.headers.Keys)
    ensures Plain(PrintText(f, order)) && Parse(PrintText(f, order)) == Ok(f)
  {
    PlainPrintText(f, order);
    ParsePrinted(f, order);
  }

  lemma OneHeader(h: map<string, string>, k: string)
    requires k in h
    ensures |Unlines(HeaderLines(h, [k]), '\n')| == |k| + |h[k]| + 2
  {
    assert [k][1..] == [] && [k + ":" + h[k]][1..] == [];
    assert HeaderLines(h, [k]) == [k + ":" + h[k]];
  }

  lemma SubscribeData(f: Frame, text: string, data: seq<byte>)
    requires Plain(text) && Parse(text) == Ok(f) && data == EncodeText(text) + [0, 65]
    ensures |data| == |text| + 2 && data[|text|] == 0 && data[|text| + 1] == 65 && Chars(data[..|text|]) == text
    ensures forall i :: 0 <= i < |text| ==> data[i] != 0
    ensures Decode("", data).out == [Ok(f)]
  {
    PlainBytes(text);
    TwoMore(EncodeText(text), data);
    assert Chars(data) == text + [NUL] + "A";
    DecodesFirst(data, text, f);
  }

  lemma TwoMore(xs: seq<byte>, data: seq<byte>)
    requires data == xs + [0, 65]
    ensures |data| == |xs| + 2 && data[..|xs|] == xs && data[|xs|] == 0 && data[|xs| + 1] == 65
    ensures Chars(data) == Chars(xs) + [NUL] + "A"
    ensures forall i :: 0 <= i < |xs| ==> data[i] == xs[i]
  {
    CharsAppend(xs, [0, 65]);
    assert Chars([0, 65]) == [NUL] + "A";
    Regroup(Chars(xs), [NUL], "A");
  }

  lemma PlainBytes(text: string)
    requires Plain(text)
    ensures |EncodeText(text)| == |text| && Chars(EncodeText(text)) == text
    ensures forall i :: 0 <= i < |text| ==> EncodeText(text)[i] != 0
  {
    CharsOfPlain(text);
    forall i | 0 <= i < |text| ensures EncodeText(text)[i] != 0 {
      assert ToChar(EncodeText(text)[i]) == text[i];
    }
  }

  lemma CharsAppend(xs: seq<byte>, ys: seq<byte>)
    ensures Chars(xs + ys) == Chars(xs) + Chars(ys)
  {
  }

  lemma DecodesFirst(data: seq<byte>, text: string, f: Frame)
    requires Plain(text) && Parse(text) == Ok(f) && Chars(data) == text + [NUL] + "A"
    ensures Decode("", data).out == [Ok(f)]
  {
    DecodeIsCut("", data);
    assert "" + Chars(data) == Chars(data);
    CutAfterPiece(text, "A");
    PiecesOfPiece("A", NUL);
  }
}
