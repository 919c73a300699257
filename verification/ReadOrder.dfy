// In-order processing: what reaches a connection's decoder and protocol, over
// all interleavings of the selector and the workers.
module ReadOrder {
  import opened Text
  import opened Codec
  import opened Stream
  import opened Buffers
  import opened Reads
  import opened Ownership
  import P = ActorPool

  function Datas(ts: seq<ReadTask>): (r: seq<seq<byte>>)
    ensures |r| == |ts| && forall i :: 0 <= i < |r| ==> r[i] == ts[i].data
  {
    seq(|ts|, i requires 0 <= i < |ts| => ts[i].data)
  }

  // The bytes of the first `n` tasks of `c`.
  function Bytes(s: State, c: int, n: nat): seq<byte>
    requires n <= |Tasks(s, c)|
  {
    Flatten(Datas(Tasks(s, c)[..n]))
  }

  // The bytes the selector has read for `c` and not yet submitted.
  function InHand(s: State, c: int): seq<byte>
  {
    if s.reader.Submitting? && s.reader.c == c then s.reader.data else []
  }

  // The bytes the running task of `c`, if any, has consumed.
  function Current(s: State, c: int): seq<byte>
  {
    var n := |In(s, c).ends|;
    if n < |Started(s, c)| && n < |Tasks(s, c)| && Mem(s, Tasks(s, c)[n].buf).pos <= |Mem(s, Tasks(s, c)[n].buf).data|
    then Mem(s, Tasks(s, c)[n].buf).data[..Mem(s, Tasks(s, c)[n].buf).pos]
    else []
  }

  // What a decoded frame does when it is processed: an exception for certain
  // when it does not parse, and possibly for a SUBSCRIBE without an id.
  predicate Raising(p: Parsed)
  {
    p.Err? || Idless(p.value)
  }

  predicate HasRaising(out: seq<Parsed>)
  {
    exists i :: 0 <= i < |out| && Raising(out[i])
  }

  // Some complete frame of the stream does not parse, or is a SUBSCRIBE
  // without an id.
  predicate RaisingInput(bs: seq<byte>)
  {
    HasRaising(Decode("", bs).out)
  }

  // The frames among the decoder's results.
  function Oks(out: seq<Parsed>): seq<Frame>
  {
    if out == [] then []
    else Oks(out[..|out| - 1]) + (if out[|out| - 1].Ok? then [out[|out| - 1].value] else [])
  }

  // The bytes of a task that were decoded.
  function Taken(t: ReadTask, e: End): seq<byte>
  {
    if e.kept <= |t.data| then t.data[..e.kept] else t.data
  }

  function TakenParts(ts: seq<ReadTask>, es: seq<End>): (r: seq<seq<byte>>)
    requires |ts| == |es|
    ensures |r| == |ts| && forall i :: 0 <= i < |r| ==> r[i] == Taken(ts[i], es[i])
  {
    seq(|ts|, i requires 0 <= i < |ts| => Taken(ts[i], es[i]))
  }

  // The bytes decoded by the first `n` finished tasks of `c`.
  function Kept(s: State, c: int, n: nat): seq<byte>
    requires n <= |In(s, c).ends| <= |Tasks(s, c)|
  {
    Flatten(TakenParts(Tasks(s, c)[..n], In(s, c).ends[..n]))
  }

  // The bytes read from the channel are those of the submitted tasks, in
  // order, and those in the selector's hand.
  predicate AllArrived(s: State, c: int)
  {
    In(s, c).received == Bytes(s, c, |Tasks(s, c)|) + InHand(s, c)
  }

  // A finished task without an exception decoded all of its bytes; one with an
  // exception decoded them up to the NUL of a raising frame.
  predicate EndsWell(s: State, c: int, i: nat)
    requires i < |In(s, c).ends| <= |Tasks(s, c)|
  {
    var t, e := Tasks(s, c)[i], In(s, c).ends[i];
    && e.kept <= |t.data|
    && (!e.raised ==> e.kept == |t.data|)
    && (e.raised ==> e.kept > 0 && t.data[e.kept - 1] == 0 && EndsRaising(Decode("", Kept(s, c, i + 1)).out))
  }

  predicate EndsRaising(out: seq<Parsed>)
  {
    out != [] && Raising(out[|out| - 1])
  }

  // The decoder was fed what the finished tasks decoded and what the running
  // task has consumed.
  predicate FedInOrder(s: State, c: int)
  {
    && |In(s, c).ends| <= |Tasks(s, c)|
    && (forall i :: 0 <= i < |In(s, c).ends| ==> EndsWell(s, c, i))
    && (!In(s, c).lost ==> forall i :: 0 <= i < |In(s, c).ends| ==> !In(s, c).ends[i].raised)
    && In(s, c).fed == Kept(s, c, |In(s, c).ends|) + Current(s, c)
  }

  // The first raising frame decoded is the r-th one, and up to it the decoded
  // frames are those of the stream that was read.
  predicate SameUntil(i: Inbox, r: nat)
  {
    var out := Decode("", i.fed).out;
    r < |out| && Raising(out[r]) && out[..r + 1] <= Decode("", i.received).out
  }

  // The decoder's text and the processed frames are those of the fed bytes;
  // after an exception they are those of the stream up to a raising frame.
  ghost predicate Decoding(i: Inbox)
  {
    && i.decoder == Decode("", i.fed).buffer
    && i.processed == Oks(Decode("", i.fed).out)
    && (!i.lost ==> Decode("", i.fed).out == AllOk(i.processed))
    && (i.lost ==> exists r: nat :: SameUntil(i, r))
  }

  // A worker that is processing a frame or unwinding has just decoded a NUL.
  predicate MidFrame(s: State, w: int)
  {
    0 <= w < |s.local| && InTask(s, w) && !s.local[w].Loop? ==>
      AtNul(In(s, ActOf(s, w)), Current(s, ActOf(s, w)), s.local[w])
  }

  predicate AtNul(i: Inbox, current: seq<byte>, l: Local)
  {
    var out := Decode("", i.fed).out;
    && current != [] && current[|current| - 1] == 0 && out != []
    && (l.Processing? ==> i.processed != [] && out[|out| - 1] == Ok(i.processed[|i.processed| - 1]))
    && (l.Unwinding? ==> i.lost && EndsRaising(out))
  }

  // The last byte completes a frame that does not parse.
  predicate ErrAt(bs: seq<byte>)
  {
    bs != [] && bs[|bs| - 1] == 0 && Decode("", bs).out != [] && Decode("", bs).out[|Decode("", bs).out| - 1].Err?
  }

  // The last byte completes a frame that raises, or may.
  predicate RaiseAt(bs: seq<byte>)
  {
    bs != [] && bs[|bs| - 1] == 0 && EndsRaising(Decode("", bs).out)
  }

  // After `m` decoded bytes a task of `c` finished.
  predicate TaskEnd(s: State, c: int, m: nat)
    requires |In(s, c).ends| <= |Tasks(s, c)|
  {
    exists j :: 0 <= j <= |In(s, c).ends| && m == |Kept(s, c, j)|
  }

  ghost predicate UnwindingOn(s: State, c: int)
  {
    exists w :: RunningOn(s, w, c) && s.local[w].Unwinding?
  }

  // A frame that does not parse is the last thing its task decodes.
  ghost predicate ErrorsEnd(s: State, c: int)
  {
    && |In(s, c).ends| <= |Tasks(s, c)|
    && forall m :: 0 <= m <= |In(s, c).fed| && ErrAt(In(s, c).fed[..m]) ==>
         TaskEnd(s, c, m) || (m == |In(s, c).fed| && UnwindingOn(s, c))
  }

  ghost predicate OrderInv(s: State)
  {
    && (forall c :: AllArrived(s, c))
    && (forall c :: FedInOrder(s, c))
    && (forall c :: Decoding(In(s, c)))
    && (forall w :: MidFrame(s, w))
    && (forall c :: ErrorsEnd(s, c))
  }

  ghost predicate Inv(s: State)
  {
    PoolInv(s) && Owned(s) && Contents(s) && OrderInv(s)
  }

  // ---------------------------------------------------------- small facts

  lemma {:induction false} FlattenPrefix(xs: seq<seq<byte>>, n: nat)
    requires n <= |xs|
    ensures Flatten(xs) == Flatten(xs[..n]) + Flatten(xs[n..])
  {
    assert xs == xs[..n] + xs[n..];
    FlattenAppend(xs[..n], xs[n..]);
  }

  lemma BytesNext(s: State, c: int, n: nat)
    requires n < |Tasks(s, c)|
    ensures Bytes(s, c, n + 1) == Bytes(s, c, n) + Tasks(s, c)[n].data
  {
    var ts := Tasks(s, c);
    assert Datas(ts[..n + 1]) == Datas(ts[..n]) + [ts[n].data];
    FlattenSnoc(Datas(ts[..n]), ts[n].data);
  }

  lemma BytesGrow(s: State, c: int, n: nat, m: nat)
    requires n <= m <= |Tasks(s, c)|
    ensures Bytes(s, c, n) <= Bytes(s, c, m)
  {
    var ds := Datas(Tasks(s, c)[..m]);
    assert ds[..n] == Datas(Tasks(s, c)[..n]);
    FlattenPrefix(ds, n);
  }

  lemma DecodeNext(bs: seq<byte>, x: byte)
    ensures var d := Decode("", bs);
      Decode("", bs + [x]) == Decoded(d.out + DecodeByte(d.buffer, x).out, DecodeByte(d.buffer, x).buffer)
  {
    var d := Decode("", bs);
    DecodeAppend("", bs, [x]);
    assert [x][1..] == [];
    assert Decode(d.buffer, [x]) == DecodeByte(d.buffer, x) by {
      assert DecodeByte(d.buffer, x).out + [] == DecodeByte(d.buffer, x).out;
    }
  }

  lemma DecodePrefix(xs: seq<byte>, ys: seq<byte>)
    requires xs <= ys
    ensures Decode("", xs).out <= Decode("", ys).out
  {
    assert ys == xs + ys[|xs|..];
    DecodeAppend("", xs, ys[|xs|..]);
  }

  lemma OksSnoc(out: seq<Parsed>, p: Parsed)
    ensures Oks(out + [p]) == Oks(out) + (if p.Ok? then [p.value] else [])
  {
    assert (out + [p])[..|out|] == out;
  }

  lemma KeptNext(s: State, c: int, n: nat)
    requires n < |In(s, c).ends| <= |Tasks(s, c)|
    ensures Kept(s, c, n + 1) == Kept(s, c, n) + Taken(Tasks(s, c)[n], In(s, c).ends[n])
  {
    var ts, es := Tasks(s, c), In(s, c).ends;
    assert TakenParts(ts[..n + 1], es[..n + 1]) == TakenParts(ts[..n], es[..n]) + [Taken(ts[n], es[n])];
    FlattenSnoc(TakenParts(ts[..n], es[..n]), Taken(ts[n], es[n]));
  }

  lemma KeptSame(s: State, s': State, c: int, n: nat)
    requires n <= |In(s, c).ends| <= |Tasks(s, c)|
    requires In(s, c).ends <= In(s', c).ends && Tasks(s, c) <= Tasks(s', c) && |In(s', c).ends| <= |Tasks(s', c)|
    ensures Kept(s', c, n) == Kept(s, c, n)
  {
    assert Tasks(s', c)[..n] == Tasks(s, c)[..n] && In(s', c).ends[..n] == In(s, c).ends[..n];
  }

  // Tasks that decoded everything.
  lemma {:induction false} KeptWhole(s: State, c: int, n: nat)
    requires n <= |In(s, c).ends| <= |Tasks(s, c)|
    requires forall i :: 0 <= i < n ==> In(s, c).ends[i].kept == |Tasks(s, c)[i].data|
    ensures Kept(s, c, n) == Bytes(s, c, n)
  {
    if n > 0 {
      KeptWhole(s, c, n - 1);
      KeptNext(s, c, n - 1);
      BytesNext(s, c, n - 1);
    }
  }

  // Tasks that decoded as much as they were given.
  lemma {:induction false} KeptLength(s: State, c: int, n: nat)
    requires n <= |In(s, c).ends| <= |Tasks(s, c)|
    requires forall i :: 0 <= i < n ==> In(s, c).ends[i].kept <= |Tasks(s, c)[i].data|
    ensures |Kept(s, c, n)| <= |Bytes(s, c, n)|
    ensures |Kept(s, c, n)| == |Bytes(s, c, n)| ==> forall i :: 0 <= i < n ==> In(s, c).ends[i].kept == |Tasks(s, c)[i].data|
  {
    if n > 0 {
      KeptLength(s, c, n - 1);
      KeptNext(s, c, n - 1);
      BytesNext(s, c, n - 1);
    }
  }

  // What is fed is a prefix of what was read, while nothing is lost.
  lemma FedIsPrefix(s: State, c: int)
    requires PoolInv(s) && Contents(s) && AllArrived(s, c) && FedInOrder(s, c) && !In(s, c).lost
    ensures In(s, c).fed <= In(s, c).received
  {
    var n := |In(s, c).ends|;
    AllKept(s, c);
    assert Progress(s, c);
    StartedPrefix(s, c);
    BytesGrow(s, c, n, |Tasks(s, c)|);
    if n < |Started(s, c)| {
      assert Intact(s, c, n);
      BytesNext(s, c, n);
      BytesGrow(s, c, n + 1, |Tasks(s, c)|);
      assert Bytes(s, c, n) + Current(s, c) <= Bytes(s, c, n + 1);
    }
  }

  lemma AllKept(s: State, c: int)
    requires FedInOrder(s, c) && !In(s, c).lost
    ensures In(s, c).fed == Bytes(s, c, |In(s, c).ends|) + Current(s, c)
  {
    EndFacts(s, c);
    KeptWhole(s, c, |In(s, c).ends|);
  }

  lemma EndFacts(s: State, c: int)
    requires FedInOrder(s, c)
    ensures forall i :: 0 <= i < |In(s, c).ends| ==> In(s, c).ends[i].kept <= |Tasks(s, c)[i].data|
    ensures forall i :: 0 <= i < |In(s, c).ends| && !In(s, c).ends[i].raised ==> In(s, c).ends[i].kept == |Tasks(s, c)[i].data|
  {
    forall i | 0 <= i < |In(s, c).ends|
      ensures In(s, c).ends[i].kept <= |Tasks(s, c)[i].data|
      ensures !In(s, c).ends[i].raised ==> In(s, c).ends[i].kept == |Tasks(s, c)[i].data|
    {
      assert EndsWell(s, c, i);
    }
  }

  // ----------------------------------------------------------------- steps

  lemma StepArrived(s: State, e: Step, c: int)
    requires PoolInv(s) && AllArrived(s, c) && Enabled(s, e)
    ensures AllArrived(Do(s, e), c)
  {
    if e.SubmitTask? && s.reader.c == c {
      var s', n := Do(s, e), |Tasks(s, c)|;
      assert Tasks(s', c)[..n] == Tasks(s, c)[..n];
      BytesNext(s', c, n);
    } else if e.ReadChannel? && s.reader.c == c {
      assert In(s, c).received == Bytes(s, c, |Tasks(s, c)|);
    } else {
      SameArrived(s, e, c);
    }
  }

  lemma SameArrived(s: State, e: Step, c: int)
    requires Enabled(s, e) && !(e.SubmitTask? && s.reader.c == c) && !(e.ReadChannel? && s.reader.c == c)
    ensures In(Do(s, e), c).received == In(s, c).received
    ensures Tasks(Do(s, e), c) == Tasks(s, c)
    ensures InHand(Do(s, e), c) == InHand(s, c)
  {
  }

  // The facts about c's first unfinished task that the steps below need.
  predicate FirstTask(s: State, c: int)
  {
    var n := |In(s, c).ends|;
    && n <= |Started(s, c)| <= |Tasks(s, c)| && |Started(s, c)| <= n + 1
    && (n < |Tasks(s, c)| ==> Intact(s, c, n))
  }

  lemma FirstTaskHolds(s: State, c: int)
    requires PoolInv(s) && Contents(s)
    ensures FirstTask(s, c)
  {
    assert Progress(s, c);
    StartedPrefix(s, c);
  }

  // Steps that leave c's running task and decoder alone.
  lemma FedFrame(s: State, s': State, c: int)
    requires FedInOrder(s, c)
    requires In(s', c).ends == In(s, c).ends && In(s', c).fed == In(s, c).fed
    requires In(s, c).lost ==> In(s', c).lost
    requires Tasks(s, c) <= Tasks(s', c) && Current(s', c) == Current(s, c)
    ensures FedInOrder(s', c)
  {
    KeptSame(s, s', c, |In(s, c).ends|);
    SameEnds(s, s', c);
  }

  lemma SameEnds(s: State, s': State, c: int)
    requires |In(s, c).ends| <= |Tasks(s, c)| && forall i :: 0 <= i < |In(s, c).ends| ==> EndsWell(s, c, i)
    requires In(s, c).ends <= In(s', c).ends && Tasks(s, c) <= Tasks(s', c) && |In(s', c).ends| <= |Tasks(s', c)|
    ensures forall i :: 0 <= i < |In(s, c).ends| ==> EndsWell(s', c, i)
  {
    forall i | 0 <= i < |In(s, c).ends| ensures EndsWell(s', c, i) {
      assert EndsWell(s, c, i);
      KeptSame(s, s', c, i + 1);
    }
  }

  // The running task of worker `w`, as the first unfinished one.
  predicate RunsFirst(s: State, w: int)
    requires InTask(s, w)
  {
    var c := ActOf(s, w);
    var n := |In(s, c).ends|;
    n + 1 == |Started(s, c)| <= |Tasks(s, c)| && Tasks(s, c)[n] == TaskOf(s, w)
  }

  // What a decoded byte does to the running task's part.
  lemma FeedCurrent(s: State, w: int)
    requires Enabled(s, FeedByte(w)) && RunsFirst(s, w)
    ensures var c, m := ActOf(s, w), Mem(s, TaskOf(s, w).buf);
      Current(Do(s, FeedByte(w)), c) == Current(s, c) + [m.data[m.pos]]
  {
    var c, m := ActOf(s, w), Mem(s, TaskOf(s, w).buf);
    assert Current(s, c) == m.data[..m.pos];
    assert Current(DoFeed(s, w), c) == m.data[..m.pos + 1] == m.data[..m.pos] + [m.data[m.pos]];
  }

  lemma FeedSame(s: State, w: int)
    requires Enabled(s, FeedByte(w)) && FedInOrder(s, ActOf(s, w)) && RunsFirst(s, w)
    ensures FedInOrder(Do(s, FeedByte(w)), ActOf(s, w))
  {
    var s', c, m := DoFeed(s, w), ActOf(s, w), Mem(s, TaskOf(s, w).buf);
    var n, x := |In(s, c).ends|, m.data[m.pos];
    FeedCurrent(s, w);
    KeptSame(s, s', c, n);
    SameEnds(s, s', c);
    Regroup(Kept(s, c, n), Current(s, c), [x]);
  }

  lemma FeedOther(s: State, w: int, c: int)
    requires Enabled(s, FeedByte(w)) && c != ActOf(s, w)
    requires |In(s, c).ends| < |Tasks(s, c)| ==> Tasks(s, c)[|In(s, c).ends|].buf != TaskOf(s, w).buf
    ensures var s' := Do(s, FeedByte(w));
      In(s', c) == In(s, c) && Tasks(s', c) == Tasks(s, c) && Current(s', c) == Current(s, c)
  {
  }

  lemma FeedApart(s: State, w: int, c: int)
    requires Inv(s) && Enabled(s, FeedByte(w)) && c != ActOf(s, w)
    ensures var s' := Do(s, FeedByte(w));
      In(s', c) == In(s, c) && Tasks(s', c) == Tasks(s, c) && Current(s', c) == Current(s, c)
  {
    var d, b := ActOf(s, w), TaskOf(s, w).buf;
    RunningIsFirst(s, w);
    assert Uses(s, d, |In(s, d).ends|, b);
    assert |In(s, c).ends| < |Tasks(s, c)| ==> Uses(s, c, |In(s, c).ends|, Tasks(s, c)[|In(s, c).ends|].buf);
    FeedOther(s, w, c);
  }

  lemma FeedFed(s: State, w: int, c: int)
    requires Inv(s) && Enabled(s, FeedByte(w))
    ensures FedInOrder(Do(s, FeedByte(w)), c)
  {
    RunningIsFirst(s, w);
    assert FedInOrder(s, c);
    if c == ActOf(s, w) {
      FeedSame(s, w);
    } else {
      FeedApart(s, w, c);
      FedFrame(s, DoFeed(s, w), c);
    }
  }

  lemma ReleaseSame(s: State, w: int)
    requires Enabled(s, Release(w)) && FedInOrder(s, ActOf(s, w)) && FirstTask(s, ActOf(s, w)) && RunsFirst(s, w)
    requires MidFrame(s, w)
    ensures FedInOrder(Do(s, Release(w)), ActOf(s, w))
  {
    var s', c := Do(s, Release(w)), ActOf(s, w);
    var n := |In(s, c).ends|;
    KeptSame(s, s', c, n);
    SameEnds(s, s', c);
    ReleasedPart(s, w);
    KeptNext(s', c, n);
    assert In(s, c).fed + [] == In(s, c).fed;
    assert EndsWell(s', c, n);
  }

  // The part that the finished task is remembered to have decoded.
  lemma ReleasedPart(s: State, w: int)
    requires Enabled(s, Release(w)) && FirstTask(s, ActOf(s, w)) && RunsFirst(s, w)
    ensures var s', c := Do(s, Release(w)), ActOf(s, w);
      var n := |In(s, c).ends|;
      && Tasks(s', c) == Tasks(s, c) && In(s', c).fed == In(s, c).fed && In(s', c).lost == In(s, c).lost
      && |In(s', c).ends| == n + 1 && In(s', c).ends[..n] == In(s, c).ends
      && Current(s', c) == [] && Taken(Tasks(s, c)[n], In(s', c).ends[n]) == Current(s, c)
      && In(s', c).ends[n].kept <= |Tasks(s, c)[n].data|
      && In(s', c).ends[n].raised == s.local[w].Unwinding?
      && (!In(s', c).ends[n].raised ==> In(s', c).ends[n].kept == |Tasks(s, c)[n].data|)
  {
  }

  lemma ReleaseOther(s: State, w: int, c: int)
    requires Enabled(s, Release(w)) && c != ActOf(s, w)
    ensures var s' := Do(s, Release(w));
      In(s', c) == In(s, c) && Tasks(s', c) == Tasks(s, c) && Current(s', c) == Current(s, c)
  {
  }

  lemma ReleaseFed(s: State, w: int, c: int)
    requires Inv(s) && Enabled(s, Release(w))
    ensures FedInOrder(Do(s, Release(w)), c)
  {
    RunningIsFirst(s, w);
    FirstTaskHolds(s, c);
    assert FedInOrder(s, c) && MidFrame(s, w);
    if c == ActOf(s, w) {
      ReleaseSame(s, w);
    } else {
      ReleaseOther(s, w, c);
      FedFrame(s, Do(s, Release(w)), c);
    }
  }

  lemma PickCurrent(s: State, w: int, c: int)
    requires Enabled(s, Pick(w)) && FirstTask(s, c)
    ensures var s' := Do(s, Pick(w));
      In(s', c) == In(s, c) && Tasks(s', c) == Tasks(s, c) && Current(s', c) == Current(s, c)
  {
  }

  lemma PickFed(s: State, w: int, c: int)
    requires Inv(s) && Enabled(s, Pick(w))
    ensures FedInOrder(Do(s, Pick(w)), c)
  {
    FirstTaskHolds(s, c);
    assert FedInOrder(s, c);
    PickCurrent(s, w, c);
    FedFrame(s, Do(s, Pick(w)), c);
  }

  lemma OtherCurrent(s: State, e: Step, c: int)
    requires Enabled(s, e) && !e.FeedByte? && !e.Release? && !e.Pick? && FirstTask(s, c)
    requires |In(s, c).ends| < |Tasks(s, c)| ==> !Holds(s, Tasks(s, c)[|In(s, c).ends|].buf)
    ensures var s' := Do(s, e);
      && Tasks(s, c) <= Tasks(s', c) && Current(s', c) == Current(s, c)
      && In(s', c).ends == In(s, c).ends && In(s', c).fed == In(s, c).fed && In(s', c).processed == In(s, c).processed
      && (In(s, c).lost ==> In(s', c).lost)
  {
  }

  lemma OtherKeeps(s: State, e: Step, c: int)
    requires Inv(s) && Enabled(s, e) && !e.FeedByte? && !e.Release? && !e.Pick?
    ensures var s' := Do(s, e);
      && Tasks(s, c) <= Tasks(s', c) && Current(s', c) == Current(s, c)
      && In(s', c).ends == In(s, c).ends && In(s', c).fed == In(s, c).fed && In(s', c).processed == In(s, c).processed
      && (In(s, c).lost ==> In(s', c).lost)
  {
    var n := |In(s, c).ends|;
    FirstTaskHolds(s, c);
    assert n < |Tasks(s, c)| ==> Uses(s, c, n, Tasks(s, c)[n].buf);
    OtherCurrent(s, e, c);
  }

  lemma OtherFed(s: State, e: Step, c: int)
    requires Inv(s) && Enabled(s, e) && !e.FeedByte? && !e.Release? && !e.Pick?
    ensures FedInOrder(Do(s, e), c)
  {
    assert FedInOrder(s, c);
    OtherKeeps(s, e, c);
    FedFrame(s, Do(s, e), c);
  }

  // What a decoded byte does to the inbox.
  lemma InboxDecoding(i: Inbox, x: byte)
    requires i.decoder == Decode("", i.fed).buffer && i.processed == Oks(Decode("", i.fed).out)
    requires !i.lost ==> Decode("", i.fed).out == AllOk(i.processed)
    ensures var j, out := FeedInbox(i, x), Decode("", i.fed).out;
      && j.fed == i.fed + [x] && j.received == i.received && j.decoder == Decode("", j.fed).buffer
      && Decode("", j.fed).out == (if x == 0 then out + [Parse(i.decoder)] else out)
      && j.processed == Oks(Decode("", j.fed).out)
      && (!j.lost ==> Decode("", j.fed).out == AllOk(j.processed))
      && j.lost == (i.lost || (x == 0 && Parse(i.decoder).Err?))
  {
    NextOut(i.fed, x);
    if x == 0 {
      ProcessedSnoc(Decode("", i.fed).out, Parse(i.decoder), i.processed);
    }
  }

  lemma NextOut(bs: seq<byte>, x: byte)
    ensures var d, e := Decode("", bs), Decode("", bs + [x]);
      && e.out == (if x == 0 then d.out + [Parse(d.buffer)] else d.out)
      && e.buffer == if x == 0 then "" else d.buffer + [ToChar(x)]
  {
    DecodeNext(bs, x);
    assert Decode("", bs).out + [] == Decode("", bs).out;
  }

  lemma ProcessedSnoc(out: seq<Parsed>, p: Parsed, processed: seq<Frame>)
    requires processed == Oks(out)
    ensures p.Ok? ==> Oks(out + [p]) == processed + [p.value]
    ensures p.Err? ==> Oks(out + [p]) == processed
    ensures p.Ok? && out == AllOk(processed) ==> out + [p] == AllOk(processed + [p.value])
  {
    OksSnoc(out, p);
    assert processed + [] == processed;
  }

  // Once the decoded frames agree with the stream up to a raising frame, more
  // bytes on either side change nothing.
  lemma StillSame(i: Inbox, j: Inbox, r: nat)
    requires SameUntil(i, r) && i.fed <= j.fed && i.received <= j.received
    ensures SameUntil(j, r)
  {
    DecodePrefix(i.fed, j.fed);
    DecodePrefix(i.received, j.received);
    assert Decode("", j.fed).out[..r + 1] == Decode("", i.fed).out[..r + 1];
  }

  // A raising frame decoded while the fed bytes are a prefix of the stream.
  lemma FirstRaise(i: Inbox)
    requires i.fed <= i.received && EndsRaising(Decode("", i.fed).out)
    ensures exists r: nat :: SameUntil(i, r)
  {
    var out := Decode("", i.fed).out;
    DecodePrefix(i.fed, i.received);
    assert out[..|out|] == out;
    assert SameUntil(i, |out| - 1);
  }

  lemma FeedDecoding(s: State, w: int)
    requires Inv(s) && Enabled(s, FeedByte(w))
    ensures Decoding(In(Do(s, FeedByte(w)), ActOf(s, w)))
  {
    var c, m := ActOf(s, w), Mem(s, TaskOf(s, w).buf);
    var i, x := In(s, c), m.data[m.pos];
    var j := FeedInbox(i, x);
    assert In(Do(s, FeedByte(w)), c) == j;
    assert Decoding(i);
    InboxDecoding(i, x);
    if i.lost {
      var r: nat :| SameUntil(i, r);
      StillSame(i, j, r);
    } else if j.lost {
      FedByteArrived(s, w);
      FirstRaise(j);
    }
  }

  lemma FedByteArrived(s: State, w: int)
    requires Inv(s) && Enabled(s, FeedByte(w)) && !In(s, ActOf(s, w)).lost
    ensures var i, m := In(s, ActOf(s, w)), Mem(s, TaskOf(s, w).buf);
      i.fed + [m.data[m.pos]] <= i.received
  {
    var c := ActOf(s, w);
    RunningIsFirst(s, w);
    FirstTaskHolds(s, c);
    assert FedInOrder(s, c) && AllArrived(s, c);
    AllKept(s, c);
    FedByteInBytes(s, w);
  }

  lemma FedByteInBytes(s: State, w: int)
    requires Enabled(s, FeedByte(w)) && AllArrived(s, ActOf(s, w)) && FirstTask(s, ActOf(s, w)) && RunsFirst(s, w)
    requires In(s, ActOf(s, w)).fed == Bytes(s, ActOf(s, w), |In(s, ActOf(s, w)).ends|) + Current(s, ActOf(s, w))
    ensures var i, m := In(s, ActOf(s, w)), Mem(s, TaskOf(s, w).buf);
      i.fed + [m.data[m.pos]] <= i.received
  {
    var c := ActOf(s, w);
    var n, m := |In(s, c).ends|, Mem(s, TaskOf(s, w).buf);
    BytesNext(s, c, n);
    BytesGrow(s, c, n + 1, |Tasks(s, c)|);
    assert m.data[..m.pos] + [m.data[m.pos]] <= m.data;
    assert Bytes(s, c, n) + m.data[..m.pos] + [m.data[m.pos]] <= Bytes(s, c, n) + m.data;
  }

  // An exception out of `process`: the frame is one of the stream's.
  lemma ThrowDecoding(s: State, w: int)
    requires Inv(s) && Enabled(s, EndProcess(w, true))
    ensures Decoding(In(Do(s, EndProcess(w, true)), ActOf(s, w)))
  {
    var c := ActOf(s, w);
    var i := In(s, c);
    var j := i.(lost := true);
    assert In(Do(s, EndProcess(w, true)), c) == j;
    assert Decoding(i) && MidFrame(s, w) && AllArrived(s, c) && FedInOrder(s, c);
    if i.lost {
      var r: nat :| SameUntil(i, r);
      StillSame(i, j, r);
    } else {
      FedIsPrefix(s, c);
      FirstRaise(j);
    }
  }

  lemma OtherInbox(s: State, e: Step, c: int)
    requires Enabled(s, e) && !e.FeedByte? && !(e.EndProcess? && e.throws && ActOf(s, e.w) == c)
    ensures var i, j := In(s, c), In(Do(s, e), c);
      j.decoder == i.decoder && j.fed == i.fed && j.processed == i.processed && i.received <= j.received && j.lost == i.lost
  {
  }

  lemma StepDecoding(s: State, e: Step, c: int)
    requires Inv(s) && Enabled(s, e)
    ensures Decoding(In(Do(s, e), c))
  {
    assert Decoding(In(s, c));
    if e.FeedByte? {
      if c == ActOf(s, e.w) {
        FeedDecoding(s, e.w);
      } else {
        FeedApart(s, e.w, c);
      }
    } else if e.EndProcess? && e.throws && ActOf(s, e.w) == c {
      ThrowDecoding(s, e.w);
    } else {
      OtherInbox(s, e, c);
      if In(s, c).lost {
        var r: nat :| SameUntil(In(s, c), r);
        StillSame(In(s, c), In(Do(s, e), c), r);
      }
    }
  }

  // Two workers never run tasks of one connection.
  lemma Apart(s: State, u: int, v: int)
    requires P.Inv(s.pool) && InTask(s, u) && InTask(s, v) && ActOf(s, u) == ActOf(s, v)
    ensures u == v
  {
    assert P.Busy(s.pool, u, ActOf(s, u)) && P.Busy(s.pool, v, ActOf(s, u));
  }

  lemma FeedMidFrame(s: State, w: int, v: int)
    requires Inv(s) && Enabled(s, FeedByte(w))
    ensures MidFrame(Do(s, FeedByte(w)), v)
  {
    if v == w {
      FeedMidSame(s, w);
    } else {
      FeedMidOther(s, w, v);
    }
  }

  lemma FeedMidSame(s: State, w: int)
    requires Inv(s) && Enabled(s, FeedByte(w))
    ensures MidFrame(Do(s, FeedByte(w)), w)
  {
    var c, m := ActOf(s, w), Mem(s, TaskOf(s, w).buf);
    RunningIsFirst(s, w);
    FeedCurrent(s, w);
    assert Decoding(In(s, c));
    InboxDecoding(In(s, c), m.data[m.pos]);
    FedMid(In(s, c), m.data[m.pos], Current(s, c));
    FedInbox(s, w);
  }

  lemma FedInbox(s: State, w: int)
    requires Enabled(s, FeedByte(w))
    ensures var s', c, m := Do(s, FeedByte(w)), ActOf(s, w), Mem(s, TaskOf(s, w).buf);
      && InTask(s', w) && ActOf(s', w) == c
      && In(s', c) == FeedInbox(In(s, c), m.data[m.pos]) && s'.local[w] == FeedLocal(In(s, c), m.data[m.pos])
  {
  }

  lemma FeedMidOther(s: State, w: int, v: int)
    requires Inv(s) && Enabled(s, FeedByte(w)) && v != w
    ensures MidFrame(Do(s, FeedByte(w)), v)
  {
    assert MidFrame(s, v);
    OtherWorker(s, w, v);
    if 0 <= v < |s.local| && InTask(s, v) {
      if ActOf(s, v) == ActOf(s, w) {
        Apart(s, v, w);
      }
      FeedApart(s, w, ActOf(s, v));
    }
  }

  lemma OtherWorker(s: State, w: int, v: int)
    requires Enabled(s, FeedByte(w)) && v != w
    ensures var s' := Do(s, FeedByte(w));
      && |s'.local| == |s.local| && s'.pool == s.pool && (0 <= v < |s.local| ==> s'.local[v] == s.local[v])
  {
  }

  lemma FedMid(i: Inbox, x: byte, current: seq<byte>)
    requires Decode("", FeedInbox(i, x).fed).out == if x == 0 then Decode("", i.fed).out + [Parse(i.decoder)] else Decode("", i.fed).out
    ensures !FeedLocal(i, x).Loop? ==> AtNul(FeedInbox(i, x), current + [x], FeedLocal(i, x))
  {
  }

  lemma OtherMidFrame(s: State, e: Step, v: int)
    requires Inv(s) && Enabled(s, e) && !e.FeedByte?
    ensures MidFrame(Do(s, e), v)
  {
    var s' := Do(s, e);
    assert MidFrame(s, v);
    if 0 <= v < |s'.local| && InTask(s', v) && !s'.local[v].Loop? {
      BusyBefore(s, e, v);
      PartsKept(s, e, v);
      var c := ActOf(s, v);
      NulKept(In(s, c), In(s', c), Current(s, c), s.local[v], s'.local[v]);
    }
  }

  lemma NulKept(i: Inbox, i': Inbox, current: seq<byte>, l: Local, l': Local)
    requires AtNul(i, current, l) && i'.fed == i.fed && i'.processed == i.processed && (i.lost ==> i'.lost)
    requires l' == l || (l.Processing? && l'.Unwinding? && i'.lost && MayThrow(i.processed))
    ensures AtNul(i', current, l')
  {
  }

  // Steps other than decoding leave the inbox and the part decoded alone for a
  // busy worker, but for the exception that it runs into itself.
  lemma PartsKept(s: State, e: Step, v: int)
    requires Inv(s) && Enabled(s, e) && !e.FeedByte? && InTask(s, v) && !(e.Release? && e.w == v) && !(e.Pick? && e.w == v)
    ensures var s', c := Do(s, e), ActOf(s, v);
      && Current(s', c) == Current(s, c)
      && In(s', c).fed == In(s, c).fed && In(s', c).processed == In(s, c).processed && (In(s, c).lost ==> In(s', c).lost)
      && (e.EndProcess? && e.throws && e.w == v ==> In(s', c).lost)
  {
    var c := ActOf(s, v);
    if e.Release? {
      if ActOf(s, e.w) == c {
        Apart(s, e.w, v);
      }
      ReleaseOther(s, e.w, c);
    } else if e.Pick? {
      FirstTaskHolds(s, c);
      PickCurrent(s, e.w, c);
    } else {
      OtherKeeps(s, e, c);
    }
  }

  lemma BusyBefore(s: State, e: Step, v: int)
    requires PoolInv(s) && Enabled(s, e) && !e.FeedByte?
    requires var s' := Do(s, e); 0 <= v < |s'.local| && InTask(s', v) && !s'.local[v].Loop?
    ensures InTask(s, v) && ActOf(Do(s, e), v) == ActOf(s, v) && !s.local[v].Loop?
    ensures !(e.Release? && e.w == v) && !(e.Pick? && e.w == v)
    ensures Do(s, e).local[v] == s.local[v] || (e == EndProcess(v, true) && Do(s, e).local[v].Unwinding?)
  {
  }

  lemma StepInv(s: State, e: Step)
    requires Inv(s) && Enabled(s, e)
    ensures Inv(Do(s, e))
  {
    StepPool(s, e);
    StepOwned(s, e);
    StepContents(s, e);
    StepOrder(s, e);
  }

  lemma StepOrder(s: State, e: Step)
    requires Inv(s) && Enabled(s, e)
    ensures OrderInv(Do(s, e))
  {
    var s' := Do(s, e);
    forall c ensures AllArrived(s', c) { StepArrived(s, e, c); }
    forall c ensures FedInOrder(s', c) {
      match e
      case FeedByte(w) => FeedFed(s, w, c);
      case Release(w) => ReleaseFed(s, w, c);
      case Pick(w) => PickFed(s, w, c);
      case _ => OtherFed(s, e, c);
    }
    forall c ensures Decoding(In(s', c)) { StepDecoding(s, e, c); }
    forall w ensures MidFrame(s', w) {
      if e.FeedByte? {
        FeedMidFrame(s, e.w, w);
      } else {
        OtherMidFrame(s, e, w);
      }
    }
    forall c ensures ErrorsEnd(s', c) { StepErrors(s, e, c); }
  }

  lemma TaskEndKept(s: State, s': State, c: int, m: nat)
    requires |In(s, c).ends| <= |Tasks(s, c)| && TaskEnd(s, c, m)
    requires In(s, c).ends <= In(s', c).ends && Tasks(s, c) <= Tasks(s', c) && |In(s', c).ends| <= |Tasks(s', c)|
    ensures TaskEnd(s', c, m)
  {
    var j :| 0 <= j <= |In(s, c).ends| && m == |Kept(s, c, j)|;
    KeptSame(s, s', c, j);
  }

  lemma StaysUnwinding(s: State, e: Step, c: int)
    requires Enabled(s, e) && UnwindingOn(s, c) && !(e.Release? && RunningOn(s, e.w, c))
    ensures UnwindingOn(Do(s, e), c)
  {
    var w :| RunningOn(s, w, c) && s.local[w].Unwinding?;
    assert RunningOn(Do(s, e), w, c) && Do(s, e).local[w].Unwinding?;
  }

  // Steps that decode nothing and finish no task of `c`.
  lemma ErrorsKept(s: State, e: Step, c: int)
    requires Enabled(s, e) && ErrorsEnd(s, c) && !(e.Release? && RunningOn(s, e.w, c))
    requires In(Do(s, e), c).fed == In(s, c).fed && In(Do(s, e), c).ends == In(s, c).ends && Tasks(s, c) <= Tasks(Do(s, e), c)
    ensures ErrorsEnd(Do(s, e), c)
  {
    var s' := Do(s, e);
    forall m | 0 <= m <= |In(s', c).fed| && ErrAt(In(s', c).fed[..m])
      ensures TaskEnd(s', c, m) || (m == |In(s', c).fed| && UnwindingOn(s', c))
    {
      if TaskEnd(s, c, m) {
        TaskEndKept(s, s', c, m);
      } else {
        StaysUnwinding(s, e, c);
      }
    }
  }

  // A decoded byte: only an unwinding worker has just decoded an error, and
  // the one that decodes is not.
  lemma FeedErrors(s: State, w: int)
    requires Inv(s) && Enabled(s, FeedByte(w))
    ensures ErrorsEnd(Do(s, FeedByte(w)), ActOf(s, w))
  {
    var s', c, m := Do(s, FeedByte(w)), ActOf(s, w), Mem(s, TaskOf(s, w).buf);
    assert ErrorsEnd(s, c) && Decoding(In(s, c));
    FedInbox(s, w);
    FedShape(s, w);
    NoneUnwinding(s, w);
    if ErrAt(In(s, c).fed + [m.data[m.pos]]) {
      ErrUnwinds(In(s, c), m.data[m.pos]);
    }
    GrowErrors(s, s', c, w, m.data[m.pos]);
  }

  lemma FedShape(s: State, w: int)
    requires Enabled(s, FeedByte(w))
    ensures var s', c, m := Do(s, FeedByte(w)), ActOf(s, w), Mem(s, TaskOf(s, w).buf);
      In(s', c).fed == In(s, c).fed + [m.data[m.pos]] && In(s', c).ends == In(s, c).ends && Tasks(s', c) == Tasks(s, c)
  {
  }

  // A byte that completes a frame that does not parse makes its task unwind.
  lemma ErrUnwinds(i: Inbox, x: byte)
    requires i.decoder == Decode("", i.fed).buffer && ErrAt(i.fed + [x])
    ensures FeedLocal(i, x).Unwinding?
  {
    NextOut(i.fed, x);
  }

  lemma GrowErrors(s: State, s': State, c: int, w: int, x: byte)
    requires ErrorsEnd(s, c) && !UnwindingOn(s, c)
    requires In(s', c).fed == In(s, c).fed + [x] && In(s', c).ends == In(s, c).ends && Tasks(s', c) == Tasks(s, c)
    requires ErrAt(In(s, c).fed + [x]) ==> RunningOn(s', w, c) && s'.local[w].Unwinding?
    ensures ErrorsEnd(s', c)
  {
    var fed := In(s, c).fed;
    forall k | 0 <= k <= |In(s', c).fed| && ErrAt(In(s', c).fed[..k])
      ensures TaskEnd(s', c, k) || (k == |In(s', c).fed| && UnwindingOn(s', c))
    {
      if k <= |fed| {
        assert In(s', c).fed[..k] == fed[..k];
        TaskEndKept(s, s', c, k);
      } else {
        assert In(s', c).fed[..k] == fed + [x];
      }
    }
  }

  lemma NoneUnwinding(s: State, w: int)
    requires P.Inv(s.pool) && InTask(s, w) && !s.local[w].Unwinding?
    ensures !UnwindingOn(s, ActOf(s, w))
  {
    forall v | RunningOn(s, v, ActOf(s, w)) ensures v == w {
      Apart(s, v, w);
    }
  }

  // A finished task: what was decoded so far is a task's end.
  lemma ReleaseErrors(s: State, w: int)
    requires Inv(s) && Enabled(s, Release(w))
    ensures ErrorsEnd(Do(s, Release(w)), ActOf(s, w))
  {
    var s', c := Do(s, Release(w)), ActOf(s, w);
    RunningIsFirst(s, w);
    FirstTaskHolds(s, c);
    ReleasedPart(s, w);
    ReleaseFed(s, w, c);
    assert ErrorsEnd(s, c);
    var n := |In(s', c).ends|;
    assert In(s', c).fed == Kept(s', c, n) + [] == Kept(s', c, n);
    assert TaskEnd(s', c, |In(s', c).fed|);
    forall k | 0 <= k <= |In(s', c).fed| && ErrAt(In(s', c).fed[..k]) ensures TaskEnd(s', c, k) {
      if k < |In(s', c).fed| {
        TaskEndKept(s, s', c, k);
      }
    }
  }

  lemma StepErrors(s: State, e: Step, c: int)
    requires Inv(s) && Enabled(s, e)
    ensures ErrorsEnd(Do(s, e), c)
  {
    assert ErrorsEnd(s, c);
    if e.FeedByte? && ActOf(s, e.w) == c {
      FeedErrors(s, e.w);
    } else if e.Release? && ActOf(s, e.w) == c {
      ReleaseErrors(s, e.w);
    } else {
      DecodedKept(s, e, c);
      ErrorsKept(s, e, c);
    }
  }

  lemma DecodedKept(s: State, e: Step, c: int)
    requires Inv(s) && Enabled(s, e) && !(e.FeedByte? && ActOf(s, e.w) == c) && !(e.Release? && ActOf(s, e.w) == c)
    ensures var s' := Do(s, e);
      In(s', c).fed == In(s, c).fed && In(s', c).ends == In(s, c).ends && Tasks(s, c) <= Tasks(s', c)
  {
    if e.FeedByte? {
      FeedApart(s, e.w, c);
    } else if e.Release? {
      ReleaseOther(s, e.w, c);
    } else if e.Pick? {
      FirstTaskHolds(s, c);
      PickCurrent(s, e.w, c);
    } else {
      OtherKeeps(s, e, c);
    }
  }

  lemma InitInv(threads: nat)
    ensures Inv(Init(threads))
  {
    InitPool(threads);
    InitBuffers(threads);
    forall c
      ensures AllArrived(Init(threads), c) && FedInOrder(Init(threads), c) && Decoding(In(Init(threads), c))
      ensures ErrorsEnd(Init(threads), c)
    {
      InitOrder(threads, c);
    }
  }

  lemma InitPool(threads: nat)
    ensures PoolInv(Init(threads))
  {
    P.InitInv<ReadTask>(threads);
    forall c ensures Progress(Init(threads), c) {
      assert forall w :: !RunningOn(Init(threads), w, c);
    }
  }

  lemma InitBuffers(threads: nat)
    ensures Owned(Init(threads)) && Contents(Init(threads))
  {
    assert forall c :: Tasks(Init(threads), c) == [];
  }

  lemma InitOrder(threads: nat, c: int)
    ensures AllArrived(Init(threads), c) && FedInOrder(Init(threads), c) && Decoding(In(Init(threads), c))
    ensures ErrorsEnd(Init(threads), c)
  {
    assert Tasks(Init(threads), c) == [];
  }

  // --------------------------------------------------------------- theorems

  // What was processed are the frames of the fed bytes. Until something raised
  // these are a prefix of the bytes read; afterwards the decoded frames still
  // agree with the stream up to and including a raising one.
  lemma FedAndProcessed(s: State, c: int)
    requires Inv(s)
    ensures In(s, c).processed == Oks(Decode("", In(s, c).fed).out)
    ensures In(s, c).fed <= In(s, c).received || exists r: nat :: SameUntil(In(s, c), r)
  {
    assert Decoding(In(s, c)) && AllArrived(s, c) && FedInOrder(s, c);
    if !In(s, c).lost {
      FedIsPrefix(s, c);
    }
  }

  // In-order processing: while every complete frame read from `c` parses and
  // every SUBSCRIBE among them has an id, the bytes fed to the decoder are a
  // prefix of the bytes read, and the frames processed are a prefix of "cut the
  // stream at NUL and parse each piece".
  lemma InOrderProcessing(s: State, c: int)
    requires Inv(s) && !RaisingInput(In(s, c).received)
    ensures In(s, c).fed <= In(s, c).received
    ensures AllOk(In(s, c).processed) <= CutAndParse(Chars(In(s, c).received)).out
  {
    var i := In(s, c);
    NothingLost(s, c);
    FedIsPrefix(s, c);
    DecodePrefix(i.fed, i.received);
    DecodeIsCut("", i.received);
    assert "" + Chars(i.received) == Chars(i.received);
  }

  lemma NothingLost(s: State, c: int)
    requires Inv(s) && !RaisingInput(In(s, c).received)
    ensures !In(s, c).lost && Decoding(In(s, c)) && AllArrived(s, c) && FedInOrder(s, c)
  {
    var i := In(s, c);
    assert Decoding(i) && AllArrived(s, c) && FedInOrder(s, c);
    if i.lost {
      var r: nat :| SameUntil(i, r);
      SameRaises(i, r);
    }
  }

  lemma SameRaises(i: Inbox, r: nat)
    requires SameUntil(i, r)
    ensures RaisingInput(i.received)
  {
    assert Raising(Decode("", i.received).out[r]);
  }

  lemma QuietFed(s: State, c: int)
    requires Inv(s) && P.Quiet(s.pool) && !s.reader.Submitting? && !In(s, c).lost
    ensures In(s, c).fed == In(s, c).received
  {
    QuietBytes(s, c);
    assert FedInOrder(s, c);
    AllKept(s, c);
    assert Bytes(s, c, |Tasks(s, c)|) + [] == Bytes(s, c, |Tasks(s, c)|);
  }

  // And once the pool is idle and the selector holds nothing, all of it has
  // been processed.
  lemma AllProcessed(s: State, c: int)
    requires Inv(s) && !RaisingInput(In(s, c).received)
    requires P.Quiet(s.pool) && !s.reader.Submitting?
    ensures In(s, c).fed == In(s, c).received
    ensures AllOk(In(s, c).processed) == CutAndParse(Chars(In(s, c).received)).out
  {
    var i := In(s, c);
    NothingLost(s, c);
    QuietFed(s, c);
    DecodeIsCut("", i.received);
    assert "" + Chars(i.received) == Chars(i.received);
  }

  lemma QuietBytes(s: State, c: int)
    requires Inv(s) && P.Quiet(s.pool) && !s.reader.Submitting?
    ensures |In(s, c).ends| == |Tasks(s, c)| && Current(s, c) == []
    ensures In(s, c).received == Bytes(s, c, |Tasks(s, c)|)
    ensures In(s, c).fed == Kept(s, c, |Tasks(s, c)|)
  {
    assert AllArrived(s, c) && FedInOrder(s, c) && Progress(s, c);
    assert forall w :: !RunningOn(s, w, c);
    P.QuietStarted(s.pool, c);
    assert Bytes(s, c, |Tasks(s, c)|) + [] == Bytes(s, c, |Tasks(s, c)|);
    assert Kept(s, c, |Tasks(s, c)|) + [] == Kept(s, c, |Tasks(s, c)|);
  }

  // The i-th read of `c` was ended by an exception before its last byte.
  predicate CutShort(s: State, c: int, i: nat)
    requires i < |In(s, c).ends| <= |Tasks(s, c)|
  {
    In(s, c).ends[i].raised && In(s, c).ends[i].kept < |Tasks(s, c)[i].data|
  }

  lemma NotCutShort(s: State, c: int)
    requires FedInOrder(s, c)
    ensures (forall i :: 0 <= i < |In(s, c).ends| ==> !CutShort(s, c, i))
       <==> (forall i :: 0 <= i < |In(s, c).ends| ==> In(s, c).ends[i].kept == |Tasks(s, c)[i].data|)
  {
    EndFacts(s, c);
    if forall i :: 0 <= i < |In(s, c).ends| ==> !CutShort(s, c, i) {
      forall i | 0 <= i < |In(s, c).ends| ensures In(s, c).ends[i].kept == |Tasks(s, c)[i].data| {
        assert !CutShort(s, c, i);
      }
    }
  }

  // With exceptions: when the pool is idle and the selector holds nothing,
  // everything read was decoded if and only if each raising frame's NUL was
  // the last byte of its own read. An exception drops the rest of its buffer
  // and nothing else.
  lemma AllFedIff(s: State, c: int)
    requires Inv(s) && P.Quiet(s.pool) && !s.reader.Submitting?
    ensures |In(s, c).ends| == |Tasks(s, c)|
    ensures forall i :: 0 <= i < |In(s, c).ends| ==> EndsWell(s, c, i)
    ensures In(s, c).received == Flatten(Datas(Tasks(s, c)))
    ensures In(s, c).fed == In(s, c).received <==> forall i :: 0 <= i < |In(s, c).ends| ==> !CutShort(s, c, i)
  {
    var n := |Tasks(s, c)|;
    QuietBytes(s, c);
    assert Tasks(s, c)[..n] == Tasks(s, c);
    assert FedInOrder(s, c);
    EndFacts(s, c);
    NotCutShort(s, c);
    KeptLength(s, c, n);
    if forall i :: 0 <= i < n ==> In(s, c).ends[i].kept == |Tasks(s, c)[i].data| {
      KeptWhole(s, c, n);
    }
  }

  // ------------------------------------------- what the reads alone tell

  // After `k` bytes of the i-th read a frame is completed that raises, or may.
  predicate RaisesIn(rs: seq<seq<byte>>, i: int, k: int)
  {
    0 <= i < |rs| && 0 < k <= |rs[i]| && RaiseAt(Flatten(rs[..i]) + rs[i][..k])
  }

  // And one that does not parse.
  predicate ErrsIn(rs: seq<seq<byte>>, i: int, k: int)
  {
    0 <= i < |rs| && 0 < k <= |rs[i]| && ErrAt(Flatten(rs[..i]) + rs[i][..k])
  }

  // Every raising frame's NUL is the last byte of its own read.
  ghost predicate RaisesAtEnds(rs: seq<seq<byte>>)
  {
    forall i, k :: RaisesIn(rs, i, k) ==> k == |rs[i]|
  }

  ghost predicate ErrsAtEnds(rs: seq<seq<byte>>)
  {
    forall i, k :: ErrsIn(rs, i, k) ==> k == |rs[i]|
  }

  // No complete frame is a SUBSCRIBE without an id.
  predicate AllHaveIds(bs: seq<byte>)
  {
    forall i :: 0 <= i < |Decode("", bs).out| && Decode("", bs).out[i].Ok? ==> !Idless(Decode("", bs).out[i].value)
  }

  lemma BytesAre(s: State, c: int, i: nat)
    requires i <= |Tasks(s, c)|
    ensures Bytes(s, c, i) == Flatten(Datas(Tasks(s, c))[..i])
  {
    assert Datas(Tasks(s, c)[..i]) == Datas(Tasks(s, c))[..i];
  }

  // If raising frames end their reads, every task decoded all of its bytes.
  lemma {:induction false} AllWhole(s: State, c: int, n: nat)
    requires FedInOrder(s, c) && n <= |In(s, c).ends| && RaisesAtEnds(Datas(Tasks(s, c)))
    ensures forall i :: 0 <= i < n ==> In(s, c).ends[i].kept == |Tasks(s, c)[i].data|
    ensures Kept(s, c, n) == Bytes(s, c, n)
  {
    if n > 0 {
      var i := n - 1;
      AllWhole(s, c, i);
      assert EndsWell(s, c, i);
      KeptNext(s, c, i);
      BytesNext(s, c, i);
      BytesAre(s, c, i);
      var e, data := In(s, c).ends[i], Tasks(s, c)[i].data;
      if e.raised {
        LastOfPart(Bytes(s, c, i), data, e.kept);
        assert RaisesIn(Datas(Tasks(s, c)), i, e.kept);
      }
    }
  }

  lemma LastOfPart(before: seq<byte>, data: seq<byte>, k: nat)
    requires 0 < k <= |data|
    ensures var bs := before + data[..k]; bs != [] && bs[|bs| - 1] == data[k - 1]
  {
  }

  // If every task decoded all of its bytes, errors end their reads.
  lemma WholeErrs(s: State, c: int, i: int, k: int)
    requires ErrorsEnd(s, c) && !UnwindingOn(s, c) && |In(s, c).ends| == |Tasks(s, c)|
    requires In(s, c).fed == Bytes(s, c, |Tasks(s, c)|)
    requires forall j :: 0 <= j < |Tasks(s, c)| ==> In(s, c).ends[j].kept == |Tasks(s, c)[j].data|
    requires ErrsIn(Datas(Tasks(s, c)), i, k)
    ensures k == |Tasks(s, c)[i].data|
  {
    var n, data := |Tasks(s, c)|, Tasks(s, c)[i].data;
    BytesAre(s, c, i);
    BytesNext(s, c, i);
    BytesGrow(s, c, i + 1, n);
    var m := |Bytes(s, c, i)| + k;
    assert In(s, c).fed[..m] == Bytes(s, c, i) + data[..k] by {
      assert Bytes(s, c, i + 1)[..m] == Bytes(s, c, i) + data[..k];
    }
    assert TaskEnd(s, c, m);
    var j :| 0 <= j <= n && m == |Kept(s, c, j)|;
    KeptWhole(s, c, j);
    if j <= i {
      BytesGrow(s, c, j, i);
    } else {
      BytesGrow(s, c, i + 1, j);
    }
  }

  // Without id-less SUBSCRIBEs only frames that do not parse raise.
  lemma RaiseIsErr(bs: seq<byte>, all: seq<byte>)
    requires bs <= all && AllHaveIds(all)
    ensures RaiseAt(bs) <==> ErrAt(bs)
  {
    DecodePrefix(bs, all);
  }

  lemma RaisesAreErrs(rs: seq<seq<byte>>)
    requires AllHaveIds(Flatten(rs))
    ensures RaisesAtEnds(rs) <==> ErrsAtEnds(rs)
  {
    forall i, k | 0 <= i < |rs| && 0 < k <= |rs[i]| ensures RaisesIn(rs, i, k) <==> ErrsIn(rs, i, k) {
      PartIsPrefix(rs, i, k);
      RaiseIsErr(Flatten(rs[..i]) + rs[i][..k], Flatten(rs));
    }
  }

  lemma PartIsPrefix(rs: seq<seq<byte>>, i: nat, k: nat)
    requires i < |rs| && k <= |rs[i]|
    ensures Flatten(rs[..i]) + rs[i][..k] <= Flatten(rs)
  {
    FlattenPrefix(rs, i + 1);
    assert rs[..i + 1] == rs[..i] + [rs[i]];
    FlattenSnoc(rs[..i], rs[i]);
  }

  // Dropping, by the reads alone: nothing is dropped when every raising frame's
  // NUL is the last byte of its own read; when nothing was dropped, that is so
  // for every frame that does not parse. The two are one condition when every
  // SUBSCRIBE has an id.
  lemma AllFedByReads(s: State, c: int)
    requires Inv(s) && P.Quiet(s.pool) && !s.reader.Submitting?
    ensures var ds := Datas(Tasks(s, c));
      && In(s, c).received == Flatten(ds)
      && (RaisesAtEnds(ds) ==> In(s, c).fed == In(s, c).received)
      && (In(s, c).fed == In(s, c).received ==> ErrsAtEnds(ds))
      && (AllHaveIds(In(s, c).received) ==> (In(s, c).fed == In(s, c).received <==> RaisesAtEnds(ds)))
  {
    var n, ds := |Tasks(s, c)|, Datas(Tasks(s, c));
    QuietBytes(s, c);
    BytesAre(s, c, n);
    assert ds[..n] == ds;
    assert FedInOrder(s, c) && ErrorsEnd(s, c);
    if RaisesAtEnds(ds) {
      AllWhole(s, c, n);
    }
    if In(s, c).fed == In(s, c).received {
      EndFacts(s, c);
      KeptLength(s, c, n);
      forall i, k | ErrsIn(ds, i, k) ensures k == |ds[i]| {
        NoneRunning(s, c);
        WholeErrs(s, c, i, k);
      }
    }
    if AllHaveIds(In(s, c).received) {
      RaisesAreErrs(ds);
    }
  }

  lemma NoneRunning(s: State, c: int)
    requires P.Quiet(s.pool)
    ensures !UnwindingOn(s, c)
  {
  }
}
