// The whole reactor: the selector thread running its loop over tasks and keys,
// reading through `Reads` and writing through `Writes`, and pool workers whose
// frames send to any connections. The main theorems are about every run.
module Reactor {
  import opened Text
  import opened Codec
  import opened Stream
  import opened Buffers
  import W = Writes
  import R = Reads
  import P = ActorPool
  import Ownership
  import ReadOrder

  // A selected key with its ready operations.
  datatype Ready = NewClient | Key(c: int, read: bool, write: bool)

  // In the loop over the selected keys: between two keys, in `handleAccept`
  // with a handler whose protocol was started with an id, or done with the
  // read half of `handleReadWrite`.
  datatype At = NextKey | Accepting(started: int) | AfterRead(c: int, write: bool)

  // How the processing of a frame ends, after its sends.
  datatype Ending = Continue | Terminate | Throw

  datatype State = State(w: W.State, r: R.State, ready: seq<Ready>, at: At,
                         nextId: int, protocolId: map<int, int>, ending: set<int>, endings: seq<Ending>)

  function Init(threads: nat): State
  {
    State(W.Init(threads), R.Init(threads), [], NextKey, 0, map[], {}, seq(threads, _ => Continue))
  }

  datatype Step =
    | Select(ready: seq<Ready>)
    | SelectorStep(step: W.Step)      // the selector inside its task loop or continueWrite
    | TakeKey
    | Register                        // generateConnectionId and addConnection
    | ReadChannel(data: seq<byte>)
    | ReadFails
    | SubmitTask
    | CheckWrite
    | Pick(v: int)
    | FeedByte(v: int, sends: seq<W.Send>, ending: Ending)
    | SendStep(v: int)
    | EndProcess(v: int)
    | Release(v: int)
    | Complete(v: int)

  // `select` returns after a wakeup or with ready keys of open channels; a key
  // can be ready for writing only if OP_WRITE is among its interests.
  predicate Selected(s: State, ready: seq<Ready>)
  {
    && (s.w.wakeup || ready != [])
    && forall i :: 0 <= i < |ready| && ready[i].Key? ==>
         ready[i].c in s.w.open && (ready[i].write ==> W.Out(s.w, ready[i].c).opWrite)
  }

  // The termination flag is what `shouldTerminate` reads.
  predicate SelectorOwn(s: State, e: W.Step)
  {
    match e
    case TestTasks | RunTask | TestQueue | WriteChannel(_) | CheckTop | TestAgain | SwitchToRead => true
    case CheckEnd(terminate) => s.w.selector.CheckingEnd? && (terminate <==> s.w.selector.c in s.ending)
    case _ => false
  }

  predicate AtKeys(s: State)
  {
    s.w.selector.Away? && s.r.reader.Elsewhere?
  }

  // DISCONNECT and only it sets the flag; only a SUBSCRIBE without an id may
  // throw.
  predicate Fits(raw: string, ending: Ending)
  {
    match Parse(raw)
    case Err(_) => true
    case Ok(f) => (ending == Terminate <==> f.command == "DISCONNECT") && (ending == Throw ==> Idless(f))
  }

  predicate Enabled(s: State, e: Step)
  {
    match e
    case Select(ready) => W.Enabled(s.w, W.Select) && Selected(s, ready)
    case SelectorStep(step) => SelectorOwn(s, step) && W.Enabled(s.w, step)
    case TakeKey => AtKeys(s) && s.at.NextKey?
    case Register => AtKeys(s) && s.at.Accepting? && s.nextId !in s.w.known
    case ReadChannel(data) => R.Enabled(s.r, R.ReadChannel(data))
    case ReadFails => R.Enabled(s.r, R.ReadFails) && W.Enabled(s.w, W.Close(s.r.reader.c))
    case SubmitTask => R.Enabled(s.r, R.SubmitTask)
    case CheckWrite => AtKeys(s) && s.at.AfterRead?
    case Pick(v) => R.Enabled(s.r, R.Pick(v))
    case FeedByte(v, sends, ending) =>
      && R.Enabled(s.r, R.FeedByte(v)) && 0 <= v < |s.endings|
      && W.Enabled(s.w, W.Begin(v, sends)) && Fits(R.In(s.r, R.ActOf(s.r, v)).decoder, ending)
    case SendStep(v) => W.Enabled(s.w, W.SendStep(v))
    case EndProcess(v) =>
      && 0 <= v < |s.endings| && v < |s.w.senders| && s.w.senders[v].todo == []
      && R.Enabled(s.r, R.EndProcess(v, s.endings[v].Throw?))
    case Release(v) => R.Enabled(s.r, R.Release(v))
    case Complete(v) => R.Enabled(s.r, R.Complete(v))
  }

  function DoTakeKey(s: State): State
    requires Enabled(s, TakeKey)
  {
    if s.ready == [] then s.(w := W.Do(s.w, W.Reselect))
    else
      var rest := s.ready[1..];
      match s.ready[0]
      case NewClient =>
        // The constructor starts the protocol with the current counter.
        s.(ready := rest, at := Accepting(s.nextId))
      case Key(c, read, write) =>
        if c !in s.w.open then s.(ready := rest)
        else if read then s.(ready := rest, r := R.Do(s.r, R.Lease(c)), at := AfterRead(c, write))
        else s.(ready := rest, at := AfterRead(c, write))
  }

  function DoFeed(s: State, v: int, sends: seq<W.Send>, ending: Ending): State
    requires Enabled(s, FeedByte(v, sends, ending))
  {
    var s' := s.(r := R.Do(s.r, R.FeedByte(v)));
    if s'.r.local[v].Processing? then
      s'.(w := W.Do(s.w, W.Begin(v, sends)), endings := s.endings[v := ending])
    else s'
  }

  function Do(s: State, e: Step): State
    requires Enabled(s, e)
  {
    match e
    case Select(ready) => s.(w := W.Do(s.w, W.Select), ready := ready)
    case SelectorStep(step) => s.(w := W.Do(s.w, step))
    case TakeKey => DoTakeKey(s)
    case Register =>
      // The id generated now is the one registered.
      s.(w := W.Do(s.w, W.Accept(s.nextId)), nextId := Wrap32(s.nextId + 1),
         protocolId := s.protocolId[s.nextId := s.at.started], at := NextKey)
    case ReadChannel(data) => s.(r := R.Do(s.r, R.ReadChannel(data)))
    case ReadFails => s.(r := R.Do(s.r, R.ReadFails), w := W.Do(s.w, W.Close(s.r.reader.c)))
    case SubmitTask => s.(r := R.Do(s.r, R.SubmitTask))
    case CheckWrite =>
      if s.at.c in s.w.open && s.at.write then s.(w := W.Do(s.w, W.Enter(s.at.c)), at := NextKey) else s.(at := NextKey)
    case Pick(v) => s.(r := R.Do(s.r, R.Pick(v)))
    case FeedByte(v, sends, ending) => DoFeed(s, v, sends, ending)
    case SendStep(v) => s.(w := W.Do(s.w, W.SendStep(v)))
    case EndProcess(v) =>
      s.(r := R.Do(s.r, R.EndProcess(v, s.endings[v].Throw?)),
         ending := if s.endings[v].Terminate? then s.ending + {R.ActOf(s.r, v)} else s.ending)
    case Release(v) => s.(r := R.Do(s.r, R.Release(v)))
    case Complete(v) => s.(r := R.Do(s.r, R.Complete(v)))
  }

  // ------------------------------------------------------------------- runs

  predicate LegalRun(s: State, es: seq<Step>)
    decreases |es|
  {
    es == [] || (Enabled(s, es[0]) && LegalRun(Do(s, es[0]), es[1..]))
  }

  function Run(s: State, es: seq<Step>): State
    requires LegalRun(s, es)
    decreases |es|
  {
    if es == [] then s else Run(Do(s, es[0]), es[1..])
  }

  // The two halves fit together: a worker has sends left only while it
  // processes a frame, and the selector reads only between keys.
  predicate Linked(s: State)
  {
    && |s.w.senders| == |s.r.local| == |s.endings|
    && (forall v :: 0 <= v < |s.r.local| && s.w.senders[v].todo != [] ==> s.r.local[v].Processing?)
    && (!s.r.reader.Elsewhere? ==> s.w.selector.Away?)
    && (forall c :: c in s.protocolId ==> s.protocolId[c] == c)
    && s.protocolId.Keys == s.w.known
    && (s.at.Accepting? ==> s.at.started == s.nextId)
  }

  // A worker whose processing is going to throw has a frame that can.
  predicate ThrowFits(r: R.State, endings: seq<Ending>, v: int)
  {
    0 <= v < |r.local| && v < |endings| && R.InTask(r, v) && r.local[v].Processing? && endings[v].Throw? ==>
      R.MayThrow(R.In(r, R.ActOf(r, v)).processed)
  }

  ghost predicate Inv(s: State)
  {
    W.Inv(s.w) && ReadOrder.Inv(s.r) && Linked(s) && forall v :: ThrowFits(s.r, s.endings, v)
  }

  // The step of the write side that a step contains, if any.
  function WriteStep(s: State, e: Step): Option<W.Step>
    requires Enabled(s, e)
  {
    match e
    case Select(_) => Some(W.Select)
    case SelectorStep(step) => Some(step)
    case TakeKey => if s.ready == [] then Some(W.Reselect) else None
    case Register => Some(W.Accept(s.nextId))
    case ReadFails => Some(W.Close(s.r.reader.c))
    case CheckWrite => if s.at.c in s.w.open && s.at.write then Some(W.Enter(s.at.c)) else None
    case FeedByte(v, sends, _) => if R.Do(s.r, R.FeedByte(v)).local[v].Processing? then Some(W.Begin(v, sends)) else None
    case SendStep(v) => Some(W.SendStep(v))
    case _ => None
  }

  lemma WriteStepIs(s: State, e: Step)
    requires Enabled(s, e)
    ensures WriteStep(s, e).None? ==> Do(s, e).w == s.w
    ensures WriteStep(s, e).Some? ==> W.Enabled(s.w, WriteStep(s, e).value) && Do(s, e).w == W.Do(s.w, WriteStep(s, e).value)
  {
  }

  lemma StepWrites(s: State, e: Step)
    requires W.Inv(s.w) && Enabled(s, e)
    ensures W.Inv(Do(s, e).w)
  {
    WriteStepIs(s, e);
    var o := WriteStep(s, e);
    if o.Some? {
      W.StepInv(s.w, o.value);
    }
  }

  lemma StepReads(s: State, e: Step)
    requires ReadOrder.Inv(s.r) && Enabled(s, e)
    ensures ReadOrder.Inv(Do(s, e).r)
  {
    var o := ReadStep(s, e);
    if o.Some? {
      ReadStepIs(s, e, o.value);
      ReadOrder.StepInv(s.r, o.value);
    } else {
      NoReadStep(s, e);
    }
  }

  // The step of the read side that a step contains, if any.
  function ReadStep(s: State, e: Step): Option<R.Step>
    requires Enabled(s, e)
  {
    match e
    case TakeKey =>
      if s.ready != [] && s.ready[0].Key? && s.ready[0].c in s.w.open && s.ready[0].read then Some(R.Lease(s.ready[0].c)) else None
    case ReadChannel(data) => Some(R.ReadChannel(data))
    case ReadFails => Some(R.ReadFails)
    case SubmitTask => Some(R.SubmitTask)
    case Pick(v) => Some(R.Pick(v))
    case FeedByte(v, _, _) => Some(R.FeedByte(v))
    case EndProcess(v) => Some(R.EndProcess(v, s.endings[v].Throw?))
    case Release(v) => Some(R.Release(v))
    case Complete(v) => Some(R.Complete(v))
    case _ => None
  }

  lemma ReadStepIs(s: State, e: Step, o: R.Step)
    requires Enabled(s, e) && ReadStep(s, e) == Some(o)
    ensures R.Enabled(s.r, o) && Do(s, e).r == R.Do(s.r, o)
  {
    if e.FeedByte? {
      FeedEndings(s, e.v, e.sends, e.ending);
    }
  }

  lemma NoReadStep(s: State, e: Step)
    requires Enabled(s, e) && ReadStep(s, e).None?
    ensures Do(s, e).r == s.r && Do(s, e).endings == s.endings
  {
  }

  predicate IsWorkerStep(e: Step)
  {
    e.Pick? || e.FeedByte? || e.SendStep? || e.EndProcess? || e.Release? || e.Complete?
  }

  lemma FeedLinked(s: State, v: int, sends: seq<W.Send>, ending: Ending)
    requires Linked(s) && Enabled(s, FeedByte(v, sends, ending))
    ensures Linked(DoFeed(s, v, sends, ending))
  {
    FeedsOne(s.r, v);
    BeginSenders(s.w, v, sends);
    var s' := DoFeed(s, v, sends, ending);
    forall u | 0 <= u < |s'.r.local| && s'.w.senders[u].todo != [] ensures s'.r.local[u].Processing? {
      assert u != v ==> s'.w.senders[u] == s.w.senders[u];
    }
  }

  lemma BeginSenders(w: W.State, v: int, sends: seq<W.Send>)
    requires W.Enabled(w, W.Begin(v, sends))
    ensures var w' := W.Do(w, W.Begin(v, sends));
      && w'.known == w.known && w'.selector == w.selector && |w'.senders| == |w.senders|
      && (forall u :: 0 <= u < |w.senders| && u != v ==> w'.senders[u] == w.senders[u])
  {
  }

  lemma FeedsOne(r: R.State, v: int)
    requires R.Enabled(r, R.FeedByte(v))
    ensures var r' := R.Do(r, R.FeedByte(v));
      |r'.local| == |r.local| && r'.reader == r.reader && v < |r.local| && !r.local[v].Processing?
      && forall u :: 0 <= u < |r.local| && u != v ==> r'.local[u] == r.local[u]
  {
  }

  lemma SendLinked(s: State, v: int)
    requires Linked(s) && Enabled(s, SendStep(v))
    ensures Linked(Do(s, SendStep(v)))
  {
  }

  lemma TaskLinked(s: State, e: Step)
    requires Linked(s) && R.IdleLoops(s.r) && Enabled(s, e) && (e.Pick? || e.EndProcess? || e.Release? || e.Complete?)
    ensures Linked(Do(s, e))
  {
    assert Do(s, e).w == s.w;
  }

  lemma KeysLinked(s: State, e: Step)
    requires Linked(s) && Enabled(s, e) && (e.TakeKey? || e.Register? || e.CheckWrite? || e.ReadFails?)
    ensures Linked(Do(s, e))
  {
  }

  lemma SelectorLinked(s: State, e: Step)
    requires Linked(s) && Enabled(s, e) && !IsWorkerStep(e) && !e.TakeKey? && !e.Register? && !e.CheckWrite? && !e.ReadFails?
    ensures Linked(Do(s, e))
  {
  }

  lemma StepInv(s: State, e: Step)
    requires Inv(s) && Enabled(s, e)
    ensures Inv(Do(s, e))
  {
    StepWrites(s, e);
    StepReads(s, e);
    if e.FeedByte? {
      FeedLinked(s, e.v, e.sends, e.ending);
    } else if e.SendStep? {
      SendLinked(s, e.v);
    } else if IsWorkerStep(e) {
      TaskLinked(s, e);
    } else if e.TakeKey? || e.Register? || e.CheckWrite? || e.ReadFails? {
      KeysLinked(s, e);
    } else {
      SelectorLinked(s, e);
    }
    StepThrowFits(s, e);
  }

  lemma StepThrowFits(s: State, e: Step)
    requires ReadOrder.Inv(s.r) && Enabled(s, e) && forall v :: ThrowFits(s.r, s.endings, v)
    ensures forall v :: ThrowFits(Do(s, e).r, Do(s, e).endings, v)
  {
    forall v ensures ThrowFits(Do(s, e).r, Do(s, e).endings, v) {
      if e.FeedByte? {
        FeedByteThrowFits(s, e.v, e.sends, e.ending, v);
      } else {
        OtherStepThrowFits(s, e, v);
      }
    }
  }

  lemma FeedByteThrowFits(s: State, u: int, sends: seq<W.Send>, ending: Ending, v: int)
    requires ReadOrder.Inv(s.r) && Enabled(s, FeedByte(u, sends, ending)) && ThrowFits(s.r, s.endings, v)
    ensures ThrowFits(DoFeed(s, u, sends, ending).r, DoFeed(s, u, sends, ending).endings, v)
  {
    FeedEndings(s, u, sends, ending);
    if v == u {
      FeedThrowFits(s.r, s.endings, DoFeed(s, u, sends, ending).endings, v);
    } else {
      OtherFeedThrowFits(s.r, s.endings, DoFeed(s, u, sends, ending).endings, u, v);
    }
  }

  lemma OtherStepThrowFits(s: State, e: Step, v: int)
    requires Enabled(s, e) && !e.FeedByte? && ThrowFits(s.r, s.endings, v)
    ensures ThrowFits(Do(s, e).r, Do(s, e).endings, v)
  {
    var o := ReadStep(s, e);
    if o.Some? {
      ReadStepIs(s, e, o.value);
      SameEndings(s, e);
      OtherThrowFits(s.r, o.value, s.endings, v);
    } else {
      NoReadStep(s, e);
    }
  }

  lemma SameEndings(s: State, e: Step)
    requires Enabled(s, e) && !e.FeedByte?
    ensures Do(s, e).endings == s.endings && (ReadStep(s, e).Some? ==> !ReadStep(s, e).value.FeedByte?)
  {
  }

  lemma FeedEndings(s: State, u: int, sends: seq<W.Send>, ending: Ending)
    requires Enabled(s, FeedByte(u, sends, ending))
    ensures var s' := DoFeed(s, u, sends, ending);
      && s'.r == R.Do(s.r, R.FeedByte(u)) && u < |s.endings|
      && s'.endings == (if s'.r.local[u].Processing? then s.endings[u := ending] else s.endings)
      && Fits(R.In(s.r, R.ActOf(s.r, u)).decoder, ending)
  {
  }

  lemma FeedWrites(s: State, u: int, sends: seq<W.Send>, ending: Ending)
    requires Enabled(s, FeedByte(u, sends, ending)) && R.Do(s.r, R.FeedByte(u)).local[u].Processing?
    ensures DoFeed(s, u, sends, ending).w == W.Do(s.w, W.Begin(u, sends))
  {
  }

  lemma FeedThrowFits(r: R.State, endings: seq<Ending>, endings': seq<Ending>, u: int)
    requires R.Enabled(r, R.FeedByte(u)) && u < |endings| == |endings'|
    requires R.Do(r, R.FeedByte(u)).local[u].Processing? ==> Fits(R.In(r, R.ActOf(r, u)).decoder, endings'[u])
    ensures ThrowFits(R.Do(r, R.FeedByte(u)), endings', u)
  {
    ReadOrder.FedInbox(r, u);
  }

  lemma OtherFeedThrowFits(r: R.State, endings: seq<Ending>, endings': seq<Ending>, u: int, v: int)
    requires ReadOrder.Inv(r) && R.Enabled(r, R.FeedByte(u)) && v != u && ThrowFits(r, endings, v)
    requires |endings'| == |endings| && (0 <= v < |endings| ==> endings'[v] == endings[v])
    ensures ThrowFits(R.Do(r, R.FeedByte(u)), endings', v)
  {
    ReadOrder.OtherWorker(r, u, v);
    if 0 <= v < |r.local| && R.InTask(r, v) {
      if R.ActOf(r, v) == R.ActOf(r, u) {
        ReadOrder.Apart(r, v, u);
      }
      ReadOrder.FeedApart(r, u, R.ActOf(r, v));
    }
  }

  lemma OtherThrowFits(r: R.State, e: R.Step, endings: seq<Ending>, v: int)
    requires R.Enabled(r, e) && !e.FeedByte? && ThrowFits(r, endings, v)
    ensures ThrowFits(R.Do(r, e), endings, v)
  {
  }

  lemma {:induction false} RunInv(s: State, es: seq<Step>)
    requires Inv(s) && LegalRun(s, es)
    ensures Inv(Run(s, es))
    decreases |es|
  {
    if es != [] {
      StepInv(s, es[0]);
      RunInv(Do(s, es[0]), es[1..]);
    }
  }

  // The state after a run from the start with `n` workers.
  ghost predicate Reached(n: nat, es: seq<Step>, s: State)
  {
    LegalRun(Init(n), es) && Run(Init(n), es) == s
  }

  lemma Reachable(n: nat, es: seq<Step>, s: State)
    requires Reached(n, es, s)
    ensures Inv(s)
  {
    W.InitInv(n);
    ReadOrder.InitInv(n);
    RunInv(Init(n), es);
  }

  // --------------------------------------------------------------- theorems

  // No lost wakeup, over every interleaving: when the selector is parked in
  // select with no wakeup pending and no worker is midway through a send, its
  // task queue is empty and every open connection with a non-empty write queue
  // has OP_WRITE interest.
  lemma NoLostWakeup(n: nat, es: seq<Step>, s: State)
    requires Reached(n, es, s) && s.w.selector.Selecting? && !s.w.wakeup
    requires forall v :: 0 <= v < |s.w.senders| ==> s.w.senders[v].stage.BeforeAdd?
    ensures s.w.tasks == []
    ensures forall c :: c in s.w.open && W.Out(s.w, c).queue != [] ==> W.Out(s.w, c).opWrite
  {
    Reachable(n, es, s);
    W.NoLostWakeup(s.w);
  }

  // Write conservation: the channel got whole encodings in enqueue order and
  // then part of at most one, and the queue holds exactly the rest.
  lemma WritesConserved(n: nat, es: seq<Step>, s: State, c: int)
    requires Reached(n, es, s)
    ensures W.Conserved(W.Out(s.w, c))
    ensures W.Out(s.w, c).written + W.Pending(W.Out(s.w, c).queue) == Flatten(W.Out(s.w, c).enqueued)
  {
    Reachable(n, es, s);
    assert W.Covered(s.w, c) && W.Conserved(W.Out(s.w, c));
    W.ConservedTotal(W.Out(s.w, c));
  }

  // Buffer ownership: the allocated read buffers are divided without overlap
  // between the free pool, the selector and the unfinished tasks, and the
  // buffer of an unfinished task still holds what was read into it.
  lemma BuffersOwned(n: nat, es: seq<Step>, s: State)
    requires Reached(n, es, s)
    ensures Ownership.Owned(s.r) && Ownership.Contents(s.r)
  {
    Reachable(n, es, s);
  }

  // In-order processing end to end: while the complete frames read from a
  // channel parse and the SUBSCRIBEs among them carry ids, what is fed and
  // processed is the stream in order, however many workers there are; all of
  // it once the pool is idle and the selector has no task in hand.
  lemma ProcessedInOrder(n: nat, es: seq<Step>, s: State, c: int)
    requires Reached(n, es, s) && !ReadOrder.RaisingInput(R.In(s.r, c).received)
    ensures R.In(s.r, c).fed <= R.In(s.r, c).received
    ensures AllOk(R.In(s.r, c).processed) <= CutAndParse(Chars(R.In(s.r, c).received)).out
    ensures P.Quiet(s.r.pool) && !s.r.reader.Submitting? ==>
      R.In(s.r, c).fed == R.In(s.r, c).received
      && AllOk(R.In(s.r, c).processed) == CutAndParse(Chars(R.In(s.r, c).received)).out
  {
    Reachable(n, es, s);
    ReadOrder.InOrderProcessing(s.r, c);
    if P.Quiet(s.r.pool) && !s.r.reader.Submitting? {
      ReadOrder.AllProcessed(s.r, c);
    }
  }

  // On any input at all: the frames processed are those of the bytes fed, and
  // these are a prefix of the bytes read, or their frames agree with those of
  // the bytes read up to and including one that raises.
  lemma ProcessedUntilRaise(n: nat, es: seq<Step>, s: State, c: int)
    requires Reached(n, es, s)
    ensures R.In(s.r, c).processed == ReadOrder.Oks(Decode("", R.In(s.r, c).fed).out)
    ensures R.In(s.r, c).fed <= R.In(s.r, c).received || exists r: nat :: ReadOrder.SameUntil(R.In(s.r, c), r)
  {
    Reachable(n, es, s);
    ReadOrder.FedAndProcessed(s.r, c);
  }

  // The record of a run: with the pool idle and no task in the selector's
  // hand, all bytes read were decoded if and only if no exception ended a read
  // before its last byte. A task that raised stopped at the NUL of a raising
  // frame, and any other decoded all of its bytes.
  lemma NothingCutIff(n: nat, es: seq<Step>, s: State, c: int)
    requires Reached(n, es, s) && P.Quiet(s.r.pool) && !s.r.reader.Submitting?
    ensures |R.In(s.r, c).ends| == |R.Tasks(s.r, c)|
    ensures forall i :: 0 <= i < |R.In(s.r, c).ends| ==> ReadOrder.EndsWell(s.r, c, i)
    ensures R.In(s.r, c).fed == R.In(s.r, c).received <==> forall i :: 0 <= i < |R.In(s.r, c).ends| ==> !ReadOrder.CutShort(s.r, c, i)
  {
    Reachable(n, es, s);
    ReadOrder.AllFedIff(s.r, c);
  }

  // Exactly when nothing is dropped, by the reads alone: if every raising
  // frame's NUL is the last byte of its own read, all bytes read were decoded;
  // if they were, that holds of every frame that does not parse; and the two
  // are one condition when every SUBSCRIBE has an id.
  lemma NothingDroppedIff(n: nat, es: seq<Step>, s: State, c: int)
    requires Reached(n, es, s) && P.Quiet(s.r.pool) && !s.r.reader.Submitting?
    ensures var ds := ReadOrder.Datas(R.Tasks(s.r, c));
      && R.In(s.r, c).received == Flatten(ds)
      && (ReadOrder.RaisesAtEnds(ds) ==> R.In(s.r, c).fed == R.In(s.r, c).received)
      && (R.In(s.r, c).fed == R.In(s.r, c).received ==> ReadOrder.ErrsAtEnds(ds))
      && (ReadOrder.AllHaveIds(R.In(s.r, c).received) ==>
            (R.In(s.r, c).fed == R.In(s.r, c).received <==> ReadOrder.RaisesAtEnds(ds)))
  {
    Reachable(n, es, s);
    ReadOrder.AllFedByReads(s.r, c);
  }

  // One worker at a time per connection, and the id a connection's protocol
  // was started with is the one it is registered under.
  lemma ConnectionsExclusive(n: nat, es: seq<Step>, s: State, u: int, v: int)
    requires Reached(n, es, s) && R.InTask(s.r, u) && R.InTask(s.r, v) && R.ActOf(s.r, u) == R.ActOf(s.r, v)
    ensures u == v
    ensures s.protocolId.Keys == s.w.known && forall c :: c in s.w.known ==> s.protocolId[c] == c
  {
    Reachable(n, es, s);
    assert P.Busy(s.r.pool, u, R.ActOf(s.r, u)) && P.Busy(s.r.pool, v, R.ActOf(s.r, u));
  }

  // A worker about to decode a byte is never held up by an unfinished send.
  lemma FeedNotBlocked(s: State, v: int, sends: seq<W.Send>)
    requires Inv(s) && R.Enabled(s.r, R.FeedByte(v))
    ensures W.Enabled(s.w, W.Begin(v, sends))
  {
  }

  // One that has done its sends can always end the processing.
  lemma EndNotBlocked(s: State, v: int)
    requires Linked(s) && ThrowFits(s.r, s.endings, v)
    requires R.InTask(s.r, v) && s.r.local[v].Processing? && s.w.senders[v].todo == []
    ensures Enabled(s, EndProcess(v))
  {
  }
}
