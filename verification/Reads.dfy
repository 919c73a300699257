// The incoming side of the reactor as a step system: the selector fills pooled
// buffers and submits one task per buffer to the actor pool, whose workers feed
// the bytes to the connection's decoder and process the frames. Decoding one
// byte is a step, so the runs are all interleavings.
module Reads {
  import opened Text
  import opened Codec
  import opened Buffers
  import opened Stream
  import P = ActorPool

  const BUFFER_SIZE: nat := 8192

  // What a read task captures: its buffer. `data` remembers the bytes that
  // were read into it.
  datatype ReadTask = ReadTask(buf: nat, data: seq<byte>)

  // How a task finished: how many bytes of its buffer it decoded, and whether
  // an exception ended it.
  datatype End = End(kept: nat, raised: bool)

  // One connection's decoder text, with the history of the bytes read from
  // the channel, the bytes decoded, the frames given to the protocol and the
  // finished tasks. `lost` says that an exception has come up.
  datatype Inbox = Inbox(decoder: string, received: seq<byte>, fed: seq<byte>, processed: seq<Frame>,
                         lost: bool, ends: seq<End>)

  // Where a worker is inside its task: at the loop test, processing a frame,
  // or on its way out after an exception.
  datatype Local = Loop | Processing | Unwinding

  // The selector between leasing a buffer and handing it on.
  datatype Reader = Elsewhere | Leased(c: int, buf: nat) | Submitting(c: int, buf: nat, data: seq<byte>)

  datatype State = State(reader: Reader, free: seq<nat>, buffers: nat, memory: map<nat, Buf>,
                         pool: P.Pool<ReadTask>, inbox: map<int, Inbox>, local: seq<Local>)

  function Init(threads: nat): State
  {
    State(Elsewhere, [], 0, map[], P.Init(threads), map[], seq(threads, _ => Loop))
  }

  function In(s: State, c: int): Inbox
  {
    if c in s.inbox then s.inbox[c] else Inbox("", [], [], [], false, [])
  }

  function Mem(s: State, b: nat): Buf
  {
    if b in s.memory then s.memory[b] else Buf([], 0)
  }

  function SetIn(s: State, c: int, i: Inbox): State
  {
    s.(inbox := s.inbox[c := i])
  }

  datatype Step =
    | Lease(c: int)
    | ReadChannel(data: seq<byte>)
    | ReadFails
    | SubmitTask
    | Pick(w: int)
    | FeedByte(w: int)
    | EndProcess(w: int, throws: bool)
    | Release(w: int)
    | Complete(w: int)

  predicate InTask(s: State, w: int)
  {
    0 <= w < |s.local| && P.CanFinish(s.pool, w)
  }

  function TaskOf(s: State, w: int): ReadTask
    requires InTask(s, w)
  {
    s.pool.threads[w].task
  }

  function ActOf(s: State, w: int): int
    requires InTask(s, w)
  {
    s.pool.threads[w].act
  }

  // The frame given to the protocol last is one that can throw.
  predicate MayThrow(processed: seq<Frame>)
  {
    processed != [] && Idless(processed[|processed| - 1])
  }

  predicate Enabled(s: State, e: Step)
  {
    match e
    case Lease(_) => s.reader.Elsewhere?
    case ReadChannel(data) => s.reader.Leased? && |data| <= BUFFER_SIZE
    case ReadFails => s.reader.Leased?
    case SubmitTask => s.reader.Submitting?
    case Pick(w) => 0 <= w < |s.local| && P.CanStart(s.pool, w)
    case FeedByte(w) => InTask(s, w) && s.local[w].Loop? && HasRemaining(Mem(s, TaskOf(s, w).buf))
    case EndProcess(w, throws) =>
      InTask(s, w) && s.local[w].Processing? && (throws ==> MayThrow(In(s, ActOf(s, w)).processed))
    case Release(w) =>
      InTask(s, w) && (s.local[w].Unwinding? || (s.local[w].Loop? && !HasRemaining(Mem(s, TaskOf(s, w).buf))))
    case Complete(w) => 0 <= w < |s.local| && P.CanComplete(s.pool, w)
  }

  // A buffer from the free pool, or a new one when the pool is empty.
  function DoLease(s: State, c: int): State
  {
    if s.free == [] then s.(buffers := s.buffers + 1, reader := Leased(c, s.buffers))
    else s.(free := s.free[1..], reader := Leased(c, s.free[0]))
  }

  // What the next byte does to the inbox: at the end of a frame the text is
  // parsed, and either given to the protocol or the exception is thrown.
  function FeedInbox(i: Inbox, x: byte): Inbox
  {
    var i0 := i.(decoder := DecodeByte(i.decoder, x).buffer, fed := i.fed + [x]);
    if x != 0 then i0
    else
      match Parse(i.decoder)
      case Err(_) => i0.(lost := true)
      case Ok(f) => i0.(processed := i.processed + [f])
  }

  function FeedLocal(i: Inbox, x: byte): Local
  {
    if x != 0 then Loop else if Parse(i.decoder).Err? then Unwinding else Processing
  }

  function DoFeed(s: State, w: int): State
    requires Enabled(s, FeedByte(w))
  {
    var c, b := ActOf(s, w), TaskOf(s, w).buf;
    var m := Mem(s, b);
    var x := m.data[m.pos];
    SetIn(s, c, FeedInbox(In(s, c), x))
      .(memory := s.memory[b := m.(pos := m.pos + 1)], local := s.local[w := FeedLocal(In(s, c), x)])
  }

  function Do(s: State, e: Step): State
    requires Enabled(s, e)
  {
    match e
    case Lease(c) => DoLease(s, c)
    case ReadChannel(data) =>
      var Leased(c, b) := s.reader;
      SetIn(s, c, In(s, c).(received := In(s, c).received + data))
        .(memory := s.memory[b := Buf(data, 0)], reader := Submitting(c, b, data))
    case ReadFails => s.(free := s.free + [s.reader.buf], reader := Elsewhere)
    case SubmitTask =>
      var Submitting(c, b, data) := s.reader;
      s.(pool := P.Submit(s.pool, c, ReadTask(b, data)), reader := Elsewhere)
    case Pick(w) => s.(pool := P.Start(s.pool, w), local := s.local[w := Loop])
    case FeedByte(w) => DoFeed(s, w)
    case EndProcess(w, throws) =>
      if throws then
        var c := ActOf(s, w);
        SetIn(s, c, In(s, c).(lost := true)).(local := s.local[w := Unwinding])
      else s.(local := s.local[w := Loop])
    case Release(w) =>
      // The buffer goes back whether the task ended normally or not.
      var c := ActOf(s, w);
      var end := End(Mem(s, TaskOf(s, w).buf).pos, s.local[w].Unwinding?);
      SetIn(s, c, In(s, c).(ends := In(s, c).ends + [end]))
        .(free := s.free + [TaskOf(s, w).buf], pool := P.Finish(s.pool, w), local := s.local[w := Loop])
    case Complete(w) => s.(pool := P.Complete(s.pool, w))
  }

  // Runs of the read side.
  predicate LegalRun(s: State, es: seq<Step>)
    decreases |es|
  {
    es == [] || (Enabled(s, es[0]) && LegalRun(Do(s, es[0]), es[1..]))
  }

  function Run(s: State, es: seq<Step>): State
    requires LegalRun(s, es)
    decreases |es|
  {
    if es == [] then s else Run(Do(s, es[0]), es[1..])
  }

  lemma RunCons(s: State, e: Step, es: seq<Step>)
    requires Enabled(s, e) && LegalRun(Do(s, e), es)
    ensures LegalRun(s, [e] + es) && Run(s, [e] + es) == Run(Do(s, e), es)
  {
    assert ([e] + es)[1..] == es;
  }

  // ------------------------------------------------------ tasks of a connection

  function Tasks(s: State, c: int): seq<ReadTask>
  {
    P.Of(s.pool.submitted, c)
  }

  function Started(s: State, c: int): seq<ReadTask>
  {
    P.Of(s.pool.started, c)
  }

  predicate RunningOn(s: State, w: int, c: int)
  {
    InTask(s, w) && ActOf(s, w) == c
  }

  // All started tasks are finished, or all but the one a worker is running.
  ghost predicate Progress(s: State, c: int)
  {
    || (|Started(s, c)| == |In(s, c).ends| && forall w :: !RunningOn(s, w, c))
    || (|Started(s, c)| == |In(s, c).ends| + 1 && exists w :: RunningOn(s, w, c))
  }

  ghost predicate PoolInv(s: State)
  {
    && P.Inv(s.pool) && |s.local| == |s.pool.threads|
    && (forall c :: Progress(s, c))
    && IdleLoops(s)
  }

  // A worker outside a task is not in the middle of one.
  predicate IdleLoops(s: State)
  {
    forall w :: 0 <= w < |s.local| && !InTask(s, w) ==> s.local[w].Loop?
  }

  lemma StartedPrefix(s: State, c: int)
    requires P.Inv(s.pool)
    ensures Started(s, c) <= Tasks(s, c)
  {
    assert P.OrderOf(s.pool, c);
  }

  // The running task is the first unfinished one.
  lemma RunningIsFirst(s: State, w: int)
    requires PoolInv(s) && InTask(s, w)
    ensures var c := ActOf(s, w); var n := |In(s, c).ends|;
      n + 1 == |Started(s, c)| <= |Tasks(s, c)| && Tasks(s, c)[n] == TaskOf(s, w)
  {
    var c := ActOf(s, w);
    assert RunningOn(s, w, c) && Progress(s, c);
    StartedPrefix(s, c);
    assert P.RunsLatest(s.pool, w);
  }

  lemma PickProgress(s: State, w: int, c: int)
    requires PoolInv(s) && Enabled(s, Pick(w))
    ensures Progress(Do(s, Pick(w)), c)
  {
    var s', j := Do(s, Pick(w)), s.pool.core.queue[0];
    assert Progress(s, c) && P.Queued(s.pool, 0, j.act);
    assert forall v :: RunningOn(s', v, c) <==> (if v == w then c == j.act else RunningOn(s, v, c));
    assert forall v :: RunningOn(s, v, c) ==> P.Busy(s.pool, v, c);
    if c == j.act {
      assert RunningOn(s', w, c);
    }
  }

  lemma ReleaseProgress(s: State, w: int, c: int)
    requires PoolInv(s) && Enabled(s, Release(w))
    ensures Progress(Do(s, Release(w)), c)
  {
    var s' := Do(s, Release(w));
    assert Progress(s, c) && RunningOn(s, w, ActOf(s, w));
    assert forall v :: RunningOn(s', v, c) <==> v != w && RunningOn(s, v, c);
    assert forall v :: RunningOn(s, v, c) ==> P.Busy(s.pool, v, c);
  }

  lemma OtherProgress(s: State, e: Step, c: int)
    requires PoolInv(s) && Enabled(s, e) && !e.Pick? && !e.Release?
    ensures Progress(Do(s, e), c)
  {
    var s' := Do(s, e);
    assert Progress(s, c);
    assert forall v :: RunningOn(s', v, c) <==> RunningOn(s, v, c);
  }

  lemma StepPool(s: State, e: Step)
    requires PoolInv(s) && Enabled(s, e)
    ensures PoolInv(Do(s, e))
  {
    forall c ensures Progress(Do(s, e), c) {
      if e.Pick? {
        PickProgress(s, e.w, c);
      } else if e.Release? {
        ReleaseProgress(s, e.w, c);
      } else {
        OtherProgress(s, e, c);
      }
    }
    if e.SubmitTask? {
      P.StepInv(s.pool, P.SubmitStep(s.reader.c, ReadTask(s.reader.buf, s.reader.data)));
    } else if e.Pick? {
      P.StepInv(s.pool, P.StartStep(e.w));
    } else if e.Release? {
      P.StepInv(s.pool, P.FinishStep(e.w, s.local[e.w].Unwinding?));
    } else if e.Complete? {
      P.StepInv(s.pool, P.CompleteStep(e.w));
    }
  }
}
