// The outgoing side of the reactor as a step system: the write queues, the
// interest ops, the selector's task queue and its wakeup, shared by the
// selector thread and any number of sending workers. A single operation on a
// concurrent queue is one step, so the runs are all interleavings.
module Writes {
  import opened Text
  import opened Buffers
  import opened Stream

  // One connection's write queue and OP_WRITE interest, with the history of
  // what was enqueued and what the channel took.
  datatype Outbox = Outbox(queue: seq<Buf>, opWrite: bool, enqueued: seq<seq<byte>>, written: seq<byte>)

  datatype Send = Send(to: int, bytes: seq<byte>)

  // How far the first of a worker's sends has got: nothing done; buffer in the
  // write queue; task in the selector's queue, so that waking it is left.
  datatype Stage = BeforeAdd | Added | Posted

  datatype Sender = Sender(todo: seq<Send>, stage: Stage)

  // Where the selector thread is; `Away` is anywhere in its loop over the
  // selected keys outside `continueWrite`.
  datatype Selector =
    | Selecting              // in select
    | TestingTasks           // selectorTasks.isEmpty
    | RunningTask(c: int)    // about to set OP_READ | OP_WRITE
    | Away
    | TestingQueue(c: int)   // the loop test of continueWrite
    | Writing(c: int)        // peek and write
    | Wrote(c: int)          // hasRemaining
    | TestingAgain(c: int)   // the second emptiness test
    | CheckingEnd(c: int)    // shouldTerminate
    | Switching(c: int)      // about to set OP_READ
    | Dead                   // an exception left serve

  datatype State = State(known: set<int>, open: set<int>, outbox: map<int, Outbox>,
                         tasks: seq<int>, wakeup: bool, selector: Selector, senders: seq<Sender>)

  function Init(workers: nat): State
  {
    State({}, {}, map[], [], false, Selecting, seq(workers, _ => Sender([], BeforeAdd)))
  }

  function Out(s: State, c: int): Outbox
  {
    if c in s.outbox then s.outbox[c] else Outbox([], false, [], [])
  }

  function SetOut(s: State, c: int, o: Outbox): State
  {
    s.(outbox := s.outbox[c := o])
  }

  datatype Step =
    | Select
    | TestTasks
    | RunTask
    | Reselect               // all selected keys handled
    | Accept(c: int)
    | Close(c: int)          // reading found the channel ended
    | Enter(c: int)          // continueWrite is called
    | TestQueue
    | WriteChannel(n: nat)
    | CheckTop
    | TestAgain
    | CheckEnd(terminate: bool)
    | SwitchToRead
    | Begin(w: int, sends: seq<Send>)
    | SendStep(w: int)

  predicate Enabled(s: State, e: Step)
  {
    match e
    case Select => s.selector.Selecting?
    case TestTasks => s.selector.TestingTasks?
    case RunTask => s.selector.RunningTask?
    case Reselect => s.selector.Away?
    case Accept(c) => s.selector.Away? && c !in s.known
    case Close(c) => s.selector.Away?
    case Enter(c) => s.selector.Away? && c in s.open
    case TestQueue => s.selector.TestingQueue?
    case WriteChannel(n) =>
      s.selector.Writing? && Out(s, s.selector.c).queue != [] && n <= |Remaining(Out(s, s.selector.c).queue[0])|
    case CheckTop => s.selector.Wrote? && Out(s, s.selector.c).queue != []
    case TestAgain => s.selector.TestingAgain?
    case CheckEnd(_) => s.selector.CheckingEnd?
    case SwitchToRead => s.selector.Switching?
    case Begin(w, _) => 0 <= w < |s.senders| && s.senders[w].todo == []
    case SendStep(w) => 0 <= w < |s.senders| && s.senders[w].todo != [] && s.senders[w].todo[0].to in s.known
  }

  function DoWrite(o: Outbox, n: nat): Outbox
    requires o.queue != [] && n <= |Remaining(o.queue[0])|
  {
    var top := o.queue[0];
    o.(queue := o.queue[0 := top.(pos := top.pos + n)], written := o.written + Remaining(top)[..n])
  }

  function DoAdd(o: Outbox, bytes: seq<byte>): Outbox
  {
    o.(queue := o.queue + [Buf(bytes, 0)], enqueued := o.enqueued + [bytes])
  }

  function DoSend(s: State, w: int): State
    requires Enabled(s, SendStep(w))
  {
    var l := s.senders[w];
    var m := l.todo[0];
    match l.stage
    case BeforeAdd => SetOut(s, m.to, DoAdd(Out(s, m.to), m.bytes)).(senders := s.senders[w := l.(stage := Added)])
    case Added => s.(tasks := s.tasks + [m.to], senders := s.senders[w := l.(stage := Posted)])
    case Posted => s.(wakeup := true, senders := s.senders[w := Sender(l.todo[1..], BeforeAdd)])
  }

  // The steps of the selector inside continueWrite.
  function DoContinueWrite(s: State, e: Step): State
    requires Enabled(s, e) && (e.TestQueue? || e.WriteChannel? || e.CheckTop? || e.TestAgain? || e.CheckEnd? || e.SwitchToRead?)
  {
    var c := s.selector.c;
    var o := Out(s, c);
    match e
    case TestQueue => s.(selector := if o.queue != [] then Writing(c) else TestingAgain(c))
    case WriteChannel(n) => SetOut(s, c, DoWrite(o, n)).(selector := Wrote(c))
    case CheckTop =>
      if Remaining(o.queue[0]) != [] then s.(selector := Away)
      else SetOut(s, c, o.(queue := o.queue[1..])).(selector := TestingQueue(c))
    case TestAgain => s.(selector := if o.queue == [] then CheckingEnd(c) else Away)
    case CheckEnd(terminate) =>
      if terminate then s.(open := s.open - {c}, selector := Away) else s.(selector := Switching(c))
    case SwitchToRead => SetOut(s, c, o.(opWrite := false)).(selector := Away)
  }

  function Do(s: State, e: Step): State
    requires Enabled(s, e)
  {
    match e
    case Select => s.(wakeup := false, selector := TestingTasks)
    case TestTasks =>
      if s.tasks == [] then s.(selector := Away) else s.(tasks := s.tasks[1..], selector := RunningTask(s.tasks[0]))
    case RunTask =>
      // Setting the interest of a closed channel's key throws.
      var c := s.selector.c;
      if c in s.open then SetOut(s, c, Out(s, c).(opWrite := true)).(selector := TestingTasks) else s.(selector := Dead)
    case Reselect => s.(selector := Selecting)
    case Accept(c) => s.(known := s.known + {c}, open := s.open + {c})
    case Close(c) => s.(open := s.open - {c})
    case Enter(c) => s.(selector := TestingQueue(c))
    case Begin(w, sends) => s.(senders := s.senders[w := Sender(sends, BeforeAdd)])
    case SendStep(w) => DoSend(s, w)
    case _ => DoContinueWrite(s, e)
  }

  // -------------------------------------------------------- no lost wakeup

  // Worker `w` has put a buffer into c's write queue and has not yet asked the
  // selector for OP_WRITE.
  predicate Between(s: State, w: int, c: int)
  {
    0 <= w < |s.senders| && s.senders[w].stage.Added? && s.senders[w].todo != [] && s.senders[w].todo[0].to == c
  }

  // Worker `w` has asked and not yet woken the selector.
  predicate Waking(s: State, w: int)
  {
    0 <= w < |s.senders| && s.senders[w].stage.Posted?
  }

  // The selector has seen c's queue empty and is on its way back to OP_READ.
  predicate SwitchingBack(s: State, c: int)
  {
    (s.selector.CheckingEnd? || s.selector.Switching?) && s.selector.c == c
  }

  // c's pending writes are not forgotten: there are none, or the write
  // interest is on to stay, or someone is about to turn it on.
  ghost predicate Covered(s: State, c: int)
  {
    c in s.open && Out(s, c).queue != [] ==>
      || (Out(s, c).opWrite && !SwitchingBack(s, c))
      || c in s.tasks
      || s.selector == RunningTask(c)
      || exists w :: Between(s, w, c)
  }

  // Nor are the selector's own tasks.
  ghost predicate TasksCovered(s: State)
  {
    s.tasks != [] ==>
      || s.wakeup || s.selector.TestingTasks? || s.selector.RunningTask? || s.selector.Dead?
      || exists w :: Waking(s, w)
  }

  predicate Sane(s: State)
  {
    && s.open <= s.known && s.outbox.Keys <= s.known
    && (forall w :: 0 <= w < |s.senders| && s.senders[w].todo == [] ==> s.senders[w].stage.BeforeAdd?)
    && (InContinueWrite(s.selector) ==> s.selector.c in s.known)
    && ((s.selector.Writing? || s.selector.Wrote?) ==> Out(s, s.selector.c).queue != [])
  }

  predicate InContinueWrite(p: Selector)
  {
    p.TestingQueue? || p.Writing? || p.Wrote? || p.TestingAgain? || p.CheckingEnd? || p.Switching?
  }

  lemma SendCovered(s: State, w: int, c: int)
    requires Sane(s) && Covered(s, c) && Enabled(s, SendStep(w))
    ensures Covered(Do(s, SendStep(w)), c)
  {
    var s' := DoSend(s, w);
    assert forall v :: v != w && Between(s, v, c) ==> Between(s', v, c);
    if s.senders[w].todo[0].to == c {
      match s.senders[w].stage
      case BeforeAdd => assert Between(s', w, c);
      case Added => assert s'.tasks[|s.tasks|] == c;
      case Posted =>
    } else {
      assert !Between(s, w, c);
    }
  }

  lemma SelectorCovered(s: State, e: Step, c: int)
    requires Sane(s) && Covered(s, c) && Enabled(s, e) && !e.SendStep?
    ensures Covered(Do(s, e), c)
  {
    var s' := Do(s, e);
    assert forall v :: Between(s, v, c) ==> Between(s', v, c);
    assert e.TestTasks? && s.tasks != [] ==> s.tasks == [s.tasks[0]] + s.tasks[1..];
  }

  lemma StepTasksCovered(s: State, e: Step)
    requires Sane(s) && TasksCovered(s) && Enabled(s, e)
    ensures TasksCovered(Do(s, e))
  {
    var s' := Do(s, e);
    if e.SendStep? {
      assert forall v :: v != e.w && Waking(s, v) ==> Waking(s', v);
      assert s.senders[e.w].stage.Added? ==> Waking(s', e.w);
    } else {
      assert forall v :: Waking(s, v) ==> Waking(s', v);
    }
  }

  lemma StepSane(s: State, e: Step)
    requires Sane(s) && Enabled(s, e)
    ensures Sane(Do(s, e))
  {
  }

  // ----------------------------------------------------- write conservation

  // What was written is the first encodings, whole and in order, and then a
  // prefix of the one at the head of the queue; the queue holds the rest, and
  // only its head may be partly written.
  ghost predicate Conserved(o: Outbox)
  {
    QueueOk(o.queue, o.enqueued) && o.written == Flatten(o.enqueued[..|o.enqueued| - |o.queue|]) + HeadWritten(o)
  }

  // The queue holds the last encodings, and only its head is partly written.
  predicate QueueOk(queue: seq<Buf>, enqueued: seq<seq<byte>>)
  {
    var k := |enqueued| - |queue|;
    && k >= 0
    && (forall i :: 0 <= i < |queue| ==> queue[i].data == enqueued[k + i])
    && (forall i :: 0 <= i < |queue| ==> queue[i].pos <= |queue[i].data|)
    && (forall i :: 1 <= i < |queue| ==> queue[i].pos == 0)
  }

  function HeadWritten(o: Outbox): seq<byte>
  {
    if o.queue == [] || o.queue[0].pos > |o.queue[0].data| then [] else o.queue[0].data[..o.queue[0].pos]
  }

  lemma AddConserved(o: Outbox, bytes: seq<byte>)
    requires Conserved(o)
    ensures Conserved(DoAdd(o, bytes))
  {
    var k := |o.enqueued| - |o.queue|;
    assert DoAdd(o, bytes).enqueued[..k] == o.enqueued[..k];
  }

  lemma WriteConserved(o: Outbox, n: nat)
    requires Conserved(o) && o.queue != [] && n <= |Remaining(o.queue[0])|
    ensures Conserved(DoWrite(o, n))
  {
    var k := |o.enqueued| - |o.queue|;
    HeadGrows(o, n);
    QueueKept(o, n);
    Regroup(Flatten(o.enqueued[..k]), HeadWritten(o), Remaining(o.queue[0])[..n]);
  }

  lemma HeadGrows(o: Outbox, n: nat)
    requires o.queue != [] && o.queue[0].pos <= |o.queue[0].data| && n <= |Remaining(o.queue[0])|
    ensures var o' := DoWrite(o, n);
      && HeadWritten(o') == HeadWritten(o) + Remaining(o.queue[0])[..n]
      && o'.queue[0].data == o.queue[0].data && o'.queue[0].pos <= |o.queue[0].data|
  {
    var top := o.queue[0];
    assert top.data[..top.pos + n] == top.data[..top.pos] + top.data[top.pos..][..n];
  }

  lemma QueueKept(o: Outbox, n: nat)
    requires QueueOk(o.queue, o.enqueued) && o.queue != [] && n <= |Remaining(o.queue[0])|
    ensures var o' := DoWrite(o, n);
      && QueueOk(o'.queue, o'.enqueued) && o'.enqueued == o.enqueued && |o'.queue| == |o.queue|
      && o'.written == o.written + Remaining(o.queue[0])[..n]
  {
  }

  lemma RemoveConserved(o: Outbox)
    requires Conserved(o) && o.queue != [] && Remaining(o.queue[0]) == []
    ensures Conserved(o.(queue := o.queue[1..]))
  {
    var k := |o.enqueued| - |o.queue|;
    assert o.queue[0].data[..o.queue[0].pos] == o.enqueued[k];
    FlattenSnoc(o.enqueued[..k], o.enqueued[k]);
    assert o.enqueued[..k] + [o.enqueued[k]] == o.enqueued[..k + 1];
  }

  lemma SendConserved(s: State, w: int, c: int)
    requires Enabled(s, SendStep(w)) && Conserved(Out(s, c))
    ensures Conserved(Out(Do(s, SendStep(w)), c))
  {
    if s.senders[w].stage.BeforeAdd? && s.senders[w].todo[0].to == c {
      AddConserved(Out(s, c), s.senders[w].todo[0].bytes);
    } else {
      SendKeepsOthers(s, w, c);
    }
  }

  lemma SendKeepsOthers(s: State, w: int, c: int)
    requires Enabled(s, SendStep(w)) && !(s.senders[w].stage.BeforeAdd? && s.senders[w].todo[0].to == c)
    ensures Out(Do(s, SendStep(w)), c) == Out(s, c)
  {
  }

  // Outside the two steps that move bytes, the selector changes at most the
  // interest.
  lemma SelectorKeepsQueue(s: State, e: Step, c: int)
    requires Enabled(s, e) && !e.SendStep? && !e.WriteChannel?
    requires e.CheckTop? ==> Remaining(Out(s, s.selector.c).queue[0]) != [] || s.selector.c != c
    ensures Out(Do(s, e), c) == Out(s, c).(opWrite := Out(Do(s, e), c).opWrite)
  {
  }

  lemma WriteEffect(s: State, n: nat, c: int)
    requires Enabled(s, WriteChannel(n))
    ensures Out(Do(s, WriteChannel(n)), c) == if c == s.selector.c then DoWrite(Out(s, c), n) else Out(s, c)
  {
  }

  lemma RemoveEffect(s: State)
    requires Enabled(s, CheckTop) && Remaining(Out(s, s.selector.c).queue[0]) == []
    ensures var o := Out(s, s.selector.c); Out(Do(s, CheckTop), s.selector.c) == o.(queue := o.queue[1..])
  {
  }

  lemma SelectorConserved(s: State, e: Step, c: int)
    requires Enabled(s, e) && !e.SendStep? && Conserved(Out(s, c))
    ensures Conserved(Out(Do(s, e), c))
  {
    if e.WriteChannel? {
      WriteEffect(s, e.n, c);
      if s.selector.c == c {
        WriteConserved(Out(s, c), e.n);
      }
    } else if e.CheckTop? && s.selector.c == c && Remaining(Out(s, c).queue[0]) == [] {
      RemoveEffect(s);
      RemoveConserved(Out(s, c));
    } else {
      SelectorKeepsQueue(s, e, c);
      InterestConserved(Out(s, c), Out(Do(s, e), c).opWrite);
    }
  }

  lemma InterestConserved(o: Outbox, opWrite: bool)
    requires Conserved(o)
    ensures Conserved(o.(opWrite := opWrite))
  {
  }

  // The bytes a queue still has to write.
  function Pending(q: seq<Buf>): seq<byte>
  {
    if q == [] then [] else Remaining(q[0]) + Pending(q[1..])
  }

  lemma {:induction false} PendingOfFresh(q: seq<Buf>, data: seq<seq<byte>>)
    requires |q| == |data| && forall i :: 0 <= i < |q| ==> q[i] == Buf(data[i], 0)
    ensures Pending(q) == Flatten(data)
  {
    if q != [] {
      PendingOfFresh(q[1..], data[1..]);
    }
  }

  lemma HeadAndPending(o: Outbox)
    requires Conserved(o)
    ensures HeadWritten(o) + Pending(o.queue) == Flatten(o.enqueued[|o.enqueued| - |o.queue|..])
  {
    if o.queue != [] {
      PendingOfRest(o.queue, o.enqueued[|o.enqueued| - |o.queue|..]);
    }
  }

  // Written bytes followed by queued bytes are the encodings, concatenated in
  // the order they were enqueued.
  lemma ConservedTotal(o: Outbox)
    requires Conserved(o)
    ensures o.written + Pending(o.queue) == Flatten(o.enqueued)
  {
    var k := |o.enqueued| - |o.queue|;
    HeadAndPending(o);
    Regroup(Flatten(o.enqueued[..k]), HeadWritten(o), Pending(o.queue));
    FlattenAppend(o.enqueued[..k], o.enqueued[k..]);
    assert o.enqueued[..k] + o.enqueued[k..] == o.enqueued;
  }

  lemma PendingOfRest(q: seq<Buf>, data: seq<seq<byte>>)
    requires q != [] && |q| == |data| && q[0].data == data[0] && q[0].pos <= |data[0]|
    requires forall i :: 1 <= i < |q| ==> q[i] == Buf(data[i], 0)
    ensures q[0].data[..q[0].pos] + Pending(q) == Flatten(data)
  {
    var top := q[0];
    PendingOfFresh(q[1..], data[1..]);
    assert top.data[..top.pos] + Remaining(top) == top.data;
    Regroup(top.data[..top.pos], Remaining(top), Flatten(data[1..]));
  }

  // What is left of a continueWrite when nobody adds: an upper bound on the
  // selector's steps until it leaves.
  function StepsLeft(s: State): nat
    requires InContinueWrite(s.selector)
  {
    4 * |Out(s, s.selector.c).queue| + match s.selector
      case TestingQueue(_) => 6
      case Writing(_) => 5
      case Wrote(_) => 4
      case TestingAgain(_) => 3
      case CheckingEnd(_) => 2
      case _ => 1
  }

  // The drain loop ends: every step of the selector in continueWrite either
  // leaves it or brings the end closer.
  lemma DrainEnds(s: State, e: Step)
    requires InContinueWrite(s.selector) && Enabled(s, e) && !e.SendStep? && !e.Begin?
    ensures InContinueWrite(Do(s, e).selector) ==> StepsLeft(Do(s, e)) < StepsLeft(s)
  {
  }

  // Runs of the write side.
  predicate LegalRun(s: State, es: seq<Step>)
    decreases |es|
  {
    es == [] || (Enabled(s, es[0]) && LegalRun(Do(s, es[0]), es[1..]))
  }

  function Run(s: State, es: seq<Step>): State
    requires LegalRun(s, es)
    decreases |es|
  {
    if es == [] then s else Run(Do(s, es[0]), es[1..])
  }

  function Min(m: nat, n: nat): nat
  {
    if m < n then m else n
  }

  // The drain loop against a channel that takes `room` bytes: the head is
  // offered, and the loop goes on once all of it was taken.
  function Drained(o: Outbox, room: nat): Outbox
    decreases |o.queue|
  {
    if o.queue == [] then o
    else
      var n := Min(room, |Remaining(o.queue[0])|);
      var o' := DoWrite(o, n);
      if HasRemaining(o'.queue[0]) then o' else Drained(o'.(queue := o'.queue[1..]), room - n)
  }

  // `written` and `left` are what there is of `w` and `pending` after writing
  // as much of `pending` as there is room for.
  predicate CutAt(w: seq<byte>, pending: seq<byte>, room: nat, written: seq<byte>, left: seq<byte>)
  {
    var n := Min(room, |pending|);
    written == w + pending[..n] && left == pending[n..]
  }

  lemma CutInTop(w: seq<byte>, top: seq<byte>, rest: seq<byte>, room: nat)
    requires room < |top|
    ensures CutAt(w, top + rest, room, w + top[..room], top[room..] + rest)
  {
    assert (top + rest)[..room] == top[..room] && (top + rest)[room..] == top[room..] + rest;
  }

  lemma CutInRest(w: seq<byte>, top: seq<byte>, rest: seq<byte>, room: nat, written: seq<byte>, left: seq<byte>)
    requires room >= |top| && CutAt(w + top, rest, room - |top|, written, left)
    ensures CutAt(w, top + rest, room, written, left)
  {
    var k := Min(room - |top|, |rest|);
    assert (top + rest)[..|top| + k] == top + rest[..k] && (top + rest)[|top| + k..] == rest[k..];
    Regroup(w, top, rest[..k]);
  }

  // `p` is `o` after writing exactly the next pending bytes, as many as there
  // is room for; the queue is empty if and only if there was room for all.
  ghost predicate DrainedTo(o: Outbox, room: nat, p: Outbox)
  {
    && Conserved(p) && p.enqueued == o.enqueued && p.opWrite == o.opWrite
    && CutAt(o.written, Pending(o.queue), room, p.written, Pending(p.queue))
    && (p.queue == [] <==> room >= |Pending(o.queue)|)
  }

  lemma {:induction false} DrainedBytes(o: Outbox, room: nat)
    requires Conserved(o)
    ensures DrainedTo(o, room, Drained(o, room))
    decreases |o.queue|
  {
    if o.queue == [] {
      assert o.written + [] == o.written;
    } else {
      var n := Min(room, |Remaining(o.queue[0])|);
      var o' := DoWrite(o, n);
      WriteConserved(o, n);
      if HasRemaining(o'.queue[0]) {
        DrainedPart(o, room);
      } else {
        RemoveConserved(o');
        AllTop(o, n);
        DrainedBytes(o'.(queue := o'.queue[1..]), room - n);
        DrainedMore(o, room, o'.(queue := o'.queue[1..]), Drained(o, room));
      }
    }
  }

  // Room for a part of the head only.
  lemma DrainedPart(o: Outbox, room: nat)
    requires Conserved(o) && o.queue != [] && room < |Remaining(o.queue[0])| && Conserved(DoWrite(o, room))
    ensures DrainedTo(o, room, DoWrite(o, room))
  {
    TopWritten(o, room);
    CutInTop(o.written, Remaining(o.queue[0]), Pending(o.queue[1..]), room);
    assert Pending(o.queue) == Remaining(o.queue[0]) + Pending(o.queue[1..]);
    assert Pending(DoWrite(o, room).queue) == Remaining(o.queue[0])[room..] + Pending(o.queue[1..]);
  }

  // Room for the head, and the rest drained after it.
  lemma DrainedMore(o: Outbox, room: nat, o2: Outbox, p: Outbox)
    requires o.queue != [] && room >= |Remaining(o.queue[0])|
    requires o2.written == o.written + Remaining(o.queue[0]) && o2.queue == o.queue[1..]
    requires o2.enqueued == o.enqueued && o2.opWrite == o.opWrite
    requires DrainedTo(o2, room - |Remaining(o.queue[0])|, p)
    ensures DrainedTo(o, room, p)
  {
    CutInRest(o.written, Remaining(o.queue[0]), Pending(o.queue[1..]), room, p.written, Pending(p.queue));
  }

  lemma AllTop(o: Outbox, n: nat)
    requires Conserved(o) && o.queue != [] && n <= |Remaining(o.queue[0])| && !HasRemaining(DoWrite(o, n).queue[0])
    ensures n == |Remaining(o.queue[0])| && DoWrite(o, n).written == o.written + Remaining(o.queue[0])
    ensures DoWrite(o, n).queue[1..] == o.queue[1..] && Remaining(DoWrite(o, n).queue[0]) == []
  {
  }

  lemma TopWritten(o: Outbox, n: nat)
    requires Conserved(o) && o.queue != [] && n <= |Remaining(o.queue[0])|
    ensures var o' := DoWrite(o, n);
      && o'.queue[1..] == o.queue[1..] && o'.written == o.written + Remaining(o.queue[0])[..n]
      && Remaining(o'.queue[0]) == Remaining(o.queue[0])[n..]
  {
  }

  // The selector in continueWrite while nobody adds: its steps write exactly
  // what the function says, and touch nothing else.
  lemma {:induction false} DrainRun(s: State, c: int, room: nat) returns (es: seq<Step>)
    requires s.selector == TestingQueue(c)
    ensures LegalRun(s, es)
    ensures var s' := Run(s, es);
      && Out(s', c) == Drained(Out(s, c), room) && Elsewhere(s, s', c)
      && s'.selector == if Out(s', c).queue == [] then TestingAgain(c) else Away
    decreases |Out(s, c).queue|
  {
    var o := Out(s, c);
    if o.queue == [] {
      es := [TestQueue];
      RunOne(s, TestQueue);
    } else {
      var n := Min(room, |Remaining(o.queue[0])|);
      WriteTopSteps(s, c, n);
      var s' := AfterWrite(s, c, n);
      es := [];
      if !HasRemaining(DoWrite(o, n).queue[0]) {
        es := DrainRun(s', c, room - n);
      }
      ElsewhereThen(s, s', Run(s', es), c);
      es := RunThree(s, TestQueue, WriteChannel(n), CheckTop, es);
    }
  }

  // After one round of the loop.
  function AfterWrite(s: State, c: int, n: nat): State
    requires s.selector == TestingQueue(c) && Out(s, c).queue != [] && n <= |Remaining(Out(s, c).queue[0])|
  {
    Do(Do(Do(s, TestQueue), WriteChannel(n)), CheckTop)
  }

  lemma ElsewhereThen(s: State, s1: State, s2: State, c: int)
    requires Elsewhere(s, s1, c) && Elsewhere(s1, s2, c)
    ensures Elsewhere(s, s2, c)
  {
  }

  lemma RunThree(s: State, e1: Step, e2: Step, e3: Step, es: seq<Step>) returns (all: seq<Step>)
    requires Enabled(s, e1) && Enabled(Do(s, e1), e2) && Enabled(Do(Do(s, e1), e2), e3)
    requires LegalRun(Do(Do(Do(s, e1), e2), e3), es)
    ensures LegalRun(s, all) && Run(s, all) == Run(Do(Do(Do(s, e1), e2), e3), es)
  {
    RunCons(Do(Do(s, e1), e2), e3, es);
    RunCons(Do(s, e1), e2, [e3] + es);
    RunCons(s, e1, [e2] + ([e3] + es));
    all := [e1] + ([e2] + ([e3] + es));
  }

  lemma WriteTopSteps(s: State, c: int, n: nat)
    requires s.selector == TestingQueue(c) && Out(s, c).queue != [] && n <= |Remaining(Out(s, c).queue[0])|
    ensures Enabled(Do(s, TestQueue), WriteChannel(n)) && Enabled(Do(Do(s, TestQueue), WriteChannel(n)), CheckTop)
    ensures var o, s' := DoWrite(Out(s, c), n), AfterWrite(s, c, n);
      && Elsewhere(s, s', c)
      && Out(s', c) == (if HasRemaining(o.queue[0]) then o else o.(queue := o.queue[1..]))
      && s'.selector == (if HasRemaining(o.queue[0]) then Away else TestingQueue(c))
  {
  }

  // And the whole of continueWrite, up to the switch back to OP_READ or the
  // close that an emptied queue leads to.
  lemma ContinueWriteRun(s: State, c: int, room: nat, terminate: bool) returns (es: seq<Step>)
    requires s.selector == TestingQueue(c)
    ensures LegalRun(s, es)
    ensures var s', o := Run(s, es), Drained(Out(s, c), room);
      && s'.selector == Away && s'.tasks == s.tasks && s'.senders == s.senders
      && Out(s', c) == (if o.queue == [] && !terminate then o.(opWrite := false) else o)
      && s'.open == (if o.queue == [] && terminate then s.open - {c} else s.open)
      && forall d :: d != c ==> Out(s', d) == Out(s, d)
  {
    es := DrainRun(s, c, room);
    var s1 := Run(s, es);
    if s1.selector == TestingAgain(c) {
      var rest := if terminate then [TestAgain, CheckEnd(true)] else [TestAgain, CheckEnd(false), SwitchToRead];
      LeaveRun(s1, c, terminate, rest);
      RunAppend(s, es, rest);
      es := es + rest;
    }
  }

  lemma LeaveRun(s: State, c: int, terminate: bool, es: seq<Step>)
    requires s.selector == TestingAgain(c) && Out(s, c).queue == []
    requires es == if terminate then [TestAgain, CheckEnd(true)] else [TestAgain, CheckEnd(false), SwitchToRead]
    ensures LegalRun(s, es)
    ensures Run(s, es) == if terminate then s.(selector := Away, open := s.open - {c})
                          else SetOut(s, c, Out(s, c).(opWrite := false)).(selector := Away)
  {
    var s1 := Do(s, TestAgain);
    var s2 := Do(s1, CheckEnd(terminate));
    if terminate {
      RunOne(s1, CheckEnd(true));
      RunCons(s, TestAgain, [CheckEnd(true)]);
      assert es == [TestAgain] + [CheckEnd(true)];
    } else {
      RunOne(s2, SwitchToRead);
      RunCons(s1, CheckEnd(false), [SwitchToRead]);
      RunCons(s, TestAgain, [CheckEnd(false)] + [SwitchToRead]);
      assert es == [TestAgain] + ([CheckEnd(false)] + [SwitchToRead]);
    }
  }

  lemma {:induction false} RunAppend(s: State, es: seq<Step>, fs: seq<Step>)
    requires LegalRun(s, es) && LegalRun(Run(s, es), fs)
    ensures LegalRun(s, es + fs) && Run(s, es + fs) == Run(Run(s, es), fs)
    decreases |es|
  {
    if es == [] {
      assert es + fs == fs;
    } else {
      RunAppend(Do(s, es[0]), es[1..], fs);
      assert (es + fs)[0] == es[0] && (es + fs)[1..] == es[1..] + fs;
    }
  }

  // Nothing but c's outbox and the selector's place has changed.
  ghost predicate Elsewhere(s: State, s': State, c: int)
  {
    && s'.known == s.known && s'.open == s.open && s'.tasks == s.tasks && s'.wakeup == s.wakeup && s'.senders == s.senders
    && forall d :: d != c ==> Out(s', d) == Out(s, d)
  }

  lemma RunOne(s: State, e: Step)
    requires Enabled(s, e)
    ensures LegalRun(s, [e]) && Run(s, [e]) == Do(s, e)
  {
    assert [e][1..] == [];
  }

  lemma RunCons(s: State, e: Step, es: seq<Step>)
    requires Enabled(s, e) && LegalRun(Do(s, e), es)
    ensures LegalRun(s, [e] + es) && Run(s, [e] + es) == Run(Do(s, e), es)
  {
    assert ([e] + es)[1..] == es;
  }

  // ------------------------------------------------- everything together

  ghost predicate Inv(s: State)
  {
    && Sane(s) && TasksCovered(s)
    && forall c :: Covered(s, c) && Conserved(Out(s, c))
  }

  lemma InitInv(workers: nat)
    ensures Inv(Init(workers))
  {
  }

  lemma StepInv(s: State, e: Step)
    requires Inv(s) && Enabled(s, e)
    ensures Inv(Do(s, e))
  {
    StepSane(s, e);
    StepTasksCovered(s, e);
    forall c ensures Covered(Do(s, e), c) && Conserved(Out(Do(s, e), c)) {
      if e.SendStep? {
        SendCovered(s, e.w, c);
        SendConserved(s, e.w, c);
      } else {
        SelectorCovered(s, e, c);
        SelectorConserved(s, e, c);
      }
    }
  }

  // No lost wakeup: when the selector sits in select with no wakeup pending
  // and no worker is in the middle of a send, its task queue is empty and
  // every open connection with something to write has OP_WRITE interest.
  lemma NoLostWakeup(s: State)
    requires Inv(s) && s.selector.Selecting? && !s.wakeup
    requires forall w :: 0 <= w < |s.senders| ==> s.senders[w].stage.BeforeAdd?
    ensures s.tasks == []
    ensures forall c :: c in s.open && Out(s, c).queue != [] ==> Out(s, c).opWrite
  {
    assert forall w :: !Waking(s, w);
    forall c | c in s.open && Out(s, c).queue != []
      ensures Out(s, c).opWrite
    {
      assert Covered(s, c);
      assert forall w :: !Between(s, w, c);
    }
  }
}
