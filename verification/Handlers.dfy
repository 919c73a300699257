// The non-blocking handler and the reactor's helpers as the objects they are,
// one call at a time. What a call does is what a run of the step systems
// `Writes` and `Reads` does; `Reactor` has all their interleavings.
module Handlers {
  import opened Text
  import opened Codec
  import opened Stream
  import opened Buffers
  import opened FrameCodec
  import opened Server
  import W = Writes
  import R = Reads

  // ------------------------------------------------------------ read buffers

  class ByteBuffer {
    const data: array<byte>
    var position: nat
    var limit: nat

    ghost predicate Valid()
      reads this
    {
      position <= limit <= data.Length
    }

    function Value(): Buf
      requires Valid()
      reads this, data
    {
      Buf(data[..limit], position)
    }

    constructor Allocate(capacity: nat)
      ensures Valid() && position == 0 && limit == capacity == data.Length && fresh(data)
    {
      data := new byte[capacity];
      position, limit := 0, capacity;
    }

    method Clear()
      modifies this
      ensures Valid() && position == 0 && limit == data.Length
    {
      position, limit := 0, data.Length;
    }

    // What a channel read does to the buffer.
    method PutAll(bytes: seq<byte>)
      requires Valid() && |bytes| <= limit - position
      modifies this`position, data
      ensures Valid() && position == old(position) + |bytes|
      ensures data[..position] == old(data[..position]) + bytes
    {
      ghost var start := position;
      var i := 0;
      while i < |bytes|
        invariant i <= |bytes| && position == start + i && position <= limit <= data.Length
        invariant data[..position] == old(data[..position]) + bytes[..i]
      {
        data[position] := bytes[i];
        position, i := position + 1, i + 1;
      }
    }

    method Flip()
      requires Valid()
      modifies this
      ensures Valid() && Value() == Buf(old(data[..position]), 0)
    {
      limit, position := position, 0;
    }

    method Get() returns (b: byte)
      requires Valid() && position < limit
      modifies this`position
      ensures Valid() && [b] + Remaining(Value()) == old(Remaining(Value()))
    {
      b := data[position];
      position := position + 1;
    }
  }

  // BUFFER_POOL and its two accessors.
  class BufferPool {
    var free: seq<ByteBuffer>

    constructor ()
      ensures free == []
    {
      free := [];
    }

    // A cleared buffer from the pool, or a new one.
    method Lease() returns (buf: ByteBuffer)
      modifies this, free
      ensures buf.Valid() && buf.position == 0 && buf.limit == buf.data.Length
      ensures if old(free) == [] then free == [] && fresh(buf) && fresh(buf.data) && buf.data.Length == R.BUFFER_SIZE
              else buf == old(free)[0] && free == old(free)[1..]
    {
      if free == [] {
        buf := new ByteBuffer.Allocate(R.BUFFER_SIZE);
      } else {
        buf := free[0];
        free := free[1..];
        buf.Clear();
      }
    }

    method Release(buf: ByteBuffer)
      modifies this
      ensures free == old(free) + [buf]
    {
      free := free + [buf];
    }
  }

  // ------------------------------------------------------------ the reactor

  // Whether the write interest is on, per connection, after running these
  // tasks in order.
  function RunAll(interest: map<int, bool>, tasks: seq<(int, bool)>): map<int, bool>
    decreases |tasks|
  {
    if tasks == [] then interest else RunAll(interest[tasks[0].0 := tasks[0].1], tasks[1..])
  }

  // No later task is for the same connection.
  predicate IsLastOf(tasks: seq<(int, bool)>, i: nat)
    requires i < |tasks|
  {
    forall j :: i < j < |tasks| ==> tasks[j].0 != tasks[i].0
  }

  predicate HasTask(tasks: seq<(int, bool)>, c: int)
  {
    exists i :: 0 <= i < |tasks| && tasks[i].0 == c
  }

  predicate SameInterest(before: map<int, bool>, after: map<int, bool>, c: int)
  {
    (c in after <==> c in before) && (c in before ==> after[c] == before[c])
  }

  // The last task of a connection decides; others keep their interest.
  lemma {:induction false} RunAllLast(interest: map<int, bool>, tasks: seq<(int, bool)>, i: nat)
    requires i < |tasks| && IsLastOf(tasks, i)
    ensures tasks[i].0 in RunAll(interest, tasks) && RunAll(interest, tasks)[tasks[i].0] == tasks[i].1
    decreases |tasks|
  {
    if i > 0 {
      assert IsLastOf(tasks[1..], i - 1);
      RunAllLast(interest[tasks[0].0 := tasks[0].1], tasks[1..], i - 1);
    } else {
      assert !HasTask(tasks[1..], tasks[0].0);
      RunAllOthers(interest[tasks[0].0 := tasks[0].1], tasks[1..], tasks[0].0);
    }
  }

  lemma {:induction false} RunAllOthers(interest: map<int, bool>, tasks: seq<(int, bool)>, c: int)
    requires !HasTask(tasks, c)
    ensures SameInterest(interest, RunAll(interest, tasks), c)
    decreases |tasks|
  {
    if tasks != [] {
      assert forall i :: 0 <= i < |tasks| - 1 ==> tasks[1..][i] == tasks[i + 1];
      assert !HasTask(tasks[1..], c);
      RunAllOthers(interest[tasks[0].0 := tasks[0].1], tasks[1..], c);
    }
  }

  class Reactor {
    var selectorTasks: seq<(int, bool)>
    var interest: map<int, bool>
    var wakeup: bool
    var nextConnectionId: int
    const connections: ConnectionsImpl

    constructor (connections: ConnectionsImpl)
      ensures selectorTasks == [] && interest == map[] && !wakeup && nextConnectionId == 0 && this.connections == connections
    {
      selectorTasks, interest, wakeup, nextConnectionId := [], map[], false, 0;
      this.connections := connections;
    }

    function OpWrite(c: int): bool
      reads this
    {
      c in interest && interest[c]
    }

    // On the selector thread the interest changes at once; elsewhere a task is
    // queued and the selector woken.
    method UpdateInterestedOps(c: int, opWrite: bool, onSelectorThread: bool)
      modifies this`interest, this`selectorTasks, this`wakeup
      ensures interest == if onSelectorThread then old(interest)[c := opWrite] else old(interest)
      ensures selectorTasks == if onSelectorThread then old(selectorTasks) else old(selectorTasks) + [(c, opWrite)]
      ensures wakeup == (old(wakeup) || !onSelectorThread)
    {
      if onSelectorThread {
        interest := interest[c := opWrite];
      } else {
        selectorTasks := selectorTasks + [(c, opWrite)];
        wakeup := true;
      }
    }

    // Afterwards each connection with a task has the interest that its last
    // task asked for, and the others keep theirs.
    method RunSelectionThreadTasks()
      modifies this`interest, this`selectorTasks
      ensures selectorTasks == [] && interest == RunAll(old(interest), old(selectorTasks))
      ensures forall i :: 0 <= i < |old(selectorTasks)| && IsLastOf(old(selectorTasks), i) ==>
        old(selectorTasks)[i].0 in interest && interest[old(selectorTasks)[i].0] == old(selectorTasks)[i].1
      ensures forall c :: !HasTask(old(selectorTasks), c) ==> SameInterest(old(interest), interest, c)
    {
      ghost var before, tasks := interest, selectorTasks;
      while selectorTasks != []
        invariant RunAll(interest, selectorTasks) == RunAll(old(interest), old(selectorTasks))
        decreases |selectorTasks|
      {
        var task := selectorTasks[0];
        selectorTasks := selectorTasks[1..];
        interest := interest[task.0 := task.1];
      }
      forall i | 0 <= i < |tasks| && IsLastOf(tasks, i)
        ensures tasks[i].0 in interest && interest[tasks[i].0] == tasks[i].1
      {
        RunAllLast(before, tasks, i);
      }
      forall c | !HasTask(tasks, c) ensures SameInterest(before, interest, c) {
        RunAllOthers(before, tasks, c);
      }
    }

    method GenerateConnectionId() returns (id: int)
      modifies this`nextConnectionId
      ensures id == old(nextConnectionId) && nextConnectionId == Wrap32(id + 1)
    {
      id := nextConnectionId;
      nextConnectionId := Wrap32(nextConnectionId + 1);
    }

    // The protocol is started with the counter before the id is generated; the
    // generated id is the one registered, and both are the same.
    method HandleAccept() returns (startedWith: int)
      requires connections.Valid()
      modifies this`nextConnectionId, this`interest, connections`clientHandlers
      ensures connections.Valid()
      ensures startedWith == old(nextConnectionId) && nextConnectionId == Wrap32(startedWith + 1)
      ensures interest == old(interest)[startedWith := false]
      ensures connections.State() == old(connections.State()).(handlers := old(connections.clientHandlers) + {startedWith})
    {
      startedWith := nextConnectionId;
      interest := interest[nextConnectionId := false];
      var connectionId := GenerateConnectionId();
      connections.AddConnection(connectionId);
    }
  }

  // ------------------------------------------------------------ the handler

  // A read task as one piece: the inbox after feeding `xs`, and whether an
  // exception ended it early. `throws` tells which `process` calls throw.
  function FeedAll(i: R.Inbox, xs: seq<byte>, throws: nat -> bool): (R.Inbox, bool)
    decreases |xs|
  {
    if xs == [] then (i, false)
    else
      var j := R.FeedInbox(i, xs[0]);
      match R.FeedLocal(i, xs[0])
      case Unwinding => (j, true)
      case Loop => FeedAll(j, xs[1..], throws)
      case Processing =>
        if throws(|i.processed|) then (j.(lost := true), true) else FeedAll(j, xs[1..], throws)
  }

  lemma ByteDecodes(i: R.Inbox, x: byte)
    requires !R.FeedLocal(i, x).Unwinding?
    ensures var j, d := R.FeedInbox(i, x), DecodeByte(i.decoder, x);
      j.fed == i.fed + [x] && j.decoder == d.buffer && AllOk(j.processed) == AllOk(i.processed) + d.out
  {
  }

  // A task without an exception decodes all of its bytes and processes exactly
  // the frames they complete.
  lemma {:induction false} TaskDecodes(i: R.Inbox, xs: seq<byte>, throws: nat -> bool)
    requires !FeedAll(i, xs, throws).1
    ensures var j, d := FeedAll(i, xs, throws).0, Decode(i.decoder, xs);
      j.fed == i.fed + xs && j.decoder == d.buffer && AllOk(j.processed) == AllOk(i.processed) + d.out
    decreases |xs|
  {
    if xs != [] {
      var x, tail, first := xs[0], xs[1..], DecodeByte(i.decoder, xs[0]);
      ByteDecodes(i, x);
      TaskDecodes(R.FeedInbox(i, x), tail, throws);
      assert [x] + tail == xs;
      Regroup(i.fed, [x], tail);
      Regroup(AllOk(i.processed), first.out, Decode(first.buffer, tail).out);
    }
  }

  // Whether the task processes a DISCONNECT, and that without an exception.
  function SetsFlag(i: R.Inbox, xs: seq<byte>, throws: nat -> bool): bool
    decreases |xs|
  {
    xs != [] && R.FeedLocal(i, xs[0]) != R.Unwinding &&
      var j := R.FeedInbox(i, xs[0]);
      if R.FeedLocal(i, xs[0]) == R.Loop then SetsFlag(j, xs[1..], throws)
      else !throws(|i.processed|) && (Ends(j.processed) || SetsFlag(j, xs[1..], throws))
  }

  predicate Ends(processed: seq<Frame>)
  {
    processed != [] && processed[|processed| - 1].command == "DISCONNECT"
  }

  // One byte fed, from inbox `i` and flag `flag` on.
  predicate ByteFed(i: R.Inbox, x: byte, throws: nat -> bool, flag: bool, i': R.Inbox, flag': bool, threw: bool)
  {
    var j := R.FeedInbox(i, x);
    match R.FeedLocal(i, x)
    case Loop => i' == j && !threw && flag' == flag
    case Unwinding => i' == j && threw && flag' == flag
    case Processing =>
      && threw == throws(|i.processed|) && i' == (if threw then j.(lost := true) else j)
      && flag' == (flag || (!threw && Ends(j.processed)))
  }

  // What the whole task does is what has been done and, without an exception,
  // what the bytes left do.
  predicate TaskLeft(first: R.Inbox, all: seq<byte>, throws: nat -> bool, flag0: bool,
                     now: R.Inbox, todo: seq<byte>, flag: bool, threw: bool)
  {
    && FeedAll(first, all, throws) == (if threw then (now, true) else FeedAll(now, todo, throws))
    && ((flag0 || SetsFlag(first, all, throws)) <==> (flag || (!threw && SetsFlag(now, todo, throws))))
  }

  lemma TaskLeftStep(first: R.Inbox, all: seq<byte>, throws: nat -> bool, flag0: bool,
                     now: R.Inbox, x: byte, todo: seq<byte>, flag: bool, now': R.Inbox, flag': bool, threw: bool)
    requires TaskLeft(first, all, throws, flag0, now, [x] + todo, flag, false)
    requires ByteFed(now, x, throws, flag, now', flag', threw)
    ensures TaskLeft(first, all, throws, flag0, now', todo, flag', threw)
  {
    assert ([x] + todo)[1..] == todo;
  }

  // The exceptions are possible ones: out of a SUBSCRIBE without an id.
  predicate PossibleThrows(i: R.Inbox, xs: seq<byte>, throws: nat -> bool)
    decreases |xs|
  {
    xs == [] ||
      var j := R.FeedInbox(i, xs[0]);
      match R.FeedLocal(i, xs[0])
      case Unwinding => true
      case Loop => PossibleThrows(j, xs[1..], throws)
      case Processing => if throws(|i.processed|) then R.MayThrow(j.processed) else PossibleThrows(j, xs[1..], throws)
  }

  // A worker at the start of its task's loop, with bytes left.
  predicate AtLoop(s: R.State, w: int, c: int, buf: nat, xs: seq<byte>)
  {
    && R.InTask(s, w) && s.local[w].Loop? && R.ActOf(s, w) == c && R.TaskOf(s, w).buf == buf
    && Remaining(R.Mem(s, buf)) == xs
  }

  // The steps a worker takes in its task, up to the end of the loop or an
  // exception: they make of the inbox what the function says.
  lemma {:induction false} TaskRun(s: R.State, w: int, c: int, buf: nat, xs: seq<byte>, throws: nat -> bool) returns (es: seq<R.Step>)
    requires AtLoop(s, w, c, buf, xs) && PossibleThrows(R.In(s, c), xs, throws)
    ensures R.LegalRun(s, es) && AfterTask(s, R.Run(s, es), w, c, FeedAll(R.In(s, c), xs, throws))
    decreases |xs|, 0
  {
    es := [];
    if xs != [] {
      var i, s1 := R.In(s, c), R.Do(s, R.FeedByte(w));
      FeedStep(s, w, c, buf, xs);
      if R.FeedLocal(i, xs[0]).Loop? {
        es := TaskRun(s1, w, c, buf, xs[1..], throws);
      } else if R.FeedLocal(i, xs[0]).Processing? {
        es := ProcessRun(s1, w, c, buf, xs[1..], throws(|i.processed|), throws);
      }
      AfterSame(s, s1, R.Run(s1, es), w, c, FeedAll(i, xs, throws));
      R.RunCons(s, R.FeedByte(w), es);
      es := [R.FeedByte(w)] + es;
    }
  }

  // From the processing of a frame on.
  lemma {:induction false} ProcessRun(s: R.State, w: int, c: int, buf: nat, xs: seq<byte>, threw: bool, throws: nat -> bool)
    returns (es: seq<R.Step>)
    requires R.InTask(s, w) && s.local[w].Processing? && R.ActOf(s, w) == c && R.TaskOf(s, w).buf == buf
    requires Remaining(R.Mem(s, buf)) == xs
    requires if threw then R.MayThrow(R.In(s, c).processed) else PossibleThrows(R.In(s, c), xs, throws)
    ensures R.LegalRun(s, es)
    ensures AfterTask(s, R.Run(s, es), w, c,
                      if threw then (R.In(s, c).(lost := true), true) else FeedAll(R.In(s, c), xs, throws))
    decreases |xs|, 1
  {
    var s1 := R.Do(s, R.EndProcess(w, threw));
    EndStep(s, w, c, buf, threw);
    es := [];
    if !threw {
      es := TaskRun(s1, w, c, buf, xs, throws);
    }
    AfterSame(s, s1, R.Run(s1, es), w, c,
              if threw then (R.In(s, c).(lost := true), true) else FeedAll(R.In(s, c), xs, throws));
    R.RunCons(s, R.EndProcess(w, threw), es);
    es := [R.EndProcess(w, threw)] + es;
  }

  // What such a run leaves behind, from `s` to `s'`.
  ghost predicate AfterTask(s: R.State, s': R.State, w: int, c: int, r: (R.Inbox, bool))
  {
    && s'.pool == s.pool && s'.free == s.free && s'.reader == s.reader && |s'.local| == |s.local|
    && R.In(s', c) == r.0 && (forall d :: d != c ==> R.In(s', d) == R.In(s, d))
    && 0 <= w < |s.local| && s'.local[w] == if r.1 then R.Unwinding else R.Loop
  }

  // A step that leaves all of that alone may come before.
  lemma AfterSame(s: R.State, s1: R.State, s': R.State, w: int, c: int, r: (R.Inbox, bool))
    requires AfterTask(s1, s', w, c, r)
    requires s1.pool == s.pool && s1.free == s.free && s1.reader == s.reader && |s1.local| == |s.local|
    requires forall d :: d != c ==> R.In(s1, d) == R.In(s, d)
    ensures AfterTask(s, s', w, c, r)
  {
  }

  lemma FeedStep(s: R.State, w: int, c: int, buf: nat, xs: seq<byte>)
    requires AtLoop(s, w, c, buf, xs) && xs != []
    ensures R.Enabled(s, R.FeedByte(w))
    ensures var s' := R.Do(s, R.FeedByte(w));
      && s'.pool == s.pool && s'.free == s.free && s'.reader == s.reader && |s'.local| == |s.local|
      && R.In(s', c) == R.FeedInbox(R.In(s, c), xs[0]) && s'.local[w] == R.FeedLocal(R.In(s, c), xs[0])
      && Remaining(R.Mem(s', buf)) == xs[1..]
      && forall d :: d != c ==> R.In(s', d) == R.In(s, d)
  {
  }

  lemma EndStep(s: R.State, w: int, c: int, buf: nat, threw: bool)
    requires R.InTask(s, w) && s.local[w].Processing? && R.ActOf(s, w) == c
    requires threw ==> R.MayThrow(R.In(s, c).processed)
    ensures R.Enabled(s, R.EndProcess(w, threw))
    ensures var s' := R.Do(s, R.EndProcess(w, threw));
      && s'.pool == s.pool && s'.free == s.free && s'.reader == s.reader && |s'.local| == |s.local|
      && R.In(s', c) == (if threw then R.In(s, c).(lost := true) else R.In(s, c)) && R.Mem(s', buf) == R.Mem(s, buf)
      && s'.local[w] == (if threw then R.Unwinding else R.Loop)
      && forall d :: d != c ==> R.In(s', d) == R.In(s, d)
  {
  }

  class NonBlockingConnectionHandler {
    const encdec: StompEncodeDecoder
    const pool: BufferPool
    const reactor: Reactor
    const id: int
    var open: bool
    var shouldTerminate: bool
    // the incoming side
    var received: seq<byte>
    var fed: seq<byte>
    var processed: seq<Frame>
    var lost: bool
    var ends: seq<R.End>
    // the outgoing side
    var writeQueue: seq<Buf>
    var enqueued: seq<seq<byte>>
    var written: seq<byte>

    function Inbox(): R.Inbox
      reads this, encdec
    {
      R.Inbox(encdec.buffer, received, fed, processed, lost, ends)
    }

    function Outbox(): W.Outbox
      reads this, reactor
    {
      W.Outbox(writeQueue, reactor.OpWrite(id), enqueued, written)
    }

    constructor (pool: BufferPool, reactor: Reactor, id: int)
      ensures open && !shouldTerminate && this.pool == pool && this.reactor == reactor && this.id == id && fresh(encdec)
      ensures Inbox() == R.Inbox("", [], [], [], false, []) && Outbox() == W.Outbox([], reactor.OpWrite(id), [], [])
    {
      encdec := new StompEncodeDecoder();
      this.pool, this.reactor, this.id := pool, reactor, id;
      open, shouldTerminate, received, fed, processed := true, false, [], [], [];
      lost, ends, writeQueue, enqueued, written := false, [], [], [], [];
    }

    // Reads the channel into a pooled buffer. None is the end of the stream:
    // the leased buffer goes back and the channel is closed.
    method ContinueRead(arriving: Option<seq<byte>>) returns (task: Option<ByteBuffer>)
      requires arriving.Some? ==> |arriving.value| <= R.BUFFER_SIZE
      requires forall b :: b in pool.free ==> b.data.Length == R.BUFFER_SIZE
      modifies pool, pool.free, set b | b in pool.free :: b.data, this`received, this`open
      ensures arriving.None? ==> (
        && task.None? && !open && received == old(received)
        && (if old(pool.free) == [] then |pool.free| == 1 && fresh(pool.free[0])
            else pool.free == old(pool.free)[1..] + [old(pool.free)[0]]))
      ensures arriving.Some? ==> (
        && task.Some? && open == old(open) && received == old(received) + arriving.value
        && task.value.Valid() && task.value.Value() == Buf(arriving.value, 0)
        && pool.free == (if old(pool.free) == [] then [] else old(pool.free)[1..])
        && (if old(pool.free) == [] then fresh(task.value) else task.value == old(pool.free)[0]))
    {
      var buf := pool.Lease();
      if arriving.Some? {
        buf.PutAll(arriving.value);
        assert buf.data[..buf.position] == arriving.value;
        buf.Flip();
        received := received + arriving.value;
        task := Some(buf);
      } else {
        pool.Release(buf);
        open := false;
        task := None;
      }
    }

    // The submitted task: feeds the buffer's bytes to the decoder and processes
    // completed frames; the buffer goes back to the pool even after an
    // exception.
    method RunReadTask(buf: ByteBuffer, throws: nat -> bool) returns (threw: bool)
      requires buf.Valid()
      modifies this`fed, this`processed, this`lost, this`ends, this`shouldTerminate, encdec, buf`position, pool
      ensures var r := FeedAll(old(Inbox()), old(Remaining(buf.Value())), throws);
        && threw == r.1 && buf.Valid()
        && Inbox() == r.0.(ends := old(ends) + [R.End(buf.position, threw)])
      ensures shouldTerminate == (old(shouldTerminate) || SetsFlag(old(Inbox()), old(Remaining(buf.Value())), throws))
      ensures pool.free == old(pool.free) + [buf]
    {
      threw := false;
      ghost var first, all := Inbox(), Remaining(buf.Value());
      ghost var todo := all;
      while buf.position < buf.limit && !threw
        invariant buf.Valid() && todo == Remaining(buf.Value()) && pool.free == old(pool.free)
        invariant TaskLeft(first, all, throws, old(shouldTerminate), Inbox(), todo, shouldTerminate, threw)
        invariant ends == old(ends)
        decreases buf.limit - buf.position
      {
        ghost var before, flag := Inbox(), shouldTerminate;
        var x := buf.Get();
        assert todo == [x] + Remaining(buf.Value());
        threw := Feed(x, throws);
        TaskLeftStep(first, all, throws, old(shouldTerminate), before, x, Remaining(buf.Value()), flag, Inbox(), shouldTerminate, threw);
        todo := Remaining(buf.Value());
      }
      ends := ends + [R.End(buf.position, threw)];
      pool.Release(buf);
    }

    // One round of the task's loop.
    method Feed(x: byte, throws: nat -> bool) returns (threw: bool)
      modifies this`fed, this`processed, this`lost, this`shouldTerminate, encdec
      ensures ByteFed(old(Inbox()), x, throws, old(shouldTerminate), Inbox(), shouldTerminate, threw)
    {
      threw := false;
      var next := encdec.DecodeNextByte(x);
      fed := fed + [x];
      if next.Some? {
        if next.value.Err? {
          lost, threw := true, true;
        } else {
          threw := throws(|processed|);
          processed := processed + [next.value.value.Value()];
          if threw {
            lost := true;
          } else if next.value.value.command == "DISCONNECT" {
            shouldTerminate := true;
          }
        }
      }
    }

    // What a worker's three steps of a send do together: the encoding is
    // queued, and the selector is asked for the write interest and woken.
    method Send(bytes: seq<byte>)
      modifies this`writeQueue, this`enqueued, reactor`selectorTasks, reactor`interest, reactor`wakeup
      ensures Outbox() == W.DoAdd(old(Outbox()), bytes)
      ensures reactor.selectorTasks == old(reactor.selectorTasks) + [(id, true)] && reactor.wakeup
      ensures reactor.interest == old(reactor.interest)
    {
      writeQueue := writeQueue + [Buf(bytes, 0)];
      enqueued := enqueued + [bytes];
      reactor.UpdateInterestedOps(id, true, false);
    }

    // One round of the drain loop: the head is offered to a channel with room
    // for so many bytes, and leaves the queue once all of it was taken.
    method WriteTop(room: nat) returns (taken: bool, left: nat)
      requires writeQueue != []
      modifies this`writeQueue, this`written
      ensures |writeQueue| == if taken then |old(writeQueue)| - 1 else |old(writeQueue)|
      ensures W.Drained(old(Outbox()), room) == if taken then W.Drained(Outbox(), left) else Outbox()
    {
      var top := writeQueue[0];
      var n := W.Min(room, |Remaining(top)|);
      written, left := written + Remaining(top)[..n], room - n;
      writeQueue := writeQueue[0 := top.(pos := top.pos + n)];
      assert Outbox() == W.DoWrite(old(Outbox()), n);
      taken := !HasRemaining(writeQueue[0]);
      if taken {
        writeQueue := writeQueue[1..];
        assert Outbox() == W.DoWrite(old(Outbox()), n).(queue := writeQueue);
      }
    }

    // Drains the write queue as far as the channel has room. An emptied queue
    // switches the interest back to reading, or closes a channel whose
    // protocol is done.
    method ContinueWrite(room: nat)
      requires W.Conserved(Outbox())
      modifies this`writeQueue, this`written, this`open, reactor`interest, reactor`selectorTasks, reactor`wakeup
      ensures var o := W.Drained(old(Outbox()), room);
        && W.CutAt(old(written), W.Pending(old(writeQueue)), room, written, W.Pending(writeQueue))
        && Outbox() == (if o.queue == [] && !shouldTerminate then o.(opWrite := false) else o)
      ensures open == (old(open) && !(writeQueue == [] && shouldTerminate))
      ensures reactor.selectorTasks == old(reactor.selectorTasks) && reactor.wakeup == old(reactor.wakeup)
      ensures forall c :: c != id ==> reactor.OpWrite(c) == old(reactor.OpWrite(c))
    {
      W.DrainedBytes(Outbox(), room);
      Drain(room);
      if writeQueue == [] {
        if shouldTerminate {
          open := false;
        } else {
          reactor.UpdateInterestedOps(id, false, true);
        }
      }
    }

    // The drain loop.
    method Drain(room: nat)
      modifies this`writeQueue, this`written
      ensures Outbox() == W.Drained(old(Outbox()), room)
    {
      var taken, left := true, room;
      while taken && writeQueue != []
        invariant W.Drained(old(Outbox()), room) == if taken then W.Drained(Outbox(), left) else Outbox()
        decreases |writeQueue|, taken
      {
        taken, left := WriteTop(left);
      }
    }
  }
}
