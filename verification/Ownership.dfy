// Buffer ownership: at any time the allocated read buffers are divided between
// the free pool, the selector's current read and the unfinished read tasks.
module Ownership {
  import opened Text
  import opened Buffers
  import opened Stream
  import opened Reads
  import P = ActorPool

  // The i-th task of `c` is not finished and captures buffer `b`.
  predicate Uses(s: State, c: int, i: int, b: int)
  {
    |In(s, c).ends| <= i < |Tasks(s, c)| && Tasks(s, c)[i].buf == b
  }

  // The selector has leased `b` and not handed it on.
  predicate Holds(s: State, b: int)
  {
    !s.reader.Elsewhere? && s.reader.buf == b
  }

  ghost predicate Disjoint(s: State)
  {
    && NoRepeats(s.free)
    && (forall b :: b in s.free ==> b < s.buffers)
    && (forall b :: Holds(s, b) ==> b < s.buffers && b !in s.free)
    && (forall c, i, b :: Uses(s, c, i, b) ==> b < s.buffers && b !in s.free && !Holds(s, b))
    && (forall c, i, d, j, b :: Uses(s, c, i, b) && Uses(s, d, j, b) ==> c == d && i == j)
  }

  ghost predicate Placed(s: State, b: int)
  {
    b in s.free || Holds(s, b) || exists c, i :: Uses(s, c, i, b)
  }

  // Every buffer ever allocated is in exactly one place.
  ghost predicate Owned(s: State)
  {
    Disjoint(s) && forall b :: 0 <= b < s.buffers ==> Placed(s, b)
  }

  // The steps that move no buffer.
  lemma StillOwned(s: State, s': State)
    requires Owned(s)
    requires s'.free == s.free && s'.buffers == s.buffers
    requires forall b :: Holds(s', b) <==> Holds(s, b)
    requires forall c, i, b :: Uses(s', c, i, b) <==> Uses(s, c, i, b)
    ensures Owned(s')
  {
    forall b | 0 <= b < s'.buffers ensures Placed(s', b) {
      assert Placed(s, b);
    }
  }

  lemma LeaseOwned(s: State, c: int)
    requires Owned(s) && s.reader.Elsewhere?
    ensures Owned(DoLease(s, c))
  {
    var s' := DoLease(s, c);
    assert s.free != [] ==> s.free[0] in s.free && s.free == [s.free[0]] + s.free[1..];
    assert NoRepeats(s'.free) && s'.reader.buf !in s'.free;
    forall d, i, b
      ensures Uses(s', d, i, b) <==> Uses(s, d, i, b)
      ensures Uses(s', d, i, b) ==> b != s'.reader.buf && b !in s'.free
    {
    }
    assert forall b :: b in s'.free ==> b in s.free;
    forall b | 0 <= b < s'.buffers ensures Placed(s', b) {
      if b == s'.reader.buf {
        assert Holds(s', b);
      } else {
        assert Placed(s, b);
      }
    }
  }

  lemma FailOwned(s: State)
    requires Owned(s) && s.reader.Leased?
    ensures Owned(Do(s, ReadFails))
  {
    var s', b := Do(s, ReadFails), s.reader.buf;
    assert Holds(s, b);
    assert forall d, i, x :: Uses(s', d, i, x) <==> Uses(s, d, i, x);
    FreeOwned(s, s', b);
  }

  // Releasing a buffer that nothing else uses.
  lemma FreeOwned(s: State, s': State, b: nat)
    requires Owned(s) && b !in s.free && b < s.buffers
    requires s'.free == s.free + [b] && s'.buffers == s.buffers
    requires !Holds(s', b) && forall c, i :: !Uses(s', c, i, b)
    requires forall x :: x != b ==> (Holds(s', x) <==> Holds(s, x))
    requires forall c, i, x :: x != b ==> (Uses(s', c, i, x) <==> Uses(s, c, i, x))
    ensures Owned(s')
  {
    forall x | 0 <= x < s'.buffers ensures Placed(s', x) {
      assert Placed(s, x);
      assert x == b ==> s'.free[|s.free|] == x;
    }
  }

  lemma SubmitOwned(s: State)
    requires Owned(s) && s.reader.Submitting? && |In(s, s.reader.c).ends| <= |Tasks(s, s.reader.c)|
    ensures Owned(Do(s, SubmitTask))
  {
    var s', n := Do(s, SubmitTask), |Tasks(s, s.reader.c)|;
    var Submitting(c, b, data) := s.reader;
    assert Holds(s, b) && forall x :: !Holds(s', x);
    assert forall d, i, x :: Uses(s', d, i, x) <==> Uses(s, d, i, x) || (d == c && i == n && x == b);
    forall x | 0 <= x < s'.buffers ensures Placed(s', x) {
      assert Placed(s, x);
      if x == b {
        assert Uses(s', c, n, b);
      }
    }
  }

  lemma ReleaseOwned(s: State, w: int)
    requires PoolInv(s) && Owned(s) && Enabled(s, Release(w))
    ensures Owned(Do(s, Release(w)))
  {
    var s', c, b := Do(s, Release(w)), ActOf(s, w), TaskOf(s, w).buf;
    var n := |In(s, c).ends|;
    RunningIsFirst(s, w);
    assert Uses(s, c, n, b);
    assert forall d, i, x :: Uses(s', d, i, x) <==> Uses(s, d, i, x) && !(d == c && i == n);
    FreeOwned(s, s', b);
  }

  lemma StepOwned(s: State, e: Step)
    requires PoolInv(s) && Owned(s) && Enabled(s, e)
    ensures Owned(Do(s, e))
  {
    match e
    case Lease(c) => LeaseOwned(s, c);
    case ReadFails => FailOwned(s);
    case SubmitTask =>
      assert Progress(s, s.reader.c);
      StartedPrefix(s, s.reader.c);
      SubmitOwned(s);
    case Release(w) => ReleaseOwned(s, w);
    case _ => OtherOwned(s, e);
  }

  lemma OtherOwned(s: State, e: Step)
    requires PoolInv(s) && Owned(s) && Enabled(s, e)
    requires !e.Lease? && !e.ReadFails? && !e.SubmitTask? && !e.Release?
    ensures Owned(Do(s, e))
  {
    var s' := Do(s, e);
    assert forall c, i, b :: Uses(s', c, i, b) <==> Uses(s, c, i, b);
    StillOwned(s, s');
  }

  // ------------------------------------------------- contents of the buffers

  // An unfinished task's buffer holds what was read into it, and is untouched
  // until the task starts.
  predicate Intact(s: State, c: int, i: int)
    requires 0 <= i < |Tasks(s, c)|
  {
    var t, m := Tasks(s, c)[i], Mem(s, Tasks(s, c)[i].buf);
    m.data == t.data && m.pos <= |m.data| && (i >= |Started(s, c)| ==> m.pos == 0)
  }

  ghost predicate Contents(s: State)
  {
    && (forall c, i :: |In(s, c).ends| <= i < |Tasks(s, c)| ==> Intact(s, c, i))
    && (s.reader.Submitting? ==> Mem(s, s.reader.buf) == Buf(s.reader.data, 0))
  }

  lemma FeedContents(s: State, w: int)
    requires PoolInv(s) && Owned(s) && Contents(s) && Enabled(s, FeedByte(w))
    ensures Contents(Do(s, FeedByte(w)))
  {
    var s', c, b := Do(s, FeedByte(w)), ActOf(s, w), TaskOf(s, w).buf;
    var n := |In(s, c).ends|;
    RunningIsFirst(s, w);
    assert Uses(s, c, n, b) && Intact(s, c, n);
    forall d, i | |In(s', d).ends| <= i < |Tasks(s', d)|
      ensures Intact(s', d, i)
    {
      assert Intact(s, d, i);
      assert Uses(s, d, i, Tasks(s, d)[i].buf);
    }
  }

  lemma ReadContents(s: State, data: seq<byte>)
    requires Owned(s) && Contents(s) && Enabled(s, ReadChannel(data))
    ensures Contents(Do(s, ReadChannel(data)))
  {
    var s' := Do(s, ReadChannel(data));
    forall d, i | |In(s', d).ends| <= i < |Tasks(s', d)|
      ensures Intact(s', d, i)
    {
      assert Intact(s, d, i);
      assert Uses(s, d, i, Tasks(s, d)[i].buf) && Holds(s, s.reader.buf);
    }
  }

  lemma SubmitContents(s: State)
    requires Contents(s) && s.reader.Submitting? && |Started(s, s.reader.c)| <= |Tasks(s, s.reader.c)|
    ensures Contents(Do(s, SubmitTask))
  {
    var s' := Do(s, SubmitTask);
    forall d, i | |In(s', d).ends| <= i < |Tasks(s', d)|
      ensures Intact(s', d, i)
    {
      assert i < |Tasks(s, d)| ==> Intact(s, d, i);
    }
  }

  // The steps that touch neither a buffer's bytes nor the list of tasks.
  lemma OtherContents(s: State, e: Step)
    requires Contents(s) && Enabled(s, e)
    requires !e.FeedByte? && !e.ReadChannel? && !e.SubmitTask?
    ensures Contents(Do(s, e))
  {
    var s' := Do(s, e);
    forall d, i | |In(s', d).ends| <= i < |Tasks(s', d)|
      ensures Intact(s', d, i)
    {
      assert Intact(s, d, i);
    }
  }

  lemma StepContents(s: State, e: Step)
    requires PoolInv(s) && Owned(s) && Contents(s) && Enabled(s, e)
    ensures Contents(Do(s, e))
  {
    if e.FeedByte? {
      FeedContents(s, e.w);
    } else if e.ReadChannel? {
      ReadContents(s, e.data);
    } else if e.SubmitTask? {
      StartedPrefix(s, s.reader.c);
      SubmitContents(s);
    } else {
      OtherContents(s, e);
    }
  }
}
