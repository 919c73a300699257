// How much one read can bring: the size of a pooled buffer, in every run.
module Sizes {
  import opened Stream
  import opened Reactor
  import R = Reads
  import P = ActorPool
  import Drops

  // Nothing longer than a buffer was read.
  predicate Small(r: R.State, c: int)
  {
    && (r.reader.Submitting? ==> |r.reader.data| <= 8192)
    && forall i :: 0 <= i < |R.Tasks(r, c)| ==> |R.Tasks(r, c)[i].data| <= 8192
  }

  lemma ReadStepSmall(r: R.State, e: R.Step, c: int)
    requires Small(r, c) && R.Enabled(r, e)
    ensures Small(R.Do(r, e), c)
  {
    if e.FeedByte? {
      assert R.Do(r, e).pool == r.pool && R.Do(r, e).reader == r.reader;
    } else if e.SubmitTask? {
      SubmitSmall(r, c);
    } else {
      assert R.Do(r, e).pool.submitted == r.pool.submitted;
      assert R.Tasks(R.Do(r, e), c) == R.Tasks(r, c);
    }
  }

  lemma SubmitSmall(r: R.State, c: int)
    requires Small(r, c) && R.Enabled(r, R.SubmitTask)
    ensures Small(R.Do(r, R.SubmitTask), c)
  {
    var t := R.ReadTask(r.reader.buf, r.reader.data);
    assert R.Tasks(R.Do(r, R.SubmitTask), c) == if c == r.reader.c then R.Tasks(r, c) + [t] else R.Tasks(r, c);
  }

  lemma {:induction false} RunSmall(s: State, es: seq<Step>, c: int)
    requires LegalRun(s, es) && Small(s.r, c)
    ensures Small(Run(s, es).r, c)
    decreases |es|
  {
    if es != [] {
      StepSmall(s, es[0], c);
      RunSmall(Do(s, es[0]), es[1..], c);
    }
  }

  lemma StepSmall(s: State, e: Step, c: int)
    requires Enabled(s, e) && Small(s.r, c)
    ensures Small(Do(s, e).r, c)
  {
    var o := ReadStep(s, e);
    if o.Some? {
      ReadStepIs(s, e, o.value);
      ReadStepSmall(s.r, o.value, c);
    } else {
      NoReadStep(s, e);
    }
  }

  // In every reachable state each read is at most 8192 bytes.
  lemma ReadsFit(n: nat, es: seq<Step>, s: State, c: int)
    requires Reached(n, es, s)
    ensures forall i :: 0 <= i < |R.Tasks(s.r, c)| ==> |R.Tasks(s.r, c)[i].data| <= 8192
  {
    RunSmall(Init(n), es, c);
  }

  // And reads of that size happen.
  lemma FullRead(data: seq<byte>) returns (es: seq<Step>, s: State)
    requires |data| == 8192
    ensures Reached(1, es, s) && R.Tasks(s.r, 0) == [R.ReadTask(0, data)]
  {
    es, s := Drops.OnePicked(data);
  }
}
