// What is written of a connection that asked to end: the selector closes its
// channel after two tests that are apart, one of its write queue and one of the
// termination flag.
module Closing {
  import opened Text
  import opened Buffers
  import opened Stream
  import opened Reactor
  import W = Writes
  import R = Reads
  import Drops

  // The encoding that a step adds to c's write queue, if any.
  function AddOf(s: State, e: Step, c: int): seq<seq<byte>>
    requires Enabled(s, e)
  {
    if e.SendStep? && s.w.senders[e.v].stage.BeforeAdd? && s.w.senders[e.v].todo[0].to == c
    then [s.w.senders[e.v].todo[0].bytes] else []
  }

  // The encodings that the workers add during a run.
  function Adds(s: State, es: seq<Step>, c: int): seq<seq<byte>>
    requires LegalRun(s, es)
    decreases |es|
  {
    if es == [] then [] else AddOf(s, es[0], c) + Adds(Do(s, es[0]), es[1..], c)
  }

  // The state before the i-th step of a run.
  function Before(s: State, es: seq<Step>, i: nat): State
    requires LegalRun(s, es) && i <= |es|
    decreases i
  {
    if i == 0 then s else Before(Do(s, es[0]), es[1..], i - 1)
  }

  lemma {:induction false} BeforeEnabled(s: State, es: seq<Step>, i: nat)
    requires LegalRun(s, es) && i < |es|
    ensures Enabled(Before(s, es, i), es[i])
    decreases i
  {
    if i > 0 {
      BeforeEnabled(Do(s, es[0]), es[1..], i - 1);
    }
  }

  // The i-th step of a run puts a buffer into c's write queue.
  predicate AddsAt(s: State, es: seq<Step>, i: nat, c: int)
    requires LegalRun(s, es) && i < |es|
  {
    BeforeEnabled(s, es, i);
    AddOf(Before(s, es, i), es[i], c) != []
  }

  lemma {:induction false} AddsNone(s: State, es: seq<Step>, c: int)
    requires LegalRun(s, es)
    ensures Adds(s, es, c) == [] <==> forall i :: 0 <= i < |es| ==> !AddsAt(s, es, i, c)
    decreases |es|
  {
    if es != [] {
      AddsNone(Do(s, es[0]), es[1..], c);
      forall i | 0 <= i < |es| - 1 ensures AddsAt(Do(s, es[0]), es[1..], i, c) <==> AddsAt(s, es, i + 1, c) {
      }
      assert AddsAt(s, es, 0, c) <==> AddOf(s, es[0], c) != [];
      if i :| 0 <= i < |es| && AddsAt(s, es, i, c) {
        assert i > 0 ==> AddsAt(Do(s, es[0]), es[1..], i - 1, c);
      }
    }
  }

  lemma {:induction false} AddsSnoc(s: State, es: seq<Step>, e: Step, c: int)
    requires LegalRun(s, es) && Enabled(Run(s, es), e)
    ensures LegalRun(s, es + [e]) && Adds(s, es + [e], c) == Adds(s, es, c) + AddOf(Run(s, es), e, c)
    decreases |es|
  {
    Drops.RunSnoc(s, es, e);
    if es == [] {
      assert ([] + [e])[1..] == [];
    } else {
      assert (es + [e])[0] == es[0] && (es + [e])[1..] == es[1..] + [e];
      AddsSnoc(Do(s, es[0]), es[1..], e, c);
      Regroup(AddOf(s, es[0], c), Adds(Do(s, es[0]), es[1..], c), AddOf(Run(s, es), e, c));
    }
  }

  // The last step of a run.
  lemma {:induction false} Unsnoc(s: State, es: seq<Step>)
    requires LegalRun(s, es) && es != []
    ensures var m := |es| - 1;
      LegalRun(s, es[..m]) && Enabled(Run(s, es[..m]), es[m]) && Run(s, es) == Do(Run(s, es[..m]), es[m])
    decreases |es|
  {
    if |es| > 1 {
      Unsnoc(Do(s, es[0]), es[1..]);
      assert es[1..][..|es| - 2] == es[..|es| - 1][1..];
    }
  }

  // New buffers, nothing of them written.
  function Fresh(bs: seq<seq<byte>>): (r: seq<Buf>)
    ensures |r| == |bs| && forall i :: 0 <= i < |r| ==> r[i] == Buf(bs[i], 0)
  {
    seq(|bs|, i requires 0 <= i < |bs| => Buf(bs[i], 0))
  }

  // An outbox that has these encodings more.
  predicate GrewTo(o: W.Outbox, o': W.Outbox, bs: seq<seq<byte>>)
  {
    o'.queue == o.queue + Fresh(bs) && o'.enqueued == o.enqueued + bs && o'.written == o.written
  }

  // While the selector is between its two tests only workers move, and c's
  // outbox changes by what they add to it.
  lemma BetweenStep(s: State, e: Step, c: int)
    requires Linked(s) && Enabled(s, e) && s.w.selector == W.CheckingEnd(c) && !e.SelectorStep?
    ensures Do(s, e).w.selector == W.CheckingEnd(c)
    ensures GrewTo(Out(s, c), Out(Do(s, e), c), AddOf(s, e, c))
  {
    assert Out(s, c).queue + [] == Out(s, c).queue && Out(s, c).enqueued + [] == Out(s, c).enqueued;
    if e.SendStep? {
      BetweenSend(s.w, e.v, c);
    } else if e.FeedByte? {
      FeedWrite(s, e, Do(s, e), c);
    } else {
      assert Do(s, e).w == s.w;
    }
  }

  function Out(s: State, c: int): W.Outbox
  {
    W.Out(s.w, c)
  }

  lemma BetweenSend(w: W.State, v: int, c: int)
    requires W.Enabled(w, W.SendStep(v))
    ensures W.Do(w, W.SendStep(v)).selector == w.selector
    ensures W.Out(W.Do(w, W.SendStep(v)), c)
         == if w.senders[v].stage.BeforeAdd? && w.senders[v].todo[0].to == c then W.DoAdd(W.Out(w, c), w.senders[v].todo[0].bytes)
            else W.Out(w, c)
  {
  }

  // Decoding a byte leaves the write side alone but for the worker's sends.
  lemma FeedKeeps(s: State, v: int, sends: seq<W.Send>, ending: Ending)
    requires Enabled(s, FeedByte(v, sends, ending))
    ensures Do(s, FeedByte(v, sends, ending)).w == s.w || Do(s, FeedByte(v, sends, ending)).w == W.Do(s.w, W.Begin(v, sends))
  {
  }

  lemma BeginKeeps(w: W.State, v: int, sends: seq<W.Send>, c: int)
    requires W.Enabled(w, W.Begin(v, sends))
    ensures var w' := W.Do(w, W.Begin(v, sends));
      w'.known == w.known && w'.open == w.open && w'.selector == w.selector && W.Out(w', c) == W.Out(w, c)
  {
  }

  lemma FeedWrite(s: State, e: Step, s': State, c: int)
    requires Enabled(s, e) && e.FeedByte? && s' == Do(s, e)
    ensures s'.w.known == s.w.known && s'.w.open == s.w.open && s'.w.selector == s.w.selector && Out(s', c) == Out(s, c)
  {
    FeedKeeps(s, e.v, e.sends, e.ending);
    BeginKeeps(s.w, e.v, e.sends, c);
  }

  // The run `es` to `s` ends with the selector's second emptiness test of c's
  // queue, in `s0` after `before`, and then `fs`.
  ghost predicate TestedAt(n: nat, es: seq<Step>, s: State, c: int, before: seq<Step>, s0: State, fs: seq<Step>)
  {
    && Reached(n, before, s0) && s0.w.selector == W.TestingAgain(c) && Out(s0, c).queue == []
    && Enabled(s0, SelectorStep(W.TestAgain)) && es == before + [SelectorStep(W.TestAgain)] + fs
    && LegalRun(Do(s0, SelectorStep(W.TestAgain)), fs) && Run(Do(s0, SelectorStep(W.TestAgain)), fs) == s
    && forall i :: 0 <= i < |fs| ==> !fs[i].SelectorStep?
  }

  // What the workers have added since that test.
  ghost function Since(s0: State, fs: seq<Step>, c: int): seq<seq<byte>>
    requires Enabled(s0, SelectorStep(W.TestAgain)) && LegalRun(Do(s0, SelectorStep(W.TestAgain)), fs)
  {
    Adds(Do(s0, SelectorStep(W.TestAgain)), fs, c)
  }

  // Whenever the selector is between its two tests for `c`, the first of them
  // saw an empty queue, and the queue holds exactly what was added since.
  lemma {:induction false} LastTest(n: nat, es: seq<Step>, s: State, c: int)
    returns (before: seq<Step>, s0: State, fs: seq<Step>)
    requires Reached(n, es, s) && s.w.selector == W.CheckingEnd(c)
    ensures TestedAt(n, es, s, c, before, s0, fs)
    ensures GrewTo(Out(s0, c), Out(s, c), Since(s0, fs, c))
    decreases |es|
  {
    var es1, s1, e := LastStep(n, es, s);
    if s1.w.selector == W.CheckingEnd(c) {
      before, s0, fs := LastTest(n, es1, s1, c);
      NotOwnStep(s1, e, c);
      Reachable(n, es1, s1);
      TestedOn(n, es1, s1, c, before, s0, fs, e, s);
      fs := fs + [e];
    } else {
      TestedNow(n, es1, s1, c, e, s);
      before, s0, fs := es1, s1, [];
    }
  }

  // A run that has left select has a last step.
  lemma LastStep(n: nat, es: seq<Step>, s: State) returns (es1: seq<Step>, s1: State, e: Step)
    requires Reached(n, es, s) && !s.w.selector.Selecting?
    ensures Reached(n, es1, s1) && Enabled(s1, e) && s == Do(s1, e) && es == es1 + [e]
  {
    StartSelecting(n);
    Unsnoc(Init(n), es);
    es1, e := es[..|es| - 1], es[|es| - 1];
    s1 := Run(Init(n), es1);
  }

  lemma StartSelecting(n: nat)
    ensures Init(n).w.selector.Selecting?
  {
  }

  lemma TestedNow(n: nat, es: seq<Step>, s: State, c: int, e: Step, s': State)
    requires Reached(n, es, s) && Enabled(s, e) && s' == Do(s, e)
    requires s.w.selector != W.CheckingEnd(c) && s'.w.selector == W.CheckingEnd(c)
    ensures TestedAt(n, es + [e], s', c, es, s, []) && GrewTo(Out(s, c), Out(s', c), Since(s, [], c))
  {
    CameToTest(s, e, c);
    JustTested(s, e, c);
    assert es + [e] == es + [e] + [];
  }

  // Another step of a worker since the test.
  lemma TestedOn(n: nat, es: seq<Step>, s: State, c: int, before: seq<Step>, s0: State, fs: seq<Step>, e: Step, s': State)
    requires TestedAt(n, es, s, c, before, s0, fs) && GrewTo(Out(s0, c), Out(s, c), Since(s0, fs, c))
    requires Linked(s) && s.w.selector == W.CheckingEnd(c) && Enabled(s, e) && !e.SelectorStep? && s' == Do(s, e)
    ensures TestedAt(n, es + [e], s', c, before, s0, fs + [e])
    ensures GrewTo(Out(s0, c), Out(s', c), Since(s0, fs + [e], c))
  {
    BetweenStep(s, e, c);
    AfterTest(s0, fs, s, e, s', c);
    GrewOn(Out(s0, c), Out(s, c), Out(s', c), Since(s0, fs, c), AddOf(s, e, c));
    Regroup(before + [SelectorStep(W.TestAgain)], fs, [e]);
  }

  lemma AfterTest(s0: State, fs: seq<Step>, s: State, e: Step, s': State, c: int)
    requires Enabled(s0, SelectorStep(W.TestAgain)) && LegalRun(Do(s0, SelectorStep(W.TestAgain)), fs)
    requires Run(Do(s0, SelectorStep(W.TestAgain)), fs) == s && Enabled(s, e) && s' == Do(s, e)
    ensures LegalRun(Do(s0, SelectorStep(W.TestAgain)), fs + [e]) && Run(Do(s0, SelectorStep(W.TestAgain)), fs + [e]) == s'
    ensures Since(s0, fs + [e], c) == Since(s0, fs, c) + AddOf(s, e, c)
  {
    AddsSnoc(Do(s0, SelectorStep(W.TestAgain)), fs, e, c);
    Drops.RunSnoc(Do(s0, SelectorStep(W.TestAgain)), fs, e);
  }

  // Only the test of the flag moves the selector on.
  lemma NotOwnStep(s: State, e: Step, c: int)
    requires Enabled(s, e) && s.w.selector == W.CheckingEnd(c) && Do(s, e).w.selector == W.CheckingEnd(c)
    ensures !e.SelectorStep?
  {
  }

  lemma CameToTest(s: State, e: Step, c: int)
    requires Enabled(s, e) && s.w.selector != W.CheckingEnd(c) && Do(s, e).w.selector == W.CheckingEnd(c)
    ensures e == SelectorStep(W.TestAgain) && s.w.selector == W.TestingAgain(c) && Out(s, c).queue == []
  {
    if e.FeedByte? {
      FeedWrite(s, e, Do(s, e), c);
    } else if e.SendStep? {
      BetweenSend(s.w, e.v, c);
    }
  }

  lemma JustTested(s: State, e: Step, c: int)
    requires Enabled(s, e) && e == SelectorStep(W.TestAgain) && s.w.selector == W.TestingAgain(c) && Out(s, c).queue == []
    ensures GrewTo(Out(s, c), Out(Do(s, e), c), [])
  {
  }

  lemma GrewOn(o: W.Outbox, o1: W.Outbox, o2: W.Outbox, bs: seq<seq<byte>>, more: seq<seq<byte>>)
    requires GrewTo(o, o1, bs) && GrewTo(o1, o2, more)
    ensures GrewTo(o, o2, bs + more)
  {
    assert Fresh(bs) + Fresh(more) == Fresh(bs + more);
    Regroup(o.queue, Fresh(bs), Fresh(more));
    Regroup(o.enqueued, bs, more);
  }

  // The close, exactly: it happens for a connection whose flag is set; all that
  // was enqueued before the second emptiness test has been written, nothing
  // that a worker added after it, and so the queue is empty at the close if and
  // only if no worker added a buffer in between.
  lemma ClosedExactly(n: nat, es: seq<Step>, s: State, c: int) returns (before: seq<Step>, s0: State, fs: seq<Step>)
    requires Reached(n, es, s) && s.w.selector == W.CheckingEnd(c) && Enabled(s, SelectorStep(W.CheckEnd(true)))
    ensures TestedAt(n, es, s, c, before, s0, fs) && c in s.ending
    ensures var s' := Do(s, SelectorStep(W.CheckEnd(true)));
      && c !in s'.w.open
      && Out(s', c).enqueued == Out(s0, c).enqueued + Since(s0, fs, c)
      && Out(s', c).written == Flatten(Out(s0, c).enqueued)
      && Out(s', c).queue == Fresh(Since(s0, fs, c))
      && (Out(s', c).queue == [] <==> forall i :: 0 <= i < |fs| ==> !AddsAt(Do(s0, SelectorStep(W.TestAgain)), fs, i, c))
  {
    before, s0, fs := LastTest(n, es, s, c);
    AllWritten(n, before, s0, c);
    AddsNone(Do(s0, SelectorStep(W.TestAgain)), fs, c);
    assert [] + Fresh(Since(s0, fs, c)) == Fresh(Since(s0, fs, c));
    CloseStep(s, c);
  }

  lemma AllWritten(n: nat, es: seq<Step>, s: State, c: int)
    requires Reached(n, es, s) && Out(s, c).queue == []
    ensures Out(s, c).written == Flatten(Out(s, c).enqueued)
  {
    WritesConserved(n, es, s, c);
    assert Out(s, c).written + [] == Out(s, c).written;
  }

  lemma CloseStep(s: State, c: int)
    requires s.w.selector == W.CheckingEnd(c) && Enabled(s, SelectorStep(W.CheckEnd(true)))
    ensures var s' := Do(s, SelectorStep(W.CheckEnd(true)));
      c in s.ending && c !in s'.w.open && Out(s', c) == Out(s, c) && s'.w.selector.Away? && s'.w.known == s.w.known
  {
  }

  // ------------------------------------------------------- after the close

  // The channel is closed and the selector is not writing to it.
  predicate Closed(s: State, c: int)
  {
    c in s.w.known && c !in s.w.open && !(W.InContinueWrite(s.w.selector) && s.w.selector.c == c)
  }

  lemma ClosedStep(s: State, e: Step, c: int)
    requires Enabled(s, e) && Closed(s, c)
    ensures Closed(Do(s, e), c) && Out(Do(s, e), c).written == Out(s, c).written
  {
    if e.FeedByte? {
      FeedWrite(s, e, Do(s, e), c);
    } else if e.SelectorStep? {
      ClosedSelector(s.w, e.step, c);
    } else if e.SendStep? {
      BetweenSend(s.w, e.v, c);
    }
  }

  lemma ClosedSelector(w: W.State, e: W.Step, c: int)
    requires W.Enabled(w, e) && !e.Accept? && !e.Enter? && !e.SendStep? && !e.Begin?
    requires c in w.known && c !in w.open && !(W.InContinueWrite(w.selector) && w.selector.c == c)
    ensures var w' := W.Do(w, e);
      && c in w'.known && c !in w'.open && !(W.InContinueWrite(w'.selector) && w'.selector.c == c)
      && W.Out(w', c).written == W.Out(w, c).written
  {
  }

  // Nothing is written to a closed channel ever after.
  lemma {:induction false} ClosedStays(s: State, es: seq<Step>, c: int)
    requires LegalRun(s, es) && Closed(s, c)
    ensures Closed(Run(s, es), c) && Out(Run(s, es), c).written == Out(s, c).written
    decreases |es|
  {
    if es != [] {
      ClosedStep(s, es[0], c);
      ClosedStays(Do(s, es[0]), es[1..], c);
    }
  }

  // What was queued at the close is never written.
  lemma NeverWritten(n: nat, es: seq<Step>, s: State, c: int, s': State, later: seq<Step>)
    requires Reached(n, es, s) && s.w.selector == W.CheckingEnd(c) && Enabled(s, SelectorStep(W.CheckEnd(true)))
    requires s' == Do(s, SelectorStep(W.CheckEnd(true))) && LegalRun(s', later)
    ensures Out(Run(s', later), c).written == Out(s, c).written
  {
    KnownTested(n, es, s, c);
    CloseStep(s, c);
    ClosedStays(s', later, c);
  }

  lemma KnownTested(n: nat, es: seq<Step>, s: State, c: int)
    requires Reached(n, es, s) && s.w.selector == W.CheckingEnd(c)
    ensures c in s.w.known
  {
    Reachable(n, es, s);
  }
}
