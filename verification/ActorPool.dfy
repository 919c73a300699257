// The actor scheduler: submitted tasks of one actor run one at a time and in
// order, on any number of pool threads. `submit` and `complete` are atomic
// (they hold the actor's lock); picking up a job and ending a task are steps of
// their own, so every interleaving of the threads is a run.
module ActorPool {
  import Text

  datatype Job<T> = Job(act: int, task: T)

  // What the scheduler itself holds: the actors in play, their pending tasks,
  // and the executor's queue of jobs.
  datatype Core<T> = Core(playing: set<int>, pending: map<int, seq<T>>, queue: seq<Job<T>>)

  // A pool thread: waiting for a job, inside a task, or about to complete.
  datatype Phase<T> = Idle | Running(act: int, task: T) | Completing(act: int)

  // The whole system. `submitted` and `started` remember, per actor, the tasks
  // submitted and the tasks a thread has picked up.
  datatype Pool<T> = Pool(core: Core<T>, threads: seq<Phase<T>>,
                          submitted: map<int, seq<T>>, started: map<int, seq<T>>)

  function Of<T>(m: map<int, seq<T>>, a: int): seq<T>
  {
    if a in m then m[a] else []
  }

  function Snoc<T>(m: map<int, seq<T>>, a: int, t: T): map<int, seq<T>>
  {
    m[a := Of(m, a) + [t]]
  }

  function Init<T>(threads: nat): Pool<T>
  {
    Pool(Core({}, map[], []), seq(threads, _ => Idle), map[], map[])
  }

  // ------------------------------------------------------------- operations

  function CoreSubmit<T>(c: Core<T>, a: int, t: T): Core<T>
  {
    if a !in c.playing then c.(playing := c.playing + {a}, queue := c.queue + [Job(a, t)])
    else c.(pending := Snoc(c.pending, a, t))
  }

  // The next pending task goes to the executor, or the actor leaves play.
  function CoreComplete<T>(c: Core<T>, a: int): Core<T>
  {
    var ts := Of(c.pending, a);
    if ts == [] then c.(playing := c.playing - {a}, pending := c.pending[a := []])
    else c.(queue := c.queue + [Job(a, ts[0])], pending := c.pending[a := ts[1..]])
  }

  function Submit<T>(p: Pool<T>, a: int, t: T): Pool<T>
  {
    p.(core := CoreSubmit(p.core, a, t), submitted := Snoc(p.submitted, a, t))
  }

  predicate CanStart<T>(p: Pool<T>, w: int)
  {
    0 <= w < |p.threads| && p.threads[w].Idle? && p.core.queue != []
  }

  function Start<T>(p: Pool<T>, w: int): Pool<T>
    requires CanStart(p, w)
  {
    var j := p.core.queue[0];
    p.(core := p.core.(queue := p.core.queue[1..]),
       threads := p.threads[w := Running(j.act, j.task)],
       started := Snoc(p.started, j.act, j.task))
  }

  predicate CanFinish<T>(p: Pool<T>, w: int)
  {
    0 <= w < |p.threads| && p.threads[w].Running?
  }

  // The task returned or threw: `complete` runs in either case.
  function Finish<T>(p: Pool<T>, w: int): Pool<T>
    requires CanFinish(p, w)
  {
    p.(threads := p.threads[w := Completing(p.threads[w].act)])
  }

  predicate CanComplete<T>(p: Pool<T>, w: int)
  {
    0 <= w < |p.threads| && p.threads[w].Completing?
  }

  function Complete<T>(p: Pool<T>, w: int): Pool<T>
    requires CanComplete(p, w)
  {
    p.(core := CoreComplete(p.core, p.threads[w].act), threads := p.threads[w := Idle])
  }

  // -------------------------------------------------------------- invariant

  predicate Busy<T>(p: Pool<T>, w: int, a: int)
  {
    0 <= w < |p.threads| && !p.threads[w].Idle? && p.threads[w].act == a
  }

  predicate Queued<T>(p: Pool<T>, i: int, a: int)
  {
    0 <= i < |p.core.queue| && p.core.queue[i].act == a
  }

  // At most one job per actor is queued, running or completing, and there is
  // one exactly when the actor is in play.
  ghost predicate OneEach<T>(p: Pool<T>)
  {
    && (forall i, j, a :: Queued(p, i, a) && Queued(p, j, a) ==> i == j)
    && (forall v, w, a :: Busy(p, v, a) && Busy(p, w, a) ==> v == w)
    && (forall i, w, a :: Queued(p, i, a) ==> !Busy(p, w, a))
    && (forall i, a :: Queued(p, i, a) ==> a in p.core.playing)
    && (forall w, a :: Busy(p, w, a) ==> a in p.core.playing)
    && (forall a :: a in p.core.playing ==> (exists i :: Queued(p, i, a)) || exists w :: Busy(p, w, a))
  }

  // The queued tasks of one actor.
  function QueuedTasks<T>(q: seq<Job<T>>, a: int): seq<T>
  {
    if q == [] then [] else (if q[0].act == a then [q[0].task] else []) + QueuedTasks(q[1..], a)
  }

  // The submitted tasks of an actor are the started ones, then the queued
  // one, then the pending ones.
  ghost predicate OrderOf<T>(p: Pool<T>, a: int)
  {
    Of(p.submitted, a) == Of(p.started, a) + (QueuedTasks(p.core.queue, a) + Of(p.core.pending, a))
  }

  // A running task is the last one its actor started.
  ghost predicate RunsLatest<T>(p: Pool<T>, w: int)
    requires 0 <= w < |p.threads|
  {
    p.threads[w].Running? ==>
      var ts := Of(p.started, p.threads[w].act);
      ts != [] && ts[|ts| - 1] == p.threads[w].task
  }

  // Tasks are in order, and only actors in play have pending tasks.
  ghost predicate InOrder<T>(p: Pool<T>)
  {
    && (forall a :: OrderOf(p, a))
    && (forall a :: Of(p.core.pending, a) != [] ==> a in p.core.playing)
    && (forall w :: 0 <= w < |p.threads| ==> RunsLatest(p, w))
  }

  ghost predicate Inv<T>(p: Pool<T>)
  {
    OneEach(p) && InOrder(p)
  }

  lemma InitInv<T>(threads: nat)
    ensures Inv(Init<T>(threads))
  {
  }

  lemma {:induction false} QueuedTasksSnoc<T>(q: seq<Job<T>>, j: Job<T>, a: int)
    ensures QueuedTasks(q + [j], a) == QueuedTasks(q, a) + (if j.act == a then [j.task] else [])
  {
    if q == [] {
      assert (q + [j])[1..] == [];
    } else {
      assert (q + [j])[0] == q[0] && (q + [j])[1..] == q[1..] + [j];
      QueuedTasksSnoc(q[1..], j, a);
      Text.Regroup(if q[0].act == a then [q[0].task] else [], QueuedTasks(q[1..], a), if j.act == a then [j.task] else []);
    }
  }

  lemma {:induction false} NoneQueued<T>(q: seq<Job<T>>, a: int)
    requires forall i :: 0 <= i < |q| ==> q[i].act != a
    ensures QueuedTasks(q, a) == []
  {
    if q != [] {
      NoneQueued(q[1..], a);
    }
  }

  lemma NotPlaying<T>(p: Pool<T>, a: int)
    requires Inv(p) && (a !in p.core.playing || exists w :: Busy(p, w, a))
    ensures QueuedTasks(p.core.queue, a) == []
  {
    forall i | 0 <= i < |p.core.queue| ensures p.core.queue[i].act != a {
      assert p.core.queue[i].act == a ==> Queued(p, i, a);
    }
    NoneQueued(p.core.queue, a);
  }

  lemma SubmitOneEach<T>(p: Pool<T>, a: int, t: T)
    requires OneEach(p)
    ensures OneEach(Submit(p, a, t))
  {
    var p' := Submit(p, a, t);
    var n := |p.core.queue|;
    assert forall w, b :: Busy(p', w, b) <==> Busy(p, w, b);
    assert forall i, b :: i != n ==> (Queued(p', i, b) <==> Queued(p, i, b));
    if a !in p.core.playing {
      assert Queued(p', n, a);
    }
  }

  lemma SubmitOrderOf<T>(p: Pool<T>, a: int, t: T, b: int)
    requires Inv(p)
    ensures OrderOf(Submit(p, a, t), b)
  {
    assert OrderOf(p, b);
    if a in p.core.playing {
      PendOrderOf(p, a, t, b);
    } else {
      NotPlaying(p, a);
      QueueOrderOf(p, a, t, b);
    }
  }

  lemma QueueOrderOf<T>(p: Pool<T>, a: int, t: T, b: int)
    requires OrderOf(p, b) && a !in p.core.playing
    requires QueuedTasks(p.core.queue, a) == [] && Of(p.core.pending, a) == []
    ensures OrderOf(Submit(p, a, t), b)
  {
    QueuedTasksSnoc(p.core.queue, Job(a, t), b);
    if a == b {
      AddFirst(Of(p.started, b), t);
    } else {
      assert QueuedTasks(p.core.queue, b) + [] == QueuedTasks(p.core.queue, b);
    }
  }

  lemma PendOrderOf<T>(p: Pool<T>, a: int, t: T, b: int)
    requires OrderOf(p, b) && a in p.core.playing
    ensures OrderOf(Submit(p, a, t), b)
  {
    if a == b {
      AddLast(Of(p.started, b), QueuedTasks(p.core.queue, b), Of(p.core.pending, b), t);
    }
  }

  lemma AddFirst<T>(started: seq<T>, t: T)
    ensures started + ([] + []) + [t] == started + (([] + [t]) + [])
  {
  }

  lemma AddLast<T>(started: seq<T>, queued: seq<T>, pending: seq<T>, t: T)
    ensures started + (queued + pending) + [t] == started + (queued + (pending + [t]))
  {
  }

  lemma SubmitInOrder<T>(p: Pool<T>, a: int, t: T)
    requires Inv(p)
    ensures InOrder(Submit(p, a, t))
  {
    var p' := Submit(p, a, t);
    forall b ensures OrderOf(p', b) { SubmitOrderOf(p, a, t, b); }
    forall v | 0 <= v < |p.threads| ensures RunsLatest(p', v) { assert RunsLatest(p, v); }
  }

  lemma StartOneEach<T>(p: Pool<T>, w: int)
    requires OneEach(p) && CanStart(p, w)
    ensures OneEach(Start(p, w))
  {
    var p' := Start(p, w);
    var a := p.core.queue[0].act;
    assert Queued(p, 0, a);
    assert forall i, b :: Queued(p', i, b) <==> i >= 0 && Queued(p, i + 1, b);
    assert forall v, b :: Busy(p', v, b) <==> (if v == w then b == a else Busy(p, v, b));
    forall b | b in p'.core.playing ensures (exists i :: Queued(p', i, b)) || exists v :: Busy(p', v, b) {
      if i :| Queued(p, i, b) {
        if i == 0 {
          assert Busy(p', w, b);
        } else {
          assert Queued(p', i - 1, b);
        }
      } else {
        var v :| Busy(p, v, b);
        assert Busy(p', v, b);
      }
    }
  }

  lemma StartOrderOf<T>(p: Pool<T>, w: int, b: int)
    requires Inv(p) && CanStart(p, w)
    ensures OrderOf(Start(p, w), b)
  {
    assert OrderOf(p, b);
    var j := p.core.queue[0];
    var queued, pending := QueuedTasks(p.core.queue[1..], b), Of(p.core.pending, b);
    if j.act == b {
      assert QueuedTasks(p.core.queue, b) == [j.task] + queued;
      MoveTask(Of(p.started, b), j.task, queued, pending);
    } else {
      assert QueuedTasks(p.core.queue, b) == [] + queued == queued;
      assert Of(Start(p, w).started, b) == Of(p.started, b);
    }
  }

  lemma MoveTask<T>(started: seq<T>, t: T, queued: seq<T>, pending: seq<T>)
    ensures started + ([t] + queued + pending) == started + [t] + (queued + pending)
  {
  }

  lemma StartInOrder<T>(p: Pool<T>, w: int)
    requires Inv(p) && CanStart(p, w)
    ensures InOrder(Start(p, w))
  {
    var p' := Start(p, w);
    var j := p.core.queue[0];
    assert Queued(p, 0, j.act);
    forall b ensures OrderOf(p', b) { StartOrderOf(p, w, b); }
    forall v | 0 <= v < |p.threads| ensures RunsLatest(p', v) {
      assert RunsLatest(p, v);
      if v != w && p.threads[v].Running? {
        assert Busy(p, v, p.threads[v].act);
      }
    }
  }

  lemma FinishInv<T>(p: Pool<T>, w: int)
    requires Inv(p) && CanFinish(p, w)
    ensures Inv(Finish(p, w))
  {
    var p' := Finish(p, w);
    forall a ensures OrderOf(p', a) { assert OrderOf(p, a); }
    forall v | 0 <= v < |p.threads| ensures RunsLatest(p', v) { assert RunsLatest(p, v); }
    assert forall v, b :: Busy(p', v, b) <==> Busy(p, v, b);
    assert forall i, b :: Queued(p', i, b) <==> Queued(p, i, b);
  }

  lemma CompleteOneEach<T>(p: Pool<T>, w: int)
    requires OneEach(p) && CanComplete(p, w)
    ensures OneEach(Complete(p, w))
  {
    var p' := Complete(p, w);
    var a, n := p.threads[w].act, |p.core.queue|;
    assert Busy(p, w, a);
    assert forall v, b :: Busy(p', v, b) <==> v != w && Busy(p, v, b);
    assert forall i, b :: i != n ==> (Queued(p', i, b) <==> Queued(p, i, b));
    forall b | b in p'.core.playing ensures (exists i :: Queued(p', i, b)) || exists v :: Busy(p', v, b) {
      if b == a {
        assert Queued(p', n, a);
      } else if i :| Queued(p, i, b) {
        assert Queued(p', i, b);
      } else {
        var v :| Busy(p, v, b);
        assert Busy(p', v, b);
      }
    }
  }

  lemma CompleteOrderOf<T>(p: Pool<T>, w: int, b: int)
    requires Inv(p) && CanComplete(p, w)
    ensures OrderOf(Complete(p, w), b)
  {
    assert OrderOf(p, b);
    var a := p.threads[w].act;
    if Of(p.core.pending, a) != [] {
      assert Busy(p, w, a);
      NotPlaying(p, a);
      NextOrderOf(p, w, a, b);
    }
  }

  // The next pending task goes to the executor's queue.
  lemma NextOrderOf<T>(p: Pool<T>, w: int, a: int, b: int)
    requires OrderOf(p, b) && CanComplete(p, w) && p.threads[w].act == a
    requires Of(p.core.pending, a) != [] && QueuedTasks(p.core.queue, a) == []
    ensures OrderOf(Complete(p, w), b)
  {
    var ts := Of(p.core.pending, a);
    QueuedTasksSnoc(p.core.queue, Job(a, ts[0]), b);
    if a == b {
      assert [] + ts == [] + [ts[0]] + ts[1..];
    } else {
      assert QueuedTasks(p.core.queue, b) + [] == QueuedTasks(p.core.queue, b);
    }
  }

  lemma CompleteInOrder<T>(p: Pool<T>, w: int)
    requires Inv(p) && CanComplete(p, w)
    ensures InOrder(Complete(p, w))
  {
    var p' := Complete(p, w);
    assert Busy(p, w, p.threads[w].act);
    forall b ensures OrderOf(p', b) { CompleteOrderOf(p, w, b); }
    forall v | 0 <= v < |p.threads| ensures RunsLatest(p', v) { assert RunsLatest(p, v); }
  }

  // ------------------------------------------------------------------- runs

  datatype Step<T> = SubmitStep(act: int, task: T) | StartStep(thread: int) | FinishStep(thread: int, threw: bool)
                   | CompleteStep(thread: int)

  predicate Enabled<T>(p: Pool<T>, s: Step<T>)
  {
    match s
    case SubmitStep(_, _) => true
    case StartStep(w) => CanStart(p, w)
    case FinishStep(w, _) => CanFinish(p, w)
    case CompleteStep(w) => CanComplete(p, w)
  }

  function Do<T>(p: Pool<T>, s: Step<T>): Pool<T>
    requires Enabled(p, s)
  {
    match s
    case SubmitStep(a, t) => Submit(p, a, t)
    case StartStep(w) => Start(p, w)
    case FinishStep(w, _) => Finish(p, w)
    case CompleteStep(w) => Complete(p, w)
  }

  predicate LegalRun<T>(p: Pool<T>, ss: seq<Step<T>>)
    decreases |ss|
  {
    ss == [] || (Enabled(p, ss[0]) && LegalRun(Do(p, ss[0]), ss[1..]))
  }

  function Run<T>(p: Pool<T>, ss: seq<Step<T>>): Pool<T>
    requires LegalRun(p, ss)
    decreases |ss|
  {
    if ss == [] then p else Run(Do(p, ss[0]), ss[1..])
  }

  lemma StepInv<T>(p: Pool<T>, s: Step<T>)
    requires Inv(p) && Enabled(p, s)
    ensures Inv(Do(p, s))
  {
    match s
    case SubmitStep(a, t) => SubmitOneEach(p, a, t); SubmitInOrder(p, a, t);
    case StartStep(w) => StartOneEach(p, w); StartInOrder(p, w);
    case FinishStep(w, _) => FinishInv(p, w);
    case CompleteStep(w) => CompleteOneEach(p, w); CompleteInOrder(p, w);
  }

  lemma {:induction false} RunInv<T>(p: Pool<T>, ss: seq<Step<T>>)
    requires Inv(p) && LegalRun(p, ss)
    ensures Inv(Run(p, ss))
    decreases |ss|
  {
    if ss != [] {
      StepInv(p, ss[0]);
      RunInv(Do(p, ss[0]), ss[1..]);
    }
  }

  // The states reachable from the start with `n` threads.
  lemma Reachable<T>(n: nat, ss: seq<Step<T>>)
    requires LegalRun(Init<T>(n), ss)
    ensures Inv(Run(Init<T>(n), ss))
  {
    InitInv<T>(n);
    RunInv(Init<T>(n), ss);
  }

  // Over every run from the start, with tasks ending normally or throwing: no
  // actor is on two threads, nor on one while it has a job queued.
  lemma ActorsExclusive<T>(n: nat, ss: seq<Step<T>>)
    requires LegalRun(Init<T>(n), ss)
    ensures var p := Run(Init<T>(n), ss);
      && (forall v, w, a :: Busy(p, v, a) && Busy(p, w, a) ==> v == w)
      && (forall i, j, a :: Queued(p, i, a) && Queued(p, j, a) ==> i == j)
      && (forall i, w, a :: Queued(p, i, a) ==> !Busy(p, w, a))
  {
    Reachable(n, ss);
  }

  // The tasks of one actor start in submission order, at most once each, and
  // an actor with pending tasks is in play.
  lemma ActorsInOrder<T>(n: nat, ss: seq<Step<T>>, a: int)
    requires LegalRun(Init<T>(n), ss)
    ensures var p := Run(Init<T>(n), ss);
      Of(p.started, a) <= Of(p.submitted, a) && (Of(p.core.pending, a) != [] ==> a in p.core.playing)
  {
    Reachable(n, ss);
    assert OrderOf(Run(Init<T>(n), ss), a);
  }

  predicate Quiet<T>(p: Pool<T>)
  {
    p.core.queue == [] && forall w :: 0 <= w < |p.threads| ==> p.threads[w].Idle?
  }

  lemma QuietStarted<T>(p: Pool<T>, a: int)
    requires Inv(p) && Quiet(p)
    ensures a !in p.core.playing && Of(p.started, a) == Of(p.submitted, a) && Of(p.core.pending, a) == []
  {
    assert forall i :: !Queued(p, i, a);
    assert forall w :: !Busy(p, w, a);
    assert OrderOf(p, a);
  }

  // When the executor is idle no submitted task is stranded: all of them have
  // been started and no actor is in play.
  lemma NothingStranded<T>(n: nat, ss: seq<Step<T>>)
    requires LegalRun(Init<T>(n), ss) && Quiet(Run(Init<T>(n), ss))
    ensures var p := Run(Init<T>(n), ss);
      p.core.playing == {} && forall a :: Of(p.started, a) == Of(p.submitted, a) && Of(p.core.pending, a) == []
  {
    Reachable(n, ss);
    var p := Run(Init<T>(n), ss);
    forall a
      ensures a !in p.core.playing && Of(p.started, a) == Of(p.submitted, a) && Of(p.core.pending, a) == []
    {
      QuietStarted(p, a);
    }
    assert forall a :: a !in p.core.playing;
  }

  // And as long as it is not idle some thread can take a step.
  lemma NoDeadlock<T>(p: Pool<T>)
    requires |p.threads| > 0 && !Quiet(p)
    ensures exists w :: CanStart(p, w) || CanFinish(p, w) || CanComplete(p, w)
  {
    if p.core.queue != [] && p.threads[0].Idle? {
      assert CanStart(p, 0);
    } else if w :| 0 <= w < |p.threads| && !p.threads[w].Idle? {
      assert CanFinish(p, w) || CanComplete(p, w);
    }
  }
}
