// The actor pool as the object it is: each critical section computes the
// corresponding operation of the step system.
module Scheduler {
  import P = ActorPool

  class ActorThreadPool<T> {
    var acts: map<int, seq<T>>
    var playingNow: set<int>
    var threads: seq<P.Job<T>>  // the executor's queue

    ghost function Core(): P.Core<T>
      reads this
    {
      P.Core(playingNow, acts, threads)
    }

    constructor ()
      ensures Core() == P.Init<T>(0).core
    {
      acts := map[];
      playingNow := {};
      threads := [];
    }

    method Submit(act: int, r: T)
      modifies this
      ensures Core() == P.CoreSubmit(old(Core()), act, r)
    {
      if act !in playingNow {
        playingNow := playingNow + {act};
        Execute(r, act);
      } else {
        var pending := PendingRunnablesOf(act);
        acts := acts[act := pending + [r]];
      }
    }

    // The actor's queue, created when it is missing.
    method PendingRunnablesOf(act: int) returns (pending: seq<T>)
      modifies this`acts
      ensures pending == P.Of(old(acts), act) && acts == old(acts)[act := pending]
    {
      if act in acts {
        pending := acts[act];
        assert acts == acts[act := pending];
      } else {
        pending := [];
        acts := acts[act := pending];
      }
    }

    method Execute(r: T, act: int)
      modifies this`threads
      ensures threads == old(threads) + [P.Job(act, r)]
    {
      threads := threads + [P.Job(act, r)];
    }

    method Complete(act: int)
      modifies this
      ensures Core() == P.CoreComplete(old(Core()), act)
    {
      var pending := PendingRunnablesOf(act);
      if pending == [] {
        playingNow := playingNow - {act};
      } else {
        acts := acts[act := pending[1..]];
        Execute(pending[0], act);
      }
    }
  }
}
