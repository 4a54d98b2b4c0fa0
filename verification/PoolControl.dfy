/** What `stop` and `pause` keep away from the pool while they hold: pushes are
    refused exactly while a stop is under way, and a paused worker takes no job. */
module PoolControl {
  import opened Bytes
  import opened JobPool
  import opened PoolMachine
  import R = Runs

  // ----- the lock -----

  /** The queues are locked exactly while `stop` holds the pool's mutex. */
  predicate LockedByStop(s: State) {
    (s.locked <==> s.holder.Stopper?) && (s.holder.Stopper? ==> s.working)
  }

  lemma WorkLeavesTheLock(s: State, w: nat)
    requires w < |s.workers|
    ensures var t := DoWork(s, w);
            t.locked == s.locked && t.holder == s.holder && t.working == s.working && t.calls == s.calls
  {
  }

  lemma StepKeepsLock(s: State, step: Step)
    requires LockedByStop(s) && Enabled(s, step)
    ensures LockedByStop(Do(s, step))
    ensures s.holder.Stopper? ==> |Do(s, step).calls| == |s.calls|
    ensures s.holder.Stopper? && Do(s, step).working ==> Do(s, step).holder.Stopper?
    ensures !s.working ==> !Do(s, step).working
  {
    if step.Work? {
      WorkLeavesTheLock(s, step.worker);
    }
  }

  lemma RunKeepsLock(cfg: Config, steps: seq<Step>)
    requires Runs(Init(cfg), steps)
    ensures LockedByStop(After(Init(cfg), steps))
  {
    var inv := (s: State) => LockedByStop(s);
    forall x, t | inv(x) && Enabled(x, t) ensures inv(Do(x, t)) {
      StepKeepsLock(x, t);
    }
    R.Invariant(Enabled, Do, inv, Init(cfg), steps);
  }

  /** In every reachable state a push passes the lock test exactly if no stop is
      under way; in particular, a pool that has stopped takes pushes again. */
  lemma RefusedExactlyWhileStopping(cfg: Config, steps: seq<Step>, p: Priority)
    requires Runs(Init(cfg), steps)
    ensures var s := After(Init(cfg), steps);
            && (Enabled(s, Enter(p)) <==> !s.holder.Stopper?)
            && (!s.working ==> Enabled(s, Enter(p)))
  {
    RunKeepsLock(cfg, steps);
  }

  lemma {:induction false} NoneEnters(s: State, steps: seq<Step>)
    requires LockedByStop(s) && Runs(s, steps) && After(s, steps).working && s.holder.Stopper?
    ensures After(s, steps).holder.Stopper? && |After(s, steps).calls| == |s.calls|
    decreases |steps|
  {
    if steps != [] {
      StepKeepsLock(s, steps[0]);
      if !Do(s, steps[0]).working {
        StaysStopped(Do(s, steps[0]), steps[1..]);
      } else {
        NoneEnters(Do(s, steps[0]), steps[1..]);
      }
    }
  }

  lemma {:induction false} StaysStopped(s: State, steps: seq<Step>)
    requires LockedByStop(s) && Runs(s, steps) && !s.working
    ensures !After(s, steps).working
    decreases |steps|
  {
    if steps != [] {
      StepKeepsLock(s, steps[0]);
      StaysStopped(Do(s, steps[0]), steps[1..]);
    }
  }

  /** From the lock until `stop` returns, and in the step in which it does, no push
      passes the lock test, whatever the other threads do. */
  lemma NoneEntersDuringStop(cfg: Config, before: seq<Step>, steps: seq<Step>, last: Step)
    requires Runs(Init(cfg), before) && After(Init(cfg), before).holder.Stopper?
    requires Runs(After(Init(cfg), before), steps) && After(After(Init(cfg), before), steps).working
    requires Enabled(After(After(Init(cfg), before), steps), last)
    ensures var s := After(Init(cfg), before);
            var t := After(s, steps);
            |t.calls| == |s.calls| && |Do(t, last).calls| == |s.calls|
  {
    RunKeepsLock(cfg, before);
    var s := After(Init(cfg), before);
    NoneEnters(s, steps);
    RunStillLocked(s, steps);
    StepKeepsLock(After(s, steps), last);
  }

  lemma RunStillLocked(s: State, steps: seq<Step>)
    requires LockedByStop(s) && Runs(s, steps)
    ensures LockedByStop(After(s, steps))
  {
    var inv := (x: State) => LockedByStop(x);
    forall x, t | inv(x) && Enabled(x, t) ensures inv(Do(x, t)) {
      StepKeepsLock(x, t);
    }
    R.Invariant(Enabled, Do, inv, s, steps);
  }

  // ----- taking a job -----

  /** A worker that pops takes the oldest job of the first priority in its own list
      that has one, or finds all its queues empty; no other queue matters to it. */
  lemma TakesFirstOfItsOwn(cfg: Config, steps: seq<Step>, w: nat)
    requires Runs(Init(cfg), steps) && w < |cfg|
    ensures var s := After(Init(cfg), steps);
            && |s.workers| == |cfg|
            && (s.workers[w].pc.Popping? ==>
                  var pc := Do(s, Work(w)).workers[w].pc;
                  if pc == EmptyHanded then forall k :: 0 <= k < |cfg[w]| ==> QueueOf(s.pool.queues, cfg[w][k]) == []
                  else exists k :: 0 <= k < |cfg[w]| && TakesFrom(s.pool.queues, cfg[w], k, pc))
  {
    RunKeepsShape(cfg, steps);
    if After(Init(cfg), steps).workers[w].pc.Popping? {
      PopTakesFirst(After(Init(cfg), steps), w, cfg[w]);
    }
  }

  predicate TakesFrom(queues: Queues, priorities: seq<Priority>, k: nat, pc: Pc)
    requires k < |priorities|
  {
    && QueueOf(queues, priorities[k]) != [] && pc == Working(QueueOf(queues, priorities[k])[0])
    && forall i :: 0 <= i < k ==> QueueOf(queues, priorities[i]) == []
  }

  lemma PopTakesFirst(s: State, w: nat, priorities: seq<Priority>)
    requires w < |s.workers| && s.workers[w].pc.Popping? && s.workers[w].priorities == priorities
    ensures var pc := DoWork(s, w).workers[w].pc;
            if pc == EmptyHanded then forall k :: 0 <= k < |priorities| ==> QueueOf(s.pool.queues, priorities[k]) == []
            else exists k :: 0 <= k < |priorities| && TakesFrom(s.pool.queues, priorities, k, pc)
  {
    PopTakesHead(s.pool.queues, priorities);
    var popped := PopFrom(s.pool.queues, priorities);
    if popped.job.Some? {
      var k :| 0 <= k < |priorities| && TookHead(s.pool.queues, popped, priorities[k])
            && forall i :: 0 <= i < k ==> QueueOf(s.pool.queues, priorities[i]) == [];
      assert TakesFrom(s.pool.queues, priorities, k, DoWork(s, w).workers[w].pc);
    }
  }

  lemma RunKeepsShape(cfg: Config, steps: seq<Step>)
    requires Runs(Init(cfg), steps)
    ensures Shaped(After(Init(cfg), steps), cfg)
  {
    var inv := (s: State) => Shaped(s, cfg);
    forall x, t | inv(x) && Enabled(x, t) ensures inv(Do(x, t)) {
      StepKeepsShape(x, t, cfg);
    }
    R.Invariant(Enabled, Do, inv, Init(cfg), steps);
  }

  // ----- pausing -----

  /** The loop of `pause` has reached the workers in front of its index. */
  predicate PausedUpTo(s: State) {
    s.holder.Pauser? ==>
      s.holder.next <= |s.workers| && forall w :: 0 <= w < s.holder.next ==> s.workers[w].pause == s.holder.flag
  }

  lemma WorkLeavesFlags(s: State, v: nat, w: nat)
    requires v < |s.workers| && w < |s.workers|
    ensures |DoWork(s, v).workers| == |s.workers|
    ensures DoWork(s, v).workers[w].pause == s.workers[w].pause && DoWork(s, v).workers[w].stop == s.workers[w].stop
  {
  }

  lemma OthersLeaveFlags(s: State, step: Step, w: nat)
    requires Enabled(s, step) && !step.Work? && w < |s.workers|
    requires step.Advance? ==> !s.holder.Pauser? && !s.holder.Stopper?
    ensures |Do(s, step).workers| == |s.workers|
    ensures Do(s, step).workers[w].pause == s.workers[w].pause && Do(s, step).workers[w].stop == s.workers[w].stop
  {
  }

  lemma PauserKeepsPaused(s: State)
    requires PausedUpTo(s) && Enabled(s, Advance) && s.holder.Pauser?
    ensures PausedUpTo(Do(s, Advance))
    ensures Do(s, Advance).holder == Nobody ==>
              Do(s, Advance).workers == s.workers && s.holder.next == |s.workers|
  {
  }

  lemma StepKeepsPaused(s: State, step: Step)
    requires PausedUpTo(s) && Enabled(s, step)
    ensures PausedUpTo(Do(s, step))
  {
    if step == Advance && s.holder.Pauser? {
      PauserKeepsPaused(s);
    } else if s.holder.Pauser? {
      assert Do(s, step).holder == s.holder by {
        if step.Work? { WorkLeavesTheLock(s, step.worker); }
      }
      forall w | 0 <= w < |s.workers|
        ensures |Do(s, step).workers| == |s.workers| && Do(s, step).workers[w].pause == s.workers[w].pause
      {
        if step.Work? {
          WorkLeavesFlags(s, step.worker, w);
        } else {
          OthersLeaveFlags(s, step, w);
        }
      }
      if step.Work? {
        WorkLeavesFlags(s, step.worker, step.worker);
      } else if |s.workers| == 0 {
        assert Do(s, step).workers == s.workers;
      }
    } else if step.Work? {
      WorkLeavesTheLock(s, step.worker);
    }
  }

  /** When `pause` returns, every worker has its flag. */
  lemma PauseReachesAll(cfg: Config, steps: seq<Step>)
    requires Runs(Init(cfg), steps)
    requires var s := After(Init(cfg), steps);
             s.holder.Pauser? && Enabled(s, Advance) && Do(s, Advance).holder == Nobody
    ensures var s := After(Init(cfg), steps);
            var t := Do(s, Advance);
            forall w :: 0 <= w < |t.workers| ==> t.workers[w].pause == s.holder.flag
  {
    var inv := (s: State) => PausedUpTo(s);
    forall x, t | inv(x) && Enabled(x, t) ensures inv(Do(x, t)) {
      StepKeepsPaused(x, t);
    }
    R.Invariant(Enabled, Do, inv, Init(cfg), steps);
    PauserKeepsPaused(After(Init(cfg), steps));
  }

  /** Nobody is about to resume or to stop the workers. */
  predicate NoResume(s: State) {
    !s.holder.Stopper? && (s.holder.Pauser? ==> s.holder.flag)
  }

  predicate KeepsPaused(s: State, step: Step) {
    Enabled(s, step) && step != Pause(false) && !step.Stop?
  }

  /** Paused, and outside of its condition; a job in its hands is the one it had. */
  predicate Resting(me: Worker, had: Pc) {
    me.pause && !me.stop && !me.HoldsMutex() && (me.pc.Working? ==> me.pc == had)
  }

  lemma OwnStepRests(s: State, w: nat, had: Pc)
    requires w < |s.workers| && Resting(s.workers[w], had)
    ensures |DoWork(s, w).workers| == |s.workers| && Resting(DoWork(s, w).workers[w], had)
  {
  }

  lemma OtherWorkRests(s: State, v: nat, w: nat)
    requires v < |s.workers| && w < |s.workers| && v != w
    ensures |DoWork(s, v).workers| == |s.workers| && DoWork(s, v).workers[w] == s.workers[w]
  {
  }

  lemma QuietStepRests(s: State, step: Step, w: nat, had: Pc)
    requires w < |s.workers| && Resting(s.workers[w], had) && NoResume(s) && KeepsPaused(s, step) && !step.Work?
    ensures |Do(s, step).workers| == |s.workers| && Resting(Do(s, step).workers[w], had) && NoResume(Do(s, step))
  {
  }

  lemma StepRests(s: State, step: Step, w: nat, had: Pc)
    requires w < |s.workers| && Resting(s.workers[w], had) && NoResume(s) && KeepsPaused(s, step)
    ensures |Do(s, step).workers| == |s.workers| && Resting(Do(s, step).workers[w], had) && NoResume(Do(s, step))
  {
    if !step.Work? {
      QuietStepRests(s, step, w, had);
    } else {
      WorkLeavesTheLock(s, step.worker);
      if step.worker == w {
        OwnStepRests(s, w, had);
      } else {
        OtherWorkRests(s, step.worker, w);
      }
    }
  }

  /** As long as nobody resumes or stops it, a paused worker finishes at most the
      job it has and takes no other, however many are pushed and however often it
      is notified. */
  lemma {:induction false} PausedTakesNoJob(s: State, steps: seq<Step>, w: nat, had: Pc)
    requires w < |s.workers| && Resting(s.workers[w], had) && NoResume(s)
    requires R.Valid(KeepsPaused, Do, s, steps)
    ensures var t := After(s, steps);
            |t.workers| == |s.workers| && Resting(t.workers[w], had) && NoResume(t)
    decreases |steps|
  {
    if steps != [] {
      StepRests(s, steps[0], w, had);
      PausedTakesNoJob(Do(s, steps[0]), steps[1..], w, had);
    }
  }
}
