/** Every accepted job is in exactly one place in every state of every run: in its
    queue, in the hands of a worker, finished, or destroyed. With Drain this says
    what `stop` promises. */
module Ledger {
  import opened Bytes
  import opened JobPool
  import opened PoolMachine
  import Drain
  import R = Runs

  function Hand(me: Worker, job: Job): nat {
    if me.pc == Working(job) then 1 else 0
  }

  /** How many workers are running the job. */
  function InHand(workers: seq<Worker>, job: Job): nat {
    if workers == [] then 0 else Hand(workers[0], job) + InHand(workers[1..], job)
  }

  lemma {:induction false} InHandUpdate(workers: seq<Worker>, w: nat, me: Worker, job: Job)
    requires w < |workers|
    ensures InHand(workers[w := me], job) + Hand(workers[w], job) == InHand(workers, job) + Hand(me, job)
    decreases |workers|
  {
    if w == 0 {
      assert workers[0 := me][1..] == workers[1..];
    } else {
      InHandUpdate(workers[1..], w - 1, me, job);
      assert workers[w := me][1..] == workers[1..][w - 1 := me];
    }
  }

  lemma {:induction false} NothingInHand(workers: seq<Worker>, job: Job)
    requires forall w :: 0 <= w < |workers| ==> !workers[w].pc.Working?
    ensures InHand(workers, job) == 0
  {
    if workers != [] {
      NothingInHand(workers[1..], job);
    }
  }

  // ----- the three balances -----

  /** What was popped is finished or in hand. */
  ghost predicate Balanced(s: State) {
    forall j: Job :: multiset(s.taken)[j] == multiset(s.done)[j] + InHand(s.workers, j)
  }

  /** What left a queue was popped or destroyed. */
  ghost predicate Accounted(s: State) {
    forall j: Job :: multiset(QueueOf(s.pool.removed, j.priority))[j] == multiset(s.taken)[j] + s.destroyed[j]
  }

  /** A job is named after its call, and is pushed once. */
  ghost predicate Named(s: State) {
    && (forall k :: 0 <= k < |s.calls| && s.calls[k].Entered? ==> s.calls[k].job.id == k)
    && (forall p :: NamedIn(s.calls, QueueOf(s.pool.pushed, p), p))
  }

  predicate NamedIn(calls: seq<Call>, jobs: seq<Job>, p: Priority) {
    && (forall i :: 0 <= i < |jobs| ==> jobs[i].priority == p && 0 <= jobs[i].id < |calls| && !calls[jobs[i].id].Entered?)
    && (forall i, j :: 0 <= i < j < |jobs| ==> jobs[i].id != jobs[j].id)
  }

  // ----- what the steps keep -----

  lemma WorkKeepsBalanced(s: State, w: nat)
    requires Balanced(s) && w < |s.workers|
    ensures Balanced(DoWork(s, w))
  {
    var t := DoWork(s, w);
    WorkTouchesOne(s, w);
    WorkLogs(s, w);
    var before, me := s.workers[w], t.workers[w];
    forall j: Job ensures multiset(t.taken)[j] == multiset(t.done)[j] + InHand(t.workers, j) {
      InHandUpdate(s.workers, w, me, j);
      BalanceAfter(s.taken, s.done, before.pc, me.pc, j);
    }
  }

  lemma WorkTouchesOne(s: State, w: nat)
    requires w < |s.workers|
    ensures var t := DoWork(s, w); |t.workers| == |s.workers| && t.workers == s.workers[w := t.workers[w]]
  {
  }

  /** A job goes from the log of pops to a worker, or from there to the log of runs. */
  lemma BalanceAfter(taken: seq<Job>, done: seq<Job>, before: Pc, after: Pc, j: Job)
    ensures multiset(if before.Popping? && after.Working? then taken + [after.job] else taken)[j]
         == multiset(taken)[j] + if before.Popping? && after.Working? && after.job == j then 1 else 0
    ensures multiset(if before.Working? then done + [before.job] else done)[j]
         == multiset(done)[j] + if before.Working? && before.job == j then 1 else 0
  {
  }

  lemma WorkLogs(s: State, w: nat)
    requires w < |s.workers|
    ensures var (t, me) := (DoWork(s, w), s.workers[w]);
            && t.taken == (if me.pc.Popping? && t.workers[w].pc.Working? then s.taken + [t.workers[w].pc.job] else s.taken)
            && t.done == (if me.pc.Working? then s.done + [me.pc.job] else s.done)
            && (t.workers[w].pc.Working? ==> me.pc.Popping?)
  {
  }

  lemma OthersKeepBalanced(s: State, step: Step)
    requires Balanced(s) && Enabled(s, step) && !step.Work?
    ensures Balanced(Do(s, step))
  {
    var t := Do(s, step);
    assert t.taken == s.taken && t.done == s.done;
    OneWorkerChanged(s, step);
    forall j: Job ensures InHand(t.workers, j) == InHand(s.workers, j) {
      if t.workers != s.workers {
        var i :| 0 <= i < |s.workers| && t.workers == s.workers[i := t.workers[i]];
        Drain.WorkerFlags(s, step, i);
        InHandUpdate(s.workers, i, t.workers[i], j);
      }
    }
  }

  lemma OneWorkerChanged(s: State, step: Step)
    requires Enabled(s, step) && !step.Work?
    ensures |Do(s, step).workers| == |s.workers|
    ensures Do(s, step).workers == s.workers
         || exists i :: 0 <= i < |s.workers| && Do(s, step).workers == s.workers[i := Do(s, step).workers[i]]
  {
  }

  lemma StepKeepsBalanced(s: State, step: Step)
    requires Balanced(s) && Enabled(s, step)
    ensures Balanced(Do(s, step))
  {
    if step.Work? {
      WorkKeepsBalanced(s, step.worker);
    } else {
      OthersKeepBalanced(s, step);
    }
  }

  lemma HomedCount(h: History, j: Job)
    requires Conserved(h)
    ensures QueuedJobs(h.queues)[j] == multiset(QueueOf(h.queues, j.priority))[j]
  {
    forall p | p != j.priority ensures multiset(QueueOf(h.queues, p))[j] == 0 {
      assert Homed(h, p);
    }
  }

  lemma ClearKeepsAccounted(s: State)
    requires Accounted(s) && Conserved(s.pool) && s.holder.Stopper?
    ensures Accounted(DoClear(s))
  {
    var t := DoClear(s);
    forall j: Job
      ensures multiset(QueueOf(t.pool.removed, j.priority))[j] == multiset(t.taken)[j] + t.destroyed[j]
    {
      HomedCount(s.pool, j);
      ClearRemoves(s.pool, j.priority);
    }
  }

  lemma EnqueueCount(queues: Queues, job: Job, j: Job)
    ensures multiset(QueueOf(Enqueue(queues, job), j.priority))[j]
         == multiset(QueueOf(queues, j.priority))[j] + (if j == job then 1 else 0)
  {
  }

  lemma PopLogs(s: State, w: nat)
    requires w < |s.workers|
    ensures var (t, job) := (DoPop(s, w), PopFrom(s.pool.queues, s.workers[w].priorities).job);
            && t.destroyed == s.destroyed
            && (job.None? ==> t.taken == s.taken && t.pool.removed == s.pool.removed)
            && (job.Some? ==> t.taken == s.taken + [job.value] && t.pool.removed == Enqueue(s.pool.removed, job.value))
  {
  }

  lemma PopKeepsAccounted(s: State, w: nat)
    requires Accounted(s) && w < |s.workers|
    ensures Accounted(DoPop(s, w))
  {
    var t, popped := DoPop(s, w), PopFrom(s.pool.queues, s.workers[w].priorities).job;
    PopLogs(s, w);
    forall j: Job
      ensures multiset(QueueOf(t.pool.removed, j.priority))[j] == multiset(t.taken)[j] + t.destroyed[j]
    {
      assert multiset(QueueOf(s.pool.removed, j.priority))[j] == multiset(s.taken)[j] + s.destroyed[j];
      if popped.Some? {
        EnqueueCount(s.pool.removed, popped.value, j);
      }
    }
  }

  lemma AccountedFields(s: State, step: Step)
    requires Enabled(s, step)
    requires !(step.Work? && s.workers[step.worker].pc.Popping?)
    requires !(step.Advance? && s.holder.Stopper? && !s.holder.cleared)
    ensures Do(s, step).pool.removed == s.pool.removed
    ensures Do(s, step).taken == s.taken && Do(s, step).destroyed == s.destroyed
  {
    PoolEffect(s, step);
  }

  lemma StepKeepsAccounted(s: State, step: Step)
    requires Accounted(s) && Conserved(s.pool) && Enabled(s, step)
    ensures Accounted(Do(s, step))
  {
    if step.Work? && s.workers[step.worker].pc.Popping? {
      PopKeepsAccounted(s, step.worker);
    } else if step.Advance? && s.holder.Stopper? && !s.holder.cleared {
      ClearKeepsAccounted(s);
    } else {
      AccountedFields(s, step);
    }
  }

  /** A call that is not Entered any more never becomes so again. */
  lemma CallsMoveOn(s: State, step: Step)
    requires Enabled(s, step)
    ensures |s.calls| <= |Do(s, step).calls|
    ensures forall k :: 0 <= k < |s.calls| && Do(s, step).calls[k].Entered? ==> Do(s, step).calls[k] == s.calls[k]
    ensures forall k :: |s.calls| <= k < |Do(s, step).calls| && Do(s, step).calls[k].Entered? ==>
              Do(s, step).calls[k].job.id == k
  {
  }

  lemma InsertKeepsNamed(s: State, k: nat)
    requires Named(s) && k < |s.calls| && s.calls[k].Entered?
    ensures Named(DoInsert(s, k))
  {
    var t, job := DoInsert(s, k), s.calls[k].job;
    forall p ensures NamedIn(t.calls, QueueOf(t.pool.pushed, p), p) {
      assert NamedIn(s.calls, QueueOf(s.pool.pushed, p), p);
      NamedAfterInsert(s.calls, k, job, QueueOf(s.pool.pushed, p), p);
    }
  }

  lemma NamedAfterInsert(calls: seq<Call>, k: nat, job: Job, jobs: seq<Job>, p: Priority)
    requires k < |calls| && calls[k] == Entered(job) && job.id == k && NamedIn(calls, jobs, p)
    ensures NamedIn(calls[k := Inserted(job.priority)], if job.priority == p then jobs + [job] else jobs, p)
  {
  }

  lemma StepKeepsNamed(s: State, step: Step)
    requires Named(s) && Enabled(s, step)
    ensures Named(Do(s, step))
  {
    if step.Insert? {
      InsertKeepsNamed(s, step.call);
    } else {
      var t := Do(s, step);
      CallsMoveOn(s, step);
      PoolEffect(s, step);
      assert t.pool.pushed == s.pool.pushed;
      forall p ensures NamedIn(t.calls, QueueOf(t.pool.pushed, p), p) {
        assert NamedIn(s.calls, QueueOf(s.pool.pushed, p), p);
      }
    }
  }

  // ----- every run -----

  ghost predicate Inv(s: State) {
    Conserved(s.pool) && Balanced(s) && Accounted(s) && Named(s)
  }

  lemma RunKeepsInv(cfg: Config, steps: seq<Step>)
    requires Runs(Init(cfg), steps)
    ensures Inv(After(Init(cfg), steps))
  {
    var inv := (s: State) => Inv(s);
    forall j: Job ensures InHand(Init(cfg).workers, j) == 0 {
      NothingInHand(Init(cfg).workers, j);
    }
    forall x, t | inv(x) && Enabled(x, t) ensures inv(Do(x, t)) {
      StepConserves(x, t);
      StepKeepsBalanced(x, t);
      StepKeepsAccounted(x, t);
      StepKeepsNamed(x, t);
    }
    R.Invariant(Enabled, Do, inv, Init(cfg), steps);
  }

  lemma CountOnce(jobs: seq<Job>, job: Job)
    requires forall i, j :: 0 <= i < j < |jobs| ==> jobs[i].id != jobs[j].id
    requires job in jobs
    ensures multiset(jobs)[job] == 1
  {
    var k :| 0 <= k < |jobs| && jobs[k] == job;
    assert jobs == jobs[..k] + [job] + jobs[k + 1..];
    assert job !in jobs[..k] && job !in jobs[k + 1..];
  }

  /** No accepted job is lost, doubled, or both run and destroyed. */
  lemma EveryJobInOnePlace(cfg: Config, steps: seq<Step>, job: Job)
    requires Runs(Init(cfg), steps)
    requires job in QueueOf(After(Init(cfg), steps).pool.pushed, job.priority)
    ensures var s := After(Init(cfg), steps);
            multiset(QueueOf(s.pool.queues, job.priority))[job] + InHand(s.workers, job)
            + multiset(s.done)[job] + s.destroyed[job] == 1
  {
    RunKeepsInv(cfg, steps);
    var s, p := After(Init(cfg), steps), job.priority;
    assert NamedIn(s.calls, QueueOf(s.pool.pushed, p), p);
    CountOnce(QueueOf(s.pool.pushed, p), job);
    assert QueueOf(s.pool.pushed, p) == QueueOf(s.pool.removed, p) + QueueOf(s.pool.queues, p);
    assert multiset(QueueOf(s.pool.removed, p))[job] == multiset(s.taken)[job] + s.destroyed[job];
    assert multiset(s.taken)[job] == multiset(s.done)[job] + InHand(s.workers, job);
  }

  /** Nothing is destroyed unless `stop` is asked to stop immediately. */
  lemma GracefulDestroysNothing(cfg: Config, steps: seq<Step>)
    requires Runs(Init(cfg), steps) && Stop(true) !in steps
    ensures After(Init(cfg), steps).destroyed == multiset{}
  {
    var graceful := (s: State, t: Step) => Enabled(s, t) && t != Stop(true);
    var inv := (s: State) => s.destroyed == multiset{} && (s.holder.Stopper? ==> s.holder.cleared);
    R.Lacking(Enabled, graceful, Do, Init(cfg), steps, Stop(true));
    forall x, t | inv(x) && graceful(x, t) ensures inv(Do(x, t)) {
      GracefulStep(x, t);
    }
    R.Invariant(graceful, Do, inv, Init(cfg), steps);
  }

  lemma GracefulStep(s: State, step: Step)
    requires Enabled(s, step) && step != Stop(true)
    requires s.holder.Stopper? ==> s.holder.cleared
    ensures Do(s, step).destroyed == s.destroyed
    ensures Do(s, step).holder.Stopper? ==> Do(s, step).holder.cleared
  {
  }

  lemma EarlyIsRemoved(s: State, job: Job)
    requires Drain.Sealing(s) && Conserved(s.pool) && s.sealed.Some?
    requires !Drain.EarlyLeft(s, job.priority) && job in QueueOf(s.sealed.value, job.priority)
    ensures job in QueueOf(s.pool.removed, job.priority)
    ensures job in QueueOf(s.pool.pushed, job.priority)
  {
  }

  /** After `stop`, every job that was in before the pool was locked has come to
      its end exactly once: in every pool, if the stop was immediate, it was run
      or destroyed; if it was graceful and the priority is served and closed, it was run. */
  lemma StopSettlesEveryEarlyJob(cfg: Config, steps: seq<Step>, job: Job)
    requires Runs(Init(cfg), steps) && !After(Init(cfg), steps).working
    requires var s := After(Init(cfg), steps); s.sealed.Some? && job in QueueOf(s.sealed.value, job.priority)
    ensures var s := After(Init(cfg), steps);
            && (Stop(true) in steps ==> multiset(s.done)[job] + s.destroyed[job] == 1)
            && (Stop(true) !in steps && Drain.Served(cfg, job.priority) && Drain.Closed(cfg, job.priority) ==>
                  multiset(s.done)[job] == 1 && s.destroyed[job] == 0)
  {
    if Stop(true) in steps || (Drain.Served(cfg, job.priority) && Drain.Closed(cfg, job.priority)) {
      Drain.StopDrains(cfg, job.priority, steps);
      SettledOnce(cfg, steps, job);
    }
    if Stop(true) !in steps {
      GracefulDestroysNothing(cfg, steps);
    }
  }

  lemma SettledOnce(cfg: Config, steps: seq<Step>, job: Job)
    requires Runs(Init(cfg), steps) && !After(Init(cfg), steps).working
    requires var s := After(Init(cfg), steps); s.sealed.Some? && job in QueueOf(s.sealed.value, job.priority)
    requires !Drain.EarlyLeft(After(Init(cfg), steps), job.priority)
    ensures var s := After(Init(cfg), steps); multiset(s.done)[job] + s.destroyed[job] == 1
  {
    var s := After(Init(cfg), steps);
    Drain.RunKeepsStopping(cfg, steps);
    RunKeepsInv(cfg, steps);
    EarlyIsRemoved(s, job);
    EveryJobInOnePlace(cfg, steps, job);
    NothingInHand(s.workers, job);
    assert multiset(QueueOf(s.pool.removed, job.priority))[job] == multiset(s.taken)[job] + s.destroyed[job];
    assert multiset(QueueOf(s.pool.removed, job.priority))[job] > 0;
  }
}
