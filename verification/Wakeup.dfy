/** No lost wakeup: a worker never sleeps over a job in one of its queues without
    a push being under way that will still notify it. */
module Wakeup {
  import opened Bytes
  import opened JobPool
  import opened PoolMachine
  import R = Runs

  /** How many of its queues a worker has counted as empty without having let go
      of its mutex, other than by falling asleep. */
  function Seen(me: Worker): nat {
    match me.pc
    case Asleep => if me.pause then 0 else |me.priorities|
    case Scanning(next, found) => if found then 0 else Min(next, |me.priorities|)
    case _ => 0
  }

  /** The push still has worker `w` in front of it. */
  predicate Owes(call: Call, p: Priority, w: nat) {
    match call
    case Inserted(q) => q == p
    case Announcing(q, next) => q == p && next <= w
    case _ => false
  }

  predicate Told(calls: seq<Call>, p: Priority, w: nat) {
    exists k :: 0 <= k < |calls| && Owes(calls[k], p, w)
  }

  predicate SafeWorker(queues: Queues, calls: seq<Call>, me: Worker, w: nat) {
    && (me.pc.Asleep? || me.pc.Scanning? ==> !me.stop)
    && forall j :: 0 <= j < Seen(me) ==>
         QueueOf(queues, me.priorities[j]) == [] || Told(calls, me.priorities[j], w)
  }

  predicate Safe(s: State) {
    forall w :: 0 <= w < |s.workers| ==> SafeWorker(s.pool.queues, s.calls, s.workers[w], w)
  }

  // ----- what the steps keep -----

  lemma ToldStays(calls: seq<Call>, k: nat, call: Call, p: Priority, w: nat)
    requires k < |calls| && Told(calls, p, w)
    requires Owes(calls[k], p, w) ==> Owes(call, p, w)
    ensures Told(calls[k := call], p, w)
  {
    var m :| 0 <= m < |calls| && Owes(calls[m], p, w);
    assert Owes(calls[k := call][m], p, w);
  }

  lemma EnterKeepsSafe(s: State, p: Priority)
    requires Safe(s)
    ensures Safe(s.(calls := s.calls + [Entered(Job(|s.calls|, p))]))
  {
    var calls := s.calls + [Entered(Job(|s.calls|, p))];
    forall q, w | Told(s.calls, q, w) ensures Told(calls, q, w) {
      var m :| 0 <= m < |s.calls| && Owes(s.calls[m], q, w);
      assert Owes(calls[m], q, w);
    }
  }

  lemma InsertKeepsSafe(s: State, k: nat)
    requires Safe(s) && k < |s.calls| && s.calls[k].Entered?
    ensures Safe(DoInsert(s, k))
  {
    var job := s.calls[k].job;
    var calls, queues := s.calls[k := Inserted(job.priority)], Enqueue(s.pool.queues, job);
    assert Owes(calls[k], job.priority, 0);
    forall w | 0 <= w < |s.workers| ensures SafeWorker(queues, calls, s.workers[w], w) {
      var me := s.workers[w];
      assert SafeWorker(s.pool.queues, s.calls, me, w);
      forall j | 0 <= j < Seen(me)
        ensures QueueOf(queues, me.priorities[j]) == [] || Told(calls, me.priorities[j], w)
      {
        if me.priorities[j] == job.priority {
          assert Owes(calls[k], me.priorities[j], w);
        } else if Told(s.calls, me.priorities[j], w) {
          ToldStays(s.calls, k, Inserted(job.priority), me.priorities[j], w);
        }
      }
    }
  }

  lemma ClaimKeepsSafe(s: State, k: nat)
    requires Safe(s) && k < |s.calls| && s.calls[k].Inserted?
    ensures Safe(s.(holder := Notifier(k), calls := s.calls[k := Announcing(s.calls[k].priority, 0)]))
  {
    forall p, w: nat | Told(s.calls, p, w) ensures Told(s.calls[k := Announcing(s.calls[k].priority, 0)], p, w) {
      ToldStays(s.calls, k, Announcing(s.calls[k].priority, 0), p, w);
    }
  }

  /** The worker just passed by has nothing left to be told by this push. */
  lemma NotifyKeepsSafe(s: State, k: nat)
    requires Safe(s) && k < |s.calls| && s.calls[k].Announcing?
    requires Wanted(s, s.calls[k].next, s.calls[k].priority) ==> MutexFree(s, s.calls[k].next)
    ensures Safe(DoNotify(s, k))
  {
    var i, p, after := s.calls[k].next, s.calls[k].priority, DoNotify(s, k);
    forall w | 0 <= w < |s.workers| ensures SafeWorker(after.pool.queues, after.calls, after.workers[w], w) {
      var me := s.workers[w];
      assert SafeWorker(s.pool.queues, s.calls, me, w);
      forall j | 0 <= j < Seen(after.workers[w])
        ensures QueueOf(s.pool.queues, me.priorities[j]) == [] || Told(after.calls, me.priorities[j], w)
      {
        var q := me.priorities[j];
        if Told(s.calls, q, w) {
          ToldStays(s.calls, k, after.calls[k], q, w);
        }
      }
    }
  }

  /** Changing a flag of a worker under its mutex wakes it. */
  lemma FlagKeepsSafe(s: State, i: nat, me: Worker)
    requires Safe(s) && i < |s.workers| && !me.pc.Asleep? && !me.pc.Scanning?
    ensures Safe(s.(workers := s.workers[i := me]))
  {
  }

  /** Safe speaks about the workers, the queues and the calls only. */
  lemma SafeIsLocal(s: State, t: State)
    requires Safe(s) && t.workers == s.workers && t.pool.queues == s.pool.queues && t.calls == s.calls
    ensures Safe(t)
  {
  }

  lemma PauseKeepsSafe(s: State, i: nat, flag: bool)
    requires Safe(s) && MutexFree(s, i)
    ensures Safe(DoPause(s, i, flag))
  {
  }

  lemma StopKeepsSafe(s: State, immediate: bool, i: nat, joining: bool)
    requires Safe(s) && (joining || MutexFree(s, i))
    ensures Safe(DoStop(s, immediate, i, joining))
  {
  }

  predicate Shrunk(before: Queues, after: Queues) {
    forall p :: QueueOf(before, p) == [] ==> QueueOf(after, p) == []
  }

  lemma ShrinkKeepsSafe(s: State, pool: History)
    requires Safe(s) && Shrunk(s.pool.queues, pool.queues)
    ensures Safe(s.(pool := pool))
  {
  }

  lemma PopShrinks(h: History, priorities: seq<Priority>)
    ensures Shrunk(h.queues, Apply(h, Op.Pop(priorities)).queues)
  {
  }

  lemma OwnStepKeepsSafe(s: State, w: nat)
    requires Safe(s) && w < |s.workers|
    ensures Safe(SetPc(s, w, NextPc(s.workers[w], s.pool.queues)))
  {
  }

  lemma WorkKeepsSafe(s: State, w: nat)
    requires Safe(s) && w < |s.workers|
    ensures Safe(DoWork(s, w))
  {
    if s.workers[w].pc.Popping? {
      var priorities := s.workers[w].priorities;
      var job := PopFrom(s.pool.queues, priorities).job;
      if job.None? {
        FlagKeepsSafe(s, w, s.workers[w].(pc := EmptyHanded));
      } else {
        FlagKeepsSafe(s, w, s.workers[w].(pc := Working(job.value)));
        var t := SetPc(s, w, Working(job.value));
        PopShrinks(s.pool, priorities);
        ShrinkKeepsSafe(t, Apply(s.pool, Op.Pop(priorities)));
        SafeIsLocal(t.(pool := Apply(s.pool, Op.Pop(priorities))), DoPop(s, w));
      }
    } else if s.workers[w].pc.Working? {
      FlagKeepsSafe(s, w, s.workers[w].(pc := AtTop));
      SafeIsLocal(SetPc(s, w, AtTop), DoFinish(s, w));
    } else {
      OwnStepKeepsSafe(s, w);
    }
  }

  lemma AdvanceKeepsSafe(s: State)
    requires Safe(s) && CanAdvance(s)
    ensures Safe(Do(s, Advance))
  {
    match s.holder
    case Notifier(k) => NotifyKeepsSafe(s, k);
    case Pauser(i, flag) => PauseKeepsSafe(s, i, flag);
    case Stopper(immediate, cleared, i, joining) =>
      if cleared {
        StopKeepsSafe(s, immediate, i, joining);
      } else {
        ShrinkKeepsSafe(s, Apply(s.pool, Clear));
        SafeIsLocal(s.(pool := Apply(s.pool, Clear)), DoClear(s));
      }
  }

  lemma StepKeepsSafe(s: State, step: Step)
    requires Safe(s) && Enabled(s, step)
    ensures Safe(Do(s, step))
  {
    match step
    case Enter(p) => EnterKeepsSafe(s, p);
    case Insert(k) => InsertKeepsSafe(s, k);
    case Claim(k) => ClaimKeepsSafe(s, k);
    case Pause(_) => SafeIsLocal(s, Do(s, step));
    case Stop(_) => SafeIsLocal(s, Do(s, step));
    case Advance => AdvanceKeepsSafe(s);
    case Work(w) => WorkKeepsSafe(s, w);
  }

  /** In every state of every run: a worker asleep, not paused, with a job in a
      queue of its list, still has a notification coming, and was not told to
      stop. */
  lemma NoLostWakeup(cfg: Config, steps: seq<Step>, w: nat, p: Priority)
    requires Runs(Init(cfg), steps)
    requires w < |After(Init(cfg), steps).workers|
    requires var s := After(Init(cfg), steps);
             && s.workers[w].pc.Asleep? && !s.workers[w].pause
             && p in s.workers[w].priorities && QueueOf(s.pool.queues, p) != []
    ensures var s := After(Init(cfg), steps);
            !s.workers[w].stop && Told(s.calls, p, w)
  {
    var inv := (s: State) => Safe(s);
    forall x, t | inv(x) && Enabled(x, t) ensures inv(Do(x, t)) {
      StepKeepsSafe(x, t);
    }
    R.Invariant(Enabled, Do, inv, Init(cfg), steps);
    var s := After(Init(cfg), steps);
    assert SafeWorker(s.pool.queues, s.calls, s.workers[w], w);
    var j :| 0 <= j < |s.workers[w].priorities| && s.workers[w].priorities[j] == p;
    assert j < Seen(s.workers[w]);
  }
}
