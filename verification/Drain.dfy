/** What `stop` leaves behind. Jobs that were in before `stop` locked the pool are
    gone from the queue of priority `p` when all workers have exited: always if the
    stop was immediate, and if it was graceful, provided that somebody serves `p`
    and that the workers who do share their queues among themselves only. */
module Drain {
  import opened Bytes
  import opened JobPool
  import opened PoolMachine
  import R = Runs

  predicate Serves(cfg: Config, w: nat, p: Priority) {
    w < |cfg| && p in cfg[w]
  }

  predicate Served(cfg: Config, p: Priority) {
    exists w :: 0 <= w < |cfg| && Serves(cfg, w, p)
  }

  /** A worker that serves `p`, one of its queues, and another worker on it that
      does not serve `p`. */
  predicate Leak(cfg: Config, p: Priority, w: nat, q: Priority, u: nat) {
    Serves(cfg, w, p) && Serves(cfg, w, q) && Serves(cfg, u, q) && !Serves(cfg, u, p)
  }

  predicate Closed(cfg: Config, p: Priority) {
    forall w, q, u :: 0 <= w < |cfg| && 0 <= u < |cfg| && q in PRIORITIES ==> !Leak(cfg, p, w, q, u)
  }

  /** Some job of priority `p` that was in when the pool was locked is still queued. */
  predicate EarlyLeft(s: State, p: Priority) {
    s.sealed.Some? && |QueueOf(s.pool.removed, p)| < |QueueOf(s.sealed.value, p)|
  }

  // ----- stop locks once, and joins one worker after the other -----

  predicate Sealing(s: State) {
    && (s.sealed.Some? ==> s.holder.Stopper? || !s.working)
    && (s.holder.Stopper? || !s.working ==> s.sealed.Some?)
    && (s.sealed.Some? ==> forall p :: QueueOf(s.sealed.value, p) <= QueueOf(s.pool.pushed, p))
    && (forall w :: 0 <= w < |s.workers| && (s.workers[w].stop || s.workers[w].pc.StopScanning?) ==> s.sealed.Some?)
  }

  predicate Joined(s: State) {
    && (s.holder.Stopper? ==>
          s.holder.next <= |s.workers| && forall w :: 0 <= w < s.holder.next ==> s.workers[w].pc.Exited?)
    && (!s.working ==> forall w :: 0 <= w < |s.workers| ==> s.workers[w].pc.Exited?)
  }

  lemma PushedGrows(h: History, op: Op, p: Priority)
    ensures QueueOf(h.pushed, p) <= QueueOf(Apply(h, op).pushed, p)
    ensures |QueueOf(h.removed, p)| <= |QueueOf(Apply(h, op).removed, p)|
  {
  }

  lemma WorkerFlags(s: State, step: Step, w: nat)
    requires Enabled(s, step) && w < |s.workers| && !step.Work?
    ensures |Do(s, step).workers| == |s.workers|
    ensures var (me, next) := (s.workers[w], Do(s, step).workers[w]);
            && next.priorities == me.priorities
            && (next.pc == me.pc || (me.pc.Asleep? && next.pc.AtTop?))
            && (next.stop ==> me.stop || s.holder.Stopper?)
  {
  }

  lemma WorkerPc(s: State, v: nat, w: nat)
    requires v < |s.workers| && w < |s.workers|
    ensures |DoWork(s, v).workers| == |s.workers|
    ensures var (me, next) := (s.workers[w], DoWork(s, v).workers[w]);
            && next == me.(pc := next.pc)
            && (v != w ==> next == me)
            && (next.pc.StopScanning? ==> me.stop || me.pc.StopScanning?)
            && (me.pc.Exited? ==> next.pc.Exited?)
  {
    assert DoWork(s, v).workers == s.workers[v := s.workers[v].(pc := DoWork(s, v).workers[v].pc)];
  }

  lemma SealingOfWorkers(s: State, step: Step)
    requires Sealing(s) && Enabled(s, step)
    ensures var t := Do(s, step);
            forall w :: 0 <= w < |t.workers| && (t.workers[w].stop || t.workers[w].pc.StopScanning?) ==> s.sealed.Some?
  {
    var t := Do(s, step);
    if step.Work? {
      WorkerPc(s, step.worker, step.worker);
      forall w | 0 <= w < |t.workers| && (t.workers[w].stop || t.workers[w].pc.StopScanning?)
        ensures s.sealed.Some?
      {
        WorkerPc(s, step.worker, w);
      }
    } else {
      forall w | 0 <= w < |t.workers| && (t.workers[w].stop || t.workers[w].pc.StopScanning?)
        ensures s.sealed.Some?
      {
        if w < |s.workers| {
          WorkerFlags(s, step, w);
        }
      }
    }
  }

  /** The fields that only `stop` changes. */
  lemma StopFields(s: State, step: Step)
    requires Enabled(s, step)
    ensures var t := Do(s, step);
            && t.sealed == (if step.Stop? then Some(s.pool.pushed) else s.sealed)
            && (t.working <==> s.working && !(step.Advance? && s.holder.Stopper? && t.holder == Nobody))
            && (t.holder.Stopper? <==> step.Stop? || (s.holder.Stopper? && !(step.Advance? && t.holder == Nobody)))
  {
  }

  lemma StepKeepsSealing(s: State, step: Step)
    requires Sealing(s) && Enabled(s, step)
    ensures Sealing(Do(s, step))
  {
    var t := Do(s, step);
    StopFields(s, step);
    SealingOfWorkers(s, step);
    PoolEffect(s, step);
    forall p | t.sealed.Some? ensures QueueOf(t.sealed.value, p) <= QueueOf(t.pool.pushed, p) {
      if PoolOp(s, step).Some? {
        PushedGrows(s.pool, PoolOp(s, step).value, p);
      }
    }
  }

  lemma ExitedStays(s: State, step: Step, w: nat)
    requires Enabled(s, step) && w < |s.workers| && s.workers[w].pc.Exited?
    ensures |Do(s, step).workers| == |s.workers| && Do(s, step).workers[w].pc.Exited?
  {
    if step.Work? {
      WorkerPc(s, step.worker, w);
    } else {
      WorkerFlags(s, step, w);
    }
  }

  lemma StopperNext(s: State, step: Step)
    requires Enabled(s, step)
    ensures var t := Do(s, step);
            && |t.workers| == |s.workers|
            && (t.holder.Stopper? ==>
                  || (step.Stop? && t.holder.next == 0)
                  || (s.holder.Stopper? && t.holder.next == s.holder.next)
                  || (s.holder.Stopper? && t.holder.next == s.holder.next + 1 && t.workers == s.workers
                      && s.holder.next < |s.workers| && s.workers[s.holder.next].pc.Exited?))
            && (!t.working && s.working ==> s.holder.Stopper? && s.holder.next >= |s.workers| && t.workers == s.workers)
  {
    if step.Work? {
      WorkerPc(s, step.worker, step.worker);
      assert Do(s, step).holder == s.holder && Do(s, step).working == s.working;
    }
  }

  lemma StepKeepsJoined(s: State, step: Step)
    requires Joined(s) && Enabled(s, step)
    ensures Joined(Do(s, step))
  {
    var t := Do(s, step);
    StopperNext(s, step);
    forall w | 0 <= w < |s.workers| && s.workers[w].pc.Exited? ensures t.workers[w].pc.Exited? {
      ExitedStays(s, step, w);
    }
  }

  // ----- somebody is always there to drain -----

  predicate Hopeful(pc: Pc) {
    pc.Popping? || (pc.Scanning? && pc.found) || (pc.StopScanning? && pc.found)
  }

  predicate HasWork(queues: Queues, me: Worker) {
    exists j :: 0 <= j < |me.priorities| && QueueOf(queues, me.priorities[j]) != []
  }

  /** The worker will look at its queues again before it leaves, or is about to
      pop and will get a job. */
  predicate Fresh(queues: Queues, me: Worker) {
    !me.pc.EmptyHanded? && !me.pc.Exited? && (Hopeful(me.pc) ==> HasWork(queues, me))
  }

  predicate Guarded(s: State, p: Priority) {
    exists w :: 0 <= w < |s.workers| && p in s.workers[w].priorities && Fresh(s.pool.queues, s.workers[w])
  }

  /** What a stopping worker has counted as empty holds no early job any more. */
  predicate Searched(s: State, me: Worker) {
    me.pc.StopScanning? && !me.pc.found ==>
      forall j :: 0 <= j < me.pc.next && j < |me.priorities| ==> !EarlyLeft(s, me.priorities[j])
  }

  predicate Draining(s: State, p: Priority) {
    && (s.sealed.None? || EarlyLeft(s, p) ==> Guarded(s, p))
    && forall w :: 0 <= w < |s.workers| ==> Searched(s, s.workers[w])
  }

  /** Early jobs leave and do not come back. */
  lemma EarlyShrinks(s: State, step: Step, p: Priority)
    requires Enabled(s, step) && s.sealed.Some? && !step.Stop? && EarlyLeft(Do(s, step), p)
    ensures EarlyLeft(s, p)
  {
    StopFields(s, step);
    PoolEffect(s, step);
    if PoolOp(s, step).Some? {
      PushedGrows(s.pool, PoolOp(s, step).value, p);
    }
  }

  /** Searched, for a worker that a step of another thread leaves alone or wakes. */
  lemma SearchedStays(s: State, step: Step, me: Worker, next: Worker)
    requires Sealing(s) && Enabled(s, step) && !step.Stop? && Searched(s, me)
    requires next.priorities == me.priorities && (next.pc.StopScanning? ==> next.pc == me.pc && s.sealed.Some?)
    ensures Searched(Do(s, step), next)
  {
    if next.pc.StopScanning? && !next.pc.found {
      forall j | 0 <= j < next.pc.next && j < |next.priorities| ensures !EarlyLeft(Do(s, step), next.priorities[j]) {
        if EarlyLeft(Do(s, step), next.priorities[j]) {
          EarlyShrinks(s, step, next.priorities[j]);
        }
      }
    }
  }

  lemma EmptyIsDrained(s: State, p: Priority)
    requires Sealing(s) && Conserved(s.pool) && QueueOf(s.pool.queues, p) == []
    ensures !EarlyLeft(s, p)
  {
  }

  /** Searched, for the worker that takes the step. */
  lemma NextPcSearched(s: State, me: Worker)
    requires Sealing(s) && Conserved(s.pool) && Searched(s, me)
    ensures Searched(s, me.(pc := NextPc(me, s.pool.queues)))
  {
    if me.pc.StopScanning? && me.pc.next < |me.priorities| && QueueOf(s.pool.queues, me.priorities[me.pc.next]) == [] {
      EmptyIsDrained(s, me.priorities[me.pc.next]);
    }
  }

  lemma SearchedOwn(s: State, w: nat)
    requires Sealing(s) && Conserved(s.pool) && w < |s.workers| && Searched(s, s.workers[w])
    ensures Searched(DoWork(s, w), DoWork(s, w).workers[w])
  {
    var me := s.workers[w];
    if !me.pc.Popping? && !me.pc.Working? {
      NextPcSearched(s, me);
      SearchedIsLocal(s, DoWork(s, w), me.(pc := NextPc(me, s.pool.queues)));
    }
  }

  lemma SearchedIsLocal(s: State, t: State, me: Worker)
    requires Searched(s, me) && t.pool == s.pool && t.sealed == s.sealed
    ensures Searched(t, me)
  {
  }

  lemma StepKeepsSearched(s: State, step: Step, w: nat)
    requires Sealing(s) && Conserved(s.pool) && Enabled(s, step) && w < |s.workers| && Searched(s, s.workers[w])
    ensures w < |Do(s, step).workers| && Searched(Do(s, step), Do(s, step).workers[w])
  {
    if step.Work? {
      WorkerPc(s, step.worker, w);
      if step.worker == w {
        SearchedOwn(s, w);
      } else {
        SearchedStays(s, step, s.workers[w], s.workers[w]);
      }
    } else {
      WorkerFlags(s, step, w);
      if step.Stop? {
        assert !s.workers[w].pc.StopScanning?;
      } else {
        SearchedStays(s, step, s.workers[w], Do(s, step).workers[w]);
      }
    }
  }

  /** Freshness survives more jobs and wake-ups. */
  lemma FreshStays(before: Queues, after: Queues, me: Worker, next: Worker)
    requires Fresh(before, me) && next.priorities == me.priorities
    requires next.pc == me.pc || (me.pc.Asleep? && next.pc.AtTop?)
    requires forall j :: 0 <= j < |me.priorities| && QueueOf(before, me.priorities[j]) != [] ==>
               QueueOf(after, me.priorities[j]) != []
    ensures Fresh(after, next)
  {
  }

  lemma OthersKeepGuard(s: State, step: Step, p: Priority)
    requires Guarded(s, p) && Enabled(s, step) && !step.Work?
    requires !(step.Advance? && s.holder.Stopper? && !s.holder.cleared)
    ensures Guarded(Do(s, step), p)
  {
    var t := Do(s, step);
    var w :| 0 <= w < |s.workers| && p in s.workers[w].priorities && Fresh(s.pool.queues, s.workers[w]);
    WorkerFlags(s, step, w);
    PoolEffect(s, step);
    FreshStays(s.pool.queues, t.pool.queues, s.workers[w], t.workers[w]);
  }

  /** A job that a worker outside the group takes is in no queue of the group. */
  lemma PopByOutsider(s: State, w: nat, x: nat, p: Priority, cfg: Config)
    requires Shaped(s, cfg) && Closed(cfg, p) && w < |cfg| && x < |cfg| && x != w
    requires Serves(cfg, x, p) && !Serves(cfg, w, p)
    requires Fresh(s.pool.queues, s.workers[x])
    ensures Fresh(PopFrom(s.pool.queues, cfg[w]).queues, s.workers[x])
  {
    var popped := PopFrom(s.pool.queues, cfg[w]);
    PopTakesHead(s.pool.queues, cfg[w]);
    if popped.job.Some? {
      var k :| 0 <= k < |cfg[w]| && TookHead(s.pool.queues, popped, cfg[w][k]);
      var q := cfg[w][k];
      EveryPriority(q);
      assert !Leak(cfg, p, x, q, w);
      assert q !in cfg[x];
      FreshStays(s.pool.queues, popped.queues, s.workers[x], s.workers[x]);
    }
  }

  /** A fresh worker that is about to pop gets a job. */
  lemma FreshPopGetsJob(queues: Queues, me: Worker)
    requires Fresh(queues, me) && me.pc.Popping?
    ensures PopFrom(queues, me.priorities).job.Some?
  {
    PopTakesHead(queues, me.priorities);
  }

  /** A worker that serves `p` and pops has work in its own hands, or had none. */
  lemma PopKeepsGuard(s: State, w: nat, p: Priority, cfg: Config)
    requires Shaped(s, cfg) && Closed(cfg, p) && Guarded(s, p)
    requires w < |s.workers| && s.workers[w].pc.Popping?
    ensures Guarded(DoPop(s, w), p)
  {
    var t, popped := DoPop(s, w), PopFrom(s.pool.queues, cfg[w]);
    assert t.pool.queues == popped.queues by { PopTakesHead(s.pool.queues, cfg[w]); }
    var x :| 0 <= x < |s.workers| && p in s.workers[x].priorities && Fresh(s.pool.queues, s.workers[x]);
    if x == w {
      FreshPopGetsJob(s.pool.queues, s.workers[w]);
    }
    if popped.job.Some? && p in cfg[w] {
      PoppedIsFresh(s, w);
      assert p in t.workers[w].priorities && Fresh(t.pool.queues, t.workers[w]);
    } else {
      assert t.workers[x] == s.workers[x];
      if popped.job.Some? {
        PopByOutsider(s, w, x, p, cfg);
      }
      assert Fresh(t.pool.queues, t.workers[x]);
    }
  }

  lemma PoppedIsFresh(s: State, w: nat)
    requires w < |s.workers| && s.workers[w].pc.Popping?
    requires PopFrom(s.pool.queues, s.workers[w].priorities).job.Some?
    ensures Fresh(DoPop(s, w).pool.queues, DoPop(s, w).workers[w])
    ensures DoPop(s, w).workers[w].priorities == s.workers[w].priorities
  {
  }

  lemma EveryPriority(p: Priority)
    ensures p in PRIORITIES
  {
  }

  /** A worker stays fresh through its own steps, until it leaves. */
  lemma NextPcIsFresh(queues: Queues, me: Worker)
    requires Fresh(queues, me) && !me.pc.Popping? && !me.pc.Working?
    ensures var next := me.(pc := NextPc(me, queues));
            Fresh(queues, next) || (next.pc.Exited? && me.pc.StopScanning? && !me.pc.found && |me.priorities| <= me.pc.next)
  {
  }

  /** Having counted all its queues as empty, it leaves no early job behind. */
  lemma LeavingIsDrained(s: State, w: nat, p: Priority)
    requires Sealing(s) && w < |s.workers| && Searched(s, s.workers[w]) && p in s.workers[w].priorities
    requires s.workers[w].pc.StopScanning? && !s.workers[w].pc.found
    requires |s.workers[w].priorities| <= s.workers[w].pc.next
    ensures s.sealed.Some? && !EarlyLeft(s, p)
  {
  }

  lemma OwnStepKeepsFresh(s: State, w: nat, p: Priority)
    requires Sealing(s) && w < |s.workers| && Searched(s, s.workers[w]) && p in s.workers[w].priorities
    requires Fresh(s.pool.queues, s.workers[w]) && !s.workers[w].pc.Popping?
    ensures Fresh(s.pool.queues, DoWork(s, w).workers[w]) || (s.sealed.Some? && !EarlyLeft(s, p))
  {
    var me := s.workers[w];
    if !me.pc.Working? {
      NextPcIsFresh(s.pool.queues, me);
      if me.pc.StopScanning? && !me.pc.found && |me.priorities| <= me.pc.next {
        LeavingIsDrained(s, w, p);
      }
    }
  }

  lemma WorkKeepsGuard(s: State, w: nat, p: Priority, cfg: Config)
    requires Shaped(s, cfg) && Closed(cfg, p) && Sealing(s) && Draining(s, p)
    requires w < |s.workers| && (s.sealed.None? || EarlyLeft(s, p))
    ensures Guarded(DoWork(s, w), p)
  {
    if s.workers[w].pc.Popping? {
      PopKeepsGuard(s, w, p, cfg);
    } else {
      var x :| 0 <= x < |s.workers| && p in s.workers[x].priorities && Fresh(s.pool.queues, s.workers[x]);
      if x == w {
        OwnStepKeepsFresh(s, w, p);
      }
      WorkerPc(s, w, x);
      var t := DoWork(s, w);
      assert t.pool == s.pool;
      assert Fresh(t.pool.queues, t.workers[x]);
    }
  }

  /** Clearing every queue takes the early jobs too. */
  lemma ClearDrains(s: State, p: Priority)
    requires Sealing(s) && Conserved(s.pool) && s.holder.Stopper?
    ensures !EarlyLeft(DoClear(s), p)
  {
  }

  lemma StepKeepsDraining(s: State, step: Step, p: Priority, cfg: Config)
    requires Shaped(s, cfg) && Closed(cfg, p) && Conserved(s.pool) && Sealing(s) && Draining(s, p)
    requires Enabled(s, step)
    ensures Draining(Do(s, step), p)
  {
    var t := Do(s, step);
    StepKeepsShape(s, step, cfg);
    forall w | 0 <= w < |t.workers| ensures Searched(t, t.workers[w]) {
      StepKeepsSearched(s, step, w);
    }
    StopFields(s, step);
    if t.sealed.None? || EarlyLeft(t, p) {
      if s.sealed.Some? && !step.Stop? {
        EarlyShrinks(s, step, p);
      }
      if step.Work? {
        WorkKeepsGuard(s, step.worker, p, cfg);
      } else if step.Advance? && s.holder.Stopper? && !s.holder.cleared {
        ClearDrains(s, p);
      } else {
        OthersKeepGuard(s, step, p);
      }
    }
  }

  // ----- every run -----

  ghost predicate Inv(s: State, p: Priority, cfg: Config) {
    Shaped(s, cfg) && Conserved(s.pool) && Sealing(s) && Joined(s) && Draining(s, p)
  }

  lemma InitInv(cfg: Config, p: Priority)
    requires Served(cfg, p)
    ensures Inv(Init(cfg), p, cfg)
  {
  }

  lemma RunKeepsInv(cfg: Config, p: Priority, steps: seq<Step>)
    requires Served(cfg, p) && Closed(cfg, p) && Runs(Init(cfg), steps)
    ensures Inv(After(Init(cfg), steps), p, cfg)
  {
    var inv := (s: State) => Inv(s, p, cfg);
    InitInv(cfg, p);
    forall x, t | inv(x) && Enabled(x, t) ensures inv(Do(x, t)) {
      StepKeepsShape(x, t, cfg);
      StepConserves(x, t);
      StepKeepsSealing(x, t);
      StepKeepsJoined(x, t);
      StepKeepsDraining(x, t, p, cfg);
    }
    R.Invariant(Enabled, Do, inv, Init(cfg), steps);
  }

  /** What holds of `stop` in every pool. */
  ghost predicate Stopping(s: State) {
    Conserved(s.pool) && Sealing(s) && Joined(s)
  }

  lemma RunKeepsStopping(cfg: Config, steps: seq<Step>)
    requires Runs(Init(cfg), steps)
    ensures Stopping(After(Init(cfg), steps))
  {
    var inv := (s: State) => Stopping(s);
    forall x, t | inv(x) && Enabled(x, t) ensures inv(Do(x, t)) {
      StepConserves(x, t);
      StepKeepsSealing(x, t);
      StepKeepsJoined(x, t);
    }
    R.Invariant(Enabled, Do, inv, Init(cfg), steps);
  }

  // ----- an immediate stop -----

  /** From the lock on, an immediate stop either is about to clear the queues, or
      has left no early job of any priority. */
  ghost predicate Clearing(s: State) {
    && (s.sealed.Some? ==> (s.holder.Stopper? && !s.holder.cleared) || forall p :: !EarlyLeft(s, p))
    && (s.holder.Stopper? ==> s.working)
  }

  lemma StepKeepsClearing(s: State, step: Step)
    requires Stopping(s) && Clearing(s) && Enabled(s, step) && step != Stop(false)
    ensures Clearing(Do(s, step))
  {
    var t := Do(s, step);
    StopFields(s, step);
    if s.sealed.Some? && s.holder.Stopper? && !s.holder.cleared && step.Advance? {
      forall p ensures !EarlyLeft(t, p) {
        ClearDrains(s, p);
      }
    } else if s.sealed.Some? && !step.Stop? {
      HolderStays(s, step);
      forall p | !EarlyLeft(s, p) ensures !EarlyLeft(t, p) {
        if EarlyLeft(t, p) {
          EarlyShrinks(s, step, p);
        }
      }
    }
  }

  /** Only `stop` itself goes on to clear and to join. */
  lemma HolderStays(s: State, step: Step)
    requires Enabled(s, step) && !step.Stop?
    ensures s.holder.Stopper? && !step.Advance? ==> Do(s, step).holder == s.holder
  {
  }

  lemma ImmediateStopDrains(cfg: Config, p: Priority, steps: seq<Step>)
    requires Runs(Init(cfg), steps) && Stop(false) !in steps && !After(Init(cfg), steps).working
    ensures !EarlyLeft(After(Init(cfg), steps), p)
  {
    var immediate := (s: State, t: Step) => Enabled(s, t) && t != Stop(false);
    var inv := (s: State) => Stopping(s) && Clearing(s);
    R.Lacking(Enabled, immediate, Do, Init(cfg), steps, Stop(false));
    forall x, t | inv(x) && immediate(x, t) ensures inv(Do(x, t)) {
      StepConserves(x, t);
      StepKeepsSealing(x, t);
      StepKeepsJoined(x, t);
      StepKeepsClearing(x, t);
    }
    R.Invariant(immediate, Do, inv, Init(cfg), steps);
  }

  // ----- there is one stop -----

  lemma {:induction false} NoStopOnceSealed(s: State, steps: seq<Step>, immediate: bool)
    requires Sealing(s) && s.sealed.Some? && Runs(s, steps)
    ensures Stop(immediate) !in steps
    decreases |steps|
  {
    if steps != [] {
      StepKeepsSealing(s, steps[0]);
      StopFields(s, steps[0]);
      NoStopOnceSealed(Do(s, steps[0]), steps[1..], immediate);
      assert forall t :: t in steps ==> t == steps[0] || t in steps[1..];
    }
  }

  /** A run has an immediate stop or a graceful one, but not both. */
  lemma {:induction false} OneKindOfStop(s: State, steps: seq<Step>)
    requires Sealing(s) && Runs(s, steps)
    ensures Stop(true) in steps ==> Stop(false) !in steps
    decreases |steps|
  {
    if steps != [] {
      StepKeepsSealing(s, steps[0]);
      if steps[0].Stop? {
        NoStopOnceSealed(Do(s, steps[0]), steps[1..], false);
        NoStopOnceSealed(Do(s, steps[0]), steps[1..], true);
      } else {
        OneKindOfStop(Do(s, steps[0]), steps[1..]);
      }
      assert forall t :: t in steps ==> t == steps[0] || t in steps[1..];
    }
  }

  /** When `stop` has returned, no job of priority `p` that was in before it locked
      the pool is still queued: in every pool if the stop was immediate, and for a
      served and closed priority however it was. */
  lemma StopDrains(cfg: Config, p: Priority, steps: seq<Step>)
    requires Runs(Init(cfg), steps) && !After(Init(cfg), steps).working
    requires Stop(true) in steps || (Served(cfg, p) && Closed(cfg, p))
    ensures !EarlyLeft(After(Init(cfg), steps), p)
  {
    if Stop(true) in steps {
      OneKindOfStop(Init(cfg), steps);
      ImmediateStopDrains(cfg, p, steps);
    } else {
      RunKeepsInv(cfg, p, steps);
    }
  }
}
