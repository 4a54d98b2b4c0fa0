/** ThreadPool/ThreadWorker.cpp, ThreadPool/ThreadPool.cpp and the calls of
    ThreadPool/JobPool.cpp they race with, as interleaved atomic steps. A step is
    what happens between two points at which another thread can be seen: one
    lock-protected section, or one test of an atomic flag.

    Every worker has its own mutex and condition variable; it holds the mutex
    while it evaluates the wait condition and until it has popped. The mutex of
    the thread pool is held during notify_callback, pause and stop. */
module PoolMachine {
  import opened Bytes
  import opened JobPool
  import R = Runs

  // ----- the state -----

  /** Where a worker's `run` loop is. */
  datatype Pc =
    | AtTop                              // about to lock its mutex, at the loop's start or woken
    | Scanning(next: nat, found: bool)   // in the wait condition, counting queue after queue
    | Asleep                             // in condition_.wait
    | StopScanning(next: nat, found: bool) // told to stop, counting whether jobs are left
    | Popping                            // about to pop
    | EmptyHanded                        // popped nothing, mutex released, about to test thread_stop_
    | Working(job: Job)
    | Exited

  datatype Worker = Worker(priorities: seq<Priority>, pc: Pc, stop: bool, pause: bool) {
    predicate HoldsMutex() { pc.Scanning? || pc.StopScanning? || pc.Popping? }

    /** `condition_.notify_one` */
    function Notified(): Worker { if pc.Asleep? then this.(pc := AtTop) else this }
  }

  /** A call of JobPool::push that has passed the lock test. */
  datatype Call =
    | Entered(job: Job)
    | Inserted(priority: Priority)                   // in the queue, waits for the pool's mutex
    | Announcing(priority: Priority, next: nat)      // in notify_callback, at worker `next`
    | Returned

  /** Who holds the mutex of the thread pool. */
  datatype Holder =
    | Nobody
    | Notifier(call: nat)
    | Pauser(next: nat, flag: bool)
    | Stopper(immediate: bool, cleared: bool, next: nat, joining: bool)

  /** `sealed` remembers how many jobs of each priority were in when `stop` locked
      the pool; `taken` and `done` are the jobs popped and finished, in order. */
  datatype State = State(
    workers: seq<Worker>,
    pool: History,
    locked: bool,
    calls: seq<Call>,
    holder: Holder,
    working: bool,
    sealed: Option<Queues>,
    taken: seq<Job>,
    done: seq<Job>,
    destroyed: multiset<Job>)

  /** The priority lists of the started workers; `start` refuses an empty list. */
  type Config = lists: seq<seq<Priority>> | forall w :: 0 <= w < |lists| ==> lists[w] != []

  function Init(cfg: Config): State {
    State(seq(|cfg|, w requires 0 <= w < |cfg| => Worker(cfg[w], AtTop, false, false)),
          EMPTY, false, [], Nobody, true, None, [], [], multiset{})
  }

  // ----- the steps -----

  datatype Step =
    | Enter(priority: Priority)   // a push passes the lock test
    | Insert(call: nat)           // and puts its job into the queue
    | Claim(call: nat)            // and gets the pool's mutex for notify_callback
    | Pause(flag: bool)           // pause gets the pool's mutex
    | Stop(immediate: bool)       // stop gets it and locks the queue
    | Advance                     // whoever holds the pool's mutex goes on
    | Work(worker: nat)           // a worker goes on, or wakes without a reason

  predicate Enabled(s: State, step: Step) {
    match step
    case Enter(_) => !s.locked
    case Insert(k) => k < |s.calls| && s.calls[k].Entered?
    case Claim(k) => k < |s.calls| && s.calls[k].Inserted? && s.holder == Nobody
    case Pause(_) => s.holder == Nobody
    case Stop(_) => s.holder == Nobody && s.working
    case Advance => CanAdvance(s)
    case Work(w) => w < |s.workers| && !s.workers[w].pc.Exited?
  }

  /** The state after an enabled step; any other step changes nothing. */
  function Do(s: State, step: Step): State {
    if !Enabled(s, step) then s else
    match step
    case Enter(p) => s.(calls := s.calls + [Entered(Job(|s.calls|, p))])
    case Insert(k) => DoInsert(s, k)
    case Claim(k) => s.(holder := Notifier(k), calls := s.calls[k := Announcing(s.calls[k].priority, 0)])
    case Pause(flag) => s.(holder := Pauser(0, flag))
    case Stop(immediate) =>
      s.(holder := Stopper(immediate, !immediate, 0, false), locked := true, sealed := Some(s.pool.pushed))
    case Advance =>
      (match s.holder
       case Notifier(k) => DoNotify(s, k)
       case Pauser(i, flag) => DoPause(s, i, flag)
       case Stopper(immediate, cleared, i, joining) =>
         if !cleared then DoClear(s) else DoStop(s, immediate, i, joining))
    case Work(w) => DoWork(s, w)
  }

  /** The mutex of worker `i`, if it is wanted, is free. */
  predicate MutexFree(s: State, i: nat) {
    i < |s.workers| ==> !s.workers[i].HoldsMutex()
  }

  predicate CanAdvance(s: State) {
    match s.holder
    case Nobody => false
    case Notifier(k) =>
      && k < |s.calls|
      && s.calls[k].Announcing?
      && (Wanted(s, s.calls[k].next, s.calls[k].priority) ==> MutexFree(s, s.calls[k].next))
    case Pauser(i, _) => MutexFree(s, i)
    case Stopper(_, cleared, i, joining) =>
      if !cleared then true
      else if joining then i < |s.workers| && s.workers[i].pc.Exited?
      else MutexFree(s, i)
  }

  predicate Wanted(s: State, i: nat, p: Priority) {
    i < |s.workers| && p in s.workers[i].priorities
  }

  function DoInsert(s: State, k: nat): State
    requires k < |s.calls| && s.calls[k].Entered?
  {
    s.(pool := Apply(s.pool, Op.Push(s.calls[k].job)), calls := s.calls[k := Inserted(s.calls[k].job.priority)])
  }

  /** One turn of the loop of notify_callback, or its end. */
  function DoNotify(s: State, k: nat): State
    requires k < |s.calls| && s.calls[k].Announcing?
  {
    var i, p := s.calls[k].next, s.calls[k].priority;
    if i >= |s.workers| then s.(calls := s.calls[k := Returned], holder := Nobody)
    else
      s.(calls := s.calls[k := Announcing(p, i + 1)],
         workers := if p in s.workers[i].priorities then s.workers[i := s.workers[i].Notified()] else s.workers)
  }

  /** One turn of the loop of pause, or its end. */
  function DoPause(s: State, i: nat, flag: bool): State {
    if i >= |s.workers| then s.(holder := Nobody)
    else s.(workers := s.workers[i := s.workers[i].(pause := flag).Notified()], holder := Pauser(i + 1, flag))
  }

  function DoClear(s: State): State
    requires s.holder.Stopper?
  {
    s.(pool := Apply(s.pool, Op.Clear), destroyed := s.destroyed + QueuedJobs(s.pool.queues),
       holder := s.holder.(cleared := true))
  }

  /** One half turn of the loop of stop, setting the flag or having joined, or
      the loop's end. */
  function DoStop(s: State, immediate: bool, i: nat, joining: bool): State {
    if joining then s.(holder := Stopper(immediate, true, i + 1, false))
    else if i >= |s.workers| then s.(holder := Nobody, locked := false, working := false)
    else
      s.(workers := s.workers[i := s.workers[i].(stop := true).Notified()],
         holder := Stopper(immediate, true, i, true))
  }

  function QueuedJobs(queues: Queues): multiset<Job> {
    multiset(QueueOf(queues, Top)) + multiset(QueueOf(queues, High)) + multiset(QueueOf(queues, Normal))
    + multiset(QueueOf(queues, Low)) + multiset(QueueOf(queues, LongTerm))
  }

  function SetPc(s: State, w: nat, pc: Pc): State
    requires w < |s.workers|
  {
    s.(workers := s.workers[w := s.workers[w].(pc := pc)])
  }

  function DoWork(s: State, w: nat): State
    requires w < |s.workers|
  {
    if s.workers[w].pc.Popping? then DoPop(s, w)
    else if s.workers[w].pc.Working? then DoFinish(s, w)
    else SetPc(s, w, NextPc(s.workers[w], s.pool.queues))
  }

  /** The steps of a worker that only it can see. */
  function NextPc(me: Worker, queues: Queues): Pc {
    match me.pc
    case AtTop => if me.stop then StopScanning(0, false) else if me.pause then Asleep else Scanning(0, false)
    case Asleep => AtTop
    case Scanning(k, found) =>
      if k < |me.priorities| then Scanning(k + 1, found || QueueOf(queues, me.priorities[k]) != [])
      else if found then Popping else Asleep
    case StopScanning(k, found) =>
      if k < |me.priorities| then StopScanning(k + 1, found || QueueOf(queues, me.priorities[k]) != [])
      else if found then Popping else Exited
    case EmptyHanded => if me.stop then Exited else AtTop
    case _ => me.pc
  }

  function DoPop(s: State, w: nat): State
    requires w < |s.workers|
  {
    var job := PopFrom(s.pool.queues, s.workers[w].priorities).job;
    if job.None? then SetPc(s, w, EmptyHanded)
    else SetPc(s, w, Working(job.value)).(
           pool := Apply(s.pool, Op.Pop(s.workers[w].priorities)), taken := s.taken + [job.value])
  }

  function DoFinish(s: State, w: nat): State
    requires w < |s.workers| && s.workers[w].pc.Working?
  {
    SetPc(s, w, AtTop).(done := s.done + [s.workers[w].pc.job])
  }

  // ----- runs -----

  predicate Runs(s: State, steps: seq<Step>) {
    R.Valid(Enabled, Do, s, steps)
  }

  function After(s: State, steps: seq<Step>): State {
    R.After(Do, s, steps)
  }

  // ----- what never changes -----

  /** The workers keep their lists, and the pool's mutex and the calls agree. */
  predicate Shaped(s: State, cfg: Config) {
    && |s.workers| == |cfg|
    && (forall w :: 0 <= w < |cfg| ==> s.workers[w].priorities == cfg[w])
    && (forall k :: 0 <= k < |s.calls| && s.calls[k].Announcing? ==> s.holder == Notifier(k))
  }

  lemma WorkKeepsShape(s: State, w: nat, cfg: Config)
    requires Shaped(s, cfg) && w < |s.workers|
    ensures Shaped(DoWork(s, w), cfg)
  {
    assert DoWork(s, w).calls == s.calls && DoWork(s, w).holder == s.holder;
    assert exists pc :: DoWork(s, w).workers == s.workers[w := s.workers[w].(pc := pc)];
  }

  lemma AdvanceKeepsShape(s: State, cfg: Config)
    requires Shaped(s, cfg) && CanAdvance(s)
    ensures Shaped(Do(s, Advance), cfg)
  {
  }

  lemma StepKeepsShape(s: State, step: Step, cfg: Config)
    requires Shaped(s, cfg) && Enabled(s, step)
    ensures Shaped(Do(s, step), cfg)
  {
    match step
    case Advance => AdvanceKeepsShape(s, cfg);
    case Work(w) => WorkKeepsShape(s, w, cfg);
    case _ =>
  }

  /** What a step does to the queues. */
  function PoolOp(s: State, step: Step): Option<Op> {
    match step
    case Insert(k) =>
      if k < |s.calls| && s.calls[k].Entered? then Some(Op.Push(s.calls[k].job)) else None
    case Advance => if s.holder.Stopper? && !s.holder.cleared then Some(Clear) else None
    case Work(w) =>
      if w < |s.workers| && s.workers[w].pc.Popping? then Some(Op.Pop(s.workers[w].priorities)) else None
    case _ => None
  }

  lemma PoolEffect(s: State, step: Step)
    requires Enabled(s, step)
    ensures match PoolOp(s, step)
            case None => Do(s, step).pool == s.pool
            case Some(op) => Do(s, step).pool == Apply(s.pool, op)
  {
  }

  lemma StepConserves(s: State, step: Step)
    requires Conserved(s.pool) && Enabled(s, step)
    ensures Conserved(Do(s, step).pool)
  {
    PoolEffect(s, step);
    var op := PoolOp(s, step);
    if op.Some? {
      ApplyConserves(s.pool, op.value);
    }
  }
}
