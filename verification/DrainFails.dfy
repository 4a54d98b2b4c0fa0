/** The other half of Drain: whenever a worker that serves `p` shares a queue with
    a worker that does not, there is a run in which a graceful `stop` returns and
    leaves a job of priority `p` behind that was in before the pool was locked.

    A worker that counted a job but found it taken when it popped tests
    thread_stop_ next, and leaves if it is set, without counting again. The run
    brings every worker that serves `p` to that test, pushes the job, and stops. */
module DrainFails {
  import opened Bytes
  import opened JobPool
  import opened PoolMachine
  import opened Drain
  import R = Runs

  // ----- reachability by graceful runs -----

  predicate Leads(s: State, steps: seq<Step>, t: State) {
    Runs(s, steps) && After(s, steps) == t && Stop(true) !in steps
  }

  ghost predicate Reaches(s: State, t: State) {
    exists steps :: Leads(s, steps, t)
  }

  lemma Stay(s: State)
    ensures Reaches(s, s)
  {
    assert Leads(s, [], s);
  }

  lemma Trans(s: State, m: State, t: State)
    requires Reaches(s, m) && Reaches(m, t)
    ensures Reaches(s, t)
  {
    var a :| Leads(s, a, m);
    var b :| Leads(m, b, t);
    R.InTwo(Enabled, Do, s, a, b);
    assert Leads(s, a + b, t);
  }

  lemma OneStep(s: State, step: Step)
    requires Enabled(s, step) && step != Stop(true)
    ensures Reaches(s, Do(s, step))
  {
    OneStepOf(Enabled, Do, s, step);
    assert Stop(true) !in [step];
    assert Leads(s, [step], Do(s, step));
  }

  lemma OneStepOf<S, T>(enabled: (S, T) -> bool, act: (S, T) -> S, s: S, step: T)
    requires enabled(s, step)
    ensures R.Valid(enabled, act, s, [step]) && R.After(act, s, [step]) == act(s, step)
  {
  }

  // ----- calm states -----

  /** Nobody is in the middle of anything; the workers in `idle` have just popped
      nothing, the others are at the top of their loops. */
  ghost predicate Calm(s: State, cfg: Config, idle: set<nat>) {
    && Shaped(s, cfg)
    && Conserved(s.pool)
    && s.holder == Nobody && s.working && !s.locked && s.sealed == None
    && (forall k :: 0 <= k < |s.calls| ==> s.calls[k].Returned?)
    && (forall w :: 0 <= w < |cfg| ==>
          s.workers[w] == Worker(cfg[w], if w in idle then EmptyHanded else AtTop, false, false))
  }

  predicate AllEmpty(queues: Queues) {
    forall p :: QueueOf(queues, p) == []
  }

  predicate Only(queues: Queues, p: Priority, job: Job) {
    QueueOf(queues, p) == [job] && forall q :: q != p ==> QueueOf(queues, q) == []
  }

  // ----- a push from beginning to end -----

  function Pushed(s: State, q: Priority): State {
    s.(pool := Apply(s.pool, Op.Push(Job(|s.calls|, q))), calls := s.calls + [Returned])
  }

  /** A notification passes over workers that are not asleep. */
  lemma NotifyTurn(s: State, k: nat, i: nat, q: Priority)
    requires s.holder == Notifier(k) && k < |s.calls| && s.calls[k] == Announcing(q, i) && i < |s.workers|
    requires !s.workers[i].pc.Asleep? && !s.workers[i].HoldsMutex()
    ensures Reaches(s, s.(calls := s.calls[k := Announcing(q, i + 1)]))
  {
    OneStep(s, Advance);
    assert s.workers[i := s.workers[i].Notified()] == s.workers;
  }

  lemma {:induction false} NotifyRest(s: State, k: nat, i: nat, q: Priority)
    requires s.holder == Notifier(k) && k < |s.calls| && s.calls[k] == Announcing(q, i) && i <= |s.workers|
    requires forall w :: 0 <= w < |s.workers| ==> !s.workers[w].pc.Asleep? && !s.workers[w].HoldsMutex()
    ensures Reaches(s, s.(holder := Nobody, calls := s.calls[k := Returned]))
    decreases |s.workers| - i
  {
    var end := s.(holder := Nobody, calls := s.calls[k := Returned]);
    if i == |s.workers| {
      OneStep(s, Advance);
    } else {
      var next := s.(calls := s.calls[k := Announcing(q, i + 1)]);
      NotifyTurn(s, k, i, q);
      NotifyRest(next, k, i + 1, q);
      assert next.calls[k := Returned] == s.calls[k := Returned];
      Trans(s, next, end);
    }
  }

  lemma PushEntered(s: State, q: Priority)
    requires !s.locked
    ensures var k := |s.calls|;
            Reaches(s, s.(pool := Apply(s.pool, Op.Push(Job(k, q))), calls := s.calls + [Inserted(q)]))
  {
    var k, job := |s.calls|, Job(|s.calls|, q);
    var a := s.(calls := s.calls + [Entered(job)]);
    var b := s.(pool := Apply(s.pool, Op.Push(job)), calls := s.calls + [Inserted(q)]);
    OneStep(s, Enter(q));
    OneStep(a, Insert(k));
    assert a.calls[k := Inserted(q)] == b.calls;
    assert DoInsert(a, k) == b;
    Trans(s, a, b);
  }

  lemma PushInserted(s: State, q: Priority)
    requires s.calls != [] && s.calls[|s.calls| - 1] == Inserted(q) && s.holder == Nobody
    requires forall w :: 0 <= w < |s.workers| ==> !s.workers[w].pc.Asleep? && !s.workers[w].HoldsMutex()
    ensures Reaches(s, s.(calls := s.calls[|s.calls| - 1 := Returned]))
  {
    var k := |s.calls| - 1;
    var a := s.(holder := Notifier(k), calls := s.calls[k := Announcing(q, 0)]);
    OneStep(s, Claim(k));
    NotifyRest(a, k, 0, q);
    assert a.calls[k := Returned] == s.calls[k := Returned];
    Trans(s, a, s.(calls := s.calls[k := Returned]));
  }

  lemma PushJob(s: State, q: Priority)
    requires !s.locked && s.holder == Nobody
    requires forall w :: 0 <= w < |s.workers| ==> !s.workers[w].pc.Asleep? && !s.workers[w].HoldsMutex()
    ensures Reaches(s, Pushed(s, q))
  {
    var a := s.(pool := Apply(s.pool, Op.Push(Job(|s.calls|, q))), calls := s.calls + [Inserted(q)]);
    PushEntered(s, q);
    PushInserted(a, q);
    assert a.calls[|a.calls| - 1 := Returned] == s.calls + [Returned];
    Trans(s, a, Pushed(s, q));
  }

  lemma CalmPush(s: State, cfg: Config, idle: set<nat>, q: Priority)
    requires Calm(s, cfg, idle) && AllEmpty(s.pool.queues)
    ensures Reaches(s, Pushed(s, q)) && Calm(Pushed(s, q), cfg, idle)
    ensures Only(Pushed(s, q).pool.queues, q, Job(|s.calls|, q))
  {
    PushJob(s, q);
    ApplyConserves(s.pool, Op.Push(Job(|s.calls|, q)));
    assert QueueOf(s.pool.queues, q) == [];
    assert [] + [Job(|s.calls|, q)] == [Job(|s.calls|, q)];
  }

  // ----- a worker counts its queues -----

  function ScanPc(stopping: bool, k: nat, found: bool): Pc {
    if stopping then StopScanning(k, found) else Scanning(k, found)
  }

  function ScanResult(stopping: bool, found: bool): Pc {
    if found then Popping else if stopping then Exited else Asleep
  }

  /** Some queue of the list from its `k`th on has a job. */
  predicate JobFrom(queues: Queues, priorities: seq<Priority>, k: nat) {
    exists j :: k <= j < |priorities| && QueueOf(queues, priorities[j]) != []
  }

  lemma WorkerStep(s: State, w: nat)
    requires w < |s.workers| && !s.workers[w].pc.Exited? && !s.workers[w].pc.Popping? && !s.workers[w].pc.Working?
    ensures Reaches(s, SetPc(s, w, NextPc(s.workers[w], s.pool.queues)))
  {
    OneStep(s, Work(w));
  }

  lemma SetPcTwice(s: State, w: nat, a: Pc, b: Pc)
    requires w < |s.workers|
    ensures SetPc(SetPc(s, w, a), w, b) == SetPc(s, w, b)
  {
  }

  lemma {:induction false} ScanRest(s: State, w: nat, stopping: bool, k: nat, found: bool)
    requires w < |s.workers| && s.workers[w].pc == ScanPc(stopping, k, found) && k <= |s.workers[w].priorities|
    ensures Reaches(s, SetPc(s, w, ScanResult(stopping, found || JobFrom(s.pool.queues, s.workers[w].priorities, k))))
    decreases |s.workers[w].priorities| - k
  {
    var list := s.workers[w].priorities;
    WorkerStep(s, w);
    if k < |list| {
      var hit := found || QueueOf(s.pool.queues, list[k]) != [];
      var next := SetPc(s, w, ScanPc(stopping, k + 1, hit));
      ScanRest(next, w, stopping, k + 1, hit);
      var all := found || JobFrom(s.pool.queues, list, k);
      assert all == (hit || JobFrom(s.pool.queues, list, k + 1));
      SetPcTwice(s, w, ScanPc(stopping, k + 1, hit), ScanResult(stopping, all));
      Trans(s, next, SetPc(s, w, ScanResult(stopping, all)));
    } else {
      assert !JobFrom(s.pool.queues, list, k);
    }
  }

  lemma ScanAll(s: State, w: nat)
    requires w < |s.workers| && s.workers[w].pc == AtTop && !s.workers[w].pause
    ensures Reaches(s, SetPc(s, w, ScanResult(s.workers[w].stop, JobFrom(s.pool.queues, s.workers[w].priorities, 0))))
  {
    var stopping := s.workers[w].stop;
    var a := SetPc(s, w, ScanPc(stopping, 0, false));
    WorkerStep(s, w);
    ScanRest(a, w, stopping, 0, false);
    var result := ScanResult(stopping, JobFrom(s.pool.queues, s.workers[w].priorities, 0));
    SetPcTwice(s, w, ScanPc(stopping, 0, false), result);
    Trans(s, a, SetPc(s, w, result));
  }

  /** A worker at the top of its loop gets to the pop when one of its queues has
      a job. */
  lemma ScanFinds(s: State, w: nat, q: Priority)
    requires w < |s.workers| && s.workers[w].pc == AtTop && !s.workers[w].pause
    requires q in s.workers[w].priorities && QueueOf(s.pool.queues, q) != []
    ensures Reaches(s, SetPc(s, w, Popping))
  {
    ScanAll(s, w);
    var j :| 0 <= j < |s.workers[w].priorities| && s.workers[w].priorities[j] == q;
    assert JobFrom(s.pool.queues, s.workers[w].priorities, 0);
  }

  // ----- one worker takes the job that another has counted -----

  lemma PopOnly(queues: Queues, priorities: seq<Priority>, q: Priority, job: Job)
    requires Only(queues, q, job) && q in priorities
    ensures PopFrom(queues, priorities).job == Some(job) && AllEmpty(PopFrom(queues, priorities).queues)
  {
    PopTakesHead(queues, priorities);
    var j :| 0 <= j < |priorities| && priorities[j] == q;
    var popped := PopFrom(queues, priorities);
    var k :| 0 <= k < |priorities| && TookHead(queues, popped, priorities[k]);
    assert priorities[k] == q;
    assert QueueOf(queues, q) == [popped.job.value] + QueueOf(popped.queues, q);
  }

  lemma PopNothing(queues: Queues, priorities: seq<Priority>)
    requires AllEmpty(queues)
    ensures PopFrom(queues, priorities).job == None
  {
  }

  /** The pop, the run and the return to the top of the loop. */
  function Robbed(s: State, thief: nat, job: Job): State
    requires thief < |s.workers|
  {
    SetPc(s, thief, AtTop).(
      pool := Apply(s.pool, Op.Pop(s.workers[thief].priorities)), taken := s.taken + [job], done := s.done + [job])
  }

  lemma Rob(s: State, thief: nat, q: Priority, job: Job)
    requires thief < |s.workers| && s.workers[thief].pc == Popping && q in s.workers[thief].priorities
    requires Only(s.pool.queues, q, job)
    ensures Reaches(s, Robbed(s, thief, job)) && AllEmpty(Robbed(s, thief, job).pool.queues)
  {
    PopOnly(s.pool.queues, s.workers[thief].priorities, q, job);
    var a := DoPop(s, thief);
    OneStep(s, Work(thief));
    OneStep(a, Work(thief));
    SetPcTwice(s, thief, Working(job), AtTop);
    assert DoFinish(a, thief) == Robbed(s, thief, job);
    Trans(s, a, Robbed(s, thief, job));
  }

  lemma Miss(s: State, victim: nat)
    requires victim < |s.workers| && s.workers[victim].pc == Popping && AllEmpty(s.pool.queues)
    ensures Reaches(s, SetPc(s, victim, EmptyHanded))
  {
    PopNothing(s.pool.queues, s.workers[victim].priorities);
    OneStep(s, Work(victim));
  }

  /** The state after `victim` has counted a job of `q` and `thief` has taken it. */
  function Stranded(s: State, victim: nat, thief: nat, job: Job): State
    requires victim < |s.workers| && thief < |s.workers|
  {
    SetPc(Robbed(SetPc(SetPc(s, victim, Popping), thief, Popping), thief, job), victim, EmptyHanded)
  }

  lemma StrandSteps(s: State, victim: nat, thief: nat, q: Priority, job: Job)
    requires victim < |s.workers| && thief < |s.workers| && victim != thief && Only(s.pool.queues, q, job)
    requires s.workers[victim].pc == AtTop && !s.workers[victim].pause && q in s.workers[victim].priorities
    requires s.workers[thief].pc == AtTop && !s.workers[thief].pause && q in s.workers[thief].priorities
    ensures Reaches(s, Stranded(s, victim, thief, job)) && AllEmpty(Stranded(s, victim, thief, job).pool.queues)
  {
    var a := SetPc(s, victim, Popping);
    var b := SetPc(a, thief, Popping);
    var c := Robbed(b, thief, job);
    ScanFinds(s, victim, q);
    ScanFinds(a, thief, q);
    Rob(b, thief, q, job);
    Miss(c, victim);
    Trans(s, a, b);
    Trans(s, b, c);
    Trans(s, c, Stranded(s, victim, thief, job));
  }

  lemma StrandedIsCalm(s: State, cfg: Config, idle: set<nat>, victim: nat, thief: nat, job: Job)
    requires Calm(s, cfg, idle) && victim < |cfg| && thief < |cfg| && victim != thief && thief !in idle
    ensures Calm(Stranded(s, victim, thief, job), cfg, idle + {victim})
  {
    ApplyConserves(s.pool, Op.Pop(cfg[thief]));
    var t := Stranded(s, victim, thief, job);
    assert t.pool == Apply(s.pool, Op.Pop(cfg[thief]));
    forall w | 0 <= w < |cfg|
      ensures t.workers[w] == Worker(cfg[w], if w in idle + {victim} then EmptyHanded else AtTop, false, false)
    {
    }
  }

  lemma Strand(s: State, cfg: Config, idle: set<nat>, victim: nat, thief: nat, q: Priority) returns (t: State)
    requires Calm(s, cfg, idle) && AllEmpty(s.pool.queues)
    requires victim != thief && victim !in idle && thief !in idle && Serves(cfg, victim, q) && Serves(cfg, thief, q)
    ensures Reaches(s, t) && Calm(t, cfg, idle + {victim}) && AllEmpty(t.pool.queues)
  {
    var a, job := Pushed(s, q), Job(|s.calls|, q);
    CalmPush(s, cfg, idle, q);
    StrandSteps(a, victim, thief, q, job);
    StrandedIsCalm(a, cfg, idle, victim, thief, job);
    t := Stranded(a, victim, thief, job);
    Trans(s, a, t);
  }

  // ----- everyone who serves p -----

  /** Workers below `i`, other than `w`, that serve `p`. */
  function Group(cfg: Config, p: Priority, w: nat, i: nat): set<nat> {
    set v: nat | 0 <= v < i && v != w && Serves(cfg, v, p)
  }

  lemma {:induction false} StrandGroup(s: State, cfg: Config, p: Priority, w: nat, i: nat) returns (t: State)
    requires Calm(s, cfg, {}) && AllEmpty(s.pool.queues) && Serves(cfg, w, p) && i <= |cfg|
    ensures Reaches(s, t) && Calm(t, cfg, Group(cfg, p, w, i)) && AllEmpty(t.pool.queues)
    decreases i
  {
    if i == 0 {
      assert Group(cfg, p, w, 0) == {};
      Stay(s);
      t := s;
    } else {
      var m := StrandGroup(s, cfg, p, w, i - 1);
      if i - 1 != w && Serves(cfg, i - 1, p) {
        t := Strand(m, cfg, Group(cfg, p, w, i - 1), i - 1, w, p);
        assert Group(cfg, p, w, i) == Group(cfg, p, w, i - 1) + {i - 1};
        Trans(s, m, t);
      } else {
        assert Group(cfg, p, w, i) == Group(cfg, p, w, i - 1);
        t := m;
      }
    }
  }

  // ----- the stop -----

  /** In the loop of `stop`, in front of worker `i`: the earlier ones have exited. */
  ghost predicate StoppingAt(s: State, cfg: Config, idle: set<nat>, i: nat) {
    && |s.workers| == |cfg| && i <= |cfg| && s.working
    && s.holder == Stopper(false, true, i, false)
    && (forall w :: 0 <= w < i ==> s.workers[w].pc == Exited)
    && (forall w :: i <= w < |cfg| ==>
          s.workers[w] == Worker(cfg[w], if w in idle then EmptyHanded else AtTop, false, false))
  }

  function Flagged(s: State, i: nat): State
    requires i < |s.workers|
  {
    s.(workers := s.workers[i := s.workers[i].(stop := true)], holder := Stopper(false, true, i, true))
  }

  function JoinedWith(s: State, i: nat): State
    requires i < |s.workers|
  {
    s.(workers := s.workers[i := s.workers[i].(stop := true, pc := Exited)], holder := Stopper(false, true, i + 1, false))
  }

  /** A flagged worker with nothing in its queues, or just back from a pop that
      found nothing, exits. */
  lemma ExitsWhenFlagged(s: State, i: nat)
    requires i < |s.workers| && s.workers[i].stop && !s.workers[i].pause
    requires s.workers[i].pc == EmptyHanded
          || (s.workers[i].pc == AtTop && !JobFrom(s.pool.queues, s.workers[i].priorities, 0))
    ensures Reaches(s, SetPc(s, i, Exited))
  {
    if s.workers[i].pc == EmptyHanded {
      WorkerStep(s, i);
    } else {
      ScanAll(s, i);
    }
  }

  lemma StopOne(s: State, cfg: Config, idle: set<nat>, i: nat)
    requires StoppingAt(s, cfg, idle, i) && i < |cfg|
    requires i in idle || !JobFrom(s.pool.queues, cfg[i], 0)
    ensures Reaches(s, JoinedWith(s, i)) && StoppingAt(JoinedWith(s, i), cfg, idle, i + 1)
  {
    var a := Flagged(s, i);
    var b := SetPc(a, i, Exited);
    OneStep(s, Advance);
    ExitsWhenFlagged(a, i);
    OneStep(b, Advance);
    assert Do(b, Advance) == JoinedWith(s, i);
    Trans(s, a, b);
    Trans(s, b, JoinedWith(s, i));
  }

  lemma {:induction false} StopRest(s: State, cfg: Config, idle: set<nat>, i: nat) returns (t: State)
    requires StoppingAt(s, cfg, idle, i)
    requires forall w :: i <= w < |cfg| && w !in idle ==> !JobFrom(s.pool.queues, cfg[w], 0)
    ensures Reaches(s, t) && !t.working && t.pool == s.pool && t.sealed == s.sealed && t.done == s.done
    decreases |cfg| - i
  {
    if i == |cfg| {
      t := s.(holder := Nobody, locked := false, working := false);
      OneStep(s, Advance);
    } else {
      StopOne(s, cfg, idle, i);
      t := StopRest(JoinedWith(s, i), cfg, idle, i + 1);
      Trans(s, JoinedWith(s, i), t);
    }
  }

  lemma StopCalm(s: State, cfg: Config, idle: set<nat>) returns (t: State)
    requires Calm(s, cfg, idle)
    requires forall w :: 0 <= w < |cfg| && w !in idle ==> !JobFrom(s.pool.queues, cfg[w], 0)
    ensures Reaches(s, t) && !t.working && t.pool == s.pool && t.sealed == Some(s.pool.pushed) && t.done == s.done
  {
    var a := s.(holder := Stopper(false, true, 0, false), locked := true, sealed := Some(s.pool.pushed));
    OneStep(s, Stop(false));
    t := StopRest(a, cfg, idle, 0);
    Trans(s, a, t);
  }

  // ----- the run -----

  lemma InitIsCalm(cfg: Config)
    ensures Calm(Init(cfg), cfg, {}) && AllEmpty(Init(cfg).pool.queues)
  {
  }

  /** Everyone who serves `p` has just popped nothing. */
  lemma StrandServers(cfg: Config, p: Priority, w: nat, q: Priority, u: nat) returns (t: State, idle: set<nat>)
    requires Leak(cfg, p, w, q, u)
    ensures Reaches(Init(cfg), t) && Calm(t, cfg, idle) && AllEmpty(t.pool.queues)
    ensures forall v :: 0 <= v < |cfg| && v !in idle ==> !Serves(cfg, v, p)
  {
    InitIsCalm(cfg);
    var m := StrandGroup(Init(cfg), cfg, p, w, |cfg|);
    var group := Group(cfg, p, w, |cfg|);
    t := Strand(m, cfg, group, w, u, q);
    idle := group + {w};
    Trans(Init(cfg), m, t);
  }

  /** A last job of a priority that only idle workers serve stays when `stop`
      has joined everyone. */
  lemma LeaveJob(cfg: Config, p: Priority, m: State, idle: set<nat>) returns (steps: seq<Step>, job: Job)
    requires Reaches(Init(cfg), m) && Calm(m, cfg, idle) && AllEmpty(m.pool.queues)
    requires forall v :: 0 <= v < |cfg| && v !in idle ==> !Serves(cfg, v, p)
    ensures Runs(Init(cfg), steps) && Stop(true) !in steps
    ensures var s := After(Init(cfg), steps);
            && !s.working
            && EarlyLeft(s, p)
            && s.sealed.Some? && job in QueueOf(s.sealed.value, p) && QueueOf(s.pool.queues, p) == [job]
  {
    job := Job(|m.calls|, p);
    CalmPush(m, cfg, idle, p);
    var a := Pushed(m, p);
    forall v | 0 <= v < |cfg| && v !in idle ensures !JobFrom(a.pool.queues, cfg[v], 0) {
      assert !Serves(cfg, v, p);
    }
    var t := StopCalm(a, cfg, idle);
    Trans(Init(cfg), m, a);
    Trans(Init(cfg), a, t);
    assert QueueOf(t.pool.pushed, p) == Gone(t.pool, p);
    assert job in QueueOf(t.pool.queues, p);
    steps :| Leads(Init(cfg), steps, t);
  }

  /** A graceful run that leaves an early job, for every priority that nobody
      serves or whose workers share a queue with one that does not serve it. */
  lemma JobLeftBehind(cfg: Config, p: Priority) returns (steps: seq<Step>, job: Job)
    requires !(Served(cfg, p) && Closed(cfg, p))
    ensures Runs(Init(cfg), steps) && Stop(true) !in steps
    ensures var s := After(Init(cfg), steps);
            && !s.working
            && EarlyLeft(s, p)
            && s.sealed.Some? && job in QueueOf(s.sealed.value, p) && QueueOf(s.pool.queues, p) == [job]
  {
    if Served(cfg, p) {
      var w, q, u :| 0 <= w < |cfg| && 0 <= u < |cfg| && q in PRIORITIES && Leak(cfg, p, w, q, u);
      var m, idle := StrandServers(cfg, p, w, q, u);
      steps, job := LeaveJob(cfg, p, m, idle);
    } else {
      InitIsCalm(cfg);
      assert Leads(Init(cfg), [], Init(cfg));
      steps, job := LeaveJob(cfg, p, Init(cfg), {});
    }
  }

  /** No run of a graceful `stop` leaves an early job of priority `p`. */
  ghost predicate AlwaysDrains(cfg: Config, p: Priority) {
    forall steps :: Runs(Init(cfg), steps) && Stop(true) !in steps && !After(Init(cfg), steps).working ==>
      !EarlyLeft(After(Init(cfg), steps), p)
  }

  /** For every pool: a graceful `stop` never leaves an early job of priority `p`
      queued exactly when `p` is served, and the workers that serve it share queues
      among themselves only. */
  lemma DrainsExactlyWhenClosed(cfg: Config, p: Priority)
    ensures Served(cfg, p) && Closed(cfg, p) <==> AlwaysDrains(cfg, p)
  {
    if Served(cfg, p) && Closed(cfg, p) {
      forall steps | Runs(Init(cfg), steps) && Stop(true) !in steps && !After(Init(cfg), steps).working
        ensures !EarlyLeft(After(Init(cfg), steps), p)
      {
        StopDrains(cfg, p, steps);
      }
    } else {
      var steps, job := JobLeftBehind(cfg, p);
    }
  }
}
