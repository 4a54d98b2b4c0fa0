/** Frames never interleave. The jobs of the highest priority of a connection are
    its sending jobs; here a worker that runs one also writes to the socket, piece
    by piece, between the steps of all the other threads. */
module WireSafety {
  import opened Bytes
  import opened JobPool
  import opened PoolMachine
  import Drain
  import Frames
  import R = Runs
  import ThreadPool

  /** The payload of every sending job, by the identity of the job. */
  datatype Line = Line(codes: Frames.Codes, payload: nat -> bytes)

  /** What a sending job writes; it refuses an empty payload. */
  function Emission(line: Line, job: Job): bytes {
    if line.payload(job.id) == [] then [] else Frames.Frame(line.codes, line.payload(job.id))
  }

  /** The pool, what is on the wire, how much each worker has written of the job it
      runs, and how much each finished sending job had written, in order. */
  datatype WireState = WireState(pool: State, wire: bytes, written: seq<nat>, outs: seq<nat>)

  datatype WireStep =
    | Pool(step: Step)
    | Emit(worker: nat, count: nat)   // one call of send, however short

  predicate Sends(s: State, w: nat) {
    w < |s.workers| && s.workers[w].pc.Working? && s.workers[w].pc.job.priority == Top
  }

  /** A sending job may be finished at any point: one that fails leaves the rest
      of its frame out. */
  predicate WireEnabled(line: Line, t: WireState, step: WireStep) {
    match step
    case Pool(inner) => Enabled(t.pool, inner)
    case Emit(w, n) =>
      && Sends(t.pool, w) && w < |t.written|
      && t.written[w] + n <= |Emission(line, t.pool.workers[w].pc.job)|
  }

  function WireDo(line: Line, t: WireState, step: WireStep): WireState {
    if !WireEnabled(line, t, step) then t else
    match step
    case Pool(inner) =>
      if inner.Work? && inner.worker < |t.written| then
        WireState(Do(t.pool, inner), t.wire, t.written[inner.worker := 0],
                  if Sends(t.pool, inner.worker) then t.outs + [t.written[inner.worker]] else t.outs)
      else t.(pool := Do(t.pool, inner))
    case Emit(w, n) =>
      var frame := Emission(line, t.pool.workers[w].pc.job);
      t.(wire := t.wire + frame[t.written[w]..t.written[w] + n], written := t.written[w := t.written[w] + n])
  }

  function WireInit(cfg: Config): WireState {
    WireState(Init(cfg), [], seq(|cfg|, _ => 0), [])
  }

  predicate WireRuns(line: Line, t: WireState, steps: seq<WireStep>) {
    R.Valid((x, s) => WireEnabled(line, x, s), (x, s) => WireDo(line, x, s), t, steps)
  }

  function WireAfter(line: Line, t: WireState, steps: seq<WireStep>): WireState {
    R.After((x, s) => WireDo(line, x, s), t, steps)
  }

  // ----- the sending jobs of a log -----

  function TopOf(jobs: seq<Job>): (r: seq<Job>) {
    if jobs == [] then []
    else (if jobs[0].priority == Top then [jobs[0]] else []) + TopOf(jobs[1..])
  }

  lemma {:induction false} TopOfLast(jobs: seq<Job>, job: Job)
    ensures TopOf(jobs + [job]) == TopOf(jobs) + (if job.priority == Top then [job] else [])
    decreases |jobs|
  {
    if jobs == [] {
      assert (jobs + [job])[1..] == [];
    } else {
      TopOfLast(jobs[1..], job);
      assert (jobs + [job])[0] == jobs[0] && (jobs + [job])[1..] == jobs[1..] + [job];
      Associative(if jobs[0].priority == Top then [jobs[0]] else [], TopOf(jobs[1..]),
                  if job.priority == Top then [job] else []);
    }
  }

  /** Their frames, one whole frame after the other. */
  function Emissions(line: Line, jobs: seq<Job>): bytes {
    if jobs == [] then [] else Emission(line, jobs[0]) + Emissions(line, jobs[1..])
  }

  lemma {:induction false} EmissionsLast(line: Line, jobs: seq<Job>, job: Job)
    ensures Emissions(line, jobs + [job]) == Emissions(line, jobs) + Emission(line, job)
    decreases |jobs|
  {
    if jobs == [] {
      assert (jobs + [job])[1..] == [];
    } else {
      EmissionsLast(line, jobs[1..], job);
      assert (jobs + [job])[0] == jobs[0] && (jobs + [job])[1..] == jobs[1..] + [job];
      Associative(Emission(line, jobs[0]), Emissions(line, jobs[1..]), Emission(line, job));
    }
  }

  /** The part of its frame that a job has written. */
  function Piece(line: Line, job: Job, count: nat): bytes {
    var frame := Emission(line, job);
    if count <= |frame| then frame[..count] else frame
  }

  function Pieces(line: Line, jobs: seq<Job>, outs: seq<nat>): bytes
    requires |outs| == |jobs|
  {
    if jobs == [] then [] else Piece(line, jobs[0], outs[0]) + Pieces(line, jobs[1..], outs[1..])
  }

  lemma {:induction false} PiecesLast(line: Line, jobs: seq<Job>, outs: seq<nat>, job: Job, count: nat)
    requires |outs| == |jobs|
    ensures Pieces(line, jobs + [job], outs + [count]) == Pieces(line, jobs, outs) + Piece(line, job, count)
    decreases |jobs|
  {
    if jobs == [] {
      assert (jobs + [job])[1..] == [] && (outs + [count])[1..] == [];
    } else {
      PiecesLast(line, jobs[1..], outs[1..], job, count);
      assert (jobs + [job])[1..] == jobs[1..] + [job] && (outs + [count])[1..] == outs[1..] + [count];
      Associative(Piece(line, jobs[0], outs[0]), Pieces(line, jobs[1..], outs[1..]), Piece(line, job, count));
    }
  }

  /** The first `n` jobs have written their whole frames. */
  predicate Whole(line: Line, jobs: seq<Job>, outs: seq<nat>, n: nat) {
    n <= |jobs| == |outs| && forall i :: 0 <= i < n ==> outs[i] == |Emission(line, jobs[i])|
  }

  lemma {:induction false} WholePieces(line: Line, jobs: seq<Job>, outs: seq<nat>, n: nat)
    requires Whole(line, jobs, outs, n)
    ensures Pieces(line, jobs, outs) == Emissions(line, jobs[..n]) + Pieces(line, jobs[n..], outs[n..])
    decreases n
  {
    if n == 0 {
      assert jobs[..0] == [] && jobs[0..] == jobs && outs[0..] == outs;
    } else {
      WholeRest(line, jobs, outs, n);
      WholePieces(line, jobs[1..], outs[1..], n - 1);
      FirstEmission(line, jobs, n);
      Associative(Emission(line, jobs[0]), Emissions(line, jobs[1..][..n - 1]), Pieces(line, jobs[n..], outs[n..]));
    }
  }

  lemma WholeRest(line: Line, jobs: seq<Job>, outs: seq<nat>, n: nat)
    requires Whole(line, jobs, outs, n) && 0 < n
    ensures Whole(line, jobs[1..], outs[1..], n - 1)
    ensures jobs[1..][n - 1..] == jobs[n..] && outs[1..][n - 1..] == outs[n..]
    ensures Pieces(line, jobs, outs) == Emission(line, jobs[0]) + Pieces(line, jobs[1..], outs[1..])
  {
  }

  lemma FirstEmission(line: Line, jobs: seq<Job>, n: nat)
    requires 0 < n <= |jobs|
    ensures Emissions(line, jobs[..n]) == Emission(line, jobs[0]) + Emissions(line, jobs[1..][..n - 1])
  {
    assert jobs[..n][1..] == jobs[1..][..n - 1];
  }

  // ----- one sender at a time -----

  /** Worker `top` is the only one that serves the highest priority. */
  predicate OnlyTop(cfg: Config, top: nat) {
    top < |cfg| && forall w :: 0 <= w < |cfg| ==> (Drain.Serves(cfg, w, Top) <==> w == top)
  }

  /** The pool of every connection is such a pool; a client's has one more worker,
      for its main job. */
  lemma OneSender(high: nat, normal: nat, low: nat)
    ensures OnlyTop(ThreadPool.ConnectionWorkers(high, normal, low), 0)
    ensures OnlyTop(ThreadPool.ConnectionWorkers(high, normal, low) + [[LongTerm]], 0)
  {
  }

  /** The sending job that is being run. */
  function Current(s: State, top: nat): seq<Job> {
    if Sends(s, top) then [s.workers[top].pc.job] else []
  }

  /** A worker runs only jobs of its own queues. */
  predicate InItsLane(s: State) {
    forall w :: 0 <= w < |s.workers| && s.workers[w].pc.Working? ==>
      s.workers[w].pc.job.priority in s.workers[w].priorities
  }

  /** The sending jobs popped are those finished and then the one being run. */
  predicate OneAtATime(s: State, top: nat) {
    TopOf(s.taken) == TopOf(s.done) + Current(s, top)
  }

  /** The sending jobs popped are among those removed, in the same order, and are
      all of them unless queues were destroyed. */
  predicate PushOrder(s: State) {
    && Subsequence(TopOf(s.taken), QueueOf(s.pool.removed, Top))
    && (s.destroyed == multiset{} ==> TopOf(s.taken) == QueueOf(s.pool.removed, Top))
  }

  lemma StepKeepsLanes(s: State, step: Step)
    requires InItsLane(s) && Conserved(s.pool) && Enabled(s, step)
    ensures InItsLane(Do(s, step))
  {
    var t := Do(s, step);
    forall w | 0 <= w < |t.workers| && t.workers[w].pc.Working?
      ensures t.workers[w].pc.job.priority in t.workers[w].priorities
    {
      if step.Work? {
        WorkKeepsLane(s, step.worker, w);
      } else {
        Drain.WorkerFlags(s, step, w);
      }
    }
  }

  lemma WorkKeepsLane(s: State, v: nat, w: nat)
    requires InItsLane(s) && Conserved(s.pool) && v < |s.workers| && w < |s.workers|
    ensures var me := DoWork(s, v).workers[w]; me.pc.Working? ==> me.pc.job.priority in me.priorities
  {
    Drain.WorkerPc(s, v, w);
    if v == w && s.workers[w].pc.Popping? {
      PoppedIsHomed(s.pool, s.workers[w].priorities);
    }
  }

  lemma PoppedIsHomed(h: History, priorities: seq<Priority>)
    requires Conserved(h)
    ensures var job := PopFrom(h.queues, priorities).job; job.Some? ==> job.value.priority in priorities
  {
    PopTakesHead(h.queues, priorities);
    var popped := PopFrom(h.queues, priorities);
    if popped.job.Some? {
      var k :| 0 <= k < |priorities| && TookHead(h.queues, popped, priorities[k]);
      assert Homed(h, priorities[k]);
      assert QueueOf(h.queues, priorities[k])[0] == popped.job.value;
    }
  }

  lemma OnlyTopSends(s: State, cfg: Config, top: nat, w: nat)
    requires Shaped(s, cfg) && OnlyTop(cfg, top) && InItsLane(s) && Sends(s, w)
    ensures w == top
  {
    assert Top in s.workers[w].priorities;
    assert Drain.Serves(cfg, w, Top);
  }

  /** Which worker is sending changes only through its own steps. */
  lemma CurrentStays(s: State, step: Step, top: nat)
    requires Enabled(s, step) && top < |s.workers| && !(step.Work? && step.worker == top)
    ensures Current(Do(s, step), top) == Current(s, top)
  {
    if step.Work? {
      Drain.WorkerPc(s, step.worker, top);
    } else {
      Drain.WorkerFlags(s, step, top);
    }
  }

  /** What a step writes into the two logs. */
  lemma Logs(s: State, step: Step)
    requires Enabled(s, step)
    ensures var t := Do(s, step);
            if step.Work? && s.workers[step.worker].pc.Popping? then
              t.done == s.done
              && t.taken == (match PopFrom(s.pool.queues, s.workers[step.worker].priorities).job
                             case None => s.taken case Some(job) => s.taken + [job])
            else if step.Work? && s.workers[step.worker].pc.Working? then
              t.taken == s.taken && t.done == s.done + [s.workers[step.worker].pc.job]
            else t.taken == s.taken && t.done == s.done
  {
  }

  lemma OtherWorkKeepsOrder(s: State, w: nat, cfg: Config, top: nat)
    requires Shaped(s, cfg) && Conserved(s.pool) && OnlyTop(cfg, top) && InItsLane(s) && OneAtATime(s, top)
    requires Enabled(s, Work(w)) && w != top
    ensures OneAtATime(DoWork(s, w), top)
  {
    CurrentStays(s, Work(w), top);
    Logs(s, Work(w));
    var job := PopFrom(s.pool.queues, cfg[w]).job;
    assert !Drain.Serves(cfg, w, Top);
    if s.workers[w].pc.Popping? && job.Some? {
      PoppedIsHomed(s.pool, cfg[w]);
      TopOfLast(s.taken, job.value);
      assert TopOf(s.taken) + [] == TopOf(s.taken);
    } else if s.workers[w].pc.Working? {
      TopOfLast(s.done, s.workers[w].pc.job);
      assert TopOf(s.done) + [] == TopOf(s.done);
    }
  }

  lemma TopWorkKeepsOrder(s: State, top: nat)
    requires OneAtATime(s, top) && Enabled(s, Work(top))
    ensures OneAtATime(DoWork(s, top), top)
  {
    var t := DoWork(s, top);
    Logs(s, Work(top));
    if s.workers[top].pc.Popping? {
      var job := PopFrom(s.pool.queues, s.workers[top].priorities).job;
      if job.Some? {
        TopOfLast(s.taken, job.value);
      }
    } else if s.workers[top].pc.Working? {
      TopOfLast(s.done, s.workers[top].pc.job);
    }
    assert TopOf(s.done) + [] == TopOf(s.done);
  }

  lemma StepKeepsOrder(s: State, step: Step, cfg: Config, top: nat)
    requires Shaped(s, cfg) && Conserved(s.pool) && OnlyTop(cfg, top) && InItsLane(s) && OneAtATime(s, top)
    requires Enabled(s, step)
    ensures OneAtATime(Do(s, step), top)
  {
    if step.Work? && step.worker == top {
      TopWorkKeepsOrder(s, top);
    } else if step.Work? {
      OtherWorkKeepsOrder(s, step.worker, cfg, top);
    } else {
      CurrentStays(s, step, top);
      Logs(s, step);
    }
  }

  lemma PopKeepsPushOrder(s: State, w: nat)
    requires PushOrder(s) && Enabled(s, Work(w)) && s.workers[w].pc.Popping?
    ensures PushOrder(DoPop(s, w))
  {
    var t, job := DoPop(s, w), PopFrom(s.pool.queues, s.workers[w].priorities).job;
    if job.Some? {
      TopOfLast(s.taken, job.value);
      SubsequenceLast(TopOf(s.taken), QueueOf(s.pool.removed, Top), job.value);
      assert t.pool.removed == Enqueue(s.pool.removed, job.value);
      assert TopOf(s.taken) + [] == TopOf(s.taken);
    }
  }

  lemma ClearKeepsPushOrder(s: State)
    requires PushOrder(s) && s.holder.Stopper?
    ensures PushOrder(DoClear(s))
  {
    SubsequenceOfLonger(TopOf(s.taken), QueueOf(s.pool.removed, Top), QueueOf(s.pool.queues, Top));
    ClearRemoves(s.pool, Top);
  }

  lemma QuietStepsKeepPushOrder(s: State, step: Step)
    requires PushOrder(s) && Enabled(s, step)
    requires !(step.Work? && s.workers[step.worker].pc.Popping?)
    requires !(step.Advance? && s.holder.Stopper? && !s.holder.cleared)
    ensures PushOrder(Do(s, step))
  {
    Logs(s, step);
    PoolEffect(s, step);
    assert Do(s, step).destroyed == s.destroyed;
  }

  lemma StepKeepsPushOrder(s: State, step: Step)
    requires PushOrder(s) && Enabled(s, step)
    ensures PushOrder(Do(s, step))
  {
    if step.Work? && s.workers[step.worker].pc.Popping? {
      PopKeepsPushOrder(s, step.worker);
    } else if step.Advance? && s.holder.Stopper? && !s.holder.cleared {
      ClearKeepsPushOrder(s);
    } else {
      QuietStepsKeepPushOrder(s, step);
    }
  }

  // ----- what is on the wire -----

  /** The part of the current frame that is out. */
  function Part(line: Line, t: WireState, top: nat): bytes
    requires top < |t.written|
  {
    if !Sends(t.pool, top) then [] else Piece(line, t.pool.workers[top].pc.job, t.written[top])
  }

  predicate OnTheWire(line: Line, t: WireState, top: nat) {
    && top < |t.written| && |t.outs| == |TopOf(t.pool.done)|
    && (Sends(t.pool, top) ==> t.written[top] <= |Emission(line, t.pool.workers[top].pc.job)|)
    && t.wire == Pieces(line, TopOf(t.pool.done), t.outs) + Part(line, t, top)
  }

  lemma EmitKeepsWire(line: Line, t: WireState, w: nat, n: nat, cfg: Config, top: nat)
    requires Shaped(t.pool, cfg) && OnlyTop(cfg, top) && InItsLane(t.pool) && OnTheWire(line, t, top)
    requires WireEnabled(line, t, Emit(w, n))
    ensures OnTheWire(line, WireDo(line, t, Emit(w, n)), top)
  {
    OnlyTopSends(t.pool, cfg, top, w);
    var u := WireDo(line, t, Emit(w, n));
    assert u.pool == t.pool && u.outs == t.outs && u.written[top] == t.written[top] + n;
    PieceGrows(line, t.pool.workers[top].pc.job, t.written[top], n, Pieces(line, TopOf(t.pool.done), t.outs));
  }

  lemma PieceGrows(line: Line, job: Job, count: nat, more: nat, before: bytes)
    requires count + more <= |Emission(line, job)|
    ensures before + Piece(line, job, count) + Emission(line, job)[count..count + more]
         == before + Piece(line, job, count + more)
  {
    var frame := Emission(line, job);
    assert frame[..count + more] == frame[..count] + frame[count..count + more];
    Associative(before, frame[..count], frame[count..count + more]);
  }

  /** A finished sending job leaves what it has written. */
  lemma SentKeepsWire(line: Line, t: WireState, top: nat)
    requires OnTheWire(line, t, top) && WireEnabled(line, t, Pool(Work(top))) && Sends(t.pool, top)
    ensures OnTheWire(line, WireDo(line, t, Pool(Work(top))), top)
  {
    var s, u, job := t.pool, WireDo(line, t, Pool(Work(top))), t.pool.workers[top].pc.job;
    Logs(s, Work(top));
    TopOfLast(s.done, job);
    PiecesLast(line, TopOf(s.done), t.outs, job, t.written[top]);
    assert Pieces(line, TopOf(u.pool.done), u.outs) + [] == Pieces(line, TopOf(u.pool.done), u.outs);
  }

  lemma TopWorkKeepsWire(line: Line, t: WireState, top: nat)
    requires OnTheWire(line, t, top) && WireEnabled(line, t, Pool(Work(top)))
    ensures OnTheWire(line, WireDo(line, t, Pool(Work(top))), top)
  {
    if Sends(t.pool, top) {
      SentKeepsWire(line, t, top);
    } else {
      var s, u := t.pool, WireDo(line, t, Pool(Work(top)));
      Logs(s, Work(top));
      assert u.written[top] == 0;
      assert u.outs == t.outs && u.wire == t.wire;
      if s.workers[top].pc.Working? {
        TopOfLast(s.done, s.workers[top].pc.job);
        assert TopOf(s.done) + [] == TopOf(s.done);
      }
      assert Part(line, u, top) == [];
    }
  }

  lemma OtherStepKeepsWire(line: Line, t: WireState, step: Step, cfg: Config, top: nat)
    requires Shaped(t.pool, cfg) && OnlyTop(cfg, top) && InItsLane(t.pool) && OnTheWire(line, t, top)
    requires WireEnabled(line, t, Pool(step)) && !(step.Work? && step.worker == top)
    ensures OnTheWire(line, WireDo(line, t, Pool(step)), top)
  {
    var s, u := t.pool, WireDo(line, t, Pool(step));
    Logs(s, step);
    CurrentStays(s, step, top);
    assert Sends(u.pool, top) == Sends(s, top) by {
      assert Sends(s, top) <==> |Current(s, top)| == 1;
      assert Sends(u.pool, top) <==> |Current(u.pool, top)| == 1;
    }
    if Sends(s, top) {
      assert Current(u.pool, top)[0] == Current(s, top)[0];
    }
    if step.Work? && Sends(s, step.worker) {
      OnlyTopSends(s, cfg, top, step.worker);
    }
    if step.Work? && s.workers[step.worker].pc.Working? {
      TopOfLast(s.done, s.workers[step.worker].pc.job);
      assert TopOf(s.done) + [] == TopOf(s.done);
    }
    assert u.written[top] == t.written[top] && u.outs == t.outs;
  }

  // ----- every run -----

  ghost predicate Inv(line: Line, t: WireState, cfg: Config, top: nat) {
    && Shaped(t.pool, cfg) && Conserved(t.pool.pool)
    && InItsLane(t.pool) && OneAtATime(t.pool, top) && PushOrder(t.pool)
    && OnTheWire(line, t, top)
  }

  lemma StepKeepsInv(line: Line, t: WireState, step: WireStep, cfg: Config, top: nat)
    requires OnlyTop(cfg, top) && Inv(line, t, cfg, top) && WireEnabled(line, t, step)
    ensures Inv(line, WireDo(line, t, step), cfg, top)
  {
    match step
    case Emit(w, n) =>
      EmitKeepsWire(line, t, w, n, cfg, top);
    case Pool(inner) =>
      StepKeepsShape(t.pool, inner, cfg);
      StepConserves(t.pool, inner);
      StepKeepsLanes(t.pool, inner);
      StepKeepsOrder(t.pool, inner, cfg, top);
      StepKeepsPushOrder(t.pool, inner);
      if inner.Work? && inner.worker == top {
        TopWorkKeepsWire(line, t, top);
      } else {
        OtherStepKeepsWire(line, t, inner, cfg, top);
      }
  }

  lemma RunKeepsInv(line: Line, cfg: Config, top: nat, steps: seq<WireStep>)
    requires OnlyTop(cfg, top) && WireRuns(line, WireInit(cfg), steps)
    ensures Inv(line, WireAfter(line, WireInit(cfg), steps), cfg, top)
  {
    var enabled := (x: WireState, y: WireStep) => WireEnabled(line, x, y);
    var act := (x: WireState, y: WireStep) => WireDo(line, x, y);
    var inv := (x: WireState) => Inv(line, x, cfg, top);
    forall x, y | inv(x) && enabled(x, y) ensures inv(act(x, y)) {
      StepKeepsInv(line, x, y, cfg, top);
    }
    R.Invariant(enabled, act, inv, WireInit(cfg), steps);
  }

  /** The payloads that were not empty, in order. */
  function Payloads(line: Line, jobs: seq<Job>): seq<bytes> {
    if jobs == [] then []
    else (if line.payload(jobs[0].id) == [] then [] else [line.payload(jobs[0].id)]) + Payloads(line, jobs[1..])
  }

  lemma {:induction false} EmissionsAreFrames(line: Line, jobs: seq<Job>)
    requires forall id :: |line.payload(id)| < WORD
    ensures Emissions(line, jobs) == Frames.Wire(line.codes, Payloads(line, jobs))
    ensures Frames.Sizes(Payloads(line, jobs))
    decreases |jobs|
  {
    if jobs != [] {
      var rest := Payloads(line, jobs[1..]);
      EmissionsAreFrames(line, jobs[1..]);
      assert [] + rest == rest;
      assert ([line.payload(jobs[0].id)] + rest)[1..] == rest;
      assert [] + Emissions(line, jobs[1..]) == Emissions(line, jobs[1..]);
    }
  }

  /** In every state of every run of a pool with one worker for the sending jobs,
      whatever the other threads do, however short the writes and whichever sends
      fail: the wire holds what the finished jobs wrote, job after job, and then a
      part of at most one more frame. */
  lemma FramesNeverInterleave(line: Line, cfg: Config, top: nat, steps: seq<WireStep>)
    requires OnlyTop(cfg, top) && WireRuns(line, WireInit(cfg), steps)
    ensures var t := WireAfter(line, WireInit(cfg), steps);
            && top < |t.written| && |t.outs| == |TopOf(t.pool.done)|
            && t.wire == Pieces(line, TopOf(t.pool.done), t.outs) + Part(line, t, top)
  {
    RunKeepsInv(line, cfg, top, steps);
  }

  /** If all the sends succeeded, the wire holds whole frames and a part of at most
      one more, and a reader with a buffer of any size emits exactly the payloads
      of the jobs that are out, in the order in which they were finished. */
  lemma WireIsRead(line: Line, cfg: Config, top: nat, steps: seq<WireStep>, bufferSize: nat)
    requires OnlyTop(cfg, top) && WireRuns(line, WireInit(cfg), steps)
    requires line.codes.Valid() && 0 < bufferSize && forall id :: |line.payload(id)| < WORD
    requires var t := WireAfter(line, WireInit(cfg), steps);
             Whole(line, TopOf(t.pool.done), t.outs, |TopOf(t.pool.done)|)
    ensures var t := WireAfter(line, WireInit(cfg), steps);
            && top < |t.written|
            && t.wire == Emissions(line, TopOf(t.pool.done)) + Part(line, t, top)
            && Frames.Run(line.codes, bufferSize, Frames.FRESH, t.wire).0.emitted
               == Payloads(line, TopOf(t.pool.done)
                           + if Sends(t.pool, top) && t.written[top] == |Emission(line, t.pool.workers[top].pc.job)|
                             then Current(t.pool, top) else [])
  {
    RunKeepsInv(line, cfg, top, steps);
    var t := WireAfter(line, WireInit(cfg), steps);
    var done := TopOf(t.pool.done);
    WholePieces(line, done, t.outs, |done|);
    assert done[..|done|] == done;
    assert Emissions(line, done) + [] == Emissions(line, done);
    ReadWire(line, bufferSize, t, top);
  }

  /** Of the jobs in front of the first failed one nothing is lost, whatever
      follows on the wire. */
  lemma ReadUpToFailure(line: Line, cfg: Config, top: nat, steps: seq<WireStep>, bufferSize: nat, n: nat)
    requires OnlyTop(cfg, top) && WireRuns(line, WireInit(cfg), steps)
    requires line.codes.Valid() && 0 < bufferSize && forall id :: |line.payload(id)| < WORD
    requires var t := WireAfter(line, WireInit(cfg), steps); Whole(line, TopOf(t.pool.done), t.outs, n)
    ensures var t := WireAfter(line, WireInit(cfg), steps);
            Payloads(line, TopOf(t.pool.done)[..n]) <= Frames.Run(line.codes, bufferSize, Frames.FRESH, t.wire).0.emitted
  {
    RunKeepsInv(line, cfg, top, steps);
    var t := WireAfter(line, WireInit(cfg), steps);
    var done := TopOf(t.pool.done);
    var first, rest := Emissions(line, done[..n]), Pieces(line, done[n..], t.outs[n..]);
    WholePieces(line, done, t.outs, n);
    Associative(first, rest, Part(line, t, top));
    EmissionsAreFrames(line, done[..n]);
    Frames.ReadWire(line.codes, bufferSize, [], Payloads(line, done[..n]), rest + Part(line, t, top));
    assert [] + Payloads(line, done[..n]) == Payloads(line, done[..n]);
    EmittedGrows(line.codes, bufferSize, Frames.Reader(Frames.Start(0), [], Payloads(line, done[..n])), rest + Part(line, t, top));
  }

  lemma {:induction false} EmittedGrows(codes: Frames.Codes, bufferSize: nat, r: Frames.Reader, stream: bytes)
    requires codes.Valid() && 0 < bufferSize && r.Armed()
    ensures r.emitted <= Frames.Run(codes, bufferSize, r, stream).0.emitted
    decreases |stream|
  {
    var n := Frames.Pending(r.stage, bufferSize);
    if n <= |stream| {
      EmittedGrows(codes, bufferSize, Frames.Handle(codes, r, stream[..n]), stream[n..]);
    }
  }

  lemma ReadWire(line: Line, bufferSize: nat, t: WireState, top: nat)
    requires line.codes.Valid() && 0 < bufferSize && forall id :: |line.payload(id)| < WORD
    requires top < |t.written| && t.wire == Emissions(line, TopOf(t.pool.done)) + Part(line, t, top)
    requires Sends(t.pool, top) ==> t.written[top] <= |Emission(line, t.pool.workers[top].pc.job)|
    ensures Frames.Run(line.codes, bufferSize, Frames.FRESH, t.wire).0.emitted
         == Payloads(line, TopOf(t.pool.done)
                     + if Sends(t.pool, top) && t.written[top] == |Emission(line, t.pool.workers[top].pc.job)|
                       then Current(t.pool, top) else [])
  {
    var done := TopOf(t.pool.done);
    EmissionsAreFrames(line, done);
    assert done + [] == done;
    if !Sends(t.pool, top) {
      Frames.FrameRoundTrip(line.codes, bufferSize, Payloads(line, done), [], 0);
      assert t.wire == Emissions(line, done);
    } else {
      var job := t.pool.workers[top].pc.job;
      var frame := Emission(line, job);
      if t.written[top] < |frame| {
        Frames.FrameRoundTrip(line.codes, bufferSize, Payloads(line, done), line.payload(job.id), t.written[top]);
      } else {
        assert Part(line, t, top) == frame;
        EmissionsLast(line, done, job);
        EmissionsAreFrames(line, done + [job]);
        Frames.FrameRoundTrip(line.codes, bufferSize, Payloads(line, done + [job]), [], 0);
      }
    }
  }

  /** In every run the jobs sent are among those pushed, in the order of the
      pushes; as long as nothing was destroyed, they are the first ones pushed. */
  lemma SentInPushOrder(line: Line, cfg: Config, top: nat, steps: seq<WireStep>)
    requires OnlyTop(cfg, top) && WireRuns(line, WireInit(cfg), steps)
    ensures var s := WireAfter(line, WireInit(cfg), steps).pool;
            var sent := TopOf(s.done) + Current(s, top);
            && Subsequence(sent, QueueOf(s.pool.pushed, Top))
            && (s.destroyed == multiset{} ==> sent <= QueueOf(s.pool.pushed, Top))
  {
    RunKeepsInv(line, cfg, top, steps);
    var s := WireAfter(line, WireInit(cfg), steps).pool;
    assert QueueOf(s.pool.pushed, Top) == Gone(s.pool, Top);
    SubsequenceOfLonger(TopOf(s.taken), QueueOf(s.pool.removed, Top), QueueOf(s.pool.queues, Top));
  }
}
