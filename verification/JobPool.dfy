/** ThreadPool/JobPool.cpp: one queue for every priority. A job is its identity
    and its priority; what it does when it runs is not part of this module. */
module JobPool {
  import opened Bytes
  import R = Runs

  datatype Priority = Top | High | Normal | Low | LongTerm

  datatype Job = Job(id: nat, priority: Priority)

  /** `std::map<JobPriorities, std::deque<...>>`: an absent queue counts as empty. */
  type Queues = map<Priority, seq<Job>>

  const PRIORITIES: seq<Priority> := [Top, High, Normal, Low, LongTerm]

  function QueueOf(queues: Queues, p: Priority): seq<Job> {
    if p in queues then queues[p] else []
  }

  function Enqueue(queues: Queues, job: Job): Queues {
    queues[job.priority := QueueOf(queues, job.priority) + [job]]
  }

  /** The first priority of the list with a job. */
  function FirstServed(queues: Queues, priorities: seq<Priority>): Option<Priority> {
    if priorities == [] then None
    else if QueueOf(queues, priorities[0]) != [] then Some(priorities[0])
    else FirstServed(queues, priorities[1..])
  }

  datatype Popped = Popped(job: Option<Job>, queues: Queues)

  function PopFrom(queues: Queues, priorities: seq<Priority>): Popped {
    match FirstServed(queues, priorities)
    case None => Popped(None, queues)
    case Some(p) =>
      if QueueOf(queues, p) == [] then Popped(None, queues)
      else Popped(Some(QueueOf(queues, p)[0]), queues[p := QueueOf(queues, p)[1..]])
  }

  function CountIn(queues: Queues, priorities: seq<Priority>): nat {
    if priorities == [] then 0
    else |QueueOf(queues, priorities[0])| + CountIn(queues, priorities[1..])
  }

  lemma FirstServedStep(queues: Queues, priorities: seq<Priority>, i: nat)
    requires i < |priorities|
    ensures FirstServed(queues, priorities[i..])
         == if QueueOf(queues, priorities[i]) != [] then Some(priorities[i]) else FirstServed(queues, priorities[i + 1..])
  {
  }

  // ----- history -----

  /** The queues together with every job pushed and every job taken out or
      destroyed, per priority and in order. */
  datatype History = History(queues: Queues, pushed: Queues, removed: Queues)

  const EMPTY := History(map[], map[], map[])

  datatype Op = Push(job: Job) | Pop(priorities: seq<Priority>) | Clear | ClearOne(priority: Priority)

  function Apply(h: History, op: Op): History {
    match op
    case Push(job) => h.(queues := Enqueue(h.queues, job), pushed := Enqueue(h.pushed, job))
    case Pop(priorities) =>
      var popped := PopFrom(h.queues, priorities);
      if popped.job.None? then h
      else h.(queues := popped.queues, removed := Enqueue(h.removed, popped.job.value))
    case Clear => h.(queues := map[], removed := Drained(h))
    case ClearOne(p) =>
      h.(queues := h.queues - {p}, removed := h.removed[p := Gone(h, p)])
  }

  function Gone(h: History, p: Priority): seq<Job> {
    QueueOf(h.removed, p) + QueueOf(h.queues, p)
  }

  /** Everything removed once all queues are destroyed. */
  function Drained(h: History): Queues {
    map[Top := Gone(h, Top), High := Gone(h, High), Normal := Gone(h, Normal), Low := Gone(h, Low),
        LongTerm := Gone(h, LongTerm)]
  }

  /** Every job is queued under its own priority, and for every priority what was
      pushed is what was removed and then what is still queued. */
  ghost predicate Conserved(h: History) {
    && (forall p :: Homed(h, p))
    && forall p :: QueueOf(h.pushed, p) == Gone(h, p)
  }

  predicate Homed(h: History, p: Priority) {
    forall i :: 0 <= i < |QueueOf(h.queues, p)| ==> QueueOf(h.queues, p)[i].priority == p
  }

  // ----- the pool -----

  class JobPool {
    var queues: Queues
    var locked: bool
    /** The calls of the notify callback, in order. */
    var notified: seq<Priority>
    ghost var pushed: Queues
    ghost var removed: Queues

    ghost function View(): History
      reads this
    {
      History(queues, pushed, removed)
    }

    constructor ()
      ensures View() == EMPTY && !locked && notified == []
    {
      queues, locked, notified := map[], false, [];
      pushed, removed := map[], map[];
    }

    method Lock(condition: bool)
      modifies this`locked
      ensures locked == condition
    {
      locked := condition;
    }

    method Push(job: Option<Job>) returns (ok: bool)
      requires Conserved(View())
      modifies this
      ensures Conserved(View()) && locked == old(locked)
      ensures ok <==> job.Some? && !old(locked)
      ensures View() == if ok then Apply(old(View()), Op.Push(job.value)) else old(View())
      ensures notified == if ok then old(notified) + [job.value.priority] else old(notified)
    {
      if job.None? {
        return false;
      }
      if locked {
        return false;
      }
      var priority := job.value.priority;
      ApplyConserves(View(), Op.Push(job.value));
      if priority in queues {
        queues := queues[priority := queues[priority] + [job.value]];
      } else {
        queues := queues[priority := [job.value]];
        assert [] + [job.value] == [job.value];
      }
      pushed := Enqueue(pushed, job.value);
      notified := notified + [priority];
      ok := true;
    }

    method Pop(priorities: seq<Priority>) returns (job: Option<Job>)
      requires Conserved(View())
      modifies this`queues, this`removed
      ensures Conserved(View()) && locked == old(locked) && notified == old(notified)
      ensures View() == Apply(old(View()), Op.Pop(priorities))
      ensures job == PopFrom(old(queues), priorities).job
    {
      if priorities == [] {
        return None;
      }
      ApplyConserves(View(), Op.Pop(priorities));
      ghost var first := FirstServed(queues, priorities);
      var i := 0;
      assert priorities[0..] == priorities;
      while i < |priorities|
        invariant 0 <= i <= |priorities| && queues == old(queues) && View() == old(View())
        invariant first == FirstServed(queues, priorities[i..])
      {
        var priority := priorities[i];
        FirstServedStep(queues, priorities, i);
        if priority !in queues || queues[priority] == [] {
          i := i + 1;
          continue;
        }
        var result := queues[priority][0];
        queues := queues[priority := queues[priority][1..]];
        removed := Enqueue(removed, result);
        return Some(result);
      }
      job := None;
    }

    method Clear()
      requires Conserved(View())
      modifies this
      ensures Conserved(View()) && locked == old(locked) && notified == old(notified)
      ensures View() == Apply(old(View()), Op.Clear)
    {
      ApplyConserves(View(), Op.Clear);
      removed := Drained(View());
      queues := map[];
    }

    method ClearPriority(priority: Priority)
      requires Conserved(View())
      modifies this
      ensures Conserved(View()) && locked == old(locked) && notified == old(notified)
      ensures View() == Apply(old(View()), ClearOne(priority))
    {
      ApplyConserves(View(), ClearOne(priority));
      removed := removed[priority := Gone(View(), priority)];
      if priority !in queues {
        assert queues - {priority} == queues;
        return;
      }
      queues := queues - {priority};
    }

    /** With no priorities given, every queue is counted. */
    method JobCount(priorities: seq<Priority>) returns (count: nat)
      ensures count == CountIn(queues, if priorities == [] then PRIORITIES else priorities)
    {
      var wanted := if priorities == [] then PRIORITIES else priorities;
      count := 0;
      var i := 0;
      assert wanted[0..] == wanted;
      while i < |wanted|
        invariant 0 <= i <= |wanted|
        invariant count + CountIn(queues, wanted[i..]) == CountIn(queues, wanted)
      {
        assert wanted[i..][1..] == wanted[i + 1..];
        count := count + |QueueOf(queues, wanted[i])|;
        i := i + 1;
      }
    }
  }

  // ----- properties -----

  lemma {:induction false} FirstServedIsFirst(queues: Queues, priorities: seq<Priority>)
    ensures match FirstServed(queues, priorities)
            case None => forall i :: 0 <= i < |priorities| ==> QueueOf(queues, priorities[i]) == []
            case Some(p) =>
              exists k :: 0 <= k < |priorities| && priorities[k] == p && QueueOf(queues, p) != []
                       && forall i :: 0 <= i < k ==> QueueOf(queues, priorities[i]) == []
  {
    if priorities != [] && QueueOf(queues, priorities[0]) == [] {
      FirstServedIsFirst(queues, priorities[1..]);
      match FirstServed(queues, priorities[1..])
      case None =>
      case Some(p) =>
        var k :| 0 <= k < |priorities| - 1 && priorities[1..][k] == p
              && forall i :: 0 <= i < k ==> QueueOf(queues, priorities[1..][i]) == [];
        assert priorities[k + 1] == p;
        forall i | 0 <= i < k + 1 ensures QueueOf(queues, priorities[i]) == [] {
          if i > 0 {
            assert priorities[1..][i - 1] == priorities[i];
          }
        }
    }
  }

  /** A worker is told there is a job exactly when a pop would return one. */
  lemma {:induction false} CountMeansPop(queues: Queues, priorities: seq<Priority>)
    ensures CountIn(queues, priorities) > 0 <==> PopFrom(queues, priorities).job.Some?
  {
    if priorities != [] {
      CountMeansPop(queues, priorities[1..]);
      FirstServedIsFirst(queues, priorities[1..]);
    }
  }

  /** A pop takes the head of the first non-empty queue of the list and leaves
      every other queue as it was. */
  lemma PopTakesHead(queues: Queues, priorities: seq<Priority>)
    ensures var popped := PopFrom(queues, priorities);
            if popped.job.None? then
              popped.queues == queues && forall i :: 0 <= i < |priorities| ==> QueueOf(queues, priorities[i]) == []
            else
              exists k :: 0 <= k < |priorities| && TookHead(queues, popped, priorities[k])
                       && forall i :: 0 <= i < k ==> QueueOf(queues, priorities[i]) == []
  {
    FirstServedIsFirst(queues, priorities);
    match FirstServed(queues, priorities)
    case None =>
    case Some(p) =>
      var k :| 0 <= k < |priorities| && priorities[k] == p && QueueOf(queues, p) != []
            && forall i :: 0 <= i < k ==> QueueOf(queues, priorities[i]) == [];
      assert TookHead(queues, PopFrom(queues, priorities), priorities[k]);
  }

  ghost predicate TookHead(queues: Queues, popped: Popped, p: Priority) {
    && popped.job.Some?
    && QueueOf(queues, p) == [popped.job.value] + QueueOf(popped.queues, p)
    && forall q :: q != p ==> QueueOf(popped.queues, q) == QueueOf(queues, q)
  }

  /** Clearing empties every queue, or the one it is told; the jobs of that queue are
      the ones removed, and no other queue is touched. */
  lemma ClearEmpties(h: History, p: Priority, q: Priority)
    ensures QueueOf(Apply(h, Op.Clear).queues, q) == []
    ensures QueueOf(Apply(h, Op.Clear).removed, q) == QueueOf(h.removed, q) + QueueOf(h.queues, q)
    ensures QueueOf(Apply(h, ClearOne(p)).queues, q) == if q == p then [] else QueueOf(h.queues, q)
    ensures QueueOf(Apply(h, ClearOne(p)).removed, q)
         == if q == p then QueueOf(h.removed, p) + QueueOf(h.queues, p) else QueueOf(h.removed, q)
    ensures Apply(h, Op.Clear).pushed == Apply(h, ClearOne(p)).pushed == h.pushed
  {
  }

  /** The jobs in the queues of a list of priorities. */
  function QueuedIn(queues: Queues, priorities: seq<Priority>): seq<Job> {
    if priorities == [] then []
    else QueuedIn(queues, priorities[..|priorities| - 1]) + QueueOf(queues, priorities[|priorities| - 1])
  }

  /** Of two lists the count is the sum, and of one priority its queue's length. */
  lemma {:induction false} CountAdds(queues: Queues, a: seq<Priority>, b: seq<Priority>, p: Priority)
    ensures CountIn(queues, a + b) == CountIn(queues, a) + CountIn(queues, b)
    ensures CountIn(queues, [p]) == |QueueOf(queues, p)|
    decreases |a|
  {
    if a == [] {
      assert a + b == b;
    } else {
      CountAdds(queues, a[1..], b, p);
      assert (a + b)[1..] == a[1..] + b && (a + b)[0] == a[0];
    }
  }

  /** The count is the number of jobs in the queues of the list. */
  lemma {:induction false} CountIsQueued(queues: Queues, priorities: seq<Priority>)
    ensures CountIn(queues, priorities) == |QueuedIn(queues, priorities)|
    decreases |priorities|
  {
    if priorities != [] {
      var front, last := priorities[..|priorities| - 1], priorities[|priorities| - 1];
      CountIsQueued(queues, front);
      CountAdds(queues, front, [last], last);
      assert priorities == front + [last];
    }
  }

  lemma PushConserves(h: History, job: Job)
    requires Conserved(h)
    ensures Conserved(Apply(h, Op.Push(job)))
  {
    var p, after := job.priority, Apply(h, Op.Push(job));
    assert Homed(h, p);
    Associative(QueueOf(h.removed, p), QueueOf(h.queues, p), [job]);
    forall q ensures Homed(after, q) && QueueOf(after.pushed, q) == Gone(after, q) {
      assert Homed(h, q) && QueueOf(h.pushed, q) == Gone(h, q);
    }
  }

  lemma PopConserves(h: History, priorities: seq<Priority>)
    requires Conserved(h)
    ensures Conserved(Apply(h, Op.Pop(priorities)))
  {
    PopTakesHead(h.queues, priorities);
    var popped, after := PopFrom(h.queues, priorities), Apply(h, Op.Pop(priorities));
    if popped.job.Some? {
      var k :| 0 <= k < |priorities| && TookHead(h.queues, popped, priorities[k]);
      var p, job := priorities[k], popped.job.value;
      assert Homed(h, p) && QueueOf(h.queues, p)[0] == job;
      Associative(QueueOf(h.removed, p), [job], QueueOf(popped.queues, p));
      forall q ensures Homed(after, q) && QueueOf(after.pushed, q) == Gone(after, q) {
        assert Homed(h, q) && QueueOf(h.pushed, q) == Gone(h, q);
        if q == p {
          assert forall i :: 0 <= i < |QueueOf(after.queues, p)| ==>
            QueueOf(after.queues, p)[i] == QueueOf(h.queues, p)[i + 1];
        }
      }
    }
  }

  lemma ClearRemoves(h: History, p: Priority)
    ensures QueueOf(Apply(h, Op.Clear).removed, p) == Gone(h, p)
  {
  }

  lemma ClearConserves(h: History)
    requires Conserved(h)
    ensures Conserved(Apply(h, Op.Clear))
  {
    var after := Apply(h, Op.Clear);
    forall q ensures Homed(after, q) && QueueOf(after.pushed, q) == Gone(after, q) {
      assert QueueOf(h.pushed, q) == Gone(h, q);
      ClearRemoves(h, q);
    }
  }

  lemma ClearOneConserves(h: History, p: Priority)
    requires Conserved(h)
    ensures Conserved(Apply(h, ClearOne(p)))
  {
    var after := Apply(h, ClearOne(p));
    forall q ensures Homed(after, q) && QueueOf(after.pushed, q) == Gone(after, q) {
      assert Homed(h, q) && QueueOf(h.pushed, q) == Gone(h, q);
    }
  }

  lemma ApplyConserves(h: History, op: Op)
    requires Conserved(h)
    ensures Conserved(Apply(h, op))
  {
    match op
    case Push(job) => PushConserves(h, job);
    case Pop(priorities) => PopConserves(h, priorities);
    case Clear => ClearConserves(h);
    case ClearOne(p) => ClearOneConserves(h, p);
  }

  /** Over every run of the four operations, no job is lost, duplicated or
      overtaken by a job of its own priority. */
  lemma EveryRunConserves(h: History, ops: seq<Op>)
    requires Conserved(h)
    ensures Conserved(R.After(Apply, h, ops))
  {
    var inv := (x: History) => Conserved(x);
    forall x, op | inv(x) ensures inv(Apply(x, op)) {
      ApplyConserves(x, op);
    }
    R.Kept(Apply, inv, h, ops);
  }
}
