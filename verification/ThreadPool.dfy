/** ThreadPool/ThreadPool.cpp, remove_workers, and the workers that
    Network/DataHandler.cpp creates. */
module ThreadPool {
  import opened Bytes
  import opened JobPool
  import PoolMachine
  import Drain
  import DrainFails

  // ----- remove_workers -----

  /** `std::remove_if` over a priority list. */
  function Without(priorities: seq<Priority>, p: Priority): (r: seq<Priority>) {
    if priorities == [] then []
    else (if priorities[0] == p then [] else [priorities[0]]) + Without(priorities[1..], p)
  }

  class ThreadWorker {
    var priorities: seq<Priority>
    var running: bool

    constructor (priorities: seq<Priority>)
      ensures this.priorities == priorities && !running
    {
      this.priorities, running := priorities, false;
    }

    /** Joins the thread, and reports whether there was one. */
    method Stop() returns (ok: bool)
      modifies this`running
      ensures !running && ok == old(running)
    {
      if !running {
        return false;
      }
      running := false;
      return true;
    }
  }

  class ThreadPool {
    var workers: seq<ThreadWorker>
    const pool: JobPool

    constructor ()
      ensures workers == [] && fresh(pool) && pool.View() == EMPTY
    {
      workers := [];
      pool := new JobPool();
    }

    /** Takes the priority from one worker, and stops it if no other is left. */
    static method Trim(worker: ThreadWorker, p: Priority) returns (stays: bool)
      modifies worker
      ensures worker.priorities == Without(old(worker.priorities), p)
      ensures stays <==> worker.priorities != []
      ensures worker.running == (old(worker.running) && stays)
    {
      var priorities := Without(worker.priorities, p);
      worker.priorities := priorities;
      if priorities != [] {
        return true;
      }
      var _ := worker.Stop();
      stays := false;
    }

    /** The test of `std::remove_if` on the worker at `i`. */
    static method TrimNext(workers: seq<ThreadWorker>, i: nat, p: Priority, ghost before: seq<(seq<Priority>, bool)>)
      returns (stays: bool)
      requires Distinct(workers) && i < |workers| == |before| && TrimmedUpTo(workers, before, p, i)
      modifies workers[i]
      ensures TrimmedUpTo(workers, before, p, i + 1)
      ensures stays <==> Without(before[i].0, p) != []
    {
      assert Untouched(workers[i], before[i]);
      stays := Trim(workers[i], p);
    }

    /** `std::remove_if` over the workers, with the trimming as its test. */
    static method TrimAll(workers: seq<ThreadWorker>, p: Priority) returns (kept: seq<ThreadWorker>)
      requires Distinct(workers)
      modifies workers
      ensures forall w :: w in workers ==> Trimmed(w, old(w.priorities), old(w.running), p)
      ensures Subsequence(kept, workers)
      ensures forall w :: w in kept ==> w in workers && w.priorities != []
      ensures forall w :: w in workers && w.priorities != [] ==> w in kept
    {
      ghost var before, flags := Snapshot(workers), Stays(workers, p);
      kept := [];
      for i := 0 to |workers|
        invariant TrimmedUpTo(workers, before, p, i)
        invariant IsSelection(kept, workers, flags, i)
      {
        var stays := TrimNext(workers, i, p, before);
        assert stays == flags[i];
        SelectNext(kept, workers, flags, i);
        if stays {
          kept := kept + [workers[i]];
        }
      }
      forall k | 0 <= k < |workers|
        ensures before[k] == (old(workers[k].priorities), old(workers[k].running))
      {
      }
      SelectedAreTrimmed(kept, workers, before, flags, p);
    }

    method RemoveWorkers(p: Priority) returns (count: nat)
      requires Conserved(pool.View()) && Distinct(workers)
      modifies this`workers, pool, workers
      ensures Conserved(pool.View()) && pool.View() == Apply(old(pool.View()), ClearOne(p))
      ensures forall w :: w in old(workers) ==> Trimmed(w, old(w.priorities), old(w.running), p)
      ensures forall w :: w in workers ==> w.priorities != [] && p !in w.priorities
      ensures forall w :: w in old(workers) && w.priorities != [] ==> w in workers
      ensures Subsequence(workers, old(workers)) && Distinct(workers)
      ensures count == |set w | w in old(workers) && w.priorities == []|
    {
      pool.ClearPriority(p);
      var kept := TrimAll(workers, p);
      SubsequenceMembers(kept, workers);
      ghost var dropped := set w | w in workers && w.priorities == [];
      SizeOfRest(kept, workers, dropped);
      count := |workers| - |kept|;
      forall w | w in kept ensures p !in w.priorities {
        WithoutConcat(old(w.priorities), [], p);
      }
      workers := kept;
      assert dropped == set w | w in old(workers) && w.priorities == [];
    }
  }

  /** In front of `n`, exactly the elements whose flag is set, in order. */
  predicate IsSelection<T(==)>(kept: seq<T>, items: seq<T>, flags: seq<bool>, n: nat) {
    && n <= |items| == |flags|
    && Subsequence(kept, items[..n])
    && (forall i :: 0 <= i < |kept| ==> exists k :: 0 <= k < n && flags[k] && items[k] == kept[i])
    && (forall k :: 0 <= k < n && flags[k] ==> items[k] in kept)
  }

  lemma SelectNext<T>(kept: seq<T>, items: seq<T>, flags: seq<bool>, n: nat)
    requires IsSelection(kept, items, flags, n) && n < |items|
    ensures IsSelection(if flags[n] then kept + [items[n]] else kept, items, flags, n + 1)
  {
    assert items[..n + 1] == items[..n] + [items[n]];
    if flags[n] {
      SubsequenceLast(kept, items[..n], items[n]);
    } else {
      SubsequenceOfLonger(kept, items[..n], [items[n]]);
    }
  }

  lemma SelectedAreTrimmed(
    kept: seq<ThreadWorker>, workers: seq<ThreadWorker>, before: seq<(seq<Priority>, bool)>, flags: seq<bool>, p: Priority)
    requires TrimmedUpTo(workers, before, p, |workers|) && IsSelection(kept, workers, flags, |workers|)
    requires forall k :: 0 <= k < |workers| ==> flags[k] == (Without(before[k].0, p) != [])
    ensures Subsequence(kept, workers)
    ensures forall k :: 0 <= k < |workers| ==> Trimmed(workers[k], before[k].0, before[k].1, p)
    ensures forall w :: w in kept ==> w in workers && w.priorities != []
    ensures forall w :: w in workers && w.priorities != [] ==> w in kept
  {
    assert workers[..|workers|] == workers;
    forall w | w in kept ensures w in workers && w.priorities != [] {
      var i :| 0 <= i < |kept| && kept[i] == w;
      var k :| 0 <= k < |workers| && flags[k] && workers[k] == kept[i];
    }
    forall w | w in workers && w.priorities != [] ensures w in kept {
      var k :| 0 <= k < |workers| && workers[k] == w;
      assert Trimmed(workers[k], before[k].0, before[k].1, p);
    }
  }

  /** The worker has lost `p`, and was stopped if that left it without a queue. */
  ghost predicate Trimmed(w: ThreadWorker, priorities: seq<Priority>, running: bool, p: Priority)
    reads w
  {
    w.priorities == Without(priorities, p) && w.running == (running && w.priorities != [])
  }

  ghost function Snapshot(workers: seq<ThreadWorker>): (s: seq<(seq<Priority>, bool)>)
    reads workers
    ensures |s| == |workers| && forall i :: 0 <= i < |workers| ==> Untouched(workers[i], s[i])
  {
    seq(|workers|, i requires 0 <= i < |workers| reads workers => (workers[i].priorities, workers[i].running))
  }

  /** The workers in front of `i` have been trimmed, the others not yet. */
  ghost predicate TrimmedUpTo(workers: seq<ThreadWorker>, before: seq<(seq<Priority>, bool)>, p: Priority, i: nat)
    reads workers
  {
    |before| == |workers|
    && forall k :: 0 <= k < |workers| ==>
         if k < i then Trimmed(workers[k], before[k].0, before[k].1, p) else Untouched(workers[k], before[k])
  }

  ghost predicate Untouched(w: ThreadWorker, before: (seq<Priority>, bool))
    reads w
  {
    w.priorities == before.0 && w.running == before.1
  }

  /** Which workers stay: the ones with another priority than `p`. */
  ghost function Stays(workers: seq<ThreadWorker>, p: Priority): (flags: seq<bool>)
    reads workers
    ensures |flags| == |workers|
    ensures forall i :: 0 <= i < |workers| ==> flags[i] == (Without(workers[i].priorities, p) != [])
  {
    seq(|workers|, i requires 0 <= i < |workers| reads workers => Without(workers[i].priorities, p) != [])
  }

  lemma {:induction false} WithoutConcat(a: seq<Priority>, b: seq<Priority>, p: Priority)
    ensures Without(a + b, p) == Without(a, p) + Without(b, p)
    ensures p !in Without(a, p)
    decreases |a|
  {
    if a == [] {
      assert a + b == b;
    } else {
      WithoutConcat(a[1..], b, p);
      assert (a + b)[0] == a[0] && (a + b)[1..] == a[1..] + b;
      Associative(if a[0] == p then [] else [a[0]], Without(a[1..], p), Without(b, p));
    }
  }

  /** The removed priority is gone, and every other one stays in its place among
      those in front of it and behind it. */
  lemma WithoutKeepsOthers(before: seq<Priority>, q: Priority, behind: seq<Priority>, p: Priority)
    ensures Without(before + [q] + behind, p)
         == Without(before, p) + (if q == p then [] else [q]) + Without(behind, p)
    ensures p !in Without(before, p)
  {
    WithoutConcat(before + [q], behind, p);
    WithoutConcat(before, [q], p);
    WithoutOne(q, p);
  }

  lemma WithoutOne(q: Priority, p: Priority)
    ensures Without([q], p) == if q == p then [] else [q]
  {
  }

  // ----- the pool of a connection -----

  /** One worker for Top, then the workers for each kind of message. */
  function ConnectionWorkers(high: nat, normal: nat, low: nat): PoolMachine.Config {
    [[Top]]
    + seq(high, _ => [High])
    + seq(normal, _ => [Normal, High])
    + seq(low, _ => [Low, High, Normal])
  }

  /** `DataHandler::create_thread_pool` */
  method CreateThreadPool(high: nat, normal: nat, low: nat) returns (workers: seq<seq<Priority>>)
    ensures workers == ConnectionWorkers(high, normal, low)
  {
    workers := [[Top]];
    for i := 0 to high
      invariant workers == [[Top]] + seq(i, _ => [High])
    {
      workers := workers + [[High]];
    }
    for i := 0 to normal
      invariant workers == [[Top]] + seq(high, _ => [High]) + seq(i, _ => [Normal, High])
    {
      workers := workers + [[Normal, High]];
    }
    for i := 0 to low
      invariant workers == [[Top]] + seq(high, _ => [High]) + seq(normal, _ => [Normal, High])
                           + seq(i, _ => [Low, High, Normal])
    {
      workers := workers + [[Low, High, Normal]];
    }
  }

  lemma WorkerLists(high: nat, normal: nat, low: nat, w: nat)
    requires w < 1 + high + normal + low
    ensures |ConnectionWorkers(high, normal, low)| == 1 + high + normal + low
    ensures ConnectionWorkers(high, normal, low)[w]
         == if w == 0 then [Top]
            else if w <= high then [High]
            else if w <= high + normal then [Normal, High]
            else [Low, High, Normal]
  {
  }

  /** Only the first worker ever takes a job of the highest priority. */
  lemma OneTopWorker(high: nat, normal: nat, low: nat, w: nat)
    ensures Drain.Serves(ConnectionWorkers(high, normal, low), w, Top) <==> w == 0
  {
  }

  lemma NotClosed(cfg: PoolMachine.Config, p: Priority, w: nat, q: Priority, u: nat)
    requires Drain.Leak(cfg, p, w, q, u)
    ensures !Drain.Closed(cfg, p)
  {
  }

  /** The list of worker `w`, and of the one more worker that a client has. */
  function ListAt(high: nat, normal: nat, low: nat, w: nat): seq<Priority> {
    if w == 0 then [Top]
    else if w <= high then [High]
    else if w <= high + normal then [Normal, High]
    else if w <= high + normal + low then [Low, High, Normal]
    else [LongTerm]
  }

  predicate IsConnection(cfg: PoolMachine.Config, high: nat, normal: nat, low: nat, client: bool) {
    && |cfg| == 1 + high + normal + low + (if client then 1 else 0)
    && forall w :: 0 <= w < |cfg| ==> cfg[w] == ListAt(high, normal, low, w)
  }

  lemma WhoServesHigh(cfg: PoolMachine.Config, high: nat, normal: nat, low: nat, client: bool)
    requires IsConnection(cfg, high, normal, low, client)
    ensures Drain.Served(cfg, High) <==> high + normal + low > 0
  {
    if high + normal + low > 0 {
      assert Drain.Serves(cfg, 1, High);
    }
  }

  lemma WhoServesNormal(cfg: PoolMachine.Config, high: nat, normal: nat, low: nat, client: bool)
    requires IsConnection(cfg, high, normal, low, client)
    ensures Drain.Served(cfg, Normal) <==> normal + low > 0
  {
    if normal + low > 0 {
      assert Drain.Serves(cfg, high + 1, Normal);
    }
  }

  lemma WhoServesLow(cfg: PoolMachine.Config, high: nat, normal: nat, low: nat, client: bool)
    requires IsConnection(cfg, high, normal, low, client)
    ensures Drain.Served(cfg, Low) <==> low > 0
  {
    if low > 0 {
      assert Drain.Serves(cfg, high + normal + 1, Low);
    }
  }

  lemma WhoServesLongTerm(cfg: PoolMachine.Config, high: nat, normal: nat, low: nat, client: bool)
    requires IsConnection(cfg, high, normal, low, client)
    ensures Drain.Served(cfg, LongTerm) <==> client
  {
    if client {
      assert Drain.Serves(cfg, high + normal + low + 1, LongTerm);
    }
  }

  lemma TopIsClosed(cfg: PoolMachine.Config, high: nat, normal: nat, low: nat, client: bool)
    requires IsConnection(cfg, high, normal, low, client)
    ensures Drain.Closed(cfg, Top)
  {
  }

  lemma HighIsClosed(cfg: PoolMachine.Config, high: nat, normal: nat, low: nat, client: bool)
    requires IsConnection(cfg, high, normal, low, client)
    ensures Drain.Closed(cfg, High)
  {
  }

  lemma LongTermIsClosed(cfg: PoolMachine.Config, high: nat, normal: nat, low: nat, client: bool)
    requires IsConnection(cfg, high, normal, low, client)
    ensures Drain.Closed(cfg, LongTerm)
  {
  }

  lemma NormalIsClosed(cfg: PoolMachine.Config, high: nat, normal: nat, low: nat, client: bool)
    requires IsConnection(cfg, high, normal, low, client)
    ensures Drain.Closed(cfg, Normal) <==> high == 0 || normal + low == 0
  {
    if high > 0 && normal + low > 0 {
      assert Drain.Leak(cfg, Normal, high + 1, High, 1);
      NotClosed(cfg, Normal, high + 1, High, 1);
    }
  }

  lemma LowIsClosed(cfg: PoolMachine.Config, high: nat, normal: nat, low: nat, client: bool)
    requires IsConnection(cfg, high, normal, low, client)
    ensures Drain.Closed(cfg, Low) <==> low == 0 || high + normal == 0
  {
    if low > 0 && high + normal > 0 {
      assert Drain.Leak(cfg, Low, high + normal + 1, High, 1);
      NotClosed(cfg, Low, high + normal + 1, High, 1);
    }
  }

  /** Which priorities a graceful stop of a connection's pool always drains: Top;
      High if there is any worker besides; Normal if it has a worker and there is
      no dedicated High one; Low if it has a worker and there is neither a High nor
      a Normal one; LongTerm in the pool of a client, which has one worker more. */
  lemma WhatAConnectionDrains(high: nat, normal: nat, low: nat, client: bool)
    ensures var cfg: PoolMachine.Config :=
              ConnectionWorkers(high, normal, low) + if client then [[LongTerm]] else [];
            && DrainFails.AlwaysDrains(cfg, Top)
            && (DrainFails.AlwaysDrains(cfg, High) <==> high + normal + low > 0)
            && (DrainFails.AlwaysDrains(cfg, Normal) <==> normal + low > 0 && high == 0)
            && (DrainFails.AlwaysDrains(cfg, Low) <==> low > 0 && high + normal == 0)
            && (DrainFails.AlwaysDrains(cfg, LongTerm) <==> client)
  {
    var cfg: PoolMachine.Config := ConnectionWorkers(high, normal, low) + if client then [[LongTerm]] else [];
    IsAConnection(high, normal, low, client);
    assert Drain.Serves(cfg, 0, Top);
    WhoServesHigh(cfg, high, normal, low, client);
    WhoServesNormal(cfg, high, normal, low, client);
    WhoServesLow(cfg, high, normal, low, client);
    WhoServesLongTerm(cfg, high, normal, low, client);
    TopIsClosed(cfg, high, normal, low, client);
    HighIsClosed(cfg, high, normal, low, client);
    LongTermIsClosed(cfg, high, normal, low, client);
    NormalIsClosed(cfg, high, normal, low, client);
    LowIsClosed(cfg, high, normal, low, client);
    forall p ensures Drain.Served(cfg, p) && Drain.Closed(cfg, p) <==> DrainFails.AlwaysDrains(cfg, p) {
      DrainFails.DrainsExactlyWhenClosed(cfg, p);
    }
  }

  lemma IsAConnection(high: nat, normal: nat, low: nat, client: bool)
    ensures IsConnection(ConnectionWorkers(high, normal, low) + (if client then [[LongTerm]] else []), high, normal, low, client)
  {
    var cfg: PoolMachine.Config := ConnectionWorkers(high, normal, low) + if client then [[LongTerm]] else [];
    WorkerLists(high, normal, low, 0);
    forall w | 0 <= w < |cfg| ensures cfg[w] == ListAt(high, normal, low, w) {
      if w < 1 + high + normal + low {
        WorkerLists(high, normal, low, w);
      }
    }
  }
}
