/** Which workers of a connection run the jobs of a message: DataHandler.cpp posts
    every job at a priority of its own, and `create_thread_pool` starts workers for
    some of the priorities. */
module JobRouting {
  import opened Bytes
  import opened JobPool
  import opened DataHandler
  import opened ThreadPool
  import Compressor
  import Drain
  import Pipeline
  import PoolMachine

  /** Where each kind of job belongs. */
  predicate AtItsPriority(job: Posted) {
    match job.task
    case Encrypt(_) => job.priority == Normal
    case Compress(_) => job.priority == High
    case Sending(_, _, _) => job.priority == Top
    case Decompress(_) => job.priority == Low
    case Decrypt(_) => job.priority == Normal
    case Receiving(_) => job.priority == High
  }

  lemma {:induction false} ChainKeepsPriorities(settings: Settings, job: Posted, k: nat)
    requires Readable(settings, job.task) && AtItsPriority(job)
    ensures AtItsPriority(Follow(settings, job, k))
    decreases k
  {
    if k > 0 && NextJob(settings, job.task).Some? {
      ChainKeepsPriorities(settings, NextJob(settings, job.task).value, k - 1);
    }
  }

  /** The kinds of the jobs of an outgoing message, one after the other. */
  lemma OutgoingJobs(settings: Settings, mode: Pipeline.Mode, data: bytes, k: nat)
    ensures var job := Follow(settings, FirstJob(mode, data), k);
            && AtItsPriority(job)
            && (job.task.Encrypt? <==> mode != Pipeline.Connection && k == 0)
            && (job.task.Compress? <==> k == if mode == Pipeline.Connection then 0 else 1)
            && (job.task.Encrypt? || job.task.Compress? || job.task.Sending?)
  {
    var first := FirstJob(mode, data);
    ChainKeepsPriorities(settings, first, k);
    if k > 0 {
      var second := NextJob(settings, first.task).value;
      Later(settings, second, k - 1);
    }
  }

  /** Behind a compress or a decrypt job there is one more job, the last. */
  lemma {:induction false} Later(settings: Settings, job: Posted, k: nat)
    requires job.task.Compress? || job.task.Sending? || job.task.Decrypt? || job.task.Receiving?
    ensures var last := Follow(settings, job, k).task;
            if k == 0 then last == job.task
            else if job.task.Compress? || job.task.Sending? then last.Sending?
            else last.Receiving?
    decreases k
  {
    if k > 0 && NextJob(settings, job.task).Some? {
      Later(settings, NextJob(settings, job.task).value, k - 1);
    }
  }

  /** The kinds of the jobs of a payload that was read. */
  lemma IncomingJobs(settings: Settings, payloads: seq<bytes>, i: nat, k: nat)
    requires i < |payloads| && Readable(settings, Decompress(payloads[i]))
    ensures ReadJobs(payloads)[i].task == Decompress(payloads[i])
    ensures var job := Follow(settings, ReadJobs(payloads)[i], k);
            && AtItsPriority(job)
            && (if k == 0 then job.task.Decompress? else if k == 1 then job.task.Decrypt? else job.task.Receiving?)
  {
    var first := ReadJobs(payloads)[i];
    ChainKeepsPriorities(settings, first, k);
    if k > 0 {
      Later(settings, NextJob(settings, first.task).value, k - 1);
    }
  }

  /** Of all jobs of a message, on either side, the sending job alone is posted at
      the highest priority, which one worker of a connection serves. */
  lemma TopIsSending(settings: Settings, mode: Pipeline.Mode, data: bytes, payload: bytes, k: nat)
    requires Readable(settings, Decompress(payload))
    ensures var job := Follow(settings, FirstJob(mode, data), k); job.priority == Top <==> job.task.Sending?
    ensures Follow(settings, ReadJobs([payload])[0], k).priority != Top
  {
    OutgoingJobs(settings, mode, data, k);
    IncomingJobs(settings, [payload], 0, k);
  }

  /** The workers of a session, or of a client, which has one more. */
  function PoolOf(high: nat, normal: nat, low: nat, client: bool): PoolMachine.Config {
    ConnectionWorkers(high, normal, low) + if client then [[LongTerm]] else []
  }

  lemma WhoServes(high: nat, normal: nat, low: nat, client: bool)
    ensures var cfg := PoolOf(high, normal, low, client);
            && Drain.Served(cfg, Top)
            && (Drain.Served(cfg, High) <==> high + normal + low > 0)
            && (Drain.Served(cfg, Normal) <==> normal + low > 0)
            && (Drain.Served(cfg, Low) <==> low > 0)
  {
    var cfg := PoolOf(high, normal, low, client);
    IsAConnection(high, normal, low, client);
    assert Drain.Serves(cfg, 0, Top);
    WhoServesHigh(cfg, high, normal, low, client);
    WhoServesNormal(cfg, high, normal, low, client);
    WhoServesLow(cfg, high, normal, low, client);
  }

  /** Every job on the way from `send` to the socket has a worker exactly if the
      pool has one for the first of them: any at all for a connection message, and
      one of the lower two kinds for the others. */
  lemma SentJobsAreServed(
    settings: Settings, mode: Pipeline.Mode, data: bytes, high: nat, normal: nat, low: nat, client: bool)
    ensures (forall k: nat :: Drain.Served(PoolOf(high, normal, low, client), Follow(settings, FirstJob(mode, data), k).priority))
       <==> if mode == Pipeline.Connection then high + normal + low > 0 else normal + low > 0
  {
    var cfg := PoolOf(high, normal, low, client);
    WhoServes(high, normal, low, client);
    forall k: nat
      ensures AtItsPriority(Follow(settings, FirstJob(mode, data), k))
      ensures mode == Pipeline.Connection ==> !Follow(settings, FirstJob(mode, data), k).task.Encrypt?
      ensures var task := Follow(settings, FirstJob(mode, data), k).task; task.Encrypt? || task.Compress? || task.Sending?
    {
      OutgoingJobs(settings, mode, data, k);
    }
    OutgoingJobs(settings, mode, data, 0);
    assert Drain.Served(cfg, Follow(settings, FirstJob(mode, data), 0).priority)
      <==> if mode == Pipeline.Connection then high + normal + low > 0 else normal + low > 0;
  }

  /** Every job on the way from the reader to the handler has a worker exactly if
      one serves the lowest of them. */
  lemma ReadJobsAreServed(
    settings: Settings, payloads: seq<bytes>, i: nat, high: nat, normal: nat, low: nat, client: bool)
    requires i < |payloads| && Readable(settings, Decompress(payloads[i]))
    ensures (forall k: nat :: Drain.Served(PoolOf(high, normal, low, client), Follow(settings, ReadJobs(payloads)[i], k).priority))
       <==> low > 0
  {
    var cfg := PoolOf(high, normal, low, client);
    WhoServes(high, normal, low, client);
    forall k: nat
      ensures AtItsPriority(Follow(settings, ReadJobs(payloads)[i], k))
      ensures var task := Follow(settings, ReadJobs(payloads)[i], k).task;
              task.Decompress? || task.Decrypt? || task.Receiving?
    {
      IncomingJobs(settings, payloads, i, k);
    }
    IncomingJobs(settings, payloads, i, 0);
    assert Drain.Served(cfg, Follow(settings, ReadJobs(payloads)[i], 0).priority) <==> low > 0;
  }
}
