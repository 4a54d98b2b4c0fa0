/** Network/FileManager.cpp: batches of files. A report is recorded in one
    critical section and the batch is looked at in a second one, so that any
    other thread may come in between; a full batch is delivered by a job of the
    pool, in a third. */
module FileManager {
  import opened Bytes
  import Converter
  import R = Runs

  type Guid = bytes

  datatype Report = Failure(message: bytes) | Success(message: bytes, path: bytes)

  /** `ReceivedConditions` */
  datatype Batch = Batch(count: nat, failures: seq<bytes>, successes: seq<(bytes, bytes)>) {
    function Total(): nat { |failures| + |successes| }

    function Add(report: Report): Batch {
      match report
      case Failure(message) => this.(failures := failures + [message])
      case Success(message, path) => this.(successes := successes + [(message, path)])
    }
  }

  type Table = map<Guid, Batch>

  datatype Event =
    | Started(guid: Guid, count: nat)
    | Recorded(guid: Guid, report: Report)
    | Delivered(guid: Guid, batch: Batch)

  /** The manager, the callback jobs it has queued, the guids whose callback job
      the pool refused, and all that has happened. */
  datatype Core = Core(table: Table, queued: seq<Guid>, refused: set<Guid>, history: seq<Event>)

  const EMPTY := Core(map[], [], {}, [])

  // ----- the four critical sections -----

  function StartIn(c: Core, guid: Guid, count: nat): Core {
    if guid in c.table then c
    else c.(table := c.table[guid := Batch(count, [], [])], history := c.history + [Started(guid, count)])
  }

  function RecordIn(c: Core, guid: Guid, report: Report): Core {
    if guid !in c.table then c
    else c.(table := c.table[guid := c.table[guid].Add(report)], history := c.history + [Recorded(guid, report)])
  }

  function CheckIn(c: Core, guid: Guid, accepted: bool): Core {
    if guid !in c.table || c.table[guid].count != c.table[guid].Total() then c
    else if accepted then c.(queued := c.queued + [guid])
    else c.(refused := c.refused + {guid})
  }

  /** The guid travels to the callback as bytes. */
  function KeyOf(job: Guid): Guid {
    Converter.ToString(Converter.ToArray(job))
  }

  function CallbackIn(c: Core, job: Guid): Core {
    var key := KeyOf(job);
    if key !in c.table then c
    else c.(table := c.table - {key}, history := c.history + [Delivered(key, c.table[key])])
  }

  /** The callback job that is posted for a guid finds the batch of that guid, and
      takes it out of the table, exactly if the guid does not begin with a byte order
      mark; a marked one leaves it there. */
  lemma MarkedGuidIsMissed(c: Core, guid: Guid)
    requires guid in c.table
    ensures guid in CallbackIn(c, guid).table <==> [0xef, 0xbb, 0xbf] <= guid
    ensures !([0xef, 0xbb, 0xbf] <= guid) ==>
              CallbackIn(c, guid).history == c.history + [Delivered(guid, c.table[guid])]
  {
    Converter.MarkLosesTwoBytes(guid);
    assert [0xef, 0xbb, 0xbf] <= guid ==> |KeyOf(guid)| == |guid| - 2;
  }

  class FileManager {
    var conditions: Table
    var queued: seq<Guid>
    var refused: set<Guid>
    /** Whether the pool refuses jobs. */
    var locked: bool
    var delivered: seq<Batch>
    ghost var history: seq<Event>

    ghost function View(): Core
      reads this
    {
      Core(conditions, queued, refused, history)
    }

    constructor ()
      ensures View() == EMPTY && delivered == []
    {
      conditions, queued, refused, locked, delivered, history := map[], [], {}, false, [], [];
    }

    method Start(guid: Guid, count: nat) returns (ok: bool)
      modifies this`conditions, this`history
      ensures ok == (guid !in old(conditions)) && View() == StartIn(old(View()), guid, count)
    {
      if guid in conditions {
        return false;
      }
      conditions := conditions[guid := Batch(count, [], [])];
      history := history + [Started(guid, count)];
      return true;
    }

    method Record(guid: Guid, report: Report) returns (ok: bool)
      modifies this`conditions, this`history
      ensures ok == (guid in old(conditions)) && View() == RecordIn(old(View()), guid, report)
    {
      if guid !in conditions {
        return false;
      }
      conditions := conditions[guid := conditions[guid].Add(report)];
      history := history + [Recorded(guid, report)];
      return true;
    }

    method CheckCondition(guid: Guid) returns (ok: bool)
      modifies this`queued, this`refused
      ensures View() == CheckIn(old(View()), guid, !locked)
      ensures ok == (guid in conditions && (conditions[guid].count == conditions[guid].Total() ==> !locked))
    {
      if guid !in conditions {
        return false;
      }
      if conditions[guid].count != |conditions[guid].failures| + |conditions[guid].successes| {
        return true;
      }
      if locked {
        refused := refused + {guid};
        return false;
      }
      queued := queued + [guid];
      return true;
    }

    /** One report with nothing in between: record, then check. */
    method RecordFailure(guid: Guid, message: bytes) returns (ok: bool)
      modifies this`conditions, this`history, this`queued, this`refused
      ensures ok == (guid in conditions && (conditions[guid].count == conditions[guid].Total() ==> !locked))
      ensures View() == if guid in old(conditions)
                        then CheckIn(RecordIn(old(View()), guid, Failure(message)), guid, !locked)
                        else old(View())
    {
      ok := Record(guid, Failure(message));
      if ok {
        ok := CheckCondition(guid);
      }
    }

    method RecordSuccess(guid: Guid, message: bytes, path: bytes) returns (ok: bool)
      modifies this`conditions, this`history, this`queued, this`refused
      ensures ok == (guid in conditions && (conditions[guid].count == conditions[guid].Total() ==> !locked))
      ensures View() == if guid in old(conditions)
                        then CheckIn(RecordIn(old(View()), guid, Success(message, path)), guid, !locked)
                        else old(View())
    {
      ok := Record(guid, Success(message, path));
      if ok {
        ok := CheckCondition(guid);
      }
    }

    /** The callback job: the batch is handed over and forgotten. */
    method CheckConditionCallback(job: Guid) returns (ok: bool)
      modifies this`conditions, this`history, this`delivered
      ensures ok == (KeyOf(job) in old(conditions)) && View() == CallbackIn(old(View()), job)
      ensures delivered == old(delivered) + if ok then [old(conditions)[KeyOf(job)]] else []
    {
      var key := Converter.ToString(Converter.ToArray(job));
      if key !in conditions {
        return false;
      }
      var batch := conditions[key];
      conditions := conditions - {key};
      history := history + [Delivered(key, batch)];
      delivered := delivered + [batch];
      return true;
    }
  }

  // ----- threads -----

  /** The manager and the threads that have recorded a report and not yet checked. */
  datatype State = State(core: Core, checks: seq<Guid>)

  datatype Step =
    | Start(guid: Guid, count: nat)
    | Report(guid: Guid, report: Report)
    | Check(thread: nat, accepted: bool)   // the pool takes the job or refuses it
    | Callback(job: nat)

  predicate Enabled(s: State, step: Step) {
    match step
    case Start(_, _) => true
    case Report(_, _) => true
    case Check(i, _) => i < |s.checks|
    case Callback(j) => j < |s.core.queued|
  }

  function Do(s: State, step: Step): State {
    if !Enabled(s, step) then s else
    match step
    case Start(g, n) => State(StartIn(s.core, g, n), s.checks)
    case Report(g, report) => State(RecordIn(s.core, g, report), if g in s.core.table then s.checks + [g] else s.checks)
    case Check(i, accepted) => State(CheckIn(s.core, s.checks[i], accepted), R.Omit(s.checks, i))
    case Callback(j) => State(CallbackIn(s.core, s.core.queued[j]).(queued := R.Omit(s.core.queued, j)), s.checks)
  }

  const INIT := State(EMPTY, [])

  predicate IsRun(s: State, steps: seq<Step>) {
    R.Valid(Enabled, Do, s, steps)
  }

  function After(s: State, steps: seq<Step>): State {
    R.After(Do, s, steps)
  }

  // ----- what has been delivered -----

  /** The batch of a guid that is open after a history. */
  function Opened(history: seq<Event>, guid: Guid): Option<Batch> {
    if history == [] then None
    else
      var before := Opened(history[..|history| - 1], guid);
      match history[|history| - 1]
      case Started(g, n) => if g == guid then Some(Batch(n, [], [])) else before
      case Recorded(g, report) => if g == guid && before.Some? then Some(before.value.Add(report)) else before
      case Delivered(g, _) => if g == guid then None else before
  }

  function Lookup(table: Table, guid: Guid): Option<Batch> {
    if guid in table then Some(table[guid]) else None
  }

  /** Whether an event can come next: batches are not started over, reports go to
      open batches, and whatever is delivered is open with exactly its reports. */
  predicate Fits(history: seq<Event>, e: Event) {
    match e
    case Started(g, _) => Opened(history, g) == None
    case Recorded(g, _) => Opened(history, g).Some?
    case Delivered(g, batch) => Opened(history, g) == Some(batch)
  }

  ghost predicate Exact(history: seq<Event>) {
    forall k :: 0 <= k < |history| ==> Fits(history[..k], history[k])
  }

  ghost predicate Faithful(c: Core) {
    && (forall g :: Opened(c.history, g) == Lookup(c.table, g))
    && Exact(c.history)
  }

  lemma OpenedAfter(history: seq<Event>, e: Event, guid: Guid)
    ensures Opened(history + [e], guid)
         == match e
            case Started(g, n) => if g == guid then Some(Batch(n, [], [])) else Opened(history, guid)
            case Recorded(g, report) =>
              if g == guid && Opened(history, guid).Some? then Some(Opened(history, guid).value.Add(report))
              else Opened(history, guid)
            case Delivered(g, _) => if g == guid then None else Opened(history, guid)
  {
  }

  lemma ExactAfter(history: seq<Event>, e: Event)
    requires Exact(history)
    requires Fits(history, e)
    ensures Exact(history + [e])
  {
    var longer := history + [e];
    forall k | 0 <= k < |longer| ensures Fits(longer[..k], longer[k]) {
      assert longer[..k] == history[..k];
      assert history[..|history|] == history;
    }
  }

  /** A change of one entry together with its event. */
  lemma FaithfulAfter(c: Core, d: Core, e: Event)
    requires Faithful(c) && d.history == c.history + [e]
    requires Fits(c.history, e)
    requires forall g :: g != e.guid ==> Lookup(d.table, g) == Lookup(c.table, g)
    requires Opened(d.history, e.guid) == Lookup(d.table, e.guid)
    ensures Faithful(d)
  {
    ExactAfter(c.history, e);
    forall g ensures Opened(d.history, g) == Lookup(d.table, g) {
      OpenedAfter(c.history, e, g);
    }
  }

  lemma StepKeepsFaithful(s: State, step: Step)
    requires Faithful(s.core) && Enabled(s, step)
    ensures Faithful(Do(s, step).core)
  {
    var c, d := s.core, Do(s, step).core;
    if d.history != c.history {
      var e := d.history[|c.history|];
      assert d.history == c.history + [e];
      OpenedAfter(c.history, e, e.guid);
      assert Opened(c.history, e.guid) == Lookup(c.table, e.guid);
      FaithfulAfter(c, d, e);
    }
  }

  // ----- neither lost nor early -----

  predicate Full(c: Core, guid: Guid) {
    guid in c.table && c.table[guid].Total() == c.table[guid].count
  }

  /** What the callers of a batch owe it: a guid that survives the conversion and
      has no callback job from an earlier batch, at least one report to wait for,
      and no report too many. */
  predicate Careful(s: State, step: Step) {
    match step
    case Start(g, n) => 0 < n && !Converter.HasByteOrderMark(g) && g !in s.core.queued
    case Report(g, _) => g in s.core.table ==> s.core.table[g].Total() < s.core.table[g].count
    case Check(_, _) => true
    case Callback(_) => true
  }

  predicate Permitted(s: State, step: Step) {
    Enabled(s, step) && Careful(s, step)
  }

  predicate IsCarefulRun(s: State, steps: seq<Step>) {
    R.Valid(Permitted, Do, s, steps)
  }

  /** Someone will still deliver a full batch, or the pool refused to. */
  predicate Cared(s: State, guid: Guid) {
    guid in s.checks || guid in s.core.queued || guid in s.core.refused
  }

  ghost predicate Safe(s: State) {
    && (forall g :: g in s.core.queued || g in s.core.table ==> !Converter.HasByteOrderMark(g))
    && (forall g :: g in s.core.table ==> 0 < s.core.table[g].count && s.core.table[g].Total() <= s.core.table[g].count)
    && (forall g :: g in s.core.queued && g in s.core.table ==> Full(s.core, g))
    && (forall g :: Full(s.core, g) ==> Cared(s, g))
    && (forall g :: g in s.checks ==> !Converter.HasByteOrderMark(g))
  }

  ghost predicate FullDeliveries(history: seq<Event>) {
    forall k :: 0 <= k < |history| && history[k].Delivered? ==> history[k].batch.Total() == history[k].batch.count
  }

  lemma StartKeepsSafe(s: State, g: Guid, n: nat)
    requires Safe(s) && Careful(s, Start(g, n))
    ensures Safe(Do(s, Start(g, n)))
  {
    var t := Do(s, Start(g, n));
    forall h | Full(t.core, h) ensures Cared(t, h) {
      assert Full(s.core, h);
    }
  }

  lemma ReportKeepsSafe(s: State, g: Guid, report: Report)
    requires Safe(s) && Careful(s, Step.Report(g, report))
    ensures Safe(Do(s, Step.Report(g, report)))
  {
    var t := Do(s, Step.Report(g, report));
    if g in s.core.table {
      assert !Full(s.core, g);
      forall h | Full(t.core, h) ensures Cared(t, h) {
        if h != g {
          assert Full(s.core, h) && Cared(s, h);
        } else {
          assert g in t.checks;
        }
      }
    }
  }

  lemma CheckKeepsSafe(s: State, i: nat, accepted: bool)
    requires Safe(s) && i < |s.checks|
    ensures Safe(Do(s, Check(i, accepted)))
  {
    var t, g := Do(s, Check(i, accepted)), s.checks[i];
    assert g in s.checks;
    forall h | Full(t.core, h) ensures Cared(t, h) {
      assert Full(s.core, h) && Cared(s, h);
      assert h == g && accepted ==> t.core.queued == s.core.queued + [g];
      assert h == g && !accepted ==> g in t.core.refused;
    }
    assert forall h :: h in t.core.queued ==> h in s.core.queued || (h == g && Full(s.core, g));
  }

  lemma CallbackKeepsSafe(s: State, j: nat)
    requires Safe(s) && j < |s.core.queued|
    ensures Safe(Do(s, Callback(j)))
    ensures s.core.queued[j] in s.core.table ==> Full(s.core, s.core.queued[j])
  {
    var t, g := Do(s, Callback(j)), s.core.queued[j];
    assert g in s.core.queued;
    assert KeyOf(g) == g;
    forall h | Full(t.core, h) ensures Cared(t, h) {
      assert h != g && Full(s.core, h) && Cared(s, h);
    }
  }

  ghost predicate Inv(s: State) {
    Safe(s) && Faithful(s.core) && FullDeliveries(s.core.history)
  }

  lemma StepKeepsInv(s: State, step: Step)
    requires Inv(s) && Enabled(s, step) && Careful(s, step)
    ensures Inv(Do(s, step))
  {
    StepKeepsFaithful(s, step);
    match step
    case Start(g, n) => StartKeepsSafe(s, g, n);
    case Report(g, report) => ReportKeepsSafe(s, g, report);
    case Check(i, accepted) => CheckKeepsSafe(s, i, accepted);
    case Callback(j) =>
      CallbackKeepsSafe(s, j);
      assert s.core.queued[j] in s.core.queued;
      assert KeyOf(s.core.queued[j]) == s.core.queued[j];
  }

  /** In every careful run, however the threads interleave: what was delivered is
      exactly an open batch with all its reports and none besides; a batch that
      has all its reports still has a check or a callback job to come, unless the
      pool refused the job; and if nothing is pending and nothing was refused, no
      full batch is left. */
  lemma BatchesAreDelivered(steps: seq<Step>)
    requires IsCarefulRun(INIT, steps)
    ensures var s := After(INIT, steps);
            && Exact(s.core.history) && FullDeliveries(s.core.history)
            && (forall g :: Opened(s.core.history, g) == Lookup(s.core.table, g))
            && (forall g :: Full(s.core, g) ==> Cared(s, g))
            && (s.checks == [] && s.core.queued == [] && s.core.refused == {} ==>
                  forall g :: g in s.core.table ==> s.core.table[g].Total() < s.core.table[g].count)
  {
    CarefulKeepsInv(steps);
    var s := After(INIT, steps);
    if s.checks == [] && s.core.queued == [] && s.core.refused == {} {
      forall g | g in s.core.table ensures s.core.table[g].Total() < s.core.table[g].count {
        assert !Full(s.core, g) by {
          assert !Cared(s, g);
        }
      }
    }
  }

  // ----- reading a history -----

  function Count(history: seq<Event>, guid: Guid, started: bool): nat {
    if history == [] then 0
    else
      var last := history[|history| - 1];
      Count(history[..|history| - 1], guid, started)
      + if last.guid == guid && (if started then last.Started? else last.Delivered?) then 1 else 0
  }

  /** Nothing is delivered twice: every delivery uses up one start. */
  lemma {:induction false} DeliveredOnce(history: seq<Event>, guid: Guid)
    requires Exact(history)
    ensures Count(history, guid, true) == Count(history, guid, false) + if Opened(history, guid).Some? then 1 else 0
    decreases |history|
  {
    if history != [] {
      var before := history[..|history| - 1];
      assert Exact(before) by {
        assert forall k :: 0 <= k < |before| ==> before[..k] == history[..k] && before[k] == history[k];
      }
      DeliveredOnce(before, guid);
      assert Fits(history[..|history| - 1], history[|history| - 1]);
    }
  }

  /** The reports of one guid, in order. */
  function Reports(history: seq<Event>, guid: Guid): seq<Report> {
    if history == [] then []
    else
      var last := history[|history| - 1];
      Reports(history[..|history| - 1], guid)
      + if last.Recorded? && last.guid == guid then [last.report] else []
  }

  function AddAll(batch: Batch, reports: seq<Report>): Batch {
    if reports == [] then batch
    else AddAll(batch, reports[..|reports| - 1]).Add(reports[|reports| - 1])
  }

  /** An open batch is its start and the reports recorded since. */
  lemma {:induction false} OpenedIsStartAndReports(history: seq<Event>, guid: Guid)
    requires Exact(history) && Opened(history, guid).Some?
    ensures exists k :: StartOf(history, guid, k)
    decreases |history|
  {
    var n := |history| - 1;
    var before, last := history[..n], history[n];
    if last == Started(guid, Opened(history, guid).value.count) {
      assert history[n + 1..] == [];
      assert StartOf(history, guid, n);
    } else {
      assert Exact(before) by {
        assert forall k :: 0 <= k < |before| ==> before[..k] == history[..k] && before[k] == history[k];
      }
      OpenedIsStartAndReports(before, guid);
      var k :| StartOf(before, guid, k);
      StartOfLonger(history, guid, k);
    }
  }

  predicate StartOf(history: seq<Event>, guid: Guid, k: nat) {
    && k < |history| && Opened(history, guid).Some?
    && var batch := Opened(history, guid).value;
       && history[k] == Started(guid, batch.count)
       && batch == AddAll(Batch(batch.count, [], []), Reports(history[k + 1..], guid))
  }

  lemma StartOfLonger(history: seq<Event>, guid: Guid, k: nat)
    requires history != [] && Opened(history, guid).Some?
    requires StartOf(history[..|history| - 1], guid, k)
    requires !(history[|history| - 1].Started? && history[|history| - 1].guid == guid)
    ensures StartOf(history, guid, k)
  {
    var n := |history| - 1;
    var before := history[..n];
    assert history[k + 1..][..|history[k + 1..]| - 1] == before[k + 1..];
    var reports, last := Reports(before[k + 1..], guid), history[n];
    if last.Recorded? && last.guid == guid {
      assert (reports + [last.report])[..|reports|] == reports;
    } else {
      assert reports + [] == reports;
    }
  }

  // ----- careless callers -----

  ghost predicate Plain(s: State) {
    forall g :: g in s.core.table || g in s.core.queued || g in s.checks ==> !Converter.HasByteOrderMark(g)
  }

  predicate PlainStep(s: State, step: Step) {
    Enabled(s, step) && (step.Start? ==> !Converter.HasByteOrderMark(step.guid))
  }

  predicate IsPlainRun(s: State, steps: seq<Step>) {
    R.Valid(PlainStep, Do, s, steps)
  }

  /** A batch without a callback job that has too many reports, or all of them and
      no check to come. */
  predicate Stuck(s: State, guid: Guid) {
    && guid in s.core.table && guid !in s.core.queued
    && var batch := s.core.table[guid];
       batch.count < batch.Total() || (batch.count == batch.Total() && guid !in s.checks)
  }

  lemma StepKeepsStuck(s: State, step: Step, guid: Guid)
    requires Plain(s) && Stuck(s, guid) && PlainStep(s, step)
    ensures Plain(Do(s, step)) && Stuck(Do(s, step), guid)
    ensures Count(Do(s, step).core.history, guid, false) == Count(s.core.history, guid, false)
  {
    var c, d := s.core, Do(s, step).core;
    if step.Check? {
      assert s.checks[step.thread] in s.checks;
    }
    if step.Callback? {
      assert c.queued[step.job] in c.queued;
    }
    if d.history != c.history {
      assert d.history[..|d.history| - 1] == c.history;
    }
  }

  /** Such a batch is never delivered, whatever happens afterwards. */
  lemma {:induction false} StuckForever(s: State, steps: seq<Step>, guid: Guid)
    requires Plain(s) && Stuck(s, guid) && IsPlainRun(s, steps)
    ensures Stuck(After(s, steps), guid)
    ensures Count(After(s, steps).core.history, guid, false) == Count(s.core.history, guid, false)
    decreases |steps|
  {
    if steps != [] {
      StepKeepsStuck(s, steps[0], guid);
      StuckForever(Do(s, steps[0]), steps[1..], guid);
    }
  }

  function Deliveries(s: State, guid: Guid): nat {
    Count(s.core.history, guid, false)
  }

  ghost predicate CanBeDelivered(s: State, guid: Guid) {
    exists steps :: IsPlainRun(s, steps) && Deliveries(After(s, steps), guid) > Deliveries(s, guid)
  }

  /** The callback job of an open batch delivers it. */
  lemma CallbackDelivers(s: State, guid: Guid) returns (steps: seq<Step>)
    requires Plain(s) && guid in s.core.table && guid in s.core.queued
    ensures IsPlainRun(s, steps) && Deliveries(After(s, steps), guid) > Deliveries(s, guid)
  {
    var j :| 0 <= j < |s.core.queued| && s.core.queued[j] == guid;
    var t := Do(s, Callback(j));
    assert KeyOf(guid) == guid;
    assert t.core.history[..|t.core.history| - 1] == s.core.history;
    R.First(PlainStep, Do, s, Callback(j), []);
    steps := [Callback(j)] + [];
  }

  /** So does the check of a full batch, if the pool takes the job. */
  lemma CheckDelivers(s: State, guid: Guid) returns (steps: seq<Step>)
    requires Plain(s) && Full(s.core, guid) && guid in s.checks
    ensures IsPlainRun(s, steps) && Deliveries(After(s, steps), guid) > Deliveries(s, guid)
  {
    var i :| 0 <= i < |s.checks| && s.checks[i] == guid;
    var t := Do(s, Check(i, true));
    assert t.core.queued == s.core.queued + [guid];
    var rest := CallbackDelivers(t, guid);
    R.First(PlainStep, Do, s, Check(i, true), rest);
    steps := [Check(i, true)] + rest;
  }

  /** And a batch that is not full yet gets there with the reports it lacks. */
  lemma {:induction false} ReportsDeliver(s: State, guid: Guid) returns (steps: seq<Step>)
    requires Plain(s) && guid in s.core.table && s.core.table[guid].Total() < s.core.table[guid].count
    ensures IsPlainRun(s, steps) && Deliveries(After(s, steps), guid) > Deliveries(s, guid)
    decreases s.core.table[guid].count - s.core.table[guid].Total()
  {
    var step := Step.Report(guid, Failure([]));
    var t := Do(s, step);
    assert t.core.table[guid].Total() == s.core.table[guid].Total() + 1 && guid in t.checks;
    assert t.core.history[..|t.core.history| - 1] == s.core.history;
    var rest;
    if Full(t.core, guid) {
      rest := CheckDelivers(t, guid);
    } else {
      rest := ReportsDeliver(t, guid);
    }
    R.First(PlainStep, Do, s, step, rest);
    steps := [step] + rest;
  }

  /** Exactly the other open batches can still be delivered. */
  lemma StuckExactly(s: State, guid: Guid)
    requires Plain(s) && guid in s.core.table
    ensures Stuck(s, guid) <==> !CanBeDelivered(s, guid)
  {
    if Stuck(s, guid) {
      forall steps | IsPlainRun(s, steps) ensures Deliveries(After(s, steps), guid) == Deliveries(s, guid) {
        StuckForever(s, steps, guid);
      }
    } else {
      var steps;
      if guid in s.core.queued {
        steps := CallbackDelivers(s, guid);
      } else if Full(s.core, guid) {
        steps := CheckDelivers(s, guid);
      } else {
        steps := ReportsDeliver(s, guid);
      }
      assert CanBeDelivered(s, guid);
    }
  }

  /** An empty batch is stuck from its start. */
  lemma EmptyBatchIsStuck(s: State, guid: Guid)
    requires guid !in s.core.table && guid !in s.core.queued && guid !in s.checks
    ensures Stuck(Do(s, Start(guid, 0)), guid)
  {
  }

  /** One report too many, recorded before the last due one was checked. */
  lemma OverReportIsStuck(s: State, guid: Guid, report: Report)
    requires Full(s.core, guid) && guid !in s.core.queued
    ensures Stuck(Do(s, Step.Report(guid, report)), guid)
  {
  }

  /** A full batch whose job the pool refuses, unless another check is to come. */
  lemma RefusedJobIsStuck(s: State, i: nat)
    requires i < |s.checks| && Full(s.core, s.checks[i]) && s.checks[i] !in s.core.queued
    ensures Stuck(Do(s, Check(i, false)), s.checks[i]) <==> s.checks[i] !in R.Omit(s.checks, i)
  {
  }

  /** A report is safe exactly if its batch still lacks one; on a full batch with a
      callback job, that job then delivers one report too many. */
  lemma ReportIsSafeExactly(s: State, guid: Guid, report: Report)
    requires Inv(s) && guid in s.core.table
    ensures var t := Do(s, Step.Report(guid, report));
            && (Safe(t) <==> s.core.table[guid].Total() < s.core.table[guid].count)
            && (!Safe(t) && guid in s.core.queued ==> exists j :: DeliversMisfit(t, j, s.core.table[guid].Add(report)))
  {
    var t, batch := Do(s, Step.Report(guid, report)), s.core.table[guid].Add(report);
    if s.core.table[guid].Total() < s.core.table[guid].count {
      ReportKeepsSafe(s, guid, report);
    } else {
      assert t.core.table[guid] == batch && batch.count < batch.Total();
      if guid in s.core.queued {
        var j :| 0 <= j < |s.core.queued| && s.core.queued[j] == guid;
        assert KeyOf(guid) == guid;
        assert DeliversMisfit(t, j, batch);
      }
    }
  }

  /** Starting a batch is safe exactly if no callback job of an earlier batch of
      that guid is left; otherwise that job may deliver the new batch unfilled. */
  lemma StartIsSafeExactly(s: State, guid: Guid, count: nat)
    requires Inv(s) && guid !in s.core.table && 0 < count && !Converter.HasByteOrderMark(guid)
    ensures Safe(Do(s, Start(guid, count))) <==> guid !in s.core.queued
    ensures guid in s.core.queued ==> exists j :: DeliversMisfit(Do(s, Start(guid, count)), j, Batch(count, [], []))
  {
    var t := Do(s, Start(guid, count));
    if guid !in s.core.queued {
      StartKeepsSafe(s, guid, count);
    } else {
      assert !Full(t.core, guid);
      var j :| 0 <= j < |s.core.queued| && s.core.queued[j] == guid;
      assert KeyOf(guid) == guid;
      assert DeliversMisfit(t, j, Batch(count, [], []));
    }
  }

  /** The callback job at `j` hands over a batch that is not of its size. */
  predicate DeliversMisfit(s: State, j: nat, batch: Batch) {
    && j < |s.core.queued| && batch.Total() != batch.count
    && Do(s, Callback(j)).core.history == s.core.history + [Delivered(s.core.queued[j], batch)]
  }

  function Middle(guid: Guid, a: Report, b: Report): State {
    State(Core(map[guid := Batch(2, [], []).Add(a).Add(b)], [], {},
               [Started(guid, 2), Recorded(guid, a), Recorded(guid, b)]), [guid, guid])
  }

  function Left(guid: Guid, a: Report, b: Report): State {
    State(Core(map[], [guid], {},
               [Started(guid, 2), Recorded(guid, a), Recorded(guid, b), Delivered(guid, Batch(2, [], []).Add(a).Add(b))]), [])
  }

  /** Such a job exists: of two reports that are both recorded before either is
      checked, each check queues one, and the second outlives the delivery. */
  lemma StaleJobIsReachable(guid: Guid, a: Report, b: Report)
    requires !Converter.HasByteOrderMark(guid)
    ensures var steps := [Start(guid, 2), Step.Report(guid, a), Step.Report(guid, b)] + [Check(0, true), Check(0, true), Callback(0)];
            && IsCarefulRun(INIT, steps) && After(INIT, steps) == Left(guid, a, b)
            && Inv(Left(guid, a, b)) && guid !in Left(guid, a, b).core.table && guid in Left(guid, a, b).core.queued
  {
    var reports := [Start(guid, 2), Step.Report(guid, a), Step.Report(guid, b)];
    var checks := [Check(0, true), Check(0, true), Callback(0)];
    TwoReports(guid, a, b);
    TwoChecks(guid, a, b);
    R.InTwo(Permitted, Do, INIT, reports, checks);
    CarefulKeepsInv(reports + checks);
  }

  lemma CarefulKeepsInv(steps: seq<Step>)
    requires IsCarefulRun(INIT, steps)
    ensures Inv(After(INIT, steps))
  {
    var inv := (x: State) => Inv(x);
    forall x, y | inv(x) && Permitted(x, y) ensures inv(Do(x, y)) {
      StepKeepsInv(x, y);
    }
    R.Invariant(Permitted, Do, inv, INIT, steps);
  }

  lemma TwoReports(guid: Guid, a: Report, b: Report)
    requires !Converter.HasByteOrderMark(guid)
    ensures var steps := [Start(guid, 2), Step.Report(guid, a), Step.Report(guid, b)];
            IsCarefulRun(INIT, steps) && After(INIT, steps) == Middle(guid, a, b)
  {
    var s1 := State(Core(map[guid := Batch(2, [], [])], [], {}, [Started(guid, 2)]), []);
    var s2 := State(Core(map[guid := Batch(2, [], []).Add(a)], [], {}, [Started(guid, 2), Recorded(guid, a)]), [guid]);
    assert Do(INIT, Start(guid, 2)) == s1;
    assert Do(s1, Step.Report(guid, a)) == s2;
    assert Do(s2, Step.Report(guid, b)) == Middle(guid, a, b);
    R.Three(Permitted, Do, INIT, Start(guid, 2), s1, Step.Report(guid, a), s2, Step.Report(guid, b), Middle(guid, a, b));
  }

  lemma TwoChecks(guid: Guid, a: Report, b: Report)
    requires !Converter.HasByteOrderMark(guid)
    ensures var steps := [Check(0, true), Check(0, true), Callback(0)];
            IsCarefulRun(Middle(guid, a, b), steps) && After(Middle(guid, a, b), steps) == Left(guid, a, b)
  {
    var s3 := Middle(guid, a, b);
    var s4, s5 := State(s3.core.(queued := [guid]), [guid]), State(s3.core.(queued := [guid, guid]), []);
    assert KeyOf(guid) == guid;
    assert s3.core.table - {guid} == map[];
    assert Do(s3, Check(0, true)) == s4;
    assert Do(s4, Check(0, true)) == s5;
    assert Do(s5, Callback(0)) == Left(guid, a, b);
    R.Three(Permitted, Do, s3, Check(0, true), s4, Check(0, true), s5, Callback(0), Left(guid, a, b));
  }
}
