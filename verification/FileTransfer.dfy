/** A whole batch of files, from the list given to `send_files` to the files
    callback of the receiver, in any order of arrival. */
module FileTransfer {
  import opened Bytes
  import opened FileManager
  import B = FileBatch
  import C = Converter
  import R = Runs

  /** The file systems of the two sides: what can be read, and under which path
      the content of file `i` could be saved. */
  datatype Disks = Disks(read: bytes -> Option<bytes>, save: (nat, bytes) -> Option<bytes>)

  /** Where the content of a file ends up. */
  function PathOf(disks: Disks, index: nat, file: B.File): Option<bytes> {
    var content := disks.read(C.ToString(file.path));
    if content.Some? then disks.save(index, content.value) else None
  }

  /** What the receiver should report for a file. */
  function Expected(disks: Disks, index: nat, file: B.File): Report {
    var text, path := C.ToString(file.message), PathOf(disks, index, file);
    if path.Some? then Success(text, path.value) else Failure(text)
  }

  function AllExpected(disks: Disks, files: seq<B.File>): (r: seq<Report>)
    ensures |r| == |files|
    ensures forall i :: 0 <= i < |r| ==> r[i] == Expected(disks, i, files[i])
  {
    if files == [] then []
    else
      var n := |files| - 1;
      AllExpected(disks, files[..n]) + [Expected(disks, n, files[n])]
  }

  /** The files that could not be read or not be saved, by their messages. */
  function Lost(disks: Disks, files: seq<B.File>): seq<bytes> {
    if files == [] then []
    else
      var n := |files| - 1;
      Lost(disks, files[..n]) + if PathOf(disks, n, files[n]) == None then [C.ToString(files[n].message)] else []
  }

  /** The others, each with the path that its exact content was saved under. */
  function Kept(disks: Disks, files: seq<B.File>): seq<(bytes, bytes)> {
    if files == [] then []
    else
      var n := |files| - 1;
      var path := PathOf(disks, n, files[n]);
      Kept(disks, files[..n]) + if path.Some? then [(C.ToString(files[n].message), path.value)] else []
  }

  // ----- a batch as its reports -----

  function Failures(reports: seq<Report>): seq<bytes> {
    if reports == [] then []
    else
      var last := reports[|reports| - 1];
      Failures(reports[..|reports| - 1]) + if last.Failure? then [last.message] else []
  }

  function Successes(reports: seq<Report>): seq<(bytes, bytes)> {
    if reports == [] then []
    else
      var last := reports[|reports| - 1];
      Successes(reports[..|reports| - 1]) + if last.Success? then [(last.message, last.path)] else []
  }

  /** A batch holds the reports it was given, of each kind in the order in which they
      were recorded, and counts all of them. */
  lemma {:induction false} BatchOfReports(count: nat, reports: seq<Report>)
    ensures AddAll(Batch(count, [], []), reports) == Batch(count, Failures(reports), Successes(reports))
    ensures AddAll(Batch(count, [], []), reports).Total() == |reports|
    decreases |reports|
  {
    if reports != [] {
      var before := reports[..|reports| - 1];
      BatchOfReports(count, before);
      assert Failures(before) + [] == Failures(before) && Successes(before) + [] == Successes(before);
    }
  }

  lemma {:induction false} CountFailures(reports: seq<Report>, message: bytes)
    ensures multiset(Failures(reports))[message] == multiset(reports)[Failure(message)]
    decreases |reports|
  {
    if reports != [] {
      var before := reports[..|reports| - 1];
      assert reports == before + [reports[|reports| - 1]];
      CountFailures(before, message);
    }
  }

  lemma {:induction false} CountSuccesses(reports: seq<Report>, entry: (bytes, bytes))
    ensures multiset(Successes(reports))[entry] == multiset(reports)[Success(entry.0, entry.1)]
    decreases |reports|
  {
    if reports != [] {
      var before := reports[..|reports| - 1];
      assert reports == before + [reports[|reports| - 1]];
      CountSuccesses(before, entry);
    }
  }

  /** The order of the reports does not matter. */
  lemma SameReports(a: seq<Report>, b: seq<Report>)
    requires multiset(a) == multiset(b)
    ensures multiset(Failures(a)) == multiset(Failures(b)) && multiset(Successes(a)) == multiset(Successes(b))
  {
    forall m ensures multiset(Failures(a))[m] == multiset(Failures(b))[m] {
      CountFailures(a, m);
      CountFailures(b, m);
    }
    forall e ensures multiset(Successes(a))[e] == multiset(Successes(b))[e] {
      CountSuccesses(a, e);
      CountSuccesses(b, e);
    }
  }

  lemma {:induction false} ExpectedIsLostAndKept(disks: Disks, files: seq<B.File>)
    ensures Failures(AllExpected(disks, files)) == Lost(disks, files)
    ensures Successes(AllExpected(disks, files)) == Kept(disks, files)
    decreases |files|
  {
    if files != [] {
      var before := files[..|files| - 1];
      ExpectedIsLostAndKept(disks, before);
      var reports := AllExpected(disks, files);
      assert reports[..|reports| - 1] == AllExpected(disks, before);
    }
  }

  // ----- a history with one batch of the guid -----

  lemma {:induction false} NoStartNoReports(history: seq<Event>, guid: Guid)
    requires Exact(history) && Count(history, guid, true) == 0
    ensures Opened(history, guid) == None && Reports(history, guid) == []
    decreases |history|
  {
    if history != [] {
      ExactPrefix(history, |history| - 1);
      NoStartNoReports(history[..|history| - 1], guid);
      assert Fits(history[..|history| - 1], history[|history| - 1]);
    }
  }

  lemma ExactPrefix(history: seq<Event>, k: nat)
    requires Exact(history) && k <= |history|
    ensures Exact(history[..k])
  {
    assert forall i :: 0 <= i < k ==> history[..k][..i] == history[..i];
  }

  lemma {:induction false} OneStart(history: seq<Event>, guid: Guid)
    requires Exact(history) && Count(history, guid, true) == 1 && Opened(history, guid).Some?
    ensures var batch := Opened(history, guid).value;
            batch == AddAll(Batch(batch.count, [], []), Reports(history, guid))
    decreases |history|
  {
    var n := |history| - 1;
    var before, last := history[..n], history[n];
    ExactPrefix(history, n);
    assert Fits(before, last);
    if last.Started? && last.guid == guid {
      NoStartNoReports(before, guid);
    } else {
      OneStart(before, guid);
      var reports := Reports(before, guid);
      if last.Recorded? && last.guid == guid {
        assert (reports + [last.report])[..|reports|] == reports;
      } else {
        assert reports + [] == reports;
      }
    }
  }

  lemma {:induction false} Prefix(history: seq<Event>, guid: Guid, k: nat, started: bool)
    requires k <= |history|
    ensures Reports(history[..k], guid) <= Reports(history, guid)
    ensures Count(history[..k], guid, started) <= Count(history, guid, started)
    decreases |history| - k
  {
    if k == |history| {
      assert history[..k] == history;
    } else {
      Prefix(history, guid, k + 1, started);
      assert history[..k + 1][..k] == history[..k];
    }
  }

  /** All batches of the guid are of one size. */
  ghost predicate Sized(history: seq<Event>, guid: Guid, count: nat) {
    forall k :: 0 <= k < |history| && history[k].Started? && history[k].guid == guid ==> history[k].count == count
  }

  lemma {:induction false} SizeOfOpened(history: seq<Event>, guid: Guid, count: nat)
    requires Sized(history, guid, count) && Opened(history, guid).Some?
    ensures Opened(history, guid).value.count == count
    decreases |history|
  {
    var n := |history| - 1;
    assert Sized(history[..n], guid, count) by {
      assert forall k :: 0 <= k < n ==> history[..n][k] == history[k];
    }
    if !(history[n].Started? && history[n].guid == guid) {
      SizeOfOpened(history[..n], guid, count);
    }
  }

  lemma MultisetOfPrefix<T>(a: seq<T>, b: seq<T>)
    requires a <= b
    ensures multiset(a) <= multiset(b)
  {
    assert b == a + b[|a|..];
  }

  lemma AllOfThem<T>(a: multiset<T>, b: multiset<T>)
    requires a <= b && |a| == |b|
    ensures a == b
  {
    assert b == a + (b - a);
  }

  /** What `received_files` is given for one file batch. */
  predicate Complete(batch: Batch, disks: Disks, files: seq<B.File>) {
    && batch.count == |files|
    && multiset(batch.failures) == multiset(Lost(disks, files))
    && multiset(batch.successes) == multiset(Kept(disks, files))
  }

  lemma ReportsComplete(batch: Batch, reports: seq<Report>, disks: Disks, files: seq<B.File>)
    requires batch == AddAll(Batch(|files|, [], []), reports) && batch.Total() == |files|
    requires multiset(reports) <= multiset(AllExpected(disks, files))
    ensures Complete(batch, disks, files)
  {
    BatchOfReports(|files|, reports);
    assert |multiset(reports)| == |multiset(AllExpected(disks, files))|;
    AllOfThem(multiset(reports), multiset(AllExpected(disks, files)));
    SameReports(reports, AllExpected(disks, files));
    ExpectedIsLostAndKept(disks, files);
  }

  /** The batch of this guid, each of whose messages is handled at most once. */
  ghost predicate OneBatch(history: seq<Event>, guid: Guid, disks: Disks, files: seq<B.File>) {
    && Count(history, guid, true) == 1 && Sized(history, guid, |files|)
    && multiset(Reports(history, guid)) <= multiset(AllExpected(disks, files))
  }

  lemma DeliveredIsComplete(history: seq<Event>, guid: Guid, disks: Disks, files: seq<B.File>, k: nat)
    requires Exact(history) && FullDeliveries(history) && OneBatch(history, guid, disks, files)
    requires k < |history| && history[k].Delivered? && history[k].guid == guid
    ensures Complete(history[k].batch, disks, files)
  {
    var before, batch := history[..k], history[k].batch;
    assert Fits(before, history[k]);
    ExactPrefix(history, k);
    Prefix(history, guid, k, true);
    if Count(before, guid, true) == 0 {
      NoStartNoReports(before, guid);
    }
    OneStart(before, guid);
    assert Sized(before, guid, |files|) by {
      assert forall i :: 0 <= i < k ==> before[i] == history[i];
    }
    SizeOfOpened(before, guid, |files|);
    MultisetOfPrefix(Reports(before, guid), Reports(history, guid));
    ReportsComplete(batch, Reports(before, guid), disks, files);
  }

  // ----- the messages of a batch -----

  /** One batch on its way: the guid, the file systems and the list of files. */
  datatype Transfer = Transfer(guid: Guid, disks: Disks, files: seq<B.File>)

  function OpeningMessage(b: Transfer): bytes {
    B.StartMessage(b.guid, |b.files|)
  }

  function MessageOf(b: Transfer, i: nat): bytes
    requires i < |b.files|
  {
    B.FileMessage(b.guid, i, b.files[i], b.disks.read)
  }

  /** A batch that is not empty, with messages that fit a vector. */
  ghost predicate Sendable(b: Transfer) {
    && b.files != [] && |b.files| < WORD && !C.HasByteOrderMark(b.guid)
    && |OpeningMessage(b)| < WORD && forall i :: 0 <= i < |b.files| ==> |MessageOf(b, i)| < WORD
  }

  /** What a received message does first: it opens a batch or records a report. */
  function StepFor(incoming: B.Incoming, saved: Option<bytes>): Step {
    match incoming
    case Starting(guid, count) => Start(guid, count)
    case Failed(guid, message) => Step.Report(guid, Failure(message))
    case Content(guid, message, _) =>
      Step.Report(guid, if saved.Some? then Success(message, saved.value) else Failure(message))
  }

  /** With the check of its own thread at once, that is `received_file`. */
  lemma HandledIsTwoSteps(s: State, incoming: B.Incoming, saved: Option<bytes>, accepted: bool)
    ensures var t := Do(s, StepFor(incoming, saved));
            B.Handled(s.core, incoming, saved, accepted)
            == if |t.checks| > |s.checks| then Do(t, Check(|s.checks|, accepted)).core else t.core
  {
  }

  /** The content of a message is saved before it is reported. */
  function StepOf(b: Transfer, data: bytes, index: nat): Step
    requires B.Sound(data)
  {
    var incoming := B.Parse(data);
    StepFor(incoming, if incoming.Content? then b.disks.save(index, incoming.content) else None)
  }

  lemma OpeningIsStart(b: Transfer)
    requires Sendable(b)
    ensures B.Sound(OpeningMessage(b)) && StepOf(b, OpeningMessage(b), 0) == Start(b.guid, |b.files|)
  {
    B.ParseStart(b.guid, |b.files|);
  }

  /** The bytes sent for a file make the receiver record what is expected. */
  lemma MessageIsReport(b: Transfer, i: nat)
    requires Sendable(b) && i < |b.files|
    ensures B.Sound(MessageOf(b, i))
    ensures StepOf(b, MessageOf(b, i), i) == Step.Report(b.guid, Expected(b.disks, i, b.files[i]))
  {
    var file := b.files[i];
    assert |MessageOf(b, i)| < WORD;
    match b.disks.read(C.ToString(file.path))
    case None => B.ParseFailure(b.guid, i, file.message);
    case Some(content) => B.ParseSuccess(b.guid, i, file.message, content);
  }

  // ----- arrival in any order -----

  /** The manager, whether the batch was opened, and which files' messages were
      handled before the opening and after it. */
  datatype Progress = Progress(state: State, begun: bool, early: set<nat>, handled: set<nat>)

  /** `Other` is a check or a callback, or a start or report of another guid. */
  datatype Move = Opening | Message(index: nat) | Other(step: Step)

  predicate Elsewhere(step: Step, guid: Guid) {
    (step.Start? || step.Report?) ==> step.guid != guid
  }

  /** Every message comes at most once, in any order, the opening among them. */
  predicate MayMove(b: Transfer, x: Progress, m: Move) {
    match m
    case Opening => !x.begun && B.Sound(OpeningMessage(b))
    case Message(i) => i < |b.files| && i !in x.early && i !in x.handled && B.Sound(MessageOf(b, i))
    case Other(step) => Permitted(x.state, step) && Elsewhere(step, b.guid)
  }

  function Moved(b: Transfer, x: Progress, m: Move): Progress {
    if !MayMove(b, x, m) then x else
    match m
    case Opening => x.(state := Do(x.state, StepOf(b, OpeningMessage(b), 0)), begun := true)
    case Message(i) =>
      var t := Do(x.state, StepOf(b, MessageOf(b, i), i));
      if x.begun then x.(state := t, handled := x.handled + {i}) else x.(state := t, early := x.early + {i})
    case Other(step) => x.(state := Do(x.state, step))
  }

  const BEFORE := Progress(INIT, false, {}, {})

  predicate Arrivals(b: Transfer, moves: seq<Move>) {
    R.Valid((x, m) => MayMove(b, x, m), (x, m) => Moved(b, x, m), BEFORE, moves)
  }

  function AfterArrivals(b: Transfer, moves: seq<Move>): Progress {
    R.After((x, m) => Moved(b, x, m), BEFORE, moves)
  }

  /** The reports at the given indices. */
  function Picked(reports: seq<Report>, indices: set<nat>): seq<Report> {
    if reports == [] then []
    else
      var n := |reports| - 1;
      Picked(reports[..n], indices) + if n in indices then [reports[n]] else []
  }

  lemma {:induction false} PickedAreReports(reports: seq<Report>, indices: set<nat>)
    ensures multiset(Picked(reports, indices)) <= multiset(reports) && |Picked(reports, indices)| <= |reports|
    decreases |reports|
  {
    if reports != [] {
      var n := |reports| - 1;
      PickedAreReports(reports[..n], indices);
      assert reports == reports[..n] + [reports[n]];
    }
  }

  lemma {:induction false} PickedBeyond(reports: seq<Report>, indices: set<nat>, i: nat)
    requires i >= |reports|
    ensures Picked(reports, indices + {i}) == Picked(reports, indices)
    decreases |reports|
  {
    if reports != [] {
      PickedBeyond(reports[..|reports| - 1], indices, i);
    }
  }

  lemma {:induction false} PickedOneMore(reports: seq<Report>, indices: set<nat>, i: nat)
    requires i < |reports| && i !in indices
    ensures multiset(Picked(reports, indices + {i})) == multiset(Picked(reports, indices)) + multiset{reports[i]}
    ensures |Picked(reports, indices)| < |reports|
    decreases |reports|
  {
    var n := |reports| - 1;
    if i == n {
      PickedAreReports(reports[..n], indices);
      PickedBeyond(reports[..n], indices, i);
      assert Picked(reports, indices) == Picked(reports[..n], indices) + [];
    } else {
      PickedOneMore(reports[..n], indices, i);
      PickedLast(reports[..n], reports[n], indices, i);
      assert reports[..n] + [reports[n]] == reports;
    }
  }

  /** One more report behind those that were told apart. */
  lemma PickedLast(reports: seq<Report>, last: Report, indices: set<nat>, i: nat)
    requires i < |reports| && |Picked(reports, indices)| < |reports|
    requires multiset(Picked(reports, indices + {i})) == multiset(Picked(reports, indices)) + multiset{reports[i]}
    ensures var all := reports + [last];
            && multiset(Picked(all, indices + {i})) == multiset(Picked(all, indices)) + multiset{all[i]}
            && |Picked(all, indices)| < |all|
  {
    assert (reports + [last])[..|reports|] == reports;
  }

  lemma {:induction false} PickedAll(reports: seq<Report>, indices: set<nat>)
    requires forall i :: 0 <= i < |reports| ==> i in indices
    ensures Picked(reports, indices) == reports
    decreases |reports|
  {
    if reports != [] {
      PickedAll(reports[..|reports| - 1], indices);
    }
  }

  // ----- what every arrival keeps -----

  predicate Unseen(s: State, guid: Guid) {
    guid !in s.core.table && guid !in s.core.queued && guid !in s.checks
  }

  function ReportsOf(b: Transfer, x: Progress): seq<Report> {
    Reports(x.state.core.history, b.guid)
  }

  /** The log of this batch. */
  ghost predicate Tracked(b: Transfer, x: Progress) {
    var history := x.state.core.history;
    && Sized(history, b.guid, |b.files|)
    && Count(history, b.guid, true) == (if x.begun then 1 else 0)
    && multiset(ReportsOf(b, x)) == multiset(Picked(AllExpected(b.disks, b.files), x.handled))
  }

  ghost predicate OnItsWay(b: Transfer, x: Progress) {
    && Inv(x.state) && Tracked(b, x)
    && (!x.begun ==> Unseen(x.state, b.guid) && x.handled == {})
    && x.early !! x.handled && (forall i :: i in x.early ==> i < |b.files|)
    && (x.begun && b.guid !in x.state.core.table ==> |ReportsOf(b, x)| == |b.files|)
  }

  /** An open batch has the reports of its log. */
  lemma TotalIsReports(b: Transfer, x: Progress)
    requires OnItsWay(b, x) && b.guid in x.state.core.table
    ensures var batch := x.state.core.table[b.guid];
            batch.count == |b.files| && batch.Total() == |ReportsOf(b, x)|
  {
    var history := x.state.core.history;
    assert Opened(history, b.guid) == Lookup(x.state.core.table, b.guid);
    OneStart(history, b.guid);
    SizeOfOpened(history, b.guid, |b.files|);
    BatchOfReports(|b.files|, ReportsOf(b, x));
  }

  lemma LogLast(history: seq<Event>, e: Event, guid: Guid, count: nat)
    requires Sized(history, guid, count) && (e.Started? && e.guid == guid ==> e.count == count)
    ensures Sized(history + [e], guid, count)
    ensures Count(history + [e], guid, true) == Count(history, guid, true) + if e.Started? && e.guid == guid then 1 else 0
    ensures Reports(history + [e], guid)
         == Reports(history, guid) + if e.Recorded? && e.guid == guid then [e.report] else []
  {
    assert (history + [e])[..|history|] == history;
  }

  lemma OpeningKeeps(b: Transfer, x: Progress)
    requires Sendable(b) && OnItsWay(b, x) && MayMove(b, x, Opening)
    ensures OnItsWay(b, Moved(b, x, Opening))
  {
    OpeningIsStart(b);
    StepKeepsInv(x.state, Start(b.guid, |b.files|));
    LogLast(x.state.core.history, Started(b.guid, |b.files|), b.guid, |b.files|);
    assert ReportsOf(b, x) + [] == ReportsOf(b, x);
  }

  lemma MessageKeeps(b: Transfer, x: Progress, i: nat)
    requires Sendable(b) && OnItsWay(b, x) && MayMove(b, x, Message(i))
    ensures OnItsWay(b, Moved(b, x, Message(i)))
  {
    MessageIsReport(b, i);
    if x.begun {
      ReportKeeps(b, x, i, Moved(b, x, Message(i)));
    } else {
      var y := Moved(b, x, Message(i));
      assert y.state == x.state;
    }
  }

  /** A message before the opening is dropped; behind it, it is a report that the
      batch still lacks. */
  lemma ReportKeeps(b: Transfer, x: Progress, i: nat, y: Progress)
    requires OnItsWay(b, x) && x.begun && i < |b.files| && i !in x.early && i !in x.handled
    requires y.state == Do(x.state, Step.Report(b.guid, Expected(b.disks, i, b.files[i])))
    requires y.begun && y.early == x.early && y.handled == x.handled + {i}
    ensures OnItsWay(b, y)
  {
    StillLacks(b, x, i);
    StepKeepsInv(x.state, Step.Report(b.guid, Expected(b.disks, i, b.files[i])));
    ReportLogs(x.state, b.guid, Expected(b.disks, i, b.files[i]));
    TrackedAfter(b, x, i, y);
  }

  lemma ReportLogs(s: State, guid: Guid, report: Report)
    requires guid in s.core.table
    ensures Do(s, Step.Report(guid, report)).core.history == s.core.history + [Recorded(guid, report)]
    ensures guid in Do(s, Step.Report(guid, report)).core.table
  {
  }

  /** A batch with a message to come is open and not full. */
  lemma StillLacks(b: Transfer, x: Progress, i: nat)
    requires OnItsWay(b, x) && x.begun && i < |b.files| && i !in x.handled
    ensures b.guid in x.state.core.table && x.state.core.table[b.guid].Total() < x.state.core.table[b.guid].count
  {
    var all := AllExpected(b.disks, b.files);
    PickedOneMore(all, x.handled, i);
    assert |multiset(ReportsOf(b, x))| == |multiset(Picked(all, x.handled))|;
    TotalIsReports(b, x);
  }

  lemma TrackedAfter(b: Transfer, x: Progress, i: nat, y: Progress)
    requires Tracked(b, x) && i < |b.files| && i !in x.handled
    requires y.begun == x.begun && y.handled == x.handled + {i}
    requires y.state.core.history == x.state.core.history + [Recorded(b.guid, Expected(b.disks, i, b.files[i]))]
    ensures Tracked(b, y)
  {
    LogLast(x.state.core.history, Recorded(b.guid, Expected(b.disks, i, b.files[i])), b.guid, |b.files|);
    PickedOneMore(AllExpected(b.disks, b.files), x.handled, i);
  }

  /** A step elsewhere adds nothing of this guid to the log but its delivery. */
  lemma OtherLogs(b: Transfer, x: Progress, step: Step, y: Progress)
    requires Tracked(b, x) && Enabled(x.state, step) && Elsewhere(step, b.guid)
    requires y == x.(state := Do(x.state, step))
    ensures Tracked(b, y) && ReportsOf(b, y) == ReportsOf(b, x)
  {
    var e := LogElsewhere(x.state, step, b.guid);
    if e.Some? {
      LogLast(x.state.core.history, e.value, b.guid, |b.files|);
      assert ReportsOf(b, x) + [] == ReportsOf(b, x);
    }
  }

  lemma LogElsewhere(s: State, step: Step, guid: Guid) returns (e: Option<Event>)
    requires Enabled(s, step) && Elsewhere(step, guid)
    ensures Do(s, step).core.history == s.core.history + if e.Some? then [e.value] else []
    ensures e.Some? && e.value.guid == guid ==> e.value.Delivered?
  {
    var c, d := s.core, Do(s, step).core;
    e := if d.history == c.history then None else Some(d.history[|c.history|]);
  }

  lemma OtherKeeps(b: Transfer, x: Progress, step: Step)
    requires OnItsWay(b, x) && MayMove(b, x, Other(step))
    ensures OnItsWay(b, Moved(b, x, Other(step)))
  {
    var y := Moved(b, x, Other(step));
    StepKeepsInv(x.state, step);
    OtherLogs(b, x, step, y);
    if !x.begun {
      UnseenStays(x.state, step, b.guid);
    } else if b.guid !in y.state.core.table {
      LeavesFull(b, x, step);
    }
  }

  /** The batch is closed only by its delivery, with all its reports. */
  lemma LeavesFull(b: Transfer, x: Progress, step: Step)
    requires OnItsWay(b, x) && MayMove(b, x, Other(step)) && x.begun
    requires b.guid !in Do(x.state, step).core.table
    ensures |ReportsOf(b, x)| == |b.files|
  {
    if b.guid in x.state.core.table {
      ClosedByCallback(x.state, step, b.guid);
      CallbackKeepsSafe(x.state, step.job);
      TotalIsReports(b, x);
    }
  }

  lemma ClosedByCallback(s: State, step: Step, guid: Guid)
    requires Safe(s) && Enabled(s, step) && guid in s.core.table && guid !in Do(s, step).core.table
    ensures step.Callback? && s.core.queued[step.job] == guid
  {
    if step.Callback? {
      assert s.core.queued[step.job] in s.core.queued;
    }
  }

  lemma UnseenStays(s: State, step: Step, guid: Guid)
    requires Inv(s) && Permitted(s, step) && Elsewhere(step, guid) && Unseen(s, guid)
    ensures Unseen(Do(s, step), guid)
  {
    if step.Check? {
      assert s.checks[step.thread] in s.checks;
    }
  }

  lemma ArrivalsKeep(b: Transfer, moves: seq<Move>)
    requires Sendable(b) && Arrivals(b, moves)
    ensures OnItsWay(b, AfterArrivals(b, moves))
  {
    var enabled := (x: Progress, m: Move) => MayMove(b, x, m);
    var act := (x: Progress, m: Move) => Moved(b, x, m);
    var inv := (x: Progress) => OnItsWay(b, x);
    StartsOut(b);
    forall x, m | inv(x) && enabled(x, m) ensures inv(act(x, m)) {
      MoveKeeps(b, x, m);
    }
    R.Invariant(enabled, act, inv, BEFORE, moves);
  }

  lemma StartsOut(b: Transfer)
    ensures OnItsWay(b, BEFORE)
  {
    NothingPicked(AllExpected(b.disks, b.files));
  }

  lemma MoveKeeps(b: Transfer, x: Progress, m: Move)
    requires Sendable(b) && OnItsWay(b, x) && MayMove(b, x, m)
    ensures OnItsWay(b, Moved(b, x, m))
  {
    match m
    case Opening => OpeningKeeps(b, x);
    case Message(i) => MessageKeeps(b, x, i);
    case Other(step) => OtherKeeps(b, x, step);
  }

  lemma {:induction false} NothingPicked(reports: seq<Report>)
    ensures Picked(reports, {}) == []
    decreases |reports|
  {
    if reports != [] {
      NothingPicked(reports[..|reports| - 1]);
    }
  }

  predicate AllHandled(b: Transfer, x: Progress) {
    x.begun && forall i :: 0 <= i < |b.files| ==> i in x.handled || i in x.early
  }

  /** With a message lost in front of the opening the batch never fills. */
  lemma EarlyMessageIsMissed(b: Transfer, x: Progress, i: nat)
    requires OnItsWay(b, x) && i in x.early
    ensures Count(x.state.core.history, b.guid, false) == 0
  {
    var history := x.state.core.history;
    DeliveredOnce(history, b.guid);
    if x.begun {
      StillLacks(b, x, i);
    }
    assert Opened(history, b.guid) == Lookup(x.state.core.table, b.guid);
  }

  lemma AllReported(b: Transfer, x: Progress)
    requires OnItsWay(b, x) && AllHandled(b, x) && x.early == {} && !Cared(x.state, b.guid)
    ensures Count(x.state.core.history, b.guid, false) == 1
  {
    var history, all := x.state.core.history, AllExpected(b.disks, b.files);
    DeliveredOnce(history, b.guid);
    assert Opened(history, b.guid) == Lookup(x.state.core.table, b.guid);
    PickedAll(all, x.handled);
    assert |multiset(ReportsOf(b, x))| == |multiset(all)|;
    if b.guid in x.state.core.table {
      TotalIsReports(b, x);
      assert Full(x.state.core, b.guid);
    }
  }

  /** However the messages of a batch arrive, the opening among them, and whatever
      other threads do between them: the batch is delivered at most once, and what
      is delivered names every file, the unreadable and unsaved ones as failures and
      the others with the paths of their exact contents. Once all messages are
      handled and this batch has no check, no queued job and no refused one, it has
      been delivered exactly if none of them was handled before the opening; and
      otherwise it never is. */
  lemma FilesArrive(b: Transfer, moves: seq<Move>)
    requires Sendable(b) && Arrivals(b, moves)
    ensures var x := AfterArrivals(b, moves);
            var history := x.state.core.history;
            && Count(history, b.guid, false) <= 1
            && (forall k :: 0 <= k < |history| && history[k].Delivered? && history[k].guid == b.guid ==>
                  Complete(history[k].batch, b.disks, b.files))
            && (x.early != {} ==> Count(history, b.guid, false) == 0)
            && (AllHandled(b, x) && !Cared(x.state, b.guid) ==>
                  (Count(history, b.guid, false) == 1 <==> x.early == {}))
  {
    ArrivalsKeep(b, moves);
    var x := AfterArrivals(b, moves);
    var history := x.state.core.history;
    DeliveredOnce(history, b.guid);
    PickedAreReports(AllExpected(b.disks, b.files), x.handled);
    forall k | 0 <= k < |history| && history[k].Delivered? && history[k].guid == b.guid
      ensures Complete(history[k].batch, b.disks, b.files)
    {
      if !x.begun {
        NoDelivery(history, b.guid, k);
      }
      DeliveredIsComplete(history, b.guid, b.disks, b.files, k);
    }
    if x.early != {} {
      var i :| i in x.early;
      EarlyMessageIsMissed(b, x, i);
    } else if AllHandled(b, x) && !Cared(x.state, b.guid) {
      AllReported(b, x);
    }
  }

  /** Without a start there is nothing to deliver. */
  lemma NoDelivery(history: seq<Event>, guid: Guid, k: nat)
    requires Exact(history) && k < |history| && history[k].Delivered? && history[k].guid == guid
    ensures Count(history, guid, true) > 0
  {
    ExactPrefix(history, k);
    Prefix(history, guid, k, true);
    assert Fits(history[..k], history[k]);
    if Count(history[..k], guid, true) == 0 {
      NoStartNoReports(history[..k], guid);
    }
  }
}
