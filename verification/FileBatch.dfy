/** How a batch of files crosses a connection: `send_files` of
    Network/DataHandler.cpp, Network/FileSendingJob.cpp, and `received_file` of
    Network/NetworkSession.cpp and Network/NetworkClient.cpp. */
module FileBatch {
  import opened Bytes
  import opened Combiner
  import C = Converter
  import D = DataHandler
  import M = FileManager
  import Pipeline

  const START: byte := 0
  const SUCCESS: byte := 1
  const FAILURE: byte := 2

  /** One pair of the list given to `send_files`. */
  datatype File = File(path: bytes, message: bytes)

  // ----- what is written -----

  function StartMessage(guid: bytes, count: nat): bytes {
    Records([guid, [START], Word(count)])
  }

  /** The input of one file sending job. */
  function Request(guid: bytes, index: nat, file: File): bytes {
    Records([guid, Word(index), file.path, file.message])
  }

  function Requests(guid: bytes, files: seq<File>): (r: seq<bytes>)
    ensures |r| == |files|
    ensures forall i :: 0 <= i < |r| ==> r[i] == Request(guid, i, files[i])
  {
    if files == [] then []
    else
      var n := |files| - 1;
      Requests(guid, files[..n]) + [Request(guid, n, files[n])]
  }

  /** The message for one file: its content, or that it could not be read. */
  function FileMessage(guid: bytes, index: nat, file: File, disk: bytes -> Option<bytes>): bytes {
    Packed(guid, Word(index), file.message, disk(C.ToString(file.path)))
  }

  function Packed(guid: bytes, index: bytes, message: bytes, content: Option<bytes>): bytes {
    match content
    case None => Records([guid, [FAILURE], index, message])
    case Some(value) => Records([guid, [SUCCESS], index, message, value])
  }

  // ----- fields of a vector of records -----

  /** The items are the next records of the vector, and their ends are sound. */
  predicate Fields(data: bytes, index: nat, items: seq<bytes>)
    decreases |items|
  {
    items == [] ||
    (var next := index + 8 + |items[0]|;
     && EndFits(data, index) && next <= |data|
     && DivideAt(data, index) == Divided(items[0], next)
     && Fields(data, next, items[1..]))
  }

  lemma {:induction false} RecordsHaveFields(data: bytes, index: nat, items: seq<bytes>)
    requires |data| < WORD && index <= |data| && Records(items) <= data[index..]
    requires forall i :: 0 <= i < |items| ==> |items[i]| < WORD
    ensures Fields(data, index, items)
    decreases |items|
  {
    if items != [] {
      FirstRecord(data, index, items);
      EndOfFirst(data, index, items);
      RecordsHaveFields(data, index + 8 + |items[0]|, items[1..]);
    }
  }

  lemma EndOfFirst(data: bytes, index: nat, items: seq<bytes>)
    requires |data| < WORD && items != [] && |items[0]| < WORD
    requires index <= |data| && Records(items) <= data[index..]
    ensures EndFits(data, index)
  {
    PrefixSplits(Record(items[0]), Records(items[1..]), data[index..]);
    assert data[index..index + 8] == data[index..][..|Record(items[0])|][..8] == Word(|items[0]|);
    WordRoundTrip(|items[0]|);
  }

  lemma FirstField(data: bytes, index: nat, item: bytes, rest: seq<bytes>)
    requires Fields(data, index, [item] + rest)
    ensures var next := index + 8 + |item|;
            && EndFits(data, index) && next <= |data|
            && DivideAt(data, index) == Divided(item, next) && Fields(data, next, rest)
  {
  }

  lemma LengthOfFirst(item: bytes, rest: seq<bytes>)
    ensures |Records([item] + rest)| == 8 + |item| + |Records(rest)|
  {
  }

  lemma OneByOne(a: bytes, b: bytes, c: bytes, rest: seq<bytes>)
    ensures [a, b, c] + rest == [a] + ([b] + ([c] + rest))
  {
  }

  /** Everything `received_file` reads from the front of a message. */
  datatype Header = Header(guid: bytes, mode: bytes, index: bytes, next: nat)

  function HeaderOf(data: bytes): Header {
    var guid := DivideAt(data, 0);
    var mode := DivideAt(data, guid.next);
    var index := DivideAt(data, mode.next);
    Header(C.ToString(guid.data), mode.data, index.data, index.next)
  }

  lemma HeaderOfRecords(data: bytes, guid: bytes, mode: bytes, index: bytes, rest: seq<bytes>)
    requires Fields(data, 0, [guid, mode, index] + rest)
    ensures HeaderOf(data) == Header(C.ToString(guid), mode, index, 24 + |guid| + |mode| + |index|)
    ensures EndFits(data, 0) && EndFits(data, DivideAt(data, 0).next)
    ensures EndFits(data, DivideAt(data, DivideAt(data, 0).next).next)
    ensures Fields(data, HeaderOf(data).next, rest)
  {
    var two, one := 8 + |guid|, 16 + |guid| + |mode|;
    OneByOne(guid, mode, index, rest);
    FirstField(data, 0, guid, [mode] + ([index] + rest));
    FirstField(data, two, mode, [index] + rest);
    FirstField(data, one, index, rest);
  }

  /** What one message asks of the manager. `size_t` bounds the index field. */
  datatype Incoming =
    | Starting(guid: bytes, count: nat)
    | Failed(guid: bytes, message: bytes)
    | Content(guid: bytes, message: bytes, content: bytes)

  predicate Sound(data: bytes) {
    var h := HeaderOf(data);
    && |h.mode| > 0 && |h.index| <= 8
    && EndFits(data, 0) && EndFits(data, DivideAt(data, 0).next)
    && EndFits(data, DivideAt(data, DivideAt(data, 0).next).next)
    && EndFits(data, h.next) && EndFits(data, DivideAt(data, h.next).next)
  }

  function Parse(data: bytes): Incoming
    requires Sound(data)
  {
    var h := HeaderOf(data);
    if h.mode[0] == START then Starting(h.guid, FromLittleEndian(h.index))
    else
      var message := DivideAt(data, h.next);
      if h.mode[0] == FAILURE then Failed(h.guid, C.ToString(message.data))
      else Content(h.guid, C.ToString(message.data), DivideAt(data, message.next).data)
  }

  /** The second field decides what a message is: 0 opens a batch, 2 reports a
      failure, and any other byte brings a file. */
  lemma ModeDecides(data: bytes)
    requires Sound(data)
    ensures var mode := DivideAt(data, DivideAt(data, 0).next).data[0];
            && (Parse(data).Starting? <==> mode == 0)
            && (Parse(data).Failed? <==> mode == 2)
            && (Parse(data).Content? <==> mode != 0 && mode != 2)
            && Parse(data).guid == C.ToString(DivideAt(data, 0).data)
  {
  }

  /** A message too short for a field leaves `divide` at its end. */
  lemma EndFitsAtEnd(data: bytes, index: nat)
    requires index == |data|
    ensures EndFits(data, index) && DivideAt(data, index) == Divided([], index)
  {
  }

  /** A whole message read from its front. */
  lemma FieldsBehindHeader(data: bytes, guid: bytes, mode: bytes, index: bytes, rest: seq<bytes>)
    requires data == Records([guid, mode, index] + rest) && |data| < WORD
    ensures HeaderOf(data) == Header(C.ToString(guid), mode, index, 24 + |guid| + |mode| + |index|)
    ensures EndFits(data, 0) && EndFits(data, DivideAt(data, 0).next)
    ensures EndFits(data, DivideAt(data, DivideAt(data, 0).next).next)
    ensures Fields(data, HeaderOf(data).next, rest)
    ensures |data| == HeaderOf(data).next + |Records(rest)|
  {
    assert data[0..] == data;
    LengthOfRecords([guid, mode, index] + rest);
    RecordsHaveFields(data, 0, [guid, mode, index] + rest);
    HeaderOfRecords(data, guid, mode, index, rest);
    LengthOfThree(guid, mode, index, rest);
  }

  lemma ParseStart(guid: bytes, count: nat)
    requires count < WORD && |StartMessage(guid, count)| < WORD
    ensures Sound(StartMessage(guid, count))
    ensures Parse(StartMessage(guid, count)) == Starting(C.ToString(guid), count)
  {
    var data := StartMessage(guid, count);
    assert [guid, [START], Word(count)] == [guid, [START], Word(count)] + [];
    FieldsBehindHeader(data, guid, [START], Word(count), []);
    EndFitsAtEnd(data, HeaderOf(data).next);
    WordRoundTrip(count);
  }

  /** No item is longer than the vector of all of them. */
  lemma {:induction false} LengthOfRecords(items: seq<bytes>)
    ensures forall i :: 0 <= i < |items| ==> |items[i]| <= |Records(items)|
  {
    if items != [] {
      LengthOfRecords(items[1..]);
      assert forall i :: 0 < i < |items| ==> items[i] == items[1..][i - 1];
    }
  }

  lemma LengthOfThree(a: bytes, b: bytes, c: bytes, rest: seq<bytes>)
    ensures |Records([a, b, c] + rest)| == 24 + |a| + |b| + |c| + |Records(rest)|
  {
    OneByOne(a, b, c, rest);
    LengthOfFirst(a, [b] + ([c] + rest));
    LengthOfFirst(b, [c] + rest);
    LengthOfFirst(c, rest);
  }

  lemma ParseFailure(guid: bytes, index: nat, message: bytes)
    requires index < WORD && |Records([guid, [FAILURE], Word(index), message])| < WORD
    ensures var data := Records([guid, [FAILURE], Word(index), message]);
            Sound(data) && Parse(data) == Failed(C.ToString(guid), C.ToString(message))
  {
    var data := Records([guid, [FAILURE], Word(index), message]);
    assert [guid, [FAILURE], Word(index), message] == [guid, [FAILURE], Word(index)] + [message];
    FieldsBehindHeader(data, guid, [FAILURE], Word(index), [message]);
    assert [message] == [message] + [];
    FirstField(data, HeaderOf(data).next, message, []);
    LengthOfFirst(message, []);
    EndFitsAtEnd(data, DivideAt(data, HeaderOf(data).next).next);
  }

  lemma ParseSuccess(guid: bytes, index: nat, message: bytes, content: bytes)
    requires index < WORD && |Records([guid, [SUCCESS], Word(index), message, content])| < WORD
    ensures var data := Records([guid, [SUCCESS], Word(index), message, content]);
            Sound(data) && Parse(data) == Content(C.ToString(guid), C.ToString(message), content)
  {
    var data := Records([guid, [SUCCESS], Word(index), message, content]);
    assert [guid, [SUCCESS], Word(index), message, content] == [guid, [SUCCESS], Word(index)] + [message, content];
    FieldsBehindHeader(data, guid, [SUCCESS], Word(index), [message, content]);
    LastTwoFields(data, HeaderOf(data).next, message, content);
  }

  lemma LastTwoFields(data: bytes, index: nat, message: bytes, content: bytes)
    requires Fields(data, index, [message, content])
    ensures EndFits(data, index) && DivideAt(data, index).data == message
    ensures EndFits(data, DivideAt(data, index).next) && DivideAt(data, DivideAt(data, index).next).data == content
  {
  }

  // ----- the sender -----

  lemma {:induction false} RecordsLast(items: seq<bytes>, last: bytes)
    ensures Records(items + [last]) == Records(items) + Record(last)
    decreases |items|
  {
    if items == [] {
      assert (items + [last])[1..] == [];
    } else {
      assert (items + [last])[0] == items[0] && (items + [last])[1..] == items[1..] + [last];
      RecordsLast(items[1..], last);
      Associative(Record(items[0]), Records(items[1..]), Record(last));
    }
  }

  /** `Combiner::append` of one more item. */
  method AppendItem(vector: ByteVector, ghost items: seq<bytes>, item: bytes)
    requires vector.data == Records(items) && |item| < WORD
    modifies vector
    ensures vector.data == Records(items + [item])
  {
    RecordsLast(items, item);
    Append(vector, item);
  }

  /** `send_files`: the message that opens the batch and one low-priority job for
      each file, up to the first one that the pool refuses. */
  method SendFiles(handler: D.DataHandler, guid: bytes, files: seq<File>, accepts: nat -> bool)
    returns (ok: bool, requests: seq<bytes>)
    requires |guid| < WORD && |files| < WORD && |StartMessage(guid, |files|)| < WORD
    requires forall f :: f in files ==> |f.path| < WORD && |f.message| < WORD
    modifies handler`posted
    ensures ok ==> handler.condition == D.Confirmed && requests == Requests(guid, files)
    ensures requests <= Requests(guid, files)
    ensures handler.condition != D.Confirmed ==> !ok && requests == [] && handler.posted == old(handler.posted)
    ensures handler.condition == D.Confirmed ==>
              var reachable := handler.socket != D.NoSocket && handler.pool == D.Pool(false);
              && handler.posted == old(handler.posted)
                 + (if reachable then [D.FirstJob(Pipeline.File, StartMessage(guid, |files|))] else [])
              && (ok <==> reachable && forall i :: 0 <= i < |files| ==> accepts(i))
              && (!ok && reachable ==> |requests| < |files| && !accepts(|requests|))
              && forall i :: 0 <= i < |requests| ==> accepts(i)
  {
    requests := [];
    if handler.condition != D.Confirmed {
      return false, [];
    }
    var opening := PackStart(guid, |files|);
    LengthOfThree(guid, [START], Word(|files|), []);
    assert [guid, [START], Word(|files|)] + [] == [guid, [START], Word(|files|)];
    ok := handler.Send(Pipeline.File, opening);
    if ok {
      ok, requests := PushRequests(guid, files, accepts);
    }
  }

  method PushRequests(guid: bytes, files: seq<File>, accepts: nat -> bool) returns (ok: bool, requests: seq<bytes>)
    requires |guid| < WORD && forall f :: f in files ==> |f.path| < WORD && |f.message| < WORD
    ensures requests <= Requests(guid, files)
    ensures ok <==> forall i :: 0 <= i < |files| ==> accepts(i)
    ensures ok ==> requests == Requests(guid, files)
    ensures !ok ==> |requests| < |files| && !accepts(|requests|)
    ensures forall i :: 0 <= i < |requests| ==> accepts(i)
  {
    requests := [];
    var index := 0;
    while index < |files|
      invariant 0 <= index <= |files|
      invariant |requests| == index && forall i :: 0 <= i < index ==> requests[i] == Request(guid, i, files[i])
      invariant forall i :: 0 <= i < index ==> accepts(i)
    {
      var request := PackRequest(guid, index, files[index]);
      if !accepts(index) {
        return false, requests;
      }
      requests := requests + [request];
      index := index + 1;
    }
    return true, requests;
  }

  method PackStart(guid: bytes, count: nat) returns (message: bytes)
    requires |guid| < WORD
    ensures message == StartMessage(guid, count)
  {
    var vector := new ByteVector();
    AppendItem(vector, [], guid);
    AppendItem(vector, [guid], [START]);
    AppendItem(vector, [guid, [START]], Word(count));
    assert [] + [guid] == [guid] && [guid] + [[START]] == [guid, [START]];
    assert [guid, [START]] + [Word(count)] == [guid, [START], Word(count)];
    return vector.data;
  }

  method PackRequest(guid: bytes, index: nat, file: File) returns (request: bytes)
    requires |guid| < WORD && |file.path| < WORD && |file.message| < WORD
    ensures request == Request(guid, index, file)
  {
    var vector := PackFour(guid, Word(index), file.path, file.message);
    return vector.data;
  }

  /** The four fields a file sending job takes out of its input. */
  datatype Asked = Asked(guid: bytes, index: bytes, path: bytes, message: bytes)

  function AskedIn(request: bytes): Asked {
    var guid := DivideAt(request, 0);
    var index := DivideAt(request, guid.next);
    var path := DivideAt(request, index.next);
    Asked(guid.data, index.data, C.ToString(path.data), DivideAt(request, path.next).data)
  }

  predicate SoundRequest(request: bytes) {
    var index := DivideAt(request, DivideAt(request, 0).next);
    && EndFits(request, 0) && EndFits(request, DivideAt(request, 0).next)
    && EndFits(request, index.next) && EndFits(request, DivideAt(request, index.next).next)
  }

  /** The job's answer to its input. */
  function Answer(request: bytes, disk: bytes -> Option<bytes>): bytes {
    var asked := AskedIn(request);
    Packed(asked.guid, asked.index, asked.message, disk(asked.path))
  }

  lemma AnswerIsFileMessage(guid: bytes, index: nat, file: File, disk: bytes -> Option<bytes>)
    requires index < WORD && |Request(guid, index, file)| < WORD
    ensures SoundRequest(Request(guid, index, file))
    ensures Answer(Request(guid, index, file), disk) == FileMessage(guid, index, file, disk)
  {
    var request := Request(guid, index, file);
    assert request[0..] == request;
    LengthOfRecords([guid, Word(index), file.path, file.message]);
    RecordsHaveFields(request, 0, [guid, Word(index), file.path, file.message]);
    assert [guid, Word(index), file.path, file.message] == [guid] + ([Word(index)] + [file.path, file.message]);
    FirstField(request, 0, guid, [Word(index)] + [file.path, file.message]);
    FirstField(request, 8 + |guid|, Word(index), [file.path, file.message]);
    LastTwoFields(request, 24 + |guid|, file.path, file.message);
  }

  class FileSendingJob {
    const data: bytes

    constructor (data: bytes)
      ensures this.data == data
    {
      this.data := data;
    }

    /** The callback is `send` of the connection. `disk` is the file system. */
    method Working(handler: D.DataHandler, disk: bytes -> Option<bytes>) returns (ok: bool)
      requires |data| < WORD && SoundRequest(data) && |Answer(data, disk)| < WORD
      requires disk(AskedIn(data).path).Some? ==> |disk(AskedIn(data).path).value| < WORD
      modifies handler`posted
      ensures ok == (data != [] && handler.socket != D.NoSocket && handler.pool == D.Pool(false))
      ensures handler.posted == old(handler.posted) + if ok then [D.FirstJob(Pipeline.File, Answer(data, disk))] else []
    {
      if data == [] {
        return false;
      }
      var cursor := new Cursor();
      var guid := Divide(data, cursor);
      var index := Divide(data, cursor);
      var path := Divide(data, cursor);
      var message := Divide(data, cursor);
      var content := disk(C.ToString(path));
      DivideIsShorter(data, 0);
      DivideIsShorter(data, DivideAt(data, 0).next);
      DivideIsShorter(data, DivideAt(data, DivideAt(data, DivideAt(data, 0).next).next).next);
      var answer := PackAnswer(guid, index, message, content);
      AnswerIsNotEmpty(guid, index, message, content);
      ok := handler.Send(Pipeline.File, answer);
    }
  }

  lemma DivideIsShorter(data: bytes, index: nat)
    ensures |DivideAt(data, index).data| <= |data|
  {
  }

  lemma AnswerIsNotEmpty(guid: bytes, index: bytes, message: bytes, content: Option<bytes>)
    ensures Packed(guid, index, message, content) != []
  {
  }

  method PackAnswer(guid: bytes, index: bytes, message: bytes, content: Option<bytes>) returns (answer: bytes)
    requires |guid| < WORD && |index| < WORD && |message| < WORD && (content.Some? ==> |content.value| < WORD)
    ensures answer == Packed(guid, index, message, content)
  {
    if content == None {
      var failed := PackFour(guid, [FAILURE], index, message);
      return failed.data;
    }
    var vector := PackFour(guid, [SUCCESS], index, message);
    AppendItem(vector, [guid, [SUCCESS], index, message], content.value);
    assert [guid, [SUCCESS], index, message] + [content.value] == [guid, [SUCCESS], index, message, content.value];
    return vector.data;
  }

  method PackFour(a: bytes, b: bytes, c: bytes, d: bytes) returns (vector: ByteVector)
    requires |a| < WORD && |b| < WORD && |c| < WORD && |d| < WORD
    ensures fresh(vector) && vector.data == Records([a, b, c, d])
  {
    vector := new ByteVector();
    AppendItem(vector, [], a);
    AppendItem(vector, [a], b);
    AppendItem(vector, [a, b], c);
    AppendItem(vector, [a, b, c], d);
    assert [] + [a] == [a] && [a] + [b] == [a, b];
    assert [a, b] + [c] == [a, b, c] && [a, b, c] + [d] == [a, b, c, d];
  }

  // ----- the receiver -----

  /** What a message does to the manager: the temporary path, if the content
      could be saved, comes from the file system. */
  function Handled(core: M.Core, incoming: Incoming, saved: Option<bytes>, accepted: bool): M.Core {
    match incoming
    case Starting(guid, count) => M.StartIn(core, guid, count)
    case Failed(guid, message) => Reported(core, guid, M.Failure(message), accepted)
    case Content(guid, message, _) =>
      Reported(core, guid, if saved.Some? then M.Success(message, saved.value) else M.Failure(message), accepted)
  }

  function Reported(core: M.Core, guid: bytes, report: M.Report, accepted: bool): M.Core {
    if guid in core.table then M.CheckIn(M.RecordIn(core, guid, report), guid, accepted) else core
  }

  /** `received_file`: a line that was never confirmed expires instead. */
  method ReceivedFile(handler: D.DataHandler, manager: M.FileManager, data: bytes, saved: Option<bytes>) returns (ok: bool)
    requires |data| < WORD && (data != [] ==> Sound(data))
    modifies handler`condition, handler`disconnections
    modifies manager`conditions, manager`queued, manager`refused, manager`history
    ensures old(handler.condition) != D.Confirmed ==>
              !ok && handler.condition == D.Expired && manager.View() == old(manager.View())
    ensures old(handler.condition) == D.Confirmed ==>
              && handler.condition == D.Confirmed
              && manager.View() == if data == [] then old(manager.View())
                                   else Handled(old(manager.View()), Parse(data), saved, !manager.locked)
  {
    if handler.condition != D.Confirmed {
      handler.SetCondition(D.Expired, false);
      return false;
    }
    if data == [] {
      return false;
    }
    var cursor := new Cursor();
    var guid := Divide(data, cursor);
    var mode := Divide(data, cursor);
    var index := Divide(data, cursor);
    if mode[0] == START {
      ok := manager.Start(C.ToString(guid), FromLittleEndian(index));
      return;
    }
    var message := Divide(data, cursor);
    if mode[0] == FAILURE {
      ok := manager.RecordFailure(C.ToString(guid), C.ToString(message));
      return;
    }
    var content := Divide(data, cursor);
    if saved == None {
      ok := manager.RecordFailure(C.ToString(guid), C.ToString(message));
      return;
    }
    ok := manager.RecordSuccess(C.ToString(guid), C.ToString(message), saved.value);
  }
}
