/** Network/DataHandler.cpp: the asynchronous reader over its fixed buffer, and
    the jobs that carry a message from one thread to the next. */
module DataHandler {
  import opened Bytes
  import opened JobPool
  import Combiner
  import Compressor
  import Frames
  import Pipeline

  /** Network/ConnectConditions.h. */
  datatype Condition = Idle | Waiting | Confirmed | Expired

  datatype Socket = NoSocket | Closed | Open

  /** The thread pool as its users see it: a locked pool refuses jobs. */
  datatype Pool = NoPool | Pool(locked: bool)

  /** What a job of a connection does when a worker runs it. */
  datatype Task =
    | Encrypt(data: bytes)
    | Compress(data: bytes)
    | Sending(codes: Frames.Codes, data: bytes, bufferSize: nat)
    | Decompress(data: bytes)
    | Decrypt(data: bytes)
    | Receiving(data: bytes)

  datatype Posted = Posted(priority: Priority, task: Task)

  // ----- the jobs of one message -----

  /** The job that `send` posts. */
  function FirstJob(mode: Pipeline.Mode, data: bytes): Posted {
    var packed := Pipeline.Packed(mode, data);
    if mode == Pipeline.Connection then Posted(High, Compress(packed)) else Posted(Normal, Encrypt(packed))
  }

  /** The settings of a connection that its jobs read. */
  datatype Settings = Settings(setup: Pipeline.Setup, keys: Pipeline.Keys, codes: Frames.Codes, bufferSize: nat)

  predicate Readable(settings: Settings, task: Task) {
    task.Decompress? ==> Compressor.Decodable(settings.setup.codec, settings.setup.blockBytes, task.data)
  }

  /** The job posted by running a job, until one reaches the socket or the receiver. */
  function NextJob(settings: Settings, task: Task): Option<Posted>
    requires Readable(settings, task)
  {
    match task
    case Encrypt(data) => Some(Posted(High, Compress(Pipeline.EncryptStage(settings.setup, settings.keys, data))))
    case Compress(data) =>
      Some(Posted(Top, Sending(settings.codes, Pipeline.CompressStage(settings.setup, data), settings.bufferSize)))
    case Decompress(data) => Some(Posted(Normal, Decrypt(Pipeline.DecompressStage(settings.setup, data))))
    case Decrypt(data) => Some(Posted(High, Receiving(Pipeline.DecryptStage(settings.setup, settings.keys, data))))
    case Sending(_, _, _) => None
    case Receiving(_) => None
  }

  /** Job after job, to the last. */
  function Follow(settings: Settings, job: Posted, steps: nat): (last: Posted)
    requires Readable(settings, job.task)
    ensures Readable(settings, last.task)
    decreases steps
  {
    if steps == 0 then job
    else
      match NextJob(settings, job.task)
      case None => job
      case Some(next) => Follow(settings, next, steps - 1)
  }

  /** The sender's jobs end in a sending job for `Outgoing`, the only job of a
      message at the highest priority. */
  lemma SendingChain(settings: Settings, mode: Pipeline.Mode, data: bytes)
    ensures Follow(settings, FirstJob(mode, data), 2)
         == Posted(Top, Sending(settings.codes, Pipeline.Outgoing(settings.setup, settings.keys, mode, data), settings.bufferSize))
  {
  }

  /** The receiver's jobs end in a receiving job for `Incoming`. */
  lemma ReceivingChain(settings: Settings, payload: bytes)
    requires Compressor.Decodable(settings.setup.codec, settings.setup.blockBytes, payload)
    ensures Follow(settings, Posted(Low, Decompress(payload)), 2)
         == Posted(High, Receiving(Pipeline.Incoming(settings.setup, settings.keys, payload)))
  {
  }

  /** The same for whole messages: what the sending jobs of one endpoint write,
      the reader of the other posts, and the last job posted for each payload
      hands its message to the handler of its mode. */
  lemma JobsEndToEnd(
    sender: Settings, receiver: Settings, related: (Compressor.StreamState, Compressor.StreamState) -> bool,
    messages: seq<Pipeline.Sent>)
    requires sender.setup == receiver.setup && sender.codes == receiver.codes && sender.codes.Valid()
    requires Pipeline.CipherInverts(sender.setup.cipher) && 0 < receiver.bufferSize
    requires forall i :: 0 <= i < |messages| ==>
      && messages[i].data != [] && |messages[i].data| < WORD
      && Pipeline.Compatible(messages[i].mode, sender.keys, receiver.keys)
      && Pipeline.Carries(sender.setup, related, sender.keys, messages[i].mode, messages[i].data)
    ensures var payloads := Pipeline.Payloads(sender.setup, sender.keys, messages);
            var emitted := Frames.Run(sender.codes, receiver.bufferSize, Frames.FRESH, Frames.Wire(sender.codes, payloads)).0.emitted;
            && emitted == payloads
            && forall i :: 0 <= i < |messages| ==> MessageCrosses(sender, receiver, messages[i], payloads[i])
  {
    var payloads := Pipeline.Payloads(sender.setup, sender.keys, messages);
    forall i | 0 <= i < |messages|
      ensures |payloads[i]| < WORD
      ensures MessageCrosses(sender, receiver, messages[i], payloads[i])
    {
      OneMessageCrosses(sender, receiver, related, messages[i]);
    }
    Frames.FrameRoundTrip(sender.codes, receiver.bufferSize, payloads, [], 0);
  }

  /** The sender's jobs end in the payload, the receiver's in the message. */
  predicate MessageCrosses(sender: Settings, receiver: Settings, message: Pipeline.Sent, payload: bytes) {
    && Follow(sender, FirstJob(message.mode, message.data), 2) == Posted(Top, Sending(sender.codes, payload, sender.bufferSize))
    && Readable(receiver, Decompress(payload))
    && var last := Follow(receiver, Posted(Low, Decompress(payload)), 2);
       && last.priority == High && last.task.Receiving?
       && Pipeline.Dispatch(Pipeline.Deliver(last.task.data)) == Some(message)
  }

  lemma OneMessageCrosses(
    sender: Settings, receiver: Settings, related: (Compressor.StreamState, Compressor.StreamState) -> bool,
    message: Pipeline.Sent)
    requires sender.setup == receiver.setup && Pipeline.CipherInverts(sender.setup.cipher)
    requires message.data != [] && |message.data| < WORD
    requires Pipeline.Compatible(message.mode, sender.keys, receiver.keys)
    requires Pipeline.Carries(sender.setup, related, sender.keys, message.mode, message.data)
    ensures var payload := Pipeline.Outgoing(sender.setup, sender.keys, message.mode, message.data);
            |payload| < WORD && MessageCrosses(sender, receiver, message, payload)
  {
    var payload := Pipeline.Outgoing(sender.setup, sender.keys, message.mode, message.data);
    Pipeline.StagesRoundTrip(sender.setup, related, sender.keys, receiver.keys, message.mode, message.data);
    SendingChain(sender, message.mode, message.data);
    ReceivingChain(receiver, payload);
  }

  /** What the reader posts for the payloads it has read. */
  function ReadJobs(payloads: seq<bytes>): (jobs: seq<Posted>)
    ensures |jobs| == |payloads|
    ensures forall i :: 0 <= i < |jobs| ==> jobs[i] == Posted(Low, Decompress(payloads[i]))
  {
    if payloads == [] then [] else ReadJobs(payloads[..|payloads| - 1]) + [Posted(Low, Decompress(payloads[|payloads| - 1]))]
  }

  lemma ReadJobsAppend(a: seq<bytes>, b: seq<bytes>)
    ensures ReadJobs(a + b) == ReadJobs(a) + ReadJobs(b)
  {
  }

  class DataHandler {
    var condition: Condition
    var socket: Socket
    var pool: Pool
    var codes: Frames.Codes
    var keys: Pipeline.Keys
    var buffer: array<byte>
    var received: bytes
    /** The read registered on the socket, if there is one. */
    var registered: Option<Frames.Stage>
    /** Bytes that have arrived and were not yet asked for. */
    var incoming: bytes
    /** The jobs pushed to the pool, in order. */
    var posted: seq<Posted>
    /** The arguments of every call of the `disconnected` hook. */
    var disconnections: seq<bool>
    ghost var emitted: seq<bytes>
    const setup: Pipeline.Setup

    ghost predicate Valid()
      reads this
    {
      codes.Valid() && 8 <= buffer.Length && setup.blockBytes < 0x1_0000
    }

    /** The reader of module Frames that this handler is. */
    ghost function View(): Frames.Reader
      reads this
      requires registered.Some?
    {
      Frames.Reader(registered.value, received, emitted)
    }

    predicate Up()
      reads this
    {
      condition != Expired && socket == Open
    }

    /** A step that finds the socket gone, or whose read failed, drops the line. */
    predicate Drops(failed: bool)
      reads this
    {
      condition != Expired && (failed || socket != Open)
    }

    /** A read is pending, so that bytes that arrive are handled. */
    ghost predicate Reading()
      reads this
    {
      Valid() && Up() && registered.Some? && View().Armed()
    }

    /** What the reader has, between two reads. */
    ghost function Held(): Frames.Reader
      reads this
    {
      Frames.Reader(Frames.Length, received, emitted)
    }

    function CurrentSettings(): Settings
      reads this
    {
      Settings(setup, keys, codes, buffer.Length)
    }

    constructor (setup: Pipeline.Setup)
      requires setup.blockBytes < 0x1_0000
      ensures Valid() && fresh(buffer) && buffer.Length == 1024 && codes == Frames.DEFAULT_CODES
      ensures codes.start == [253, 253, 253, 253] && codes.end == [252, 252, 252, 252]
      ensures condition == Idle && socket == NoSocket && pool == NoPool && this.setup == setup
      ensures received == [] && emitted == [] && registered == Option.None && incoming == [] && posted == []
      ensures disconnections == [] && keys == Pipeline.Keys(false, "", "")
    {
      this.setup := setup;
      condition, socket, pool, codes := Idle, NoSocket, NoPool, Frames.DEFAULT_CODES;
      keys := Pipeline.Keys(false, "", "");
      buffer := new byte[1024](_ => 0);
      received, registered, incoming, posted, disconnections, emitted := [], Option.None, [], [], [], [];
    }

    /** The hook runs exactly when the condition becomes Expired. */
    method SetCondition(next: Condition, byItself: bool)
      modifies this`condition, this`disconnections
      ensures condition == next
      ensures disconnections
           == old(disconnections) + if next == Expired && old(condition) != Expired then [byItself] else []
    {
      if condition == next {
        return;
      }
      condition := next;
      if condition == Expired {
        disconnections := disconnections + [byItself];
      }
    }

    /** A new buffer of another size; no read may be pending into the old one. */
    method ResizeBuffer(size: nat)
      requires Valid() && 8 <= size && registered == Option.None
      modifies this`buffer
      ensures Valid() && buffer.Length == size
      ensures buffer == old(buffer) || (fresh(buffer) && forall i :: 0 <= i < size ==> buffer[i] == 0)
    {
      if buffer.Length != size {
        buffer := new byte[size](_ => 0);
      }
    }

    method Push(job: Posted) returns (ok: bool)
      modifies this`posted
      ensures ok == (pool == Pool(false))
      ensures posted == old(posted) + if ok then [job] else []
    {
      ok := pool == Pool(false);
      if ok {
        posted := posted + [job];
      }
    }

    /** What a pushed list of payloads adds to the pool. */
    ghost function Accepted(payloads: seq<bytes>): seq<Posted>
      reads this`pool
    {
      if pool == Pool(false) then ReadJobs(payloads) else []
    }

    // ----- reading -----

    /** Every reading step first makes sure that the line is still there. */
    method LineIsUp() returns (up: bool)
      modifies this`condition, this`disconnections
      ensures up == old(Up())
      ensures condition == (if up then old(condition) else Expired)
      ensures disconnections == old(disconnections) + if old(Drops(false)) then [false] else []
    {
      if condition == Expired {
        return false;
      }
      if socket != Open {
        SetCondition(Expired, false);
        return false;
      }
      return true;
    }

    /** Clears the buffer and asks the socket for the bytes of a stage. */
    method Register(stage: Frames.Stage)
      modifies this`registered, buffer
      ensures registered == Some(stage)
    {
      forall i | 0 <= i < buffer.Length {
        buffer[i] := 0;
      }
      registered := Some(stage);
    }

    method ReadStartCode(matched: nat)
      requires Valid() && matched <= 4
      modifies this`condition, this`disconnections, this`received, this`registered, buffer
      ensures old(Up()) ==> Reading() && condition == old(condition) && View() == Frames.EnterStart(old(Held()), matched)
      ensures !old(Up()) ==> condition == Expired && registered == old(registered)
      ensures disconnections == old(disconnections) + if old(Drops(false)) then [false] else []
    {
      var up := LineIsUp();
      if !up {
        return;
      }
      if matched == 4 {
        ReadLengthCode();
        return;
      }
      received := [];
      Register(Frames.Start(matched));
    }

    method ReadLengthCode()
      requires Valid()
      modifies this`condition, this`disconnections, this`registered, buffer
      ensures old(Up()) ==> Reading() && condition == old(condition) && View() == old(Held())
      ensures !old(Up()) ==> condition == Expired && registered == old(registered)
      ensures disconnections == old(disconnections) + if old(Drops(false)) then [false] else []
    {
      var up := LineIsUp();
      if up {
        Register(Frames.Length);
      }
    }

    method ReadData(remaining: nat)
      requires Valid()
      modifies this`condition, this`disconnections, this`received, this`registered, this`posted, this`emitted, buffer
      ensures old(Up()) ==> Reading() && condition == old(condition) && View() == Frames.EnterData(old(Held()), remaining)
      ensures !old(Up()) ==> condition == Expired && registered == old(registered)
      ensures emitted == old(emitted) && posted == old(posted)
      ensures disconnections == old(disconnections) + if old(Drops(false)) then [false] else []
    {
      var up := LineIsUp();
      if !up {
        return;
      }
      if remaining == 0 {
        var _ := ReadEndCode(0);
        return;
      }
      Register(Frames.Data(remaining));
    }

    /** A payload that is complete is posted, unless the pool refuses it. */
    method ReadEndCode(matched: nat) returns (ghost read: seq<bytes>)
      requires Valid() && matched <= 4
      modifies this`condition, this`disconnections, this`received, this`registered, this`posted, this`emitted, buffer
      ensures old(Up()) ==> Reading() && condition == old(condition) && View() == Frames.EnterEnd(old(Held()), matched)
      ensures !old(Up()) ==> condition == Expired && registered == old(registered) && emitted == old(emitted)
      ensures emitted == old(emitted) + read && posted == old(posted) + Accepted(read)
      ensures disconnections == old(disconnections) + if old(Drops(false)) then [false] else []
    {
      read := [];
      var up := LineIsUp();
      if !up {
        return;
      }
      if matched == 4 {
        if pool != NoPool {
          var _ := Push(Posted(Low, Decompress(received)));
        }
        emitted, read := emitted + [received], [received];
        received := [];
        ReadStartCode(0);
        return;
      }
      Register(Frames.End(matched));
    }

    /** The socket puts the next bytes at the front of the buffer. */
    method Fill(n: nat)
      requires n <= buffer.Length && n <= |incoming|
      modifies this`incoming, buffer
      ensures buffer[..n] == old(incoming)[..n] && incoming == old(incoming)[n..]
    {
      forall i | 0 <= i < n {
        buffer[i] := incoming[i];
      }
      incoming := incoming[n..];
    }

    /** The completion handler of the pending read: the socket either failed, or
        has put the bytes asked for at the front of the buffer. */
    method Complete(failed: bool) returns (ghost read: seq<bytes>)
      requires Valid() && registered.Some? && View().Armed()
      requires !failed ==> Frames.Pending(registered.value, buffer.Length) <= |incoming|
      modifies this`condition, this`disconnections, this`received, this`registered, this`posted, this`emitted,
               this`incoming, buffer
      ensures old(Up()) && !failed ==>
                var n := Frames.Pending(old(registered).value, buffer.Length);
                && 0 < n && Reading() && condition == old(condition) && incoming == old(incoming)[n..]
                && View() == Frames.Handle(codes, old(View()), old(incoming)[..n])
      ensures failed || !old(Up()) ==> condition == Expired && registered == Option.None && emitted == old(emitted)
      ensures emitted == old(emitted) + read && posted == old(posted) + Accepted(read)
      ensures disconnections == old(disconnections) + if old(Drops(failed)) then [false] else []
    {
      var stage := registered.value;
      registered, read := Option.None, [];
      if condition == Expired {
        return;
      }
      if failed {
        SetCondition(Expired, false);
        return;
      }
      var n := Frames.Pending(stage, buffer.Length);
      Fill(n);
      var chunk := buffer[..n];
      match stage {
        case Start(matched) =>
          ReadStartCode(if buffer[0] == codes.start[matched] then matched + 1 else 0);
        case Length =>
          ReadData(FromLittleEndian(chunk));
        case Data(remaining) =>
          received := received + chunk;
          ReadData(remaining - n);
        case End(matched) =>
          if buffer[0] == codes.end[matched] {
            read := ReadEndCode(matched + 1);
          } else {
            ReadStartCode(0);
          }
      }
    }

    /** One completion is one step of `Frames.Run`. */
    method Handle() returns (ghost read: seq<bytes>)
      requires Reading() && Frames.Pending(registered.value, buffer.Length) <= |incoming|
      modifies this`condition, this`disconnections, this`received, this`registered, this`posted, this`emitted,
               this`incoming, buffer
      ensures Reading() && |incoming| < |old(incoming)|
      ensures Frames.Run(codes, buffer.Length, View(), incoming)
           == Frames.Run(codes, buffer.Length, old(View()), old(incoming))
      ensures emitted == old(emitted) + read && posted == old(posted) + Accepted(read)
      ensures condition == old(condition) && disconnections == old(disconnections)
    {
      read := Complete(false);
    }

    /** Everything that has arrived is handled, as `Frames.Run` says, and every
        payload that was read is posted. */
    method Pump() returns (ghost read: seq<bytes>)
      requires Reading()
      modifies this`condition, this`disconnections, this`received, this`registered, this`posted, this`emitted,
               this`incoming, buffer
      ensures Reading()
      ensures (View(), incoming) == Frames.Run(codes, buffer.Length, old(View()), old(incoming))
      ensures emitted == old(emitted) + read && posted == old(posted) + Accepted(read)
      ensures condition == old(condition) && disconnections == old(disconnections)
    {
      read := [];
      while Frames.Pending(registered.value, buffer.Length) <= |incoming|
        invariant Reading() && condition == old(condition) && disconnections == old(disconnections)
        invariant Frames.Run(codes, buffer.Length, View(), incoming)
               == Frames.Run(codes, buffer.Length, old(View()), old(incoming))
        invariant emitted == old(emitted) + read && posted == old(posted) + Accepted(read)
        decreases |incoming|
      {
        ghost var before := read;
        ghost var next := Handle();
        read := read + next;
        ReadJobsAppend(before, next);
        Associative(old(emitted), before, next);
        Associative(old(posted), Accepted(before), Accepted(next));
      }
    }

    /** Bytes arrive while a read is pending. However a stream is cut up, the
        handler ends where it would after one piece (`Frames.RunInPieces`). */
    method Arrive(piece: bytes) returns (ghost read: seq<bytes>)
      requires Reading()
      modifies this`condition, this`disconnections, this`received, this`registered, this`posted, this`emitted,
               this`incoming, buffer
      ensures Reading()
      ensures (View(), incoming) == Frames.Run(codes, buffer.Length, old(View()), old(incoming) + piece)
      ensures emitted == old(emitted) + read && posted == old(posted) + Accepted(read)
      ensures condition == old(condition) && disconnections == old(disconnections)
    {
      incoming := incoming + piece;
      read := Pump();
    }

    // ----- one message -----

    method Send(mode: Pipeline.Mode, data: bytes) returns (ok: bool)
      requires |data| < WORD
      modifies this`posted
      ensures ok == (socket != NoSocket && pool == Pool(false) && data != [])
      ensures posted == old(posted) + if ok then [FirstJob(mode, data)] else []
    {
      if socket == NoSocket || pool == NoPool || data == [] {
        return false;
      }
      var vector := new Combiner.ByteVector();
      Combiner.Append(vector, [Pipeline.ModeByte(mode)]);
      Combiner.Append(vector, data);
      assert vector.data == Pipeline.Packed(mode, data) by {
        assert [] + Combiner.Record([Pipeline.ModeByte(mode)]) == Combiner.Record([Pipeline.ModeByte(mode)]);
      }
      if mode == Pipeline.Connection {
        ok := Push(Posted(High, Compress(vector.data)));
        return;
      }
      ok := Push(Posted(Normal, Encrypt(vector.data)));
    }

    /** The guards that every stage starts with. */
    predicate Accepts()
      reads this
    {
      condition != Expired && pool == Pool(false)
    }

    method EncryptMessage(data: bytes) returns (ok: bool)
      modifies this`posted
      ensures ok == Accepts()
      ensures posted == old(posted) + if ok then [NextJob(CurrentSettings(), Encrypt(data)).value] else []
    {
      if condition == Expired || pool == NoPool {
        return false;
      }
      if !keys.encrypt {
        ok := Push(Posted(High, Compress(data)));
        return;
      }
      var result := Pipeline.Encryption(setup.cipher, data, keys.key, keys.iv);
      if result == Option.None {
        result := Some(data);
      }
      ok := Push(Posted(High, Compress(result.value)));
    }

    method CompressMessage(data: bytes) returns (ok: bool)
      requires Valid()
      modifies this`posted
      ensures ok == Accepts()
      ensures posted == old(posted) + if ok then [NextJob(CurrentSettings(), Compress(data)).value] else []
    {
      if condition == Expired || pool == NoPool {
        return false;
      }
      var result := Compressor.Compress(setup.codec, data, setup.blockBytes);
      if result == Option.None {
        result := Some(data);
      }
      ok := Push(Posted(Top, Sending(codes, result.value, buffer.Length)));
    }

    method DecompressMessage(data: bytes) returns (ok: bool)
      requires Valid() && Compressor.Decodable(setup.codec, setup.blockBytes, data)
      modifies this`posted
      ensures ok == Accepts()
      ensures posted == old(posted) + if ok then [NextJob(CurrentSettings(), Decompress(data)).value] else []
    {
      if condition == Expired || pool == NoPool {
        return false;
      }
      var result := Compressor.Decompress(setup.codec, data, setup.blockBytes);
      if result == Option.None {
        result := Some(data);
      }
      ok := Push(Posted(Normal, Decrypt(result.value)));
    }

    method DecryptMessage(data: bytes) returns (ok: bool)
      modifies this`posted
      ensures ok == Accepts()
      ensures posted == old(posted) + if ok then [NextJob(CurrentSettings(), Decrypt(data)).value] else []
    {
      if condition == Expired || pool == NoPool {
        return false;
      }
      if !keys.encrypt {
        ok := Push(Posted(High, Receiving(data)));
        return;
      }
      var result := Pipeline.Decryption(setup.cipher, data, keys.key, keys.iv);
      if result == Option.None {
        result := Some(data);
      }
      ok := Push(Posted(High, Receiving(result.value)));
    }
  }
}
