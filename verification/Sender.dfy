/** Network/SendingJob.cpp: one job writes one frame to the socket. What the
    socket accepts at every call is decided by an oracle. */
module Sender {
  import opened Bytes
  import opened Frames

  /** A send of a non-empty buffer takes some bytes of it or throws. */
  datatype Grant = Accept(count: nat) | Throw

  type Oracle = nat -> Grant

  class Socket {
    const oracle: Oracle
    var calls: nat
    var written: bytes

    constructor (oracle: Oracle)
      ensures this.oracle == oracle && calls == 0 && written == []
    {
      this.oracle := oracle;
      calls, written := 0, [];
    }

    /** `boost::asio` `send`: None is an exception. */
    method Send(buffer: bytes) returns (sent: Option<nat>)
      modifies this
      ensures calls == old(calls) + 1
      ensures sent == Sent(oracle(old(calls)), |buffer|)
      ensures written == old(written) + (if sent.Some? then buffer[..sent.value] else [])
    {
      var grant := oracle(calls);
      calls := calls + 1;
      match grant
      case Throw =>
        sent := None;
      case Accept(n) =>
        sent := Some(Min(n, |buffer|));
        written := written + buffer[..sent.value];
    }
  }

  // ----- what a job writes -----

  function Sent(grant: Grant, size: nat): (sent: Option<nat>)
    ensures sent.Some? ==> sent.value <= size
  {
    match grant
    case Throw => None
    case Accept(n) => Some(Min(n, size))
  }

  /** What was written, the next call, and whether it all went out. */
  datatype Progress = Progress(emitted: bytes, calls: nat, ok: bool)

  function SendCode(oracle: Oracle, calls: nat, code: bytes): Progress {
    match Sent(oracle(calls), |code|)
    case None => Progress([], calls + 1, false)
    case Some(n) => Progress(code[..n], calls + 1, n == |code|)
  }

  /** Where the sending loop stops when it is at `index`. */
  datatype Stop = Stop(index: nat, calls: nat, ok: bool)

  function SendFrom(oracle: Oracle, calls: nat, data: bytes, index: nat, bufferSize: nat): (s: Stop)
    requires index <= |data|
    ensures index <= s.index <= |data|
    ensures s.ok ==> s.index == |data|
    decreases |data| - index
  {
    if index == |data| then Stop(index, calls, true) else
    match Sent(oracle(calls), Min(bufferSize, |data| - index))
    case None => Stop(index, calls + 1, false)
    case Some(n) =>
      if n == 0 then Stop(index, calls + 1, false)
      else SendFrom(oracle, calls + 1, data, index + n, bufferSize)
  }

  function SendChunks(oracle: Oracle, calls: nat, data: bytes, bufferSize: nat): (p: Progress) {
    var stop := SendFrom(oracle, calls, data, 0, bufferSize);
    Progress(data[..stop.index], stop.calls, stop.ok)
  }

  /** One part after another, as long as all went out. */
  function Then(first: Progress, second: Progress): Progress {
    if first.ok then second.(emitted := first.emitted + second.emitted) else first
  }

  function SendFrame(oracle: Oracle, calls: nat, codes: Codes, data: bytes, bufferSize: nat): Progress {
    if data == [] then Progress([], calls, false)
    else
      var a := SendCode(oracle, calls, codes.start);
      var b := Then(a, SendCode(oracle, a.calls, Word(|data|)));
      var c := Then(b, SendChunks(oracle, b.calls, data, bufferSize));
      Then(c, SendCode(oracle, c.calls, codes.end))
  }

  // ----- the job -----

  class SendingJob {
    const socket: Socket
    const codes: Codes
    const data: bytes
    const bufferSize: nat

    constructor (socket: Socket, codes: Codes, data: bytes, bufferSize: nat)
      ensures this.socket == socket && this.codes == codes && this.data == data && this.bufferSize == bufferSize
    {
      this.socket, this.codes, this.data, this.bufferSize := socket, codes, data, bufferSize;
    }

    /** `send_start`, `send_length` and `send_end`. */
    method SendExactly(code: bytes) returns (ok: bool)
      modifies socket
      ensures var p := SendCode(socket.oracle, old(socket.calls), code);
              socket.written == old(socket.written) + p.emitted && socket.calls == p.calls && ok == p.ok
    {
      var sent := socket.Send(code);
      if sent.None? {
        return false;
      }
      ok := sent.value == |code|;
    }

    method SendData() returns (ok: bool)
      modifies socket
      ensures var p := SendChunks(socket.oracle, old(socket.calls), data, bufferSize);
              socket.written == old(socket.written) + p.emitted && socket.calls == p.calls && ok == p.ok
    {
      ghost var before, stop := socket.written, SendFrom(socket.oracle, socket.calls, data, 0, bufferSize);
      var index := 0;
      assert before + data[..0] == before;
      while index < |data|
        invariant index <= |data| && socket.written == before + data[..index]
        invariant SendFrom(socket.oracle, socket.calls, data, index, bufferSize) == stop
      {
        var temp := Min(bufferSize, |data| - index);
        var buffer := data[index..index + temp];
        var sent := socket.Send(buffer);
        if sent.None? || sent.value == 0 {
          return false;
        }
        ChunkOf(before, data, index, temp, sent.value);
        index := index + sent.value;
      }
      ok := true;
    }

    method Working() returns (ok: bool)
      modifies socket
      ensures var p := SendFrame(socket.oracle, old(socket.calls), codes, data, bufferSize);
              socket.written == old(socket.written) + p.emitted && socket.calls == p.calls && ok == p.ok
    {
      if data == [] {
        return false;
      }
      ghost var w0, a := socket.written, SendCode(socket.oracle, socket.calls, codes.start);
      ok := SendExactly(codes.start);
      if !ok {
        return;
      }
      ghost var b := SendCode(socket.oracle, a.calls, Word(|data|));
      ok := SendExactly(Word(|data|));
      Associative(w0, a.emitted, b.emitted);
      if !ok {
        return;
      }
      ghost var c := SendChunks(socket.oracle, b.calls, data, bufferSize);
      ok := SendData();
      Associative(w0, a.emitted + b.emitted, c.emitted);
      if !ok {
        return;
      }
      ghost var d := SendCode(socket.oracle, c.calls, codes.end);
      ok := SendExactly(codes.end);
      Associative(w0, a.emitted + b.emitted + c.emitted, d.emitted);
    }
  }

  lemma ChunkOf(before: bytes, data: bytes, index: nat, size: nat, n: nat)
    requires index + size <= |data| && n <= size
    ensures before + data[..index] + data[index..index + size][..n] == before + data[..index + n]
  {
  }

  // ----- properties -----

  /** A proper prefix of `whole` on failure, `whole` itself on success. */
  predicate AllOrPrefix(p: Progress, whole: bytes) {
    if p.ok then p.emitted == whole else p.emitted < whole
  }

  predicate Positive(grant: Grant) {
    grant.Accept? && 0 < grant.count
  }

  /** However short the writes, the sending loop takes the payload to its end
      exactly when the socket takes something at every call that is made. */
  lemma {:induction false} LoopSucceeds(oracle: Oracle, calls: nat, data: bytes, index: nat, bufferSize: nat)
    requires 0 < bufferSize && index <= |data|
    ensures var stop := SendFrom(oracle, calls, data, index, bufferSize);
            && calls <= stop.calls
            && (stop.ok <==> stop.index == |data|)
            && (stop.ok <==> forall k :: calls <= k < stop.calls ==> Positive(oracle(k)))
    decreases |data| - index
  {
    if index < |data| {
      var sent := Sent(oracle(calls), Min(bufferSize, |data| - index));
      if sent.Some? && sent.value > 0 {
        LoopSucceeds(oracle, calls + 1, data, index + sent.value, bufferSize);
      } else {
        assert !Positive(oracle(calls));
      }
    }
  }

  /** A socket that takes all it is offered. */
  ghost predicate Eager(oracle: Oracle, bufferSize: nat) {
    forall k :: oracle(k).Accept? && bufferSize <= oracle(k).count
  }

  /** No call is offered more than the buffer's size, and a socket that takes all it
      is offered is offered that much at every call but the last. */
  lemma {:induction false} OffersAreBuffers(oracle: Oracle, calls: nat, data: bytes, index: nat, bufferSize: nat)
    requires 0 < bufferSize && index <= |data|
    ensures var stop := SendFrom(oracle, calls, data, index, bufferSize);
            && calls <= stop.calls
            && stop.index - index <= (stop.calls - calls) * bufferSize
            && (Eager(oracle, bufferSize) ==> stop.ok && (stop.calls - calls) * bufferSize < |data| - index + bufferSize)
    decreases |data| - index
  {
    if index < |data| {
      var sent := Sent(oracle(calls), Min(bufferSize, |data| - index));
      if sent.Some? && sent.value > 0 {
        OffersAreBuffers(oracle, calls + 1, data, index + sent.value, bufferSize);
        var later := SendFrom(oracle, calls + 1, data, index + sent.value, bufferSize);
        OneMore(later.calls - calls - 1, bufferSize);
      } else {
        OneMore(0, bufferSize);
        assert oracle(calls).Accept? ==> oracle(calls).count == 0;
      }
    }
  }

  lemma OneMore(n: nat, size: nat)
    ensures (n + 1) * size == n * size + size
  {
  }

  lemma ChunksSucceed(oracle: Oracle, calls: nat, data: bytes, bufferSize: nat)
    requires 0 < bufferSize
    ensures var p := SendChunks(oracle, calls, data, bufferSize);
            p.emitted == data <==> forall k :: calls <= k < p.calls ==> Positive(oracle(k))
  {
    LoopSucceeds(oracle, calls, data, 0, bufferSize);
    var stop := SendFrom(oracle, calls, data, 0, bufferSize);
    assert |data[..stop.index]| == stop.index;
  }

  lemma {:induction false} LoopFailsEarly(oracle: Oracle, calls: nat, data: bytes, index: nat, bufferSize: nat)
    requires index <= |data|
    ensures var stop := SendFrom(oracle, calls, data, index, bufferSize);
            !stop.ok ==> stop.index < |data|
    decreases |data| - index
  {
    if index < |data| {
      var sent := Sent(oracle(calls), Min(bufferSize, |data| - index));
      if sent.Some? && sent.value > 0 {
        LoopFailsEarly(oracle, calls + 1, data, index + sent.value, bufferSize);
      }
    }
  }

  lemma ChunksAllOrPrefix(oracle: Oracle, calls: nat, data: bytes, bufferSize: nat)
    ensures AllOrPrefix(SendChunks(oracle, calls, data, bufferSize), data)
  {
    LoopFailsEarly(oracle, calls, data, 0, bufferSize);
  }

  lemma CodeAllOrPrefix(oracle: Oracle, calls: nat, code: bytes)
    requires code != []
    ensures AllOrPrefix(SendCode(oracle, calls, code), code)
  {
  }

  lemma ThenAllOrPrefix(first: Progress, whole1: bytes, second: Progress, whole2: bytes)
    requires AllOrPrefix(first, whole1)
    requires first.ok ==> AllOrPrefix(second, whole2)
    ensures AllOrPrefix(Then(first, second), whole1 + whole2)
  {
  }

  /** A job reports success exactly when the whole frame is on the wire, and
      otherwise has written a proper prefix of it. */
  lemma FrameAllOrPrefix(oracle: Oracle, calls: nat, codes: Codes, data: bytes, bufferSize: nat)
    requires data != [] && codes.Valid()
    ensures AllOrPrefix(SendFrame(oracle, calls, codes, data, bufferSize), Frame(codes, data))
  {
    var a := SendCode(oracle, calls, codes.start);
    var second := SendCode(oracle, a.calls, Word(|data|));
    var b := Then(a, second);
    var third := SendChunks(oracle, b.calls, data, bufferSize);
    var c := Then(b, third);
    var fourth := SendCode(oracle, c.calls, codes.end);
    CodeAllOrPrefix(oracle, calls, codes.start);
    CodeAllOrPrefix(oracle, a.calls, Word(|data|));
    ChunksAllOrPrefix(oracle, b.calls, data, bufferSize);
    CodeAllOrPrefix(oracle, c.calls, codes.end);
    ThenAllOrPrefix(a, codes.start, second, Word(|data|));
    ThenAllOrPrefix(b, codes.start + Word(|data|), third, data);
    ThenAllOrPrefix(c, codes.start + Word(|data|) + data, fourth, codes.end);
  }
}
