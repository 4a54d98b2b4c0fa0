/** The wire frame of Network/SendingJob.cpp and the bytewise reading of
    Network/DataHandler.cpp, as functions. The classes `Sender.SendingJob` and
    `DataHandler.DataHandler` are proved against these. */
module Frames {
  import opened Bytes

  /** The two four-byte tags of a connection. */
  datatype Codes = Codes(start: bytes, end: bytes) {
    predicate Valid() { |start| == 4 && |end| == 4 }
  }

  const DEFAULT_CODES := Codes([253, 253, 253, 253], [252, 252, 252, 252])

  function Frame(codes: Codes, payload: bytes): bytes {
    codes.start + Word(|payload|) + payload + codes.end
  }

  /** The frames of a list of payloads, in order. */
  function Wire(codes: Codes, payloads: seq<bytes>): bytes {
    if payloads == [] then [] else Frame(codes, payloads[0]) + Wire(codes, payloads[1..])
  }

  predicate Sizes(payloads: seq<bytes>) {
    forall i :: 0 <= i < |payloads| ==> |payloads[i]| < WORD
  }

  // ----- the reading state machine -----

  /** Which completion handler is registered on the socket. */
  datatype Stage =
    | Start(matched: nat)
    | Length
    | Data(remaining: nat)
    | End(matched: nat)

  datatype Reader = Reader(stage: Stage, received: bytes, emitted: seq<bytes>) {
    predicate Armed() {
      match stage
      case Start(m) => m < 4
      case Length => true
      case Data(n) => 0 < n
      case End(m) => m < 4
    }
  }

  const FRESH := Reader(Start(0), [], [])

  function EnterStart(r: Reader, matched: nat): Reader {
    if matched == 4 then r.(stage := Length) else r.(stage := Start(matched), received := [])
  }

  function EnterEnd(r: Reader, matched: nat): Reader {
    if matched == 4 then
      EnterStart(Reader(r.stage, [], r.emitted + [r.received]), 0)
    else
      r.(stage := End(matched))
  }

  function EnterData(r: Reader, remaining: nat): Reader {
    if remaining == 0 then EnterEnd(r, 0) else r.(stage := Data(remaining))
  }

  /** How many bytes the registered read waits for. */
  function Pending(stage: Stage, bufferSize: nat): nat {
    match stage
    case Start(_) => 1
    case Length => 8
    case Data(n) => Min(n, bufferSize)
    case End(_) => 1
  }

  /** The completion handler for the bytes the read asked for. */
  function Handle(codes: Codes, r: Reader, chunk: bytes): (next: Reader)
    requires codes.Valid() && r.Armed()
    requires 0 < |chunk|
    requires r.stage.Data? ==> |chunk| <= r.stage.remaining
    ensures next.Armed()
    ensures r.emitted <= next.emitted
  {
    match r.stage
    case Start(m) => EnterStart(r, if chunk[0] == codes.start[m] then m + 1 else 0)
    case Length => EnterData(r, FromLittleEndian(chunk))
    case Data(n) => EnterData(r.(received := r.received + chunk), n - |chunk|)
    case End(m) => if chunk[0] == codes.end[m] then EnterEnd(r, m + 1) else EnterStart(r, 0)
  }

  /** Every handler that the bytes of `stream` can complete, and what is left. */
  function Run(codes: Codes, bufferSize: nat, r: Reader, stream: bytes): (result: (Reader, bytes))
    requires codes.Valid() && 0 < bufferSize && r.Armed()
    ensures result.0.Armed()
    decreases |stream|
  {
    var n := Pending(r.stage, bufferSize);
    if |stream| < n then (r, stream)
    else Run(codes, bufferSize, Handle(codes, r, stream[..n]), stream[n..])
  }

  // ----- reading in pieces -----

  /** How the stream is cut up on its way does not matter. */
  lemma {:induction false} RunInPieces(codes: Codes, bufferSize: nat, r: Reader, a: bytes, b: bytes)
    requires codes.Valid() && 0 < bufferSize && r.Armed()
    ensures Run(codes, bufferSize, r, a + b)
         == var (mid, left) := Run(codes, bufferSize, r, a);
            Run(codes, bufferSize, mid, left + b)
    decreases |a|
  {
    var n := Pending(r.stage, bufferSize);
    if n <= |a| {
      assert (a + b)[..n] == a[..n];
      assert (a + b)[n..] == a[n..] + b;
      RunInPieces(codes, bufferSize, Handle(codes, r, a[..n]), a[n..], b);
    }
  }

  // ----- what each stage does with the bytes in front of it -----

  /** The start matcher over `s`: None once the whole code has been seen, else
      the index it is left at. */
  function Scan(codes: Codes, s: bytes, matched: nat): (end: Option<nat>)
    requires codes.Valid() && matched < 4
    ensures end.Some? ==> end.value < 4
  {
    if s == [] then Some(matched)
    else if s[0] != codes.start[matched] then Scan(codes, s[1..], 0)
    else if matched == 3 then None
    else Scan(codes, s[1..], matched + 1)
  }

  lemma {:induction false} SkipUnmatched(codes: Codes, bufferSize: nat, r: Reader, s: bytes, rest: bytes)
    requires codes.Valid() && 0 < bufferSize && r.Armed() && r.stage.Start? && r.received == []
    requires Scan(codes, s, r.stage.matched).Some?
    ensures Run(codes, bufferSize, r, s + rest)
         == Run(codes, bufferSize, r.(stage := Start(Scan(codes, s, r.stage.matched).value)), rest)
    decreases |s|
  {
    if s == [] {
      assert s + rest == rest;
    } else {
      var next := Handle(codes, r, s[..1]);
      assert (s + rest)[..1] == s[..1] && (s + rest)[1..] == s[1..] + rest;
      SkipUnmatched(codes, bufferSize, next, s[1..], rest);
    }
  }

  lemma {:induction false} ReadStart(codes: Codes, bufferSize: nat, r: Reader, rest: bytes)
    requires codes.Valid() && 0 < bufferSize && r.Armed() && r.stage.Start? && r.received == []
    ensures Run(codes, bufferSize, r, codes.start[r.stage.matched..] + rest)
         == Run(codes, bufferSize, r.(stage := Length), rest)
    decreases 4 - r.stage.matched
  {
    var m := r.stage.matched;
    var stream := codes.start[m..] + rest;
    assert stream[..1][0] == codes.start[m];
    assert stream[1..] == codes.start[m + 1..] + rest;
    if m < 3 {
      ReadStart(codes, bufferSize, r.(stage := Start(m + 1)), rest);
    } else {
      assert stream[1..] == rest;
    }
  }

  lemma {:induction false} ReadPayload(codes: Codes, bufferSize: nat, r: Reader, payload: bytes, rest: bytes)
    requires codes.Valid() && 0 < bufferSize && r.Armed()
    requires r.stage == Data(|payload|)
    ensures Run(codes, bufferSize, r, payload + rest)
         == Run(codes, bufferSize, Reader(End(0), r.received + payload, r.emitted), rest)
    decreases |payload|
  {
    var n := Min(|payload|, bufferSize);
    var stream := payload + rest;
    assert stream[..n] == payload[..n] && stream[n..] == payload[n..] + rest;
    var next := Handle(codes, r, payload[..n]);
    if n < |payload| {
      ReadPayload(codes, bufferSize, next, payload[n..], rest);
      assert r.received + payload[..n] + payload[n..] == r.received + payload;
    } else {
      assert payload[..n] == payload && payload[n..] + rest == rest;
    }
  }

  lemma {:induction false} ReadEnd(codes: Codes, bufferSize: nat, r: Reader, rest: bytes)
    requires codes.Valid() && 0 < bufferSize && r.Armed() && r.stage.End?
    ensures Run(codes, bufferSize, r, codes.end[r.stage.matched..] + rest)
         == Run(codes, bufferSize, Reader(Start(0), [], r.emitted + [r.received]), rest)
    decreases 4 - r.stage.matched
  {
    var m := r.stage.matched;
    var stream := codes.end[m..] + rest;
    assert stream[..1][0] == codes.end[m];
    assert stream[1..] == codes.end[m + 1..] + rest;
    if m < 3 {
      ReadEnd(codes, bufferSize, r.(stage := End(m + 1)), rest);
    } else {
      assert stream[1..] == rest;
    }
  }

  /** From the length field to the end code, for any payload, empty or not. */
  lemma ReadBody(codes: Codes, bufferSize: nat, emitted: seq<bytes>, payload: bytes, rest: bytes)
    requires codes.Valid() && 0 < bufferSize && |payload| < WORD
    ensures Run(codes, bufferSize, Reader(Length, [], emitted), Word(|payload|) + payload + rest)
         == Run(codes, bufferSize, Reader(End(0), payload, emitted), rest)
  {
    var stream := Word(|payload|) + payload + rest;
    assert stream[..8] == Word(|payload|) && stream[8..] == payload + rest;
    WordRoundTrip(|payload|);
    assert [] + payload == payload;
    if payload == [] {
      assert payload + rest == rest;
    } else {
      ReadPayload(codes, bufferSize, Reader(Data(|payload|), [], emitted), payload, rest);
    }
  }

  /** One frame in front of anything is emitted, and reading goes on behind it. */
  lemma ReadFrame(codes: Codes, bufferSize: nat, emitted: seq<bytes>, payload: bytes, rest: bytes)
    requires codes.Valid() && 0 < bufferSize && |payload| < WORD
    ensures Run(codes, bufferSize, Reader(Start(0), [], emitted), Frame(codes, payload) + rest)
         == Run(codes, bufferSize, Reader(Start(0), [], emitted + [payload]), rest)
  {
    var body := Word(|payload|) + payload + (codes.end + rest);
    assert Frame(codes, payload) + rest == codes.start[0..] + body;
    ReadStart(codes, bufferSize, Reader(Start(0), [], emitted), body);
    ReadBody(codes, bufferSize, emitted, payload, codes.end + rest);
    assert codes.end[0..] + rest == codes.end + rest;
    ReadEnd(codes, bufferSize, Reader(End(0), payload, emitted), rest);
  }

  // ----- round trip -----

  lemma {:induction false} ReadWire(codes: Codes, bufferSize: nat, emitted: seq<bytes>, payloads: seq<bytes>, rest: bytes)
    requires codes.Valid() && 0 < bufferSize && Sizes(payloads)
    ensures Run(codes, bufferSize, Reader(Start(0), [], emitted), Wire(codes, payloads) + rest)
         == Run(codes, bufferSize, Reader(Start(0), [], emitted + payloads), rest)
    decreases |payloads|
  {
    if payloads == [] {
      assert Wire(codes, payloads) + rest == rest && emitted + payloads == emitted;
    } else {
      var tail := payloads[1..];
      assert Wire(codes, payloads) + rest == Frame(codes, payloads[0]) + (Wire(codes, tail) + rest);
      ReadFrame(codes, bufferSize, emitted, payloads[0], Wire(codes, tail) + rest);
      ReadWire(codes, bufferSize, emitted + [payloads[0]], tail, rest);
      assert emitted + [payloads[0]] + tail == emitted + payloads;
    }
  }

  /** A frame that has not arrived whole emits nothing. */
  lemma PartialFrame(codes: Codes, bufferSize: nat, emitted: seq<bytes>, payload: bytes, cut: nat)
    requires codes.Valid() && 0 < bufferSize && |payload| < WORD
    requires cut < |Frame(codes, payload)|
    ensures Run(codes, bufferSize, Reader(Start(0), [], emitted), Frame(codes, payload)[..cut]).0.emitted == emitted
  {
    var body := Word(|payload|) + (payload + codes.end);
    assert Frame(codes, payload) == codes.start + body;
    TakeOfConcat(codes.start, body, cut);
    if cut < 4 {
      ScanOwnPrefix(codes, cut);
      SkipUnmatched(codes, bufferSize, Reader(Start(0), [], emitted), codes.start[..cut], []);
      assert codes.start[..cut] + [] == codes.start[..cut];
    } else {
      ReadStart(codes, bufferSize, Reader(Start(0), [], emitted), body[..cut - 4]);
      assert codes.start[0..] == codes.start;
      PartialRest(codes, bufferSize, emitted, payload, cut - 4);
    }
  }

  lemma TakeOfConcat(a: bytes, b: bytes, n: nat)
    requires n <= |a| + |b|
    ensures (a + b)[..n] == if n < |a| then a[..n] else a + b[..n - |a|]
  {
  }

  lemma PartialRest(codes: Codes, bufferSize: nat, emitted: seq<bytes>, payload: bytes, cut: nat)
    requires codes.Valid() && 0 < bufferSize && |payload| < WORD
    requires cut < |payload| + 12
    ensures Run(codes, bufferSize, Reader(Length, [], emitted), (Word(|payload|) + (payload + codes.end))[..cut]).0.emitted
         == emitted
  {
    TakeOfConcat(Word(|payload|), payload + codes.end, cut);
    if 8 <= cut {
      PartialBody(codes, bufferSize, emitted, payload, cut - 8);
    }
  }

  lemma {:induction false} ScanOwnPrefix(codes: Codes, cut: nat)
    requires codes.Valid() && cut < 4
    ensures Scan(codes, codes.start[..cut], 0) == Some(cut)
  {
    ScanOwnPrefixFrom(codes, 0, cut);
    assert codes.start[0..cut] == codes.start[..cut];
  }

  lemma {:induction false} ScanOwnPrefixFrom(codes: Codes, matched: nat, cut: nat)
    requires codes.Valid() && matched <= cut < 4
    ensures Scan(codes, codes.start[matched..cut], matched) == Some(cut)
    decreases cut - matched
  {
    if matched < cut {
      assert codes.start[matched..cut][1..] == codes.start[matched + 1..cut];
      ScanOwnPrefixFrom(codes, matched + 1, cut);
    }
  }

  lemma PartialBody(codes: Codes, bufferSize: nat, emitted: seq<bytes>, payload: bytes, cut: nat)
    requires codes.Valid() && 0 < bufferSize && |payload| < WORD
    requires cut < |payload| + 4
    ensures Run(codes, bufferSize, Reader(Length, [], emitted), Word(|payload|) + (payload + codes.end)[..cut]).0.emitted
         == emitted
  {
    var tail := (payload + codes.end)[..cut];
    var stream := Word(|payload|) + tail;
    if |payload| <= cut {
      var ending := codes.end[..cut - |payload|];
      assert stream == Word(|payload|) + payload + ending;
      ReadBody(codes, bufferSize, emitted, payload, ending);
      PartialEnd(codes, bufferSize, Reader(End(0), payload, emitted), ending);
    } else {
      assert tail == payload[..cut];
      assert stream[..8] == Word(|payload|) && stream[8..] == tail;
      WordRoundTrip(|payload|);
      PartialPayload(codes, bufferSize, Reader(Data(|payload|), [], emitted), tail);
    }
  }

  lemma {:induction false} PartialPayload(codes: Codes, bufferSize: nat, r: Reader, s: bytes)
    requires codes.Valid() && 0 < bufferSize && r.Armed() && r.stage.Data? && |s| < r.stage.remaining
    ensures Run(codes, bufferSize, r, s).0.emitted == r.emitted
    decreases |s|
  {
    var n := Pending(r.stage, bufferSize);
    if n <= |s| {
      PartialPayload(codes, bufferSize, Handle(codes, r, s[..n]), s[n..]);
    }
  }

  lemma {:induction false} PartialEnd(codes: Codes, bufferSize: nat, r: Reader, s: bytes)
    requires codes.Valid() && 0 < bufferSize && r.Armed() && r.stage.End?
    requires |s| < 4 - r.stage.matched && s <= codes.end[r.stage.matched..]
    ensures Run(codes, bufferSize, r, s).0.emitted == r.emitted
    decreases |s|
  {
    if s != [] {
      var m := r.stage.matched;
      assert s[0] == codes.end[m..][0] == codes.end[m];
      assert s[1..] <= codes.end[m + 1..] by {
        assert codes.end[m..][1..] == codes.end[m + 1..];
      }
      PartialEnd(codes, bufferSize, r.(stage := End(m + 1)), s[1..]);
    }
  }

  /** Whole frames and then at most a part of one more: the reader emits exactly
      the payloads of the whole frames, whatever the size of its buffer. */
  lemma FrameRoundTrip(codes: Codes, bufferSize: nat, payloads: seq<bytes>, last: bytes, cut: nat)
    requires codes.Valid() && 0 < bufferSize && Sizes(payloads) && |last| < WORD
    requires cut < |Frame(codes, last)|
    ensures Run(codes, bufferSize, FRESH, Wire(codes, payloads) + Frame(codes, last)[..cut]).0.emitted == payloads
    ensures Run(codes, bufferSize, FRESH, Wire(codes, payloads)) == (Reader(Start(0), [], payloads), [])
  {
    ReadWire(codes, bufferSize, [], payloads, Frame(codes, last)[..cut]);
    PartialFrame(codes, bufferSize, payloads, last, cut);
    ReadWire(codes, bufferSize, [], payloads, []);
    assert Wire(codes, payloads) + [] == Wire(codes, payloads);
    assert [] + payloads == payloads;
  }

  // ----- a parser with no buffer and no stages -----

  /** Index just behind the first start code that the matcher accepts. */
  function Find(codes: Codes, s: bytes, matched: nat): (k: Option<nat>)
    requires codes.Valid() && matched < 4
    ensures k.Some? ==> 0 < k.value <= |s|
  {
    if s == [] then None
    else if s[0] == codes.start[matched] && matched == 3 then Some(1)
    else
      match Find(codes, s[1..], if s[0] == codes.start[matched] then matched + 1 else 0)
      case None => None
      case Some(k) => Some(k + 1)
  }

  /** How many leading bytes of `s` agree with `code`. */
  function Agreement(code: bytes, s: bytes): (n: nat)
    ensures n <= |code| && n <= |s|
  {
    if code == [] || s == [] || code[0] != s[0] then 0 else 1 + Agreement(code[1..], s[1..])
  }

  /** The payloads of a stream, each taken in one piece. */
  function Parse(codes: Codes, s: bytes): seq<bytes>
    requires codes.Valid()
    decreases |s|
  {
    match Find(codes, s, 0)
    case None => []
    case Some(k) => ParseBody(codes, s[k..])
  }

  /** The same from a length field on. */
  function ParseBody(codes: Codes, t: bytes): seq<bytes>
    requires codes.Valid()
    decreases |t|
  {
    if |t| < 8 then [] else
    var size := FromLittleEndian(t[..8]);
    var u := t[8..];
    if |u| < size then [] else ParseDeclared(codes, u, size)
  }

  /** The same from a payload of known size on. */
  function ParseDeclared(codes: Codes, u: bytes, size: nat): seq<bytes>
    requires codes.Valid() && size <= |u|
    decreases |u|, 1
  {
    var tail := u[size..];
    var m := Agreement(codes.end, tail);
    if m == 4 then [u[..size]] + Parse(codes, tail[4..])
    else if |tail| == m then []
    else Parse(codes, tail[m + 1..])
  }

  lemma {:induction false} RunFind(codes: Codes, bufferSize: nat, r: Reader, s: bytes)
    requires codes.Valid() && 0 < bufferSize && r.Armed() && r.stage.Start? && r.received == []
    ensures match Find(codes, s, r.stage.matched)
            case None => Run(codes, bufferSize, r, s).0.emitted == r.emitted
            case Some(k) => Run(codes, bufferSize, r, s) == Run(codes, bufferSize, r.(stage := Length), s[k..])
    decreases |s|
  {
    if s != [] {
      var next := Handle(codes, r, s[..1]);
      if next.stage.Start? {
        RunFind(codes, bufferSize, next, s[1..]);
      }
    }
  }

  lemma {:induction false} RunAgreement(codes: Codes, bufferSize: nat, r: Reader, s: bytes)
    requires codes.Valid() && 0 < bufferSize && r.Armed() && r.stage.End?
    ensures var m := Agreement(codes.end[r.stage.matched..], s);
            if m == 4 - r.stage.matched then
              Run(codes, bufferSize, r, s)
              == Run(codes, bufferSize, Reader(Start(0), [], r.emitted + [r.received]), s[m..])
            else (if |s| == m then Run(codes, bufferSize, r, s).0.emitted == r.emitted
            else Run(codes, bufferSize, r, s) == Run(codes, bufferSize, Reader(Start(0), [], r.emitted), s[m + 1..]))
    decreases |s|
  {
    var k := r.stage.matched;
    assert codes.end[k..][1..] == codes.end[k + 1..];
    if s != [] && s[0] == codes.end[k] && k < 3 {
      RunAgreement(codes, bufferSize, r.(stage := End(k + 1)), s[1..]);
    }
  }

  /** On every stream, well formed or not, chunked reading through a buffer of
      any size emits what the one-piece parser returns. */
  lemma {:induction false} ReaderRefinesParser(codes: Codes, bufferSize: nat, emitted: seq<bytes>, s: bytes)
    requires codes.Valid() && 0 < bufferSize
    ensures Run(codes, bufferSize, Reader(Start(0), [], emitted), s).0.emitted == emitted + Parse(codes, s)
    decreases |s|
  {
    RunFind(codes, bufferSize, Reader(Start(0), [], emitted), s);
    match Find(codes, s, 0)
    case None =>
    case Some(k) => BodyRefinesParser(codes, bufferSize, emitted, s[k..]);
  }

  lemma RunDeclared(codes: Codes, bufferSize: nat, emitted: seq<bytes>, u: bytes, size: nat)
    requires codes.Valid() && 0 < bufferSize && size <= |u|
    ensures var r := EnterData(Reader(Length, [], emitted), size);
            var tail := u[size..];
            var m := Agreement(codes.end, tail);
            if m == 4 then
              Run(codes, bufferSize, r, u)
              == Run(codes, bufferSize, Reader(Start(0), [], emitted + [u[..size]]), tail[4..])
            else (if |tail| == m then Run(codes, bufferSize, r, u).0.emitted == emitted
            else Run(codes, bufferSize, r, u) == Run(codes, bufferSize, Reader(Start(0), [], emitted), tail[m + 1..]))
  {
    var r := EnterData(Reader(Length, [], emitted), size);
    var ended := Reader(End(0), u[..size], emitted);
    assert u == u[..size] + u[size..];
    if size > 0 {
      ReadPayload(codes, bufferSize, r, u[..size], u[size..]);
      assert [] + u[..size] == u[..size];
    }
    assert Run(codes, bufferSize, r, u) == Run(codes, bufferSize, ended, u[size..]);
    RunAgreement(codes, bufferSize, ended, u[size..]);
    assert codes.end[0..] == codes.end;
  }

  lemma {:induction false} DeclaredRefinesParser(codes: Codes, bufferSize: nat, emitted: seq<bytes>, u: bytes, size: nat)
    requires codes.Valid() && 0 < bufferSize && size <= |u|
    ensures Run(codes, bufferSize, EnterData(Reader(Length, [], emitted), size), u).0.emitted
         == emitted + ParseDeclared(codes, u, size)
    decreases |u|, 1
  {
    RunDeclared(codes, bufferSize, emitted, u, size);
    var tail := u[size..];
    var m := Agreement(codes.end, tail);
    if m == 4 {
      ReaderRefinesParser(codes, bufferSize, emitted + [u[..size]], tail[4..]);
      Associative(emitted, [u[..size]], Parse(codes, tail[4..]));
    } else if |tail| != m {
      ReaderRefinesParser(codes, bufferSize, emitted, tail[m + 1..]);
    }
  }

  lemma {:induction false} BodyRefinesParser(codes: Codes, bufferSize: nat, emitted: seq<bytes>, t: bytes)
    requires codes.Valid() && 0 < bufferSize
    ensures Run(codes, bufferSize, Reader(Length, [], emitted), t).0.emitted == emitted + ParseBody(codes, t)
    decreases |t|
  {
    if 8 <= |t| {
      var size, u := FromLittleEndian(t[..8]), t[8..];
      var r := EnterData(Reader(Length, [], emitted), size);
      assert Run(codes, bufferSize, Reader(Length, [], emitted), t) == Run(codes, bufferSize, r, u);
      if |u| < size {
        PartialPayload(codes, bufferSize, r, u);
      } else {
        DeclaredRefinesParser(codes, bufferSize, emitted, u, size);
      }
    }
  }

  // ----- resynchronisation -----

  /** Bytes that are not frames, each in front of a frame. */
  datatype Segment = Segment(noise: bytes, payload: bytes)

  function Noisy(codes: Codes, segments: seq<Segment>): bytes {
    if segments == [] then []
    else segments[0].noise + Frame(codes, segments[0].payload) + Noisy(codes, segments[1..])
  }

  function Payloads(segments: seq<Segment>): (p: seq<bytes>)
    ensures |p| == |segments|
  {
    if segments == [] then [] else [segments[0].payload] + Payloads(segments[1..])
  }

  /** No frame is lost when every piece of noise leaves the start matcher at 0. */
  lemma {:induction false} NoiseIsSkipped(codes: Codes, bufferSize: nat, emitted: seq<bytes>, segments: seq<Segment>)
    requires codes.Valid() && 0 < bufferSize
    requires forall s :: s in segments ==> Scan(codes, s.noise, 0) == Some(0) && |s.payload| < WORD
    ensures Run(codes, bufferSize, Reader(Start(0), [], emitted), Noisy(codes, segments))
         == (Reader(Start(0), [], emitted + Payloads(segments)), [])
    decreases |segments|
  {
    var r := Reader(Start(0), [], emitted);
    if segments == [] {
      assert emitted + Payloads(segments) == emitted;
    } else {
      var first, rest := segments[0], Noisy(codes, segments[1..]);
      assert Noisy(codes, segments) == first.noise + (Frame(codes, first.payload) + rest);
      SkipUnmatched(codes, bufferSize, r, first.noise, Frame(codes, first.payload) + rest);
      ReadFrame(codes, bufferSize, emitted, first.payload, rest);
      NoiseIsSkipped(codes, bufferSize, emitted + [first.payload], segments[1..]);
      assert emitted + [first.payload] + Payloads(segments[1..]) == emitted + Payloads(segments);
    }
  }

  /** Four 253s in a row somewhere in `s`. */
  predicate HasRun(s: bytes) {
    exists i :: 0 <= i && i + 4 <= |s| && RunAt(s, i)
  }

  predicate RunAt(s: bytes, i: nat)
    requires i + 4 <= |s|
  {
    s[i] == 253 && s[i + 1] == 253 && s[i + 2] == 253 && s[i + 3] == 253
  }

  /** With the default codes, the noise that is skipped cleanly is exactly the
      noise with no run of four 253s that does not end in 253. */
  lemma DefaultNoise(s: bytes)
    ensures Scan(DEFAULT_CODES, s, 0) == Some(0) <==> !HasRun(s) && (s == [] || s[|s| - 1] != 253)
  {
    DefaultScan(s, 0);
    assert Tail253(0) + s == s;
  }

  /** `m` times 253: what the matcher remembers at index `m`. */
  function Tail253(m: nat): (t: bytes)
    ensures |t| == m && forall i :: 0 <= i < m ==> t[i] == 253
  {
    if m == 0 then [] else [253] + Tail253(m - 1)
  }

  /** Skipped cleanly, for noise of which the matcher has seen everything. */
  predicate Clean(seen: bytes) {
    !HasRun(seen) && (seen == [] || seen[|seen| - 1] != 253)
  }

  lemma ScanDefault(s: bytes, m: nat)
    requires m < 4 && s != []
    ensures Scan(DEFAULT_CODES, s, m)
         == if s[0] != 253 then Scan(DEFAULT_CODES, s[1..], 0)
            else if m == 3 then None
            else Scan(DEFAULT_CODES, s[1..], m + 1)
  {
  }

  lemma {:induction false} DefaultScan(s: bytes, m: nat)
    requires m < 4
    ensures Scan(DEFAULT_CODES, s, m) == Some(0) <==> Clean(Tail253(m) + s)
    decreases |s|
  {
    if s == [] {
      CleanTail(m);
    } else {
      ScanDefault(s, m);
      if s[0] != 253 {
        DefaultScan(s[1..], 0);
        CleanBehind(s, m);
      } else if m == 3 {
        assert RunAt(Tail253(m) + s, 0);
      } else {
        DefaultScan(s[1..], m + 1);
        assert Tail253(m + 1) + s[1..] == Tail253(m) + s;
      }
    }
  }

  lemma CleanTail(m: nat)
    requires m < 4
    ensures Clean(Tail253(m) + []) <==> m == 0
  {
  }

  lemma CleanBehind(s: bytes, m: nat)
    requires m < 4 && s != [] && s[0] != 253
    ensures Clean(Tail253(m) + s) <==> Clean(Tail253(0) + s[1..])
  {
    var seen := Tail253(m) + s;
    HasRunBehind(seen, m);
    assert seen[m + 1..] == s[1..] == Tail253(0) + s[1..];
  }

  /** A byte other than 253 with fewer than four bytes before it is in no run. */
  lemma HasRunBehind(s: bytes, m: nat)
    requires m < 4 && m < |s| && s[m] != 253
    ensures HasRun(s) <==> HasRun(s[m + 1..])
  {
    var t := s[m + 1..];
    if HasRun(s) {
      var i :| 0 <= i && i + 4 <= |s| && RunAt(s, i);
      assert i > m;
      assert RunAt(t, i - m - 1);
    }
    if HasRun(t) {
      var i :| 0 <= i && i + 4 <= |t| && RunAt(t, i);
      assert RunAt(s, i + m + 1);
    }
  }

  /** A frame with byte `k` of its end code replaced by `x`. */
  function Corrupted(codes: Codes, payload: bytes, k: nat, x: byte): bytes
    requires codes.Valid() && k < 4
  {
    codes.start + Word(|payload|) + payload + codes.end[k := x]
  }

  /** Where the reader is behind a damaged end code. */
  lemma ReadDamaged(codes: Codes, bufferSize: nat, emitted: seq<bytes>, lost: bytes, k: nat, x: byte, rest: bytes)
    requires codes.Valid() && 0 < bufferSize && |lost| < WORD
    requires k < 4 && x != codes.end[k]
    ensures Run(codes, bufferSize, Reader(Start(0), [], emitted), Corrupted(codes, lost, k, x) + rest)
         == Run(codes, bufferSize, Reader(Start(0), [], emitted), codes.end[k + 1..] + rest)
  {
    var ending := codes.end[k := x] + rest;
    var body := Word(|lost|) + lost + ending;
    assert Corrupted(codes, lost, k, x) + rest == codes.start + body;
    ReadStart(codes, bufferSize, Reader(Start(0), [], emitted), body);
    assert codes.start[0..] == codes.start;
    ReadBody(codes, bufferSize, emitted, lost, ending);
    ReadDamagedEnd(codes, bufferSize, Reader(End(0), lost, emitted), k, x, rest);
  }

  lemma ReadDamagedEnd(codes: Codes, bufferSize: nat, r: Reader, k: nat, x: byte, rest: bytes)
    requires codes.Valid() && 0 < bufferSize && r.stage == End(0)
    requires k < 4 && x != codes.end[k]
    ensures Run(codes, bufferSize, r, codes.end[k := x] + rest)
         == Run(codes, bufferSize, Reader(Start(0), [], r.emitted), codes.end[k + 1..] + rest)
  {
    var ending := codes.end[k := x] + rest;
    AgreementUpTo(codes.end, ending, k);
    assert codes.end[0..] == codes.end;
    RunAgreement(codes, bufferSize, r, ending);
    assert ending[k + 1..] == codes.end[k + 1..] + rest;
  }

  /** What is left of an end code is too short to complete a start code. */
  lemma {:induction false} ShortScan(codes: Codes, s: bytes, matched: nat)
    requires codes.Valid() && matched + |s| < 4
    ensures Scan(codes, s, matched).Some?
    decreases |s|
  {
    if s != [] {
      ShortScan(codes, s[1..], if s[0] == codes.start[matched] then matched + 1 else 0);
    }
  }

  /** A damaged end code loses that frame alone, none of its bytes reach a later
      payload, and the reader is left as it began, if the bytes behind the damage
      leave the start matcher at its beginning; and exactly then, as far as the
      reader's state goes. */
  lemma DamagedFrameIsDropped(codes: Codes, bufferSize: nat, before: seq<bytes>, lost: bytes, after: seq<bytes>, k: nat, x: byte)
    requires codes.Valid() && 0 < bufferSize && Sizes(before) && Sizes(after) && |lost| < WORD
    requires k < 4 && x != codes.end[k]
    ensures var run := Run(codes, bufferSize, FRESH, Wire(codes, before) + Corrupted(codes, lost, k, x) + Wire(codes, after));
            var clean := Scan(codes, codes.end[k + 1..], 0) == Some(0);
            && (clean ==> run == (Reader(Start(0), [], before + after), []))
            && (after == [] ==> run.0.emitted == before && (clean <==> run == (Reader(Start(0), [], before), [])))
  {
    var rest, remains := Wire(codes, after), codes.end[k + 1..];
    var r := Reader(Start(0), [], before);
    assert Wire(codes, before) + Corrupted(codes, lost, k, x) + rest
        == Wire(codes, before) + (Corrupted(codes, lost, k, x) + rest);
    ReadWire(codes, bufferSize, [], before, Corrupted(codes, lost, k, x) + rest);
    assert [] + before == before;
    ReadDamaged(codes, bufferSize, before, lost, k, x, rest);
    ShortScan(codes, remains, 0);
    SkipUnmatched(codes, bufferSize, r, remains, rest);
    if Scan(codes, remains, 0) == Some(0) {
      ReadWire(codes, bufferSize, before, after, []);
      assert rest + [] == rest;
    }
    assert after == [] ==> before + after == before;
  }

  /** With no byte of the end code at the front of the start code, any damage is
      of that kind; the default codes are such a pair. */
  lemma EndCodeIsClean(codes: Codes, k: nat)
    requires codes.Valid() && codes.start[0] !in codes.end && k < 4
    ensures Scan(codes, codes.end[k + 1..], 0) == Some(0)
  {
    ScanStays(codes, codes.end[k + 1..]);
  }

  lemma {:induction false} AgreementUpTo(code: bytes, s: bytes, k: nat)
    requires k < |code| && k < |s| && code[..k] == s[..k] && code[k] != s[k]
    ensures Agreement(code, s) == k
  {
    if k > 0 {
      assert code[0] == code[..k][0] == s[..k][0] == s[0];
      assert code[1..][..k - 1] == code[..k][1..] == s[..k][1..] == s[1..][..k - 1];
      AgreementUpTo(code[1..], s[1..], k - 1);
    }
  }

  lemma {:induction false} ScanStays(codes: Codes, s: bytes)
    requires codes.Valid() && codes.start[0] !in s
    ensures Scan(codes, s, 0) == Some(0)
  {
    if s != [] {
      ScanStays(codes, s[1..]);
    }
  }
}
