/** What becomes of a frame behind noise, with the default codes. */
module Resync {
  import opened Bytes
  import opened Frames

  lemma {:induction false} LittleEndianPrefix(n: nat, k: nat, j: nat)
    requires j <= k
    ensures LittleEndian(n, k)[..j] == LittleEndian(n, j)
  {
    if j > 0 {
      LittleEndianPrefix(n / 256, k - 1, j - 1);
      assert LittleEndian(n, k)[..j] == [LittleEndian(n, k)[0]] + LittleEndian(n / 256, k - 1)[..j - 1];
    }
  }

  /** A number read behind a shift is at least as large. */
  lemma {:induction false} ShiftedIsLarger(m: nat, n: nat, k: nat)
    requires n < Pow256(k)
    ensures FromLittleEndian(Tail253(m) + LittleEndian(n, k)) >= n
    ensures m > 0 ==> FromLittleEndian(Tail253(m) + LittleEndian(n, k)) >= 253 + 256 * n
  {
    var s := Tail253(m) + LittleEndian(n, k);
    if m == 0 {
      assert s == LittleEndian(n, k);
      LittleEndianRoundTrip(n, k);
    } else {
      assert s[1..] == Tail253(m - 1) + LittleEndian(n, k);
      ShiftedIsLarger(m - 1, n, k);
    }
  }

  /** A reader that has already matched `m` bytes takes the rest of the start code
      for the front of the length, of which 8 - m bytes stay in the field. If they
      hold the whole length, what is read exceeds all that follows. */
  lemma LateFrame(bufferSize: nat, m: nat, payload: bytes)
    requires 0 < bufferSize && 0 < m < 4 && |payload| < Pow256(8 - m)
    ensures Run(DEFAULT_CODES, bufferSize, Reader(Start(m), [], []), Frame(DEFAULT_CODES, payload)).0.emitted == []
  {
    var codes, tail := DEFAULT_CODES, payload + DEFAULT_CODES.end;
    var rest := Tail253(m) + (Word(|payload|) + tail);
    assert Frame(codes, payload) == codes.start[m..] + rest;
    ReadStart(codes, bufferSize, Reader(Start(m), [], []), rest);
    LateLength(m, |payload|, tail);
    var length := FromLittleEndian(rest[..8]);
    PartialPayload(codes, bufferSize, Reader(Data(length), [], []), rest[8..]);
  }

  lemma LateLength(m: nat, n: nat, tail: bytes)
    requires 0 < m < 4 && n < Pow256(8 - m) && |tail| == n + 4
    ensures var rest := Tail253(m) + (Word(n) + tail);
            |rest| >= 8 && FromLittleEndian(rest[..8]) > |rest[8..]|
  {
    var rest, k := Tail253(m) + (Word(n) + tail), 8 - m;
    LittleEndianPrefix(n, 8, k);
    assert rest[..8] == Tail253(m) + LittleEndian(n, k);
    ShiftedIsLarger(m, n, k);
  }

  /** Behind noise that has not completed the start code, a frame is read exactly
      if the matcher is back at its beginning, which it is if and only if the noise
      does not end in 253; otherwise it is lost. */
  lemma FrameBehindNoise(bufferSize: nat, noise: bytes, payload: bytes, m: nat)
    requires 0 < bufferSize && Scan(DEFAULT_CODES, noise, 0) == Some(m)
    requires |payload| < Pow256(8 - m)
    ensures Run(DEFAULT_CODES, bufferSize, FRESH, noise + Frame(DEFAULT_CODES, payload)).0.emitted
         == if m == 0 then [payload] else []
    ensures m == 0 <==> noise == [] || noise[|noise| - 1] != 253
  {
    var codes := DEFAULT_CODES;
    EndOfNoise(noise, m);
    SkipUnmatched(codes, bufferSize, FRESH, noise, Frame(codes, payload));
    if m == 0 {
      WordSizes();
      FrameRoundTrip(codes, bufferSize, [payload], [], 0);
      assert Wire(codes, [payload]) == Frame(codes, payload);
    } else {
      LateFrame(bufferSize, m, payload);
    }
  }

  lemma EndOfNoise(noise: bytes, m: nat)
    requires Scan(DEFAULT_CODES, noise, 0) == Some(m)
    ensures m == 0 <==> noise == [] || noise[|noise| - 1] != 253
  {
    assert Tail253(0) + noise == noise;
    RunIsNotScanned(noise, 0);
    DefaultNoise(noise);
  }

  /** The start code is completed exactly by noise with four 253s in a row. */
  lemma NoiseCompletes(noise: bytes)
    ensures Scan(DEFAULT_CODES, noise, 0) == None <==> HasRun(noise)
  {
    assert Tail253(0) + noise == noise;
    RunIsNotScanned(noise, 0);
  }

  lemma {:induction false} RunIsNotScanned(s: bytes, m: nat)
    requires m < 4
    ensures Scan(DEFAULT_CODES, s, m) == None <==> HasRun(Tail253(m) + s)
    decreases |s|
  {
    if s == [] {
      assert |Tail253(m) + s| < 4;
    } else {
      ScanDefault(s, m);
      if s[0] != 253 {
        HasRunBehind(Tail253(m) + s, m);
        assert (Tail253(m) + s)[m + 1..] == s[1..] == Tail253(0) + s[1..];
        RunIsNotScanned(s[1..], 0);
      } else if m == 3 {
        assert RunAt(Tail253(m) + s, 0);
      } else {
        assert Tail253(m + 1) + s[1..] == Tail253(m) + s;
        RunIsNotScanned(s[1..], m + 1);
      }
    }
  }

  // ----- behind a frame that was cut inside its payload -----

  /** What a reader does that has `front` of a payload and lacks some bytes: it takes
      them from `rest`. If they are there and an end code happens to follow them, it
      emits the mixture; otherwise it drops everything up to the first byte that is
      not of the end code and looks for the next start code behind that. */
  predicate TakesFrom(
    codes: Codes, bufferSize: nat, emitted: seq<bytes>, front: bytes, lacking: nat, rest: bytes, run: (Reader, bytes))
    requires codes.Valid() && 0 < bufferSize
  {
    if |rest| < lacking then run.0.emitted == emitted
    else
      var tail := rest[lacking..];
      var m := Agreement(codes.end, tail);
      if m == 4 then
        run == Run(codes, bufferSize, Reader(Start(0), [], emitted + [front + rest[..lacking]]), tail[4..])
      else if |tail| == m then run.0.emitted == emitted
      else run == Run(codes, bufferSize, Reader(Start(0), [], emitted), tail[m + 1..])
  }

  lemma TakesTheLack(codes: Codes, bufferSize: nat, emitted: seq<bytes>, front: bytes, lacking: nat, rest: bytes)
    requires codes.Valid() && 0 < bufferSize && 0 < lacking
    ensures var run := Run(codes, bufferSize, EnterData(Reader(Length, [], emitted), |front| + lacking), front + rest);
            TakesFrom(codes, bufferSize, emitted, front, lacking, rest, run)
  {
    var r := EnterData(Reader(Length, [], emitted), |front| + lacking);
    if |rest| < lacking {
      PartialPayload(codes, bufferSize, r, front + rest);
    } else {
      var body, tail := front + rest[..lacking], rest[lacking..];
      assert front + rest == body + tail;
      ReadPayload(codes, bufferSize, r, body, tail);
      assert [] + body == body;
      RunAgreement(codes, bufferSize, Reader(End(0), body, emitted), tail);
      assert codes.end[0..] == codes.end;
    }
  }

  lemma BehindPartial(codes: Codes, bufferSize: nat, emitted: seq<bytes>, payload: bytes, cut: nat, rest: bytes)
    requires codes.Valid() && 0 < bufferSize && |payload| < WORD && cut < |payload|
    ensures var run := Run(codes, bufferSize, Reader(Start(0), [], emitted), Frame(codes, payload)[..12 + cut] + rest);
            TakesFrom(codes, bufferSize, emitted, payload[..cut], |payload| - cut, rest, run)
  {
    var n, u := |payload|, payload[..cut] + rest;
    CutFrame(codes, payload, cut, rest);
    ReadStart(codes, bufferSize, Reader(Start(0), [], emitted), Word(n) + u);
    assert codes.start[0..] == codes.start;
    TakeLength(codes, bufferSize, emitted, n, u);
    TakesTheLack(codes, bufferSize, emitted, payload[..cut], n - cut, rest);
  }

  lemma CutFrame(codes: Codes, payload: bytes, cut: nat, rest: bytes)
    requires codes.Valid() && cut < |payload|
    ensures Frame(codes, payload)[..12 + cut] + rest == codes.start + (Word(|payload|) + (payload[..cut] + rest))
  {
    var header := codes.start + Word(|payload|);
    assert Frame(codes, payload) == header + (payload + codes.end);
    assert Frame(codes, payload)[..12 + cut] == header + payload[..cut];
    Associative(header, payload[..cut], rest);
    Associative(codes.start, Word(|payload|), payload[..cut] + rest);
  }

  lemma TakeLength(codes: Codes, bufferSize: nat, emitted: seq<bytes>, n: nat, u: bytes)
    requires codes.Valid() && 0 < bufferSize && n < WORD
    ensures Run(codes, bufferSize, Reader(Length, [], emitted), Word(n) + u)
         == Run(codes, bufferSize, EnterData(Reader(Length, [], emitted), n), u)
  {
    var stream := Word(n) + u;
    assert stream[..8] == Word(n) && stream[8..] == u;
    WordRoundTrip(n);
  }

  /** A frame right behind is swallowed whole if the payload lacks as much. */
  lemma NextFrameIsSwallowed(codes: Codes, bufferSize: nat, emitted: seq<bytes>, payload: bytes, cut: nat, next: bytes)
    requires codes.Valid() && 0 < bufferSize && |payload| < WORD && cut < |payload|
    requires |Frame(codes, next)| < |payload| - cut
    ensures Run(codes, bufferSize, Reader(Start(0), [], emitted),
                Frame(codes, payload)[..12 + cut] + Frame(codes, next)).0.emitted == emitted
  {
    BehindPartial(codes, bufferSize, emitted, payload, cut, Frame(codes, next));
  }

  /** And if it lacks exactly what is in front of the next end code, the reader takes
      that for its own and emits a payload that nobody sent. */
  lemma NextFrameIsMixedIn(
    codes: Codes, bufferSize: nat, emitted: seq<bytes>, payload: bytes, cut: nat, next: bytes, more: bytes)
    requires codes.Valid() && 0 < bufferSize && |payload| < WORD && cut < |payload|
    requires |payload| - cut == 12 + |next|
    ensures Run(codes, bufferSize, Reader(Start(0), [], emitted),
                Frame(codes, payload)[..12 + cut] + (Frame(codes, next) + more))
         == Run(codes, bufferSize, Reader(Start(0), [], emitted + [payload[..cut] + codes.start + Word(|next|) + next]), more)
  {
    var rest, front := Frame(codes, next) + more, codes.start + Word(|next|) + next;
    var lacking := 12 + |next|;
    BehindPartial(codes, bufferSize, emitted, payload, cut, rest);
    assert rest == front + (codes.end + more);
    assert rest[..lacking] == front && rest[lacking..] == codes.end + more;
    EndCodeAgrees(codes.end, more);
    assert (codes.end + more)[4..] == more;
    Associative(payload[..cut] + codes.start, Word(|next|), next);
    Associative(payload[..cut], codes.start, Word(|next|) + next);
    Associative(codes.start, Word(|next|), next);
  }

  lemma {:induction false} EndCodeAgrees(code: bytes, more: bytes)
    ensures Agreement(code, code + more) == |code|
  {
    if code != [] {
      assert (code + more)[1..] == code[1..] + more;
      EndCodeAgrees(code[1..], more);
    }
  }
}
