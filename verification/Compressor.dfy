/** Utilities/Compressor.cpp: cutting data into blocks, framing every compressed
    block with its two sizes, and undoing it. The streaming codec (LZ4) is a
    parameter: it keeps a state and may refer to the block before the current
    one, which both sides hold in the other of two alternating buffers. */
module Compressor {
  import opened Bytes

  /** The memory image of an `LZ4_stream_t` or `LZ4_streamDecode_t`, as a number. */
  type StreamState = nat

  /** `encode` and `decode` get the previous block; an empty result is a failure. */
  datatype Codec = Codec(
    encoder: StreamState,
    encode: (StreamState, bytes, bytes) -> (StreamState, bytes),
    decoder: StreamState,
    decode: (StreamState, bytes, bytes) -> (StreamState, bytes))

  /** LZ4_COMPRESSBOUND: the size of the buffer for one compressed block. */
  function CompressBound(blockBytes: nat): nat {
    blockBytes + blockBytes / 255 + 16
  }

  /** One block comes back when the states correspond and the previous block is
      the same on both sides. `related` says which states correspond. */
  ghost predicate InvertsBlock(
    codec: Codec, blockBytes: nat, related: (StreamState, StreamState) -> bool, e: StreamState, d: StreamState, previous: bytes, block: bytes)
  {
    var (e', packed) := codec.encode(e, previous, block);
    packed != [] ==>
      && |packed| <= CompressBound(blockBytes)
      && var (d', unpacked) := codec.decode(d, previous, packed);
      unpacked == block && related(e', d')
  }

  ghost predicate Inverts(codec: Codec, blockBytes: nat, related: (StreamState, StreamState) -> bool) {
    && related(codec.encoder, codec.decoder)
    && forall e, d, previous, block :: related(e, d) && 0 < |block| <= blockBytes ==>
         InvertsBlock(codec, blockBytes, related, e, d, previous, block)
  }

  // ----- what the loops compute -----

  function BlockHeader(original: nat, packed: nat): (h: bytes)
    ensures |h| == 8
  {
    LittleEndian(original, 4) + LittleEndian(packed, 4)
  }

  /** What one turn of the compressing loop does with the data not yet read. */
  datatype Packing = Halt | Packed(next: StreamState, block: bytes, framed: bytes)

  function PackingOf(codec: Codec, blockBytes: nat, e: StreamState, previous: bytes, data: bytes): (turn: Packing)
    ensures turn.Packed? ==> 0 < |turn.block| <= |data|
  {
    var block := data[..Min(|data|, blockBytes)];
    if block == [] then Halt else
    var (next, packed) := codec.encode(e, previous, block);
    if packed == [] then Halt else Packed(next, block, BlockHeader(|block|, |packed|) + packed)
  }

  function Compressed(codec: Codec, blockBytes: nat, e: StreamState, previous: bytes, data: bytes): bytes
    decreases |data|
  {
    match PackingOf(codec, blockBytes, e, previous, data)
    case Halt => []
    case Packed(next, block, framed) => framed + Compressed(codec, blockBytes, next, block, data[|block|..])
  }

  /** How much of the data is compressed before the first block that fails. */
  function Covered(codec: Codec, blockBytes: nat, e: StreamState, previous: bytes, data: bytes): (n: nat)
    ensures n <= |data|
    decreases |data|
  {
    match PackingOf(codec, blockBytes, e, previous, data)
    case Halt => 0
    case Packed(next, block, _) => |block| + Covered(codec, blockBytes, next, block, data[|block|..])
  }

  /** An `int32_t` copied from four bytes. */
  function Signed(s: bytes): int
    requires |s| == 4
  {
    var n := FromLittleEndian(s);
    if n < INT32_LIMIT then n else n - 2 * INT32_LIMIT
  }

  /** What one turn of the decoding loop does with the bytes not yet read. */
  datatype Turn = Stop | Decoded(next: StreamState, block: bytes, used: nat)

  /** The copies one turn makes stay inside its source and its buffer. */
  predicate Readable(blockBytes: nat, data: bytes) {
    data == [] ||
    (&& 4 <= |data|
     && (0 < Signed(data[..4]) ==> 8 <= |data|)
     && (0 < Signed(data[..4]) && 0 < Signed(data[4..8]) ==>
           8 + Signed(data[4..8]) <= |data| && Signed(data[4..8]) <= CompressBound(blockBytes)))
  }

  function TurnOf(codec: Codec, blockBytes: nat, d: StreamState, previous: bytes, data: bytes): (turn: Turn)
    requires Readable(blockBytes, data)
    ensures turn.Decoded? ==> 8 < turn.used <= |data|
  {
    if data == [] || Signed(data[..4]) <= 0 || Signed(data[4..8]) <= 0 then Stop
    else
      var size := Signed(data[4..8]);
      var (next, block) := codec.decode(d, previous, data[8..8 + size]);
      if block == [] then Stop else Decoded(next, block, 8 + size)
  }

  /** Every turn of the decoding loop is readable. */
  predicate Framed(codec: Codec, blockBytes: nat, d: StreamState, previous: bytes, data: bytes)
    decreases |data|
  {
    && Readable(blockBytes, data)
    && match TurnOf(codec, blockBytes, d, previous, data)
       case Stop => true
       case Decoded(next, block, used) =>
         |block| <= blockBytes && Framed(codec, blockBytes, next, block, data[used..])
  }

  function Decompressed(codec: Codec, blockBytes: nat, d: StreamState, previous: bytes, data: bytes): bytes
    requires Framed(codec, blockBytes, d, previous, data)
    decreases |data|
  {
    match TurnOf(codec, blockBytes, d, previous, data)
    case Stop => []
    case Decoded(next, block, used) => block + Decompressed(codec, blockBytes, next, block, data[used..])
  }

  function Compression(codec: Codec, blockBytes: nat, data: bytes): Option<bytes> {
    var packed := Compressed(codec, blockBytes, codec.encoder, [], data);
    if packed == [] then None else Some(packed)
  }

  predicate Decodable(codec: Codec, blockBytes: nat, data: bytes) {
    |data| < INT32_LIMIT && Framed(codec, blockBytes, codec.decoder, [], data)
  }

  function Decompression(codec: Codec, blockBytes: nat, data: bytes): Option<bytes>
    requires Decodable(codec, blockBytes, data)
  {
    var unpacked := Decompressed(codec, blockBytes, codec.decoder, [], data);
    if unpacked == [] then None else Some(unpacked)
  }

  // ----- the loops -----

  /** The body of the compressing loop up to the framed block. */
  method PackTurn(codec: Codec, blockBytes: nat, stream: StreamState, previous: bytes, original: bytes, readIndex: nat)
    returns (turn: Packing)
    requires readIndex <= |original|
    ensures turn == PackingOf(codec, blockBytes, stream, previous, original[readIndex..])
  {
    var size := if |original| - readIndex > blockBytes then blockBytes else |original| - readIndex;
    if size == 0 {
      return Halt;
    }
    var block := original[readIndex..readIndex + size];
    assert block == original[readIndex..][..size];
    var (next, packed) := codec.encode(stream, previous, block);
    if packed == [] {
      return Halt;
    }
    var framed := LittleEndian(size, 4);
    framed := framed + LittleEndian(|packed|, 4);
    framed := framed + packed;
    return Packed(next, block, framed);
  }

  method Compress(codec: Codec, original: bytes, blockBytes: nat) returns (result: Option<bytes>)
    requires blockBytes < 0x1_0000
    ensures result == Compression(codec, blockBytes, original)
  {
    ghost var all := Compressed(codec, blockBytes, codec.encoder, [], original);
    if original == [] {
      return None;
    }
    var readIndex, bufferIndex := 0, 0;
    var buffers: seq<bytes> := [[], []];
    var stream := codec.encoder;
    var compressed: bytes := [];
    ghost var previous: bytes := [];
    assert original[0..] == original;
    while true
      invariant 0 <= bufferIndex < 2 && |buffers| == 2 && buffers[1 - bufferIndex] == previous
      invariant readIndex <= |original|
      invariant compressed + Compressed(codec, blockBytes, stream, previous, original[readIndex..]) == all
      decreases |original| - readIndex
    {
      var turn := PackTurn(codec, blockBytes, stream, buffers[1 - bufferIndex], original, readIndex);
      if turn.Halt? {
        assert compressed + [] == compressed;
        break;
      }
      buffers := buffers[bufferIndex := turn.block];
      stream := turn.next;
      assert original[readIndex..][|turn.block|..] == original[readIndex + |turn.block|..];
      readIndex := readIndex + |turn.block|;
      Associative(compressed, turn.framed, Compressed(codec, blockBytes, stream, turn.block, original[readIndex..]));
      compressed := compressed + turn.framed;
      bufferIndex := (bufferIndex + 1) % 2;
      previous := turn.block;
    }
    if compressed == [] {
      return None;
    }
    return Some(compressed);
  }

  /** The body of the decoding loop up to the decoded block. */
  method DecodeTurn(
    codec: Codec, blockBytes: nat, stream: StreamState, previous: bytes, compressed: bytes, start: nat)
    returns (turn: Turn)
    requires start <= |compressed| && Readable(blockBytes, compressed[start..])
    ensures turn == TurnOf(codec, blockBytes, stream, previous, compressed[start..])
  {
    ghost var rest := compressed[start..];
    if |compressed| - start < 1 {
      return Stop;
    }
    var readIndex := start;
    assert compressed[start..start + 4] == rest[..4];
    var originalSize := Signed(compressed[readIndex..readIndex + 4]);
    if 0 >= originalSize {
      return Stop;
    }
    readIndex := readIndex + 4;
    assert compressed[readIndex..readIndex + 4] == rest[4..8];
    var compressedSize := Signed(compressed[readIndex..readIndex + 4]);
    if 0 >= compressedSize {
      return Stop;
    }
    readIndex := readIndex + 4;
    var packed := compressed[readIndex..readIndex + compressedSize];
    assert packed == rest[8..8 + compressedSize];
    readIndex := readIndex + compressedSize;
    var (next, block) := codec.decode(stream, previous, packed);
    if block == [] {
      return Stop;
    }
    return Decoded(next, block, readIndex - start);
  }

  method Decompress(codec: Codec, compressed: bytes, blockBytes: nat) returns (result: Option<bytes>)
    requires blockBytes < 0x1_0000
    requires Decodable(codec, blockBytes, compressed)
    ensures result == Decompression(codec, blockBytes, compressed)
  {
    ghost var all := Decompressed(codec, blockBytes, codec.decoder, [], compressed);
    if compressed == [] {
      return None;
    }
    var readIndex, bufferIndex := 0, 0;
    var buffers: seq<bytes> := [[], []];
    var stream := codec.decoder;
    var decompressed: bytes := [];
    ghost var previous: bytes := [];
    assert compressed[0..] == compressed;
    while true
      invariant 0 <= bufferIndex < 2 && |buffers| == 2 && buffers[1 - bufferIndex] == previous
      invariant readIndex <= |compressed|
      invariant Framed(codec, blockBytes, stream, previous, compressed[readIndex..])
      invariant decompressed + Decompressed(codec, blockBytes, stream, previous, compressed[readIndex..]) == all
      decreases |compressed| - readIndex
    {
      var turn := DecodeTurn(codec, blockBytes, stream, buffers[1 - bufferIndex], compressed, readIndex);
      if turn.Stop? {
        assert decompressed + [] == decompressed;
        break;
      }
      buffers := buffers[bufferIndex := turn.block];
      stream := turn.next;
      assert compressed[readIndex..][turn.used..] == compressed[readIndex + turn.used..];
      readIndex := readIndex + turn.used;
      Associative(decompressed, turn.block, Decompressed(codec, blockBytes, stream, turn.block, compressed[readIndex..]));
      decompressed := decompressed + turn.block;
      bufferIndex := (bufferIndex + 1) % 2;
      previous := turn.block;
    }
    if decompressed == [] {
      return None;
    }
    return Some(decompressed);
  }

  // ----- round trip -----

  lemma HeaderRoundTrip(original: nat, packed: nat, rest: bytes)
    requires original < INT32_LIMIT && packed < INT32_LIMIT
    ensures var data := BlockHeader(original, packed) + rest;
            Signed(data[..4]) == original && Signed(data[4..8]) == packed && data[8..] == rest
  {
    var data := BlockHeader(original, packed) + rest;
    assert data[..4] == LittleEndian(original, 4) && data[4..8] == LittleEndian(packed, 4);
    WordSizes();
    LittleEndianRoundTrip(original, 4);
    LittleEndianRoundTrip(packed, 4);
  }

  /** A turn of the decoding loop in front of one framed block. */
  lemma TurnOnBlock(codec: Codec, blockBytes: nat, d: StreamState, previous: bytes, block: bytes, packed: bytes, tail: bytes)
    requires 0 < |block| <= blockBytes < 0x1_0000 && 0 < |packed| <= CompressBound(blockBytes)
    requires codec.decode(d, previous, packed).1 == block
    ensures var all := BlockHeader(|block|, |packed|) + packed + tail;
            && Readable(blockBytes, all)
            && TurnOf(codec, blockBytes, d, previous, all)
               == Decoded(codec.decode(d, previous, packed).0, block, 8 + |packed|)
            && all[8 + |packed|..] == tail
  {
    var all := BlockHeader(|block|, |packed|) + packed + tail;
    assert all == BlockHeader(|block|, |packed|) + (packed + tail);
    HeaderRoundTrip(|block|, |packed|, packed + tail);
    assert all[8..8 + |packed|] == packed;
  }

  /** Decoding returns exactly what was compressed before the first failure. */
  lemma {:induction false} BlocksRoundTrip(
    codec: Codec, blockBytes: nat, related: (StreamState, StreamState) -> bool,
    e: StreamState, d: StreamState, previous: bytes, data: bytes)
    requires blockBytes < 0x1_0000 && Inverts(codec, blockBytes, related) && related(e, d)
    ensures var packed := Compressed(codec, blockBytes, e, previous, data);
            && Framed(codec, blockBytes, d, previous, packed)
            && Decompressed(codec, blockBytes, d, previous, packed)
               == data[..Covered(codec, blockBytes, e, previous, data)]
    decreases |data|
  {
    var turn := PackingOf(codec, blockBytes, e, previous, data);
    if turn.Packed? {
      var block, rest := turn.block, data[|turn.block|..];
      assert InvertsBlock(codec, blockBytes, related, e, d, previous, block);
      var packed := codec.encode(e, previous, block).1;
      var next := codec.decode(d, previous, packed).0;
      BlocksRoundTrip(codec, blockBytes, related, turn.next, next, block, rest);
      TurnOnBlock(codec, blockBytes, d, previous, block, packed, Compressed(codec, blockBytes, turn.next, block, rest));
      assert data == block + rest;
    }
  }

  /** The codec takes every block of the data. */
  predicate AcceptsAll(codec: Codec, blockBytes: nat, e: StreamState, previous: bytes, data: bytes)
    decreases |data|
  {
    data == [] ||
    (&& 0 < blockBytes
     && var block := data[..Min(|data|, blockBytes)];
     var (next, packed) := codec.encode(e, previous, block);
     packed != [] && AcceptsAll(codec, blockBytes, next, block, data[|block|..]))
  }

  lemma {:induction false} CoveredAll(codec: Codec, blockBytes: nat, e: StreamState, previous: bytes, data: bytes)
    ensures Covered(codec, blockBytes, e, previous, data) == |data| <==> AcceptsAll(codec, blockBytes, e, previous, data)
    ensures Compressed(codec, blockBytes, e, previous, data) == [] <==> Covered(codec, blockBytes, e, previous, data) == 0
    decreases |data|
  {
    var turn := PackingOf(codec, blockBytes, e, previous, data);
    if turn.Packed? {
      CoveredAll(codec, blockBytes, turn.next, turn.block, data[|turn.block|..]);
    }
  }

  /** Compressed data comes back whole exactly when the codec accepts every
      block; otherwise it comes back cut off in front of the refused block. */
  lemma CompressionRoundTrip(codec: Codec, blockBytes: nat, related: (StreamState, StreamState) -> bool, data: bytes)
    requires blockBytes < 0x1_0000 && Inverts(codec, blockBytes, related) && data != []
    requires |Compressed(codec, blockBytes, codec.encoder, [], data)| < INT32_LIMIT
    ensures var n := Covered(codec, blockBytes, codec.encoder, [], data);
            match Compression(codec, blockBytes, data)
            case None => n == 0
            case Some(packed) =>
              && 0 < n
              && Decodable(codec, blockBytes, packed)
              && Decompression(codec, blockBytes, packed) == Some(data[..n])
    ensures AcceptsAll(codec, blockBytes, codec.encoder, [], data) <==>
              (&& Compression(codec, blockBytes, data).Some?
               && var packed := Compression(codec, blockBytes, data).value;
               Decodable(codec, blockBytes, packed) && Decompression(codec, blockBytes, packed) == Some(data))
  {
    BlocksRoundTrip(codec, blockBytes, related, codec.encoder, codec.decoder, [], data);
    CoveredAll(codec, blockBytes, codec.encoder, [], data);
    var n := Covered(codec, blockBytes, codec.encoder, [], data);
    assert n == |data| ==> data[..n] == data;
    assert |data[..n]| == n;
  }
}
