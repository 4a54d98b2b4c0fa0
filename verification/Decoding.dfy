/** What Utilities/Compressor.cpp decodes from blocks that need not come from its own
    compression: where it ends, and what it has written by then. */
module Decoding {
  import opened Bytes
  import opened Compressor

  /** A block as it lies in compressed data: the size it claims and its bytes. */
  datatype Piece = Piece(size: nat, packed: bytes)

  predicate IsPiece(blockBytes: nat, piece: Piece) {
    0 < piece.size < INT32_LIMIT && 0 < |piece.packed| <= CompressBound(blockBytes)
  }

  function Laid(pieces: seq<Piece>): bytes {
    if pieces == [] then [] else BlockHeader(pieces[0].size, |pieces[0].packed|) + pieces[0].packed + Laid(pieces[1..])
  }

  /** What the codec makes of the pieces, up to the first that it refuses. */
  function Taken(codec: Codec, d: StreamState, previous: bytes, pieces: seq<Piece>): bytes
    decreases |pieces|
  {
    if pieces == [] then []
    else
      var (next, block) := codec.decode(d, previous, pieces[0].packed);
      if block == [] then [] else block + Taken(codec, next, block, pieces[1..])
  }

  /** The codec never writes more than the buffer it is given. */
  ghost predicate Bounded(codec: Codec, blockBytes: nat) {
    forall d, previous, packed :: |codec.decode(d, previous, packed).1| <= blockBytes
  }

  /** A field that ends the decoding in front of it. */
  predicate EndsDecoding(tail: bytes) {
    tail == [] || (4 <= |tail| && Signed(tail[..4]) <= 0) || (8 <= |tail| && Signed(tail[4..8]) <= 0)
  }

  lemma TurnOnPiece(codec: Codec, blockBytes: nat, d: StreamState, previous: bytes, piece: Piece, rest: bytes)
    requires blockBytes < 0x1_0000 && IsPiece(blockBytes, piece)
    ensures var all := BlockHeader(piece.size, |piece.packed|) + piece.packed + rest;
            var (next, block) := codec.decode(d, previous, piece.packed);
            && Readable(blockBytes, all)
            && TurnOf(codec, blockBytes, d, previous, all)
               == (if block == [] then Stop else Decoded(next, block, 8 + |piece.packed|))
            && all[8 + |piece.packed|..] == rest
  {
    var all := BlockHeader(piece.size, |piece.packed|) + piece.packed + rest;
    assert all == BlockHeader(piece.size, |piece.packed|) + (piece.packed + rest);
    HeaderRoundTrip(piece.size, |piece.packed|, piece.packed + rest);
    assert all[8..8 + |piece.packed|] == piece.packed;
  }

  /** Whoever framed them: decoding yields the blocks in front of the first one that
      the codec refuses, or in front of a size that is not positive, and no more. */
  lemma {:induction false} DecodingStops(
    codec: Codec, blockBytes: nat, d: StreamState, previous: bytes, pieces: seq<Piece>, tail: bytes)
    requires blockBytes < 0x1_0000 && Bounded(codec, blockBytes) && EndsDecoding(tail)
    requires forall i :: 0 <= i < |pieces| ==> IsPiece(blockBytes, pieces[i])
    requires Readable(blockBytes, tail)
    ensures Framed(codec, blockBytes, d, previous, Laid(pieces) + tail)
    ensures Decompressed(codec, blockBytes, d, previous, Laid(pieces) + tail) == Taken(codec, d, previous, pieces)
    decreases |pieces|
  {
    if pieces == [] {
      assert Laid(pieces) + tail == tail;
    } else {
      var piece, rest := pieces[0], Laid(pieces[1..]) + tail;
      var (next, block) := codec.decode(d, previous, piece.packed);
      TurnOnPiece(codec, blockBytes, d, previous, piece, rest);
      Associative(BlockHeader(piece.size, |piece.packed|) + piece.packed, Laid(pieces[1..]), tail);
      if block != [] {
        DecodingStops(codec, blockBytes, next, block, pieces[1..], tail);
      }
    }
  }
}
