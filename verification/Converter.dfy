/** Utilities/Converter.cpp: splitting and replacing over byte strings, and the
    text conversion that every record field goes through. */
module Converter {
  import opened Bytes

  // ----- to_array and to_string -----

  /** A string is its bytes; `to_array` copies them. */
  function ToArray(value: bytes): bytes {
    value
  }

  predicate HasByteOrderMark(value: bytes) {
    3 <= |value| && value[0] == 0xef && value[1] == 0xbb && value[2] == 0xbf
  }

  /** Two of the three bytes of a leading mark are dropped. */
  function ToString(value: bytes): bytes {
    if HasByteOrderMark(value) then value[2..] else value
  }

  /** Text survives the conversion exactly when it does not begin with a mark. */
  lemma TextRoundTrip(value: bytes)
    ensures ToString(ToArray(value)) == value <==> !HasByteOrderMark(value)
  {
  }

  /** Of a text that begins with the mark exactly the first two bytes are lost, the
      third is kept. */
  lemma MarkLosesTwoBytes(value: bytes)
    ensures if [0xef, 0xbb, 0xbf] <= value then value == [0xef, 0xbb] + ToString(ToArray(value))
            else ToString(ToArray(value)) == value
  {
  }

  // ----- where the token is -----

  predicate OccursAt(source: bytes, token: bytes, i: nat) {
    i + |token| <= |source| && source[i..i + |token|] == token
  }

  /** `std::string::find`: the least index from `from` on, or None. */
  function Find(source: bytes, token: bytes, from: nat): (i: Option<nat>)
    ensures i.Some? ==> from <= i.value && i.value + |token| <= |source|
    decreases |source| - from
  {
    if |source| < from + |token| then None
    else if OccursAt(source, token, from) then Some(from)
    else if from == |source| then None
    else Find(source, token, from + 1)
  }

  lemma {:induction false} FindIsLeast(source: bytes, token: bytes, from: nat)
    ensures var i := Find(source, token, from);
            if i.Some? then
              && OccursAt(source, token, i.value)
              && forall k :: from <= k < i.value ==> !OccursAt(source, token, k)
            else forall k :: from <= k ==> !OccursAt(source, token, k)
    decreases |source| - from
  {
    if from + |token| <= |source| && !OccursAt(source, token, from) && from < |source| {
      FindIsLeast(source, token, from + 1);
    }
  }

  /** The pieces of `source` from `from` on: cut at the leftmost token, go on
      behind it. */
  function Segments(source: bytes, token: bytes, from: nat): (s: seq<bytes>)
    requires token != [] && from <= |source|
    ensures |s| > 0
    decreases |source| - from
  {
    match Find(source, token, from)
    case None => [source[from..]]
    case Some(i) => [source[from..i]] + Segments(source, token, i + |token|)
  }

  function Join(parts: seq<bytes>, glue: bytes): bytes
    requires |parts| > 0
  {
    if |parts| == 1 then parts[0] else parts[0] + glue + Join(parts[1..], glue)
  }

  function NonEmpty(parts: seq<bytes>): (r: seq<bytes>) {
    if parts == [] then []
    else (if parts[0] == [] then [] else [parts[0]]) + NonEmpty(parts[1..])
  }

  // ----- the loops -----

  method Split(source: bytes, token: bytes) returns (result: seq<bytes>)
    requires token != []
    ensures result == NonEmpty(Segments(source, token, 0))
  {
    ghost var all := NonEmpty(Segments(source, token, 0));
    if source == [] {
      return [];
    }
    var lastOffset := 0;
    result := [];
    while true
      invariant lastOffset <= |source|
      invariant lastOffset == 0 ==> result == []
      invariant result + NonEmpty(Segments(source, token, lastOffset)) == all
      decreases |source| - lastOffset
    {
      var offset := Find(source, token, lastOffset);
      if offset.None? {
        break;
      }
      var temp := source[lastOffset..offset.value];
      ghost var before := lastOffset;
      lastOffset := offset.value + |token|;
      SegmentsAfter(source, token, before, offset.value, lastOffset);
      NonEmptyStep(result, temp, Segments(source, token, lastOffset));
      if temp != [] {
        result := result + [temp];
      }
    }
    NonEmptyStep(result, source[lastOffset..], []);
    if lastOffset != 0 {
      var temp := source[lastOffset..];
      if temp != [] {
        result := result + [temp];
      }
    }
    if lastOffset == 0 {
      assert source[0..] == source;
      return [source];
    }
  }

  lemma NonEmptyStep(done: seq<bytes>, part: bytes, rest: seq<bytes>)
    ensures done + NonEmpty([part] + rest) == (if part == [] then done else done + [part]) + NonEmpty(rest)
    ensures done + NonEmpty([part]) == (if part == [] then done else done + [part])
  {
  }

  method Replace2(source: bytes, token: bytes, target: bytes) returns (result: bytes)
    requires token != []
    ensures result == Join(Segments(source, token, 0), target)
  {
    ghost var all := Join(Segments(source, token, 0), target);
    if source == [] {
      return [];
    }
    var lastOffset := 0;
    result := [];
    while true
      invariant lastOffset <= |source|
      invariant lastOffset == 0 ==> result == []
      invariant result + Join(Segments(source, token, lastOffset), target) == all
      decreases |source| - lastOffset
    {
      var offset := Find(source, token, lastOffset);
      if offset.None? {
        break;
      }
      var temp := source[lastOffset..offset.value];
      ghost var before := lastOffset;
      lastOffset := offset.value + |token|;
      SegmentsAfter(source, token, before, offset.value, lastOffset);
      JoinStep(result, temp, target, Segments(source, token, lastOffset));
      result := result + temp + target;
    }
    if lastOffset != 0 {
      result := result + source[lastOffset..];
    }
    if lastOffset == 0 {
      assert source[0..] == source;
      return source;
    }
  }

  lemma JoinStep(done: bytes, part: bytes, glue: bytes, rest: seq<bytes>)
    requires |rest| > 0
    ensures done + Join([part] + rest, glue) == done + part + glue + Join(rest, glue)
  {
  }

  /** A `std::string` passed by reference. */
  class Text {
    var value: bytes

    constructor (value: bytes)
      ensures this.value == value
    {
      this.value := value;
    }
  }

  method Replace(source: Text, token: bytes, target: bytes)
    requires token != []
    modifies source
    ensures source.value == Join(Segments(old(source.value), token, 0), target)
  {
    source.value := Replace2(source.value, token, target);
  }

  // ----- laws -----

  /** The token does not begin inside `part` when `part` is followed by it. */
  ghost predicate CutHere(part: bytes, token: bytes) {
    forall i :: 0 <= i < |part| ==> !OccursAt(part + token, token, i)
  }

  ghost predicate TokenFree(part: bytes, token: bytes) {
    forall i :: 0 <= i ==> !OccursAt(part, token, i)
  }

  /** Every part but the last ends at the first token, and the last has none. */
  ghost predicate Leftmost(parts: seq<bytes>, token: bytes) {
    && |parts| > 0
    && (forall k :: 0 <= k < |parts| - 1 ==> CutHere(parts[k], token))
    && TokenFree(parts[|parts| - 1], token)
  }

  lemma OccursInSuffix(source: bytes, token: bytes, from: nat, i: nat)
    requires from <= |source|
    ensures OccursAt(source[from..], token, i) <==> OccursAt(source, token, from + i)
  {
  }

  lemma OccursInPrefix(source: bytes, rest: bytes, token: bytes, i: nat)
    requires i + |token| <= |source|
    ensures OccursAt(source, token, i) <==> OccursAt(source + rest, token, i)
  {
  }

  lemma CutAtFind(source: bytes, token: bytes, from: nat, i: nat)
    requires token != [] && from <= |source| && Find(source, token, from) == Some(i)
    ensures CutHere(source[from..i], token)
    ensures source[from..] == source[from..i] + token + source[i + |token|..]
  {
    FindIsLeast(source, token, from);
    var part := source[from..i];
    assert part + token == source[from..i + |token|];
    forall k | 0 <= k < |part| ensures !OccursAt(part + token, token, k) {
      if OccursAt(part + token, token, k) {
        OccursInPrefix(part + token, source[i + |token|..], token, k);
        assert part + token + source[i + |token|..] == source[from..];
        OccursInSuffix(source, token, from, k);
      }
    }
  }

  lemma FreeAtEnd(source: bytes, token: bytes, from: nat)
    requires token != [] && from <= |source| && Find(source, token, from) == None
    ensures TokenFree(source[from..], token)
  {
    FindIsLeast(source, token, from);
    forall k | 0 <= k ensures !OccursAt(source[from..], token, k) {
      OccursInSuffix(source, token, from, k);
    }
  }

  lemma {:induction false} SegmentsAreLeftmost(source: bytes, token: bytes, from: nat)
    requires token != [] && from <= |source|
    ensures Leftmost(Segments(source, token, from), token)
    ensures Join(Segments(source, token, from), token) == source[from..]
    decreases |source| - from
  {
    var parts := Segments(source, token, from);
    match Find(source, token, from)
    case None =>
      FreeAtEnd(source, token, from);
    case Some(i) =>
      var next := i + |token|;
      SegmentsAreLeftmost(source, token, next);
      CutAtFind(source, token, from, i);
      SegmentsAfter(source, token, from, i, next);
      LeftmostCons(source[from..i], Segments(source, token, next), token);
      JoinStep([], source[from..i], token, Segments(source, token, next));
      AroundToken(source, token, from, i, next);
  }

  lemma AroundToken(source: bytes, token: bytes, from: nat, i: nat, next: nat)
    requires from <= i && next == i + |token| && OccursAt(source, token, i)
    ensures source[from..] == [] + source[from..i] + token + source[next..]
  {
  }

  lemma LeftmostCons(part: bytes, rest: seq<bytes>, token: bytes)
    requires CutHere(part, token) && Leftmost(rest, token)
    ensures Leftmost([part] + rest, token)
  {
  }

  /** The first cut of a joined list is behind its first part. */
  lemma FindInJoin(part: bytes, token: bytes, rest: bytes)
    requires token != [] && CutHere(part, token)
    ensures Find(part + token + rest, token, 0) == Some(|part|)
  {
    var source := part + token + rest;
    assert source[|part|..|part| + |token|] == token;
    assert OccursAt(source, token, |part|);
    FindIsLeast(source, token, 0);
    var found := Find(source, token, 0);
    if found.value < |part| {
      OccursInPrefix(part + token, rest, token, found.value);
    }
  }

  /** Segments of a suffix do not depend on what is in front of it. */
  lemma {:induction false} SegmentsOfSuffix(source: bytes, suffix: bytes, token: bytes, cut: nat, from: nat, at: nat)
    requires token != [] && cut <= |source| && suffix == source[cut..] && from <= |suffix| && at == cut + from
    ensures Segments(source, token, at) == Segments(suffix, token, from)
    decreases |suffix| - from
  {
    FindInSuffix(source, suffix, token, cut, from);
    match Find(suffix, token, from)
    case None =>
      assert suffix[from..] == source[at..];
    case Some(i) =>
      var next, j := i + |token|, cut + i;
      SegmentsOfSuffix(source, suffix, token, cut, next, cut + next);
      SegmentsAfter(source, token, at, j, cut + next);
      SegmentsAfter(suffix, token, from, i, next);
      SliceOfSuffix(source, suffix, cut, from, i, at, j);
  }

  lemma SliceOfSuffix(source: bytes, suffix: bytes, cut: nat, from: nat, i: nat, at: nat, j: nat)
    requires cut <= |source| && suffix == source[cut..] && from <= i <= |suffix| && at == cut + from && j == cut + i
    ensures suffix[from..i] == source[at..j]
  {
  }

  lemma SegmentsAfter(source: bytes, token: bytes, from: nat, i: nat, next: nat)
    requires token != [] && from <= |source| && Find(source, token, from) == Some(i) && next == i + |token|
    ensures Segments(source, token, from) == [source[from..i]] + Segments(source, token, next)
  {
  }

  lemma {:induction false} FindInSuffix(source: bytes, suffix: bytes, token: bytes, cut: nat, from: nat)
    requires cut <= |source| && suffix == source[cut..] && from <= |suffix|
    ensures Find(source, token, cut + from)
         == match Find(suffix, token, from) case None => None case Some(i) => Some(cut + i)
    decreases |suffix| - from
  {
    OccursInSuffix(source, token, cut, from);
    if from + |token| <= |suffix| && !OccursAt(suffix, token, from) && from < |suffix| {
      FindInSuffix(source, suffix, token, cut, from + 1);
    }
  }

  lemma SegmentsOfJoin(part: bytes, token: bytes, rest: bytes)
    requires token != [] && CutHere(part, token)
    ensures Segments(part + token + rest, token, 0) == [part] + Segments(rest, token, 0)
  {
    var source := part + token + rest;
    FindInJoin(part, token, rest);
    assert source[0..|part|] == part;
    SegmentsOfSuffix(source, rest, token, |part| + |token|, 0, |part| + |token|);
  }

  /** The leftmost decomposition is the only one: a list of parts is what the
      loops cut a string into exactly when it joins to the string and every
      part ends at the first token behind its start. */
  lemma {:induction false} DecompositionIsUnique(parts: seq<bytes>, token: bytes)
    requires token != [] && Leftmost(parts, token)
    ensures Segments(Join(parts, token), token, 0) == parts
    decreases |parts|
  {
    if |parts| == 1 {
      FindIsLeast(parts[0], token, 0);
      assert parts[0][0..] == parts[0];
    } else {
      var tail := parts[1..];
      assert forall k :: 0 <= k < |tail| ==> tail[k] == parts[k + 1];
      DecompositionIsUnique(tail, token);
      SegmentsOfJoin(parts[0], token, Join(tail, token));
    }
  }

  lemma LeftmostDecomposition(source: bytes, token: bytes, parts: seq<bytes>)
    requires token != [] && |parts| > 0
    ensures Segments(source, token, 0) == parts <==> Join(parts, token) == source && Leftmost(parts, token)
  {
    SegmentsAreLeftmost(source, token, 0);
    assert source[0..] == source;
    if Join(parts, token) == source && Leftmost(parts, token) {
      DecompositionIsUnique(parts, token);
    }
  }

  /** No piece that `split` returns is empty or contains the token. */
  lemma SplitPieces(source: bytes, token: bytes, piece: bytes)
    requires token != [] && piece in NonEmpty(Segments(source, token, 0))
    ensures piece != [] && TokenFree(piece, token)
  {
    var parts := Segments(source, token, 0);
    SegmentsAreLeftmost(source, token, 0);
    NonEmptyMembers(parts, piece);
    var k :| 0 <= k < |parts| && parts[k] == piece;
    if k < |parts| - 1 {
      assert CutHere(piece, token);
      CutIsTokenFree(piece, token);
    }
  }

  lemma CutIsTokenFree(piece: bytes, token: bytes)
    requires token != [] && CutHere(piece, token)
    ensures TokenFree(piece, token)
  {
    forall i | 0 <= i ensures !OccursAt(piece, token, i) {
      if OccursAt(piece, token, i) {
        OccursInPrefix(piece, token, token, i);
      }
    }
  }

  /** Leaving out the empty pieces of two lists one behind the other leaves the other
      pieces, in their order. */
  lemma {:induction false} NonEmptyKeepsOrder(parts: seq<bytes>, more: seq<bytes>, piece: bytes)
    ensures NonEmpty(parts + more) == NonEmpty(parts) + NonEmpty(more)
    ensures NonEmpty([piece]) == if piece == [] then [] else [piece]
    decreases |parts|
  {
    if parts == [] {
      assert parts + more == more;
    } else {
      NonEmptyKeepsOrder(parts[1..], more, piece);
      NonEmptyOfCons(parts[0], parts[1..] + more, NonEmpty(parts[1..]), NonEmpty(more));
      assert parts + more == [parts[0]] + (parts[1..] + more);
    }
  }

  lemma NonEmptyOfCons(part: bytes, rest: seq<bytes>, a: seq<bytes>, b: seq<bytes>)
    requires NonEmpty(rest) == a + b
    ensures NonEmpty([part] + rest) == (if part == [] then [] else [part]) + a + b
  {
  }

  lemma {:induction false} NonEmptyMembers(parts: seq<bytes>, piece: bytes)
    ensures piece in NonEmpty(parts) <==> piece != [] && piece in parts
  {
    if parts != [] {
      NonEmptyMembers(parts[1..], piece);
      assert parts == [parts[0]] + parts[1..];
    }
  }

  lemma ReplaceByItself(source: bytes, token: bytes)
    requires token != []
    ensures Join(Segments(source, token, 0), token) == source
  {
    SegmentsAreLeftmost(source, token, 0);
    assert source[0..] == source;
  }

  function Occurrences(source: bytes, token: bytes): nat
    requires token != []
  {
    |Segments(source, token, 0)| - 1
  }

  lemma {:induction false} JoinLength(parts: seq<bytes>, glue: bytes, other: bytes)
    requires |parts| > 0
    ensures |Join(parts, glue)| == |Join(parts, other)| + (|parts| - 1) * (|glue| - |other|)
  {
    if |parts| > 1 {
      JoinLength(parts[1..], glue, other);
      assert |parts[1..]| - 1 == |parts| - 2;
      assert (|parts| - 1) * (|glue| - |other|) == (|parts| - 2) * (|glue| - |other|) + (|glue| - |other|);
    }
  }

  lemma ReplaceLength(source: bytes, token: bytes, target: bytes)
    requires token != []
    ensures |Join(Segments(source, token, 0), target)|
         == |source| + Occurrences(source, token) * (|target| - |token|)
  {
    JoinLength(Segments(source, token, 0), target, token);
    ReplaceByItself(source, token);
  }

  /** Replacing there and back: when the target does not disturb the cuts, the
      text comes back. */
  lemma ReplaceBack(source: bytes, token: bytes, target: bytes)
    requires token != [] && target != []
    requires Leftmost(Segments(source, token, 0), target)
    ensures Join(Segments(Join(Segments(source, token, 0), target), target, 0), token) == source
  {
    DecompositionIsUnique(Segments(source, token, 0), target);
    ReplaceByItself(source, token);
  }
}
