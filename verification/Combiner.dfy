/** Utilities/Combiner.cpp: the record codec. A record is an 8-byte length and
    then the bytes in reverse order. */
module Combiner {
  import opened Bytes

  /** A `std::vector<uint8_t>` passed by reference. */
  class ByteVector {
    var data: bytes

    constructor ()
      ensures data == []
    {
      data := [];
    }
  }

  /** A `size_t` passed by reference. */
  class Cursor {
    var index: nat

    constructor ()
      ensures index == 0
    {
      index := 0;
    }
  }

  // ----- what the two operations compute -----

  function Record(source: bytes): bytes {
    Word(|source|) + Reverse(source)
  }

  datatype Divided = Divided(data: bytes, next: nat)

  /** The length field at `index`. */
  function Declared(source: bytes, index: nat): nat
    requires index + 8 <= |source|
  {
    FromLittleEndian(source[index..index + 8])
  }

  function DivideAt(source: bytes, index: nat): Divided {
    if |source| < index + 8 then
      Divided([], index)
    else
      var length := Declared(source, index);
      if length == 0 || |source| < index + 8 + length then
        Divided([], index + 8)
      else
        Divided(Reverse(source[index + 8..index + 8 + length]), index + 8 + length)
  }

  /** `size_t` addition. */
  function AddWords(a: nat, b: nat): nat {
    (a + b) % WORD
  }

  /** The declared end of the record at `index` is a `size_t`. */
  predicate EndFits(source: bytes, index: nat) {
    index + 8 <= |source| ==> index + 8 + Declared(source, index) < WORD
  }

  // ----- the operations -----

  method Append(result: ByteVector, source: bytes)
    requires |source| < WORD
    modifies result
    ensures result.data == old(result.data) + Record(source)
  {
    var temp := |source|;
    result.data := result.data + Word(temp);
    if temp == 0 {
      assert Reverse(source) == [];
      return;
    }
    result.data := result.data + Reverse(source);
  }

  method ReverseInPlace(a: array<byte>)
    modifies a
    ensures a[..] == Reverse(old(a[..]))
  {
    var n, i := a.Length, 0;
    while i < n / 2
      invariant 0 <= i <= n / 2
      invariant forall k :: 0 <= k < i ==> a[k] == old(a[n - 1 - k]) && a[n - 1 - k] == old(a[k])
      invariant forall k :: i <= k < n - i ==> a[k] == old(a[k])
    {
      a[i], a[n - 1 - i] := a[n - 1 - i], a[i];
      i := i + 1;
    }
  }

  /** The guard compares the wrapped sum, as the source does; `EndFits` is what
      keeps the copy inside the vector (see GuardIsExact). */
  method Divide(source: bytes, cursor: Cursor) returns (result: bytes)
    requires |source| < WORD && cursor.index <= |source|
    requires EndFits(source, cursor.index)
    modifies cursor
    ensures Divided(result, cursor.index) == DivideAt(source, old(cursor.index))
    ensures old(cursor.index) <= cursor.index <= |source|
  {
    if |source| == 0 {
      return [];
    }
    if |source| < cursor.index + 8 {
      return [];
    }
    var temp := FromLittleEndian(source[cursor.index..cursor.index + 8]);
    cursor.index := cursor.index + 8;
    if temp == 0 || |source| < AddWords(cursor.index, temp) {
      return [];
    }
    var copied := source[cursor.index..cursor.index + temp];
    var buffer := new byte[temp](i requires 0 <= i < temp => copied[i]);
    assert buffer[..] == copied;
    ReverseInPlace(buffer);
    cursor.index := cursor.index + temp;
    return buffer[..];
  }

  // ----- properties -----

  /** The guard, computed in `size_t`, accepts only records that lie inside the
      vector exactly when the declared end fits a `size_t`. */
  lemma GuardIsExact(source: bytes, index: nat)
    requires |source| < WORD && index + 8 <= |source|
    ensures EndFits(source, index) <==>
            (AddWords(index + 8, Declared(source, index)) <= |source| ==>
               index + 8 + Declared(source, index) <= |source|)
  {
    WordBound(source[index..index + 8]);
    var end := index + 8 + Declared(source, index);
    if end < WORD {
      assert AddWords(index + 8, Declared(source, index)) == end;
    } else {
      assert end % WORD == end - WORD;
    }
  }

  /** Vectors for which it does not: a declared end of exactly 2^64 wraps to zero,
      so that the guard admits a record far beyond the vector. */
  lemma GuardAdmitsWrapped(tail: bytes)
    requires |tail| + 8 < WORD
    ensures var source := Word(WORD - 8) + tail;
            && !EndFits(source, 0)
            && AddWords(8, Declared(source, 0)) <= |source| < 8 + Declared(source, 0)
  {
    var source := Word(WORD - 8) + tail;
    assert source[0..8] == Word(WORD - 8);
    WordRoundTrip(WORD - 8);
  }

  /** A record is the length of its data in eight bytes, the least significant first,
      and then the data from its last byte to its first. */
  lemma RecordBytes(source: bytes, k: nat)
    ensures |Record(source)| == 8 + |source|
    ensures k < 8 ==> Record(source)[k] as int == |source| / Pow256(k) % 256
    ensures k < |source| ==> Record(source)[8 + k] == source[|source| - 1 - k]
  {
    if k < 8 {
      LittleEndianAt(|source|, 8, k);
    }
  }

  /** In front of eight bytes, a length field is read; the data is what lies behind
      it, backwards, if the vector holds that many bytes. A record that is longer
      than the rest of the vector yields nothing but the length field's eight bytes. */
  lemma DivideIsExact(source: bytes, index: nat)
    ensures var d := DivideAt(source, index);
            if |source| < index + 8 then d == Divided([], index)
            else if |source| < index + 8 + Declared(source, index) then d == Divided([], index + 8)
            else
              && |d.data| == Declared(source, index) && d.next == index + 8 + |d.data|
              && forall k :: 0 <= k < |d.data| ==> d.data[k] == source[d.next - 1 - k]
  {
  }

  lemma DivideIsMonotone(source: bytes, index: nat)
    requires index <= |source|
    ensures index <= DivideAt(source, index).next <= |source|
    ensures DivideAt(source, index).data != [] ==>
              DivideAt(source, index).next == index + 8 + |DivideAt(source, index).data|
    ensures DivideAt(source, index).data == [] ==>
              DivideAt(source, index).next in {index, index + 8}
  {
  }

  /** Where the two parts of a prefix of a suffix are. */
  lemma TwoParts(source: bytes, index: nat, a: bytes, b: bytes)
    requires index <= |source| && a + b <= source[index..]
    ensures index + |a| + |b| <= |source|
    ensures source[index..index + |a|] == a && source[index + |a|..index + |a| + |b|] == b
  {
    var rest := source[index..];
    assert rest[..|a| + |b|] == a + b;
    assert rest[..|a|] == (a + b)[..|a|] && rest[|a|..|a| + |b|] == (a + b)[|a|..];
  }

  /** What `divide` does with a length field and a body that it finds. */
  lemma DivideFound(source: bytes, index: nat, length: nat, body: bytes)
    requires index + 8 + |body| <= |source| && length == |body|
    requires Declared(source, index) == length && source[index + 8..index + 8 + length] == body
    ensures DivideAt(source, index) == Divided(Reverse(body), index + 8 + length)
  {
    assert length == 0 ==> Reverse(body) == [];
  }

  /** A record written at `index` is read back, and the index moves behind it. */
  lemma DivideRecord(source: bytes, index: nat, data: bytes)
    requires |data| < WORD && index <= |source| && Record(data) <= source[index..]
    ensures DivideAt(source, index) == Divided(data, index + 8 + |data|)
  {
    var length := Word(|data|);
    TwoParts(source, index, length, Reverse(data));
    WordRoundTrip(|data|);
    DivideFound(source, index, |data|, Reverse(data));
    ReverseTwice(data);
  }

  /** Records of a list, in order. */
  function Records(items: seq<bytes>): bytes {
    if items == [] then [] else Record(items[0]) + Records(items[1..])
  }

  /** As many calls of `divide` as there are items return the items in order and
      leave the index at `end`. */
  predicate ReadBack(source: bytes, index: nat, items: seq<bytes>, end: nat)
    decreases |items|
  {
    if items == [] then index == end
    else
      var first := DivideAt(source, index);
      first.data == items[0] && ReadBack(source, first.next, items[1..], end)
  }

  lemma PrefixSplits(a: bytes, b: bytes, s: bytes)
    requires a + b <= s
    ensures a <= s && b <= s[|a|..]
  {
  }

  /** The first record of a list and the others, in a vector behind `index`. */
  lemma FirstRecord(source: bytes, index: nat, items: seq<bytes>)
    requires items != [] && |items[0]| < WORD
    requires index <= |source| && Records(items) <= source[index..]
    ensures var next := index + 8 + |items[0]|;
            && next <= |source|
            && DivideAt(source, index) == Divided(items[0], next)
            && Records(items[1..]) <= source[next..]
            && |Records(items)| == next - index + |Records(items[1..])|
  {
    var head := Record(items[0]);
    PrefixSplits(head, Records(items[1..]), source[index..]);
    DivideRecord(source, index, items[0]);
    assert source[index..][|head|..] == source[index + |head|..];
  }

  /** Records written anywhere are read back from there in order, empty ones
      included, with the index left exactly behind them. */
  lemma {:induction false} RecordsRoundTrip(source: bytes, index: nat, items: seq<bytes>, end: nat)
    requires forall i :: 0 <= i < |items| ==> |items[i]| < WORD
    requires index <= |source| && Records(items) <= source[index..] && end == index + |Records(items)|
    ensures ReadBack(source, index, items, end)
    decreases |items|
  {
    if items != [] {
      FirstRecord(source, index, items);
      RecordsRoundTrip(source, index + 8 + |items[0]|, items[1..], end);
    }
  }

  /** A list of records in a vector of its own, read from the start. */
  lemma ReadRecords(items: seq<bytes>)
    requires forall i :: 0 <= i < |items| ==> |items[i]| < WORD
    ensures ReadBack(Records(items), 0, items, |Records(items)|)
  {
    assert Records(items)[0..] == Records(items);
    RecordsRoundTrip(Records(items), 0, items, |Records(items)|);
  }
}
