/** Utilities/Folder.cpp: the folder archive. Every file is a record that holds
    two records, its relative path and its bytes. The file system is a parameter:
    what reading each file gives. */
module Folder {
  import opened Bytes
  import opened Combiner
  import Converter

  /** A file found by the search, with the bytes that reading it gives, if any. */
  datatype Source = Source(path: bytes, content: Option<bytes>)

  datatype Entry = Entry(path: bytes, content: bytes)

  // ----- what the loops compute -----

  function Inner(path: bytes, content: bytes): bytes {
    Record(Converter.ToArray(path)) + Record(content)
  }

  function Archive(entries: seq<Entry>): bytes {
    if entries == [] then []
    else Record(Inner(entries[0].path, entries[0].content)) + Archive(entries[1..])
  }

  /** The files in front of the first one that cannot be read. */
  function Readable(sources: seq<Source>): (entries: seq<Entry>)
    ensures |entries| <= |sources|
    ensures forall i :: 0 <= i < |entries| ==> sources[i] == Source(entries[i].path, Some(entries[i].content))
    ensures |entries| < |sources| ==> sources[|entries|].content == None
  {
    if sources == [] || sources[0].content.None? then []
    else [Entry(sources[0].path, sources[0].content.value)] + Readable(sources[1..])
  }

  /** The file written for one record of the archive. */
  function Unpack(record: bytes): Entry {
    var path := DivideAt(record, 0);
    var content := DivideAt(record, path.next);
    Entry(Converter.ToString(path.data), content.data)
  }

  /** The files written while records from `index` on are not empty. */
  function Extract(source: bytes, index: nat): seq<Entry>
    requires index <= |source|
    decreases |source| - index
  {
    DivideIsMonotone(source, index);
    var record := DivideAt(source, index);
    if record.data == [] then [] else [Unpack(record.data)] + Extract(source, record.next)
  }

  /** The two inner records declare ends that fit a `size_t`. */
  predicate InnerEndsFit(record: bytes) {
    |record| < WORD && EndFits(record, 0) && EndFits(record, DivideAt(record, 0).next)
  }

  /** Every length field that the loop looks at declares an end that fits. */
  predicate EndsFit(source: bytes, index: nat)
    requires index <= |source|
    decreases |source| - index
  {
    DivideIsMonotone(source, index);
    var record := DivideAt(source, index);
    && EndFits(source, index)
    && (record.data == [] || (InnerEndsFit(record.data) && EndsFit(source, record.next)))
  }

  predicate Storable(e: Entry) {
    |e.path| + |e.content| + 24 < WORD
  }

  // ----- the loops -----

  /** The reversed inner record of one file. */
  method Pack(path: bytes, content: bytes) returns (reversed: bytes)
    requires Storable(Entry(path, content))
    ensures reversed == Reverse(Inner(path, content))
  {
    var data := new ByteVector();
    Append(data, Converter.ToArray(path));
    Append(data, content);
    assert [] + Record(path) == Record(path);
    reversed := Reverse(data.data);
  }

  predicate AllStorable(sources: seq<Source>) {
    forall i :: 0 <= i < |sources| && sources[i].content.Some? ==>
      Storable(Entry(sources[i].path, sources[i].content.value))
  }

  /** On the first unreadable file the loop gives up and leaves what it wrote. */
  method Compression(sources: seq<Source>) returns (ok: bool, target: bytes)
    requires AllStorable(sources)
    ensures ok <==> |Readable(sources)| == |sources|
    ensures target == Archive(Readable(sources))
  {
    target := [];
    var i := 0;
    assert sources[0..] == sources;
    while i < |sources|
      invariant 0 <= i <= |sources|
      invariant |Readable(sources)| == i + |Readable(sources[i..])|
      invariant target + Archive(Readable(sources[i..])) == Archive(Readable(sources))
    {
      ArchiveStep(target, sources[i..], sources[i + 1..]);
      if sources[i].content.None? {
        return false, target;
      }
      var reversed := Pack(sources[i].path, sources[i].content.value);
      target := target + Word(|reversed|);
      target := target + reversed;
      i := i + 1;
    }
    ok := true;
  }

  lemma ArchiveStep(done: bytes, sources: seq<Source>, others: seq<Source>)
    requires sources != [] && others == sources[1..]
    ensures |Readable(sources)| == if sources[0].content.None? then 0 else 1 + |Readable(others)|
    ensures done + Archive(Readable(sources))
         == match sources[0].content
            case None => done
            case Some(content) =>
              var inner := Inner(sources[0].path, content);
              done + Word(|Reverse(inner)|) + Reverse(inner) + Archive(Readable(others))
  {
    match sources[0].content
    case None =>
    case Some(content) =>
      var first, rest := Entry(sources[0].path, content), Readable(others);
      assert ([first] + rest)[1..] == rest;
      var inner := Inner(first.path, content);
      Associative(done, Word(|inner|), Reverse(inner));
      Associative(done, Record(inner), Archive(rest));
  }

  method Decompression(source: bytes) returns (files: seq<Entry>)
    requires |source| < WORD
    requires EndsFit(source, 0)
    ensures files == Extract(source, 0)
  {
    files := [];
    var cursor := new Cursor();
    while true
      invariant cursor.index <= |source| && fresh(cursor)
      invariant EndsFit(source, cursor.index)
      invariant files + Extract(source, cursor.index) == Extract(source, 0)
      decreases |source| - cursor.index
    {
      ghost var before := cursor.index;
      DivideIsMonotone(source, before);
      var parsed := Divide(source, cursor);
      if parsed == [] {
        assert files + [] == files;
        break;
      }
      var sub := new Cursor();
      var path := Divide(parsed, sub);
      var content := Divide(parsed, sub);
      var entry := Entry(Converter.ToString(path), content);
      Associative(files, [entry], Extract(source, cursor.index));
      files := files + [entry];
    }
  }

  // ----- round trip -----

  /** The framing written by hand, a length and the reversed record, is a record
      around the inner one. */
  lemma OuterFramingIsRecord(path: bytes, content: bytes)
    ensures Word(|Reverse(Inner(path, content))|) + Reverse(Inner(path, content)) == Record(Inner(path, content))
  {
  }

  lemma UnpackInner(e: Entry)
    requires Storable(e)
    ensures Unpack(Inner(e.path, e.content)) == Entry(Converter.ToString(e.path), e.content)
  {
    var inner := Inner(e.path, e.content);
    assert inner[0..] == inner && Record(e.path) <= inner;
    DivideRecord(inner, 0, e.path);
    assert inner[8 + |e.path|..] == Record(e.content);
    DivideRecord(inner, 8 + |e.path|, e.content);
  }

  lemma InnerFits(e: Entry)
    requires Storable(e)
    ensures InnerEndsFit(Inner(e.path, e.content))
  {
    var inner := Inner(e.path, e.content);
    assert inner[0..] == inner && Record(e.path) <= inner;
    DivideRecord(inner, 0, e.path);
    WordRoundTrip(|e.path|);
    assert inner[0..8] == Word(|e.path|);
    assert inner[8 + |e.path|..] == Record(e.content);
    WordRoundTrip(|e.content|);
    assert inner[8 + |e.path|..8 + |e.path| + 8] == Word(|e.content|);
  }

  /** What the archiving loop writes, the extracting loop can read. */
  lemma {:induction false} ArchiveIsReadable(source: bytes, index: nat, entries: seq<Entry>)
    requires |source| < WORD && index <= |source| && source[index..] == Archive(entries)
    requires forall e :: e in entries ==> Storable(e)
    ensures EndsFit(source, index)
    decreases |entries|
  {
    if entries != [] {
      var inner, tail := Inner(entries[0].path, entries[0].content), Archive(entries[1..]);
      assert Storable(entries[0]);
      FirstOfArchive(source, index, inner, tail);
      InnerFits(entries[0]);
      LengthOfFirst(source, index, inner, tail);
      ArchiveIsReadable(source, index + 8 + |inner|, entries[1..]);
    }
  }

  lemma LengthOfFirst(source: bytes, index: nat, inner: bytes, tail: bytes)
    requires |source| < WORD && index <= |source| && source[index..] == Record(inner) + tail
    ensures EndFits(source, index)
  {
    assert source[index..index + 8] == source[index..][..8] == Word(|inner|);
    WordRoundTrip(|inner|);
  }

  function Restored(entries: seq<Entry>): (r: seq<Entry>)
    ensures |r| == |entries|
    ensures forall i :: 0 <= i < |r| ==> r[i] == Entry(Converter.ToString(entries[i].path), entries[i].content)
  {
    if entries == [] then []
    else [Entry(Converter.ToString(entries[0].path), entries[0].content)] + Restored(entries[1..])
  }

  lemma ExtractFirst(source: bytes, index: nat, inner: bytes, next: nat)
    requires index <= |source| && next <= |source| && inner != []
    requires DivideAt(source, index) == Divided(inner, next)
    ensures Extract(source, index) == [Unpack(inner)] + Extract(source, next)
  {
  }

  lemma {:induction false} ExtractArchive(source: bytes, index: nat, entries: seq<Entry>)
    requires index <= |source| && source[index..] == Archive(entries)
    requires forall e :: e in entries ==> Storable(e)
    ensures Extract(source, index) == Restored(entries)
    decreases |entries|
  {
    if entries != [] {
      var next := index + 8 + |Inner(entries[0].path, entries[0].content)|;
      assert Storable(entries[0]);
      ExtractHead(source, index, entries[0], Archive(entries[1..]), next);
      ExtractArchive(source, next, entries[1..]);
    }
  }

  lemma ExtractHead(source: bytes, index: nat, e: Entry, tail: bytes, next: nat)
    requires index <= |source| && source[index..] == Record(Inner(e.path, e.content)) + tail
    requires Storable(e) && next == index + 8 + |Inner(e.path, e.content)|
    ensures next <= |source| && source[next..] == tail
    ensures Extract(source, index) == [Entry(Converter.ToString(e.path), e.content)] + Extract(source, next)
  {
    FirstOfArchive(source, index, Inner(e.path, e.content), tail);
    UnpackInner(e);
    ExtractFirst(source, index, Inner(e.path, e.content), next);
  }

  lemma FirstOfArchive(source: bytes, index: nat, inner: bytes, tail: bytes)
    requires index <= |source| && source[index..] == Record(inner) + tail && |inner| < WORD
    ensures DivideAt(source, index) == Divided(inner, index + 8 + |inner|)
    ensures index + 8 + |inner| <= |source| && source[index + 8 + |inner|..] == tail
  {
    PrefixSplits(Record(inner), tail, source[index..]);
    DivideRecord(source, index, inner);
    assert source[index + 8 + |inner|..] == source[index..][|Record(inner)|..];
  }

  /** Extracting an archive gives the same files in the same order, empty ones
      included, exactly when no path begins with a byte order mark. */
  lemma ArchiveRoundTrip(entries: seq<Entry>)
    requires forall e :: e in entries ==> Storable(e)
    ensures Extract(Archive(entries), 0) == Restored(entries)
    ensures Extract(Archive(entries), 0) == entries <==>
            forall e :: e in entries ==> !Converter.HasByteOrderMark(e.path)
  {
    assert Archive(entries)[0..] == Archive(entries);
    ExtractArchive(Archive(entries), 0, entries);
    var restored := Restored(entries);
    if forall e :: e in entries ==> !Converter.HasByteOrderMark(e.path) {
      forall i | 0 <= i < |entries| ensures restored[i] == entries[i] {
        Converter.TextRoundTrip(entries[i].path);
      }
    } else {
      var e :| e in entries && Converter.HasByteOrderMark(e.path);
      var i :| 0 <= i < |entries| && entries[i] == e;
      Converter.TextRoundTrip(e.path);
      assert restored[i] != entries[i];
    }
  }
}
