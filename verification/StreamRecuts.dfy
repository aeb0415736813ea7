/**
 * Which streams share their bytes with another stream. Redis gives every entry an id above the one before and at least
 * one field. The entries are laid out one after the other with no field count, so a stretch of them that can be cut
 * differently, at chunks that read as ids, gives a second stream.
 */
module StreamRecuts {
  import opened Options
  import opened Chunks
  import opened Layouts
  import opened Pairs
  import opened SortedBytes
  import opened StreamIds
  import opened SnapshotDigest

  ghost predicate HasTwin(a: seq<Entry>) {
    exists b :: IsTwin(a, b)
  }

  ghost predicate IsTwin(a: seq<Entry>, b: seq<Entry>) {
    ValidStream(b) && b != a && Encoding(Stream(b)) == Encoding(Stream(a))
  }

  // ---------- A stream is its entries, laid out ----------

  ghost function Block(e: Entry): seq<Bytes> {
    [e.id] + Flat(SortedPairs(e.fields))
  }

  ghost const BLOCK: Entry -> seq<Bytes> := e => Block(e)

  lemma {:induction false} LaidOut(entries: seq<Entry>)
    ensures EntryChunks(entries) == All(BLOCK, entries)
    decreases |entries|
  {
    if entries != [] {
      var n := |entries| - 1;
      LaidOut(entries[..n]);
      JoinMore(BLOCK, entries[..n], entries[n], entries);
    }
  }

  lemma SameBytesIff(a: seq<Entry>, b: seq<Entry>)
    ensures Encoding(Stream(a)) == Encoding(Stream(b)) <==> All(BLOCK, a) == All(BLOCK, b)
  {
    LaidOut(a);
    LaidOut(b);
    StreamEncodingsEqualIff(a, b);
  }

  // ---------- Entries and their chunks ----------

  predicate IsBlock(block: seq<Bytes>) {
    |block| % 2 == 1 && |block| >= 3 && IsId(block[0]) && Ascending(Odds(block))
  }

  function PairsIn(block: seq<Bytes>): (pairs: seq<Pair<Bytes>>)
    requires |block| % 2 == 1
    ensures |pairs| == |block| / 2
    ensures forall i :: 0 <= i < |pairs| ==> pairs[i] == Pair(block[2 * i + 1], block[2 * i + 2])
  {
    seq(|block| / 2, i requires 0 <= i < |block| / 2 => Pair(block[2 * i + 1], block[2 * i + 2]))
  }

  function EntryOf(block: seq<Bytes>): Entry
    requires |block| % 2 == 1
  {
    Entry(block[0], MapOf(PairsIn(block)))
  }

  lemma AscendingDistinct(keys: seq<Bytes>)
    requires Ascending(keys)
    ensures Distinct(keys)
  {
    forall i, j | 0 <= i < j < |keys|
      ensures keys[i] != keys[j]
    {
      NotLessThanItself(keys[i]);
    }
  }

  lemma SortedPairsOfMap(pairs: seq<Pair<Bytes>>)
    requires Ascending(KeysOf(pairs))
    ensures SortedPairs(MapOf(pairs)) == pairs
  {
    AscendingDistinct(KeysOf(pairs));
    MapOfDistinct(pairs);
    PairsOfMapOf(pairs);
    assert Elements(KeysOf(pairs)) == MapOf(pairs).Keys;
    SortedIs(MapOf(pairs), KeysOf(pairs));
  }

  lemma HeadAndFlat(block: seq<Bytes>)
    requires |block| % 2 == 1
    ensures [block[0]] + Flat(PairsIn(block)) == block && KeysOf(PairsIn(block)) == Odds(block)
  {
    var pairs := PairsIn(block);
    FlatAt(pairs);
    forall k | 0 < k < |block|
      ensures Flat(pairs)[k - 1] == block[k]
    {
      var i := (k - 1) / 2;
      assert k == 2 * i + 1 || k == 2 * i + 2;
      assert pairs[i] == Pair(block[2 * i + 1], block[2 * i + 2]);
    }
  }

  lemma BlockOfEntry(block: seq<Bytes>)
    requires IsBlock(block)
    ensures Block(EntryOf(block)) == block && EntryOf(block).fields != map[]
  {
    HeadAndFlat(block);
    SortedPairsOfMap(PairsIn(block));
    SortedPairsCount(EntryOf(block).fields);
  }

  lemma NamesAreSorted(e: Entry)
    ensures Ascending(KeysOf(SortedPairs(e.fields)))
  {
    SortedIsSorted(e.fields.Keys);
    PairsOfAt(Sorted(e.fields.Keys), e.fields);
    assert KeysOf(SortedPairs(e.fields)) == Sorted(e.fields.Keys);
  }

  lemma SecondElements(e: Entry)
    ensures Odds(Block(e)) == KeysOf(SortedPairs(e.fields))
    ensures Evens(Block(e)) == [e.id] + ValuesOf(SortedPairs(e.fields))
    ensures |Block(e)| == 2 * |e.fields| + 1
  {
    FlatAt(SortedPairs(e.fields));
    SortedPairsCount(e.fields);
  }

  lemma EntryOfBlock(e: Entry)
    requires IsId(e.id) && e.fields != map[]
    ensures IsBlock(Block(e)) && EntryOf(Block(e)) == e
  {
    SecondElements(e);
    NamesAreSorted(e);
    PairsOfBlock(e);
    HashIsRead(e.fields);
  }

  lemma PairsOfBlock(e: Entry)
    ensures |Block(e)| % 2 == 1 && PairsIn(Block(e)) == SortedPairs(e.fields)
  {
    FlatAt(SortedPairs(e.fields));
  }

  // ---------- All streams that spell out given chunks ----------

  predicate Follows(after: Option<Bytes>, id: Bytes) {
    after.None? || IdBefore(after.value, id)
  }

  predicate ValidAfter(entries: seq<Entry>, after: Option<Bytes>) {
    ValidStream(entries) && (entries != [] ==> Follows(after, entries[0].id))
  }

  /** A list decoder: cut off a first entry in every possible way, and go on with the rest. */
  ghost function Streams(chunks: seq<Bytes>, after: Option<Bytes>): set<seq<Entry>>
    decreases |chunks|
  {
    if chunks == [] then {[]}
    else
      set n: nat, rest |
        3 <= n <= |chunks| && CutsAt(chunks, n, after) && rest in Streams(chunks[n..], Some(chunks[0])) ::
        [EntryOf(chunks[..n])] + rest
  }

  predicate CutsAt(chunks: seq<Bytes>, n: nat, after: Option<Bytes>) {
    3 <= n <= |chunks| && IsBlock(chunks[..n]) && Follows(after, chunks[0])
  }

  /** A first entry in front of a valid stream. */
  lemma ValidCons(e: Entry, rest: seq<Entry>, entries: seq<Entry>)
    requires entries == [e] + rest && IsId(e.id) && e.fields != map[] && ValidAfter(rest, Some(e.id))
    ensures ValidStream(entries)
  {
    forall i, j | 0 <= i < j < |entries|
      ensures IdBefore(entries[i].id, entries[j].id)
    {
      if i > 0 {
        assert entries[i] == rest[i - 1] && entries[j] == rest[j - 1];
      } else {
        FirstIsBefore(e.id, rest, j - 1);
      }
    }
  }

  lemma FirstIsBefore(id: Bytes, rest: seq<Entry>, j: nat)
    requires ValidAfter(rest, Some(id)) && j < |rest|
    ensures IdBefore(id, rest[j].id)
  {
    if j > 0 {
      IdBeforeIsTransitive(id, rest[0].id, rest[j].id);
    }
  }

  lemma ValidTail(e: Entry, rest: seq<Entry>, entries: seq<Entry>)
    requires entries == [e] + rest && ValidStream(entries)
    ensures IsId(e.id) && e.fields != map[] && ValidAfter(rest, Some(e.id))
  {
    assert entries[0] == e;
    forall i | 0 <= i < |rest| ensures rest[i] == entries[i + 1] {}
  }

  lemma {:induction false} StreamsAreAll(chunks: seq<Bytes>, after: Option<Bytes>, entries: seq<Entry>)
    ensures entries in Streams(chunks, after) <==> ValidAfter(entries, after) && All(BLOCK, entries) == chunks
    decreases |chunks|
  {
    if chunks == [] {
      BlocksAreNotEmpty(entries);
    } else {
      if entries in Streams(chunks, after) {
        ListedIsValid(chunks, after, entries);
      }
      if ValidAfter(entries, after) && All(BLOCK, entries) == chunks {
        ValidIsListed(chunks, after, entries);
      }
    }
  }

  lemma BlocksAreNotEmpty(entries: seq<Entry>)
    ensures All(BLOCK, entries) == [] <==> entries == []
  {
    NotShorter(BLOCK, entries);
  }

  lemma ListedIsCut(chunks: seq<Bytes>, after: Option<Bytes>, entries: seq<Entry>)
    returns (head: seq<Bytes>, tail: seq<Bytes>, rest: seq<Entry>)
    requires chunks != [] && entries in Streams(chunks, after)
    ensures chunks == head + tail && IsBlock(head) && Follows(after, head[0])
    ensures rest in Streams(tail, Some(head[0])) && entries == [EntryOf(head)] + rest
  {
    var n: nat, r :| 3 <= n <= |chunks| && CutsAt(chunks, n, after) && r in Streams(chunks[n..], Some(chunks[0]))
                     && entries == [EntryOf(chunks[..n])] + r;
    head, tail, rest := chunks[..n], chunks[n..], r;
  }

  lemma ListedIsValid(chunks: seq<Bytes>, after: Option<Bytes>, entries: seq<Entry>)
    requires chunks != [] && entries in Streams(chunks, after)
    ensures ValidAfter(entries, after) && All(BLOCK, entries) == chunks
    decreases |chunks|, 0
  {
    var head, tail, rest := ListedIsCut(chunks, after, entries);
    StreamsAreAll(tail, Some(head[0]), rest);
    BlockInFront(head, tail, rest, entries);
  }

  lemma BlockInFront(head: seq<Bytes>, tail: seq<Bytes>, rest: seq<Entry>, entries: seq<Entry>)
    requires IsBlock(head) && entries == [EntryOf(head)] + rest
    requires ValidAfter(rest, Some(head[0])) && All(BLOCK, rest) == tail
    ensures ValidStream(entries) && All(BLOCK, entries) == head + tail
  {
    var e := EntryOf(head);
    BlockOfEntry(head);
    ValidCons(e, rest, entries);
    AllOfHead(BLOCK, e, rest, entries);
  }

  lemma ValidIsListed(chunks: seq<Bytes>, after: Option<Bytes>, entries: seq<Entry>)
    requires chunks != [] && ValidAfter(entries, after) && All(BLOCK, entries) == chunks
    ensures entries in Streams(chunks, after)
    decreases |chunks|, 0
  {
    BlocksAreNotEmpty(entries);
    var e, rest := entries[0], entries[1..];
    assert entries == [e] + rest;
    ValidTail(e, rest, entries);
    EntryOfBlock(e);
    AllOfHead(BLOCK, e, rest, entries);
    var n := |Block(e)|;
    assert chunks[..n] == Block(e) && chunks[n..] == All(BLOCK, rest);
    StreamsAreAll(chunks[n..], Some(chunks[0]), rest);
    assert CutsAt(chunks, n, after);
  }

  /** The streams a client can have read that feed the same bytes as `a`: finitely many, and listed by the decoder. */
  lemma SameBytesAreListed(a: seq<Entry>, b: seq<Entry>)
    ensures b in Streams(EntryChunks(a), None) <==> ValidStream(b) && Encoding(Stream(b)) == Encoding(Stream(a))
  {
    StreamsAreAll(EntryChunks(a), None, b);
    LaidOut(a);
    SameBytesIff(a, b);
  }

  /** A stream shares its bytes with another exactly if the list decoder finds more than one. */
  lemma TwinIff(a: seq<Entry>)
    requires ValidStream(a)
    ensures HasTwin(a) <==> |Streams(EntryChunks(a), None)| > 1
  {
    var all := Streams(EntryChunks(a), None);
    SameBytesAreListed(a, a);
    if HasTwin(a) {
      var b :| IsTwin(a, b);
      SameBytesAreListed(a, b);
      TwoElements(all, a, b);
    }
    if |all| > 1 {
      var b := AnotherElement(all, a);
      SameBytesAreListed(a, b);
      assert IsTwin(a, b);
    }
  }

  lemma TwoElements<T>(s: set<T>, x: T, y: T)
    requires x in s && y in s && x != y
    ensures |s| > 1
  {
    assert s == (s - {x, y}) + {x, y};
  }

  lemma AnotherElement<T>(s: set<T>, x: T) returns (y: T)
    requires x in s && |s| > 1
    ensures y in s && y != x
  {
    assert s - {x} == {} ==> s == {x};
    y :| y in s - {x};
  }
}
