/** What `_digest_value` feeds to the hasher for each Redis type, a decoder for it, and where decoding is impossible. */
module SnapshotDigest {
  import opened Options
  import opened Chunks
  import opened Pairs
  import opened SortedBytes
  import opened StreamIds

  datatype Entry = Entry(id: Bytes, fields: map<Bytes, Bytes>)

  /** A value as the client returns it. A sorted set lists members with the text of `float(score).hex()`. */
  datatype Value =
    | Text(bytes: Bytes)
    | Items(items: seq<Bytes>)
    | Members(members: set<Bytes>)
    | Scored(scored: seq<Pair<Bytes>>)
    | Hash(fields: map<Bytes, Bytes>)
    | Stream(entries: seq<Entry>)

  datatype Kind = TextKind | ItemsKind | MembersKind | ScoredKind | HashKind | StreamKind

  function KindOf(v: Value): Kind {
    match v
    case Text(_) => TextKind
    case Items(_) => ItemsKind
    case Members(_) => MembersKind
    case Scored(_) => ScoredKind
    case Hash(_) => HashKind
    case Stream(_) => StreamKind
  }

  /** The type name in ASCII. */
  function Tag(kind: Kind): Bytes {
    match kind
    case TextKind => [115, 116, 114, 105, 110, 103]
    case ItemsKind => [108, 105, 115, 116]
    case MembersKind => [115, 101, 116]
    case ScoredKind => [122, 115, 101, 116]
    case HashKind => [104, 97, 115, 104]
    case StreamKind => [115, 116, 114, 101, 97, 109]
  }

  /** `sorted(fields.items())`: the field names are distinct, so they alone decide the order. */
  ghost function SortedPairs(fields: map<Bytes, Bytes>): seq<Pair<Bytes>> {
    SortedIsSorted(fields.Keys);
    assert forall k :: k in Sorted(fields.Keys) ==> k in Elements(Sorted(fields.Keys));
    PairsOf(Sorted(fields.Keys), fields)
  }

  ghost function EntryChunks(entries: seq<Entry>): seq<Bytes> {
    if entries == [] then []
    else
      var last := entries[|entries| - 1];
      EntryChunks(entries[..|entries| - 1]) + ([last.id] + Flat(SortedPairs(last.fields)))
  }

  ghost function Payload(v: Value): seq<Bytes> {
    match v
    case Text(b) => [b]
    case Items(items) => items
    case Members(members) => Sorted(members)
    case Scored(scored) => Flat(scored)
    case Hash(fields) => Flat(SortedPairs(fields))
    case Stream(entries) => EntryChunks(entries)
  }

  /** All bytes the hasher is fed for a value. */
  ghost function Encoding(v: Value): seq<byte> {
    ChunksOf([Tag(KindOf(v))] + Payload(v))
  }

  // ---------- The writers ----------

  class Hasher {
    var fed: seq<byte>

    constructor ()
      ensures fed == []
    {
      fed := [];
    }

    method Update(data: seq<byte>)
      modifies this
      ensures fed == old(fed) + data
    {
      fed := fed + data;
    }
  }

  method WriteBytes(hasher: Hasher, value: Bytes)
    modifies hasher
    ensures hasher.fed == old(hasher.fed) + ChunksOf([value])
  {
    hasher.Update(BigEndian(|value|, 8));
    hasher.Update(value);
    assert ChunksOf([value]) == Chunk(value) + [];
  }

  method WriteSequence(hasher: Hasher, values: seq<Bytes>)
    modifies hasher
    ensures hasher.fed == old(hasher.fed) + ChunksOf(values)
  {
    for i := 0 to |values|
      invariant hasher.fed == old(hasher.fed) + ChunksOf(values[..i])
    {
      WriteBytes(hasher, values[i]);
      assert values[..i + 1] == values[..i] + [values[i]];
      ChunksAppend(values[..i], [values[i]]);
    }
    assert values[..|values|] == values;
  }

  method WritePairs(hasher: Hasher, pairs: seq<Pair<Bytes>>)
    modifies hasher
    ensures hasher.fed == old(hasher.fed) + ChunksOf(Flat(pairs))
  {
    ghost var start := hasher.fed;
    for i := 0 to |pairs|
      invariant hasher.fed == start + ChunksOf(Flat(pairs[..i]))
    {
      WriteBytes(hasher, pairs[i].key);
      WriteBytes(hasher, pairs[i].value);
      PairStep(pairs, i);
      Regroup(start, ChunksOf(Flat(pairs[..i])), ChunksOf([pairs[i].key]), ChunksOf([pairs[i].value]));
    }
    assert pairs[..|pairs|] == pairs;
  }

  lemma PairStep(pairs: seq<Pair<Bytes>>, i: nat)
    requires i < |pairs|
    ensures ChunksOf(Flat(pairs[..i + 1]))
            == ChunksOf(Flat(pairs[..i])) + ChunksOf([pairs[i].key]) + ChunksOf([pairs[i].value])
  {
    FlatMore(pairs[..i], pairs[i]);
    assert pairs[..i + 1] == pairs[..i] + [pairs[i]];
    TwoChunks(Flat(pairs[..i]), pairs[i].key, pairs[i].value);
  }

  lemma TwoChunks(before: seq<Bytes>, a: Bytes, b: Bytes)
    ensures ChunksOf(before + [a, b]) == ChunksOf(before) + ChunksOf([a]) + ChunksOf([b])
  {
    assert before + [a, b] == (before + [a]) + [b];
    ChunksAppend(before + [a], [b]);
    ChunksAppend(before, [a]);
  }

  method SortItems(fields: map<Bytes, Bytes>) returns (pairs: seq<Pair<Bytes>>)
    ensures pairs == SortedPairs(fields)
  {
    var keys := Sort(fields.Keys);
    pairs := [];
    for i := 0 to |keys|
      invariant pairs == PairsOf(keys[..i], fields)
    {
      pairs := pairs + [Pair(keys[i], fields[keys[i]])];
      PairsOfStep(keys, i, fields);
    }
    assert keys[..|keys|] == keys;
  }

  lemma PairsOfStep(keys: seq<Bytes>, i: nat, fields: map<Bytes, Bytes>)
    requires i < |keys| && forall k :: k in keys ==> k in fields
    ensures PairsOf(keys[..i + 1], fields) == PairsOf(keys[..i], fields) + [Pair(keys[i], fields[keys[i]])]
  {
    PairsMore(keys[..i], keys[i], fields);
    assert keys[..i + 1] == keys[..i] + [keys[i]];
  }

  method DigestHash(hasher: Hasher, fields: map<Bytes, Bytes>)
    modifies hasher
    ensures hasher.fed == old(hasher.fed) + ChunksOf(Flat(SortedPairs(fields)))
  {
    var pairs := SortItems(fields);
    WritePairs(hasher, pairs);
  }

  /** What the first `n` entries feed. */
  ghost function FedBy(entries: seq<Entry>, n: nat): seq<byte>
    requires n <= |entries|
  {
    ChunksOf(EntryChunks(entries[..n]))
  }

  method DigestStream(hasher: Hasher, entries: seq<Entry>)
    modifies hasher
    ensures hasher.fed == old(hasher.fed) + ChunksOf(EntryChunks(entries))
  {
    ghost var start := hasher.fed;
    for i := 0 to |entries|
      invariant hasher.fed == start + FedBy(entries, i)
    {
      WriteEntry(hasher, entries[i]);
      EntryStep(entries, i);
      Regroup(start, FedBy(entries, i), ChunksOf([entries[i].id]), ChunksOf(Flat(SortedPairs(entries[i].fields))));
    }
    assert entries[..|entries|] == entries;
  }

  method WriteEntry(hasher: Hasher, entry: Entry)
    modifies hasher
    ensures hasher.fed == old(hasher.fed) + ChunksOf([entry.id]) + ChunksOf(Flat(SortedPairs(entry.fields)))
  {
    WriteBytes(hasher, entry.id);
    DigestHash(hasher, entry.fields);
  }

  lemma Regroup(a: seq<byte>, b: seq<byte>, c: seq<byte>, d: seq<byte>)
    ensures (a + b) + c + d == a + (b + c + d)
  {
  }

  lemma EntryStep(entries: seq<Entry>, i: nat)
    requires i < |entries|
    ensures FedBy(entries, i + 1)
            == FedBy(entries, i) + ChunksOf([entries[i].id]) + ChunksOf(Flat(SortedPairs(entries[i].fields)))
  {
    var before, id, rest := EntryChunks(entries[..i]), [entries[i].id], Flat(SortedPairs(entries[i].fields));
    assert entries[..i + 1][..i] == entries[..i];
    ChunksAppend(before, id + rest);
    ChunksAppend(id, rest);
  }

  method WriteValue(hasher: Hasher, v: Value)
    modifies hasher
    ensures hasher.fed == old(hasher.fed) + ChunksOf(Payload(v))
  {
    match v {
      case Text(b) => WriteBytes(hasher, b);
      case Items(items) => WriteSequence(hasher, items);
      case Members(members) =>
        var sorted := Sort(members);
        WriteSequence(hasher, sorted);
      case Scored(scored) => WritePairs(hasher, scored);
      case Hash(fields) => DigestHash(hasher, fields);
      case Stream(entries) => DigestStream(hasher, entries);
    }
  }

  /** `_digest_value` up to the hash itself. */
  method DigestValue(v: Value) returns (fed: seq<byte>)
    ensures fed == Encoding(v)
  {
    var hasher := new Hasher();
    var tag := Tag(KindOf(v));
    WriteBytes(hasher, tag);
    WriteValue(hasher, v);
    fed := hasher.fed;
    FromNothing(fed, ChunksOf([tag]), ChunksOf(Payload(v)));
    TagThenPayload(v);
  }

  lemma FromNothing(all: seq<byte>, a: seq<byte>, b: seq<byte>)
    requires all == [] + a + b
    ensures all == a + b
  {
  }

  lemma TagThenPayload(v: Value)
    ensures Encoding(v) == ChunksOf([Tag(KindOf(v))]) + ChunksOf(Payload(v))
  {
    ChunksAppend([Tag(KindOf(v))], Payload(v));
  }

  // ---------- The decoder ----------

  function ReadTag(tag: Bytes): Option<Kind> {
    if tag == Tag(TextKind) then Some(TextKind)
    else if tag == Tag(ItemsKind) then Some(ItemsKind)
    else if tag == Tag(MembersKind) then Some(MembersKind)
    else if tag == Tag(ScoredKind) then Some(ScoredKind)
    else if tag == Tag(HashKind) then Some(HashKind)
    else if tag == Tag(StreamKind) then Some(StreamKind)
    else None
  }

  lemma TagIsRead(kind: Kind)
    ensures ReadTag(Tag(kind)) == Some(kind)
  {
    match kind {
      case TextKind =>
      case ItemsKind =>
      case MembersKind => assert |Tag(MembersKind)| == 3;
      case ScoredKind => assert Tag(ScoredKind)[0] == 122 && Tag(ItemsKind)[0] == 108;
      case HashKind => assert Tag(HashKind)[0] == 104 && Tag(ItemsKind)[0] == 108 && Tag(ScoredKind)[0] == 122;
      case StreamKind => assert Tag(StreamKind)[3] == 101 && Tag(TextKind)[3] == 105;
    }
  }

  function ReadValue(kind: Kind, chunks: seq<Bytes>): Option<Value> {
    match kind
    case TextKind => if |chunks| == 1 then Some(Text(chunks[0])) else None
    case ItemsKind => Some(Items(chunks))
    case MembersKind => Some(Members(set x | x in chunks))
    case ScoredKind => var pairs := ReadPairs(chunks); if pairs.None? then None else Some(Scored(pairs.value))
    case HashKind => var pairs := ReadPairs(chunks); if pairs.None? then None else Some(Hash(MapOf(pairs.value)))
    case StreamKind => None
  }

  /** Reads tag and value back. A stream is not read: see below. */
  function Decode(fed: seq<byte>): Option<Value> {
    var read := ReadChunks(fed);
    if read.None? || read.value == [] then None
    else
      var kind := ReadTag(read.value[0]);
      if kind.None? then None else ReadValue(kind.value, read.value[1..])
  }

  lemma HashIsRead(fields: map<Bytes, Bytes>)
    ensures MapOf(SortedPairs(fields)) == fields
  {
    var keys := Sorted(fields.Keys);
    SortedIsSorted(fields.Keys);
    assert forall k :: k in keys <==> k in Elements(keys);
    MapOfPairs(keys, fields);
    assert (map k | k in keys :: fields[k]) == fields;
  }

  lemma ValueIsRead(v: Value)
    requires !v.Stream?
    ensures ReadValue(KindOf(v), Payload(v)) == Some(v)
  {
    match v {
      case Text(_) =>
      case Items(_) =>
      case Members(members) =>
        SortedIsSorted(members);
        assert (set x | x in Sorted(members)) == Elements(Sorted(members));
      case Scored(scored) => ReadInvertsFlat(scored);
      case Hash(fields) =>
        ReadInvertsFlat(SortedPairs(fields));
        HashIsRead(fields);
    }
  }

  lemma EncodingIsRead(v: Value)
    ensures ReadChunks(Encoding(v)).Some?
    ensures var chunks := ReadChunks(Encoding(v)).value;
            chunks != [] && ReadTag(chunks[0]) == Some(KindOf(v)) && chunks[1..] == Payload(v)
  {
    var chunks := [Tag(KindOf(v))] + Payload(v);
    ChunksAreRead(chunks);
    TagIsRead(KindOf(v));
    assert chunks[0] == Tag(KindOf(v)) && chunks[1..] == Payload(v);
  }

  /** The fed bytes of a string, list, set, sorted set or hash determine its type and its contents. */
  lemma DecodeInvertsEncoding(v: Value)
    requires !v.Stream?
    ensures Decode(Encoding(v)) == Some(v)
  {
    EncodingIsRead(v);
    ValueIsRead(v);
  }

  /** Equal bytes mean equal values, also against a stream: the tag keeps streams apart from everything else. */
  lemma EncodingIdentifies(v: Value, w: Value)
    requires !v.Stream? && Encoding(v) == Encoding(w)
    ensures v == w
  {
    EncodingIsRead(v);
    EncodingIsRead(w);
    DecodeInvertsEncoding(v);
    DecodeInvertsEncoding(w);
  }

  // ---------- Streams ----------

  /** What Redis can hold: every entry has an id above the one before, and a field. */
  predicate ValidStream(entries: seq<Entry>) {
    && (forall i :: 0 <= i < |entries| ==> IsId(entries[i].id) && entries[i].fields != map[])
    && (forall i, j :: 0 <= i < j < |entries| ==> IdBefore(entries[i].id, entries[j].id))
  }

  function FieldCounts(entries: seq<Entry>): seq<nat> {
    seq(|entries|, i requires 0 <= i < |entries| => |entries[i].fields|)
  }

  lemma SortedPairsCount(fields: map<Bytes, Bytes>)
    ensures |SortedPairs(fields)| == |fields|
  {
    SortedIsSorted(fields.Keys);
    AscendingCounts(Sorted(fields.Keys));
    assert |fields.Keys| == |fields|;
  }

  lemma LastChunks(entries: seq<Entry>)
    requires entries != []
    ensures var n, last, chunks := |entries| - 1, entries[|entries| - 1], EntryChunks(entries);
            var width := 1 + 2 * |last.fields|;
            && width <= |chunks|
            && chunks[..|chunks| - width] == EntryChunks(entries[..n])
            && chunks[|chunks| - width] == last.id
            && chunks[|chunks| - width + 1..] == Flat(SortedPairs(last.fields))
  {
    var last := entries[|entries| - 1];
    var rest := Flat(SortedPairs(last.fields));
    SortedPairsCount(last.fields);
    FlatCount(SortedPairs(last.fields));
    CutTail(EntryChunks(entries), EntryChunks(entries[..|entries| - 1]), last.id, rest);
  }

  lemma CutTail(all: seq<Bytes>, before: seq<Bytes>, id: Bytes, rest: seq<Bytes>)
    requires all == before + ([id] + rest)
    ensures var at := |all| - 1 - |rest|;
            at >= 0 && all[..at] == before && all[at] == id && all[at + 1..] == rest
  {
  }

  lemma SameFields(m: map<Bytes, Bytes>, n: map<Bytes, Bytes>)
    requires Flat(SortedPairs(m)) == Flat(SortedPairs(n))
    ensures m == n
  {
    ReadInvertsFlat(SortedPairs(m));
    ReadInvertsFlat(SortedPairs(n));
    HashIsRead(m);
    HashIsRead(n);
  }

  lemma LastEntrySame(a: seq<Entry>, b: seq<Entry>)
    requires a != [] && b != [] && EntryChunks(a) == EntryChunks(b)
    requires |a[|a| - 1].fields| == |b[|b| - 1].fields|
    ensures a[|a| - 1] == b[|b| - 1] && EntryChunks(a[..|a| - 1]) == EntryChunks(b[..|b| - 1])
  {
    LastChunks(a);
    LastChunks(b);
    SameFields(a[|a| - 1].fields, b[|b| - 1].fields);
  }

  lemma CountsOfPrefix(a: seq<Entry>, b: seq<Entry>)
    requires a != [] && FieldCounts(a) == FieldCounts(b)
    ensures |b| == |a| && |a[|a| - 1].fields| == |b[|a| - 1].fields|
    ensures FieldCounts(a[..|a| - 1]) == FieldCounts(b[..|a| - 1])
  {
    var n := |a| - 1;
    assert |FieldCounts(b)| == |a|;
    assert |a[n].fields| == FieldCounts(a)[n] == FieldCounts(b)[n] == |b[n].fields|;
    assert FieldCounts(a[..n]) == FieldCounts(a)[..n] && FieldCounts(b[..n]) == FieldCounts(b)[..n];
  }

  /**
   * No field count is written: two streams with the same bytes are equal exactly when their entries have equal field
   * counts.
   */
  lemma {:induction false} StreamsEqualIff(a: seq<Entry>, b: seq<Entry>)
    requires EntryChunks(a) == EntryChunks(b)
    ensures a == b <==> FieldCounts(a) == FieldCounts(b)
  {
    if FieldCounts(a) == FieldCounts(b) {
      if a == [] {
        assert |FieldCounts(b)| == 0;
      } else {
        CountsOfPrefix(a, b);
        LastEntrySame(a, b);
        StreamsEqualIff(a[..|a| - 1], b[..|a| - 1]);
        assert a == a[..|a| - 1] + [a[|a| - 1]] && b == b[..|a| - 1] + [b[|a| - 1]];
      }
    }
  }

  lemma StreamEncodingsEqualIff(a: seq<Entry>, b: seq<Entry>)
    ensures Encoding(Stream(a)) == Encoding(Stream(b)) <==> EntryChunks(a) == EntryChunks(b)
  {
    EncodingIsRead(Stream(a));
    EncodingIsRead(Stream(b));
  }

  lemma SortedIs(fields: map<Bytes, Bytes>, keys: seq<Bytes>)
    requires Ascending(keys) && Elements(keys) == fields.Keys
    ensures forall k :: k in keys ==> k in fields
    ensures SortedPairs(fields) == PairsOf(keys, fields)
  {
    assert forall k :: k in keys ==> k in Elements(keys);
    SortedIsSorted(fields.Keys);
    AscendingIsUnique(keys, Sorted(fields.Keys));
  }

  lemma OneField(f: Bytes, v: Bytes)
    ensures Flat(SortedPairs(map[f := v])) == [f, v]
  {
    var fields := map[f := v];
    assert Elements([f]) == fields.Keys;
    SortedIs(fields, [f]);
    FlatPairsMore([], f, fields);
    assert [] + [f] == [f];
  }

  lemma FourAscending(a: Bytes, b: Bytes, c: Bytes, d: Bytes)
    requires Less(a, b) && Less(b, c) && Less(c, d)
    ensures Ascending([a, b, c, d]) && Elements([a, b, c, d]) == {a, b, c, d}
  {
    LessIsTransitive(a, b, c);
    LessIsTransitive(b, c, d);
    LessIsTransitive(a, b, d);
  }

  lemma FourFields(a: Bytes, b: Bytes, c: Bytes, d: Bytes, fields: map<Bytes, Bytes>)
    requires Less(a, b) && Less(b, c) && Less(c, d) && fields.Keys == {a, b, c, d}
    ensures Flat(SortedPairs(fields)) == [a, fields[a], b, fields[b]] + [c, fields[c]] + [d, fields[d]]
  {
    FourAscending(a, b, c, d);
    SortedIs(fields, [a, b, c, d]);
    FourPairs(a, b, c, d, fields);
  }

  lemma EntriesGrow(entries: seq<Entry>, e: Entry)
    ensures EntryChunks(entries + [e]) == EntryChunks(entries) + ([e.id] + Flat(SortedPairs(e.fields)))
  {
    assert (entries + [e])[..|entries|] == entries;
  }

  function Three(id1: Bytes, f1: Bytes, v1: Bytes, id2: Bytes, f2: Bytes, v2: Bytes, id3: Bytes, f3: Bytes, v3: Bytes)
    : (three: seq<Entry>)
    ensures |three| == 3 && three[0].id == id1 && three[1].id == id2 && three[2].id == id3
    ensures three[0].fields != map[] && three[1].fields != map[] && three[2].fields != map[]
  {
    assert f1 in map[f1 := v1] && f2 in map[f2 := v2] && f3 in map[f3 := v3];
    [Entry(id1, map[f1 := v1]), Entry(id2, map[f2 := v2]), Entry(id3, map[f3 := v3])]
  }

  function One(id1: Bytes, f1: Bytes, v1: Bytes, id2: Bytes, f2: Bytes, v2: Bytes, id3: Bytes, f3: Bytes, v3: Bytes)
    : (one: seq<Entry>)
    ensures |one| == 1 && one[0].id == id1 && one[0].fields != map[]
  {
    assert f3 in map[f1 := v1, id2 := f2, v2 := id3, f3 := v3];
    [Entry(id1, map[f1 := v1, id2 := f2, v2 := id3, f3 := v3])]
  }

  /**
   * Streams are not uniquely decodable. Three entries of one field each feed the same bytes as one entry of four fields
   * whose names are, in order, the first field, the second id, the second value and the third field.
   */
  lemma StreamsCollide(id1: Bytes, f1: Bytes, v1: Bytes, id2: Bytes, f2: Bytes, v2: Bytes,
                       id3: Bytes, f3: Bytes, v3: Bytes)
    requires Less(f1, id2) && Less(id2, v2) && Less(v2, f3)
    requires IdBefore(id1, id2) && IdBefore(id2, id3)
    ensures var three := Three(id1, f1, v1, id2, f2, v2, id3, f3, v3);
            var one := One(id1, f1, v1, id2, f2, v2, id3, f3, v3);
            && ValidStream(three) && ValidStream(one)
            && three != one && Encoding(Stream(three)) == Encoding(Stream(one))
  {
    ThreeSpelled(id1, f1, v1, id2, f2, v2, id3, f3, v3);
    OneSpelled(id1, f1, v1, id2, f2, v2, id3, f3, v3);
    ThreeAgainstOne(Three(id1, f1, v1, id2, f2, v2, id3, f3, v3), One(id1, f1, v1, id2, f2, v2, id3, f3, v3));
  }

  lemma ThreeAgainstOne(three: seq<Entry>, one: seq<Entry>)
    requires |three| == 3 && three[0].fields != map[] && three[1].fields != map[] && three[2].fields != map[]
    requires IdBefore(three[0].id, three[1].id) && IdBefore(three[1].id, three[2].id)
    requires |one| == 1 && one[0].id == three[0].id && one[0].fields != map[]
    requires EntryChunks(three) == EntryChunks(one)
    ensures ValidStream(three) && ValidStream(one) && three != one
    ensures Encoding(Stream(three)) == Encoding(Stream(one))
  {
    StreamEncodingsEqualIff(three, one);
    ThreeAreValid(three);
    OneIsValid(one);
  }

  lemma ThreeSpelled(id1: Bytes, f1: Bytes, v1: Bytes, id2: Bytes, f2: Bytes, v2: Bytes,
                     id3: Bytes, f3: Bytes, v3: Bytes)
    ensures EntryChunks(Three(id1, f1, v1, id2, f2, v2, id3, f3, v3)) == [id1, f1, v1] + [id2, f2, v2] + [id3, f3, v3]
  {
    ThreeEntries(Entry(id1, map[f1 := v1]), Entry(id2, map[f2 := v2]), Entry(id3, map[f3 := v3]),
                 f1, v1, f2, v2, f3, v3);
  }

  lemma OneSpelled(id1: Bytes, f1: Bytes, v1: Bytes, id2: Bytes, f2: Bytes, v2: Bytes,
                   id3: Bytes, f3: Bytes, v3: Bytes)
    requires Less(f1, id2) && Less(id2, v2) && Less(v2, f3)
    ensures EntryChunks(One(id1, f1, v1, id2, f2, v2, id3, f3, v3)) == [id1, f1, v1] + [id2, f2, v2] + [id3, f3, v3]
  {
    FourEntriesOfAMap(f1, v1, id2, f2, v2, id3, f3, v3);
    EntryOfFour(Entry(id1, map[f1 := v1, id2 := f2, v2 := id3, f3 := v3]), f1, v1, id2, f2, v2, id3, f3, v3);
  }

  lemma ThreeAreValid(entries: seq<Entry>)
    requires |entries| == 3
    requires entries[0].fields != map[] && entries[1].fields != map[] && entries[2].fields != map[]
    requires IdBefore(entries[0].id, entries[1].id) && IdBefore(entries[1].id, entries[2].id)
    ensures ValidStream(entries)
  {
    IdBeforeIsTransitive(entries[0].id, entries[1].id, entries[2].id);
  }

  lemma OneIsValid(entries: seq<Entry>)
    requires |entries| == 1 && IsId(entries[0].id) && entries[0].fields != map[]
    ensures ValidStream(entries)
  {
  }

  lemma SingleEntry(e: Entry)
    ensures EntryChunks([e]) == [e.id] + Flat(SortedPairs(e.fields))
  {
    assert [] + [e] == [e];
    EntriesGrow([], e);
  }

  lemma ThreeByThree<T>(a: T, b: T, c: T, d: T, e: T, f: T, g: T, h: T, i: T)
    ensures [a] + ([b, c, d, e] + [f, g] + [h, i]) == [a, b, c] + [d, e, f] + [g, h, i]
  {
  }

  lemma EntryOfFour(e: Entry, f1: Bytes, v1: Bytes, id2: Bytes, f2: Bytes, v2: Bytes, id3: Bytes, f3: Bytes, v3: Bytes)
    requires Less(f1, id2) && Less(id2, v2) && Less(v2, f3) && e.fields.Keys == {f1, id2, v2, f3}
    requires e.fields[f1] == v1 && e.fields[id2] == f2 && e.fields[v2] == id3 && e.fields[f3] == v3
    ensures EntryChunks([e]) == [e.id, f1, v1] + [id2, f2, v2] + [id3, f3, v3]
  {
    SingleEntry(e);
    FourFields(f1, id2, v2, f3, e.fields);
    ThreeByThree(e.id, f1, v1, id2, f2, v2, id3, f3, v3);
  }

  lemma FourEntriesOfAMap(a: Bytes, w: Bytes, b: Bytes, x: Bytes, c: Bytes, y: Bytes, d: Bytes, z: Bytes)
    requires Less(a, b) && Less(b, c) && Less(c, d)
    ensures var m := map[a := w, b := x, c := y, d := z];
            m.Keys == {a, b, c, d} && m[a] == w && m[b] == x && m[c] == y && m[d] == z
  {
    FourDiffer(a, b, c, d);
  }

  lemma FourDiffer(a: Bytes, b: Bytes, c: Bytes, d: Bytes)
    requires Less(a, b) && Less(b, c) && Less(c, d)
    ensures a != b && a != c && a != d && b != c && b != d && c != d
  {
    LessIsTransitive(a, b, c);
    LessIsTransitive(b, c, d);
    LessIsTransitive(a, b, d);
    NotLessThanItself(a);
    NotLessThanItself(b);
    NotLessThanItself(c);
  }

  lemma EntryOfOne(entries: seq<Entry>, e: Entry, f: Bytes, v: Bytes)
    requires e.fields == map[f := v]
    ensures EntryChunks(entries + [e]) == EntryChunks(entries) + [e.id, f, v]
  {
    var pair := [f, v];
    OneField(f, v);
    EntriesGrow(entries, e);
    assert [e.id] + pair == [e.id, f, v];
  }

  lemma ThreeEntries(e1: Entry, e2: Entry, e3: Entry, f1: Bytes, v1: Bytes, f2: Bytes, v2: Bytes, f3: Bytes, v3: Bytes)
    requires e1.fields == map[f1 := v1] && e2.fields == map[f2 := v2] && e3.fields == map[f3 := v3]
    ensures EntryChunks([e1, e2, e3]) == [e1.id, f1, v1] + [e2.id, f2, v2] + [e3.id, f3, v3]
  {
    var two, one: seq<Entry> := [e1, e2], [e1];
    assert [e1, e2, e3] == two + [e3] && two == one + [e2] && one == [] + [e1];
    EntryOfOne(two, e3, f3, v3);
    EntryOfOne(one, e2, f2, v2);
    EntryOfOne([], e1, f1, v1);
  }

  lemma SmallIdsAscend()
    ensures IdBefore([49, 45, 48], [50, 45, 48]) && IdBefore([50, 45, 48], [51, 45, 48])
  {
    SmallId(49);
    SmallId(50);
    SmallId(51);
  }

  /** For instance 1-0 {0: b}, 2-0 {c: 3}, 3-0 {4: f} against the single entry 1-0 {0: b, 2-0: c, 3: 3-0, 4: f}. */
  lemma ACollision() returns (a: seq<Entry>, b: seq<Entry>)
    ensures ValidStream(a) && ValidStream(b) && a != b && Encoding(Stream(a)) == Encoding(Stream(b))
  {
    var id1: Bytes, id2: Bytes, id3: Bytes := [49, 45, 48], [50, 45, 48], [51, 45, 48];
    var f1: Bytes, v1: Bytes, f2: Bytes, v2: Bytes, f3: Bytes, v3: Bytes := [48], [98], [99], [51], [52], [102];
    SmallIdsAscend();
    StreamsCollide(id1, f1, v1, id2, f2, v2, id3, f3, v3);
    a := Three(id1, f1, v1, id2, f2, v2, id3, f3, v3);
    b := One(id1, f1, v1, id2, f2, v2, id3, f3, v3);
  }
}
