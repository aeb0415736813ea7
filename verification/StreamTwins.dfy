/**
 * Streams whose fields never read as ids, which is the usual case: two of them never share their bytes, and one of them
 * has a twin exactly if three entries in a row can be read as one.
 */
module StreamTwins {
  import opened Options
  import opened Chunks
  import opened Layouts
  import opened Pairs
  import opened SortedBytes
  import opened StreamIds
  import opened SnapshotDigest
  import opened StreamRecuts

  predicate FieldsAreNoIds(e: Entry) {
    forall k :: k in e.fields ==> !IsId(k) && !IsId(e.fields[k])
  }

  /** No field name and no value of any entry reads as an id. */
  predicate IdFree(entries: seq<Entry>) {
    forall i :: 0 <= i < |entries| ==> FieldsAreNoIds(entries[i])
  }

  predicate HasIds(entries: seq<Entry>) {
    forall i :: 0 <= i < |entries| ==> IsId(entries[i].id)
  }

  const ID_MARK: Bytes -> bool := s => IsId(s)

  lemma {:induction false} NoMarkInPairs(mark: Bytes -> bool, pairs: seq<Pair<Bytes>>)
    requires forall i :: 0 <= i < |pairs| ==> !mark(pairs[i].key) && !mark(pairs[i].value)
    ensures forall k :: 0 <= k < |Flat(pairs)| ==> !mark(Flat(pairs)[k])
    decreases |pairs|
  {
    if pairs != [] {
      NoMarkInPairs(mark, pairs[..|pairs| - 1]);
    }
  }

  lemma PairsAreFields(e: Entry)
    ensures forall i :: 0 <= i < |SortedPairs(e.fields)| ==>
                          && SortedPairs(e.fields)[i].key in e.fields
                          && SortedPairs(e.fields)[i].value == e.fields[SortedPairs(e.fields)[i].key]
  {
    var keys := Sorted(e.fields.Keys);
    SortedIsSorted(e.fields.Keys);
    assert forall k :: k in keys ==> k in Elements(keys);
    PairsOfAt(keys, e.fields);
  }

  lemma NoMarkInside(e: Entry)
    requires FieldsAreNoIds(e)
    ensures NotInside(ID_MARK, Block(e))
  {
    PairsAreFields(e);
    NoMarkInPairs(ID_MARK, SortedPairs(e.fields));
  }

  lemma FirstMark(entries: seq<Entry>)
    requires entries != [] && HasIds(entries)
    ensures All(BLOCK, entries) != [] && ID_MARK(All(BLOCK, entries)[0])
  {
    AllOfHead(BLOCK, entries[0], entries[1..], entries);
    assert entries == [entries[0]] + entries[1..];
  }

  lemma MarkIfAny(entries: seq<Entry>)
    requires HasIds(entries)
    ensures All(BLOCK, entries) != [] ==> ID_MARK(All(BLOCK, entries)[0])
  {
    BlocksAreNotEmpty(entries);
    if entries != [] {
      FirstMark(entries);
    }
  }

  lemma SameBlock(e: Entry, f: Entry)
    requires Block(e) == Block(f)
    ensures e == f
  {
    assert Block(e)[0] == e.id && Block(f)[0] == f.id;
    assert Block(e)[1..] == Flat(SortedPairs(e.fields)) && Block(f)[1..] == Flat(SortedPairs(f.fields));
    SameFields(e.fields, f.fields);
  }

  lemma HeadAndRest(entries: seq<Entry>) returns (e: Entry, rest: seq<Entry>)
    requires entries != []
    ensures entries == [e] + rest && All(BLOCK, entries) == Block(e) + All(BLOCK, rest)
    ensures e == entries[0] && rest == entries[1..]
  {
    e, rest := entries[0], entries[1..];
    AllOfHead(BLOCK, e, rest, entries);
  }

  // ---------- Without ids in fields streams can be told apart ----------

  lemma {:induction false} IdFreeAreEqual(a: seq<Entry>, b: seq<Entry>)
    requires HasIds(a) && HasIds(b) && IdFree(a) && IdFree(b) && All(BLOCK, a) == All(BLOCK, b)
    ensures a == b
    decreases |a|
  {
    BlocksAreNotEmpty(a);
    BlocksAreNotEmpty(b);
    if a != [] {
      var x, r := HeadAndRest(a);
      var f, g := HeadAndRest(b);
      HeadsAreEqual(x, r, f, g);
      IdFreeAreEqual(r, g);
    }
  }

  lemma HeadsAreEqual(x: Entry, r: seq<Entry>, f: Entry, g: seq<Entry>)
    requires HasIds(r) && HasIds(g) && FieldsAreNoIds(x) && FieldsAreNoIds(f)
    requires Block(x) + All(BLOCK, r) == Block(f) + All(BLOCK, g)
    ensures x == f && All(BLOCK, r) == All(BLOCK, g)
  {
    NoMarkInside(x);
    NoMarkInside(f);
    MarkIfAny(r);
    MarkIfAny(g);
    NoShorterHead(ID_MARK, Block(x), All(BLOCK, r), Block(f), All(BLOCK, g));
    NoShorterHead(ID_MARK, Block(f), All(BLOCK, g), Block(x), All(BLOCK, r));
    SameHead(Block(x), All(BLOCK, r), Block(f), All(BLOCK, g));
    SameBlock(x, f);
  }

  /** Streams in which only ids read as ids are told apart by their bytes. */
  lemma IdFreeStreamsAreUnique(a: seq<Entry>, b: seq<Entry>)
    requires HasIds(a) && HasIds(b) && IdFree(a) && IdFree(b)
    ensures Encoding(Stream(a)) == Encoding(Stream(b)) <==> a == b
  {
    SameBytesIff(a, b);
    if All(BLOCK, a) == All(BLOCK, b) {
      IdFreeAreEqual(a, b);
    }
  }

  // ---------- Three entries read as one ----------

  ghost function Names(e: Entry): seq<Bytes> {
    KeysOf(SortedPairs(e.fields))
  }

  ghost function Values(e: Entry): seq<Bytes> {
    ValuesOf(SortedPairs(e.fields))
  }

  /** The field names of the entry that the three are read as: of the middle one, id and values become names. */
  ghost predicate Mergeable(x: Entry, y: Entry, z: Entry) {
    Ascending(Names(x) + ([y.id] + Values(y)) + Names(z))
  }

  ghost predicate MergeableAt(entries: seq<Entry>, i: nat) {
    i + 2 < |entries| && Mergeable(entries[i], entries[i + 1], entries[i + 2])
  }

  ghost predicate Merges(entries: seq<Entry>) {
    exists i: nat :: MergeableAt(entries, i)
  }

  ghost function ThreeBlocks(x: Entry, y: Entry, z: Entry): seq<Bytes> {
    Block(x) + Block(y) + Block(z)
  }

  lemma MergeableIff(x: Entry, y: Entry, z: Entry)
    ensures Mergeable(x, y, z) <==> Ascending(Odds(ThreeBlocks(x, y, z)))
    ensures |ThreeBlocks(x, y, z)| % 2 == 1
  {
    SecondElements(x);
    SecondElements(y);
    SecondElements(z);
    OddsOfThree(Block(x), Block(y), Block(z));
  }

  lemma Merged(x: Entry, y: Entry, z: Entry) returns (m: Entry)
    requires Mergeable(x, y, z) && IsId(x.id)
    ensures Block(m) == ThreeBlocks(x, y, z) && m.id == x.id && m.fields != map[]
  {
    var wide := ThreeBlocks(x, y, z);
    MergeableIff(x, y, z);
    assert wide[0] == x.id;
    m := EntryOf(wide);
    BlockOfEntry(wide);
  }

  lemma MergedIsValid(pre: seq<Entry>, run: seq<Entry>, post: seq<Entry>, m: Entry, a: seq<Entry>, b: seq<Entry>)
    requires a == pre + (run + post) && b == pre + ([m] + post) && |run| == 3
    requires ValidStream(a) && m.id == run[0].id && m.fields != map[]
    ensures ValidStream(b) && b != a
  {
    forall k | 0 <= k < |b|
      ensures b[k].id == a[At(k, |pre|)].id && b[k].fields != map[]
    {
    }
  }

  function At(k: nat, n: nat): nat {
    if k <= n then k else k + 2
  }

  lemma MergeAt(a: seq<Entry>, i: nat) returns (pre: seq<Entry>, run: seq<Entry>, post: seq<Entry>)
    requires i + 2 < |a|
    ensures a == pre + (run + post) && run == [a[i], a[i + 1], a[i + 2]]
  {
    pre, run, post := a[..i], [a[i], a[i + 1], a[i + 2]], a[i + 3..];
  }

  lemma SameChunks(pre: seq<Entry>, run: seq<Entry>, post: seq<Entry>, m: Entry, a: seq<Entry>, b: seq<Entry>)
    requires a == pre + (run + post) && b == pre + ([m] + post) && |run| == 3
    requires Block(m) == ThreeBlocks(run[0], run[1], run[2])
    ensures All(BLOCK, a) == All(BLOCK, b)
  {
    AllOfThree(BLOCK, run);
    AllOfOne(BLOCK, m, [m]);
    JoinThree(BLOCK, pre, run, post, a);
    JoinThree(BLOCK, pre, [m], post, b);
  }

  /** Three such entries in a row give a twin, whatever the fields. */
  lemma MergeableHasTwin(a: seq<Entry>, i: nat)
    requires ValidStream(a) && MergeableAt(a, i)
    ensures HasTwin(a)
  {
    var pre, run, post := MergeAt(a, i);
    var m := Merged(run[0], run[1], run[2]);
    var b := pre + ([m] + post);
    MergedIsValid(pre, run, post, m, a, b);
    SameChunks(pre, run, post, m, a, b);
    SameBytesIff(b, a);
    assert IsTwin(a, b);
  }

  // ---------- And nothing else ----------

  lemma {:induction false} Difference(a: seq<Entry>, b: seq<Entry>)
    requires IdFree(a) && HasIds(b) && All(BLOCK, a) == All(BLOCK, b) && a != b
    ensures Merges(a)
    decreases |a|
  {
    var same, r, g := FirstDifference(a, b);
    if same {
      Difference(r, g);
      MergesLater(a, r);
    }
  }

  lemma MergesLater(a: seq<Entry>, r: seq<Entry>)
    requires a != [] && r == a[1..] && Merges(r)
    ensures Merges(a)
  {
    var i: nat :| MergeableAt(r, i);
    assert MergeableAt(a, i + 1);
  }

  lemma FirstDifference(a: seq<Entry>, b: seq<Entry>) returns (same: bool, r: seq<Entry>, g: seq<Entry>)
    requires IdFree(a) && HasIds(b) && All(BLOCK, a) == All(BLOCK, b) && a != b
    ensures same ==> a != [] && r == a[1..] && IdFree(r) && HasIds(g) && All(BLOCK, r) == All(BLOCK, g) && r != g
    ensures !same ==> Merges(a)
  {
    var x, f;
    x, r, f, g := BothHeads(a, b);
    same := |Block(x)| == |Block(f)|;
    if same {
      SameStart(x, All(BLOCK, r), f, All(BLOCK, g));
    } else {
      WiderHead(a, x, r, f, g);
    }
  }

  lemma BothHeads(a: seq<Entry>, b: seq<Entry>) returns (x: Entry, r: seq<Entry>, f: Entry, g: seq<Entry>)
    requires IdFree(a) && HasIds(b) && All(BLOCK, a) == All(BLOCK, b) && a != b
    ensures a == [x] + r && b == [f] + g && IdFree(r) && HasIds(g) && (x == f ==> r != g)
    ensures Block(x) + All(BLOCK, r) == Block(f) + All(BLOCK, g)
  {
    NotEmpty(a, b);
    x, r := HeadAndRest(a);
    f, g := HeadAndRest(b);
    FreeTail(a, x, r);
  }

  lemma NotEmpty(a: seq<Entry>, b: seq<Entry>)
    requires All(BLOCK, a) == All(BLOCK, b) && a != b
    ensures a != [] && b != []
  {
    BlocksAreNotEmpty(a);
    BlocksAreNotEmpty(b);
  }

  lemma SameStart(x: Entry, r: seq<Bytes>, f: Entry, g: seq<Bytes>)
    requires Block(x) + r == Block(f) + g && |Block(x)| == |Block(f)|
    ensures x == f && r == g
  {
    SameHead(Block(x), r, Block(f), g);
    SameBlock(x, f);
  }

  lemma WiderHead(a: seq<Entry>, x: Entry, r: seq<Entry>, f: Entry, g: seq<Entry>)
    requires a == [x] + r && IdFree(a) && HasIds(g) && |Block(x)| != |Block(f)|
    requires Block(x) + All(BLOCK, r) == Block(f) + All(BLOCK, g)
    ensures Merges(a)
  {
    MarkIfAny(g);
    FreeTail(a, x, r);
    WiderThanOne(x, r, f, All(BLOCK, g));
    MergesAtFront(a, x, r);
  }

  lemma MergesAtFront(a: seq<Entry>, x: Entry, r: seq<Entry>)
    requires a == [x] + r && |r| >= 2 && Mergeable(x, r[0], r[1])
    ensures Merges(a)
  {
    assert MergeableAt(a, 0);
  }

  lemma WiderThanOne(x: Entry, r: seq<Entry>, f: Entry, g: seq<Bytes>)
    requires FieldsAreNoIds(x) && IdFree(r) && (g != [] ==> ID_MARK(g[0])) && |Block(x)| != |Block(f)|
    requires Block(x) + All(BLOCK, r) == Block(f) + g
    ensures |r| >= 2 && Mergeable(x, r[0], r[1])
  {
    if |r| < 2 {
      HeadOfFew(x, r, f, g);
    } else {
      WiderOfMany(x, r, f, g);
    }
  }

  lemma FreeTail(a: seq<Entry>, x: Entry, r: seq<Entry>)
    requires a == [x] + r && IdFree(a)
    ensures FieldsAreNoIds(x) && IdFree(r)
  {
    assert a[0] == x;
    forall i | 0 <= i < |r| ensures r[i] == a[i + 1] {}
  }

  lemma WiderOfMany(x: Entry, r: seq<Entry>, f: Entry, g: seq<Bytes>)
    requires |r| >= 2 && FieldsAreNoIds(x) && IdFree(r) && (g != [] ==> ID_MARK(g[0])) && |Block(x)| != |Block(f)|
    requires Block(x) + All(BLOCK, r) == Block(f) + g
    ensures Mergeable(x, r[0], r[1])
  {
    var y, s := HeadAndRest(r);
    var z, t := HeadAndRest(s);
    CoversThree(x, y, z, All(BLOCK, t), f, g);
  }

  lemma HeadOfFew(x: Entry, r: seq<Entry>, f: Entry, g: seq<Bytes>)
    requires FieldsAreNoIds(x) && |r| < 2 && IdFree(r) && (g != [] ==> ID_MARK(g[0]))
    requires Block(x) + All(BLOCK, r) == Block(f) + g
    ensures |Block(x)| == |Block(f)|
  {
    NoMarkInside(x);
    SecondElements(x);
    SecondElements(f);
    FewBehind(r);
    SecondMarkOfFew(ID_MARK, Block(x), All(BLOCK, r), Block(f), g);
  }

  lemma FewBehind(r: seq<Entry>)
    requires |r| < 2 && IdFree(r)
    ensures All(BLOCK, r) != [] ==> |All(BLOCK, r)| % 2 == 1
    ensures NotInside(ID_MARK, All(BLOCK, r))
  {
    BlocksAreNotEmpty(r);
    if r != [] {
      AllOfOne(BLOCK, r[0], r);
      SecondElements(r[0]);
      NoMarkInside(r[0]);
    }
  }

  lemma CoversThree(x: Entry, y: Entry, z: Entry, rest: seq<Bytes>, f: Entry, g: seq<Bytes>)
    requires FieldsAreNoIds(x) && FieldsAreNoIds(y) && FieldsAreNoIds(z) && |Block(x)| != |Block(f)|
    requires Block(x) + (Block(y) + (Block(z) + rest)) == Block(f) + g && (g != [] ==> ID_MARK(g[0]))
    ensures Mergeable(x, y, z)
  {
    NoMarkInside(x);
    NoMarkInside(y);
    NoMarkInside(z);
    SecondElements(x);
    SecondElements(y);
    SecondElements(z);
    SecondElements(f);
    Regrouped(Block(x), Block(y), Block(z), rest);
    SecondMark(ID_MARK, Block(x), Block(y), Block(z), rest, Block(f), g);
    NamesAreSorted(f);
    HeadOfAscending(ThreeBlocks(x, y, z), rest, Block(f), g);
    MergeableIff(x, y, z);
  }

  lemma Regrouped<C>(x: seq<C>, y: seq<C>, z: seq<C>, rest: seq<C>)
    ensures x + (y + (z + rest)) == x + y + z + rest
  {
  }

  lemma HeadOfAscending(x: seq<Bytes>, rest: seq<Bytes>, f: seq<Bytes>, g: seq<Bytes>)
    requires x + rest == f + g && |x| <= |f| && Ascending(Odds(f))
    ensures Ascending(Odds(x))
  {
    forall i | 0 <= i < |Odds(x)|
      ensures Odds(x)[i] == Odds(f)[i]
    {
      assert (x + rest)[2 * i + 1] == x[2 * i + 1] && (f + g)[2 * i + 1] == f[2 * i + 1];
    }
  }

  /** A stream that holds ids only as ids shares its bytes with another exactly if three entries in a row merge. */
  lemma IdFreeTwinIff(a: seq<Entry>)
    requires ValidStream(a) && IdFree(a)
    ensures HasTwin(a) <==> Merges(a)
  {
    if HasTwin(a) {
      var b :| IsTwin(a, b);
      SameBytesIff(b, a);
      Difference(a, b);
    }
    if Merges(a) {
      var i: nat :| MergeableAt(a, i);
      MergeableHasTwin(a, i);
    }
  }
}
