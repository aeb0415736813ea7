/** Without relations: the children of each primary object, grouped by class in the order the classes first appear. */
module JoinFlat {
  import opened Options
  import opened JoinRows

  /** An entry of an insertion-ordered dict from class to list. */
  datatype Bucket = Bucket(cls: string, objs: seq<Obj>)

  datatype FlatValue = Nothing | Single(obj: Obj) | Several(objs: seq<Obj>)

  datatype FlatResult = FlatResult(mainId: int, main: Obj, fields: map<string, FlatValue>)

  // ---------- Grouping ----------

  /** `children[cls].append(o)` on a default dict. */
  function Put(buckets: seq<Bucket>, cls: string, o: Obj): seq<Bucket>
    decreases |buckets|
  {
    if buckets == [] then [Bucket(cls, [o])]
    else if buckets[0].cls == cls then [Bucket(cls, buckets[0].objs + [o])] + buckets[1..]
    else [buckets[0]] + Put(buckets[1..], cls, o)
  }

  function ObjsIn(buckets: seq<Bucket>, cls: string): seq<Obj>
    decreases |buckets|
  {
    if buckets == [] then []
    else if buckets[0].cls == cls then buckets[0].objs
    else ObjsIn(buckets[1..], cls)
  }

  predicate OneBucketEach(buckets: seq<Bucket>) {
    && (forall i, j :: 0 <= i < j < |buckets| ==> buckets[i].cls != buckets[j].cls)
    && (forall i :: 0 <= i < |buckets| ==> buckets[i].objs != [])
  }

  lemma {:induction false} PutAppends(buckets: seq<Bucket>, cls: string, o: Obj, c: string)
    ensures ObjsIn(Put(buckets, cls, o), c) == ObjsIn(buckets, c) + if c == cls then [o] else []
    decreases |buckets|
  {
    if buckets != [] && buckets[0].cls != cls {
      PutAppends(buckets[1..], cls, o, c);
    }
  }

  lemma {:induction false} PutKeepsBuckets(buckets: seq<Bucket>, cls: string, o: Obj)
    requires OneBucketEach(buckets)
    ensures OneBucketEach(Put(buckets, cls, o))
    ensures forall i ::
              0 <= i < |buckets| ==> i < |Put(buckets, cls, o)| && Put(buckets, cls, o)[i].cls == buckets[i].cls
    ensures forall i :: |buckets| <= i < |Put(buckets, cls, o)| ==> Put(buckets, cls, o)[i].cls == cls
    decreases |buckets|
  {
    if buckets != [] && buckets[0].cls != cls {
      PutKeepsBuckets(buckets[1..], cls, o);
      var put := Put(buckets[1..], cls, o);
      forall i | 0 <= i < |put|
        ensures put[i].cls != buckets[0].cls
      {
        assert i < |buckets| - 1 ==> put[i].cls == buckets[i + 1].cls;
      }
    }
  }

  /** The children one row adds to primary object `main`, left to right, among its first `upTo` cells. */
  function RowBuckets(buckets: seq<Bucket>, row: Row, upTo: nat, main: int): seq<Bucket>
    requires upTo <= |row|
  {
    if upTo <= 1 || !HasMain(row) || MainId(row) != main then buckets
    else
      var before := RowBuckets(buckets, row, upTo - 1, main);
      if row[upTo - 1].Some? then Put(before, row[upTo - 1].value.cls, row[upTo - 1].value) else before
  }

  function Buckets(rows: seq<Row>, main: int): seq<Bucket>
    decreases |rows|
  {
    if rows == [] then []
    else RowBuckets(Buckets(rows[..|rows| - 1], main), rows[|rows| - 1], |rows[|rows| - 1]|, main)
  }

  type Groups = map<int, seq<Bucket>>

  function GroupOf(groups: Groups, main: int): seq<Bucket> {
    if main in groups then groups[main] else []
  }

  ghost predicate Grouped(groups: Groups, rows: seq<Row>) {
    forall main :: GroupOf(groups, main) == Buckets(rows, main)
  }

  method GroupChildren(rows: seq<Row>) returns (groups: Groups)
    ensures Grouped(groups, rows)
  {
    groups := map[];
    for r := 0 to |rows|
      invariant Grouped(groups, rows[..r])
    {
      assert rows[..r + 1][..r] == rows[..r];
      groups := GroupRow(groups, rows[r], rows[..r]);
    }
    assert rows[..|rows|] == rows;
  }

  method GroupRow(start: Groups, row: Row, ghost rows: seq<Row>) returns (groups: Groups)
    requires Grouped(start, rows)
    ensures forall main :: GroupOf(groups, main) == RowBuckets(Buckets(rows, main), row, |row|, main)
  {
    groups := start;
    if row == [] || row[0].None? {
      return;
    }
    var mainId := ObjId(row[0].value);
    for j := 1 to |row|
      invariant forall main :: GroupOf(groups, main) == RowBuckets(Buckets(rows, main), row, j, main)
    {
      if row[j].Some? {
        groups := groups[mainId := Put(GroupOf(groups, mainId), row[j].value.cls, row[j].value)];
      }
    }
  }

  // ---------- What the groups hold ----------

  predicate IsChild(row: Row, i: nat, main: int, cls: string)
    requires i < |row|
  {
    i > 0 && HasMain(row) && MainId(row) == main && row[i].Some? && row[i].value.cls == cls
  }

  function RowChildren(row: Row, upTo: nat, main: int, cls: string): seq<Obj>
    requires upTo <= |row|
  {
    if upTo == 0 then []
    else RowChildren(row, upTo - 1, main, cls) + if IsChild(row, upTo - 1, main, cls) then [row[upTo - 1].value] else []
  }

  /** The plain filter: every object of a class beside a primary object, in row order. */
  function Children(rows: seq<Row>, main: int, cls: string): seq<Obj>
    decreases |rows|
  {
    if rows == [] then []
    else
      var n := |rows| - 1;
      Children(rows[..n], main, cls) + RowChildren(rows[n], |rows[n]|, main, cls)
  }

  lemma {:induction false} RowBucketsFilter(buckets: seq<Bucket>, row: Row, upTo: nat, main: int, cls: string)
    requires upTo <= |row| && OneBucketEach(buckets)
    ensures OneBucketEach(RowBuckets(buckets, row, upTo, main))
    ensures ObjsIn(RowBuckets(buckets, row, upTo, main), cls)
            == ObjsIn(buckets, cls) + RowChildren(row, upTo, main, cls)
    decreases upTo
  {
    if upTo > 0 {
      RowBucketsFilter(buckets, row, upTo - 1, main, cls);
      if upTo > 1 && HasMain(row) && MainId(row) == main && row[upTo - 1].Some? {
        var before := RowBuckets(buckets, row, upTo - 1, main);
        PutAppends(before, row[upTo - 1].value.cls, row[upTo - 1].value, cls);
        PutKeepsBuckets(before, row[upTo - 1].value.cls, row[upTo - 1].value);
      }
    }
  }

  /** The groups hold exactly what the plain filter finds, one bucket for each class. */
  lemma {:induction false} BucketsFilter(rows: seq<Row>, main: int, cls: string)
    ensures OneBucketEach(Buckets(rows, main)) && ObjsIn(Buckets(rows, main), cls) == Children(rows, main, cls)
    decreases |rows|
  {
    if rows != [] {
      var n := |rows| - 1;
      BucketsFilter(rows[..n], main, cls);
      RowBucketsFilter(Buckets(rows[..n], main), rows[n], |rows[n]|, main, cls);
    }
  }

  // ---------- The fields of a flat result ----------

  function FlatKey(cls: string, count: nat): string {
    if count <= 1 then cls else cls + "s"
  }

  function FlatValueOf(unique: seq<Obj>): FlatValue {
    if unique == [] then Nothing else if |unique| == 1 then Single(unique[0]) else Several(unique)
  }

  function KeyOfBucket(b: Bucket): string { FlatKey(b.cls, |Dedupe(b.objs)|) }

  /** Assigned in order, so a later bucket of the same key wins. */
  function FlatFields(buckets: seq<Bucket>, primary: string): map<string, FlatValue>
    decreases |buckets|
  {
    if buckets == [] then map[]
    else
      var before, b := FlatFields(buckets[..|buckets| - 1], primary), buckets[|buckets| - 1];
      if b.cls == primary then before else before[KeyOfBucket(b) := FlatValueOf(Dedupe(b.objs))]
  }

  method BuildFlat(buckets: seq<Bucket>, primary: string) returns (fields: map<string, FlatValue>)
    ensures fields == FlatFields(buckets, primary)
  {
    fields := map[];
    for i := 0 to |buckets|
      invariant fields == FlatFields(buckets[..i], primary)
    {
      assert buckets[..i + 1][..i] == buckets[..i];
      if buckets[i].cls != primary {
        var unique := DedupeObjects(buckets[i].objs);
        if |unique| == 0 {
          fields := fields[buckets[i].cls := Nothing];
        } else if |unique| == 1 {
          fields := fields[buckets[i].cls := Single(unique[0])];
        } else {
          fields := fields[buckets[i].cls + "s" := Several(unique)];
        }
      }
    }
    assert buckets[..|buckets|] == buckets;
  }

  predicate Fills(b: Bucket, primary: string, key: string) {
    b.cls != primary && KeyOfBucket(b) == key
  }

  predicate LastFills(buckets: seq<Bucket>, primary: string, key: string, i: nat) {
    i < |buckets| && Fills(buckets[i], primary, key) &&
        forall j :: i < j < |buckets| ==> !Fills(buckets[j], primary, key)
  }

  /** A key holds what the last class that wants it put there ... */
  lemma {:induction false} LastFillerWins(buckets: seq<Bucket>, primary: string, key: string, i: nat)
    requires LastFills(buckets, primary, key, i)
    ensures key in FlatFields(buckets, primary)
            && FlatFields(buckets, primary)[key] == FlatValueOf(Dedupe(buckets[i].objs))
    decreases |buckets|
  {
    var n := |buckets| - 1;
    if i < n {
      var init := buckets[..n];
      assert init[i] == buckets[i];
      assert !Fills(buckets[n], primary, key);
      LastFillerWins(init, primary, key, i);
    }
  }

  /** ... and is there only if some class does. */
  lemma {:induction false} KeyHasFiller(buckets: seq<Bucket>, primary: string, key: string) returns (i: nat)
    requires key in FlatFields(buckets, primary)
    ensures LastFills(buckets, primary, key, i)
    decreases |buckets|
  {
    var n := |buckets| - 1;
    if Fills(buckets[n], primary, key) {
      i := n;
    } else {
      i := KeyHasFiller(buckets[..n], primary, key);
      assert buckets[..n][i] == buckets[i];
      forall j | i < j < |buckets| ensures !Fills(buckets[j], primary, key) {
        assert j < n ==> buckets[..n][j] == buckets[j];
      }
    }
  }

  function ListOf(v: FlatValue): seq<Obj> {
    match v case Nothing => [] case Single(o) => [o] case Several(objs) => objs
  }

  /** No later class takes the key of bucket `i`. */
  predicate KeepsItsKey(buckets: seq<Bucket>, primary: string, i: nat)
    requires i < |buckets|
  {
    forall j :: i < j < |buckets| ==> !Fills(buckets[j], primary, KeyOfBucket(buckets[i]))
  }

  /**
   * A class beside a primary object appears under it, if no later class takes its key, with exactly the first object of
   * each id among the children the rows show, in order of first appearance; otherwise it is overwritten.
   */
  lemma FlatShowsChildrenIff(rows: seq<Row>, main: int, primary: string, i: nat)
    requires i < |Buckets(rows, main)| && Buckets(rows, main)[i].cls != primary
    ensures var buckets, fields := Buckets(rows, main), FlatFields(Buckets(rows, main), primary);
            var key, unique := KeyOfBucket(buckets[i]), Dedupe(Children(rows, main, buckets[i].cls));
            && key in fields && key == (if |unique| <= 1 then buckets[i].cls else buckets[i].cls + "s")
            && (KeepsItsKey(buckets, primary, i) ==>
                  ListOf(fields[key]) == unique && (fields[key].Several? <==> |unique| > 1))
            && (!KeepsItsKey(buckets, primary, i)
                ==> exists j :: i < j < |buckets| && LastFills(buckets, primary, key, j))
  {
    var buckets := Buckets(rows, main);
    var key := KeyOfBucket(buckets[i]);
    BucketsFilter(rows, main, buckets[i].cls);
    ObjsOfBucket(buckets, i);
    var j := LastFrom(buckets, primary, key, i);
    LastFillerWins(buckets, primary, key, j);
  }

  lemma {:induction false} LastFrom(buckets: seq<Bucket>, primary: string, key: string, i: nat) returns (last: nat)
    requires i < |buckets| && Fills(buckets[i], primary, key)
    ensures i <= last && LastFills(buckets, primary, key, last)
    decreases |buckets| - i
  {
    if j :| i < j < |buckets| && Fills(buckets[j], primary, key) {
      last := LastFrom(buckets, primary, key, j);
    } else {
      last := i;
    }
  }

  lemma {:induction false} ObjsOfBucket(buckets: seq<Bucket>, i: nat)
    requires OneBucketEach(buckets) && i < |buckets|
    ensures ObjsIn(buckets, buckets[i].cls) == buckets[i].objs
    decreases |buckets|
  {
    if i > 0 {
      assert buckets[0].cls != buckets[i].cls;
      ObjsOfBucket(buckets[1..], i - 1);
    }
  }

  lemma {:induction false} ClassHasBucket(buckets: seq<Bucket>, cls: string) returns (i: nat)
    requires ObjsIn(buckets, cls) != []
    ensures i < |buckets| && buckets[i].cls == cls
    decreases |buckets|
  {
    if buckets[0].cls == cls {
      i := 0;
    } else {
      var k := ClassHasBucket(buckets[1..], cls);
      i := k + 1;
    }
  }

  /** The children of every class the rows show beside a primary object are in one bucket. */
  lemma ChildrenHaveABucket(rows: seq<Row>, main: int, cls: string) returns (i: nat)
    requires Children(rows, main, cls) != []
    ensures i < |Buckets(rows, main)| && Buckets(rows, main)[i] == Bucket(cls, Children(rows, main, cls))
  {
    BucketsFilter(rows, main, cls);
    i := ClassHasBucket(Buckets(rows, main), cls);
    ObjsOfBucket(Buckets(rows, main), i);
  }

  /** What a class wants to show under its primary object. */
  function Wanted(rows: seq<Row>, main: int, cls: string): seq<Obj> {
    Dedupe(Children(rows, main, cls))
  }

  /** No class whose group comes later takes the key of `cls`. */
  ghost predicate ClassKeepsKey(rows: seq<Row>, main: int, primary: string, cls: string) {
    forall i :: 0 <= i < |Buckets(rows, main)| && Buckets(rows, main)[i].cls == cls ==>
                  KeepsItsKey(Buckets(rows, main), primary, i)
  }

  /**
   * Every class the rows show beside a primary object gets its key; it shows its children if no later class takes it.
   */
  lemma EveryClassIsShown(rows: seq<Row>, main: int, primary: string, cls: string)
    requires cls != primary && Children(rows, main, cls) != []
    ensures var fields, unique := FlatFields(Buckets(rows, main), primary), Wanted(rows, main, cls);
            var key := if |unique| <= 1 then cls else cls + "s";
            key in fields && (ClassKeepsKey(rows, main, primary, cls) ==> ListOf(fields[key]) == unique)
  {
    var i := ChildrenHaveABucket(rows, main, cls);
    FlatShowsChildrenIff(rows, main, primary, i);
  }

  lemma DedupeOfTwo(x: Obj, y: Obj)
    requires x.id.Some? && y.id.Some? && x.id != y.id
    ensures Dedupe([x, y]) == [x, y] && Dedupe([x]) == [x]
  {
    assert [x, y][..1] == [x] && [x][..0] == [];
    assert Dedupe([]) == [];
    assert !SeenId([], x.id.value) && !SeenId([x], y.id.value);
  }

  /**
   * For instance: a row with two objects of one class, and an object of a class named like its plural, shows only
   * that.
   */
  lemma PluralsCollide(m: Obj, x: Obj, y: Obj, z: Obj)
    requires x.cls == y.cls && z.cls == x.cls + "s" && x.cls != m.cls && z.cls != m.cls
    requires x.id.Some? && y.id.Some? && z.id.Some? && x.id != y.id
    ensures var fields := FlatFields(Buckets([[Some(m), Some(x), Some(y), Some(z)]], ObjId(m)), m.cls);
            fields == map[z.cls := Single(z)]
  {
    var row := [Some(m), Some(x), Some(y), Some(z)];
    BucketsOfRow(m, x, y, z, row);
    var a, b := Bucket(x.cls, [x, y]), Bucket(z.cls, [z]);
    DedupeOfTwo(x, y);
    DedupeOfTwo(z, z.(id := Some(z.id.value + 1)));
    assert [a, b][..1] == [a] && [a][..0] == [];
    assert FlatFields([], m.cls) == map[];
    assert FlatFields([a], m.cls) == map[z.cls := Several([x, y])];
  }

  lemma BucketsOfRow(m: Obj, x: Obj, y: Obj, z: Obj, row: Row)
    requires row == [Some(m), Some(x), Some(y), Some(z)] && x.cls == y.cls && z.cls != x.cls
    ensures Buckets([row], ObjId(m)) == [Bucket(x.cls, [x, y]), Bucket(z.cls, [z])]
  {
    assert [row][..0] == [] && Buckets([], ObjId(m)) == [];
    assert RowBuckets([], row, 1, ObjId(m)) == [];
    assert RowBuckets([], row, 2, ObjId(m)) == [Bucket(x.cls, [x])];
    var one := [Bucket(x.cls, [x])];
    assert [x] + [y] == [x, y] && one[1..] == [];
    assert Put(one, y.cls, y) == [Bucket(x.cls, [x, y])];
    var two := [Bucket(x.cls, [x, y])];
    assert RowBuckets([], row, 3, ObjId(m)) == two;
    assert two[1..] == [] && Put([], z.cls, z) == [Bucket(z.cls, [z])];
    assert Put(two, z.cls, z) == [Bucket(x.cls, [x, y]), Bucket(z.cls, [z])];
    assert RowBuckets([], row, 4, ObjId(m)) == Put(two, z.cls, z);
  }
}
