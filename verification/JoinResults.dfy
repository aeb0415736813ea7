/** `select_join_serialize` with relations, end to end, and what its output says about the rows. */
module JoinResults {
  import opened Options
  import opened JoinPaths
  import opened JoinRows
  import opened NestedJoin

  datatype Result = Result(mainId: int, main: Obj, fields: seq<Field>)

  /** The primary objects of the rows, under the id the code groups them by. */
  function MainsOf(rows: seq<Row>): seq<Obj>
    decreases |rows|
  {
    if rows == [] then []
    else
      var n := |rows| - 1;
      MainsOf(rows[..n]) + if HasMain(rows[n]) then [rows[n][0].value.(id := Some(MainId(rows[n])))] else []
  }

  /** For each primary id a rank of the objects below it: the recursion ends for every one of them. */
  type AllRanks = int -> Ranks

  ghost predicate Ends(graph: Graph, h: Index, primary: string, ranks: AllRanks) {
    forall main :: Ranked(graph, KidsIn(h, main), ranks(main), primary, main)
  }

  function ResultFor(graph: Graph, h: Index, primary: string, keyed: Obj, ghost ranks: AllRanks): Result
    requires Ends(graph, h, primary, ranks) && keyed.id.Some?
  {
    assert Ranked(graph, KidsIn(h, keyed.id.value), ranks(keyed.id.value), primary, keyed.id.value);
    Result(keyed.id.value, keyed,
           AllFields(graph, KidsIn(h, keyed.id.value), primary, keyed.id.value, ranks(keyed.id.value)))
  }

  function ResultsFor(graph: Graph, h: Index, primary: string, mains: seq<Obj>, ghost ranks: AllRanks): seq<Result>
    requires Ends(graph, h, primary, ranks)
    decreases |mains|
  {
    if mains == [] then []
    else
      var n := |mains| - 1;
      ResultsFor(graph, h, primary, mains[..n], ranks)
      + if mains[n].id.Some? then [ResultFor(graph, h, primary, mains[n], ranks)] else []
  }

  /** The final loop: one result for each main id not met before. */
  method BuildResults(graph: Graph, h: Index, primary: string, rows: seq<Row>, ghost ranks: AllRanks)
    returns (results: seq<Result>)
    requires Ends(graph, h, primary, ranks)
    ensures results == ResultsFor(graph, h, primary, Dedupe(MainsOf(rows)), ranks)
  {
    results := [];
    var processed: set<int> := {};
    for i := 0 to |rows|
      invariant results == ResultsFor(graph, h, primary, Dedupe(MainsOf(rows[..i])), ranks)
      invariant forall id :: id in processed <==> SeenId(MainsOf(rows[..i]), id)
    {
      MainsStep(rows, i);
      if rows[i] != [] && rows[i][0].Some? {
        var mainId := ObjId(rows[i][0].value);
        var keyed := rows[i][0].value.(id := Some(mainId));
        MainAdded(graph, h, primary, MainsOf(rows[..i]), keyed, ranks);
        if mainId !in processed {
          processed := processed + {mainId};
          assert Ranked(graph, KidsIn(h, mainId), ranks(mainId), primary, mainId);
          var fields := BuildFields(graph, h, mainId, primary, mainId, ranks(mainId));
          results := results + [Result(mainId, keyed, fields)];
        }
      }
    }
    assert rows[..|rows|] == rows;
  }

  lemma MainsStep(rows: seq<Row>, i: nat)
    requires i < |rows|
    ensures !HasMain(rows[i]) ==> MainsOf(rows[..i + 1]) == MainsOf(rows[..i])
    ensures HasMain(rows[i])
            ==> MainsOf(rows[..i + 1]) == MainsOf(rows[..i]) + [rows[i][0].value.(id := Some(MainId(rows[i])))]
  {
    assert rows[..i + 1][..i] == rows[..i];
  }

  lemma MainAdded(graph: Graph, h: Index, primary: string, mains: seq<Obj>, keyed: Obj, ranks: AllRanks)
    requires Ends(graph, h, primary, ranks) && keyed.id.Some?
    ensures SeenId(mains, keyed.id.value) ==>
              ResultsFor(graph, h, primary, Dedupe(mains + [keyed]), ranks)
                  == ResultsFor(graph, h, primary, Dedupe(mains), ranks)
    ensures !SeenId(mains, keyed.id.value) ==>
              ResultsFor(graph, h, primary, Dedupe(mains + [keyed]), ranks) ==
              ResultsFor(graph, h, primary, Dedupe(mains), ranks) + [ResultFor(graph, h, primary, keyed, ranks)]
    ensures forall id :: SeenId(mains + [keyed], id) <==> SeenId(mains, id) || keyed.id.value == id
  {
    DedupeAppend(mains, keyed);
    if !SeenId(mains, keyed.id.value) {
      assert (Dedupe(mains) + [keyed])[..|Dedupe(mains)|] == Dedupe(mains);
    }
    forall id
      ensures SeenId(mains + [keyed], id) <==> SeenId(mains, id) || keyed.id.value == id
    {
      SeenIdAppend(mains, keyed, id);
    }
  }

  lemma DedupeAppend(objs: seq<Obj>, o: Obj)
    ensures Dedupe(objs + [o]) == Dedupe(objs) + if o.id.Some? && !SeenId(objs, o.id.value) then [o] else []
  {
    assert (objs + [o])[..|objs|] == objs;
  }

  // ---------- One result per primary id, first come first ----------

  lemma {:induction false} ResultsFollowMains(graph: Graph, h: Index, primary: string, mains: seq<Obj>, ranks: AllRanks)
    requires Ends(graph, h, primary, ranks) && forall i :: 0 <= i < |mains| ==> mains[i].id.Some?
    ensures |ResultsFor(graph, h, primary, mains, ranks)| == |mains|
    ensures forall i ::
              0 <= i < |mains|
              ==> ResultsFor(graph, h, primary, mains, ranks)[i] == ResultFor(graph, h, primary, mains[i], ranks)
    decreases |mains|
  {
    if mains != [] {
      ResultsFollowMains(graph, h, primary, mains[..|mains| - 1], ranks);
    }
  }

  /** Each primary id has exactly one result, and results stand in the order their ids first appear. */
  lemma OneResultPerMainId(graph: Graph, h: Index, primary: string, rows: seq<Row>, ranks: AllRanks)
    returns (at: seq<nat>)
    requires Ends(graph, h, primary, ranks)
    ensures var results := ResultsFor(graph, h, primary, Dedupe(MainsOf(rows)), ranks);
            && |at| == |results|
            && (forall k :: 0 <= k < |at| ==> FirstWithItsId(MainsOf(rows), at[k])
                                              && results[k]
                                                  == ResultFor(graph, h, primary, MainsOf(rows)[at[k]], ranks))
            && (forall i: nat :: FirstWithItsId(MainsOf(rows), i) ==> i in at)
            && (forall j, k :: 0 <= j < k < |at| ==> at[j] < at[k])
  {
    at := DedupeKeepsFirsts(MainsOf(rows));
    ResultsFollowMains(graph, h, primary, Dedupe(MainsOf(rows)), ranks);
  }

  // ---------- Output and rows ----------

  /** Every column holds one class, no class has two columns, and primary keys are real and nonzero. */
  predicate WellTyped(rows: seq<Row>, columns: seq<string>) {
    && columns != []
    && (forall i, j :: 0 <= i < j < |columns| ==> columns[i] != columns[j])
    && (forall r :: 0 <= r < |rows| ==> |rows[r]| == |columns|)
    && (forall r, i :: 0 <= r < |rows| && 0 <= i < |columns| && rows[r][i].Some? ==> rows[r][i].value.cls == columns[i])
    && (forall r :: 0 <= r < |rows| && rows[r][0].Some? ==> rows[r][0].value.id.Some? && rows[r][0].value.id.value != 0)
  }

  predicate CellHas(row: Row, columns: seq<string>, i: nat, cls: string, id: int) {
    i < |row| && i < |columns| && columns[i] == cls && row[i].Some? && row[i].value.id == Some(id)
  }

  /** One row shows child `id` of class `cls` beside parent `pk`, under primary object `main`. */
  ghost predicate RowShows(row: Row, columns: seq<string>, main: int, parentCls: string, pk: int, cls: string,
                           id: int)
  {
    && columns != [] && CellHas(row, columns, 0, columns[0], main)
    && (exists p :: CellHas(row, columns, p, parentCls, pk))
    && (exists i :: i > 0 && CellHas(row, columns, i, cls, id))
  }

  ghost predicate Shown(rows: seq<Row>, columns: seq<string>, main: int, parentCls: string, pk: int, cls: string,
                        id: int)
    requires columns != []
  {
    exists r :: 0 <= r < |rows| && RowShows(rows[r], columns, main, parentCls, pk, cls, id)
  }

  /** The first of the rows that show a child of class `cls` beside the parent shows this one. */
  ghost predicate FirstShown(rows: seq<Row>, columns: seq<string>, main: int, parentCls: string, pk: int, cls: string,
                             id: int)
    requires columns != []
  {
    exists r :: 0 <= r < |rows| && RowShows(rows[r], columns, main, parentCls, pk, cls, id)
                && forall q, x :: 0 <= q < r ==> !RowShows(rows[q], columns, main, parentCls, pk, cls, x)
  }

  /** A relation of this kind shows this child: any that some row shows, or only the first. */
  ghost predicate ShownAs(kind: Kind, rows: seq<Row>, columns: seq<string>, main: int, parentCls: string, pk: int,
                          hop: Hop)
    requires columns != []
  {
    if kind.ToMany() then Shown(rows, columns, main, parentCls, pk, hop.cls, hop.id)
    else FirstShown(rows, columns, main, parentCls, pk, hop.cls, hop.id)
  }

  ghost predicate HopShown(rels: seq<Relation>, rows: seq<Row>, columns: seq<string>, main: int, cls: string, pk: int,
                           hop: Hop)
    requires columns != []
  {
    var kind := DeclaredKind(rels, cls, hop.cls);
    kind.Some? && ShownAs(kind.value, rows, columns, main, cls, pk, hop)
  }

  /** Every hop is a declared relation, and the rows show it as the kind declared last wants it. */
  ghost predicate ShownPath(rels: seq<Relation>, rows: seq<Row>, columns: seq<string>, main: int, cls: string, pk: int,
                            path: seq<Hop>)
    requires columns != []
    decreases |path|
  {
    path == [] ||
    (HopShown(rels, rows, columns, main, cls, pk, path[0])
     && ShownPath(rels, rows, columns, main, path[0].cls, path[0].id, path[1..]))
  }

  lemma ColumnOfSeenClass(cols: map<string, nat>, rows: seq<Row>, columns: seq<string>, i: nat)
    requires WellTyped(rows, columns) && FirstColumns(cols, rows) && i < |columns|
    ensures columns[i] in cols ==> cols[columns[i]] == i
    ensures columns[i] !in cols ==> forall r :: 0 <= r < |rows| ==> rows[r][i].None?
  {
    if columns[i] in cols {
      var k := ClassHasColumn(cols, rows, columns, columns[i]);
    }
    forall r | 0 <= r < |rows| && rows[r][i].Some?
      ensures columns[i] in cols
    {
      assert CellIs(rows, r, i, columns[i]);
    }
  }

  lemma ClassHasColumn(cols: map<string, nat>, rows: seq<Row>, columns: seq<string>, c: string) returns (i: nat)
    requires WellTyped(rows, columns) && FirstColumns(cols, rows) && c in cols
    ensures i < |columns| && columns[i] == c && cols[c] == i
  {
    var r, k :| 0 <= r < |rows| && cols[c] == k < |rows[r]| && rows[r][k].Some? && rows[r][k].value.cls == c;
    i := k;
  }

  /** A cell is indexed under a parent key exactly when its row shows that parent. */
  lemma CellBelongsIff(s: Shape, rows: seq<Row>, columns: seq<string>, r: nat, i: nat, main: int, parentCls: string,
                       pk: int)
    requires WellTyped(rows, columns) && FirstColumns(s.cols, rows)
    requires r < |rows| && 0 < i < |columns|
    requires columns[i] in s.reverse && s.reverse[columns[i]] == parentCls
    ensures CellBelongs(s, rows[r], i, main, columns[i], pk) <==>
            && rows[r][i].Some? && CellHas(rows[r], columns, 0, columns[0], main)
            && exists p :: CellHas(rows[r], columns, p, parentCls, pk)
  {
    var row := rows[r];
    if parentCls in s.cols {
      var p := ClassHasColumn(s.cols, rows, columns, parentCls);
      assert CellHas(row, columns, p, parentCls, pk) <==> row[p].Some? && row[p].value.id == Some(pk);
    } else {
      forall p: nat | p < |columns| && columns[p] == parentCls
        ensures row[p].None?
      {
        ColumnOfSeenClass(s.cols, rows, columns, p);
      }
    }
  }

  ghost predicate CellIn(s: Shape, row: Row, upTo: nat, main: int, cls: string, pk: int, id: int)
    requires upTo <= |row|
  {
    exists i: nat :: i < upTo && CellBelongs(s, row, i, main, cls, pk) && row[i].value.id == Some(id)
  }

  lemma {:induction false} RowFilterHas(s: Shape, row: Row, upTo: nat, main: int, cls: string, pk: int, id: int)
    requires upTo <= |row|
    ensures SeenId(RowFilter(s, row, upTo, main, cls, pk), id) <==> CellIn(s, row, upTo, main, cls, pk, id)
    decreases upTo
  {
    if upTo > 0 {
      var i: nat := upTo - 1;
      RowFilterHas(s, row, i, main, cls, pk, id);
      assert CellIn(s, row, upTo, main, cls, pk, id) <==>
             CellIn(s, row, i, main, cls, pk, id)
                 || (CellBelongs(s, row, i, main, cls, pk) && row[i].value.id == Some(id));
      if CellBelongs(s, row, i, main, cls, pk) {
        SeenIdAppend(RowFilter(s, row, i, main, cls, pk), row[i].value, id);
      } else {
        assert RowFilter(s, row, upTo, main, cls, pk) == RowFilter(s, row, i, main, cls, pk);
      }
    }
  }

  lemma SeenIdConcat(a: seq<Obj>, b: seq<Obj>, id: int)
    ensures SeenId(a + b, id) <==> SeenId(a, id) || SeenId(b, id)
  {
    if SeenId(a, id) {
      var i :| 0 <= i < |a| && a[i].id == Some(id);
      assert (a + b)[i] == a[i];
    }
    if SeenId(b, id) {
      var i :| 0 <= i < |b| && b[i].id == Some(id);
      assert (a + b)[|a| + i] == b[i];
    }
    if SeenId(a + b, id) {
      var i :| 0 <= i < |a + b| && (a + b)[i].id == Some(id);
      assert if i < |a| then a[i] == (a + b)[i] else b[i - |a|] == (a + b)[i];
    }
  }

  lemma {:induction false} FilterHas(s: Shape, rows: seq<Row>, main: int, cls: string, pk: int, id: int)
    ensures SeenId(Filter(s, rows, main, cls, pk), id)
            <==> exists r :: 0 <= r < |rows| && CellIn(s, rows[r], |rows[r]|, main, cls, pk, id)
    decreases |rows|
  {
    if rows != [] {
      var n := |rows| - 1;
      FilterHas(s, rows[..n], main, cls, pk, id);
      RowFilterHas(s, rows[n], |rows[n]|, main, cls, pk, id);
      SeenIdConcat(Filter(s, rows[..n], main, cls, pk), RowFilter(s, rows[n], |rows[n]|, main, cls, pk), id);
      if r :| 0 <= r < |rows| && CellIn(s, rows[r], |rows[r]|, main, cls, pk, id) {
        assert r == n || rows[..n][r] == rows[r];
      }
      if r :| 0 <= r < |rows[..n]| && CellIn(s, rows[..n][r], |rows[..n][r]|, main, cls, pk, id) {
        assert rows[r] == rows[..n][r];
      }
    }
  }

  lemma CellInIff(s: Shape, rows: seq<Row>, columns: seq<string>, r: nat, main: int, parentCls: string, pk: int,
                  cls: string, id: int)
    requires WellTyped(rows, columns) && FirstColumns(s.cols, rows) && r < |rows|
    requires cls in s.reverse && s.reverse[cls] == parentCls
    ensures CellIn(s, rows[r], |rows[r]|, main, cls, pk, id)
            <==> RowShows(rows[r], columns, main, parentCls, pk, cls, id)
  {
    var row := rows[r];
    if CellIn(s, row, |row|, main, cls, pk, id) {
      var i: nat :| i < |row| && CellBelongs(s, row, i, main, cls, pk) && row[i].value.id == Some(id);
      CellBelongsIff(s, rows, columns, r, i, main, parentCls, pk);
      assert CellHas(row, columns, i, cls, id);
    }
    if RowShows(row, columns, main, parentCls, pk, cls, id) {
      var i: nat :| i > 0 && CellHas(row, columns, i, cls, id);
      CellBelongsIff(s, rows, columns, r, i, main, parentCls, pk);
    }
  }

  /** A child is listed under a parent exactly when some row shows the two together. */
  lemma ListedIffShown(s: Shape, rows: seq<Row>, columns: seq<string>, main: int, parentCls: string, pk: int,
                       cls: string, id: int)
    requires WellTyped(rows, columns) && FirstColumns(s.cols, rows)
    requires cls in s.reverse && s.reverse[cls] == parentCls
    ensures SeenId(Filter(s, rows, main, cls, pk), id) <==> Shown(rows, columns, main, parentCls, pk, cls, id)
  {
    FilterHas(s, rows, main, cls, pk, id);
    forall r: nat | r < |rows|
      ensures CellIn(s, rows[r], |rows[r]|, main, cls, pk, id)
              <==> RowShows(rows[r], columns, main, parentCls, pk, cls, id)
    {
      CellInIff(s, rows, columns, r, main, parentCls, pk, cls, id);
    }
  }

  // ---------- The first child a row shows ----------

  predicate NoIds(objs: seq<Obj>) {
    forall i :: 0 <= i < |objs| ==> objs[i].id.None?
  }

  lemma NoIdsIff(objs: seq<Obj>)
    ensures NoIds(objs) <==> forall id :: !SeenId(objs, id)
  {
    forall i | 0 <= i < |objs| && objs[i].id.Some?
      ensures SeenId(objs, objs[i].id.value)
    {
    }
  }

  lemma FirstHasIdConcat(a: seq<Obj>, b: seq<Obj>, id: int)
    ensures FirstHasId(a + b, id) <==> FirstHasId(a, id) || (NoIds(a) && FirstHasId(b, id))
  {
    var all := a + b;
    if i :| 0 <= i < |all| && all[i].id == Some(id) && forall k :: 0 <= k < i ==> all[k].id.None? {
      if i < |a| {
        forall k | 0 <= k < i ensures a[k].id.None? { assert all[k] == a[k]; }
        FirstAt(a, i, id);
      } else {
        forall k | 0 <= k < |a| ensures a[k].id.None? { assert all[k] == a[k]; }
        forall k | 0 <= k < i - |a| ensures b[k].id.None? { assert all[|a| + k] == b[k]; }
        FirstAt(b, i - |a|, id);
      }
    }
    if i :| 0 <= i < |a| && a[i].id == Some(id) && forall k :: 0 <= k < i ==> a[k].id.None? {
      forall k | 0 <= k < i ensures all[k].id.None? { assert all[k] == a[k]; }
      FirstAt(all, i, id);
    }
    if NoIds(a) && FirstHasId(b, id) {
      var i :| 0 <= i < |b| && b[i].id == Some(id) && forall k :: 0 <= k < i ==> b[k].id.None?;
      forall k | 0 <= k < |a| + i ensures all[k].id.None? {
        assert all[k] == if k < |a| then a[k] else b[k - |a|];
      }
      FirstAt(all, |a| + i, id);
    }
  }

  lemma FirstAt(objs: seq<Obj>, i: nat, id: int)
    requires i < |objs| && objs[i].id == Some(id) && forall k :: 0 <= k < i ==> objs[k].id.None?
    ensures FirstHasId(objs, id)
  {
  }

  /** Row `r` is the first one with such a child, and this is it. */
  ghost predicate RowIsFirst(s: Shape, rows: seq<Row>, r: nat, main: int, cls: string, pk: int, id: int) {
    && r < |rows| && CellIn(s, rows[r], |rows[r]|, main, cls, pk, id)
    && forall q, x :: 0 <= q < r ==> !CellIn(s, rows[q], |rows[q]|, main, cls, pk, x)
  }

  /** No row shows two children of the class. */
  predicate OnePerRow(s: Shape, rows: seq<Row>, main: int, cls: string, pk: int) {
    forall r, i: nat, j: nat :: 0 <= r < |rows| && i < j < |rows[r]| ==>
      !(CellBelongs(s, rows[r], i, main, cls, pk) && CellBelongs(s, rows[r], j, main, cls, pk))
  }

  lemma {:induction false} OneInRow(s: Shape, row: Row, upTo: nat, main: int, cls: string, pk: int)
    requires upTo <= |row|
    requires forall i: nat, j: nat :: i < j < |row| ==>
               !(CellBelongs(s, row, i, main, cls, pk) && CellBelongs(s, row, j, main, cls, pk))
    ensures |RowFilter(s, row, upTo, main, cls, pk)| <= 1
    ensures RowFilter(s, row, upTo, main, cls, pk) != [] ==>
              exists i: nat :: i < upTo && CellBelongs(s, row, i, main, cls, pk)
    decreases upTo
  {
    if upTo > 0 {
      OneInRow(s, row, upTo - 1, main, cls, pk);
    }
  }

  lemma FirstOfRow(s: Shape, row: Row, main: int, cls: string, pk: int, id: int)
    requires forall i: nat, j: nat :: i < j < |row| ==>
               !(CellBelongs(s, row, i, main, cls, pk) && CellBelongs(s, row, j, main, cls, pk))
    ensures FirstHasId(RowFilter(s, row, |row|, main, cls, pk), id) <==> CellIn(s, row, |row|, main, cls, pk, id)
  {
    OneInRow(s, row, |row|, main, cls, pk);
    RowFilterHas(s, row, |row|, main, cls, pk, id);
    var objs := RowFilter(s, row, |row|, main, cls, pk);
    if SeenId(objs, id) {
      FirstAt(objs, 0, id);
    }
  }

  lemma NoCellBefore(s: Shape, rows: seq<Row>, main: int, cls: string, pk: int)
    ensures NoIds(Filter(s, rows, main, cls, pk)) <==>
            forall q, x :: 0 <= q < |rows| ==> !CellIn(s, rows[q], |rows[q]|, main, cls, pk, x)
  {
    NoIdsIff(Filter(s, rows, main, cls, pk));
    forall x
      ensures SeenId(Filter(s, rows, main, cls, pk), x)
              <==> exists q :: 0 <= q < |rows| && CellIn(s, rows[q], |rows[q]|, main, cls, pk, x)
    {
      FilterHas(s, rows, main, cls, pk, x);
    }
    if NoIds(Filter(s, rows, main, cls, pk)) {
      forall q, x | 0 <= q < |rows|
        ensures !CellIn(s, rows[q], |rows[q]|, main, cls, pk, x)
      {
        assert !SeenId(Filter(s, rows, main, cls, pk), x);
      }
    }
  }

  lemma RowIsFirstStep(s: Shape, rows: seq<Row>, init: seq<Row>, n: nat, main: int, cls: string, pk: int, id: int)
    requires rows != [] && n == |rows| - 1 && init == rows[..n]
    ensures (exists r: nat :: RowIsFirst(s, rows, r, main, cls, pk, id)) <==>
            (exists r: nat :: RowIsFirst(s, init, r, main, cls, pk, id)) || RowIsFirst(s, rows, n, main, cls, pk, id)
  {
    forall r: nat | r < n
      ensures RowIsFirst(s, rows, r, main, cls, pk, id) <==> RowIsFirst(s, init, r, main, cls, pk, id)
    {
      forall q | 0 <= q <= r ensures init[q] == rows[q] {}
    }
  }

  lemma {:induction false} FirstListedIff(s: Shape, rows: seq<Row>, main: int, cls: string, pk: int, id: int)
    requires OnePerRow(s, rows, main, cls, pk)
    ensures FirstHasId(Filter(s, rows, main, cls, pk), id) <==>
            exists r: nat :: RowIsFirst(s, rows, r, main, cls, pk, id)
    decreases |rows|
  {
    if rows != [] {
      var n := |rows| - 1;
      var init := rows[..n];
      forall r | 0 <= r < n ensures init[r] == rows[r] {}
      FirstListedIff(s, init, main, cls, pk, id);
      FirstHasIdConcat(Filter(s, init, main, cls, pk), RowFilter(s, rows[n], |rows[n]|, main, cls, pk), id);
      FirstOfRow(s, rows[n], main, cls, pk, id);
      NoCellBefore(s, init, main, cls, pk);
      RowIsFirstStep(s, rows, init, n, main, cls, pk, id);
    }
  }

  lemma TypedHasOnePerRow(s: Shape, rows: seq<Row>, columns: seq<string>, main: int, cls: string, pk: int)
    requires WellTyped(rows, columns)
    ensures OnePerRow(s, rows, main, cls, pk)
  {
    forall r, i: nat, j: nat | 0 <= r < |rows| && i < j < |rows[r]|
      ensures !(CellBelongs(s, rows[r], i, main, cls, pk) && CellBelongs(s, rows[r], j, main, cls, pk))
    {
      assert columns[i] != columns[j];
    }
  }

  /** The first listed child with an id is the one the first row with such a child shows. */
  lemma FirstListedIffShown(s: Shape, rows: seq<Row>, columns: seq<string>, main: int, parentCls: string, pk: int,
                            cls: string, id: int)
    requires WellTyped(rows, columns) && FirstColumns(s.cols, rows)
    requires cls in s.reverse && s.reverse[cls] == parentCls
    ensures FirstHasId(Filter(s, rows, main, cls, pk), id) <==>
            FirstShown(rows, columns, main, parentCls, pk, cls, id)
  {
    TypedHasOnePerRow(s, rows, columns, main, cls, pk);
    FirstListedIff(s, rows, main, cls, pk, id);
    forall r: nat, x | r < |rows|
      ensures CellIn(s, rows[r], |rows[r]|, main, cls, pk, x)
              <==> RowShows(rows[r], columns, main, parentCls, pk, cls, x)
    {
      CellInIff(s, rows, columns, r, main, parentCls, pk, cls, x);
    }
    FirstsAgree(s, rows, columns, main, parentCls, pk, cls, id);
  }

  lemma FirstsAgree(s: Shape, rows: seq<Row>, columns: seq<string>, main: int, parentCls: string, pk: int, cls: string,
                    id: int)
    requires columns != []
    requires forall r: nat, x :: r < |rows| ==>
               (CellIn(s, rows[r], |rows[r]|, main, cls, pk, x)
                <==> RowShows(rows[r], columns, main, parentCls, pk, cls, x))
    ensures (exists r: nat :: RowIsFirst(s, rows, r, main, cls, pk, id)) <==>
            FirstShown(rows, columns, main, parentCls, pk, cls, id)
  {
    if r: nat :| RowIsFirst(s, rows, r, main, cls, pk, id) {
      assert RowShows(rows[r], columns, main, parentCls, pk, cls, id);
    }
    if r: nat :| r < |rows| && RowShows(rows[r], columns, main, parentCls, pk, cls, id)
                 && forall q, x :: 0 <= q < r ==> !RowShows(rows[q], columns, main, parentCls, pk, cls, x) {
      assert RowIsFirst(s, rows, r, main, cls, pk, id);
    }
  }

  lemma KeepsIffShown(kind: Kind, s: Shape, rows: seq<Row>, columns: seq<string>, main: int, parentCls: string, pk: int,
                      hop: Hop)
    requires WellTyped(rows, columns) && FirstColumns(s.cols, rows)
    requires hop.cls in s.reverse && s.reverse[hop.cls] == parentCls
    ensures Keeps(kind, Filter(s, rows, main, hop.cls, pk), hop.id) <==>
            ShownAs(kind, rows, columns, main, parentCls, pk, hop)
  {
    ListedIffShown(s, rows, columns, main, parentCls, pk, hop.cls, hop.id);
    FirstListedIffShown(s, rows, columns, main, parentCls, pk, hop.cls, hop.id);
  }

  /** Of all edges the one to a target, if declared, has the kind declared last. */
  lemma SomeEdgeKeepsIff(rels: seq<Relation>, kids: Kids, cls: string, pk: int, hop: Hop)
    ensures var graph := GraphOf(rels);
            SomeEdgeKeeps(graph, kids, cls, pk, |EdgesOf(graph, cls)|, hop) <==>
            var kind := DeclaredKind(rels, cls, hop.cls); kind.Some? && Keeps(kind.value, kids(hop.cls, pk), hop.id)
    ensures DeclaredKind(rels, cls, hop.cls).Some? <==> HasEdge(GraphOf(rels), cls, hop.cls)
  {
    GraphIsDeclared(rels, cls);
    DeclaredIff(rels, cls, hop.cls);
    var edges := EdgesOf(GraphOf(rels), cls);
    if DeclaredKind(rels, cls, hop.cls).Some? {
      var i: nat :| i < |edges| && edges[i].target == hop.cls;
      assert edges[i].kind == DeclaredKind(rels, cls, hop.cls).value;
      assert EdgeKeeps(GraphOf(rels), kids, cls, pk, i, hop) <==> Keeps(edges[i].kind, kids(hop.cls, pk), hop.id);
    }
  }

  lemma {:induction false} DeclaredIff(rels: seq<Relation>, source: string, target: string)
    ensures DeclaredKind(rels, source, target).Some? <==> target in TargetsOf(rels, source)
    ensures target in TargetsOf(rels, source) <==> HasEdge(GraphOf(rels), source, target)
    decreases |rels|
  {
    GraphIsDeclared(rels, source);
    if rels != [] {
      DeclaredIff(rels[..|rels| - 1], source, target);
    }
    var edges, targets := EdgesOf(GraphOf(rels), source), TargetsOf(rels, source);
    forall i | 0 <= i < |edges| ensures edges[i].target == targets[i] {}
    if target in targets {
      var i :| 0 <= i < |targets| && targets[i] == target;
      assert edges[i].target == target;
    }
  }

  lemma {:induction false} KeptIffShown(rels: seq<Relation>, cols: map<string, nat>, h: Index, rows: seq<Row>,
                                        columns: seq<string>, main: int, cls: string, pk: int, path: seq<Hop>)
    requires WellTyped(rows, columns) && FirstColumns(cols, rows) && SingleSource(rels)
    requires Indexes(h, Shape(GraphOf(rels), ReverseOf(rels), cols), rows)
    ensures KeptPath(GraphOf(rels), KidsIn(h, main), cls, pk, path)
            <==> ShownPath(rels, rows, columns, main, cls, pk, path)
    decreases |path|
  {
    if path != [] {
      var kind := DeclaredKind(rels, cls, path[0].cls);
      SomeEdgeKeepsIff(rels, KidsIn(h, main), cls, pk, path[0]);
      if kind.Some? {
        ReverseMatchesGraph(rels, cls, path[0].cls);
        KeepsIffShown(kind.value, Shape(GraphOf(rels), ReverseOf(rels), cols), rows, columns, main, cls, pk, path[0]);
      }
      KeptIffShown(rels, cols, h, rows, columns, main, path[0].cls, path[0].id, path[1..]);
    }
  }

  /**
   * The nested fields of primary object `main` contain a path of classes and ids exactly when every hop is a
   * declared relation that some row of that object shows; where the relation is to-one, only the first such row
   * counts. So no edge of the rows is lost, none is invented, and a path may combine edges of different rows.
   */
  lemma OutputPathsAreRowPaths(rels: seq<Relation>, cols: map<string, nat>, h: Index, rows: seq<Row>,
                               columns: seq<string>, rank: Ranks, main: int, path: seq<Hop>)
    requires WellTyped(rows, columns) && FirstColumns(cols, rows) && SingleSource(rels)
    requires Indexes(h, Shape(GraphOf(rels), ReverseOf(rels), cols), rows)
    requires Ranked(GraphOf(rels), KidsIn(h, main), rank, columns[0], main) && path != []
    ensures FieldsHavePath(AllFields(GraphOf(rels), KidsIn(h, main), columns[0], main, rank), path) <==>
            ShownPath(rels, rows, columns, main, columns[0], main, path)
  {
    PathsAreKept(GraphOf(rels), KidsIn(h, main), columns[0], main, rank, path);
    KeptIffShown(rels, cols, h, rows, columns, main, columns[0], main, path);
  }

  /** The chain a single row spells out below its primary object, along to-many relations. */
  ghost predicate RowChain(rels: seq<Relation>, row: Row, columns: seq<string>, cls: string, path: seq<Hop>)
    decreases |path|
  {
    path == [] ||
    (var kind := DeclaredKind(rels, cls, path[0].cls);
     kind.Some? && kind.value.ToMany()
     && (exists i :: i > 0 && CellHas(row, columns, i, path[0].cls, path[0].id))
     && RowChain(rels, row, columns, path[0].cls, path[1..]))
  }

  lemma {:induction false} RowChainIsShown(rels: seq<Relation>, rows: seq<Row>, columns: seq<string>, r: nat, main: int,
                                           cls: string, pk: int, path: seq<Hop>)
    requires WellTyped(rows, columns) && r < |rows| && CellHas(rows[r], columns, 0, columns[0], main)
    requires exists p :: CellHas(rows[r], columns, p, cls, pk)
    requires RowChain(rels, rows[r], columns, cls, path)
    ensures ShownPath(rels, rows, columns, main, cls, pk, path)
    decreases |path|
  {
    if path != [] {
      assert RowShows(rows[r], columns, main, cls, pk, path[0].cls, path[0].id);
      RowChainIsShown(rels, rows, columns, r, main, path[0].cls, path[0].id, path[1..]);
    }
  }

  /** Every chain of non-null objects a row spells out appears, whole, in the output of its primary object. */
  lemma EveryRowChainAppears(rels: seq<Relation>, cols: map<string, nat>, h: Index, rows: seq<Row>,
                             columns: seq<string>, rank: Ranks, r: nat, main: int, path: seq<Hop>)
    requires WellTyped(rows, columns) && FirstColumns(cols, rows) && SingleSource(rels)
    requires Indexes(h, Shape(GraphOf(rels), ReverseOf(rels), cols), rows)
    requires Ranked(GraphOf(rels), KidsIn(h, main), rank, columns[0], main) && path != []
    requires r < |rows| && CellHas(rows[r], columns, 0, columns[0], main)
    requires RowChain(rels, rows[r], columns, columns[0], path)
    ensures FieldsHavePath(AllFields(GraphOf(rels), KidsIn(h, main), columns[0], main, rank), path)
  {
    RowChainIsShown(rels, rows, columns, r, main, columns[0], main, path);
    OutputPathsAreRowPaths(rels, cols, h, rows, columns, rank, main, path);
  }

  // ---------- Where the preconditions bite ----------

  /**
   * With several sources for one target only the source declared last is looked up: whatever source an object has, it
   * lists a child exactly if rows show the child, as the kind wants it, beside an object of that last source with the
   * same key. So an object of an earlier source lists none of its children unless such an object shares its key.
   */
  lemma LastSourceListsIff(rels: seq<Relation>, cols: map<string, nat>, h: Index, rows: seq<Row>, columns: seq<string>,
                           rank: Ranks, main: int, source: string, pk: int, target: string, id: int)
    requires WellTyped(rows, columns) && FirstColumns(cols, rows)
    requires Indexes(h, Shape(GraphOf(rels), ReverseOf(rels), cols), rows)
    requires Ranked(GraphOf(rels), KidsIn(h, main), rank, source, pk) && HasEdge(GraphOf(rels), source, target)
    ensures target in ReverseOf(rels) && DeclaredKind(rels, source, target).Some?
    ensures var listed := FieldsHavePath(AllFields(GraphOf(rels), KidsIn(h, main), source, pk, rank),
                                         [Hop(target, id)]);
            && (listed <==> ShownAs(DeclaredKind(rels, source, target).value, rows, columns, main,
                                    ReverseOf(rels)[target], pk, Hop(target, id)))
            && ((forall r, p :: 0 <= r < |rows| ==> !CellHas(rows[r], columns, p, ReverseOf(rels)[target], pk))
                ==> !listed)
  {
    GraphEdges(rels, source, target);
    ReverseIsSomeSource(rels, target);
    var hop := Hop(target, id);
    PathsAreKept(GraphOf(rels), KidsIn(h, main), source, pk, rank, [hop]);
    assert [hop][1..] == [];
    SomeEdgeKeepsIff(rels, KidsIn(h, main), source, pk, hop);
    KeepsIffShown(DeclaredKind(rels, source, target).value, Shape(GraphOf(rels), ReverseOf(rels), cols), rows, columns,
                  main, ReverseOf(rels)[target], pk, hop);
  }

  /** Only one parent per target survives: the earlier of two sources loses its children. */
  lemma LaterSourceWins(a: string, b: string, c: string)
    requires a != b && b != c && a != c
    ensures var rels := [Relation(a, OneToMany, c), Relation(b, OneToMany, c)];
            var row := [Some(Obj(a, Some(1), 100)), Some(Obj(b, Some(2), 200)), Some(Obj(c, Some(3), 300))];
            var s := Shape(GraphOf(rels), ReverseOf(rels), map[a := 0, b := 1, c := 2]);
            && HasEdge(GraphOf(rels), a, c) && Filter(s, [row], 1, c, 1) == []
                && Filter(s, [row], 1, c, 2) == [Obj(c, Some(3), 300)]
  {
    var rels := [Relation(a, OneToMany, c), Relation(b, OneToMany, c)];
    var one := [rels[0]];
    assert one[..0] == [];
    assert ReverseOf(one) == map[c := a];
    assert rels[..1] == one;
    assert ReverseOf(rels) == map[c := b];
    GraphEdges(rels, a, c);
    assert rels[0].source == a && rels[0].target == c;
    var row := [Some(Obj(a, Some(1), 100)), Some(Obj(b, Some(2), 200)), Some(Obj(c, Some(3), 300))];
    var s := Shape(GraphOf(rels), ReverseOf(rels), map[a := 0, b := 1, c := 2]);
    forall pk
      ensures Filter(s, [row], 1, c, pk) == if pk == 2 then [Obj(c, Some(3), 300)] else []
    {
      assert [row][..0] == [];
      assert Filter(s, [], 1, c, pk) == [];
      assert RowFilter(s, row, 1, 1, c, pk) == [];
      assert RowFilter(s, row, 2, 1, c, pk) == [];
      assert RowFilter(s, row, 3, 1, c, pk) == if pk == 2 then [Obj(c, Some(3), 300)] else [];
    }
  }

  /** The rows grouped under a primary object's key are its own, and its class is looked up in the first column. */
  predicate GroupedAlone(s: Shape, rows: seq<Row>, main: Obj, cls: string) {
    && cls in s.reverse && s.reverse[cls] == main.cls && main.cls in s.cols && s.cols[main.cls] == 0
    && forall r :: 0 <= r < |rows| && HasMain(rows[r]) && MainId(rows[r]) == ObjId(main) ==> rows[r][0].value == main
  }

  /** Without a key, or with a key of zero, an object is grouped under its address: its children are not found. */
  lemma ZeroKeyLosesItsChildren(s: Shape, rows: seq<Row>, main: Obj, cls: string)
    requires main.ref != 0 && main.id != Some(ObjId(main)) && GroupedAlone(s, rows, main, cls)
    ensures Filter(s, rows, ObjId(main), cls, ObjId(main)) == []
  {
    forall r | 0 <= r < |rows|
      ensures RowFilter(s, rows[r], |rows[r]|, ObjId(main), cls, ObjId(main)) == []
    {
      EmptyRowFilter(s, rows[r], |rows[r]|, ObjId(main), cls, ObjId(main));
    }
    NoRowNoFilter(s, rows, ObjId(main), cls, ObjId(main));
  }

  /** Among any rows the direct children of a primary object are found exactly if its key is there and not zero. */
  lemma ChildrenAreFoundIff(s: Shape, rows: seq<Row>, main: Obj, cls: string)
    requires main.ref != 0 && GroupedAlone(s, rows, main, cls)
    requires exists r, i :: i > 0 && CellIs(rows, r, i, cls) && rows[r][0] == Some(main)
    ensures Filter(s, rows, ObjId(main), cls, ObjId(main)) != [] <==> main.id.Some? && main.id.value != 0
  {
    if main.id.Some? && main.id.value != 0 {
      var r, i :| i > 0 && CellIs(rows, r, i, cls) && rows[r][0] == Some(main);
      FoundInRow(s, rows[r], |rows[r]|, i, main, cls);
      RowIsPart(s, rows, r, ObjId(main), cls, ObjId(main));
    } else {
      ZeroKeyLosesItsChildren(s, rows, main, cls);
    }
  }

  lemma {:induction false} FoundInRow(s: Shape, row: Row, upTo: nat, i: nat, main: Obj, cls: string)
    requires 0 < i < upTo <= |row| && row[0] == Some(main) && row[i].Some? && row[i].value.cls == cls
    requires main.id.Some? && main.id.value != 0 && cls in s.reverse && s.reverse[cls] == main.cls
             && main.cls in s.cols && s.cols[main.cls] == 0
    ensures RowFilter(s, row, upTo, ObjId(main), cls, ObjId(main)) != []
    decreases upTo
  {
    if i < upTo - 1 {
      FoundInRow(s, row, upTo - 1, i, main, cls);
    } else {
      assert CellBelongs(s, row, i, ObjId(main), cls, ObjId(main));
    }
  }

  lemma {:induction false} RowIsPart(s: Shape, rows: seq<Row>, r: nat, main: int, cls: string, pk: int)
    requires r < |rows| && RowFilter(s, rows[r], |rows[r]|, main, cls, pk) != []
    ensures Filter(s, rows, main, cls, pk) != []
    decreases |rows|
  {
    if r < |rows| - 1 {
      RowIsPart(s, rows[..|rows| - 1], r, main, cls, pk);
    }
  }

  lemma {:induction false} NoRowNoFilter(s: Shape, rows: seq<Row>, main: int, cls: string, pk: int)
    requires forall r :: 0 <= r < |rows| ==> RowFilter(s, rows[r], |rows[r]|, main, cls, pk) == []
    ensures Filter(s, rows, main, cls, pk) == []
    decreases |rows|
  {
    if rows != [] {
      NoRowNoFilter(s, rows[..|rows| - 1], main, cls, pk);
    }
  }

  lemma {:induction false} EmptyRowFilter(s: Shape, row: Row, upTo: nat, main: int, cls: string, pk: int)
    requires upTo <= |row| && (HasMain(row) && MainId(row) == main ==> ParentPk(s, row, cls) != Some(pk))
    ensures RowFilter(s, row, upTo, main, cls, pk) == []
    decreases upTo
  {
    if upTo > 0 {
      EmptyRowFilter(s, row, upTo - 1, main, cls, pk);
    }
  }
}
