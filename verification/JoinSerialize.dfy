/** `select_join_serialize`, whole: no primary object, flat, or nested. */
module JoinSerialize {
  import opened Options
  import opened JoinRows
  import opened NestedJoin
  import opened JoinFlat
  import opened JoinResults

  datatype Output = Absent | Flat(flat: seq<FlatResult>) | Nested(nested: seq<Result>)

  function FlatResultsFor(rows: seq<Row>, primary: string, mains: seq<Obj>): seq<FlatResult>
    decreases |mains|
  {
    if mains == [] then []
    else
      var n := |mains| - 1;
      FlatResultsFor(rows, primary, mains[..n])
      + if mains[n].id.Some? then
          [FlatResult(mains[n].id.value, mains[n], FlatFields(Buckets(rows, mains[n].id.value), primary))]
        else []
  }

  method BuildFlatResults(groups: Groups, primary: string, rows: seq<Row>) returns (results: seq<FlatResult>)
    requires Grouped(groups, rows)
    ensures results == FlatResultsFor(rows, primary, Dedupe(MainsOf(rows)))
  {
    results := [];
    var processed: set<int> := {};
    for i := 0 to |rows|
      invariant results == FlatResultsFor(rows, primary, Dedupe(MainsOf(rows[..i])))
      invariant forall id :: id in processed <==> SeenId(MainsOf(rows[..i]), id)
    {
      MainsStep(rows, i);
      if rows[i] != [] && rows[i][0].Some? {
        var mainId := ObjId(rows[i][0].value);
        var keyed := rows[i][0].value.(id := Some(mainId));
        FlatMainAdded(rows, primary, MainsOf(rows[..i]), keyed);
        if mainId !in processed {
          processed := processed + {mainId};
          assert GroupOf(groups, mainId) == Buckets(rows, mainId);
          var fields := BuildFlat(GroupOf(groups, mainId), primary);
          results := results + [FlatResult(mainId, keyed, fields)];
        }
      }
    }
    assert rows[..|rows|] == rows;
  }

  lemma FlatMainAdded(rows: seq<Row>, primary: string, mains: seq<Obj>, keyed: Obj)
    requires keyed.id.Some?
    ensures FlatResultsFor(rows, primary, Dedupe(mains + [keyed])) ==
            FlatResultsFor(rows, primary, Dedupe(mains))
            + if SeenId(mains, keyed.id.value) then []
              else [FlatResult(keyed.id.value, keyed, FlatFields(Buckets(rows, keyed.id.value), primary))]
    ensures forall id :: SeenId(mains + [keyed], id) <==> SeenId(mains, id) || keyed.id.value == id
  {
    DedupeAppend(mains, keyed);
    if !SeenId(mains, keyed.id.value) {
      assert (Dedupe(mains) + [keyed])[..|Dedupe(mains)|] == Dedupe(mains);
    }
    forall id
      ensures SeenId(mains + [keyed], id) <==> SeenId(mains, id) || keyed.id.value == id
    {
      SeenIdAppend(mains, keyed, id);
    }
  }

  // ---------- When the recursion ends ----------

  function KidsOf(s: Shape, rows: seq<Row>, main: int): Kids {
    (cls, pk) => Filter(s, rows, main, cls, pk)
  }

  /** In no primary object's rows is an object its own descendant. */
  ghost predicate NoLoops(s: Shape, rows: seq<Row>, primary: string) {
    forall main :: !Loops(s.graph, KidsOf(s, rows, main), primary, main)
  }

  function HopsOf(rows: seq<Row>): set<Hop> {
    set r, i | 0 <= r < |rows| && 0 <= i < |rows[r]| && rows[r][i].Some? && rows[r][i].value.id.Some? ::
      Hop(rows[r][i].value.cls, rows[r][i].value.id.value)
  }

  lemma FilteredAreHops(s: Shape, rows: seq<Row>, main: int)
    ensures forall cls, pk, id :: SeenId(KidsOf(s, rows, main)(cls, pk), id) ==> Hop(cls, id) in HopsOf(rows)
  {
    forall cls, pk, id | SeenId(KidsOf(s, rows, main)(cls, pk), id)
      ensures Hop(cls, id) in HopsOf(rows)
    {
      FilterHas(s, rows, main, cls, pk, id);
      var r :| 0 <= r < |rows| && CellIn(s, rows[r], |rows[r]|, main, cls, pk, id);
      var i: nat :| i < |rows[r]| && CellBelongs(s, rows[r], i, main, cls, pk) && rows[r][i].value.id == Some(id);
    }
  }

  lemma SameKidsSameRanks(graph: Graph, a: Kids, b: Kids, rank: Ranks, cls: string, pk: int)
    requires Ranked(graph, a, rank, cls, pk) && forall c, p :: a(c, p) == b(c, p)
    ensures Ranked(graph, b, rank, cls, pk)
  {
    forall c, p, target | rank(c, p).Some? && HasEdge(graph, c, target)
      ensures AllBelow(target, b(target, p), rank(c, p).value, rank)
    {
      assert AllBelow(target, a(target, p), rank(c, p).value, rank);
    }
  }

  /** The recursion over the index ends for every primary object exactly when no object is its own descendant. */
  lemma EndsIff(s: Shape, rows: seq<Row>, h: Index, primary: string)
    requires Indexes(h, s, rows)
    ensures (exists ranks: AllRanks :: Ends(s.graph, h, primary, ranks)) <==> NoLoops(s, rows, primary)
  {
    if ranks: AllRanks :| Ends(s.graph, h, primary, ranks) {
      forall main
        ensures !Loops(s.graph, KidsOf(s, rows, main), primary, main)
      {
        assert Ranked(s.graph, KidsIn(h, main), ranks(main), primary, main);
        SameKidsSameRanks(s.graph, KidsIn(h, main), KidsOf(s, rows, main), ranks(main), primary, main);
        FilteredAreHops(s, rows, main);
        RecursionEndsIff(s.graph, KidsOf(s, rows, main), HopsOf(rows), primary, main);
      }
    }
    if NoLoops(s, rows, primary) {
      var ranks := NoLoopsEnds(s, rows, h, primary);
    }
  }

  lemma NoLoopsEnds(s: Shape, rows: seq<Row>, h: Index, primary: string) returns (ranks: AllRanks)
    requires Indexes(h, s, rows) && NoLoops(s, rows, primary)
    ensures Ends(s.graph, h, primary, ranks)
  {
    ranks := main => (c, p) => Depth(s.graph, KidsOf(s, rows, main), c, p);
    forall main
      ensures Ranked(s.graph, KidsIn(h, main), ranks(main), primary, main)
    {
      var kids := KidsOf(s, rows, main);
      assert !Loops(s.graph, kids, primary, main);
      FilteredAreHops(s, rows, main);
      NoLoopIsBounded(s.graph, kids, HopsOf(rows), primary, main);
      DepthFalls(s.graph, kids);
      assert Ranked(s.graph, kids, (c, p) => Depth(s.graph, kids, c, p), primary, main);
      SameKidsSameRanks(s.graph, kids, KidsIn(h, main), (c, p) => Depth(s.graph, kids, c, p), primary, main);
    }
  }

  // ---------- The whole call ----------

  ghost predicate NoLoopsIn(rows: seq<Row>, rels: seq<Relation>, primary: string) {
    forall cols :: FirstColumns(cols, rows) ==> NoLoops(Shape(GraphOf(rels), ReverseOf(rels), cols), rows, primary)
  }

  /** There is one index of columns, so one look is enough. */
  lemma NoLoopsInIff(rows: seq<Row>, rels: seq<Relation>, primary: string, cols: map<string, nat>)
    requires FirstColumns(cols, rows)
    ensures NoLoopsIn(rows, rels, primary) <==> NoLoops(Shape(GraphOf(rels), ReverseOf(rels), cols), rows, primary)
  {
    forall other | FirstColumns(other, rows)
      ensures other == cols
    {
      FirstColumnsAreUnique(other, cols, rows);
    }
  }

  /**
   * `rels` are the relations that parse. The first row has cells, and no object is its own descendant: only then does
   * the recursion end.
   */
  method SelectJoinSerialize(rows: seq<Row>, rels: seq<Relation>)
    returns (r: Output, ghost h: Index, ghost cols: map<string, nat>, ghost ranks: AllRanks)
    requires rows != [] ==> rows[0] != []
    requires rows != [] && rows[0][0].Some? && rels != [] ==> NoLoopsIn(rows, rels, rows[0][0].value.cls)
    ensures r.Absent? <==> rows == [] || rows[0][0].None?
    ensures r.Flat? <==> !r.Absent? && rels == []
    ensures r.Flat? ==> r.flat == FlatResultsFor(rows, rows[0][0].value.cls, Dedupe(MainsOf(rows)))
    ensures r.Nested? ==>
              && FirstColumns(cols, rows) && Indexes(h, Shape(GraphOf(rels), ReverseOf(rels), cols), rows)
              && Ends(GraphOf(rels), h, rows[0][0].value.cls, ranks)
              && r.nested == ResultsFor(GraphOf(rels), h, rows[0][0].value.cls, Dedupe(MainsOf(rows)), ranks)
  {
    h, cols, ranks := map[], map[], _ => (_, _) => None;
    if rows == [] || rows[0][0].None? {
      return Absent, h, cols, ranks;
    }
    var primary := rows[0][0].value.cls;
    var graph, reverse := ParseRelationships(rels);
    var clsIdx := ClassIndex(rows);
    var groups := GroupChildren(rows);
    GraphIsEmptyIff(rels);
    if graph == map[] {
      var flat := BuildFlatResults(groups, primary, rows);
      return Flat(flat), h, cols, ranks;
    }
    var hierarchy := BuildHierarchy(Shape(graph, reverse, clsIdx), rows);
    NoLoopsInIff(rows, rels, primary, clsIdx);
    ranks := NoLoopsEnds(Shape(graph, reverse, clsIdx), rows, hierarchy, primary);
    var nested := BuildResults(graph, hierarchy, primary, rows, ranks);
    return Nested(nested), hierarchy, clsIdx, ranks;
  }

  /** The code asks whether the graph is empty; it is exactly when no relation parsed. */
  lemma GraphIsEmptyIff(rels: seq<Relation>)
    ensures GraphOf(rels) == map[] <==> rels == []
  {
    if rels != [] {
      assert rels[|rels| - 1].source in GraphOf(rels);
    }
  }
}
