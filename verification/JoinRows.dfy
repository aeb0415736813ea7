/**
 * Rows of a joined query, the relations that nest them, and the index built over them in one pass:
 * main id -> class -> parent id -> objects.
 */
module JoinRows {
  import opened Options

  /** `ref` is Python's `id()`: the identity used when the primary key is missing or zero. */
  datatype Obj = Obj(cls: string, id: Option<int>, ref: int)

  type Row = seq<Option<Obj>>

  datatype Kind = OneToMany | ManyToOne | OneToOne | ManyToMany {
    predicate ToMany() { OneToMany? || ManyToMany? }
  }

  datatype Relation = Relation(source: string, kind: Kind, target: string)
  datatype Edge = Edge(target: string, kind: Kind)

  function ObjId(o: Obj): int {
    if o.id.Some? && o.id.value != 0 then o.id.value else o.ref
  }

  // ---------- Relations ----------

  type Graph = map<string, seq<Edge>>   // an insertion-ordered dict per source

  function EdgesOf(graph: Graph, cls: string): seq<Edge> {
    if cls in graph then graph[cls] else []
  }

  predicate HasTarget(edges: seq<Edge>, target: string) {
    exists i :: 0 <= i < |edges| && edges[i].target == target
  }

  /** Assigning a key of an insertion-ordered dict: in place if present, at the end if not. */
  function SetEdge(edges: seq<Edge>, e: Edge): seq<Edge>
    decreases |edges|
  {
    if edges == [] then [e]
    else if edges[0].target == e.target then [e] + edges[1..]
    else [edges[0]] + SetEdge(edges[1..], e)
  }

  lemma HasTargetCons(x: Edge, rest: seq<Edge>, target: string)
    ensures HasTarget([x] + rest, target) <==> x.target == target || HasTarget(rest, target)
  {
    var edges := [x] + rest;
    if HasTarget(rest, target) {
      var i :| 0 <= i < |rest| && rest[i].target == target;
      assert edges[i + 1] == rest[i];
    }
    if HasTarget(edges, target) {
      var i :| 0 <= i < |edges| && edges[i].target == target;
      assert i == 0 || rest[i - 1] == edges[i];
    }
    assert edges[0] == x;
  }

  lemma {:induction false} SetEdgeTargets(edges: seq<Edge>, e: Edge, target: string)
    ensures HasTarget(SetEdge(edges, e), target) <==> target == e.target || HasTarget(edges, target)
    decreases |edges|
  {
    if edges == [] {
      HasTargetCons(e, [], target);
      assert [e] + [] == [e];
    } else {
      assert edges == [edges[0]] + edges[1..];
      HasTargetCons(edges[0], edges[1..], target);
      if edges[0].target == e.target {
        HasTargetCons(e, edges[1..], target);
      } else {
        SetEdgeTargets(edges[1..], e, target);
        HasTargetCons(edges[0], SetEdge(edges[1..], e), target);
      }
    }
  }

  function GraphOf(rels: seq<Relation>): Graph
    decreases |rels|
  {
    if rels == [] then map[]
    else
      var g := GraphOf(rels[..|rels| - 1]);
      var r := rels[|rels| - 1];
      g[r.source := SetEdge(EdgesOf(g, r.source), Edge(r.target, r.kind))]
  }

  function ReverseOf(rels: seq<Relation>): map<string, string>
    decreases |rels|
  {
    if rels == [] then map[]
    else ReverseOf(rels[..|rels| - 1])[rels[|rels| - 1].target := rels[|rels| - 1].source]
  }

  method ParseRelationships(rels: seq<Relation>) returns (graph: Graph, reverse: map<string, string>)
    ensures graph == GraphOf(rels) && reverse == ReverseOf(rels)
  {
    graph, reverse := map[], map[];
    for i := 0 to |rels|
      invariant graph == GraphOf(rels[..i]) && reverse == ReverseOf(rels[..i])
    {
      var r := rels[i];
      assert rels[..i + 1][..i] == rels[..i];
      graph := graph[r.source := SetEdge(EdgesOf(graph, r.source), Edge(r.target, r.kind))];
      reverse := reverse[r.target := r.source];
    }
    assert rels[..|rels|] == rels;
  }

  // ---------- What the graph says about the relations ----------

  /** The targets declared for a source, in the order of their first declarations. */
  function TargetsOf(rels: seq<Relation>, source: string): seq<string>
    decreases |rels|
  {
    if rels == [] then []
    else
      var r, before := rels[|rels| - 1], TargetsOf(rels[..|rels| - 1], source);
      if r.source == source && r.target !in before then before + [r.target] else before
  }

  /** The kind under which a relation was declared last. */
  function DeclaredKind(rels: seq<Relation>, source: string, target: string): Option<Kind>
    decreases |rels|
  {
    if rels == [] then None
    else
      var r := rels[|rels| - 1];
      if r.source == source && r.target == target then Some(r.kind)
      else DeclaredKind(rels[..|rels| - 1], source, target)
  }

  lemma {:induction false} SetEdgeIs(edges: seq<Edge>, e: Edge)
    requires forall i, j :: 0 <= i < j < |edges| ==> edges[i].target != edges[j].target
    ensures |SetEdge(edges, e)| == |edges| + if HasTarget(edges, e.target) then 0 else 1
    ensures forall i :: 0 <= i < |edges| ==> SetEdge(edges, e)[i] == if edges[i].target == e.target then e else edges[i]
    ensures !HasTarget(edges, e.target) ==> SetEdge(edges, e)[|edges|] == e
    decreases |edges|
  {
    if edges != [] {
      var rest := edges[1..];
      assert edges == [edges[0]] + rest;
      HasTargetCons(edges[0], rest, e.target);
      if edges[0].target == e.target {
        forall i | 0 < i < |edges| ensures edges[i].target != e.target {}
      } else {
        SetEdgeIs(rest, e);
        forall i | 0 < i < |edges| ensures edges[i] == rest[i - 1] {}
      }
    }
  }

  /** The edges of a class: its declared targets in that order, each with the kind declared last. */
  predicate EdgesAreDeclared(edges: seq<Edge>, rels: seq<Relation>, source: string) {
    var targets := TargetsOf(rels, source);
    && |edges| == |targets| && (forall i, j :: 0 <= i < j < |targets| ==> targets[i] != targets[j])
    && forall i :: 0 <= i < |edges| ==>
         edges[i].target == targets[i] && DeclaredKind(rels, source, targets[i]) == Some(edges[i].kind)
  }

  lemma OneMoreDeclared(edges: seq<Edge>, init: seq<Relation>, r: Relation, rels: seq<Relation>)
    requires EdgesAreDeclared(edges, init, r.source) && rels == init + [r]
    ensures EdgesAreDeclared(SetEdge(edges, Edge(r.target, r.kind)), rels, r.source)
  {
    var targets, e := TargetsOf(init, r.source), Edge(r.target, r.kind);
    assert rels[..|rels| - 1] == init;
    SetEdgeIs(edges, e);
    if r.target in targets {
      var k :| 0 <= k < |targets| && targets[k] == r.target;
      assert edges[k].target == r.target;
    }
  }

  lemma {:induction false} GraphIsDeclared(rels: seq<Relation>, source: string)
    ensures EdgesAreDeclared(EdgesOf(GraphOf(rels), source), rels, source)
    decreases |rels|
  {
    if rels != [] {
      var n := |rels| - 1;
      var init, r := rels[..n], rels[n];
      GraphIsDeclared(init, source);
      if r.source == source {
        assert rels == init + [r];
        OneMoreDeclared(EdgesOf(GraphOf(init), source), init, r, rels);
      }
    }
  }

  /** Each target hangs below one source. */
  predicate SingleSource(rels: seq<Relation>) {
    forall i, j :: 0 <= i < |rels| && 0 <= j < |rels| && rels[i].target == rels[j].target
        ==> rels[i].source == rels[j].source
  }

  predicate HasEdge(graph: Graph, source: string, target: string) {
    HasTarget(EdgesOf(graph, source), target)
  }

  predicate Relates(rels: seq<Relation>, source: string, target: string) {
    exists i :: 0 <= i < |rels| && rels[i].source == source && rels[i].target == target
  }

  lemma RelatesLast(rels: seq<Relation>, source: string, target: string)
    requires rels != []
    ensures Relates(rels, source, target) <==>
            (rels[|rels| - 1].source == source && rels[|rels| - 1].target == target)
                || Relates(rels[..|rels| - 1], source, target)
  {
    var n := |rels| - 1;
    var init := rels[..n];
    if Relates(rels, source, target) {
      var i :| 0 <= i < |rels| && rels[i].source == source && rels[i].target == target;
      assert i == n || init[i] == rels[i];
    }
    if Relates(init, source, target) {
      var i :| 0 <= i < |init| && init[i].source == source && init[i].target == target;
      assert rels[i] == init[i];
    }
  }

  lemma {:induction false} GraphEdges(rels: seq<Relation>, source: string, target: string)
    ensures HasEdge(GraphOf(rels), source, target) <==> Relates(rels, source, target)
    decreases |rels|
  {
    if rels != [] {
      var n := |rels| - 1;
      RelatesLast(rels, source, target);
      GraphEdges(rels[..n], source, target);
      SetEdgeTargets(EdgesOf(GraphOf(rels[..n]), rels[n].source), Edge(rels[n].target, rels[n].kind), target);
    }
  }

  lemma {:induction false} ReverseIsSomeSource(rels: seq<Relation>, target: string)
    ensures target in ReverseOf(rels) <==> exists i :: 0 <= i < |rels| && rels[i].target == target
    ensures target in ReverseOf(rels)
            ==> exists i :: 0 <= i < |rels| && rels[i].target == target && rels[i].source == ReverseOf(rels)[target]
    decreases |rels|
  {
    if rels != [] {
      var n := |rels| - 1;
      var init := rels[..n];
      ReverseIsSomeSource(init, target);
      if rels[n].target != target && target in ReverseOf(init) {
        var i :| 0 <= i < |init| && init[i].target == target && init[i].source == ReverseOf(init)[target];
        assert rels[i] == init[i];
      }
      forall i | 0 <= i < |rels| && rels[i].target == target ensures i == n || init[i].target == target {}
    }
  }

  /** With one source per target, the reverse lookup and the graph say the same. */
  lemma ReverseMatchesGraph(rels: seq<Relation>, source: string, target: string)
    requires SingleSource(rels)
    ensures target in ReverseOf(rels) && ReverseOf(rels)[target] == source <==> HasEdge(GraphOf(rels), source, target)
  {
    GraphEdges(rels, source, target);
    ReverseIsSomeSource(rels, target);
  }

  /** The reverse lookup agrees with every edge of the graph exactly when each target hangs below one source. */
  lemma ReverseAgreesIff(rels: seq<Relation>)
    ensures SingleSource(rels) <==>
            forall source, target :: HasEdge(GraphOf(rels), source, target) ==> LooksUp(rels, source, target)
  {
    if SingleSource(rels) {
      forall source, target | HasEdge(GraphOf(rels), source, target)
        ensures LooksUp(rels, source, target)
      {
        ReverseMatchesGraph(rels, source, target);
      }
    }
    forall i | 0 <= i < |rels|
      ensures HasEdge(GraphOf(rels), rels[i].source, rels[i].target)
    {
      GraphEdges(rels, rels[i].source, rels[i].target);
    }
    if forall source, target :: HasEdge(GraphOf(rels), source, target) ==> LooksUp(rels, source, target) {
      forall i | 0 <= i < |rels|
        ensures LooksUp(rels, rels[i].source, rels[i].target)
      {
        assert HasEdge(GraphOf(rels), rels[i].source, rels[i].target);
      }
    }
  }

  predicate LooksUp(rels: seq<Relation>, source: string, target: string) {
    target in ReverseOf(rels) && ReverseOf(rels)[target] == source
  }

  // ---------- Columns ----------

  predicate CellIs(rows: seq<Row>, r: int, i: int, cls: string) {
    0 <= r < |rows| && 0 <= i < |rows[r]| && rows[r][i].Some? && rows[r][i].value.cls == cls
  }

  /** Where class `cls` first occurs, row by row and left to right. */
  ghost predicate FirstAt(rows: seq<Row>, cls: string, r: int, i: int) {
    CellIs(rows, r, i, cls) && forall k, j :: (k < r || (k == r && j < i)) ==> !CellIs(rows, k, j, cls)
  }

  /**
   * Each class that occurs before cell (r, i), and no other than one that occurs, with the column of its first
   * occurrence.
   */
  ghost predicate ColumnsUpTo(cols: map<string, nat>, rows: seq<Row>, r: int, i: int) {
    && (forall c :: c in cols ==> exists k, j :: FirstAt(rows, c, k, j) && cols[c] == j)
    && (forall k, j, c :: (k < r || (k == r && j < i)) && CellIs(rows, k, j, c) ==> c in cols)
  }

  ghost predicate FirstColumns(cols: map<string, nat>, rows: seq<Row>) {
    ColumnsUpTo(cols, rows, |rows|, 0)
  }

  method ClassIndex(rows: seq<Row>) returns (cols: map<string, nat>)
    ensures FirstColumns(cols, rows)
  {
    cols := map[];
    for r := 0 to |rows|
      invariant ColumnsUpTo(cols, rows, r, 0)
    {
      for i := 0 to |rows[r]|
        invariant ColumnsUpTo(cols, rows, r, i)
      {
        if rows[r][i].Some? && rows[r][i].value.cls !in cols {
          var c := rows[r][i].value.cls;
          assert FirstAt(rows, c, r, i);
          cols := cols[c := i];
        }
      }
    }
  }

  /** There is one such index. */
  lemma FirstColumnsAreUnique(a: map<string, nat>, b: map<string, nat>, rows: seq<Row>)
    requires FirstColumns(a, rows) && FirstColumns(b, rows)
    ensures a == b
  {
    FirstColumnsAgree(a, b, rows);
    FirstColumnsAgree(b, a, rows);
  }

  lemma FirstColumnsAgree(a: map<string, nat>, b: map<string, nat>, rows: seq<Row>)
    requires FirstColumns(a, rows) && FirstColumns(b, rows)
    ensures forall c :: c in a ==> c in b && a[c] == b[c]
  {
    forall c | c in a
      ensures c in b && a[c] == b[c]
    {
      var r, i :| FirstAt(rows, c, r, i) && a[c] == i;
      assert CellIs(rows, r, i, c);
      var k, j :| FirstAt(rows, c, k, j) && b[c] == j;
      assert CellIs(rows, k, j, c);
    }
  }

  // ---------- What each cell contributes ----------

  datatype Shape = Shape(graph: Graph, reverse: map<string, string>, cols: map<string, nat>)

  predicate HasMain(row: Row) { row != [] && row[0].Some? }

  function MainId(row: Row): int
    requires HasMain(row)
  {
    ObjId(row[0].value)
  }

  /** The object a cell of class `cls` hangs below, `None` when it is not indexed. */
  function ParentOf(s: Shape, row: Row, cls: string): Option<Obj>
    requires HasMain(row)
  {
    if cls in s.reverse then
      var p := s.reverse[cls];
      if p in s.cols && s.cols[p] < |row| then row[s.cols[p]] else None
    else if HasEdge(s.graph, row[0].value.cls, cls) then row[0]
    else None
  }

  function ParentPk(s: Shape, row: Row, cls: string): Option<int>
    requires HasMain(row)
  {
    var p := ParentOf(s, row, cls);
    if p.Some? then p.value.id else None
  }

  predicate CellBelongs(s: Shape, row: Row, i: nat, main: int, cls: string, pk: int)
    requires i < |row|
  {
    && HasMain(row) && MainId(row) == main && i > 0
    && row[i].Some? && row[i].value.cls == cls && ParentPk(s, row, cls) == Some(pk)
  }

  /** Where the reverse lookup is silent, a cell hangs below the primary object, if that has a relation to its class. */
  lemma WithoutReverse(s: Shape, row: Row, i: nat, main: int, cls: string, pk: int)
    requires i < |row| && cls !in s.reverse
    ensures CellBelongs(s, row, i, main, cls, pk) <==>
            && HasMain(row) && MainId(row) == main && i > 0 && row[i].Some? && row[i].value.cls == cls
            && HasEdge(s.graph, row[0].value.cls, cls) && row[0].value.id == Some(pk)
  {
  }

  /** It never is about a class that a declared relation leads to; objects of other classes are not indexed. */
  lemma OnlyTargetsAreIndexed(rels: seq<Relation>, s: Shape, row: Row, i: nat, main: int, cls: string, pk: int)
    requires s.graph == GraphOf(rels) && s.reverse == ReverseOf(rels) && i < |row|
    ensures forall source :: HasEdge(s.graph, source, cls) ==> cls in s.reverse
    ensures CellBelongs(s, row, i, main, cls, pk) ==> exists k :: 0 <= k < |rels| && rels[k].target == cls
  {
    ReverseIsSomeSource(rels, cls);
    forall source | HasEdge(s.graph, source, cls)
      ensures cls in s.reverse
    {
      GraphEdges(rels, source, cls);
    }
  }

  /** The plain filter: the objects of one row that belong under (main, cls, pk), left to right. */
  function RowFilter(s: Shape, row: Row, upTo: nat, main: int, cls: string, pk: int): seq<Obj>
    requires upTo <= |row|
  {
    if upTo == 0 then []
    else
      RowFilter(s, row, upTo - 1, main, cls, pk)
      + (if CellBelongs(s, row, upTo - 1, main, cls, pk) then [row[upTo - 1].value] else [])
  }

  function Filter(s: Shape, rows: seq<Row>, main: int, cls: string, pk: int): seq<Obj>
    decreases |rows|
  {
    if rows == [] then []
    else
      var n := |rows| - 1;
      Filter(s, rows[..n], main, cls, pk) + RowFilter(s, rows[n], |rows[n]|, main, cls, pk)
  }

  // ---------- The index ----------

  type Index = map<int, map<string, map<int, seq<Obj>>>>

  function Lookup(h: Index, main: int, cls: string, pk: int): seq<Obj> {
    if main in h && cls in h[main] && pk in h[main][cls] then h[main][cls][pk] else []
  }

  /** `hierarchy[main][cls][pk].append(o)` on nested default dicts. */
  function Append(h: Index, main: int, cls: string, pk: int, o: Obj): Index {
    var byClass := if main in h then h[main] else map[];
    var byParent := if cls in byClass then byClass[cls] else map[];
    var objs := if pk in byParent then byParent[pk] else [];
    h[main := byClass[cls := byParent[pk := objs + [o]]]]
  }

  lemma AppendAtOneKey(h: Index, main: int, cls: string, pk: int, o: Obj, m: int, c: string, p: int)
    ensures Lookup(Append(h, main, cls, pk, o), m, c, p)
            == Lookup(h, m, c, p) + if m == main && c == cls && p == pk then [o] else []
  {
  }

  ghost predicate Indexes(h: Index, s: Shape, rows: seq<Row>) {
    forall m, c, p :: Lookup(h, m, c, p) == Filter(s, rows, m, c, p)
  }

  ghost predicate IndexesUpTo(h: Index, s: Shape, rows: seq<Row>, row: Row, upTo: nat)
    requires upTo <= |row|
  {
    forall m, c, p :: Lookup(h, m, c, p) == Filter(s, rows, m, c, p) + RowFilter(s, row, upTo, m, c, p)
  }

  lemma {:induction false} NoMainNoObjects(s: Shape, row: Row, upTo: nat, m: int, c: string, p: int)
    requires upTo <= |row| && (!HasMain(row) || upTo <= 1)
    ensures RowFilter(s, row, upTo, m, c, p) == []
    decreases upTo
  {
    if upTo > 0 {
      NoMainNoObjects(s, row, upTo - 1, m, c, p);
    }
  }

  lemma RowDone(h: Index, s: Shape, rows: seq<Row>, i: nat)
    requires i < |rows| && IndexesUpTo(h, s, rows[..i], rows[i], |rows[i]|)
    ensures Indexes(h, s, rows[..i + 1])
  {
    assert rows[..i + 1][..i] == rows[..i];
  }

  /** The parent key under which a cell is indexed, `None` when it is skipped. */
  function CellKey(s: Shape, row: Row, j: nat): Option<int>
    requires j < |row|
  {
    if j > 0 && HasMain(row) && row[j].Some? then ParentPk(s, row, row[j].value.cls) else None
  }

  lemma RowFilterStep(s: Shape, row: Row, j: nat, m: int, c: string, p: int)
    requires j < |row|
    ensures RowFilter(s, row, j + 1, m, c, p) ==
            RowFilter(s, row, j, m, c, p)
            + if CellKey(s, row, j) == Some(p) && MainId(row) == m && row[j].value.cls == c then [row[j].value] else []
  {
  }

  lemma CellDone(h: Index, next: Index, s: Shape, rows: seq<Row>, row: Row, j: nat, key: Option<int>)
    requires j < |row| && IndexesUpTo(h, s, rows, row, j) && key == CellKey(s, row, j)
    requires next == if key.Some? then Append(h, MainId(row), row[j].value.cls, key.value, row[j].value) else h
    ensures IndexesUpTo(next, s, rows, row, j + 1)
  {
    forall m, c, p
      ensures Lookup(next, m, c, p) == Filter(s, rows, m, c, p) + RowFilter(s, row, j + 1, m, c, p)
    {
      RowFilterStep(s, row, j, m, c, p);
      if key.Some? {
        AppendAtOneKey(h, MainId(row), row[j].value.cls, key.value, row[j].value, m, c, p);
      }
    }
  }

  lemma RowStarts(h: Index, s: Shape, rows: seq<Row>, row: Row, upTo: nat)
    requires Indexes(h, s, rows) && upTo <= |row| && (!HasMain(row) || upTo <= 1)
    ensures IndexesUpTo(h, s, rows, row, upTo)
  {
    forall m, c, p
      ensures RowFilter(s, row, upTo, m, c, p) == []
    {
      NoMainNoObjects(s, row, upTo, m, c, p);
    }
  }

  method IndexRow(s: Shape, row: Row, start: Index, ghost rows: seq<Row>) returns (h: Index)
    requires Indexes(start, s, rows)
    ensures IndexesUpTo(h, s, rows, row, |row|)
  {
    h := start;
    if row == [] || row[0].None? {
      RowStarts(h, s, rows, row, |row|);
      return;
    }
    var mainId := ObjId(row[0].value);
    RowStarts(h, s, rows, row, 1);
    for j := 1 to |row|
      invariant IndexesUpTo(h, s, rows, row, j)
    {
      h := IndexNextCell(s, row, mainId, j, h, rows);
    }
  }

  method IndexNextCell(s: Shape, row: Row, mainId: int, j: nat, h: Index, ghost rows: seq<Row>) returns (next: Index)
    requires 0 < j < |row| && HasMain(row) && mainId == MainId(row) && IndexesUpTo(h, s, rows, row, j)
    ensures IndexesUpTo(next, s, rows, row, j + 1)
  {
    next := IndexCell(s, row, mainId, j, h);
    CellDone(h, next, s, rows, row, j, CellKey(s, row, j));
  }

  method IndexCell(s: Shape, row: Row, mainId: int, j: nat, h: Index) returns (next: Index)
    requires 0 < j < |row| && HasMain(row) && mainId == MainId(row)
    ensures next == if CellKey(s, row, j).Some?
            then Append(h, mainId, row[j].value.cls, CellKey(s, row, j).value, row[j].value) else h
  {
    next := h;
    if row[j].Some? {
      var pk := ParentPk(s, row, row[j].value.cls);
      if pk.Some? {
        next := Append(h, mainId, row[j].value.cls, pk.value, row[j].value);
      }
    }
  }

  /** One pass over the rows builds exactly the plain filter, at every key, for any rows and relations. */
  method BuildHierarchy(s: Shape, rows: seq<Row>) returns (h: Index)
    ensures Indexes(h, s, rows)
  {
    h := map[];
    for i := 0 to |rows|
      invariant Indexes(h, s, rows[..i])
    {
      h := IndexRow(s, rows[i], h, rows[..i]);
      RowDone(h, s, rows, i);
    }
    assert rows[..|rows|] == rows;
  }

  // ---------- Deduplication ----------

  function Dedupe(objs: seq<Obj>): seq<Obj>
    decreases |objs|
  {
    if objs == [] then []
    else
      var n := |objs| - 1;
      var kept := Dedupe(objs[..n]);
      if objs[n].id.Some? && !SeenId(objs[..n], objs[n].id.value) then kept + [objs[n]] else kept
  }

  predicate SeenId(objs: seq<Obj>, id: int) {
    exists i :: 0 <= i < |objs| && objs[i].id == Some(id)
  }

  method DedupeObjects(objs: seq<Obj>) returns (unique: seq<Obj>)
    ensures unique == Dedupe(objs)
  {
    var seen: set<int> := {};
    unique := [];
    for i := 0 to |objs|
      invariant unique == Dedupe(objs[..i])
      invariant forall id :: id in seen <==> SeenId(objs[..i], id)
    {
      assert objs[..i + 1][..i] == objs[..i];
      assert forall id :: SeenId(objs[..i + 1], id) <==> SeenId(objs[..i], id) || objs[i].id == Some(id) by {
        forall id
          ensures SeenId(objs[..i + 1], id) <==> SeenId(objs[..i], id) || objs[i].id == Some(id)
        {
          if SeenId(objs[..i], id) {
            var k :| 0 <= k < i && objs[..i][k].id == Some(id);
            assert objs[..i + 1][k].id == Some(id);
          }
          if objs[i].id == Some(id) {
            assert objs[..i + 1][i].id == Some(id);
          }
          if SeenId(objs[..i + 1], id) {
            var k :| 0 <= k < i + 1 && objs[..i + 1][k].id == Some(id);
            assert k == i || objs[..i][k].id == Some(id);
          }
        }
      }
      if objs[i].id.Some? && objs[i].id.value !in seen {
        seen := seen + {objs[i].id.value};
        unique := unique + [objs[i]];
      }
    }
    assert objs[..|objs|] == objs;
  }

  ghost predicate FirstWithItsId(objs: seq<Obj>, i: nat) {
    i < |objs| && objs[i].id.Some? && forall k :: 0 <= k < i ==> objs[k].id != objs[i].id
  }

  lemma FirstInPrefix(objs: seq<Obj>, i: nat)
    requires i + 1 < |objs|
    ensures FirstWithItsId(objs, i) <==> FirstWithItsId(objs[..|objs| - 1], i)
  {
    var init := objs[..|objs| - 1];
    assert forall k :: 0 <= k <= i ==> init[k] == objs[k];
  }

  lemma LastIsFirst(objs: seq<Obj>)
    requires objs != []
    ensures FirstWithItsId(objs, |objs| - 1) <==>
            objs[|objs| - 1].id.Some? && !SeenId(objs[..|objs| - 1], objs[|objs| - 1].id.value)
  {
    var n := |objs| - 1;
    assert forall k :: 0 <= k < n ==> objs[..n][k] == objs[k];
  }

  /** The ascending list of the indices where an id appears first. */
  ghost predicate FirstIndices(objs: seq<Obj>, at: seq<nat>) {
    && (forall k :: 0 <= k < |at| ==> FirstWithItsId(objs, at[k]))
    && (forall j, k :: 0 <= j < k < |at| ==> at[j] < at[k])
    && (forall i: nat :: FirstWithItsId(objs, i) ==> i in at)
  }

  lemma FirstIndicesStep(objs: seq<Obj>, before: seq<nat>, at: seq<nat>)
    requires objs != [] && FirstIndices(objs[..|objs| - 1], before)
    requires at == if FirstWithItsId(objs, |objs| - 1) then before + [|objs| - 1] else before
    ensures FirstIndices(objs, at)
  {
    var n := |objs| - 1;
    forall i: nat | i < n
      ensures FirstWithItsId(objs, i) <==> FirstWithItsId(objs[..n], i)
    {
      FirstInPrefix(objs, i);
    }
    forall i: nat | FirstWithItsId(objs, i)
      ensures i in at
    {
      if i < n {
        assert i in before;
      } else {
        assert at[|before|] == n;
      }
    }
  }

  /** What survives: the first object of each id, in order of first appearance, and nothing without an id. */
  lemma {:induction false} DedupeKeepsFirsts(objs: seq<Obj>) returns (at: seq<nat>)
    ensures FirstIndices(objs, at) && |at| == |Dedupe(objs)|
    ensures forall k :: 0 <= k < |at| ==> Dedupe(objs)[k] == objs[at[k]]
    decreases |objs|
  {
    if objs == [] {
      at := [];
    } else {
      var n := |objs| - 1;
      var before := DedupeKeepsFirsts(objs[..n]);
      LastIsFirst(objs);
      at := if FirstWithItsId(objs, n) then before + [n] else before;
      FirstIndicesStep(objs, before, at);
    }
  }

  lemma DedupeHasId(objs: seq<Obj>, id: int)
    ensures (exists o :: o in Dedupe(objs) && o.id == Some(id)) <==> SeenId(objs, id)
    ensures forall o :: o in Dedupe(objs) ==> o in objs && o.id.Some?
    decreases |objs|
  {
    var at := DedupeKeepsFirsts(objs);
    if SeenId(objs, id) {
      var i :| 0 <= i < |objs| && objs[i].id == Some(id);
      var first := FirstIndex(objs, id, i);
      assert FirstWithItsId(objs, first);
      var k :| 0 <= k < |at| && at[k] == first;
      assert Dedupe(objs)[k].id == Some(id);
    }
  }

  lemma {:induction false} FirstIndex(objs: seq<Obj>, id: int, i: nat) returns (first: nat)
    requires i < |objs| && objs[i].id == Some(id)
    ensures first <= i && objs[first].id == Some(id) && forall k :: 0 <= k < first ==> objs[k].id != Some(id)
    decreases i
  {
    if k :| 0 <= k < i && objs[k].id == Some(id) {
      first := FirstIndex(objs, id, k);
    } else {
      first := i;
    }
  }
}
