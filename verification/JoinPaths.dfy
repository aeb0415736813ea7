/** Which objects nested results show, where: every child of a to-many relation, the first with a key of a to-one. */
module JoinPaths {
  import opened Options
  import opened JoinRows
  import opened NestedJoin

  // ---------- The objects a relation keeps ----------

  /** The first of the objects with an id has this one. */
  predicate FirstHasId(objs: seq<Obj>, id: int) {
    exists i :: 0 <= i < |objs| && objs[i].id == Some(id) && forall k :: 0 <= k < i ==> objs[k].id.None?
  }

  predicate Keeps(kind: Kind, objs: seq<Obj>, id: int) {
    if kind.ToMany() then SeenId(objs, id) else FirstHasId(objs, id)
  }

  function Front(kind: Kind, objs: seq<Obj>): seq<Obj> {
    if kind.ToMany() || objs == [] then objs else objs[..1]
  }

  function Kept(kind: Kind, objs: seq<Obj>): seq<Obj> {
    Front(kind, Dedupe(objs))
  }

  lemma FirstOfUnique(objs: seq<Obj>, id: int)
    ensures Dedupe(objs) == [] <==> forall i :: 0 <= i < |objs| ==> objs[i].id.None?
    ensures Dedupe(objs) != [] ==> (Dedupe(objs)[0].id == Some(id) <==> FirstHasId(objs, id))
    ensures Dedupe(objs) == [] ==> !FirstHasId(objs, id)
  {
    var at := DedupeKeepsFirsts(objs);
    forall i | 0 <= i < |objs| && objs[i].id.Some?
      ensures at != [] && at[0] <= i
    {
      NoneBefore(objs, at, i);
    }
    if at != [] {
      assert FirstWithItsId(objs, at[0]) && Dedupe(objs)[0] == objs[at[0]];
      if i :| 0 <= i < |objs| && objs[i].id == Some(id) && forall k :: 0 <= k < i ==> objs[k].id.None? {
        assert at[0] == i;
      }
    }
  }

  lemma KeepsIff(kind: Kind, objs: seq<Obj>, id: int)
    ensures SeenId(Kept(kind, objs), id) <==> Keeps(kind, objs, id)
  {
    DedupeSeesTheSame(objs, id);
    FirstOfUnique(objs, id);
  }

  // ---------- The trees under a relation ----------

  lemma {:induction false} ItemsCount(graph: Graph, kids: Kids, cls: string, objs: seq<Obj>, bound: nat, rank: Ranks)
    requires Falls(graph, kids, rank) && AllBelow(cls, objs, bound, rank)
    ensures |Items(graph, kids, cls, objs, bound, rank)| == |objs|
    decreases |objs|
  {
    if objs != [] {
      ItemsCount(graph, kids, cls, objs[..|objs| - 1], bound, rank);
    }
  }

  lemma {:induction false} FirstItem(graph: Graph, kids: Kids, cls: string, objs: seq<Obj>, one: seq<Obj>, bound: nat,
                                     rank: Ranks)
    requires Falls(graph, kids, rank) && AllBelow(cls, objs, bound, rank) && objs != [] && one == [objs[0]]
    ensures AllBelow(cls, one, bound, rank)
    ensures var items := Items(graph, kids, cls, objs, bound, rank);
            items != [] && [items[0]] == Items(graph, kids, cls, one, bound, rank)
    decreases |objs|
  {
    if |objs| == 1 {
      assert objs == one;
    } else {
      var init := objs[..|objs| - 1];
      assert init[0] == objs[0];
      FirstItem(graph, kids, cls, init, one, bound, rank);
    }
  }

  /** The trees a relation shows are those of the objects it keeps. */
  lemma NestKeeps(graph: Graph, kids: Kids, cls: string, pk: int, kind: Kind, bound: nat, rank: Ranks)
    requires Falls(graph, kids, rank) && AllBelow(cls, kids(cls, pk), bound, rank)
    ensures AllBelow(cls, Kept(kind, kids(cls, pk)), bound, rank)
    ensures TreesOf(Nest(kind, Build(graph, kids, cls, pk, bound, rank)))
            == Items(graph, kids, cls, Kept(kind, kids(cls, pk)), bound, rank)
  {
    var unique := UniqueBelow(graph, kids, cls, pk, bound, rank);
    NestKeepsOf(graph, kids, cls, kind, unique, bound, rank);
  }

  lemma UniqueBelow(graph: Graph, kids: Kids, cls: string, pk: int, bound: nat, rank: Ranks) returns (unique: seq<Obj>)
    requires Falls(graph, kids, rank) && AllBelow(cls, kids(cls, pk), bound, rank)
    ensures unique == Dedupe(kids(cls, pk)) && AllBelow(cls, unique, bound, rank)
    ensures Build(graph, kids, cls, pk, bound, rank) == Items(graph, kids, cls, unique, bound, rank)
  {
    unique := Dedupe(kids(cls, pk));
    DedupeHasId(kids(cls, pk), 0);
  }

  lemma NestKeepsOf(graph: Graph, kids: Kids, cls: string, kind: Kind, objs: seq<Obj>, bound: nat, rank: Ranks)
    requires Falls(graph, kids, rank) && AllBelow(cls, objs, bound, rank)
    ensures AllBelow(cls, Front(kind, objs), bound, rank)
    ensures TreesOf(Nest(kind, Items(graph, kids, cls, objs, bound, rank)))
            == Items(graph, kids, cls, Front(kind, objs), bound, rank)
  {
    if kind.ToMany() || objs == [] {
    } else {
      FirstItem(graph, kids, cls, objs, objs[..1], bound, rank);
      FirstOfMany(kind, Items(graph, kids, cls, objs, bound, rank));
    }
  }

  lemma FirstOfMany(kind: Kind, trees: seq<Tree>)
    requires trees != [] && !kind.ToMany()
    ensures TreesOf(Nest(kind, trees)) == [trees[0]]
  {
  }

  lemma {:induction false} ItemAt(graph: Graph, kids: Kids, cls: string, objs: seq<Obj>, bound: nat, rank: Ranks,
                                  k: nat)
    requires Falls(graph, kids, rank) && AllBelow(cls, objs, bound, rank) && k < |objs| && objs[k].id.Some?
    ensures |Items(graph, kids, cls, objs, bound, rank)| == |objs|
    ensures objs[k] in objs && rank(cls, objs[k].id.value).Some?
    ensures Items(graph, kids, cls, objs, bound, rank)[k]
            == Tree(objs[k], AllFields(graph, kids, cls, objs[k].id.value, rank))
    decreases |objs|
  {
    ItemsCount(graph, kids, cls, objs, bound, rank);
    if k < |objs| - 1 {
      ItemAt(graph, kids, cls, objs[..|objs| - 1], bound, rank, k);
    }
  }

  lemma {:induction false} FieldAt(graph: Graph, kids: Kids, cls: string, pk: int, upTo: nat, rank: Ranks, i: nat)
    requires Falls(graph, kids, rank) && rank(cls, pk).Some? && i < upTo <= |EdgesOf(graph, cls)|
    ensures |Fields(graph, kids, cls, pk, upTo, rank)| == upTo
    ensures var e := EdgesOf(graph, cls)[i];
            && HasEdge(graph, cls, e.target)
            && Fields(graph, kids, cls, pk, upTo, rank)[i]
               == Field(e.target, Nest(e.kind, Build(graph, kids, e.target, pk, rank(cls, pk).value, rank)))
    decreases upTo
  {
    FieldCount(graph, kids, cls, pk, upTo, rank);
    if i < upTo - 1 {
      FieldAt(graph, kids, cls, pk, upTo - 1, rank, i);
    }
  }

  lemma {:induction false} FieldCount(graph: Graph, kids: Kids, cls: string, pk: int, upTo: nat, rank: Ranks)
    requires Falls(graph, kids, rank) && rank(cls, pk).Some? && upTo <= |EdgesOf(graph, cls)|
    ensures |Fields(graph, kids, cls, pk, upTo, rank)| == upTo
    decreases upTo
  {
    if upTo > 0 {
      FieldCount(graph, kids, cls, pk, upTo - 1, rank);
    }
  }

  /** Siblings are the first objects of their ids among the listed children, in order of first appearance. */
  lemma SiblingsInOrderOfAppearance(graph: Graph, kids: Kids, cls: string, pk: int, bound: nat, rank: Ranks)
    returns (at: seq<nat>)
    requires Falls(graph, kids, rank) && AllBelow(cls, kids(cls, pk), bound, rank)
    ensures FirstIndices(kids(cls, pk), at)
    ensures var siblings := Build(graph, kids, cls, pk, bound, rank);
            && |siblings| == |at|
            && forall k :: 0 <= k < |at| ==> IsTreeOf(graph, kids, cls, rank, kids(cls, pk)[at[k]], siblings[k])
  {
    var unique := Dedupe(kids(cls, pk));
    at := DedupeKeepsFirsts(kids(cls, pk));
    DedupeHasId(kids(cls, pk), 0);
    ItemsCount(graph, kids, cls, unique, bound, rank);
    forall k | 0 <= k < |at|
      ensures IsTreeOf(graph, kids, cls, rank, kids(cls, pk)[at[k]], Build(graph, kids, cls, pk, bound, rank)[k])
    {
      assert FirstWithItsId(kids(cls, pk), at[k]);
      ItemAt(graph, kids, cls, unique, bound, rank, k);
    }
  }

  /** The object, with a field for each relation of its class. */
  ghost predicate IsTreeOf(graph: Graph, kids: Kids, cls: string, rank: Ranks, o: Obj, t: Tree)
    requires Falls(graph, kids, rank)
  {
    t.obj == o && o.id.Some? && rank(cls, o.id.value).Some? && t.fields == AllFields(graph, kids, cls, o.id.value, rank)
  }

  /**
   * An object has one field for each relation of its class, in order. A to-many field holds every child; a to-one field
   * holds the first listed child with an id, nested as that child defines, and is empty exactly if no child has one.
   */
  lemma FieldsAre(graph: Graph, kids: Kids, cls: string, pk: int, rank: Ranks, i: nat)
    requires Falls(graph, kids, rank) && rank(cls, pk).Some? && i < |EdgesOf(graph, cls)|
    ensures var e := EdgesOf(graph, cls)[i];
            var fields := AllFields(graph, kids, cls, pk, rank);
            && |fields| == |EdgesOf(graph, cls)| && fields[i].target == e.target && HasEdge(graph, cls, e.target)
            && (e.kind.OneToMany? || e.kind.ManyToMany? ==>
                  fields[i].value == Many(Build(graph, kids, e.target, pk, rank(cls, pk).value, rank)))
            && (e.kind.ManyToOne? || e.kind.OneToOne? ==>
                  fields[i].value.One? && HoldsFirst(graph, kids, e.target, pk, rank, fields[i].value.tree))
  {
    var e := EdgesOf(graph, cls)[i];
    FieldAt(graph, kids, cls, pk, |EdgesOf(graph, cls)|, rank, i);
    var bound := rank(cls, pk).value;
    var at := SiblingsInOrderOfAppearance(graph, kids, e.target, pk, bound, rank);
    var objs := kids(e.target, pk);
    if at != [] {
      FirstIsFirst(objs, at);
    } else {
      forall k | 0 <= k < |objs| ensures objs[k].id.None? {
        if objs[k].id.Some? {
          NoneBefore(objs, at, k);
        }
      }
    }
  }

  ghost predicate HoldsFirst(graph: Graph, kids: Kids, cls: string, pk: int, rank: Ranks, tree: Option<Tree>)
    requires Falls(graph, kids, rank)
  {
    if tree.None? then forall k :: 0 <= k < |kids(cls, pk)| ==> kids(cls, pk)[k].id.None?
    else
      exists k: nat :: IsFirst(kids(cls, pk), k) && IsTreeOf(graph, kids, cls, rank, kids(cls, pk)[k], tree.value)
  }

  predicate IsFirst(objs: seq<Obj>, i: nat) {
    i < |objs| && objs[i].id.Some? && forall k :: 0 <= k < i ==> objs[k].id.None?
  }

  lemma FirstIsFirst(objs: seq<Obj>, at: seq<nat>)
    requires FirstIndices(objs, at) && at != []
    ensures IsFirst(objs, at[0])
  {
    assert FirstWithItsId(objs, at[0]);
    forall k | 0 <= k < at[0]
      ensures objs[k].id.None?
    {
      if objs[k].id.Some? {
        NoneBefore(objs, at, k);
      }
    }
  }

  lemma NoneBefore(objs: seq<Obj>, at: seq<nat>, i: nat)
    requires FirstIndices(objs, at) && i < |objs| && objs[i].id.Some?
    ensures at != [] && at[0] <= i
  {
    var first := FirstIndex(objs, objs[i].id.value, i);
    assert FirstWithItsId(objs, first);
    var k :| 0 <= k < |at| && at[k] == first;
    assert at[0] <= at[k];
  }

  // ---------- Paths ----------

  /** The relation number `i` of a class keeps a child with this id. */
  predicate EdgeKeeps(graph: Graph, kids: Kids, cls: string, pk: int, i: nat, hop: Hop) {
    && i < |EdgesOf(graph, cls)| && EdgesOf(graph, cls)[i].target == hop.cls
    && Keeps(EdgesOf(graph, cls)[i].kind, kids(hop.cls, pk), hop.id)
  }

  predicate SomeEdgeKeeps(graph: Graph, kids: Kids, cls: string, pk: int, upTo: nat, hop: Hop) {
    exists i: nat :: i < upTo && EdgeKeeps(graph, kids, cls, pk, i, hop)
  }

  /** Every hop is a relation that keeps that child. */
  ghost predicate KeptPath(graph: Graph, kids: Kids, cls: string, pk: int, path: seq<Hop>)
    decreases |path|
  {
    path == [] ||
    (SomeEdgeKeeps(graph, kids, cls, pk, |EdgesOf(graph, cls)|, path[0])
     && KeptPath(graph, kids, path[0].cls, path[0].id, path[1..]))
  }

  lemma EdgePath(graph: Graph, kids: Kids, cls: string, pk: int, i: nat, rank: Ranks, path: seq<Hop>)
    requires Falls(graph, kids, rank) && rank(cls, pk).Some? && i < |EdgesOf(graph, cls)| && path != []
    requires EdgesOf(graph, cls)[i].target == path[0].cls
    ensures HasEdge(graph, cls, path[0].cls)
    ensures EdgeKeeps(graph, kids, cls, pk, i, path[0]) ==> rank(path[0].cls, path[0].id).Some?
    ensures var e := EdgesOf(graph, cls)[i];
            TreesHavePath(TreesOf(Nest(e.kind, Build(graph, kids, e.target, pk, rank(cls, pk).value, rank))), path) <==>
            EdgeKeeps(graph, kids, cls, pk, i, path[0])
            && (|path| == 1 || FieldsHavePath(AllFields(graph, kids, path[0].cls, path[0].id, rank), path[1..]))
  {
    var e := EdgesOf(graph, cls)[i];
    var bound := rank(cls, pk).value;
    NestKeeps(graph, kids, e.target, pk, e.kind, bound, rank);
    KeepsIff(e.kind, kids(e.target, pk), path[0].id);
    ItemsPath(graph, kids, e.target, Kept(e.kind, kids(e.target, pk)), bound, rank, path);
  }

  lemma {:induction false} FieldsPath(graph: Graph, kids: Kids, cls: string, pk: int, upTo: nat, rank: Ranks,
                                      path: seq<Hop>)
    requires Falls(graph, kids, rank) && rank(cls, pk).Some? && upTo <= |EdgesOf(graph, cls)| && path != []
    ensures SomeEdgeKeeps(graph, kids, cls, pk, upTo, path[0]) ==> rank(path[0].cls, path[0].id).Some?
    ensures FieldsHavePath(Fields(graph, kids, cls, pk, upTo, rank), path) <==>
            SomeEdgeKeeps(graph, kids, cls, pk, upTo, path[0])
            && (|path| == 1 || FieldsHavePath(AllFields(graph, kids, path[0].cls, path[0].id, rank), path[1..]))
    decreases upTo
  {
    if upTo > 0 {
      var e := EdgesOf(graph, cls)[upTo - 1];
      FieldsPath(graph, kids, cls, pk, upTo - 1, rank, path);
      var last := Field(e.target, Nest(e.kind, Build(graph, kids, e.target, pk, rank(cls, pk).value, rank)));
      FieldsPathAppend(Fields(graph, kids, cls, pk, upTo - 1, rank), last, path);
      OneMoreEdge(graph, kids, cls, pk, upTo, path[0]);
      if e.target == path[0].cls {
        EdgePath(graph, kids, cls, pk, upTo - 1, rank, path);
      }
    }
  }

  lemma OneMoreEdge(graph: Graph, kids: Kids, cls: string, pk: int, upTo: nat, hop: Hop)
    requires upTo > 0
    ensures SomeEdgeKeeps(graph, kids, cls, pk, upTo, hop) <==>
            SomeEdgeKeeps(graph, kids, cls, pk, upTo - 1, hop) || EdgeKeeps(graph, kids, cls, pk, upTo - 1, hop)
  {
  }

  /** The nested output holds exactly the kept paths, whatever the kinds of the relations. */
  lemma {:induction false} PathsAreKept(graph: Graph, kids: Kids, cls: string, pk: int, rank: Ranks, path: seq<Hop>)
    requires Falls(graph, kids, rank) && rank(cls, pk).Some? && path != []
    ensures FieldsHavePath(AllFields(graph, kids, cls, pk, rank), path) <==> KeptPath(graph, kids, cls, pk, path)
    decreases |path|
  {
    FieldsPath(graph, kids, cls, pk, |EdgesOf(graph, cls)|, rank, path);
    if |path| > 1 && SomeEdgeKeeps(graph, kids, cls, pk, |EdgesOf(graph, cls)|, path[0]) {
      PathsAreKept(graph, kids, path[0].cls, path[0].id, rank, path[1..]);
    }
  }

  predicate AllToMany(graph: Graph) {
    forall s | s in graph :: forall i | 0 <= i < |graph[s]| :: graph[s][i].kind.ToMany()
  }

  lemma KeptIsSeen(kind: Kind, objs: seq<Obj>, id: int)
    ensures Keeps(kind, objs, id) ==> SeenId(objs, id)
  {
  }

  lemma {:induction false} KeptIsLinked(graph: Graph, kids: Kids, cls: string, pk: int, path: seq<Hop>)
    ensures KeptPath(graph, kids, cls, pk, path) ==> Linked(graph, kids, cls, pk, path)
    ensures AllToMany(graph) ==> (KeptPath(graph, kids, cls, pk, path) <==> Linked(graph, kids, cls, pk, path))
    decreases |path|
  {
    if path != [] {
      var edges := EdgesOf(graph, cls);
      if i: nat :| i < |edges| && EdgeKeeps(graph, kids, cls, pk, i, path[0]) {
        KeptIsSeen(edges[i].kind, kids(path[0].cls, pk), path[0].id);
      }
      if HasEdge(graph, cls, path[0].cls) {
        var i: nat :| i < |edges| && edges[i].target == path[0].cls;
        if AllToMany(graph) && SeenId(kids(path[0].cls, pk), path[0].id) {
          assert EdgeKeeps(graph, kids, cls, pk, i, path[0]);
        }
      }
      KeptIsLinked(graph, kids, path[0].cls, path[0].id, path[1..]);
    }
  }

  /** With to-many relations only these are the linked paths: nothing is lost and nothing is invented. */
  lemma PathsAreLinks(graph: Graph, kids: Kids, cls: string, pk: int, rank: Ranks, path: seq<Hop>)
    requires Falls(graph, kids, rank) && rank(cls, pk).Some? && AllToMany(graph) && path != []
    ensures FieldsHavePath(AllFields(graph, kids, cls, pk, rank), path) <==> Linked(graph, kids, cls, pk, path)
  {
    PathsAreKept(graph, kids, cls, pk, rank, path);
    KeptIsLinked(graph, kids, cls, pk, path);
  }

  /** With to-one relations mixed in, which keep only the first child, still nothing is invented. */
  lemma PathsAreAlwaysLinked(graph: Graph, kids: Kids, cls: string, pk: int, rank: Ranks, path: seq<Hop>)
    requires Falls(graph, kids, rank) && rank(cls, pk).Some? && path != []
    requires FieldsHavePath(AllFields(graph, kids, cls, pk, rank), path)
    ensures Linked(graph, kids, cls, pk, path)
  {
    PathsAreKept(graph, kids, cls, pk, rank, path);
    KeptIsLinked(graph, kids, cls, pk, path);
  }
}
