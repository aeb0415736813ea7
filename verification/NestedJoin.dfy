/** From the index to nested results: recursive, deduplicated, one result per primary object. */
module NestedJoin {
  import opened Options
  import opened JoinRows

  datatype Tree = Tree(obj: Obj, fields: seq<Field>)
  datatype Field = Field(target: string, value: Value)
  datatype Value = One(tree: Option<Tree>) | Many(trees: seq<Tree>)

  type Kids = (string, int) -> seq<Obj>

  function KidsIn(h: Index, main: int): Kids {
    (cls, pk) => Lookup(h, main, cls, pk)
  }

  /** How deep the nesting below an object can get, `None` where nothing is claimed. */
  type Ranks = (string, int) -> Option<nat>

  ghost predicate AllBelow(cls: string, objs: seq<Obj>, bound: nat, rank: Ranks) {
    forall o :: o in objs && o.id.Some? ==> rank(cls, o.id.value).Some? && rank(cls, o.id.value).value < bound
  }

  /** Wherever it is claimed, the rank falls from an object to its listed children: the recursion ends there. */
  ghost predicate Falls(graph: Graph, kids: Kids, rank: Ranks) {
    forall cls, pk, target :: rank(cls, pk).Some? && HasEdge(graph, cls, target) ==>
                                AllBelow(target, kids(target, pk), rank(cls, pk).value, rank)
  }

  function Nest(kind: Kind, trees: seq<Tree>): Value {
    if kind.ToMany() then Many(trees) else One(if trees == [] then None else Some(trees[0]))
  }

  // ---------- The nested tree a family of children defines ----------

  function Build(graph: Graph, kids: Kids, cls: string, pk: int, ghost bound: nat, ghost rank: Ranks): seq<Tree>
    requires Falls(graph, kids, rank) && AllBelow(cls, kids(cls, pk), bound, rank)
    decreases bound, 2, 0
  {
    DedupeHasId(kids(cls, pk), 0);
    Items(graph, kids, cls, Dedupe(kids(cls, pk)), bound, rank)
  }

  function Items(graph: Graph, kids: Kids, cls: string, objs: seq<Obj>, ghost bound: nat, ghost rank: Ranks): seq<Tree>
    requires Falls(graph, kids, rank) && AllBelow(cls, objs, bound, rank)
    decreases bound, 1, |objs|
  {
    if objs == [] then []
    else
      var n := |objs| - 1;
      Items(graph, kids, cls, objs[..n], bound, rank)
      + [Tree(objs[n], if objs[n].id.None? then []
              else Fields(graph, kids, cls, objs[n].id.value, |EdgesOf(graph, cls)|, rank))]
  }

  /** The fields of an object of class `cls`, for the first `upTo` of its relations. */
  function Fields(graph: Graph, kids: Kids, cls: string, pk: int, upTo: nat, ghost rank: Ranks): seq<Field>
    requires Falls(graph, kids, rank) && rank(cls, pk).Some? && upTo <= |EdgesOf(graph, cls)|
    decreases rank(cls, pk).value, 3, upTo
  {
    if upTo == 0 then []
    else
      var e := EdgesOf(graph, cls)[upTo - 1];
      Fields(graph, kids, cls, pk, upTo - 1, rank)
      + [Field(e.target, Nest(e.kind, Build(graph, kids, e.target, pk, rank(cls, pk).value, rank)))]
  }

  function AllFields(graph: Graph, kids: Kids, cls: string, pk: int, ghost rank: Ranks): seq<Field>
    requires Falls(graph, kids, rank) && rank(cls, pk).Some?
  {
    Fields(graph, kids, cls, pk, |EdgesOf(graph, cls)|, rank)
  }

  method RecursiveBuild(graph: Graph, h: Index, main: int, cls: string, pk: int, ghost bound: nat, ghost rank: Ranks)
    returns (output: seq<Tree>)
    requires Falls(graph, KidsIn(h, main), rank) && AllBelow(cls, Lookup(h, main, cls, pk), bound, rank)
    ensures output == Build(graph, KidsIn(h, main), cls, pk, bound, rank)
    decreases bound, 0
  {
    DedupeHasId(Lookup(h, main, cls, pk), 0);
    var objs := DedupeObjects(Lookup(h, main, cls, pk));
    output := [];
    for i := 0 to |objs|
      invariant output == Items(graph, KidsIn(h, main), cls, objs[..i], bound, rank)
    {
      var fields: seq<Field> := [];
      assert objs[i] in objs;
      if objs[i].id.Some? {
        fields := BuildFields(graph, h, main, cls, objs[i].id.value, rank);
      }
      assert objs[..i + 1][..i] == objs[..i];
      output := output + [Tree(objs[i], fields)];
    }
    assert objs[..|objs|] == objs;
  }

  method BuildFields(graph: Graph, h: Index, main: int, cls: string, pk: int, ghost rank: Ranks)
    returns (fields: seq<Field>)
    requires Falls(graph, KidsIn(h, main), rank) && rank(cls, pk).Some?
    ensures fields == AllFields(graph, KidsIn(h, main), cls, pk, rank)
    decreases rank(cls, pk).value, 1
  {
    var edges := EdgesOf(graph, cls);
    fields := [];
    for i := 0 to |edges|
      invariant fields == Fields(graph, KidsIn(h, main), cls, pk, i, rank)
    {
      assert HasEdge(graph, cls, edges[i].target);
      var subs := RecursiveBuild(graph, h, main, edges[i].target, pk, rank(cls, pk).value, rank);
      fields := fields + [Field(edges[i].target, Nest(edges[i].kind, subs))];
    }
  }

  // ---------- Paths ----------

  datatype Hop = Hop(cls: string, id: int)

  function TreesOf(v: Value): seq<Tree> {
    match v
    case One(t) => if t.Some? then [t.value] else []
    case Many(ts) => ts
  }

  ghost predicate FieldsHavePath(fields: seq<Field>, path: seq<Hop>)
    requires path != []
    decreases |path|, 1
  {
    exists i :: 0 <= i < |fields| && fields[i].target == path[0].cls && TreesHavePath(TreesOf(fields[i].value), path)
  }

  ghost predicate TreesHavePath(trees: seq<Tree>, path: seq<Hop>)
    requires path != []
    decreases |path|, 0
  {
    exists j :: 0 <= j < |trees| && trees[j].obj.id == Some(path[0].id)
                && (|path| == 1 || FieldsHavePath(trees[j].fields, path[1..]))
  }

  /** Every hop is a relation of the graph to a child listed under the hop before. */
  ghost predicate Linked(graph: Graph, kids: Kids, cls: string, pk: int, path: seq<Hop>)
    decreases |path|
  {
    path == [] ||
    (HasEdge(graph, cls, path[0].cls) && SeenId(kids(path[0].cls, pk), path[0].id)
     && Linked(graph, kids, path[0].cls, path[0].id, path[1..]))
  }

  lemma FieldsPathAppend(fields: seq<Field>, f: Field, path: seq<Hop>)
    requires path != []
    ensures FieldsHavePath(fields + [f], path) <==>
            FieldsHavePath(fields, path) || (f.target == path[0].cls && TreesHavePath(TreesOf(f.value), path))
  {
    var longer := fields + [f];
    if FieldsHavePath(fields, path) {
      var i :| 0 <= i < |fields| && fields[i].target == path[0].cls && TreesHavePath(TreesOf(fields[i].value), path);
      assert longer[i] == fields[i];
    }
    if FieldsHavePath(longer, path) {
      var i :| 0 <= i < |longer| && longer[i].target == path[0].cls && TreesHavePath(TreesOf(longer[i].value), path);
      assert i == |fields| || longer[i] == fields[i];
    }
    assert longer[|fields|] == f;
  }

  lemma TreesPathAppend(trees: seq<Tree>, t: Tree, path: seq<Hop>)
    requires path != []
    ensures TreesHavePath(trees + [t], path) <==>
            TreesHavePath(trees, path)
            || (t.obj.id == Some(path[0].id) && (|path| == 1 || FieldsHavePath(t.fields, path[1..])))
  {
    var longer := trees + [t];
    if TreesHavePath(trees, path) {
      var j :| 0 <= j < |trees| && trees[j].obj.id == Some(path[0].id)
               && (|path| == 1 || FieldsHavePath(trees[j].fields, path[1..]));
      assert longer[j] == trees[j];
    }
    if TreesHavePath(longer, path) {
      var j :| 0 <= j < |longer| && longer[j].obj.id == Some(path[0].id)
               && (|path| == 1 || FieldsHavePath(longer[j].fields, path[1..]));
      assert j == |trees| || longer[j] == trees[j];
    }
    assert longer[|trees|] == t;
  }

  lemma SeenIdAppend(objs: seq<Obj>, o: Obj, id: int)
    ensures SeenId(objs + [o], id) <==> SeenId(objs, id) || o.id == Some(id)
  {
    var longer := objs + [o];
    if SeenId(objs, id) {
      var i :| 0 <= i < |objs| && objs[i].id == Some(id);
      assert longer[i] == objs[i];
    }
    if SeenId(longer, id) {
      var i :| 0 <= i < |longer| && longer[i].id == Some(id);
      assert i == |objs| || longer[i] == objs[i];
    }
    assert longer[|objs|] == o;
  }

  lemma {:induction false} ItemsPath(graph: Graph, kids: Kids, cls: string, objs: seq<Obj>, bound: nat, rank: Ranks,
                                     path: seq<Hop>)
    requires Falls(graph, kids, rank) && AllBelow(cls, objs, bound, rank) && path != []
    ensures TreesHavePath(Items(graph, kids, cls, objs, bound, rank), path) <==>
            SeenId(objs, path[0].id)
            && (|path| == 1 || FieldsHavePath(AllFields(graph, kids, cls, path[0].id, rank), path[1..]))
    decreases |objs|
  {
    if objs != [] {
      var n := |objs| - 1;
      ItemsPath(graph, kids, cls, objs[..n], bound, rank, path);
      var fields := if objs[n].id.None? then []
          else Fields(graph, kids, cls, objs[n].id.value, |EdgesOf(graph, cls)|, rank);
      TreesPathAppend(Items(graph, kids, cls, objs[..n], bound, rank), Tree(objs[n], fields), path);
      SeenIdAppend(objs[..n], objs[n], path[0].id);
      assert objs == objs[..n] + [objs[n]];
    }
  }

  lemma DedupeSeesTheSame(objs: seq<Obj>, id: int)
    ensures SeenId(Dedupe(objs), id) <==> SeenId(objs, id)
  {
    DedupeHasId(objs, id);
    if SeenId(objs, id) {
      var o :| o in Dedupe(objs) && o.id == Some(id);
    }
    if SeenId(Dedupe(objs), id) {
      var i :| 0 <= i < |Dedupe(objs)| && Dedupe(objs)[i].id == Some(id);
      assert Dedupe(objs)[i] in Dedupe(objs);
    }
  }

  // ---------- When the recursion ends ----------

  ghost predicate Bounded(graph: Graph, kids: Kids, cls: string, pk: int, n: nat) {
    forall path :: Linked(graph, kids, cls, pk, path) ==> |path| <= n
  }

  ghost function LeastBound(graph: Graph, kids: Kids, cls: string, pk: int, n: nat): (least: nat)
    requires Bounded(graph, kids, cls, pk, n)
    ensures Bounded(graph, kids, cls, pk, least)
    ensures forall m: nat :: Bounded(graph, kids, cls, pk, m) ==> least <= m
  {
    if n == 0 then 0
    else if Bounded(graph, kids, cls, pk, n - 1) then LeastBound(graph, kids, cls, pk, n - 1)
    else
      assert forall m: nat :: m < n && Bounded(graph, kids, cls, pk, m) ==> Bounded(graph, kids, cls, pk, n - 1);
      n
  }

  /** The length of the longest linked path below an object, if there is a longest one. */
  ghost function Depth(graph: Graph, kids: Kids, cls: string, pk: int): Option<nat> {
    if n: nat :| Bounded(graph, kids, cls, pk, n) then Some(LeastBound(graph, kids, cls, pk, n)) else None
  }

  lemma DepthFalls(graph: Graph, kids: Kids)
    ensures Falls(graph, kids, (c, p) => Depth(graph, kids, c, p))
  {
    var rank: Ranks := (c, p) => Depth(graph, kids, c, p);
    forall cls, pk, target | rank(cls, pk).Some? && HasEdge(graph, cls, target)
      ensures AllBelow(target, kids(target, pk), rank(cls, pk).value, rank)
    {
      forall o | o in kids(target, pk) && o.id.Some?
        ensures rank(target, o.id.value).Some? && rank(target, o.id.value).value < rank(cls, pk).value
      {
        ChildIsLessDeep(graph, kids, cls, pk, target, o, rank(cls, pk).value);
      }
    }
  }

  lemma ChildIsLessDeep(graph: Graph, kids: Kids, cls: string, pk: int, target: string, o: Obj, n: nat)
    requires Bounded(graph, kids, cls, pk, n) && HasEdge(graph, cls, target) && o in kids(target, pk) && o.id.Some?
    ensures n > 0 && Bounded(graph, kids, target, o.id.value, n - 1)
  {
    var hop := Hop(target, o.id.value);
    forall path | Linked(graph, kids, target, o.id.value, path)
      ensures |path| <= n - 1
    {
      assert ([hop] + path)[1..] == path;
      assert Linked(graph, kids, cls, pk, [hop] + path);
    }
    assert Linked(graph, kids, target, o.id.value, []);
  }

  function LastHop(cls: string, pk: int, path: seq<Hop>): Hop {
    if path == [] then Hop(cls, pk) else path[|path| - 1]
  }

  ghost predicate Ranked(graph: Graph, kids: Kids, rank: Ranks, cls: string, pk: int) {
    Falls(graph, kids, rank) && rank(cls, pk).Some?
  }

  lemma {:induction false} RankFallsAlong(graph: Graph, kids: Kids, rank: Ranks, cls: string, pk: int, path: seq<Hop>)
    requires Ranked(graph, kids, rank, cls, pk) && Linked(graph, kids, cls, pk, path)
    ensures var last := LastHop(cls, pk, path);
            rank(last.cls, last.id).Some? && rank(last.cls, last.id).value + |path| <= rank(cls, pk).value
    decreases |path|
  {
    if path != [] {
      RankFallsAlong(graph, kids, rank, path[0].cls, path[0].id, path[1..]);
    }
  }

  /** Somewhere below the object there is one that is its own descendant. */
  ghost predicate Loops(graph: Graph, kids: Kids, cls: string, pk: int) {
    exists way, loop :: LoopsAt(graph, kids, cls, pk, way, loop)
  }

  ghost predicate LoopsAt(graph: Graph, kids: Kids, cls: string, pk: int, way: seq<Hop>, loop: seq<Hop>) {
    var knot := LastHop(cls, pk, way);
    && Linked(graph, kids, cls, pk, way)
    && loop != [] && Linked(graph, kids, knot.cls, knot.id, loop) && loop[|loop| - 1] == knot
  }

  lemma {:induction false} LinkedSplits(graph: Graph, kids: Kids, cls: string, pk: int, path: seq<Hop>, i: nat)
    returns (way: seq<Hop>, rest: seq<Hop>)
    requires Linked(graph, kids, cls, pk, path) && i <= |path|
    ensures way + rest == path && |way| == i && Linked(graph, kids, cls, pk, way)
    ensures var last := LastHop(cls, pk, way); Linked(graph, kids, last.cls, last.id, rest)
    decreases |path|
  {
    way, rest := [], path;
    if i > 0 {
      var w, r := LinkedSplits(graph, kids, path[0].cls, path[0].id, path[1..], i - 1);
      way, rest := [path[0]] + w, r;
      assert way[1..] == w;
      assert path == [path[0]] + path[1..];
    }
  }

  lemma {:induction false} DistinctFits<T>(s: seq<T>, all: set<T>)
    requires forall i :: 0 <= i < |s| ==> s[i] in all
    requires forall i, j :: 0 <= i < j < |s| ==> s[i] != s[j]
    ensures |s| <= |all|
    decreases |s|
  {
    if s != [] {
      DistinctFits(s[1..], all - {s[0]});
    }
  }

  lemma {:induction false} HopsIn(graph: Graph, kids: Kids, all: set<Hop>, cls: string, pk: int, path: seq<Hop>)
    requires Linked(graph, kids, cls, pk, path) && forall c, p, id :: SeenId(kids(c, p), id) ==> Hop(c, id) in all
    ensures forall i :: 0 <= i < |path| ==> path[i] in all
    decreases |path|
  {
    if path != [] {
      HopsIn(graph, kids, all, path[0].cls, path[0].id, path[1..]);
    }
  }

  /** Among finitely many objects the recursion ends exactly when nothing below the object is its own descendant. */
  lemma RecursionEndsIff(graph: Graph, kids: Kids, all: set<Hop>, cls: string, pk: int)
    requires forall c, p, id :: SeenId(kids(c, p), id) ==> Hop(c, id) in all
    ensures (exists rank: Ranks :: Ranked(graph, kids, rank, cls, pk)) <==> !Loops(graph, kids, cls, pk)
  {
    if rank: Ranks :| Ranked(graph, kids, rank, cls, pk) {
      forall way, loop | LoopsAt(graph, kids, cls, pk, way, loop)
        ensures false
      {
        RankFallsAlong(graph, kids, rank, cls, pk, way);
        var knot := LastHop(cls, pk, way);
        RankFallsAlong(graph, kids, rank, knot.cls, knot.id, loop);
      }
    }
    if !Loops(graph, kids, cls, pk) {
      NoLoopIsBounded(graph, kids, all, cls, pk);
      DepthFalls(graph, kids);
      assert Ranked(graph, kids, (c, p) => Depth(graph, kids, c, p), cls, pk);
    }
  }

  lemma NoLoopIsBounded(graph: Graph, kids: Kids, all: set<Hop>, cls: string, pk: int)
    requires forall c, p, id :: SeenId(kids(c, p), id) ==> Hop(c, id) in all
    requires !Loops(graph, kids, cls, pk)
    ensures Bounded(graph, kids, cls, pk, |all|)
  {
    forall path | Linked(graph, kids, cls, pk, path)
      ensures |path| <= |all|
    {
      forall i, j | 0 <= i < j < |path|
        ensures path[i] != path[j]
      {
        if path[i] == path[j] {
          RepeatLoops(graph, kids, cls, pk, path, i, j);
        }
      }
      HopsIn(graph, kids, all, cls, pk, path);
      DistinctFits(path, all);
    }
  }

  lemma KnotLoops(graph: Graph, kids: Kids, cls: string, pk: int, way: seq<Hop>, loop: seq<Hop>, knot: Hop)
    requires Linked(graph, kids, cls, pk, way) && LastHop(cls, pk, way) == knot
    requires Linked(graph, kids, knot.cls, knot.id, loop) && loop != [] && loop[|loop| - 1] == knot
    ensures Loops(graph, kids, cls, pk)
  {
    assert LoopsAt(graph, kids, cls, pk, way, loop);
  }

  lemma LastOf(way: seq<Hop>, rest: seq<Hop>, path: seq<Hop>, cls: string, pk: int)
    requires way + rest == path
    ensures way != [] ==> LastHop(cls, pk, way) == path[|way| - 1]
    ensures rest != [] ==> rest[|rest| - 1] == path[|path| - 1]
  {
  }

  lemma RepeatAtEndLoops(graph: Graph, kids: Kids, cls: string, pk: int, path: seq<Hop>, i: nat)
    requires Linked(graph, kids, cls, pk, path) && i < |path| - 1 && path[i] == path[|path| - 1]
    ensures Loops(graph, kids, cls, pk)
  {
    var way, loop := LinkedSplits(graph, kids, cls, pk, path, i + 1);
    LastOf(way, loop, path, cls, pk);
    KnotLoops(graph, kids, cls, pk, way, loop, path[i]);
  }

  lemma RepeatLoops(graph: Graph, kids: Kids, cls: string, pk: int, path: seq<Hop>, i: nat, j: nat)
    requires Linked(graph, kids, cls, pk, path) && i < j < |path| && path[i] == path[j]
    ensures Loops(graph, kids, cls, pk)
  {
    var upToJ, rest := LinkedSplits(graph, kids, cls, pk, path, j + 1);
    assert path[i] == upToJ[i] && path[j] == upToJ[j];
    RepeatAtEndLoops(graph, kids, cls, pk, upToJ, i);
  }
}
