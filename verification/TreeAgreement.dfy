/** Both builders leave nodes that spell out the same forest, and cycles appear in neither. */
module TreeAgreement {
  import opened Options
  import opened ParentLists
  import opened TreeBuilder

  /** Following `children` from `node` spells out `t`. */
  ghost predicate Represents(nodes: seq<TreeNode>, node: TreeNode, t: Tree)
    requires node in nodes
    reads nodes
    decreases t
  {
    && node.id == t.id
    && (node.children.None? <==> t.children == [])
    && (node.children.Some? ==>
          && |node.children.value| == |t.children|
          && forall k :: 0 <= k < |t.children| ==>
               node.children.value[k] in nodes && Represents(nodes, node.children.value[k], t.children[k]))
  }

  ghost predicate RepresentAll(nodes: seq<TreeNode>, tops: seq<TreeNode>, forest: seq<Tree>)
    reads nodes
  {
    |tops| == |forest| && forall k :: 0 <= k < |tops| ==> tops[k] in nodes && Represents(nodes, tops[k], forest[k])
  }

  lemma SettledNode(nodes: seq<TreeNode>, i: nat)
    requires DistinctIds(nodes) && i < |nodes| && nodes[i].id in Settled(nodes)
    ensures nodes[i].children == AsField(Below(nodes, |nodes|, Some(nodes[i].id)))
  {
    var items := ItemsOf(nodes);
    DistinctIdsIff(nodes);
    var k :| 0 <= k < |nodes| && nodes[k].children == AsField(Below(nodes, |nodes|, Some(nodes[k].id)))
             && nodes[k].id == nodes[i].id;
    assert items[k].id == items[i].id;
    assert k == i;
  }

  lemma AppendRepresents(nodes: seq<TreeNode>, tops: seq<TreeNode>, forest: seq<Tree>, n: TreeNode, t: Tree)
    requires RepresentAll(nodes, tops, forest) && n in nodes && Represents(nodes, n, t)
    ensures RepresentAll(nodes, tops + [n], forest + [t])
  {
  }

  lemma FieldRepresents(nodes: seq<TreeNode>, n: TreeNode, below: seq<TreeNode>, forest: seq<Tree>)
    requires n in nodes && n.children == AsField(below) && RepresentAll(nodes, below, forest)
    ensures Represents(nodes, n, Tree(n.id, forest))
  {
  }

  lemma CoveredChild(items: seq<Item>, parent: Option<int>, done: set<int>, i: nat)
    requires i < |items| && items[i].parentId == parent && AllCovered(items, parent, done)
    ensures items[i].id in done && AllCovered(items, Some(items[i].id), done)
  {
    assert Covers(items, parent, 1, done);
    forall depth: nat ensures Covers(items, Some(items[i].id), depth, done) {
      assert Covers(items, parent, depth + 1, done);
    }
  }

  lemma ForestStep(items: seq<Item>, parent: Option<int>, i: nat, depth: nat)
    requires i < |items| && EndsWithin(items, parent, depth)
    ensures depth > 0 && (items[i].parentId == parent ==> EndsWithin(items, Some(items[i].id), depth - 1))
    ensures Forest(items, parent, i + 1, depth)
         == Forest(items, parent, i, depth)
            + if items[i].parentId == parent
                then [Tree(items[i].id, Forest(items, Some(items[i].id), |items|, depth - 1))] else []
  {
  }

  /** Settled nodes spell out the forest of the list. */
  lemma {:induction false} BelowRepresents(nodes: seq<TreeNode>, parent: Option<int>, upTo: nat, depth: nat)
    requires DistinctIds(nodes) && upTo <= |nodes|
    requires AllCovered(ItemsOf(nodes), parent, Settled(nodes)) && EndsWithin(ItemsOf(nodes), parent, depth)
    ensures RepresentAll(nodes, Below(nodes, upTo, parent), Forest(ItemsOf(nodes), parent, upTo, depth))
    decreases depth, upTo, 0
  {
    var items := ItemsOf(nodes);
    if upTo > 0 {
      var i := upTo - 1;
      BelowRepresents(nodes, parent, i, depth);
      ForestStep(items, parent, i, depth);
      assert items[i] == Item(nodes[i].id, nodes[i].parentId);
      if nodes[i].parentId == parent {
        CoveredChild(items, parent, Settled(nodes), i);
        NodeRepresents(nodes, i, depth - 1);
        AppendRepresents(nodes, Below(nodes, i, parent), Forest(items, parent, i, depth), nodes[i],
                         Tree(nodes[i].id, Forest(items, Some(nodes[i].id), |items|, depth - 1)));
      }
    }
  }

  lemma {:induction false} NodeRepresents(nodes: seq<TreeNode>, i: nat, depth: nat)
    requires DistinctIds(nodes) && i < |nodes| && nodes[i].id in Settled(nodes)
    requires AllCovered(ItemsOf(nodes), Some(nodes[i].id), Settled(nodes))
             && EndsWithin(ItemsOf(nodes), Some(nodes[i].id), depth)
    ensures Represents(nodes, nodes[i], Tree(nodes[i].id, Forest(ItemsOf(nodes), Some(nodes[i].id), |nodes|, depth)))
    decreases depth, |nodes|, 1
  {
    SettledNode(nodes, i);
    BelowRepresents(nodes, Some(nodes[i].id), |nodes|, depth);
    FieldRepresents(nodes, nodes[i], Below(nodes, |nodes|, Some(nodes[i].id)),
                    Forest(ItemsOf(nodes), Some(nodes[i].id), |nodes|, depth));
  }

  // ---------- Orphans ----------

  lemma RerootedKeepsIds(items: seq<Item>)
    requires UniqueIds(items)
    ensures UniqueIds(WithOrphansAsRoots(items))
  {
    var r := WithOrphansAsRoots(items);
    forall i, j | 0 <= i < j < |r|
      ensures r[i].id != r[j].id
    {
      assert r[i] == Rerooted(items, i) && r[j] == Rerooted(items, j);
    }
  }

  lemma {:induction false} SameBelowListedId(items: seq<Item>, id: int, upTo: nat, depth: nat)
    requires ListsId(items, id) && upTo <= |items|
    ensures Forest(WithOrphansAsRoots(items), Some(id), upTo, depth) == Forest(items, Some(id), upTo, depth)
    decreases depth, upTo
  {
    if upTo > 0 && depth > 0 {
      var r := WithOrphansAsRoots(items);
      SameBelowListedId(items, id, upTo - 1, depth);
      assert r[upTo - 1] == Rerooted(items, upTo - 1);
      if items[upTo - 1].parentId == Some(id) {
        assert ListsId(items, items[upTo - 1].id);
        SameBelowListedId(items, items[upTo - 1].id, |items|, depth - 1);
      }
    }
  }

  lemma {:induction false} SameEndBelowListedId(items: seq<Item>, id: int, depth: nat)
    requires ListsId(items, id) && EndsWithin(WithOrphansAsRoots(items), Some(id), depth)
    ensures EndsWithin(items, Some(id), depth)
    decreases depth
  {
    var r := WithOrphansAsRoots(items);
    forall i | 0 <= i < |items| && items[i].parentId == Some(id)
      ensures EndsWithin(items, Some(items[i].id), depth - 1)
    {
      assert r[i] == Rerooted(items, i);
      assert ListsId(items, items[i].id);
      SameEndBelowListedId(items, items[i].id, depth - 1);
    }
  }

  /** One root or orphan spells out its own tree of the re-rooted list. */
  lemma TopRepresents(nodes: seq<TreeNode>, i: nat, depth: nat)
    requires DistinctIds(nodes) && i < |nodes| && LinkedUpTo(nodes, |nodes|)
    requires EndsWithin(WithOrphansAsRoots(ItemsOf(nodes)), Some(nodes[i].id), depth)
    ensures Represents(nodes, nodes[i],
                       Tree(nodes[i].id, Forest(WithOrphansAsRoots(ItemsOf(nodes)), Some(nodes[i].id), |nodes|, depth)))
  {
    var items := ItemsOf(nodes);
    var n := nodes[i];
    assert items[i].id == n.id;
    assert ListsId(items, n.id);
    SameEndBelowListedId(items, n.id, depth);
    SameBelowListedId(items, n.id, |items|, depth);
    LinkedIsCovered(nodes, Some(n.id));
    assert n.id in Settled(nodes);
    NodeRepresents(nodes, i, depth);
  }

  lemma RerootedStep(items: seq<Item>, r: seq<Item>, i: nat, depth: nat)
    requires i < |items| && r == WithOrphansAsRoots(items) && depth > 0
    ensures Forest(r, None, i + 1, depth)
         == Forest(r, None, i, depth)
            + if Rerooted(items, i).parentId.None?
                then [Tree(items[i].id, Forest(r, Some(items[i].id), |r|, depth - 1))] else []
  {
    assert r[i] == Rerooted(items, i);
  }

  lemma RootEnds(items: seq<Item>, i: nat, depth: nat)
    requires i < |items| && EndsWithin(WithOrphansAsRoots(items), None, depth) && Rerooted(items, i).parentId.None?
    ensures depth > 0 && EndsWithin(WithOrphansAsRoots(items), Some(items[i].id), depth - 1)
  {
    var r := WithOrphansAsRoots(items);
    assert r[i] == Rerooted(items, i);
  }

  lemma {:induction false} TopsRepresent(nodes: seq<TreeNode>, upTo: nat, depth: nat)
    requires DistinctIds(nodes) && upTo <= |nodes| && LinkedUpTo(nodes, |nodes|)
    requires EndsWithin(WithOrphansAsRoots(ItemsOf(nodes)), None, depth)
    ensures RepresentAll(nodes, Tops(nodes, upTo, Ids(ItemsOf(nodes))),
                         Forest(WithOrphansAsRoots(ItemsOf(nodes)), None, upTo, depth))
    decreases upTo
  {
    var items := ItemsOf(nodes);
    var r := WithOrphansAsRoots(items);
    if upTo > 0 {
      var i := upTo - 1;
      TopsRepresent(nodes, i, depth);
      RerootedStep(items, r, i, depth);
      TopIffRerooted(nodes, i);
      assert items[i].id == nodes[i].id;
      if IsTop(nodes[i], Ids(items)) {
        RootEnds(items, i, depth);
        TopRepresents(nodes, i, depth - 1);
        AppendRepresents(nodes, Tops(nodes, i, Ids(items)), Forest(r, None, i, depth), nodes[i],
                         Tree(nodes[i].id, Forest(r, Some(nodes[i].id), |nodes|, depth - 1)));
      }
    }
  }

  lemma TopIffRerooted(nodes: seq<TreeNode>, i: nat)
    requires i < |nodes|
    ensures IsTop(nodes[i], Ids(ItemsOf(nodes))) <==> Rerooted(ItemsOf(nodes), i).parentId.None?
  {
    var items := ItemsOf(nodes);
    assert items[i] == Item(nodes[i].id, nodes[i].parentId);
    if nodes[i].parentId.Some? {
      assert nodes[i].parentId.value in Ids(items) <==> ListsId(items, nodes[i].parentId.value);
    }
  }

  lemma LinkedIsCovered(nodes: seq<TreeNode>, parent: Option<int>)
    requires LinkedUpTo(nodes, |nodes|)
    ensures AllCovered(ItemsOf(nodes), parent, Settled(nodes))
  {
    forall depth: nat ensures Covers(ItemsOf(nodes), parent, depth, Settled(nodes)) {
      EverythingCovered(nodes, parent, depth);
    }
  }

  lemma {:induction false} EverythingCovered(nodes: seq<TreeNode>, parent: Option<int>, depth: nat)
    requires LinkedUpTo(nodes, |nodes|)
    ensures Covers(ItemsOf(nodes), parent, depth, Settled(nodes))
    decreases depth
  {
    var items := ItemsOf(nodes);
    if depth > 0 {
      forall i | 0 <= i < |items| && items[i].parentId == parent
        ensures items[i].id in Settled(nodes) && Covers(items, Some(items[i].id), depth - 1, Settled(nodes))
      {
        assert nodes[i].id in Settled(nodes);
        EverythingCovered(nodes, Some(items[i].id), depth - 1);
      }
    }
  }

  // ---------- The two builders ----------

  datatype BuildType = Traversal | Recursive

  /**
   * `get_tree_data` after sorting. The one-pass linker yields the forest of the list with orphans made roots,
   * the recursive builder the forest below `parent`: on one list with orphans re-rooted they are the same
   * forest, sibling order included. The recursive builder needs that `parent` is not its own ancestor;
   * without that it does not end.
   */
  method GetTreeData(nodes: seq<TreeNode>, kind: BuildType, parent: Option<int>) returns (tree: seq<TreeNode>)
    requires DistinctIds(nodes) && forall i :: 0 <= i < |nodes| ==> nodes[i].children == None
    requires kind.Recursive? && parent.Some? ==> !OnCycle(ItemsOf(nodes), parent.value)
    modifies nodes
    ensures kind.Traversal? ==> RepresentAll(nodes, tree, WholeForest(WithOrphansAsRoots(ItemsOf(nodes)), None))
    ensures kind.Recursive? ==> RepresentAll(nodes, tree, WholeForest(ItemsOf(nodes), parent))
  {
    match kind {
      case Traversal =>
        tree := TraversalToTree(nodes);
        TraversalRepresents(nodes);
      case Recursive =>
        ghost var chain := if parent.None? then [] else [parent.value];
        tree := RecursiveToTree(nodes, parent, parent, chain);
        RecursiveRepresents(nodes, parent);
    }
  }

  lemma TraversalRepresents(nodes: seq<TreeNode>)
    requires DistinctIds(nodes) && LinkedUpTo(nodes, |nodes|)
    ensures RepresentAll(nodes, Tops(nodes, |nodes|, Ids(ItemsOf(nodes))),
                         WholeForest(WithOrphansAsRoots(ItemsOf(nodes)), None))
  {
    var items := ItemsOf(nodes);
    DistinctIdsIff(nodes);
    RerootedKeepsIds(items);
    RecursionEndsIff(WithOrphansAsRoots(items), None);
    TopsRepresent(nodes, |nodes|, |items| + 1);
  }

  lemma RecursiveRepresents(nodes: seq<TreeNode>, parent: Option<int>)
    requires DistinctIds(nodes) && AllCovered(ItemsOf(nodes), parent, Settled(nodes))
    requires parent.Some? ==> !OnCycle(ItemsOf(nodes), parent.value)
    ensures RepresentAll(nodes, Below(nodes, |nodes|, parent), WholeForest(ItemsOf(nodes), parent))
  {
    DistinctIdsIff(nodes);
    RecursionEndsIff(ItemsOf(nodes), parent);
    BelowRepresents(nodes, parent, |nodes|, |ItemsOf(nodes)| + 1);
  }

  // ---------- What the forest leaves out ----------

  ghost predicate InTrees(trees: seq<Tree>, id: int) {
    exists k :: 0 <= k < |trees| && (trees[k].id == id || InTrees(trees[k].children, id))
  }

  lemma InTreesAppend(trees: seq<Tree>, t: Tree, id: int)
    ensures InTrees(trees + [t], id) <==> InTrees(trees, id) || t.id == id || InTrees(t.children, id)
  {
    var longer := trees + [t];
    if InTrees(trees, id) {
      var k :| 0 <= k < |trees| && (trees[k].id == id || InTrees(trees[k].children, id));
      assert longer[k] == trees[k];
    }
    if InTrees(longer, id) {
      var k :| 0 <= k < |longer| && (longer[k].id == id || InTrees(longer[k].children, id));
      assert k == |trees| || longer[k] == trees[k];
    }
    assert longer[|trees|] == t;
  }

  /** Whatever is in the forest of the roots hangs from a root by a path without repetition. */
  lemma {:induction false} InForestHasPath(items: seq<Item>, chain: seq<int>, upTo: nat, depth: nat, id: int)
    returns (path: seq<int>)
    requires UniqueIds(items) && WalkPath(items, None, chain) && upTo <= |items|
    requires InTrees(Forest(items, Tip(None, chain), upTo, depth), id)
    ensures WalkPath(items, None, path) && path != [] && path[|path| - 1] == id
    decreases depth, upTo
  {
    var parent := Tip(None, chain);
    var it := items[upTo - 1];
    if it.parentId == parent {
      var sub := Forest(items, Some(it.id), |items|, depth - 1);
      InTreesAppend(Forest(items, parent, upTo - 1, depth), Tree(it.id, sub), id);
      assert IsChild(items, parent, it.id);
      WalkExtends(items, None, chain, it.id);
      if it.id == id {
        path := chain + [id];
        return;
      } else if InTrees(sub, id) {
        path := InForestHasPath(items, chain + [it.id], |items|, depth - 1, id);
        return;
      }
    }
    path := InForestHasPath(items, chain, upTo - 1, depth, id);
  }

  lemma {:induction false} ChildIsInForest(items: seq<Item>, parent: Option<int>, i: nat, upTo: nat, depth: nat,
                                           id: int)
    requires i < upTo <= |items| && depth > 0 && items[i].parentId == parent
    requires items[i].id == id || InTrees(Forest(items, Some(items[i].id), |items|, depth - 1), id)
    ensures InTrees(Forest(items, parent, upTo, depth), id)
    decreases upTo
  {
    var before := Forest(items, parent, upTo - 1, depth);
    if i < upTo - 1 {
      ChildIsInForest(items, parent, i, upTo - 1, depth, id);
    }
    if items[upTo - 1].parentId == parent {
      InTreesAppend(before, Tree(items[upTo - 1].id, Forest(items, Some(items[upTo - 1].id), |items|, depth - 1)), id);
    } else {
      assert Forest(items, parent, upTo, depth) == before + [] == before;
    }
  }

  lemma {:induction false} PathIsInForest(items: seq<Item>, parent: Option<int>, path: seq<int>, k: nat, depth: nat)
    requires k < |path| && IsChild(items, parent, path[k]) && EndsWithin(items, parent, depth)
    requires forall j :: k < j < |path| ==> IsChild(items, Some(path[j - 1]), path[j])
    ensures InTrees(Forest(items, parent, |items|, depth), path[|path| - 1])
    decreases |path| - k
  {
    var i :| 0 <= i < |items| && items[i].id == path[k] && items[i].parentId == parent;
    if k + 1 < |path| {
      PathIsInForest(items, Some(path[k]), path, k + 1, depth - 1);
    }
    ChildIsInForest(items, parent, i, |items|, depth, path[|path| - 1]);
  }

  /** Following parents from `id` ends at a root. */
  ghost predicate HangsFromRoot(items: seq<Item>, id: int) {
    exists path :: WalkPath(items, None, path) && path != [] && path[|path| - 1] == id
  }

  /**
   * A node is in the forest exactly if its chain of parents ends at a root. So not only the nodes on a cycle are left
   * out: all that hang below one are, too, and in the recursive result whatever hangs below an orphan.
   */
  lemma InForestIff(items: seq<Item>, id: int)
    requires UniqueIds(items)
    ensures InTrees(WholeForest(items, None), id) <==> HangsFromRoot(items, id)
  {
    if InTrees(WholeForest(items, None), id) {
      var path := InForestHasPath(items, [], |items|, |items| + 1, id);
    }
    if path :| WalkPath(items, None, path) && path != [] && path[|path| - 1] == id {
      RecursionEndsIff(items, None);
      PathIsInForest(items, None, path, 0, |items| + 1);
    }
  }

  /** The one-pass linker keeps exactly the nodes whose chain of parents ends, at a root or at an orphan. */
  lemma InRerootedForestIff(items: seq<Item>, id: int)
    requires UniqueIds(items)
    ensures InTrees(WholeForest(WithOrphansAsRoots(items), None), id) <==>
            exists path :: path != [] && path[|path| - 1] == id && DescendsFromTop(items, path)
  {
    var r := WithOrphansAsRoots(items);
    RerootedKeepsIds(items);
    InForestIff(r, id);
    forall path: seq<int> | path != []
      ensures WalkPath(r, None, path) <==> DescendsFromTop(items, path)
    {
      RerootedPathIff(items, path);
    }
  }

  /** A path of distinct ids down the list, from a root or an orphan. */
  ghost predicate DescendsFromTop(items: seq<Item>, path: seq<int>)
    requires path != []
  {
    Descends(items, path) && exists i :: 0 <= i < |items| && items[i].id == path[0] && Rerooted(items, i).parentId.None?
  }

  lemma RerootedPathIff(items: seq<Item>, path: seq<int>)
    requires path != []
    ensures WalkPath(WithOrphansAsRoots(items), None, path) <==> DescendsFromTop(items, path)
  {
    var r := WithOrphansAsRoots(items);
    RerootedChildIff(items, None, path[0]);
    if DescendsFromTop(items, path) {
      forall k | 0 < k < |path|
        ensures IsChild(r, Some(path[k - 1]), path[k])
      {
        assert k > 1 ==> IsChild(items, Some(path[k - 2]), path[k - 1]);
        assert ListsId(items, path[k - 1]);
        RerootedChildIff(items, Some(path[k - 1]), path[k]);
      }
    }
    if Descends(r, path) && IsChild(r, None, path[0]) {
      forall k | 0 < k < |path|
        ensures IsChild(items, Some(path[k - 1]), path[k])
      {
        RerootedChildIff(items, Some(path[k - 1]), path[k]);
      }
    }
  }

  /** A child of a listed id stays one; the children of nobody are the roots and the orphans. */
  lemma RerootedChildIff(items: seq<Item>, parent: Option<int>, id: int)
    ensures parent.Some?
            ==> (IsChild(WithOrphansAsRoots(items), parent, id)
                 <==> IsChild(items, parent, id) && ListsId(items, parent.value))
    ensures IsChild(WithOrphansAsRoots(items), None, id) <==>
            exists i :: 0 <= i < |items| && items[i].id == id && Rerooted(items, i).parentId.None?
  {
    var r := WithOrphansAsRoots(items);
    forall i | 0 <= i < |items| && items[i].id == id
      ensures r[i].id == id && r[i].parentId == Rerooted(items, i).parentId
      ensures parent.Some?
              ==> (r[i].parentId == parent <==> items[i].parentId == parent && ListsId(items, parent.value))
    {
      assert r[i] == Rerooted(items, i);
    }
  }

  lemma {:induction false} UpThePathStaysOnTheCycle(items: seq<Item>, cycle: seq<int>, path: seq<int>, k: nat)
    requires UniqueIds(items) && Cycle(items, cycle) && Descends(items, path)
    requires k < |path| && path[|path| - 1] in cycle
    ensures path[k] in cycle
    decreases |path| - k
  {
    if k + 1 < |path| {
      UpThePathStaysOnTheCycle(items, cycle, path, k + 1);
      var c :| 0 <= c < |cycle| && cycle[c] == path[k + 1];
      var before := if c == 0 then |cycle| - 1 else c - 1;
      assert IsChild(items, Some(cycle[before]), cycle[c]);
      SameItem(items, Some(path[k]), Some(cycle[before]), path[k + 1]);
    }
  }

  /** A node on a parent cycle appears in neither result. */
  lemma CyclesAreOmitted(items: seq<Item>, id: int)
    requires UniqueIds(items) && OnCycle(items, id)
    ensures !InTrees(WholeForest(items, None), id)
  {
    var cycle :| Cycle(items, cycle) && cycle[0] == id;
    if InTrees(WholeForest(items, None), id) {
      var path := InForestHasPath(items, [], |items|, |items| + 1, id);
      UpThePathStaysOnTheCycle(items, cycle, path, 0);
      var c :| 0 <= c < |cycle| && cycle[c] == path[0];
      var before := if c == 0 then |cycle| - 1 else c - 1;
      assert IsChild(items, Some(cycle[before]), cycle[c]);
      SameItem(items, None, Some(cycle[before]), path[0]);
    }
  }

  /** Re-rooting orphans touches no cycle, so the one-pass linker omits them as well. */
  lemma CyclesSurviveRerooting(items: seq<Item>, id: int)
    requires OnCycle(items, id)
    ensures OnCycle(WithOrphansAsRoots(items), id)
  {
    var cycle :| Cycle(items, cycle) && cycle[0] == id;
    var r := WithOrphansAsRoots(items);
    forall p, c | 0 <= p < |cycle| && 0 <= c < |cycle| && IsChild(items, Some(cycle[p]), cycle[c])
      ensures IsChild(r, Some(cycle[p]), cycle[c])
    {
      var i :| 0 <= i < |items| && items[i].id == cycle[c] && items[i].parentId == Some(cycle[p]);
      var before := if p == 0 then |cycle| - 1 else p - 1;
      assert IsChild(items, Some(cycle[before]), cycle[p]);
      assert ListsId(items, cycle[p]);
      assert r[i] == Rerooted(items, i) == items[i];
    }
    assert Cycle(r, cycle);
  }
}
