/** The two tree builders, writing `children` into the nodes in place. */
module TreeBuilder {
  import opened Options
  import opened ParentLists

  class TreeNode {
    const id: int
    const parentId: Option<int>
    var children: Option<seq<TreeNode>>  // `None`: the key is absent

    constructor (id: int, parentId: Option<int>)
      ensures this.id == id && this.parentId == parentId && children == None
    {
      this.id, this.parentId, this.children := id, parentId, None;
    }
  }

  function ItemsOf(nodes: seq<TreeNode>): (items: seq<Item>)
    ensures |items| == |nodes| && forall i :: 0 <= i < |nodes| ==> items[i] == Item(nodes[i].id, nodes[i].parentId)
  {
    seq(|nodes|, i requires 0 <= i < |nodes| => Item(nodes[i].id, nodes[i].parentId))
  }

  /** The nodes among the first `upTo` with this parent, in list order. */
  function Below(nodes: seq<TreeNode>, upTo: nat, parent: Option<int>): seq<TreeNode>
    requires upTo <= |nodes|
  {
    if upTo == 0 then []
    else Below(nodes, upTo - 1, parent) + if nodes[upTo - 1].parentId == parent then [nodes[upTo - 1]] else []
  }

  /** Roots and orphans among the first `upTo`, in list order; `ids` are the ids of the list. */
  function Tops(nodes: seq<TreeNode>, upTo: nat, ids: set<int>): seq<TreeNode>
    requires upTo <= |nodes|
  {
    if upTo == 0 then []
    else Tops(nodes, upTo - 1, ids) + if IsTop(nodes[upTo - 1], ids) then [nodes[upTo - 1]] else []
  }

  predicate IsTop(node: TreeNode, ids: set<int>) {
    node.parentId.None? || node.parentId.value !in ids
  }

  /** No id occurs twice. Stated recursively, so that methods carry it without comparing all pairs. */
  ghost predicate DistinctIds(nodes: seq<TreeNode>)
    decreases |nodes|
  {
    nodes == [] ||
    (nodes[|nodes| - 1].id !in Ids(ItemsOf(nodes[..|nodes| - 1])) && DistinctIds(nodes[..|nodes| - 1]))
  }

  lemma {:induction false} DistinctIdsIff(nodes: seq<TreeNode>)
    ensures DistinctIds(nodes) <==> UniqueIds(ItemsOf(nodes))
    decreases |nodes|
  {
    if nodes != [] {
      var n := |nodes| - 1;
      var items, init := ItemsOf(nodes), ItemsOf(nodes[..n]);
      DistinctIdsIff(nodes[..n]);
      assert init == items[..n];
      if nodes[n].id in Ids(init) {
        var i :| 0 <= i < n && init[i].id == nodes[n].id;
        assert items[i].id == items[n].id;
      }
      forall i | 0 <= i < n && nodes[n].id !in Ids(init)
        ensures items[i].id != items[n].id
      {
        assert init[i].id in Ids(init);
      }
      assert UniqueIds(items) ==> UniqueIds(init);
    }
  }

  function AsField(children: seq<TreeNode>): Option<seq<TreeNode>> {
    if children == [] then None else Some(children)
  }

  lemma {:induction false} BelowIsListed(nodes: seq<TreeNode>, upTo: nat, parent: Option<int>, n: TreeNode)
    requires upTo <= |nodes|
    ensures n in Below(nodes, upTo, parent) <==> exists i :: 0 <= i < upTo && nodes[i] == n && n.parentId == parent
    decreases upTo
  {
    if upTo > 0 {
      BelowIsListed(nodes, upTo - 1, parent, n);
    }
  }

  lemma {:induction false} TopsAreListed(nodes: seq<TreeNode>, upTo: nat, ids: set<int>, n: TreeNode)
    requires upTo <= |nodes|
    ensures n in Tops(nodes, upTo, ids) ==> exists i :: 0 <= i < upTo && nodes[i] == n
    decreases upTo
  {
    if upTo > 0 {
      TopsAreListed(nodes, upTo - 1, ids, n);
    }
  }

  // ---------- The one-pass linker ----------

  ghost predicate IsDict(nodes: seq<TreeNode>, dict: map<int, TreeNode>) {
    dict.Keys == Ids(ItemsOf(nodes)) && forall id :: id in dict ==> dict[id] in nodes && dict[id].id == id
  }

  method NodeDict(nodes: seq<TreeNode>) returns (dict: map<int, TreeNode>)
    requires DistinctIds(nodes)
    ensures IsDict(nodes, dict)
  {
    DistinctIdsIff(nodes);
    ghost var items := ItemsOf(nodes);
    dict := map[];
    for i := 0 to |nodes|
      invariant forall k :: 0 <= k < i ==> items[k].id in dict
      invariant forall id :: id in dict ==> id in Ids(items) && dict[id] in nodes && dict[id].id == id
    {
      assert items[i].id == nodes[i].id;
      dict := dict[nodes[i].id := nodes[i]];
    }
    forall id
      ensures id in dict.Keys <==> id in Ids(items)
    {
      if id in Ids(items) {
        var k :| 0 <= k < |items| && items[k].id == id;
      }
    }
  }

  /** Every node has the children found among the first `upTo` nodes. */
  ghost predicate LinkedUpTo(nodes: seq<TreeNode>, upTo: nat)
    requires upTo <= |nodes|
    reads nodes
  {
    forall k :: 0 <= k < |nodes| ==> nodes[k].children == AsField(Below(nodes, upTo, Some(nodes[k].id)))
  }

  /** Every node gets its children and the result lists roots and orphans, all in list order. */
  method TraversalToTree(nodes: seq<TreeNode>) returns (tree: seq<TreeNode>)
    requires DistinctIds(nodes)
    requires forall i :: 0 <= i < |nodes| ==> nodes[i].children == None
    modifies nodes
    ensures tree == Tops(nodes, |nodes|, Ids(ItemsOf(nodes)))
    ensures LinkedUpTo(nodes, |nodes|)
  {
    var nodeDict := NodeDict(nodes);
    tree := PlaceAll(nodes, nodeDict);
  }

  method PlaceAll(nodes: seq<TreeNode>, dict: map<int, TreeNode>) returns (tree: seq<TreeNode>)
    requires DistinctIds(nodes) && IsDict(nodes, dict) && LinkedUpTo(nodes, 0)
    modifies nodes
    ensures tree == Tops(nodes, |nodes|, dict.Keys) && LinkedUpTo(nodes, |nodes|)
  {
    tree := [];
    ghost var ids := dict.Keys;
    for i := 0 to |nodes|
      invariant tree == Tops(nodes, i, ids)
      invariant LinkedUpTo(nodes, i)
    {
      tree := PlaceNode(nodes, i, dict, tree);
    }
  }

  method PlaceNode(nodes: seq<TreeNode>, i: nat, dict: map<int, TreeNode>, sofar: seq<TreeNode>)
    returns (tree: seq<TreeNode>)
    requires DistinctIds(nodes) && i < |nodes| && IsDict(nodes, dict)
    requires sofar == Tops(nodes, i, dict.Keys) && LinkedUpTo(nodes, i)
    modifies nodes
    ensures tree == Tops(nodes, i + 1, dict.Keys) && LinkedUpTo(nodes, i + 1)
  {
    var node := nodes[i];
    tree := sofar;
    NotYetListed(nodes, i, dict.Keys);
    if node.parentId.None? {
      NoLink(nodes, i);
      tree := tree + [node];
    } else if node.parentId.value in dict {
      LinkUnder(nodes, i, dict[node.parentId.value]);
    } else {
      NoLink(nodes, i);
      if node !in tree {
        tree := tree + [node];
      }
    }
  }

  lemma NoLink(nodes: seq<TreeNode>, i: nat)
    requires i < |nodes| && LinkedUpTo(nodes, i) && IsTop(nodes[i], Ids(ItemsOf(nodes)))
    ensures LinkedUpTo(nodes, i + 1)
  {
    var items := ItemsOf(nodes);
    forall k | 0 <= k < |nodes|
      ensures Below(nodes, i + 1, Some(nodes[k].id)) == Below(nodes, i, Some(nodes[k].id))
    {
      assert items[k].id == nodes[k].id;
      assert items[k].id in Ids(items);
    }
  }

  method LinkUnder(nodes: seq<TreeNode>, i: nat, parent: TreeNode)
    requires DistinctIds(nodes) && i < |nodes| && LinkedUpTo(nodes, i)
    requires parent in nodes && nodes[i].parentId == Some(parent.id)
    requires forall p :: nodes[i] !in Below(nodes, i, p)
    modifies nodes
    ensures LinkedUpTo(nodes, i + 1)
  {
    ghost var at :| 0 <= at < |nodes| && nodes[at] == parent;
    NodesDistinct(nodes);
    assert parent.children == AsField(Below(nodes, i, Some(parent.id)));
    LinkChild(parent, nodes[i]);
    forall k | 0 <= k < |nodes|
      ensures nodes[k].children == AsField(Below(nodes, i + 1, Some(nodes[k].id)))
    {
      if k != at {
        assert nodes[k] != parent && nodes[k].id != parent.id;
        assert Below(nodes, i + 1, Some(nodes[k].id)) == Below(nodes, i, Some(nodes[k].id));
      }
    }
  }

  method LinkChild(parent: TreeNode, node: TreeNode)
    requires parent.children.Some? ==> node !in parent.children.value
    modifies parent
    ensures parent.children == Some((if old(parent.children).Some? then old(parent.children).value else []) + [node])
  {
    if parent.children.None? {
      parent.children := Some([]);
    }
    if node !in parent.children.value {
      parent.children := Some(parent.children.value + [node]);
    }
  }

  lemma NotYetListed(nodes: seq<TreeNode>, i: nat, ids: set<int>)
    requires DistinctIds(nodes) && i < |nodes|
    ensures forall p :: nodes[i] !in Below(nodes, i, p)
    ensures nodes[i] !in Tops(nodes, i, ids)
  {
    forall p ensures nodes[i] !in Below(nodes, i, p) {
      BelowIsListed(nodes, i, p, nodes[i]);
      NodesDistinct(nodes);
    }
    TopsAreListed(nodes, i, ids, nodes[i]);
    NodesDistinct(nodes);
  }

  lemma NodesDistinct(nodes: seq<TreeNode>)
    requires DistinctIds(nodes)
    ensures forall i, j :: 0 <= i < j < |nodes| ==> nodes[i] != nodes[j] && nodes[i].id != nodes[j].id
  {
    var items := ItemsOf(nodes);
    DistinctIdsIff(nodes);
    forall i, j | 0 <= i < j < |nodes|
      ensures nodes[i].id != nodes[j].id
    {
      assert items[i].id != items[j].id;
    }
  }

  // ---------- The recursive builder ----------

  /** Nodes whose `children` already is what it must finally be. */
  ghost function Settled(nodes: seq<TreeNode>): set<int>
    reads nodes
  {
    set i | 0 <= i < |nodes| && nodes[i].children == AsField(Below(nodes, |nodes|, Some(nodes[i].id))) :: nodes[i].id
  }

  /** Nothing is half built: a node's children are absent or final. */
  ghost predicate AbsentOrFinal(nodes: seq<TreeNode>)
    reads nodes
  {
    forall i :: 0 <= i < |nodes| ==>
      nodes[i].children == None || nodes[i].children == AsField(Below(nodes, |nodes|, Some(nodes[i].id)))
  }

  /** Every id found walking down from `parent`, at most `depth` levels, is in `done`. */
  ghost predicate Covers(items: seq<Item>, parent: Option<int>, depth: nat, done: set<int>)
    decreases depth
  {
    depth > 0 ==> forall i :: 0 <= i < |items| && items[i].parentId == parent ==>
                    items[i].id in done && Covers(items, Some(items[i].id), depth - 1, done)
  }

  lemma {:induction false} CoversMore(items: seq<Item>, parent: Option<int>, depth: nat, done: set<int>, more: set<int>)
    requires Covers(items, parent, depth, done) && done <= more
    ensures Covers(items, parent, depth, more)
    decreases depth
  {
    if depth > 0 {
      forall i | 0 <= i < |items| && items[i].parentId == parent
        ensures items[i].id in more && Covers(items, Some(items[i].id), depth - 1, more)
      {
        CoversMore(items, Some(items[i].id), depth - 1, done, more);
      }
    }
  }

  /** Everything found walking down from `parent`, however far, is in `done`. */
  ghost predicate AllCovered(items: seq<Item>, parent: Option<int>, done: set<int>) {
    forall depth: nat :: Covers(items, parent, depth, done)
  }

  lemma AllCoveredMore(items: seq<Item>, parent: Option<int>, done: set<int>, more: set<int>)
    requires AllCovered(items, parent, done) && done <= more
    ensures AllCovered(items, parent, more)
  {
    forall depth: nat ensures Covers(items, parent, depth, more) {
      CoversMore(items, parent, depth, done, more);
    }
  }

  /** The nodes already treated by the loop of one call, and everything below them, are settled. */
  ghost predicate LoopCovers(items: seq<Item>, parent: Option<int>, upTo: nat, done: set<int>)
    requires upTo <= |items|
  {
    forall i :: 0 <= i < upTo && items[i].parentId == parent
        ==> items[i].id in done && AllCovered(items, Some(items[i].id), done)
  }

  lemma LoopCoversMore(items: seq<Item>, parent: Option<int>, upTo: nat, done: set<int>, more: set<int>)
    requires upTo <= |items| && LoopCovers(items, parent, upTo, done) && done <= more
    ensures LoopCovers(items, parent, upTo, more)
  {
    forall i | 0 <= i < upTo && items[i].parentId == parent
      ensures AllCovered(items, Some(items[i].id), more)
    {
      AllCoveredMore(items, Some(items[i].id), done, more);
    }
  }

  lemma LoopCoversAll(items: seq<Item>, parent: Option<int>, done: set<int>)
    requires LoopCovers(items, parent, |items|, done)
    ensures AllCovered(items, parent, done)
  {
    forall depth: nat ensures Covers(items, parent, depth, done) {
      if depth > 0 {
        forall i | 0 <= i < |items| && items[i].parentId == parent
          ensures items[i].id in done && Covers(items, Some(items[i].id), depth - 1, done)
        {
          assert AllCovered(items, Some(items[i].id), done);
        }
      }
    }
  }

  ghost predicate Walking(nodes: seq<TreeNode>, start: Option<int>, chain: seq<int>) {
    DistinctIds(nodes) && WalkPath(ItemsOf(nodes), start, chain)
  }

  /**
   * `chain` is the path of ids walked so far below `start`. The call ends because no id can repeat on it;
   * it settles every node below `parent` and unsettles none.
   */
  method RecursiveToTree(nodes: seq<TreeNode>, parent: Option<int>, ghost start: Option<int>, ghost chain: seq<int>)
    returns (tree: seq<TreeNode>)
    requires Walking(nodes, start, chain) && parent == Tip(start, chain)
    requires AbsentOrFinal(nodes)
    modifies nodes
    ensures tree == Below(nodes, |nodes|, parent)
    ensures AbsentOrFinal(nodes) && old(Settled(nodes)) <= Settled(nodes)
    ensures AllCovered(ItemsOf(nodes), parent, Settled(nodes))
    decreases Unmet(ItemsOf(nodes), chain), 1
  {
    tree := [];
    for i := 0 to |nodes|
      invariant tree == Below(nodes, i, parent)
      invariant AbsentOrFinal(nodes) && old(Settled(nodes)) <= Settled(nodes)
      invariant LoopCovers(ItemsOf(nodes), parent, i, Settled(nodes))
    {
      if nodes[i].parentId == parent {
        VisitChild(nodes, parent, i, start, chain);
        tree := tree + [nodes[i]];
      }
    }
    LoopCoversAll(ItemsOf(nodes), parent, Settled(nodes));
  }

  method VisitChild(nodes: seq<TreeNode>, parent: Option<int>, i: nat, ghost start: Option<int>, ghost chain: seq<int>)
    requires Walking(nodes, start, chain) && parent == Tip(start, chain)
    requires AbsentOrFinal(nodes) && i < |nodes| && nodes[i].parentId == parent
    requires LoopCovers(ItemsOf(nodes), parent, i, Settled(nodes))
    modifies nodes
    ensures AbsentOrFinal(nodes) && old(Settled(nodes)) <= Settled(nodes)
    ensures LoopCovers(ItemsOf(nodes), parent, i + 1, Settled(nodes))
    decreases Unmet(ItemsOf(nodes), chain), 0
  {
    ghost var before := Settled(nodes);
    DistinctIdsIff(nodes);
    ChildIsNew(ItemsOf(nodes), start, chain, i);
    var childNodes := RecursiveToTree(nodes, Some(nodes[i].id), start, chain + [nodes[i].id]);
    ghost var mid := Settled(nodes);
    SetChildren(nodes, i, childNodes);
    ChildCovered(ItemsOf(nodes), parent, i, before, mid, Settled(nodes));
  }

  lemma ChildIsNew(items: seq<Item>, start: Option<int>, chain: seq<int>, i: nat)
    requires UniqueIds(items) && WalkPath(items, start, chain) && i < |items| && items[i].parentId == Tip(start, chain)
    ensures WalkPath(items, start, chain + [items[i].id])
    ensures Unmet(items, chain + [items[i].id]) < Unmet(items, chain)
  {
    assert IsChild(items, Tip(start, chain), items[i].id);
    WalkExtends(items, start, chain, items[i].id);
    UnmetShrinks(items, chain, items[i].id);
  }

  lemma ChildCovered(items: seq<Item>, parent: Option<int>, i: nat, before: set<int>, mid: set<int>, after: set<int>)
    requires i < |items| && before <= mid <= after && items[i].parentId == parent && items[i].id in after
    requires LoopCovers(items, parent, i, before) && AllCovered(items, Some(items[i].id), mid)
    ensures LoopCovers(items, parent, i + 1, after)
  {
    LoopCoversMore(items, parent, i, before, after);
    AllCoveredMore(items, Some(items[i].id), mid, after);
  }

  /** `node['children'] = child_nodes` unless there are none; either way the node is settled then. */
  method SetChildren(nodes: seq<TreeNode>, i: nat, childNodes: seq<TreeNode>)
    requires DistinctIds(nodes) && AbsentOrFinal(nodes) && i < |nodes|
    requires childNodes == Below(nodes, |nodes|, Some(nodes[i].id))
    modifies nodes[i]
    ensures AbsentOrFinal(nodes) && nodes[i].id in Settled(nodes) && old(Settled(nodes)) <= Settled(nodes)
  {
    NodesDistinct(nodes);
    if childNodes != [] {
      nodes[i].children := Some(childNodes);
    }
    forall id | id in old(Settled(nodes))
      ensures id in Settled(nodes)
    {
      var k :| 0 <= k < |nodes| && old(nodes[k].children) == AsField(Below(nodes, |nodes|, Some(nodes[k].id)))
               && nodes[k].id == id;
      assert nodes[k].children == AsField(Below(nodes, |nodes|, Some(nodes[k].id)));
    }
  }
}
