/** Flat lists of (id, parent id), the forests they describe, and when walking down from an id comes to an end. */
module ParentLists {
  import opened Options

  datatype Item = Item(id: int, parentId: Option<int>)
  datatype Tree = Tree(id: int, children: seq<Tree>)

  predicate UniqueIds(items: seq<Item>) {
    forall i, j :: 0 <= i < j < |items| ==> items[i].id != items[j].id
  }

  predicate ListsId(items: seq<Item>, id: int) {
    exists i :: 0 <= i < |items| && items[i].id == id
  }

  predicate IsChild(items: seq<Item>, parent: Option<int>, id: int) {
    exists i :: 0 <= i < |items| && items[i].id == id && items[i].parentId == parent
  }

  // ---------- Does the recursion end? ----------

  /** Walking down from `parent` needs at most `depth` nested calls. */
  ghost predicate EndsWithin(items: seq<Item>, parent: Option<int>, depth: nat)
    decreases depth
  {
    depth > 0 && forall i ::
                   0 <= i < |items| && items[i].parentId == parent ==> EndsWithin(items, Some(items[i].id), depth - 1)
  }

  /** A path of distinct ids from `chain[0]` down the list, each the parent of the next. */
  ghost predicate Descends(items: seq<Item>, chain: seq<int>) {
    && (forall i, j :: 0 <= i < j < |chain| ==> chain[i] != chain[j])
    && (forall k :: 0 < k < |chain| ==> IsChild(items, Some(chain[k - 1]), chain[k]))
  }

  ghost predicate Cycle(items: seq<Item>, chain: seq<int>) {
    chain != [] && Descends(items, chain) && IsChild(items, Some(chain[|chain| - 1]), chain[0])
  }

  /** `id` is its own ancestor. */
  ghost predicate OnCycle(items: seq<Item>, id: int) {
    exists chain :: Cycle(items, chain) && chain[0] == id
  }

  /** The path of ids below the id the walk started from; a walk from the roots has no such id above it. */
  ghost predicate WalkPath(items: seq<Item>, start: Option<int>, chain: seq<int>) {
    && Descends(items, chain)
    && (start.Some? ==> chain != [] && chain[0] == start.value && !OnCycle(items, start.value))
    && (start.None? && chain != [] ==> IsChild(items, None, chain[0]))
  }

  function Tip(start: Option<int>, chain: seq<int>): Option<int> {
    if chain == [] then start else Some(chain[|chain| - 1])
  }

  lemma SameItem(items: seq<Item>, p: Option<int>, q: Option<int>, id: int)
    requires UniqueIds(items) && IsChild(items, p, id) && IsChild(items, q, id)
    ensures p == q
  {
  }

  lemma ClosesCycle(items: seq<Item>, chain: seq<int>)
    requires chain != [] && Descends(items, chain) && IsChild(items, Some(chain[|chain| - 1]), chain[0])
    ensures OnCycle(items, chain[0])
  {
    assert Cycle(items, chain);
  }

  /** No id can repeat on a path down from a root, nor from an id that is not its own ancestor. */
  lemma WalkExtends(items: seq<Item>, start: Option<int>, chain: seq<int>, id: int)
    requires UniqueIds(items) && WalkPath(items, start, chain)
    requires IsChild(items, Tip(start, chain), id)
    ensures WalkPath(items, start, chain + [id]) && id !in chain
  {
    if id in chain {
      var k :| 0 <= k < |chain| && chain[k] == id;
      if k > 0 {
        SameItem(items, Some(chain[k - 1]), Some(chain[|chain| - 1]), id);
      } else if start.Some? {
        ClosesCycle(items, chain);
      }
      assert false;
    }
    var longer := chain + [id];
    forall k | 0 < k < |longer|
      ensures IsChild(items, Some(longer[k - 1]), longer[k])
    {
      if k < |chain| {
        assert IsChild(items, Some(chain[k - 1]), chain[k]);
      }
    }
  }

  ghost function Ids(items: seq<Item>): set<int> {
    set i | 0 <= i < |items| :: items[i].id
  }

  /** Ids a walk has not met yet: what a call of the recursion uses up. */
  ghost function Unmet(items: seq<Item>, chain: seq<int>): nat {
    |Ids(items) - (set x | x in chain)|
  }

  lemma UnmetShrinks(items: seq<Item>, chain: seq<int>, id: int)
    requires ListsId(items, id) && id !in chain
    ensures Unmet(items, chain + [id]) < Unmet(items, chain)
  {
    var left := Ids(items) - (set x | x in chain);
    var after := Ids(items) - (set x | x in chain + [id]);
    assert after == left - {id};
    assert id in left;
  }

  lemma {:induction false} WalkEnds(items: seq<Item>, start: Option<int>, chain: seq<int>)
    requires UniqueIds(items) && WalkPath(items, start, chain)
    ensures EndsWithin(items, Tip(start, chain), Unmet(items, chain) + 1)
    decreases Unmet(items, chain)
  {
    var tip := Tip(start, chain);
    forall i | 0 <= i < |items| && items[i].parentId == tip
      ensures EndsWithin(items, Some(items[i].id), Unmet(items, chain))
    {
      var id := items[i].id;
      assert IsChild(items, tip, id);
      WalkExtends(items, start, chain, id);
      UnmetShrinks(items, chain, id);
      WalkEnds(items, start, chain + [id]);
      EndsWithinMore(items, Some(id), Unmet(items, chain + [id]) + 1, Unmet(items, chain));
    }
  }

  lemma {:induction false} EndsWithinMore(items: seq<Item>, parent: Option<int>, d: nat, e: nat)
    requires EndsWithin(items, parent, d) && d <= e
    ensures EndsWithin(items, parent, e)
    decreases d
  {
    forall i | 0 <= i < |items| && items[i].parentId == parent
      ensures EndsWithin(items, Some(items[i].id), e - 1)
    {
      EndsWithinMore(items, Some(items[i].id), d - 1, e - 1);
    }
  }

  lemma {:induction false} CycleNeverEnds(items: seq<Item>, chain: seq<int>, k: nat, depth: nat)
    requires Cycle(items, chain) && k < |chain|
    ensures !EndsWithin(items, Some(chain[k]), depth)
    decreases depth
  {
    if depth > 0 {
      var next := if k + 1 < |chain| then k + 1 else 0;
      assert IsChild(items, Some(chain[k]), chain[next]);
      CycleNeverEnds(items, chain, next, depth - 1);
    }
  }

  /** The recursion from `parent` ends exactly when `parent` is not its own ancestor; from the roots it always ends. */
  lemma RecursionEndsIff(items: seq<Item>, parent: Option<int>)
    requires UniqueIds(items)
    ensures (exists depth: nat :: EndsWithin(items, parent, depth)) <==> (parent.None? || !OnCycle(items, parent.value))
    ensures parent.None? || !OnCycle(items, parent.value) ==> EndsWithin(items, parent, |items| + 1)
  {
    if parent.Some? && OnCycle(items, parent.value) {
      var chain :| Cycle(items, chain) && chain[0] == parent.value;
      forall depth: nat
        ensures !EndsWithin(items, parent, depth)
      {
        CycleNeverEnds(items, chain, 0, depth);
      }
    } else {
      var chain := if parent.None? then [] else [parent.value];
      WalkEnds(items, parent, chain);
      UnmetBound(items, chain);
      var enough: nat := |items| + 1;
      EndsWithinMore(items, parent, Unmet(items, chain) + 1, enough);
      assert EndsWithin(items, parent, enough);
    }
  }

  lemma UnmetBound(items: seq<Item>, chain: seq<int>)
    ensures Unmet(items, chain) <= |items|
  {
    IdsBound(items);
    var met := set x | x in chain;
    assert Ids(items) - met <= Ids(items);
    SubsetSize(Ids(items) - met, Ids(items));
  }

  lemma SubsetSize(a: set<int>, b: set<int>)
    requires a <= b
    ensures |a| <= |b|
  {
    assert b == a + (b - a);
  }

  lemma {:induction false} IdsBound(items: seq<Item>)
    ensures |Ids(items)| <= |items|
    decreases |items|
  {
    if items == [] {
      assert Ids(items) == {};
    } else {
      var n := |items| - 1;
      IdsBound(items[..n]);
      assert Ids(items) == Ids(items[..n]) + {items[n].id} by {
        forall x | x in Ids(items) ensures x in Ids(items[..n]) + {items[n].id} {
          var i :| 0 <= i < |items| && items[i].id == x;
          assert i == n || items[..n][i].id == x;
        }
        forall x | x in Ids(items[..n]) ensures x in Ids(items) {
          var i :| 0 <= i < |items[..n]| && items[..n][i].id == x;
          assert items[i].id == x;
        }
      }
    }
  }

  // ---------- The forest a list describes ----------

  /** The trees below `parent` among the first `upTo` items, cut at `depth`. */
  function Forest(items: seq<Item>, parent: Option<int>, upTo: nat, depth: nat): seq<Tree>
    requires upTo <= |items|
    decreases depth, upTo
  {
    if upTo == 0 || depth == 0 then []
    else
      var it := items[upTo - 1];
      Forest(items, parent, upTo - 1, depth)
      + if it.parentId == parent then [Tree(it.id, Forest(items, Some(it.id), |items|, depth - 1))] else []
  }

  /** The whole forest below `parent`: deep enough for every walk that ends. */
  function WholeForest(items: seq<Item>, parent: Option<int>): seq<Tree> {
    Forest(items, parent, |items|, |items| + 1)
  }

  lemma {:induction false} DeeperIsSame(items: seq<Item>, parent: Option<int>, upTo: nat, d: nat, e: nat)
    requires EndsWithin(items, parent, d) && d <= e && upTo <= |items|
    ensures Forest(items, parent, upTo, d) == Forest(items, parent, upTo, e)
    decreases d, upTo
  {
    if upTo > 0 {
      DeeperIsSame(items, parent, upTo - 1, d, e);
      if items[upTo - 1].parentId == parent {
        DeeperIsSame(items, Some(items[upTo - 1].id), |items|, d - 1, e - 1);
      }
    }
  }

  /** The list with every orphan made a root: an item whose parent id is not listed loses it. */
  function Rerooted(items: seq<Item>, i: nat): Item
    requires i < |items|
  {
    if items[i].parentId.Some? && !ListsId(items, items[i].parentId.value) then Item(items[i].id, None) else items[i]
  }

  function WithOrphansAsRoots(items: seq<Item>): (r: seq<Item>)
    ensures |r| == |items| && forall i :: 0 <= i < |items| ==> r[i] == Rerooted(items, i)
  {
    seq(|items|, i requires 0 <= i < |items| => Rerooted(items, i))
  }
}
