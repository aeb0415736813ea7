/** Folder lists, the name path of a folder, and what it means for one list to mirror another. */
module FolderPaths {
  import opened Options

  datatype Folder = Folder(id: int, name: string, parentId: Option<int>)

  predicate UniqueIds(fs: seq<Folder>) {
    forall i, j :: 0 <= i < j < |fs| ==> fs[i].id != fs[j].id
  }

  predicate HasId(fs: seq<Folder>, id: int) {
    exists i :: 0 <= i < |fs| && fs[i].id == id
  }

  predicate HasSibling(fs: seq<Folder>, name: string, parentId: Option<int>) {
    exists i :: 0 <= i < |fs| && fs[i].name == name && fs[i].parentId == parentId
  }

  /** No two folders of one level share a name. */
  predicate UniqueNames(fs: seq<Folder>) {
    forall i, j :: 0 <= i < j < |fs| ==> fs[i].name != fs[j].name || fs[i].parentId != fs[j].parentId
  }

  /** `path` holds the names from a root down to the folder `id`. */
  ghost predicate PathIs(fs: seq<Folder>, id: int, path: seq<string>)
    decreases |path|, 0
  {
    path != [] && exists i :: 0 <= i < |fs| && fs[i].id == id && fs[i].name == path[|path| - 1]
                              && ParentPathIs(fs, fs[i].parentId, path[..|path| - 1])
  }

  ghost predicate ParentPathIs(fs: seq<Folder>, parentId: Option<int>, path: seq<string>)
    decreases |path|, 1
  {
    if parentId.None? then path == [] else PathIs(fs, parentId.value, path)
  }

  /** The parent chain of `id` inside the list reaches a root. */
  ghost predicate ReachesRoot(fs: seq<Folder>, id: int) {
    exists path :: PathIs(fs, id, path)
  }

  /** Some folder has this name path. */
  ghost predicate HasPath(fs: seq<Folder>, path: seq<string>) {
    exists id :: PathIs(fs, id, path)
  }

  lemma {:induction false} PathGrows(fs: seq<Folder>, more: seq<Folder>, id: int, path: seq<string>)
    requires PathIs(fs, id, path) && fs <= more
    ensures PathIs(more, id, path)
    decreases |path|
  {
    var n := |path| - 1;
    var i :| 0 <= i < |fs| && fs[i].id == id && fs[i].name == path[n] && ParentPathIs(fs, fs[i].parentId, path[..n]);
    if fs[i].parentId.Some? {
      PathGrows(fs, more, fs[i].parentId.value, path[..n]);
    }
    assert more[i] == fs[i];
  }

  lemma ParentPathGrows(fs: seq<Folder>, more: seq<Folder>, parentId: Option<int>, path: seq<string>)
    requires ParentPathIs(fs, parentId, path) && fs <= more
    ensures ParentPathIs(more, parentId, path)
  {
    if parentId.Some? {
      PathGrows(fs, more, parentId.value, path);
    }
  }

  /** A folder has at most one name path. */
  lemma {:induction false} PathIsUnique(fs: seq<Folder>, id: int, p: seq<string>, q: seq<string>)
    requires UniqueIds(fs) && PathIs(fs, id, p) && PathIs(fs, id, q)
    ensures p == q
    decreases |p|
  {
    var m, n := |p| - 1, |q| - 1;
    var i :| 0 <= i < |fs| && fs[i].id == id && fs[i].name == p[m] && ParentPathIs(fs, fs[i].parentId, p[..m]);
    var j :| 0 <= j < |fs| && fs[j].id == id && fs[j].name == q[n] && ParentPathIs(fs, fs[j].parentId, q[..n]);
    assert i == j;
    if fs[i].parentId.Some? {
      PathIsUnique(fs, fs[i].parentId.value, p[..m], q[..n]);
    }
    assert p == p[..m] + [p[m]] && q == q[..n] + [q[n]];
  }

  /** Where siblings differ in name, a name path leads to at most one folder. */
  lemma {:induction false} PathLeadsToOne(fs: seq<Folder>, x: int, y: int, path: seq<string>)
    requires UniqueNames(fs) && PathIs(fs, x, path) && PathIs(fs, y, path)
    ensures x == y
    decreases |path|, 0
  {
    var n := |path| - 1;
    var i :| 0 <= i < |fs| && fs[i].id == x && fs[i].name == path[n] && ParentPathIs(fs, fs[i].parentId, path[..n]);
    var j :| 0 <= j < |fs| && fs[j].id == y && fs[j].name == path[n] && ParentPathIs(fs, fs[j].parentId, path[..n]);
    SameParent(fs, fs[i].parentId, fs[j].parentId, path[..n]);
    assert i == j;
  }

  lemma {:induction false} SameParent(fs: seq<Folder>, p: Option<int>, q: Option<int>, path: seq<string>)
    requires UniqueNames(fs) && ParentPathIs(fs, p, path) && ParentPathIs(fs, q, path)
    ensures p == q
    decreases |path|, 1
  {
    if p.Some? && q.Some? {
      PathLeadsToOne(fs, p.value, q.value, path);
    }
  }

  lemma PathExtends(fs: seq<Folder>, i: nat, path: seq<string>)
    requires i < |fs| && ParentPathIs(fs, fs[i].parentId, path)
    ensures PathIs(fs, fs[i].id, path + [fs[i].name])
  {
    var longer := path + [fs[i].name];
    assert longer[..|longer| - 1] == path;
  }

  // ---------- One list mirrored in another ----------

  function Image(idMap: map<int, int>, parentId: Option<int>): Option<int> {
    if parentId.Some? && parentId.value in idMap then Some(idMap[parentId.value]) else None
  }

  /** The folder is mapped to a row with its name, below the image of its parent. */
  predicate Mirrored(rows: seq<Folder>, idMap: map<int, int>, f: Folder) {
    && f.id in idMap
    && (f.parentId.Some? ==> f.parentId.value in idMap)
    && Folder(idMap[f.id], f.name, Image(idMap, f.parentId)) in rows
  }

  /** Everything mapped reaches a root and is mirrored. */
  ghost predicate Mirrors(folders: seq<Folder>, rows: seq<Folder>, idMap: map<int, int>) {
    && (forall id :: id in idMap ==> ReachesRoot(folders, id))
    && (forall i :: 0 <= i < |folders| && folders[i].id in idMap ==> Mirrored(rows, idMap, folders[i]))
  }

  /** The mapped folders that reach a root are mirrored. */
  ghost predicate MirrorsRooted(folders: seq<Folder>, rows: seq<Folder>, idMap: map<int, int>) {
    forall f :: f in folders && f.id in idMap && ReachesRoot(folders, f.id) ==> Mirrored(rows, idMap, f)
  }

  /** The image of a mapped folder has the same name path. */
  lemma {:induction false} ImageHasSamePath(folders: seq<Folder>, rows: seq<Folder>, idMap: map<int, int>, id: int,
                                            path: seq<string>)
    requires MirrorsRooted(folders, rows, idMap) && id in idMap && PathIs(folders, id, path)
    ensures PathIs(rows, idMap[id], path)
    decreases |path|
  {
    var n := |path| - 1;
    var i :| 0 <= i < |folders| && folders[i].id == id && folders[i].name == path[n]
             && ParentPathIs(folders, folders[i].parentId, path[..n]);
    var f := folders[i];
    assert Mirrored(rows, idMap, f);
    var k :| 0 <= k < |rows| && rows[k] == Folder(idMap[id], f.name, Image(idMap, f.parentId));
    if f.parentId.Some? {
      ImageHasSamePath(folders, rows, idMap, f.parentId.value, path[..n]);
    }
    assert ParentPathIs(rows, rows[k].parentId, path[..n]);
  }

  /** A folder whose parent is not mapped yet. */
  predicate Blocked(f: Folder, idMap: map<int, int>) {
    f.parentId.Some? && f.parentId.value !in idMap
  }

  /** When every folder left is blocked, the mapped ones are exactly those whose chain reaches a root. */
  lemma {:induction false} StuckMapsAllRooted(folders: seq<Folder>, idMap: map<int, int>, id: int, path: seq<string>)
    requires forall i :: 0 <= i < |folders| && folders[i].id !in idMap ==> Blocked(folders[i], idMap)
    requires PathIs(folders, id, path)
    ensures id in idMap
    decreases |path|
  {
    var n := |path| - 1;
    var i :| 0 <= i < |folders| && folders[i].id == id && folders[i].name == path[n]
             && ParentPathIs(folders, folders[i].parentId, path[..n]);
    if folders[i].parentId.Some? {
      StuckMapsAllRooted(folders, idMap, folders[i].parentId.value, path[..n]);
    }
  }

  // ---------- What is left when the passes stop ----------

  predicate IsParent(fs: seq<Folder>, child: int, parentId: Option<int>) {
    exists i :: 0 <= i < |fs| && fs[i].id == child && fs[i].parentId == parentId
  }

  /** Distinct folders of the list, each followed by its parent. */
  ghost predicate Climbs(fs: seq<Folder>, chain: seq<int>) {
    && chain != []
    && (forall k :: 0 <= k < |chain| ==> HasId(fs, chain[k]) && chain[k] !in chain[..k])
    && (forall k :: 0 <= k < |chain| - 1 ==> IsParent(fs, chain[k], Some(chain[k + 1])))
  }

  /** The last folder's parent is not in the list (a broken chain), or is on the chain already (a cycle). */
  ghost predicate DeadEnd(fs: seq<Folder>, chain: seq<int>)
    requires chain != []
  {
    exists p :: IsParent(fs, chain[|chain| - 1], Some(p)) && (!HasId(fs, p) || p in chain)
  }

  ghost function Unvisited(fs: seq<Folder>, chain: seq<int>): set<int> {
    (set i | 0 <= i < |fs| :: fs[i].id) - (set id | id in chain)
  }

  lemma ClimbOnce(fs: seq<Folder>, chain: seq<int>, p: int)
    requires Climbs(fs, chain) && IsParent(fs, chain[|chain| - 1], Some(p)) && HasId(fs, p) && p !in chain
    ensures Climbs(fs, chain + [p]) && |Unvisited(fs, chain + [p])| < |Unvisited(fs, chain)|
  {
    var longer := chain + [p];
    forall k | 0 <= k < |longer|
      ensures HasId(fs, longer[k]) && longer[k] !in longer[..k]
    {
      if k < |chain| {
        assert longer[..k] == chain[..k];
      } else {
        assert longer[..k] == chain;
      }
    }
    forall k | 0 <= k < |longer| - 1
      ensures IsParent(fs, longer[k], Some(longer[k + 1]))
    {
      assert k < |chain| - 1 ==> IsParent(fs, chain[k], Some(chain[k + 1]));
    }
    VisitOnce(fs, chain, p);
  }

  lemma VisitOnce(fs: seq<Folder>, chain: seq<int>, p: int)
    requires HasId(fs, p) && p !in chain
    ensures |Unvisited(fs, chain + [p])| < |Unvisited(fs, chain)|
  {
    assert p in Unvisited(fs, chain);
    assert Unvisited(fs, chain + [p]) == Unvisited(fs, chain) - {p};
  }

  lemma {:induction false} ClimbToDeadEnd(fs: seq<Folder>, chain: seq<int>) returns (longer: seq<int>)
    requires Climbs(fs, chain) && !ReachesRoot(fs, chain[|chain| - 1])
    ensures Climbs(fs, longer) && longer[0] == chain[0] && DeadEnd(fs, longer)
    decreases |Unvisited(fs, chain)|
  {
    var last := chain[|chain| - 1];
    var i :| 0 <= i < |fs| && fs[i].id == last;
    if fs[i].parentId.None? {
      PathExtends(fs, i, []);
      assert false;
    }
    var p := fs[i].parentId.value;
    assert IsParent(fs, last, Some(p));
    if !HasId(fs, p) || p in chain {
      longer := chain;
    } else {
      if ReachesRoot(fs, p) {
        var path :| PathIs(fs, p, path);
        PathExtends(fs, i, path);
        assert false;
      }
      ClimbOnce(fs, chain, p);
      longer := ClimbToDeadEnd(fs, chain + [p]);
    }
  }

  lemma {:induction false} NoPathOnDeadEnd(fs: seq<Folder>, chain: seq<int>, k: nat, path: seq<string>)
    requires UniqueIds(fs) && Climbs(fs, chain) && DeadEnd(fs, chain) && k < |chain|
    ensures !PathIs(fs, chain[k], path)
    decreases |path|
  {
    if PathIs(fs, chain[k], path) {
      var n := |path| - 1;
      var i :| 0 <= i < |fs| && fs[i].id == chain[k] && fs[i].name == path[n]
               && ParentPathIs(fs, fs[i].parentId, path[..n]);
      if k < |chain| - 1 {
        assert IsParent(fs, chain[k], Some(chain[k + 1]));
        NoPathOnDeadEnd(fs, chain, k + 1, path[..n]);
      } else {
        var p :| IsParent(fs, chain[k], Some(p)) && (!HasId(fs, p) || p in chain);
        assert PathIs(fs, p, path[..n]);
        if p in chain {
          var m :| 0 <= m < |chain| && chain[m] == p;
          NoPathOnDeadEnd(fs, chain, m, path[..n]);
        }
      }
      assert false;
    }
  }

  /**
   * The folders that reach no root are exactly those whose parents lead to a folder outside the list or into a cycle.
   */
  lemma LeftOutIff(fs: seq<Folder>, id: int)
    requires UniqueIds(fs) && HasId(fs, id)
    ensures !ReachesRoot(fs, id) <==> exists chain :: Climbs(fs, chain) && chain[0] == id && DeadEnd(fs, chain)
  {
    if ReachesRoot(fs, id) {
      var path :| PathIs(fs, id, path);
      forall chain | Climbs(fs, chain) && chain[0] == id
        ensures !DeadEnd(fs, chain)
      {
        if DeadEnd(fs, chain) {
          NoPathOnDeadEnd(fs, chain, 0, path);
        }
      }
    } else {
      var chain := ClimbToDeadEnd(fs, [id]);
    }
  }
}
