/** What a committed migration means for name paths, and what running it again does. */
module FolderRerun {
  import opened Options
  import opened FolderPaths
  import opened FolderMigration

  lemma MigratedMirrors(folders: seq<Folder>, rows0: seq<Folder>, rows: seq<Folder>, idMap: map<int, int>)
    requires Migrated(folders, rows0, rows, idMap)
    ensures MirrorsRooted(folders, rows, idMap)
  {
    forall f | f in folders && ReachesRoot(folders, f.id)
      ensures Mirrored(rows, idMap, f)
    {
      assert !Leftover(folders, f);
    }
  }

  lemma RootedIsMapped(folders: seq<Folder>, rows0: seq<Folder>, rows: seq<Folder>, idMap: map<int, int>, id: int,
                       path: seq<string>)
    requires Migrated(folders, rows0, rows, idMap) && PathIs(folders, id, path)
    ensures id in idMap && PathIs(rows, idMap[id], path)
  {
    var i :| 0 <= i < |folders| && folders[i].id == id;
    assert folders[i] in folders;
    MigratedMirrors(folders, rows0, rows, idMap);
    ImageHasSamePath(folders, rows, idMap, id, path);
  }

  /** Structure is preserved: two well-founded folders share an image exactly when they have the same name path. */
  lemma SameImageIff(folders: seq<Folder>, rows0: seq<Folder>, rows: seq<Folder>, idMap: map<int, int>,
                     a: int, p: seq<string>, b: int, q: seq<string>)
    requires Migrated(folders, rows0, rows, idMap) && UniqueNames(rows0)
    requires PathIs(folders, a, p) && PathIs(folders, b, q)
    ensures a in idMap && b in idMap && (idMap[a] == idMap[b] <==> p == q)
  {
    RootedIsMapped(folders, rows0, rows, idMap, a, p);
    RootedIsMapped(folders, rows0, rows, idMap, b, q);
    if idMap[a] == idMap[b] {
      PathIsUnique(rows, idMap[a], p, q);
    }
    if p == q {
      PathLeadsToOne(rows, idMap[a], idMap[b], p);
    }
  }

  ghost predicate ParentsListed(rows: seq<Folder>) {
    forall i :: 0 <= i < |rows| && rows[i].parentId.Some? ==> HasId(rows, rows[i].parentId.value)
  }

  lemma {:induction false} OldPathsStay(rows0: seq<Folder>, rows: seq<Folder>, id: int, path: seq<string>)
    requires rows0 <= rows && UniqueIds(rows) && ParentsListed(rows0)
    requires HasId(rows0, id) && PathIs(rows, id, path)
    ensures PathIs(rows0, id, path)
    decreases |path|
  {
    var n := |path| - 1;
    var k :| 0 <= k < |rows0| && rows0[k].id == id;
    var i :| 0 <= i < |rows| && rows[i].id == id && rows[i].name == path[n]
             && ParentPathIs(rows, rows[i].parentId, path[..n]);
    assert rows[k] == rows0[k];
    assert i == k;
    if rows[i].parentId.Some? {
      OldPathsStay(rows0, rows, rows[i].parentId.value, path[..n]);
    }
  }

  ghost predicate LeftoverNamed(folders: seq<Folder>, name: string) {
    exists f :: Leftover(folders, f) && f.name == name
  }

  /**
   * The tree afterwards: the paths that were there, the paths of the old folders, and the leftovers at the root.
   * Nothing else.
   */
  lemma PathsAfterMigration(folders: seq<Folder>, rows0: seq<Folder>, rows: seq<Folder>, idMap: map<int, int>,
                            path: seq<string>)
    requires Migrated(folders, rows0, rows, idMap) && UniqueNames(rows0) && ParentsListed(rows0)
    ensures HasPath(rows, path) <==>
              HasPath(rows0, path) || HasPath(folders, path) || (|path| == 1 && LeftoverNamed(folders, path[0]))
  {
    if HasPath(rows0, path) {
      var id :| PathIs(rows0, id, path);
      PathGrows(rows0, rows, id, path);
    }
    if HasPath(folders, path) {
      var id :| PathIs(folders, id, path);
      RootedIsMapped(folders, rows0, rows, idMap, id, path);
    }
    if |path| == 1 && LeftoverNamed(folders, path[0]) {
      LeftoverHasRootPath(folders, rows0, rows, idMap, path[0]);
      assert path == [path[0]];
    }
    if HasPath(rows, path) {
      var id :| PathIs(rows, id, path);
      RowPathIsKnown(folders, rows0, rows, idMap, id, path);
    }
  }

  lemma LeftoverHasRootPath(folders: seq<Folder>, rows0: seq<Folder>, rows: seq<Folder>, idMap: map<int, int>,
                            name: string)
    requires Migrated(folders, rows0, rows, idMap) && LeftoverNamed(folders, name)
    ensures HasPath(rows, [name])
  {
    var f :| Leftover(folders, f) && f.name == name;
    var k :| 0 <= k < |rows| && rows[k] == Folder(idMap[f.id], name, None);
    assert ParentPathIs(rows, None, []);
    PathExtends(rows, k, []);
    assert [] + [name] == [name];
  }

  lemma RowPathIsKnown(folders: seq<Folder>, rows0: seq<Folder>, rows: seq<Folder>, idMap: map<int, int>, id: int,
                       path: seq<string>)
    requires Migrated(folders, rows0, rows, idMap) && UniqueNames(rows0) && ParentsListed(rows0)
             && PathIs(rows, id, path)
    ensures HasPath(rows0, path) || HasPath(folders, path) || (|path| == 1 && LeftoverNamed(folders, path[0]))
  {
    var k :| 0 <= k < |rows| && rows[k].id == id;
    if k < |rows0| {
      assert rows0[k] == rows[k];
      OldPathsStay(rows0, rows, id, path);
    } else if FillsGap(folders, rows0, rows, rows[k].id) {
      var p :| HasPath(folders, p) && !HasPath(rows0, p) && PathIs(rows, rows[k].id, p);
      PathIsUnique(rows, id, p, path);
    } else {
      assert HangsLeftover(folders, rows[k]);
      RootRowPath(rows, k, path);
    }
  }

  lemma RootRowPath(rows: seq<Folder>, k: nat, path: seq<string>)
    requires UniqueIds(rows) && k < |rows| && rows[k].parentId.None? && PathIs(rows, rows[k].id, path)
    ensures |path| == 1 && path[0] == rows[k].name
  {
    assert ParentPathIs(rows, None, []);
    PathExtends(rows, k, []);
    PathIsUnique(rows, rows[k].id, path, [] + [rows[k].name]);
  }

  ghost predicate NothingLeftOver(folders: seq<Folder>) {
    forall f :: f in folders ==> ReachesRoot(folders, f.id)
  }

  lemma NothingNeeded(folders: seq<Folder>, rows0: seq<Folder>, rows1: seq<Folder>, map1: map<int, int>,
                      rows2: seq<Folder>, row: Folder)
    requires NothingLeftOver(folders) && Migrated(folders, rows0, rows1, map1)
    ensures !FillsGap(folders, rows1, rows2, row.id) && !HangsLeftover(folders, row)
  {
    if FillsGap(folders, rows1, rows2, row.id) {
      var p :| HasPath(folders, p) && !HasPath(rows1, p) && PathIs(rows2, row.id, p);
      var origin :| PathIs(folders, origin, p);
      RootedIsMapped(folders, rows0, rows1, map1, origin, p);
      assert false;
    }
  }

  lemma RerunCreatesNothing(folders: seq<Folder>, rows0: seq<Folder>, rows1: seq<Folder>, map1: map<int, int>,
                            rows2: seq<Folder>, map2: map<int, int>)
    requires NothingLeftOver(folders) && UniqueNames(rows0)
    requires Migrated(folders, rows0, rows1, map1) && Migrated(folders, rows1, rows2, map2)
    ensures rows2 == rows1
  {
    if |rows2| > |rows1| {
      var row := rows2[|rows1|];
      NothingNeeded(folders, rows0, rows1, map1, rows2, row);
      assert false;
    }
  }

  lemma SameImageAgain(folders: seq<Folder>, rows0: seq<Folder>, rows: seq<Folder>, map1: map<int, int>,
                       map2: map<int, int>, id: int)
    requires NothingLeftOver(folders) && UniqueNames(rows) && HasId(folders, id)
    requires Migrated(folders, rows0, rows, map1) && Migrated(folders, rows, rows, map2)
    ensures id in map1 && id in map2 && map1[id] == map2[id]
  {
    var i :| 0 <= i < |folders| && folders[i].id == id;
    assert folders[i] in folders;
    var p :| PathIs(folders, id, p);
    RootedIsMapped(folders, rows0, rows, map1, id, p);
    RootedIsMapped(folders, rows, rows, map2, id, p);
    PathLeadsToOne(rows, map1[id], map2[id], p);
  }

  lemma SameKeys(folders: seq<Folder>, rows0: seq<Folder>, rows: seq<Folder>, idMap: map<int, int>)
    requires Migrated(folders, rows0, rows, idMap)
    ensures forall id :: id in idMap <==> HasId(folders, id)
  {
    forall id | HasId(folders, id)
      ensures id in idMap
    {
      var i :| 0 <= i < |folders| && folders[i].id == id;
      assert folders[i] in folders;
    }
  }

  /** With no broken chain and distinct sibling names, a second run creates nothing and yields the same map. */
  lemma RerunChangesNothing(folders: seq<Folder>, rows0: seq<Folder>, rows1: seq<Folder>, map1: map<int, int>,
                            rows2: seq<Folder>, map2: map<int, int>)
    requires NothingLeftOver(folders) && UniqueNames(rows0)
    requires Migrated(folders, rows0, rows1, map1) && Migrated(folders, rows1, rows2, map2)
    ensures rows2 == rows1 && map2 == map1
  {
    RerunCreatesNothing(folders, rows0, rows1, map1, rows2, map2);
    SameKeys(folders, rows0, rows1, map1);
    SameKeys(folders, rows1, rows1, map2);
    forall id | id in map1
      ensures id in map2 && map1[id] == map2[id]
    {
      SameImageAgain(folders, rows0, rows1, map1, map2, id);
    }
    forall id
      ensures id in map1.Keys <==> id in map2.Keys
    {
      assert id in map1 <==> HasId(folders, id);
      assert id in map2 <==> HasId(folders, id);
    }
  }

  /** With a broken chain or a cycle, every rerun after a completed run is refused and rolled back. */
  lemma RerunWithLeftoversIsRefused(folders: seq<Folder>, rows0: seq<Folder>, rows1: seq<Folder>, map1: map<int, int>)
    requires Migrated(folders, rows0, rows1, map1)
    ensures CanComplete(folders, rows1) <==> NothingLeftOver(folders)
  {
    if !NothingLeftOver(folders) {
      var f :| f in folders && !ReachesRoot(folders, f.id);
      assert Leftover(folders, f);
      var k :| 0 <= k < |rows1| && rows1[k] == Folder(map1[f.id], f.name, None);
      assert HasSibling(rows1, f.name, None);
    }
  }
}
