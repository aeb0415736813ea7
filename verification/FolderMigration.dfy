/** The folder part of the document migration: repeated passes, then the leftovers, in one transaction. */
module FolderMigration {
  import opened Options
  import opened FolderPaths

  datatype Error = NotFound | Conflict
  datatype Result<+T> = Ok(value: T) | Err(error: Error)

  /** The folders of one knowledge base, in the order `list_folders` returns them. */
  class KnowledgeBase {
    var rows: seq<Folder>
    var nextId: int

    ghost predicate Valid()
      reads this
    {
      UniqueIds(rows) && forall i :: 0 <= i < |rows| ==> rows[i].id < nextId
    }

    method HasFolder(id: int) returns (found: bool)
      ensures found <==> HasId(rows, id)
    {
      for i := 0 to |rows|
        invariant forall k :: 0 <= k < i ==> rows[k].id != id
      {
        if rows[i].id == id { return true; }
      }
      return false;
    }

    /** The parent must exist, and no sibling may have the name. */
    method CreateFolder(name: string, parentId: Option<int>) returns (r: Result<Folder>)
      requires Valid()
      modifies this
      ensures Valid()
      ensures r.Err? ==> rows == old(rows) && nextId == old(nextId)
      ensures parentId.Some? && !HasId(old(rows), parentId.value) ==> r == Err(NotFound)
      ensures (parentId.Some? ==> HasId(old(rows), parentId.value)) && HasSibling(old(rows), name, parentId)
              ==> r == Err(Conflict)
      ensures (parentId.Some? ==> HasId(old(rows), parentId.value)) && !HasSibling(old(rows), name, parentId) ==>
                r == Ok(Folder(old(nextId), name, parentId)) && rows == old(rows) + [r.value]
    {
      if parentId.Some? {
        var found := HasFolder(parentId.value);
        if !found { return Err(NotFound); }
      }
      var sibling := FindSibling(rows, name, parentId);
      if sibling.Some? { return Err(Conflict); }
      var folder := Folder(nextId, name, parentId);
      rows, nextId := rows + [folder], nextId + 1;
      return Ok(folder);
    }
  }

  /** The first row of this level with this name. */
  method FindSibling(rows: seq<Folder>, name: string, parentId: Option<int>) returns (dup: Option<Folder>)
    ensures dup.None? <==> !HasSibling(rows, name, parentId)
    ensures dup.Some? ==> dup.value in rows && dup.value.name == name && dup.value.parentId == parentId
  {
    for i := 0 to |rows|
      invariant forall k :: 0 <= k < i ==> !(rows[k].name == name && rows[k].parentId == parentId)
    {
      if rows[i].name == name && rows[i].parentId == parentId { return Some(rows[i]); }
    }
    return None;
  }

  // ---------- What is left ----------

  /** The folders not mapped yet, in list order. */
  function Unmapped(folders: seq<Folder>, ids: set<int>): seq<Folder> {
    if folders == [] then []
    else (if folders[0].id in ids then [] else [folders[0]]) + Unmapped(folders[1..], ids)
  }

  /** Python's `list.remove`: the first equal element goes. */
  function RemoveFirst(s: seq<Folder>, f: Folder): seq<Folder> {
    if s == [] then [] else if s[0] == f then s[1..] else [s[0]] + RemoveFirst(s[1..], f)
  }

  lemma {:induction false} UnmappedHolds(folders: seq<Folder>, ids: set<int>, f: Folder)
    ensures f in Unmapped(folders, ids) <==> f in folders && f.id !in ids
  {
    if folders != [] {
      UnmappedHolds(folders[1..], ids, f);
      assert folders == [folders[0]] + folders[1..];
    }
  }

  lemma {:induction false} UnmappedWhereNoneIs(folders: seq<Folder>, ids: set<int>, id: int)
    requires forall i :: 0 <= i < |folders| ==> folders[i].id != id
    ensures Unmapped(folders, ids + {id}) == Unmapped(folders, ids)
  {
    if folders != [] {
      UnmappedWhereNoneIs(folders[1..], ids, id);
    }
  }

  lemma {:induction false} MappingRemovesOne(folders: seq<Folder>, ids: set<int>, f: Folder)
    requires UniqueIds(folders) && f in folders && f.id !in ids
    ensures Unmapped(folders, ids + {f.id}) == RemoveFirst(Unmapped(folders, ids), f)
    ensures |Unmapped(folders, ids + {f.id})| == |Unmapped(folders, ids)| - 1
  {
    var head, tail := folders[0], folders[1..];
    if head == f {
      UnmappedWhereNoneIs(tail, ids, f.id);
    } else {
      HeadDiffers(folders, f);
      MappingRemovesOne(tail, ids, f);
      if head.id in ids {
        assert Unmapped(folders, ids) == Unmapped(tail, ids);
      } else {
        RemoveLater(head, Unmapped(tail, ids), f);
      }
    }
  }

  lemma HeadDiffers(folders: seq<Folder>, f: Folder)
    requires UniqueIds(folders) && f in folders && folders[0] != f
    ensures UniqueIds(folders[1..]) && f in folders[1..] && folders[0].id != f.id
  {
    var i :| 0 <= i < |folders| && folders[i] == f;
    assert folders[1..][i - 1] == f;
  }

  lemma RemoveLater(head: Folder, rest: seq<Folder>, f: Folder)
    requires head != f
    ensures RemoveFirst([head] + rest, f) == [head] + RemoveFirst(rest, f)
  {
    assert ([head] + rest)[1..] == rest;
  }

  lemma {:induction false} UnmappedIsUnique(folders: seq<Folder>, ids: set<int>)
    requires UniqueIds(folders)
    ensures UniqueIds(Unmapped(folders, ids))
  {
    if folders != [] {
      var rest := Unmapped(folders[1..], ids);
      UnmappedIsUnique(folders[1..], ids);
      forall k | 0 <= k < |rest|
        ensures rest[k].id != folders[0].id
      {
        UnmappedHolds(folders[1..], ids, rest[k]);
        var i :| 0 <= i < |folders[1..]| && folders[1..][i] == rest[k];
        assert folders[i + 1] == rest[k];
      }
    }
  }

  // ---------- The passes ----------

  /** What the passes keep: mirrored so far, `created` being only what the name paths demanded. */
  ghost predicate Progress(folders: seq<Folder>, rows0: seq<Folder>, rows: seq<Folder>, idMap: map<int, int>) {
    && Mirrors(folders, rows, idMap)
    && rows0 <= rows
    && RootsComeFromRoots(folders, rows0, rows)
    && (UniqueNames(rows0) ==> UniqueNames(rows) && OnlyMissingPaths(folders, rows0, rows))
  }

  ghost predicate RootsComeFromRoots(folders: seq<Folder>, rows0: seq<Folder>, rows: seq<Folder>) {
    forall k :: |rows0| <= k < |rows| && rows[k].parentId.None? ==> HasSibling(folders, rows[k].name, None)
  }

  /** Every row beyond `rows0` was created for the name path of an old folder that `rows0` lacked. */
  ghost predicate OnlyMissingPaths(folders: seq<Folder>, rows0: seq<Folder>, rows: seq<Folder>) {
    forall k :: |rows0| <= k < |rows| ==> FillsGap(folders, rows0, rows, rows[k].id)
  }

  lemma ParentReaches(folders: seq<Folder>, idMap: map<int, int>, f: Folder) returns (path: seq<string>)
    requires f in folders && !Blocked(f, idMap)
    requires forall id :: id in idMap ==> ReachesRoot(folders, id)
    ensures ParentPathIs(folders, f.parentId, path) && PathIs(folders, f.id, path + [f.name])
  {
    path := [];
    if f.parentId.Some? {
      assert ReachesRoot(folders, f.parentId.value);
      path :| PathIs(folders, f.parentId.value, path);
    }
    var i :| 0 <= i < |folders| && folders[i] == f;
    PathExtends(folders, i, path);
  }

  lemma ImageParentPath(folders: seq<Folder>, rows: seq<Folder>, idMap: map<int, int>, parentId: Option<int>,
                        path: seq<string>)
    requires Mirrors(folders, rows, idMap) && ParentPathIs(folders, parentId, path)
    requires parentId.Some? ==> parentId.value in idMap
    ensures ParentPathIs(rows, Image(idMap, parentId), path)
  {
    if parentId.Some? {
      ImageHasSamePath(folders, rows, idMap, parentId.value, path);
    }
  }

  /** The image of the parent is a row, so `create_folder` never misses it. */
  lemma ImageOfParentExists(folders: seq<Folder>, rows: seq<Folder>, idMap: map<int, int>, parentId: Option<int>)
    requires Mirrors(folders, rows, idMap) && parentId.Some? && parentId.value in idMap
    ensures HasId(rows, idMap[parentId.value])
  {
    assert ReachesRoot(folders, parentId.value);
    var path :| PathIs(folders, parentId.value, path);
    ImageHasSamePath(folders, rows, idMap, parentId.value, path);
  }

  lemma MirrorsMore(folders: seq<Folder>, rows: seq<Folder>, more: seq<Folder>, idMap: map<int, int>, f: Folder,
                    image: Folder)
    requires UniqueIds(folders) && Mirrors(folders, rows, idMap) && rows <= more && image in more
    requires f in folders && f.id !in idMap && !Blocked(f, idMap)
    requires image.name == f.name && image.parentId == Image(idMap, f.parentId)
    ensures Mirrors(folders, more, idMap[f.id := image.id])
  {
    var next := idMap[f.id := image.id];
    var path := ParentReaches(folders, idMap, f);
    forall i | 0 <= i < |folders| && folders[i].id in next
      ensures Mirrored(more, next, folders[i])
    {
      if folders[i].id == f.id {
        assert folders[i] == f;
        assert image == Folder(image.id, f.name, Image(idMap, f.parentId));
        NotItsOwnParent(folders, idMap, f);
      } else {
        assert Mirrored(rows, idMap, folders[i]);
        assert folders[i].parentId != Some(f.id);
      }
    }
  }

  lemma NotItsOwnParent(folders: seq<Folder>, idMap: map<int, int>, f: Folder)
    requires !Blocked(f, idMap) && f.id !in idMap
    ensures f.parentId != Some(f.id)
  {
  }

  /** The sibling check finds nothing only if the whole name path is missing. */
  lemma PathWasMissing(folders: seq<Folder>, rows: seq<Folder>, idMap: map<int, int>, f: Folder, path: seq<string>)
    requires Mirrors(folders, rows, idMap) && UniqueNames(rows) && !Blocked(f, idMap)
    requires ParentPathIs(folders, f.parentId, path) && !HasSibling(rows, f.name, Image(idMap, f.parentId))
    ensures !HasPath(rows, path + [f.name])
  {
    var longer := path + [f.name];
    if HasPath(rows, longer) {
      var id :| PathIs(rows, id, longer);
      assert longer[..|longer| - 1] == path;
      var k :| 0 <= k < |rows| && rows[k].id == id && rows[k].name == f.name
               && ParentPathIs(rows, rows[k].parentId, path);
      ImageParentPath(folders, rows, idMap, f.parentId, path);
      SameParent(rows, rows[k].parentId, Image(idMap, f.parentId), path);
      assert false;
    }
  }

  lemma NamesStayUnique(rows: seq<Folder>, row: Folder)
    requires UniqueNames(rows) && !HasSibling(rows, row.name, row.parentId)
    ensures UniqueNames(rows + [row])
  {
  }

  lemma MissingBefore(rows0: seq<Folder>, rows: seq<Folder>, path: seq<string>)
    requires rows0 <= rows && !HasPath(rows, path)
    ensures !HasPath(rows0, path)
  {
    if HasPath(rows0, path) {
      var id :| PathIs(rows0, id, path);
      PathGrows(rows0, rows, id, path);
    }
  }

  /** A row created for `f` keeps the record of what was created and why. */
  lemma CreationJustified(folders: seq<Folder>, rows0: seq<Folder>, rows: seq<Folder>, idMap: map<int, int>,
                          f: Folder, row: Folder)
    requires Mirrors(folders, rows, idMap) && rows0 <= rows && UniqueNames(rows)
    requires OnlyMissingPaths(folders, rows0, rows)
    requires f in folders && !Blocked(f, idMap) && !HasSibling(rows, f.name, Image(idMap, f.parentId))
    requires row == Folder(row.id, f.name, Image(idMap, f.parentId))
    ensures OnlyMissingPaths(folders, rows0, rows + [row])
  {
    var more := rows + [row];
    var path := ParentReaches(folders, idMap, f);
    PathWasMissing(folders, rows, idMap, f, path);
    MissingBefore(rows0, rows, path + [f.name]);
    ImageParentPath(folders, rows, idMap, f.parentId, path);
    ParentPathGrows(rows, more, row.parentId, path);
    assert more[|rows|] == row;
    PathExtends(more, |rows|, path);
    forall k | |rows0| <= k < |more|
      ensures FillsGap(folders, rows0, more, more[k].id)
    {
      if k < |rows| {
        assert more[k] == rows[k];
        assert FillsGap(folders, rows0, rows, rows[k].id);
        var p :| HasPath(folders, p) && !HasPath(rows0, p) && PathIs(rows, rows[k].id, p);
        PathGrows(rows, more, rows[k].id, p);
      } else {
        assert HasPath(folders, path + [f.name]);
      }
    }
  }

  /** One folder whose parent is mapped: reuse the sibling of that name or create it. It never raises. */
  method PlaceFolder(kb: KnowledgeBase, f: Folder, idMap: map<int, int>, existing: seq<Folder>,
                     ghost folders: seq<Folder>, ghost rows0: seq<Folder>)
    returns (newMap: map<int, int>, newExisting: seq<Folder>)
    requires kb.Valid() && existing == kb.rows && UniqueIds(folders)
    requires Progress(folders, rows0, kb.rows, idMap)
    requires f in folders && f.id !in idMap && !Blocked(f, idMap)
    modifies kb
    ensures kb.Valid() && newExisting == kb.rows
    ensures Progress(folders, rows0, kb.rows, newMap)
    ensures newMap.Keys == idMap.Keys + {f.id} && forall id :: id in idMap ==> newMap[id] == idMap[id]
  {
    var parentNew := Image(idMap, f.parentId);
    var dup := FindSibling(existing, f.name, parentNew);
    if dup.Some? {
      newMap, newExisting := idMap[f.id := dup.value.id], existing;
      MirrorsMore(folders, kb.rows, kb.rows, idMap, f, dup.value);
    } else {
      ghost var before := kb.rows;
      if f.parentId.Some? {
        ImageOfParentExists(folders, kb.rows, idMap, f.parentId);
      }
      var created := kb.CreateFolder(f.name, parentNew);
      assert created.Ok?;
      newMap, newExisting := idMap[f.id := created.value.id], existing + [created.value];
      MirrorsMore(folders, before, kb.rows, idMap, f, created.value);
      if UniqueNames(rows0) {
        NamesStayUnique(before, created.value);
        CreationJustified(folders, rows0, before, idMap, f, created.value);
      }
    }
  }

  /** One pass over a snapshot of what is left. No progress means that everything left is blocked. */
  method Pass(kb: KnowledgeBase, remaining0: seq<Folder>, idMap0: map<int, int>, existing0: seq<Folder>,
              ghost folders: seq<Folder>, ghost rows0: seq<Folder>)
    returns (remaining: seq<Folder>, idMap: map<int, int>, existing: seq<Folder>, progressed: bool)
    requires kb.Valid() && existing0 == kb.rows && UniqueIds(folders)
    requires Progress(folders, rows0, kb.rows, idMap0)
    requires remaining0 == Unmapped(folders, idMap0.Keys)
    modifies kb
    ensures kb.Valid() && existing == kb.rows && Progress(folders, rows0, kb.rows, idMap)
    ensures remaining == Unmapped(folders, idMap.Keys)
    ensures progressed ==> |remaining| < |remaining0|
    ensures !progressed ==> remaining == remaining0 && forall f :: f in remaining ==> Blocked(f, idMap)
  {
    remaining, idMap, existing, progressed := remaining0, idMap0, existing0, false;
    UnmappedIsUnique(folders, idMap.Keys);
    for i := 0 to |remaining0|
      invariant kb.Valid() && existing == kb.rows && Progress(folders, rows0, kb.rows, idMap)
      invariant remaining == Unmapped(folders, idMap.Keys)
      invariant forall k :: i <= k < |remaining0| ==> remaining0[k] in remaining
      invariant progressed ==> |remaining| < |remaining0|
      invariant !progressed ==> remaining == remaining0 && forall k :: 0 <= k < i ==> Blocked(remaining0[k], idMap)
    {
      var f := remaining0[i];
      if !Blocked(f, idMap) {
        UnmappedHolds(folders, idMap.Keys, f);
        MappingRemovesOne(folders, idMap.Keys, f);
        StillLeft(folders, idMap.Keys, f, remaining0, i);
        idMap, existing := PlaceFolder(kb, f, idMap, existing, folders, rows0);
        remaining := RemoveFirst(remaining, f);
        progressed := true;
      }
    }
  }

  lemma StillLeft(folders: seq<Folder>, ids: set<int>, f: Folder, snapshot: seq<Folder>, i: nat)
    requires UniqueIds(snapshot) && i < |snapshot| && snapshot[i] == f
    requires forall k :: i <= k < |snapshot| ==> snapshot[k] in Unmapped(folders, ids)
    ensures forall k :: i < k < |snapshot| ==> snapshot[k] in Unmapped(folders, ids + {f.id})
  {
    forall k | i < k < |snapshot|
      ensures snapshot[k] in Unmapped(folders, ids + {f.id})
    {
      UnmappedHolds(folders, ids, snapshot[k]);
      UnmappedHolds(folders, ids + {f.id}, snapshot[k]);
    }
  }

  /** Mapped are exactly the folders whose parent chain inside the list reaches a root. */
  ghost predicate MapsTheRooted(folders: seq<Folder>, idMap: map<int, int>) {
    forall id :: id in idMap <==> ReachesRoot(folders, id)
  }

  lemma StuckIsComplete(folders: seq<Folder>, rows: seq<Folder>, idMap: map<int, int>)
    requires Mirrors(folders, rows, idMap)
    requires forall f :: f in Unmapped(folders, idMap.Keys) ==> Blocked(f, idMap)
    ensures MapsTheRooted(folders, idMap)
  {
    forall i | 0 <= i < |folders| && folders[i].id !in idMap
      ensures Blocked(folders[i], idMap)
    {
      UnmappedHolds(folders, idMap.Keys, folders[i]);
    }
    forall id | ReachesRoot(folders, id)
      ensures id in idMap
    {
      var path :| PathIs(folders, id, path);
      StuckMapsAllRooted(folders, idMap, id, path);
    }
  }

  /** At most `len + 1` passes. The bound never bites: the loop stops with nothing left or without progress. */
  method PlaceAll(kb: KnowledgeBase, folders: seq<Folder>) returns (remaining: seq<Folder>, idMap: map<int, int>)
    requires kb.Valid() && UniqueIds(folders)
    modifies kb
    ensures kb.Valid() && Progress(folders, old(kb.rows), kb.rows, idMap)
    ensures MapsTheRooted(folders, idMap) && remaining == Unmapped(folders, idMap.Keys)
  {
    idMap, remaining := map[], folders;
    var existing := kb.rows;
    NothingMapped(folders);
    assert idMap.Keys == {};
    ghost var rows0, stopped := kb.rows, false;
    var bound := |remaining| + 1;
    var pass := 0;
    while pass < bound
      invariant kb.Valid() && existing == kb.rows && Progress(folders, rows0, kb.rows, idMap)
      invariant remaining == Unmapped(folders, idMap.Keys)
      invariant !stopped && |remaining| + pass <= |folders|
    {
      var progressed;
      remaining, idMap, existing, progressed := Pass(kb, remaining, idMap, existing, folders, rows0);
      if remaining == [] || !progressed {
        stopped := true;
        break;
      }
      pass := pass + 1;
    }
    assert stopped;
    StuckIsComplete(folders, kb.rows, idMap);
  }

  lemma {:induction false} NothingMapped(folders: seq<Folder>)
    ensures Unmapped(folders, {}) == folders
  {
    if folders != [] {
      NothingMapped(folders[1..]);
    }
  }

  // ---------- The leftovers and the transaction ----------

  /** On a cycle or below a parent that is not in the list. */
  ghost predicate Leftover(folders: seq<Folder>, f: Folder) {
    f in folders && !ReachesRoot(folders, f.id)
  }

  /** The names of the leftovers are pairwise distinct and free at the root. */
  ghost predicate CanComplete(folders: seq<Folder>, rows0: seq<Folder>) {
    && (forall f :: Leftover(folders, f) ==> !HasSibling(rows0, f.name, None) && !HasSibling(folders, f.name, None))
    && (forall f, g :: Leftover(folders, f) && Leftover(folders, g) && f.name == g.name ==> f == g)
  }

  predicate RootNamesFree(rows: seq<Folder>, fs: seq<Folder>) {
    && (forall i :: 0 <= i < |fs| ==> !HasSibling(rows, fs[i].name, None))
    && (forall i, j :: 0 <= i < j < |fs| ==> fs[i].name != fs[j].name)
  }

  /** Each of `fs` got a root row of its name, in order, and nothing else changed. */
  predicate Hung(rows: seq<Folder>, more: seq<Folder>, fs: seq<Folder>, idMap: map<int, int>, newMap: map<int, int>) {
    && |more| == |rows| + |fs| && rows <= more
    && (forall k ::
          0 <= k < |fs| ==> fs[k].id in newMap && more[|rows| + k] == Folder(newMap[fs[k].id], fs[k].name, None))
    && idMap.Keys <= newMap.Keys
    && (forall id :: id in idMap ==> newMap[id] == idMap[id])
    && (forall id :: id in newMap ==> id in idMap || HasId(fs, id))
  }

  /** `create_folder` refuses the first leftover whose name is taken at the root. */
  method HangLeftovers(kb: KnowledgeBase, remaining: seq<Folder>, idMap0: map<int, int>)
    returns (r: Result<map<int, int>>)
    requires kb.Valid() && UniqueIds(remaining) && forall i :: 0 <= i < |remaining| ==> remaining[i].id !in idMap0
    modifies kb
    ensures kb.Valid()
    ensures r.Ok? <==> RootNamesFree(old(kb.rows), remaining)
    ensures r.Ok? ==> Hung(old(kb.rows), kb.rows, remaining, idMap0, r.value)
    ensures r.Ok? && UniqueNames(old(kb.rows)) ==> UniqueNames(kb.rows)
    ensures r.Err? ==> r.error == Conflict
    ensures old(kb.rows) <= kb.rows
  {
    ghost var rows := kb.rows;
    var idMap := idMap0;
    for i := 0 to |remaining|
      invariant kb.Valid() && RootNamesFree(rows, remaining[..i])
      invariant Hung(rows, kb.rows, remaining[..i], idMap0, idMap)
      invariant UniqueNames(rows) ==> UniqueNames(kb.rows)
    {
      ghost var before := kb.rows;
      var created := kb.CreateFolder(remaining[i].name, None);
      RootNamesStep(rows, before, remaining, i, idMap0, idMap);
      if created.Err? {
        return Err(created.error);
      }
      if UniqueNames(before) {
        NamesStayUnique(before, created.value);
      }
      HungStep(rows, before, remaining, i, idMap0, idMap, created.value);
      idMap := idMap[remaining[i].id := created.value.id];
    }
    assert remaining[..|remaining|] == remaining;
    return Ok(idMap);
  }

  lemma SiblingsStay(rows: seq<Folder>, more: seq<Folder>, name: string)
    requires rows <= more
    ensures HasSibling(rows, name, None) ==> HasSibling(more, name, None)
  {
    if HasSibling(rows, name, None) {
      var k :| 0 <= k < |rows| && rows[k].name == name && rows[k].parentId == None;
      assert more[k] == rows[k];
    }
  }

  lemma RootNamesStep(rows: seq<Folder>, before: seq<Folder>, fs: seq<Folder>, i: nat, idMap0: map<int, int>,
                      idMap: map<int, int>)
    requires i < |fs| && RootNamesFree(rows, fs[..i]) && Hung(rows, before, fs[..i], idMap0, idMap)
    ensures HasSibling(before, fs[i].name, None) ==> !RootNamesFree(rows, fs)
    ensures !HasSibling(before, fs[i].name, None) ==> RootNamesFree(rows, fs[..i + 1])
  {
    if HasSibling(before, fs[i].name, None) {
      var k :| 0 <= k < |before| && before[k].name == fs[i].name && before[k].parentId == None;
      if k < |rows| {
        assert rows[k] == before[k];
      } else {
        assert before[|rows| + (k - |rows|)].name == fs[..i][k - |rows|].name;
        assert fs[k - |rows|].name == fs[i].name;
      }
    } else {
      forall k | 0 <= k < i
        ensures fs[k].name != fs[i].name
      {
        assert fs[..i][k] == fs[k];
        assert before[|rows| + k] == Folder(idMap[fs[k].id], fs[k].name, None);
      }
      SiblingsStay(rows, before, fs[i].name);
      assert fs[..i + 1] == fs[..i] + [fs[i]];
    }
  }

  lemma HungStep(rows: seq<Folder>, before: seq<Folder>, fs: seq<Folder>, i: nat, idMap0: map<int, int>,
                 idMap: map<int, int>, row: Folder)
    requires i < |fs| && UniqueIds(fs) && fs[i].id !in idMap0 && Hung(rows, before, fs[..i], idMap0, idMap)
    requires row.name == fs[i].name && row.parentId == None
    ensures Hung(rows, before + [row], fs[..i + 1], idMap0, idMap[fs[i].id := row.id])
  {
    var newMap := idMap[fs[i].id := row.id];
    var next := fs[..i + 1];
    forall k | 0 <= k < |next|
      ensures next[k].id in newMap && (before + [row])[|rows| + k] == Folder(newMap[next[k].id], next[k].name, None)
    {
      if k < i {
        assert next[k] == fs[..i][k];
        assert fs[k].id != fs[i].id;
      } else {
        assert row == Folder(row.id, fs[i].name, None);
      }
    }
    forall id | id in newMap
      ensures id in idMap0 || HasId(next, id)
    {
      if id == fs[i].id {
        assert next[i].id == id;
      } else if id !in idMap0 {
        var k :| 0 <= k < |fs[..i]| && fs[..i][k].id == id;
        assert next[k].id == id;
      }
    }
  }

  /** The state of a committed migration. */
  ghost predicate Migrated(folders: seq<Folder>, rows0: seq<Folder>, rows: seq<Folder>, idMap: map<int, int>) {
    && (forall f :: f in folders ==> f.id in idMap)
    && (forall id :: id in idMap ==> HasId(folders, id))
    && (forall f :: f in folders && !Leftover(folders, f) ==> Mirrored(rows, idMap, f))
    && (forall f :: Leftover(folders, f) ==> f.id in idMap && Folder(idMap[f.id], f.name, None) in rows)
    && rows0 <= rows && UniqueIds(rows)
    && (UniqueNames(rows0) ==> UniqueNames(rows) && OnlyNeeded(folders, rows0, rows))
  }

  /** Every created row stands for a name path `rows0` lacked, or is the root row of a leftover. */
  ghost predicate OnlyNeeded(folders: seq<Folder>, rows0: seq<Folder>, rows: seq<Folder>) {
    forall k :: |rows0| <= k < |rows| ==> FillsGap(folders, rows0, rows, rows[k].id) || HangsLeftover(folders, rows[k])
  }

  ghost predicate FillsGap(folders: seq<Folder>, rows0: seq<Folder>, rows: seq<Folder>, id: int) {
    exists path :: HasPath(folders, path) && !HasPath(rows0, path) && PathIs(rows, id, path)
  }

  ghost predicate HangsLeftover(folders: seq<Folder>, row: Folder) {
    exists f :: Leftover(folders, f) && row == Folder(row.id, f.name, None)
  }

  lemma RootNamesAfterPasses(folders: seq<Folder>, rows0: seq<Folder>, rows: seq<Folder>, idMap: map<int, int>,
                             name: string)
    requires Mirrors(folders, rows, idMap) && rows0 <= rows && RootsComeFromRoots(folders, rows0, rows)
    requires MapsTheRooted(folders, idMap)
    ensures HasSibling(rows, name, None) <==> HasSibling(rows0, name, None) || HasSibling(folders, name, None)
  {
    if HasSibling(rows0, name, None) {
      var k :| 0 <= k < |rows0| && rows0[k].name == name && rows0[k].parentId == None;
      assert rows[k] == rows0[k];
    }
    if HasSibling(folders, name, None) {
      var i :| 0 <= i < |folders| && folders[i].name == name && folders[i].parentId == None;
      assert ParentPathIs(folders, None, []);
      PathExtends(folders, i, []);
      assert ReachesRoot(folders, folders[i].id);
      assert Mirrored(rows, idMap, folders[i]);
    }
    if HasSibling(rows, name, None) {
      var k :| 0 <= k < |rows| && rows[k].name == name && rows[k].parentId == None;
      assert k < |rows0| ==> rows0[k] == rows[k];
    }
  }

  lemma RemainingIsLeftover(folders: seq<Folder>, idMap: map<int, int>, f: Folder)
    requires MapsTheRooted(folders, idMap)
    ensures f in Unmapped(folders, idMap.Keys) <==> Leftover(folders, f)
  {
    UnmappedHolds(folders, idMap.Keys, f);
  }

  lemma CompletesIff(folders: seq<Folder>, rows0: seq<Folder>, rows: seq<Folder>, idMap: map<int, int>,
                     remaining: seq<Folder>)
    requires Mirrors(folders, rows, idMap) && rows0 <= rows && RootsComeFromRoots(folders, rows0, rows)
    requires MapsTheRooted(folders, idMap) && remaining == Unmapped(folders, idMap.Keys) && UniqueIds(remaining)
    ensures RootNamesFree(rows, remaining) <==> CanComplete(folders, rows0)
  {
    forall f
      ensures f in remaining <==> Leftover(folders, f)
      ensures HasSibling(rows, f.name, None) <==> HasSibling(rows0, f.name, None) || HasSibling(folders, f.name, None)
    {
      RemainingIsLeftover(folders, idMap, f);
      RootNamesAfterPasses(folders, rows0, rows, idMap, f.name);
    }
    if RootNamesFree(rows, remaining) {
      forall f, g | Leftover(folders, f) && Leftover(folders, g) && f.name == g.name
        ensures f == g
      {
        var i :| 0 <= i < |remaining| && remaining[i] == f;
        var j :| 0 <= j < |remaining| && remaining[j] == g;
      }
    }
    if CanComplete(folders, rows0) {
      forall i, j | 0 <= i < j < |remaining|
        ensures remaining[i].name != remaining[j].name
      {
        assert Leftover(folders, remaining[i]) && Leftover(folders, remaining[j]);
      }
    }
  }

  lemma HungKeeps(mid: seq<Folder>, rows: seq<Folder>, remaining: seq<Folder>, midMap: map<int, int>,
                  idMap: map<int, int>, id: int)
    requires Hung(mid, rows, remaining, midMap, idMap) && id in midMap
    ensures id in idMap && idMap[id] == midMap[id]
  {
  }

  lemma StillMirrored(mid: seq<Folder>, rows: seq<Folder>, remaining: seq<Folder>, midMap: map<int, int>,
                      idMap: map<int, int>, f: Folder)
    requires Hung(mid, rows, remaining, midMap, idMap) && Mirrored(mid, midMap, f)
    ensures Mirrored(rows, idMap, f)
  {
    var k :| 0 <= k < |mid| && mid[k] == Folder(midMap[f.id], f.name, Image(midMap, f.parentId));
    assert rows[k] == mid[k];
    HungKeeps(mid, rows, remaining, midMap, idMap, f.id);
    if f.parentId.Some? {
      var p: int := f.parentId.value;
      HungKeeps(mid, rows, remaining, midMap, idMap, p);
    }
    assert rows[k] == Folder(idMap[f.id], f.name, Image(idMap, f.parentId));
  }

  lemma StillNeeded(folders: seq<Folder>, rows0: seq<Folder>, mid: seq<Folder>, rows: seq<Folder>,
                    midMap: map<int, int>, idMap: map<int, int>, remaining: seq<Folder>)
    requires rows0 <= mid && OnlyMissingPaths(folders, rows0, mid) && MapsTheRooted(folders, midMap)
    requires remaining == Unmapped(folders, midMap.Keys) && Hung(mid, rows, remaining, midMap, idMap)
    ensures OnlyNeeded(folders, rows0, rows)
  {
    forall k | |rows0| <= k < |rows|
      ensures FillsGap(folders, rows0, rows, rows[k].id) || HangsLeftover(folders, rows[k])
    {
      if k < |mid| {
        assert rows[k] == mid[k];
        assert FillsGap(folders, rows0, mid, mid[k].id);
        var p :| HasPath(folders, p) && !HasPath(rows0, p) && PathIs(mid, mid[k].id, p);
        PathGrows(mid, rows, mid[k].id, p);
      } else {
        var f := remaining[k - |mid|];
        RemainingIsLeftover(folders, midMap, f);
        assert Leftover(folders, f);
        assert rows[|mid| + (k - |mid|)] == Folder(idMap[f.id], f.name, None);
      }
    }
  }

  lemma CommittedIsMigrated(folders: seq<Folder>, rows0: seq<Folder>, mid: seq<Folder>, rows: seq<Folder>,
                            midMap: map<int, int>, idMap: map<int, int>, remaining: seq<Folder>)
    requires UniqueIds(folders) && Progress(folders, rows0, mid, midMap) && MapsTheRooted(folders, midMap)
    requires remaining == Unmapped(folders, midMap.Keys) && Hung(mid, rows, remaining, midMap, idMap)
    requires UniqueIds(rows) && (UniqueNames(mid) ==> UniqueNames(rows))
    ensures Migrated(folders, rows0, rows, idMap)
  {
    forall f | f in folders && !Leftover(folders, f)
      ensures Mirrored(rows, idMap, f)
    {
      StillMirrored(mid, rows, remaining, midMap, idMap, f);
    }
    forall f | Leftover(folders, f)
      ensures f.id in idMap && Folder(idMap[f.id], f.name, None) in rows
    {
      RemainingIsLeftover(folders, midMap, f);
      var k :| 0 <= k < |remaining| && remaining[k] == f;
      assert rows[|mid| + k] == Folder(idMap[f.id], f.name, None);
    }
    forall id | id in idMap ensures HasId(folders, id) {
      KeysAreListed(folders, midMap, remaining, id);
    }
    if UniqueNames(rows0) {
      StillNeeded(folders, rows0, mid, rows, midMap, idMap, remaining);
    }
  }

  lemma KeysAreListed(folders: seq<Folder>, midMap: map<int, int>, remaining: seq<Folder>, id: int)
    requires MapsTheRooted(folders, midMap) && remaining == Unmapped(folders, midMap.Keys)
    requires id in midMap || HasId(remaining, id)
    ensures HasId(folders, id)
  {
    if id in midMap {
      assert ReachesRoot(folders, id);
      var path :| PathIs(folders, id, path);
    } else {
      var k :| 0 <= k < |remaining| && remaining[k].id == id;
      UnmappedHolds(folders, midMap.Keys, remaining[k]);
    }
  }

  /** The folders of one user. A refused leftover raises out of the transaction, which takes back every row. */
  method Migrate(kb: KnowledgeBase, folders: seq<Folder>) returns (r: Result<map<int, int>>)
    requires kb.Valid() && UniqueIds(folders)
    modifies kb
    ensures kb.Valid()
    ensures r.Ok? <==> CanComplete(folders, old(kb.rows))
    ensures r.Ok? ==> Migrated(folders, old(kb.rows), kb.rows, r.value)
    ensures r.Err? ==> r.error == Conflict && kb.rows == old(kb.rows)
  {
    var before := kb.rows;
    var remaining, idMap := PlaceAll(kb, folders);
    ghost var mid := kb.rows;
    UnmappedIsUnique(folders, idMap.Keys);
    CompletesIff(folders, before, mid, idMap, remaining);
    forall i | 0 <= i < |remaining| ensures remaining[i].id !in idMap {
      UnmappedHolds(folders, idMap.Keys, remaining[i]);
    }
    r := HangLeftovers(kb, remaining, idMap);
    if r.Ok? {
      CommittedIsMigrated(folders, before, mid, kb.rows, idMap, r.value, remaining);
    } else {
      RowsWereValid(before, kb.rows, kb.nextId);
      kb.rows := before;
    }
  }

  lemma RowsWereValid(rows0: seq<Folder>, rows: seq<Folder>, nextId: int)
    requires rows0 <= rows && UniqueIds(rows) && forall i :: 0 <= i < |rows| ==> rows[i].id < nextId
    ensures UniqueIds(rows0) && forall i :: 0 <= i < |rows0| ==> rows0[i].id < nextId
  {
    assert forall i :: 0 <= i < |rows0| ==> rows0[i] == rows[i];
  }
}
