/**
  The breadcrumb trail: starting from the folder being shown, the walk follows
  `parentId` through the session folders, putting each folder it reaches in
  front, until a parent id is falsy or names no folder. The source has no cycle
  guard, so the walk ends only on an acyclic parent graph; here acyclicity is a
  ghost rank that strictly drops from each folder to the parent the walk reaches.
 */
module Breadcrumb {
  import opened Types
  import opened SessionStore

  /** The position the walk moves to from position `i`, if any. */
  function ParentIndex(folders: seq<FolderItem>, i: nat): Option<nat>
    requires i < |folders|
  {
    if Truthy(folders[i].parentId) then FindFolder(folders, folders[i].parentId.value) else None
  }

  /** `f` is what `find` returns for its own id: the first stored folder with that id. */
  ghost predicate FirstWithId(folders: seq<FolderItem>, f: FolderItem) {
    FindFolder(folders, f.id).Some? && folders[FindFolder(folders, f.id).value] == f
  }

  /** The parent graph the walk sees is acyclic: `rank` drops from every folder to its resolved parent. */
  ghost predicate RankedBy(folders: seq<FolderItem>, rank: string -> nat) {
    forall i :: 0 <= i < |folders| && FindFolder(folders, folders[i].id) == Some(i) && ParentIndex(folders, i).Some? ==>
      rank(folders[ParentIndex(folders, i).value].id) < rank(folders[i].id)
  }

  /**
    `path` is the ancestor chain of the folder at position `k`, root-most first:
    it ends with that folder, each element is the folder `find` returns for its
    id, each element is the parent named by the next, and the first element's
    parent is falsy or names no stored folder.
   */
  ghost predicate IsAncestorChain(folders: seq<FolderItem>, path: seq<FolderItem>, k: nat)
    requires k < |folders|
  {
    && |path| > 0
    && path[|path| - 1] == folders[k]
    && (forall i :: 0 <= i < |path| ==> FirstWithId(folders, path[i]))
    && (forall i :: 0 < i < |path| ==> Truthy(path[i].parentId) && path[i].parentId.value == path[i - 1].id)
    && (!Truthy(path[0].parentId) || FindFolder(folders, path[0].parentId.value).None?)
  }

  /** One step of the walk: a chain ending at the parent of `k`, extended by `k`, is a chain ending at `k`. */
  lemma ChainExtend(folders: seq<FolderItem>, above: seq<FolderItem>, p: nat, k: nat)
    requires p < |folders| && k < |folders|
    requires FindFolder(folders, folders[k].id) == Some(k)
    requires ParentIndex(folders, k) == Some(p)
    requires IsAncestorChain(folders, above, p)
    ensures IsAncestorChain(folders, above + [folders[k]], k)
  {
    var n := |above|;
    var r := above + [folders[k]];
    assert r[n] == folders[k];
    assert FirstWithId(folders, folders[k]);
    forall i | 0 <= i < |r|
      ensures FirstWithId(folders, r[i])
    {
      if i < n {
        assert r[i] == above[i];
      }
    }
    forall i | 0 < i < |r|
      ensures Truthy(r[i].parentId) && r[i].parentId.value == r[i - 1].id
    {
      if i < n {
        assert r[i] == above[i] && r[i - 1] == above[i - 1];
      } else {
        assert r[i - 1] == above[n - 1] == folders[p];
      }
    }
    assert r[0] == above[0];
  }

  /** The loop of `buildPath`, from the folder at position `k`. */
  function Walk(folders: seq<FolderItem>, k: nat, ghost rank: string -> nat): (r: seq<FolderItem>)
    requires k < |folders| && FindFolder(folders, folders[k].id) == Some(k)
    requires RankedBy(folders, rank)
    ensures IsAncestorChain(folders, r, k)
    ensures forall i :: 0 <= i < |r| ==> rank(r[i].id) <= rank(folders[k].id)
    ensures forall i, j :: 0 <= i < j < |r| ==> rank(r[i].id) < rank(r[j].id)
    decreases rank(folders[k].id)
  {
    match ParentIndex(folders, k)
    case None =>
      assert FirstWithId(folders, folders[k]);
      [folders[k]]
    case Some(p) =>
      assert rank(folders[p].id) < rank(folders[k].id);
      var above := Walk(folders, p, rank);
      ChainExtend(folders, above, p, k);
      var r := above + [folders[k]];
      assert forall i :: 0 <= i < |above| ==> r[i] == above[i];
      r
  }

  /**
    `buildPath(folderId)`: empty when no folder has the id; otherwise the ancestor
    chain of the first folder with that id, which repeats no folder.
   */
  function BuildPath(folders: seq<FolderItem>, folderId: string, ghost rank: string -> nat): (r: seq<FolderItem>)
    requires RankedBy(folders, rank)
    ensures FindFolder(folders, folderId).None? <==> r == []
    ensures FindFolder(folders, folderId).Some? ==>
      IsAncestorChain(folders, r, FindFolder(folders, folderId).value) && r[|r| - 1].id == folderId
    ensures forall i, j :: 0 <= i < j < |r| ==> r[i].id != r[j].id
  {
    match FindFolder(folders, folderId)
    case None => []
    case Some(k) => Walk(folders, k, rank)
  }

  /** A chain of length one stops at once; a longer one, without its last folder, is the chain of that folder's parent. */
  lemma ChainShrink(folders: seq<FolderItem>, path: seq<FolderItem>, k: nat) returns (m: nat)
    requires k < |folders|
    requires IsAncestorChain(folders, path, k)
    ensures |path| == 1 ==> ParentIndex(folders, k).None?
    ensures |path| > 1 ==>
      && m < |folders| && ParentIndex(folders, k) == Some(m)
      && FindFolder(folders, folders[m].id) == Some(m)
      && IsAncestorChain(folders, path[..|path| - 1], m)
  {
    var n := |path|;
    m := 0;
    if n > 1 {
      var parent := path[n - 2];
      assert FirstWithId(folders, parent);
      m := FindFolder(folders, parent.id).value;
      assert Truthy(path[n - 1].parentId) && path[n - 1].parentId.value == parent.id;
      var prefix := path[..n - 1];
      assert forall i :: 0 <= i < |prefix| ==> prefix[i] == path[i];
    }
  }

  /** The ancestor chain is unique: any chain ending at position `k` is the one the walk builds. */
  lemma {:induction false} AncestorChainUnique(folders: seq<FolderItem>, path: seq<FolderItem>, k: nat, rank: string -> nat)
    requires k < |folders| && FindFolder(folders, folders[k].id) == Some(k)
    requires RankedBy(folders, rank)
    requires IsAncestorChain(folders, path, k)
    ensures path == Walk(folders, k, rank)
    decreases |path|
  {
    var m := ChainShrink(folders, path, k);
    if |path| > 1 {
      var prefix := path[..|path| - 1];
      AncestorChainUnique(folders, prefix, m, rank);
      assert path == prefix + [folders[k]];
    }
  }

  /** A sequence is the breadcrumb path of a stored folder exactly when it is that folder's ancestor chain. */
  lemma BuildPathIsTheChain(folders: seq<FolderItem>, folderId: string, path: seq<FolderItem>, rank: string -> nat)
    requires RankedBy(folders, rank)
    requires FindFolder(folders, folderId).Some?
    ensures path == BuildPath(folders, folderId, rank) <==> IsAncestorChain(folders, path, FindFolder(folders, folderId).value)
  {
    var k := FindFolder(folders, folderId).value;
    if IsAncestorChain(folders, path, k) {
      AncestorChainUnique(folders, path, k, rank);
    }
  }

  /** The text of a crumb: `"/root"` for the root folder, the folder's name for any other. */
  function CrumbLabel(f: FolderItem): (text: string)
    ensures f.id == RootId ==> text == "/root"
    ensures f.id != RootId ==> text == f.name
  {
    if f.id == RootId then "/root" else f.name
  }

  /** In a fresh session, the trail of the selected folder is the single crumb `"/root"`. */
  lemma InitialTrail(now: Instant)
    ensures RankedBy(InitialData(now).folders, _ => 0)
    ensures BuildPath(InitialData(now).folders, RootId, _ => 0) == InitialData(now).folders
    ensures CrumbLabel(InitialData(now).folders[0]) == "/root"
  {
    var folders := InitialData(now).folders;
    assert FindFolder(folders, RootId) == Some(0);
  }

  /** The three folders of the nested example: `b` inside `a` inside the root. */
  function NestedFolders(now: Instant): seq<FolderItem> {
    [FolderItem(RootId, RootId, None, now, ["a"]),
     FolderItem("a", "A", Some(RootId), now, ["b"]),
     FolderItem("b", "B", Some("a"), now, [])]
  }

  /** In the nested example each id is found at its own position and each folder resolves to the one before it. */
  lemma NestedLinks(now: Instant)
    ensures FindFolder(NestedFolders(now), RootId) == Some(0)
    ensures FindFolder(NestedFolders(now), "a") == Some(1)
    ensures FindFolder(NestedFolders(now), "b") == Some(2)
    ensures ParentIndex(NestedFolders(now), 0) == None
    ensures ParentIndex(NestedFolders(now), 1) == Some(0)
    ensures ParentIndex(NestedFolders(now), 2) == Some(1)
  {
    var folders := NestedFolders(now);
    assert folders[0].id == RootId && folders[1].id == "a" && folders[2].id == "b";
    assert RootId != "a" && RootId != "b" && "a" != "b";
  }

  /** A rank for the nested example: the depth of each folder. */
  function NestedRank(id: string): nat {
    if id == RootId then 0 else if id == "a" then 1 else 2
  }

  /** The nested example's parent graph is acyclic. */
  lemma NestedRanked(now: Instant)
    ensures RankedBy(NestedFolders(now), NestedRank)
  {
    var folders := NestedFolders(now);
    NestedLinks(now);
    forall i | 0 <= i < |folders| && FindFolder(folders, folders[i].id) == Some(i) && ParentIndex(folders, i).Some?
      ensures NestedRank(folders[ParentIndex(folders, i).value].id) < NestedRank(folders[i].id)
    {
      assert i != 0;
      if i == 1 {
        assert NestedRank(RootId) == 0 && NestedRank("a") == 1;
      } else {
        assert NestedRank("a") == 1 && NestedRank("b") == 2;
      }
    }
  }

  /** Folder `b` inside `a` inside the root: the trail of `b` is root, `a`, `b`. */
  lemma NestedTrail(now: Instant)
    ensures RankedBy(NestedFolders(now), NestedRank)
    ensures BuildPath(NestedFolders(now), "b", NestedRank) == NestedFolders(now)
    ensures CrumbLabel(NestedFolders(now)[0]) == "/root" && CrumbLabel(NestedFolders(now)[1]) == "A"
  {
    var folders := NestedFolders(now);
    NestedLinks(now);
    NestedRanked(now);
    assert Walk(folders, 0, NestedRank) == [folders[0]];
    assert Walk(folders, 1, NestedRank) == [folders[0], folders[1]];
    assert Walk(folders, 2, NestedRank) == [folders[0], folders[1], folders[2]];
  }
}
