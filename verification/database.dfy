/**
  The server variant of the drive, over a relational store reached through an
  ORM. The store is two finite maps from primary key to row; an operation that
  writes returns the new store. Ids the store would generate are parameters,
  required fresh.
 */
module Database {
  import opened Types
  import opened NameOrder

  datatype FolderRow = FolderRow(name: string, parentId: Option<string>, createdAt: Instant)

  datatype FileRow = FileRow(
    name: string,
    size: nat,
    mimeType: string,
    path: string,
    folderId: string,
    createdAt: Instant)

  datatype Store = Store(folders: map<string, FolderRow>, files: map<string, FileRow>)

  /** The one store error modelled: deleting a file that is not there. Other store failures are not modelled. */
  datatype DbError = FileDeletionFailed

  datatype Result<T> = Ok(value: T) | Err(error: DbError)

  /** A folder row as the API returns it: `children` is always empty. */
  function FolderView(id: string, row: FolderRow): FolderItem {
    FolderItem(id, row.name, row.parentId, row.createdAt, [])
  }

  /** A file row as the API returns it: every field copied. */
  function FileView(id: string, row: FileRow): FileItem {
    FileItem(id, row.name, row.size, row.mimeType, row.folderId, row.createdAt, row.path)
  }

  function FolderName(f: FolderItem): string { f.name }

  function FileName(f: FileItem): string { f.name }

  // ---------------------------------------------------------------- bootstrap

  /** `initializeDatabase`: creates the root folder when no folder has id `"root"`; otherwise changes nothing. */
  function InitializeDatabase(s: Store, now: Instant): (r: Store)
    ensures RootId in r.folders
    ensures RootId in s.folders ==> r == s
    ensures RootId !in s.folders ==> r.folders[RootId].name == RootId && r.folders[RootId].parentId == None
    ensures r.files == s.files
    ensures r.folders.Keys == s.folders.Keys + {RootId}
    ensures forall id :: id in s.folders ==> r.folders[id] == s.folders[id]
  {
    if RootId in s.folders then s
    else s.(folders := s.folders[RootId := FolderRow(RootId, None, now)])
  }

  /** A second initialization creates nothing, whatever its clock reads. */
  lemma InitializeIdempotent(s: Store, t1: Instant, t2: Instant)
    ensures InitializeDatabase(InitializeDatabase(s, t1), t2) == InitializeDatabase(s, t1)
  {
  }

  // ---------------------------------------------------------------- creation

  /** The argument `createFolder` hands to the store for `parentId`. */
  function ParentArgument(parentId: string): string {
    if parentId == RootId then RootId else parentId
  }

  /**
    `createFolder` with the id the store generates: one new row whose `parentId`
    is the caller's, unchanged; the folder is returned with no children.
   */
  function CreateFolder(s: Store, id: string, name: string, parentId: string, now: Instant): (r: (Store, FolderItem))
    requires id !in s.folders
    ensures r.0.files == s.files
    ensures r.0.folders.Keys == s.folders.Keys + {id}
    ensures forall k :: k in s.folders ==> r.0.folders[k] == s.folders[k]
    ensures r.1 == FolderView(id, r.0.folders[id])
    ensures r.1.name == name && r.1.parentId == Some(parentId) && r.1.children == []
  {
    var row := FolderRow(name, Some(ParentArgument(parentId)), now);
    (s.(folders := s.folders[id := row]), FolderView(id, row))
  }

  /** `createFile` with the id the store generates: one new row holding the caller's fields. */
  function CreateFile(s: Store, id: string, name: string, size: nat, mimeType: string, path: string, folderId: string, now: Instant): (r: (Store, FileItem))
    requires id !in s.files
    ensures r.0.folders == s.folders
    ensures r.0.files.Keys == s.files.Keys + {id}
    ensures forall k :: k in s.files ==> r.0.files[k] == s.files[k]
    ensures r.1 == FileView(id, r.0.files[id])
    ensures r.1.name == name && r.1.size == size && r.1.mimeType == mimeType && r.1.path == path && r.1.folderId == folderId
  {
    var row := FileRow(name, size, mimeType, path, folderId, now);
    (s.(files := s.files[id := row]), FileView(id, row))
  }

  // ---------------------------------------------------------------- listing

  /** The folder rows among `keys` whose `parentId` is `folderId`, as returned. */
  ghost function ChildFoldersAmong(s: Store, folderId: string, keys: set<string>): set<FolderItem> {
    set k | k in keys && k in s.folders && s.folders[k].parentId == Some(folderId) :: FolderView(k, s.folders[k])
  }

  /** The file rows among `keys` whose `folderId` is `folderId`, as returned. */
  ghost function ChildFilesAmong(s: Store, folderId: string, keys: set<string>): set<FileItem> {
    set k | k in keys && k in s.files && s.files[k].folderId == folderId :: FileView(k, s.files[k])
  }

  ghost function ChildFolders(s: Store, folderId: string): set<FolderItem> {
    ChildFoldersAmong(s, folderId, s.folders.Keys)
  }

  ghost function ChildFiles(s: Store, folderId: string): set<FileItem> {
    ChildFilesAmong(s, folderId, s.files.Keys)
  }

  lemma ChildFoldersStep(s: Store, folderId: string, seen: set<string>, k: string)
    requires k in s.folders && k !in seen
    ensures s.folders[k].parentId == Some(folderId) ==>
      && FolderView(k, s.folders[k]) !in ChildFoldersAmong(s, folderId, seen)
      && ChildFoldersAmong(s, folderId, seen + {k}) == ChildFoldersAmong(s, folderId, seen) + {FolderView(k, s.folders[k])}
    ensures s.folders[k].parentId != Some(folderId) ==>
      ChildFoldersAmong(s, folderId, seen + {k}) == ChildFoldersAmong(s, folderId, seen)
  {
  }

  lemma ChildFilesStep(s: Store, folderId: string, seen: set<string>, k: string)
    requires k in s.files && k !in seen
    ensures s.files[k].folderId == folderId ==>
      && FileView(k, s.files[k]) !in ChildFilesAmong(s, folderId, seen)
      && ChildFilesAmong(s, folderId, seen + {k}) == ChildFilesAmong(s, folderId, seen) + {FileView(k, s.files[k])}
    ensures s.files[k].folderId != folderId ==>
      ChildFilesAmong(s, folderId, seen + {k}) == ChildFilesAmong(s, folderId, seen)
  {
  }

  /** One iteration of the listing loop: the row under key `k` joins the sorted result if it matches. */
  method VisitFolders(s: Store, folderId: string, ghost seen: set<string>, k: string, r: seq<FolderItem>) returns (r': seq<FolderItem>)
    requires k in s.folders && k !in seen
    requires SortedBy(r, FolderName)
    requires multiset(r) == multiset(ChildFoldersAmong(s, folderId, seen))
    ensures SortedBy(r', FolderName)
    ensures multiset(r') == multiset(ChildFoldersAmong(s, folderId, seen + {k}))
  {
    ChildFoldersStep(s, folderId, seen, k);
    r' := r;
    if s.folders[k].parentId == Some(folderId) {
      var v := FolderView(k, s.folders[k]);
      MultisetAddFresh(ChildFoldersAmong(s, folderId, seen), v);
      r' := InsertBy(r, v, FolderName);
    }
  }

  /** `folder.findMany({ where: { parentId }, orderBy: { name: "asc" } })`, mapped to items. */
  method ListFolders(s: Store, folderId: string) returns (r: seq<FolderItem>)
    ensures SortedBy(r, FolderName)
    ensures multiset(r) == multiset(ChildFolders(s, folderId))
  {
    r := [];
    var pending := s.folders.Keys;
    ghost var seen: set<string> := {};
    while pending != {}
      invariant pending + seen == s.folders.Keys && pending !! seen
      invariant SortedBy(r, FolderName)
      invariant multiset(r) == multiset(ChildFoldersAmong(s, folderId, seen))
      decreases |pending|
    {
      var k :| k in pending;
      r := VisitFolders(s, folderId, seen, k, r);
      pending := pending - {k};
      seen := seen + {k};
    }
  }

  /** One iteration of the listing loop: the row under key `k` joins the sorted result if it matches. */
  method VisitFiles(s: Store, folderId: string, ghost seen: set<string>, k: string, r: seq<FileItem>) returns (r': seq<FileItem>)
    requires k in s.files && k !in seen
    requires SortedBy(r, FileName)
    requires multiset(r) == multiset(ChildFilesAmong(s, folderId, seen))
    ensures SortedBy(r', FileName)
    ensures multiset(r') == multiset(ChildFilesAmong(s, folderId, seen + {k}))
  {
    ChildFilesStep(s, folderId, seen, k);
    r' := r;
    if s.files[k].folderId == folderId {
      var v := FileView(k, s.files[k]);
      MultisetAddFresh(ChildFilesAmong(s, folderId, seen), v);
      r' := InsertBy(r, v, FileName);
    }
  }

  /** `file.findMany({ where: { folderId }, orderBy: { name: "asc" } })`, mapped to items. */
  method ListFiles(s: Store, folderId: string) returns (r: seq<FileItem>)
    ensures SortedBy(r, FileName)
    ensures multiset(r) == multiset(ChildFiles(s, folderId))
  {
    r := [];
    var pending := s.files.Keys;
    ghost var seen: set<string> := {};
    while pending != {}
      invariant pending + seen == s.files.Keys && pending !! seen
      invariant SortedBy(r, FileName)
      invariant multiset(r) == multiset(ChildFilesAmong(s, folderId, seen))
      decreases |pending|
    {
      var k :| k in pending;
      r := VisitFiles(s, folderId, seen, k, r);
      pending := pending - {k};
      seen := seen + {k};
    }
  }

  /**
    `getFolderContents`: the child folders and files, each exactly once, sorted
    by name; no check that the folder exists, so an id nothing points at gives
    two empty lists. Equal names come back in an order the store chooses.
   */
  method GetFolderContents(s: Store, folderId: string) returns (r: Contents)
    ensures SortedBy(r.folders, FolderName) && SortedBy(r.files, FileName)
    ensures forall f :: f in r.folders <==> f in ChildFolders(s, folderId)
    ensures forall f :: f in r.files <==> f in ChildFiles(s, folderId)
    ensures forall i, j :: 0 <= i < j < |r.folders| ==> r.folders[i] != r.folders[j]
    ensures forall i, j :: 0 <= i < j < |r.files| ==> r.files[i] != r.files[j]
    ensures ChildFolders(s, folderId) == {} && ChildFiles(s, folderId) == {} ==> r == Contents([], [])
  {
    var folders := ListFolders(s, folderId);
    var files := ListFiles(s, folderId);
    r := Contents(files, folders);
    NoRepeats(folders, ChildFolders(s, folderId));
    NoRepeats(files, ChildFiles(s, folderId));
  }

  lemma MultisetAddFresh<T>(S: set<T>, v: T)
    requires v !in S
    ensures multiset(S + {v}) == multiset(S) + multiset{v}
  {
  }

  /** An element found at two positions occurs at least twice. */
  lemma RepeatCounted<T>(xs: seq<T>, i: nat, j: nat)
    requires i < j < |xs|
    ensures xs[i] == xs[j] ==> multiset(xs)[xs[i]] >= 2
  {
    assert xs == xs[..i] + [xs[i]] + xs[i + 1..j] + [xs[j]] + xs[j + 1..];
  }

  /** A sequence with the multiset of a set lists each member of the set exactly once. */
  lemma NoRepeats<T>(xs: seq<T>, S: set<T>)
    requires multiset(xs) == multiset(S)
    ensures forall x :: x in xs <==> x in S
    ensures forall i, j :: 0 <= i < j < |xs| ==> xs[i] != xs[j]
    ensures S == {} ==> xs == []
  {
    forall x
      ensures x in xs <==> x in S
    {
      assert x in xs <==> x in multiset(xs);
    }
    forall i, j | 0 <= i < j < |xs|
      ensures xs[i] != xs[j]
    {
      RepeatCounted(xs, i, j);
    }
    if S == {} {
      assert |multiset(xs)| == 0;
    }
  }

  // ---------------------------------------------------------------- path

  /** The walk ends: `rank` drops from every folder row to the row its truthy `parentId` names. */
  ghost predicate RankedStore(s: Store, rank: string -> nat) {
    forall id :: id in s.folders && Truthy(s.folders[id].parentId) && s.folders[id].parentId.value in s.folders ==>
      rank(s.folders[id].parentId.value) < rank(id)
  }

  /**
    `path` is the chain from a parentless or orphaned row down to row `id`: each
    element is the view of its own row, each names the one before as parent, and
    the first one's `parentId` is falsy or names no row.
   */
  ghost predicate IsStoreChain(s: Store, path: seq<FolderItem>, id: string)
    requires id in s.folders
  {
    && |path| > 0
    && path[|path| - 1] == FolderView(id, s.folders[id])
    && (forall i :: 0 <= i < |path| ==> path[i].id in s.folders && path[i] == FolderView(path[i].id, s.folders[path[i].id]))
    && (forall i :: 0 < i < |path| ==> Truthy(path[i].parentId) && path[i].parentId.value == path[i - 1].id)
    && (!Truthy(path[0].parentId) || path[0].parentId.value !in s.folders)
  }

  /** The loop of `getFolderPath`, from a stored folder id. */
  function PathFrom(s: Store, id: string, ghost rank: string -> nat): (r: seq<FolderItem>)
    requires id in s.folders && RankedStore(s, rank)
    ensures IsStoreChain(s, r, id)
    ensures forall i :: 0 <= i < |r| ==> rank(r[i].id) <= rank(id)
    ensures forall i, j :: 0 <= i < j < |r| ==> rank(r[i].id) < rank(r[j].id)
    decreases rank(id)
  {
    var row := s.folders[id];
    if Truthy(row.parentId) && row.parentId.value in s.folders then
      var above := PathFrom(s, row.parentId.value, rank);
      var r := above + [FolderView(id, row)];
      assert forall i :: 0 <= i < |above| ==> r[i] == above[i];
      r
    else
      [FolderView(id, row)]
  }

  /**
    `getFolderPath`: empty for a falsy or unknown id; otherwise the chain of
    ancestors, root-most first, ending with the folder asked for and repeating no
    folder. A missing parent ends the chain silently.
   */
  function GetFolderPath(s: Store, folderId: string, ghost rank: string -> nat): (r: seq<FolderItem>)
    requires RankedStore(s, rank)
    ensures (folderId == "" || folderId !in s.folders) <==> r == []
    ensures folderId != "" && folderId in s.folders ==> IsStoreChain(s, r, folderId) && r[|r| - 1].id == folderId
    ensures forall i, j :: 0 <= i < j < |r| ==> r[i].id != r[j].id
  {
    if folderId != "" && folderId in s.folders then PathFrom(s, folderId, rank) else []
  }

  /** The chain is unique: any chain ending at row `id` is the one the walk builds. */
  lemma {:induction false} StoreChainUnique(s: Store, path: seq<FolderItem>, id: string, rank: string -> nat)
    requires id in s.folders && RankedStore(s, rank)
    requires IsStoreChain(s, path, id)
    ensures path == PathFrom(s, id, rank)
    decreases |path|
  {
    var n := |path|;
    if n > 1 {
      var prefix := path[..n - 1];
      var parent := path[n - 2].id;
      assert forall i :: 0 <= i < |prefix| ==> prefix[i] == path[i];
      assert IsStoreChain(s, prefix, parent);
      StoreChainUnique(s, prefix, parent, rank);
      assert path == prefix + [path[n - 1]];
    }
  }

  /** A sequence is the path of a stored, truthy id exactly when it is that folder's chain. */
  lemma GetFolderPathIsTheChain(s: Store, folderId: string, path: seq<FolderItem>, rank: string -> nat)
    requires RankedStore(s, rank)
    requires folderId != "" && folderId in s.folders
    ensures path == GetFolderPath(s, folderId, rank) <==> IsStoreChain(s, path, folderId)
  {
    if IsStoreChain(s, path, folderId) {
      StoreChainUnique(s, path, folderId, rank);
    }
  }

  // ---------------------------------------------------------------- files by id

  /** `getFileById`: the row with that key, or null. */
  function GetFileById(s: Store, fileId: string): (r: Option<FileItem>)
    ensures r.None? <==> fileId !in s.files
    ensures r.Some? ==> r.value == FileView(fileId, s.files[fileId]) && r.value.id == fileId
  {
    if fileId in s.files then Some(FileView(fileId, s.files[fileId])) else None
  }

  /** `deleteFile`: removes the row with that key; an absent key makes the store throw, rethrown as a failure. */
  function DeleteFile(s: Store, fileId: string): (r: Result<Store>)
    ensures r.Err? <==> fileId !in s.files
    ensures r.Err? ==> r.error == FileDeletionFailed
    ensures r.Ok? ==> r.value.folders == s.folders && r.value.files.Keys == s.files.Keys - {fileId}
    ensures r.Ok? ==> forall k :: k in r.value.files ==> r.value.files[k] == s.files[k]
  {
    if fileId in s.files then Ok(s.(files := s.files - {fileId})) else Err(FileDeletionFailed)
  }

  /** A file that was deleted cannot be found; deletion fails exactly when the lookup finds nothing. */
  lemma DeleteThenLookup(s: Store, fileId: string)
    ensures DeleteFile(s, fileId).Err? <==> GetFileById(s, fileId).None?
    ensures DeleteFile(s, fileId).Ok? ==> GetFileById(DeleteFile(s, fileId).value, fileId).None?
  {
  }

  /** Creating a file and deleting it by the returned id restores the store. */
  lemma CreateThenDeleteFile(s: Store, id: string, name: string, size: nat, mimeType: string, path: string, folderId: string, now: Instant)
    requires id !in s.files
    ensures
      var (s1, f) := CreateFile(s, id, name, size, mimeType, path, folderId, now);
      DeleteFile(s1, f.id) == Ok(s)
  {
    var (s1, f) := CreateFile(s, id, name, size, mimeType, path, folderId, now);
    assert s1.files - {id} == s.files;
  }

  /** A newly created folder is among the child folders of the parent it names, which the listing returns. */
  lemma CreateFolderListed(s: Store, id: string, name: string, parentId: string, now: Instant)
    requires id !in s.folders
    ensures CreateFolder(s, id, name, parentId, now).1 in ChildFolders(CreateFolder(s, id, name, parentId, now).0, parentId)
  {
    var (s1, f) := CreateFolder(s, id, name, parentId, now);
    assert id in s1.folders.Keys && s1.folders[id].parentId == Some(parentId);
  }

  /**
    Bootstrap, a folder "Docs" under the root, "a.pdf" uploaded
    into it, listed, then deleted; afterwards "Docs" lists nothing.
   */
  lemma UploadListDeleteScenario(now: Instant)
    ensures
      var s0 := InitializeDatabase(Store(map[], map[]), now);
      var (s1, docs) := CreateFolder(s0, "f1", "Docs", RootId, now);
      var (s2, pdf) := CreateFile(s1, "x1", "a.pdf", 1024, "application/pdf", "/uploads/u1.pdf", docs.id, now);
      && ChildFolders(s2, docs.id) == {}
      && ChildFiles(s2, docs.id) == {pdf}
      && DeleteFile(s2, pdf.id).Ok?
      && ChildFiles(DeleteFile(s2, pdf.id).value, docs.id) == {}
  {
    var s0 := InitializeDatabase(Store(map[], map[]), now);
    var (s1, docs) := CreateFolder(s0, "f1", "Docs", RootId, now);
    var (s2, pdf) := CreateFile(s1, "x1", "a.pdf", 1024, "application/pdf", "/uploads/u1.pdf", docs.id, now);
    assert s2.folders.Keys == {RootId, "f1"};
    assert s2.files.Keys == {"x1"};
    assert ChildFiles(s2, docs.id) == {pdf} by {
      assert pdf == FileView("x1", s2.files["x1"]);
    }
    var s3 := DeleteFile(s2, pdf.id).value;
    assert s3.files.Keys == {};
  }

  /** Folder "B" in "A" in the root: the path of "B" is root, "A", "B". */
  lemma NestedPathScenario(now: Instant)
    ensures
      var s0 := InitializeDatabase(Store(map[], map[]), now);
      var (s1, a) := CreateFolder(s0, "f1", "A", RootId, now);
      var (s2, b) := CreateFolder(s1, "f2", "B", a.id, now);
      var rank := (id: string) => if id == RootId then 0 else if id == "f1" then 1 else 2;
      && RankedStore(s2, rank)
      && GetFolderPath(s2, b.id, rank) == [FolderView(RootId, s2.folders[RootId]), a, b]
  {
    var s0 := InitializeDatabase(Store(map[], map[]), now);
    var (s1, a) := CreateFolder(s0, "f1", "A", RootId, now);
    var (s2, b) := CreateFolder(s1, "f2", "B", a.id, now);
    var rank := (id: string) => if id == RootId then 0 else if id == "f1" then 1 else 2;
    assert s2.folders.Keys == {RootId, "f1", "f2"};
    assert RankedStore(s2, rank);
    assert PathFrom(s2, RootId, rank) == [FolderView(RootId, s2.folders[RootId])];
    assert PathFrom(s2, "f1", rank) == [FolderView(RootId, s2.folders[RootId]), a];
  }
}
