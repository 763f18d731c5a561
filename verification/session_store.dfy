/**
  The browser-session variant of the drive: the whole tree is one `DriveData`
  value that every operation loads, changes and saves back. Here an operation
  is a function from the loaded value to the value it saves; `Load` stands for
  reading the session slot, given as a parameter.
 */
module SessionStore {
  import opened Types
  import opened Seqs

  datatype DriveData = DriveData(
    files: seq<FileItem>,
    folders: seq<FolderItem>,
    currentFolderId: Option<string>)

  /** `folders.find((f) => f.id === id)`, as the index of the folder found. */
  function FindFolder(folders: seq<FolderItem>, id: string): (r: Option<nat>)
    ensures r.Some? ==> r.value < |folders| && folders[r.value].id == id
    ensures r.Some? ==> forall j :: 0 <= j < r.value ==> folders[j].id != id
    ensures r.None? <==> forall j :: 0 <= j < |folders| ==> folders[j].id != id
  {
    FirstIndex(folders, (f: FolderItem) => f.id == id)
  }

  /** `files.findIndex((f) => f.id === id)`, with `-1` as `None`. */
  function FindFile(files: seq<FileItem>, id: string): (r: Option<nat>)
    ensures r.Some? ==> r.value < |files| && files[r.value].id == id
    ensures r.Some? ==> forall j :: 0 <= j < r.value ==> files[j].id != id
    ensures r.None? <==> forall j :: 0 <= j < |files| ==> files[j].id != id
  {
    FirstIndex(files, (f: FileItem) => f.id == id)
  }

  /** The value saved when the session slot is empty: a lone root folder, selected. */
  function InitialData(now: Instant): DriveData {
    DriveData([], [FolderItem(RootId, RootId, None, now, [])], Some(RootId))
  }

  /** `getStoredData` in the browser: the stored value, or the initial value when nothing is stored. */
  function Load(stored: Option<DriveData>, now: Instant): (d: DriveData)
    ensures stored.Some? ==> d == stored.value
    ensures stored.None? ==> d.files == [] && d.currentFolderId == Some(RootId)
    ensures stored.None? ==> |d.folders| == 1 && d.folders[0].id == RootId && d.folders[0].name == RootId
    ensures stored.None? ==> d.folders[0].parentId == None && d.folders[0].children == []
  {
    match stored
    case Some(data) => data
    case None => InitialData(now)
  }

  /** The two records agree on everything but their `children` lists. */
  predicate SameButChildren(a: FolderItem, b: FolderItem) {
    a.id == b.id && a.name == b.name && a.parentId == b.parentId && a.createdAt == b.createdAt
  }

  /** Appends `childId` to the children of the first folder whose id is `parentId`, if any. */
  function AppendChild(folders: seq<FolderItem>, parentId: string, childId: string): (r: seq<FolderItem>)
    ensures |r| == |folders|
    ensures forall i :: 0 <= i < |r| ==> SameButChildren(r[i], folders[i])
    ensures FindFolder(folders, parentId).None? ==> r == folders
    ensures FindFolder(folders, parentId).Some? ==>
      var k := FindFolder(folders, parentId).value;
      && r[k].children == folders[k].children + [childId]
      && forall i :: 0 <= i < |r| && i != k ==> r[i] == folders[i]
  {
    match FindFolder(folders, parentId)
    case None => folders
    case Some(k) => folders[k := folders[k].(children := folders[k].children + [childId])]
  }

  /** Removes every occurrence of `childId` from the children of the first folder whose id is `parentId`, if any. */
  function RemoveChild(folders: seq<FolderItem>, parentId: string, childId: string): (r: seq<FolderItem>)
    ensures |r| == |folders|
    ensures forall i :: 0 <= i < |r| ==> SameButChildren(r[i], folders[i])
    ensures FindFolder(folders, parentId).None? ==> r == folders
    ensures FindFolder(folders, parentId).Some? ==>
      var k := FindFolder(folders, parentId).value;
      && childId !in r[k].children
      && (forall y :: y != childId ==> multiset(r[k].children)[y] == multiset(folders[k].children)[y])
      && IsSubseq(r[k].children, folders[k].children)
      && forall i :: 0 <= i < |r| && i != k ==> r[i] == folders[i]
  {
    match FindFolder(folders, parentId)
    case None => folders
    case Some(k) => folders[k := folders[k].(children := Without(folders[k].children, childId))]
  }

  /**
    `addFolder`: the folder goes at the end of `folders`; when its `parentId` is
    truthy, the first folder with that id -- searched after the push, so possibly
    the new folder itself -- gains the new id at the end of its children.
   */
  function AddFolder(d: DriveData, folder: FolderItem): (r: DriveData)
    ensures r.files == d.files && r.currentFolderId == d.currentFolderId
    ensures |r.folders| == |d.folders| + 1
    ensures forall i :: 0 <= i < |d.folders| ==> SameButChildren(r.folders[i], d.folders[i])
    ensures SameButChildren(r.folders[|d.folders|], folder)
    ensures !Truthy(folder.parentId) ==> r.folders == d.folders + [folder]
    ensures Truthy(folder.parentId) ==>
      var pushed := d.folders + [folder];
      match FindFolder(pushed, folder.parentId.value)
      case None => r.folders == pushed
      case Some(k) =>
        && r.folders[k].children == pushed[k].children + [folder.id]
        && forall i :: 0 <= i < |pushed| && i != k ==> r.folders[i] == pushed[i]
  {
    var pushed := d.folders + [folder];
    if Truthy(folder.parentId) then d.(folders := AppendChild(pushed, folder.parentId.value, folder.id))
    else d.(folders := pushed)
  }

  /** `addFile`: the file goes at the end of `files`; the first folder whose id is its `folderId`, if any, gains its id. */
  function AddFile(d: DriveData, file: FileItem): (r: DriveData)
    ensures r.files == d.files + [file] && r.currentFolderId == d.currentFolderId
    ensures |r.folders| == |d.folders|
    ensures forall i :: 0 <= i < |d.folders| ==> SameButChildren(r.folders[i], d.folders[i])
    ensures FindFolder(d.folders, file.folderId).None? ==> r.folders == d.folders
    ensures FindFolder(d.folders, file.folderId).Some? ==>
      var k := FindFolder(d.folders, file.folderId).value;
      && r.folders[k].children == d.folders[k].children + [file.id]
      && forall i :: 0 <= i < |d.folders| && i != k ==> r.folders[i] == d.folders[i]
  {
    DriveData(d.files + [file], AppendChild(d.folders, file.folderId, file.id), d.currentFolderId)
  }

  /**
    `deleteFile`: the first file with the id leaves `files`, and the id leaves the
    children of the first folder whose id is that file's `folderId`. An unknown id
    leaves the value as it was (the source does not save in that case).
   */
  function DeleteFile(d: DriveData, fileId: string): (r: DriveData)
    ensures FindFile(d.files, fileId).None? ==> r == d
    ensures FindFile(d.files, fileId).Some? ==>
      var k := FindFile(d.files, fileId).value;
      && |r.files| == |d.files| - 1
      && (forall j :: 0 <= j < k ==> r.files[j] == d.files[j])
      && (forall j :: k <= j < |r.files| ==> r.files[j] == d.files[j + 1])
      && r.folders == RemoveChild(d.folders, d.files[k].folderId, fileId)
      && r.currentFolderId == d.currentFolderId
  {
    match FindFile(d.files, fileId)
    case None => d
    case Some(k) =>
      DriveData(d.files[..k] + d.files[k + 1..], RemoveChild(d.folders, d.files[k].folderId, fileId), d.currentFolderId)
  }

  /** `getCurrentFolder`: the first folder whose id is `currentFolderId`, or null. */
  function GetCurrentFolder(d: DriveData): (r: Option<FolderItem>)
    ensures r.Some? <==> d.currentFolderId.Some? && exists i :: 0 <= i < |d.folders| && d.folders[i].id == d.currentFolderId.value
    ensures r.Some? ==> r.value in d.folders && Some(r.value.id) == d.currentFolderId
    ensures r.Some? ==> exists i :: 0 <= i < |d.folders| && d.folders[i] == r.value && forall j :: 0 <= j < i ==> d.folders[j].id != r.value.id
  {
    match d.currentFolderId
    case None => None
    case Some(c) =>
      match FindFolder(d.folders, c)
      case None => None
      case Some(k) => Some(d.folders[k])
  }

  /** `setCurrentFolder`: only the selection changes. */
  function SetCurrentFolder(d: DriveData, folderId: string): (r: DriveData)
    ensures r.files == d.files && r.folders == d.folders
    ensures r.currentFolderId == Some(folderId)
  {
    d.(currentFolderId := Some(folderId))
  }

  /**
    `getFolderContents`: nothing for an unknown folder; otherwise the files whose
    `folderId` and the folders whose `parentId` is the id, in stored order.
   */
  function GetFolderContents(d: DriveData, folderId: string): (r: Contents)
    ensures FindFolder(d.folders, folderId).None? ==> r == Contents([], [])
    ensures FindFolder(d.folders, folderId).Some? ==>
      && IsSubseq(r.files, d.files)
      && IsSubseq(r.folders, d.folders)
      && (forall f :: multiset(r.files)[f] == if f.folderId == folderId then multiset(d.files)[f] else 0)
      && (forall f :: multiset(r.folders)[f] == if f.parentId == Some(folderId) then multiset(d.folders)[f] else 0)
  {
    match FindFolder(d.folders, folderId)
    case None => Contents([], [])
    case Some(_) =>
      var inFolder := (f: FileItem) => f.folderId == folderId;
      var underFolder := (f: FolderItem) => f.parentId == Some(folderId);
      FilterCounts(d.files, inFolder);
      FilterCounts(d.folders, underFolder);
      FilterIsSubseq(d.files, inFolder);
      FilterIsSubseq(d.folders, underFolder);
      Contents(Filter(d.files, inFolder), Filter(d.folders, underFolder))
  }
}
