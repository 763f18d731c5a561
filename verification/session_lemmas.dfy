/**
  What the session-store operations preserve and undo, under the assumption the
  callers rely on: ids generated fresh, so no two files share one.
 */
module SessionLemmas {
  import opened Types
  import opened Seqs
  import opened SessionStore

  ghost predicate UniqueFileIds(files: seq<FileItem>) {
    forall i, j :: 0 <= i < j < |files| ==> files[i].id != files[j].id
  }

  /** Every file whose `folderId` names a stored folder is listed among that folder's children. */
  ghost predicate FilesIndexed(d: DriveData) {
    forall i :: 0 <= i < |d.files| && FindFolder(d.folders, d.files[i].folderId).Some? ==>
      d.files[i].id in d.folders[FindFolder(d.folders, d.files[i].folderId).value].children
  }

  /** Only the children lists differ, so a search by id finds the same position. */
  lemma FindFolderSameIds(a: seq<FolderItem>, b: seq<FolderItem>, id: string)
    requires |a| == |b|
    requires forall i :: 0 <= i < |a| ==> a[i].id == b[i].id
    ensures FindFolder(a, id) == FindFolder(b, id)
  {
    var ra := FindFolder(a, id);
    if ra.Some? {
      assert b[ra.value].id == id;
    }
  }

  /** Searching after a push finds what the search before it found, else the pushed folder. */
  lemma FindFolderAfterPush(a: seq<FolderItem>, x: FolderItem, id: string)
    ensures FindFolder(a, id).Some? ==> FindFolder(a + [x], id) == FindFolder(a, id)
    ensures FindFolder(a, id).None? && x.id == id ==> FindFolder(a + [x], id) == Some(|a|)
    ensures FindFolder(a, id).None? && x.id != id ==> FindFolder(a + [x], id).None?
  {
    var ra := FindFolder(a, id);
    if ra.Some? {
      assert (a + [x])[ra.value].id == id;
    } else if x.id == id {
      assert (a + [x])[|a|].id == id;
    }
  }

  /** The initial value satisfies the invariants, selects the root, and the root starts empty. */
  lemma InitialDataWellFormed(now: Instant)
    ensures UniqueFileIds(InitialData(now).files) && FilesIndexed(InitialData(now))
    ensures GetCurrentFolder(InitialData(now)) == Some(InitialData(now).folders[0])
    ensures GetFolderContents(InitialData(now), RootId) == Contents([], [])
  {
  }

  /** `addFile` keeps every stored file listed in its folder. */
  lemma AddFilePreservesIndex(d: DriveData, file: FileItem)
    requires FilesIndexed(d)
    ensures FilesIndexed(AddFile(d, file))
  {
    var r := AddFile(d, file);
    FindFolderSameIds(r.folders, d.folders, file.folderId);
    forall i | 0 <= i < |r.files| && FindFolder(r.folders, r.files[i].folderId).Some?
      ensures r.files[i].id in r.folders[FindFolder(r.folders, r.files[i].folderId).value].children
    {
      FindFolderSameIds(r.folders, d.folders, r.files[i].folderId);
      var k := FindFolder(r.folders, r.files[i].folderId).value;
      if i < |d.files| {
        assert r.files[i] == d.files[i];
        assert d.files[i].id in d.folders[k].children;
        assert d.folders[k].children <= r.folders[k].children;
      }
    }
  }

  /** `addFolder` keeps every stored file listed in its folder, provided no file already names the new folder. */
  lemma AddFolderPreservesIndex(d: DriveData, folder: FolderItem)
    requires FilesIndexed(d)
    requires forall i :: 0 <= i < |d.files| ==> d.files[i].folderId != folder.id
    ensures FilesIndexed(AddFolder(d, folder))
  {
    var r := AddFolder(d, folder);
    var pushed := d.folders + [folder];
    FindFolderSameIds(r.folders, pushed, folder.id);
    forall i | 0 <= i < |r.files| && FindFolder(r.folders, r.files[i].folderId).Some?
      ensures r.files[i].id in r.folders[FindFolder(r.folders, r.files[i].folderId).value].children
    {
      var id := r.files[i].folderId;
      FindFolderSameIds(r.folders, pushed, id);
      var k := FindFolder(r.folders, id).value;
      FindFolderAfterPush(d.folders, folder, id);
      assert r.files[i] == d.files[i];
      assert pushed[k].id == id && id != folder.id;
      assert k < |d.folders|;
      assert pushed[k] == d.folders[k];
      assert d.folders[k].children <= r.folders[k].children;
    }
  }

  /** With unique file ids, `deleteFile` keeps every remaining file listed in its folder and the ids unique. */
  lemma DeleteFilePreservesIndex(d: DriveData, fileId: string)
    requires UniqueFileIds(d.files) && FilesIndexed(d)
    ensures UniqueFileIds(DeleteFile(d, fileId).files)
    ensures FilesIndexed(DeleteFile(d, fileId))
  {
    var r := DeleteFile(d, fileId);
    if FindFile(d.files, fileId).Some? {
      var k := FindFile(d.files, fileId).value;
      var removedFrom := d.files[k].folderId;
      FindFolderSameIds(r.folders, d.folders, removedFrom);
      // position j of the result is position j of the original before k, and j + 1 from k on
      assert forall j :: 0 <= j < |r.files| ==> r.files[j] == d.files[if j < k then j else j + 1];
      forall i, j | 0 <= i < j < |r.files|
        ensures r.files[i].id != r.files[j].id
      {
        var oi, oj := (if i < k then i else i + 1), (if j < k then j else j + 1);
        assert r.files[i] == d.files[oi] && r.files[j] == d.files[oj] && oi < oj;
      }
      forall i | 0 <= i < |r.files| && FindFolder(r.folders, r.files[i].folderId).Some?
        ensures r.files[i].id in r.folders[FindFolder(r.folders, r.files[i].folderId).value].children
      {
        var o := if i < k then i else i + 1;
        assert r.files[i] == d.files[o];
        var f := d.files[o];
        assert f.id != fileId by {
          if o < k {
            assert d.files[o].id != d.files[k].id;
          } else {
            assert d.files[k].id != d.files[o].id;
          }
        }
        FindFolderSameIds(r.folders, d.folders, f.folderId);
        var m := FindFolder(d.folders, f.folderId).value;
        assert f.id in d.folders[m].children;
        if FindFolder(d.folders, removedFrom) == Some(m) {
          assert multiset(r.folders[m].children)[f.id] == multiset(d.folders[m].children)[f.id];
        } else {
          assert r.folders[m] == d.folders[m];
        }
      }
    }
  }

  /** With a fresh file id, deleting a file just added restores the drive exactly. */
  lemma {:induction false} AddThenDeleteFile(d: DriveData, file: FileItem)
    requires forall i :: 0 <= i < |d.files| ==> d.files[i].id != file.id
    requires forall i :: 0 <= i < |d.folders| ==> file.id !in d.folders[i].children
    ensures DeleteFile(AddFile(d, file), file.id) == d
  {
    var a := AddFile(d, file);
    var k := |d.files|;
    assert FindFile(a.files, file.id) == Some(k) by {
      assert a.files[k] == file;
    }
    assert a.files[..k] + a.files[k + 1..] == d.files;
    var r := DeleteFile(a, file.id);
    FindFolderSameIds(a.folders, d.folders, file.folderId);
    match FindFolder(d.folders, file.folderId)
    case None =>
    case Some(m) =>
      WithoutAbsent(d.folders[m].children, file.id);
      assert Without(a.folders[m].children, file.id) == d.folders[m].children by {
        FilterConcat(d.folders[m].children, [file.id], (y: string) => y != file.id);
      }
      assert r.folders == d.folders;
  }

  /** Adding a file to an existing folder appends exactly that file to the folder's listing. */
  lemma {:induction false} AddFileListed(d: DriveData, file: FileItem)
    requires FindFolder(d.folders, file.folderId).Some?
    ensures GetFolderContents(AddFile(d, file), file.folderId).files == GetFolderContents(d, file.folderId).files + [file]
  {
    var a := AddFile(d, file);
    FindFolderSameIds(a.folders, d.folders, file.folderId);
    FilterConcat(d.files, [file], (f: FileItem) => f.folderId == file.folderId);
  }

  /** `addFolder` with a fresh id whose parent is stored: the new folder occurs once in `folders`, and the parent is still found. */
  lemma AddFolderOnce(d: DriveData, folder: FolderItem, p: string)
    requires forall i :: 0 <= i < |d.folders| ==> d.folders[i].id != folder.id
    requires folder.parentId == Some(p)
    requires FindFolder(d.folders, p).Some?
    ensures multiset(AddFolder(d, folder).folders)[folder] == 1
    ensures FindFolder(AddFolder(d, folder).folders, p).Some?
  {
    var n := |d.folders|;
    var pushed := d.folders + [folder];
    FindFolderAfterPush(d.folders, folder, p);
    var k := FindFolder(d.folders, p).value;
    var rf := if Truthy(folder.parentId) then AppendChild(pushed, p, folder.id) else pushed;
    assert AddFolder(d, folder).folders == rf;
    assert k < n && rf[n] == pushed[n] == folder;
    FindFolderSameIds(rf, pushed, p);
    var front := rf[..n];
    assert rf == front + [folder];
    forall i | 0 <= i < n
      ensures front[i] != folder
    {
      assert front[i].id == pushed[i].id == d.folders[i].id;
    }
    assert folder !in front;
  }

  /**
    A folder with a fresh id, created under a stored folder `p`, is listed under
    `p` exactly once.
   */
  lemma AddFolderListed(d: DriveData, folder: FolderItem, p: string)
    requires forall i :: 0 <= i < |d.folders| ==> d.folders[i].id != folder.id
    requires folder.parentId == Some(p)
    requires FindFolder(d.folders, p).Some?
    ensures multiset(GetFolderContents(AddFolder(d, folder), p).folders)[folder] == 1
  {
    AddFolderOnce(d, folder, p);
    var c := GetFolderContents(AddFolder(d, folder), p);
    assert multiset(c.folders)[folder] == multiset(AddFolder(d, folder).folders)[folder];
  }

  /** After selecting a folder, the current folder is the first stored folder with that id, if there is one. */
  lemma SelectThenCurrent(d: DriveData, folderId: string)
    ensures GetCurrentFolder(SetCurrentFolder(d, folderId)).Some? <==> FindFolder(d.folders, folderId).Some?
    ensures FindFolder(d.folders, folderId).Some? ==>
      GetCurrentFolder(SetCurrentFolder(d, folderId)) == Some(d.folders[FindFolder(d.folders, folderId).value])
  {
  }
}
