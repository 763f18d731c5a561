# Drive hierarchy model

A Dafny model of the folder/file hierarchy of a small cloud-drive file manager. It covers:

- the browser-session store, where the whole tree is one `DriveData` value and each folder keeps a `children` id list;
- the breadcrumb trail, which walks `parentId` links from the folder on screen;
- the server-side store, over a relational database: bootstrap of the root folder, listing sorted by name, the path walk, and file lookup and deletion;
- the MIME-type icon classifier;
- the upload endpoint's refusal of file-less requests and its choice of stored name.

Everything is an immutable value and a pure function (the listing loops are methods). Persistence is plain data:

- the session slot is an `Option<DriveData>`;
- the relational store is two maps from primary key to row;
- generated ids, the clock and the success of the disk write are parameters.

Modules:

- `Types`: the file and folder records, `Option`, JavaScript truthiness of `string | null`.
- `Seqs`: `find`/`findIndex` (`FirstIndex`) and `filter` (`Filter`), with their counting and ordering lemmas.
- `NameOrder`: the name order (lexicographic by character code), proved a total order, and sorted insertion.
- `SessionStore`, `SessionLemmas`: the session variant and what its operations preserve and undo.
- `Breadcrumb`: the breadcrumb walk and crumb labels.
- `Database`: the relational variant.
- `FileUtils`: `getFileIcon`.
- `UploadRoute`: the upload endpoint.

Neither parent walk has a cycle guard in the source. Both take a ghost `rank` that must drop strictly from each folder to the parent the walk reaches. That is the acyclicity the walks need in order to end.

Behaviour of the code worth noting:

- listing an unknown folder on the server returns two empty lists, not a not-found error;
- deleting an absent file fails with the generic "Failed to delete file" error;
- no walk guards against cycles;
- `createFolder` does not check that the parent exists;
- the upload endpoint creates no file record.

## Model

| member | source | states |
|---|---|---|
| Seqs.FirstIndex | src/lib/sessionStore.ts:75 | `findIndex`: the index found satisfies the predicate and nothing before it does; `None` exactly when nothing does |
| Seqs.FilterCounts | src/lib/sessionStore.ts:112-113 | `filter` keeps every matching element exactly as often as it occurs and drops every other |
| Seqs.FilterIsSubseq | src/lib/sessionStore.ts:112-113 | `filter` keeps the stored order: the result is a subsequence of the input |
| Seqs.FilterConcat | src/lib/sessionStore.ts:112-113 | filtering a concatenation is the concatenation of the filtered parts |
| Seqs.Without | src/lib/sessionStore.ts:83 | removing an id from a children list removes every occurrence, keeps every other id as often as before, and keeps the order |
| Seqs.WithoutAbsent | src/lib/sessionStore.ts:83 | removing an id that is not in the list leaves the list unchanged |
| SessionStore.FindFolder | src/lib/sessionStore.ts:49 | `folders.find` by id returns the first folder with that id, and none only when no folder has it |
| SessionStore.FindFile | src/lib/sessionStore.ts:75 | `files.findIndex` by id returns the first file with that id, and none only when no file has it |
| SessionStore.Load | src/lib/sessionStore.ts:16-35 | an empty slot yields one folder (id and name `root`, null parent, no children), no files, and `root` selected; a stored value comes back as stored |
| SessionStore.AppendChild | src/lib/sessionStore.ts:49-52 | only the first folder with the parent id changes, and it gains the child id at the end of `children`; nothing changes when no folder has that id |
| SessionStore.RemoveChild | src/lib/sessionStore.ts:81-84 | only the first folder with the parent id changes; the id leaves its `children` entirely, with every other id kept as often and in the same order |
| SessionStore.AddFolder | src/lib/sessionStore.ts:43-56 | the folder is appended; when its `parentId` is truthy, the first folder with that id in the pushed list gains the new id; files, selection and every other folder are unchanged |
| SessionStore.AddFile | src/lib/sessionStore.ts:58-69 | the file is appended; the first folder whose id is its `folderId`, if any, gains the file id; nothing else changes |
| SessionStore.DeleteFile | src/lib/sessionStore.ts:71-88 | only the first file with the id is removed and the rest keep their order; its id leaves its folder's children; an unknown id leaves the state untouched |
| SessionStore.GetCurrentFolder | src/lib/sessionStore.ts:90-93 | returns the first folder whose id is the selection, and null exactly when the selection is null or names no folder |
| SessionStore.SetCurrentFolder | src/lib/sessionStore.ts:95-99 | only the selection changes |
| SessionStore.GetFolderContents | src/lib/sessionStore.ts:101-116 | an unknown folder gives two empty lists; otherwise exactly the files with that `folderId` and the folders with that `parentId`, each as often as stored, in stored order, unsorted |
| SessionLemmas.InitialDataWellFormed | src/lib/sessionStore.ts:16-32 | the initial state satisfies the file-index invariant and selects the root folder, and the root lists nothing |
| SessionLemmas.AddFilePreservesIndex | src/lib/sessionStore.ts:58-69 | `addFile` keeps every file whose folder exists listed among that folder's children |
| SessionLemmas.AddFolderPreservesIndex | src/lib/sessionStore.ts:43-56 | `addFolder` keeps that invariant when no stored file already names the new folder's id |
| SessionLemmas.DeleteFilePreservesIndex | src/lib/sessionStore.ts:71-88 | with unique file ids, `deleteFile` keeps file ids unique and keeps every remaining file listed in its folder |
| SessionLemmas.AddThenDeleteFile | src/lib/sessionStore.ts:58-88 | with a fresh file id, `deleteFile` after `addFile` restores the whole state, including every folder's children |
| SessionLemmas.AddFileListed | src/lib/sessionStore.ts:58-116 | after `addFile` into an existing folder, that folder's file listing is the previous listing with the file appended |
| SessionLemmas.AddFolderOnce | src/lib/sessionStore.ts:43-56 | after `addFolder` with a fresh id under a stored parent, the new folder occurs exactly once in `folders` and the parent is still found |
| SessionLemmas.AddFolderListed | src/lib/sessionStore.ts:43-116 | a folder with a fresh id created under a stored folder is listed under that folder exactly once |
| SessionLemmas.SelectThenCurrent | src/lib/sessionStore.ts:90-99 | after `setCurrentFolder(id)` the current folder is the first folder with that id, and null exactly when none exists |
| Breadcrumb.Walk | src/components/Breadcrumb.tsx:20-27 | the walk from a folder returns its ancestor chain, and ranks rise strictly along it |
| Breadcrumb.BuildPath | src/components/Breadcrumb.tsx:16-30 | an unknown id gives an empty path; otherwise the path ends with the folder asked for, each element is the parent named by the next, the first has a falsy or unresolvable parent, and no folder repeats |
| Breadcrumb.AncestorChainUnique | src/components/Breadcrumb.tsx:16-30 | any sequence with those chain properties is exactly what the walk builds |
| Breadcrumb.BuildPathIsTheChain | src/components/Breadcrumb.tsx:16-30 | for a stored folder, a sequence is its breadcrumb path if and only if it is its ancestor chain |
| Breadcrumb.CrumbLabel | src/components/Breadcrumb.tsx:51 | the crumb reads `/root` for the folder with id `root` and the folder's name for any other |
| Breadcrumb.InitialTrail | src/components/Breadcrumb.tsx:16-30 | in a fresh session the parent graph is acyclic and the trail of `root` is the single root folder, labelled `/root` |
| Breadcrumb.NestedTrail | src/components/Breadcrumb.tsx:16-30 | for folder B in folder A in the root, the trail of B is root, A, B |
| NameOrder.LexLeTotal | src/lib/database.ts:87 | any two names are comparable in the sort order |
| NameOrder.LexLeTransitive | src/lib/database.ts:87 | the sort order is transitive |
| NameOrder.LexLeAntisymmetric | src/lib/database.ts:87 | two names that each sort no later than the other are equal |
| NameOrder.InsertBy | src/lib/database.ts:87 | inserting into a name-sorted sequence keeps it sorted and adds exactly that element |
| Database.InitializeDatabase | src/lib/database.ts:4-19 | afterwards a folder `root` exists, created with name `root` and a null parent when it was absent; files and every existing folder are unchanged |
| Database.InitializeIdempotent | src/lib/database.ts:4-19 | a second initialization changes nothing |
| Database.CreateFolder | src/lib/database.ts:26-45 | one new row; its `parentId` is the caller's unchanged, so the `"root"` case of the ternary is the identity; the folder is returned with no children |
| Database.CreateFile | src/lib/database.ts:52-75 | one new row holding the caller's fields, returned as an item |
| Database.CreateFolderListed | src/lib/database.ts:26-88 | a newly created folder, as returned, is among the child folders of the parent it names, which the listing returns |
| Database.ListFolders | src/lib/database.ts:85-103 | the folder rows whose `parentId` is the id, each once, sorted ascending by name |
| Database.ListFiles | src/lib/database.ts:89-113 | the file rows whose `folderId` is the id, each once, sorted ascending by name |
| Database.GetFolderContents | src/lib/database.ts:82-119 | both lists sorted by name, without repeats, holding exactly the matching rows; folders have empty children; an id nothing points at gives two empty lists, not an error |
| Database.PathFrom | src/lib/database.ts:126-143 | the walk from a stored folder returns its chain, and ranks rise strictly along it |
| Database.GetFolderPath | src/lib/database.ts:121-151 | a falsy or unknown id gives an empty list; otherwise the list is root-first, linked by `parentId`, ends with the folder asked for, stops at a falsy or missing parent, and repeats no folder |
| Database.StoreChainUnique | src/lib/database.ts:121-146 | any sequence with those chain properties is exactly what the walk builds |
| Database.GetFolderPathIsTheChain | src/lib/database.ts:121-146 | for a stored id, a sequence is its path if and only if it is its chain |
| Database.GetFileById | src/lib/database.ts:164-186 | null exactly for an absent id; otherwise every field of the row |
| Database.DeleteFile | src/lib/database.ts:153-162 | an absent id fails with the delete error; otherwise only that row is removed |
| Database.DeleteThenLookup | src/lib/database.ts:153-186 | deletion fails exactly when lookup finds nothing, and after a successful deletion lookup finds nothing |
| Database.CreateThenDeleteFile | src/lib/database.ts:52-162 | deleting a newly created file by its id restores the store |
| Database.UploadListDeleteScenario | src/lib/database.ts:4-162 | bootstrap, create folder Docs, add `a.pdf`: Docs lists only that file; after deleting it, Docs lists nothing |
| Database.NestedPathScenario | src/lib/database.ts:121-151 | for folder B in folder A in the root, the path of B is root, A, B |
| FileUtils.Includes | src/lib/fileUtils.ts:17-19 | `includes` is true exactly when the text holds the substring at some position |
| FileUtils.GetFileIcon | src/lib/fileUtils.ts:13-21 | `image/`, `video/` and `audio/` prefixes win, in that order; then `pdf` anywhere, then `text/` anywhere, then `zip` or `rar`; the rest get the page glyph; the result is always one of six glyphs |
| FileUtils.PrefixBeatsSubstring | src/lib/fileUtils.ts:14-17 | `image/x-pdf` shows the picture and `video/x-zip` the camera |
| FileUtils.SubstringRulesInOrder | src/lib/fileUtils.ts:17-18 | `application/pdf` shows the page, and so does `x-text/pdf`, because `pdf` is tried before `text/` |
| UploadRoute.Extension | src/app/api/upload/route.ts:24 | the extension is a suffix with no `.`; when the name has a `.`, the character just before the suffix is that `.`; a name without `.` is its own extension |
| UploadRoute.ExtensionOfJoin | src/app/api/upload/route.ts:24 | the extension of `base.ext` is `ext` whenever `ext` has no `.` |
| UploadRoute.ExtensionEdgeCases | src/app/api/upload/route.ts:24-25 | a name without `.` is its own extension, and a name ending in `.` has the empty one |
| UploadRoute.StoredNameKeepsExtension | src/app/api/upload/route.ts:23-25 | the stored name starts with the generated id and a `.`, and has the original name's extension |
| UploadRoute.Post | src/app/api/upload/route.ts:6-44 | no file gives 400 with nothing written; status 200 exactly when a file came and the write succeeded, writing the bytes under `<id>.<ext>` and answering `/uploads/` plus that name; a file whose write fails gives 500 with nothing written; every non-200 answer carries an error body |
| UploadRoute.FolderIdIgnored | src/app/api/upload/route.ts:10-36 | the outcome does not depend on the form's `folderId`, and no file record is created |
| UploadRoute.UploadPath | src/app/api/upload/route.ts:23-35 | uploading `base.ext` stores `<id>.ext` and answers `/uploads/<id>.ext` |

## Left out

- The React components and their rendering are UI. This covers the file manager, file list, uploader, folder dialogs, folder list and table, and the page, plus the buttons, separators and disabled state of the breadcrumb.
- The file manager's retry and timeout loop depends on timers and component effects.
- HTTP plumbing is framework wiring and byte I/O. This covers `fetch`, multipart parsing (`request.formData()` failing lands in the 500 branch of the endpoint, which is not modelled), `Buffer`/`arrayBuffer`, and the disk `writeFile`/`unlink`. The disk write is reduced to a success flag. A failed write is modelled as writing nothing.
- A form whose `file` field is a plain string rather than a file is not modelled. An empty string is falsy, so the 400 guard refuses it. A non-empty string gets past the guard and then fails in the 500 branch.
- The files, folder and path route handlers are not modelled. They are presence checks and a default of `folderId` to `"root"` around the functions modelled here.
- The delete route handler is not modelled. It checks that the client's `filePath` is present and unlinks that path under `public/`. It never calls the store's `deleteFile`, and nothing in the application calls `Database.DeleteFile` or `Database.GetFileById`.
- The ORM is not modelled as an engine. This covers asynchronous sequencing, `Promise.all`, store failures (every `catch` that logs and rethrows), schema constraints such as foreign keys, and the database collation. Names are compared by character code. Ties between equal names come back in whatever order the listing loop picks.
- `generateId` uses `Math.random`. Ids are parameters. `Database.CreateFolder` and `Database.CreateFile` require the store-generated id to be fresh. The session operations and the upload endpoint accept any id, as the source does. The session lemmas that need fresh ids state that in their requires.
- `formatFileSize` is floating-point `log`, `pow` and `toFixed`.
- Session storage and JSON (de)serialisation are reduced to reading and replacing a value. The server-side `typeof window` branch of `getStoredData` (empty state, saving nothing) is not modelled. A writing operation on an empty slot is modelled as operating on `Load(None, now)`, and its result is what it saves. A read on an empty slot also saves the initial value (src/lib/sessionStore.ts:31). The read functions `SessionStore.GetCurrentFolder`, `SessionStore.GetFolderContents` and `Breadcrumb.BuildPath` return only what they read, so that write is not shown.
- `createdAt` timestamps are opaque values taken from a clock parameter.
- A walk over a cyclic parent graph does not end in the source. The model cannot express non-termination, so both walks require an acyclicity rank.
- Breadcrumb.RankedBy: acyclicity is required of every folder that is the first with its id, not only of those reachable from the folder asked for.
- Database.RankedStore: acyclicity is required of every stored folder, not only of those reachable from the folder asked for.
