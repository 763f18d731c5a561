/**
  The record types shared by the session store, the relational store, the
  breadcrumb walk and the listing: a file, a folder, and the pair of lists a
  listing returns. The `type: "file" | "folder"` discriminant of the source
  records is carried by the Dafny type itself.
 */
module Types {

  /** `T | null` of the source. */
  datatype Option<T> = None | Some(value: T)

  /** JavaScript truthiness of a `string | null`: both `null` and `""` are falsy. */
  predicate Truthy(s: Option<string>) {
    s.Some? && s.value != ""
  }

  /** The id (and name) of the folder every tree starts from. */
  const RootId: string := "root"

  /** A creation timestamp. Nothing in the model inspects it. */
  datatype Instant = Instant(millis: int)

  datatype FileItem = FileItem(
    id: string,
    name: string,
    size: nat,
    mimeType: string,
    folderId: string,
    createdAt: Instant,
    path: string)

  datatype FolderItem = FolderItem(
    id: string,
    name: string,
    parentId: Option<string>,
    createdAt: Instant,
    children: seq<string>)

  /** The `{ files, folders }` pair a listing returns. */
  datatype Contents = Contents(files: seq<FileItem>, folders: seq<FolderItem>)
}
