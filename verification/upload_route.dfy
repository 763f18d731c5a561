/**
  The upload endpoint: it takes the multipart form, refuses a request without a
  file, and writes the bytes under a fresh name made of a generated id and the
  original name's extension, answering with the public path of that name. The
  id generator and the outcome of the disk write are parameters.
 */
module UploadRoute {
  import opened Types

  type Byte = bv8

  datatype UploadedFile = UploadedFile(name: string, bytes: seq<Byte>)

  /** The form fields the endpoint reads. */
  datatype FormData = FormData(file: Option<UploadedFile>, folderId: Option<string>)

  datatype Body = ErrorBody(error: string) | UploadedBody(message: string, filePath: string)

  datatype Response = Response(status: nat, body: Body)

  /** A file written into the uploads directory. */
  datatype Write = Write(filename: string, bytes: seq<Byte>)

  /** What the endpoint answers, and what it wrote. */
  datatype Outcome = Outcome(response: Response, written: Option<Write>)

  const UploadsPrefix: string := "/uploads/"

  /** `name.split(".").pop()`: the text after the last `"."`, or the whole name when it has none. */
  function Extension(name: string): (ext: string)
    ensures '.' !in ext
    ensures |ext| <= |name| && ext == name[|name| - |ext|..]
    ensures '.' in name ==> |ext| < |name| && name[|name| - |ext| - 1] == '.'
    ensures '.' !in name ==> ext == name
    decreases |name|
  {
    if |name| == 0 then ""
    else if name[|name| - 1] == '.' then ""
    else
      var init := name[..|name| - 1];
      assert name == init + [name[|name| - 1]];
      Extension(init) + [name[|name| - 1]]
  }

  /** An extension that holds no `"."` is recovered from any name ending in `"."` followed by it. */
  lemma {:induction false} ExtensionOfJoin(base: string, ext: string)
    requires '.' !in ext
    ensures Extension(base + "." + ext) == ext
    decreases |ext|
  {
    var name := base + "." + ext;
    if ext != [] {
      var init := ext[..|ext| - 1];
      assert name[..|name| - 1] == base + "." + init;
      ExtensionOfJoin(base, init);
      assert ext == init + [ext[|ext| - 1]];
    }
  }

  /** The name the bytes are stored under: `<id>.<extension>`. */
  function StoredName(generatedId: string, originalName: string): string {
    generatedId + "." + Extension(originalName)
  }

  /** The stored name begins with the generated id and keeps the original extension. */
  lemma StoredNameKeepsExtension(generatedId: string, originalName: string)
    ensures generatedId + "." <= StoredName(generatedId, originalName)
    ensures Extension(StoredName(generatedId, originalName)) == Extension(originalName)
  {
    ExtensionOfJoin(generatedId, Extension(originalName));
  }

  /**
    `POST /api/upload`: no file gives 400 and writes nothing; otherwise the bytes
    go to `<id>.<extension>` and the answer is `/uploads/` followed by that name;
    a failed write gives 500. The form's `folderId` is read and never used, and
    no file record is created.
   */
  function Post(form: FormData, generatedId: string, writeSucceeds: bool): (o: Outcome)
    ensures form.file.None? ==> o.response.status == 400 && o.written.None?
    ensures o.response.status == 200 <==> form.file.Some? && writeSucceeds
    ensures o.response.status != 200 ==> o.written.None? && o.response.body.ErrorBody?
    ensures form.file.Some? && !writeSucceeds ==> o.response.status == 500 && o.written.None?
    ensures o.response.status == 200 ==>
      && o.written == Some(Write(StoredName(generatedId, form.file.value.name), form.file.value.bytes))
      && o.response.body.UploadedBody?
      && o.response.body.filePath == UploadsPrefix + o.written.value.filename
  {
    match form.file
    case None => Outcome(Response(400, ErrorBody("No file received")), None)
    case Some(file) =>
      var filename := StoredName(generatedId, file.name);
      if writeSucceeds then
        Outcome(Response(200, UploadedBody("File uploaded successfully", UploadsPrefix + filename)), Some(Write(filename, file.bytes)))
      else
        Outcome(Response(500, ErrorBody("Failed to upload file")), None)
  }

  /** The outcome does not depend on the folder the form names. */
  lemma FolderIdIgnored(form: FormData, other: Option<string>, generatedId: string, writeSucceeds: bool)
    ensures Post(form, generatedId, writeSucceeds) == Post(form.(folderId := other), generatedId, writeSucceeds)
  {
  }

  /**
    Uploading `<base>.<ext>` (with no `"."` in `ext`, whatever `base` holds) stores
    `<id>.<ext>` and answers `/uploads/<id>.<ext>`.
   */
  lemma UploadPath(base: string, ext: string, bytes: seq<Byte>, folderId: Option<string>, generatedId: string)
    requires '.' !in ext
    ensures
      var o := Post(FormData(Some(UploadedFile(base + "." + ext, bytes)), folderId), generatedId, true);
      && o.written == Some(Write(generatedId + "." + ext, bytes))
      && o.response == Response(200, UploadedBody("File uploaded successfully", "/uploads/" + generatedId + "." + ext))
  {
    ExtensionOfJoin(base, ext);
    assert UploadsPrefix + (generatedId + "." + ext) == "/uploads/" + generatedId + "." + ext;
  }

  /** A name without `"."` is its own extension; one ending in `"."` has the empty extension. */
  lemma ExtensionEdgeCases(name: string)
    ensures '.' !in name ==> Extension(name) == name
    ensures |name| > 0 && name[|name| - 1] == '.' ==> Extension(name) == ""
  {
  }
}
