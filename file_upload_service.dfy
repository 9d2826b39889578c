/** The `FileResponse` that `FileUploadService.UploadFileLocalyAndGetUrl`
    builds for an uploaded file: where the file goes and under which name. */
module FileUpload {
  import opened DotNet
  import opened Entities

  const UploadRoot: string := "/File_Storage/Uploads/"

  /** The folder used when the caller names none. */
  const DefaultDirectory: string := "Others"

  /** The members of `FileResponse` the upload sets (a string member that is
      never set is null). */
  datatype FileResponse = FileResponse(
    fileName: Option<string>,
    filePath: Option<string>,
    fileType: Option<string>,
    fileSizeInByte: int)

  /** `new FileResponse()`. */
  const EmptyFileResponse: FileResponse := FileResponse(None, None, None, 0)

  /** The destination folder: the upload root, then the lower-cased folder
      name, or "others" when none is given. */
  function Destination(directoryName: Option<string>): string {
    UploadRoot + ToLower(if directoryName.None? then DefaultDirectory else directoryName.value) + "/"
  }

  /** The stored file name: the new Guid's text, '_' and the original name. */
  function StoredFileName(newGuid: Guid, original: string): (name: string)
    ensures |name| == 37 + |original| && name[36] == '_'
    ensures name[..36] == GuidToString(newGuid) && name[37..] == original
  {
    GuidToString(newGuid) + "_" + original
  }

  /** What the upload returns for `file`, `directoryName` and the Guid the
      upload draws. */
  function Upload(file: Option<FormFile>, directoryName: Option<string>, newGuid: Guid): (r: FileResponse)
    ensures file.None? ==> r == EmptyFileResponse
    ensures file.Some? ==>
      && r.fileName == Some(StoredFileName(newGuid, file.value.fileName))
      && r.filePath == Some(Destination(directoryName) + r.fileName.value)
      && r.fileType == Some(GetExtension(file.value.fileName))
      && r.fileSizeInByte == file.value.length
  {
    if file.None? then EmptyFileResponse
    else
      var name := StoredFileName(newGuid, file.value.fileName);
      FileResponse(Some(name), Some(Destination(directoryName) + name), Some(GetExtension(file.value.fileName)), file.value.length)
  }

  /** `UploadFileLocalyAndGetUrl`, without the directory creation and the file
      write: the response is filled in member by member. */
  method UploadFileLocalyAndGetUrl(file: Option<FormFile>, directoryName: Option<string>, newGuid: Guid)
    returns (response: FileResponse)
    ensures response == Upload(file, directoryName, newGuid)
  {
    response := EmptyFileResponse;
    if file.Some? {
      var folder := if directoryName.None? then DefaultDirectory else directoryName.value;
      var ftpDestination := UploadRoot + ToLower(folder) + "/";
      var fileName := GuidToString(newGuid) + "_" + file.value.fileName;
      response := response.(fileName := Some(fileName));
      response := response.(filePath := Some(ftpDestination + fileName));
      response := response.(fileType := Some(GetExtension(file.value.fileName)));
      response := response.(fileSizeInByte := file.value.length);
    }
  }

  /** The path is the upload root, one lower-case folder, and the stored file
      name, so it ends with that name. */
  lemma {:induction false} FilePathShape(file: FormFile, directoryName: Option<string>, newGuid: Guid)
    ensures var r := Upload(Some(file), directoryName, newGuid);
      && StartsWith(r.filePath.value, UploadRoot)
      && EndsWith(r.filePath.value, r.fileName.value)
      && EndsWith(r.filePath.value, "_" + file.fileName)
  {
    var lowered := ToLower(if directoryName.None? then DefaultDirectory else directoryName.value);
    var name := StoredFileName(newGuid, file.fileName);
    assert name == GuidToString(newGuid) + "_" + file.fileName;
    assert Upload(Some(file), directoryName, newGuid).filePath.value == UploadRoot + lowered + "/" + name;
    PathShape(UploadRoot, lowered, GuidToString(newGuid), file.fileName);
  }

  /** The shape of `root + folder + "/" + prefix + "_" + original`. */
  lemma PathShape(root: string, folder: string, prefix: string, original: string)
    ensures var name := prefix + "_" + original;
      && StartsWith(root + folder + "/" + name, root)
      && EndsWith(root + folder + "/" + name, name)
      && EndsWith(root + folder + "/" + name, "_" + original)
  {
    var name := prefix + "_" + original;
    var tail := "_" + original;
    Concatenation(root, folder);
    StartsWithKept(root + folder, "/", root);
    StartsWithKept(root + folder + "/", name, root);
    Concatenation(root + folder + "/", name);
    assert name == prefix + tail;
    Concatenation(prefix, tail);
    EndsWithKept(root + folder + "/", name, tail);
  }

  /** A concatenation starts with its first part and ends with its second. */
  lemma Concatenation(a: string, b: string)
    ensures StartsWith(a + b, a) && EndsWith(a + b, b)
  {
    assert (a + b)[..|a|] == a;
    assert (a + b)[|a|..] == b;
  }

  lemma StartsWithKept(s: string, t: string, prefix: string)
    requires StartsWith(s, prefix)
    ensures StartsWith(s + t, prefix)
  {
    assert (s + t)[..|prefix|] == s[..|prefix|];
  }

  lemma EndsWithKept(s: string, t: string, suffix: string)
    requires EndsWith(t, suffix)
    ensures EndsWith(s + t, suffix)
  {
    assert (s + t)[|s + t| - |suffix|..] == t[|t| - |suffix|..];
  }

  /** The stored file name gives back both the original name and the Guid. */
  lemma StoredFileNameRoundTrip(newGuid: Guid, original: string)
    ensures StoredFileName(newGuid, original)[37..] == original
    ensures ParseGuid(StoredFileName(newGuid, original)[..36]) == newGuid
  {
    GuidTextRoundTrip(newGuid);
  }

  /** Two uploads under different Guids never share a stored name. */
  lemma DistinctGuidsDistinctNames(g: Guid, h: Guid, a: string, b: string)
    requires g != h
    ensures StoredFileName(g, a) != StoredFileName(h, b)
  {
    if StoredFileName(g, a) == StoredFileName(h, b) {
      assert GuidToString(g) == StoredFileName(g, a)[..36];
      GuidToStringInjective(g, h);
    }
  }

  /** Naming no folder is naming "Others". */
  lemma DirectoryDefaultsToOthers(file: Option<FormFile>, newGuid: Guid)
    ensures Upload(file, None, newGuid) == Upload(file, Some(DefaultDirectory), newGuid)
  {
  }

  /** The folder the photo endpoint names, "Users", is lower-cased: photos go
      under "/File_Storage/Uploads/users/". */
  lemma UsersFolder()
    ensures Destination(Some("Users")) == "/File_Storage/Uploads/users/"
  {
    var lowered := ToLower("Users");
    assert lowered[0] == 'u' && lowered[1] == 's' && lowered[2] == 'e' && lowered[3] == 'r' && lowered[4] == 's';
    assert lowered == "users";
  }
}
