/** `UsersController`: each endpoint checks its input, calls the user service
    (and, for the photo, the upload), and turns the outcome into a status and
    an envelope. The service calls and the upload are parameters. */
module UsersController {
  import opened DotNet
  import opened Entities
  import opened Responses
  import opened FileUpload

  const UsersFetchedText: string := "Users fetched successfully"
  const UserFetchedText: string := "User fetched successfully"
  const NullRequestText: string := "Request cannot be null request"
  const CreateFailedText: string := "User create request fail with provided values"
  const CreatedText: string := "User created successfully"
  const UpdateFailedText: string := "User update request fail with provided values"
  const UpdatedText: string := "User updated successfully"
  const NullAttachmentText: string := "Attached file cannot be null"
  const PhotoUpdatedText: string := "Photo updated successfully"
  const DeletedText: string := "User deleted successfully"

  /** The folder name `UploadFolder.Users.ToString()`. */
  const UsersFolderName: string := "Users"

  /** The error the endpoint throws itself when the upload gives no path. */
  const UploadFailed: Exception := PlainException("Photo upload failed")

  function InvalidIdText(id: Guid): string {
    "User ID " + GuidToString(id) + " not valid."
  }

  function NotFoundText(id: Guid): string {
    "User not found with ID: " + GuidToString(id)
  }

  function DeleteFailedText(id: Guid): string {
    "User delete request fail with id " + GuidToString(id)
  }

  function BadRequest<T>(text: string): (reply: Reply<T>)
    ensures reply.status == Status400BadRequest && WellFormedReply(reply)
  {
    Reply(Status400BadRequest, Envelope(Fail(text)))
  }

  /** The reply to a service outcome carrying a user: a thrown error is a
      500, null is `nullStatus` with `nullText`, and a user is a 200 `Ok`
      carrying it. */
  function DetailReply(outcome: Outcome<Option<UserDetailResponse>>, nullStatus: int, nullText: string, okText: string)
    : (reply: Reply<UserDetailResponse>)
    requires nullStatus in {Status400BadRequest, Status404NotFound}
    ensures WellFormedReply(reply) && reply.body.Envelope?
    ensures reply.status == Status200OK <==> outcome.Normal? && outcome.value.Some?
    ensures reply.status == Status200OK ==> reply.body.response == Ok(outcome.value.value, Some(okText))
    ensures outcome.Thrown? ==> reply == ServerError(outcome.error)
    ensures outcome == Normal(None) ==> reply == Reply(nullStatus, Envelope(Fail(nullText)))
  {
    match outcome
    case Thrown(e) => ServerError(e)
    case Normal(None) => Reply(nullStatus, Envelope(Fail(nullText)))
    case Normal(Some(d)) => Reply(Status200OK, Envelope(Ok(d, Some(okText))))
  }

  /** `GetUsersAsync`: 200 with every user, or 500 when the service throws. */
  function GetUsers(outcome: Outcome<seq<UserDetailResponse>>): (reply: Reply<seq<UserDetailResponse>>)
    ensures WellFormedReply(reply)
    ensures reply.status == Status200OK <==> outcome.Normal?
    ensures outcome.Normal? ==> reply.body == Envelope(Ok(outcome.value, Some(UsersFetchedText)))
    ensures outcome.Thrown? ==> reply == ServerError(outcome.error)
  {
    match outcome
    case Thrown(e) => ServerError(e)
    case Normal(users) => Reply(Status200OK, Envelope(Ok(users, Some(UsersFetchedText))))
  }

  /** `GetUserByIdAsync`: an empty id is a 400 and the service is not called;
      a user that is not there is a 404. */
  function GetUserById(id: Guid, service: Guid -> Outcome<Option<UserDetailResponse>>): (reply: Reply<UserDetailResponse>)
    ensures WellFormedReply(reply)
    ensures id == EmptyGuid ==> reply == BadRequest(InvalidIdText(id))
    ensures id != EmptyGuid ==> reply == DetailReply(service(id), Status404NotFound, NotFoundText(id), UserFetchedText)
    ensures reply.status == Status404NotFound <==> id != EmptyGuid && service(id) == Normal(None)
  {
    if id == EmptyGuid then BadRequest(InvalidIdText(id))
    else DetailReply(service(id), Status404NotFound, NotFoundText(id), UserFetchedText)
  }

  /** `AddUserAsync`: a null request is a 400 and the service is not called;
      a null result is a 400 as well. */
  function AddUser(request: Option<UserCreateRequest>, service: UserCreateRequest -> Outcome<Option<UserDetailResponse>>)
    : (reply: Reply<UserDetailResponse>)
    ensures WellFormedReply(reply)
    ensures request.None? ==> reply == BadRequest(NullRequestText)
    ensures request.Some? ==> reply == DetailReply(service(request.value), Status400BadRequest, CreateFailedText, CreatedText)
  {
    if request.None? then BadRequest(NullRequestText)
    else DetailReply(service(request.value), Status400BadRequest, CreateFailedText, CreatedText)
  }

  /** `UpdateUserAsync`: a null request or an empty id is a 400 and the
      service is not called. */
  function UpdateUser(request: Option<UserUpdateRequest>, service: UserUpdateRequest -> Outcome<Option<UserDetailResponse>>)
    : (reply: Reply<UserDetailResponse>)
    ensures WellFormedReply(reply)
    ensures request.None? ==> reply == BadRequest(NullRequestText)
    ensures request.Some? && request.value.id == EmptyGuid ==> reply == BadRequest(InvalidIdText(request.value.id))
    ensures request.Some? && request.value.id != EmptyGuid ==>
      reply == DetailReply(service(request.value), Status400BadRequest, UpdateFailedText, UpdatedText)
  {
    if request.None? then BadRequest(NullRequestText)
    else if request.value.id == EmptyGuid then BadRequest(InvalidIdText(request.value.id))
    else DetailReply(service(request.value), Status400BadRequest, UpdateFailedText, UpdatedText)
  }

  /** The photo url request the endpoint builds from an upload: the same id,
      and the uploaded file's path, when the upload gave one. */
  function PhotoUrlFromUpload(id: Guid, upload: Outcome<Option<FileResponse>>): (r: Outcome<PhotoUrlRequest>)
    ensures r.Normal? <==> upload.Normal? && upload.value.Some? && !IsNullOrEmpty(upload.value.value.filePath)
    ensures r.Normal? ==> r.value == PhotoUrlRequest(id, upload.value.value.filePath.value)
    ensures upload.Thrown? ==> r == Thrown(upload.error)
    ensures upload.Normal? && !r.Normal? ==> r == Thrown(UploadFailed)
  {
    match upload
    case Thrown(e) => Thrown(e)
    case Normal(response) =>
      if response.None? || IsNullOrEmpty(response.value.filePath) then Thrown(UploadFailed)
      else Normal(PhotoUrlRequest(id, response.value.filePath.value))
  }

  /** `PhotoUrlUpdateAsync`: a null request, an empty id or a missing
      attachment is a 400 before anything is uploaded; an upload that throws
      or gives no path is a 500; otherwise the uploaded path becomes the photo
      url of the same user. */
  function PhotoUrlUpdate(request: Option<PhotoChangeRequest>,
                          upload: (Option<FormFile>, Option<string>) -> Outcome<Option<FileResponse>>,
                          service: PhotoUrlRequest -> Outcome<Option<UserDetailResponse>>)
    : (reply: Reply<UserDetailResponse>)
    ensures WellFormedReply(reply)
    ensures request.None? ==> reply == BadRequest(NullRequestText)
    ensures request.Some? && request.value.id == EmptyGuid ==> reply == BadRequest(InvalidIdText(request.value.id))
    ensures request.Some? && request.value.id != EmptyGuid && request.value.attachment.None? ==>
      reply == BadRequest(NullAttachmentText)
    ensures request.Some? && request.value.id != EmptyGuid && request.value.attachment.Some? ==>
      var sent := PhotoUrlFromUpload(request.value.id, upload(request.value.attachment, Some(UsersFolderName)));
      && (sent.Thrown? ==> reply == ServerError(sent.error))
      && (sent.Normal? ==> reply == DetailReply(service(sent.value), Status400BadRequest, UpdateFailedText, PhotoUpdatedText))
  {
    if request.None? then BadRequest(NullRequestText)
    else if request.value.id == EmptyGuid then BadRequest(InvalidIdText(request.value.id))
    else if request.value.attachment.None? then BadRequest(NullAttachmentText)
    else
      match PhotoUrlFromUpload(request.value.id, upload(request.value.attachment, Some(UsersFolderName)))
      case Thrown(e) => ServerError(e)
      case Normal(photoUrlRequest) =>
        DetailReply(service(photoUrlRequest), Status400BadRequest, UpdateFailedText, PhotoUpdatedText)
  }

  /** `DeleteUserAsync`: an empty id is a 400 and the service is not called;
      false is a 400; true is a 200 `Ok(true)`. */
  function DeleteUser(id: Guid, service: Guid -> Outcome<bool>): (reply: Reply<bool>)
    ensures WellFormedReply(reply)
    ensures id == EmptyGuid ==> reply == BadRequest(InvalidIdText(id))
    ensures id != EmptyGuid && service(id).Thrown? ==> reply == ServerError(service(id).error)
    ensures id != EmptyGuid && service(id) == Normal(false) ==> reply == BadRequest(DeleteFailedText(id))
    ensures reply.status == Status200OK <==> id != EmptyGuid && service(id) == Normal(true)
    ensures reply.status == Status200OK ==> reply.body == Envelope(Ok(true, Some(DeletedText)))
  {
    if id == EmptyGuid then BadRequest(InvalidIdText(id))
    else
      match service(id)
      case Thrown(e) => ServerError(e)
      case Normal(false) => BadRequest(DeleteFailedText(id))
      case Normal(true) => Reply(Status200OK, Envelope(Ok(true, Some(DeletedText))))
  }

  /** With the upload of `FileUploadService` (drawing the Guid `g`), the photo
      url the service receives is the file's place under the "users" folder. */
  lemma {:induction false} PhotoStoredUnderUsersFolder(id: Guid, file: FormFile, g: Guid)
    requires id != EmptyGuid
    ensures PhotoUrlFromUpload(id, Normal(Some(Upload(Some(file), Some(UsersFolderName), g))))
         == Normal(PhotoUrlRequest(id, "/File_Storage/Uploads/users/" + GuidToString(g) + "_" + file.fileName))
  {
    var path := UsersUploadPath(file, g);
    assert !IsNullOrEmpty(Some(path));
  }

  /** The path the upload gives a file stored in the users folder. */
  lemma UsersUploadPath(file: FormFile, g: Guid) returns (path: string)
    ensures path == "/File_Storage/Uploads/users/" + GuidToString(g) + "_" + file.fileName
    ensures Upload(Some(file), Some(UsersFolderName), g).filePath == Some(path)
  {
    UsersFolder();
    var name := StoredFileName(g, file.fileName);
    path := "/File_Storage/Uploads/users/" + name;
    assert name == GuidToString(g) + "_" + file.fileName;
  }

  /** A delete service that never answers false, such as the one of
      `UserService`, never gets a 400 for a valid id: the `false` branch is
      unreachable. */
  lemma DeleteBadRequestOnlyForEmptyId(id: Guid, service: Guid -> Outcome<bool>)
    requires service(id) != Normal(false)
    ensures DeleteUser(id, service).status == Status400BadRequest ==> id == EmptyGuid
  {
  }

  /** Every check that fails is answered before the service is consulted. */
  lemma PhotoGuardsPrecedeUpload(request: Option<PhotoChangeRequest>,
                                 u1: (Option<FormFile>, Option<string>) -> Outcome<Option<FileResponse>>,
                                 u2: (Option<FormFile>, Option<string>) -> Outcome<Option<FileResponse>>,
                                 s1: PhotoUrlRequest -> Outcome<Option<UserDetailResponse>>,
                                 s2: PhotoUrlRequest -> Outcome<Option<UserDetailResponse>>)
    requires request.None? || request.value.id == EmptyGuid || request.value.attachment.None?
    ensures PhotoUrlUpdate(request, u1, s1) == PhotoUrlUpdate(request, u2, s2)
    ensures PhotoUrlUpdate(request, u1, s1).status == Status400BadRequest
  {
  }
}
