/** The object maps of the services' mapper profile, written out as field
    copies. A member the profile ignores, or that has no counterpart in the
    source type, keeps the destination's value (for a new destination, its
    default). */
module MapperProfile {
  import opened DotNet
  import opened Entities

  /** A freshly constructed `DbUser`: every member at its default. */
  const NewDbUser: DbUser := DbUser(EmptyGuid, "", "", None, [], [], None)

  /** `UserCreateRequest -> DbUser`: Name, Email and Mobile. The request's
      Password has no counterpart, so no hash or salt is produced. */
  function CreateRequestToUser(request: UserCreateRequest): (u: DbUser)
    ensures u.name == request.name && u.email == request.email && u.mobile == request.mobile
    ensures u.id == EmptyGuid && u.passwordHash == [] && u.passwordSalt == [] && u.photoUrl.None?
  {
    NewDbUser.(name := request.name, email := request.email, mobile := request.mobile)
  }

  /** `Map(request, user)` with `UserUpdateRequest -> DbUser`: Id, Name, Email
      and Mobile come from the request; PasswordHash, PasswordSalt and PhotoUrl
      are ignored and keep the destination's values. */
  function ApplyUpdate(request: UserUpdateRequest, user: DbUser): (u: DbUser)
    ensures u.id == request.id && u.name == request.name && u.email == request.email && u.mobile == request.mobile
    ensures u.passwordHash == user.passwordHash && u.passwordSalt == user.passwordSalt && u.photoUrl == user.photoUrl
  {
    DbUser(request.id, request.name, request.email, request.mobile, user.passwordHash, user.passwordSalt, user.photoUrl)
  }

  /** `PhotoUrlRequest -> DbUser`: Id and PhotoUrl. */
  function PhotoUrlRequestToUser(request: PhotoUrlRequest): (u: DbUser)
    ensures u.id == request.id && u.photoUrl == Some(request.photoUrl)
    ensures u.name == "" && u.email == "" && u.mobile.None? && u.passwordHash == [] && u.passwordSalt == []
  {
    NewDbUser.(id := request.id, photoUrl := Some(request.photoUrl))
  }

  /** `DbUser -> UserDetailResponse` (the reverse of the registered
      `UserDetailResponse -> DbUser`): every member the response has. */
  function UserToDetail(u: DbUser): (d: UserDetailResponse)
    ensures d.id == u.id && d.name == u.name && d.email == u.email && d.mobile == u.mobile && d.photoUrl == u.photoUrl
  {
    UserDetailResponse(u.id, u.name, u.email, u.mobile, u.photoUrl)
  }

  /** The detail projection never exposes credentials: records that differ
      only in hash and salt project to the same response. */
  lemma DetailHidesCredentials(u: DbUser, hash: Bytes, salt: Bytes)
    ensures UserToDetail(u) == UserToDetail(u.(passwordHash := hash, passwordSalt := salt))
  {
  }

  /** Applying the same update twice changes nothing more. */
  lemma ApplyUpdateIdempotent(request: UserUpdateRequest, user: DbUser)
    ensures ApplyUpdate(request, ApplyUpdate(request, user)) == ApplyUpdate(request, user)
  {
  }

  /** The update map determines the whole record: its result depends on the
      destination only through the three ignored members. */
  lemma ApplyUpdateKeepsOnlyIgnored(request: UserUpdateRequest, a: DbUser, b: DbUser)
    requires a.passwordHash == b.passwordHash && a.passwordSalt == b.passwordSalt && a.photoUrl == b.photoUrl
    ensures ApplyUpdate(request, a) == ApplyUpdate(request, b)
  {
  }

  /** What a caller sees after an update: the request's profile fields and the
      photo the record already had. */
  lemma DetailAfterUpdate(request: UserUpdateRequest, user: DbUser)
    ensures UserToDetail(ApplyUpdate(request, user))
         == UserDetailResponse(request.id, request.name, request.email, request.mobile, user.photoUrl)
  {
  }
}
