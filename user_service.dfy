/** `UserService`: the user operations, validated and mapped around the
    repository. Every operation that writes loads the stored record first,
    changes it, and stores it back. */
module Users {
  import opened DotNet
  import opened Entities
  import opened PasswordHelper
  import opened MapperProfile
  import opened Repositories

  const NullRequestError: Exception := ArgumentNullException("User information cannot be null request")
  const EmptyPhotoUrlError: Exception := ArgumentNullException("User photo url cannot be empty")

  function UserNotFound(id: Guid): Exception {
    KeyNotFoundException("User with ID " + GuidToString(id) + " was not found.")
  }

  /** `Map<UserDetailResponse>` applied to a repository outcome: a thrown
      error passes through, null stays null. */
  function DetailOutcome(o: Outcome<Option<DbUser>>): (d: Outcome<Option<UserDetailResponse>>)
    ensures o.Thrown? <==> d.Thrown?
    ensures o.Thrown? ==> d.error == o.error
    ensures o.Normal? ==> (o.value.None? <==> d.value.None?)
    ensures o.Normal? && o.value.Some? ==> d.value.value == UserToDetail(o.value.value)
  {
    match o
    case Thrown(e) => Thrown(e)
    case Normal(None) => Normal(None)
    case Normal(Some(u)) => Normal(Some(UserToDetail(u)))
  }

  /** The record `AddUserAsync` hands to the store: the create map of the
      request with the hash and salt of its password. */
  function NewUserRecord(crypto: Crypto, request: UserCreateRequest, freshKey: Bytes): (u: DbUser)
    requires |freshKey| == KeySize
    ensures u.id == EmptyGuid && u.name == request.name && u.email == request.email && u.mobile == request.mobile
    ensures u.photoUrl.None? && u.passwordSalt == freshKey
    ensures VerifyPassword(crypto, request.password, u.passwordHash, u.passwordSalt)
  {
    var hs := CreatePasswordHash(crypto, request.password, freshKey);
    CreateRequestToUser(request).(passwordSalt := hs.salt, passwordHash := hs.hash)
  }

  class UserService {
    const repository: UserRepository

    constructor (repository: UserRepository)
      ensures this.repository == repository
    {
      this.repository := repository;
    }

    /** `GetUsersAsync`: the detail projection of every stored record, once each. */
    method GetUsers() returns (details: seq<UserDetailResponse>)
      requires repository.Valid()
      ensures |details| == |repository.users|
      ensures forall i :: 0 <= i < |details| ==>
        details[i].id in repository.users && details[i] == UserToDetail(repository.users[details[i].id])
      ensures forall i, j :: 0 <= i < j < |details| ==> details[i].id != details[j].id
      ensures forall id :: id in repository.users ==> exists i :: 0 <= i < |details| && details[i].id == id
    {
      var rows := repository.GetUsers();
      details := seq(|rows|, i requires 0 <= i < |rows| => UserToDetail(rows[i]));
      assert forall id :: id in repository.users ==> exists i :: 0 <= i < |rows| && rows[i].id == id;
      forall id | id in repository.users
        ensures exists i :: 0 <= i < |details| && details[i].id == id
      {
        var i :| 0 <= i < |rows| && rows[i].id == id;
        assert details[i].id == id;
      }
    }

    /** `GetUserByIdAsync`: an empty id is refused before the store is asked;
        otherwise the projection of the stored record, or null. */
    method GetUserById(id: Guid) returns (r: Outcome<Option<UserDetailResponse>>)
      ensures id == EmptyGuid ==> r == Thrown(EmptyIdError)
      ensures id != EmptyGuid && id in repository.users ==> r == Normal(Some(UserToDetail(repository.users[id])))
      ensures id != EmptyGuid && id !in repository.users ==> r == Normal(None)
    {
      if id == EmptyGuid {
        return Thrown(EmptyIdError);
      }
      var result := repository.GetUserById(id);
      r := DetailOutcome(result);
    }

    /** `AddUserAsync`: a null request is refused; otherwise one record is
        added under the generated key, holding the request's profile and the
        hash and salt of its password, and its projection is returned. */
    method AddUser(request: Option<UserCreateRequest>, crypto: Crypto, freshKey: Bytes, generatedId: Guid)
      returns (r: Outcome<Option<UserDetailResponse>>)
      requires repository.Valid()
      requires |freshKey| == KeySize && generatedId != EmptyGuid
      modifies repository
      ensures repository.Valid()
      ensures request.None? ==> r == Thrown(NullRequestError) && repository.users == old(repository.users)
      ensures request.Some? && generatedId in old(repository.users) ==>
        r == Thrown(DuplicateKey) && repository.users == old(repository.users)
      ensures request.Some? && generatedId !in old(repository.users) ==>
        && repository.users == old(repository.users)[generatedId := NewUserRecord(crypto, request.value, freshKey).(id := generatedId)]
        && VerifyPassword(crypto, request.value.password, repository.users[generatedId].passwordHash, repository.users[generatedId].passwordSalt)
        && r == Normal(Some(UserToDetail(repository.users[generatedId])))
    {
      if request.None? {
        return Thrown(NullRequestError);
      }
      var user := CreateRequestToUser(request.value);
      var hs := CreatePasswordHash(crypto, request.value.password, freshKey);
      user := user.(passwordSalt := hs.salt);
      user := user.(passwordHash := hs.hash);
      var result := repository.AddUser(Some(user), generatedId);
      r := DetailOutcome(result);
    }

    /** `UpdateUserAsync`: a null request is refused; the stored record is
        loaded (a missing one is a KeyNotFound error and nothing is written),
        the request is laid over it through the update map, and it is stored
        back. Hash, salt and photo are never touched. */
    method UpdateUser(request: Option<UserUpdateRequest>) returns (r: Outcome<Option<UserDetailResponse>>)
      requires repository.Valid()
      modifies repository
      ensures repository.Valid()
      ensures request.None? ==> r == Thrown(NullRequestError) && repository.users == old(repository.users)
      ensures request.Some? && request.value.id == EmptyGuid ==>
        r == Thrown(EmptyIdError) && repository.users == old(repository.users)
      ensures request.Some? && request.value.id != EmptyGuid && request.value.id !in old(repository.users) ==>
        r == Thrown(UserNotFound(request.value.id)) && repository.users == old(repository.users)
      ensures request.Some? && request.value.id in old(repository.users) ==>
        var id := request.value.id;
        && repository.users == old(repository.users)[id := ApplyUpdate(request.value, old(repository.users)[id])]
        && repository.users[id].passwordHash == old(repository.users)[id].passwordHash
        && repository.users[id].passwordSalt == old(repository.users)[id].passwordSalt
        && repository.users[id].photoUrl == old(repository.users)[id].photoUrl
        && r == Normal(Some(UserToDetail(repository.users[id])))
    {
      if request.None? {
        return Thrown(NullRequestError);
      }
      var userInfo := repository.GetUserById(request.value.id);
      if userInfo.Thrown? {
        return Thrown(userInfo.error);
      }
      if userInfo.value.None? {
        return Thrown(UserNotFound(request.value.id));
      }
      var updated := ApplyUpdate(request.value, userInfo.value.value);
      var result := repository.UpdateUser(Some(updated));
      r := DetailOutcome(result);
    }

    /** `PhotoUrlUpdateAsync`: a null request or an empty url is refused before
        the lookup; a missing user is a KeyNotFound error; otherwise only the
        stored record's PhotoUrl changes. */
    method PhotoUrlUpdate(request: Option<PhotoUrlRequest>) returns (r: Outcome<Option<UserDetailResponse>>)
      requires repository.Valid()
      modifies repository
      ensures repository.Valid()
      ensures request.None? ==> r == Thrown(NullRequestError) && repository.users == old(repository.users)
      ensures request.Some? && request.value.photoUrl == "" ==>
        r == Thrown(EmptyPhotoUrlError) && repository.users == old(repository.users)
      ensures request.Some? && request.value.photoUrl != "" && request.value.id == EmptyGuid ==>
        r == Thrown(EmptyIdError) && repository.users == old(repository.users)
      ensures request.Some? && request.value.photoUrl != "" && request.value.id != EmptyGuid && request.value.id !in old(repository.users) ==>
        r == Thrown(UserNotFound(request.value.id)) && repository.users == old(repository.users)
      ensures request.Some? && request.value.photoUrl != "" && request.value.id in old(repository.users) ==>
        var id := request.value.id;
        && repository.users == old(repository.users)[id := old(repository.users)[id].(photoUrl := Some(request.value.photoUrl))]
        && r == Normal(Some(UserToDetail(repository.users[id])))
    {
      if request.None? {
        return Thrown(NullRequestError);
      }
      if IsNullOrEmpty(Some(request.value.photoUrl)) {
        return Thrown(EmptyPhotoUrlError);
      }
      var userInfo := repository.GetUserById(request.value.id);
      if userInfo.Thrown? {
        return Thrown(userInfo.error);
      }
      if userInfo.value.None? {
        return Thrown(UserNotFound(request.value.id));
      }
      var updated := userInfo.value.value.(photoUrl := Some(request.value.photoUrl));
      var result := repository.UpdateUser(Some(updated));
      r := DetailOutcome(result);
    }

    /** `DeleteUserAsync`: an empty id is refused before the store is asked;
        otherwise the repository's delete, whose result is passed on. */
    method DeleteUser(id: Guid) returns (r: Outcome<bool>)
      requires repository.Valid()
      modifies repository
      ensures repository.Valid()
      ensures id == EmptyGuid ==> r == Thrown(EmptyIdError) && repository.users == old(repository.users)
      ensures id != EmptyGuid && id !in old(repository.users) ==>
        r == Thrown(KeyNotFoundException(NotFoundMessage(id))) && repository.users == old(repository.users)
      ensures id != EmptyGuid && id in old(repository.users) ==>
        r == Normal(true) && repository.users == old(repository.users) - {id}
    {
      if id == EmptyGuid {
        return Thrown(EmptyIdError);
      }
      r := repository.DeleteUser(id);
    }
  }
}
