/** Version 2 `AuthService`: the same sign-up, except that the request's name
    is kept and only the mobile is blanked. */
module SecurityV2 {
  import opened DotNet
  import opened Entities
  import opened PasswordHelper
  import opened MapperProfile
  import opened Repositories
  import Security

  /** `Map<DbUser>(SignUpRequest)` for the version 2 request: name and email. */
  function SignUpToUser(request: SignUpRequestV2): (u: DbUser)
    ensures u.name == request.name && u.email == request.email && u.id == EmptyGuid && u.mobile.None?
    ensures u.passwordHash == [] && u.passwordSalt == [] && u.photoUrl.None?
  {
    NewDbUser.(name := request.name, email := request.email)
  }

  /** The record the version 2 sign-up stores under `id`: the request's name
      and email, an empty mobile, no photo, and the hash and salt of the
      request's password. */
  function SignUpRecord(crypto: Crypto, request: SignUpRequestV2, freshKey: Bytes, id: Guid): (u: DbUser)
    requires |freshKey| == KeySize
    ensures u.id == id && u.name == request.name && u.email == request.email && u.mobile == Some("") && u.photoUrl.None?
    ensures u.passwordSalt == freshKey
    ensures VerifyPassword(crypto, request.password, u.passwordHash, u.passwordSalt)
  {
    var hs := CreatePasswordHash(crypto, request.password, freshKey);
    SignUpToUser(request).(id := id, passwordSalt := hs.salt, passwordHash := hs.hash, mobile := Some(""))
  }

  /** The two versions store the same record except for the name: version 1
      blanks it, version 2 keeps the request's. */
  lemma VersionsDifferOnlyInName(crypto: Crypto, request: SignUpRequestV2, freshKey: Bytes, id: Guid)
    requires |freshKey| == KeySize
    ensures SignUpRecord(crypto, request, freshKey, id)
         == Security.SignUpRecord(crypto, SignUpRequest(request.email, request.password), freshKey, id).(name := request.name)
  {
  }

  class AuthService {
    const repository: UserRepository

    constructor (repository: UserRepository)
      ensures this.repository == repository
    {
      this.repository := repository;
    }

    /** `SignUpUserAsync`: a null request, an empty email or an empty password
        is refused before the store is touched; otherwise exactly one record,
        `SignUpRecord`, is added under the generated key and its identity is
        returned. */
    method SignUpUser(request: Option<SignUpRequestV2>, crypto: Crypto, freshKey: Bytes, generatedId: Guid)
      returns (r: Outcome<Option<AuthResponse>>)
      requires repository.Valid()
      requires |freshKey| == KeySize && generatedId != EmptyGuid
      modifies repository
      ensures repository.Valid()
      ensures request.None? ==> r == Thrown(Security.NullSignUpError) && repository.users == old(repository.users)
      ensures request.Some? && request.value.email == "" ==>
        r == Thrown(Security.EmptySignUpEmail) && repository.users == old(repository.users)
      ensures request.Some? && request.value.email != "" && request.value.password == "" ==>
        r == Thrown(Security.EmptySignUpPassword) && repository.users == old(repository.users)
      ensures request.Some? && request.value.email != "" && request.value.password != "" && generatedId in old(repository.users) ==>
        r == Thrown(DuplicateKey) && repository.users == old(repository.users)
      ensures request.Some? && request.value.email != "" && request.value.password != "" && generatedId !in old(repository.users) ==>
        var stored := SignUpRecord(crypto, request.value, freshKey, generatedId);
        repository.users == old(repository.users)[generatedId := stored] && r == Normal(Some(Security.ToAuthResponse(stored)))
    {
      if request.None? {
        return Thrown(Security.NullSignUpError);
      }
      if IsNullOrEmpty(Some(request.value.email)) {
        return Thrown(Security.EmptySignUpEmail);
      }
      if IsNullOrEmpty(Some(request.value.password)) {
        return Thrown(Security.EmptySignUpPassword);
      }
      var user := SignUpToUser(request.value);
      var hs := CreatePasswordHash(crypto, request.value.password, freshKey);
      user := user.(passwordSalt := hs.salt);
      user := user.(passwordHash := hs.hash);
      user := user.(mobile := Some(""));
      var result := repository.AddUser(Some(user), generatedId);
      match result
      case Thrown(e) => r := Thrown(e);
      case Normal(None) => r := Normal(None);
      case Normal(Some(u)) => r := Normal(Some(Security.ToAuthResponse(u)));
    }
  }
}
