/** Version 1 `AuthService`: sign-up stores a new record holding only the
    email and the password's hash and salt; sign-in finds the record by email
    and verifies the password against it. */
module Security {
  import opened DotNet
  import opened Entities
  import opened PasswordHelper
  import opened MapperProfile
  import opened Repositories

  const NullSignUpError: Exception := ArgumentNullException("Signup request cannot be null request")
  const EmptySignUpEmail: Exception := PlainException("Email cannot be empty to create a new user.")
  const EmptySignUpPassword: Exception := PlainException("Password cannot be empty to create a new user.")
  const EmptySignInEmail: Exception := PlainException("Email cannot be empty to identify user.")
  const EmptySignInPassword: Exception := PlainException("Password cannot be empty to identify user.")

  /** The one error for every sign-in that does not identify a user. */
  const SignInFailed: Exception := PlainException("User not found to your current request.")

  /** `Map<AuthResponse>(DbUser)`: the identity members of the record, never
      its credentials. */
  function ToAuthResponse(u: DbUser): (a: AuthResponse)
    ensures a.id == u.id && a.name == u.name && a.email == u.email && a.mobile == u.mobile && a.photoUrl == u.photoUrl
  {
    AuthResponse(u.id, u.name, u.email, u.mobile, u.photoUrl)
  }

  /** `Map<DbUser>(SignUpRequest)`: the email; everything else at its default. */
  function SignUpToUser(request: SignUpRequest): (u: DbUser)
    ensures u.email == request.email && u.id == EmptyGuid && u.name == "" && u.mobile.None?
    ensures u.passwordHash == [] && u.passwordSalt == [] && u.photoUrl.None?
  {
    NewDbUser.(email := request.email)
  }

  /** The record the version 1 sign-up stores under `id`: the request's email,
      an empty name and mobile, no photo, and the hash and salt of the
      request's password. */
  function SignUpRecord(crypto: Crypto, request: SignUpRequest, freshKey: Bytes, id: Guid): (u: DbUser)
    requires |freshKey| == KeySize
    ensures u.id == id && u.email == request.email && u.name == "" && u.mobile == Some("") && u.photoUrl.None?
    ensures u.passwordSalt == freshKey
    ensures VerifyPassword(crypto, request.password, u.passwordHash, u.passwordSalt)
  {
    var hs := CreatePasswordHash(crypto, request.password, freshKey);
    SignUpToUser(request).(id := id, passwordSalt := hs.salt, passwordHash := hs.hash, name := "", mobile := Some(""))
  }

  /** What sign-in decides once the lookup by email has returned `user`: no
      user and a password that does not verify are the same failure. */
  function SignInDecision(crypto: Crypto, user: Option<DbUser>, password: string): (r: Outcome<Option<AuthResponse>>)
    ensures r.Normal? <==> user.Some? && VerifyPassword(crypto, password, user.value.passwordHash, user.value.passwordSalt)
    ensures r.Normal? ==> r.value == Some(ToAuthResponse(user.value))
    ensures r.Thrown? ==> r.error == SignInFailed
  {
    if user.None? then Thrown(SignInFailed)
    else if !VerifyPassword(crypto, password, user.value.passwordHash, user.value.passwordSalt) then Thrown(SignInFailed)
    else Normal(Some(ToAuthResponse(user.value)))
  }

  /** An unknown email and a wrong password cannot be told apart. */
  lemma UnknownEmailLooksLikeWrongPassword(crypto: Crypto, u: DbUser, password: string)
    requires !VerifyPassword(crypto, password, u.passwordHash, u.passwordSalt)
    ensures SignInDecision(crypto, None, password) == SignInDecision(crypto, Some(u), password)
  {
  }

  /** The record a sign-up stores passes the sign-in decision with the same
      password, and signs in as the identity the sign-up returned. */
  lemma SignUpRecordSignsIn(crypto: Crypto, request: SignUpRequest, freshKey: Bytes, id: Guid)
    requires |freshKey| == KeySize
    ensures SignInDecision(crypto, Some(SignUpRecord(crypto, request, freshKey, id)), request.password)
         == Normal(Some(ToAuthResponse(SignUpRecord(crypto, request, freshKey, id))))
  {
  }

  class AuthService {
    const repository: UserRepository

    constructor (repository: UserRepository)
      ensures this.repository == repository
    {
      this.repository := repository;
    }

    /** `SignUpUserAsync`: a null request, an empty email or an empty password
        is refused before the store is touched; otherwise exactly one record,
        `SignUpRecord`, is added under the generated key and its identity is
        returned. */
    method SignUpUser(request: Option<SignUpRequest>, crypto: Crypto, freshKey: Bytes, generatedId: Guid)
      returns (r: Outcome<Option<AuthResponse>>)
      requires repository.Valid()
      requires |freshKey| == KeySize && generatedId != EmptyGuid
      modifies repository
      ensures repository.Valid()
      ensures request.None? ==> r == Thrown(NullSignUpError) && repository.users == old(repository.users)
      ensures request.Some? && request.value.email == "" ==>
        r == Thrown(EmptySignUpEmail) && repository.users == old(repository.users)
      ensures request.Some? && request.value.email != "" && request.value.password == "" ==>
        r == Thrown(EmptySignUpPassword) && repository.users == old(repository.users)
      ensures request.Some? && request.value.email != "" && request.value.password != "" && generatedId in old(repository.users) ==>
        r == Thrown(DuplicateKey) && repository.users == old(repository.users)
      ensures request.Some? && request.value.email != "" && request.value.password != "" && generatedId !in old(repository.users) ==>
        var stored := SignUpRecord(crypto, request.value, freshKey, generatedId);
        repository.users == old(repository.users)[generatedId := stored] && r == Normal(Some(ToAuthResponse(stored)))
    {
      if request.None? {
        return Thrown(NullSignUpError);
      }
      if IsNullOrEmpty(Some(request.value.email)) {
        return Thrown(EmptySignUpEmail);
      }
      if IsNullOrEmpty(Some(request.value.password)) {
        return Thrown(EmptySignUpPassword);
      }
      var user := SignUpToUser(request.value);
      var hs := CreatePasswordHash(crypto, request.value.password, freshKey);
      user := user.(passwordSalt := hs.salt);
      user := user.(passwordHash := hs.hash);
      user := user.(name := "");
      user := user.(mobile := Some(""));
      var result := repository.AddUser(Some(user), generatedId);
      match result
      case Thrown(e) => r := Thrown(e);
      case Normal(None) => r := Normal(None);
      case Normal(Some(u)) => r := Normal(Some(ToAuthResponse(u)));
    }

    /** `SignInUserAsync`: a null request, an empty email or an empty password
        is refused; otherwise the one record with that exact email is looked
        up and the password verified against it. The store is only read. */
    method SignInUser(request: Option<SignInRequest>, crypto: Crypto) returns (r: Outcome<Option<AuthResponse>>)
      ensures request.None? ==> r == Thrown(NullSignUpError)
      ensures request.Some? && request.value.email == "" ==> r == Thrown(EmptySignInEmail)
      ensures request.Some? && request.value.email != "" && request.value.password == "" ==> r == Thrown(EmptySignInPassword)
      ensures request.Some? && request.value.email != "" && request.value.password != "" ==>
        var matches := repository.EmailMatches(request.value.email);
        && (matches == {} ==> r == Thrown(SignInFailed))
        && (|matches| > 1 ==> r == Thrown(MoreThanOneMatch))
        && (forall id :: id in matches && |matches| == 1 ==>
              r == SignInDecision(crypto, Some(repository.users[id]), request.value.password))
      ensures r.Normal? ==> r.value.Some? && r.value.value.email == request.value.email
    {
      if request.None? {
        return Thrown(NullSignUpError);
      }
      if IsNullOrEmpty(Some(request.value.email)) {
        return Thrown(EmptySignInEmail);
      }
      if IsNullOrEmpty(Some(request.value.password)) {
        return Thrown(EmptySignInPassword);
      }
      var user := repository.GetUserByEmail(request.value.email);
      if user.Thrown? {
        return Thrown(user.error);
      }
      r := SignInDecision(crypto, user.value, request.value.password);
    }
  }
}
