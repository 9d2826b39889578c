/** The version 1 `AuthController`: each endpoint checks the request, calls
    the auth service, and turns its outcome into a status and an envelope
    carrying the issued token. The service call and the token handler are
    parameters. */
module AuthController {
  import opened DotNet
  import opened Entities
  import opened Responses
  import opened JwtHelper

  const NullRequestText: string := "Signup request cannot be null request"
  const EmptySignUpEmailText: string := "Email cannot be empty to create a new user."
  const EmptySignUpPasswordText: string := "Password cannot be empty to create a new user."
  const EmptySignInEmailText: string := "Email cannot be empty to identify user."
  const EmptySignInPasswordText: string := "Password cannot be empty to identify user."
  const SignUpFailedText: string := "User signup failed with provided values"
  const SignUpOkText: string := "User created and logged in"
  const SignInFailedText: string := "User signin failed with provided values"
  const SignInOkText: string := "User signedin"

  /** The first failing input check, as the text of its `BadRequest`. */
  function CredentialGuard(present: bool, email: string, password: string,
                           nullText: string, emailText: string, passwordText: string): (g: Option<string>)
    ensures g.None? <==> present && email != "" && password != ""
    ensures !present ==> g == Some(nullText)
    ensures present && email == "" ==> g == Some(emailText)
    ensures present && email != "" && password == "" ==> g == Some(passwordText)
  {
    if !present then Some(nullText)
    else if IsNullOrEmpty(Some(email)) then Some(emailText)
    else if IsNullOrEmpty(Some(password)) then Some(passwordText)
    else None
  }

  /** The reply once the service has answered: a thrown error (from the
      service or the token handler) is a 500 carrying its message, a null
      result is a 400 `Fail`, and a user is a 200 `Ok` carrying that user's
      token. */
  function TokenReply(outcome: Outcome<Option<AuthResponse>>, issuer: TokenIssuer, failText: string, okText: string)
    : (reply: Reply<string>)
    ensures WellFormedReply(reply)
    ensures reply.status == Status200OK <==> outcome.Normal? && outcome.value.Some? && Token(outcome.value.value, issuer).Normal?
    ensures reply.status == Status200OK ==> reply.body == Envelope(Ok(Token(outcome.value.value, issuer).value, Some(okText)))
    ensures outcome.Thrown? ==> reply == ServerError(outcome.error)
    ensures outcome == Normal(None) ==> reply == Reply(Status400BadRequest, Envelope(Fail(failText)))
    ensures outcome.Normal? && outcome.value.Some? && Token(outcome.value.value, issuer).Thrown? ==>
      reply == ServerError(Token(outcome.value.value, issuer).error)
    ensures reply.body.Envelope?
  {
    match outcome
    case Thrown(e) => ServerError(e)
    case Normal(None) => Reply(Status400BadRequest, Envelope(Fail(failText)))
    case Normal(Some(result)) =>
      match Token(result, issuer)
      case Thrown(e) => ServerError(e)
      case Normal(token) => Reply(Status200OK, Envelope(Ok(token, Some(okText))))
  }

  /** `SignUpUserAsync`: a null request, an empty email or an empty password
      is a 400 with a bare message and the service is not called; otherwise
      the service's outcome decides. */
  function SignUpUser(request: Option<SignUpRequest>, service: SignUpRequest -> Outcome<Option<AuthResponse>>, issuer: TokenIssuer)
    : (reply: Reply<string>)
    ensures WellFormedReply(reply)
    ensures request.None? ==> reply == Reply(Status400BadRequest, Text(NullRequestText))
    ensures request.Some? && request.value.email == "" ==> reply == Reply(Status400BadRequest, Text(EmptySignUpEmailText))
    ensures request.Some? && request.value.email != "" && request.value.password == "" ==>
      reply == Reply(Status400BadRequest, Text(EmptySignUpPasswordText))
    ensures request.Some? && request.value.email != "" && request.value.password != "" ==>
      reply == TokenReply(service(request.value), issuer, SignUpFailedText, SignUpOkText)
  {
    var guard := CredentialGuard(request.Some?, if request.Some? then request.value.email else "",
                                 if request.Some? then request.value.password else "",
                                 NullRequestText, EmptySignUpEmailText, EmptySignUpPasswordText);
    if guard.Some? then Reply(Status400BadRequest, Text(guard.value))
    else TokenReply(service(request.value), issuer, SignUpFailedText, SignUpOkText)
  }

  /** `SignInUserAsync`: the same checks, then the service's outcome decides. */
  function SignInUser(request: Option<SignInRequest>, service: SignInRequest -> Outcome<Option<AuthResponse>>, issuer: TokenIssuer)
    : (reply: Reply<string>)
    ensures WellFormedReply(reply)
    ensures request.None? ==> reply == Reply(Status400BadRequest, Text(NullRequestText))
    ensures request.Some? && request.value.email == "" ==> reply == Reply(Status400BadRequest, Text(EmptySignInEmailText))
    ensures request.Some? && request.value.email != "" && request.value.password == "" ==>
      reply == Reply(Status400BadRequest, Text(EmptySignInPasswordText))
    ensures request.Some? && request.value.email != "" && request.value.password != "" ==>
      reply == TokenReply(service(request.value), issuer, SignInFailedText, SignInOkText)
  {
    var guard := CredentialGuard(request.Some?, if request.Some? then request.value.email else "",
                                 if request.Some? then request.value.password else "",
                                 NullRequestText, EmptySignInEmailText, EmptySignInPasswordText);
    if guard.Some? then Reply(Status400BadRequest, Text(guard.value))
    else TokenReply(service(request.value), issuer, SignInFailedText, SignInOkText)
  }

  /** A request the checks refuse gets the same reply whatever the service
      would do: the service is not consulted. */
  lemma SignUpGuardsPrecedeService(request: Option<SignUpRequest>, s1: SignUpRequest -> Outcome<Option<AuthResponse>>,
                                   s2: SignUpRequest -> Outcome<Option<AuthResponse>>, issuer: TokenIssuer)
    requires request.None? || request.value.email == "" || request.value.password == ""
    ensures SignUpUser(request, s1, issuer) == SignUpUser(request, s2, issuer)
    ensures SignUpUser(request, s1, issuer).body.Text?
  {
  }

  lemma SignInGuardsPrecedeService(request: Option<SignInRequest>, s1: SignInRequest -> Outcome<Option<AuthResponse>>,
                                   s2: SignInRequest -> Outcome<Option<AuthResponse>>, issuer: TokenIssuer)
    requires request.None? || request.value.email == "" || request.value.password == ""
    ensures SignInUser(request, s1, issuer) == SignInUser(request, s2, issuer)
    ensures SignInUser(request, s1, issuer).body.Text?
  {
  }

  /** The controller's private `GenerateJwtToken`, built by appending to its
      own claim list: it issues exactly the token `JWTHelper` issues. */
  method GenerateJwtToken(result: AuthResponse, issuer: TokenIssuer) returns (token: Outcome<string>)
    ensures token == Token(result, issuer)
  {
    var tokenKey := AsciiBytes(if issuer.jwtSetting.None? then "" else issuer.jwtSetting.value);
    var claims := [Claim(NameIdentifierClaim, GuidToString(result.id)), Claim(NameClaim, result.name), Claim(EmailClaim, result.email)];
    if !IsNullOrWhiteSpace(result.mobile) {
      claims := claims + [Claim(MobileClaim, result.mobile.value)];
    }
    if !IsNullOrWhiteSpace(result.photoUrl) {
      claims := claims + [Claim(PhotoUrlClaim, result.photoUrl.value)];
    }
    assert claims == Claims(result);
    var descriptor := TokenDescriptor(claims, issuer.utcNowTicks + TokenLifetimeDays * TicksPerDay, tokenKey, HmacSha256Signature);
    token := issuer.write(descriptor);
  }
}
