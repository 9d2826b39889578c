/** The version 2 `AuthController`: sign-up only, with the version 1
    decisions and the token of `JWTHelper`. */
module AuthControllerV2 {
  import opened DotNet
  import opened Entities
  import opened Responses
  import opened JwtHelper
  import AuthController

  /** `SignUpUserAsync`: a null request, an empty email or an empty password
      is a 400 with a bare message and the service is not called; otherwise
      a thrown error is a 500, a null result a 400 `Fail`, and a user a 200
      `Ok` carrying that user's token. */
  function SignUpUser(request: Option<SignUpRequestV2>, service: SignUpRequestV2 -> Outcome<Option<AuthResponse>>, issuer: TokenIssuer)
    : (reply: Reply<string>)
    ensures WellFormedReply(reply)
    ensures request.None? ==> reply == Reply(Status400BadRequest, Text(AuthController.NullRequestText))
    ensures request.Some? && request.value.email == "" ==>
      reply == Reply(Status400BadRequest, Text(AuthController.EmptySignUpEmailText))
    ensures request.Some? && request.value.email != "" && request.value.password == "" ==>
      reply == Reply(Status400BadRequest, Text(AuthController.EmptySignUpPasswordText))
    ensures request.Some? && request.value.email != "" && request.value.password != "" ==>
      reply == AuthController.TokenReply(service(request.value), issuer, AuthController.SignUpFailedText, AuthController.SignUpOkText)
  {
    var guard := AuthController.CredentialGuard(request.Some?, if request.Some? then request.value.email else "",
                                                if request.Some? then request.value.password else "",
                                                AuthController.NullRequestText, AuthController.EmptySignUpEmailText,
                                                AuthController.EmptySignUpPasswordText);
    if guard.Some? then Reply(Status400BadRequest, Text(guard.value))
    else AuthController.TokenReply(service(request.value), issuer, AuthController.SignUpFailedText, AuthController.SignUpOkText)
  }

  /** The two versions' sign-up endpoints decide alike: for requests with the
      same email and password, and services that answer alike, the replies
      are equal. */
  lemma SameDecisionsAsVersion1(request: SignUpRequestV2, service: SignUpRequestV2 -> Outcome<Option<AuthResponse>>,
                                v1: SignUpRequest -> Outcome<Option<AuthResponse>>, issuer: TokenIssuer)
    requires v1(SignUpRequest(request.email, request.password)) == service(request)
    ensures SignUpUser(Some(request), service, issuer)
         == AuthController.SignUpUser(Some(SignUpRequest(request.email, request.password)), v1, issuer)
  {
  }

  /** A request the checks refuse gets the same reply whatever the service
      would do. */
  lemma GuardsPrecedeService(request: Option<SignUpRequestV2>, s1: SignUpRequestV2 -> Outcome<Option<AuthResponse>>,
                             s2: SignUpRequestV2 -> Outcome<Option<AuthResponse>>, issuer: TokenIssuer)
    requires request.None? || request.value.email == "" || request.value.password == ""
    ensures SignUpUser(request, s1, issuer) == SignUpUser(request, s2, issuer)
    ensures SignUpUser(request, s1, issuer).body.Text?
  {
  }
}
