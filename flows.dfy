/** Scenarios that run several operations against one store and state what
    the system as a whole promises: a user who signs up can sign in, a
    deleted user cannot, and a profile update keeps the password working. */
module Flows {
  import opened DotNet
  import opened Entities
  import opened PasswordHelper
  import opened MapperProfile
  import opened Repositories
  import opened Responses
  import opened JwtHelper
  import Users
  import Security
  import AuthController

  /** Sign-up followed by sign-in with the same credentials, through the
      version 1 service and controller: both succeed, for the same identity,
      when no stored user has the email yet. */
  method SignUpThenSignIn(repository: UserRepository, crypto: Crypto, email: string, password: string,
                          freshKey: Bytes, generatedId: Guid, issuer: TokenIssuer)
    returns (signUp: Outcome<Option<AuthResponse>>, signIn: Outcome<Option<AuthResponse>>, reply: Reply<string>)
    requires repository.Valid()
    requires |freshKey| == KeySize && generatedId != EmptyGuid && generatedId !in repository.users
    requires email != "" && password != ""
    requires repository.EmailMatches(email) == {}
    modifies repository
    ensures repository.Valid()
    ensures signUp == Normal(Some(AuthResponse(generatedId, "", email, Some(""), None)))
    ensures signIn == signUp
    ensures reply.status == Status200OK <==> Token(signIn.value.value, issuer).Normal?
    ensures reply.status == Status200OK ==>
      reply.body == Envelope(Ok(Token(signIn.value.value, issuer).value, Some(AuthController.SignInOkText)))
  {
    ghost var before := repository.users;
    forall id | id in before
      ensures before[id].email != email
    {
      assert id !in repository.EmailMatches(email);
    }
    var auth := new Security.AuthService(repository);
    var request := SignUpRequest(email, password);
    signUp := auth.SignUpUser(Some(request), crypto, freshKey, generatedId);
    ghost var stored := Security.SignUpRecord(crypto, request, freshKey, generatedId);
    assert repository.users[generatedId] == stored;
    assert forall id :: id in repository.users && repository.users[id].email == email ==> id == generatedId;
    assert repository.EmailMatches(email) == {generatedId};
    signIn := auth.SignInUser(Some(SignInRequest(email, password)), crypto);
    reply := AuthController.SignInUser(Some(SignInRequest(email, password)), _ => signIn, issuer);
  }

  /** A user deleted through the user service can no longer sign in: the
      reply is the one for an unknown user. */
  method DeleteThenSignIn(repository: UserRepository, crypto: Crypto, id: Guid, password: string)
    returns (deleted: Outcome<bool>, signIn: Outcome<Option<AuthResponse>>)
    requires repository.Valid()
    requires id in repository.users && id != EmptyGuid
    requires repository.users[id].email != "" && password != ""
    requires repository.EmailMatches(repository.users[id].email) == {id}
    modifies repository
    ensures deleted == Normal(true)
    ensures signIn == Thrown(Security.SignInFailed)
  {
    var email := repository.users[id].email;
    var users := new Users.UserService(repository);
    deleted := users.DeleteUser(id);
    assert repository.EmailMatches(email) == {} by {
      forall other | other in repository.users
        ensures repository.users[other].email != email
      {
        assert other in old(repository.users) && other != id;
      }
    }
    var auth := new Security.AuthService(repository);
    signIn := auth.SignInUser(Some(SignInRequest(email, password)), crypto);
  }

  /** A profile update through the user service keeps the password: a user
      whose password verified signs in with it afterwards, under the new
      email, as the updated identity. */
  method UpdateThenSignIn(repository: UserRepository, crypto: Crypto, update: UserUpdateRequest, password: string)
    returns (updated: Outcome<Option<UserDetailResponse>>, signIn: Outcome<Option<AuthResponse>>)
    requires repository.Valid()
    requires update.id in repository.users
    requires VerifyPassword(crypto, password, repository.users[update.id].passwordHash, repository.users[update.id].passwordSalt)
    requires update.email != "" && password != ""
    requires forall other :: other in repository.users && other != update.id ==> repository.users[other].email != update.email
    modifies repository
    ensures update.id in repository.users
    ensures var u := repository.users[update.id];
      && updated == Normal(Some(UserToDetail(u)))
      && signIn == Normal(Some(AuthResponse(update.id, update.name, update.email, update.mobile, u.photoUrl)))
  {
    var users := new Users.UserService(repository);
    updated := users.UpdateUser(Some(update));
    assert repository.EmailMatches(update.email) == {update.id};
    var auth := new Security.AuthService(repository);
    signIn := auth.SignInUser(Some(SignInRequest(update.email, password)), crypto);
  }
}
