/** The stored user record and the request and response shapes that carry
    user data in and out of the services. Non-nullable `string` members are
    never null here; `string?` members are `Option<string>`. */
module Entities {
  import opened DotNet

  /** `DbUser`: one row of the Users table. */
  datatype DbUser = DbUser(
    id: Guid,
    name: string,
    email: string,
    mobile: Option<string>,
    passwordHash: Bytes,
    passwordSalt: Bytes,
    photoUrl: Option<string>)

  /** `UserCreateRequest`: the profile fields of `UserRequestBase` and a password. */
  datatype UserCreateRequest = UserCreateRequest(
    name: string,
    email: string,
    mobile: Option<string>,
    password: string)

  /** `UserUpdateRequest`: the profile fields of `UserRequestBase` and the id. */
  datatype UserUpdateRequest = UserUpdateRequest(
    id: Guid,
    name: string,
    email: string,
    mobile: Option<string>)

  /** `PhotoUrlRequest`. */
  datatype PhotoUrlRequest = PhotoUrlRequest(id: Guid, photoUrl: string)

  /** `UserDetailResponse`: what the user endpoints return; no credentials. */
  datatype UserDetailResponse = UserDetailResponse(
    id: Guid,
    name: string,
    email: string,
    mobile: Option<string>,
    photoUrl: Option<string>)

  /** `SignInRequest`. */
  datatype SignInRequest = SignInRequest(email: string, password: string)

  /** The version 1 `SignUpRequest`: the members the v1 sign-up reads. */
  datatype SignUpRequest = SignUpRequest(email: string, password: string)

  /** The version 2 `SignUpRequest`. */
  datatype SignUpRequestV2 = SignUpRequestV2(name: string, email: string, password: string)

  /** `AuthResponse`: the identity the token is issued for. */
  datatype AuthResponse = AuthResponse(
    id: Guid,
    name: string,
    email: string,
    mobile: Option<string>,
    photoUrl: Option<string>)

  /** The members of an uploaded `IFormFile` that the upload reads. */
  datatype FormFile = FormFile(fileName: string, length: nat)

  /** `PhotoChangeRequest`. */
  datatype PhotoChangeRequest = PhotoChangeRequest(id: Guid, attachment: Option<FormFile>)
}
