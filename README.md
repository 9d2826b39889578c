# User store and authentication service, modelled in Dafny

This project models the core of an ASP.NET Core web API that keeps user
records and signs users up and in. The parts are:

- **User store** (`UserRepository`, `Repositories`). The Users table is a `map<Guid, DbUser>` held in a class. Each of its six operations states the new table and the error it raises.
- **Password hashing** (`PasswordHelper`). Hashes are salted HMAC-SHA-512, and the salt is the HMAC key. HMAC-SHA-512 and UTF-8 encoding are uninterpreted functions, passed in as a `Crypto` value.
- **Object maps** (`MapperProfile`). The four maps of the services' profile are written out as field copies.
- **User service** (`Users`). It validates, then loads, changes and stores back.
- **Auth services** (`Security` for version 1, `SecurityV2` for version 2). Sign-up blanks some fields, hashes the password and inserts one record. Sign-in looks the user up by email and verifies the password.
- **Token description** (`JwtHelper`). This is the claim list, the expiry and the signing key of the issued JWT. Encoding and signing are a parameter that may throw.
- **Upload naming** (`FileUpload`). The `FileResponse` an upload returns: the stored name, the path, the extension and the size.
- **Endpoints** (`AuthController`, `AuthControllerV2`, `UsersController`). Each endpoint is a pure function from its input and the service's outcome to a status code and a body. The body is an `ApiResponse` envelope (`Responses`) or, for the auth guards, bare text.
- **Scenarios** (`Flows`). These run several operations against one store: sign-up then sign-in, delete then sign-in, and update then sign-in.

`DotNet` holds the library behaviour the core relies on:
- null, modelled as `Option`;
- exceptions and the text of `Exception.Message`;
- a Guid as a 128-bit number, with its lowercase `8-4-4-4-12` text and the proof that this text reads back;
- `string.IsNullOrEmpty` and `IsNullOrWhiteSpace`;
- ASCII encoding, `ToLower`, and `Path.GetExtension`.

Calls that can throw return `Outcome<T>`, which is `Normal(value)` or `Thrown(exception)`. Everything the code does not compute is a parameter:
- the random HMAC key;
- the key the database generates;
- the clock;
- the Guid drawn for an uploaded file;
- the token handler.

Some of the repository's messages are passed to the one-string `ArgumentNullException` constructor, which takes a parameter name. So the message a caller sees is "Value cannot be null. (Parameter '...')". `DotNet.Message` models that.

## Model

| member | source | states |
|---|---|---|
| DotNet.Message | src/My.ApiVersioningExample.WebApi/Controllers/UsersController.cs:63-67 | the message a caught exception carries: argument exceptions append " (Parameter '<name>')" exactly when the parameter name is not empty, the one-string ArgumentNullException shows its argument as the parameter name, all other exceptions give their text unchanged |
| DotNet.GuidToString | src/My.ApiVersioningExample.Data/Repositories/Users/UserRepository.cs:121 | a Guid written into a message is 36 characters with hyphens at positions 8, 13, 18 and 23 |
| DotNet.GuidTextRoundTrip | src/My.ApiVersioningExample.Data/Repositories/Users/UserRepository.cs:121 | reading a Guid's text back gives the same Guid |
| DotNet.GuidToStringInjective | src/My.ApiVersioningExample.Data/Repositories/Users/UserRepository.cs:121 | distinct Guids have distinct texts |
| DotNet.AsciiBytes | src/My.ApiVersioningExample.WebApi/Utilities/JWTHelper.cs:27 | ASCII encoding gives one byte per character, and any non-ASCII character becomes '?' |
| DotNet.IsNullOrEmpty | src/My.ApiVersioningExample.Services/Security/AuthService.cs:54-58 | `string.IsNullOrEmpty`: false exactly for a non-null string with at least one character |
| DotNet.WhiteSpaceCharacters | src/My.ApiVersioningExample.WebApi/Utilities/JWTHelper.cs:36 | `char.IsWhiteSpace` holds for the Unicode space, line and paragraph separators, U+0009 to U+000D, U+0085 and U+00A0; space, tab, line feed and carriage return are white space, and ASCII letters, digits, '.', '+' and '@' are not |
| DotNet.IsNullOrWhiteSpace | src/My.ApiVersioningExample.WebApi/Utilities/JWTHelper.cs:36-44 | `string.IsNullOrWhiteSpace`: every null or empty string is blank |
| DotNet.NotBlankHasVisibleCharacter | src/My.ApiVersioningExample.WebApi/Utilities/JWTHelper.cs:36-44 | a string is not blank exactly when it is not null and holds a character that is not white space |
| DotNet.ToLower | src/My.ApiVersioningExample.WebApi/Urilities/FileUploadService.cs:34 | the lower-cased text has the same length, with each character lower-cased |
| DotNet.GetExtension | src/My.ApiVersioningExample.WebApi/Urilities/FileUploadService.cs:41 | the extension is non-empty iff the last path segment contains a '.' and its last '.' is not its final character; a non-empty extension starts with '.', has no further '.' or '/', and ends the path |
| PasswordHelper.CreatePasswordHash | src/My.ApiVersioningExample.Common/Helper/PasswordHelper.cs:17-22 | the salt is the fresh HMAC key, of 128 bytes, and the password verifies against the produced hash and salt (round trip) |
| PasswordHelper.VerifyPassword | src/My.ApiVersioningExample.Common/Helper/PasswordHelper.cs:31-36 | true iff the HMAC of the UTF-8 password under the stored salt equals the stored hash |
| PasswordHelper.SequenceEqual | src/My.ApiVersioningExample.Common/Helper/PasswordHelper.cs:35 | two byte sequences compare equal by length and position iff they are equal |
| PasswordHelper.WrongLengthNeverVerifies | src/My.ApiVersioningExample.Common/Helper/PasswordHelper.cs:35 | a stored hash with a length other than 64 bytes never verifies |
| Responses.Empty | src/My.ApiVersioningExample.Common/Responses/ApiResponse.cs:27 | the parameterless envelope has Success false, no message and the default result |
| Responses.Ok | src/My.ApiVersioningExample.Common/Responses/ApiResponse.cs:34-58 | the `Ok` factory over the data constructor: Success true, the given data as Result, the given (possibly null) message; it carries data exactly because it succeeds |
| Responses.Fail | src/My.ApiVersioningExample.Common/Responses/ApiResponse.cs:45-66 | the `Fail` factory over the message constructor: Success false, the given message, the default result |
| Responses.ServerError | src/My.ApiVersioningExample.WebApi/Controllers/UsersController.cs:106-110 | the catch-all reply is a 500 whose Fail envelope carries the exception's message, and it is well formed |
| MapperProfile.CreateRequestToUser | src/My.ApiVersioningExample.Services/Configurations/MapperProfie.cs:21 | the create map copies Name, Email and Mobile; it leaves the id empty and produces no hash, salt or photo |
| MapperProfile.ApplyUpdate | src/My.ApiVersioningExample.Services/Configurations/MapperProfie.cs:22-26 | the update map copies Id, Name, Email and Mobile and keeps the destination's PasswordHash, PasswordSalt and PhotoUrl |
| MapperProfile.PhotoUrlRequestToUser | src/My.ApiVersioningExample.Services/Configurations/MapperProfie.cs:27 | the photo-url map carries Id and PhotoUrl and nothing else |
| MapperProfile.UserToDetail | src/My.ApiVersioningExample.Services/Configurations/MapperProfie.cs:28 | the detail projection carries Id, Name, Email, Mobile and PhotoUrl |
| MapperProfile.DetailHidesCredentials | src/My.ApiVersioningExample.Services/Configurations/MapperProfie.cs:28 | records that differ only in hash and salt project to the same response |
| MapperProfile.ApplyUpdateIdempotent | src/My.ApiVersioningExample.Services/Configurations/MapperProfie.cs:22-26 | applying an update twice is applying it once |
| MapperProfile.ApplyUpdateKeepsOnlyIgnored | src/My.ApiVersioningExample.Services/Configurations/MapperProfie.cs:22-26 | the updated record depends on the destination only through the three ignored members |
| MapperProfile.DetailAfterUpdate | src/My.ApiVersioningExample.Services/Configurations/MapperProfie.cs:22-28 | after an update the caller sees the request's profile and the photo the record already had |
| Repositories.UserRepository.GetUsers | src/My.ApiVersioningExample.Data/Repositories/Users/UserRepository.cs:37-40 | every stored record once each, as many as the table holds |
| Repositories.UserRepository.GetUserById | src/My.ApiVersioningExample.Data/Repositories/Users/UserRepository.cs:48-54 | an empty id is an argument error; otherwise the record stored under the id, or null |
| Repositories.UserRepository.GetUserByEmail | src/My.ApiVersioningExample.Data/Repositories/Users/UserRepository.cs:64-70 | an empty email is an argument error; no exact match gives null, one gives that record, several are an error |
| Repositories.UserRepository.AddUser | src/My.ApiVersioningExample.Data/Repositories/Users/UserRepository.cs:79-87 | null is an argument error; otherwise exactly one record is added under its key and returned; a key already stored fails and changes nothing |
| Repositories.UserRepository.UpdateUser | src/My.ApiVersioningExample.Data/Repositories/Users/UserRepository.cs:96-104 | null is an argument error; the record under the id is replaced, no other record changes, and the new value is returned |
| Repositories.UserRepository.DeleteUser | src/My.ApiVersioningExample.Data/Repositories/Users/UserRepository.cs:113-128 | an empty id is an argument error, a missing id is KeyNotFound, otherwise exactly that record is removed and the result is true; never false |
| Users.DetailOutcome | src/My.ApiVersioningExample.Services/Users/UserService.cs:61-62 | mapping a store outcome keeps errors and nulls and projects a record to its details |
| Users.NewUserRecord | src/My.ApiVersioningExample.Services/Users/UserService.cs:76-82 | the new record carries the request's profile, no photo, the fresh salt and a hash the request's password verifies against |
| Users.UserService.GetUsers | src/My.ApiVersioningExample.Services/Users/UserService.cs:44-48 | the details of every stored user, once each |
| Users.UserService.GetUserById | src/My.ApiVersioningExample.Services/Users/UserService.cs:56-63 | an empty id is refused before the store is asked; otherwise the details of the stored user, or null |
| Users.UserService.AddUser | src/My.ApiVersioningExample.Services/Users/UserService.cs:71-87 | a null request is refused; otherwise exactly one record is added, the request's password verifies against it, and its details are returned |
| Users.UserService.UpdateUser | src/My.ApiVersioningExample.Services/Users/UserService.cs:95-108 | a null request is refused; a missing user is KeyNotFound with nothing written; otherwise the stored record becomes the update map of the old one, keeping hash, salt and photo |
| Users.UserService.PhotoUrlUpdate | src/My.ApiVersioningExample.Services/Users/UserService.cs:119-135 | a null request or empty url is refused before the lookup, a missing user is KeyNotFound; otherwise only PhotoUrl of that record changes |
| Users.UserService.DeleteUser | src/My.ApiVersioningExample.Services/Users/UserService.cs:144-150 | an empty id is refused before the store is asked; otherwise the repository's delete and its result |
| Security.ToAuthResponse | src/My.ApiVersioningExample.Services/Security/AuthService.cs:110 | the identity returned carries the record's id, name, email, mobile and photo, never its credentials |
| Security.SignUpToUser | src/My.ApiVersioningExample.Services/Security/AuthService.cs:60 | the sign-up map sets only Email from the request: Id is empty, Name is "", Mobile and PhotoUrl are null, and there is no hash or salt |
| Security.SignUpRecord | src/My.ApiVersioningExample.Services/Security/AuthService.cs:60-67 | the signed-up record has the request's email, empty Name and Mobile, no photo, the fresh salt, and verifies against the request's password |
| Security.SignInDecision | src/My.ApiVersioningExample.Services/Security/AuthService.cs:100-110 | sign-in succeeds iff a user was found and the password verifies, returning that user's identity; every failure is the one error "User not found to your current request." |
| Security.UnknownEmailLooksLikeWrongPassword | src/My.ApiVersioningExample.Services/Security/AuthService.cs:100-108 | an unknown email and a wrong password give the identical outcome |
| Security.SignUpRecordSignsIn | src/My.ApiVersioningExample.Services/Security/AuthService.cs:60-110 | the record a sign-up stores signs in with the same password as the identity sign-up returned |
| Security.AuthService.SignUpUser | src/My.ApiVersioningExample.Services/Security/AuthService.cs:49-73 | null request, empty email, empty password are refused in that order with the store untouched; otherwise exactly one record, the sign-up record, is added and its identity returned |
| Security.AuthService.SignInUser | src/My.ApiVersioningExample.Services/Security/AuthService.cs:87-112 | the same guards; then no match is the sign-in failure, several matches an error, and one match the sign-in decision for that user; the store is only read |
| SecurityV2.SignUpToUser | src/My.ApiVersioningExample.Services/Security/V2/AuthService.cs:60 | the version 2 sign-up map sets Name and Email from the request: Id is empty, Mobile and PhotoUrl are null, and there is no hash or salt |
| SecurityV2.SignUpRecord | src/My.ApiVersioningExample.Services/Security/V2/AuthService.cs:60-66 | the version 2 record keeps the request's Name, has an empty Mobile, the fresh salt, and verifies against the password |
| SecurityV2.VersionsDifferOnlyInName | src/My.ApiVersioningExample.Services/Security/V2/AuthService.cs:60-66 | the two versions store the same record except that version 1 blanks the name |
| SecurityV2.AuthService.SignUpUser | src/My.ApiVersioningExample.Services/Security/V2/AuthService.cs:49-72 | null request, empty email, empty password are refused with the store untouched; otherwise exactly one version 2 record is added and its identity returned |
| JwtHelper.Claims | src/My.ApiVersioningExample.WebApi/Utilities/JWTHelper.cs:29-44 | 3 to 5 claims: NameIdentifier, Name, Email first and in that order; one more claim for a mobile that is not blank, at position 3 with type "mobile" and the mobile as value; one more for a photo url that is not blank, last, with type "photoUrl" |
| JwtHelper.ExtraClaimsFollowProfile | src/My.ApiVersioningExample.WebApi/Utilities/JWTHelper.cs:36-44 | after the identity there is a "mobile" claim only for a non-blank mobile and a "photoUrl" claim only for a non-blank photo url, photoUrl after mobile, and no other claim type |
| JwtHelper.Descriptor | src/My.ApiVersioningExample.WebApi/Utilities/JWTHelper.cs:27-53 | the subject is the claim list, the expiry is 30 days after issue, the key is the ASCII of the configured value (empty when none), the algorithm is HMAC-SHA-256 |
| JwtHelper.GenerateJwtToken | src/My.ApiVersioningExample.WebApi/Utilities/JWTHelper.cs:24-57 | the claims built by appending give the token the handler writes for the descriptor |
| JwtHelper.BlankMobileIsNoMobile | src/My.ApiVersioningExample.WebApi/Utilities/JWTHelper.cs:36-39 | a blank mobile gives the same claims as no mobile |
| JwtHelper.SigningKeyBytes | src/My.ApiVersioningExample.WebApi/Utilities/JWTHelper.cs:27 | each key byte is the ASCII byte of the configured value's character |
| FileUpload.StoredFileName | src/My.ApiVersioningExample.WebApi/Urilities/FileUploadService.cs:36 | the stored name is the Guid's 36-character text, '_' and the original name |
| FileUpload.Upload | src/My.ApiVersioningExample.WebApi/Urilities/FileUploadService.cs:28-58 | no file gives an empty response; otherwise the stored name, the path under the lower-cased folder, the original's extension and its length |
| FileUpload.UploadFileLocalyAndGetUrl | src/My.ApiVersioningExample.WebApi/Urilities/FileUploadService.cs:28-58 | the response filled member by member is the upload's response |
| FileUpload.FilePathShape | src/My.ApiVersioningExample.WebApi/Urilities/FileUploadService.cs:34-39 | the path starts with "/File_Storage/Uploads/" and ends with the stored name, hence with "_" and the original name |
| FileUpload.StoredFileNameRoundTrip | src/My.ApiVersioningExample.WebApi/Urilities/FileUploadService.cs:36 | the stored name gives back the original name and the Guid |
| FileUpload.DistinctGuidsDistinctNames | src/My.ApiVersioningExample.WebApi/Urilities/FileUploadService.cs:36 | uploads under different Guids never share a stored name |
| FileUpload.DirectoryDefaultsToOthers | src/My.ApiVersioningExample.WebApi/Urilities/FileUploadService.cs:33 | naming no folder is naming "Others" |
| FileUpload.UsersFolder | src/My.ApiVersioningExample.WebApi/Urilities/FileUploadService.cs:34 | the "Users" folder becomes "/File_Storage/Uploads/users/" |
| AuthController.CredentialGuard | src/My.ApiVersioningExample.WebApi/Controllers/Security/AuthController.cs:77-84 | the checks pass iff the request is present with non-empty email and password; otherwise the text of the first failing check |
| AuthController.TokenReply | src/My.ApiVersioningExample.WebApi/Controllers/Security/AuthController.cs:86-97 | 200 with Ok(token, message) iff the service gave a user and the token was written; null is 400 Fail; any exception is 500 with its message |
| AuthController.SignUpUser | src/My.ApiVersioningExample.WebApi/Controllers/Security/AuthController.cs:73-98 | a failing check is a 400 with bare text; otherwise the service outcome's reply with "User signup failed with provided values" and "User created and logged in" |
| AuthController.SignInUser | src/My.ApiVersioningExample.WebApi/Controllers/Security/AuthController.cs:119-144 | the same shape with the sign-in texts and "User signedin" |
| AuthController.SignUpGuardsPrecedeService | src/My.ApiVersioningExample.WebApi/Controllers/Security/AuthController.cs:77-86 | a refused sign-up gets the same bare-text reply whatever the service would do |
| AuthController.SignInGuardsPrecedeService | src/My.ApiVersioningExample.WebApi/Controllers/Security/AuthController.cs:123-132 | a refused sign-in gets the same bare-text reply whatever the service would do |
| AuthController.GenerateJwtToken | src/My.ApiVersioningExample.WebApi/Controllers/Security/AuthController.cs:158-191 | the controller's private token builder issues exactly the token of `JWTHelper` |
| AuthControllerV2.SignUpUser | src/My.ApiVersioningExample.WebApi/Controllers/V2/Security/AuthController.cs:68-93 | a failing check is a 400 with bare text; otherwise 500 on an exception, 400 Fail on null, 200 Ok with the token |
| AuthControllerV2.SameDecisionsAsVersion1 | src/My.ApiVersioningExample.WebApi/Controllers/V2/Security/AuthController.cs:72-86 | for the same credentials and service outcome, the version 2 endpoint replies as version 1 does |
| AuthControllerV2.GuardsPrecedeService | src/My.ApiVersioningExample.WebApi/Controllers/V2/Security/AuthController.cs:72-81 | a refused sign-up gets the same reply whatever the service would do |
| UsersController.DetailReply | src/My.ApiVersioningExample.WebApi/Controllers/UsersController.cs:99-110 | 200 with Ok(user, message) iff the service gave a user; null gives the endpoint's 400 or 404 Fail; an exception is 500 |
| UsersController.GetUsers | src/My.ApiVersioningExample.WebApi/Controllers/UsersController.cs:55-68 | 200 with every user iff the service did not throw; otherwise 500 |
| UsersController.GetUserById | src/My.ApiVersioningExample.WebApi/Controllers/UsersController.cs:92-111 | an empty id is a 400 without the service; 404 iff the service found nobody; otherwise the detail reply |
| UsersController.AddUser | src/My.ApiVersioningExample.WebApi/Controllers/UsersController.cs:133-152 | a null request is a 400 without the service; a null result is a 400; a user is 200 |
| UsersController.UpdateUser | src/My.ApiVersioningExample.WebApi/Controllers/UsersController.cs:174-196 | a null request or an empty id is a 400 without the service; otherwise the detail reply |
| UsersController.PhotoUrlFromUpload | src/My.ApiVersioningExample.WebApi/Controllers/UsersController.cs:232-241 | a request is built iff the upload gave a non-empty path, and it carries the same id and that path; otherwise the upload's error or "Photo upload failed" |
| UsersController.PhotoUrlUpdate | src/My.ApiVersioningExample.WebApi/Controllers/UsersController.cs:218-255 | null request, empty id, missing attachment are 400s before any upload; a failed upload is a 500; otherwise the service's reply for the uploaded path |
| UsersController.DeleteUser | src/My.ApiVersioningExample.WebApi/Controllers/UsersController.cs:278-299 | an empty id is a 400 without the service; false is a 400; 200 with Ok(true) iff the service answered true; an exception is 500 |
| UsersController.PhotoStoredUnderUsersFolder | src/My.ApiVersioningExample.WebApi/Controllers/UsersController.cs:232-241 | with the real upload the service receives "/File_Storage/Uploads/users/" + Guid + "_" + the file name, for the same id |
| UsersController.DeleteBadRequestOnlyForEmptyId | src/My.ApiVersioningExample.WebApi/Controllers/UsersController.cs:283-290 | with a delete service that never answers false, a 400 means the id was empty |
| UsersController.PhotoGuardsPrecedeUpload | src/My.ApiVersioningExample.WebApi/Controllers/UsersController.cs:222-229 | a refused photo update gets the same 400 whatever the upload and the service would do |
| Flows.SignUpThenSignIn | src/My.ApiVersioningExample.Services/Security/AuthService.cs:49-112 | with an unused email, sign-up then sign-in with the same credentials both succeed for the same identity, and the sign-in endpoint replies 200 iff the token is written |
| Flows.DeleteThenSignIn | src/My.ApiVersioningExample.Services/Users/UserService.cs:144-150 | after a user is deleted, signing in with their email fails with the unknown-user error |
| Flows.UpdateThenSignIn | src/My.ApiVersioningExample.Services/Users/UserService.cs:95-108 | after a profile update the old password still signs the user in, under the new email, as the updated identity |

## Left out

- Entity Framework itself, dependency injection, middleware, API versioning, OpenAPI, logging and async plumbing are not modelled. The table is a map, and each call is one synchronous step.
- Concurrency is not modelled. Two sign-ups with the same email can both succeed, and the lookup by email then raises the "more than one element" error. The model allows such a table and states that error.
- Repositories.UserRepository.GetUserByEmail: emails match by exact string equality. On SQL Server the column's collation decides equality, and the default collation ignores case.
- HMAC-SHA-512, UTF-8, the token handler's encoding and signing, and `Guid.NewGuid` are uninterpreted or parameters. The constant-time concern of the comparison is not expressible.
- The key the database generates for a record whose Id is `Guid.Empty` is the `generatedId` parameter of every add. A record with a non-empty Id keeps it. The store's own error texts for a duplicate key and for updating a missing row are paraphrased. An update with an empty id is treated as a missing row.
- Repositories.UserRepository.GetUsers: the order of the rows is not stated, because the table yields them in an order the library chooses.
- The maps SignUpRequest→DbUser and DbUser→AuthResponse are not in the profile. They are modelled as copies of the members with the same name. The C# declarations of the version 1 `SignUpRequest` and of `AuthResponse` are not among the repository files modelled here. The model gives them the members the code reads: Email and Password, and Id, Name, Email, Mobile and PhotoUrl.
- `Data/Configurations/MapperProfie.cs` is not part of this model. It registers the update map without its ignore rules, and which registration wins is library behaviour.
- `UserCreateRequest.Password` is `byte[]` in the source but is passed where a `string` is expected. Both are modelled as `string`. `IUserRepository` does not declare the by-email lookup that sign-in calls.
- Null byte arrays are modelled as empty sequences. This applies to the hash and salt of a record built by a map. Likewise, the Name and Email of a record built by the photo-url map are null in the source (`default!`) and `""` here.
- Responses.ApiResponse: `default(T)` is one value, `None`. The delete endpoint's 400 envelope is an `ApiResponse<UserDetailResponse>` with a null result, while its 500 and 200 envelopes are `ApiResponse<bool>`. So that 500 serializes the result as `false`, which the model does not distinguish.
- DotNet.ToLower lowers ASCII letters only. DotNet.GetExtension knows '/' as the only directory separator.
- JwtHelper.Descriptor: the expiry is a tick count with no upper bound, so `DateTime` overflow is not modelled.
- JwtHelper.Token: a signing key the token handler refuses throws there, for example the zero-length key when no "JWT" value is configured. Such key-length failures are left to the `write` parameter, which may return any exception.
- In `FileUploadService`, the following are I/O or library formatting and are left out: `GetFileSizeString` and the `FileSize` member it fills (floating point and F3 formatting), `GetMimeType` (library lookup table), directory creation, the file write, and `DeleteFile`.
- Users.UserService.AddUser and Users.UserService.UpdateUser store a null Mobile and reply with the record. Data-annotation constraints are not modelled: the request attributes such as `[EmailAddress]` and `[MaxLength]`, and the entity's column constraints, `[Required]` on `DbUser.Mobile` and `[MaxLength]`. In the source, the database rejects such a row on save with a `DbUpdateException`, which the endpoint reports as a 500.
- Claim construction with a null Name or Email would throw. Those members are non-nullable strings here.
