/** `JWTHelper.GenerateJwtToken`: the claims, expiry and signing key of the
    token issued for a signed-in user. Encoding and signing the token are a
    parameter. */
module JwtHelper {
  import opened DotNet
  import opened Entities

  /** The `ClaimTypes` constants the token uses. */
  const NameIdentifierClaim: string := "http://schemas.xmlsoap.org/ws/2005/05/identity/claims/nameidentifier"
  const NameClaim: string := "http://schemas.xmlsoap.org/ws/2005/05/identity/claims/name"
  const EmailClaim: string := "http://schemas.xmlsoap.org/ws/2005/05/identity/claims/emailaddress"
  const MobileClaim: string := "mobile"
  const PhotoUrlClaim: string := "photoUrl"

  /** `SecurityAlgorithms.HmacSha256Signature`. */
  const HmacSha256Signature: string := "http://www.w3.org/2001/04/xmldsig-more#hmac-sha256"

  /** `DateTime` ticks (100 ns) in one day. */
  const TicksPerDay: int := 864_000_000_000

  /** How long a token is valid. */
  const TokenLifetimeDays: int := 30

  datatype Claim = Claim(claimType: string, value: string)

  /** `SecurityTokenDescriptor`: subject claims, expiry (in UTC ticks),
      symmetric key bytes and signing algorithm. */
  datatype TokenDescriptor = TokenDescriptor(subject: seq<Claim>, expires: int, signingKey: Bytes, algorithm: string)

  /** What issuing a token needs besides the user: the configured "JWT" value
      (absent when not configured), the current UTC time in ticks and the
      token handler, which encodes and signs a descriptor or throws. */
  datatype TokenIssuer = TokenIssuer(jwtSetting: Option<string>, utcNowTicks: int, write: TokenDescriptor -> Outcome<string>)

  /** The three claims every token starts with. */
  function IdentityClaims(result: AuthResponse): seq<Claim> {
    [Claim(NameIdentifierClaim, GuidToString(result.id)), Claim(NameClaim, result.name), Claim(EmailClaim, result.email)]
  }

  /** The claim list: identity, then "mobile" when the user has a mobile
      that is not blank, then "photoUrl" when the user has a photo url that is
      not blank. */
  function Claims(result: AuthResponse): (cs: seq<Claim>)
    ensures 3 <= |cs| <= 5
    ensures cs[..3] == IdentityClaims(result)
    ensures |cs| == 3 + (if IsNullOrWhiteSpace(result.mobile) then 0 else 1) + (if IsNullOrWhiteSpace(result.photoUrl) then 0 else 1)
    ensures !IsNullOrWhiteSpace(result.mobile) ==> cs[3] == Claim(MobileClaim, result.mobile.value)
    ensures !IsNullOrWhiteSpace(result.photoUrl) ==> cs[|cs| - 1] == Claim(PhotoUrlClaim, result.photoUrl.value)
  {
    var mobile := OptionalClaim(MobileClaim, result.mobile);
    var photo := OptionalClaim(PhotoUrlClaim, result.photoUrl);
    IdentityClaims(result) + mobile + photo
  }

  /** The claims after the identity are a "mobile" claim only when the mobile
      is not blank and a "photoUrl" claim only when the photo url is not
      blank, with the photo url after the mobile, and nothing else. */
  lemma ExtraClaimsFollowProfile(result: AuthResponse)
    ensures var cs := Claims(result);
      && (forall i :: 3 <= i < |cs| && cs[i].claimType == MobileClaim ==> !IsNullOrWhiteSpace(result.mobile))
      && (forall i :: 3 <= i < |cs| && cs[i].claimType == PhotoUrlClaim ==> !IsNullOrWhiteSpace(result.photoUrl))
      && (forall i, j :: 3 <= i < |cs| && 3 <= j < |cs| && cs[i].claimType == PhotoUrlClaim && cs[j].claimType == MobileClaim ==> j < i)
      && (forall i :: 3 <= i < |cs| ==> cs[i].claimType in {MobileClaim, PhotoUrlClaim})
  {
    var mobile := OptionalClaim(MobileClaim, result.mobile);
    var photo := OptionalClaim(PhotoUrlClaim, result.photoUrl);
    var cs := Claims(result);
    assert cs == IdentityClaims(result) + mobile + photo;
    assert forall i :: 3 <= i < 3 + |mobile| ==> cs[i] == mobile[i - 3];
    assert forall i :: 3 + |mobile| <= i < |cs| ==> cs[i] == photo[i - 3 - |mobile|];
  }

  /** The claim `claimType` carries `value` when the value is not blank, and
      nothing otherwise. */
  function OptionalClaim(claimType: string, value: Option<string>): (cs: seq<Claim>)
    ensures |cs| == if IsNullOrWhiteSpace(value) then 0 else 1
    ensures |cs| == 1 ==> cs[0] == Claim(claimType, value.value)
  {
    if IsNullOrWhiteSpace(value) then [] else [Claim(claimType, value.value)]
  }

  /** The descriptor of the token: the claim list, expiry 30 days after
      issue, the ASCII bytes of the configured key ("" when none) and
      HMAC-SHA-256. */
  function Descriptor(result: AuthResponse, issuer: TokenIssuer): (d: TokenDescriptor)
    ensures d.subject == Claims(result)
    ensures d.expires - issuer.utcNowTicks == TokenLifetimeDays * TicksPerDay
    ensures issuer.jwtSetting.None? ==> d.signingKey == []
    ensures issuer.jwtSetting.Some? ==> |d.signingKey| == |issuer.jwtSetting.value|
    ensures d.algorithm == HmacSha256Signature
  {
    TokenDescriptor(Claims(result), issuer.utcNowTicks + TokenLifetimeDays * TicksPerDay,
      AsciiBytes(if issuer.jwtSetting.None? then "" else issuer.jwtSetting.value), HmacSha256Signature)
  }

  /** The token the issuer writes for `result`. */
  function Token(result: AuthResponse, issuer: TokenIssuer): Outcome<string> {
    issuer.write(Descriptor(result, issuer))
  }

  /** `GenerateJwtToken`: the claim list is built by appending, and the token
      is the handler's encoding of the descriptor. */
  method GenerateJwtToken(result: AuthResponse, issuer: TokenIssuer) returns (token: Outcome<string>)
    ensures token == Token(result, issuer)
  {
    var tokenKey := AsciiBytes(if issuer.jwtSetting.None? then "" else issuer.jwtSetting.value);
    var claims := [Claim(NameIdentifierClaim, GuidToString(result.id)), Claim(NameClaim, result.name), Claim(EmailClaim, result.email)];
    if !IsNullOrWhiteSpace(result.mobile) {
      claims := claims + [Claim(MobileClaim, result.mobile.value)];
    }
    if !IsNullOrWhiteSpace(result.photoUrl) {
      claims := claims + [Claim(PhotoUrlClaim, result.photoUrl.value)];
    }
    assert claims == Claims(result);
    var descriptor := TokenDescriptor(claims, issuer.utcNowTicks + TokenLifetimeDays * TicksPerDay, tokenKey, HmacSha256Signature);
    token := issuer.write(descriptor);
  }

  /** Blank mobiles and photo urls are dropped: a user whose mobile is "" (as
      every signed-up user's is) gets the same claims as one without. */
  lemma BlankMobileIsNoMobile(result: AuthResponse)
    requires IsNullOrWhiteSpace(result.mobile)
    ensures Claims(result) == Claims(result.(mobile := None))
  {
  }

  /** The key holds one byte per character of the configured value; the
      characters outside ASCII become '?'. */
  lemma SigningKeyBytes(result: AuthResponse, issuer: TokenIssuer)
    requires issuer.jwtSetting.Some?
    ensures forall i :: 0 <= i < |issuer.jwtSetting.value| ==>
      Descriptor(result, issuer).signingKey[i] == AsciiByte(issuer.jwtSetting.value[i])
  {
  }
}
