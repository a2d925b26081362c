// OAuth 2.0 names (pkg/api/oauth2/oauth2.go): grant types, response types and error
// codes of RFC 6749, each a Go string type.
module OAuth2 {
  type GrantType = string

  const GrantTypeAuthorizationCode: GrantType := "authorization_code"
  const GrantTypeClientCredentials: GrantType := "client_credentials"
  const GrantTypePassword: GrantType := "password"
  const GrantTypeRefreshToken: GrantType := "refresh_token"
  const GrantTypeUnknown: GrantType := ""

  /** GrantTypeFromString: one of the four grant types, else the unknown grant type. */
  function GrantTypeFromString(s: string): (r: GrantType)
    ensures r in {GrantTypeAuthorizationCode, GrantTypeClientCredentials, GrantTypePassword, GrantTypeRefreshToken,
                  GrantTypeUnknown}
    ensures r != GrantTypeUnknown ==> r == s
    ensures s in {GrantTypeAuthorizationCode, GrantTypeClientCredentials, GrantTypePassword, GrantTypeRefreshToken} ==> r == s
  {
    if s == GrantTypeAuthorizationCode then GrantTypeAuthorizationCode
    else if s == GrantTypeClientCredentials then GrantTypeClientCredentials
    else if s == GrantTypePassword then GrantTypePassword
    else if s == GrantTypeRefreshToken then GrantTypeRefreshToken
    else GrantTypeUnknown
  }

  /** The grant_type values of sections 4.1.3, 4.3.2, 4.4.2 and 6 of RFC 6749. */
  const Rfc6749GrantTypes: set<string> := {"authorization_code", "password", "client_credentials", "refresh_token"}

  /** Exactly the grant types of RFC 6749 parse, each to itself; anything else is unknown. */
  lemma GrantTypesOfRfc6749(s: string)
    ensures s in Rfc6749GrantTypes ==> GrantTypeFromString(s) == s
    ensures s !in Rfc6749GrantTypes ==> GrantTypeFromString(s) == GrantTypeUnknown == ""
  {
  }

  /** Parsing a parsed grant type again gives it back. */
  lemma GrantTypeFromStringIdempotent(s: string)
    ensures GrantTypeFromString(GrantTypeFromString(s)) == GrantTypeFromString(s)
  {
  }

  type ResponseType = string

  const ResponseTypeCode: ResponseType := "code"
  const ResponseTypeToken: ResponseType := "token"
  const ResponseTypeUnknown: ResponseType := ""

  /** ResponseTypeFromString: "code" or "token", else the unknown response type. */
  function ResponseTypeFromString(s: string): (r: ResponseType)
    ensures r in {ResponseTypeCode, ResponseTypeToken, ResponseTypeUnknown}
    ensures r != ResponseTypeUnknown ==> r == s
    ensures s == "code" || s == "token" ==> r == s
  {
    if s == ResponseTypeCode then ResponseTypeCode
    else if s == ResponseTypeToken then ResponseTypeToken
    else ResponseTypeUnknown
  }

  /** ResponseType.String: the underlying string. */
  function ResponseTypeString(responseType: ResponseType): (r: string)
  {
    responseType
  }

  /** The response_type values of section 3.1.1 of RFC 6749. */
  const Rfc6749ResponseTypes: set<string> := {"code", "token"}

  /** Printing a known response type and parsing it back gives it back; the parser is idempotent. */
  lemma ResponseTypeRoundTrip(t: ResponseType, s: string)
    ensures t in Rfc6749ResponseTypes ==> ResponseTypeFromString(ResponseTypeString(t)) == t
    ensures ResponseTypeFromString(ResponseTypeString(ResponseTypeFromString(s))) == ResponseTypeFromString(s)
    ensures s !in Rfc6749ResponseTypes ==> ResponseTypeFromString(s) == ""
  {
  }

  type ErrorCode = string

  const ErrorServerError: ErrorCode := "server_error"
  const ErrorInvalidRequest: ErrorCode := "invalid_request"
  const ErrorInvalidClient: ErrorCode := "invalid_client"
  const ErrorInvalidGrant: ErrorCode := "invalid_grant"
  const ErrorUnauthorizedClient: ErrorCode := "unauthorized_client"
  const ErrorUnsupportedGrantType: ErrorCode := "unsupported_grant_type"

  /** The token endpoint's error codes, section 5.2 of RFC 6749. */
  const Rfc6749TokenErrors: set<string> :=
    {"invalid_request", "invalid_client", "invalid_grant", "unauthorized_client", "unsupported_grant_type", "invalid_scope"}

  /** The authorization endpoint's error codes, section 4.1.2.1 of RFC 6749. */
  const Rfc6749AuthorizationErrors: set<string> :=
    {"invalid_request", "unauthorized_client", "access_denied", "unsupported_response_type", "invalid_scope",
     "server_error", "temporarily_unavailable"}

  /**
   * Five of the codes are token endpoint codes of section 5.2; server_error is not one of
   * them, it is the authorization endpoint's code of section 4.1.2.1.
   */
  lemma ErrorCodesOfRfc6749()
    ensures ErrorInvalidRequest in Rfc6749TokenErrors && ErrorInvalidClient in Rfc6749TokenErrors
    ensures ErrorInvalidGrant in Rfc6749TokenErrors && ErrorUnauthorizedClient in Rfc6749TokenErrors
    ensures ErrorUnsupportedGrantType in Rfc6749TokenErrors
    ensures ErrorServerError !in Rfc6749TokenErrors && ErrorServerError in Rfc6749AuthorizationErrors
  {
  }

  /** The token type the server issues; token types compare case-insensitively. */
  const TokenTypeBearer: string := "bearer"
}
