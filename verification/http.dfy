/** The bearer authorization scheme the client writes and the server reads. */
module Http {
  import opened Strings

  /** The scheme prefix of an `Authorization` header, trailing space included. */
  const BearerPrefix: string := "Bearer "

  /** The header value the client sends with its ID token: `Bearer ${token}`. */
  function BearerAuthorization(token: string): (header: string)
    ensures StartsWith(header, BearerPrefix)
    ensures header[|BearerPrefix|..] == token
  {
    BearerPrefix + token
  }
}
