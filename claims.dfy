/**
 * The verified claim set of an access token, as the verifier hands it over
 * and as the handler stores it in the user badge. PHP carries it as an
 * untyped array; here the fields the bundle reads are typed.
 */
module Claims {
  import opened Wrappers
  import PhpSerialize

  /** The badge attribute under which the handler stores the claims. */
  const AllClaimsKey: string := "oauth_token_all_claims"

  /** The `aud` claim: one client id, or a list whose first entry counts. */
  datatype Audience = Scalar(clientId: string) | List(clientIds: seq<string>)

  /**
   * jti: the token id as PHP reads $token->jti: the bytes of the string,
   *      or null when the token has no jti claim.
   * user: the `user` object of an end-user token, field name to value;
   *       None when the token carries no `user` claim.
   * others: every other claim, kept as text.
   */
  datatype ClaimSet = ClaimSet(
    jti: PhpSerialize.Value,
    aud: Audience,
    realm: string,
    scopes: seq<string>,
    user: Option<map<string, string>>,
    others: map<string, string>)

  /**
   * What a badge attribute may hold: the claim array, an empty array, PHP's
   * false (what json_decode(json_encode(false), true) gives), or another
   * non-array value.
   */
  datatype AttributeValue = AllClaims(claims: ClaimSet) | EmptyArray | FalseValue | NonArray(text: string)
}
