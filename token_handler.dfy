/**
 * OAuthAccessTokenHandler: turns the verifier's answer for a bearer token
 * into a user badge, or into BadCredentials.
 */
module AccessTokenHandler {
  import opened Wrappers
  import opened Claims
  import Base64
  import PhpSerialize

  /**
   * What AccessTokenVerifier::verifyToken does with a token: return its
   * claims, return false (its declared type is false|stdClass), throw an
   * Exception, or throw a PHP Error (a TypeError, say), which is not an
   * Exception.
   */
  datatype Verification =
    | Verified(claims: ClaimSet)
    | ReturnedFalse
    | VerificationFailed(message: string)
    | VerifierError(message: string)

  /** BadCredentials is the handler's own exception; Uncaught is an Error passing through the handler. */
  datatype HandlerError = BadCredentials | Uncaught(message: string)

  /** UserBadge: the user identifier and the attributes handed to the user provider. */
  datatype UserBadge = UserBadge(userIdentifier: string, attributes: map<string, AttributeValue>)

  /** The outcome of one call, with what was written to the logger. */
  datatype BadgeRun = BadgeRun(outcome: Result<UserBadge, HandlerError>, logged: seq<string>)

  const FailureLogPrefix: string := "Failed to verify access token: "

  /** UserBadge::MAX_USERNAME_LENGTH of Symfony's security component. */
  const MaxUsernameLength: nat := 4096

  /** The message of the BadCredentialsException that UserBadge throws for a too long identifier. */
  const UsernameTooLongMessage: string := "Username too long."

  /** base64_encode(serialize($token->jti)). */
  function BadgeIdentifier(jti: PhpSerialize.Value): string {
    Base64.Encode(PhpSerialize.SerializeValue(jti))
  }

  /**
   * new UserBadge($identifier, null, $attributes): Symfony's constructor
   * refuses an identifier longer than MaxUsernameLength bytes (characters
   * here, which agree for the ASCII identifiers the handler builds) with a
   * BadCredentialsException, whose message is returned here.
   */
  function NewUserBadge(identifier: string, attributes: map<string, AttributeValue>): (r: Result<UserBadge, string>)
    ensures r.Success? <==> |identifier| <= MaxUsernameLength
    ensures r.Success? ==> r.value.userIdentifier == identifier && r.value.attributes == attributes
    ensures r.Failure? ==> r.error == UsernameTooLongMessage
  {
    if |identifier| > MaxUsernameLength then Failure(UsernameTooLongMessage)
    else Success(UserBadge(identifier, attributes))
  }

  /**
   * getUserBadgeFrom. verifyToken stands for the verifier (signature and
   * expiry checks over the configured public key); hasLogger says whether a
   * logger was injected. The verifier's Exception and the badge's own
   * refusal are caught, logged and turned into BadCredentials; an Error
   * passes through unlogged. When the verifier returns false, $token->jti
   * reads as null and the claims attribute is false, so a badge is built.
   */
  function GetUserBadgeFrom(accessToken: string, verifyToken: string -> Verification, hasLogger: bool): (run: BadgeRun)
    ensures run.outcome.Success? <==>
      verifyToken(accessToken).ReturnedFalse? ||
      (verifyToken(accessToken).Verified? &&
       |BadgeIdentifier(verifyToken(accessToken).claims.jti)| <= MaxUsernameLength)
    ensures run.outcome.Failure? ==>
      run.outcome.error == if verifyToken(accessToken).VerifierError?
                           then Uncaught(verifyToken(accessToken).message)
                           else BadCredentials
    ensures run.outcome.Success? && verifyToken(accessToken).Verified? ==>
      var claims := verifyToken(accessToken).claims;
      run.outcome.value.userIdentifier == BadgeIdentifier(claims.jti) &&
      run.outcome.value.attributes == map[AllClaimsKey := AllClaims(claims)]
    ensures run.outcome.Success? && verifyToken(accessToken).ReturnedFalse? ==>
      run.outcome.value.userIdentifier == BadgeIdentifier(PhpSerialize.Null) &&
      run.outcome.value.attributes == map[AllClaimsKey := FalseValue]
    ensures !hasLogger || run.outcome.Success? || verifyToken(accessToken).VerifierError? ==> run.logged == []
    ensures hasLogger && verifyToken(accessToken).VerificationFailed? ==>
      run.logged == [FailureLogPrefix + verifyToken(accessToken).message]
    ensures hasLogger && verifyToken(accessToken).Verified? && run.outcome.Failure? ==>
      run.logged == [FailureLogPrefix + UsernameTooLongMessage]
  {
    match verifyToken(accessToken)
    case Verified(claims) => BuildBadge(BadgeIdentifier(claims.jti), map[AllClaimsKey := AllClaims(claims)], hasLogger)
    case ReturnedFalse => BuildBadge(BadgeIdentifier(PhpSerialize.Null), map[AllClaimsKey := FalseValue], hasLogger)
    case VerificationFailed(message) => Caught(message, hasLogger)
    case VerifierError(message) => BadgeRun(Failure(Uncaught(message)), [])
  }

  /** The catch block: log the message when there is a logger, then raise BadCredentials. */
  function Caught(message: string, hasLogger: bool): BadgeRun {
    BadgeRun(Failure(BadCredentials), if hasLogger then [FailureLogPrefix + message] else [])
  }

  /** `return new UserBadge(...)` inside the try: the badge, or the caught refusal. */
  function BuildBadge(identifier: string, attributes: map<string, AttributeValue>, hasLogger: bool): BadgeRun {
    match NewUserBadge(identifier, attributes)
    case Success(badge) => BadgeRun(Success(badge), [])
    case Failure(message) => Caught(message, hasLogger)
  }

  /** The logger changes what is logged and nothing else. */
  lemma LoggerOnlyLogs(accessToken: string, verifyToken: string -> Verification)
    ensures GetUserBadgeFrom(accessToken, verifyToken, true).outcome == GetUserBadgeFrom(accessToken, verifyToken, false).outcome
    ensures GetUserBadgeFrom(accessToken, verifyToken, false).logged == []
  {
  }

  /** The badge identifier uses the base64 alphabet, with '=' padding only at the end, in groups of four. */
  lemma BadgeIdentifierShape(jti: PhpSerialize.Value)
    ensures var id := BadgeIdentifier(jti);
      && |id| % 4 == 0
      && |id| > 0
      && (forall i :: 0 <= i < |id| ==> Base64.IsAlphabetChar(id[i]) || id[i] == '=')
      && (forall i :: 0 <= i < |id| - 2 ==> Base64.IsAlphabetChar(id[i]))
  {
  }

  /** Distinct token ids give distinct badge identifiers. */
  lemma BadgeIdentifierInjective(jti1: PhpSerialize.Value, jti2: PhpSerialize.Value)
    requires jti1 != jti2
    ensures BadgeIdentifier(jti1) != BadgeIdentifier(jti2)
  {
    if BadgeIdentifier(jti1) == BadgeIdentifier(jti2) {
      Base64.EncodeInjective(PhpSerialize.SerializeValue(jti1), PhpSerialize.SerializeValue(jti2));
      PhpSerialize.SerializeValueInjective(jti1, jti2);
    }
  }

  /**
   * The badge accepts the identifier of every token without a jti and of
   * every jti of at most 3062 bytes, and refuses longer ones: serialize adds
   * 6 bytes and the length's digits, and base64 turns 3072 bytes into 4096
   * characters.
   */
  lemma BadgeIdentifierFits(jti: PhpSerialize.Value)
    ensures |BadgeIdentifier(jti)| <= MaxUsernameLength <==> jti.Null? || |jti.bytes| <= 3062
  {
    if jti.Str? {
      var n := |jti.bytes|;
      PhpSerialize.DecimalWidth(n);
      assert |PhpSerialize.SerializeValue(jti)| == n + 6 + |PhpSerialize.Decimal(n)|;
    }
  }

  /** Every token without a jti gets the same identifier, base64("N;"). */
  lemma NullJtiIdentifier()
    ensures BadgeIdentifier(PhpSerialize.Null) == "Tjs="
  {
    assert PhpSerialize.SerializeValue(PhpSerialize.Null) == [78, 59];
    assert Base64.Encode([78, 59]) == Base64.EncodePair(78, 59);
  }
}
