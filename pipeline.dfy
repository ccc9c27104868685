/**
 * How the pieces meet: the handler's badge goes to the user provider, and
 * the user it builds goes to the scope voter.
 */
module Pipeline {
  import opened Wrappers
  import opened Claims
  import opened User
  import opened AccessTokenHandler
  import opened UserProvider
  import opened ScopeVoter
  import Base64
  import PhpSerialize

  /** Decoding the badge identifier the way the provider does gives back the token id. */
  lemma BadgeIdentifierRoundTrip(jti: PhpSerialize.Value)
    ensures TokenIdOf(BadgeIdentifier(jti)) == Some(jti)
  {
    Base64.DecodeEncode(PhpSerialize.SerializeValue(jti));
    PhpSerialize.ValueRoundTrip(jti);
  }

  /**
   * A verified token whose client is known yields a user with the token's
   * realm and scopes, and that user is granted a scope-like attribute
   * exactly when the token lists it. Tokens that fail verification, and
   * tokens whose jti is too long for a badge identifier, yield no badge.
   */
  lemma TokenToDecision<S>(accessToken: string, verifyToken: string -> Verification, hasLogger: bool,
                           clientName: (string, string) -> Option<string>, subject: S, attribute: string)
    ensures var v := verifyToken(accessToken);
      GetUserBadgeFrom(accessToken, verifyToken, hasLogger).outcome.Failure? <==>
        v.VerificationFailed? || v.VerifierError? || (v.Verified? && v.claims.jti.Str? && |v.claims.jti.bytes| > 3062)
    ensures var run := GetUserBadgeFrom(accessToken, verifyToken, hasLogger);
      run.outcome.Success? && verifyToken(accessToken).Verified? ==>
        var badge := run.outcome.value;
        var c := verifyToken(accessToken).claims;
        var user := ResolveUser(badge.userIdentifier, badge.attributes, clientName);
        && TokenIdOf(badge.userIdentifier) == Some(c.jti)
        && (user.Success? <==> clientName(AudienceClientId(c.aud), c.realm).Some?)
        && (user.Success? ==>
              && user.value.realm == c.realm
              && user.value.scopes == c.scopes
              && (Vote(user.value, subject, attribute) == Granted <==>
                    Supports(attribute, subject) && attribute in c.scopes))
  {
    var run := GetUserBadgeFrom(accessToken, verifyToken, hasLogger);
    if verifyToken(accessToken).Verified? {
      BadgeIdentifierFits(verifyToken(accessToken).claims.jti);
    }
    if run.outcome.Success? && verifyToken(accessToken).Verified? {
      var c := verifyToken(accessToken).claims;
      BadgeIdentifierRoundTrip(c.jti);
      assert ClaimsOf(run.outcome.value.attributes) == Some(c);
    }
  }

  /**
   * A verifier that returns false still gets a badge, with the identifier
   * of a null jti and false as the claims, and the provider then refuses
   * that badge with UserNotFound.
   */
  lemma FalseVerificationRefusedLater(accessToken: string, verifyToken: string -> Verification, hasLogger: bool,
                                      clientName: (string, string) -> Option<string>)
    requires verifyToken(accessToken).ReturnedFalse?
    ensures var run := GetUserBadgeFrom(accessToken, verifyToken, hasLogger);
      && run.outcome.Success?
      && run.outcome.value.userIdentifier == "Tjs="
      && run.logged == []
      && ResolveUser(run.outcome.value.userIdentifier, run.outcome.value.attributes, clientName) == Failure(UserNotFound)
  {
    NullJtiIdentifier();
  }

  /** The end-to-end example: an end user of client cli-1 in realm acme may read and may not write. */
  lemma AcmeScenario<S>(jti: PhpSerialize.Value, subject: S)
    ensures
      var c := ClaimSet(jti, List(["cli-1"]), "acme", ["read"], Some(map["id" := "u9"]), map[]);
      var user := ResolveUser(BadgeIdentifier(jti), map[AllClaimsKey := AllClaims(c)], (id, realm) => Some("CLI"));
      && user.Success?
      && user.value.identifier == "acme | user u9 | cli-1 (CLI)"
      && Vote(user.value, subject, "read") == Granted
      && Vote(user.value, subject, "write") == Denied
  {
    var c := ClaimSet(jti, List(["cli-1"]), "acme", ["read"], Some(map["id" := "u9"]), map[]);
    assert ClaimsOf(map[AllClaimsKey := AllClaims(c)]) == Some(c);
    assert "id" in c.user.value;
    assert HasEndUser(c) && EndUserId(c) == "u9";
    assert "acme" + " | user " == "acme | user ";
    assert "acme | user " + "u9" == "acme | user u9";
    assert "acme | user u9" + " | " == "acme | user u9 | ";
    assert "acme | user u9 | " + "cli-1" == "acme | user u9 | cli-1";
    assert "acme | user u9 | cli-1" + " (" == "acme | user u9 | cli-1 (";
    assert "acme | user u9 | cli-1 (" + "CLI" == "acme | user u9 | cli-1 (CLI";
    assert "acme | user u9 | cli-1 (CLI" + ")" == "acme | user u9 | cli-1 (CLI)";
    assert IsScopeName("read") && IsScopeName("write");
    assert "write"[0] != "read"[0];
    VoteOnScopeName(Authorizable("acme | user u9 | cli-1 (CLI)", "acme", ["read"]), subject, "read");
    VoteOnScopeName(Authorizable("acme | user u9 | cli-1 (CLI)", "acme", ["read"]), subject, "write");
  }

  /** A token user built by the provider and then refreshed is a new object, still in the state the provider gave it. */
  method LoadThenRefresh(identifier: string, attributes: map<string, AttributeValue>,
                         clientName: (string, string) -> Option<string>)
    returns (r: Result<OAuthAccessTokenUser, ProviderError>)
    ensures r.Success? <==> ResolveUser(identifier, attributes, clientName).Success?
    ensures r.Success? ==> fresh(r.value) && r.value.AsPrincipal() == ResolveUser(identifier, attributes, clientName).value
  {
    var loaded := LoadUserByIdentifier(identifier, attributes, clientName);
    if loaded.Failure? {
      return loaded;
    }
    r := RefreshUser(TokenUser(loaded.value));
    assert r.value == loaded.value;
  }
}
