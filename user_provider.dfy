/**
 * OAuthAccessTokenUserProvider: rebuilds the token user from the claims
 * that the handler put in the badge, and refreshes token users.
 */
module UserProvider {
  import opened Wrappers
  import opened Claims
  import opened User
  import Base64
  import PhpSerialize

  /**
   * UserNotFound and UnsupportedUser are the exceptions the provider throws;
   * ClassNotFound is the PHP error that `new` of an undeclared class raises.
   */
  datatype ProviderError = UserNotFound | UnsupportedUser(className: string) | ClassNotFound(className: string)

  /** The class name PHP reports for a user. */
  function ClassOf(u: UserRef): string {
    match u
    case TokenUser(_) => TokenUserClass
    case OtherUser(name) => name
  }

  /** refreshUser: a token user comes back as the very same object; any other user is unsupported. */
  function RefreshUser(u: UserRef): (r: Result<OAuthAccessTokenUser, ProviderError>)
    ensures r.Success? <==> u.TokenUser?
    ensures r.Success? ==> r.value == u.user
    ensures r.Failure? ==> r.error == UnsupportedUser(ClassOf(u))
  {
    match u
    case TokenUser(user) => Success(user)
    case OtherUser(name) => Failure(UnsupportedUser(name))
  }

  /** supportsClass: only the token user class is supported. */
  predicate SupportsClass(className: string) {
    className == TokenUserClass
  }

  /** A user can be refreshed exactly when its class is supported. */
  lemma RefreshAgreesWithSupportsClass(u: UserRef)
    ensures RefreshUser(u).Success? <==> SupportsClass(ClassOf(u))
  {
  }

  /**
   * $attributes['oauth_token_all_claims'] ?? [], when it is a non-empty
   * array. A missing key reads as the empty array.
   */
  function ClaimsOf(attributes: map<string, AttributeValue>): (r: Option<ClaimSet>)
    ensures r.Some? <==> AllClaimsKey in attributes && attributes[AllClaimsKey].AllClaims?
    ensures r.Some? ==> attributes[AllClaimsKey] == AllClaims(r.value)
  {
    if AllClaimsKey in attributes then
      match attributes[AllClaimsKey]
      case AllClaims(c) => Some(c)
      case _ => None
    else None
  }

  /**
   * $token['aud'][0], read as intended: the first entry of a list, or the
   * whole string of a single audience. (Literally, indexing a PHP string
   * with [0] gives its first character; see AudienceClientIdAsWritten.) An
   * empty list has no entry 0: PHP reads null, which formats as "".
   */
  function AudienceClientId(aud: Audience): string {
    match aud
    case Scalar(id) => id
    case List(ids) => if |ids| == 0 then "" else ids[0]
  }

  /**
   * $token['aud'][0] as written: on a string audience, its first character.
   * PHP's string offset takes the first byte; here strings are characters,
   * so the two agree only when the audience starts with an ASCII character.
   */
  function AudienceClientIdAsWritten(aud: Audience): string {
    match aud
    case Scalar(id) => if |id| == 0 then "" else id[..1]
    case List(ids) => if |ids| == 0 then "" else ids[0]
  }

  /** !empty($token['user']): the claim is present and has at least one field. */
  predicate HasEndUser(c: ClaimSet) {
    c.user.Some? && c.user.value != map[]
  }

  /** $token['user']['id']; a missing id reads as null, which formats as "". */
  function EndUserId(c: ClaimSet): string
    requires HasEndUser(c)
  {
    if "id" in c.user.value then c.user.value["id"] else ""
  }

  /** The token id the provider decodes from the badge identifier (and never uses). */
  function TokenIdOf(identifier: string): (r: Option<PhpSerialize.Value>)
    ensures r.Some? ==> |identifier| % 4 == 0
  {
    match Base64.Decode(identifier)
    case None => None
    case Some(serialized) => PhpSerialize.UnserializeValue(serialized)
  }

  /**
   * loadUserByIdentifier as a value: the state of the user it returns, or
   * UserNotFound. clientName(clientId, realm) is the client lookup.
   */
  function ResolveUser(identifier: string, attributes: map<string, AttributeValue>,
                       clientName: (string, string) -> Option<string>): (r: Result<Principal, ProviderError>)
    ensures r.Failure? ==> r.error == UserNotFound
    ensures r.Success? <==>
      ClaimsOf(attributes).Some? &&
      clientName(AudienceClientId(ClaimsOf(attributes).value.aud), ClaimsOf(attributes).value.realm).Some?
    ensures r.Success? ==>
      var c := ClaimsOf(attributes).value;
      var clientId := AudienceClientId(c.aud);
      var name := clientName(clientId, c.realm).value;
      && r.value.Authorizable?
      && r.value.realm == c.realm
      && r.value.scopes == c.scopes
      && (HasEndUser(c) ==>
            r.value.identifier == c.realm + " | user " + EndUserId(c) + " | " + clientId + " (" + name + ")")
      && (!HasEndUser(c) ==> r.value.identifier == clientId + " (" + name + ")")
  {
    match ClaimsOf(attributes)
    case None => Failure(UserNotFound)
    case Some(c) =>
      var clientId := AudienceClientId(c.aud);
      match clientName(clientId, c.realm)
      case None => Failure(UserNotFound)
      case Some(name) =>
        if HasEndUser(c) then
          Success(Authorizable(c.realm + " | user " + EndUserId(c) + " | " + clientId + " (" + name + ")", c.realm, c.scopes))
        else
          Success(Authorizable(clientId + " (" + name + ")", c.realm, c.scopes))
  }

  /**
   * loadUserByIdentifier: builds the token user and then sets its scopes.
   * The user it returns is new and is in the state ResolveUser gives.
   */
  method LoadUserByIdentifier(identifier: string, attributes: map<string, AttributeValue>,
                              clientName: (string, string) -> Option<string>)
    returns (r: Result<OAuthAccessTokenUser, ProviderError>)
    ensures r.Success? <==> ResolveUser(identifier, attributes, clientName).Success?
    ensures r.Success? ==> fresh(r.value) && r.value.AsPrincipal() == ResolveUser(identifier, attributes, clientName).value
    ensures r.Failure? ==> r.error == ResolveUser(identifier, attributes, clientName).error
  {
    var tokenId := TokenIdOf(identifier);
    var claims := ClaimsOf(attributes);
    if claims.None? {
      return Failure(UserNotFound);
    }
    var c := claims.value;
    var clientId := AudienceClientId(c.aud);
    var realm := c.realm;
    var scopes := c.scopes;
    var client := clientName(clientId, realm);
    if client.None? {
      return Failure(UserNotFound);
    }
    if HasEndUser(c) {
      var user := new OAuthAccessTokenUser(realm + " | user " + EndUserId(c) + " | " + clientId + " (" + client.value + ")", realm);
      user.SetScopes(scopes);
      return Success(user);
    }
    var user := new OAuthAccessTokenUser(clientId + " (" + client.value + ")", realm);
    user.SetScopes(scopes);
    return Success(user);
  }

  /** A missing, empty or non-array claims attribute never yields a user. */
  lemma NoClaimsNoUser(identifier: string, attributes: map<string, AttributeValue>,
                       clientName: (string, string) -> Option<string>)
    requires AllClaimsKey !in attributes || !attributes[AllClaimsKey].AllClaims?
    ensures ResolveUser(identifier, attributes, clientName) == Failure(UserNotFound)
  {
  }

  /** When the client lookup finds nothing, no user is built. */
  lemma UnknownClientNoUser(identifier: string, c: ClaimSet, attributes: map<string, AttributeValue>,
                            clientName: (string, string) -> Option<string>)
    requires AllClaimsKey in attributes && attributes[AllClaimsKey] == AllClaims(c)
    requires clientName(AudienceClientId(c.aud), c.realm).None?
    ensures ResolveUser(identifier, attributes, clientName) == Failure(UserNotFound)
  {
  }

  /** The first audience entry is the client id; the others are ignored. */
  lemma FirstAudienceWins(clientId: string, others: seq<string>, c: ClaimSet,
                          identifier: string, clientName: (string, string) -> Option<string>)
    ensures AudienceClientId(List([clientId] + others)) == clientId
    ensures
      ResolveUser(identifier, map[AllClaimsKey := AllClaims(c.(aud := List([clientId] + others)))], clientName) ==
      ResolveUser(identifier, map[AllClaimsKey := AllClaims(c.(aud := Scalar(clientId)))], clientName)
  {
    var withList := map[AllClaimsKey := AllClaims(c.(aud := List([clientId] + others)))];
    var withScalar := map[AllClaimsKey := AllClaims(c.(aud := Scalar(clientId)))];
    assert ClaimsOf(withList) == Some(c.(aud := List([clientId] + others)));
    assert ClaimsOf(withScalar) == Some(c.(aud := Scalar(clientId)));
  }

  /** The identifier argument plays no part: only the claims and the lookup do. */
  lemma IdentifierIgnored(id1: string, id2: string, attributes: map<string, AttributeValue>,
                          clientName: (string, string) -> Option<string>)
    ensures ResolveUser(id1, attributes, clientName) == ResolveUser(id2, attributes, clientName)
  {
  }

  /** A user claim without fields is no end user: the client-only identifier is used. */
  lemma EmptyUserClaimIsClientOnly(identifier: string, c: ClaimSet, name: string)
    requires c.user == Some(map[])
    ensures var r := ResolveUser(identifier, map[AllClaimsKey := AllClaims(c)], (id, realm) => Some(name));
      r.Success? && r.value.identifier == AudienceClientId(c.aud) + " (" + name + ")"
  {
    assert ClaimsOf(map[AllClaimsKey := AllClaims(c)]) == Some(c);
  }

  /** The end-user scenario of the provider tests, with a lookup that names every client "Shop". */
  lemma EndUserScenario(identifier: string, jti: PhpSerialize.Value)
    ensures
      var endUser := ClaimSet(jti, Scalar("client-id"), "test-realm", ["read", "write"], Some(map["id" := "user-123"]), map[]);
      ResolveUser(identifier, map[AllClaimsKey := AllClaims(endUser)], (id, realm) => Some("Shop")) ==
        Success(Authorizable("test-realm | user user-123 | client-id (Shop)", "test-realm", ["read", "write"]))
  {
    var endUser := ClaimSet(jti, Scalar("client-id"), "test-realm", ["read", "write"], Some(map["id" := "user-123"]), map[]);
    assert ClaimsOf(map[AllClaimsKey := AllClaims(endUser)]) == Some(endUser);
    assert "id" in endUser.user.value;
    assert HasEndUser(endUser) && EndUserId(endUser) == "user-123";
    assert "test-realm" + " | user " == "test-realm | user ";
    assert "test-realm | user " + "user-123" == "test-realm | user user-123";
    assert "test-realm | user user-123" + " | " == "test-realm | user user-123 | ";
    assert "test-realm | user user-123 | " + "client-id" == "test-realm | user user-123 | client-id";
    assert "test-realm | user user-123 | client-id" + " (" == "test-realm | user user-123 | client-id (";
    assert "test-realm | user user-123 | client-id (" + "Shop" == "test-realm | user user-123 | client-id (Shop";
    assert "test-realm | user user-123 | client-id (Shop" + ")" == "test-realm | user user-123 | client-id (Shop)";
  }

  /** The client-only scenarios of the provider tests, one with a single and one with a listed audience. */
  lemma ClientScenarios(identifier: string, jti: PhpSerialize.Value)
    ensures
      var client := ClaimSet(jti, Scalar("client-id"), "test-realm", ["read", "write"], None, map[]);
      ResolveUser(identifier, map[AllClaimsKey := AllClaims(client)], (id, realm) => Some("Shop")) ==
        Success(Authorizable("client-id (Shop)", "test-realm", ["read", "write"]))
    ensures
      var listed := ClaimSet(jti, List(["client-id", "another-client"]), "test-realm", ["read", "write"], None, map[]);
      ResolveUser(identifier, map[AllClaimsKey := AllClaims(listed)], (id, realm) => Some("Shop")) ==
        Success(Authorizable("client-id (Shop)", "test-realm", ["read", "write"]))
  {
    var client := ClaimSet(jti, Scalar("client-id"), "test-realm", ["read", "write"], None, map[]);
    assert ClaimsOf(map[AllClaimsKey := AllClaims(client)]) == Some(client);
    var listed := ClaimSet(jti, List(["client-id", "another-client"]), "test-realm", ["read", "write"], None, map[]);
    assert ClaimsOf(map[AllClaimsKey := AllClaims(listed)]) == Some(listed);
    assert "client-id" + " (" + "Shop" + ")" == "client-id (Shop)";
  }

  /** The missing, empty and non-array claims scenarios of the provider tests. */
  lemma MissingClaimsScenarios(identifier: string)
    ensures ResolveUser(identifier, map[], (id, realm) => Some("Shop")) == Failure(UserNotFound)
    ensures ResolveUser(identifier, map[AllClaimsKey := EmptyArray], (id, realm) => Some("Shop")) == Failure(UserNotFound)
    ensures ResolveUser(identifier, map[AllClaimsKey := NonArray("not-an-array")], (id, realm) => Some("Shop")) == Failure(UserNotFound)
  {
  }

  /** The test's single string audience loses all but its first character as written. */
  lemma AsWrittenTruncatesScalarAudience()
    ensures AudienceClientIdAsWritten(Scalar("client-id")) == "c"
    ensures AudienceClientId(Scalar("client-id")) == "client-id"
  {
  }

  /** The intended reading agrees with the literal one wherever the audience is a list. */
  lemma AudienceReadingsAgreeOnLists(ids: seq<string>)
    ensures AudienceClientIdAsWritten(List(ids)) == AudienceClientId(List(ids))
  {
  }

  /** supportsClass as written: the file declares namespace Shoprenter\OauthJWTSecurity, so OAuthAccessTokenUser::class names a class outside the User namespace. */
  const TokenUserClassAsWritten: string := "Shoprenter\\OauthJWTSecurity\\OAuthAccessTokenUser"

  predicate SupportsClassAsWritten(className: string) {
    className == TokenUserClassAsWritten
  }

  /** The token user's real class is refused by the as-written check and accepted by the intended one. */
  lemma AsWrittenRefusesTokenUserClass()
    ensures !SupportsClassAsWritten(TokenUserClass) && SupportsClass(TokenUserClass)
    ensures !SupportsClass("Symfony\\Component\\Security\\Core\\User\\UserInterface")
  {
    assert TokenUserClass[28] != TokenUserClassAsWritten[28];
  }

  /**
   * refreshUser as written: in the line-3 namespace `OAuthAccessTokenUser`
   * names a class no file declares, so instanceof is false for every user
   * and every user is unsupported.
   */
  function RefreshUserAsWritten(u: UserRef): (r: Result<OAuthAccessTokenUser, ProviderError>)
    ensures r.Failure? && r.error.UnsupportedUser?
  {
    Failure(UnsupportedUser(ClassOf(u)))
  }

  /** As written, refreshUser rejects the token user that the intended code returns. */
  lemma AsWrittenRefusesTokenUser(user: OAuthAccessTokenUser)
    ensures RefreshUserAsWritten(TokenUser(user)) == Failure(UnsupportedUser(TokenUserClass))
    ensures RefreshUser(TokenUser(user)) == Success(user)
  {
  }

  /**
   * loadUserByIdentifier as written: the client id is read as line 41 reads
   * it (AudienceClientIdAsWritten); an unknown client gives UserNotFound as
   * in the intended code, and a known one reaches `new OAuthAccessTokenUser`,
   * which names the undeclared class of the line-3 namespace, so PHP stops
   * with a class-not-found error. The client lookup stays the clientName
   * parameter here, as in the intended model.
   */
  function ResolveUserAsWritten(identifier: string, attributes: map<string, AttributeValue>,
                                clientName: (string, string) -> Option<string>): (r: Result<Principal, ProviderError>)
    ensures r.Failure?
    ensures r.error == UserNotFound <==>
      ClaimsOf(attributes).None? ||
      clientName(AudienceClientIdAsWritten(ClaimsOf(attributes).value.aud), ClaimsOf(attributes).value.realm).None?
    ensures r.error.UserNotFound? || r.error == ClassNotFound(TokenUserClassAsWritten)
  {
    match ClaimsOf(attributes)
    case None => Failure(UserNotFound)
    case Some(c) =>
      match clientName(AudienceClientIdAsWritten(c.aud), c.realm)
      case None => Failure(UserNotFound)
      case Some(_) => Failure(ClassNotFound(TokenUserClassAsWritten))
  }

  /**
   * For a list audience both readings look up the same client, so wherever
   * the intended provider builds a user the as-written one raises
   * class-not-found, and elsewhere they fail alike.
   */
  lemma AsWrittenNeverLoadsUser(identifier: string, c: ClaimSet, ids: seq<string>,
                                clientName: (string, string) -> Option<string>)
    ensures var attributes := map[AllClaimsKey := AllClaims(c.(aud := List(ids)))];
      && (ResolveUser(identifier, attributes, clientName).Success? ==>
            ResolveUserAsWritten(identifier, attributes, clientName) == Failure(ClassNotFound(TokenUserClassAsWritten)))
      && (ResolveUser(identifier, attributes, clientName).Failure? ==>
            ResolveUserAsWritten(identifier, attributes, clientName) == ResolveUser(identifier, attributes, clientName))
  {
    var attributes := map[AllClaimsKey := AllClaims(c.(aud := List(ids)))];
    assert ClaimsOf(attributes) == Some(c.(aud := List(ids)));
    AudienceReadingsAgreeOnLists(ids);
  }

  /**
   * For the test's single audience "client-id" the two readings part: with a
   * lookup that knows only "client-id" the intended provider builds the
   * user and the as-written one looks up "c" and finds nothing; with a
   * lookup that knows only "c" the as-written one reaches `new`.
   */
  lemma AsWrittenLooksUpTruncatedClientId(identifier: string, jti: PhpSerialize.Value)
    ensures
      var client := ClaimSet(jti, Scalar("client-id"), "test-realm", ["read", "write"], None, map[]);
      var attributes := map[AllClaimsKey := AllClaims(client)];
      var knowsFull := (id: string, realm: string) => if id == "client-id" then Some("Shop") else None;
      var knowsC := (id: string, realm: string) => if id == "c" then Some("Shop") else None;
      && ResolveUser(identifier, attributes, knowsFull).Success?
      && ResolveUserAsWritten(identifier, attributes, knowsFull) == Failure(UserNotFound)
      && ResolveUser(identifier, attributes, knowsC) == Failure(UserNotFound)
      && ResolveUserAsWritten(identifier, attributes, knowsC) == Failure(ClassNotFound(TokenUserClassAsWritten))
  {
    var client := ClaimSet(jti, Scalar("client-id"), "test-realm", ["read", "write"], None, map[]);
    assert ClaimsOf(map[AllClaimsKey := AllClaims(client)]) == Some(client);
    AsWrittenTruncatesScalarAudience();
  }

  /** The client-only test scenario, which the intended provider resolves, fails as written. */
  lemma AsWrittenFailsClientScenario(identifier: string, jti: PhpSerialize.Value)
    ensures
      var client := ClaimSet(jti, Scalar("client-id"), "test-realm", ["read", "write"], None, map[]);
      ResolveUserAsWritten(identifier, map[AllClaimsKey := AllClaims(client)], (id, realm) => Some("Shop")) ==
        Failure(ClassNotFound(TokenUserClassAsWritten))
  {
    var client := ClaimSet(jti, Scalar("client-id"), "test-realm", ["read", "write"], None, map[]);
    assert ClaimsOf(map[AllClaimsKey := AllClaims(client)]) == Some(client);
  }
}
