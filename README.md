# Token authentication and scope voting of sr-oauth-jwt-security, in Dafny

This project models the authorization and identity layer of the Symfony bundle
`Shoprenter\OauthJWTSecurity`. It also proves properties of that model.

- **`OAuthAccessTokenHandler`** (`token_handler.dfy`) asks the token verifier about a bearer
  token. On success it builds a user badge. The badge identifier is
  `base64_encode(serialize($jti))`, and the badge keeps the whole claim set under
  `oauth_token_all_claims`. When verification fails, or when Symfony's `UserBadge` refuses an
  identifier longer than 4096 bytes, it logs the message (when a logger was injected) and raises
  `BadCredentialsException`.
  A PHP `Error` from the verifier is not an `Exception`; it passes through unlogged. A verifier
  that returns `false` gets a badge, which the provider refuses later.
- **`OAuthAccessTokenUserProvider`** (`user_provider.dfy`) rebuilds the user from those
  attributes. It picks the client id from `aud`, looks up the client's name, and builds either
  an end-user identifier `"{realm} | user {id} | {clientId} ({clientName})"` or a client-only
  identifier `"{clientId} ({clientName})"`. It then copies the realm and the scopes. It also
  refreshes token users and says which user class it supports.
- **`OAuthAccessTokenUser`** (`user.dfy`) is a class with three fields: the identifier, the realm
  and the scopes. Only `SetScopes` changes it afterwards. Two users are equal when their
  identifiers are. The roles are a constant list. The PHP getters (`getUserIdentifier`,
  `getAuthorizedRealmName`, `getScopes`) are reads of the fields, gathered in `AsPrincipal`.
- **`ScopeVoter`** (`scope_voter.dfy`) abstains on attributes that do not match
  `^[a-zA-Z0-9.:_]+$`. That regex is read as PCRE reads it, so one trailing newline is also
  accepted. On the other attributes the voter grants exactly the user's own scopes, compared as
  exact strings. A user that is not authorizable is denied.

Two PHP built-ins sit under the handler and the provider:

- `base64.dfy` holds base64 as defined in section 4 of RFC 4648, with a strict decoder.
- `php_serialize.dfy` holds PHP's serialisation of strings, `s:<length>:"<bytes>";`, and its parser.

The round trip from `jti` to the badge identifier and back is proved in `pipeline.dfy`. That
file also relates the three components end to end.

Shared types:

- `wrappers.dfy`: `Option` and `Result`. These stand in for PHP's exceptions and `false` returns.
- `bytes.dfy`: the byte type.
- `claims.dfy`: the typed claim set. `aud` is the tagged union `Scalar | List`.

Collaborators become parameters:

- The verifier is a function `verifyToken: string -> Verification`. It returns the claims, returns `false`, throws an Exception (its message), or throws a PHP Error (its message).
- The client lookup that the provider calls as `$this->clientProvider->getClient($clientId, $realm)->getName()` is a function `clientName: (clientId, realm) -> Option<string>`. `None` stands for "no client".
- Whether a logger was injected is a `bool`. What the handler logs is returned as a list of lines.
- The voter's `$subject` is a value of any type.

## Reading of the source

- `$this->clientProvider` (`src/User/OAuthAccessTokenUserProvider.php:45`) is never declared.
  It is modelled as the `clientName` parameter. A falsy client is `None` and leads to
  `UserNotFoundException`.
- The provider calls `setPermissions` (lines 61 and 70). `OAuthAccessTokenUser` has no such
  method; its setter is `setScopes` (`src/User/OAuthAccessTokenUser.php:53`). The model calls `SetScopes`.
- The identifiers keep the ` (clientName)` suffix that the code formats (lines 53 and 67). The
  unit tests expect identifiers without it (`tests/Unit/User/OAuthAccessTokenUserProviderTest.php:81,95`).
  The model follows the code.
- The provider file declares namespace `Shoprenter\OauthJWTSecurity` instead of `...\User`. So
  its unqualified `OAuthAccessTokenUser` names a class that does not exist.
  - Read literally, `new OAuthAccessTokenUser` fails with a class-not-found error (`ResolveUserAsWritten`).
  - Read literally, `instanceof` in `refreshUser` is always false (`RefreshUserAsWritten`).
  - Read literally, `supportsClass` refuses the token user's class (`SupportsClassAsWritten`).
  - The model uses the intended class. All three consequences are recorded under Findings.
- `ScopeVoter.php:7` imports `User\AuthorizableUserInterface`, which does not exist. The model
  checks against the bundle's `AuthorizableUserInterface`, which `Principal.Authorizable` stands
  for. The literal reading is recorded under Findings.
- For `aud` given as one string, the client id is the whole string, as the tests expect. The
  literal `$token['aud'][0]` reading is under Findings. An empty `aud` list has no entry 0. PHP
  reads `null` there, which formats as `""`. The model passes `""` to the lookup.
- A `user` claim counts as present when it has at least one field (`!empty`). A missing `id`
  field reads as `null`, which formats as `""`.
- `jti` is kept as bytes, because PHP strings are bytes and `serialize` writes the byte length.
  A token without `jti` reads `$token->jti` as `null` (with a PHP warning). `serialize(null)` is
  `N;`, so every such token gets the badge identifier `Tjs=`; the model keeps that case.
- `verifyToken` is declared `false|stdClass` (`src/AccessToken/AccessTokenVerifier.php:19`). On
  `false`, `$token->jti` reads as `null` (with a warning), and the claims attribute is
  `json_decode(json_encode(false), true)`, which is `false`. The handler catches only `Exception`
  (line 35). A PHP `Error`, for instance a `TypeError` from `new Key(false, ...)` when the key file
  cannot be read, leaves the handler unlogged. The model keeps all four outcomes of the verifier.
- `UserBadge` is Symfony's class. Its constructor throws `BadCredentialsException('Username too
  long.')` for an identifier of more than `UserBadge::MAX_USERNAME_LENGTH` (4096) bytes. That
  happens inside the handler's `try`, so the message is logged and `BadCredentialsException` is
  raised. A jti of more than 3062 bytes makes the identifier too long.

## Model

| member | source | states |
|---|---|---|
| `ScopeVoter.ScopeCharRun` | src/Voter/ScopeVoter.php:24 | the run of `[a-zA-Z0-9.:_]` characters from a position is maximal: every character in it is in the class, and the next one, if any, is not |
| `ScopeVoter.Supports` | src/Voter/ScopeVoter.php:22-25 | the regex accepts exactly the non-empty strings of class characters, and those followed by one final `"\n"` (PCRE `$` without `D`); the subject is not read |
| `ScopeVoter.SupportsScopeNames` | src/Voter/ScopeVoter.php:24 | every scope name is supported, and so is that name with one `"\n"` appended |
| `ScopeVoter.NoSecondTrailingNewline` | src/Voter/ScopeVoter.php:24 | a string ending in two newlines is never supported |
| `ScopeVoter.UnsupportedAttributes` | src/Voter/ScopeVoter.php:24 | the empty string and every string containing a space or `@` are not supported |
| `ScopeVoter.SupportedTable` | tests/Unit/Voter/ScopeVoterTest.php:109-114 | the six accepted attributes of the supports test table are supported |
| `ScopeVoter.UnsupportedTable` | tests/Unit/Voter/ScopeVoterTest.php:115-117 | `"product read"`, `"product@read"` and `""` are not supported |
| `ScopeVoter.OpaqueUserRefused` | src/Voter/ScopeVoter.php:15-17 | a user that is not authorizable is refused every attribute and is never granted |
| `ScopeVoter.NoScopesRefused` | tests/Unit/Voter/ScopeVoterTest.php:142-147 | an authorizable user with no scopes is refused every attribute |
| `ScopeVoter.VoteOnAttribute` | src/Voter/ScopeVoter.php:11-20 | false for a user that is not authorizable, otherwise membership of the attribute in the user's scopes; its properties are stated by `OpaqueUserRefused`, `NoScopesRefused` and `GrantedIffSomeScopeEqual` |
| `ScopeVoter.GrantedIffSomeScopeEqual` | src/Voter/ScopeVoter.php:19 | an authorizable user is granted an attribute if and only if one of its scopes is exactly that string |
| `ScopeVoter.Vote` | tests/Unit/Voter/ScopeVoterTest.php:157-185 | single-attribute outcome: Abstain if and only if unsupported; Granted if and only if supported and in an authorizable user's scopes; Denied otherwise |
| `ScopeVoter.VoteOnScopeName` | src/Voter/ScopeVoter.php:11-24 | on a scope name the vote never abstains and is decided by exact membership alone |
| `ScopeVoter.ExactMatchOnly` | tests/Unit/Voter/ScopeVoterTest.php:148-153 | `"Product.Read"` is granted only because that exact string is a scope; a different case, a prefix `"product"` or a pattern `"product.*"` grants nothing |
| `ScopeVoter.VoteTable` | tests/Unit/Voter/ScopeVoterTest.php:160-183 | the four vote scenarios: Granted, Denied, Denied for a non-authorizable user, Abstain for `"product read"` |
| `ScopeVoter.SubjectIgnored` | src/Voter/ScopeVoter.php:11-24 | supports, voteOnAttribute and the decision are the same for any two subjects |
| `ScopeVoter.VoteOnAttributeAsWritten` | src/Voter/ScopeVoter.php:7-17 | as written, the `instanceof` test against the undeclared `User\AuthorizableUserInterface` fails for every user, so every attribute is refused; `AsWrittenRefusesGrantedScope` compares it with the intended voter |
| `ScopeVoter.AsWrittenRefusesGrantedScope` | src/Voter/ScopeVoter.php:7 | as written, the voter refuses a user that the tests expect to be granted, and the intended voter grants it |
| `User.OAuthAccessTokenUser.constructor` | src/User/OAuthAccessTokenUser.php:16-20 | identifier and realm are the arguments, and the scopes start empty (line 12) |
| `User.OAuthAccessTokenUser.AsPrincipal` | src/User/OAuthAccessTokenUser.php:38-51 | the getters return the identifier, the realm and the scopes, and the user is authorizable |
| `User.OAuthAccessTokenUser.GetRoles` | src/User/OAuthAccessTokenUser.php:23-26 | the roles are always `["ROLE_JWT_AUTHENTICATED_USER"]` |
| `User.OAuthAccessTokenUser.EraseCredentials` | src/User/OAuthAccessTokenUser.php:28-31 | nothing about the user changes |
| `User.OAuthAccessTokenUser.SetScopes` | src/User/OAuthAccessTokenUser.php:53-56 | afterwards the scopes are exactly the argument, and identifier and realm are unchanged |
| `User.OAuthAccessTokenUser.IsEqualTo` | src/User/OAuthAccessTokenUser.php:33-36 | identifier equality; `IsEqualToIffSameIdentifier` and `IsEqualToEquivalence` state its properties |
| `User.IsEqualToIffSameIdentifier` | src/User/OAuthAccessTokenUser.php:33-36 | isEqualTo holds if and only if the identifiers are equal, whatever the realm and scopes; every user equals itself, the empty identifier included |
| `User.IsEqualToEquivalence` | src/User/OAuthAccessTokenUser.php:33-36 | between token users isEqualTo is symmetric and transitive |
| `UserProvider.RefreshUser` | src/User/OAuthAccessTokenUserProvider.php:15-24 | a token user is returned as the same object; any other user gives UnsupportedUser with its class name |
| `UserProvider.SupportsClass` | src/User/OAuthAccessTokenUserProvider.php:26-29 | true exactly for the token user's class name; `RefreshAgreesWithSupportsClass` and `AsWrittenRefusesTokenUserClass` state what it accepts and refuses |
| `UserProvider.RefreshAgreesWithSupportsClass` | src/User/OAuthAccessTokenUserProvider.php:15-29 | refreshUser succeeds exactly for users whose class supportsClass accepts, for every user whose class name is its own |
| `UserProvider.ClaimsOf` | src/User/OAuthAccessTokenUserProvider.php:35-39 | claims are found exactly when the attribute is present and holds a non-empty claim array |
| `UserProvider.ResolveUser` | src/User/OAuthAccessTokenUserProvider.php:31-73 | fails only with UserNotFound, exactly when the claims are missing, empty or not an array, or the client is unknown; otherwise the result is authorizable, its realm is `claims.realm`, its scopes are `claims.scopes` in order, and its identifier has the end-user or the client-only shape |
| `UserProvider.LoadUserByIdentifier` | src/User/OAuthAccessTokenUserProvider.php:31-73 | the constructed user is new and in the state ResolveUser gives, after construction and the scope setter; the errors are the same |
| `UserProvider.NoClaimsNoUser` | src/User/OAuthAccessTokenUserProvider.php:35-39 | a missing, empty or non-array claims attribute yields UserNotFound, never a user |
| `UserProvider.UnknownClientNoUser` | src/User/OAuthAccessTokenUserProvider.php:45-48 | a failed client lookup yields UserNotFound |
| `UserProvider.AudienceClientId` | src/User/OAuthAccessTokenUserProvider.php:41 | the intended reading of `$token['aud'][0]`: a single audience whole, the first entry of a list, `""` for an empty list; `FirstAudienceWins` states it |
| `UserProvider.HasEndUser` | src/User/OAuthAccessTokenUserProvider.php:50 | `!empty($token['user'])`: the claim is present with at least one field; `EmptyUserClaimIsClientOnly` and `EndUserScenario` state both outcomes |
| `UserProvider.EndUserId` | src/User/OAuthAccessTokenUserProvider.php:55 | `$token['user']['id']`, `""` when the field is missing; `EndUserScenario` states its use in the identifier |
| `UserProvider.TokenIdOf` | src/User/OAuthAccessTokenUserProvider.php:33 | in the model's strict decoding, a decoded token id only comes from a text whose length is a multiple of four (PHP also decodes unpadded text); `Pipeline.BadgeIdentifierRoundTrip` states that it inverts the handler's encoding |
| `UserProvider.FirstAudienceWins` | src/User/OAuthAccessTokenUserProvider.php:41 | the client id of a list audience is its first entry; a list audience resolves to the same user as the single audience of its first entry, whatever follows |
| `UserProvider.IdentifierIgnored` | src/User/OAuthAccessTokenUserProvider.php:33 | the result does not depend on the identifier argument, whose decoded value is unused |
| `UserProvider.EmptyUserClaimIsClientOnly` | src/User/OAuthAccessTokenUserProvider.php:50 | a `user` claim without fields gives the client-only identifier |
| `UserProvider.EndUserScenario` | tests/Unit/User/OAuthAccessTokenUserProviderTest.php:68-84 | the end-user test claims give the end-user identifier for realm `test-realm`, user `user-123` and client `client-id` named `Shop`, realm `test-realm` and scopes `[read, write]` |
| `UserProvider.ClientScenarios` | tests/Unit/User/OAuthAccessTokenUserProviderTest.php:85-112 | the client tests, with a single and with a listed audience, both give `"client-id (Shop)"` |
| `UserProvider.MissingClaimsScenarios` | tests/Unit/User/OAuthAccessTokenUserProviderTest.php:113-134 | missing, empty and non-array claims give UserNotFound |
| `UserProvider.AsWrittenTruncatesScalarAudience` | src/User/OAuthAccessTokenUserProvider.php:41 | as written, the audience `"client-id"` gives the client id `"c"`; the intended reading gives `"client-id"` |
| `UserProvider.AudienceClientIdAsWritten` | src/User/OAuthAccessTokenUserProvider.php:41 | `$token['aud'][0]` as written: the first character of a single audience; `AsWrittenTruncatesScalarAudience` shows the difference |
| `UserProvider.AudienceReadingsAgreeOnLists` | src/User/OAuthAccessTokenUserProvider.php:41 | the literal and the intended readings of `aud` agree on every list audience |
| `UserProvider.SupportsClassAsWritten` | src/User/OAuthAccessTokenUserProvider.php:3-28 | as written, supportsClass compares with `Shoprenter\OauthJWTSecurity\OAuthAccessTokenUser`, a class no file declares |
| `UserProvider.AsWrittenRefusesTokenUserClass` | src/User/OAuthAccessTokenUserProvider.php:3-28 | as written, supportsClass refuses the token user's class; the intended check accepts it and refuses `UserInterface` |
| `UserProvider.RefreshUserAsWritten` | src/User/OAuthAccessTokenUserProvider.php:3-23 | as written, `instanceof` against the undeclared class is false, so every user is unsupported |
| `UserProvider.AsWrittenRefusesTokenUser` | src/User/OAuthAccessTokenUserProvider.php:15-23 | as written, refreshUser rejects a token user with UnsupportedUser of its class, while the intended refreshUser returns it |
| `UserProvider.ResolveUserAsWritten` | src/User/OAuthAccessTokenUserProvider.php:3-66 | as written, loadUserByIdentifier never returns a user: it gives UserNotFound exactly when the claims are missing or the client id read as line 41 reads it is unknown, and otherwise class-not-found, because `new OAuthAccessTokenUser` names the undeclared class |
| `UserProvider.AsWrittenNeverLoadsUser` | src/User/OAuthAccessTokenUserProvider.php:3-66 | for a list audience, where both readings of line 41 agree, every case in which the intended provider builds a user ends in class-not-found as written, and every other case fails alike |
| `UserProvider.AsWrittenLooksUpTruncatedClientId` | src/User/OAuthAccessTokenUserProvider.php:41-51 | for the single audience `"client-id"`, a lookup that knows only `"client-id"` gives a user as intended and UserNotFound as written; one that knows only `"c"` gives UserNotFound as intended and class-not-found as written |
| `UserProvider.AsWrittenFailsClientScenario` | tests/Unit/User/OAuthAccessTokenUserProviderTest.php:85-100 | as written, the client-only test claims, which the intended provider resolves, end in class-not-found |
| `Base64.CharOf` | src/AccessToken/OAuthAccessTokenHandler.php:27 | every six-bit value maps to an alphabet character that maps back to it |
| `Base64.EncodeTriple` | src/AccessToken/OAuthAccessTokenHandler.php:27 | three bytes give four alphabet characters |
| `Base64.Encode` | src/AccessToken/OAuthAccessTokenHandler.php:27 | the output has length `4 * ceil(n / 3)`, a multiple of 4; it uses only the alphabet and `=`, and `=` appears only in the last two places |
| `Base64.Decode` | src/User/OAuthAccessTokenUserProvider.php:33 | a decoded text is whole groups of four characters, and gives at most three bytes per group; `DecodeEncode` states that it inverts the encoder |
| `Base64.DecodeEncode` | src/User/OAuthAccessTokenUserProvider.php:33 | decoding what the encoder produced gives back the bytes |
| `Base64.EncodeInjective` | src/AccessToken/OAuthAccessTokenHandler.php:27 | distinct byte strings have distinct encodings |
| `PhpSerialize.Decimal` | src/AccessToken/OAuthAccessTokenHandler.php:28 | the length is written as at least one decimal digit, without a leading zero |
| `PhpSerialize.DigitsValueDecimal` | src/User/OAuthAccessTokenUserProvider.php:33 | reading the decimal numeral of n back gives n |
| `PhpSerialize.DigitRun` | src/User/OAuthAccessTokenUserProvider.php:33 | the digit run that the parser reads is maximal |
| `PhpSerialize.Unserialize` | src/User/OAuthAccessTokenUserProvider.php:33 | a parsed string is shorter than its serialisation |
| `PhpSerialize.SerializeRoundTrip` | src/User/OAuthAccessTokenUserProvider.php:33 | unserialize(serialize(s)) gives back s |
| `PhpSerialize.SerializeInjective` | src/AccessToken/OAuthAccessTokenHandler.php:28 | distinct strings serialise differently |
| `PhpSerialize.Serialize` | src/AccessToken/OAuthAccessTokenHandler.php:28 | `s:<length>:"<bytes>";` for a string; `SerializeRoundTrip` and `SerializeInjective` state its properties |
| `PhpSerialize.SerializeValue` | src/AccessToken/OAuthAccessTokenHandler.php:28 | `N;` for null and the string form otherwise; `ValueRoundTrip` and `SerializeValueInjective` state its properties |
| `PhpSerialize.UnserializeValue` | src/User/OAuthAccessTokenUserProvider.php:33 | null exactly for a text that starts with `N;`; a parsed string is shorter than its serialisation |
| `PhpSerialize.ValueRoundTrip` | src/User/OAuthAccessTokenUserProvider.php:33 | unserialize(serialize(v)) gives back v, for null and for every string |
| `PhpSerialize.SerializeValueInjective` | src/AccessToken/OAuthAccessTokenHandler.php:28 | distinct values serialise differently; no string serialises like null |
| `PhpSerialize.DecimalWidth` | src/AccessToken/OAuthAccessTokenHandler.php:28 | the number of digits written for a length, for lengths below 10, 100, 1000, 10000 and above |
| `AccessTokenHandler.BadgeIdentifier` | src/AccessToken/OAuthAccessTokenHandler.php:27-29 | `base64_encode(serialize($token->jti))`; `BadgeIdentifierShape`, `BadgeIdentifierInjective`, `BadgeIdentifierFits` and `Pipeline.BadgeIdentifierRoundTrip` state its properties |
| `AccessTokenHandler.NewUserBadge` | src/AccessToken/OAuthAccessTokenHandler.php:26-34 | Symfony's UserBadge constructor: a badge with the given identifier and attributes exactly when the identifier has at most 4096 characters (bytes, for the ASCII identifiers the handler builds), otherwise the message `Username too long.` |
| `AccessTokenHandler.GetUserBadgeFrom` | src/AccessToken/OAuthAccessTokenHandler.php:21-41 | a badge if and only if the verifier returns false, or returns claims whose identifier fits the badge; the identifier is base64(serialize(jti)) and the only attribute is the full claim set, or false, under `oauth_token_all_claims`; a verifier Error passes through, and every other failure is BadCredentials; nothing is logged without a logger or for an Error, and otherwise the verifier's message or `Username too long.` is logged after the prefix |
| `AccessTokenHandler.LoggerOnlyLogs` | src/AccessToken/OAuthAccessTokenHandler.php:35-39 | with or without a logger the outcome is the same |
| `AccessTokenHandler.BadgeIdentifierShape` | src/AccessToken/OAuthAccessTokenHandler.php:27 | the badge identifier is non-empty, a multiple of four long, and uses the RFC 4648 alphabet with `=` only as final padding |
| `AccessTokenHandler.BadgeIdentifierInjective` | src/AccessToken/OAuthAccessTokenHandler.php:27-29 | distinct token ids give distinct badge identifiers, a missing jti included |
| `AccessTokenHandler.BadgeIdentifierFits` | src/AccessToken/OAuthAccessTokenHandler.php:26-29 | the identifier fits the badge if and only if the jti is missing or has at most 3062 bytes |
| `AccessTokenHandler.NullJtiIdentifier` | src/AccessToken/OAuthAccessTokenHandler.php:27-28 | every token without a jti gets the identifier `Tjs=`, the encoding of `N;` |
| `Pipeline.BadgeIdentifierRoundTrip` | src/User/OAuthAccessTokenUserProvider.php:33 | `unserialize(base64_decode(id))` on the handler's badge identifier gives back `jti`, or null for a token without one |
| `Pipeline.FalseVerificationRefusedLater` | src/AccessToken/OAuthAccessTokenHandler.php:24-34 | a verifier that returns false gets the badge `Tjs=` with nothing logged, and the provider then refuses it with UserNotFound (src/User/OAuthAccessTokenUserProvider.php:37-38) |
| `Pipeline.TokenToDecision` | src/AccessToken/OAuthAccessTokenHandler.php:24-33 | no badge if and only if the verifier throws (an Exception or an Error) or the jti has more than 3062 bytes; for verified claims the provider builds a user exactly when the client is known, with the token's realm and scopes, and the voter grants that user a supported attribute exactly when the token lists it |
| `Pipeline.AcmeScenario` | src/User/OAuthAccessTokenUserProvider.php:50-63 | realm acme, audience [cli-1], user u9 and scopes [read] give the end-user identifier of u9 through cli-1 (named CLI) in acme; that user is granted `read` and denied `write` |
| `Pipeline.LoadThenRefresh` | src/User/OAuthAccessTokenUserProvider.php:15-19 | a user loaded and then refreshed is a new object and keeps the state the provider gave it |

## Left out

- `src/AccessToken/AccessTokenVerifier.php` is not part of this model. It reads the key file and checks the RS256 signature and `exp` inside firebase/php-jwt, which cannot be seen here. The handler only sees its answer, the `verifyToken` parameter.
- `src/AccessTokenHandler/OAuthAccessTokenHandler.php` is not modelled. It is an older handler that rests on classes that are not in the repository.
- The dependency-injection configuration and extension are not modelled: they are container wiring, with no behaviour.
- Symfony's `Voter::vote` loop over several attributes is not modelled, because the base class is not in the repository. `ScopeVoter.Vote` is the outcome for one attribute.
- ScopeVoter.VoteOnAttribute: uses exact string equality. PHP's `in_array` compares loosely, so there numeric strings such as `"1.0"` and `"1"` match each other.
- `json_encode` and `json_decode` are not modelled. The claim set is a typed record, so claims with missing `realm`, `scopes` or `aud`, or with values of other types, are outside the model. A missing `jti` is modelled (as PHP's `null`); a `jti` of another type is outside the model. A non-array value for the user claim is outside it too.
- Base64.Decode: a strict decoder that returns None on malformed text. PHP's default `base64_decode` instead skips characters outside the alphabet, and accepts text without `=` padding, even in strict mode (it decodes `Tjs` to `N;`). So `UserProvider.TokenIdOf` refuses unpadded identifiers that PHP decodes. The provider never uses the decoded value.
- PhpSerialize.Unserialize: covers serialised strings only. It does not bound lengths by `PHP_INT_MAX`. Bytes after the closing `;` are ignored, as in PHP, which warns about them from 8.3 on.
- The text of the `UnsupportedUserException` message is not modelled. The error carries the class name instead.
- The badge's user loader argument (`null`) is not modelled.
- The logger's levels are left out: the model keeps only the logged lines.
- UserProvider.IdentifierIgnored: covers identifiers that decode to a serialised null or string, and any text `unserialize` refuses. Line 33 runs PHP's `unserialize` on the caller's identifier before the claims are checked, and the model does not follow its other paths. On text such as `O:7:"Closure":0:{}` it throws ("Unserialization of 'Closure' is not allowed"). On other object text it builds an instance of any class it can autoload and runs that class's `__wakeup`, `__unserialize` or `__destruct`. The handler's own identifiers are always a serialised string or null, so the round trip is unaffected.
- UserProvider.AudienceClientIdAsWritten: strings are sequences of characters here, while PHP's `[0]` takes the first byte. The two differ for an audience that starts with a non-ASCII character.
- UserProvider.ResolveUserAsWritten: keeps the client lookup as the `clientName` parameter. Read literally, `$this->clientProvider` is never assigned, so line 45 stops first, with "Call to a member function getClient() on null", whenever the claims are present.
- `refreshUser` decides by class name in the model. A subclass of `OAuthAccessTokenUser` (an `instanceof` match under another name) is not modelled.

## Findings

| source | as written | input that shows it | evidently intended | confidence | as-written member | corrected member |
|---|---|---|---|---|---|---|
| src/Voter/ScopeVoter.php:7 | imports `User\AuthorizableUserInterface`, a class no file declares; `instanceof` against it is false, so `voteOnAttribute` refuses every user | a token user with scopes `[product.read, product.write]` asking for `product.read` is refused | check against `Shoprenter\OauthJWTSecurity\User\AuthorizableUserInterface` | not executed; high | `ScopeVoter.VoteOnAttributeAsWritten`, `ScopeVoter.AsWrittenRefusesGrantedScope` | `ScopeVoter.VoteOnAttribute`, with `ScopeVoter.GrantedIffSomeScopeEqual` and `ScopeVoter.Vote` |
| src/User/OAuthAccessTokenUserProvider.php:41 | `$token['aud'][0]` on a string audience takes its first character | `aud = "client-id"` gives the client id `"c"` | the whole string, as the provider tests expect | not executed; high | `UserProvider.AudienceClientIdAsWritten`, `UserProvider.AsWrittenTruncatesScalarAudience` | `UserProvider.AudienceClientId`, with `UserProvider.FirstAudienceWins` |
| src/User/OAuthAccessTokenUserProvider.php:3 | the namespace lacks `\User`, so the unqualified `OAuthAccessTokenUser` at lines 17, 28, 51 and 66 is `Shoprenter\OauthJWTSecurity\OAuthAccessTokenUser`, which no file declares | `supportsClass("Shoprenter\OauthJWTSecurity\User\OAuthAccessTokenUser")` is false; `refreshUser` of a token user throws UnsupportedUserException; `loadUserByIdentifier` on the client-only test claims stops with class-not-found (these members keep the client lookup as a parameter; read literally, the undeclared `$this->clientProvider` already fails at line 45) | the token user class of the `User` namespace | not executed; high | `UserProvider.SupportsClassAsWritten`, `UserProvider.AsWrittenRefusesTokenUserClass`, `UserProvider.RefreshUserAsWritten`, `UserProvider.AsWrittenRefusesTokenUser`, `UserProvider.ResolveUserAsWritten`, `UserProvider.AsWrittenNeverLoadsUser`, `UserProvider.AsWrittenLooksUpTruncatedClientId`, `UserProvider.AsWrittenFailsClientScenario` | `UserProvider.SupportsClass`, `UserProvider.RefreshUser`, `UserProvider.ResolveUser`, with `UserProvider.RefreshAgreesWithSupportsClass` |
