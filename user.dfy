/**
 * The authenticated user built from a token (OAuthAccessTokenUser) and the
 * views of users that the voter and the provider work with.
 */
module User {

  const RoleJwtAuthenticatedUser: string := "ROLE_JWT_AUTHENTICATED_USER"

  /**
   * What the security layer sees of a user at decision time. A user that
   * implements AuthorizableUserInterface exposes its identifier, realm and
   * scopes; any other user (including no user at all) only an identifier.
   */
  datatype Principal =
    | Authorizable(identifier: string, realm: string, scopes: seq<string>)
    | Opaque(identifier: string)

  class OAuthAccessTokenUser {
    var userId: string
    var scopes: seq<string>
    var authorizedRealmName: string

    /** getUserIdentifier, getAuthorizedRealmName and getScopes read these fields. */
    constructor (userId: string, authorizedRealmName: string)
      ensures this.userId == userId
      ensures this.authorizedRealmName == authorizedRealmName
      ensures scopes == []
    {
      this.userId := userId;
      this.authorizedRealmName := authorizedRealmName;
      this.scopes := [];
    }

    /** The user as the voter sees it: always authorizable. */
    function AsPrincipal(): (p: Principal)
      reads this
      ensures p.Authorizable? && p.identifier == userId
      ensures p.realm == authorizedRealmName && p.scopes == scopes
    {
      Authorizable(userId, authorizedRealmName, scopes)
    }

    /** The roles do not depend on the user. */
    function GetRoles(): (roles: seq<string>)
      ensures roles == [RoleJwtAuthenticatedUser]
    {
      [RoleJwtAuthenticatedUser]
    }

    /** There are no credentials to erase: nothing changes. */
    method EraseCredentials()
      ensures unchanged(this)
    {
    }

    /** Two users are equal when their identifiers are; realm and scopes do not matter. */
    predicate IsEqualTo(other: Principal)
      reads this
    {
      other.identifier == userId
    }

    method SetScopes(scopes: seq<string>)
      modifies this
      ensures this.scopes == scopes
      ensures userId == old(userId) && authorizedRealmName == old(authorizedRealmName)
    {
      this.scopes := scopes;
    }
  }

  /** isEqualTo holds exactly between users with the same identifier, whatever their realm and scopes. */
  lemma IsEqualToIffSameIdentifier(u: OAuthAccessTokenUser, other: Principal)
    ensures u.IsEqualTo(other) <==> other.identifier == u.userId
    ensures u.IsEqualTo(u.AsPrincipal())
  {
  }

  /** Between token users isEqualTo is symmetric and transitive. */
  lemma IsEqualToEquivalence(u: OAuthAccessTokenUser, v: OAuthAccessTokenUser, w: OAuthAccessTokenUser)
    ensures u.IsEqualTo(v.AsPrincipal()) == v.IsEqualTo(u.AsPrincipal())
    ensures u.IsEqualTo(v.AsPrincipal()) && v.IsEqualTo(w.AsPrincipal()) ==> u.IsEqualTo(w.AsPrincipal())
  {
  }

  /** OAuthAccessTokenUser::class, the fully qualified name of the token user class. */
  const TokenUserClass: string := "Shoprenter\\OauthJWTSecurity\\User\\OAuthAccessTokenUser"

  /** A user object: a token user, or a user of another class, known by its class name. */
  datatype UserObject = TokenUser(user: OAuthAccessTokenUser) | OtherUser(className: string)

  /** A user as handed to refreshUser: only a token user has the token user's class. */
  type UserRef = u: UserObject | u.OtherUser? ==> u.className != TokenUserClass
    witness OtherUser("")
}
