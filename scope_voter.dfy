/**
 * ScopeVoter: grants an attribute to a user whose scopes contain exactly
 * that attribute, for attributes that look like scope names.
 */
module ScopeVoter {
  import opened User

  datatype Decision = Granted | Denied | Abstain

  /** The character class [a-zA-Z0-9.:_]. */
  predicate IsScopeChar(c: char) {
    'a' <= c <= 'z' || 'A' <= c <= 'Z' || '0' <= c <= '9' || c == '.' || c == ':' || c == '_'
  }

  /** One or more characters of the class, and nothing else. */
  predicate IsScopeName(s: string) {
    |s| > 0 && forall i :: 0 <= i < |s| ==> IsScopeChar(s[i])
  }

  /** The end of the run of class characters that starts at position i (the regex's `+`). */
  function ScopeCharRun(s: string, i: nat): (end: nat)
    requires i <= |s|
    ensures i <= end <= |s|
    ensures forall k :: i <= k < end ==> IsScopeChar(s[k])
    ensures end < |s| ==> !IsScopeChar(s[end])
    decreases |s| - i
  {
    if i < |s| && IsScopeChar(s[i]) then ScopeCharRun(s, i + 1) else i
  }

  /**
   * supports: preg_match('/^[a-zA-Z0-9.:_]+$/', $attribute). Without the D
   * modifier PCRE's `$` matches at the end and also just before a final
   * "\n", so a scope name followed by one newline is supported too. The
   * subject plays no part.
   */
  predicate Supports<S>(attribute: string, subject: S)
    ensures Supports(attribute, subject) <==>
      IsScopeName(attribute) ||
      (|attribute| >= 2 && attribute[|attribute| - 1] == '\n' && IsScopeName(attribute[..|attribute| - 1]))
  {
    var end := ScopeCharRun(attribute, 0);
    end > 0 && (end == |attribute| || (end == |attribute| - 1 && attribute[end] == '\n'))
  }

  /**
   * voteOnAttribute: false unless the user is authorizable, otherwise
   * whether the attribute is one of its scopes, compared as exact strings.
   */
  predicate VoteOnAttribute<S>(attribute: string, subject: S, user: Principal) {
    match user
    case Authorizable(_, _, scopes) => attribute in scopes
    case Opaque(_) => false
  }

  /** The voter's decision on a single attribute (Voter::vote with one attribute). */
  function Vote<S>(user: Principal, subject: S, attribute: string): (d: Decision)
    ensures d == Abstain <==> !Supports(attribute, subject)
    ensures d == Granted <==> Supports(attribute, subject) && user.Authorizable? && attribute in user.scopes
    ensures d == Denied <==> Supports(attribute, subject) && !(user.Authorizable? && attribute in user.scopes)
  {
    if !Supports(attribute, subject) then Abstain
    else if VoteOnAttribute(attribute, subject, user) then Granted
    else Denied
  }

  /** Every scope name is supported, and so is a scope name with one newline after it. */
  lemma SupportsScopeNames<S>(s: string, subject: S)
    requires IsScopeName(s)
    ensures Supports(s, subject)
    ensures Supports(s + "\n", subject)
  {
    assert (s + "\n")[..|s|] == s;
  }

  /** A second trailing newline is never supported. */
  lemma NoSecondTrailingNewline<S>(s: string, subject: S)
    ensures !Supports(s + "\n\n", subject)
  {
    var t := s + "\n\n";
    assert t[|t| - 2] == '\n' && !IsScopeChar(t[|t| - 2]);
    assert t[..|t| - 1][|t| - 2] == '\n';
  }

  /** The empty attribute and any attribute with a space or an '@' are not supported. */
  lemma UnsupportedAttributes<S>(attribute: string, subject: S)
    requires attribute == "" || ' ' in attribute || '@' in attribute
    ensures !Supports(attribute, subject)
  {
    if attribute != "" {
      var i :| 0 <= i < |attribute| && (attribute[i] == ' ' || attribute[i] == '@');
      assert !IsScopeChar(attribute[i]);
      if |attribute| >= 2 && attribute[|attribute| - 1] == '\n' {
        assert i < |attribute| - 1;
        assert attribute[..|attribute| - 1][i] == attribute[i];
      }
    }
  }

  /** A user that is not authorizable is refused every attribute. */
  lemma OpaqueUserRefused<S>(id: string, subject: S, attribute: string)
    ensures !VoteOnAttribute(attribute, subject, Opaque(id))
    ensures Vote(Opaque(id), subject, attribute) != Granted
  {
  }

  /** With no scopes every attribute is refused. */
  lemma NoScopesRefused<S>(id: string, realm: string, subject: S, attribute: string)
    ensures !VoteOnAttribute(attribute, subject, Authorizable(id, realm, []))
  {
  }

  /** An authorizable user is granted an attribute exactly when some scope equals it. */
  lemma GrantedIffSomeScopeEqual<S>(id: string, realm: string, scopes: seq<string>, subject: S, attribute: string)
    ensures VoteOnAttribute(attribute, subject, Authorizable(id, realm, scopes)) <==>
      exists i :: 0 <= i < |scopes| && scopes[i] == attribute
  {
  }

  /** Neither the decision nor its parts look at the subject. */
  lemma SubjectIgnored<S, T>(user: Principal, s: S, t: T, attribute: string)
    ensures Supports(attribute, s) == Supports(attribute, t)
    ensures VoteOnAttribute(attribute, s, user) == VoteOnAttribute(attribute, t, user)
    ensures Vote(user, s, attribute) == Vote(user, t, attribute)
  {
  }

  /** The accepted attributes of the supports tests are scope names. */
  lemma TableScopeNames()
    ensures IsScopeName("product.read") && IsScopeName("product.item.read")
    ensures IsScopeName("product_catalog:read") && IsScopeName("product123.read")
    ensures IsScopeName("productCatalog.Read") && IsScopeName("product:read")
  {
  }

  /** The other attributes of the vote tests are scope names. */
  lemma VoteTableScopeNames()
    ensures IsScopeName("product.read") && IsScopeName("product.delete") && IsScopeName("Product.Read")
  {
  }

  /** The accepted attributes of the supports tests. */
  lemma SupportedTable<S>(subject: S)
    ensures Supports("product.read", subject) && Supports("product.item.read", subject)
    ensures Supports("product_catalog:read", subject) && Supports("product123.read", subject)
    ensures Supports("productCatalog.Read", subject) && Supports("product:read", subject)
  {
    TableScopeNames();
    SupportsScopeNames("product.read", subject);
    SupportsScopeNames("product.item.read", subject);
    SupportsScopeNames("product_catalog:read", subject);
    SupportsScopeNames("product123.read", subject);
    SupportsScopeNames("productCatalog.Read", subject);
    SupportsScopeNames("product:read", subject);
  }

  /** The refused attributes of the supports tests. */
  lemma UnsupportedTable<S>(subject: S)
    ensures !Supports("product read", subject) && !Supports("product@read", subject) && !Supports("", subject)
  {
    assert !Supports("product read", subject) by {
      UnsupportedAttributes("product read", subject);
    }
    assert !Supports("product@read", subject) by {
      assert "product@read"[7] == '@';
      UnsupportedAttributes("product@read", subject);
    }
    UnsupportedAttributes("", subject);
  }

  /** On a scope name the vote is Granted or Denied by membership alone. */
  lemma VoteOnScopeName<S>(user: Principal, subject: S, attribute: string)
    requires IsScopeName(attribute)
    ensures Vote(user, subject, attribute) ==
      if user.Authorizable? && attribute in user.scopes then Granted else Denied
  {
    SupportsScopeNames(attribute, subject);
  }

  /** Matching is exact and case-sensitive: no case folding, prefixes or wildcards. */
  lemma ExactMatchOnly<S>(subject: S)
    ensures Vote(Authorizable("test-user", "test-realm", ["product.read", "Product.Read"]), subject, "Product.Read") == Granted
    ensures Vote(Authorizable("test-user", "test-realm", ["Product.Read"]), subject, "product.read") == Denied
    ensures Vote(Authorizable("test-user", "test-realm", ["product"]), subject, "product.read") == Denied
    ensures Vote(Authorizable("test-user", "test-realm", ["product.*"]), subject, "product.read") == Denied
  {
    VoteTableScopeNames();
    assert "product.read"[0] != "Product.Read"[0];
    assert |"product.read"| != |"product"| && |"product.read"| != |"product.*"|;
    VoteOnScopeName(Authorizable("test-user", "test-realm", ["product.read", "Product.Read"]), subject, "Product.Read");
    VoteOnScopeName(Authorizable("test-user", "test-realm", ["Product.Read"]), subject, "product.read");
    VoteOnScopeName(Authorizable("test-user", "test-realm", ["product"]), subject, "product.read");
    VoteOnScopeName(Authorizable("test-user", "test-realm", ["product.*"]), subject, "product.read");
  }

  /** The single-attribute outcomes of the vote tests. */
  lemma VoteTable<S>(subject: S, someUser: string)
    ensures Vote(Authorizable("test-user", "test-realm", ["product.read", "product.write"]), subject, "product.read") == Granted
    ensures Vote(Authorizable("test-user", "test-realm", ["product.read", "product.write"]), subject, "product.delete") == Denied
    ensures Vote(Opaque(someUser), subject, "product.read") == Denied
    ensures Vote(Authorizable("test-user", "test-realm", ["product.read"]), subject, "product read") == Abstain
  {
    VoteTableScopeNames();
    assert !Supports("product read", subject) by {
      UnsupportedAttributes("product read", subject);
    }
    assert "product.delete"[8] != "product.read"[8] && "product.delete"[8] != "product.write"[8];
    VoteOnScopeName(Authorizable("test-user", "test-realm", ["product.read", "product.write"]), subject, "product.read");
    VoteOnScopeName(Authorizable("test-user", "test-realm", ["product.read", "product.write"]), subject, "product.delete");
    VoteOnScopeName(Opaque(someUser), subject, "product.read");
  }

  /**
   * voteOnAttribute as written: the file imports User\AuthorizableUserInterface,
   * a class that does not exist (the interface lives in the bundle's User
   * namespace), and instanceof against an unknown class is false, so the
   * method refuses every user.
   */
  predicate VoteOnAttributeAsWritten<S>(attribute: string, subject: S, user: Principal) {
    false
  }

  /** The as-written check refuses the user the tests expect to be granted. */
  lemma AsWrittenRefusesGrantedScope<S>(subject: S)
    ensures var user := Authorizable("test-user", "test-realm", ["product.read", "product.write"]);
      !VoteOnAttributeAsWritten("product.read", subject, user) && VoteOnAttribute("product.read", subject, user)
  {
  }
}
