/** The token service: login and refresh decisions, and the issuance step that
    builds the claim list, writes a new refresh token and its expiry on the
    user, and returns the token pair. Signing, token validation, the password
    check and the random source are parameters. */
module Tokens {
  import opened Wrappers
  import opened Text
  import opened Claims
  import opened Identity
  import opened Responses
  import Base64
  import Auth

  /** Lifetimes in seconds: the access token lives 60 minutes, the refresh token one day. */
  const AccessTokenLifetime: int := 60 * 60
  const RefreshTokenLifetime: int := 24 * 60 * 60

  /** Number of random bytes behind a refresh token. */
  const RefreshTokenBytes: int := 32

  /** The only accepted signing algorithm (`SecurityAlgorithms.HmacSha256`). */
  const HmacSha256: string := "HS256"

  const TenantNotActiveMessage: string := "Tenant Subscription is not Active. Contact Administrator."
  const UserNotFoundMessage: string := "Authentication no successful."
  const IncorrectCredentialsMessage: string := "Incorrect credentials."
  const UserNotActiveMessage: string := "User not active. Contact Administrator."
  const SubscriptionExpiredMessage: string := "Subscription has expired. Contact Administrator."
  const InvalidJwtMessage: string := "Invalid token provided. Failed to generate new token."
  const AuthenticationFailedMessage: string := "Authentication failed."
  const InvalidRefreshMessage: string := "Invalid token."

  datatype TokenRequest = TokenRequest(username: string, password: string)

  /** `refreshTokenExpiryDate` is accepted but never read. */
  datatype RefreshTokenRequest = RefreshTokenRequest(
    currentJwt: Option<string>, currentRefreshJwt: Option<string>, refreshTokenExpiryDate: Option<int>)

  /** What validating a presented JWT (signature only, lifetime ignored) yields:
      the library throws, or it returns the token's claims and header algorithm. */
  datatype JwtValidation = Rejected | Validated(claims: seq<Claim>, algorithm: string)

  /** The collaborators the service calls: the password check, the token writer
      (claims and expiry to a signed JWT) and the signature validator. */
  datatype Collaborators = Collaborators(
    checkPassword: (User, string) -> bool,
    writeToken: (seq<Claim>, int) -> string,
    validateToken: string -> JwtValidation)

  /** How a call can fail: the service's own rejection, the validator's
      exception for a bad signature, or the null-role exception raised when a
      user's role has no role record. */
  datatype Failure = Unauthorized(exception: UnauthorizedException) | InvalidSignature | RoleNotFound(role: string)

  function Reject(message: string): Failure {
    Unauthorized(NewUnauthorized(Some([message]), None))
  }

  /** A successful issuance: the response, the claims written into the access
      token, the access token's expiry and the updated store. */
  datatype Issued = Issued(response: TokenResponse, claims: seq<Claim>, accessTokenExpiry: int, store: IdentityStore)

  /** `GenerateRefreshToken`: the Base64 text of 32 random bytes. */
  function GenerateRefreshToken(random: seq<Base64.byte>): (r: string)
    requires |random| == RefreshTokenBytes
    ensures |r| == 44
    ensures Base64.Decode(r) == Some(random)
  {
    Base64.DecodeEncode(random);
    Base64.Encode(random)
  }

  /** The five identity claims that open every issued claim list. */
  function IdentityClaims(k: Constants, tenant: Option<TenantInfo>, user: User): seq<Claim> {
    [Claim(NameIdentifierType, user.id),
     Claim(EmailType, user.email.OrElse("")),
     Claim(NameType, user.firstName.OrElse("")),
     Claim(k.tenantClaim, if tenant.Some? then tenant.value.id else ""),
     Claim(MobilePhoneType, user.phoneNumber.OrElse(""))]
  }

  function AsClaims(rcs: seq<RoleClaim>): (r: seq<Claim>)
    ensures |r| == |rcs| && forall i :: 0 <= i < |rcs| ==> r[i] == rcs[i].AsClaim()
  {
    seq(|rcs|, i requires 0 <= i < |rcs| => rcs[i].AsClaim())
  }

  function Flatten(xs: seq<seq<Claim>>): seq<Claim> {
    if |xs| == 0 then [] else xs[0] + Flatten(xs[1..])
  }

  predicate RolesResolvable(roles: RoleStore, names: seq<string>) {
    forall i :: 0 <= i < |names| ==> names[i] in roles
  }

  /** One Role claim per role name, in order. */
  function RoleNameClaims(names: seq<string>): seq<Claim> {
    seq(|names|, i requires 0 <= i < |names| => Claim(RoleType, names[i]))
  }

  /** The claims of the named roles, role after role. */
  function RolePermissionClaims(roles: RoleStore, names: seq<string>): seq<Claim>
    requires RolesResolvable(roles, names)
  {
    Flatten(RoleClaimLists(roles, names))
  }

  /** The claim list of each named role. */
  function RoleClaimLists(roles: RoleStore, names: seq<string>): (r: seq<seq<Claim>>)
    requires RolesResolvable(roles, names)
    ensures |r| == |names| && forall i :: 0 <= i < |names| ==> r[i] == AsClaims(roles[names[i]])
  {
    seq(|names|, i requires 0 <= i < |names| => AsClaims(roles[names[i]]))
  }

  /** The loop over the user's roles: a Role claim per role and the role's
      stored claims, gathered into two lists. A role without a record throws. */
  function CollectRoleClaims(roles: RoleStore, names: seq<string>): (r: Result<(seq<Claim>, seq<Claim>), Failure>)
    ensures r.Ok? <==> RolesResolvable(roles, names)
    ensures r.Err? ==> r.error.RoleNotFound? && r.error.role in names && r.error.role !in roles
    ensures r.Ok? ==> r.value == (RoleNameClaims(names), RolePermissionClaims(roles, names))
  {
    if |names| == 0 then
      assert RoleNameClaims(names) == [];
      Ok(([], []))
    else if names[0] !in roles then Err(RoleNotFound(names[0]))
    else match CollectRoleClaims(roles, names[1..])
      case Err(e) => Err(e)
      case Ok(rest) =>
        assert RoleClaimLists(roles, names)[1..] == RoleClaimLists(roles, names[1..]);
        assert RoleNameClaims(names) == [Claim(RoleType, names[0])] + RoleNameClaims(names[1..]);
        Ok(([Claim(RoleType, names[0])] + rest.0, AsClaims(roles[names[0]]) + rest.1))
  }

  /** `GetUserClaims`: identity claims, then role claims, then the user's own
      claims, then every claim of every role, in that order. */
  function GetUserClaims(k: Constants, tenant: Option<TenantInfo>, roles: RoleStore, user: User): (r: Result<seq<Claim>, Failure>)
    ensures r.Ok? <==> RolesResolvable(roles, user.roles)
    ensures r.Ok? ==>
      r.value == IdentityClaims(k, tenant, user) + RoleNameClaims(user.roles)
                 + user.claims + RolePermissionClaims(roles, user.roles)
  {
    match CollectRoleClaims(roles, user.roles)
    case Err(e) => Err(e)
    case Ok(lists) =>
      Ok(IdentityClaims(k, tenant, user) + lists.0 + user.claims + lists.1)
  }

  /** What one issuance promises about its result: only the issued user's
      refresh token and expiry change, the response repeats the stored values,
      and the access token is written from the user's claims with a 60-minute
      expiry. */
  predicate IssuedFor(k: Constants, tenant: Option<TenantInfo>, store: IdentityStore, i: nat,
                      now: int, env: Collaborators, random: seq<Base64.byte>, out: Issued)
    requires i < |store.users| && |random| == RefreshTokenBytes
  {
    var user := store.users[i];
    && |out.store.users| == |store.users|
    && out.store.roles == store.roles
    && (forall j :: 0 <= j < |store.users| && j != i ==> out.store.users[j] == store.users[j])
    && out.store.users[i] == user.(refreshToken := Some(out.response.refreshToken),
                                   refreshTokenExpiry := out.response.refreshTokenExpiry)
    && out.response.refreshToken == GenerateRefreshToken(random)
    && out.response.refreshTokenExpiry == now + RefreshTokenLifetime
    && out.accessTokenExpiry == now + AccessTokenLifetime
    && GetUserClaims(k, tenant, store.roles, user) == Ok(out.claims)
    && out.response.jwt == env.writeToken(out.claims, out.accessTokenExpiry)
  }

  /** `GenerateTokenAndUpdateUserAsync`. A role without a record stops it before the user changes. */
  function Issue(k: Constants, tenant: Option<TenantInfo>, store: IdentityStore, i: nat,
                 now: int, env: Collaborators, random: seq<Base64.byte>): (r: Result<Issued, Failure>)
    requires i < |store.users| && |random| == RefreshTokenBytes
    ensures r.Ok? <==> RolesResolvable(store.roles, store.users[i].roles)
    ensures r.Ok? ==> IssuedFor(k, tenant, store, i, now, env, random, r.value)
    ensures r.Err? ==> r.error.RoleNotFound?
  {
    var user := store.users[i];
    match GetUserClaims(k, tenant, store.roles, user)
    case Err(e) => Err(e)
    case Ok(claims) =>
      var accessExpiry := now + AccessTokenLifetime;
      var jwt := env.writeToken(claims, accessExpiry);
      var user' := user.(refreshToken := Some(GenerateRefreshToken(random)),
                         refreshTokenExpiry := now + RefreshTokenLifetime);
      Ok(Issued(TokenResponse(jwt, user'.refreshToken.value, user'.refreshTokenExpiry),
                claims, accessExpiry, store.(users := store.users[i := user'])))
  }

  /** Which way the password check is read. The source rejects when the check
      succeeds; `Intended` is the reading that rejects when it fails. */
  datatype PasswordPolarity = AsWritten | Intended

  predicate PasswordRejected(polarity: PasswordPolarity, verified: bool) {
    match polarity
    case AsWritten => verified
    case Intended => !verified
  }

  predicate TenantActive(tenant: Option<TenantInfo>) {
    tenant.Some? && tenant.value.isActive
  }

  /** The root tenant never expires; any other tenant is expired once its
      `validUpTo` lies strictly before now. */
  predicate SubscriptionCurrent(k: Constants, t: TenantInfo, now: int) {
    t.id == k.rootId || !(t.validUpTo < now)
  }

  /** Every check of `LoginAsync` passes: an active tenant, a user found by
      name, a password the check does not reject, an active user and a current
      subscription. */
  predicate LoginChecksPass(polarity: PasswordPolarity, k: Constants, tenant: Option<TenantInfo>,
                            store: IdentityStore, now: int, request: TokenRequest, env: Collaborators)
  {
    && TenantActive(tenant)
    && FindByName(store.users, request.username).Some?
    && var user := store.users[FindByName(store.users, request.username).value];
    && !PasswordRejected(polarity, env.checkPassword(user, request.password))
    && user.isActive
    && SubscriptionCurrent(k, tenant.value, now)
  }

  /** The validation chain of `LoginAsync` followed by issuance, with the given
      reading of the password check. */
  function LoginWith(polarity: PasswordPolarity, k: Constants, tenant: Option<TenantInfo>, store: IdentityStore,
                     now: int, request: TokenRequest, env: Collaborators, random: seq<Base64.byte>): (r: Result<Issued, Failure>)
    requires |random| == RefreshTokenBytes
    ensures r.Ok? <==> (
      && LoginChecksPass(polarity, k, tenant, store, now, request, env)
      && RolesResolvable(store.roles, store.users[FindByName(store.users, request.username).value].roles))
    ensures r.Ok? ==>
      IssuedFor(k, tenant, store, FindByName(store.users, request.username).value, now, env, random, r.value)
    ensures !TenantActive(tenant) ==> r == Err(Reject(TenantNotActiveMessage))
    ensures TenantActive(tenant) && FindByName(store.users, request.username).None? ==>
      r == Err(Reject(UserNotFoundMessage))
  {
    if !TenantActive(tenant) then Err(Reject(TenantNotActiveMessage))
    else match FindByName(store.users, request.username)
      case None => Err(Reject(UserNotFoundMessage))
      case Some(i) =>
        var user := store.users[i];
        if PasswordRejected(polarity, env.checkPassword(user, request.password)) then
          Err(Reject(IncorrectCredentialsMessage))
        else if !user.isActive then Err(Reject(UserNotActiveMessage))
        else if !SubscriptionCurrent(k, tenant.value, now) then Err(Reject(SubscriptionExpiredMessage))
        else Issue(k, tenant, store, i, now, env, random)
  }

  /** `LoginAsync` as written. */
  function Login(k: Constants, tenant: Option<TenantInfo>, store: IdentityStore, now: int,
                 request: TokenRequest, env: Collaborators, random: seq<Base64.byte>): (r: Result<Issued, Failure>)
    requires |random| == RefreshTokenBytes
    ensures r.Ok? ==>
      && FindByName(store.users, request.username).Some?
      && !env.checkPassword(store.users[FindByName(store.users, request.username).value], request.password)
  {
    LoginWith(AsWritten, k, tenant, store, now, request, env, random)
  }

  /** `LoginAsync` with the password check read the intended way. */
  function LoginIntended(k: Constants, tenant: Option<TenantInfo>, store: IdentityStore, now: int,
                         request: TokenRequest, env: Collaborators, random: seq<Base64.byte>): (r: Result<Issued, Failure>)
    requires |random| == RefreshTokenBytes
    ensures r.Ok? ==>
      && FindByName(store.users, request.username).Some?
      && env.checkPassword(store.users[FindByName(store.users, request.username).value], request.password)
  {
    LoginWith(Intended, k, tenant, store, now, request, env, random)
  }

  /** The email carried by the presented JWT when it is non-empty, validates
      and was signed with HS256 (compared ignoring case). */
  function PresentedEmail(request: RefreshTokenRequest, env: Collaborators): (e: Option<string>)
    ensures e.Some? <==> (
      && request.currentJwt.Some? && request.currentJwt.value != ""
      && env.validateToken(request.currentJwt.value).Validated?
      && EqualsIgnoreCase(env.validateToken(request.currentJwt.value).algorithm, HmacSha256)
      && GetEmail(env.validateToken(request.currentJwt.value).claims).Some?)
    ensures e.Some? ==> e == GetEmail(env.validateToken(request.currentJwt.value).claims)
  {
    if request.currentJwt.None? || request.currentJwt.value == "" then None
    else match env.validateToken(request.currentJwt.value)
      case Rejected => None
      case Validated(claims, alg) =>
        if !EqualsIgnoreCase(alg, HmacSha256) then None
        else GetEmail(claims)
  }

  /** The user a refresh request names: the first user whose normalized email
      is the upper-cased email of the presented token. */
  function RefreshSubject(store: IdentityStore, request: RefreshTokenRequest, env: Collaborators): (r: Option<nat>)
    ensures r.Some? <==> (
      && PresentedEmail(request, env).Some?
      && exists j :: 0 <= j < |store.users|
           && store.users[j].normalizedEmail == Some(ToUpper(PresentedEmail(request, env).value)))
    ensures r.Some? ==>
      && r.value < |store.users|
      && store.users[r.value].normalizedEmail == Some(ToUpper(PresentedEmail(request, env).value))
      && forall j :: 0 <= j < r.value ==>
           store.users[j].normalizedEmail != Some(ToUpper(PresentedEmail(request, env).value))
  {
    match PresentedEmail(request, env)
    case None => None
    case Some(email) => FindByEmail(store.users, email)
  }

  /** The stored refresh token is the presented one and has not expired. */
  predicate RefreshTokenAccepted(user: User, request: RefreshTokenRequest, now: int) {
    user.refreshToken == request.currentRefreshJwt && !(user.refreshTokenExpiry < now)
  }

  /** `RefreshTokenAsync`. */
  function Refresh(k: Constants, tenant: Option<TenantInfo>, store: IdentityStore, now: int,
                   request: RefreshTokenRequest, env: Collaborators, random: seq<Base64.byte>): (r: Result<Issued, Failure>)
    requires |random| == RefreshTokenBytes
    ensures r.Ok? <==> (
      && RefreshSubject(store, request, env).Some?
      && RefreshTokenAccepted(store.users[RefreshSubject(store, request, env).value], request, now)
      && RolesResolvable(store.roles, store.users[RefreshSubject(store, request, env).value].roles))
    ensures r.Ok? ==>
      IssuedFor(k, tenant, store, RefreshSubject(store, request, env).value, now, env, random, r.value)
  {
    if request.currentJwt.None? || request.currentJwt.value == "" then Err(Reject(InvalidJwtMessage))
    else match env.validateToken(request.currentJwt.value)
      case Rejected => Err(InvalidSignature)
      case Validated(claims, alg) =>
        if !EqualsIgnoreCase(alg, HmacSha256) then Err(Reject(InvalidJwtMessage))
        else match GetEmail(claims)
          case None => Err(Reject(AuthenticationFailedMessage))
          case Some(email) =>
            match FindByEmail(store.users, email)
            case None => Err(Reject(AuthenticationFailedMessage))
            case Some(i) =>
              if store.users[i].refreshToken != request.currentRefreshJwt
                 || store.users[i].refreshTokenExpiry < now then
                Err(Reject(InvalidRefreshMessage))
              else Issue(k, tenant, store, i, now, env, random)
  }

  // ----- Properties of the login chain -----

  /** As written, the password check rejects a user whose password verifies:
      with an active tenant and a known user, a correct password always ends in
      "Incorrect credentials." */
  lemma LoginRejectsCorrectPassword(k: Constants, tenant: Option<TenantInfo>, store: IdentityStore, now: int,
                                    request: TokenRequest, env: Collaborators, random: seq<Base64.byte>)
    requires |random| == RefreshTokenBytes
    requires TenantActive(tenant)
    requires FindByName(store.users, request.username).Some?
    requires env.checkPassword(store.users[FindByName(store.users, request.username).value], request.password)
    ensures Login(k, tenant, store, now, request, env, random) == Err(Reject(IncorrectCredentialsMessage))
  {
  }

  /** A concrete instance of the finding: one active user whose password is
      "secret", an active tenant; the right password is refused and a wrong
      one lets the user in. */
  lemma LoginRefusesTheRightPassword(k: Constants, env: Collaborators, random: seq<Base64.byte>)
    requires |random| == RefreshTokenBytes
    requires forall u: User, p: string :: env.checkPassword(u, p) == (p == "secret")
    ensures var tenant := TenantInfo(k.rootId, k.rootId, None, None, None, None, None, 0, true);
      var user := User("1", Some("ADMIN"), Some("ADMIN"), None, None, None, None, None, true, true,
                       Some("hash"), true, None, 0, [], []);
      && Login(k, Some(tenant), IdentityStore([user], map[]), 0, TokenRequest("admin", "secret"), env, random)
        == Err(Reject(IncorrectCredentialsMessage))
      && Login(k, Some(tenant), IdentityStore([user], map[]), 0, TokenRequest("admin", "wrong"), env, random).Ok?
  {
    var user := User("1", Some("ADMIN"), Some("ADMIN"), None, None, None, None, None, true, true,
                     Some("hash"), true, None, 0, [], []);
    assert ToUpper("admin") == "ADMIN";
    assert FindByName([user], "admin") == Some(0);
  }

  /** The first failing check decides the message, in the order tenant, user,
      password, user status, subscription. */
  lemma LoginFailsFast(polarity: PasswordPolarity, k: Constants, tenant: Option<TenantInfo>, store: IdentityStore,
                       now: int, request: TokenRequest, env: Collaborators, random: seq<Base64.byte>)
    requires |random| == RefreshTokenBytes
    ensures var r := LoginWith(polarity, k, tenant, store, now, request, env, random);
      var found := FindByName(store.users, request.username);
      && (!TenantActive(tenant) ==> r == Err(Reject(TenantNotActiveMessage)))
      && (TenantActive(tenant) && found.None? ==> r == Err(Reject(UserNotFoundMessage)))
      && (TenantActive(tenant) && found.Some?
          && PasswordRejected(polarity, env.checkPassword(store.users[found.value], request.password)) ==>
          r == Err(Reject(IncorrectCredentialsMessage)))
      && (TenantActive(tenant) && found.Some?
          && !PasswordRejected(polarity, env.checkPassword(store.users[found.value], request.password))
          && !store.users[found.value].isActive ==>
          r == Err(Reject(UserNotActiveMessage)))
      && (TenantActive(tenant) && found.Some?
          && !PasswordRejected(polarity, env.checkPassword(store.users[found.value], request.password))
          && store.users[found.value].isActive && !SubscriptionCurrent(k, tenant.value, now) ==>
          r == Err(Reject(SubscriptionExpiredMessage)))
  {
  }

  /** With the check read the intended way, a correct password for an active
      user of a current tenant whose roles all exist is accepted. */
  lemma LoginIntendedAcceptsCorrectPassword(k: Constants, tenant: Option<TenantInfo>, store: IdentityStore, now: int,
                                            request: TokenRequest, env: Collaborators, random: seq<Base64.byte>)
    requires |random| == RefreshTokenBytes
    requires TenantActive(tenant) && SubscriptionCurrent(k, tenant.value, now)
    requires FindByName(store.users, request.username).Some?
    requires var user := store.users[FindByName(store.users, request.username).value];
      env.checkPassword(user, request.password) && user.isActive && RolesResolvable(store.roles, user.roles)
    ensures LoginIntended(k, tenant, store, now, request, env, random).Ok?
    ensures LoginIntended(k, tenant, store, now, request, env, random).value.response.refreshTokenExpiry
      == now + RefreshTokenLifetime
  {
  }

  /** The root tenant passes the subscription check at any time; any other
      tenant passes until the instant its `validUpTo` is passed. */
  lemma SubscriptionWindow(k: Constants, t: TenantInfo, now: int)
    ensures t.id == k.rootId ==> SubscriptionCurrent(k, t, now)
    ensures t.id != k.rootId ==> (SubscriptionCurrent(k, t, now) <==> now <= t.validUpTo)
  {
  }

  // ----- Properties of the refresh chain -----

  /** The rejections of a refresh: a missing or empty JWT, a bad signature, a
      wrong algorithm, a JWT without an Email claim or of an unknown email, and
      a stored refresh token that differs or has expired. */
  lemma RefreshRejections(k: Constants, tenant: Option<TenantInfo>, store: IdentityStore, now: int,
                          request: RefreshTokenRequest, env: Collaborators, random: seq<Base64.byte>)
    requires |random| == RefreshTokenBytes
    ensures var r := Refresh(k, tenant, store, now, request, env, random);
      && (request.currentJwt.None? || request.currentJwt == Some("") ==> r == Err(Reject(InvalidJwtMessage)))
      && (request.currentJwt.Some? && request.currentJwt != Some("") ==>
          && (env.validateToken(request.currentJwt.value).Rejected? ==> r == Err(InvalidSignature))
          && (env.validateToken(request.currentJwt.value).Validated? ==>
              var v := env.validateToken(request.currentJwt.value);
              && (!EqualsIgnoreCase(v.algorithm, HmacSha256) ==> r == Err(Reject(InvalidJwtMessage)))
              && (EqualsIgnoreCase(v.algorithm, HmacSha256) && (GetEmail(v.claims).None?
                    || FindByEmail(store.users, GetEmail(v.claims).value).None?) ==>
                  r == Err(Reject(AuthenticationFailedMessage)))))
      && (RefreshSubject(store, request, env).Some?
          && !RefreshTokenAccepted(store.users[RefreshSubject(store, request, env).value], request, now) ==>
          r == Err(Reject(InvalidRefreshMessage)))
  {
  }

  /** Refresh never looks at the tenant's state or the user's `isActive` flag:
      an inactive tenant or user gets the same decision. */
  lemma RefreshIgnoresTenantAndUserStatus(k: Constants, tenant: Option<TenantInfo>, other: Option<TenantInfo>,
                                          store: IdentityStore, now: int, request: RefreshTokenRequest,
                                          env: Collaborators, random: seq<Base64.byte>, i: nat)
    requires |random| == RefreshTokenBytes
    requires i < |store.users|
    ensures Refresh(k, tenant, store, now, request, env, random).Ok?
      == Refresh(k, other, store.(users := store.users[i := store.users[i].(isActive := !store.users[i].isActive)]),
                 now, request, env, random).Ok?
  {
    var u := store.users[i].(isActive := !store.users[i].isActive);
    var store' := store.(users := store.users[i := u]);
    RefreshSubjectAfterUpdate(store, i, u, request, env);
  }

  /** Updating one user without touching its normalized email leaves the
      refresh subject where it was. */
  lemma RefreshSubjectAfterUpdate(store: IdentityStore, i: nat, u: User, request: RefreshTokenRequest, env: Collaborators)
    requires i < |store.users|
    requires u.normalizedEmail == store.users[i].normalizedEmail
    ensures RefreshSubject(store.(users := store.users[i := u]), request, env) == RefreshSubject(store, request, env)
  {
    if request.currentJwt.Some? && request.currentJwt.value != "" {
      match env.validateToken(request.currentJwt.value)
      case Rejected =>
      case Validated(claims, alg) =>
        if EqualsIgnoreCase(alg, HmacSha256) && GetEmail(claims).Some? {
          FindUserAfterUpdate(store.users, i, u, ByNormalizedEmail(ToUpper(GetEmail(claims).value)));
        }
    }
  }

  /** The store after an issuance is the old store with only the issued user replaced. */
  lemma IssuedStoreShape(k: Constants, tenant: Option<TenantInfo>, store: IdentityStore, i: nat,
                         now: int, env: Collaborators, random: seq<Base64.byte>, out: Issued)
    requires i < |store.users| && |random| == RefreshTokenBytes
    requires IssuedFor(k, tenant, store, i, now, env, random, out)
    ensures out.store == store.(users := store.users[i := out.store.users[i]])
    ensures out.store.users[i].normalizedEmail == store.users[i].normalizedEmail
  {
    assert out.store.users == store.users[i := out.store.users[i]];
  }

  /** Refresh-token rotation: once a refresh has succeeded, presenting the same
      pair again is refused with "Invalid token.", unless the freshly drawn
      token happens to equal the one presented. */
  lemma RotationRejectsReplay(k: Constants, tenant: Option<TenantInfo>, store: IdentityStore, now: int, later: int,
                              request: RefreshTokenRequest, env: Collaborators,
                              random: seq<Base64.byte>, random': seq<Base64.byte>)
    requires |random| == RefreshTokenBytes && |random'| == RefreshTokenBytes
    requires Refresh(k, tenant, store, now, request, env, random).Ok?
    requires request.currentRefreshJwt != Some(GenerateRefreshToken(random))
    ensures Refresh(k, tenant, Refresh(k, tenant, store, now, request, env, random).value.store,
                    later, request, env, random')
      == Err(Reject(InvalidRefreshMessage))
  {
    var out := Refresh(k, tenant, store, now, request, env, random).value;
    var i := RefreshSubject(store, request, env).value;
    IssuedStoreShape(k, tenant, store, i, now, env, random, out);
    RefreshSubjectAfterUpdate(store, i, out.store.users[i], request, env);
    assert RefreshSubject(out.store, request, env) == Some(i);
  }

  /** The validator accepts exactly what the writer signs: every written token
      is non-empty and validates to the claims it was written from, under HS256. */
  ghost predicate SignsAndValidates(env: Collaborators) {
    forall claims: seq<Claim>, expiry: int ::
      env.writeToken(claims, expiry) != ""
      && env.validateToken(env.writeToken(claims, expiry)) == Validated(claims, HmacSha256)
  }

  /** The issued access token names the user's email (or the empty string) as the first Email claim. */
  lemma IssuedClaimsNameTheUser(k: Constants, tenant: Option<TenantInfo>, roles: RoleStore, user: User)
    requires RolesResolvable(roles, user.roles)
    ensures GetEmail(GetUserClaims(k, tenant, roles, user).value) == Some(user.email.OrElse(""))
    ensures GetUserId(GetUserClaims(k, tenant, roles, user).value) == Some(user.id)
  {
    var ids := IdentityClaims(k, tenant, user);
    var rest := RoleNameClaims(user.roles) + user.claims + RolePermissionClaims(roles, user.roles);
    assert GetUserClaims(k, tenant, roles, user).value == ids + rest;
    FindFirstValueConcat(ids, rest, EmailType);
    FindFirstValueConcat(ids, rest, NameIdentifierType);
    assert !OfType(ids[0], EmailType) by {
      assert |ToUpper(NameIdentifierType)| != |ToUpper(EmailType)|;
    }
    assert ids[1..][0] == Claim(EmailType, user.email.OrElse(""));
    assert FindFirstValue(ids[1..], EmailType) == Some(user.email.OrElse(""));
  }

  /** The issued access token carries the tenant id under the tenant claim,
      provided that claim type is none of the three placed before it. */
  lemma IssuedClaimsNameTheTenant(k: Constants, tenant: Option<TenantInfo>, roles: RoleStore, user: User)
    requires RolesResolvable(roles, user.roles)
    requires !EqualsIgnoreCase(k.tenantClaim, NameIdentifierType)
    requires !EqualsIgnoreCase(k.tenantClaim, EmailType)
    requires !EqualsIgnoreCase(k.tenantClaim, NameType)
    ensures GetTenant(GetUserClaims(k, tenant, roles, user).value, k.tenantClaim)
      == Some(if tenant.Some? then tenant.value.id else "")
  {
    var rest := RoleNameClaims(user.roles) + user.claims + RolePermissionClaims(roles, user.roles);
    assert GetUserClaims(k, tenant, roles, user).value == IdentityClaims(k, tenant, user) + rest;
    TenantClaimAfterIdentity(k, tenant, user, rest);
  }

  /** The tenant claim is the first of its type in any list the identity claims open. */
  lemma TenantClaimAfterIdentity(k: Constants, tenant: Option<TenantInfo>, user: User, rest: seq<Claim>)
    requires !EqualsIgnoreCase(k.tenantClaim, NameIdentifierType)
    requires !EqualsIgnoreCase(k.tenantClaim, EmailType)
    requires !EqualsIgnoreCase(k.tenantClaim, NameType)
    ensures FindFirstValue(IdentityClaims(k, tenant, user) + rest, k.tenantClaim)
      == Some(if tenant.Some? then tenant.value.id else "")
  {
    var ids := IdentityClaims(k, tenant, user);
    var value := if tenant.Some? then tenant.value.id else "";
    var pre := ids[..3];
    var tail := ids[3..] + rest;
    assert ids + rest == pre + tail;
    assert NoneOfType(pre, k.tenantClaim);
    FindFirstValueConcat(pre, tail, k.tenantClaim);
    assert tail[0] == Claim(k.tenantClaim, value);
  }

  /** A claim of a role record is somewhere in the gathered role claims. */
  lemma {:induction false} FlattenContains(xs: seq<seq<Claim>>, j: nat, c: Claim)
    requires j < |xs| && c in xs[j]
    ensures c in Flatten(xs)
  {
    if j > 0 {
      assert xs[1..][j - 1] == xs[j];
      FlattenContains(xs[1..], j - 1, c);
    }
  }

  /** Every permission claim of every role the user holds is in the issued
      claims, so the permission handler succeeds for it. */
  lemma IssuedClaimsGrantRolePermissions(k: Constants, tenant: Option<TenantInfo>, roles: RoleStore, user: User,
                                         j: nat, m: nat)
    requires RolesResolvable(roles, user.roles)
    requires j < |user.roles| && m < |roles[user.roles[j]]|
    requires roles[user.roles[j]][m].claimType == k.permissionClaim
    ensures Auth.HandleRequirement(GetUserClaims(k, tenant, roles, user).value, k.permissionClaim,
      Auth.PermissionRequirement(roles[user.roles[j]][m].value)) == Auth.Succeeded
  {
    var rc := roles[user.roles[j]][m];
    var xs := RoleClaimLists(roles, user.roles);
    assert xs[j][m] == rc.AsClaim();
    FlattenContains(xs, j, rc.AsClaim());
    var claims := GetUserClaims(k, tenant, roles, user).value;
    assert rc.AsClaim() in claims;
    var n :| 0 <= n < |claims| && claims[n] == rc.AsClaim();
    assert Auth.HoldsPermission(claims, k.permissionClaim, rc.value);
  }

  /** A pair just issued can be refreshed: with a validator that accepts what
      the writer signs and a user who is the first owner of their email, the
      issued access token and refresh token succeed at any time up to the
      refresh token's expiry, against any tenant. */
  lemma IssuedPairRefreshes(k: Constants, tenant: Option<TenantInfo>, other: Option<TenantInfo>, store: IdentityStore,
                            i: nat, now: int, later: int, env: Collaborators,
                            random: seq<Base64.byte>, random': seq<Base64.byte>, expiryDate: Option<int>)
    requires i < |store.users| && |random| == RefreshTokenBytes && |random'| == RefreshTokenBytes
    requires SignsAndValidates(env)
    requires Issue(k, tenant, store, i, now, env, random).Ok?
    requires FindByEmail(store.users, store.users[i].email.OrElse("")) == Some(i)
    requires later <= now + RefreshTokenLifetime
    ensures var out := Issue(k, tenant, store, i, now, env, random).value;
      Refresh(k, other, out.store, later,
              RefreshTokenRequest(Some(out.response.jwt), Some(out.response.refreshToken), expiryDate),
              env, random').Ok?
  {
    var out := Issue(k, tenant, store, i, now, env, random).value;
    var request := RefreshTokenRequest(Some(out.response.jwt), Some(out.response.refreshToken), expiryDate);
    IssuedStoreShape(k, tenant, store, i, now, env, random, out);
    IssuedClaimsNameTheUser(k, tenant, store.roles, store.users[i]);
    assert env.validateToken(out.response.jwt) == Validated(out.claims, HmacSha256);
    assert EqualsIgnoreCase(HmacSha256, HmacSha256);
    FindUserAfterUpdate(store.users, i, out.store.users[i],
                        ByNormalizedEmail(ToUpper(store.users[i].email.OrElse(""))));
    assert RefreshSubject(out.store, request, env) == Some(i);
  }

  /** The service emits no Surname claim of its own, so the last name read
      from an issued token is null unless the user's own claims or role claims
      carry one. */
  lemma IssuedClaimsLackSurname(k: Constants, tenant: Option<TenantInfo>, roles: RoleStore, user: User)
    requires RolesResolvable(roles, user.roles)
    requires !EqualsIgnoreCase(k.tenantClaim, SurnameType)
    requires NoneOfType(user.claims, SurnameType)
    requires NoneOfType(RolePermissionClaims(roles, user.roles), SurnameType)
    ensures GetLastName(GetUserClaims(k, tenant, roles, user).value).None?
  {
    var ids := IdentityClaims(k, tenant, user);
    var names := RoleNameClaims(user.roles);
    assert NoneOfType(ids, SurnameType) by {
      assert |ToUpper(NameIdentifierType)| != |ToUpper(SurnameType)|;
      assert |ToUpper(EmailType)| != |ToUpper(SurnameType)|;
      assert |ToUpper(NameType)| != |ToUpper(SurnameType)|;
      assert |ToUpper(MobilePhoneType)| != |ToUpper(SurnameType)|;
    }
    assert NoneOfType(names, SurnameType) by {
      assert |ToUpper(RoleType)| != |ToUpper(SurnameType)|;
    }
    NoneOfTypeConcat(ids, names, SurnameType);
    NoneOfTypeConcat(ids + names, user.claims, SurnameType);
    NoneOfTypeConcat(ids + names + user.claims, RolePermissionClaims(roles, user.roles), SurnameType);
  }

  lemma NoneOfTypeConcat(a: seq<Claim>, b: seq<Claim>, claimType: string)
    requires NoneOfType(a, claimType) && NoneOfType(b, claimType)
    ensures NoneOfType(a + b, claimType)
  {
    assert forall i :: |a| <= i < |a + b| ==> (a + b)[i] == b[i - |a|];
  }
}
