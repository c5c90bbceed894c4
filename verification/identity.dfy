/** The records the core works on: the configured constants, tenants, users,
    role claims, and the identity store with its user lookups. */
module Identity {
  import opened Wrappers
  import opened Text
  import opened Claims

  /** Constants whose values are configuration: the custom claim types
      (`ClaimConstants`), the default roles (`RoleConstants`) and the root
      tenant's fixed fields (`TenancyConstans`). */
  datatype Constants = Constants(
    permissionClaim: string,
    tenantClaim: string,
    adminRole: string,
    basicRole: string,
    defaultRoles: seq<string>,
    rootId: string,
    rootName: string,
    rootEmail: string,
    adminFirstName: string,
    adminLastName: string,
    defaultPassword: string)

  /** A tenant row. Times are whole seconds. */
  datatype TenantInfo = TenantInfo(
    id: string,
    identifier: string,
    name: Option<string>,
    connectionString: Option<string>,
    email: Option<string>,
    firstName: Option<string>,
    lastName: Option<string>,
    validUpTo: int,
    isActive: bool)

  /** A user of one tenant's directory, with its role names and its own claims. */
  datatype User = User(
    id: string,
    userName: Option<string>,
    normalizedUserName: Option<string>,
    email: Option<string>,
    normalizedEmail: Option<string>,
    firstName: Option<string>,
    lastName: Option<string>,
    phoneNumber: Option<string>,
    emailConfirmed: bool,
    phoneNumberConfirmed: bool,
    passwordHash: Option<string>,
    isActive: bool,
    refreshToken: Option<string>,
    refreshTokenExpiry: int,
    roles: seq<string>,
    claims: seq<Claim>)

  /** A stored role claim; only its type and value travel into tokens. */
  datatype RoleClaim = RoleClaim(claimType: string, value: string, description: string, group: string) {
    function AsClaim(): Claim {
      Claim(claimType, value)
    }
  }

  /** Role name to the role's claims, in insertion order. */
  type RoleStore = map<string, seq<RoleClaim>>

  /** One tenant's identity data. */
  datatype IdentityStore = IdentityStore(users: seq<User>, roles: RoleStore)

  /** How a user is looked up: by normalized user name, by normalized email, or by exact email. */
  datatype UserKey = ByNormalizedName(name: string) | ByNormalizedEmail(email: string) | ByEmail(address: string)

  predicate Matches(u: User, key: UserKey) {
    match key
    case ByNormalizedName(n) => u.normalizedUserName == Some(n)
    case ByNormalizedEmail(e) => u.normalizedEmail == Some(e)
    case ByEmail(e) => u.email == Some(e)
  }

  /** The first user matching the key. */
  function FindUser(users: seq<User>, key: UserKey): (r: Option<nat>)
    ensures r.None? <==> forall j :: 0 <= j < |users| ==> !Matches(users[j], key)
    ensures r.Some? ==>
      && r.value < |users| && Matches(users[r.value], key)
      && forall j :: 0 <= j < r.value ==> !Matches(users[j], key)
  {
    if |users| == 0 then None
    else if Matches(users[0], key) then Some(0)
    else match FindUser(users[1..], key)
      case None => None
      case Some(k) => Some(k + 1)
  }

  /** `FindByNameAsync`: compares the upper-cased name with the stored normalized name. */
  function FindByName(users: seq<User>, userName: string): (r: Option<nat>)
    ensures r.None? <==> forall j :: 0 <= j < |users| ==> users[j].normalizedUserName != Some(ToUpper(userName))
    ensures r.Some? ==>
      && r.value < |users| && users[r.value].normalizedUserName == Some(ToUpper(userName))
      && forall j :: 0 <= j < r.value ==> users[j].normalizedUserName != Some(ToUpper(userName))
  {
    FindUser(users, ByNormalizedName(ToUpper(userName)))
  }

  /** `FindByEmailAsync`: compares the upper-cased email with the stored normalized email. */
  function FindByEmail(users: seq<User>, email: string): (r: Option<nat>)
    ensures r.None? <==> forall j :: 0 <= j < |users| ==> users[j].normalizedEmail != Some(ToUpper(email))
    ensures r.Some? ==>
      && r.value < |users| && users[r.value].normalizedEmail == Some(ToUpper(email))
      && forall j :: 0 <= j < r.value ==> users[j].normalizedEmail != Some(ToUpper(email))
  {
    FindUser(users, ByNormalizedEmail(ToUpper(email)))
  }

  /** Changing a user without touching the looked-up field does not change any lookup. */
  lemma FindUserAfterUpdate(users: seq<User>, i: nat, u: User, key: UserKey)
    requires i < |users|
    requires Matches(u, key) == Matches(users[i], key)
    ensures FindUser(users[i := u], key) == FindUser(users, key)
  {
    var updated := users[i := u];
    assert forall j :: 0 <= j < |users| ==> Matches(updated[j], key) == Matches(users[j], key);
    var a, b := FindUser(updated, key), FindUser(users, key);
    if a.Some? && b.Some? {
      assert !(a.value < b.value) && !(b.value < a.value);
    }
  }

  /** Appending a user the key does not match leaves the lookup unchanged. */
  lemma FindUserAfterAppend(users: seq<User>, u: User, key: UserKey)
    requires !Matches(u, key)
    ensures FindUser(users + [u], key) == FindUser(users, key)
  {
    var longer := users + [u];
    assert forall j :: 0 <= j < |longer| ==> Matches(longer[j], key) == (j < |users| && Matches(users[j], key));
    var a, b := FindUser(longer, key), FindUser(users, key);
    if a.Some? && b.Some? {
      assert !(a.value < b.value) && !(b.value < a.value);
    }
  }
}
