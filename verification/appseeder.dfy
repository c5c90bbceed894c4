/** Seeding of one tenant's identity store: the default roles with the
    permission claims of their tier, and the tenant's admin user. The store
    is a value; the seeding steps are functions from the old store to the new. */
module AppSeeder {
  import opened Wrappers
  import opened Text
  import opened Identity
  import Catalog

  // ----- Permission assignment -----

  /** Two role claims agree on type and value, the fields the "already assigned" test reads. */
  predicate SameClaim(a: RoleClaim, b: RoleClaim) {
    a.claimType == b.claimType && a.value == b.value
  }

  /** Some claim of the list has the type and value of `c`. */
  predicate Holds(claims: seq<RoleClaim>, c: RoleClaim) {
    exists i :: 0 <= i < |claims| && SameClaim(claims[i], c)
  }

  /** Every claim of `incoming` is held. */
  predicate HoldsAll(claims: seq<RoleClaim>, incoming: seq<RoleClaim>) {
    forall j :: 0 <= j < |incoming| ==> Holds(claims, incoming[j])
  }

  predicate IsPrefix(a: seq<RoleClaim>, b: seq<RoleClaim>) {
    |a| <= |b| && b[..|a|] == a
  }

  /** `after` is `before` with entries appended, each taken from `allowed`. */
  predicate AddedOnly(before: seq<RoleClaim>, after: seq<RoleClaim>, allowed: seq<RoleClaim>) {
    IsPrefix(before, after) && forall j :: |before| <= j < |after| ==> after[j] in allowed
  }

  /** No two claims of the list agree on type and value. */
  predicate NoDuplicates(claims: seq<RoleClaim>) {
    forall i, j :: 0 <= i < j < |claims| ==> !SameClaim(claims[i], claims[j])
  }

  /** The role claims stored for catalog entries: permission type, the entry's
      name as value, and its description and group. */
  function StoredClaims(permissionClaim: string, ps: seq<Catalog.Permission>): (r: seq<RoleClaim>)
    ensures |r| == |ps|
    ensures forall i :: 0 <= i < |ps| ==>
      r[i] == RoleClaim(permissionClaim, ps[i].Name(), ps[i].description, ps[i].group)
  {
    seq(|ps|, i requires 0 <= i < |ps| => RoleClaim(permissionClaim, ps[i].Name(), ps[i].description, ps[i].group))
  }

  /** `a` is `b` with some elements deleted: the same claims in the same order. */
  predicate IsSubsequence(a: seq<RoleClaim>, b: seq<RoleClaim>)
    decreases |b|
  {
    || |a| == 0
    || (|b| > 0 && ((a[0] == b[0] && IsSubsequence(a[1..], b[1..])) || IsSubsequence(a, b[1..])))
  }

  /** The loop's additions: each incoming claim not held by `snapshot`, the
      claim list read once before the loop. */
  function NewClaims(snapshot: seq<RoleClaim>, incoming: seq<RoleClaim>): (r: seq<RoleClaim>)
    ensures |r| <= |incoming|
    ensures forall j :: 0 <= j < |r| ==> r[j] in incoming && !Holds(snapshot, r[j])
    ensures forall j :: 0 <= j < |incoming| && !Holds(snapshot, incoming[j]) ==> incoming[j] in r
  {
    if |incoming| == 0 then []
    else
      var rest := NewClaims(snapshot, incoming[1..]);
      assert forall j :: 1 <= j < |incoming| ==> incoming[j] == incoming[1..][j - 1];
      if Holds(snapshot, incoming[0]) then rest
      else [incoming[0]] + rest
  }

  /** The additions keep the offer's order, and each un-held claim is added
      as many times as it is offered. */
  lemma {:induction false} NewClaimsOrderAndRepeats(snapshot: seq<RoleClaim>, incoming: seq<RoleClaim>)
    ensures IsSubsequence(NewClaims(snapshot, incoming), incoming)
    ensures forall c ::
      multiset(NewClaims(snapshot, incoming))[c] == if Holds(snapshot, c) then 0 else multiset(incoming)[c]
  {
    if |incoming| > 0 {
      NewClaimsOrderAndRepeats(snapshot, incoming[1..]);
      var rest := NewClaims(snapshot, incoming[1..]);
      assert incoming == [incoming[0]] + incoming[1..];
      if !Holds(snapshot, incoming[0]) {
        var r := [incoming[0]] + rest;
        assert r[1..] == rest;
      }
    }
  }

  /** A held claim stays held when claims are appended. */
  lemma HoldsExtends(claims: seq<RoleClaim>, more: seq<RoleClaim>, c: RoleClaim)
    requires Holds(claims, c)
    ensures Holds(claims + more, c)
  {
    var i :| 0 <= i < |claims| && SameClaim(claims[i], c);
    assert (claims + more)[i] == claims[i];
  }

  /** `AssingPermissionsToRoleAsync`: appends the incoming claims the role does
      not hold, never removing or changing one, and afterwards holds them all. */
  function AssignPermissions(current: seq<RoleClaim>, incoming: seq<RoleClaim>): (r: seq<RoleClaim>)
    ensures AddedOnly(current, r, incoming)
    ensures HoldsAll(r, incoming)
    ensures forall j :: |current| <= j < |r| ==> !Holds(current, r[j])
  {
    var added := NewClaims(current, incoming);
    var r := current + added;
    assert forall j :: |current| <= j < |r| ==> r[j] == added[j - |current|];
    assert r[..|current|] == current;
    forall j | 0 <= j < |incoming| ensures Holds(r, incoming[j]) {
      if Holds(current, incoming[j]) {
        HoldsExtends(current, added, incoming[j]);
      } else {
        var m :| 0 <= m < |added| && added[m] == incoming[j];
        assert r[|current| + m] == incoming[j];
      }
    }
    r
  }

  /** When every incoming claim is already held nothing is added. */
  lemma {:induction false} NewClaimsNoneWhenHeld(snapshot: seq<RoleClaim>, incoming: seq<RoleClaim>)
    requires HoldsAll(snapshot, incoming)
    ensures NewClaims(snapshot, incoming) == []
  {
    if |incoming| > 0 {
      assert HoldsAll(snapshot, incoming[1..]) by {
        forall j | 0 <= j < |incoming[1..]| ensures Holds(snapshot, incoming[1..][j]) {
          assert incoming[1..][j] == incoming[j + 1];
        }
      }
      NewClaimsNoneWhenHeld(snapshot, incoming[1..]);
    }
  }

  /** Assigning claims that are all held leaves the role as it is. */
  lemma AssignWhenHeld(current: seq<RoleClaim>, incoming: seq<RoleClaim>)
    requires HoldsAll(current, incoming)
    ensures AssignPermissions(current, incoming) == current
  {
    NewClaimsNoneWhenHeld(current, incoming);
  }

  /** A second assignment of the same list adds nothing. */
  lemma AssignIdempotent(current: seq<RoleClaim>, incoming: seq<RoleClaim>)
    ensures AssignPermissions(AssignPermissions(current, incoming), incoming) == AssignPermissions(current, incoming)
  {
    AssignWhenHeld(AssignPermissions(current, incoming), incoming);
  }

  /** The additions drawn from a duplicate-free list are duplicate-free. */
  lemma {:induction false} NewClaimsNoDuplicates(snapshot: seq<RoleClaim>, incoming: seq<RoleClaim>)
    requires NoDuplicates(incoming)
    ensures NoDuplicates(NewClaims(snapshot, incoming))
    ensures forall j :: 0 <= j < |NewClaims(snapshot, incoming)| ==> NewClaims(snapshot, incoming)[j] in incoming
  {
    if |incoming| > 0 {
      var tail := incoming[1..];
      assert forall j :: 0 <= j < |tail| ==> tail[j] == incoming[j + 1];
      NewClaimsNoDuplicates(snapshot, tail);
      var rest := NewClaims(snapshot, tail);
      assert forall j :: 0 <= j < |rest| ==> !SameClaim(incoming[0], rest[j]) by {
        forall j | 0 <= j < |rest| ensures !SameClaim(incoming[0], rest[j]) {
          var m :| 0 <= m < |tail| && tail[m] == rest[j];
        }
      }
    }
  }

  /** A duplicate-free role assigned a duplicate-free list stays duplicate-free. */
  lemma AssignKeepsNoDuplicates(current: seq<RoleClaim>, incoming: seq<RoleClaim>)
    requires NoDuplicates(current) && NoDuplicates(incoming)
    ensures NoDuplicates(AssignPermissions(current, incoming))
  {
    var added := NewClaims(current, incoming);
    var r := AssignPermissions(current, incoming);
    NewClaimsNoDuplicates(current, incoming);
    assert r == current + added;
    forall i, j | 0 <= i < j < |r| ensures !SameClaim(r[i], r[j]) {
      if j < |current| {
        assert r[i] == current[i] && r[j] == current[j];
      } else if i < |current| {
        assert r[i] == current[i];
        assert !Holds(current, r[j]);
      } else {
        assert r[i] == added[i - |current|] && r[j] == added[j - |current|];
      }
    }
  }

  /** The claim list is read once before the loop, so a claim listed twice is added twice. */
  lemma RepeatedClaimAddedTwice(c: RoleClaim)
    ensures AssignPermissions([], [c, c]) == [c, c]
    ensures !NoDuplicates(AssignPermissions([], [c, c]))
  {
    assert !Holds([], c);
    assert [c, c][1..] == [c];
    assert NewClaims([], [c]) == [c];
  }

  // ----- Default roles -----

  /** The three permission lists the role seeding assigns, as stored claims. */
  datatype Tiers = Tiers(admin: seq<RoleClaim>, root: seq<RoleClaim>, basic: seq<RoleClaim>)

  /** The catalog's admin, root and basic tiers as stored claims. */
  function CatalogTiers(permissionClaim: string): Tiers {
    Tiers(StoredClaims(permissionClaim, Catalog.Admin()),
          StoredClaims(permissionClaim, Catalog.Root()),
          StoredClaims(permissionClaim, Catalog.Basic()))
  }

  /** Each list is duplicate-free and no root claim shares its value with an admin or basic claim. */
  predicate WellFormed(tiers: Tiers) {
    && NoDuplicates(tiers.admin) && NoDuplicates(tiers.root) && NoDuplicates(tiers.basic)
    && (forall i, j :: 0 <= i < |tiers.root| && 0 <= j < |tiers.admin| ==> tiers.root[i].value != tiers.admin[j].value)
    && (forall i, j :: 0 <= i < |tiers.root| && 0 <= j < |tiers.basic| ==> tiers.root[i].value != tiers.basic[j].value)
  }

  /** Entries with distinct names are stored as distinct claims. */
  lemma StoredClaimsDistinct(permissionClaim: string, ps: seq<Catalog.Permission>)
    requires forall i, j :: 0 <= i < j < |ps| ==> ps[i].Name() != ps[j].Name()
    ensures NoDuplicates(StoredClaims(permissionClaim, ps))
  {
    var r := StoredClaims(permissionClaim, ps);
    forall i, j | 0 <= i < j < |r| ensures !SameClaim(r[i], r[j]) {
      assert r[i].value == ps[i].Name() && r[j].value == ps[j].Name();
    }
  }

  /** Lists whose entries share no name are stored with no value in common. */
  lemma StoredClaimsApart(permissionClaim: string, ps: seq<Catalog.Permission>, qs: seq<Catalog.Permission>)
    requires forall p, q :: p in ps && q in qs ==> p.Name() != q.Name()
    ensures var a, b := StoredClaims(permissionClaim, ps), StoredClaims(permissionClaim, qs);
      forall i, j :: 0 <= i < |a| && 0 <= j < |b| ==> a[i].value != b[j].value
  {
    var a, b := StoredClaims(permissionClaim, ps), StoredClaims(permissionClaim, qs);
    forall i, j | 0 <= i < |a| && 0 <= j < |b| ensures a[i].value != b[j].value {
      assert ps[i] in ps && qs[j] in qs;
    }
  }

  /** The catalog's tiers are well formed. */
  lemma CatalogTiersWellFormed(permissionClaim: string)
    ensures WellFormed(CatalogTiers(permissionClaim))
  {
    Catalog.TierNamesDistinct();
    StoredClaimsDistinct(permissionClaim, Catalog.Root());
    StoredClaimsDistinct(permissionClaim, Catalog.Admin());
    StoredClaimsDistinct(permissionClaim, Catalog.Basic());
    StoredClaimsApart(permissionClaim, Catalog.Root(), Catalog.Admin());
    StoredClaimsApart(permissionClaim, Catalog.Root(), Catalog.Basic());
  }

  /** The claims a default role is given: the admin role the admin tier, and
      the root tier as well when seeding the root tenant; the basic role the
      basic tier; any other role nothing. */
  function Granted(k: Constants, tiers: Tiers, tenantId: Option<string>, role: string): seq<RoleClaim> {
    if role == k.adminRole then tiers.admin + (if tenantId == Some(k.rootId) then tiers.root else [])
    else if role == k.basicRole then tiers.basic
    else []
  }

  /** The claims a role had before seeding, none when it did not exist. */
  function ClaimsBefore(roles: RoleStore, role: string): seq<RoleClaim> {
    if role in roles then roles[role] else []
  }

  /** Two appending steps make one, drawing on both lists. */
  lemma AddedOnlyChain(a: seq<RoleClaim>, b: seq<RoleClaim>, c: seq<RoleClaim>, xs: seq<RoleClaim>, ys: seq<RoleClaim>)
    requires AddedOnly(a, b, xs) && AddedOnly(b, c, ys)
    ensures AddedOnly(a, c, xs + ys)
  {
    assert c[..|b|][..|a|] == c[..|a|];
    forall j | |a| <= j < |c| ensures c[j] in xs + ys {
      if j < |b| {
        assert c[j] == c[..|b|][j] == b[j];
      }
    }
  }

  /** Drawing on a list is drawing on any list that contains it. */
  lemma AddedOnlyWiden(a: seq<RoleClaim>, b: seq<RoleClaim>, xs: seq<RoleClaim>, ys: seq<RoleClaim>)
    requires AddedOnly(a, b, xs)
    requires forall c :: c in xs ==> c in ys
    ensures AddedOnly(a, b, ys)
  {
  }

  /** Appending keeps every held claim. */
  lemma HoldsAllExtends(a: seq<RoleClaim>, b: seq<RoleClaim>, incoming: seq<RoleClaim>)
    requires IsPrefix(a, b) && HoldsAll(a, incoming)
    ensures HoldsAll(b, incoming)
  {
    assert b == a + b[|a|..];
    forall j | 0 <= j < |incoming| ensures Holds(b, incoming[j]) {
      HoldsExtends(a, b[|a|..], incoming[j]);
    }
  }

  /** Holding two lists is holding their concatenation. */
  lemma HoldsAllConcat(claims: seq<RoleClaim>, xs: seq<RoleClaim>, ys: seq<RoleClaim>)
    ensures HoldsAll(claims, xs + ys) <==> HoldsAll(claims, xs) && HoldsAll(claims, ys)
  {
    assert forall j :: 0 <= j < |xs| ==> (xs + ys)[j] == xs[j];
    assert forall j :: 0 <= j < |ys| ==> (xs + ys)[|xs| + j] == ys[j];
  }

  /** One iteration of `InitializeDefaultRoleAsync`: create the role when no
      role has the name, then assign the claims its name and the tenant grant it. */
  function SeedRole(k: Constants, tiers: Tiers, tenantId: Option<string>, roles: RoleStore, role: string): (r: RoleStore)
    ensures r.Keys == roles.Keys + {role}
    ensures forall n :: n in roles && n != role ==> r[n] == roles[n]
    ensures AddedOnly(ClaimsBefore(roles, role), r[role], Granted(k, tiers, tenantId, role))
    ensures HoldsAll(r[role], Granted(k, tiers, tenantId, role))
  {
    var current := ClaimsBefore(roles, role);
    if role == k.adminRole then
      var admin := AssignPermissions(current, tiers.admin);
      if tenantId == Some(k.rootId) then
        var both := AssignPermissions(admin, tiers.root);
        AddedOnlyChain(current, admin, both, tiers.admin, tiers.root);
        HoldsAllExtends(admin, both, tiers.admin);
        HoldsAllConcat(both, tiers.admin, tiers.root);
        roles[role := both]
      else
        assert tiers.admin + [] == tiers.admin;
        roles[role := admin]
    else if role == k.basicRole then
      roles[role := AssignPermissions(current, tiers.basic)]
    else
      assert current[..|current|] == current;
      roles[role := current]
  }

  /** `InitializeDefaultRoleAsync`: every default role, in order. Afterwards
      every listed role exists and holds its grant, and every role has only
      gained claims of its grant. */
  function InitializeDefaultRoles(k: Constants, tiers: Tiers, tenantId: Option<string>, roles: RoleStore,
                                  names: seq<string>): (r: RoleStore)
    ensures r.Keys == roles.Keys + set n | n in names
    ensures forall n :: n in r ==> AddedOnly(ClaimsBefore(roles, n), r[n], Granted(k, tiers, tenantId, n))
    ensures forall n :: n in names ==> HoldsAll(r[n], Granted(k, tiers, tenantId, n))
    decreases |names|
  {
    if |names| == 0 then
      assert forall n :: n in roles ==> roles[n][..|roles[n]|] == roles[n];
      roles
    else
      var step := SeedRole(k, tiers, tenantId, roles, names[0]);
      var r := InitializeDefaultRoles(k, tiers, tenantId, step, names[1..]);
      InitializeDefaultRolesStep(k, tiers, tenantId, roles, names, step, r);
      r
  }

  /** The inductive step of `InitializeDefaultRoles`, kept apart to keep each proof small. */
  lemma InitializeDefaultRolesStep(k: Constants, tiers: Tiers, tenantId: Option<string>, roles: RoleStore,
                                   names: seq<string>, step: RoleStore, r: RoleStore)
    requires |names| > 0
    requires step == SeedRole(k, tiers, tenantId, roles, names[0])
    requires r.Keys == step.Keys + set n | n in names[1..]
    requires forall n :: n in r ==> AddedOnly(ClaimsBefore(step, n), r[n], Granted(k, tiers, tenantId, n))
    requires forall n :: n in names[1..] ==> HoldsAll(r[n], Granted(k, tiers, tenantId, n))
    ensures r.Keys == roles.Keys + set n | n in names
    ensures forall n :: n in r ==> AddedOnly(ClaimsBefore(roles, n), r[n], Granted(k, tiers, tenantId, n))
    ensures forall n :: n in names ==> HoldsAll(r[n], Granted(k, tiers, tenantId, n))
  {
    assert forall n :: n in names <==> n == names[0] || n in names[1..];
    forall n | n in r ensures AddedOnly(ClaimsBefore(roles, n), r[n], Granted(k, tiers, tenantId, n)) {
      var g := Granted(k, tiers, tenantId, n);
      if n == names[0] {
        AddedOnlyChain(ClaimsBefore(roles, n), step[n], r[n], g, g);
        AddedOnlyWiden(ClaimsBefore(roles, n), r[n], g + g, g);
      } else {
        assert ClaimsBefore(step, n) == ClaimsBefore(roles, n);
      }
    }
    forall n | n in names ensures HoldsAll(r[n], Granted(k, tiers, tenantId, n)) {
      if n !in names[1..] {
        HoldsAllExtends(step[n], r[n], Granted(k, tiers, tenantId, n));
      }
    }
  }

  /** Every listed role exists and holds its grant. */
  predicate Saturated(k: Constants, tiers: Tiers, tenantId: Option<string>, roles: RoleStore, names: seq<string>) {
    forall n :: n in names ==> n in roles && HoldsAll(roles[n], Granted(k, tiers, tenantId, n))
  }

  /** Seeding a role that exists and holds its grant changes nothing. */
  lemma SeedRoleWhenSaturated(k: Constants, tiers: Tiers, tenantId: Option<string>, roles: RoleStore, role: string)
    requires role in roles && HoldsAll(roles[role], Granted(k, tiers, tenantId, role))
    ensures SeedRole(k, tiers, tenantId, roles, role) == roles
  {
    if role == k.adminRole {
      var extra := if tenantId == Some(k.rootId) then tiers.root else [];
      HoldsAllConcat(roles[role], tiers.admin, extra);
      AssignWhenHeld(roles[role], tiers.admin);
      if tenantId == Some(k.rootId) {
        AssignWhenHeld(roles[role], tiers.root);
      }
    } else if role == k.basicRole {
      AssignWhenHeld(roles[role], tiers.basic);
    }
  }

  /** Seeding roles that are already saturated changes nothing. */
  lemma {:induction false} SeedWhenSaturated(k: Constants, tiers: Tiers, tenantId: Option<string>, roles: RoleStore,
                                             names: seq<string>)
    requires Saturated(k, tiers, tenantId, roles, names)
    ensures InitializeDefaultRoles(k, tiers, tenantId, roles, names) == roles
    decreases |names|
  {
    if |names| > 0 {
      assert names[0] in names;
      SeedRoleWhenSaturated(k, tiers, tenantId, roles, names[0]);
      assert forall n :: n in names[1..] ==> n in names;
      SeedWhenSaturated(k, tiers, tenantId, roles, names[1..]);
    }
  }

  /** Role seeding is idempotent: a second run adds no role and no claim. */
  lemma InitializeDefaultRolesIdempotent(k: Constants, tiers: Tiers, tenantId: Option<string>, roles: RoleStore,
                                         names: seq<string>)
    ensures var once := InitializeDefaultRoles(k, tiers, tenantId, roles, names);
      InitializeDefaultRoles(k, tiers, tenantId, once, names) == once
  {
    var once := InitializeDefaultRoles(k, tiers, tenantId, roles, names);
    SeedWhenSaturated(k, tiers, tenantId, once, names);
  }

  /** Some claim of the list agrees with a claim of the root tier. */
  predicate HasRootClaim(claims: seq<RoleClaim>, tiers: Tiers) {
    exists i, j :: 0 <= i < |claims| && 0 <= j < |tiers.root| && SameClaim(claims[i], tiers.root[j])
  }

  /** Root claims reach a role only when seeding the root tenant: for any other
      tenant, roles that held no root claim hold none afterwards. */
  lemma NonRootTenantGetsNoRootClaims(k: Constants, tiers: Tiers, tenantId: Option<string>, roles: RoleStore,
                                      names: seq<string>)
    requires WellFormed(tiers)
    requires tenantId != Some(k.rootId)
    requires forall n :: n in roles ==> !HasRootClaim(roles[n], tiers)
    ensures var r := InitializeDefaultRoles(k, tiers, tenantId, roles, names);
      forall n :: n in r ==> !HasRootClaim(r[n], tiers)
  {
    var r := InitializeDefaultRoles(k, tiers, tenantId, roles, names);
    forall n | n in r ensures !HasRootClaim(r[n], tiers) {
      GrantedOutsideRoot(k, tiers, tenantId, n);
      NoRootClaimAdded(ClaimsBefore(roles, n), r[n], Granted(k, tiers, tenantId, n), tiers);
    }
  }

  /** Outside the root tenant a role is granted only admin and basic claims. */
  lemma GrantedOutsideRoot(k: Constants, tiers: Tiers, tenantId: Option<string>, n: string)
    requires tenantId != Some(k.rootId)
    ensures forall c :: c in Granted(k, tiers, tenantId, n) ==> c in tiers.admin || c in tiers.basic
  {
    if n == k.adminRole {
      assert Granted(k, tiers, tenantId, n) == tiers.admin + [] == tiers.admin;
    }
  }

  /** Appending admin or basic claims to a list without root claims adds none. */
  lemma NoRootClaimAdded(before: seq<RoleClaim>, after: seq<RoleClaim>, g: seq<RoleClaim>, tiers: Tiers)
    requires WellFormed(tiers)
    requires AddedOnly(before, after, g)
    requires forall c :: c in g ==> c in tiers.admin || c in tiers.basic
    requires !HasRootClaim(before, tiers)
    ensures !HasRootClaim(after, tiers)
  {
  }

  /** The admin role of the root tenant holds every admin and root claim; the
      admin role of any other tenant holds every admin claim; the basic role
      holds the basic claim. */
  lemma SeededRolesHoldTheirTiers(k: Constants, tenantId: Option<string>, roles: RoleStore)
    requires k.adminRole in k.defaultRoles && k.basicRole in k.defaultRoles && k.adminRole != k.basicRole
    ensures var tiers := CatalogTiers(k.permissionClaim);
      var r := InitializeDefaultRoles(k, tiers, tenantId, roles, k.defaultRoles);
      && HoldsAll(r[k.adminRole], tiers.admin)
      && (tenantId == Some(k.rootId) ==> HoldsAll(r[k.adminRole], tiers.root))
      && HoldsAll(r[k.basicRole], tiers.basic)
  {
    var tiers := CatalogTiers(k.permissionClaim);
    var r := InitializeDefaultRoles(k, tiers, tenantId, roles, k.defaultRoles);
    HoldsAllConcat(r[k.adminRole], tiers.admin, if tenantId == Some(k.rootId) then tiers.root else []);
  }

  // ----- Admin user -----

  /** How the admin user is created: as written, without setting its Email;
      or with its Email set, so that the lookup by Email finds it again. */
  datatype AdminUserMode = AsWritten | WithEmail

  /** The values the seeder obtains from the identity library: the new user's
      id and the hash of the default password. */
  datatype AdminOracles = AdminOracles(newUserId: string, passwordHash: string)

  /** The user created for a tenant's email, as `CreateAsync` stores it: the
      library recomputes the normalized name and email from UserName and Email,
      so without an Email the stored normalized email is null. */
  function NewAdminUser(mode: AdminUserMode, k: Constants, email: string, oracles: AdminOracles): (u: User)
    ensures u.userName == Some(email)
    ensures u.normalizedUserName == Some(ToUpper(email))
    ensures u.normalizedEmail == (if mode == WithEmail then Some(ToUpper(email)) else None)
    ensures u.emailConfirmed && u.phoneNumberConfirmed && u.isActive
    ensures u.email == (if mode == WithEmail then Some(email) else None)
    ensures u.firstName == Some(k.adminFirstName) && u.lastName == Some(k.adminLastName)
    ensures u.roles == [] && u.claims == []
    ensures u.id == oracles.newUserId && u.passwordHash == Some(oracles.passwordHash)
  {
    User(oracles.newUserId, Some(email), Some(ToUpper(email)),
         if mode == WithEmail then Some(email) else None,
         if mode == WithEmail then Some(ToUpper(email)) else None,
         Some(k.adminFirstName), Some(k.adminLastName), None, true, true,
         Some(oracles.passwordHash), true, None, 0, [], [])
  }

  /** `AddToRoleAsync` guarded by `IsInRoleAsync`: the role is appended only when missing. */
  function AddAdminRole(k: Constants, u: User): (r: User)
    ensures k.adminRole in r.roles
    ensures r == u.(roles := r.roles)
    ensures k.adminRole in u.roles ==> r == u
    ensures k.adminRole !in u.roles ==> r.roles == u.roles + [k.adminRole]
  {
    if k.adminRole in u.roles then u else u.(roles := u.roles + [k.adminRole])
  }

  /** The tenant's email when it is neither null nor empty. */
  function SeedEmail(tenant: Option<TenantInfo>): (r: Option<string>)
    ensures r.Some? <==> tenant.Some? && tenant.value.email.Some? && tenant.value.email.value != ""
    ensures r.Some? ==> r.value == tenant.value.email.value
  {
    if tenant.Some? && tenant.value.email.Some? && tenant.value.email.value != "" then tenant.value.email else None
  }

  /** `InitializeAdminUserAsync` in the given mode: skipped without a tenant
      email; otherwise the first user whose Email equals it, created when
      there is none, ends in the admin role. */
  function InitializeAdminUserWith(mode: AdminUserMode, k: Constants, tenant: Option<TenantInfo>,
                                   users: seq<User>, oracles: AdminOracles): (r: seq<User>)
    ensures SeedEmail(tenant).None? ==> r == users
    ensures |users| <= |r| <= |users| + 1
    ensures forall j :: 0 <= j < |users| ==> r[j] == users[j] || r[j] == AddAdminRole(k, users[j])
    ensures SeedEmail(tenant).Some? && FindUser(users, ByEmail(SeedEmail(tenant).value)).Some? ==>
      |r| == |users| && k.adminRole in r[FindUser(users, ByEmail(SeedEmail(tenant).value)).value].roles
    ensures SeedEmail(tenant).Some? && FindUser(users, ByEmail(SeedEmail(tenant).value)).None? ==>
      |r| == |users| + 1 && r[|users|] == AddAdminRole(k, NewAdminUser(mode, k, SeedEmail(tenant).value, oracles))
      && r[|users|].roles == [k.adminRole]
    ensures SeedEmail(tenant).Some? ==>
      exists j :: 0 <= j < |r| && k.adminRole in r[j].roles
        && (r[j].email == SeedEmail(tenant) || (j == |users| && r[j].userName == SeedEmail(tenant)))
  {
    match SeedEmail(tenant)
    case None => users
    case Some(email) =>
      match FindUser(users, ByEmail(email))
      case None =>
        var u := AddAdminRole(k, NewAdminUser(mode, k, email, oracles));
        var r := users + [u];
        assert r[|users|] == u;
        r
      case Some(i) =>
        var r := users[i := AddAdminRole(k, users[i])];
        assert r[i].email == users[i].email;
        r
  }

  /** With the Email set, admin seeding is idempotent: the second run finds
      the user the first run left in the admin role, and changes nothing. */
  lemma AdminSeedIdempotent(k: Constants, tenant: Option<TenantInfo>, users: seq<User>,
                            oracles: AdminOracles, again: AdminOracles)
    ensures var once := InitializeAdminUserWith(WithEmail, k, tenant, users, oracles);
      InitializeAdminUserWith(WithEmail, k, tenant, once, again) == once
  {
    var once := InitializeAdminUserWith(WithEmail, k, tenant, users, oracles);
    if SeedEmail(tenant).Some? {
      var key := ByEmail(SeedEmail(tenant).value);
      match FindUser(users, key)
      case None =>
        assert FindUser(once, key) == Some(|users|) by {
          assert forall j :: 0 <= j < |users| ==> once[j] == users[j];
          assert Matches(once[|users|], key);
        }
      case Some(i) =>
        assert once == users[i := AddAdminRole(k, users[i])];
        FindUserAfterUpdate(users, i, AddAdminRole(k, users[i]), key);
    }
  }

  /** As written the created user has no Email, so the lookup by Email never
      finds it: every run for a tenant whose email no user carries creates one
      more admin user. */
  lemma AdminSeedCreatesAgain(k: Constants, tenant: Option<TenantInfo>, users: seq<User>,
                              oracles: AdminOracles, again: AdminOracles)
    requires SeedEmail(tenant).Some?
    requires FindUser(users, ByEmail(SeedEmail(tenant).value)).None?
    ensures var once := InitializeAdminUserWith(AsWritten, k, tenant, users, oracles);
      && FindUser(once, ByEmail(SeedEmail(tenant).value)).None?
      && |InitializeAdminUserWith(AsWritten, k, tenant, once, again)| == |users| + 2
  {
    var once := InitializeAdminUserWith(AsWritten, k, tenant, users, oracles);
    var key := ByEmail(SeedEmail(tenant).value);
    assert forall j :: 0 <= j < |users| ==> once[j] == users[j];
    assert !Matches(once[|users|], key);
  }

  /** As written the created admin has no normalized email, so no lookup by
      email, such as the one a token refresh makes, finds it: admin seeding
      leaves every such lookup's answer as it was. */
  lemma AsWrittenAdminInvisibleByEmail(k: Constants, tenant: Option<TenantInfo>, users: seq<User>,
                                       oracles: AdminOracles, e: string)
    ensures FindByEmail(InitializeAdminUserWith(AsWritten, k, tenant, users, oracles), e) == FindByEmail(users, e)
  {
    var key := ByNormalizedEmail(ToUpper(e));
    if SeedEmail(tenant).Some? {
      match FindUser(users, ByEmail(SeedEmail(tenant).value))
      case None =>
        var r := InitializeAdminUserWith(AsWritten, k, tenant, users, oracles);
        assert r == users + [r[|users|]];
        assert !Matches(r[|users|], key);
        FindUserAfterAppend(users, r[|users|], key);
      case Some(i) =>
        FindUserAfterUpdate(users, i, AddAdminRole(k, users[i]), key);
    }
  }

  // ----- The seeding entry point -----

  /** What the database reports before seeding: whether any migration is
      defined, and whether it can be reached. */
  datatype DbStatus = DbStatus(hasMigrations: bool, canConnect: bool)

  /** The id of the current tenant, null without one. */
  function TenantIdOf(tenant: Option<TenantInfo>): Option<string> {
    if tenant.Some? then Some(tenant.value.id) else None
  }

  /** `InitializeDatabaseAsync`: roles, then the admin user, only when
      migrations exist and the database is reachable. */
  function SeedApplicationDb(mode: AdminUserMode, k: Constants, status: DbStatus, tenant: Option<TenantInfo>,
                             store: IdentityStore, oracles: AdminOracles): (r: IdentityStore)
    ensures !(status.hasMigrations && status.canConnect) ==> r == store
    ensures status.hasMigrations && status.canConnect ==>
      && r.roles.Keys == store.roles.Keys + set n | n in k.defaultRoles
      && Saturated(k, CatalogTiers(k.permissionClaim), TenantIdOf(tenant), r.roles, k.defaultRoles)
      && (forall n :: n in r.roles ==>
            AddedOnly(ClaimsBefore(store.roles, n), r.roles[n],
                      Granted(k, CatalogTiers(k.permissionClaim), TenantIdOf(tenant), n)))
      && |store.users| <= |r.users| <= |store.users| + 1
  {
    if status.hasMigrations && status.canConnect then
      IdentityStore(InitializeAdminUserWith(mode, k, tenant, store.users, oracles),
                    InitializeDefaultRoles(k, CatalogTiers(k.permissionClaim), TenantIdOf(tenant),
                                           store.roles, k.defaultRoles))
    else store
  }

  /** With the admin user's Email set, seeding a tenant twice is seeding it once. */
  lemma SeedApplicationDbIdempotent(k: Constants, status: DbStatus, tenant: Option<TenantInfo>,
                                    store: IdentityStore, oracles: AdminOracles, again: AdminOracles)
    ensures var once := SeedApplicationDb(WithEmail, k, status, tenant, store, oracles);
      SeedApplicationDb(WithEmail, k, status, tenant, once, again) == once
  {
    if status.hasMigrations && status.canConnect {
      InitializeDefaultRolesIdempotent(k, CatalogTiers(k.permissionClaim), TenantIdOf(tenant), store.roles, k.defaultRoles);
      AdminSeedIdempotent(k, tenant, store.users, oracles, again);
    }
  }

  /** Seeding a tenant other than root gives none of its roles a root claim,
      when none had one before. */
  lemma SeedNonRootTenantHasNoRootClaims(mode: AdminUserMode, k: Constants, status: DbStatus, tenant: TenantInfo,
                                         store: IdentityStore, oracles: AdminOracles)
    requires tenant.id != k.rootId
    requires forall n :: n in store.roles ==> !HasRootClaim(store.roles[n], CatalogTiers(k.permissionClaim))
    ensures var r := SeedApplicationDb(mode, k, status, Some(tenant), store, oracles);
      forall n :: n in r.roles ==> !HasRootClaim(r.roles[n], CatalogTiers(k.permissionClaim))
  {
    CatalogTiersWellFormed(k.permissionClaim);
    NonRootTenantGetsNoRootClaims(k, CatalogTiers(k.permissionClaim), Some(tenant.id), store.roles, k.defaultRoles);
  }

  /** Seeding the root tenant leaves its admin role holding every admin and root claim. */
  lemma SeedRootTenantAdminHoldsRootClaims(mode: AdminUserMode, k: Constants, status: DbStatus, tenant: TenantInfo,
                                           store: IdentityStore, oracles: AdminOracles)
    requires tenant.id == k.rootId
    requires status.hasMigrations && status.canConnect
    requires k.adminRole in k.defaultRoles
    ensures var r := SeedApplicationDb(mode, k, status, Some(tenant), store, oracles);
      && k.adminRole in r.roles
      && HoldsAll(r.roles[k.adminRole], CatalogTiers(k.permissionClaim).admin)
      && HoldsAll(r.roles[k.adminRole], CatalogTiers(k.permissionClaim).root)
  {
    var r := SeedApplicationDb(mode, k, status, Some(tenant), store, oracles);
    var tiers := CatalogTiers(k.permissionClaim);
    HoldsAllConcat(r.roles[k.adminRole], tiers.admin, tiers.root);
  }
}
