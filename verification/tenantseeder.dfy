/** Seeding of the tenant store: the root tenant row, then each tenant's own
    identity store, seeded with that tenant as the current tenant. */
module TenantSeeder {
  import opened Wrappers
  import opened Identity
  import opened AppSeeder

  /** Some row has the given id (`FindAsync` by primary key). */
  predicate HasTenant(tenants: seq<TenantInfo>, id: string) {
    exists i :: 0 <= i < |tenants| && tenants[i].id == id
  }

  predicate UniqueIds(tenants: seq<TenantInfo>) {
    forall i, j :: 0 <= i < j < |tenants| ==> tenants[i].id != tenants[j].id
  }

  /** The root tenant row; `validUpTo` is two calendar years after the seeding instant. */
  function RootTenant(k: Constants, validUpTo: int): (t: TenantInfo)
    ensures t.id == k.rootId && t.identifier == k.rootId
    ensures t.name == Some(k.rootName) && t.email == Some(k.rootEmail)
    ensures t.firstName == Some(k.adminFirstName) && t.lastName == Some(k.adminLastName)
    ensures t.connectionString.None?
    ensures t.isActive && t.validUpTo == validUpTo
  {
    TenantInfo(k.rootId, k.rootId, Some(k.rootName), None, Some(k.rootEmail),
               Some(k.adminFirstName), Some(k.adminLastName), validUpTo, true)
  }

  /** `InitializeDatabaseWithTenantAsync`: inserts the root row when no row has
      the root id, and leaves an existing root row as it is. `addYears` is the
      calendar's year addition. */
  function EnsureRootTenant(k: Constants, tenants: seq<TenantInfo>, now: int, addYears: (int, int) -> int): (r: seq<TenantInfo>)
    ensures HasTenant(tenants, k.rootId) ==> r == tenants
    ensures !HasTenant(tenants, k.rootId) ==>
      |r| == |tenants| + 1 && r[..|tenants|] == tenants && r[|tenants|] == RootTenant(k, addYears(now, 2))
    ensures HasTenant(r, k.rootId)
    ensures UniqueIds(tenants) ==> UniqueIds(r)
  {
    if HasTenant(tenants, k.rootId) then tenants
    else
      var r := tenants + [RootTenant(k, addYears(now, 2))];
      assert r[|tenants|].id == k.rootId;
      assert forall j :: 0 <= j < |tenants| ==> r[j] == tenants[j];
      r
  }

  /** A second root step, at any later instant, changes nothing. */
  lemma EnsureRootTenantIdempotent(k: Constants, tenants: seq<TenantInfo>, now: int, later: int,
                                   addYears: (int, int) -> int)
    ensures EnsureRootTenant(k, EnsureRootTenant(k, tenants, now, addYears), later, addYears)
      == EnsureRootTenant(k, tenants, now, addYears)
  {
  }

  /** Tenant id to that tenant's identity store. */
  type Stores = map<string, IdentityStore>

  /** A tenant's store; a tenant without an entry has an empty one. */
  function StoreOf(stores: Stores, id: string): IdentityStore {
    if id in stores then stores[id] else IdentityStore([], map[])
  }

  /** What each tenant's database reports, and what the identity library
      hands out while seeding it. */
  datatype SeedEnvironment = SeedEnvironment(status: string -> DbStatus, oracles: string -> AdminOracles)

  /** The store a tenant ends with: its own store seeded with it as the current tenant. */
  function SeededStore(mode: AdminUserMode, k: Constants, env: SeedEnvironment, stores: Stores, t: TenantInfo): IdentityStore {
    SeedApplicationDb(mode, k, env.status(t.id), Some(t), StoreOf(stores, t.id), env.oracles(t.id))
  }

  /** The per-tenant loop of `InitializeDatabaseAsync` for a given seeding
      step: every row's store is replaced by the step applied to it, once, in
      row order; stores of other tenants are untouched. `seeded` lists the
      tenants in the order they were seeded. */
  method SeedEach(rows: seq<TenantInfo>, stores: Stores, step: (TenantInfo, IdentityStore) -> IdentityStore)
    returns (seededStores: Stores, seeded: seq<TenantInfo>)
    requires UniqueIds(rows)
    ensures seeded == rows
    ensures forall t :: t in rows ==> t.id in seededStores && seededStores[t.id] == step(t, StoreOf(stores, t.id))
    ensures forall id :: !HasTenant(rows, id) ==>
      (id in seededStores <==> id in stores) && (id in stores ==> seededStores[id] == stores[id])
  {
    seededStores := stores;
    seeded := [];
    var i := 0;
    while i < |rows|
      invariant 0 <= i <= |rows|
      invariant seeded == rows[..i]
      invariant forall j :: 0 <= j < i ==>
        rows[j].id in seededStores && seededStores[rows[j].id] == step(rows[j], StoreOf(stores, rows[j].id))
      invariant forall id :: (forall j :: 0 <= j < i ==> rows[j].id != id) ==>
        (id in seededStores <==> id in stores) && (id in stores ==> seededStores[id] == stores[id])
    {
      var t := rows[i];
      assert forall j :: 0 <= j < i ==> rows[j].id != t.id;
      assert StoreOf(seededStores, t.id) == StoreOf(stores, t.id);
      seededStores := seededStores[t.id := step(t, StoreOf(seededStores, t.id))];
      seeded := seeded + [t];
      i := i + 1;
    }
    forall t | t in rows
      ensures t.id in seededStores && seededStores[t.id] == step(t, StoreOf(stores, t.id))
    {
      var j :| 0 <= j < |rows| && rows[j] == t;
    }
  }

  /** `InitializeDatabaseAsync`: the root step, then each tenant row in turn,
      each seeded with itself as the current tenant. */
  method InitializeDatabase(mode: AdminUserMode, k: Constants, tenants: seq<TenantInfo>, stores: Stores,
                            now: int, addYears: (int, int) -> int, env: SeedEnvironment)
    returns (rows: seq<TenantInfo>, seededStores: Stores, seeded: seq<TenantInfo>)
    requires UniqueIds(tenants)
    ensures rows == EnsureRootTenant(k, tenants, now, addYears)
    ensures seeded == rows
    ensures forall t :: t in rows ==> t.id in seededStores && seededStores[t.id] == SeededStore(mode, k, env, stores, t)
    ensures forall id :: !HasTenant(rows, id) ==>
      (id in seededStores <==> id in stores) && (id in stores ==> seededStores[id] == stores[id])
  {
    rows := EnsureRootTenant(k, tenants, now, addYears);
    var step := (t: TenantInfo, s: IdentityStore) =>
      SeedApplicationDb(mode, k, env.status(t.id), Some(t), s, env.oracles(t.id));
    seededStores, seeded := SeedEach(rows, stores, step);
  }

  /** After the whole run, every tenant other than root whose store held no
      root claim still holds none, and the root tenant's admin role, when it
      is a default role and root's database is ready, holds every root claim. */
  lemma RootClaimsOnlyForRoot(mode: AdminUserMode, k: Constants, env: SeedEnvironment, stores: Stores,
                              t: TenantInfo)
    requires forall n :: n in StoreOf(stores, t.id).roles ==>
      !HasRootClaim(StoreOf(stores, t.id).roles[n], CatalogTiers(k.permissionClaim))
    ensures t.id != k.rootId ==>
      var r := SeededStore(mode, k, env, stores, t);
      forall n :: n in r.roles ==> !HasRootClaim(r.roles[n], CatalogTiers(k.permissionClaim))
    ensures (t.id == k.rootId && env.status(t.id).hasMigrations && env.status(t.id).canConnect
             && k.adminRole in k.defaultRoles) ==>
      var r := SeededStore(mode, k, env, stores, t);
      k.adminRole in r.roles && HoldsAll(r.roles[k.adminRole], CatalogTiers(k.permissionClaim).root)
  {
    if t.id != k.rootId {
      SeedNonRootTenantHasNoRootClaims(mode, k, env.status(t.id), t, StoreOf(stores, t.id), env.oracles(t.id));
    } else if env.status(t.id).hasMigrations && env.status(t.id).canConnect && k.adminRole in k.defaultRoles {
      SeedRootTenantAdminHoldsRootClaims(mode, k, env.status(t.id), t, StoreOf(stores, t.id), env.oracles(t.id));
    }
  }
}
