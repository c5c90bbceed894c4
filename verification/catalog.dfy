/** The static permission catalog: the actions, the features, the permission
    record with its derived name, the twenty catalog entries and their three
    tier views. */
module Catalog {
  import opened Wrappers
  import opened Text

  /** The action constants; each one's value is its own identifier (`nameof`). */
  datatype Action = Read | Create | Update | Delete | UpgradeSubscription

  function ActionName(a: Action): string {
    match a
    case Read => "Read"
    case Create => "Create"
    case Update => "Update"
    case Delete => "Delete"
    case UpgradeSubscription => "UpgradeSubscription"
  }

  /** The feature constants; each one's value is its own identifier (`nameof`). */
  datatype Feature = Tenants | Users | Roles | UserRoles | RoleClaims | Schools

  function FeatureName(f: Feature): string {
    match f
    case Tenants => "Tenants"
    case Users => "Users"
    case Roles => "Roles"
    case UserRoles => "UserRoles"
    case RoleClaims => "RoleClaims"
    case Schools => "Schools"
  }

  const NamePrefix: string := "Permission."

  /** The permission name built from an action and a feature. */
  function NameFor(action: string, feature: string): (r: string)
    ensures StartsWith(r, NamePrefix)
    ensures |r| == |NamePrefix| + |feature| + 1 + |action|
  {
    NamePrefix + feature + "." + action
  }

  /** One catalog entry. `IsBasic` and `IsRoot` default to false in the source. */
  datatype Permission = Permission(
    action: Action, feature: Feature, description: string, group: string,
    isBasic: bool, isRoot: bool)
  {
    function Name(): string {
      NameFor(ActionName(action), FeatureName(feature))
    }
  }

  const Academics: string := "Academics"
  const SystemAccess: string := "SystemAccess"
  const Tenancy: string := "Tenancy"

  /** The catalog in declaration order, by feature group. */
  const TenantEntries: seq<Permission> := [
    Permission(Read, Tenants, "Read Tenants", Tenancy, false, true),
    Permission(Create, Tenants, "Create Tenants", Tenancy, false, true),
    Permission(Update, Tenants, "Update Tenants", Tenancy, false, true),
    Permission(UpgradeSubscription, Tenants, "Upgrade Tenant's Subscription", Tenancy, false, true)
  ]

  const UserEntries: seq<Permission> := [
    Permission(Read, Users, "Read Users", SystemAccess, false, false),
    Permission(Create, Users, "Create Users", SystemAccess, false, false),
    Permission(Update, Users, "Update Users", SystemAccess, false, false),
    Permission(Delete, Users, "Delete Users", SystemAccess, false, false)
  ]

  const UserRoleEntries: seq<Permission> := [
    Permission(Read, UserRoles, "Create User Roles", SystemAccess, false, false),
    Permission(Update, UserRoles, "Create User Roles", SystemAccess, false, false)
  ]

  const RoleEntries: seq<Permission> := [
    Permission(Read, Roles, "Read Roles", SystemAccess, false, false),
    Permission(Create, Roles, "Create Roles", SystemAccess, false, false),
    Permission(Update, Roles, "Update Roles", SystemAccess, false, false),
    Permission(Delete, Roles, "Delete Roles", SystemAccess, false, false)
  ]

  const RoleClaimEntries: seq<Permission> := [
    Permission(Read, RoleClaims, "Read Role Claims/Permissions", SystemAccess, false, false),
    Permission(Update, RoleClaims, "Update Role Claims/Permissions", SystemAccess, false, false)
  ]

  const SchoolEntries: seq<Permission> := [
    Permission(Read, Schools, "Read Schools", Academics, false, false),
    Permission(Create, Schools, "Create Schools", Academics, true, false),
    Permission(Update, Schools, "Update Schools", Academics, false, false),
    Permission(Delete, Schools, "Delete Schools", Academics, false, false)
  ]

  /** The non-tenant groups, which make up the admin tier. */
  const SystemEntries: seq<Permission> :=
    UserEntries + UserRoleEntries + RoleEntries + RoleClaimEntries + SchoolEntries

  const All: seq<Permission> := TenantEntries + SystemEntries

  /** The three filters the catalog's views are built with. */
  datatype Tier = RootTier | AdminTier | BasicTier

  predicate InTier(p: Permission, tier: Tier) {
    match tier
    case RootTier => p.isRoot
    case AdminTier => !p.isRoot
    case BasicTier => p.isBasic
  }

  /** `Where`: the entries of the tier, in their original order. */
  function Where(s: seq<Permission>, tier: Tier): (r: seq<Permission>)
    ensures |r| <= |s|
  {
    if |s| == 0 then []
    else (if InTier(s[0], tier) then [s[0]] else []) + Where(s[1..], tier)
  }

  function Root(): seq<Permission> { Where(All, RootTier) }
  function Admin(): seq<Permission> { Where(All, AdminTier) }
  function Basic(): seq<Permission> { Where(All, BasicTier) }

  /** `Where` distributes over concatenation. */
  lemma {:induction false} WhereConcat(a: seq<Permission>, b: seq<Permission>, tier: Tier)
    ensures Where(a + b, tier) == Where(a, tier) + Where(b, tier)
  {
    if |a| == 0 {
      assert a + b == b;
    } else {
      assert (a + b)[0] == a[0];
      assert (a + b)[1..] == a[1..] + b;
      WhereConcat(a[1..], b, tier);
      calc {
        Where(a + b, tier);
        (if InTier(a[0], tier) then [a[0]] else []) + Where(a[1..] + b, tier);
        (if InTier(a[0], tier) then [a[0]] else []) + (Where(a[1..], tier) + Where(b, tier));
      }
    }
  }

  /** `Where` keeps a sequence whose entries all pass. */
  lemma {:induction false} WhereKeepsAll(s: seq<Permission>, tier: Tier)
    requires forall i :: 0 <= i < |s| ==> InTier(s[i], tier)
    ensures Where(s, tier) == s
  {
    if |s| > 0 {
      WhereKeepsAll(s[1..], tier);
    }
  }

  /** `Where` drops a sequence whose entries all fail. */
  lemma {:induction false} WhereDropsAll(s: seq<Permission>, tier: Tier)
    requires forall i :: 0 <= i < |s| ==> !InTier(s[i], tier)
    ensures Where(s, tier) == []
  {
    if |s| > 0 {
      WhereDropsAll(s[1..], tier);
    }
  }

  /** The root tier is the tenant group. */
  lemma RootIsTenantGroup()
    ensures Root() == TenantEntries
  {
    WhereConcat(TenantEntries, SystemEntries, RootTier);
    WhereKeepsAll(TenantEntries, RootTier);
    SystemEntriesNotRoot();
    WhereDropsAll(SystemEntries, RootTier);
  }

  lemma SystemEntriesNotRoot()
    ensures forall i :: 0 <= i < |SystemEntries| ==> !SystemEntries[i].isRoot
  {
    var s := SystemEntries;
    assert s == UserEntries + UserRoleEntries + RoleEntries + RoleClaimEntries + SchoolEntries;
    forall i | 0 <= i < |s| ensures !s[i].isRoot {
      if i < 4 { assert s[i] == UserEntries[i]; }
      else if i < 6 { assert s[i] == UserRoleEntries[i - 4]; }
      else if i < 10 { assert s[i] == RoleEntries[i - 6]; }
      else if i < 12 { assert s[i] == RoleClaimEntries[i - 10]; }
      else { assert s[i] == SchoolEntries[i - 12]; }
    }
  }

  /** The admin tier is every group but the tenant group. */
  lemma AdminIsSystemGroups()
    ensures Admin() == SystemEntries
  {
    WhereConcat(TenantEntries, SystemEntries, AdminTier);
    WhereDropsAll(TenantEntries, AdminTier);
    SystemEntriesNotRoot();
    WhereKeepsAll(SystemEntries, AdminTier);
  }

  /** The basic tier is the single entry Create Schools. */
  lemma BasicIsCreateSchools()
    ensures Basic() == [SchoolEntries[1]]
  {
    assert All == TenantEntries + UserEntries + UserRoleEntries + RoleEntries
      + RoleClaimEntries + SchoolEntries;
    WhereConcat(TenantEntries, SystemEntries, BasicTier);
    WhereConcat(UserEntries + UserRoleEntries + RoleEntries + RoleClaimEntries, SchoolEntries, BasicTier);
    WhereConcat(UserEntries + UserRoleEntries + RoleEntries, RoleClaimEntries, BasicTier);
    WhereConcat(UserEntries + UserRoleEntries, RoleEntries, BasicTier);
    WhereConcat(UserEntries, UserRoleEntries, BasicTier);
    WhereDropsAll(TenantEntries, BasicTier);
    WhereDropsAll(UserEntries, BasicTier);
    WhereDropsAll(UserRoleEntries, BasicTier);
    WhereDropsAll(RoleEntries, BasicTier);
    WhereDropsAll(RoleClaimEntries, BasicTier);
    var s := SchoolEntries;
    assert s == [s[0]] + [s[1]] + s[2..];
    WhereConcat([s[0]] + [s[1]], s[2..], BasicTier);
    WhereConcat([s[0]], [s[1]], BasicTier);
    WhereDropsAll([s[0]], BasicTier);
    WhereKeepsAll([s[1]], BasicTier);
    WhereDropsAll(s[2..], BasicTier);
  }

  /** The catalog's sizes and the shape of its tiers: 20 entries, 4 of them
      root (all about tenants), 16 admin, and one basic entry that is not root
      and is therefore also in the admin tier. */
  lemma TierSizes()
    ensures |All| == 20 && |Root()| == 4 && |Admin()| == 16 && |Basic()| == 1
    ensures forall p :: p in Root() ==> p.feature == Tenants
    ensures Basic()[0].action == Create && Basic()[0].feature == Schools
    ensures !Basic()[0].isRoot
    ensures forall p :: p in Basic() ==> p in Admin()
  {
    RootIsTenantGroup();
    AdminIsSystemGroups();
    BasicIsCreateSchools();
  }

  /** Every entry lands in exactly one of Root and Admin, and the two views
      laid end to end give back the catalog in order. */
  lemma RootAdminPartition()
    ensures Root() + Admin() == All
    ensures forall p :: p in All ==> (p in Root() <==> p !in Admin())
  {
    RootIsTenantGroup();
    AdminIsSystemGroups();
    forall p | p in All ensures p in Root() <==> p !in Admin() {
      WhereMembership(All, RootTier, p);
      WhereMembership(All, AdminTier, p);
    }
  }

  /** An entry is in a tier's view exactly when it is in the source list and in the tier. */
  lemma {:induction false} WhereMembership(s: seq<Permission>, tier: Tier, p: Permission)
    ensures p in Where(s, tier) <==> p in s && InTier(p, tier)
  {
    if |s| > 0 {
      WhereMembership(s[1..], tier, p);
      assert s == [s[0]] + s[1..];
    }
  }

  /** For any list, the root and admin filters split it without loss or overlap. */
  lemma {:induction false} WherePartition(s: seq<Permission>)
    ensures multiset(Where(s, RootTier)) + multiset(Where(s, AdminTier)) == multiset(s)
  {
    if |s| > 0 {
      WherePartition(s[1..]);
      assert s == [s[0]] + s[1..];
      assert multiset(s) == multiset{s[0]} + multiset(s[1..]);
      if s[0].isRoot {
        assert Where(s, RootTier) == [s[0]] + Where(s[1..], RootTier);
        assert Where(s, AdminTier) == Where(s[1..], AdminTier);
      } else {
        assert Where(s, RootTier) == Where(s[1..], RootTier);
        assert Where(s, AdminTier) == [s[0]] + Where(s[1..], AdminTier);
      }
    }
  }

  function Rank(p: Permission): int {
    6 * (match p.feature
         case Tenants => 0 case Users => 1 case UserRoles => 2
         case Roles => 3 case RoleClaims => 4 case Schools => 5)
    + (match p.action
       case Read => 0 case Create => 1 case Update => 2
       case Delete => 3 case UpgradeSubscription => 4)
  }

  /** A list whose neighbours strictly increase in rank. */
  predicate LocallyAscending(s: seq<Permission>) {
    forall i :: 0 <= i < |s| - 1 ==> Rank(s[i]) < Rank(s[i + 1])
  }

  lemma {:induction false} AscendingEverywhere(s: seq<Permission>, i: int, j: int)
    requires LocallyAscending(s)
    requires 0 <= i < j < |s|
    ensures Rank(s[i]) < Rank(s[j])
    decreases j - i
  {
    if i + 1 < j {
      AscendingEverywhere(s, i + 1, j);
    }
  }

  lemma CatalogAscending()
    ensures LocallyAscending(All)
  {
    var s := All;
    assert s == TenantEntries + UserEntries + UserRoleEntries + RoleEntries
      + RoleClaimEntries + SchoolEntries;
    forall i | 0 <= i < |s| - 1 ensures Rank(s[i]) < Rank(s[i + 1]) {
      if i < 4 { assert s[i] == TenantEntries[i]; }
      else if i < 8 { assert s[i] == UserEntries[i - 4]; }
      else if i < 10 { assert s[i] == UserRoleEntries[i - 8]; }
      else if i < 14 { assert s[i] == RoleEntries[i - 10]; }
      else if i < 16 { assert s[i] == RoleClaimEntries[i - 14]; }
      else { assert s[i] == SchoolEntries[i - 16]; }
    }
  }

  /** The 20 entries have pairwise-distinct (action, feature) pairs and
      therefore pairwise-distinct names. */
  lemma CatalogDistinct()
    ensures forall i, j :: 0 <= i < j < |All| ==>
      (All[i].action, All[i].feature) != (All[j].action, All[j].feature)
    ensures forall i, j :: 0 <= i < j < |All| ==> All[i].Name() != All[j].Name()
  {
    CatalogAscending();
    forall i, j | 0 <= i < j < |All|
      ensures (All[i].action, All[i].feature) != (All[j].action, All[j].feature)
      ensures All[i].Name() != All[j].Name()
    {
      AscendingEverywhere(All, i, j);
      if All[i].Name() == All[j].Name() {
        ConstantsAreDotFree();
        NameForInjective(ActionName(All[i].action), FeatureName(All[i].feature),
                         ActionName(All[j].action), FeatureName(All[j].feature));
        ActionNameInjective(All[i].action, All[j].action);
        FeatureNameInjective(All[i].feature, All[j].feature);
      }
    }
  }

  /** A run of consecutive catalog positions inherits the catalog's distinct names. */
  lemma SliceNamesDistinct(s: seq<Permission>, off: nat)
    requires off + |s| <= |All|
    requires forall i :: 0 <= i < |s| ==> s[i] == All[off + i]
    ensures forall i, j :: 0 <= i < j < |s| ==> s[i].Name() != s[j].Name()
  {
    CatalogDistinct();
    forall i, j | 0 <= i < j < |s| ensures s[i].Name() != s[j].Name() {
      assert s[i] == All[off + i] && s[j] == All[off + j];
    }
  }

  /** When the catalog is split in two, no name of the first part is a name of the second. */
  lemma SplitNamesApart(a: seq<Permission>, b: seq<Permission>)
    requires a + b == All
    ensures forall p, q :: p in a && q in b ==> p.Name() != q.Name()
  {
    CatalogDistinct();
    forall p, q | p in a && q in b ensures p.Name() != q.Name() {
      var i :| 0 <= i < |a| && a[i] == p;
      var j :| 0 <= j < |b| && b[j] == q;
      assert All[i] == p && All[|a| + j] == q;
    }
  }

  /** Within each tier no two entries share a name, and no root name is also
      an admin or a basic name. */
  lemma TierNamesDistinct()
    ensures forall i, j :: 0 <= i < j < |Root()| ==> Root()[i].Name() != Root()[j].Name()
    ensures forall i, j :: 0 <= i < j < |Admin()| ==> Admin()[i].Name() != Admin()[j].Name()
    ensures forall i, j :: 0 <= i < j < |Basic()| ==> Basic()[i].Name() != Basic()[j].Name()
    ensures forall p, q :: p in Root() && q in Admin() ==> p.Name() != q.Name()
    ensures forall p, q :: p in Root() && q in Basic() ==> p.Name() != q.Name()
  {
    var root, admin := Root(), Admin();
    RootIsTenantGroup();
    AdminIsSystemGroups();
    BasicIsCreateSchools();
    assert root + admin == All;
    SliceNamesDistinct(root, 0);
    SliceNamesDistinct(admin, |root|);
    SplitNamesApart(root, admin);
    assert SchoolEntries[1] in SchoolEntries;
    assert SystemEntries == UserEntries + UserRoleEntries + RoleEntries + RoleClaimEntries + SchoolEntries;
    assert Basic()[0] in admin;
  }

  lemma ActionNameInjective(a: Action, b: Action)
    requires ActionName(a) == ActionName(b)
    ensures a == b
  {
  }

  lemma FeatureNameInjective(f: Feature, g: Feature)
    requires FeatureName(f) == FeatureName(g)
    ensures f == g
  {
  }

  /** Every action and feature constant is a dot-free identifier. */
  lemma ConstantsAreDotFree()
    ensures forall a :: Lacks(ActionName(a), '.')
    ensures forall f :: Lacks(FeatureName(f), '.')
  {
  }

  /** Splits a permission name back into its feature and action: the inverse of `NameFor`. */
  function ParseName(name: string): (r: Option<(string, string)>)
    ensures r.Some? ==> StartsWith(name, NamePrefix) && Lacks(r.value.0, '.')
  {
    if !StartsWith(name, NamePrefix) then None
    else
      var rest := name[|NamePrefix|..];
      match IndexOf(rest, '.')
      case None => None
      case Some(k) => Some((rest[..k], rest[k + 1..]))
  }

  /** Parsing a built name gives back its feature and action when the feature is dot-free. */
  lemma NameRoundTrip(action: string, feature: string)
    requires Lacks(feature, '.')
    ensures ParseName(NameFor(action, feature)) == Some((feature, action))
  {
    var name := NameFor(action, feature);
    var rest := name[|NamePrefix|..];
    assert rest == feature + "." + action;
    var k := IndexOf(rest, '.');
    assert rest[|feature|] == '.';
    assert k == Some(|feature|);
    assert rest[..|feature|] == feature;
    assert rest[|feature| + 1..] == action;
  }

  /** `NameFor` is injective on dot-free features. */
  lemma NameForInjective(a1: string, f1: string, a2: string, f2: string)
    requires Lacks(f1, '.') && Lacks(f2, '.')
    requires NameFor(a1, f1) == NameFor(a2, f2)
    ensures a1 == a2 && f1 == f2
  {
    NameRoundTrip(a1, f1);
    NameRoundTrip(a2, f2);
  }

  /** Every catalog name carries the `Permission.` prefix and parses back to its own entry. */
  lemma CatalogNamesParse()
    ensures forall p :: p in All ==> StartsWith(p.Name(), NamePrefix)
    ensures forall p :: p in All ==>
      ParseName(p.Name()) == Some((FeatureName(p.feature), ActionName(p.action)))
  {
    forall p | p in All
      ensures ParseName(p.Name()) == Some((FeatureName(p.feature), ActionName(p.action)))
    {
      ConstantsAreDotFree();
      NameRoundTrip(ActionName(p.action), FeatureName(p.feature));
    }
  }
}
