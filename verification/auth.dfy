/** The permission authorization engine: the dynamic policy provider that turns
    a permission name into a one-requirement policy, and the requirement
    handler that decides it by looking for an exactly matching claim. */
module Auth {
  import opened Wrappers
  import opened Text
  import opened Claims
  import Catalog

  /** A requirement carrying the permission name it asks for. */
  datatype Requirement = PermissionRequirement(permission: string)

  /** An authorization policy: the requirements that must all succeed. */
  datatype Policy = Policy(requirements: seq<Requirement>)

  /** What a handler can do to a requirement: mark it succeeded, fail it, or leave it pending. */
  datatype HandlerOutcome = Succeeded | Failed | Pending

  /** Some claim has exactly the permission claim type and the permission as its value. */
  predicate HoldsPermission(claims: seq<Claim>, permissionClaim: string, permission: string) {
    exists i :: 0 <= i < |claims| && claims[i].claimType == permissionClaim
      && claims[i].value == permission
  }

  /** The `Where(...).Any()` scan of the handler. */
  function AnyPermissionClaim(claims: seq<Claim>, permissionClaim: string, permission: string): (r: bool)
    ensures r <==> HoldsPermission(claims, permissionClaim, permission)
  {
    if |claims| == 0 then false
    else if claims[0].claimType == permissionClaim && claims[0].value == permission then true
    else
      var r := AnyPermissionClaim(claims[1..], permissionClaim, permission);
      if r then
        var i :| 0 <= i < |claims[1..]| && claims[1..][i].claimType == permissionClaim
          && claims[1..][i].value == permission;
        assert claims[i + 1] == claims[1..][i];
        true
      else
        assert forall i :: 1 <= i < |claims| ==> claims[i] == claims[1..][i - 1];
        false
  }

  /** `HandleRequirementAsync`: succeeds exactly when a matching claim exists and
      otherwise leaves the requirement pending; it never fails it. */
  function HandleRequirement(claims: seq<Claim>, permissionClaim: string, requirement: Requirement): (r: HandlerOutcome)
    ensures r != Failed
    ensures r == Succeeded <==> HoldsPermission(claims, permissionClaim, requirement.permission)
  {
    if AnyPermissionClaim(claims, permissionClaim, requirement.permission) then Succeeded else Pending
  }

  /** A policy is met when the handler succeeds every one of its requirements. */
  predicate PolicySatisfied(policy: Policy, claims: seq<Claim>, permissionClaim: string) {
    forall i :: 0 <= i < |policy.requirements| ==>
      HandleRequirement(claims, permissionClaim, policy.requirements[i]) == Succeeded
  }

  /** The policy provider with the framework's default provider as its fallback:
      `fallbackPolicies` is the fallback's policy lookup and `fallbackDefault` its default policy. */
  datatype PolicyProvider = PolicyProvider(
    permissionClaim: string,
    fallbackPolicies: string -> Option<Policy>,
    fallbackDefault: Policy)

  /** `GetPolicyAsync`: a name that starts with the permission claim constant,
      ignoring case, gets a fresh policy with that one requirement; any other
      name goes to the fallback unchanged. */
  function GetPolicy(provider: PolicyProvider, policyName: string): (r: Option<Policy>)
    ensures StartsWithIgnoreCase(policyName, provider.permissionClaim) ==>
      r.Some? && r.value.requirements == [PermissionRequirement(policyName)]
    ensures !StartsWithIgnoreCase(policyName, provider.permissionClaim) ==>
      r == provider.fallbackPolicies(policyName)
  {
    if StartsWithIgnoreCase(policyName, provider.permissionClaim) then
      Some(Policy([PermissionRequirement(policyName)]))
    else
      provider.fallbackPolicies(policyName)
  }

  /** `GetFallbackPolicyAsync`: there is never a fallback policy. */
  function GetFallbackPolicy(provider: PolicyProvider): (r: Option<Policy>)
    ensures r.None?
  {
    None
  }

  /** `GetDefaultPolicyAsync`: the fallback provider's default policy. */
  function GetDefaultPolicy(provider: PolicyProvider): (r: Policy)
    ensures r == provider.fallbackDefault
  {
    provider.fallbackDefault
  }

  /** A routed permission policy is met exactly when the claims hold that exact permission. */
  lemma RoutedPolicyNeedsExactClaim(provider: PolicyProvider, policyName: string, claims: seq<Claim>)
    requires StartsWithIgnoreCase(policyName, provider.permissionClaim)
    ensures GetPolicy(provider, policyName).Some?
    ensures PolicySatisfied(GetPolicy(provider, policyName).value, claims, provider.permissionClaim)
      <==> HoldsPermission(claims, provider.permissionClaim, policyName)
  {
    var policy := GetPolicy(provider, policyName).value;
    assert policy.requirements[0] == PermissionRequirement(policyName);
  }

  /** Adding claims never takes a success away. */
  lemma HandlerMonotone(claims: seq<Claim>, more: seq<Claim>, permissionClaim: string, requirement: Requirement)
    requires forall c :: c in claims ==> c in more
    requires HandleRequirement(claims, permissionClaim, requirement) == Succeeded
    ensures HandleRequirement(more, permissionClaim, requirement) == Succeeded
  {
    var i :| 0 <= i < |claims| && claims[i].claimType == permissionClaim
      && claims[i].value == requirement.permission;
    assert claims[i] in more;
  }

  /** The outcome depends only on which claims are present, not on their order or repetition. */
  lemma HandlerIgnoresOrder(claims: seq<Claim>, other: seq<Claim>, permissionClaim: string, requirement: Requirement)
    requires forall c :: c in claims <==> c in other
    ensures HandleRequirement(claims, permissionClaim, requirement)
      == HandleRequirement(other, permissionClaim, requirement)
  {
    if HandleRequirement(claims, permissionClaim, requirement) == Succeeded {
      HandlerMonotone(claims, other, permissionClaim, requirement);
    } else if HandleRequirement(other, permissionClaim, requirement) == Succeeded {
      HandlerMonotone(other, claims, permissionClaim, requirement);
    }
  }

  /** A claim with the right value but another type does not count. */
  lemma WrongTypeDoesNotCount(permissionClaim: string, otherType: string, permission: string)
    requires otherType != permissionClaim
    ensures HandleRequirement([Claim(otherType, permission)], permissionClaim,
      PermissionRequirement(permission)) == Pending
  {
  }

  /** Matching is exact: holding Create Schools does not grant Read Schools. */
  lemma CreateDoesNotGrantRead(permissionClaim: string)
    ensures HandleRequirement([Claim(permissionClaim, "Permission.Schools.Create")], permissionClaim,
      PermissionRequirement("Permission.Schools.Read")) == Pending
  {
    assert "Permission.Schools.Create" != "Permission.Schools.Read";
  }

  /** The routing test ignores case but the handler does not: a lower-case policy
      name is routed to a permission policy that the claim carrying the catalog
      spelling cannot satisfy. */
  lemma LowerCaseNameRoutedButUnsatisfiable(provider: PolicyProvider)
    requires StartsWithIgnoreCase("permission.schools.read", provider.permissionClaim)
    ensures GetPolicy(provider, "permission.schools.read").Some?
    ensures !PolicySatisfied(GetPolicy(provider, "permission.schools.read").value,
      [Claim(provider.permissionClaim, "Permission.Schools.Read")], provider.permissionClaim)
  {
    var claims := [Claim(provider.permissionClaim, "Permission.Schools.Read")];
    assert "Permission.Schools.Read"[0] != "permission.schools.read"[0];
    RoutedPolicyNeedsExactClaim(provider, "permission.schools.read", claims);
  }

  /** When the claim constant is a case-insensitive prefix of `Permission.`, every
      catalog name is routed to a permission policy. */
  lemma CatalogNamesRouted(provider: PolicyProvider)
    requires StartsWithIgnoreCase(Catalog.NamePrefix, provider.permissionClaim)
    ensures forall p :: p in Catalog.All ==>
      GetPolicy(provider, p.Name()) == Some(Policy([PermissionRequirement(p.Name())]))
  {
    forall p | p in Catalog.All
      ensures GetPolicy(provider, p.Name()) == Some(Policy([PermissionRequirement(p.Name())]))
    {
      StartsWithIgnoresCase(p.Name(), Catalog.NamePrefix);
      StartsWithIgnoreCaseTransitive(p.Name(), Catalog.NamePrefix, provider.permissionClaim);
    }
  }
}
