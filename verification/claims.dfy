/** Claims and the first-match lookups over a principal's claims. */
module Claims {
  import opened Wrappers
  import opened Text

  /** A typed key/value fact about a user or a role. */
  datatype Claim = Claim(claimType: string, value: string)

  /** The framework's well-known claim types (`System.Security.Claims.ClaimTypes`). */
  const NameIdentifierType: string := "http://schemas.xmlsoap.org/ws/2005/05/identity/claims/nameidentifier"
  const EmailType: string := "http://schemas.xmlsoap.org/ws/2005/05/identity/claims/emailaddress"
  const NameType: string := "http://schemas.xmlsoap.org/ws/2005/05/identity/claims/name"
  const SurnameType: string := "http://schemas.xmlsoap.org/ws/2005/05/identity/claims/surname"
  const MobilePhoneType: string := "http://schemas.xmlsoap.org/ws/2005/05/identity/claims/mobilephone"
  const RoleType: string := "http://schemas.microsoft.com/ws/2008/06/identity/claims/role"

  /** The principal's type lookup compares claim types ignoring case. */
  predicate OfType(c: Claim, claimType: string) {
    EqualsIgnoreCase(c.claimType, claimType)
  }

  predicate NoneOfType(claims: seq<Claim>, claimType: string) {
    forall i :: 0 <= i < |claims| ==> !OfType(claims[i], claimType)
  }

  /** `v` is the value of the first claim of the given type. */
  predicate IsFirstValue(claims: seq<Claim>, claimType: string, v: string) {
    exists i :: 0 <= i < |claims| && OfType(claims[i], claimType) && claims[i].value == v
      && NoneOfType(claims[..i], claimType)
  }

  /** `FindFirstValue`: the value of the first claim of the given type, or null. */
  function FindFirstValue(claims: seq<Claim>, claimType: string): (r: Option<string>)
    ensures r.None? <==> NoneOfType(claims, claimType)
    ensures r.Some? ==> IsFirstValue(claims, claimType, r.value)
  {
    if |claims| == 0 then None
    else if OfType(claims[0], claimType) then
      assert claims[..0] == [];
      Some(claims[0].value)
    else
      var r := FindFirstValue(claims[1..], claimType);
      if r.Some? then
        var i :| 0 <= i < |claims[1..]| && OfType(claims[1..][i], claimType)
          && claims[1..][i].value == r.value && NoneOfType(claims[1..][..i], claimType);
        assert claims[..i + 1] == [claims[0]] + claims[1..][..i];
        assert IsFirstValue(claims, claimType, r.value);
        r
      else
        r
  }

  /** In a concatenation the first list answers whenever it holds a claim of the type. */
  lemma {:induction false} FindFirstValueConcat(a: seq<Claim>, b: seq<Claim>, claimType: string)
    ensures FindFirstValue(a + b, claimType)
      == if FindFirstValue(a, claimType).Some? then FindFirstValue(a, claimType)
         else FindFirstValue(b, claimType)
  {
    if |a| == 0 {
      assert a + b == b;
    } else {
      assert (a + b)[0] == a[0];
      assert (a + b)[1..] == a[1..] + b;
      FindFirstValueConcat(a[1..], b, claimType);
    }
  }

  function GetEmail(claims: seq<Claim>): (r: Option<string>)
    ensures r.None? <==> NoneOfType(claims, EmailType)
    ensures r.Some? ==> IsFirstValue(claims, EmailType, r.value)
  {
    FindFirstValue(claims, EmailType)
  }

  function GetUserId(claims: seq<Claim>): (r: Option<string>)
    ensures r.None? <==> NoneOfType(claims, NameIdentifierType)
    ensures r.Some? ==> IsFirstValue(claims, NameIdentifierType, r.value)
  {
    FindFirstValue(claims, NameIdentifierType)
  }

  /** Reads the tenant claim, whose type is the configured tenant claim constant. */
  function GetTenant(claims: seq<Claim>, tenantClaim: string): (r: Option<string>)
    ensures r.None? <==> NoneOfType(claims, tenantClaim)
    ensures r.Some? ==> IsFirstValue(claims, tenantClaim, r.value)
  {
    FindFirstValue(claims, tenantClaim)
  }

  /** Reads the first name, which is carried by the Name claim. */
  function GetFistName(claims: seq<Claim>): (r: Option<string>)
    ensures r.None? <==> NoneOfType(claims, NameType)
    ensures r.Some? ==> IsFirstValue(claims, NameType, r.value)
  {
    FindFirstValue(claims, NameType)
  }

  function GetLastName(claims: seq<Claim>): (r: Option<string>)
    ensures r.None? <==> NoneOfType(claims, SurnameType)
    ensures r.Some? ==> IsFirstValue(claims, SurnameType, r.value)
  {
    FindFirstValue(claims, SurnameType)
  }

  function GetPhoneNumber(claims: seq<Claim>): (r: Option<string>)
    ensures r.None? <==> NoneOfType(claims, MobilePhoneType)
    ensures r.Some? ==> IsFirstValue(claims, MobilePhoneType, r.value)
  {
    FindFirstValue(claims, MobilePhoneType)
  }

  /** The first Email claim, wherever it sits, is found with an empty value as
      the empty string, not as null. */
  lemma EmptyEmailIsNotNull(claims: seq<Claim>, i: nat)
    requires i < |claims| && claims[i] == Claim(EmailType, "")
    requires NoneOfType(claims[..i], EmailType)
    ensures GetEmail(claims) == Some("")
  {
    assert claims == claims[..i] + claims[i..];
    FindFirstValueConcat(claims[..i], claims[i..], EmailType);
    assert claims[i..][0] == claims[i];
  }
}
