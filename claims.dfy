/**
 * Claims and the claim queries of System.Security.Claims the services rely on. A principal is
 * modelled as the list of claims of its one identity; claim types compare ignoring case,
 * claim values compare exactly.
 */
module Claims {
  import opened Wrappers
  import opened Text

  datatype Claim = Claim(claimType: string, value: string)

  /** ClaimTypes.Role, the role claim type of a claims identity. */
  const RoleClaimType: string := "http://schemas.microsoft.com/ws/2008/06/identity/claims/role"
  /** The registered claim names of sections 4.1.2 and 4.1.7 of RFC 7519. */
  const SubClaimType: string := "sub"
  const JtiClaimType: string := "jti"

  predicate HasType(c: Claim, claimType: string)
  {
    EqualsIgnoreCase(c.claimType, claimType)
  }

  /** The position of the first claim of the given type. */
  function FindFirstIndex(claims: seq<Claim>, claimType: string): (r: Option<nat>)
    ensures r.Some? ==> r.value < |claims| && HasType(claims[r.value], claimType)
    ensures r.Some? ==> forall j :: 0 <= j < r.value ==> !HasType(claims[j], claimType)
    ensures r.None? ==> forall j :: 0 <= j < |claims| ==> !HasType(claims[j], claimType)
  {
    if claims == [] then None
    else if HasType(claims[0], claimType) then Some(0)
    else
      var rest := FindFirstIndex(claims[1..], claimType);
      if rest.None? then None else Some(rest.value + 1)
  }

  /** ClaimsPrincipal.FindFirst(type): the first claim of that type, or null. */
  function FindFirst(claims: seq<Claim>, claimType: string): (r: Option<Claim>)
    ensures r.Some? <==> exists i :: 0 <= i < |claims| && HasType(claims[i], claimType)
    ensures r.Some? ==> exists i :: 0 <= i < |claims| && claims[i] == r.value && HasType(claims[i], claimType)
                          && forall j :: 0 <= j < i ==> !HasType(claims[j], claimType)
  {
    var i := FindFirstIndex(claims, claimType);
    if i.None? then None else Some(claims[i.value])
  }

  /** ClaimsIdentity.HasClaim(type, value). */
  predicate HasClaim(claims: seq<Claim>, claimType: string, value: string)
  {
    exists i :: 0 <= i < |claims| && HasType(claims[i], claimType) && claims[i].value == value
  }

  /** ClaimsPrincipal.IsInRole(role): some role claim carries exactly that role name. */
  predicate IsInRole(claims: seq<Claim>, role: string)
  {
    HasClaim(claims, RoleClaimType, role)
  }

  /** The first claim of a type is found whatever claims of other types come before it. */
  lemma {:induction false} FindFirstSkipsOtherTypes(prefix: seq<Claim>, c: Claim, rest: seq<Claim>, claimType: string)
    requires forall j :: 0 <= j < |prefix| ==> !HasType(prefix[j], claimType)
    requires HasType(c, claimType)
    ensures FindFirst(prefix + [c] + rest, claimType) == Some(c)
    decreases |prefix|
  {
    if prefix == [] {
      assert (prefix + [c] + rest)[0] == c;
    } else {
      FindFirstSkipsOtherTypes(prefix[1..], c, rest, claimType);
      assert (prefix + [c] + rest)[1..] == prefix[1..] + [c] + rest;
      var s := prefix + [c] + rest;
      assert s[0] == prefix[0];
      FindFirstIndexShift(s, claimType);
    }
  }

  lemma FindFirstIndexShift(s: seq<Claim>, claimType: string)
    requires |s| >= 1 && !HasType(s[0], claimType)
    ensures FindFirst(s, claimType) == FindFirst(s[1..], claimType)
  {
  }
}
