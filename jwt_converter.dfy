/** The conversion of a token's `roles` claim into granted authorities, each
    authority written as its name. */
module JwtConverters {
  import opened Wrappers
  import opened JavaLang

  /** The `roles` claim as the converter tells it apart: a list (each
      element already turned into its string), a single string, anything
      else, or no claim at all. */
  datatype RolesClaim =
    | Absent
    | ListClaim(elements: seq<string>)
    | StringClaim(value: string)
    | OtherClaim

  const RolePrefix: string := "ROLE_"

  /** A role name with the `ROLE_` prefix, added only when it is missing. */
  function Normalize(role: string): (r: string)
    ensures StartsWith(r, RolePrefix)
    ensures StartsWith(role, RolePrefix) ==> r == role
    ensures !StartsWith(role, RolePrefix) ==> r == RolePrefix + role
  {
    if StartsWith(role, RolePrefix) then role
    else
      assert (RolePrefix + role)[..|RolePrefix|] == RolePrefix;
      RolePrefix + role
  }

  /** Normalizing twice is normalizing once. */
  lemma NormalizeIdempotent(role: string)
    ensures Normalize(Normalize(role)) == Normalize(role)
  {
  }

  /** The normalized names, in order. */
  function NormalizeAll(roles: seq<string>): (r: seq<string>)
    ensures |r| == |roles|
    ensures forall i :: 0 <= i < |roles| ==> r[i] == Normalize(roles[i])
  {
    if roles == [] then [] else [Normalize(roles[0])] + NormalizeAll(roles[1..])
  }

  /** Normalizing one more role appends its normalized name. */
  lemma NormalizeAllAppend(roles: seq<string>, role: string)
    ensures NormalizeAll(roles + [role]) == NormalizeAll(roles) + [Normalize(role)]
  {
    var whole := NormalizeAll(roles + [role]);
    assert forall i :: 0 <= i < |roles| ==> whole[i] == Normalize(roles[i]) by {
      forall i | 0 <= i < |roles| ensures whole[i] == Normalize(roles[i]) {
        assert (roles + [role])[i] == roles[i];
      }
    }
  }

  /** The authorities the claim contributes: one per list element in list
      order, exactly one for a string, none otherwise. */
  function RoleAuthorities(claim: RolesClaim): (r: seq<string>)
    ensures forall i :: 0 <= i < |r| ==> StartsWith(r[i], RolePrefix)
    ensures claim.ListClaim? ==> (
      && |r| == |claim.elements|
      && forall i :: 0 <= i < |r| ==> r[i] == Normalize(claim.elements[i]))
    ensures claim.StringClaim? ==> r == [Normalize(claim.value)]
    ensures claim.Absent? || claim.OtherClaim? ==> r == []
  {
    match claim
    case ListClaim(elements) => NormalizeAll(elements)
    case StringClaim(value) => [Normalize(value)]
    case _ => []
  }

  /** What `convert` returns: the default converter's authorities, when it
      gives any collection, followed by the claim's. */
  function Authorities(defaults: Option<seq<string>>, claim: RolesClaim): seq<string> {
    (if defaults.Some? then defaults.value else []) + RoleAuthorities(claim)
  }

  /** The defaults come first and unchanged; every later authority carries
      the prefix; normalizing the claim's authorities again changes nothing. */
  lemma AuthoritiesShape(defaults: Option<seq<string>>, claim: RolesClaim)
    ensures var r := Authorities(defaults, claim);
      var n := if defaults.Some? then |defaults.value| else 0;
      && n <= |r|
      && (defaults.Some? ==> r[..n] == defaults.value)
      && (forall i :: n <= i < |r| ==> StartsWith(r[i], RolePrefix) && Normalize(r[i]) == r[i])
  {
    var r := Authorities(defaults, claim);
    var n := if defaults.Some? then |defaults.value| else 0;
    forall i | n <= i < |r|
      ensures StartsWith(r[i], RolePrefix) && Normalize(r[i]) == r[i]
    {
      assert r[i] == RoleAuthorities(claim)[i - n];
    }
  }

  /** The list branch of `convert`: each element, normalized, appended in
      order. */
  method AddRoles(start: seq<string>, elements: seq<string>) returns (authorities: seq<string>)
    ensures authorities == start + NormalizeAll(elements)
  {
    authorities := start;
    var i := 0;
    while i < |elements|
      invariant 0 <= i <= |elements|
      invariant authorities == start + NormalizeAll(elements[..i])
    {
      var role := elements[i];
      assert elements[..i + 1] == elements[..i] + [role];
      NormalizeAllAppend(elements[..i], role);
      authorities := authorities + [Normalize(role)];
      i := i + 1;
    }
    assert elements[..i] == elements;
  }

  /** The anonymous converter's `convert`: `defaults` is what the default
      authorities converter returns for the token (`None` for null). */
  method Convert(defaults: Option<seq<string>>, claim: RolesClaim) returns (authorities: seq<string>)
    ensures authorities == Authorities(defaults, claim)
  {
    authorities := [];
    if defaults.Some? {
      authorities := authorities + defaults.value;
    }
    ghost var base := authorities;
    assert base == if defaults.Some? then defaults.value else [];
    match claim {
      case ListClaim(elements) =>
        authorities := AddRoles(authorities, elements);
        assert authorities == base + RoleAuthorities(claim);
      case StringClaim(r) =>
        authorities := authorities + [Normalize(r)];
        assert authorities == base + RoleAuthorities(claim);
      case _ =>
        assert authorities == base + RoleAuthorities(claim);
    }
  }
}
