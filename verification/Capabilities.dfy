/**
 Who may do what (modules/capabilities.ts): predicates over a principal's role
 claim and the stored grants, the same answers resolved all at once, and the
 per-request memo.
 */
module Capabilities {
  import opened Basics

  /** An account id; the empty id is no id. */
  type AccountId = string

  /** A role held, and the type it is held as. */
  datatype Grant = Grant(role: string, kind: string)

  const SUPERADMIN := "superadmin"
  const ADMIN := "admin"
  const MEMBER := "member"
  const BUILDER_ROLE := "engineer"

  /** Stored grants: for each account, the type each role is held as. */
  type Grants = map<AccountId, map<string, string>>

  function Held(store: Grants, a: AccountId): map<string, string> {
    if a in store then store[a] else map[]
  }

  predicate HasRole(store: Grants, a: AccountId, role: string) {
    role in Held(store, a)
  }

  predicate IsSuperAdmin(store: Grants, a: AccountId) {
    exists role :: role in Held(store, a) && Held(store, a)[role] == SUPERADMIN
  }

  /** A caller: an id, the role claim of its token, and the memberships the token carries, if any. */
  datatype Principal = Principal(userId: AccountId, claim: string, grantRoles: Option<seq<Grant>>)

  predicate MayAdminister(store: Grants, p: Principal) {
    p.userId != "" && (p.claim == ADMIN || p.claim == SUPERADMIN || IsSuperAdmin(store, p.userId))
  }

  predicate MayBuild(store: Grants, p: Principal) {
    p.userId != "" && (p.claim == SUPERADMIN || IsSuperAdmin(store, p.userId) || HasRole(store, p.userId, BUILDER_ROLE))
  }

  predicate MayManageRoles(store: Grants, p: Principal) {
    p.userId != "" && (MayAdminister(store, p) || HasRole(store, p.userId, BUILDER_ROLE))
  }

  datatype Decision =
    | Allowed
    | OnlySuperadminGrantsSuperadmin
    | RoleNotHeld(role: string)
    | OnlySuperadminManagesSuperadmin

  /** Whether the granter may assign a role, as a type. */
  function MayGrantRole(store: Grants, granter: AccountId, grant: Grant): Decision {
    if IsSuperAdmin(store, granter) then Allowed
    else if grant.kind == SUPERADMIN then OnlySuperadminGrantsSuperadmin
    else if HasRole(store, granter, BUILDER_ROLE) then Allowed
    else if HasRole(store, granter, grant.role) then Allowed
    else RoleNotHeld(grant.role)
  }

  /** The decision on a list of grants: the first refusal, if any. */
  function MayGrantRoles(store: Grants, granter: AccountId, grants: seq<Grant>): (d: Decision)
    ensures d.Allowed? <==> forall g :: g in grants ==> MayGrantRole(store, granter, g).Allowed?
  {
    if grants == [] then Allowed
    else if !MayGrantRole(store, granter, grants[0]).Allowed? then MayGrantRole(store, granter, grants[0])
    else MayGrantRoles(store, granter, grants[1..])
  }

  method DecideGrants(store: Grants, granter: AccountId, grants: seq<Grant>) returns (decision: Decision)
    ensures decision == MayGrantRoles(store, granter, grants)
  {
    for i := 0 to |grants|
      invariant MayGrantRoles(store, granter, grants) == MayGrantRoles(store, granter, grants[i..])
    {
      decision := MayGrantRole(store, granter, grants[i]);
      assert grants[i..][1..] == grants[i + 1..];
      if !decision.Allowed? {
        return;
      }
    }
    decision := Allowed;
  }

  /**
   Text meant to name an account. The gates look only at a well-formed id, in
   its stored spelling or in other letter case; the database also takes loose
   spellings, without hyphens or in braces, for the same id.
   */
  datatype Target = Exact(id: AccountId) | Recased(id: AccountId) | Loose(id: AccountId) | NotAnId(text: string) {
    predicate WellFormed() {
      Exact? || Recased?
    }

    /** The account the database finds under it, if there is one. */
    function Names(): Option<AccountId> {
      if NotAnId? then None else Some(id)
    }
  }

  function MayManageAccount(store: Grants, caller: AccountId, target: Target): Decision {
    if IsSuperAdmin(store, caller) then Allowed
    else if !target.WellFormed() then Allowed
    else if IsSuperAdmin(store, target.id) then OnlySuperadminManagesSuperadmin
    else Allowed
  }

  /** Removing a role follows the grant rule for the role as the account holds it. */
  function MayRevokeRole(store: Grants, caller: AccountId, target: Target, role: string): Decision {
    var account := MayManageAccount(store, caller, target);
    if !account.Allowed? || !target.WellFormed() then account
    else if HasRole(store, target.id, role) then MayGrantRole(store, caller, Grant(role, store[target.id][role]))
    else Allowed
  }

  lemma HeldExactly(store: Grants, a: AccountId)
    ensures var roles := if a in store then store[a] else map[];
      && (IsSuperAdmin(store, a) <==> exists r :: r in roles && roles[r] == "superadmin")
      && (forall r :: HasRole(store, a, r) <==> r in roles)
  {
    var roles := if a in store then store[a] else map[];
    assert Held(store, a) == roles;
    if r :| r in roles && roles[r] == "superadmin" {
      assert Held(store, a)[r] == SUPERADMIN;
    }
    if r :| r in Held(store, a) && Held(store, a)[r] == SUPERADMIN {
      assert roles[r] == "superadmin";
    }
  }

  /** Who may administer, build and manage roles, read off the role claim and the roles the account holds. */
  lemma GatesExactly(store: Grants, p: Principal)
    ensures var roles := if p.userId in store then store[p.userId] else map[];
      var super := exists r :: r in roles && roles[r] == "superadmin";
      && (MayAdminister(store, p) <==> p.userId != "" && (p.claim == "admin" || p.claim == "superadmin" || super))
      && (MayBuild(store, p) <==> p.userId != "" && (p.claim == "superadmin" || super || "engineer" in roles))
      && (MayManageRoles(store, p) <==>
            p.userId != "" && (p.claim == "admin" || p.claim == "superadmin" || super || "engineer" in roles))
  {
    HeldExactly(store, p.userId);
  }

  /** A superadmin grants anything; an engineer, and a holder of the role, anything but the superadmin type. */
  lemma GrantExactly(store: Grants, granter: AccountId, grant: Grant)
    ensures var roles := if granter in store then store[granter] else map[];
      var super := exists r :: r in roles && roles[r] == "superadmin";
      var d := MayGrantRole(store, granter, grant);
      && (d.Allowed? <==> super || (grant.kind != "superadmin" && ("engineer" in roles || grant.role in roles)))
      && (!d.Allowed? ==> d == if grant.kind == "superadmin" then OnlySuperadminGrantsSuperadmin
                               else RoleNotHeld(grant.role))
  {
    HeldExactly(store, granter);
  }

  /** Only a superadmin manages a superadmin account that is spelled as one. */
  lemma ManageExactly(store: Grants, caller: AccountId, target: Target)
    ensures var roles := if caller in store then store[caller] else map[];
      var d := MayManageAccount(store, caller, target);
      && (!d.Allowed? <==>
            && !(exists r :: r in roles && roles[r] == "superadmin")
            && (target.Exact? || target.Recased?) && target.id in store
            && exists r :: r in store[target.id] && store[target.id][r] == "superadmin")
      && (!d.Allowed? ==> d == OnlySuperadminManagesSuperadmin)
  {
    HeldExactly(store, caller);
    if target.WellFormed() {
      HeldExactly(store, target.id);
    }
  }

  /**
   A role is removed freely where the target is not spelled as an account. From
   an account, a superadmin removes any; anyone else, from no superadmin
   account, a role it does not hold, or one they are engineer or holder of.
   */
  lemma RevokeExactly(store: Grants, caller: AccountId, target: Target, role: string)
    ensures var roles := if caller in store then store[caller] else map[];
      var super := exists r :: r in roles && roles[r] == "superadmin";
      MayRevokeRole(store, caller, target, role).Allowed?
      <==> (|| super || target.Loose? || target.NotAnId?
            || target.id !in store
            || ((forall r :: r in store[target.id] ==> store[target.id][r] != "superadmin")
                && (role !in store[target.id] || "engineer" in roles || role in roles)))
  {
    HeldExactly(store, caller);
    if target.WellFormed() {
      HeldExactly(store, target.id);
    }
  }

  // ── Every capability at once ───────────────────────────────────────────────

  datatype Gate = Caller | Admin | Builder | RoleManager | Superadmin

  datatype CapabilitySet =
    CapabilitySet(caller: bool, admin: bool, builder: bool, roleManager: bool, superadmin: bool)
  {
    predicate At(gate: Gate) {
      match gate
      case Caller => caller
      case Admin => admin
      case Builder => builder
      case RoleManager => roleManager
      case Superadmin => superadmin
    }
  }

  const NO_CAPABILITIES := CapabilitySet(false, false, false, false, false)

  function CapabilitiesFromRoles(roles: seq<Grant>): CapabilitySet {
    var superadmin := exists r :: r in roles && r.kind == SUPERADMIN;
    var admin := superadmin || exists r :: r in roles && r.kind == ADMIN;
    var engineer := exists r :: r in roles && r.role == BUILDER_ROLE;
    CapabilitySet(true, admin, superadmin || engineer, admin || engineer, superadmin)
  }

  function ResolveCapabilities(store: Grants, p: Principal): CapabilitySet {
    if p.userId == "" then NO_CAPABILITIES
    else if p.grantRoles.Some? then CapabilitiesFromRoles(p.grantRoles.value)
    else if p.claim == SUPERADMIN || IsSuperAdmin(store, p.userId) then CapabilitySet(true, true, true, true, true)
    else
      var admin := p.claim == ADMIN;
      var engineer := HasRole(store, p.userId, BUILDER_ROLE);
      CapabilitySet(true, admin, engineer, admin || engineer, false)
  }

  /** The gates as the separate predicates answer them. */
  function PredicateAnswers(store: Grants, p: Principal): CapabilitySet {
    CapabilitySet(p.userId != "", MayAdminister(store, p), MayBuild(store, p), MayManageRoles(store, p),
                  p.userId != "" && (p.claim == SUPERADMIN || IsSuperAdmin(store, p.userId)))
  }

  /** Without token memberships, resolving at once and asking one by one always agree. */
  lemma ResolutionAgrees(store: Grants, p: Principal)
    requires p.grantRoles.None?
    ensures ResolveCapabilities(store, p) == PredicateAnswers(store, p)
  {
  }

  /** Each gate is answered by its own predicate. */
  lemma GateAnswers(store: Grants, p: Principal, gate: Gate)
    requires p.grantRoles.None? && p.userId != ""
    ensures ResolveCapabilities(store, p).At(gate)
            <==> match gate {
                   case Caller => true
                   case Admin => MayAdminister(store, p)
                   case Builder => MayBuild(store, p)
                   case RoleManager => MayManageRoles(store, p)
                   case Superadmin => p.claim == SUPERADMIN || IsSuperAdmin(store, p.userId)
                 }
  {
  }

  /** The token carries exactly the stored grants. */
  ghost predicate TokenMirrorsStore(store: Grants, p: Principal) {
    && p.grantRoles.Some?
    && (forall g :: g in p.grantRoles.value
          <==> g.role in Held(store, p.userId) && Held(store, p.userId)[g.role] == g.kind)
  }

  /** The highest type among grants. */
  function HighestKind(grants: seq<Grant>): string {
    if exists g :: g in grants && g.kind == SUPERADMIN then SUPERADMIN
    else if exists g :: g in grants && g.kind == ADMIN then ADMIN
    else MEMBER
  }

  /**
   When the token carries the stored grants, the two paths agree on every gate
   if the role claim is the grants' highest type. They agree exactly when a
   superadmin grant makes the claim irrelevant, an admin grant comes with an
   admin claim, or neither is there and neither is claimed.
   */
  lemma TokenPathAgrees(store: Grants, p: Principal)
    requires p.userId != "" && TokenMirrorsStore(store, p)
    ensures p.claim == HighestKind(p.grantRoles.value) ==> ResolveCapabilities(store, p) == PredicateAnswers(store, p)
    ensures ResolveCapabilities(store, p) == PredicateAnswers(store, p)
            <==> match HighestKind(p.grantRoles.value) {
                   case "superadmin" => true
                   case "admin" => p.claim == ADMIN
                   case _ => p.claim != ADMIN && p.claim != SUPERADMIN
                 }
  {
    var token, held := p.grantRoles.value, Held(store, p.userId);
    if role :| role in held && held[role] == SUPERADMIN {
      assert Grant(role, SUPERADMIN) in token;
    }
    if role :| role in held && held[role] == ADMIN {
      assert Grant(role, ADMIN) in token;
    }
    if BUILDER_ROLE in held {
      assert Grant(BUILDER_ROLE, held[BUILDER_ROLE]) in token;
    }
  }

  // ── One request's checks ───────────────────────────────────────────────────

  /** The stored grants as a request sees them, counting its lookups. */
  class Lookups {
    const store: Grants
    var superadminLookups: nat
    var builderLookups: nat

    constructor (store: Grants)
      ensures this.store == store && superadminLookups == 0 && builderLookups == 0
    {
      this.store := store;
      superadminLookups, builderLookups := 0, 0;
    }

    method LookUpSuperAdmin(a: AccountId) returns (r: bool)
      modifies this`superadminLookups
      ensures r == IsSuperAdmin(store, a) && superadminLookups == old(superadminLookups) + 1
    {
      superadminLookups := superadminLookups + 1;
      r := IsSuperAdmin(store, a);
    }

    method LookUpBuilder(a: AccountId) returns (r: bool)
      modifies this`builderLookups
      ensures r == HasRole(store, a, BUILDER_ROLE) && builderLookups == old(builderLookups) + 1
    {
      builderLookups := builderLookups + 1;
      r := HasRole(store, a, BUILDER_ROLE);
    }

    method Resolve(p: Principal) returns (set': CapabilitySet)
      modifies this
      ensures set' == ResolveCapabilities(store, p)
      ensures superadminLookups <= old(superadminLookups) + 1 && builderLookups <= old(builderLookups) + 1
      ensures p.claim == SUPERADMIN || p.grantRoles.Some? || p.userId == ""
              ==> superadminLookups == old(superadminLookups) && builderLookups == old(builderLookups)
    {
      if p.userId == "" {
        return NO_CAPABILITIES;
      }
      if p.grantRoles.Some? {
        return CapabilitiesFromRoles(p.grantRoles.value);
      }
      var superadmin := p.claim == SUPERADMIN;
      if !superadmin {
        superadmin := LookUpSuperAdmin(p.userId);
      }
      if superadmin {
        return CapabilitySet(true, true, true, true, true);
      }
      var admin := p.claim == ADMIN;
      var engineer := LookUpBuilder(p.userId);
      return CapabilitySet(true, admin, engineer, admin || engineer, false);
    }
  }

  /** One request's capability checks: resolved once, on first need. */
  class CapabilityAccess {
    const principal: Principal
    const lookups: Lookups
    var resolved: Option<CapabilitySet>

    ghost predicate Valid()
      reads this, lookups
    {
      && (resolved.Some? ==> resolved.value == ResolveCapabilities(lookups.store, principal))
      && (resolved.None? ==> lookups.superadminLookups == 0 && lookups.builderLookups == 0)
      && lookups.superadminLookups <= 1 && lookups.builderLookups <= 1
    }

    constructor (principal: Principal, store: Grants)
      ensures Valid() && fresh(lookups) && resolved.None?
      ensures this.principal == principal && lookups.store == store
    {
      this.principal := principal;
      lookups := new Lookups(store);
      resolved := None;
    }

    method Check(gate: Gate) returns (r: bool)
      requires Valid()
      modifies this, lookups
      ensures Valid()
      ensures r == (principal.userId != ""
                      && (gate == Caller || ResolveCapabilities(lookups.store, principal).At(gate)))
      ensures gate == Caller || principal.userId == "" ==> resolved == old(resolved)
    {
      if principal.userId == "" {
        return false;
      }
      if gate == Caller {
        return true;
      }
      if resolved.None? {
        var set' := lookups.Resolve(principal);
        resolved := Some(set');
      }
      return resolved.value.At(gate);
    }
  }

  /**
   Any sequence of checks costs one superadmin and one engineer lookup at most,
   and none when all are `caller` checks.
   */
  method CheckAll(principal: Principal, store: Grants, gates: seq<Gate>)
    returns (answers: seq<bool>, superadminLookups: nat, builderLookups: nat)
    ensures |answers| == |gates|
    ensures forall i :: 0 <= i < |gates| ==>
              answers[i] == (principal.userId != ""
                               && (gates[i] == Caller || ResolveCapabilities(store, principal).At(gates[i])))
    ensures superadminLookups <= 1 && builderLookups <= 1
    ensures (forall g :: g in gates ==> g == Caller) ==> superadminLookups == 0 && builderLookups == 0
  {
    var access := new CapabilityAccess(principal, store);
    answers := [];
    for i := 0 to |gates|
      invariant access.Valid() && fresh(access) && fresh(access.lookups)
      invariant access.principal == principal && access.lookups.store == store
      invariant |answers| == i
      invariant forall k :: 0 <= k < i ==>
                  answers[k] == (principal.userId != ""
                                   && (gates[k] == Caller || ResolveCapabilities(store, principal).At(gates[k])))
      invariant (forall g :: g in gates[..i] ==> g == Caller) ==> access.resolved.None?
    {
      assert gates[..i + 1] == gates[..i] + [gates[i]];
      assert gates[i] in gates[..i + 1] && forall g :: g in gates[..i] ==> g in gates[..i + 1];
      var answer := access.Check(gates[i]);
      answers := answers + [answer];
    }
    assert gates[..|gates|] == gates;
    superadminLookups, builderLookups := access.lookups.superadminLookups, access.lookups.builderLookups;
  }
}
