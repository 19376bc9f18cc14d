/**
 The user and bot account routes as a state machine (routes/users.ts,
 routes/bot-accounts.ts). Each route is one atomic step: its gate, then the
 one change it makes.
 */
module Accounts {
  import opened Basics
  import opened Capabilities

  /** A stored account. It is a bot when its metadata says so. */
  datatype Record =
    Record(profile: string, metadata: map<string, string>, roles: map<string, string>, keys: set<string>)
  {
    predicate IsBot() {
      "account_type" in metadata && metadata["account_type"] == "bot"
    }
  }

  type Store = map<AccountId, Record>

  function GrantsIn(store: Store): Grants {
    map a | a in store :: store[a].roles
  }

  predicate IsSuper(store: Store, a: AccountId) {
    IsSuperAdmin(GrantsIn(store), a)
  }

  /** Which family of routes a step comes through. */
  datatype Surface = Users | Bots

  /** What a request asks for, of the account in its path; an update's body may carry an id of its own. */
  datatype Request =
    | Create(id: AccountId, profile: string, metadata: map<string, string>, grants: seq<Grant>)
    | Update(target: Target, bodyId: Option<Target>, profile: string, replacing: Option<map<string, string>>)
    | PatchProperties(target: Target, removed: set<string>, added: map<string, string>)
    | Delete(target: Target)
    | AddRole(target: Target, grant: Grant)
    | RemoveRole(target: Target, role: string)
    | CreateKey(target: Target, key: string)
    | RevokeKey(target: Target, key: string)

  /** One request: who asks, with which role claim, through which routes. */
  datatype Step = Step(caller: AccountId, claim: string, surface: Surface, request: Request)

  const KINDS := {SUPERADMIN, ADMIN, MEMBER}

  predicate ValidGrant(g: Grant) {
    g.role != "" && g.kind in KINDS
  }

  /** The grants of a new account: the first of two for the same role stands. */
  function RolesOf(grants: seq<Grant>): map<string, string> {
    if grants == [] then map[] else RolesOf(grants[1..])[grants[0].role := grants[0].kind]
  }

  /** The part of a bot's metadata a request may set after creation. */
  function Described(metadata: map<string, string>): map<string, string> {
    map k | k in metadata && k == "description" :: metadata[k]
  }

  function BotMetadata(metadata: map<string, string>): map<string, string> {
    (map k | k in metadata && (k == "description" || k == "created_by") :: metadata[k])["account_type" := "bot"]
  }

  /** The middleware in front of the route. */
  predicate PassesGate(store: Store, step: Step) {
    var p := Principal(step.caller, step.claim, None);
    if step.surface == Users && (step.request.AddRole? || step.request.RemoveRole?) then
      MayAdminister(GrantsIn(store), p)
    else MayBuild(GrantsIn(store), p)
  }

  /** The route's own decision. */
  function Decide(store: Store, step: Step): Decision {
    var grants := GrantsIn(store);
    match step.request
    case Create(_, _, _, wanted) => MayGrantRoles(grants, step.caller, wanted)
    case AddRole(_, grant) => MayGrantRole(grants, step.caller, grant)
    case RemoveRole(target, role) => MayRevokeRole(grants, step.caller, target, role)
    case _ => MayManageAccount(grants, step.caller, step.request.target)
  }

  /** The account a request is about, when it exists and the routes reach it. */
  predicate Reaches(store: Store, surface: Surface, target: Target) {
    target.Names().Some? && target.id in store && (surface == Bots ==> store[target.id].IsBot())
  }

  /** Where an update goes: the body's id overwrites the path's. */
  function Addressee(target: Target, bodyId: Option<Target>): Target {
    if bodyId.Some? then bodyId.value else target
  }

  /** The change a request makes once it is allowed. */
  function Perform(store: Store, surface: Surface, request: Request): Store {
    match request
    case Create(id, profile, metadata, grants) =>
      if id in store || id == "" || !(forall g :: g in grants ==> ValidGrant(g)) then store
      else
        var metadata' := if surface == Bots then BotMetadata(metadata) else metadata;
        store[id := Record(profile, metadata', RolesOf(grants), {})]
    case Update(target, bodyId, profile, replacing) =>
      var to := Addressee(target, bodyId);
      if !Reaches(store, surface, to) then store
      else
        var r := store[to.id];
        var metadata' := if replacing.None? then r.metadata
                         else if surface == Bots then r.metadata + Described(replacing.value)
                         else replacing.value;
        store[to.id := r.(profile := profile, metadata := metadata')]
    case PatchProperties(target, removed, added) =>
      if surface == Bots || !Reaches(store, surface, target) then store
      else
        var r := store[target.id];
        store[target.id := r.(metadata := (r.metadata - removed) + added)]
    case Delete(target) =>
      if !Reaches(store, surface, target) then store else store - {target.id}
    case AddRole(target, grant) =>
      if !Reaches(store, surface, target) || !ValidGrant(grant) then store
      else
        var r := store[target.id];
        store[target.id := r.(roles := r.roles[grant.role := grant.kind])]
    case RemoveRole(target, role) =>
      if !Reaches(store, Users, target) then store
      else
        var r := store[target.id];
        store[target.id := r.(roles := r.roles - {role})]
    case CreateKey(target, key) =>
      if surface == Users || key == "" || !Reaches(store, Bots, target) then store
      else
        var r := store[target.id];
        store[target.id := r.(keys := r.keys + {key})]
    case RevokeKey(target, key) =>
      if surface == Users || !target.Exact? || !Reaches(store, Users, target) then store
      else
        var r := store[target.id];
        store[target.id := r.(keys := r.keys - {key})]
  }

  /** One request handled: refused requests change nothing. */
  function Handle(store: Store, step: Step): Store {
    if PassesGate(store, step) && Decide(store, step).Allowed? then Perform(store, step.surface, step.request)
    else store
  }

  // ── What a request does, account by account ────────────────────────────────

  /** The text is a spelling of the account's id. */
  predicate Spells(target: Target, a: AccountId) {
    target == Exact(a) || target == Recased(a) || target == Loose(a)
  }

  /** The text leads to the account: to any through the user routes, to a bot through the bot routes. */
  predicate LeadsTo(store: Store, surface: Surface, target: Target, a: AccountId) {
    && Spells(target, a) && a in store
    && (surface == Bots ==> "account_type" in store[a].metadata && store[a].metadata["account_type"] == "bot")
  }

  /** Every other account is as it was, and this one still there. */
  ghost predicate OnlyAt(before: Store, after: Store, a: AccountId) {
    && a in before && a in after
    && (forall b :: b in after <==> b in before)
    && (forall b :: b in before && b != a ==> after[b] == before[b])
  }

  /** A new account of this id, and no other change. */
  ghost predicate Creates(before: Store, surface: Surface, request: Request, after: Store)
    requires request.Create?
  {
    && request.id in after && (forall b :: b in after <==> b in before || b == request.id)
    && (forall b :: b in before ==> after[b] == before[b])
    && var created := after[request.id];
    && created.profile == request.profile && created.keys == {}
    && (surface == Users ==> created.metadata == request.metadata)
    && (surface == Bots ==> IsBotMetadata(request.metadata, created.metadata))
    && GrantedRoles(request.grants, created.roles)
  }

  /** Marked a bot, with the description and the creator given, and nothing else. */
  ghost predicate IsBotMetadata(given: map<string, string>, metadata: map<string, string>) {
    && "account_type" in metadata && metadata["account_type"] == "bot"
    && (forall k :: k in metadata <==> k == "account_type" || (k in given && (k == "description" || k == "created_by")))
    && (forall k :: k in metadata && k != "account_type" ==> metadata[k] == given[k])
  }

  /** Each role granted, as the type it is first granted as. */
  ghost predicate GrantedRoles(grants: seq<Grant>, roles: map<string, string>) {
    && (forall role :: role in roles <==> exists g :: g in grants && g.role == role)
    && (forall i :: 0 <= i < |grants| && (forall j :: 0 <= j < i ==> grants[j].role != grants[i].role)
          ==> grants[i].role in roles && roles[grants[i].role] == grants[i].kind)
  }

  /** Overwritten where given, otherwise as it was. */
  ghost predicate Overlaid(before: map<string, string>, given: map<string, string>, after: map<string, string>) {
    && (forall k :: k in after <==> k in before || k in given)
    && (forall k :: k in after ==> after[k] == if k in given then given[k] else before[k])
  }

  /** An updated account's metadata: replaced for a user, and for a bot only its description. */
  ghost predicate Replaced(surface: Surface, before: map<string, string>, given: map<string, string>,
                           after: map<string, string>) {
    match surface
    case Users => after == given
    case Bots =>
      && (forall k :: k in after <==> k in before || (k == "description" && k in given))
      && (forall k :: k in after ==> after[k] == if k == "description" && k in given then given[k] else before[k])
  }

  /** What a request does to the account it leads to. */
  ghost predicate Changes(before: Store, surface: Surface, request: Request, a: AccountId, after: Store)
    requires a in before && !request.Create?
  {
    match request
    case Update(_, _, profile, replacing) =>
      && OnlyAt(before, after, a)
      && after[a].profile == profile && after[a].roles == before[a].roles && after[a].keys == before[a].keys
      && (replacing.None? ==> after[a].metadata == before[a].metadata)
      && (replacing.Some? ==> Replaced(surface, before[a].metadata, replacing.value, after[a].metadata))
    case PatchProperties(_, removed, added) =>
      && OnlyAt(before, after, a)
      && after[a].profile == before[a].profile && after[a].roles == before[a].roles && after[a].keys == before[a].keys
      && Overlaid(map k | k in before[a].metadata && k !in removed :: before[a].metadata[k], added, after[a].metadata)
    case Delete(_) =>
      && (forall b :: b in after <==> b in before && b != a)
      && (forall b :: b in after ==> after[b] == before[b])
    case AddRole(_, grant) =>
      && OnlyAt(before, after, a)
      && after[a].profile == before[a].profile && after[a].metadata == before[a].metadata
      && after[a].keys == before[a].keys
      && Overlaid(before[a].roles, map[grant.role := grant.kind], after[a].roles)
    case RemoveRole(_, role) =>
      && OnlyAt(before, after, a)
      && after[a].profile == before[a].profile && after[a].metadata == before[a].metadata
      && after[a].keys == before[a].keys
      && (forall r :: r in after[a].roles <==> r in before[a].roles && r != role)
      && (forall r :: r in after[a].roles ==> after[a].roles[r] == before[a].roles[r])
    case CreateKey(_, key) =>
      && OnlyAt(before, after, a)
      && after[a].profile == before[a].profile && after[a].metadata == before[a].metadata
      && after[a].roles == before[a].roles
      && (forall k :: k in after[a].keys <==> k in before[a].keys || k == key)
    case RevokeKey(_, key) =>
      && OnlyAt(before, after, a)
      && after[a].profile == before[a].profile && after[a].metadata == before[a].metadata
      && after[a].roles == before[a].roles
      && (forall k :: k in after[a].keys <==> k in before[a].keys && k != key)
    case Create(_, _, _, _) => true
  }

  predicate IsKind(kind: string) {
    kind == "superadmin" || kind == "admin" || kind == "member"
  }

  /**
   The account a request takes effect on. Roles are taken from any account
   through either family of routes; keys are a bot's, and are revoked only
   under the id as it is stored; properties are patched through the user
   routes. A malformed role or an unnamed key takes no effect.
   */
  predicate TakesEffectOn(store: Store, surface: Surface, request: Request, a: AccountId) {
    match request
    case Create(_, _, _, _) => false
    case Update(target, bodyId, _, _) => LeadsTo(store, surface, if bodyId.Some? then bodyId.value else target, a)
    case PatchProperties(target, _, _) => surface == Users && LeadsTo(store, Users, target, a)
    case Delete(target) => LeadsTo(store, surface, target, a)
    case AddRole(target, grant) => LeadsTo(store, surface, target, a) && grant.role != "" && IsKind(grant.kind)
    case RemoveRole(target, _) => LeadsTo(store, Users, target, a)
    case CreateKey(target, key) => surface == Bots && key != "" && LeadsTo(store, Bots, target, a)
    case RevokeKey(target, _) => surface == Bots && target == Exact(a) && a in store
  }

  /** A new id, and every role well-formed. */
  ghost predicate CanCreate(store: Store, request: Request)
    requires request.Create?
  {
    request.id !in store && request.id != "" && forall g :: g in request.grants ==> g.role != "" && IsKind(g.kind)
  }

  /** The whole effect of an allowed request, on the account it is about and on every other. */
  ghost predicate HasEffect(before: Store, surface: Surface, request: Request, after: Store) {
    if request.Create? then
      if CanCreate(before, request) then Creates(before, surface, request, after) else after == before
    else
      && (forall a :: TakesEffectOn(before, surface, request, a) ==> Changes(before, surface, request, a, after))
      && ((forall a :: !TakesEffectOn(before, surface, request, a)) ==> after == before)
  }

  lemma {:induction false} RolesAreGranted(grants: seq<Grant>)
    ensures GrantedRoles(grants, RolesOf(grants))
  {
    if grants != [] {
      var rest, roles := grants[1..], RolesOf(grants);
      RolesAreGranted(rest);
      forall role ensures role in roles <==> exists g :: g in grants && g.role == role {
        assert forall g :: g in grants <==> g == grants[0] || g in rest;
      }
      forall i | 0 <= i < |grants| && forall j :: 0 <= j < i ==> grants[j].role != grants[i].role
        ensures grants[i].role in roles && roles[grants[i].role] == grants[i].kind
      {
        if i > 0 {
          assert rest[i - 1] == grants[i];
          assert forall j :: 0 <= j < i - 1 ==> rest[j] == grants[j + 1];
        }
      }
    }
  }

  /** What a request comes to has its whole effect. */
  lemma PerformHasEffect(store: Store, surface: Surface, request: Request)
    ensures HasEffect(store, surface, request, Perform(store, surface, request))
  {
    hide Changes, Perform, Creates, CanCreate;
    if request.Create? {
      PerformCreates(store, surface, request);
    } else {
      var after := Perform(store, surface, request);
      forall a | TakesEffectOn(store, surface, request, a) ensures Changes(store, surface, request, a, after) {
        PerformChanges(store, surface, request, a);
      }
      if forall a :: !TakesEffectOn(store, surface, request, a) {
        PerformNothing(store, surface, request);
      }
    }
  }

  lemma PerformCreates(store: Store, surface: Surface, request: Request)
    requires request.Create?
    ensures var after := Perform(store, surface, request);
      if CanCreate(store, request) then Creates(store, surface, request, after) else after == store
  {
    hide GrantedRoles, RolesOf, IsBotMetadata, BotMetadata;
    RolesAreGranted(request.grants);
    BotMetadataIs(request.metadata);
  }

  lemma BotMetadataIs(given: map<string, string>)
    ensures IsBotMetadata(given, BotMetadata(given))
  {
  }

  lemma PerformChanges(store: Store, surface: Surface, request: Request, a: AccountId)
    requires TakesEffectOn(store, surface, request, a) && !request.Create?
    ensures a in store && Changes(store, surface, request, a, Perform(store, surface, request))
  {
    hide Changes, Perform, TakesEffectOn;
    match request
    case Update(_, _, _, _) => UpdateChanges(store, surface, request, a);
    case PatchProperties(_, _, _) => PatchChanges(store, surface, request, a);
    case Delete(_) => DeleteChanges(store, surface, request, a);
    case AddRole(_, _) => RoleChanges(store, surface, request, a);
    case RemoveRole(_, _) => RoleChanges(store, surface, request, a);
    case CreateKey(_, _) => KeyChanges(store, surface, request, a);
    case RevokeKey(_, _) => KeyChanges(store, surface, request, a);
  }

  lemma UpdateChanges(store: Store, surface: Surface, request: Request, a: AccountId)
    requires TakesEffectOn(store, surface, request, a) && (request.Update?)
    ensures a in store && Changes(store, surface, request, a, Perform(store, surface, request))
  {
  }

  lemma PatchChanges(store: Store, surface: Surface, request: Request, a: AccountId)
    requires TakesEffectOn(store, surface, request, a) && (request.PatchProperties?)
    ensures a in store && Changes(store, surface, request, a, Perform(store, surface, request))
  {
  }

  lemma DeleteChanges(store: Store, surface: Surface, request: Request, a: AccountId)
    requires TakesEffectOn(store, surface, request, a) && (request.Delete?)
    ensures a in store && Changes(store, surface, request, a, Perform(store, surface, request))
  {
  }

  lemma RoleChanges(store: Store, surface: Surface, request: Request, a: AccountId)
    requires TakesEffectOn(store, surface, request, a) && (request.AddRole? || request.RemoveRole?)
    ensures a in store && Changes(store, surface, request, a, Perform(store, surface, request))
  {
  }

  lemma KeyChanges(store: Store, surface: Surface, request: Request, a: AccountId)
    requires TakesEffectOn(store, surface, request, a) && (request.CreateKey? || request.RevokeKey?)
    ensures a in store && Changes(store, surface, request, a, Perform(store, surface, request))
  {
  }

  lemma PerformNothing(store: Store, surface: Surface, request: Request)
    requires !request.Create? && forall a :: !TakesEffectOn(store, surface, request, a)
    ensures Perform(store, surface, request) == store
  {
    var target := if request.Update? && request.bodyId.Some? then request.bodyId.value else request.target;
    if !target.NotAnId? {
      assert !TakesEffectOn(store, surface, request, target.id);
    }
  }

  /** And no other store has it. */
  lemma EffectDetermines(before: Store, surface: Surface, request: Request, x: Store, y: Store)
    requires HasEffect(before, surface, request, x) && HasEffect(before, surface, request, y)
    ensures x == y
  {
    if request.Create? {
      if CanCreate(before, request) {
        SameGrantedRoles(request.grants, x[request.id].roles, y[request.id].roles);
        assert x[request.id].metadata == y[request.id].metadata;
      }
    } else if a :| TakesEffectOn(before, surface, request, a) {
      ChangesOnce(before, surface, request, a, x, y);
    }
  }

  lemma ChangesOnce(before: Store, surface: Surface, request: Request, a: AccountId, x: Store, y: Store)
    requires TakesEffectOn(before, surface, request, a)
    requires a in before && Changes(before, surface, request, a, x) && Changes(before, surface, request, a, y)
    ensures x == y
  {
    if !request.Delete? {
      assert x[a].metadata == y[a].metadata && x[a].roles == y[a].roles && x[a].keys == y[a].keys;
    }
  }

  lemma {:induction false} SameGrantedRoles(grants: seq<Grant>, x: map<string, string>, y: map<string, string>)
    requires GrantedRoles(grants, x) && GrantedRoles(grants, y)
    ensures x == y
  {
    forall role | role in x ensures x[role] == y[role] {
      var i := FirstGrant(grants, role);
    }
  }

  lemma {:induction false} FirstGrant(grants: seq<Grant>, role: string) returns (i: nat)
    requires exists g :: g in grants && g.role == role
    ensures i < |grants| && grants[i].role == role && forall j :: 0 <= j < i ==> grants[j].role != role
  {
    if grants[0].role == role {
      i := 0;
    } else {
      var rest := FirstGrant(grants[1..], role);
      i := rest + 1;
    }
  }

  // ── Who is let through ─────────────────────────────────────────────────────

  /** Holding superadmin of some role. */
  ghost predicate HoldsSuperadmin(roles: map<string, string>) {
    exists r :: r in roles && roles[r] == "superadmin"
  }

  function RolesHeld(store: Store, a: AccountId): map<string, string> {
    if a in store then store[a].roles else map[]
  }

  /** May grant a role as a type: superadmins all, engineers and holders all but the superadmin type. */
  ghost predicate MayGive(roles: map<string, string>, grant: Grant) {
    HoldsSuperadmin(roles) || (grant.kind != "superadmin" && ("engineer" in roles || grant.role in roles))
  }

  /** The text names a superadmin account in a spelling the gates recognise. */
  ghost predicate SuperadminSpelled(store: Store, target: Target) {
    exists a :: a in store && HoldsSuperadmin(store[a].roles) && (target == Exact(a) || target == Recased(a))
  }

  /** Which requests are let through, read off the roles of the caller and of the account named. */
  ghost predicate LetThrough(store: Store, step: Step) {
    var roles := RolesHeld(store, step.caller);
    && step.caller != ""
    && (if step.surface == Users && (step.request.AddRole? || step.request.RemoveRole?) then
          step.claim == "admin" || step.claim == "superadmin" || HoldsSuperadmin(roles)
        else step.claim == "superadmin" || HoldsSuperadmin(roles) || "engineer" in roles)
    && match step.request
       case Create(_, _, _, grants) => forall g :: g in grants ==> MayGive(roles, g)
       case AddRole(_, grant) => MayGive(roles, grant)
       case RemoveRole(target, role) =>
         || HoldsSuperadmin(roles)
         || (&& !SuperadminSpelled(store, target)
             && forall a :: a in store && role in store[a].roles && (target == Exact(a) || target == Recased(a))
                  ==> "engineer" in roles || role in roles)
       case _ => HoldsSuperadmin(roles) || !SuperadminSpelled(store, step.request.target)
  }

  lemma LetThroughExactly(store: Store, step: Step)
    ensures LetThrough(store, step) <==> PassesGate(store, step) && Decide(store, step).Allowed?
  {
    hide HoldsSuperadmin;
    GateLetsThrough(store, step);
    DecisionLetsThrough(store, step);
  }

  lemma GrantsHeld(store: Store, a: AccountId)
    ensures IsSuper(store, a) <==> HoldsSuperadmin(RolesHeld(store, a))
    ensures forall r :: HasRole(GrantsIn(store), a, r) <==> r in RolesHeld(store, a)
  {
    HeldExactly(GrantsIn(store), a);
  }

  lemma GateLetsThrough(store: Store, step: Step)
    ensures var roles := RolesHeld(store, step.caller);
      PassesGate(store, step)
      <==> step.caller != ""
           && (if step.surface == Users && (step.request.AddRole? || step.request.RemoveRole?) then
                 step.claim == "admin" || step.claim == "superadmin" || HoldsSuperadmin(roles)
               else step.claim == "superadmin" || HoldsSuperadmin(roles) || "engineer" in roles)
  {
    hide HoldsSuperadmin;
    GrantsHeld(store, step.caller);
  }

  lemma MayGiveExactly(store: Store, caller: AccountId, grant: Grant)
    ensures MayGrantRole(GrantsIn(store), caller, grant).Allowed? <==> MayGive(RolesHeld(store, caller), grant)
  {
    hide HoldsSuperadmin;
    GrantsHeld(store, caller);
  }

  lemma SpelledExactly(store: Store, target: Target)
    ensures SuperadminSpelled(store, target) <==> target.WellFormed() && IsSuper(store, target.id)
  {
    if target.WellFormed() {
      GrantsHeld(store, target.id);
      assert HoldsSuperadmin(RolesHeld(store, target.id)) ==> target.id in store;
    }
  }

  lemma DecisionLetsThrough(store: Store, step: Step)
    ensures var roles := RolesHeld(store, step.caller);
      Decide(store, step).Allowed?
      <==> match step.request
           case Create(_, _, _, grants) => forall g :: g in grants ==> MayGive(roles, g)
           case AddRole(_, grant) => MayGive(roles, grant)
           case RemoveRole(target, role) =>
             || HoldsSuperadmin(roles)
             || (&& !SuperadminSpelled(store, target)
                 && forall a :: a in store && role in store[a].roles && (target == Exact(a) || target == Recased(a))
                      ==> "engineer" in roles || role in roles)
           case _ => HoldsSuperadmin(roles) || !SuperadminSpelled(store, step.request.target)
  {
    hide HoldsSuperadmin, SuperadminSpelled, MayGive, IsSuperAdmin;
    GrantsHeld(store, step.caller);
    match step.request
    case Create(_, _, _, grants) =>
      forall g | g in grants
        ensures MayGrantRole(GrantsIn(store), step.caller, g).Allowed? <==> MayGive(RolesHeld(store, step.caller), g)
      {
        MayGiveExactly(store, step.caller, g);
      }
    case AddRole(_, grant) => MayGiveExactly(store, step.caller, grant);
    case RemoveRole(target, role) => RemovalLetsThrough(store, step.caller, target, role);
    case _ => SpelledExactly(store, step.request.target);
  }

  lemma RemovalLetsThrough(store: Store, caller: AccountId, target: Target, role: string)
    ensures var roles := RolesHeld(store, caller);
      MayRevokeRole(GrantsIn(store), caller, target, role).Allowed?
      <==> || HoldsSuperadmin(roles)
           || (&& !SuperadminSpelled(store, target)
               && forall a :: a in store && role in store[a].roles && (target == Exact(a) || target == Recased(a))
                    ==> "engineer" in roles || role in roles)
  {
    hide HoldsSuperadmin, SuperadminSpelled;
    GrantsHeld(store, caller);
    SpelledExactly(store, target);
    if target.WellFormed() {
      GrantsHeld(store, target.id);
      if role in RolesHeld(store, target.id) {
        var kind := store[target.id].roles[role];
        MayGiveExactly(store, caller, Grant(role, kind));
        if kind == SUPERADMIN {
          SuperKind(store, target.id, role);
        }
      }
    }
  }

  lemma SuperKind(store: Store, a: AccountId, role: string)
    requires a in store && role in store[a].roles && store[a].roles[role] == "superadmin"
    ensures IsSuper(store, a)
  {
    assert RolesHeld(store, a)[role] == "superadmin";
    GrantsHeld(store, a);
  }

  /** The routes over a mutable store. */
  class AccountRoutes {
    var accounts: Store

    constructor (accounts: Store)
      ensures this.accounts == accounts
    {
      this.accounts := accounts;
    }

    method Serve(step: Step) returns (status: nat)
      modifies this
      ensures accounts == Handle(old(accounts), step)
      ensures status == 403 <==> !LetThrough(old(accounts), step)
      ensures if status == 403 then accounts == old(accounts)
              else HasEffect(old(accounts), step.surface, step.request, accounts)
    {
      LetThroughExactly(accounts, step);
      PerformHasEffect(accounts, step.surface, step.request);
      if !PassesGate(accounts, step) {
        return 403;
      }
      var decision := Allowed;
      match step.request {
        case Create(_, _, _, grants) =>
          decision := DecideGrants(GrantsIn(accounts), step.caller, grants);
        case AddRole(_, grant) =>
          decision := MayGrantRole(GrantsIn(accounts), step.caller, grant);
        case RemoveRole(target, role) =>
          decision := MayRevokeRole(GrantsIn(accounts), step.caller, target, role);
        case _ =>
          decision := MayManageAccount(GrantsIn(accounts), step.caller, step.request.target);
      }
      if !decision.Allowed? {
        return 403;
      }
      accounts := Perform(accounts, step.surface, step.request);
      return 200;
    }
  }

  // ── What a superadmin account is protected from ────────────────────────────

  /** The requests whose target is looked at before they change it. */
  predicate Guarded(request: Request) {
    !request.AddRole? && !request.Create?
  }

  /** The account a guarded request's decision looks at. */
  function Checked(request: Request): Option<AccountId>
    requires Guarded(request)
  {
    if request.target.WellFormed() then request.target.Names() else None
  }

  /** The account a guarded request writes to, should it be there, and should there be anything to write. */
  function Written(surface: Surface, request: Request): Option<AccountId>
    requires Guarded(request)
  {
    match request
    case Update(target, bodyId, _, _) => Addressee(target, bodyId).Names()
    case PatchProperties(target, removed, added) =>
      if surface == Users && (removed != {} || added != map[]) then target.Names() else None
    case CreateKey(target, key) => if surface == Bots && key != "" then target.Names() else None
    case RevokeKey(target, _) => if surface == Bots && target.Exact? then target.Names() else None
    case Delete(target) => target.Names()
    case RemoveRole(target, _) => target.Names()
  }

  /** The decision looks at the account the request writes to. */
  predicate SeesItsWrite(surface: Surface, request: Request)
    requires Guarded(request)
  {
    Written(surface, request).Some? ==> Written(surface, request) == Checked(request)
  }

  predicate Untouched(store: Store, step: Step, a: AccountId)
    requires a in store
  {
    a in Handle(store, step) && Handle(store, step)[a] == store[a]
  }

  /** A path in well-formed spelling, with no other account's id in the body, is seen. */
  lemma PlainRequestSeesItsWrite(surface: Surface, request: Request)
    requires Guarded(request) && request.target.WellFormed()
    requires request.Update? && request.bodyId.Some? ==> request.bodyId.value.Names() in {None, request.target.Names()}
    ensures SeesItsWrite(surface, request)
  {
  }

  /**
   No update, delete, property patch, role removal or key step by a
   non-superadmin changes a superadmin account, as long as the decision looks
   at that account when the request writes to it.
   */
  lemma SuperadminAccountUntouched(store: Store, step: Step, a: AccountId)
    requires IsSuper(store, a) && !IsSuper(store, step.caller) && Guarded(step.request)
    requires Written(step.surface, step.request) == Some(a) ==> Checked(step.request) == Some(a)
    ensures Untouched(store, step, a)
  {
    SuperHeld(store, a);
    assert !PassesGate(store, step) || !Decide(store, step).Allowed? ==> Handle(store, step) == store;
  }

  /** The step leaves superadmin accounts alone, if the caller holds no superadmin. */
  ghost predicate Harmless(store: Store, step: Step) {
    forall a :: IsSuper(store, a) && !IsSuper(store, step.caller) ==> a in store && Untouched(store, step, a)
  }

  /** No request of this kind by a non-superadmin changes a superadmin account, whatever the store. */
  ghost predicate ProtectsSuperadmins(surface: Surface, request: Request) {
    forall store, caller, claim :: Harmless(store, Step(caller, claim, surface, request))
  }

  /** A guarded request is harmless to superadmin accounts in every store exactly when its decision sees its write. */
  lemma GuardCoversExactly(surface: Surface, request: Request)
    requires Guarded(request)
    ensures ProtectsSuperadmins(surface, request) <==> SeesItsWrite(surface, request)
  {
    if SeesItsWrite(surface, request) {
      forall store, caller, claim ensures Harmless(store, Step(caller, claim, surface, request)) {
        var step := Step(caller, claim, surface, request);
        forall a | IsSuper(store, a) && !IsSuper(store, caller) ensures a in store && Untouched(store, step, a) {
          SuperHeld(store, a);
          SuperadminAccountUntouched(store, step, a);
        }
      }
    } else {
      var store, step, a := UnseenWrite(surface, request);
      assert !Harmless(store, Step(step.caller, step.claim, surface, request));
    }
  }

  /** A superadmin account every guarded request that reaches it changes. */
  function Victim(surface: Surface, request: Request): Record {
    var role := if request.RemoveRole? then request.role else "";
    var metadata: map<string, string> :=
      if surface == Bots then map["account_type" := "bot"]
      else if request.PatchProperties? then
        (map k | k in request.removed :: "") + (map k | k in request.added :: request.added[k] + "x")
      else map[];
    var profile := if request.Update? then request.profile + "x" else "";
    Record(profile, metadata, map[role + "x" := SUPERADMIN, role := MEMBER], {})
  }

  lemma VictimIsSuper(surface: Surface, request: Request)
    ensures var roles := Victim(surface, request).roles; exists role :: role in roles && roles[role] == SUPERADMIN
  {
    var role := if request.RemoveRole? then request.role else "";
    assert |role| < |role + "x"|;
    assert Victim(surface, request).roles[role + "x"] == SUPERADMIN;
  }

  /** Where the decision does not see the write, an engineer can make it. */
  lemma UnseenWrite(surface: Surface, request: Request) returns (store: Store, step: Step, a: AccountId)
    requires Guarded(request) && !SeesItsWrite(surface, request)
    ensures step.surface == surface && step.request == request
    ensures a in store && IsSuper(store, a) && !IsSuper(store, step.caller) && !Untouched(store, step, a)
  {
    a := Written(surface, request).value;
    var caller, record := a + "x", Victim(surface, request);
    store := map[a := record, caller := Record("", map[], map[BUILDER_ROLE := MEMBER], {})];
    step := Step(caller, ADMIN, surface, request);
    assert |a| < |caller|;
    VictimIsSuper(surface, request);
    OneSuper(store, a, caller);
    assert PassesGate(store, step) && Decide(store, step).Allowed?;
    VictimChanges(store, surface, request, a);
  }

  lemma OneSuper(store: Store, a: AccountId, caller: AccountId)
    requires store.Keys == {a, caller} && a != caller && caller != ""
    requires exists role :: role in store[a].roles && store[a].roles[role] == SUPERADMIN
    requires store[caller].roles == map[BUILDER_ROLE := MEMBER]
    ensures IsSuper(store, a) && forall b :: IsSuper(store, b) ==> b == a
    ensures MayBuild(GrantsIn(store), Principal(caller, ADMIN, None))
    ensures MayAdminister(GrantsIn(store), Principal(caller, ADMIN, None))
  {
    SuperHeld(store, a);
    forall b | IsSuper(store, b) ensures b == a {
      SuperHeld(store, b);
    }
    assert Held(GrantsIn(store), caller) == store[caller].roles;
  }

  lemma VictimChanges(store: Store, surface: Surface, request: Request, a: AccountId)
    requires Guarded(request) && Written(surface, request) == Some(a) && !SeesItsWrite(surface, request)
    requires a in store && store[a] == Victim(surface, request)
    ensures var after := Perform(store, surface, request); a !in after || after[a] != store[a]
  {
    var after, v := Perform(store, surface, request), Victim(surface, request);
    match request
    case Update(_, _, profile, _) =>
      assert |v.profile| == |profile| + 1;
    case PatchProperties(_, removed, added) =>
      if k :| k in added {
        assert |v.metadata[k]| == |added[k]| + 1;
      } else {
        var k :| k in removed;
        assert k in v.metadata && k !in after[a].metadata;
      }
    case RemoveRole(_, role) =>
      assert role in v.roles && role !in after[a].roles;
    case CreateKey(_, key) =>
      assert key in after[a].keys;
    case _ =>
  }

  /** The account of the witnesses below, and an engineer. */
  const ROOT_AND_ENGINEER: Store := map[
    "root" := Record("", map[], map["ops" := SUPERADMIN], {}),
    "eng" := Record("", map[], map[BUILDER_ROLE := MEMBER], {})]

  lemma EngineerIsNoSuper()
    ensures IsSuper(ROOT_AND_ENGINEER, "root") && !IsSuper(ROOT_AND_ENGINEER, "eng")
    ensures MayBuild(GrantsIn(ROOT_AND_ENGINEER), Principal("eng", MEMBER, None))
  {
    SuperHeld(ROOT_AND_ENGINEER, "root");
    SuperHeld(ROOT_AND_ENGINEER, "eng");
    assert ROOT_AND_ENGINEER["root"].roles["ops"] == SUPERADMIN;
    assert Held(GrantsIn(ROOT_AND_ENGINEER), "eng") == map[BUILDER_ROLE := MEMBER];
  }

  /** An update of the caller's own account whose body names another goes to the other. */
  lemma UpdateFollowsBodyId() returns (step: Step)
    ensures step.request.Update? && step.request.target == Exact(step.caller)
    ensures IsSuper(ROOT_AND_ENGINEER, "root") && !IsSuper(ROOT_AND_ENGINEER, step.caller)
    ensures !Untouched(ROOT_AND_ENGINEER, step, "root")
  {
    step := Step("eng", MEMBER, Users, Update(Exact("eng"), Some(Exact("root")), "changed", None));
    EngineerIsNoSuper();
  }

  /** A delete whose path spells the id loosely is not looked at, and finds the account. */
  lemma LooseSpellingReaches() returns (step: Step)
    ensures step.request == Delete(Loose("root"))
    ensures IsSuper(ROOT_AND_ENGINEER, "root") && !IsSuper(ROOT_AND_ENGINEER, step.caller)
    ensures "root" !in Handle(ROOT_AND_ENGINEER, step)
  {
    step := Step("eng", MEMBER, Users, Delete(Loose("root")));
    EngineerIsNoSuper();
  }

  lemma SuperHeld(store: Store, a: AccountId)
    ensures IsSuper(store, a) <==> a in store && exists r :: r in store[a].roles && store[a].roles[r] == SUPERADMIN
  {
    if a in store {
      assert Held(GrantsIn(store), a) == store[a].roles;
    }
  }

  /**
   Granting a role is not guarded by the target: the stored type of a role is
   replaced. A grant by a non-superadmin leaves a superadmin account one exactly
   when the account holds superadmin through another role too.
   */
  lemma GrantToSuperadmin(store: Store, step: Step, a: AccountId)
    requires IsSuper(store, a) && !IsSuper(store, step.caller) && step.request.AddRole?
    requires PassesGate(store, step) && Decide(store, step).Allowed?
    requires step.request.target.Names() == Some(a) && Reaches(store, step.surface, step.request.target)
    requires ValidGrant(step.request.grant)
    ensures IsSuper(Handle(store, step), a)
            <==> exists r :: r in store[a].roles && r != step.request.grant.role && store[a].roles[r] == SUPERADMIN
  {
    var after, role := Handle(store, step), step.request.grant.role;
    SuperHeld(store, a);
    SuperHeld(after, a);
    assert after[a].roles == store[a].roles[role := step.request.grant.kind];
    if r :| r in after[a].roles && after[a].roles[r] == SUPERADMIN {
      assert r != role && r in store[a].roles && store[a].roles[r] == SUPERADMIN;
    }
    if r :| r in store[a].roles && r != role && store[a].roles[r] == SUPERADMIN {
      assert after[a].roles[r] == SUPERADMIN;
    }
  }

  /** Such a grant exists: a holder of the same role can replace a superadmin grant of it. */
  lemma GrantCanReplaceSuperadmin() returns (store: Store, step: Step)
    ensures IsSuper(store, "root") && !IsSuper(store, step.caller)
    ensures !IsSuper(Handle(store, step), "root")
  {
    store := map["root" := Record("", map[], map["ops" := SUPERADMIN], {}),
                 "lead" := Record("", map[], map["ops" := ADMIN], {})];
    step := Step("lead", ADMIN, Users, AddRole(Exact("root"), Grant("ops", MEMBER)));
    SuperHeld(store, "root");
    SuperHeld(store, "lead");
    assert store["root"].roles["ops"] == SUPERADMIN;
    assert Held(GrantsIn(store), "lead") == map["ops" := ADMIN];
    SuperHeld(Handle(store, step), "root");
  }

  // ── Runs ───────────────────────────────────────────────────────────────────

  function Run(store: Store, steps: seq<Step>): Store {
    if steps == [] then store else Handle(Run(store, steps[..|steps| - 1]), steps[|steps| - 1])
  }

  lemma {:induction false} RolesOfGrants(grants: seq<Grant>, role: string)
    requires role in RolesOf(grants)
    ensures Grant(role, RolesOf(grants)[role]) in grants
  {
    if role != grants[0].role {
      RolesOfGrants(grants[1..], role);
    }
  }

  /** The step gives `a` a superadmin-type grant. */
  ghost predicate GrantsSuper(step: Step, a: AccountId) {
    match step.request
    case AddRole(target, grant) => target.Names() == Some(a) && grant.kind == SUPERADMIN
    case Create(id, _, _, grants) => id == a && exists g :: g in grants && g.kind == SUPERADMIN
    case _ => false
  }

  /** An account becomes superadmin only by a grant a superadmin made. */
  lemma BecomesSuper(store: Store, step: Step, a: AccountId)
    requires !IsSuper(store, a) && IsSuper(Handle(store, step), a)
    ensures GrantsSuper(step, a) && IsSuper(store, step.caller)
  {
    var after := Handle(store, step);
    SuperHeld(store, a);
    SuperHeld(after, a);
    var role :| role in after[a].roles && after[a].roles[role] == SUPERADMIN;
    if step.request.Create? {
      RolesOfGrants(step.request.grants, role);
    }
  }

  /** An account, and when it came to hold superadmin. */
  datatype Link = Link(account: AccountId, time: nat)

  /** `next` was granted superadmin by `link`, then a superadmin. */
  ghost predicate Passes(store: Store, steps: seq<Step>, link: Link, next: Link) {
    var t := next.time - 1;
    && link.time <= t < |steps|
    && steps[t].caller == link.account && GrantsSuper(steps[t], next.account)
    && IsSuper(Run(store, steps[..t]), link.account)
  }

  /** A chain of grants from an account that was superadmin at the start. */
  ghost predicate Chain(store: Store, steps: seq<Step>, links: seq<Link>) {
    && links != [] && links[0].time == 0 && IsSuper(store, links[0].account)
    && (forall i :: 0 <= i < |links| - 1 ==> Passes(store, steps, links[i], links[i + 1]))
    && links[|links| - 1].time <= |steps|
  }

  lemma ChainExtends(store: Store, steps: seq<Step>, links: seq<Link>)
    requires steps != [] && Chain(store, steps[..|steps| - 1], links)
    ensures Chain(store, steps, links)
  {
    var shorter := steps[..|steps| - 1];
    forall i | 0 <= i < |links| - 1 ensures Passes(store, steps, links[i], links[i + 1]) {
      assert Passes(store, shorter, links[i], links[i + 1]);
      var t := links[i + 1].time - 1;
      assert shorter[..t] == steps[..t];
    }
  }

  /** Every superadmin traces back, grant by grant, to an account that was superadmin at the start. */
  lemma {:induction false} SuperadminTracesBack(store: Store, steps: seq<Step>, a: AccountId) returns (links: seq<Link>)
    requires IsSuper(Run(store, steps), a)
    ensures Chain(store, steps, links) && links[|links| - 1].account == a
    decreases |steps|
  {
    if steps == [] {
      links := [Link(a, 0)];
    } else {
      var n := |steps| - 1;
      var before, last := Run(store, steps[..n]), steps[n];
      if IsSuper(before, a) {
        links := SuperadminTracesBack(store, steps[..n], a);
        ChainExtends(store, steps, links);
      } else {
        BecomesSuper(before, last, a);
        links := SuperadminTracesBack(store, steps[..n], last.caller);
        ChainExtends(store, steps, links);
        var next := Link(a, n + 1);
        assert Passes(store, steps, links[|links| - 1], next) by {
          ChainTimes(store, steps[..n], links);
        }
        links := links + [next];
      }
    }
  }

  lemma ChainTimes(store: Store, steps: seq<Step>, links: seq<Link>)
    requires Chain(store, steps, links)
    ensures links[|links| - 1].time <= |steps|
  {
  }

  // ── How a role is lost ─────────────────────────────────────────────────────

  /** The account holds the role, as the type it held it as before. */
  predicate StillHolds(before: Store, after: Store, a: AccountId, role: string) {
    && a in before && role in before[a].roles
    && a in after && role in after[a].roles && after[a].roles[role] == before[a].roles[role]
  }

  /**
   The ways to lose a role: the account is deleted; or the role is removed or
   granted anew by a superadmin, an engineer, or a holder of it; or it is
   removed under a spelling of the account that the gate does not look at.
   */
  ghost predicate TakesRole(store: Store, step: Step, a: AccountId, role: string) {
    var roles := RolesHeld(store, step.caller);
    match step.request
    case Delete(target) => Spells(target, a)
    case AddRole(target, grant) =>
      Spells(target, a) && grant.role == role && (HoldsSuperadmin(roles) || "engineer" in roles || role in roles)
    case RemoveRole(target, removed) =>
      && removed == role && Spells(target, a)
      && (target == Loose(a) || HoldsSuperadmin(roles) || "engineer" in roles || role in roles)
    case _ => false
  }

  lemma RoleTaken(store: Store, step: Step, a: AccountId, role: string)
    requires a in store && role in store[a].roles && !StillHolds(store, Handle(store, step), a, role)
    ensures TakesRole(store, step, a, role)
  {
    hide HoldsSuperadmin, SuperadminSpelled;
    LetThroughExactly(store, step);
  }

  /** In every run, a role an account no longer holds as it did was taken at some step while it still did. */
  lemma {:induction false} RoleTakenInRun(store: Store, steps: seq<Step>, a: AccountId, role: string) returns (i: nat)
    requires a in store && role in store[a].roles && !StillHolds(store, Run(store, steps), a, role)
    ensures i < |steps| && StillHolds(store, Run(store, steps[..i]), a, role)
    ensures TakesRole(Run(store, steps[..i]), steps[i], a, role)
    decreases |steps|
  {
    i := |steps| - 1;
    var before := Run(store, steps[..i]);
    if StillHolds(store, before, a, role) {
      RoleTaken(before, steps[i], a, role);
    } else {
      i := RoleTakenInRun(store, steps[..i], a, role);
      assert steps[..|steps| - 1][..i] == steps[..i];
    }
  }

  /**
   The last way is open: an admin of another role removes one under a loose
   spelling, and not under the stored one.
   */
  lemma LooseRemovalSlips() returns (store: Store, step: Step)
    ensures step.request == RemoveRole(Loose("bob"), "ops") && "ops" !in RolesHeld(store, step.caller)
    ensures StillHolds(store, store, "bob", "ops") && !StillHolds(store, Handle(store, step), "bob", "ops")
    ensures StillHolds(store, Handle(store, step.(request := RemoveRole(Exact("bob"), "ops"))), "bob", "ops")
  {
    store := map["bob" := Record("", map[], map["ops" := MEMBER], {}),
                 "lead" := Record("", map[], map["support" := ADMIN], {})];
    step := Step("lead", ADMIN, Users, RemoveRole(Loose("bob"), "ops"));
    GrantsHeld(store, "lead");
    GrantsHeld(store, "bob");
    assert Held(GrantsIn(store), "bob") == map["ops" := MEMBER];
    assert Held(GrantsIn(store), "lead") == map["support" := ADMIN];
  }

  // ── Role closure ───────────────────────────────────────────────────────────

  /** The accounts hold no role outside `roles`, and none as superadmin. */
  ghost predicate Within(store: Store, accounts: set<AccountId>, roles: set<string>) {
    forall a, r :: a in accounts && a in store && r in store[a].roles ==> r in roles && store[a].roles[r] != SUPERADMIN
  }

  lemma WithinAccount(store: Store, accounts: set<AccountId>, roles: set<string>, a: AccountId)
    requires Within(store, accounts, roles) && a in accounts
    ensures !IsSuper(store, a)
    ensures forall r :: HasRole(GrantsIn(store), a, r) ==> r in roles
  {
    SuperHeld(store, a);
    if a in store {
      assert Held(GrantsIn(store), a) == store[a].roles;
      forall r | r in store[a].roles ensures r in roles && store[a].roles[r] != SUPERADMIN {
      }
    }
  }

  lemma WithinStep(store: Store, step: Step, accounts: set<AccountId>, roles: set<string>)
    requires Within(store, accounts, roles) && step.caller in accounts && BUILDER_ROLE !in roles
    ensures Within(Handle(store, step), accounts, roles)
  {
    var after, grants := Handle(store, step), GrantsIn(store);
    WithinAccount(store, accounts, roles, step.caller);
    forall a, r | a in accounts && a in after && r in after[a].roles
      ensures r in roles && after[a].roles[r] != SUPERADMIN
    {
      if step.request.Create? && !(a in store && store[a] == after[a]) {
        RolesOfGrants(step.request.grants, r);
        assert MayGrantRole(grants, step.caller, Grant(r, after[a].roles[r])).Allowed?;
      } else if step.request.AddRole? && !(a in store && store[a] == after[a]) {
        assert after[a].roles == store[a].roles[step.request.grant.role := step.request.grant.kind];
        assert MayGrantRole(grants, step.caller, step.request.grant).Allowed?;
      }
    }
  }

  lemma {:induction false} WithinRun(store: Store, steps: seq<Step>, accounts: set<AccountId>, roles: set<string>)
    requires Within(store, accounts, roles) && BUILDER_ROLE !in roles
    requires forall s :: s in steps ==> s.caller in accounts
    ensures Within(Run(store, steps), accounts, roles)
    decreases |steps|
  {
    if steps != [] {
      WithinRun(store, steps[..|steps| - 1], accounts, roles);
      WithinStep(Run(store, steps[..|steps| - 1]), steps[|steps| - 1], accounts, roles);
    }
  }

  /**
   When nobody who acts starts as a superadmin or an engineer, then however
   their requests interleave, every role any of them comes to hold was held by
   one of them at the start.
   */
  lemma RolesStayAmongCallers(store: Store, steps: seq<Step>, callers: set<AccountId>)
    requires forall s :: s in steps ==> s.caller in callers
    requires forall c :: c in callers ==> !IsSuper(store, c) && !HasRole(GrantsIn(store), c, BUILDER_ROLE)
    ensures forall c, r :: c in callers && HasRole(GrantsIn(Run(store, steps)), c, r)
              ==> exists c0 :: c0 in callers && HasRole(GrantsIn(store), c0, r)
    ensures forall c :: c in callers ==> !IsSuper(Run(store, steps), c)
  {
    var roles := set c, r | c in callers && c in store && r in store[c].roles :: r;
    forall c, r | c in callers && c in store && r in store[c].roles ensures store[c].roles[r] != SUPERADMIN {
      SuperHeld(store, c);
    }
    assert BUILDER_ROLE !in roles by {
      if c, r :| c in callers && c in store && r in store[c].roles && r == BUILDER_ROLE {
        assert HasRole(GrantsIn(store), c, BUILDER_ROLE);
      }
    }
    WithinRun(store, steps, callers, roles);
    forall c, r | c in callers && HasRole(GrantsIn(Run(store, steps)), c, r)
      ensures exists c0 :: c0 in callers && HasRole(GrantsIn(store), c0, r)
    {
      assert r in roles;
      var c0, r0 :| c0 in callers && c0 in store && r0 in store[c0].roles && r0 == r;
      assert HasRole(GrantsIn(store), c0, r);
    }
    forall c | c in callers ensures !IsSuper(Run(store, steps), c) {
      WithinAccount(Run(store, steps), callers, roles, c);
    }
  }
}