/**
 Who may start a workflow, and as whom (services/invocation-access.ts and the
 decisions of services/workflow-invocation.ts).
 */
module InvocationAccess {
  import opened Capabilities

  const CAPABILITY_INVOKE_WORKFLOW := "capabilityInvoke"
  const SYSTEM_AUTHORITY_WORKFLOWS: set<string> := {CAPABILITY_INVOKE_WORKFLOW}

  function Rank(kind: string): nat {
    if kind == MEMBER then 1 else if kind == ADMIN then 2 else if kind == SUPERADMIN then 3 else 0
  }

  predicate HoldsKind(grants: seq<Grant>, kind: string) {
    exists g :: g in grants && g.kind == kind
  }

  /** Some grant of the caller covers `t`: the same role, held at least as high. */
  predicate Covers(caller: seq<Grant>, t: Grant) {
    exists c :: c in caller && c.role == t.role && Rank(c.kind) >= Rank(t.kind)
  }

  /** Whether a caller may run a workflow as another principal. */
  predicate MayActAs(caller: seq<Grant>, target: seq<Grant>) {
    if HoldsKind(caller, SUPERADMIN) then true
    else if !HoldsKind(caller, ADMIN) then false
    else if HoldsKind(target, SUPERADMIN) then false
    else forall t :: t in target ==> Covers(caller, t)
  }

  predicate HasGlobalInvocationAccess(grants: seq<Grant>) {
    HoldsKind(grants, SUPERADMIN) || Grant(ADMIN, ADMIN) in grants
  }

  /** The invocation rules of a workflow. */
  datatype Rules = Rules(workflowType: string, invocable: bool, roles: seq<string>)

  predicate CanInvokeWorkflow(rules: Rules, grants: seq<Grant>) {
    if !rules.invocable then false
    else if rules.workflowType in SYSTEM_AUTHORITY_WORKFLOWS then HoldsKind(grants, SUPERADMIN)
    else if rules.roles == [] then true
    else if HasGlobalInvocationAccess(grants) then true
    else exists g :: g in grants && g.role in rules.roles
  }

  lemma CoversTransitive(a: seq<Grant>, b: seq<Grant>, t: Grant)
    requires Covers(b, t) && forall u :: u in b ==> Covers(a, u)
    ensures Covers(a, t)
  {
    var u :| u in b && u.role == t.role && Rank(u.kind) >= Rank(t.kind);
    var c :| c in a && c.role == u.role && Rank(c.kind) >= Rank(u.kind);
  }

  lemma MayActAsTransitive(a: seq<Grant>, b: seq<Grant>, c: seq<Grant>)
    requires MayActAs(a, b) && MayActAs(b, c)
    ensures MayActAs(a, c)
  {
    if !HoldsKind(a, SUPERADMIN) {
      forall t | t in c ensures Covers(a, t) {
        CoversTransitive(a, b, t);
      }
    }
  }

  /** Acting as another reaches no workflow the caller could not start itself. */
  lemma ActingNeverExceeds(a: seq<Grant>, b: seq<Grant>, rules: Rules)
    requires MayActAs(a, b) && CanInvokeWorkflow(rules, b)
    ensures CanInvokeWorkflow(rules, a)
  {
    if !HoldsKind(a, SUPERADMIN) {
      if Grant(ADMIN, ADMIN) in b {
        assert Covers(a, Grant(ADMIN, ADMIN));
        var c :| c in a && c.role == ADMIN && Rank(c.kind) >= 2;
        assert c.kind == ADMIN;
      }
      if g :| g in b && g.role in rules.roles {
        assert Covers(a, g);
      }
    }
  }

  /** Each principal of a chain may act as the next. */
  ghost predicate ActingChain(chain: seq<seq<Grant>>) {
    forall i :: 0 <= i < |chain| - 1 ==> MayActAs(chain[i], chain[i + 1])
  }

  /** Along a chain of any length, what the last can invoke the first can. */
  lemma {:induction false} ChainNeverExceeds(chain: seq<seq<Grant>>, rules: Rules)
    requires chain != [] && ActingChain(chain) && CanInvokeWorkflow(rules, chain[|chain| - 1])
    ensures CanInvokeWorkflow(rules, chain[0])
    ensures |chain| > 1 ==> MayActAs(chain[0], chain[|chain| - 1])
    decreases |chain|
  {
    if |chain| > 1 {
      var shorter := chain[..|chain| - 1];
      ActingNeverExceeds(chain[|chain| - 2], chain[|chain| - 1], rules);
      ChainNeverExceeds(shorter, rules);
      if |chain| > 2 {
        MayActAsTransitive(chain[0], chain[|chain| - 2], chain[|chain| - 1]);
      }
    }
  }

  /** The test for a superadmin target is implied by coverage: only a superadmin grant ranks as high as one. */
  lemma ActsByCoverage(caller: seq<Grant>, target: seq<Grant>)
    ensures MayActAs(caller, target)
            <==> (|| HoldsKind(caller, SUPERADMIN)
                  || (HoldsKind(caller, ADMIN) && forall t :: t in target ==> Covers(caller, t)))
  {
    if t :| t in target && t.kind == SUPERADMIN && Covers(caller, t) {
      var c :| c in caller && c.role == t.role && Rank(c.kind) >= Rank(t.kind);
      assert c.kind == SUPERADMIN;
    }
  }

  /**
   Who may act as whom, read off the grants: a superadmin as anyone, an admin
   as those whose grants they hold as high.
   */
  lemma MayActAsExactly(caller: seq<Grant>, target: seq<Grant>)
    ensures MayActAs(caller, target)
            <==> (|| (exists c :: c in caller && c.kind == "superadmin")
                  || ((exists c :: c in caller && c.kind == "admin")
                      && forall t :: t in target ==>
                           match t.kind {
                             case "superadmin" => false
                             case "admin" => Grant(t.role, "admin") in caller
                             case "member" => Grant(t.role, "admin") in caller || Grant(t.role, "member") in caller
                             case _ => exists c :: c in caller && c.role == t.role
                           }))
  {
    ActsByCoverage(caller, target);
    forall t | t in target && !HoldsKind(caller, SUPERADMIN)
      ensures Covers(caller, t)
          <==> match t.kind {
                 case "superadmin" => false
                 case "admin" => Grant(t.role, "admin") in caller
                 case "member" => Grant(t.role, "admin") in caller || Grant(t.role, "member") in caller
                 case _ => exists c :: c in caller && c.role == t.role
               }
    {
      CoversExactly(caller, t);
    }
  }

  lemma CoversExactly(caller: seq<Grant>, t: Grant)
    requires !HoldsKind(caller, SUPERADMIN)
    ensures Covers(caller, t)
        <==> match t.kind {
               case "superadmin" => false
               case "admin" => Grant(t.role, "admin") in caller
               case "member" => Grant(t.role, "admin") in caller || Grant(t.role, "member") in caller
               case _ => exists c :: c in caller && c.role == t.role
             }
  {
    if c :| c in caller && c.role == t.role && Rank(c.kind) >= Rank(t.kind) {
      assert c == Grant(t.role, c.kind);
    }
  }

  // ── The gate on invocations from outside ───────────────────────────────────

  /** A stored workflow config, as far as the gate reads it. */
  datatype WorkflowConfig = WorkflowConfig(invocable: bool, taskQueue: string, roles: seq<string>)

  /** The configs and worker queues by workflow type, and the grants of every known principal. */
  datatype Registry =
    Registry(configs: map<string, WorkflowConfig>, workers: map<string, string>, users: map<string, seq<Grant>>)

  datatype Verdict = Passed | Rejected(status: nat)

  /** The rules the gate decides by; it leaves `invocable` to the task-queue lookup. */
  function GateRules(reg: Registry, workflowType: string): Rules {
    Rules(workflowType, true, if workflowType in reg.configs then reg.configs[workflowType].roles else [])
  }

  function CheckInvocationRoles(reg: Registry, workflowType: string, userId: string): Verdict {
    var systemAuthority := workflowType in SYSTEM_AUTHORITY_WORKFLOWS;
    if !systemAuthority && (workflowType !in reg.configs || reg.configs[workflowType].roles == []) then Passed
    else if userId !in reg.users then Rejected(403)
    else if !CanInvokeWorkflow(GateRules(reg, workflowType), reg.users[userId]) then Rejected(403)
    else Passed
  }

  function AssertMayActAs(reg: Registry, userId: string, executeAs: string): Verdict {
    if userId !in reg.users then Rejected(403)
    else if executeAs !in reg.users then Rejected(404)
    else if !MayActAs(reg.users[userId], reg.users[executeAs]) then Rejected(403)
    else Passed
  }

  function AuthorizeInvocation(reg: Registry, workflowType: string, userId: string, executeAs: string): Verdict {
    var roles := CheckInvocationRoles(reg, workflowType, userId);
    if !roles.Passed? then roles
    else if executeAs != "" then AssertMayActAs(reg, userId, executeAs)
    else Passed
  }

  /** The queue to start on: the configured one, else an active worker's. */
  function ResolveTaskQueue(reg: Registry, workflowType: string): (Verdict, string) {
    if workflowType in reg.configs then
      var config := reg.configs[workflowType];
      if !config.invocable then (Rejected(403), "")
      else if config.taskQueue == "" then (Rejected(400), "")
      else (Passed, config.taskQueue)
    else if workflowType in reg.workers then (Passed, reg.workers[workflowType])
    else (Rejected(404), "")
  }

  /** The grants a decision looks at: none for a principal nobody registered. */
  function GrantsOf(reg: Registry, userId: string): seq<Grant> {
    if userId in reg.users then reg.users[userId] else []
  }

  /** For every caller, registered or not, the gate passes exactly when the one invocation predicate holds. */
  lemma GateIsPredicate(reg: Registry, workflowType: string, userId: string)
    ensures CheckInvocationRoles(reg, workflowType, userId).Passed?
            <==> CanInvokeWorkflow(GateRules(reg, workflowType), GrantsOf(reg, userId))
  {
  }

  /**
   Who passes the gate: for the system-authority workflow, superadmins only,
   whatever roles are listed; for one with no roles listed, everyone; for any
   other, registered superadmins, the admin role's admins, and holders of a
   listed role.
   */
  lemma GateExactly(reg: Registry, workflowType: string, userId: string)
    ensures var verdict := CheckInvocationRoles(reg, workflowType, userId);
      var listed := if workflowType in reg.configs then reg.configs[workflowType].roles else [];
      && (verdict == Passed || verdict == Rejected(403))
      && (verdict.Passed? <==>
            if workflowType == "capabilityInvoke" then
              userId in reg.users && exists g :: g in reg.users[userId] && g.kind == "superadmin"
            else
              || listed == []
              || (userId in reg.users
                  && exists g :: g in reg.users[userId]
                       && (g.kind == "superadmin" || g == Grant("admin", "admin") || g.role in listed)))
  {
  }

  /** Both the gate and the override have to pass; the first that does not gives the status. */
  lemma AuthorizedExactly(reg: Registry, workflowType: string, userId: string, executeAs: string)
    ensures var verdict := AuthorizeInvocation(reg, workflowType, userId, executeAs);
      var gate := CheckInvocationRoles(reg, workflowType, userId);
      verdict == (if !gate.Passed? then gate
                  else if executeAs == "" then Passed
                  else if userId !in reg.users then Rejected(403)
                  else if executeAs !in reg.users then Rejected(404)
                  else if MayActAs(reg.users[userId], reg.users[executeAs]) then Passed
                  else Rejected(403))
  {
  }

  /** The queue a start resolves to, and the status when there is none. */
  lemma QueueExactly(reg: Registry, workflowType: string, queue: string)
    ensures ResolveTaskQueue(reg, workflowType) == (Passed, queue)
            <==> (|| (workflowType in reg.configs && reg.configs[workflowType].invocable && queue != ""
                      && reg.configs[workflowType].taskQueue == queue)
                  || (workflowType !in reg.configs && workflowType in reg.workers
                      && reg.workers[workflowType] == queue))
    ensures var verdict := ResolveTaskQueue(reg, workflowType).0;
      && (verdict == Rejected(403) <==> workflowType in reg.configs && !reg.configs[workflowType].invocable)
      && (verdict == Rejected(400) <==>
            && workflowType in reg.configs && reg.configs[workflowType].invocable
            && reg.configs[workflowType].taskQueue == "")
      && (verdict == Rejected(404) <==> workflowType !in reg.configs && workflowType !in reg.workers)
  {
  }

  /**
   Whatever an authorized override makes reachable was the caller's already:
   any workflow the principal it runs as passes the gate for, the caller
   passes it for, directly or as itself.
   */
  lemma OverrideNeverExceeds(reg: Registry, workflowType: string, userId: string, executeAs: string, other: string)
    requires executeAs != "" && AuthorizeInvocation(reg, workflowType, userId, executeAs).Passed?
    requires CheckInvocationRoles(reg, other, executeAs).Passed?
    ensures CheckInvocationRoles(reg, other, userId).Passed?
  {
    GateIsPredicate(reg, other, executeAs);
    GateIsPredicate(reg, other, userId);
    ActingNeverExceeds(reg.users[userId], reg.users[executeAs], GateRules(reg, other));
  }

  /**
   With the queue resolved too, an authorized start of a configured workflow
   satisfies the full rules of its config.
   */
  lemma AuthorizedStartObeysConfig(reg: Registry, workflowType: string, userId: string, executeAs: string)
    requires workflowType in reg.configs && ResolveTaskQueue(reg, workflowType).0.Passed?
    requires AuthorizeInvocation(reg, workflowType, userId, executeAs).Passed?
    ensures var config := reg.configs[workflowType];
      CanInvokeWorkflow(Rules(workflowType, config.invocable, config.roles), GrantsOf(reg, userId))
  {
    GateIsPredicate(reg, workflowType, userId);
  }
}
