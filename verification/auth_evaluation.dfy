/** Exactly when a request is allowed, and why not otherwise, told by the rows of the tables. */
module AuthEvaluation {
  import opened Options
  import opened AuthModel
  import opened AuthDelegation

  // ---------------------------------------------------------------------------------------
  // Source routes

  /** What a category of a group's policy stands for. */
  ghost predicate Stands(category: string, action: string) {
    || (category == "group.read" && action == "group:read")
    || (category == "group.members" && action == "group:members:read")
    || (category == "group.history" && action == "history:read")
    || (category == "group.content" && action == "group:content:read")
    || (category == "group.files.read" && action == "group:files:read")
    || (category == "group.files.write" && action == "group:files:write")
    || (category == "group.moderate" && action == "group:moderate")
    || (category == "group.settings" && action in {"group:settings:local", "group:settings:write"})
  }

  /** What a class of remembered sources stands for. */
  ghost predicate StandsFor(sourceClass: string, action: string) {
    || (sourceClass == "history" && action == "history:read")
    || (sourceClass in {"notice", "essence", "album"} && action == "group:content:read")
    || (sourceClass == "metadata" && action == "group:read")
    || (sourceClass == "file" && action == "group:files:read")
  }

  /** Where a text holds a character that takes two UTF-16 code units. */
  ghost function Wide(s: string): set<nat> {
    set i: nat | i < |s| && s[i] as int >= 0x10000
  }

  ghost predicate Usable(s: string) {
    0 < |s| + |Wide(s)| <= 512 && forall c :: c in s ==> c as int >= 32
  }

  lemma {:induction false} UnitsCount(s: string)
    ensures Units(s) == |s| + |Wide(s)|
    decreases |s|
  {
    if s == "" {
      assert Wide(s) == {};
    } else {
      var last := |s| - 1;
      UnitsCount(s[..last]);
      var more: set<nat> := if s[last] as int >= 0x10000 then {last} else {};
      assert Wide(s) == Wide(s[..last]) + more;
      assert last !in Wide(s[..last]);
    }
  }

  /** A group's policy has this switched on for the Resource of that group. */
  ghost predicate SwitchedOn(env: Environment, t: Tuple, c: Claim)
    requires !c.NoCondition?
  {
    && Usable(c.connectionId) && Usable(c.groupId)
    && t.resourceId in env.resources && env.resources[t.resourceId].kind == "qq_group" && t.resourceId == "group:" + c.groupId
    && (c.connectionId, c.groupId) in env.policies
    && var policy := env.policies[(c.connectionId, c.groupId)];
       if c.QqCategory? then Stands(c.category, t.action) && c.category in policy.categories
       else StandsFor(c.sourceClass, t.action) && c.sourceClass in policy.memorySources
  }

  /** The route does not stand in the way. */
  ghost predicate RouteIsOpen(env: Environment, t: Tuple, route: Route) {
    match route
    case Unstated => true
    case LegacyRoute =>
      !(t.resourceId in env.resources && env.resources[t.resourceId].kind == "qq_group" && "group:" <= t.resourceId
        && exists category :: Stands(category, t.action))
    case Named(c) => c == NoCondition || SwitchedOn(env, t, c)
  }

  lemma CategoriesAreListed(category: string, action: string)
    ensures (category, action) in GROUP_CAPABILITIES <==> Stands(category, action)
    ensures IsGroupAction(action) <==> exists c :: Stands(c, action)
    ensures (category, action) in GROUP_CAPABILITIES ==> IsGroupCategory(category)
  {
    ListedExactly(category, action);
    if IsGroupAction(action) {
      var c :| c in GROUP_CAPABILITIES && c.1 == action;
      ListedExactly(c.0, action);
    }
    if c :| Stands(c, action) {
      ListedExactly(c, action);
      assert (c, action) in GROUP_CAPABILITIES && (c, action).1 == action;
    }
    if (category, action) in GROUP_CAPABILITIES {
      assert (category, action).0 == category;
    }
  }

  lemma ListedExactly(category: string, action: string)
    ensures (category, action) in GROUP_CAPABILITIES <==> Stands(category, action)
  {
    var i := [("group.read", "group:read"), ("group.members", "group:members:read"), ("group.history", "history:read"),
              ("group.content", "group:content:read"), ("group.files.read", "group:files:read"),
              ("group.files.write", "group:files:write"), ("group.moderate", "group:moderate"),
              ("group.settings", "group:settings:local"), ("group.settings", "group:settings:write")];
    assert GROUP_CAPABILITIES == i;
    assert forall x :: x in i <==> || x == i[0] || x == i[1] || x == i[2] || x == i[3] || x == i[4] || x == i[5] || x == i[6]
                                   || x == i[7] || x == i[8];
  }

  lemma IdentifiersAreUsable(s: string)
    ensures IsIdentifier(s) <==> Usable(s)
  {
    UnitsCount(s);
    if Usable(s) {
      forall i | 0 <= i < |s| ensures s[i] as int >= 32 {
        assert s[i] in s;
      }
    }
  }

  lemma RoutesOpenExactly(env: Environment, t: Tuple, route: Route)
    requires t.resourceId in env.resources
    ensures RouteAllows(env, t, env.resources[t.resourceId].kind, route) <==> RouteIsOpen(env, t, route)
  {
    match route
    case Unstated =>
    case LegacyRoute => CategoriesAreListed("", t.action);
    case Named(c) =>
      match c
      case NoCondition =>
      case QqCategory(k, g, category) =>
        IdentifiersAreUsable(k);
        IdentifiersAreUsable(g);
        CategoriesAreListed(category, t.action);
      case QqMemorySource(k, g, sourceClass) =>
        IdentifiersAreUsable(k);
        IdentifiersAreUsable(g);
  }

  // ---------------------------------------------------------------------------------------
  // Delegation

  /** Bookkeeping of the Task itself, and running the Task's own Conversation. */
  ghost predicate OwnBusiness(req: Request, task: Id, conversationId: Option<Id>) {
    || (req.tuple.resourceId == "task-" + task
        && req.tuple.action in {"task:read", "task:continue", "task:plan", "task:delegate", "task:checkpoint:write"})
    || (req.conversationId.Some? && req.conversationId == conversationId && req.tuple.resourceId == "agent:personal"
        && req.tuple.action in {"run:create", "conversation:read", "run:control"})
  }

  /** A way up on which every link lists the permission, or need not. */
  ghost predicate PassedOn(links: map<Id, Link>, path: seq<Id>, p: Permission, own: bool)
    requires forall i :: 0 <= i < |path| - 1 ==> path[i] in links
  {
    forall i :: 0 <= i < |path| - 1 ==> links[path[i]].permissions.Some? && (own || p in links[path[i]].permissions.value)
  }

  /** The Task is the caller's own, made where the caller is, and every link from it to its root passes the permission on. */
  ghost predicate TaskPermits(env: Environment, req: Request, task: Id, conversationId: Option<Id>) {
    && task in env.tasks
    && env.tasks[task].creator == req.tuple.principalId && env.tasks[task].originScope == Some(req.tuple.scope)
    && exists path :: IsLineage(env.links, task, path) && Distinct(path) && |path| <= 5
                      && PassedOn(env.links, path, Permission(req.tuple.resourceId, req.tuple.action),
                                  OwnBusiness(req, task, conversationId))
  }

  /** What a delegating Task, if any, has to say to the request. */
  ghost predicate Delegated(env: Environment, req: Request) {
    if req.runId.Some? && req.runId.value in env.runs && env.runs[req.runId.value].taskStep then
      var run := env.runs[req.runId.value];
      && run.attemptTask.Some? && (req.delegatedTaskId.None? || req.delegatedTaskId == run.attemptTask)
      && TaskPermits(env, req, run.attemptTask.value, Some(run.conversationId))
    else if req.delegatedTaskId.None? then true
    else
      var task := req.delegatedTaskId.value;
      && (req.runId.None? || (req.runId.value in env.runs && task in env.tasks && env.tasks[task].runId == req.runId))
      && task in env.tasks && TaskPermits(env, req, task, env.tasks[task].conversationId)
  }

  lemma ChainPasses(links: map<Id, Link>, task: Id, p: Permission, own: bool)
    ensures ChainAllows(links, task, p, own) <==>
            exists path :: IsLineage(links, task, path) && Distinct(path) && |path| <= 5 && PassedOn(links, path, p, own)
  {
    ChainAllowsExactlyWhen(links, task, p, own);
    if path :| IsLineage(links, task, path) && Distinct(path) && |path| <= 5 && PassedOn(links, path, p, own) {
      assert forall i :: 0 <= i < |path| - 1 ==> Lists(links[path[i]], p, own);
    }
    if ChainAllows(links, task, p, own) {
      var path :| IsLineage(links, task, path) && Distinct(path) && |path| <= MAX_LINEAGE
                  && forall i :: 0 <= i < |path| - 1 ==> Lists(links[path[i]], p, own);
      assert PassedOn(links, path, p, own);
    }
  }

  lemma TaskPermitsExactly(env: Environment, req: Request, task: Id, conversationId: Option<Id>)
    requires task in env.tasks
    ensures TaskPermits(env, req, task, conversationId) <==>
              && env.tasks[task].creator == req.tuple.principalId && env.tasks[task].originScope == Some(req.tuple.scope)
              && ChainAllows(env.links, task, Permission(req.tuple.resourceId, req.tuple.action), Technical(req, task, conversationId))
  {
    assert Technical(req, task, conversationId) == OwnBusiness(req, task, conversationId);
    ChainPasses(env.links, task, Permission(req.tuple.resourceId, req.tuple.action), OwnBusiness(req, task, conversationId));
  }

  lemma DelegatedExactly(env: Environment, req: Request)
    ensures DelegationAllows(env, req) <==> Delegated(env, req)
  {
    if req.runId.Some? && req.runId.value in env.runs && env.runs[req.runId.value].taskStep {
      var run := env.runs[req.runId.value];
      if run.attemptTask.Some? && run.attemptTask.value in env.tasks {
        TaskPermitsExactly(env, req, run.attemptTask.value, Some(run.conversationId));
      }
    } else if req.delegatedTaskId.Some? && req.delegatedTaskId.value in env.tasks {
      TaskPermitsExactly(env, req, req.delegatedTaskId.value, env.tasks[req.delegatedTaskId.value].conversationId);
    }
  }

  // ---------------------------------------------------------------------------------------
  // Grants

  ghost predicate Stood(s: State, t: Tuple, e: Effect, i: nat) {
    i < |s.grants| && s.grants[i].tuple == t && s.grants[i].effect == e && !s.grants[i].revoked
  }

  ghost predicate IsLive(s: State, t: Tuple, e: Effect) { exists i: nat :: Stood(s, t, e, i) }

  /** The caller made the Task where they are, and their Task policy has a live allow row for the action. */
  ghost predicate PolicyStands(s: State, t: Tuple, i: nat) {
    && t.resourceId in s.env.resources && s.env.resources[t.resourceId].kind == "task"
    && (t.principalId, t.scope) in s.env.taskPolicies
    && (exists task :: task in s.env.tasks && t.resourceId == "task-" + task
                       && s.env.tasks[task].creator == t.principalId && s.env.tasks[task].originScope == Some(t.scope))
    && Stood(s, Tuple(t.principalId, s.env.taskPolicies[(t.principalId, t.scope)], t.action, t.scope), AllowEffect, i)
  }

  ghost predicate PolicyIsLive(s: State, t: Tuple) { exists i: nat :: PolicyStands(s, t, i) }

  lemma FirstLiveExactly(s: State, t: Tuple, e: Effect)
    ensures FirstLive(s.grants, t, e).Some? <==> IsLive(s, t, e)
    ensures FirstLive(s.grants, t, e).Some? ==> Stood(s, t, e, FirstLive(s.grants, t, e).value)
  {
    var found := FirstLive(s.grants, t, e);
    if found.Some? {
      assert Stood(s, t, e, found.value);
    }
    if i: nat :| Stood(s, t, e, i) {
      assert Live(s.grants[i], t, e);
    }
  }

  lemma TaskPolicyExactly(s: State, t: Tuple)
    requires t.resourceId in s.env.resources
    ensures var f := FallbackTuple(s.env, t, s.env.resources[t.resourceId].kind);
            && (f.Some? && FirstLive(s.grants, f.value, AllowEffect).Some? <==> PolicyIsLive(s, t))
            && (f.Some? && FirstLive(s.grants, f.value, AllowEffect).Some? ==>
                  PolicyStands(s, t, FirstLive(s.grants, f.value, AllowEffect).value))
  {
    var f := FallbackTuple(s.env, t, s.env.resources[t.resourceId].kind);
    if f.Some? {
      assert t.resourceId == "task-" + t.resourceId[5..];
      FirstLiveExactly(s, f.value, AllowEffect);
      if FirstLive(s.grants, f.value, AllowEffect).Some? {
        assert PolicyStands(s, t, FirstLive(s.grants, f.value, AllowEffect).value);
      }
    }
    if i: nat :| PolicyStands(s, t, i) {
      var task :| task in s.env.tasks && t.resourceId == "task-" + task
                  && s.env.tasks[task].creator == t.principalId && s.env.tasks[task].originScope == Some(t.scope);
      assert t.resourceId[5..] == task;
      assert Stood(s, f.value, AllowEffect, i);
    }
  }

  /** An allow row comes first, then one that asks for approval, and only then the Task policy. */
  lemma GrantsAreFoundExactly(s: State, t: Tuple)
    requires t.resourceId in s.env.resources
    ensures var g := GrantFor(s, t, s.env.resources[t.resourceId].kind);
            && (g.Some? <==> IsLive(s, t, AllowEffect) || IsLive(s, t, ApprovalEffect) || PolicyIsLive(s, t))
            && (g.Some? && s.grants[g.value].effect.ApprovalEffect? <==> !IsLive(s, t, AllowEffect) && IsLive(s, t, ApprovalEffect))
            && (g.Some? ==> if IsLive(s, t, AllowEffect) then Stood(s, t, AllowEffect, g.value)
                            else if IsLive(s, t, ApprovalEffect) then Stood(s, t, ApprovalEffect, g.value)
                            else PolicyStands(s, t, g.value))
  {
    FirstLiveExactly(s, t, AllowEffect);
    FirstLiveExactly(s, t, ApprovalEffect);
    TaskPolicyExactly(s, t);
  }

  // ---------------------------------------------------------------------------------------
  // One evaluation

  ghost predicate Bound(s: State, t: Tuple) {
    var k := Identity(t.scope.connectionId, t.scope.botId, t.scope.senderId);
    k in s.env.identities && s.env.identities[k] == t.principalId
  }

  ghost predicate InReach(s: State, t: Tuple) {
    t.resourceId in s.env.resources && !(s.env.resources[t.resourceId].isPrivate && t.scope.chatType.Group?)
  }

  /** Everything but a grant and its route. */
  ghost predicate MayAsk(s: State, req: Request) {
    Bound(s, req.tuple) && InReach(s, req.tuple) && Delegated(s.env, req)
  }

  ghost predicate Covered(s: State, t: Tuple) {
    IsLive(s, t, AllowEffect) || IsLive(s, t, ApprovalEffect) || PolicyIsLive(s, t)
  }

  ghost predicate HasIdentity(s: State, t: Tuple) {
    Identity(t.scope.connectionId, t.scope.botId, t.scope.senderId) in s.env.identities
  }

  lemma PrecheckIsExact(s: State, req: Request)
    ensures var (r, t) := (Precheck(s, req), req.tuple);
            && (r == Some(IdentityUnbound) <==> !HasIdentity(s, t))
            && (r == Some(IdentityMismatch) <==> HasIdentity(s, t) && !Bound(s, t))
            && (r == Some(ResourceMissing) <==> Bound(s, t) && t.resourceId !in s.env.resources)
            && (r == Some(PrivateGroupContext) <==> Bound(s, t) && t.resourceId in s.env.resources && !InReach(s, t))
            && (r == Some(DelegationScopeDenied) <==> Bound(s, t) && InReach(s, t) && !DelegationAllows(s.env, req))
            && (r.None? <==> Bound(s, t) && InReach(s, t) && DelegationAllows(s.env, req))
  {
  }

  /** What is decided once a request may be asked: by its rows, and its route. */
  lemma JudgedByItsRows(s: State, req: Request, completed: Option<nat>, now: int)
    requires Precheck(s, req).None?
    ensures var (j, t) := (Judge(s, req, completed, now), req.tuple);
            if !Covered(s, t) then j == Refusal(NoGrant)
            else if !RouteIsOpen(s.env, t, req.route) then j == Refusal(SourcePolicyDenied)
            else if IsLive(s, t, AllowEffect) || !IsLive(s, t, ApprovalEffect) then
              && j.verdict.Allow? && j.reason.ExplicitGrant? && j.approval.None? && j.grant.Some?
              && (if IsLive(s, t, AllowEffect) then Stood(s, t, AllowEffect, j.grant.value) else PolicyStands(s, t, j.grant.value))
            else j.reason.Approved? || j.reason.ApprovalNeeded? || j.reason.ApprovalInvalid?
  {
    GrantsAreFoundExactly(s, req.tuple);
    RoutesOpenExactly(s.env, req.tuple, req.route);
  }

  /** Why a request is refused, the first of these that holds. */
  lemma RefusalsAreExact(s: State, req: Request, completed: Option<nat>, now: int)
    ensures var (j, t) := (Judge(s, req, completed, now), req.tuple);
            && (j.reason.IdentityUnbound? <==> !HasIdentity(s, t))
            && (j.reason.IdentityMismatch? <==> HasIdentity(s, t) && !Bound(s, t))
            && (j.reason.ResourceMissing? <==> Bound(s, t) && t.resourceId !in s.env.resources)
            && (j.reason.PrivateGroupContext? <==> Bound(s, t) && t.resourceId in s.env.resources && !InReach(s, t))
            && (j.reason.DelegationScopeDenied? <==> Bound(s, t) && InReach(s, t) && !Delegated(s.env, req))
            && (j.reason.NoGrant? <==> MayAsk(s, req) && !Covered(s, t))
            && (j.reason.SourcePolicyDenied? <==> MayAsk(s, req) && Covered(s, t) && !RouteIsOpen(s.env, t, req.route))
  {
    DelegatedExactly(s.env, req);
    PrecheckIsExact(s, req);
    if Precheck(s, req).None? {
      JudgedByItsRows(s, req, completed, now);
    } else {
      assert Judge(s, req, completed, now) == Refusal(Precheck(s, req).value);
    }
  }

  /** A request is allowed without an approval if and only if the sender is bound to the caller, the Resource may be
      used there, delegation permits it, its route is open, and a live allow row, or else the Task policy, covers it. */
  lemma AllowedOutrightExactlyWhen(s: State, req: Request, completed: Option<nat>, now: int)
    ensures var (j, t) := (Judge(s, req, completed, now), req.tuple);
            && (j.reason.ExplicitGrant? <==>
                  && MayAsk(s, req) && RouteIsOpen(s.env, t, req.route)
                  && (IsLive(s, t, AllowEffect) || (!IsLive(s, t, ApprovalEffect) && PolicyIsLive(s, t))))
            && (j.reason.ExplicitGrant? ==>
                  && j.verdict.Allow? && j.approval.None? && j.grant.Some?
                  && if IsLive(s, t, AllowEffect) then Stood(s, t, AllowEffect, j.grant.value) else PolicyStands(s, t, j.grant.value))
  {
    DelegatedExactly(s.env, req);
    PrecheckIsExact(s, req);
    if Precheck(s, req).None? {
      JudgedByItsRows(s, req, completed, now);
    } else {
      assert Judge(s, req, completed, now) == Refusal(Precheck(s, req).value);
    }
  }

  lemma VerdictsFollowReasons(s: State, req: Request, completed: Option<nat>, now: int)
    ensures var j := Judge(s, req, completed, now);
            && (j.verdict.Allow? <==> j.reason.ExplicitGrant? || j.reason.Approved?)
            && (j.verdict.RequiresApproval? <==> j.reason.ApprovalNeeded?)
  {
  }

  /** Nothing is allowed, on an approval neither, that may not be asked for, has no live row, or whose route is shut. */
  lemma AllowNeedsAnOpenRoute(s: State, req: Request, completed: Option<nat>, now: int)
    requires Judge(s, req, completed, now).verdict.Allow?
    ensures MayAsk(s, req) && RouteIsOpen(s.env, req.tuple, req.route)
    ensures Covered(s, req.tuple)
  {
    RefusalsAreExact(s, req, completed, now);
    VerdictsFollowReasons(s, req, completed, now);
  }

  // ---------------------------------------------------------------------------------------
  // Approvals

  /** Approval `a` is for this very request, unused, in time, and its grant stands. */
  ghost predicate Unused(s: State, req: Request, a: nat, now: int) {
    && a < |s.approvals| && s.approvals[a].tuple == req.tuple && !s.approvals[a].consumed && now < s.approvals[a].expiresAt
    && s.approvals[a].grant < |s.grants| && !s.grants[s.approvals[a].grant].revoked
  }

  /** Decision `of` was allowed on an approval that is used and still in time. */
  ghost predicate StillApproved(s: State, of: nat, now: int) {
    && of < |s.decisions| && s.decisions[of].verdict.Allow? && s.decisions[of].reason.Approved?
    && s.decisions[of].approval.Some? && s.decisions[of].approval.value < |s.approvals|
    && var a := s.approvals[s.decisions[of].approval.value];
       s.decisions[of].grant == Some(a.grant) && a.consumed && now < a.expiresAt
  }

  /** How a route is recorded; malformed claims like an unknown one. */
  ghost function RecordedRoute(route: Route): Option<Claim> {
    match route
    case Unstated => Some(NoCondition)
    case LegacyRoute => None
    case Named(c) =>
      match c
      case NoCondition => Some(c)
      case QqCategory(k, g, category) => if Usable(k) && Usable(g) && (exists a :: Stands(category, a)) then Some(c) else None
      case QqMemorySource(k, g, sourceClass) => if Usable(k) && Usable(g) && (exists a :: StandsFor(sourceClass, a)) then Some(c) else None
  }

  lemma RoutesAreRecorded(route: Route)
    ensures match StoredRoute(route) case None => RecordedRoute(route).None? case Some(c) => RecordedRoute(route) == Some(c)
  {
    if route.Named? && !route.claim.NoCondition? {
      var c := route.claim;
      IdentifiersAreUsable(c.connectionId);
      IdentifiersAreUsable(c.groupId);
      if c.QqCategory? {
        if IsGroupCategory(c.category) {
          var x :| x in GROUP_CAPABILITIES && x.0 == c.category;
          ListedExactly(x.0, x.1);
        }
        if a :| Stands(c.category, a) {
          CategoriesAreListed(c.category, a);
        }
      } else if c.sourceClass in SOURCE_CLASS_ACTIONS {
        assert StandsFor(c.sourceClass, SOURCE_CLASS_ACTIONS[c.sourceClass]);
      }
    }
  }

  /** The read was completed: the decision is about this very request, on the row that asks for approval. */
  ghost predicate WasRead(s: State, req: Request, of: nat, now: int) {
    && StillApproved(s, of, now) && s.decisions[of].tuple == req.tuple && s.decisions[of].runId == req.runId
    && s.decisions[of].conversationId == req.conversationId
    && match s.decisions[of].condition case None => RecordedRoute(req.route).None? case Some(c) => RecordedRoute(req.route) == Some(c)
  }

  ghost function HereOf(t: Tuple): Place {
    Place(t.scope.connectionId, t.scope.botId, t.scope.chatType, t.scope.chatId, t.scope.threadId)
  }

  /** The decision admitted this very Run, whose Conversation is still where the caller is. */
  ghost predicate WasAdmitted(s: State, req: Request, of: nat, now: int) {
    && StillApproved(s, of, now) && s.decisions[of].tuple == req.tuple && s.decisions[of].runId == req.runId
    && req.runId.Some? && req.runId.value in s.env.runs && s.env.runs[req.runId.value].principalId == req.tuple.principalId
    && (HereOf(req.tuple), s.env.runs[req.runId.value].conversationId) in s.env.places
    && s.decisions[of].grant.Some? && s.decisions[of].grant.value < |s.grants| && !s.grants[s.decisions[of].grant.value].revoked
  }

  /** Only a row that asks for approval stands between the request and what it asks for. */
  ghost predicate NeedsApproval(s: State, req: Request) {
    && MayAsk(s, req) && RouteIsOpen(s.env, req.tuple, req.route)
    && !IsLive(s, req.tuple, AllowEffect) && IsLive(s, req.tuple, ApprovalEffect)
  }

  lemma ApprovalIsJudged(s: State, req: Request, completed: Option<nat>, now: int) returns (grant: nat)
    requires NeedsApproval(s, req)
    ensures Stood(s, req.tuple, ApprovalEffect, grant)
    ensures Judge(s, req, completed, now) == JudgeApproval(s, req, grant, completed, now)
  {
    DelegatedExactly(s.env, req);
    GrantsAreFoundExactly(s, req.tuple);
    RoutesOpenExactly(s.env, req.tuple, req.route);
    grant := GrantFor(s, req.tuple, s.env.resources[req.tuple.resourceId].kind).value;
  }

  /** Completing a read: allowed if and only if that very read was approved before, on the row that is live now. */
  lemma CompletedExactlyWhen(s: State, req: Request, of: nat, now: int)
    requires NeedsApproval(s, req)
    ensures var j := Judge(s, req, Some(of), now);
            && j.grant.Some? && Stood(s, req.tuple, ApprovalEffect, j.grant.value)
            && (j.reason.Approved? <==> WasRead(s, req, of, now) && s.decisions[of].grant == j.grant)
            && (!j.reason.Approved? ==> j.reason.ApprovalInvalid?)
            && (j.reason.Approved? ==> j.approval == s.decisions[of].approval && j.basis == RechecksRead(of))
  {
    var grant := ApprovalIsJudged(s, req, Some(of), now);
    RoutesAreRecorded(req.route);
    assert CompletesRead(s, req, grant, of, now) <==> WasRead(s, req, of, now) && s.decisions[of].grant == Some(grant);
  }

  lemma AdmissionsAreFound(s: State, req: Request, now: int)
    requires req.runId.Some?
    ensures FirstAdmission(s, req, now).Some? <==> exists of: nat :: WasAdmitted(s, req, of, now)
    ensures FirstAdmission(s, req, now).Some? ==> WasAdmitted(s, req, FirstAdmission(s, req, now).value, now)
  {
    var found := FirstAdmission(s, req, now);
    if found.Some? {
      assert AdmittedRun(s, req, found.value, now) && WasAdmitted(s, req, found.value, now);
    }
    if of: nat :| WasAdmitted(s, req, of, now) {
      assert AdmittedRun(s, req, of, now);
    }
  }

  /** Otherwise: allowed if and only if it names an approval for it that is unused, or names none and belongs to a Run
      that was admitted on an approval; without either it is told that it needs one. */
  lemma ApprovedExactlyWhen(s: State, req: Request, now: int)
    requires NeedsApproval(s, req)
    ensures var j := Judge(s, req, None, now);
            if req.approvalId.Some? then
              if Unused(s, req, req.approvalId.value, now) then
                j.reason.Approved? && j.basis == Consumes && j.approval == req.approvalId
                && j.grant == Some(s.approvals[req.approvalId.value].grant)
              else j.reason.ApprovalInvalid?
            else if req.tuple.action == "run:create" && req.runId.Some? && exists of: nat :: WasAdmitted(s, req, of, now) then
              j.reason.Approved? && j.basis.RechecksAdmission? && WasAdmitted(s, req, j.basis.of, now)
              && j.approval == s.decisions[j.basis.of].approval && j.grant == s.decisions[j.basis.of].grant
            else j.reason.ApprovalNeeded?
  {
    var grant := ApprovalIsJudged(s, req, None, now);
    if req.approvalId.Some? {
      assert Eligible(s, req, req.approvalId.value, now) <==> Unused(s, req, req.approvalId.value, now);
    } else if req.runId.Some? {
      AdmissionsAreFound(s, req, now);
    }
  }

  // ---------------------------------------------------------------------------------------
  // What is recorded

  /** An evaluation leaves one decision behind, about this request and filed where it says, consumes the approval it
      was allowed on and no other, and changes nothing else. */
  lemma EvaluationsAreFiled(s: State, req: Request, completed: Option<nat>, now: int)
    ensures var (t, j) := Evaluate(s, req, completed, now);
            && t.env == s.env && t.grants == s.grants && |t.approvals| == |s.approvals|
            && (forall a :: 0 <= a < |s.approvals| ==>
                  t.approvals[a] == s.approvals[a].(consumed := s.approvals[a].consumed || (j.basis.Consumes? && j.approval == Some(a))))
            && |t.decisions| == |s.decisions| + 1 && t.decisions[..|s.decisions|] == s.decisions
            && var d := t.decisions[|s.decisions|];
               && d.tuple == req.tuple && d.runId == req.runId && d.conversationId == req.conversationId && d.mark.None?
               && d.verdict == j.verdict && d.reason == j.reason && d.grant == j.grant && d.approval == j.approval && d.basis == j.basis
               && match d.condition case None => RecordedRoute(req.route).None? case Some(c) => RecordedRoute(req.route) == Some(c)
  {
    RoutesAreRecorded(req.route);
  }

  // ---------------------------------------------------------------------------------------
  // Switching a source off

  /** Once a category of a group's policy is switched off, nothing that states it as its route is allowed, whatever is
      granted or approved, and the ledger says why where nothing else stands in the way. */
  lemma SwitchedOffMeansRefused(s: State, req: Request, completed: Option<nat>, now: int, policy: GroupPolicy)
    requires req.route.Named? && !req.route.claim.NoCondition?
    requires var c := req.route.claim;
             if c.QqCategory? then c.category !in policy.categories else c.sourceClass !in policy.memorySources
    ensures var c := req.route.claim;
            var t := Step(s, EEnvironment(s.env.(policies := s.env.policies[(c.connectionId, c.groupId) := policy])));
            && !Evaluate(t, req, completed, now).1.verdict.Allow?
            && (Evaluate(s, req, completed, now).1.verdict.Allow? ==> Evaluate(t, req, completed, now).1.reason.SourcePolicyDenied?)
  {
    var c := req.route.claim;
    var t := Step(s, EEnvironment(s.env.(policies := s.env.policies[(c.connectionId, c.groupId) := policy])));
    assert !RouteIsOpen(t.env, req.tuple, req.route);
    if Judge(t, req, completed, now).verdict.Allow? {
      AllowNeedsAnOpenRoute(t, req, completed, now);
    }
    if Judge(s, req, completed, now).verdict.Allow? {
      AllowNeedsAnOpenRoute(s, req, completed, now);
      RefusalsAreExact(t, req, completed, now);
      SameButPolicies(s, t, req);
    }
  }

  lemma SameButPolicies(s: State, t: State, req: Request)
    requires t == s.(env := s.env.(policies := t.env.policies)) && MayAsk(s, req)
    ensures MayAsk(t, req) && (forall e :: IsLive(s, req.tuple, e) ==> IsLive(t, req.tuple, e))
    ensures PolicyIsLive(s, req.tuple) ==> PolicyIsLive(t, req.tuple)
  {
    forall e | IsLive(s, req.tuple, e) ensures IsLive(t, req.tuple, e) {
      var i: nat :| Stood(s, req.tuple, e, i);
      assert Stood(t, req.tuple, e, i);
    }
    if i: nat :| PolicyStands(s, req.tuple, i) {
      assert PolicyStands(t, req.tuple, i);
    }
    assert Delegated(t.env, req);
  }
}
