/** The authorization ledger: grants, one-shot approvals and recorded decisions, and the
    evaluation that reads the first two and appends to the third. */
module AuthModel {
  import opened Options
  import opened CanonicalKeys

  type Id = string

  type Text = StableJson.Text

  datatype Effect = AllowEffect | ApprovalEffect

  /** Who may do what to which Resource from where; the scope stands for its key. */
  datatype Tuple = Tuple(principalId: Id, resourceId: Id, action: string, scope: Scope)

  /** Rows are identified by their position: grants, approvals and decisions are never deleted. */
  datatype Grant = Grant(tuple: Tuple, effect: Effect, revoked: bool)

  datatype Approval = Approval(grant: nat, tuple: Tuple, expiresAt: int, consumed: bool)

  datatype Verdict = Allow | Deny | RequiresApproval

  datatype Reason =
    | IdentityUnbound | IdentityMismatch | ResourceMissing | PrivateGroupContext | NoGrant | ExplicitGrant
    | ApprovalNeeded | ApprovalInvalid | Approved | ScopeMismatch | DelegationScopeDenied | SourcePolicyDenied
    | SourceReadUnverified | SourceProvenanceUnavailable

  datatype Mark = ContentSource | AccessGate | LegacyContentSource | LegacyAccessGate

  /** What a caller may state as the route a source was reached by. */
  datatype Claim =
    | NoCondition
    | QqCategory(connectionId: string, groupId: string, category: string)
    | QqMemorySource(connectionId: string, groupId: string, sourceClass: string)

  /** What may be stored: `isCondition` of the program. */
  type Condition = c: Claim | WellFormed(c) witness NoCondition

  /** A request leaves its route out, passes on an unknown legacy route, or names one. */
  datatype Route = Unstated | LegacyRoute | Named(claim: Claim)

  /** Why a decision names an approval; history that no transaction reads. */
  datatype Basis = NoApproval | Consumes | RechecksRead(of: nat) | RechecksAdmission(of: nat)

  datatype Decision = Decision(tuple: Tuple, verdict: Verdict, reason: Reason, grant: Option<nat>, approval: Option<nat>,
                               conversationId: Option<Id>, runId: Option<Id>, mark: Option<Mark>,
                               condition: Option<Condition>, basis: Basis)

  datatype Request = Request(tuple: Tuple, approvalId: Option<nat>, conversationId: Option<Id>, runId: Option<Id>,
                             delegatedTaskId: Option<Id>, route: Route)

  // ---------------------------------------------------------------------------------------
  // What the evaluation reads and other transactions write

  datatype Identity = Identity(connectionId: Text, botId: Text, senderId: Text)

  datatype Place = Place(connectionId: Text, botId: Text, chatType: ChatType, chatId: Text, threadId: Option<Text>)

  datatype Resource = Resource(kind: string, isPrivate: bool)

  datatype Task = Task(creator: Id, originScope: Option<Scope>, conversationId: Option<Id>, runId: Option<Id>)

  datatype Permission = Permission(resourceId: Id, action: string)

  /** None where the stored permissions do not parse. */
  datatype Link = Link(parent: Id, permissions: Option<seq<Permission>>)

  datatype RunRow = RunRow(principalId: Id, conversationId: Id, taskStep: bool, attemptTask: Option<Id>)

  datatype GroupPolicy = GroupPolicy(categories: set<string>, memorySources: set<string>)

  /** `places` joins each Conversation's stored key and its mapped locations; `taskPolicies` gives
      the Resource that stands for a caller's Task policy, whose id is a digest of the caller. */
  datatype Environment = Environment(identities: map<Identity, Id>, resources: map<Id, Resource>, tasks: map<Id, Task>,
                                     links: map<Id, Link>, runs: map<Id, RunRow>, places: set<(Place, Id)>,
                                     policies: map<(string, string), GroupPolicy>, taskPolicies: map<(Id, Scope), Id>)

  datatype State = State(env: Environment, grants: seq<Grant>, approvals: seq<Approval>, decisions: seq<Decision>)

  const NO_ENVIRONMENT: Environment := Environment(map[], map[], map[], map[], map[], {}, map[], map[])
  const EMPTY: State := State(NO_ENVIRONMENT, [], [], [])

  function IdentityOf(k: Scope): Identity { Identity(k.connectionId, k.botId, k.senderId) }

  function PlaceOf(k: Scope): Place { Place(k.connectionId, k.botId, k.chatType, k.chatId, k.threadId) }

  // ---------------------------------------------------------------------------------------
  // Delegation

  const MAX_LINEAGE: nat := 5

  /** The Tasks from this one to its root, when there are at most `limit` of them. */
  function Lineage(links: map<Id, Link>, task: Id, limit: nat): Option<seq<Id>>
    decreases limit
  {
    if limit == 0 then None
    else if task !in links then Some([task])
    else
      match Lineage(links, links[task].parent, limit - 1)
      case None => None
      case Some(rest) => Some([task] + rest)
  }

  predicate Lists(l: Link, p: Permission, technical: bool) {
    l.permissions.Some? && (technical || p in l.permissions.value)
  }

  /** Every link from the Task to its root passes the permission on. */
  predicate ChainAllows(links: map<Id, Link>, task: Id, p: Permission, technical: bool) {
    && Lineage(links, task, MAX_LINEAGE).Some?
    && forall t :: t in Lineage(links, task, MAX_LINEAGE).value && t in links ==> Lists(links[t], p, technical)
  }

  /** The Task's own bookkeeping, and running its own Conversation. */
  predicate Technical(req: Request, task: Id, conversationId: Option<Id>) {
    || (req.tuple.resourceId == "task-" + task
        && req.tuple.action in ["task:read", "task:continue", "task:plan", "task:delegate", "task:checkpoint:write"])
    || (req.conversationId.Some? && req.conversationId == conversationId && req.tuple.resourceId == "agent:personal"
        && req.tuple.action in ["run:create", "conversation:read", "run:control"])
  }

  function StepRun(env: Environment, runId: Option<Id>): Option<RunRow> {
    if runId.Some? && runId.value in env.runs && env.runs[runId.value].taskStep then Some(env.runs[runId.value]) else None
  }

  /** The Task whose delegation limits the request; Some(None) when there is none to limit it, None
      when the Run and the Task named by the request do not belong together. */
  function LimitingTask(env: Environment, req: Request): Option<Option<Id>> {
    var step := StepRun(env, req.runId);
    if step.Some? then
      if step.value.attemptTask.None? then None
      else if req.delegatedTaskId.Some? && req.delegatedTaskId != step.value.attemptTask then None
      else Some(step.value.attemptTask)
    else if req.delegatedTaskId.None? then Some(None)
    else if req.runId.None? then Some(req.delegatedTaskId)
    else if req.runId.value in env.runs && req.delegatedTaskId.value in env.tasks
            && env.tasks[req.delegatedTaskId.value].runId == req.runId then Some(req.delegatedTaskId)
    else None
  }

  predicate DelegationAllows(env: Environment, req: Request) {
    var limiting := LimitingTask(env, req);
    && limiting.Some?
    && (limiting.value.Some? ==>
          var task := limiting.value.value;
          && task in env.tasks
          && env.tasks[task].creator == req.tuple.principalId && env.tasks[task].originScope == Some(req.tuple.scope)
          && var step := StepRun(env, req.runId);
             var conversationId := if step.Some? then Some(step.value.conversationId) else env.tasks[task].conversationId;
             ChainAllows(env.links, task, Permission(req.tuple.resourceId, req.tuple.action),
                         Technical(req, task, conversationId)))
  }

  // ---------------------------------------------------------------------------------------
  // Source routes

  /** Group capabilities: each category and an action it stands for. */
  const GROUP_CAPABILITIES: seq<(string, string)> :=
    [("group.read", "group:read"), ("group.members", "group:members:read"), ("group.history", "history:read"),
     ("group.content", "group:content:read"), ("group.files.read", "group:files:read"),
     ("group.files.write", "group:files:write"), ("group.moderate", "group:moderate"),
     ("group.settings", "group:settings:local"), ("group.settings", "group:settings:write")]

  const SOURCE_CLASS_ACTIONS: map<string, string> :=
    map["history" := "history:read", "notice" := "group:content:read", "essence" := "group:content:read",
        "album" := "group:content:read", "metadata" := "group:read", "file" := "group:files:read"]

  const MAX_IDENTIFIER: nat := 512

  /** The length of a string of code points in UTF-16 code units. */
  function Units(s: string): nat {
    if s == "" then 0 else Units(s[..|s| - 1]) + (if s[|s| - 1] as int >= 0x10000 then 2 else 1)
  }

  predicate IsIdentifier(s: string) {
    0 < Units(s) <= MAX_IDENTIFIER && forall i :: 0 <= i < |s| ==> s[i] as int >= 32
  }

  predicate IsGroupCategory(category: string) {
    exists c :: c in GROUP_CAPABILITIES && c.0 == category
  }

  predicate WellFormed(c: Claim) {
    match c
    case NoCondition => true
    case QqCategory(k, g, category) => IsIdentifier(k) && IsIdentifier(g) && IsGroupCategory(category)
    case QqMemorySource(k, g, sourceClass) => IsIdentifier(k) && IsIdentifier(g) && sourceClass in SOURCE_CLASS_ACTIONS
  }

  /** A malformed claim is stored like an unknown legacy route. */
  function StoredRoute(route: Route): Option<Condition> {
    match route
    case Unstated => Some(NoCondition)
    case LegacyRoute => None
    case Named(c) => if WellFormed(c) then Some(c) else None
  }

  predicate IsGroupAction(action: string) {
    exists c :: c in GROUP_CAPABILITIES && c.1 == action
  }

  predicate RouteMatchesAction(c: Claim, action: string) {
    match c
    case NoCondition => true
    case QqCategory(_, _, category) => (category, action) in GROUP_CAPABILITIES
    case QqMemorySource(_, _, sourceClass) => sourceClass in SOURCE_CLASS_ACTIONS && SOURCE_CLASS_ACTIONS[sourceClass] == action
  }

  predicate RouteSwitchedOn(env: Environment, c: Claim) {
    match c
    case NoCondition => true
    case QqCategory(k, g, category) => (k, g) in env.policies && category in env.policies[(k, g)].categories
    case QqMemorySource(k, g, sourceClass) => (k, g) in env.policies && sourceClass in env.policies[(k, g)].memorySources
  }

  predicate RouteAllows(env: Environment, t: Tuple, kind: string, route: Route) {
    match route
    case Unstated => true
    case LegacyRoute => !(kind == "qq_group" && "group:" <= t.resourceId && IsGroupAction(t.action))
    case Named(c) =>
      && WellFormed(c)
      && (|| c.NoCondition?
          || (kind == "qq_group" && t.resourceId == "group:" + c.groupId && RouteMatchesAction(c, t.action)
              && RouteSwitchedOn(env, c)))
  }

  // ---------------------------------------------------------------------------------------
  // Grants

  predicate Live(g: Grant, t: Tuple, e: Effect) {
    g == Grant(t, e, false)
  }

  function FirstLive(gs: seq<Grant>, t: Tuple, e: Effect, from: nat := 0): (r: Option<nat>)
    requires from <= |gs|
    ensures r.Some? ==> from <= r.value < |gs| && Live(gs[r.value], t, e)
    ensures r.Some? ==> forall i :: from <= i < r.value ==> !Live(gs[i], t, e)
    ensures r.None? ==> forall i :: from <= i < |gs| ==> !Live(gs[i], t, e)
    decreases |gs| - from
  {
    if from == |gs| then None
    else if Live(gs[from], t, e) then Some(from)
    else FirstLive(gs, t, e, from + 1)
  }

  /** The Task policy a request falls back to when its creator acts on their own Task. */
  function FallbackTuple(env: Environment, t: Tuple, kind: string): Option<Tuple> {
    if kind == "task" && "task-" <= t.resourceId && t.resourceId[5..] in env.tasks
       && env.tasks[t.resourceId[5..]].creator == t.principalId && env.tasks[t.resourceId[5..]].originScope == Some(t.scope)
       && (t.principalId, t.scope) in env.taskPolicies
    then Some(t.(resourceId := env.taskPolicies[(t.principalId, t.scope)])) else None
  }

  /** Allow rows come before approval rows, and only then the creator's Task policy. */
  function GrantFor(s: State, t: Tuple, kind: string): (r: Option<nat>)
    ensures r.Some? ==> r.value < |s.grants| && !s.grants[r.value].revoked
  {
    var allow := FirstLive(s.grants, t, AllowEffect);
    var approval := FirstLive(s.grants, t, ApprovalEffect);
    var fallback := FallbackTuple(s.env, t, kind);
    if allow.Some? then allow
    else if approval.Some? then approval
    else if fallback.Some? then FirstLive(s.grants, fallback.value, AllowEffect)
    else None
  }

  // ---------------------------------------------------------------------------------------
  // Evaluation

  datatype Judgement = Judgement(verdict: Verdict, reason: Reason, grant: Option<nat>, approval: Option<nat>, basis: Basis)

  function Refusal(reason: Reason, grant: Option<nat> := None): Judgement {
    Judgement(if reason.ApprovalNeeded? then RequiresApproval else Deny, reason, grant, None, NoApproval)
  }

  /** The completed read's own decision, still backed by its consumed approval. */
  predicate CompletesRead(s: State, req: Request, grant: nat, of: nat, now: int) {
    && of < |s.decisions|
    && var d := s.decisions[of];
       && d.verdict.Allow? && d.reason.Approved? && d.grant == Some(grant) && d.tuple == req.tuple
       && d.runId == req.runId && d.conversationId == req.conversationId && d.condition == StoredRoute(req.route)
       && d.approval.Some? && d.approval.value < |s.approvals|
       && var a := s.approvals[d.approval.value];
          Some(a.grant) == d.grant && a.consumed && now < a.expiresAt
  }

  /** An earlier decision that admitted this very Run on an approval. */
  predicate AdmittedRun(s: State, req: Request, of: nat, now: int) {
    && of < |s.decisions| && req.runId.Some? && req.runId.value in s.env.runs
    && var d := s.decisions[of];
       var run := s.env.runs[req.runId.value];
       && d.runId == req.runId && d.tuple == req.tuple && d.verdict.Allow? && d.reason.Approved?
       && d.approval.Some? && d.approval.value < |s.approvals|
       && run.principalId == req.tuple.principalId && (PlaceOf(req.tuple.scope), run.conversationId) in s.env.places
       && var a := s.approvals[d.approval.value];
          && d.grant == Some(a.grant) && a.consumed && now < a.expiresAt
          && a.grant < |s.grants| && !s.grants[a.grant].revoked
  }

  function FirstAdmission(s: State, req: Request, now: int, from: nat := 0): (r: Option<nat>)
    requires from <= |s.decisions|
    ensures r.Some? ==> from <= r.value && AdmittedRun(s, req, r.value, now)
    ensures r.None? ==> forall i :: from <= i < |s.decisions| ==> !AdmittedRun(s, req, i, now)
    decreases |s.decisions| - from
  {
    if from == |s.decisions| then None
    else if AdmittedRun(s, req, from, now) then Some(from)
    else FirstAdmission(s, req, now, from + 1)
  }

  predicate Eligible(s: State, req: Request, approval: nat, now: int) {
    && approval < |s.approvals|
    && var a := s.approvals[approval];
       && a.tuple == req.tuple && !a.consumed && now < a.expiresAt
       && a.grant < |s.grants| && !s.grants[a.grant].revoked
  }

  /** What is decided once a grant is found that asks for approval. */
  function JudgeApproval(s: State, req: Request, grant: nat, completed: Option<nat>, now: int): Judgement {
    if completed.Some? then
      if CompletesRead(s, req, grant, completed.value, now) then
        Judgement(Allow, Approved, Some(grant), s.decisions[completed.value].approval, RechecksRead(completed.value))
      else Refusal(ApprovalInvalid, Some(grant))
    else
      var admitted := if req.approvalId.None? && req.runId.Some? && req.tuple.action == "run:create"
                      then FirstAdmission(s, req, now) else None;
      if admitted.Some? then
        var d := s.decisions[admitted.value];
        Judgement(Allow, Approved, d.grant, d.approval, RechecksAdmission(admitted.value))
      else if req.approvalId.None? then Refusal(ApprovalNeeded, Some(grant))
      else if !Eligible(s, req, req.approvalId.value, now) then Refusal(ApprovalInvalid, Some(grant))
      else Judgement(Allow, Approved, Some(s.approvals[req.approvalId.value].grant), req.approvalId, Consumes)
  }

  /** Everything that is checked before any grant is looked up. */
  function Precheck(s: State, req: Request): Option<Reason> {
    var t := req.tuple;
    if IdentityOf(t.scope) !in s.env.identities then Some(IdentityUnbound)
    else if s.env.identities[IdentityOf(t.scope)] != t.principalId then Some(IdentityMismatch)
    else if t.resourceId !in s.env.resources then Some(ResourceMissing)
    else if s.env.resources[t.resourceId].isPrivate && t.scope.chatType.Group? then Some(PrivateGroupContext)
    else if !DelegationAllows(s.env, req) then Some(DelegationScopeDenied)
    else None
  }

  function Judge(s: State, req: Request, completed: Option<nat>, now: int): Judgement {
    var refused := Precheck(s, req);
    if refused.Some? then Refusal(refused.value)
    else
      var kind := s.env.resources[req.tuple.resourceId].kind;
      var grant := GrantFor(s, req.tuple, kind);
      if grant.None? then Refusal(NoGrant)
      else if !RouteAllows(s.env, req.tuple, kind, req.route) then Refusal(SourcePolicyDenied)
      else if s.grants[grant.value].effect.AllowEffect? then Judgement(Allow, ExplicitGrant, grant, None, NoApproval)
      else JudgeApproval(s, req, grant.value, completed, now)
  }

  function Recorded(req: Request, j: Judgement): Decision {
    Decision(req.tuple, j.verdict, j.reason, j.grant, j.approval, req.conversationId, req.runId, None,
             StoredRoute(req.route), j.basis)
  }

  function Record(s: State, req: Request, j: Judgement): State {
    s.(decisions := s.decisions + [Recorded(req, j)])
  }

  function Consumed(s: State, approval: nat): State
    requires approval < |s.approvals|
  {
    s.(approvals := s.approvals[approval := s.approvals[approval].(consumed := true)])
  }

  /** Every evaluation leaves a decision behind; the new decision's position is the old length. */
  function Evaluate(s: State, req: Request, completed: Option<nat>, now: int): (State, Judgement) {
    var j := Judge(s, req, completed, now);
    var t := if j.basis.Consumes? && req.approvalId.Some? && req.approvalId.value < |s.approvals|
             then Consumed(s, req.approvalId.value) else s;
    (Record(t, req, j), j)
  }

  // ---------------------------------------------------------------------------------------
  // Marks and links

  /** A mark is set once; asking for another one changes nothing. */
  function SetMark(s: State, decision: nat, mark: Mark): State {
    if decision < |s.decisions| && s.decisions[decision].verdict.Allow? && s.decisions[decision].mark.None? then
      s.(decisions := s.decisions[decision := s.decisions[decision].(mark := Some(mark))])
    else s
  }

  /** Some transactions name the Run they just created in the decision that admitted it. */
  function LinkDecision(s: State, decision: nat, conversationId: Id, runId: Id): State {
    if decision < |s.decisions| then
      s.(decisions := s.decisions[decision := s.decisions[decision].(conversationId := Some(conversationId), runId := Some(runId))])
    else s
  }

  // ---------------------------------------------------------------------------------------
  // Completing reads

  /** The part of an action after its last colon. */
  function Verb(action: string): string
    decreases |action|
  {
    if ':' in action then Verb(action[1..]) else action
  }

  function ClassifyProtectedRead(action: string, kind: string): Option<Mark> {
    if kind == "web-public" then None
    else if Verb(action) == "search" then Some(AccessGate)
    else if Verb(action) in ["read", "list", "status"] then Some(ContentSource)
    else None
  }

  predicate DocumentedContentWrite(t: Tuple, kind: string) {
    || (kind == "workspace" && "workspace:" <= t.resourceId && t.action == "workspace:write")
    || (kind == "owner-control" && t.resourceId == "owner-control" && t.action == "model:switch")
  }

  predicate PublicGroupCollectionGate(t: Tuple, source: Mark, route: Route) {
    && t.resourceId == "owner-memory" && t.action == "memory:read" && source.AccessGate? && route == Named(NoCondition)
  }

  datatype ReadReceipt = ReadReceipt(request: Request, decision: nat, source: Mark)

  /** The receipt names the very decision that allowed this read, with a classification it may have. */
  predicate ReceiptHolds(s: State, r: ReadReceipt) {
    && r.decision < |s.decisions| && r.request.tuple.resourceId in s.env.resources
    && var d := s.decisions[r.decision];
       var kind := s.env.resources[r.request.tuple.resourceId].kind;
       && d.verdict.Allow? && d.tuple == r.request.tuple && d.runId == r.request.runId
       && d.conversationId == r.request.conversationId && d.condition == StoredRoute(r.request.route)
       && (|| ClassifyProtectedRead(r.request.tuple.action, kind) == Some(r.source)
           || (r.source.ContentSource? && d.mark == Some(ContentSource) && DocumentedContentWrite(r.request.tuple, kind))
           || (kind == "owner-memory" && d.mark == Some(AccessGate)
               && PublicGroupCollectionGate(r.request.tuple, r.source, r.request.route)))
  }

  predicate SameCaller(a: Request, b: Request) {
    && a.tuple.principalId == b.tuple.principalId && a.tuple.scope == b.tuple.scope && a.runId == b.runId
    && a.conversationId == b.conversationId && a.delegatedTaskId == b.delegatedTaskId
  }

  datatype Completion = Completed(decisions: seq<nat>) | Refused

  const RECEIPT_LIMIT: nat := 128

  /** Rechecks the reads in order; stops, committing what was recorded, at the first refusal. */
  function RecheckReads(s: State, receipts: seq<ReadReceipt>, now: int): (r: (State, Completion))
    ensures r.1.Completed? ==> |r.1.decisions| == |receipts|
    decreases |receipts|
  {
    if receipts == [] then (s, Completed([]))
    else if !ReceiptHolds(s, receipts[0]) then (Record(s, receipts[0].request, Refusal(SourceReadUnverified)), Refused)
    else
      var (t, j) := Evaluate(s, receipts[0].request, Some(receipts[0].decision), now);
      if !j.verdict.Allow? then (t, Refused)
      else
        var (u, rest) := RecheckReads(t, receipts[1..], now);
        if rest.Refused? then (u, Refused) else (u, Completed([|s.decisions|] + rest.decisions))
  }

  function MarkAll(s: State, decisions: seq<nat>, receipts: seq<ReadReceipt>): State
    requires |decisions| == |receipts|
    decreases |receipts|
  {
    if receipts == [] then s else MarkAll(SetMark(s, decisions[0], receipts[0].source), decisions[1..], receipts[1..])
  }

  /** Rechecks the completed reads, then the action that depends on them; only when all of it is
      allowed are the new decisions marked as sources. */
  function CompleteReads(s: State, receipts: seq<ReadReceipt>, action: Option<Request>, now: int): (State, bool) {
    if |receipts| > RECEIPT_LIMIT then (s, false)
    else if action.Some? && exists r :: r in receipts && !SameCaller(r.request, action.value) then
      (Record(s, action.value, Refusal(SourceReadUnverified)), false)
    else
      var (t, completion) := RecheckReads(s, receipts, now);
      if completion.Refused? then (t, false)
      else if action.Some? then
        var (u, j) := Evaluate(t, action.value, None, now);
        if j.verdict.Allow? then (MarkAll(u, completion.decisions, receipts), true) else (u, false)
      else (MarkAll(t, completion.decisions, receipts), true)
  }

  // ---------------------------------------------------------------------------------------
  // Writing policy

  predicate Configured(gs: seq<Grant>, t: Tuple) {
    exists i :: 0 <= i < |gs| && gs[i].tuple == t
  }

  /** Initial provisioning respects any row the tuple ever had. */
  function WriteGrant(gs: seq<Grant>, t: Tuple, e: Effect, initialOnly: bool): seq<Grant> {
    if initialOnly && Configured(gs, t) then gs
    else if FirstLive(gs, t, e).Some? then gs
    else gs + [Grant(t, e, false)]
  }

  datatype Selector =
    | OneGrant(id: nat)
    | InScope(principalId: Id, resourceId: Id, scope: Scope)
    | OneAction(tuple: Tuple)
    | OfSender(connectionId: Text, botId: Text, senderId: Text)
    | OfResource(resourceId: Id)
    | AtLocation(connectionId: Text, botId: Text, chatType: ChatType, chatId: Text)

  predicate Selects(sel: Selector, id: nat, t: Tuple) {
    match sel
    case OneGrant(i) => i == id
    case InScope(p, r, k) => t.principalId == p && t.resourceId == r && t.scope == k
    case OneAction(u) => t == u
    case OfSender(c, b, sender) => t.scope.connectionId == c && t.scope.botId == b && t.scope.senderId == sender
    case OfResource(r) => t.resourceId == r
    case AtLocation(c, b, kind, chat) =>
      t.scope.connectionId == c && t.scope.botId == b && t.scope.chatType == kind && t.scope.chatId == chat
  }

  function Revoke(gs: seq<Grant>, sel: Selector): (r: seq<Grant>)
    ensures |r| == |gs|
  {
    seq(|gs|, i requires 0 <= i < |gs| => if Selects(sel, i, gs[i].tuple) then gs[i].(revoked := true) else gs[i])
  }

  function Approve(s: State, grant: nat, expiresAt: int, now: int): State {
    if expiresAt <= now || grant >= |s.grants| || s.grants[grant].revoked || s.grants[grant].effect.AllowEffect? then s
    else s.(approvals := s.approvals + [Approval(grant, s.grants[grant].tuple, expiresAt, false)])
  }

  datatype Entry = Entry(resourceId: Id, resource: Resource, ifAbsent: bool, action: string)

  /** None where the registration conflicts with a stored Resource. */
  function RegisterResource(env: Environment, e: Entry): Option<Environment> {
    if e.resourceId !in env.resources then Some(env.(resources := env.resources[e.resourceId := e.resource]))
    else if e.ifAbsent && env.resources[e.resourceId] == e.resource then Some(env)
    else None
  }

  function EntryRequest(principalId: Id, scope: Scope, e: Entry): Request {
    Request(Tuple(principalId, e.resourceId, e.action, scope), None, None, None, None, Unstated)
  }

  /** One entry: register, evaluate, and grant what is not already allowed. */
  function ProvisionOne(s: State, principalId: Id, scope: Scope, e: Entry, initialOnly: bool, now: int): Option<State> {
    match RegisterResource(s.env, e)
    case None => None
    case Some(env) =>
      var req := EntryRequest(principalId, scope, e);
      var (t, j) := Evaluate(s.(env := env), req, None, now);
      Some(if j.verdict.Allow? then t else t.(grants := WriteGrant(t.grants, req.tuple, AllowEffect, initialOnly)))
  }

  const PROVISION_LIMIT: nat := 128

  function ProvisionAll(s: State, principalId: Id, scope: Scope, entries: seq<Entry>, initialOnly: bool, now: int): Option<State>
    decreases |entries|
  {
    if entries == [] then Some(s)
    else
      match ProvisionOne(s, principalId, scope, entries[0], initialOnly, now)
      case None => None
      case Some(t) => ProvisionAll(t, principalId, scope, entries[1..], initialOnly, now)
  }

  /** All entries or none. */
  function Provision(s: State, principalId: Id, scope: Scope, entries: seq<Entry>, initialOnly: bool, now: int): State {
    if |entries| > PROVISION_LIMIT then s
    else
      var t := ProvisionAll(s, principalId, scope, entries, initialOnly, now);
      if t.Some? then t.value else s
  }

  /** The distinct principals and scopes with a live allow row for the action, in row order. */
  function Readers(gs: seq<Grant>, resourceId: Id, action: string): seq<(Id, Scope)>
    decreases |gs|
  {
    if gs == [] then []
    else
      var before := Readers(gs[..|gs| - 1], resourceId, action);
      var g := gs[|gs| - 1];
      var reader := (g.tuple.principalId, g.tuple.scope);
      if g.tuple.resourceId == resourceId && g.tuple.action == action && g.effect.AllowEffect? && !g.revoked
         && reader !in before then before + [reader] else before
  }

  const DELIVERY_ACTION: string := "delivery:send"

  function DeliveryTuple(reader: (Id, Scope), resourceId: Id): Tuple {
    Tuple(reader.0, resourceId, DELIVERY_ACTION, reader.1)
  }

  function BackfillReaders(gs: seq<Grant>, readers: seq<(Id, Scope)>, resourceId: Id): seq<Grant>
    decreases |readers|
  {
    if readers == [] then gs
    else
      BackfillReaders(WriteGrant(gs, DeliveryTuple(readers[0], resourceId), AllowEffect, true), readers[1..], resourceId)
  }

  function BackfillDelivery(gs: seq<Grant>, resourceId: Id, readAction: string): seq<Grant> {
    BackfillReaders(gs, Readers(gs, resourceId, readAction), resourceId)
  }

  // ---------------------------------------------------------------------------------------
  // Histories

  datatype Event =
    | EEvaluate(request: Request, completed: Option<nat>, now: int)
    | ERefuse(request: Request, reason: Reason)
    | EMark(decision: nat, mark: Mark)
    | ELink(decision: nat, conversationId: Id, runId: Id)
    | ECompleteReads(receipts: seq<ReadReceipt>, action: Option<Request>, now: int)
    | EGrant(tuple: Tuple, effect: Effect, initialOnly: bool)
    | ERevoke(selector: Selector)
    | EApprove(grant: nat, expiresAt: int, now: int)
    | EProvision(principalId: Id, scope: Scope, entries: seq<Entry>, initialOnly: bool, now: int)
    | EBackfill(resourceId: Id, readAction: string)
    | EEnvironment(env: Environment)

  function Step(s: State, e: Event): State {
    match e
    case EEvaluate(req, completed, now) => Evaluate(s, req, completed, now).0
    case ERefuse(req, reason) => Record(s, req, Refusal(reason))
    case EMark(d, mark) => SetMark(s, d, mark)
    case ELink(d, c, r) => LinkDecision(s, d, c, r)
    case ECompleteReads(receipts, action, now) => CompleteReads(s, receipts, action, now).0
    case EGrant(t, effect, initialOnly) => s.(grants := WriteGrant(s.grants, t, effect, initialOnly))
    case ERevoke(sel) => s.(grants := Revoke(s.grants, sel))
    case EApprove(g, expiresAt, now) => Approve(s, g, expiresAt, now)
    case EProvision(p, k, entries, initialOnly, now) => Provision(s, p, k, entries, initialOnly, now)
    case EBackfill(r, action) => s.(grants := BackfillDelivery(s.grants, r, action))
    case EEnvironment(env) => s.(env := env)
  }

  function After(s: State, es: seq<Event>): State
    decreases |es|
  {
    if es == [] then s else After(Step(s, es[0]), es[1..])
  }
}
