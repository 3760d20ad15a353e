/** The service over the ledger: tables as fields, one method per transaction, each proved against
    what the transaction does to the whole ledger. */
module AuthServices {
  import opened Options
  import opened CanonicalKeys
  import opened AuthModel
  import AuthDelegation

  /** A recheck picked up after some reads were already done. */
  ghost function Resume(made: seq<nat>, r: (State, Completion)): (State, Completion) {
    (r.0, if r.1.Refused? then Completion.Refused else Completed(made + r.1.decisions))
  }

  lemma ResumeOne(s: State, rest: seq<ReadReceipt>, now: int, made: seq<nat>)
    requires rest != []
    ensures var r := RecheckReads(s, rest, now);
            if !ReceiptHolds(s, rest[0]) then r == (Record(s, rest[0].request, Refusal(SourceReadUnverified)), Completion.Refused)
            else
              var (t, j) := Evaluate(s, rest[0].request, Some(rest[0].decision), now);
              if !j.verdict.Allow? then r == (t, Completion.Refused)
              else Resume(made, r) == Resume(made + [|s.decisions|], RecheckReads(t, rest[1..], now))
  {
    if ReceiptHolds(s, rest[0]) {
      var t := Evaluate(s, rest[0].request, Some(rest[0].decision), now).0;
      var later := RecheckReads(t, rest[1..], now).1;
      if later.Completed? {
        assert made + ([|s.decisions|] + later.decisions) == (made + [|s.decisions|]) + later.decisions;
      }
    }
  }

  lemma ResumeAtTheEnds(s: State, t: State, receipts: seq<ReadReceipt>, now: int, made: seq<nat>)
    ensures Resume([], RecheckReads(s, receipts, now)) == RecheckReads(s, receipts, now)
    ensures Resume(made, RecheckReads(t, [], now)) == (t, Completed(made))
  {
    var c := RecheckReads(s, receipts, now).1;
    assert c.Completed? ==> [] + c.decisions == c.decisions;
    assert made + [] == made;
  }

  class AuthorizationService {
    var env: Environment
    var grants: seq<Grant>
    var approvals: seq<Approval>
    var decisions: seq<Decision>

    ghost function Ledger(): State
      reads this
    {
      State(env, grants, approvals, decisions)
    }

    constructor ()
      ensures Ledger() == EMPTY
    {
      env, grants, approvals, decisions := NO_ENVIRONMENT, [], [], [];
    }

    // -------------------------------------------------------------------------------------
    // Evaluation

    method DelegatedTaskAllows(req: Request) returns (allowed: bool)
      ensures allowed == DelegationAllows(env, req)
    {
      var runTaskId: Option<Id> := None;
      var runConversationId: Option<Id> := None;
      var originMatches := false;
      if req.runId.Some? && req.runId.value in env.runs {
        var run := env.runs[req.runId.value];
        if run.taskStep {
          runTaskId := run.attemptTask;
          if runTaskId.None? {
            return false;
          }
          runConversationId := Some(run.conversationId);
        } else if req.delegatedTaskId.Some? {
          originMatches := req.delegatedTaskId.value in env.tasks && env.tasks[req.delegatedTaskId.value].runId == req.runId;
          if !originMatches {
            return false;
          }
        }
      }
      if req.delegatedTaskId.Some? && req.runId.Some? && !originMatches && req.delegatedTaskId != runTaskId {
        return false;
      }
      var taskId := if req.delegatedTaskId.Some? then req.delegatedTaskId else runTaskId;
      if taskId.None? {
        return true;
      }
      if taskId.value !in env.tasks || env.tasks[taskId.value].creator != req.tuple.principalId
         || env.tasks[taskId.value].originScope != Some(req.tuple.scope) {
        return false;
      }
      var conversationId := if runConversationId.Some? then runConversationId else env.tasks[taskId.value].conversationId;
      allowed := AuthDelegation.WalkChain(env.links, taskId.value, Permission(req.tuple.resourceId, req.tuple.action),
                                          Technical(req, taskId.value, conversationId));
    }

    /** SELECT … WHERE revoked_at IS NULL LIMIT 1. */
    method FindLive(t: Tuple, effect: Effect) returns (found: Option<nat>)
      ensures found == FirstLive(grants, t, effect)
    {
      var i := 0;
      while i < |grants|
        invariant 0 <= i <= |grants|
        invariant FirstLive(grants, t, effect, i) == FirstLive(grants, t, effect)
      {
        if grants[i].tuple == t && grants[i].effect == effect && !grants[i].revoked {
          return Some(i);
        }
        i := i + 1;
      }
      found := None;
    }

    method FindGrant(t: Tuple, kind: string) returns (found: Option<nat>)
      ensures found == GrantFor(Ledger(), t, kind)
    {
      found := FindLive(t, AllowEffect);
      if found.None? {
        found := FindLive(t, ApprovalEffect);
      }
      if found.None? && kind == "task" && "task-" <= t.resourceId {
        var taskId := t.resourceId[5..];
        if taskId in env.tasks && env.tasks[taskId].creator == t.principalId && env.tasks[taskId].originScope == Some(t.scope)
           && (t.principalId, t.scope) in env.taskPolicies {
          found := FindLive(t.(resourceId := env.taskPolicies[(t.principalId, t.scope)]), AllowEffect);
        }
      }
    }

    method FindAdmission(req: Request, now: int) returns (found: Option<nat>)
      ensures found == FirstAdmission(Ledger(), req, now)
    {
      var i := 0;
      while i < |decisions|
        invariant 0 <= i <= |decisions|
        invariant FirstAdmission(Ledger(), req, now, i) == FirstAdmission(Ledger(), req, now)
      {
        if AdmittedRun(State(env, grants, approvals, decisions), req, i, now) {
          return Some(i);
        }
        i := i + 1;
      }
      found := None;
    }

    method RecordDecision(req: Request, j: Judgement)
      modifies this`decisions
      ensures Ledger() == Record(old(Ledger()), req, j)
    {
      decisions := decisions + [Decision(req.tuple, j.verdict, j.reason, j.grant, j.approval, req.conversationId, req.runId,
                                         None, StoredRoute(req.route), j.basis)];
    }

    method Refuse(req: Request, reason: Reason, grant: Option<nat>) returns (j: Judgement)
      modifies this`decisions
      ensures j == Refusal(reason, grant)
      ensures Ledger() == Record(old(Ledger()), req, j)
    {
      j := Judgement(if reason.ApprovalNeeded? then RequiresApproval else Deny, reason, grant, None, NoApproval);
      RecordDecision(req, j);
    }

    /** Bindings, visibility, delegation and grants are read now, in this order; the first check that
        fails is the recorded reason. */
    method Evaluate(req: Request, completed: Option<nat>, now: int) returns (j: Judgement)
      modifies this`decisions, this`approvals
      ensures (Ledger(), j) == AuthModel.Evaluate(old(Ledger()), req, completed, now)
    {
      var t := req.tuple;
      var identity := IdentityOf(t.scope);
      if identity !in env.identities {
        j := Refuse(req, IdentityUnbound, None);
        return;
      }
      if env.identities[identity] != t.principalId {
        j := Refuse(req, IdentityMismatch, None);
        return;
      }
      if t.resourceId !in env.resources {
        j := Refuse(req, ResourceMissing, None);
        return;
      }
      var resource := env.resources[t.resourceId];
      if resource.isPrivate && t.scope.chatType.Group? {
        j := Refuse(req, PrivateGroupContext, None);
        return;
      }
      var delegated := DelegatedTaskAllows(req);
      if !delegated {
        j := Refuse(req, DelegationScopeDenied, None);
        return;
      }
      var grant := FindGrant(t, resource.kind);
      if grant.None? {
        j := Refuse(req, NoGrant, None);
        return;
      }
      if !RouteAllows(env, t, resource.kind, req.route) {
        j := Refuse(req, SourcePolicyDenied, None);
        return;
      }
      if grants[grant.value].effect.AllowEffect? {
        j := Judgement(Allow, ExplicitGrant, grant, None, NoApproval);
        RecordDecision(req, j);
        return;
      }
      assert JudgeApproval(Ledger(), req, grant.value, completed, now) == Judge(Ledger(), req, completed, now);
      j := EvaluateApproval(req, grant.value, completed, now);
    }

    /** The approval path: a completed read, an admitted Run, or a fresh approval to consume. */
    method EvaluateApproval(req: Request, grant: nat, completed: Option<nat>, now: int) returns (j: Judgement)
      modifies this`decisions, this`approvals
      ensures j == JudgeApproval(old(Ledger()), req, grant, completed, now)
      ensures Ledger() == Record(if j.basis.Consumes? then Consumed(old(Ledger()), req.approvalId.value) else old(Ledger()), req, j)
    {
      if completed.Some? {
        if CompletesRead(State(env, grants, approvals, decisions), req, grant, completed.value, now) {
          j := Judgement(Allow, Approved, Some(grant), decisions[completed.value].approval, RechecksRead(completed.value));
          RecordDecision(req, j);
        } else {
          j := Refuse(req, ApprovalInvalid, Some(grant));
        }
        return;
      }
      if req.approvalId.None? && req.runId.Some? && req.tuple.action == "run:create" {
        var admitted := FindAdmission(req, now);
        if admitted.Some? {
          j := Judgement(Allow, Approved, decisions[admitted.value].grant, decisions[admitted.value].approval,
                         RechecksAdmission(admitted.value));
          RecordDecision(req, j);
          return;
        }
      }
      if req.approvalId.None? {
        j := Refuse(req, ApprovalNeeded, Some(grant));
        return;
      }
      var id := req.approvalId.value;
      if id >= |approvals| || approvals[id].tuple != req.tuple || approvals[id].consumed || approvals[id].expiresAt <= now
         || approvals[id].grant >= |grants| || grants[approvals[id].grant].revoked {
        j := Refuse(req, ApprovalInvalid, Some(grant));
        return;
      }
      approvals := approvals[id := approvals[id].(consumed := true)];
      j := Judgement(Allow, Approved, Some(approvals[id].grant), req.approvalId, Consumes);
      RecordDecision(req, j);
    }

    // -------------------------------------------------------------------------------------
    // Completing reads

    method MarkDecision(decision: nat, mark: Mark)
      modifies this`decisions
      ensures Ledger() == SetMark(old(Ledger()), decision, mark)
    {
      if decision < |decisions| && decisions[decision].verdict.Allow? && decisions[decision].mark.None? {
        decisions := decisions[decision := decisions[decision].(mark := Some(mark))];
      }
    }

    method LinkDecision(decision: nat, conversationId: Id, runId: Id)
      modifies this`decisions
      ensures Ledger() == AuthModel.LinkDecision(old(Ledger()), decision, conversationId, runId)
    {
      if decision < |decisions| {
        decisions := decisions[decision := decisions[decision].(conversationId := Some(conversationId), runId := Some(runId))];
      }
    }

    method RecheckReads(receipts: seq<ReadReceipt>, now: int) returns (completion: Completion)
      modifies this`decisions, this`approvals
      ensures (Ledger(), completion) == AuthModel.RecheckReads(old(Ledger()), receipts, now)
    {
      var made: seq<nat> := [];
      ResumeAtTheEnds(Ledger(), Ledger(), receipts, now, []);
      for i := 0 to |receipts|
        invariant unchanged(`env) && unchanged(`grants)
        invariant Resume(made, AuthModel.RecheckReads(Ledger(), receipts[i..], now))
                  == AuthModel.RecheckReads(old(Ledger()), receipts, now)
      {
        var receipt := receipts[i];
        assert receipts[i..][0] == receipt && receipts[i..][1..] == receipts[i + 1..];
        ResumeOne(Ledger(), receipts[i..], now, made);
        if !ReceiptHolds(State(env, grants, approvals, decisions), receipt) {
          var refused := Refuse(receipt.request, SourceReadUnverified, None);
          return Refused;
        }
        var position := |decisions|;
        var j := Evaluate(receipt.request, Some(receipt.decision), now);
        if !j.verdict.Allow? {
          return Refused;
        }
        made := made + [position];
      }
      ResumeAtTheEnds(Ledger(), Ledger(), [], now, made);
      completion := Completed(made);
    }

    /** One transaction: all the reads, then the action that depends on them, then the marks. */
    method CompleteReadAuthorization(receipts: seq<ReadReceipt>, action: Option<Request>, now: int) returns (ok: bool)
      modifies this`decisions, this`approvals
      ensures (Ledger(), ok) == CompleteReads(old(Ledger()), receipts, action, now)
    {
      if |receipts| > RECEIPT_LIMIT {
        return false;
      }
      if action.Some? && exists r :: r in receipts && !SameCaller(r.request, action.value) {
        var refused := Refuse(action.value, SourceReadUnverified, None);
        return false;
      }
      var completion := RecheckReads(receipts, now);
      if completion.Refused? {
        return false;
      }
      if action.Some? {
        var j := Evaluate(action.value, None, now);
        if !j.verdict.Allow? {
          return false;
        }
      }
      MarkReads(completion.decisions, receipts);
      ok := true;
    }

    method MarkReads(made: seq<nat>, receipts: seq<ReadReceipt>)
      requires |made| == |receipts|
      modifies this`decisions
      ensures Ledger() == MarkAll(old(Ledger()), made, receipts)
    {
      for i := 0 to |made|
        invariant unchanged(`env) && unchanged(`grants) && unchanged(`approvals)
        invariant MarkAll(Ledger(), made[i..], receipts[i..]) == MarkAll(old(Ledger()), made, receipts)
      {
        assert made[i..][1..] == made[i + 1..] && receipts[i..][1..] == receipts[i + 1..];
        MarkDecision(made[i], receipts[i].source);
      }
    }

    // -------------------------------------------------------------------------------------
    // Policy

    method WriteGrant(t: Tuple, effect: Effect, initialOnly: bool)
      modifies this`grants
      ensures Ledger() == old(Ledger()).(grants := AuthModel.WriteGrant(old(grants), t, effect, initialOnly))
    {
      if initialOnly && exists i :: 0 <= i < |grants| && grants[i].tuple == t {
        assert Configured(grants, t);
        return;
      }
      var existing := FindLive(t, effect);
      if existing.None? {
        grants := grants + [Grant(t, effect, false)];
      }
    }

    method Revoke(selector: Selector)
      modifies this`grants
      ensures Ledger() == old(Ledger()).(grants := AuthModel.Revoke(old(grants), selector))
    {
      grants := seq(|grants|, i requires 0 <= i < |grants| reads this =>
        if Selects(selector, i, grants[i].tuple) then grants[i].(revoked := true) else grants[i]);
    }

    method Approve(grant: nat, expiresAt: int, now: int) returns (id: Option<nat>)
      modifies this`approvals
      ensures Ledger() == AuthModel.Approve(old(Ledger()), grant, expiresAt, now)
      ensures id == if Ledger() == old(Ledger()) then None else Some(|old(approvals)|)
    {
      if expiresAt <= now || grant >= |grants| || grants[grant].revoked || grants[grant].effect.AllowEffect? {
        return None;
      }
      id := Some(|approvals|);
      approvals := approvals + [Approval(grant, grants[grant].tuple, expiresAt, false)];
    }

    /** All entries commit together; a conflicting registration puts everything back. */
    method ProvisionResources(principalId: Id, scope: Scope, entries: seq<Entry>, initialOnly: bool, now: int) returns (ok: bool)
      modifies this
      ensures Ledger() == Provision(old(Ledger()), principalId, scope, entries, initialOnly, now)
      ensures !ok ==> Ledger() == old(Ledger())
    {
      if |entries| > PROVISION_LIMIT {
        return false;
      }
      var env0, grants0, approvals0, decisions0 := env, grants, approvals, decisions;
      for i := 0 to |entries|
        invariant ProvisionAll(Ledger(), principalId, scope, entries[i..], initialOnly, now)
                  == ProvisionAll(old(Ledger()), principalId, scope, entries, initialOnly, now)
      {
        var entry := entries[i];
        assert entries[i..][0] == entry && entries[i..][1..] == entries[i + 1..];
        if entry.resourceId !in env.resources {
          env := env.(resources := env.resources[entry.resourceId := entry.resource]);
        } else if !entry.ifAbsent || env.resources[entry.resourceId] != entry.resource {
          env, grants, approvals, decisions := env0, grants0, approvals0, decisions0;
          return false;
        }
        var req := EntryRequest(principalId, scope, entry);
        var j := Evaluate(req, None, now);
        if !j.verdict.Allow? {
          WriteGrant(req.tuple, AllowEffect, initialOnly);
        }
      }
      ok := true;
    }

    /** Reads the live allow rows first, then adds what is missing row by row. */
    method BackfillDeliveryForReaders(resourceId: Id, readAction: string) returns (added: nat)
      modifies this`grants
      ensures Ledger() == old(Ledger()).(grants := BackfillDelivery(old(grants), resourceId, readAction))
      ensures added == |grants| - |old(grants)|
    {
      var readers := ListReaders(resourceId, readAction);
      added := 0;
      for i := 0 to |readers|
        invariant unchanged(`env) && unchanged(`approvals) && unchanged(`decisions)
        invariant BackfillReaders(grants, readers[i..], resourceId) == BackfillReaders(old(grants), readers, resourceId)
        invariant |grants| == |old(grants)| + added
      {
        assert readers[i..][0] == readers[i] && readers[i..][1..] == readers[i + 1..];
        var t := DeliveryTuple(readers[i], resourceId);
        if !exists k :: 0 <= k < |grants| && grants[k].tuple == t {
          assert !Configured(grants, t);
          assert FirstLive(grants, t, AllowEffect).None?;
          grants := grants + [Grant(t, AllowEffect, false)];
          added := added + 1;
        } else {
          assert Configured(grants, t);
        }
      }
    }

    /** SELECT DISTINCT. */
    method ListReaders(resourceId: Id, action: string) returns (readers: seq<(Id, Scope)>)
      ensures readers == Readers(grants, resourceId, action)
    {
      readers := [];
      for i := 0 to |grants|
        invariant readers == Readers(grants[..i], resourceId, action)
      {
        assert grants[..i + 1][..i] == grants[..i];
        var g := grants[i];
        if g.tuple.resourceId == resourceId && g.tuple.action == action && g.effect.AllowEffect? && !g.revoked
           && (g.tuple.principalId, g.tuple.scope) !in readers {
          readers := readers + [(g.tuple.principalId, g.tuple.scope)];
        }
      }
      assert grants[..|grants|] == grants;
    }
  }
}
