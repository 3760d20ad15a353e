/** What has to hold for a request to be allowed, a read to be completed, and a Resource to be registered. */
module AuthGuards {
  import opened Options
  import opened CanonicalKeys
  import opened AuthModel
  import opened AuthGrants
  import opened AuthApprovals

  // ---------------------------------------------------------------------------------------
  // One evaluation

  /** A private Resource is never allowed in a group, whatever is granted or approved. */
  lemma PrivateStaysOutOfGroups(s: State, req: Request, completed: Option<nat>, now: int)
    requires Judge(s, req, completed, now).verdict.Allow?
    ensures req.tuple.resourceId in s.env.resources
    ensures s.env.resources[req.tuple.resourceId].isPrivate ==> req.tuple.scope.chatType.Private?
  {
  }

  /** The Task that limits an allowed request is the caller's own, made at the caller's scope, and where the Run
      is a Task step it is that very attempt's Task. */
  lemma DelegationIsTheCallersOwn(s: State, req: Request, completed: Option<nat>, now: int)
    requires Judge(s, req, completed, now).verdict.Allow?
    ensures var limiting := LimitingTask(s.env, req);
            && limiting.Some?
            && (limiting.value.Some? ==>
                  && limiting.value.value in s.env.tasks
                  && s.env.tasks[limiting.value.value].creator == req.tuple.principalId
                  && s.env.tasks[limiting.value.value].originScope == Some(req.tuple.scope))
            && (StepRun(s.env, req.runId).Some? ==>
                  && limiting.value.Some? && limiting.value == StepRun(s.env, req.runId).value.attemptTask
                  && (req.delegatedTaskId.Some? ==> req.delegatedTaskId == limiting.value))
            && (StepRun(s.env, req.runId).None? ==> limiting.value == req.delegatedTaskId)
  {
    assert DelegationAllows(s.env, req);
  }

  /** How the approval behind an ALLOW comes to back this request. */
  ghost predicate Backs(s: State, req: Request, completed: Option<nat>, j: Judgement)
    requires j.approval.Some? && j.approval.value < |s.approvals|
  {
    match j.basis
    case NoApproval => false
    case Consumes => req.approvalId == j.approval && completed.None? && !s.approvals[j.approval.value].consumed
    case RechecksRead(of) =>
      && completed == Some(of) && of < |s.decisions| && s.decisions[of].approval == j.approval
      && s.decisions[of].tuple == req.tuple && s.decisions[of].runId == req.runId
      && s.decisions[of].conversationId == req.conversationId && s.decisions[of].condition == StoredRoute(req.route)
    case RechecksAdmission(of) =>
      && completed.None? && req.approvalId.None? && req.tuple.action == "run:create"
      && of < |s.decisions| && s.decisions[of].approval == j.approval && s.decisions[of].tuple == req.tuple
      && req.runId.Some? && s.decisions[of].runId == req.runId && req.runId.value in s.env.runs
      && s.env.runs[req.runId.value].principalId == req.tuple.principalId
      && (PlaceOf(req.tuple.scope), s.env.runs[req.runId.value].conversationId) in s.env.places
  }

  /** An approval admits only its own tuple, only before it runs out, and only while the grant it was given
      under stands; and only the request that consumes it or rechecks what it admitted. */
  lemma ApprovedOnlyWhileAlive(s: State, req: Request, completed: Option<nat>, now: int)
    requires ApprovalsInv(s) && Judge(s, req, completed, now).reason.Approved?
    ensures var j := Judge(s, req, completed, now);
            && j.verdict.Allow? && j.approval.Some? && j.approval.value < |s.approvals|
            && var a := s.approvals[j.approval.value];
               && a.tuple == req.tuple && now < a.expiresAt && j.grant == Some(a.grant)
               && a.grant < |s.grants| && !s.grants[a.grant].revoked
               && Backs(s, req, completed, j)
  {
    var j := Judge(s, req, completed, now);
    match j.basis {
      case RechecksRead(of) => assert NamedRightly(s, of);
      case RechecksAdmission(of) => assert NamedRightly(s, of);
      case _ =>
    }
  }

  // ---------------------------------------------------------------------------------------
  // Completed reads

  /** The decision a receipt names allowed this very read. */
  ghost predicate Names(s: State, r: ReadReceipt) {
    && r.decision < |s.decisions|
    && var d := s.decisions[r.decision];
       && d.verdict.Allow? && d.tuple == r.request.tuple && d.runId == r.request.runId
       && d.conversationId == r.request.conversationId && d.condition == StoredRoute(r.request.route)
  }

  ghost predicate Rechecked(d: Decision, r: ReadReceipt) {
    d.verdict.Allow? && d.tuple == r.request.tuple && d.runId == r.request.runId && d.condition == StoredRoute(r.request.route)
  }

  ghost predicate AppendedUnmarked(s: State, t: State) {
    s.decisions <= t.decisions && forall i :: |s.decisions| <= i < |t.decisions| ==> t.decisions[i].mark.None?
  }

  lemma {:induction false} RechecksAppend(s: State, receipts: seq<ReadReceipt>, now: int)
    ensures AppendedUnmarked(s, RecheckReads(s, receipts, now).0)
    decreases |receipts|
  {
    if receipts != [] && ReceiptHolds(s, receipts[0]) {
      RechecksAppend(Evaluate(s, receipts[0].request, Some(receipts[0].decision), now).0, receipts[1..], now);
    }
  }

  /** From `start` on, one decision per receipt, in order. */
  ghost predicate InOrder(t: State, start: nat, receipts: seq<ReadReceipt>) {
    && start + |receipts| <= |t.decisions|
    && forall i :: 0 <= i < |receipts| ==> Names(t, receipts[i]) && Rechecked(t.decisions[start + i], receipts[i])
  }

  lemma OneMoreInOrder(t: State, start: nat, receipts: seq<ReadReceipt>)
    requires receipts != [] && start < |t.decisions| && Names(t, receipts[0]) && Rechecked(t.decisions[start], receipts[0])
    requires InOrder(t, start + 1, receipts[1..])
    ensures InOrder(t, start, receipts)
  {
    forall i | 0 <= i < |receipts| ensures Names(t, receipts[i]) && Rechecked(t.decisions[start + i], receipts[i]) {
      if i > 0 {
        assert receipts[i] == receipts[1..][i - 1] && Rechecked(t.decisions[start + 1 + (i - 1)], receipts[1..][i - 1]);
      }
    }
  }

  lemma OneRecheck(s: State, r: ReadReceipt, now: int)
    requires ReceiptHolds(s, r) && Evaluate(s, r.request, Some(r.decision), now).1.verdict.Allow?
    ensures var u := Evaluate(s, r.request, Some(r.decision), now).0;
            Names(s, r) && |u.decisions| == |s.decisions| + 1 && s.decisions <= u.decisions && Rechecked(u.decisions[|s.decisions|], r)
  {
  }

  lemma FirstInOrder(s: State, u: State, t: State, receipts: seq<ReadReceipt>)
    requires receipts != [] && Names(s, receipts[0]) && |u.decisions| == |s.decisions| + 1
    requires s.decisions <= u.decisions <= t.decisions && Rechecked(u.decisions[|s.decisions|], receipts[0])
    requires InOrder(t, |u.decisions|, receipts[1..])
    ensures InOrder(t, |s.decisions|, receipts)
  {
    assert t.decisions[receipts[0].decision] == s.decisions[receipts[0].decision];
    assert t.decisions[|s.decisions|] == u.decisions[|s.decisions|];
    OneMoreInOrder(t, |s.decisions|, receipts);
  }

  lemma {:induction false} RechecksInOrder(s: State, receipts: seq<ReadReceipt>, now: int)
    requires RecheckReads(s, receipts, now).1.Completed?
    ensures var (t, c) := RecheckReads(s, receipts, now);
            && |t.decisions| == |s.decisions| + |receipts| && InOrder(t, |s.decisions|, receipts)
            && forall i :: 0 <= i < |receipts| ==> c.decisions[i] == |s.decisions| + i
    decreases |receipts|
  {
    if receipts != [] {
      var u := Evaluate(s, receipts[0].request, Some(receipts[0].decision), now).0;
      OneRecheck(s, receipts[0], now);
      RechecksInOrder(u, receipts[1..], now);
      RechecksAppend(u, receipts[1..], now);
      FirstInOrder(s, u, RecheckReads(u, receipts[1..], now).0, receipts);
    }
  }

  /** Only the marks of these decisions differ, and each has its source's. */
  ghost predicate MarkedInOrder(s: State, t: State, start: nat, receipts: seq<ReadReceipt>) {
    && |t.decisions| == |s.decisions| && start + |receipts| <= |s.decisions|
    && (forall i :: 0 <= i < |s.decisions| ==> t.decisions[i] == s.decisions[i].(mark := t.decisions[i].mark))
    && (forall i :: 0 <= i < |receipts| ==> t.decisions[start + i].mark == Some(receipts[i].source))
    && (forall i :: 0 <= i < |s.decisions| && !(start <= i < start + |receipts|) ==> t.decisions[i].mark == s.decisions[i].mark)
  }

  lemma {:induction false} MarksInOrder(s: State, ks: seq<nat>, receipts: seq<ReadReceipt>, start: nat)
    requires |ks| == |receipts| && start + |receipts| <= |s.decisions|
    requires forall i :: 0 <= i < |ks| ==> ks[i] == start + i
    requires forall i :: start <= i < start + |receipts| ==> s.decisions[i].verdict.Allow? && s.decisions[i].mark.None?
    ensures MarkedInOrder(s, MarkAll(s, ks, receipts), start, receipts)
    decreases |receipts|
  {
    if receipts != [] {
      var u := SetMark(s, ks[0], receipts[0].source);
      MarksInOrder(u, ks[1..], receipts[1..], start + 1);
      var t := MarkAll(u, ks[1..], receipts[1..]);
      forall i | 0 <= i < |receipts| ensures t.decisions[start + i].mark == Some(receipts[i].source) {
        if i > 0 {
          assert t.decisions[start + 1 + (i - 1)].mark == Some(receipts[1..][i - 1].source);
        }
      }
    }
  }

  lemma StillInOrder(t: State, v: State, start: nat, receipts: seq<ReadReceipt>)
    requires InOrder(t, start, receipts) && |t.decisions| <= |v.decisions|
    requires forall i :: 0 <= i < |t.decisions| ==> v.decisions[i] == t.decisions[i].(mark := v.decisions[i].mark)
    ensures InOrder(v, start, receipts)
  {
    forall i | 0 <= i < |receipts| ensures Names(v, receipts[i]) && Rechecked(v.decisions[start + i], receipts[i]) {
      assert Names(t, receipts[i]) && Rechecked(t.decisions[start + i], receipts[i]);
    }
  }

  /** Reads are completed only all together: there are at most 128, they are the caller's of the action that
      depends on them, each receipt names the decision that allowed it, each was allowed again and is marked with
      its classification, and so was the action. */
  lemma CompletionTakesEveryRead(s: State, receipts: seq<ReadReceipt>, action: Option<Request>, now: int)
    requires CompleteReads(s, receipts, action, now).1
    ensures |receipts| <= RECEIPT_LIMIT
    ensures action.Some? ==> forall r :: r in receipts ==> SameCaller(r.request, action.value)
    ensures var t := CompleteReads(s, receipts, action, now).0;
            && |t.decisions| == |s.decisions| + |receipts| + (if action.Some? then 1 else 0)
            && s.decisions <= t.decisions && InOrder(t, |s.decisions|, receipts)
            && (forall i :: 0 <= i < |receipts| ==> t.decisions[|s.decisions| + i].mark == Some(receipts[i].source))
            && (action.Some? ==>
                  var d := t.decisions[|s.decisions| + |receipts|]; d.verdict.Allow? && d.tuple == action.value.tuple && d.mark.None?)
  {
    RechecksInOrder(s, receipts, now);
    RechecksAppend(s, receipts, now);
    var (t, c) := RecheckReads(s, receipts, now);
    var u := if action.Some? then Evaluate(t, action.value, None, now).0 else t;
    AllowedThenMarked(t, u, |s.decisions|, c.decisions, receipts);
  }

  lemma AllowedThenMarked(t: State, u: State, start: nat, ks: seq<nat>, receipts: seq<ReadReceipt>)
    requires t.decisions <= u.decisions && InOrder(t, start, receipts) && |t.decisions| == start + |receipts| && |ks| == |receipts|
    requires forall i :: 0 <= i < |ks| ==> ks[i] == start + i
    requires forall i :: start <= i < |t.decisions| ==> t.decisions[i].mark.None?
    ensures MarkedInOrder(u, MarkAll(u, ks, receipts), start, receipts) && InOrder(MarkAll(u, ks, receipts), start, receipts)
  {
    forall i | start <= i < start + |receipts| ensures u.decisions[i].verdict.Allow? && u.decisions[i].mark.None? {
      assert u.decisions[i] == t.decisions[i] && Rechecked(t.decisions[start + (i - start)], receipts[i - start]);
    }
    MarksInOrder(u, ks, receipts, start);
    StillInOrder(t, MarkAll(u, ks, receipts), start, receipts);
  }

  /** Otherwise nothing becomes a source: no decision gains a mark. */
  lemma RefusedCompletionMarksNothing(s: State, receipts: seq<ReadReceipt>, action: Option<Request>, now: int)
    requires !CompleteReads(s, receipts, action, now).1
    ensures var t := CompleteReads(s, receipts, action, now).0;
            AppendedUnmarked(s, t)
  {
    RechecksAppend(s, receipts, now);
  }

  // ---------------------------------------------------------------------------------------
  // Only what was allowed is a source

  ghost predicate OnlyAllowsMarked(s: State) {
    forall i :: 0 <= i < |s.decisions| && s.decisions[i].mark.Some? ==> s.decisions[i].verdict.Allow?
  }

  lemma {:induction false} MarkingKeepsAllows(s: State, ks: seq<nat>, receipts: seq<ReadReceipt>)
    requires |ks| == |receipts| && OnlyAllowsMarked(s)
    ensures OnlyAllowsMarked(MarkAll(s, ks, receipts))
    decreases |receipts|
  {
    if receipts != [] {
      MarkingKeepsAllows(SetMark(s, ks[0], receipts[0].source), ks[1..], receipts[1..]);
    }
  }

  lemma {:induction false} ProvisioningKeepsAllows(s: State, p: Id, scope: Scope, entries: seq<Entry>, initialOnly: bool, now: int)
    requires OnlyAllowsMarked(s)
    ensures var t := ProvisionAll(s, p, scope, entries, initialOnly, now); t.Some? ==> OnlyAllowsMarked(t.value)
    decreases |entries|
  {
    if entries != [] {
      var one := ProvisionOne(s, p, scope, entries[0], initialOnly, now);
      if one.Some? {
        ProvisioningKeepsAllows(one.value, p, scope, entries[1..], initialOnly, now);
      }
    }
  }

  lemma {:induction false} ProvisioningAppends(s: State, p: Id, scope: Scope, entries: seq<Entry>, initialOnly: bool, now: int)
    ensures var t := ProvisionAll(s, p, scope, entries, initialOnly, now); t.Some? ==> AppendedUnmarked(s, t.value)
    decreases |entries|
  {
    if entries != [] {
      var one := ProvisionOne(s, p, scope, entries[0], initialOnly, now);
      if one.Some? {
        ProvisioningAppends(one.value, p, scope, entries[1..], initialOnly, now);
      }
    }
  }

  lemma CompletingKeepsAllows(s: State, receipts: seq<ReadReceipt>, action: Option<Request>, now: int)
    requires OnlyAllowsMarked(s)
    ensures OnlyAllowsMarked(CompleteReads(s, receipts, action, now).0)
  {
    if CompleteReads(s, receipts, action, now).1 {
      RechecksAppend(s, receipts, now);
      var (t, c) := RecheckReads(s, receipts, now);
      MarkingKeepsAllows(if action.Some? then Evaluate(t, action.value, None, now).0 else t, c.decisions, receipts);
    } else {
      RefusedCompletionMarksNothing(s, receipts, action, now);
    }
  }

  /** In every history, whatever is asked to be marked, only an ALLOW is ever a source. */
  lemma {:induction false} OnlyAllowsBecomeSources(s: State, es: seq<Event>)
    requires OnlyAllowsMarked(s)
    ensures OnlyAllowsMarked(After(s, es))
    decreases |es|
  {
    if es != [] {
      match es[0] {
        case ECompleteReads(receipts, action, now) => CompletingKeepsAllows(s, receipts, action, now);
        case EProvision(p, k, entries, initialOnly, now) => ProvisioningKeepsAllows(s, p, k, entries, initialOnly, now);
        case _ =>
      }
      OnlyAllowsBecomeSources(Step(s, es[0]), es[1..]);
    }
  }

  // ---------------------------------------------------------------------------------------
  // Approvals are given on purpose

  lemma {:induction false} RechecksGiveNoApproval(s: State, receipts: seq<ReadReceipt>, now: int)
    ensures |RecheckReads(s, receipts, now).0.approvals| == |s.approvals|
    decreases |receipts|
  {
    if receipts != [] && ReceiptHolds(s, receipts[0]) {
      RechecksGiveNoApproval(Evaluate(s, receipts[0].request, Some(receipts[0].decision), now).0, receipts[1..], now);
    }
  }

  lemma {:induction false} MarksGiveNoApproval(s: State, ks: seq<nat>, receipts: seq<ReadReceipt>)
    requires |ks| == |receipts|
    ensures MarkAll(s, ks, receipts).approvals == s.approvals
    decreases |receipts|
  {
    if receipts != [] {
      MarksGiveNoApproval(SetMark(s, ks[0], receipts[0].source), ks[1..], receipts[1..]);
    }
  }

  lemma CompletionGivesNoApproval(s: State, receipts: seq<ReadReceipt>, action: Option<Request>, now: int)
    ensures |CompleteReads(s, receipts, action, now).0.approvals| == |s.approvals|
  {
    RechecksGiveNoApproval(s, receipts, now);
    var (t, c) := RecheckReads(s, receipts, now);
    if c.Completed? {
      MarksGiveNoApproval(if action.Some? then Evaluate(t, action.value, None, now).0 else t, c.decisions, receipts);
    }
  }

  lemma {:induction false} ProvisioningGivesNoApproval(s: State, p: Id, scope: Scope, entries: seq<Entry>, initialOnly: bool, now: int)
    ensures var t := ProvisionAll(s, p, scope, entries, initialOnly, now); t.Some? ==> |t.value.approvals| == |s.approvals|
    decreases |entries|
  {
    if entries != [] {
      var one := ProvisionOne(s, p, scope, entries[0], initialOnly, now);
      if one.Some? {
        ProvisioningGivesNoApproval(one.value, p, scope, entries[1..], initialOnly, now);
      }
    }
  }

  /** A new approval is one somebody gave, unconsumed, with time left, for the tuple of a live grant that asks
      for approval. */
  lemma ApprovalsAreDeliberate(s: State, e: Event)
    ensures |s.approvals| <= |Step(s, e).approvals| <= |s.approvals| + 1
    ensures |Step(s, e).approvals| > |s.approvals| ==>
              && e.EApprove? && e.now < e.expiresAt && e.grant < |s.grants|
              && !s.grants[e.grant].revoked && s.grants[e.grant].effect.ApprovalEffect?
              && Step(s, e).approvals[|s.approvals|] == Approval(e.grant, s.grants[e.grant].tuple, e.expiresAt, false)
  {
    match e {
      case ECompleteReads(receipts, action, now) => CompletionGivesNoApproval(s, receipts, action, now);
      case EProvision(p, k, entries, initialOnly, now) => ProvisioningGivesNoApproval(s, p, k, entries, initialOnly, now);
      case _ =>
    }
  }

  ghost predicate ApprovalsAsked(s: State) {
    forall a :: 0 <= a < |s.approvals| ==>
      s.approvals[a].grant < |s.grants| && s.grants[s.approvals[a].grant].effect.ApprovalEffect?
  }

  /** In every history each approval was given under a grant that asks for approval, never under a plain one. */
  lemma {:induction false} ApprovalsAreForGrantsThatAsk(s: State, es: seq<Event>)
    requires ApprovalsAsked(s)
    ensures ApprovalsAsked(After(s, es))
    decreases |es|
  {
    if es != [] {
      var t := Step(s, es[0]);
      ApprovalsAreDeliberate(s, es[0]);
      StepKeeps(s, es[0]);
      OnlyOnPurpose(s, es[0]);
      ApprovalsAreForGrantsThatAsk(t, es[1..]);
    }
  }

  // ---------------------------------------------------------------------------------------
  // Resources

  /** Registered Resources stay as they are, and nothing else of the environment changes. */
  ghost predicate Registered(env: Environment, later: Environment) {
    && later == env.(resources := later.resources)
    && forall r :: r in env.resources ==> r in later.resources && later.resources[r] == env.resources[r]
  }

  /** Provisioning that succeeds leaves every entry's Resource as the entry describes it, and no stored Resource
      changed: one conflicting entry refuses them all. */
  lemma {:induction false} ProvisioningNeverRewritesResources(s: State, p: Id, scope: Scope, entries: seq<Entry>, initialOnly: bool,
                                                              now: int)
    requires ProvisionAll(s, p, scope, entries, initialOnly, now).Some?
    ensures var t := ProvisionAll(s, p, scope, entries, initialOnly, now).value;
            && Registered(s.env, t.env)
            && forall e :: e in entries ==>
                 e.resourceId in t.env.resources && t.env.resources[e.resourceId] == e.resource
                 && (e.resourceId in s.env.resources ==> e.ifAbsent)
    decreases |entries|
  {
    if entries != [] {
      var one := ProvisionOne(s, p, scope, entries[0], initialOnly, now).value;
      assert Registered(s.env, one.env) && one.env.resources[entries[0].resourceId] == entries[0].resource;
      ProvisioningNeverRewritesResources(one, p, scope, entries[1..], initialOnly, now);
      forall e | e in entries ensures e == entries[0] || e in entries[1..] {
      }
    }
  }
}
