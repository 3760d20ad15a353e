/** One-shot approvals over every history. */
module AuthApprovals {
  import opened Options
  import opened CanonicalKeys
  import opened AuthModel
  import opened AuthGrants

  /** Facts of a decision that nothing changes later: marking and linking leave them alone. */
  ghost predicate SameFacts(d: Decision, e: Decision) {
    && d.tuple == e.tuple && d.verdict == e.verdict && d.reason == e.reason && d.grant == e.grant
    && d.approval == e.approval && d.condition == e.condition && d.basis == e.basis
  }

  /** A decision that names an approval is an ALLOW on the approval's own tuple and grant; it
      consumed the approval or rechecks an earlier decision naming the same approval. */
  ghost predicate NamedRightly(s: State, i: nat)
    requires i < |s.decisions|
  {
    var d := s.decisions[i];
    d.approval.Some? ==>
      && d.approval.value < |s.approvals|
      && var a := s.approvals[d.approval.value];
         && d.verdict.Allow? && d.reason.Approved? && a.consumed
         && d.tuple == a.tuple && d.grant == Some(a.grant)
         && match d.basis {
              case NoApproval => false
              case Consumes => true
              case RechecksRead(of) => of < i && s.decisions[of].approval == d.approval
              case RechecksAdmission(of) => of < i && s.decisions[of].approval == d.approval
            }
  }

  ghost predicate ConsumedBy(s: State, a: nat, i: nat) {
    i < |s.decisions| && s.decisions[i].basis.Consumes? && s.decisions[i].approval == Some(a)
  }

  ghost predicate ApprovalsInv(s: State) {
    && (forall a :: 0 <= a < |s.approvals| ==>
          s.approvals[a].grant < |s.grants| && s.grants[s.approvals[a].grant].tuple == s.approvals[a].tuple)
    && (forall i :: 0 <= i < |s.decisions| ==> NamedRightly(s, i))
    && (forall a, i, j :: ConsumedBy(s, a, i) && ConsumedBy(s, a, j) ==> i == j)
    && (forall a :: 0 <= a < |s.approvals| && s.approvals[a].consumed ==> exists i: nat :: ConsumedBy(s, a, i))
  }

  /** Rows are only appended; an approval's facts stay and a consumed one stays consumed. */
  ghost predicate LedgerGrew(s: State, t: State) {
    && |s.decisions| <= |t.decisions| && |s.approvals| <= |t.approvals|
    && (forall i :: 0 <= i < |s.decisions| ==> SameFacts(s.decisions[i], t.decisions[i]))
    && (forall a :: 0 <= a < |s.approvals| ==>
          && t.approvals[a].tuple == s.approvals[a].tuple && t.approvals[a].grant == s.approvals[a].grant
          && t.approvals[a].expiresAt == s.approvals[a].expiresAt
          && (s.approvals[a].consumed ==> t.approvals[a].consumed))
  }

  ghost predicate Kept(s: State, t: State) {
    LedgerGrew(s, t) && (ApprovalsInv(s) ==> ApprovalsInv(t))
  }

  lemma KeptTransitive(s: State, t: State, u: State)
    requires Kept(s, t) && Kept(t, u)
    ensures Kept(s, u)
  {
  }

  // ---------------------------------------------------------------------------------------
  // Recording

  /** A new decision that names no approval, or rechecks an earlier one. */
  ghost predicate Admissible(s: State, d: Decision) {
    && !d.basis.Consumes?
    && (d.approval.Some? ==>
          && d.approval.value < |s.approvals|
          && var a := s.approvals[d.approval.value];
             && d.verdict.Allow? && d.reason.Approved? && a.consumed && d.tuple == a.tuple && d.grant == Some(a.grant)
             && !d.basis.NoApproval? && d.basis.of < |s.decisions| && s.decisions[d.basis.of].approval == d.approval)
  }

  lemma AppendKeeps(s: State, d: Decision)
    requires ApprovalsInv(s) ==> Admissible(s, d)
    ensures Kept(s, s.(decisions := s.decisions + [d]))
  {
    var t := s.(decisions := s.decisions + [d]);
    if ApprovalsInv(s) {
      forall i | 0 <= i < |t.decisions| ensures NamedRightly(t, i) {
        if i < |s.decisions| {
          assert NamedRightly(s, i) && t.decisions[i] == s.decisions[i];
        }
      }
      forall a, i | ConsumedBy(t, a, i) ensures ConsumedBy(s, a, i) {
      }
      forall a | 0 <= a < |t.approvals| && t.approvals[a].consumed ensures exists i: nat :: ConsumedBy(t, a, i) {
        var i: nat :| ConsumedBy(s, a, i);
        assert ConsumedBy(t, a, i);
      }
    }
  }

  lemma RefusalKeeps(s: State, req: Request, reason: Reason, grant: Option<nat>)
    ensures Kept(s, Record(s, req, Refusal(reason, grant)))
  {
    AppendKeeps(s, Recorded(req, Refusal(reason, grant)));
  }

  /** The consuming decision: the approval goes from fresh to consumed in the same step. */
  lemma ConsumingKeeps(s: State, req: Request, a: nat, d: Decision)
    requires a < |s.approvals| && !s.approvals[a].consumed
    requires d.approval == Some(a) && d.basis.Consumes? && d.verdict.Allow? && d.reason.Approved?
    requires d.tuple == s.approvals[a].tuple && d.grant == Some(s.approvals[a].grant)
    ensures var t := Consumed(s, a); Kept(s, t.(decisions := t.decisions + [d]))
  {
    var t := Consumed(s, a).(decisions := s.decisions + [d]);
    if ApprovalsInv(s) {
      forall i | 0 <= i < |t.decisions| ensures NamedRightly(t, i) {
        if i < |s.decisions| {
          assert NamedRightly(s, i) && t.decisions[i] == s.decisions[i];
        }
      }
      forall b: nat, i: nat | ConsumedBy(t, b, i) ensures if i < |s.decisions| then ConsumedBy(s, b, i) && b != a else b == a {
        if i < |s.decisions| {
          assert NamedRightly(s, i);
        }
      }
      forall b | 0 <= b < |t.approvals| && t.approvals[b].consumed ensures exists i: nat :: ConsumedBy(t, b, i) {
        if b == a {
          assert ConsumedBy(t, b, |s.decisions|);
        } else {
          var i: nat :| ConsumedBy(s, b, i);
          assert ConsumedBy(t, b, i);
        }
      }
    }
  }

  lemma JudgedDecisions(s: State, req: Request, completed: Option<nat>, now: int)
    ensures var j := Judge(s, req, completed, now);
            if j.basis.Consumes? then
              && req.approvalId.Some? && j.approval == req.approvalId && Eligible(s, req, req.approvalId.value, now)
              && j.verdict.Allow? && j.reason.Approved? && j.grant == Some(s.approvals[req.approvalId.value].grant)
            else ApprovalsInv(s) ==> Admissible(s, Recorded(req, j))
  {
    var j := Judge(s, req, completed, now);
    if ApprovalsInv(s) && !j.basis.Consumes? && j.approval.Some? {
      assert NamedRightly(s, j.basis.of);
    }
  }

  lemma EvaluateKeeps(s: State, req: Request, completed: Option<nat>, now: int)
    ensures Kept(s, Evaluate(s, req, completed, now).0)
  {
    JudgedDecisions(s, req, completed, now);
    var j := Judge(s, req, completed, now);
    if j.basis.Consumes? {
      ConsumingKeeps(s, req, req.approvalId.value, Recorded(req, j));
    } else {
      AppendKeeps(s, Recorded(req, j));
    }
  }

  // ---------------------------------------------------------------------------------------
  // Everything else

  /** Changes that leave every decision's facts, the approvals and the grants' tuples alone. */
  lemma FactsKeep(s: State, t: State)
    requires t.approvals == s.approvals && |t.decisions| == |s.decisions| && Grew(s.grants, t.grants)
    requires forall i :: 0 <= i < |s.decisions| ==> SameFacts(s.decisions[i], t.decisions[i])
    ensures Kept(s, t)
  {
    if ApprovalsInv(s) {
      forall i | 0 <= i < |t.decisions| ensures NamedRightly(t, i) {
        assert NamedRightly(s, i);
        if s.decisions[i].approval.Some? && !s.decisions[i].basis.Consumes? {
          assert SameFacts(s.decisions[s.decisions[i].basis.of], t.decisions[s.decisions[i].basis.of]);
        }
      }
      forall a, i ensures ConsumedBy(s, a, i) == ConsumedBy(t, a, i) {
      }
      forall a | 0 <= a < |t.approvals| && t.approvals[a].consumed ensures exists i: nat :: ConsumedBy(t, a, i) {
        var i: nat :| ConsumedBy(s, a, i);
        assert ConsumedBy(t, a, i);
      }
    }
  }

  lemma MarkKeeps(s: State, d: nat, mark: Mark)
    ensures Kept(s, SetMark(s, d, mark))
  {
    FactsKeep(s, SetMark(s, d, mark));
  }

  lemma LinkKeeps(s: State, d: nat, c: Id, r: Id)
    ensures Kept(s, LinkDecision(s, d, c, r))
  {
    FactsKeep(s, LinkDecision(s, d, c, r));
  }

  lemma ApproveKeeps(s: State, grant: nat, expiresAt: int, now: int)
    ensures Kept(s, Approve(s, grant, expiresAt, now))
  {
    var t := Approve(s, grant, expiresAt, now);
    if ApprovalsInv(s) && t != s {
      forall i | 0 <= i < |t.decisions| ensures NamedRightly(t, i) {
        assert NamedRightly(s, i);
      }
      forall a, i ensures ConsumedBy(s, a, i) == ConsumedBy(t, a, i) {
      }
      forall a | 0 <= a < |t.approvals| && t.approvals[a].consumed ensures exists i: nat :: ConsumedBy(t, a, i) {
        var i: nat :| ConsumedBy(s, a, i);
        assert ConsumedBy(t, a, i);
      }
    }
  }

  lemma {:induction false} RechecksKeep(s: State, receipts: seq<ReadReceipt>, now: int)
    ensures Kept(s, RecheckReads(s, receipts, now).0)
    decreases |receipts|
  {
    if receipts == [] {
      FactsKeep(s, s);
    } else if !ReceiptHolds(s, receipts[0]) {
      RefusalKeeps(s, receipts[0].request, SourceReadUnverified, None);
    } else {
      var t := Evaluate(s, receipts[0].request, Some(receipts[0].decision), now).0;
      EvaluateKeeps(s, receipts[0].request, Some(receipts[0].decision), now);
      RechecksKeep(t, receipts[1..], now);
      KeptTransitive(s, t, RecheckReads(t, receipts[1..], now).0);
    }
  }

  lemma {:induction false} MarksKeep(s: State, decisions: seq<nat>, receipts: seq<ReadReceipt>)
    requires |decisions| == |receipts|
    ensures Kept(s, MarkAll(s, decisions, receipts))
    decreases |receipts|
  {
    if receipts == [] {
      FactsKeep(s, s);
    } else {
      var t := SetMark(s, decisions[0], receipts[0].source);
      MarkKeeps(s, decisions[0], receipts[0].source);
      MarksKeep(t, decisions[1..], receipts[1..]);
      KeptTransitive(s, t, MarkAll(t, decisions[1..], receipts[1..]));
    }
  }

  lemma CompletionKeeps(s: State, receipts: seq<ReadReceipt>, action: Option<Request>, now: int)
    ensures Kept(s, CompleteReads(s, receipts, action, now).0)
  {
    FactsKeep(s, s);
    if action.Some? {
      RefusalKeeps(s, action.value, SourceReadUnverified, None);
    }
    RechecksKeep(s, receipts, now);
    var (t, completion) := RecheckReads(s, receipts, now);
    if completion.Completed? {
      if action.Some? {
        var u := Evaluate(t, action.value, None, now).0;
        EvaluateKeeps(t, action.value, None, now);
        KeptTransitive(s, t, u);
        MarksKeep(u, completion.decisions, receipts);
        KeptTransitive(s, u, MarkAll(u, completion.decisions, receipts));
      } else {
        MarksKeep(t, completion.decisions, receipts);
        KeptTransitive(s, t, MarkAll(t, completion.decisions, receipts));
      }
    }
  }

  lemma ProvisionOneKeeps(s: State, principalId: Id, scope: Scope, e: Entry, initialOnly: bool, now: int)
    ensures var t := ProvisionOne(s, principalId, scope, e, initialOnly, now); t.Some? ==> Kept(s, t.value)
  {
    var t := ProvisionOne(s, principalId, scope, e, initialOnly, now);
    if t.Some? {
      var registered := s.(env := RegisterResource(s.env, e).value);
      var req := EntryRequest(principalId, scope, e);
      var evaluated := Evaluate(registered, req, None, now).0;
      FactsKeep(s, registered);
      EvaluateKeeps(registered, req, None, now);
      KeptTransitive(s, registered, evaluated);
      WriteGrantKeeps(evaluated.grants, req.tuple, AllowEffect, initialOnly);
      FactsKeep(evaluated, t.value);
      KeptTransitive(s, evaluated, t.value);
    }
  }

  lemma {:induction false} ProvisionAllKeeps(s: State, principalId: Id, scope: Scope, entries: seq<Entry>, initialOnly: bool, now: int)
    ensures var t := ProvisionAll(s, principalId, scope, entries, initialOnly, now); t.Some? ==> Kept(s, t.value)
    decreases |entries|
  {
    FactsKeep(s, s);
    if entries != [] {
      ProvisionOneKeeps(s, principalId, scope, entries[0], initialOnly, now);
      var one := ProvisionOne(s, principalId, scope, entries[0], initialOnly, now);
      if one.Some? {
        ProvisionAllKeeps(one.value, principalId, scope, entries[1..], initialOnly, now);
        var rest := ProvisionAll(one.value, principalId, scope, entries[1..], initialOnly, now);
        if rest.Some? {
          KeptTransitive(s, one.value, rest.value);
        }
      }
    }
  }

  /** Every step keeps the approvals one-shot. */
  lemma StepKeeps(s: State, e: Event)
    ensures Kept(s, Step(s, e))
  {
    match e {
      case EEvaluate(req, completed, now) => EvaluateKeeps(s, req, completed, now);
      case ERefuse(req, reason) => RefusalKeeps(s, req, reason, None);
      case EMark(d, mark) => MarkKeeps(s, d, mark);
      case ELink(d, c, r) => LinkKeeps(s, d, c, r);
      case ECompleteReads(receipts, action, now) => CompletionKeeps(s, receipts, action, now);
      case EApprove(g, expiresAt, now) => ApproveKeeps(s, g, expiresAt, now);
      case EProvision(p, k, entries, initialOnly, now) =>
        FactsKeep(s, s);
        ProvisionAllKeeps(s, p, k, entries, initialOnly, now);
      case _ =>
        OnlyOnPurpose(s, e);
        FactsKeep(s, Step(s, e));
    }
  }

  // ---------------------------------------------------------------------------------------
  // Histories

  lemma {:induction false} ApprovalsStayOneShot(s: State, es: seq<Event>)
    ensures Kept(s, After(s, es))
    decreases |es|
  {
    if es == [] {
      FactsKeep(s, s);
    } else {
      var t := Step(s, es[0]);
      StepKeeps(s, es[0]);
      ApprovalsStayOneShot(t, es[1..]);
      KeptTransitive(s, t, After(t, es[1..]));
    }
  }

  lemma {:induction false} TracesBackToItsConsumption(s: State, a: nat, i: nat) returns (first: nat)
    requires ApprovalsInv(s) && i < |s.decisions| && s.decisions[i].approval == Some(a)
    ensures first <= i && ConsumedBy(s, a, first)
    decreases i
  {
    assert NamedRightly(s, i);
    if s.decisions[i].basis.Consumes? {
      first := i;
    } else {
      first := TracesBackToItsConsumption(s, a, s.decisions[i].basis.of);
    }
  }

  /** In every history: all decisions naming an approval are ALLOWs on its own principal, Resource,
      action, scope and grant, exactly one of them consumed it, and each of the others comes later and
      rechecks an earlier one. */
  lemma ApprovalsAreOneShot(es: seq<Event>, s: State, a: nat, i: nat) returns (first: nat)
    requires s == After(EMPTY, es) && i < |s.decisions| && s.decisions[i].approval == Some(a)
    ensures a < |s.approvals| && s.approvals[a].consumed
    ensures s.decisions[i].verdict.Allow? && s.decisions[i].tuple == s.approvals[a].tuple
            && s.decisions[i].grant == Some(s.approvals[a].grant)
    ensures first <= i && ConsumedBy(s, a, first) && forall j: nat :: ConsumedBy(s, a, j) ==> j == first
    ensures s.decisions[i].basis.Consumes? <==> i == first
  {
    ApprovalsStayOneShot(EMPTY, es);
    OneShotNow(s);
    assert NamedRightly(s, i);
    first := TracesBackToItsConsumption(s, a, i);
    assert s.decisions[i].basis.Consumes? ==> ConsumedBy(s, a, i);
  }

  lemma OneShotNow(s: State)
    requires LedgerGrew(EMPTY, s) && (ApprovalsInv(EMPTY) ==> ApprovalsInv(s))
    ensures ApprovalsInv(s)
  {
  }

  /** A consumed approval admits nobody again: an evaluation that names it is refused unless an allow
      row covers the request anyway. */
  lemma ConsumedApprovalsAdmitNobody(s: State, req: Request, now: int)
    requires req.approvalId.Some? && req.approvalId.value < |s.approvals| && s.approvals[req.approvalId.value].consumed
    ensures var j := Judge(s, req, None, now);
            j.verdict.Allow? ==> j.reason.ExplicitGrant? && j.approval.None?
  {
  }
}
