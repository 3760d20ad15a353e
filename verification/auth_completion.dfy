/** Exactly which reads can be completed. */
module AuthCompletion {
  import opened Options
  import opened AuthModel
  import opened AuthEvaluation

  /** What comes after the last colon. */
  ghost predicate LastPart(action: string, verb: string) {
    ':' !in verb && (action == verb || exists front: string :: action == front + ":" + verb)
  }

  lemma {:induction false} VerbIsTheLastPart(action: string)
    ensures LastPart(action, Verb(action))
    decreases |action|
  {
    if ':' in action {
      VerbIsTheLastPart(action[1..]);
      var verb := Verb(action[1..]);
      if action[1..] == verb {
        assert action == "" + ":" + verb;
      } else {
        var front: string :| action[1..] == front + ":" + verb;
        assert action == [action[0]] + front + ":" + verb;
      }
    }
  }

  lemma LongerHasColon(action: string, v: string, w: string)
    requires LastPart(action, v) && |v| < |w| <= |action| && action[|action| - |w|..] == w
    ensures ':' in w
  {
    assert action[|action| - |v| - 1] == w[|w| - |v| - 1];
  }

  lemma LastPartsAreUnique(action: string, v: string, w: string)
    requires LastPart(action, v) && LastPart(action, w)
    ensures v == w
  {
    assert action[|action| - |v|..] == v && action[|action| - |w|..] == w;
    if |v| < |w| {
      LongerHasColon(action, v, w);
    } else if |w| < |v| {
      LongerHasColon(action, w, v);
    }
  }

  /** A read's result is content where the action reads, and a gate where it searches; neither on the public web. */
  ghost predicate Classified(action: string, kind: string, m: Mark) {
    kind != "web-public"
    && ((m.ContentSource? && (LastPart(action, "read") || LastPart(action, "list") || LastPart(action, "status")))
        || (m.AccessGate? && LastPart(action, "search")))
  }

  lemma ClassificationIsExact(action: string, kind: string, m: Mark)
    ensures ClassifyProtectedRead(action, kind) == Some(m) <==> Classified(action, kind, m)
  {
    VerbIsTheLastPart(action);
    forall v | LastPart(action, v) ensures v == Verb(action) {
      LastPartsAreUnique(action, v, Verb(action));
    }
  }

  /** The receipt's decision allowed this very read under the same route, and the mark is one it may have. */
  ghost predicate Vouches(s: State, r: ReadReceipt) {
    && r.decision < |s.decisions| && r.request.tuple.resourceId in s.env.resources
    && var (d, u, kind) := (s.decisions[r.decision], r.request.tuple, s.env.resources[r.request.tuple.resourceId].kind);
       && d.verdict.Allow? && d.tuple == u && d.runId == r.request.runId && d.conversationId == r.request.conversationId
       && (match d.condition case None => RecordedRoute(r.request.route).None? case Some(c) => RecordedRoute(r.request.route) == Some(c))
       && (|| Classified(u.action, kind, r.source)
           || (r.source.ContentSource? && d.mark == Some(ContentSource)
               && ((kind == "workspace" && "workspace:" <= u.resourceId && u.action == "workspace:write")
                   || (kind == "owner-control" && u.resourceId == "owner-control" && u.action == "model:switch")))
           || (r.source.AccessGate? && d.mark == Some(AccessGate) && kind == "owner-memory" && u.resourceId == "owner-memory"
               && u.action == "memory:read" && r.request.route == Named(NoCondition)))
  }

  lemma ReceiptsVouchExactly(s: State, r: ReadReceipt)
    ensures ReceiptHolds(s, r) <==> Vouches(s, r)
  {
    RoutesAreRecorded(r.request.route);
    if r.request.tuple.resourceId in s.env.resources {
      ClassificationIsExact(r.request.tuple.action, s.env.resources[r.request.tuple.resourceId].kind, r.source);
    }
  }

  // ---------------------------------------------------------------------------------------
  // The whole completion

  /** More decisions behind these; nothing else differs. */
  ghost predicate Later(s: State, t: State) {
    t == s.(decisions := t.decisions) && s.decisions <= t.decisions
  }

  lemma LaterIsAlike(s: State, t: State, req: Request, of: nat, now: int)
    requires Later(s, t) && of < |s.decisions|
    ensures Judge(t, req, Some(of), now) == Judge(s, req, Some(of), now)
  {
    assert t.decisions[of] == s.decisions[of];
    assert Precheck(t, req) == Precheck(s, req);
    assert forall g: nat :: CompletesRead(t, req, g, of, now) == CompletesRead(s, req, g, of, now);
  }

  lemma LaterVouches(s: State, t: State, r: ReadReceipt)
    requires Later(s, t) && r.decision < |s.decisions|
    ensures Vouches(t, r) == Vouches(s, r)
  {
    assert t.decisions[r.decision] == s.decisions[r.decision];
  }

  lemma CompletingAddsOne(s: State, req: Request, of: nat, now: int)
    ensures Later(s, Evaluate(s, req, Some(of), now).0)
  {
  }

  /** The receipt vouches for its read, and the read is allowed again. */
  ghost predicate Completes(s: State, r: ReadReceipt, now: int) {
    Vouches(s, r) && Judge(s, r.request, Some(r.decision), now).verdict.Allow?
  }

  lemma OneCompletes(s: State, t: State, r: ReadReceipt, now: int)
    requires Later(s, t) && r.decision < |s.decisions|
    ensures ReceiptHolds(t, r) && Judge(t, r.request, Some(r.decision), now).verdict.Allow? <==> Completes(s, r, now)
  {
    ReceiptsVouchExactly(t, r);
    LaterVouches(s, t, r);
    LaterIsAlike(s, t, r.request, r.decision, now);
  }

  lemma LaterTransitive(s: State, t: State, u: State)
    requires Later(s, t) && Later(t, u)
    ensures Later(s, u)
  {
  }

  lemma RefusalIsLater(t: State, req: Request)
    ensures Later(t, Record(t, req, Refusal(SourceReadUnverified)))
  {
  }

  lemma {:induction false} RechecksExactlyWhen(s: State, t: State, receipts: seq<ReadReceipt>, now: int)
    requires Later(s, t) && forall r :: r in receipts ==> r.decision < |s.decisions|
    ensures RecheckReads(t, receipts, now).1.Completed? <==> forall r :: r in receipts ==> Completes(s, r, now)
    ensures Later(s, RecheckReads(t, receipts, now).0)
    decreases |receipts|
  {
    if receipts != [] {
      var r, rest := receipts[0], receipts[1..];
      var u := Evaluate(t, r.request, Some(r.decision), now).0;
      OneCompletes(s, t, r, now);
      CompletingAddsOne(t, r.request, r.decision, now);
      LaterTransitive(s, t, u);
      RefusalIsLater(t, r.request);
      LaterTransitive(s, t, Record(t, r.request, Refusal(SourceReadUnverified)));
      RechecksExactlyWhen(s, u, rest, now);
      assert forall x :: x in receipts <==> x == r || x in rest;
    }
  }

  ghost predicate OneCaller(a: Request, b: Request) {
    && a.tuple.principalId == b.tuple.principalId && a.tuple.scope == b.tuple.scope
    && a.runId == b.runId && a.conversationId == b.conversationId && a.delegatedTaskId == b.delegatedTaskId
  }

  /** Reads that were decided before are completed, with the action that depends on them, if and only if there are at
      most 128, all are the action's caller's, every receipt vouches for its read, every read is allowed again, and so
      is the action once they are. */
  lemma CompletesExactlyWhen(s: State, receipts: seq<ReadReceipt>, action: Option<Request>, now: int)
    requires forall r :: r in receipts ==> r.decision < |s.decisions|
    ensures CompleteReads(s, receipts, action, now).1 <==>
              && |receipts| <= 128 && (action.Some? ==> forall r :: r in receipts ==> OneCaller(r.request, action.value))
              && (forall r :: r in receipts ==> Completes(s, r, now))
              && (action.Some? ==> Judge(RecheckReads(s, receipts, now).0, action.value, None, now).verdict.Allow?)
  {
    RechecksExactlyWhen(s, s, receipts, now);
    forall r | r in receipts && action.Some? ensures OneCaller(r.request, action.value) == SameCaller(r.request, action.value) {
    }
  }

  // ---------------------------------------------------------------------------------------
  // Marks and links

  /** Everything about a decision but its mark and what it is linked to. */
  ghost predicate SameDecision(d: Decision, e: Decision) {
    e == d.(mark := e.mark, runId := e.runId, conversationId := e.conversationId)
  }

  /** A mark lands on the decision it names, if that allowed something and has none, and nowhere else. */
  lemma MarksLandExactly(s: State, decision: nat, mark: Mark)
    ensures var t := SetMark(s, decision, mark);
            && t == s.(decisions := t.decisions) && |t.decisions| == |s.decisions|
            && forall i :: 0 <= i < |s.decisions| ==>
                 && SameDecision(s.decisions[i], t.decisions[i])
                 && t.decisions[i].runId == s.decisions[i].runId && t.decisions[i].conversationId == s.decisions[i].conversationId
                 && t.decisions[i].mark == if i == decision && s.decisions[i].verdict == Allow && s.decisions[i].mark.None? then Some(mark)
                                           else s.decisions[i].mark
  {
  }

  /** A link files the decision it names under a Run and its Conversation, and touches nothing else. */
  lemma LinksLandExactly(s: State, decision: nat, conversationId: Id, runId: Id)
    ensures var t := LinkDecision(s, decision, conversationId, runId);
            && t == s.(decisions := t.decisions) && |t.decisions| == |s.decisions|
            && forall i :: 0 <= i < |s.decisions| ==>
                 && SameDecision(s.decisions[i], t.decisions[i]) && t.decisions[i].mark == s.decisions[i].mark
                 && t.decisions[i].runId == (if i == decision then Some(runId) else s.decisions[i].runId)
                 && t.decisions[i].conversationId == if i == decision then Some(conversationId) else s.decisions[i].conversationId
  {
  }
}
