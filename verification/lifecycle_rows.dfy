/** Every row after every step: exactly which events move it, from where to where, and what they write. */
module LifecycleRows {
  import opened LifecycleModel
  import opened Options
  import LifecycleAttention
  import LifecycleDeliveries
  import LifecycleRuns

  const RUN_EDGES: set<(RunStatus, RunStatus)> := {
    (Queued, Running), (Queued, Cancelled),
    (Running, Cancelling), (Running, Succeeded), (Running, RunStatus.Failed), (Running, Interrupted), (Running, RunStatus.Unknown),
    (Cancelling, Cancelled), (Cancelling, Succeeded), (Cancelling, RunStatus.Failed), (Cancelling, Interrupted),
    (Cancelling, RunStatus.Unknown)
  }

  const DELIVERY_EDGES: set<(DeliveryStatus, DeliveryStatus)> := {
    (Pending, Sending), (Sending, Sent), (Sending, DeliveryStatus.Failed), (Sending, DeliveryStatus.Unknown),
    (DeliveryStatus.Failed, Pending)
  }

  // ---------------------------------------------------------------------------------------
  // Runs

  /** Nothing is under way in its Conversation, and nothing was asked there before it that still waits. */
  ghost predicate IsNext(s: State, r: Id)
    requires r in s.runs
  {
    && s.runs[r].status == Queued
    && forall q :: q in s.runs && s.runs[q].conversationId == s.runs[r].conversationId ==>
         && s.runs[q].status != Running && s.runs[q].status != Cancelling
         && (s.runs[q].status == Queued ==> s.runs[r].sequence <= s.runs[q].sequence)
  }

  /** The event takes this Run to this row. */
  ghost predicate MovesRun(s: State, e: Event, r: Id, b: Run)
    requires r in s.runs
  {
    var a := s.runs[r];
    match e
    case ETransitionRun(caller, id, from, to, text, allowed) =>
      && id == r && allowed && a.principalId == caller.principalId && a.status == from && (from, to) in RUN_EDGES
      && (text.Some? ==> |text.value| <= 64_000) && (to == Running ==> IsNext(s, r))
      && b == a.(status := to, resultText := if text.Some? then text else a.resultText)
    case EClaimQueuedRun(caller, id, lease, allowed) =>
      id == r && allowed && a.principalId == caller.principalId && IsNext(s, r) && lease !in s.issued && b == a.(status := Running)
    case ECommitSettleRun(lease, readable, aborts) =>
      && lease in s.runLeases && s.runLeases[lease].runId == r && s.runLeases[lease].pending.Some? && !aborts
      && var o := s.runLeases[lease].pending.value;
         && (a.status == Cancelling || (a.status == Running && o.status != Cancelled))
         && b == a.(status := o.status, resultText := if readable then o.text else None, failureCode := o.failureCode)
    case EFailQueuedDispatch(caller, id, item) =>
      && id == r && a.principalId == caller.principalId && a.scopeKey == caller.scopeKey
      && (|| (a.status == Cancelling && b == a.(status := Cancelled, resultText := Some(STOPPED_TEXT)))
          || ((a.status == Queued || a.status == Running) && item !in s.attention
              && b == a.(status := RunStatus.Failed, resultText := Some(NOT_STARTED_TEXT))))
    case ECancelForTask(caller, id) =>
      && id == r && a.principalId == caller.principalId && a.source == TaskStep
      && (|| (a.status == Queued && b == a.(status := Cancelled))
          || (a.status == Running && b == a.(status := Cancelling)))
    case ERecover =>
      || (a.status == Running && b == a.(status := Interrupted))
      || (a.status == Cancelling && b == a.(status := RunStatus.Unknown))
    case _ => false
  }

  ghost predicate RunMovedExactly(s: State, e: Event, r: Id, t: State)
    requires r in s.runs
  {
    && r in t.runs && (forall b :: MovesRun(s, e, r, b) ==> t.runs[r] == b)
    && (t.runs[r] != s.runs[r] ==> MovesRun(s, e, r, t.runs[r]))
  }

  lemma NextIsFirst(s: State, r: Id)
    requires r in s.runs
    ensures IsNext(s, r) <==> IsFirstQueued(s, r) && !HasActiveRun(s, s.runs[r].conversationId)
  {
  }

  lemma TransitionMovesExactly(s: State, e: Event, r: Id)
    requires r in s.runs && e.ETransitionRun?
    ensures RunMovedExactly(s, e, r, TransitionRun(s, e.caller, e.id, e.expected, e.next, e.text, e.allowed).0)
  {
    NextIsFirst(s, r);
    assert (e.expected, e.next) in RUN_EDGES <==> ListedRunTransition(e.expected, e.next);
  }

  lemma ClaimMovesExactly(s: State, e: Event, r: Id)
    requires r in s.runs && e.EClaimQueuedRun?
    ensures RunMovedExactly(s, e, r, ClaimQueuedRun(s, e.caller, e.id, e.lease, e.allowed).0)
  {
    NextIsFirst(s, r);
  }

  lemma SettlementMovesExactly(s: State, e: Event, r: Id)
    requires r in s.runs && e.ECommitSettleRun?
    ensures RunMovedExactly(s, e, r, CommitSettleRun(s, e.lease, e.readable, e.aborts).0)
  {
  }

  lemma DispatchMovesExactly(s: State, e: Event, r: Id)
    requires r in s.runs && e.EFailQueuedDispatch?
    ensures RunMovedExactly(s, e, r, FailQueuedDispatch(s, e.caller, e.id, e.attentionId).0)
  {
  }

  lemma CancellationMovesExactly(s: State, e: Event, r: Id)
    requires r in s.runs && e.ECancelForTask?
    ensures RunMovedExactly(s, e, r, CancelForTask(s, e.caller, e.id).0)
  {
  }

  /** In any state, whatever the event: a Run's row becomes exactly what the event says where everything the event
      asks for is there, and otherwise stays. */
  lemma RunsMoveExactlyWhen(s: State, e: Event, r: Id)
    requires r in s.runs
    ensures RunMovedExactly(s, e, r, Step(s, e))
  {
    match e
    case ETransitionRun(_, _, _, _, _, _) => TransitionMovesExactly(s, e, r);
    case EClaimQueuedRun(_, _, _, _) => ClaimMovesExactly(s, e, r);
    case ECommitSettleRun(_, _, _) => SettlementMovesExactly(s, e, r);
    case EFailQueuedDispatch(_, _, _) => DispatchMovesExactly(s, e, r);
    case ECancelForTask(_, _) => CancellationMovesExactly(s, e, r);
    case _ => QuietForRuns(s, e, r);
  }

  lemma QuietForRuns(s: State, e: Event, r: Id)
    requires r in s.runs && !e.ETransitionRun? && !e.EClaimQueuedRun? && !e.ECommitSettleRun? && !e.EFailQueuedDispatch?
    requires !e.ECancelForTask?
    ensures RunMovedExactly(s, e, r, Step(s, e))
  {
  }

  /** Only accepting adds a Run, queued behind every other, for whom and from where it was asked. */
  lemma RunsArriveExactlyWhen(s: State, e: Event, r: Id)
    requires r !in s.runs
    ensures var t := Step(s, e);
            && (r in t.runs <==> e.EAcceptRun? && e.id == r)
            && (r in t.runs ==> t.runs[r] == Run(e.conversationId, s.nextSequence, e.caller.principalId, e.caller.scopeKey, e.source,
                                                 Queued, None, None)
                                && t.nextSequence == s.nextSequence + 1)
  {
    LifecycleRuns.StepIsRunsStep(s, e);
  }

  // ---------------------------------------------------------------------------------------
  // Deliveries

  /** The caller is the one the Run answers, calling from where the delivery goes. */
  ghost predicate AtItsDoor(s: State, caller: Caller, r: Id, d: Id)
    requires d in s.deliveries
  {
    && r in s.runs && s.runs[r].principalId == caller.principalId && s.runs[r].source == External
    && s.deliveries[d].runId == r && s.deliveries[d].destination == caller.scopeKey
  }

  /** There is no item under the delivery's name but its own. */
  ghost predicate NameIsIts(s: State, r: Id, d: Id) {
    r in s.runs && ("delivery-" + d in s.attention ==>
                      && s.attention["delivery-" + d].kind == DeliveryFailed
                      && s.attention["delivery-" + d].conversationId == Some(s.runs[r].conversationId))
  }

  /** The event takes this delivery to this row. */
  ghost predicate MovesDelivery(s: State, e: Event, d: Id, b: Delivery)
    requires d in s.deliveries
  {
    var a := s.deliveries[d];
    match e
    case EClaimDelivery(caller, r, id, lease, allowed) =>
      id == d && allowed && AtItsDoor(s, caller, r, d) && a.status == Pending && lease !in s.issued && b == a.(status := Sending)
    case ETransitionDelivery(caller, r, id, from, to, x, allowed) =>
      && id == d && allowed && AtItsDoor(s, caller, r, d) && a.status == from && (from, to) in DELIVERY_EDGES
      && (from == Sending ==> to == Sent || NameIsIts(s, r, d))
      && b == a.(status := to, externalId := if x.Some? then x else a.externalId)
    case ECommitSettleDelivery(lease, aborts) =>
      && lease in s.deliveryLeases && s.deliveryLeases[lease].deliveryId == d && s.deliveryLeases[lease].pending.Some? && !aborts
      && a.runId == s.deliveryLeases[lease].runId && a.status == Sending
      && var o := s.deliveryLeases[lease].pending.value;
         && (o.status == Sent || NameIsIts(s, a.runId, d))
         && b == a.(status := o.status, externalId := o.externalId)
    case ERecover => a.status == Sending && b == a.(status := DeliveryStatus.Unknown)
    case _ => false
  }

  ghost predicate DeliveryMovedExactly(s: State, e: Event, d: Id, t: State)
    requires d in s.deliveries
  {
    && d in t.deliveries && (forall b :: MovesDelivery(s, e, d, b) ==> t.deliveries[d] == b)
    && (t.deliveries[d] != s.deliveries[d] ==> MovesDelivery(s, e, d, t.deliveries[d]))
  }

  lemma FilesExactlyWhen(s: State, r: Id, d: Id, status: DeliveryStatus)
    ensures RecordAttention(s, r, d, status).Some? <==> status == Sent || NameIsIts(s, r, d)
  {
    assert AttentionId(d) == "delivery-" + d;
  }

  lemma ClaimSendsExactly(s: State, e: Event, d: Id)
    requires d in s.deliveries && e.EClaimDelivery?
    ensures DeliveryMovedExactly(s, e, d, ClaimDelivery(s, e.caller, e.runId, e.id, e.lease, e.allowed).0)
  {
  }

  lemma HandMovesExactly(s: State, e: Event, d: Id)
    requires d in s.deliveries && e.ETransitionDelivery?
    ensures DeliveryMovedExactly(s, e, d, TransitionDelivery(s, e.caller, e.runId, e.id, e.from, e.to, e.externalId, e.allowed).0)
  {
    FilesExactlyWhen(s, e.runId, d, e.to);
    assert (e.from, e.to) in DELIVERY_EDGES <==> ListedDeliveryTransition(e.from, e.to);
  }

  lemma SettlementSendsExactly(s: State, e: Event, d: Id)
    requires d in s.deliveries && e.ECommitSettleDelivery?
    ensures DeliveryMovedExactly(s, e, d, CommitSettleDelivery(s, e.lease, e.aborts).0)
  {
    if e.lease in s.deliveryLeases && s.deliveryLeases[e.lease].pending.Some? {
      var l := s.deliveryLeases[e.lease];
      FilesExactlyWhen(s, l.runId, l.deliveryId, l.pending.value.status);
    }
  }

  /** In any state, whatever the event: a delivery's row becomes exactly what the event says where everything the event
      asks for is there, and otherwise stays. */
  lemma DeliveriesMoveExactlyWhen(s: State, e: Event, d: Id)
    requires d in s.deliveries
    ensures DeliveryMovedExactly(s, e, d, Step(s, e))
  {
    match e
    case EClaimDelivery(_, _, _, _, _) => ClaimSendsExactly(s, e, d);
    case ETransitionDelivery(_, _, _, _, _, _, _) => HandMovesExactly(s, e, d);
    case ECommitSettleDelivery(_, _) => SettlementSendsExactly(s, e, d);
    case _ => QuietForDeliveries(s, e, d);
  }

  lemma QuietForDeliveries(s: State, e: Event, d: Id)
    requires d in s.deliveries && !e.EClaimDelivery? && !e.ETransitionDelivery? && !e.ECommitSettleDelivery?
    ensures DeliveryMovedExactly(s, e, d, Step(s, e))
  {
  }

  /** Only creating adds a delivery: pending, as asked, for an external Run of the caller, to where the caller calls from,
      under a key of its own. */
  lemma DeliveriesArriveExactlyWhen(s: State, e: Event, d: Id)
    requires d !in s.deliveries
    ensures var t := Step(s, e);
            && (d in t.deliveries <==>
                  && e.ECreateDelivery? && e.id == d && |e.payloadText| <= 64_000 && e.destination == e.caller.scopeKey && e.allowed
                  && e.runId in s.runs && s.runs[e.runId].principalId == e.caller.principalId && s.runs[e.runId].source == External
                  && forall x :: x in s.deliveries ==> s.deliveries[x].runId != e.runId || s.deliveries[x].dedupKey != e.dedupKey)
            && (d in t.deliveries ==>
                  && t.deliveries[d] == Delivery(e.runId, e.dedupKey, e.destination, e.payloadText, e.payloadKind, Pending, None, s.nextRow)
                  && t.nextRow == s.nextRow + 1)
  {
    LifecycleDeliveries.StepIsDeliveriesStep(s, e);
  }

  // ---------------------------------------------------------------------------------------
  // Attention items

  /** Somebody should look at the delivery, and nothing is filed under its name. */
  ghost predicate IsLacking(s: State, d: Id) {
    && d in s.deliveries && s.deliveries[d].runId in s.runs && "delivery-" + d !in s.attention
    && (s.deliveries[d].status == Sending || s.deliveries[d].status == DeliveryStatus.Failed
        || s.deliveries[d].status == DeliveryStatus.Unknown)
  }

  /** Interrupted sends come first, then what was created first. */
  ghost predicate GoesFirst(s: State, d: Id, x: Id)
    requires d in s.deliveries && x in s.deliveries
  {
    var a, b := s.deliveries[d], s.deliveries[x];
    (a.status == Sending && b.status != Sending) || ((a.status == Sending <==> b.status == Sending) && a.rowId < b.rowId)
  }

  ghost function LackingAhead(s: State, d: Id): set<Id>
    requires d in s.deliveries
  {
    set x | x in s.deliveries && IsLacking(s, x) && GoesFirst(s, x, d)
  }

  /** An outcome files the delivery's item, or opens it again; a success resolves the open one. */
  ghost predicate Records(s: State, r: Id, d: Id, status: DeliveryStatus, a: Id, b: Attention) {
    && a == "delivery-" + d && r in s.runs && NameIsIts(s, r, d)
    && if status == Sent then a in s.attention && b == s.attention[a].(resolved := true)
       else b == Attention(DeliveryFailed, Some(s.runs[r].conversationId), false)
  }

  /** The event leaves this item in this form. */
  ghost predicate WritesItem(s: State, e: Event, a: Id, b: Attention) {
    match e
    case EFailQueuedDispatch(caller, id, item) =>
      && item == a && a !in s.attention && id in s.runs && s.runs[id].principalId == caller.principalId
      && s.runs[id].scopeKey == caller.scopeKey && (s.runs[id].status == Queued || s.runs[id].status == Running)
      && b == Attention(UnansweredMessage, Some(s.runs[id].conversationId), false)
    case ETransitionDelivery(caller, r, id, from, to, x, allowed) =>
      && allowed && id in s.deliveries && AtItsDoor(s, caller, r, id) && s.deliveries[id].status == from == Sending
      && (to == Sent || to == DeliveryStatus.Failed || to == DeliveryStatus.Unknown) && Records(s, r, id, to, a, b)
    case ECommitSettleDelivery(lease, aborts) =>
      && lease in s.deliveryLeases && s.deliveryLeases[lease].pending.Some? && !aborts
      && var l := s.deliveryLeases[lease];
         && l.deliveryId in s.deliveries && s.deliveries[l.deliveryId].runId == l.runId && s.deliveries[l.deliveryId].status == Sending
         && Records(s, l.runId, l.deliveryId, l.pending.value.status, a, b)
    case EResolveAttention(item) => item == a && a in s.attention && b == s.attention[a].(resolved := true)
    case EAddAttention(item, kind, about) => item == a && a !in s.attention && !("delivery-" <= a) && b == Attention(kind, about, false)
    case ERecover =>
      exists d :: && a == "delivery-" + d && IsLacking(s, d) && |LackingAhead(s, d)| < 1000
                  && b == Attention(DeliveryFailed, Some(s.runs[s.deliveries[d].runId].conversationId), false)
    case _ => false
  }

  ghost predicate ItemWrittenExactly(s: State, e: Event, a: Id, after: map<Id, Attention>) {
    && (forall b :: WritesItem(s, e, a, b) ==> a in after && after[a] == b)
    && (a in after && (a in s.attention ==> after[a] != s.attention[a]) ==> WritesItem(s, e, a, after[a]))
    && (a in s.attention ==> a in after)
  }

  lemma RecordsExactly(s: State, r: Id, d: Id, status: DeliveryStatus, a: Id)
    requires RecordAttention(s, r, d, status).Some? && r in s.runs
    ensures var after := RecordAttention(s, r, d, status).value;
            && (forall b :: Records(s, r, d, status, a, b) ==> a in after && after[a] == b)
            && (a in after && (a in s.attention ==> after[a] != s.attention[a]) ==> Records(s, r, d, status, a, after[a]))
            && (a in s.attention ==> a in after)
  {
    assert AttentionId(d) == "delivery-" + d;
  }

  lemma LackingIsExact(s: State, d: Id)
    requires d in s.deliveries
    ensures d in Lacking(s) <==> IsLacking(s, d)
    ensures Ahead(s, Lacking(s), d) == LackingAhead(s, d)
  {
    assert AttentionId(d) == "delivery-" + d;
    forall x | x in s.deliveries ensures x in Ahead(s, Lacking(s), d) <==> x in LackingAhead(s, d) {
      assert AttentionId(x) == "delivery-" + x;
    }
  }

  lemma BackfillFilesExactly(s: State, a: Id)
    ensures ItemWrittenExactly(s, ERecover, a, BackfillAttention(s))
  {
    LifecycleAttention.NamesAreExact();
    var ds := Batch(s, Lacking(s), BACKFILL_LIMIT);
    forall b | WritesItem(s, ERecover, a, b) ensures a in BackfillAttention(s) && BackfillAttention(s)[a] == b {
      var d :| && a == "delivery-" + d && IsLacking(s, d) && |LackingAhead(s, d)| < 1000
               && b == Attention(DeliveryFailed, Some(s.runs[s.deliveries[d].runId].conversationId), false);
      LackingIsExact(s, d);
      assert d in ds && a == AttentionId(d);
    }
    if a in BackfillAttention(s) && a !in s.attention {
      var d := DeliveryNamed(a);
      LackingIsExact(s, d);
      assert d in ds && a == "delivery-" + d;
    }
    if a in s.attention {
      LifecycleAttention.BackfillKeepsItems(s, a);
    }
  }

  lemma HandFilesExactly(s: State, e: Event, a: Id)
    requires e.ETransitionDelivery?
    ensures ItemWrittenExactly(s, e, a, TransitionDelivery(s, e.caller, e.runId, e.id, e.from, e.to, e.externalId, e.allowed).0.attention)
  {
    FilesExactlyWhen(s, e.runId, e.id, e.to);
    if e.runId in s.runs && RecordAttention(s, e.runId, e.id, e.to).Some? {
      RecordsExactly(s, e.runId, e.id, e.to, a);
    }
  }

  lemma SettlementFilesExactly(s: State, e: Event, a: Id)
    requires e.ECommitSettleDelivery? && LifecycleAttention.AttentionInv(s)
    ensures ItemWrittenExactly(s, e, a, CommitSettleDelivery(s, e.lease, e.aborts).0.attention)
  {
    if e.lease in s.deliveryLeases && s.deliveryLeases[e.lease].pending.Some? {
      var l := s.deliveryLeases[e.lease];
      FilesExactlyWhen(s, l.runId, l.deliveryId, l.pending.value.status);
      if l.runId in s.runs && RecordAttention(s, l.runId, l.deliveryId, l.pending.value.status).Some? {
        RecordsExactly(s, l.runId, l.deliveryId, l.pending.value.status, a);
      }
    }
  }

  /** In any state of a history, whatever the event: an item is added or changed exactly where the event says so, and is
      then as the event says; no item is ever dropped. */
  lemma ItemsChangeExactlyWhen(s: State, e: Event, a: Id)
    requires LifecycleAttention.AttentionInv(s)
    ensures ItemWrittenExactly(s, e, a, Step(s, e).attention)
  {
    match e
    case ETransitionDelivery(_, _, _, _, _, _, _) => HandFilesExactly(s, e, a);
    case ECommitSettleDelivery(_, _) => SettlementFilesExactly(s, e, a);
    case ERecover => BackfillFilesExactly(s, a);
    case EFailQueuedDispatch(_, _, _) => DispatchFilesExactly(s, e, a);
    case EResolveAttention(_) => OthersFileExactly(s, e, a);
    case EAddAttention(_, _, _) => OthersFileExactly(s, e, a);
    case _ => QuietForItems(s, e, a);
  }

  lemma DispatchFilesExactly(s: State, e: Event, a: Id)
    requires e.EFailQueuedDispatch?
    ensures ItemWrittenExactly(s, e, a, FailQueuedDispatch(s, e.caller, e.id, e.attentionId).0.attention)
  {
  }

  lemma OthersFileExactly(s: State, e: Event, a: Id)
    requires e.EResolveAttention? || e.EAddAttention?
    ensures e.EResolveAttention? ==> ItemWrittenExactly(s, e, a, ResolveAttention(s, e.attentionId).attention)
    ensures e.EAddAttention? ==> ItemWrittenExactly(s, e, a, AddAttention(s, e.attentionId, e.kind, e.about).attention)
  {
  }

  lemma QuietForItems(s: State, e: Event, a: Id)
    requires !LifecycleAttention.WritesItems(e)
    ensures ItemWrittenExactly(s, e, a, Step(s, e).attention)
  {
    LifecycleAttention.OnlyItemWriters(s, e);
  }

  // ---------------------------------------------------------------------------------------
  // Leases

  /** The event leaves this lease of a Run in this form. */
  ghost predicate WritesRunLease(s: State, e: Event, l: Id, b: RunLease) {
    match e
    case EClaimQueuedRun(caller, id, lease, allowed) =>
      && lease == l && l !in s.issued && id in s.runs && allowed && s.runs[id].principalId == caller.principalId && IsNext(s, id)
      && b == RunLease(id, true, None)
    case EBeginSettleRun(lease, o) =>
      && lease == l && l in s.runLeases && s.runLeases[l].active
      && o.status != Queued && o.status != Running && o.status != Cancelling
      && (o.text.Some? ==> |o.text.value| <= 64_000) && (o.failureCode.Some? ==> |o.failureCode.value| <= 64)
      && b == RunLease(s.runLeases[l].runId, false, Some(o))
    case ECommitSettleRun(lease, readable, aborts) =>
      && lease == l && l in s.runLeases && s.runLeases[l].pending.Some?
      && var r := s.runLeases[l].runId;
         var goes := r in s.runs && exists q :: MovesRun(s, e, r, q);
         b == if goes then s.runLeases[l].(pending := None) else RunLease(r, true, None)
    case EReconcileRun(lease) =>
      && lease == l && l in s.runLeases && s.runLeases[l].runId in s.runs
      && s.runs[s.runLeases[l].runId].status !in {Queued, Running, Cancelling}
      && b == s.runLeases[l].(active := false)
    case _ => false
  }

  ghost predicate RunLeaseWrittenExactly(s: State, e: Event, l: Id, after: map<Id, RunLease>) {
    && (forall b :: WritesRunLease(s, e, l, b) ==> l in after && after[l] == b)
    && (l in after && (l in s.runLeases ==> after[l] != s.runLeases[l]) ==> WritesRunLease(s, e, l, after[l]))
    && (l in s.runLeases && l !in after ==> e.ECrash?) && (e.ECrash? ==> after == map[])
  }

  lemma ClaimLeasesExactly(s: State, e: Event, l: Id)
    requires e.EClaimQueuedRun?
    ensures RunLeaseWrittenExactly(s, e, l, ClaimQueuedRun(s, e.caller, e.id, e.lease, e.allowed).0.runLeases)
  {
    if e.id in s.runs {
      NextIsFirst(s, e.id);
    }
  }

  lemma CommitLeasesExactly(s: State, e: Event, l: Id)
    requires e.ECommitSettleRun?
    ensures RunLeaseWrittenExactly(s, e, l, CommitSettleRun(s, e.lease, e.readable, e.aborts).0.runLeases)
  {
    var (t, out) := CommitSettleRun(s, e.lease, e.readable, e.aborts);
    if e.lease in s.runLeases && s.runLeases[e.lease].pending.Some? {
      var r := s.runLeases[e.lease].runId;
      if out.Done? {
        assert MovesRun(s, e, r, t.runs[r]);
      } else if r in s.runs {
        assert forall q :: !MovesRun(s, e, r, q);
      }
    }
  }

  /** A lease is handed out exactly by the claim that starts its Run, goes quiet while a settlement is under way, speaks
      again when that settlement does not commit, and is silenced for good by one that commits, by a Run that turns out
      to have ended, and by a crash. */
  lemma RunLeasesChangeExactlyWhen(s: State, e: Event, l: Id)
    ensures RunLeaseWrittenExactly(s, e, l, Step(s, e).runLeases)
  {
    if e.EClaimQueuedRun? {
      ClaimLeasesExactly(s, e, l);
    } else if e.ECommitSettleRun? {
      CommitLeasesExactly(s, e, l);
    } else {
      QuietForRunLeases(s, e, l);
    }
  }

  lemma QuietForRunLeases(s: State, e: Event, l: Id)
    requires !e.EClaimQueuedRun? && !e.ECommitSettleRun?
    ensures RunLeaseWrittenExactly(s, e, l, Step(s, e).runLeases)
  {
  }

  /** The same for the leases of deliveries. */
  ghost predicate WritesDeliveryLease(s: State, e: Event, l: Id, b: DeliveryLease) {
    match e
    case EClaimDelivery(caller, r, id, lease, allowed) =>
      && lease == l && l !in s.issued && id in s.deliveries && allowed && AtItsDoor(s, caller, r, id)
      && s.deliveries[id].status == Pending && b == DeliveryLease(r, id, true, None)
    case EBeginSettleDelivery(lease, o) =>
      && lease == l && l in s.deliveryLeases && s.deliveryLeases[l].active && o.status != Pending && o.status != Sending
      && b == DeliveryLease(s.deliveryLeases[l].runId, s.deliveryLeases[l].deliveryId, false, Some(o))
    case ECommitSettleDelivery(lease, aborts) =>
      && lease == l && l in s.deliveryLeases && s.deliveryLeases[l].pending.Some?
      && var d := s.deliveryLeases[l].deliveryId;
         var goes := d in s.deliveries && exists q :: MovesDelivery(s, e, d, q);
         b == if goes then s.deliveryLeases[l].(pending := None) else DeliveryLease(s.deliveryLeases[l].runId, d, true, None)
    case _ => false
  }

  ghost predicate DeliveryLeaseWrittenExactly(s: State, e: Event, l: Id, after: map<Id, DeliveryLease>) {
    && (forall b :: WritesDeliveryLease(s, e, l, b) ==> l in after && after[l] == b)
    && (l in after && (l in s.deliveryLeases ==> after[l] != s.deliveryLeases[l]) ==> WritesDeliveryLease(s, e, l, after[l]))
    && (l in s.deliveryLeases && l !in after ==> e.ECrash?) && (e.ECrash? ==> after == map[])
  }

  lemma CommitSendLeasesExactly(s: State, e: Event, l: Id)
    requires e.ECommitSettleDelivery?
    ensures DeliveryLeaseWrittenExactly(s, e, l, CommitSettleDelivery(s, e.lease, e.aborts).0.deliveryLeases)
  {
    var (t, out) := CommitSettleDelivery(s, e.lease, e.aborts);
    if e.lease in s.deliveryLeases && s.deliveryLeases[e.lease].pending.Some? {
      var lease := s.deliveryLeases[e.lease];
      var d := lease.deliveryId;
      FilesExactlyWhen(s, lease.runId, d, lease.pending.value.status);
      if out.Done? {
        assert MovesDelivery(s, e, d, t.deliveries[d]);
      } else if d in s.deliveries {
        assert forall q :: !MovesDelivery(s, e, d, q);
      }
    }
  }

  lemma DeliveryLeasesChangeExactlyWhen(s: State, e: Event, l: Id)
    ensures DeliveryLeaseWrittenExactly(s, e, l, Step(s, e).deliveryLeases)
  {
    if e.ECommitSettleDelivery? {
      CommitSendLeasesExactly(s, e, l);
    } else {
      QuietForDeliveryLeases(s, e, l);
    }
  }

  lemma QuietForDeliveryLeases(s: State, e: Event, l: Id)
    requires !e.ECommitSettleDelivery?
    ensures DeliveryLeaseWrittenExactly(s, e, l, Step(s, e).deliveryLeases)
  {
  }
}
