/** Who can move a Run or a delivery, over every history. */
module LifecycleAccess {
  import opened LifecycleModel
  import opened Options
  import opened LifecycleRuns
  import opened LifecycleDeliveries
  import LifecycleAttention

  function CallerOf(e: Event): Option<Caller> {
    match e
    case EAcceptRun(_, _, caller, _) => Some(caller)
    case ETransitionRun(caller, _, _, _, _, _) => Some(caller)
    case EClaimQueuedRun(caller, _, _, _) => Some(caller)
    case EFailQueuedDispatch(caller, _, _) => Some(caller)
    case ECancelForTask(caller, _) => Some(caller)
    case ECreateDelivery(caller, _, _, _, _, _, _, _) => Some(caller)
    case EClaimDelivery(caller, _, _, _, _) => Some(caller)
    case ETransitionDelivery(caller, _, _, _, _, _, _) => Some(caller)
    case _ => None
  }

  predicate ActsAs(e: Event, p: Id) {
    CallerOf(e).Some? && CallerOf(e).value.principalId == p
  }

  /** No lease of this Run or of one of its deliveries is held. */
  ghost predicate Unleased(s: State, r: Id) {
    && (forall l :: l in s.runLeases ==> s.runLeases[l].runId != r)
    && (forall l :: l in s.deliveryLeases ==> s.deliveryLeases[l].runId != r)
  }

  ghost predicate DeliveryOf(s: State, d: Id, r: Id) {
    d in s.deliveries && s.deliveries[d].runId == r
  }

  /** The Run, its deliveries and their number are as they were, and nobody holds a lease on them. */
  ghost predicate Untouched(s: State, t: State, r: Id) {
    && r in s.runs && r in t.runs && t.runs[r] == s.runs[r] && Unleased(t, r)
    && (forall d :: DeliveryOf(t, d, r) <==> DeliveryOf(s, d, r))
    && (forall d :: DeliveryOf(s, d, r) ==> t.deliveries[d] == s.deliveries[d])
  }

  /** The Run's row is as it was, and nobody came by a lease on it. */
  ghost predicate RunUntouched(s: State, t: State, r: Id) {
    && r in s.runs && r in t.runs && t.runs[r] == s.runs[r]
    && (forall l :: l in t.runLeases ==> t.runLeases[l].runId != r)
    && (t.deliveryLeases == s.deliveryLeases || t.deliveryLeases == map[])
  }

  lemma StartedByOthers(s: State, e: Event, r: Id)
    requires r in s.runs && Unleased(s, r) && !ActsAs(e, s.runs[r].principalId) && (e.ETransitionRun? || e.EClaimQueuedRun?)
    ensures RunUntouched(s, Step(s, e), r)
  {
  }

  lemma ScheduledByOthers(s: State, e: Event, r: Id)
    requires r in s.runs && Unleased(s, r) && !ActsAs(e, s.runs[r].principalId)
    requires e.EAcceptRun? || e.EFailQueuedDispatch? || e.ECancelForTask?
    ensures RunUntouched(s, Step(s, e), r)
  {
  }

  lemma SettledByOthers(s: State, e: Event, r: Id)
    requires r in s.runs && Unleased(s, r) && (e.EBeginSettleRun? || e.ECommitSettleRun? || e.EReconcileRun?)
    ensures RunUntouched(s, Step(s, e), r)
  {
  }

  lemma RunEventByOthers(s: State, e: Event, r: Id)
    requires r in s.runs && Unleased(s, r) && !ActsAs(e, s.runs[r].principalId)
    requires !WritesDeliveries(e) && !e.EBeginSettleDelivery?
    ensures Untouched(s, Step(s, e), r)
  {
    if e.EBeginSettleRun? || e.ECommitSettleRun? || e.EReconcileRun? {
      SettledByOthers(s, e, r);
    } else if e.ETransitionRun? || e.EClaimQueuedRun? {
      StartedByOthers(s, e, r);
    } else if !e.EResolveAttention? && !e.EAddAttention? && !e.ECrash? {
      ScheduledByOthers(s, e, r);
    }
    OnlyDeliveryWriters(s, e);
    RowsAlike(s, Step(s, e), r);
  }

  lemma RowsAlike(s: State, t: State, r: Id)
    requires Unleased(s, r) && RunUntouched(s, t, r) && t.deliveries == s.deliveries
    ensures Untouched(s, t, r)
  {
  }

  lemma CreationByOthers(s: State, e: Event, r: Id)
    requires r in s.runs && Unleased(s, r) && !ActsAs(e, s.runs[r].principalId) && e.ECreateDelivery?
    ensures Untouched(s, Step(s, e), r)
  {
  }

  lemma SendByOthers(s: State, e: Event, r: Id)
    requires r in s.runs && Unleased(s, r) && !ActsAs(e, s.runs[r].principalId) && (e.EClaimDelivery? || e.ETransitionDelivery?)
    ensures Untouched(s, Step(s, e), r)
  {
  }

  lemma DeliverySettlementByOthers(s: State, e: Event, r: Id)
    requires r in s.runs && Unleased(s, r) && (e.EBeginSettleDelivery? || e.ECommitSettleDelivery?)
    ensures Untouched(s, Step(s, e), r)
  {
  }

  lemma StepByOthers(s: State, e: Event, r: Id)
    requires r in s.runs && Unleased(s, r) && !ActsAs(e, s.runs[r].principalId) && !e.ERecover?
    ensures Untouched(s, Step(s, e), r)
  {
    if e.ECreateDelivery? {
      CreationByOthers(s, e, r);
    } else if e.EClaimDelivery? || e.ETransitionDelivery? {
      SendByOthers(s, e, r);
    } else if e.EBeginSettleDelivery? || e.ECommitSettleDelivery? {
      DeliverySettlementByOthers(s, e, r);
    } else {
      RunEventByOthers(s, e, r);
    }
  }

  /** Whatever other principals do, with whatever the rechecks allow them, and whatever they settle, and
      however often the process crashes: a Run nobody holds a lease on keeps its row and its deliveries,
      and gets no new one. Only recovery, which names no caller, is left out. */
  lemma {:induction false} OthersChangeNothing(s: State, es: seq<Event>, r: Id)
    requires r in s.runs && Unleased(s, r)
    requires forall i :: 0 <= i < |es| ==> !ActsAs(es[i], s.runs[r].principalId) && !es[i].ERecover?
    ensures Untouched(s, After(s, es), r)
    decreases |es|
  {
    if es != [] {
      StepByOthers(s, es[0], r);
      OthersChangeNothing(Step(s, es[0]), es[1..], r);
    }
  }

  // ---------------------------------------------------------------------------------------
  // The owner acts from the right place

  /** Apart from a lease's settlement and recovery, a delivery is moved only by its Run's principal
      calling from the delivery's own destination, and only for an external Run. */
  lemma DeliveriesMoveAtTheirDestination(s: State, e: Event, d: Id)
    requires d in s.deliveries && !e.ERecover? && !e.ECommitSettleDelivery?
    requires d in Step(s, e).deliveries && Step(s, e).deliveries[d] != s.deliveries[d]
    ensures s.deliveries[d].runId in s.runs && s.runs[s.deliveries[d].runId].source.External?
    ensures CallerOf(e) == Some(Caller(s.runs[s.deliveries[d].runId].principalId, s.deliveries[d].destination))
  {
    if !WritesDeliveries(e) {
      OnlyDeliveryWriters(s, e);
    }
  }

  /** A new delivery is addressed to where its creator calls from, for an external Run of theirs. */
  lemma DeliveriesStartAtTheirDestination(s: State, e: Event, d: Id)
    requires d !in s.deliveries && d in Step(s, e).deliveries
    ensures var row := Step(s, e).deliveries[d];
            && row.runId in s.runs && s.runs[row.runId].source.External?
            && CallerOf(e) == Some(Caller(s.runs[row.runId].principalId, row.destination))
  {
    if !WritesDeliveries(e) {
      OnlyDeliveryWriters(s, e);
    }
  }

  /** A failed dispatch is reported by the Run's own principal from the Run's own scope. */
  lemma DispatchFailsWhereItWasAsked(s: State, e: Event, r: Id)
    requires r in s.runs && e.EFailQueuedDispatch? && r in Step(s, e).runs && Step(s, e).runs[r] != s.runs[r]
    ensures CallerOf(e) == Some(Caller(s.runs[r].principalId, s.runs[r].scopeKey))
  {
  }

  // ---------------------------------------------------------------------------------------
  // Runs that never start

  ghost predicate Waiting(s: State, r: Id) {
    r in s.runs && s.runs[r].status.Queued?
  }

  /** The event takes the waiting Run out of its queue to run it. */
  ghost predicate Starts(s: State, e: Event, r: Id) {
    Waiting(s, r) && r in Step(s, e).runs && Step(s, e).runs[r].status.Running?
  }

  ghost predicate NeverStarts(s: State, es: seq<Event>, r: Id)
    decreases |es|
  {
    es != [] ==> !Starts(s, es[0], r) && NeverStarts(Step(s, es[0]), es[1..], r)
  }

  /** A failed dispatch is reported for the Run while it waits, by its own principal from its own scope, under a
      fresh name. */
  predicate ReportsFailure(s: State, e: Event, r: Id) {
    && r in s.runs && s.runs[r].status.Queued? && e.EFailQueuedDispatch? && e.id == r
    && e.caller == Caller(s.runs[r].principalId, s.runs[r].scopeKey) && e.attentionId !in s.attention
  }

  ghost predicate FailureReported(s: State, es: seq<Event>, r: Id)
    decreases |es|
  {
    es != [] && (ReportsFailure(s, es[0], r) || FailureReported(Step(s, es[0]), es[1..], r))
  }

  /** Somebody is told that a question of this Conversation got no answer. */
  ghost predicate Unanswered(s: State, conversationId: Id) {
    exists a :: a in s.attention && s.attention[a].kind.UnansweredMessage? && s.attention[a].conversationId == Some(conversationId)
  }

  /** Where a Run that never started can be. */
  ghost predicate Unstarted(row: Run) { row.status.Queued? || row.status.Cancelled? || row.status.Failed? }

  predicate TakesRuns(e: Event) {
    e.ETransitionRun? || e.EClaimQueuedRun? || e.EFailQueuedDispatch? || e.ECancelForTask?
  }

  lemma StaysInTheQueue(s: State, e: Event, r: Id)
    requires Waiting(s, r) && !TakesRuns(e)
    ensures r in Step(s, e).runs && Step(s, e).runs[r] == s.runs[r]
  {
    if WritesDeliveries(e) {
      assert Step(s, e).runs == s.runs || e.ERecover?;
    }
  }

  /** What one event makes of a Run that waits and does not start. */
  ghost predicate LeftTheQueue(s: State, e: Event, t: State, r: Id)
    requires Waiting(s, r)
  {
    && r in t.runs && Unstarted(t.runs[r]) && t.runs[r].conversationId == s.runs[r].conversationId
    && (t.runs[r].status.Failed? <==> ReportsFailure(s, e, r))
    && (ReportsFailure(s, e, r) ==> Unanswered(t, s.runs[r].conversationId) && t.runs[r].resultText == Some(NOT_STARTED_TEXT))
  }

  lemma DispatchLeavesTheQueue(s: State, e: Event, r: Id)
    requires Waiting(s, r) && e.EFailQueuedDispatch?
    ensures LeftTheQueue(s, e, FailQueuedDispatch(s, e.caller, e.id, e.attentionId).0, r)
  {
    if ReportsFailure(s, e, r) {
      assert e.attentionId in FailQueuedDispatch(s, e.caller, e.id, e.attentionId).0.attention;
    }
  }

  lemma TransitionLeavesTheQueue(s: State, e: Event, r: Id, t: State)
    requires Waiting(s, r) && e.ETransitionRun? && t == TransitionRun(s, e.caller, e.id, e.expected, e.next, e.text, e.allowed).0
    requires r in t.runs ==> !t.runs[r].status.Running?
    ensures LeftTheQueue(s, e, t, r)
  {
  }

  lemma ClaimLeavesTheQueue(s: State, e: Event, r: Id, t: State)
    requires Waiting(s, r) && e.EClaimQueuedRun? && t == ClaimQueuedRun(s, e.caller, e.id, e.lease, e.allowed).0
    requires r in t.runs ==> !t.runs[r].status.Running?
    ensures LeftTheQueue(s, e, t, r)
  {
  }

  lemma CancellationLeavesTheQueue(s: State, e: Event, r: Id, t: State)
    requires Waiting(s, r) && e.ECancelForTask? && t == CancelForTask(s, e.caller, e.id).0
    ensures LeftTheQueue(s, e, t, r)
  {
  }

  lemma LeavesTheQueue(s: State, e: Event, r: Id)
    requires Waiting(s, r) && !Starts(s, e, r)
    ensures LeftTheQueue(s, e, Step(s, e), r)
  {
    if !TakesRuns(e) {
      StaysInTheQueue(s, e, r);
    } else if e.EFailQueuedDispatch? {
      DispatchLeavesTheQueue(s, e, r);
    } else if e.ETransitionRun? {
      TransitionLeavesTheQueue(s, e, r, TransitionRun(s, e.caller, e.id, e.expected, e.next, e.text, e.allowed).0);
    } else if e.EClaimQueuedRun? {
      ClaimLeavesTheQueue(s, e, r, ClaimQueuedRun(s, e.caller, e.id, e.lease, e.allowed).0);
    } else {
      CancellationLeavesTheQueue(s, e, r, CancelForTask(s, e.caller, e.id).0);
    }
  }

  lemma RecordingLeavesOthers(s: State, runId: Id, d: Id, status: DeliveryStatus, a: Id)
    requires a in s.attention && !s.attention[a].kind.DeliveryFailed? && RecordAttention(s, runId, d, status).Some?
    ensures var after := RecordAttention(s, runId, d, status).value; a in after && after[a] == s.attention[a]
  {
  }

  ghost predicate ItemStays(s: State, t: State, a: Id)
    requires a in s.attention
  {
    a in t.attention && t.attention[a].kind == s.attention[a].kind && t.attention[a].conversationId == s.attention[a].conversationId
  }

  lemma SettlementLeavesOthers(s: State, lease: Id, aborts: bool, a: Id)
    requires a in s.attention && !s.attention[a].kind.DeliveryFailed?
    ensures ItemStays(s, CommitSettleDelivery(s, lease, aborts).0, a)
  {
    if CommitSettleDelivery(s, lease, aborts).1.Done? {
      var l := s.deliveryLeases[lease];
      RecordingLeavesOthers(s, l.runId, l.deliveryId, l.pending.value.status, a);
    }
  }

  lemma TransitionLeavesOthers(s: State, caller: Caller, r: Id, id: Id, from: DeliveryStatus, to: DeliveryStatus, x: Option<string>,
                               ok: bool, a: Id)
    requires a in s.attention && !s.attention[a].kind.DeliveryFailed?
    ensures ItemStays(s, TransitionDelivery(s, caller, r, id, from, to, x, ok).0, a)
  {
    if RecordAttention(s, r, id, to).Some? {
      RecordingLeavesOthers(s, r, id, to, a);
    }
  }

  lemma FilingLeavesOthers(s: State, e: Event, t: State, a: Id)
    requires a in s.attention
    requires || (e.EFailQueuedDispatch? && t == FailQueuedDispatch(s, e.caller, e.id, e.attentionId).0)
             || (e.EResolveAttention? && t == ResolveAttention(s, e.attentionId))
             || (e.EAddAttention? && t == AddAttention(s, e.attentionId, e.kind, e.about))
    ensures ItemStays(s, t, a)
  {
  }

  /** Items of other kinds than a delivery's stay on file, about what they were about. */
  lemma ItemsStay(s: State, e: Event, a: Id)
    requires a in s.attention && !s.attention[a].kind.DeliveryFailed?
    ensures ItemStays(s, Step(s, e), a)
  {
    if !LifecycleAttention.WritesItems(e) {
      LifecycleAttention.OnlyItemWriters(s, e);
    } else if e.ERecover? {
      LifecycleAttention.BackfillKeepsItems(s, a);
    } else if e.ECommitSettleDelivery? {
      SettlementLeavesOthers(s, e.lease, e.aborts, a);
    } else if e.ETransitionDelivery? {
      TransitionLeavesOthers(s, e.caller, e.runId, e.id, e.from, e.to, e.externalId, e.allowed, a);
    } else {
      FilingLeavesOthers(s, e, Step(s, e), a);
    }
  }

  lemma UnansweredStays(s: State, e: Event, conversationId: Id)
    requires Unanswered(s, conversationId)
    ensures Unanswered(Step(s, e), conversationId)
  {
    var a :| a in s.attention && s.attention[a].kind.UnansweredMessage? && s.attention[a].conversationId == Some(conversationId);
    ItemsStay(s, e, a);
  }

  /** A Run that has ended stays as it ended, and no failed dispatch is reported for it. */
  lemma {:induction false} EndedStaysEnded(s: State, es: seq<Event>, r: Id)
    requires r in s.runs && Terminal(s.runs[r].status)
    ensures var u := After(s, es);
            && r in u.runs && u.runs[r].status == s.runs[r].status && u.runs[r].resultText == s.runs[r].resultText
            && (Unanswered(s, s.runs[r].conversationId) ==> Unanswered(u, s.runs[r].conversationId))
            && !FailureReported(s, es, r)
    decreases |es|
  {
    if es != [] {
      var t, c := Step(s, es[0]), s.runs[r].conversationId;
      RunFactsAreFinal(s, es[0], r);
      if Unanswered(s, c) {
        UnansweredStays(s, es[0], c);
      }
      EndedStaysEnded(t, es[1..], r);
    }
  }

  /** A Run that never starts fails if and only if a failed dispatch was reported for it while it waited, by its own
      principal from its own scope; nothing else ends it but being cancelled, and when it has failed it says so and
      somebody is told that the Conversation got no answer. */
  lemma {:induction false} UnstartedRunsFailExactlyWhen(s: State, es: seq<Event>, r: Id)
    requires Waiting(s, r) && NeverStarts(s, es, r)
    ensures var u := After(s, es);
            && r in u.runs && Unstarted(u.runs[r])
            && (u.runs[r].status.Failed? <==> FailureReported(s, es, r))
            && (u.runs[r].status.Failed? ==> u.runs[r].resultText == Some(NOT_STARTED_TEXT)
                                             && Unanswered(u, s.runs[r].conversationId))
    decreases |es|
  {
    if es != [] {
      var t := Step(s, es[0]);
      LeavesTheQueue(s, es[0], r);
      if Waiting(t, r) {
        UnstartedRunsFailExactlyWhen(t, es[1..], r);
      } else {
        EndedStaysEnded(t, es[1..], r);
      }
    }
  }
}
