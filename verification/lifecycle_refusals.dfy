/** What each operation on Runs and deliveries answers, and when. */
module LifecycleRefusals {
  import opened LifecycleModel
  import opened Options
  import opened LifecycleRows

  ghost predicate ActiveBeside(s: State, r: Id)
    requires r in s.runs
  {
    exists q :: q in s.runs && s.runs[q].conversationId == s.runs[r].conversationId
                && (s.runs[q].status == Running || s.runs[q].status == Cancelling)
  }

  ghost predicate MayMove(s: State, caller: Caller, r: Id, allowed: bool) {
    allowed && r in s.runs && s.runs[r].principalId == caller.principalId
  }

  /** What is wrong with a request to move a Run is told in this order: a transition or text that could never be, a Run
      that is not the caller's, one already under way in the Conversation, one asked before it, a status that changed. */
  lemma TransitionsSayWhy(s: State, caller: Caller, id: Id, from: RunStatus, to: RunStatus, text: Option<string>, allowed: bool)
    ensures var out := TransitionRun(s, caller, id, from, to, text, allowed).1;
            var could := (from, to) in RUN_EDGES && (text.Some? ==> |text.value| <= 64_000);
            && (out == InvalidInput <==> !could)
            && (out == Denied <==> could && !MayMove(s, caller, id, allowed))
            && (could && MayMove(s, caller, id, allowed) ==>
                  && (out == ActiveRunExists <==> to == Running && ActiveBeside(s, id))
                  && (out == EarlierRunQueued <==> to == Running && !ActiveBeside(s, id) && !IsNext(s, id))
                  && (out == StateChanged <==> (to == Running ==> IsNext(s, id)) && s.runs[id].status != from)
                  && (out == Done <==> (to == Running ==> IsNext(s, id)) && s.runs[id].status == from))
  {
    assert (from, to) in RUN_EDGES <==> ListedRunTransition(from, to);
    if id in s.runs {
      NextIsFirst(s, id);
      assert HasActiveRun(s, s.runs[id].conversationId) <==> ActiveBeside(s, id);
    }
  }

  /** A claim is refused as the transition it makes would be. */
  lemma ClaimsSayWhy(s: State, caller: Caller, id: Id, lease: Id, allowed: bool)
    requires lease !in s.issued
    ensures ClaimQueuedRun(s, caller, id, lease, allowed).1 == TransitionRun(s, caller, id, Queued, Running, None, allowed).1
  {
  }

  lemma SettlementsSayWhy(s: State, lease: Id, readable: bool, aborts: bool)
    ensures var out := CommitSettleRun(s, lease, readable, aborts).1;
            && (out == LeaseSettled <==> lease !in s.runLeases || s.runLeases[lease].pending.None?)
            && (lease in s.runLeases && s.runLeases[lease].pending.Some? ==>
                  var (r, o) := (s.runLeases[lease].runId, s.runLeases[lease].pending.value);
                  var under := !aborts && r in s.runs && (s.runs[r].status == Running || s.runs[r].status == Cancelling);
                  && (out == StateChanged <==> !under)
                  && (out == CancellationNotRequested <==> under && o.status == Cancelled && s.runs[r].status == Running)
                  && (out == Done <==> under && (o.status == Cancelled ==> s.runs[r].status == Cancelling)))
  {
  }

  lemma DispatchFailuresSayWhy(s: State, caller: Caller, id: Id, item: Id)
    ensures var out := FailQueuedDispatch(s, caller, id, item).1;
            var right := id in s.runs && s.runs[id].principalId == caller.principalId && s.runs[id].scopeKey == caller.scopeKey;
            && (out == RouteChanged <==> !right)
            && (right ==>
                  var waits := s.runs[id].status == Queued || s.runs[id].status == Running;
                  && (out == AttentionConflict <==> waits && item in s.attention)
                  && (out == Done <==> (waits && item !in s.attention) || s.runs[id].status == Cancelling)
                  && (out == NothingToDo <==> !waits && s.runs[id].status != Cancelling))
  {
  }

  ghost predicate KeyTaken(s: State, r: Id, key: string) {
    exists d :: d in s.deliveries && s.deliveries[d].runId == r && s.deliveries[d].dedupKey == key
  }

  lemma CreationsSayWhy(s: State, caller: Caller, id: Id, r: Id, key: string, dest: string, text: string, kind: PayloadKind,
                        allowed: bool)
    ensures var out := CreateDelivery(s, caller, id, r, key, dest, text, kind, allowed).1;
            var could := |text| <= 64_000 && dest == caller.scopeKey;
            && (out == InvalidInput <==> !could)
            && (out == Denied <==> could && !MayMove(s, caller, r, allowed))
            && (could && MayMove(s, caller, r, allowed) ==>
                  && (out == NotExternal <==> s.runs[r].source == TaskStep)
                  && (out == PayloadImmutable <==>
                        && s.runs[r].source == External
                        && (exists d :: d in s.deliveries && s.deliveries[d].runId == r && s.deliveries[d].dedupKey == key
                                        && (s.deliveries[d].payloadText != text || s.deliveries[d].payloadKind != kind)))
                  && (out == StateChanged <==> s.runs[r].source == External && !KeyTaken(s, r, key) && id in s.deliveries))
  {
    assert KeyTaken(s, r, key) <==> HasDedupKey(s, r, key);
  }

  lemma SendsSayWhy(s: State, caller: Caller, r: Id, id: Id, from: DeliveryStatus, to: DeliveryStatus, x: Option<string>, lease: Id,
                    allowed: bool)
    ensures var may, there := MayMove(s, caller, r, allowed), id in s.deliveries && AtItsDoor(s, caller, r, id);
            var (byLease, byHand) := (ClaimDelivery(s, caller, r, id, lease, allowed).1,
                                      TransitionDelivery(s, caller, r, id, from, to, x, allowed).1);
            var could := (from, to) in DELIVERY_EDGES;
            && (byLease == Denied <==> !may) && (byLease == NotExternal <==> may && s.runs[r].source == TaskStep)
            && (byLease == Done <==> may && there && s.deliveries[id].status == Pending && lease !in s.issued)
            && (byHand == InvalidInput <==> !could) && (byHand == Denied <==> could && !may)
            && (could && may ==>
                  && (byHand == NotExternal <==> s.runs[r].source == TaskStep)
                  && (byHand == StateChanged <==> s.runs[r].source == External && !(there && s.deliveries[id].status == from))
                  && (byHand == AttentionConflict <==>
                        there && s.deliveries[id].status == from == Sending && to != Sent && !NameIsIts(s, r, id)))
  {
    assert (from, to) in DELIVERY_EDGES <==> ListedDeliveryTransition(from, to);
    FilesExactlyWhen(s, r, id, to);
  }

  lemma SendSettlementsSayWhy(s: State, lease: Id, aborts: bool)
    ensures var out := CommitSettleDelivery(s, lease, aborts).1;
            && (out == LeaseSettled <==> lease !in s.deliveryLeases || s.deliveryLeases[lease].pending.None?)
            && (lease in s.deliveryLeases && s.deliveryLeases[lease].pending.Some? ==>
                  var (l, o) := (s.deliveryLeases[lease], s.deliveryLeases[lease].pending.value);
                  var under := !aborts && l.deliveryId in s.deliveries && s.deliveries[l.deliveryId].runId == l.runId
                               && s.deliveries[l.deliveryId].status == Sending;
                  && (out == StateChanged <==> !under)
                  && (out == AttentionConflict <==> under && o.status != Sent && !NameIsIts(s, l.runId, l.deliveryId)))
  {
    if lease in s.deliveryLeases && s.deliveryLeases[lease].pending.Some? {
      FilesExactlyWhen(s, s.deliveryLeases[lease].runId, s.deliveryLeases[lease].deliveryId, s.deliveryLeases[lease].pending.value.status);
    }
  }

  /** A settlement begins only under a lease that can still settle, with an outcome that is one. */
  lemma BeginningsSayWhy(s: State, lease: Id, o: RunOutcome, p: DeliveryOutcome)
    ensures var out := BeginSettleRun(s, lease, o).1;
            && (out == LeaseSettled <==> lease !in s.runLeases || !s.runLeases[lease].active)
            && (out == InvalidInput <==>
                  && lease in s.runLeases && s.runLeases[lease].active
                  && (o.status == Queued || o.status == Running || o.status == Cancelling
                      || (o.text.Some? && |o.text.value| > 64_000) || (o.failureCode.Some? && |o.failureCode.value| > 64)))
            && (out == Done <==> out != LeaseSettled && out != InvalidInput)
    ensures var out := BeginSettleDelivery(s, lease, p).1;
            && (out == LeaseSettled <==> lease !in s.deliveryLeases || !s.deliveryLeases[lease].active)
            && (out == InvalidInput <==>
                  lease in s.deliveryLeases && s.deliveryLeases[lease].active && (p.status == Pending || p.status == Sending))
            && (out == Done <==> out != LeaseSettled && out != InvalidInput)
  {
  }

  /** Asking whether a lease is over, and asking a Task's Run to stop. */
  lemma EndingsSayWhy(s: State, lease: Id, caller: Caller, id: Id)
    ensures var out := ReconcileRun(s, lease).1;
            && (out == LeaseSettled <==> lease !in s.runLeases)
            && (out == Done <==> lease in s.runLeases && s.runLeases[lease].runId in s.runs
                                 && s.runs[s.runLeases[lease].runId].status !in {Queued, Running, Cancelling})
    ensures var out := CancelForTask(s, caller, id).1;
            && (out == Done <==> && id in s.runs && s.runs[id].principalId == caller.principalId && s.runs[id].source == TaskStep
                                 && s.runs[id].status in {Queued, Running})
            && (out == NothingToDo <==> out != Done)
  {
  }
}
