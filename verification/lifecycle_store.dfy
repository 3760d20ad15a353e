/** The store itself: tables and leases as fields, one method per transaction, each proved against
    what the transaction does to the whole state. */
module LifecycleStores {
  import opened LifecycleModel
  import opened Options

  class LifecycleStore {
    var runs: map<Id, Run>
    var deliveries: map<Id, Delivery>
    var attention: map<Id, Attention>
    var nextSequence: nat
    var nextRow: nat
    var runLeases: map<Id, RunLease>
    var deliveryLeases: map<Id, DeliveryLease>
    var issued: set<Id>
    var claimedBy: map<Id, Option<Id>>

    function Snapshot(): State
      reads this
    {
      State(runs, deliveries, attention, nextSequence, nextRow, runLeases, deliveryLeases, issued, claimedBy)
    }

    constructor ()
      ensures Snapshot() == EMPTY
    {
      runs, deliveries, attention := map[], map[], map[];
      nextSequence, nextRow := 1, 1;
      runLeases, deliveryLeases, issued, claimedBy := map[], map[], {}, map[];
    }

    // -------------------------------------------------------------------------------------
    // Runs

    method AcceptRun(id: Id, conversationId: Id, caller: Caller, source: RunSource) returns (out: Outcome)
      modifies this
      ensures (Snapshot(), out) == LifecycleModel.AcceptRun(old(Snapshot()), id, conversationId, caller, source)
    {
      if id in runs {
        return StateChanged;
      }
      runs := runs[id := Run(conversationId, nextSequence, caller.principalId, caller.scopeKey, source,
                             RunStatus.Queued, None, None)];
      nextSequence := nextSequence + 1;
      out := Done;
    }

    method TransitionRun(caller: Caller, id: Id, expected: RunStatus, next: RunStatus, text: Option<string>, allowed: bool)
      returns (out: Outcome)
      modifies this`runs
      ensures (Snapshot(), out) == LifecycleModel.TransitionRun(old(Snapshot()), caller, id, expected, next, text, allowed)
    {
      if !ListedRunTransition(expected, next) || !ShortText(text, RESULT_LIMIT) {
        return InvalidInput;
      }
      if !allowed || id !in runs || runs[id].principalId != caller.principalId {
        return Denied;
      }
      var conversationId := runs[id].conversationId;
      if next.Running? {
        if exists r :: r in runs && runs[r].conversationId == conversationId && Active(runs[r].status) {
          assert HasActiveRun(old(Snapshot()), conversationId);
          return ActiveRunExists;
        }
        if !runs[id].status.Queued?
           || exists r :: r in runs && runs[r].conversationId == conversationId && runs[r].status.Queued?
                          && runs[r].sequence < runs[id].sequence {
          assert !IsFirstQueued(old(Snapshot()), id);
          return EarlierRunQueued;
        }
      }
      if runs[id].status != expected {
        return StateChanged;
      }
      var kept := if text.Some? then text else runs[id].resultText;
      runs := runs[id := runs[id].(status := next, resultText := kept)];
      out := Done;
    }

    /** A lease is returned only when the Run really entered running. */
    method ClaimQueuedRun(caller: Caller, id: Id, lease: Id, allowed: bool) returns (out: Outcome)
      requires lease !in issued
      modifies this`runs, this`runLeases, this`issued
      ensures (Snapshot(), out) == LifecycleModel.ClaimQueuedRun(old(Snapshot()), caller, id, lease, allowed)
    {
      out := TransitionRun(caller, id, RunStatus.Queued, RunStatus.Running, None, allowed);
      if out.Done? {
        runLeases := runLeases[lease := RunLease(id, true, None)];
        issued := issued + {lease};
      }
    }

    method BeginSettleRun(lease: Id, status: RunStatus, text: Option<string>, failureCode: Option<string>) returns (out: Outcome)
      modifies this`runLeases
      ensures (Snapshot(), out)
           == LifecycleModel.BeginSettleRun(old(Snapshot()), lease, RunOutcome(status, text, failureCode))
    {
      if lease !in runLeases || !runLeases[lease].active {
        return LeaseSettled;
      }
      if !Terminal(status) || !ShortText(text, RESULT_LIMIT) || !ShortText(failureCode, FAILURE_CODE_LIMIT) {
        return InvalidInput;
      }
      runLeases := runLeases[lease := RunLease(runLeases[lease].runId, false, Some(RunOutcome(status, text, failureCode)))];
      out := Done;
    }

    /** A settlement that does not commit puts the flag back up. */
    method CommitSettleRun(lease: Id, readable: bool, aborts: bool) returns (out: Outcome)
      modifies this`runs, this`runLeases
      ensures (Snapshot(), out) == LifecycleModel.CommitSettleRun(old(Snapshot()), lease, readable, aborts)
    {
      if lease !in runLeases || runLeases[lease].pending.None? {
        return LeaseSettled;
      }
      var l := runLeases[lease];
      var o := l.pending.value;
      if aborts || l.runId !in runs || !Active(runs[l.runId].status) {
        out := StateChanged;
      } else if o.status.Cancelled? && !runs[l.runId].status.Cancelling? {
        out := CancellationNotRequested;
      } else {
        runs := runs[l.runId := runs[l.runId].(status := o.status, failureCode := o.failureCode,
                                               resultText := if readable then o.text else None)];
        runLeases := runLeases[lease := l.(pending := None)];
        return Done;
      }
      runLeases := runLeases[lease := RunLease(l.runId, true, None)];
    }

    method ReconcileRun(lease: Id) returns (out: Outcome)
      modifies this`runLeases
      ensures (Snapshot(), out) == LifecycleModel.ReconcileRun(old(Snapshot()), lease)
    {
      if lease !in runLeases {
        return LeaseSettled;
      }
      var runId := runLeases[lease].runId;
      if runId !in runs || !Terminal(runs[runId].status) {
        return NothingToDo;
      }
      runLeases := runLeases[lease := runLeases[lease].(active := false)];
      out := Done;
    }

    method FailQueuedDispatch(caller: Caller, id: Id, attentionId: Id) returns (out: Outcome)
      modifies this`runs, this`attention
      ensures (Snapshot(), out) == LifecycleModel.FailQueuedDispatch(old(Snapshot()), caller, id, attentionId)
    {
      if id !in runs || runs[id].principalId != caller.principalId || runs[id].scopeKey != caller.scopeKey {
        return RouteChanged;
      }
      var row := runs[id];
      match row.status {
        case Cancelling =>
          runs := runs[id := row.(status := RunStatus.Cancelled, resultText := Some(STOPPED_TEXT))];
        case Queued | Running =>
          if attentionId in attention {
            return AttentionConflict;
          }
          runs := runs[id := row.(status := RunStatus.Failed, resultText := Some(NOT_STARTED_TEXT))];
          attention := attention[attentionId := Attention(UnansweredMessage, Some(row.conversationId), false)];
        case _ =>
          return NothingToDo;
      }
      out := Done;
    }

    method CancelForTask(caller: Caller, id: Id) returns (out: Outcome)
      modifies this`runs
      ensures (Snapshot(), out) == LifecycleModel.CancelForTask(old(Snapshot()), caller, id)
    {
      if id !in runs || runs[id].source.External? || runs[id].principalId != caller.principalId {
        return NothingToDo;
      }
      match runs[id].status {
        case Queued => runs := runs[id := runs[id].(status := RunStatus.Cancelled)];
        case Running => runs := runs[id := runs[id].(status := RunStatus.Cancelling)];
        case _ => return NothingToDo;
      }
      out := Done;
    }

    // -------------------------------------------------------------------------------------
    // Deliveries

    method CreateDelivery(caller: Caller, id: Id, runId: Id, dedupKey: string, destination: string, payloadText: string,
                          payloadKind: PayloadKind, allowed: bool) returns (out: Outcome)
      modifies this`deliveries, this`nextRow
      ensures (Snapshot(), out) == LifecycleModel.CreateDelivery(old(Snapshot()), caller, id, runId, dedupKey, destination,
                                                                 payloadText, payloadKind, allowed)
    {
      if |payloadText| > RESULT_LIMIT || destination != caller.scopeKey {
        return InvalidInput;
      }
      if !allowed || runId !in runs || runs[runId].principalId != caller.principalId {
        return Denied;
      }
      if runs[runId].source.TaskStep? {
        return NotExternal;
      }
      if exists d :: d in deliveries && deliveries[d].runId == runId && deliveries[d].dedupKey == dedupKey {
        assert HasDedupKey(old(Snapshot()), runId, dedupKey);
        if exists d :: d in deliveries && deliveries[d].runId == runId && deliveries[d].dedupKey == dedupKey
                       && (deliveries[d].payloadText != payloadText || deliveries[d].payloadKind != payloadKind) {
          return PayloadImmutable;
        }
        return Done;
      }
      if id in deliveries {
        return StateChanged;
      }
      deliveries := deliveries[id := Delivery(runId, dedupKey, destination, payloadText, payloadKind,
                                              DeliveryStatus.Pending, None, nextRow)];
      nextRow := nextRow + 1;
      out := Done;
    }

    method ClaimDelivery(caller: Caller, runId: Id, id: Id, lease: Id, allowed: bool) returns (out: Outcome)
      requires lease !in issued
      modifies this`deliveries, this`deliveryLeases, this`issued, this`claimedBy
      ensures (Snapshot(), out) == LifecycleModel.ClaimDelivery(old(Snapshot()), caller, runId, id, lease, allowed)
    {
      if !allowed || runId !in runs || runs[runId].principalId != caller.principalId {
        return Denied;
      }
      if runs[runId].source.TaskStep? {
        return NotExternal;
      }
      if id !in deliveries || deliveries[id].runId != runId || deliveries[id].destination != caller.scopeKey
         || deliveries[id].status != DeliveryStatus.Pending {
        return NothingToDo;
      }
      deliveries := deliveries[id := deliveries[id].(status := Sending)];
      deliveryLeases := deliveryLeases[lease := DeliveryLease(runId, id, true, None)];
      issued := issued + {lease};
      claimedBy := claimedBy[id := Some(lease)];
      out := Done;
    }

    method BeginSettleDelivery(lease: Id, status: DeliveryStatus, externalId: Option<string>) returns (out: Outcome)
      modifies this`deliveryLeases
      ensures (Snapshot(), out)
           == LifecycleModel.BeginSettleDelivery(old(Snapshot()), lease, DeliveryOutcome(status, externalId))
    {
      if lease !in deliveryLeases || !deliveryLeases[lease].active {
        return LeaseSettled;
      }
      if status.Pending? || status.Sending? {
        return InvalidInput;
      }
      var l := deliveryLeases[lease];
      deliveryLeases := deliveryLeases[lease := DeliveryLease(l.runId, l.deliveryId, false, Some(DeliveryOutcome(status, externalId)))];
      out := Done;
    }

    /** Files, reopens or resolves the delivery's item; false when the name belongs to another item. */
    method RecordAttention(runId: Id, deliveryId: Id, status: DeliveryStatus) returns (ok: bool)
      requires runId in runs
      modifies this`attention
      ensures ok == LifecycleModel.RecordAttention(old(Snapshot()), runId, deliveryId, status).Some?
      ensures attention == if ok then LifecycleModel.RecordAttention(old(Snapshot()), runId, deliveryId, status).value
                           else old(attention)
    {
      var id := AttentionId(deliveryId);
      var conversationId := Some(runs[runId].conversationId);
      var mine := id in attention && attention[id].kind.DeliveryFailed? && attention[id].conversationId == conversationId;
      if status.Sent? {
        if mine && !attention[id].resolved {
          attention := attention[id := attention[id].(resolved := true)];
        }
        return true;
      }
      if id !in attention {
        attention := attention[id := Attention(DeliveryFailed, conversationId, false)];
        return true;
      }
      if mine {
        attention := attention[id := attention[id].(resolved := false)];
      }
      ok := mine;
    }

    method CommitSettleDelivery(lease: Id, aborts: bool) returns (out: Outcome)
      requires forall d :: d in deliveries ==> deliveries[d].runId in runs
      modifies this`deliveries, this`attention, this`deliveryLeases
      ensures (Snapshot(), out) == LifecycleModel.CommitSettleDelivery(old(Snapshot()), lease, aborts)
    {
      if lease !in deliveryLeases || deliveryLeases[lease].pending.None? {
        return LeaseSettled;
      }
      var l := deliveryLeases[lease];
      var o := l.pending.value;
      if aborts || l.deliveryId !in deliveries || deliveries[l.deliveryId].runId != l.runId
         || deliveries[l.deliveryId].status != Sending {
        out := StateChanged;
      } else {
        var recorded := RecordAttention(l.runId, l.deliveryId, o.status);
        if recorded {
          deliveries := deliveries[l.deliveryId := deliveries[l.deliveryId].(status := o.status, externalId := o.externalId)];
          deliveryLeases := deliveryLeases[lease := l.(pending := None)];
          return Done;
        }
        out := AttentionConflict;
      }
      deliveryLeases := deliveryLeases[lease := DeliveryLease(l.runId, l.deliveryId, true, None)];
    }

    method TransitionDelivery(caller: Caller, runId: Id, id: Id, expected: DeliveryStatus, next: DeliveryStatus,
                              externalId: Option<string>, allowed: bool) returns (out: Outcome)
      modifies this`deliveries, this`attention, this`claimedBy
      ensures (Snapshot(), out)
           == LifecycleModel.TransitionDelivery(old(Snapshot()), caller, runId, id, expected, next, externalId, allowed)
    {
      if !ListedDeliveryTransition(expected, next) {
        return InvalidInput;
      }
      if !allowed || runId !in runs || runs[runId].principalId != caller.principalId {
        return Denied;
      }
      if runs[runId].source.TaskStep? {
        return NotExternal;
      }
      if id !in deliveries || deliveries[id].runId != runId || deliveries[id].destination != caller.scopeKey
         || deliveries[id].status != expected {
        return StateChanged;
      }
      if next.Sent? || next.Failed? || next.Unknown? {
        var recorded := RecordAttention(runId, id, next);
        if !recorded {
          return AttentionConflict;
        }
      }
      var row := deliveries[id];
      deliveries := deliveries[id := row.(status := next, externalId := if externalId.Some? then externalId else row.externalId)];
      if next.Sending? {
        claimedBy := claimedBy[id := None];
      }
      out := Done;
    }

    // -------------------------------------------------------------------------------------
    // Crash and recovery

    method Crash()
      modifies this`runLeases, this`deliveryLeases
      ensures Snapshot() == LifecycleModel.Crash(old(Snapshot()))
    {
      runLeases, deliveryLeases := map[], map[];
    }

    /** The two sweeps over the Runs touch different ones. */
    static lemma RunsSweptTwice(rows: map<Id, Run>)
      ensures var first := map r | r in rows :: if rows[r].status.Running? then rows[r].(status := Interrupted) else rows[r];
              (map r | r in first :: if first[r].status.Cancelling? then first[r].(status := RunStatus.Unknown) else first[r])
              == map r | r in rows :: RecoveredRun(rows[r])
    {
    }

    /** The backfill looks at the deliveries before the interrupted ones become unknown. */
    method Recover()
      modifies this`runs, this`deliveries, this`attention
      ensures Snapshot() == LifecycleModel.Recover(old(Snapshot()))
    {
      attention := BackfillAttention(Snapshot());
      runs := map r | r in runs :: if runs[r].status.Running? then runs[r].(status := Interrupted) else runs[r];
      runs := map r | r in runs :: if runs[r].status.Cancelling? then runs[r].(status := RunStatus.Unknown) else runs[r];
      deliveries := map d | d in deliveries ::
        if deliveries[d].status.Sending? then deliveries[d].(status := DeliveryStatus.Unknown) else deliveries[d];
      RunsSweptTwice(old(runs));
    }
  }
}
