/** The tables and in-process leases behind Runs and deliveries, and what each transaction does
    to them. A transaction either commits the state it returns or leaves the state alone. */
module LifecycleModel {
  import opened Options

  type Id = string

  datatype RunStatus = Queued | Running | Cancelling | Cancelled | Succeeded | Failed | Interrupted | Unknown

  datatype DeliveryStatus = Pending | Sending | Sent | Failed | Unknown

  datatype RunSource = External | TaskStep

  datatype PayloadKind = Text | Result | Ack | BrowserArtifact | MediaArtifact

  datatype Run = Run(conversationId: Id, sequence: nat, principalId: Id, scopeKey: string, source: RunSource,
                     status: RunStatus, resultText: Option<string>, failureCode: Option<string>)

  datatype Delivery = Delivery(runId: Id, dedupKey: string, destination: string, payloadText: string,
                               payloadKind: PayloadKind, status: DeliveryStatus, externalId: Option<string>, rowId: nat)

  datatype AttentionKind = DeliveryFailed | UnansweredMessage | OtherKind

  datatype Attention = Attention(kind: AttentionKind, conversationId: Option<Id>, resolved: bool)

  datatype Caller = Caller(principalId: Id, scopeKey: string)

  datatype RunOutcome = RunOutcome(status: RunStatus, text: Option<string>, failureCode: Option<string>)

  datatype DeliveryOutcome = DeliveryOutcome(status: DeliveryStatus, externalId: Option<string>)

  /** Outcomes that passed the settlement's own check. */
  type FinalRunOutcome = o: RunOutcome | Terminal(o.status) witness RunOutcome(RunStatus.Unknown, None, None)

  type FinalDeliveryOutcome = o: DeliveryOutcome | ListedDeliveryTransition(Sending, o.status)
    witness DeliveryOutcome(DeliveryStatus.Unknown, None)

  /** A lease is a closure: `active` is its flag, `pending` the settlement it has in flight. */
  datatype RunLease = RunLease(runId: Id, active: bool, pending: Option<FinalRunOutcome>)

  datatype DeliveryLease = DeliveryLease(runId: Id, deliveryId: Id, active: bool, pending: Option<FinalDeliveryOutcome>)

  /** `issued` and `claimedBy` are history: the lease ids ever handed out, and the lease (if any)
      of each delivery's latest entry into sending. No transaction reads them. */
  datatype State = State(runs: map<Id, Run>, deliveries: map<Id, Delivery>, attention: map<Id, Attention>,
                         nextSequence: nat, nextRow: nat,
                         runLeases: map<Id, RunLease>, deliveryLeases: map<Id, DeliveryLease>,
                         issued: set<Id>, claimedBy: map<Id, Option<Id>>)

  const EMPTY: State := State(map[], map[], map[], 1, 1, map[], map[], {}, map[])

  datatype Outcome =
    | Done
    | InvalidInput | Denied | ActiveRunExists | EarlierRunQueued | StateChanged | CancellationNotRequested
    | RouteChanged | NotExternal | PayloadImmutable | LeaseSettled | AttentionConflict | NothingToDo

  const RESULT_LIMIT: nat := 64_000
  const FAILURE_CODE_LIMIT: nat := 64
  const BACKFILL_LIMIT: nat := 1000
  const STOPPED_TEXT: string := "\U{5DF2}\U{505C}\U{6B62}\U{FF0C}\U{8FD9}\U{6B21}\U{6CA1}\U{6709}\U{7ED9}\U{51FA}\U{7ED3}\U{679C}\U{3002}"
  const NOT_STARTED_TEXT: string := "\U{8FD9}\U{6B21}\U{8BF7}\U{6C42}\U{672A}\U{80FD}\U{542F}\U{52A8}\U{FF0C}\U{670D}\U{52A1}\U{6682}\U{65F6}\U{51FA}\U{9519}\U{4E86}\U{3002}\U{8BF7}\U{7A0D}\U{540E}\U{91CD}\U{8BD5}\U{3002}"

  // ---------------------------------------------------------------------------------------
  // Status tables

  predicate Terminal(s: RunStatus) {
    s.Cancelled? || s.Succeeded? || s.Failed? || s.Interrupted? || s.Unknown?
  }

  predicate Active(s: RunStatus) {
    s.Running? || s.Cancelling?
  }

  predicate ListedRunTransition(from: RunStatus, to: RunStatus) {
    match from
    case Queued => to.Running? || to.Cancelled?
    case Running => to.Cancelling? || to.Succeeded? || to.Failed? || to.Interrupted? || to.Unknown?
    case Cancelling => to.Cancelled? || to.Succeeded? || to.Failed? || to.Interrupted? || to.Unknown?
    case _ => false
  }

  predicate ListedDeliveryTransition(from: DeliveryStatus, to: DeliveryStatus) {
    match from
    case Pending => to.Sending?
    case Sending => to.Sent? || to.Failed? || to.Unknown?
    case Failed => to.Pending?
    case _ => false
  }

  predicate ShortText(t: Option<string>, limit: nat) {
    t.Some? ==> |t.value| <= limit
  }

  function Coalesce(a: Option<string>, b: Option<string>): Option<string> {
    if a.Some? then a else b
  }

  // ---------------------------------------------------------------------------------------
  // Runs

  function AcceptRun(s: State, id: Id, conversationId: Id, caller: Caller, source: RunSource): (r: (State, Outcome))
    ensures r.0 == s.(runs := r.0.runs, nextSequence := r.0.nextSequence)
  {
    if id in s.runs then (s, StateChanged)
    else
      var row := Run(conversationId, s.nextSequence, caller.principalId, caller.scopeKey, source, RunStatus.Queued, None, None);
      (s.(runs := s.runs[id := row], nextSequence := s.nextSequence + 1), Done)
  }

  predicate HasActiveRun(s: State, conversationId: Id) {
    exists r :: r in s.runs && s.runs[r].conversationId == conversationId && Active(s.runs[r].status)
  }

  predicate IsFirstQueued(s: State, id: Id) {
    && id in s.runs && s.runs[id].status.Queued?
    && forall r :: r in s.runs && s.runs[r].conversationId == s.runs[id].conversationId && s.runs[r].status.Queued?
                   ==> s.runs[id].sequence <= s.runs[r].sequence
  }

  /** `allowed` is what the Run and Conversation rechecks of this transaction decided; whatever
      they decide, a missing Run or another principal's Run is denied. */
  predicate MayControl(s: State, caller: Caller, id: Id, allowed: bool) {
    allowed && id in s.runs && s.runs[id].principalId == caller.principalId
  }

  function TransitionRun(s: State, caller: Caller, id: Id, expected: RunStatus, next: RunStatus, text: Option<string>,
                         allowed: bool): (r: (State, Outcome))
    ensures r.0 == s.(runs := r.0.runs)
  {
    if !ListedRunTransition(expected, next) || !ShortText(text, RESULT_LIMIT) then (s, InvalidInput)
    else if !MayControl(s, caller, id, allowed) then (s, Denied)
    else
      var row := s.runs[id];
      if next.Running? && HasActiveRun(s, row.conversationId) then (s, ActiveRunExists)
      else if next.Running? && !IsFirstQueued(s, id) then (s, EarlierRunQueued)
      else if row.status != expected then (s, StateChanged)
      else (s.(runs := s.runs[id := row.(status := next, resultText := Coalesce(text, row.resultText))]), Done)
  }

  function ClaimQueuedRun(s: State, caller: Caller, id: Id, lease: Id, allowed: bool): (r: (State, Outcome))
    ensures r.0 == s.(runs := r.0.runs, runLeases := r.0.runLeases, issued := r.0.issued)
  {
    var (t, out) := TransitionRun(s, caller, id, RunStatus.Queued, RunStatus.Running, None, allowed);
    if !out.Done? || lease in s.issued then (s, if out.Done? then StateChanged else out)
    else (t.(runLeases := t.runLeases[lease := RunLease(id, true, None)], issued := t.issued + {lease}), Done)
  }

  /** Before its transaction a settlement checks the flag and the outcome, then clears the flag. */
  function BeginSettleRun(s: State, lease: Id, o: RunOutcome): (r: (State, Outcome))
    ensures r.0 == s.(runLeases := r.0.runLeases)
  {
    if lease !in s.runLeases || !s.runLeases[lease].active then (s, LeaseSettled)
    else if !Terminal(o.status) || !ShortText(o.text, RESULT_LIMIT) || !ShortText(o.failureCode, FAILURE_CODE_LIMIT) then
      (s, InvalidInput)
    else (s.(runLeases := s.runLeases[lease := s.runLeases[lease].(active := false, pending := Some(o))]), Done)
  }

  function RestoreRunLease(s: State, lease: Id): State
    requires lease in s.runLeases
  {
    s.(runLeases := s.runLeases[lease := s.runLeases[lease].(active := true, pending := None)])
  }

  /** The settlement's transaction. `readable` says whether all three rechecks allowed the
      output; `aborts` that the transaction failed for a reason of its own. */
  function CommitSettleRun(s: State, lease: Id, readable: bool, aborts: bool): (r: (State, Outcome))
    ensures r.0 == s.(runs := r.0.runs, runLeases := r.0.runLeases)
  {
    if lease !in s.runLeases || s.runLeases[lease].pending.None? then (s, LeaseSettled)
    else
      var l := s.runLeases[lease];
      var o := l.pending.value;
      if aborts || l.runId !in s.runs || !Active(s.runs[l.runId].status) then (RestoreRunLease(s, lease), StateChanged)
      else if o.status.Cancelled? && !s.runs[l.runId].status.Cancelling? then
        (RestoreRunLease(s, lease), CancellationNotRequested)
      else
        var text := if readable then o.text else None;
        (s.(runs := s.runs[l.runId := s.runs[l.runId].(status := o.status, resultText := text, failureCode := o.failureCode)],
            runLeases := s.runLeases[lease := l.(pending := None)]), Done)
  }

  function ReconcileRun(s: State, lease: Id): (r: (State, Outcome))
    ensures r.0 == s.(runLeases := r.0.runLeases)
  {
    if lease !in s.runLeases then (s, LeaseSettled)
    else
      var l := s.runLeases[lease];
      if l.runId in s.runs && Terminal(s.runs[l.runId].status) then
        (s.(runLeases := s.runLeases[lease := l.(active := false)]), Done)
      else (s, NothingToDo)
  }

  function FailQueuedDispatch(s: State, caller: Caller, id: Id, attentionId: Id): (r: (State, Outcome))
    ensures r.0 == s.(runs := r.0.runs, attention := r.0.attention)
  {
    if id !in s.runs || s.runs[id].principalId != caller.principalId || s.runs[id].scopeKey != caller.scopeKey then
      (s, RouteChanged)
    else
      var row := s.runs[id];
      if Terminal(row.status) then (s, NothingToDo)
      else if row.status.Cancelling? then
        (s.(runs := s.runs[id := row.(status := RunStatus.Cancelled, resultText := Some(STOPPED_TEXT))]), Done)
      else if attentionId in s.attention then (s, AttentionConflict)
      else
        (s.(runs := s.runs[id := row.(status := RunStatus.Failed, resultText := Some(NOT_STARTED_TEXT))],
            attention := s.attention[attentionId := Attention(UnansweredMessage, Some(row.conversationId), false)]), Done)
  }

  /** A Task whose cancellation was requested cancels its queued step Run or asks a running one to stop. */
  function CancelForTask(s: State, caller: Caller, id: Id): (r: (State, Outcome))
    ensures r.0 == s.(runs := r.0.runs)
  {
    if id !in s.runs || !s.runs[id].source.TaskStep? || s.runs[id].principalId != caller.principalId then (s, NothingToDo)
    else
      var row := s.runs[id];
      if row.status.Queued? then (s.(runs := s.runs[id := row.(status := RunStatus.Cancelled)]), Done)
      else if row.status.Running? then (s.(runs := s.runs[id := row.(status := RunStatus.Cancelling)]), Done)
      else (s, NothingToDo)
  }

  // ---------------------------------------------------------------------------------------
  // Attention

  const DELIVERY_PREFIX: string := "delivery-"

  function AttentionId(deliveryId: Id): Id { DELIVERY_PREFIX + deliveryId }

  predicate NamesDelivery(attentionId: Id) { DELIVERY_PREFIX <= attentionId }

  function DeliveryNamed(attentionId: Id): Id
    requires NamesDelivery(attentionId)
  {
    attentionId[|DELIVERY_PREFIX|..]
  }

  /** None when the item under this delivery's name is not this delivery's. */
  function RecordAttention(s: State, runId: Id, deliveryId: Id, status: DeliveryStatus): Option<map<Id, Attention>> {
    var id := AttentionId(deliveryId);
    if runId !in s.runs then (if status.Sent? then Some(s.attention) else None)
    else
      var conversationId := Some(s.runs[runId].conversationId);
      var mine := id in s.attention && s.attention[id].kind.DeliveryFailed? && s.attention[id].conversationId == conversationId;
      if status.Sent? then
        Some(if mine && !s.attention[id].resolved then s.attention[id := s.attention[id].(resolved := true)] else s.attention)
      else if id !in s.attention then Some(s.attention[id := Attention(DeliveryFailed, conversationId, false)])
      else if mine then Some(s.attention[id := s.attention[id].(resolved := false)])
      else None
  }

  function ResolveAttention(s: State, id: Id): State {
    if id in s.attention then s.(attention := s.attention[id := s.attention[id].(resolved := true)]) else s
  }

  /** Every other subsystem files its items under a random id. */
  function AddAttention(s: State, id: Id, kind: AttentionKind, conversationId: Option<Id>): State {
    if id in s.attention || NamesDelivery(id) then s
    else s.(attention := s.attention[id := Attention(kind, conversationId, false)])
  }

  // ---------------------------------------------------------------------------------------
  // Deliveries

  /** `allowed` also covers the recheck of every source the Run's text came from. */
  predicate MayDeliver(s: State, caller: Caller, runId: Id, allowed: bool) {
    MayControl(s, caller, runId, allowed)
  }

  predicate HasDedupKey(s: State, runId: Id, dedupKey: string) {
    exists d :: d in s.deliveries && s.deliveries[d].runId == runId && s.deliveries[d].dedupKey == dedupKey
  }

  /** A repeated key is answered with the stored delivery, unless the payload differs. */
  predicate SamePayload(s: State, runId: Id, dedupKey: string, payloadText: string, payloadKind: PayloadKind) {
    forall d :: d in s.deliveries && s.deliveries[d].runId == runId && s.deliveries[d].dedupKey == dedupKey
                ==> s.deliveries[d].payloadText == payloadText && s.deliveries[d].payloadKind == payloadKind
  }

  function CreateDelivery(s: State, caller: Caller, id: Id, runId: Id, dedupKey: string, destination: string,
                          payloadText: string, payloadKind: PayloadKind, allowed: bool): (r: (State, Outcome))
    ensures r.0 == s.(deliveries := r.0.deliveries, nextRow := r.0.nextRow)
  {
    if |payloadText| > RESULT_LIMIT || destination != caller.scopeKey then (s, InvalidInput)
    else if !MayDeliver(s, caller, runId, allowed) then (s, Denied)
    else if !s.runs[runId].source.External? then (s, NotExternal)
    else if HasDedupKey(s, runId, dedupKey) then
      (s, if SamePayload(s, runId, dedupKey, payloadText, payloadKind) then Done else PayloadImmutable)
    else if id in s.deliveries then (s, StateChanged)
    else
      var row := Delivery(runId, dedupKey, destination, payloadText, payloadKind, DeliveryStatus.Pending, None, s.nextRow);
      (s.(deliveries := s.deliveries[id := row], nextRow := s.nextRow + 1), Done)
  }

  function ClaimDelivery(s: State, caller: Caller, runId: Id, id: Id, lease: Id, allowed: bool): (r: (State, Outcome))
    ensures r.0 == s.(deliveries := r.0.deliveries, deliveryLeases := r.0.deliveryLeases, issued := r.0.issued,
                         claimedBy := r.0.claimedBy)
  {
    if !MayDeliver(s, caller, runId, allowed) then (s, Denied)
    else if !s.runs[runId].source.External? then (s, NotExternal)
    else if id !in s.deliveries || s.deliveries[id].runId != runId || s.deliveries[id].destination != caller.scopeKey
            || !s.deliveries[id].status.Pending? || lease in s.issued then (s, NothingToDo)
    else
      (s.(deliveries := s.deliveries[id := s.deliveries[id].(status := DeliveryStatus.Sending)],
          deliveryLeases := s.deliveryLeases[lease := DeliveryLease(runId, id, true, None)],
          issued := s.issued + {lease}, claimedBy := s.claimedBy[id := Some(lease)]), Done)
  }

  function BeginSettleDelivery(s: State, lease: Id, o: DeliveryOutcome): (r: (State, Outcome))
    ensures r.0 == s.(deliveryLeases := r.0.deliveryLeases)
  {
    if lease !in s.deliveryLeases || !s.deliveryLeases[lease].active then (s, LeaseSettled)
    else if !(o.status.Sent? || o.status.Failed? || o.status.Unknown?) then (s, InvalidInput)
    else
      (s.(deliveryLeases := s.deliveryLeases[lease := s.deliveryLeases[lease].(active := false, pending := Some(o))]), Done)
  }

  function RestoreDeliveryLease(s: State, lease: Id): State
    requires lease in s.deliveryLeases
  {
    s.(deliveryLeases := s.deliveryLeases[lease := s.deliveryLeases[lease].(active := true, pending := None)])
  }

  function CommitSettleDelivery(s: State, lease: Id, aborts: bool): (r: (State, Outcome))
    ensures r.0 == s.(deliveries := r.0.deliveries, attention := r.0.attention, deliveryLeases := r.0.deliveryLeases)
  {
    if lease !in s.deliveryLeases || s.deliveryLeases[lease].pending.None? then (s, LeaseSettled)
    else
      var l := s.deliveryLeases[lease];
      var o := l.pending.value;
      if aborts || l.deliveryId !in s.deliveries || s.deliveries[l.deliveryId].runId != l.runId
         || !s.deliveries[l.deliveryId].status.Sending? then (RestoreDeliveryLease(s, lease), StateChanged)
      else
        var attention := RecordAttention(s, l.runId, l.deliveryId, o.status);
        if attention.None? then (RestoreDeliveryLease(s, lease), AttentionConflict)
        else
          var row := s.deliveries[l.deliveryId].(status := o.status, externalId := o.externalId);
          (s.(deliveries := s.deliveries[l.deliveryId := row], attention := attention.value,
              deliveryLeases := s.deliveryLeases[lease := l.(pending := None)]), Done)
  }

  function TransitionDelivery(s: State, caller: Caller, runId: Id, id: Id, expected: DeliveryStatus, next: DeliveryStatus,
                              externalId: Option<string>, allowed: bool): (r: (State, Outcome))
    ensures r.0 == s.(deliveries := r.0.deliveries, claimedBy := r.0.claimedBy, attention := r.0.attention)
  {
    if !ListedDeliveryTransition(expected, next) then (s, InvalidInput)
    else if !MayDeliver(s, caller, runId, allowed) then (s, Denied)
    else if !s.runs[runId].source.External? then (s, NotExternal)
    else if id !in s.deliveries || s.deliveries[id].runId != runId || s.deliveries[id].destination != caller.scopeKey
            || s.deliveries[id].status != expected then (s, StateChanged)
    else
      var row := s.deliveries[id].(status := next, externalId := Coalesce(externalId, s.deliveries[id].externalId));
      var t := s.(deliveries := s.deliveries[id := row],
                  claimedBy := if next.Sending? then s.claimedBy[id := None] else s.claimedBy);
      if next.Sent? || next.Failed? || next.Unknown? then
        var attention := RecordAttention(s, runId, id, next);
        if attention.None? then (s, AttentionConflict) else (t.(attention := attention.value), Done)
      else (t, Done)
  }

  // ---------------------------------------------------------------------------------------
  // Crash and recovery

  /** Every closure dies with the process; the tables stay. */
  function Crash(s: State): State {
    s.(runLeases := map[], deliveryLeases := map[])
  }

  predicate NeedsAttention(status: DeliveryStatus) {
    status.Sending? || status.Failed? || status.Unknown?
  }

  /** Deliveries somebody should look at that have no item yet. */
  function Lacking(s: State): set<Id> {
    set d | d in s.deliveries && NeedsAttention(s.deliveries[d].status) && s.deliveries[d].runId in s.runs
            && AttentionId(d) !in s.attention
  }

  /** Interrupted sends first, then insertion order. */
  predicate Earlier(a: Delivery, b: Delivery) {
    if a.status.Sending? == b.status.Sending? then a.rowId < b.rowId else a.status.Sending?
  }

  function Ahead(s: State, ds: set<Id>, d: Id): set<Id>
    requires d in s.deliveries && forall x :: x in ds ==> x in s.deliveries
  {
    set x | x in ds && Earlier(s.deliveries[x], s.deliveries[d])
  }

  /** The first `limit` of these deliveries in that order. */
  function Batch(s: State, ds: set<Id>, limit: nat): set<Id>
    requires forall x :: x in ds ==> x in s.deliveries
  {
    set d | d in ds && |Ahead(s, ds, d)| < limit
  }

  /** The item a backfill files for one delivery. */
  function BackfillItem(s: State, d: Id): Attention
    requires d in s.deliveries && s.deliveries[d].runId in s.runs
  {
    Attention(DeliveryFailed, Some(s.runs[s.deliveries[d].runId].conversationId), false)
  }

  lemma DeliveryNamedIsExact(d: Id)
    ensures NamesDelivery(AttentionId(d)) && DeliveryNamed(AttentionId(d)) == d
  {
    assert AttentionId(d)[|DELIVERY_PREFIX|..] == d;
  }

  function BackfillItems(s: State, ds: set<Id>): (items: map<Id, Attention>)
    requires forall d :: d in ds ==> d in s.deliveries && s.deliveries[d].runId in s.runs
    ensures forall a :: a in items ==> NamesDelivery(a) && DeliveryNamed(a) in ds && items[a] == BackfillItem(s, DeliveryNamed(a))
    ensures forall d :: AttentionId(d) in items <==> d in ds
  {
    var names := set d | d in ds :: AttentionId(d);
    assert forall d {:trigger AttentionId(d)} :: NamesDelivery(AttentionId(d)) && DeliveryNamed(AttentionId(d)) == d by {
      forall d ensures NamesDelivery(AttentionId(d)) && DeliveryNamed(AttentionId(d)) == d {
        DeliveryNamedIsExact(d);
      }
    }
    map a | a in names :: BackfillItem(s, DeliveryNamed(a))
  }

  function BackfillAttention(s: State): map<Id, Attention> {
    s.attention + BackfillItems(s, Batch(s, Lacking(s), BACKFILL_LIMIT))
  }

  function RecoveredRun(r: Run): Run {
    if r.status.Running? then r.(status := RunStatus.Interrupted)
    else if r.status.Cancelling? then r.(status := RunStatus.Unknown)
    else r
  }

  function RecoveredDelivery(d: Delivery): Delivery {
    if d.status.Sending? then d.(status := DeliveryStatus.Unknown) else d
  }

  function Recover(s: State): State {
    s.(runs := map r | r in s.runs :: RecoveredRun(s.runs[r]),
       deliveries := map d | d in s.deliveries :: RecoveredDelivery(s.deliveries[d]),
       attention := BackfillAttention(s))
  }

  // ---------------------------------------------------------------------------------------
  // Runs of the whole system

  datatype Event =
    | EAcceptRun(id: Id, conversationId: Id, caller: Caller, source: RunSource)
    | ETransitionRun(caller: Caller, id: Id, expected: RunStatus, next: RunStatus, text: Option<string>, allowed: bool)
    | EClaimQueuedRun(caller: Caller, id: Id, lease: Id, allowed: bool)
    | EBeginSettleRun(lease: Id, runOutcome: RunOutcome)
    | ECommitSettleRun(lease: Id, readable: bool, aborts: bool)
    | EReconcileRun(lease: Id)
    | EFailQueuedDispatch(caller: Caller, id: Id, attentionId: Id)
    | ECancelForTask(caller: Caller, id: Id)
    | ECreateDelivery(caller: Caller, id: Id, runId: Id, dedupKey: string, destination: string, payloadText: string,
                      payloadKind: PayloadKind, allowed: bool)
    | EClaimDelivery(caller: Caller, runId: Id, id: Id, lease: Id, allowed: bool)
    | EBeginSettleDelivery(lease: Id, deliveryOutcome: DeliveryOutcome)
    | ECommitSettleDelivery(lease: Id, aborts: bool)
    | ETransitionDelivery(caller: Caller, runId: Id, id: Id, from: DeliveryStatus, to: DeliveryStatus,
                          externalId: Option<string>, allowed: bool)
    | EResolveAttention(attentionId: Id)
    | EAddAttention(attentionId: Id, kind: AttentionKind, about: Option<Id>)
    | ECrash
    | ERecover

  ghost function Step(s: State, e: Event): State {
    match e
    case EAcceptRun(id, c, caller, source) => AcceptRun(s, id, c, caller, source).0
    case ETransitionRun(caller, id, from, to, text, ok) => TransitionRun(s, caller, id, from, to, text, ok).0
    case EClaimQueuedRun(caller, id, lease, ok) => ClaimQueuedRun(s, caller, id, lease, ok).0
    case EBeginSettleRun(lease, o) => BeginSettleRun(s, lease, o).0
    case ECommitSettleRun(lease, readable, aborts) => CommitSettleRun(s, lease, readable, aborts).0
    case EReconcileRun(lease) => ReconcileRun(s, lease).0
    case EFailQueuedDispatch(caller, id, a) => FailQueuedDispatch(s, caller, id, a).0
    case ECancelForTask(caller, id) => CancelForTask(s, caller, id).0
    case ECreateDelivery(caller, id, r, key, dest, text, kind, ok) => CreateDelivery(s, caller, id, r, key, dest, text, kind, ok).0
    case EClaimDelivery(caller, r, id, lease, ok) => ClaimDelivery(s, caller, r, id, lease, ok).0
    case EBeginSettleDelivery(lease, o) => BeginSettleDelivery(s, lease, o).0
    case ECommitSettleDelivery(lease, aborts) => CommitSettleDelivery(s, lease, aborts).0
    case ETransitionDelivery(caller, r, id, from, to, x, ok) => TransitionDelivery(s, caller, r, id, from, to, x, ok).0
    case EResolveAttention(a) => ResolveAttention(s, a)
    case EAddAttention(a, kind, about) => AddAttention(s, a, kind, about)
    case ECrash => Crash(s)
    case ERecover => Recover(s)
  }

  /** The state after a whole history. */
  ghost function After(s: State, es: seq<Event>): State
    decreases |es|
  {
    if es == [] then s else After(Step(s, es[0]), es[1..])
  }
}
