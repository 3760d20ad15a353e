/** Scheduling of Runs, over every history. */
module LifecycleRuns {
  import opened LifecycleModel
  import opened Options

  /** Insertion numbers are unique and below the next one, and a Conversation has at most one active Run. */
  ghost predicate RunsInv(s: State) {
    && (forall r :: r in s.runs ==> s.runs[r].sequence < s.nextSequence)
    && (forall r, q :: r in s.runs && q in s.runs && r != q ==> s.runs[r].sequence != s.runs[q].sequence)
    && (forall r, q :: r in s.runs && q in s.runs && r != q && s.runs[r].conversationId == s.runs[q].conversationId
                       ==> !(Active(s.runs[r].status) && Active(s.runs[q].status)))
  }

  /** The edges any writer can take: the listed transitions, a failed dispatch, and recovery. */
  predicate RunEdge(from: RunStatus, to: RunStatus) {
    || from == to
    || ListedRunTransition(from, to)
    || (from.Queued? && to.Failed?)
  }

  ghost predicate SameRunFacts(r: Run, q: Run) {
    && r.conversationId == q.conversationId && r.sequence == q.sequence && r.principalId == q.principalId
    && r.scopeKey == q.scopeKey && r.source == q.source
  }

  /** What one step may do to one Run. */
  ghost predicate RunMoves(r: Run, q: Run) {
    && SameRunFacts(r, q)
    && RunEdge(r.status, q.status)
    && (Terminal(r.status) ==> q == r)
  }

  /** The Run an event tries to start. */
  function Starter(e: Event): Option<Id> {
    match e
    case ETransitionRun(_, id, _, to, _, _) => if to.Running? then Some(id) else None
    case EClaimQueuedRun(_, id, _, _) => Some(id)
    case _ => None
  }

  ghost predicate Starts(s: State, e: Event, r: Id) {
    r in s.runs && s.runs[r].status.Queued? && r in Step(s, e).runs && Step(s, e).runs[r].status.Running?
  }

  /** Everything one step may do to the Runs; `starter` is the Run it was asked to start. */
  ghost predicate RunsStep(s: State, t: State, starter: Option<Id>) {
    && s.nextSequence <= t.nextSequence
    && (forall r :: r in s.runs ==> r in t.runs && RunMoves(s.runs[r], t.runs[r]))
    && (forall r :: r in s.runs && !Active(s.runs[r].status) && Active(t.runs[r].status) ==>
          starter == Some(r) && IsFirstQueued(s, r) && !HasActiveRun(s, s.runs[r].conversationId)
          && t.runs[r].status.Running?)
    && (forall r :: r in t.runs && r !in s.runs ==>
          t.runs[r].status.Queued? && t.runs[r].sequence == s.nextSequence < t.nextSequence)
    && (forall r, q :: r in t.runs && q in t.runs && r !in s.runs && q !in s.runs ==> r == q)
  }

  /** At most this one Run changed. */
  lemma OneRunStep(s: State, t: State, id: Id, starter: Option<Id>)
    requires id in s.runs && id in t.runs && t.runs == s.runs[id := t.runs[id]]
    requires s.nextSequence == t.nextSequence && RunMoves(s.runs[id], t.runs[id])
    requires !Active(s.runs[id].status) && Active(t.runs[id].status) ==>
               starter == Some(id) && IsFirstQueued(s, id) && !HasActiveRun(s, s.runs[id].conversationId)
               && t.runs[id].status.Running?
    ensures RunsStep(s, t, starter)
  {
  }

  lemma TransitionIsRunsStep(s: State, caller: Caller, id: Id, from: RunStatus, to: RunStatus, text: Option<string>, ok: bool)
    ensures RunsStep(s, TransitionRun(s, caller, id, from, to, text, ok).0, if to.Running? then Some(id) else None)
  {
    var (t, out) := TransitionRun(s, caller, id, from, to, text, ok);
    if out.Done? {
      OneRunStep(s, t, id, if to.Running? then Some(id) else None);
    }
  }

  lemma ClaimIsRunsStep(s: State, caller: Caller, id: Id, lease: Id, ok: bool)
    ensures RunsStep(s, ClaimQueuedRun(s, caller, id, lease, ok).0, Some(id))
  {
    TransitionIsRunsStep(s, caller, id, RunStatus.Queued, RunStatus.Running, None, ok);
  }

  lemma SettleIsRunsStep(s: State, lease: Id, readable: bool, aborts: bool)
    ensures RunsStep(s, CommitSettleRun(s, lease, readable, aborts).0, None)
  {
    var t := CommitSettleRun(s, lease, readable, aborts).0;
    if t.runs != s.runs {
      OneRunStep(s, t, s.runLeases[lease].runId, None);
    }
  }

  lemma DispatchFailureIsRunsStep(s: State, caller: Caller, id: Id, attentionId: Id)
    ensures RunsStep(s, FailQueuedDispatch(s, caller, id, attentionId).0, None)
  {
    var t := FailQueuedDispatch(s, caller, id, attentionId).0;
    if t.runs != s.runs {
      OneRunStep(s, t, id, None);
    }
  }

  lemma CancelIsRunsStep(s: State, caller: Caller, id: Id)
    ensures RunsStep(s, CancelForTask(s, caller, id).0, None)
  {
    var t := CancelForTask(s, caller, id).0;
    if t.runs != s.runs {
      OneRunStep(s, t, id, None);
    }
  }

  lemma StepIsRunsStep(s: State, e: Event)
    ensures RunsStep(s, Step(s, e), Starter(e))
  {
    match e
    case ETransitionRun(caller, id, from, to, text, ok) => TransitionIsRunsStep(s, caller, id, from, to, text, ok);
    case EClaimQueuedRun(caller, id, lease, ok) => ClaimIsRunsStep(s, caller, id, lease, ok);
    case ECommitSettleRun(lease, readable, aborts) => SettleIsRunsStep(s, lease, readable, aborts);
    case EFailQueuedDispatch(caller, id, a) => DispatchFailureIsRunsStep(s, caller, id, a);
    case ECancelForTask(caller, id) => CancelIsRunsStep(s, caller, id);
    case EAcceptRun(id, c, caller, source) => AcceptIsRunsStep(s, id, c, caller, source);
    case ERecover => RecoverIsRunsStep(s);
    case _ => OnlyRunWriters(s, e);
  }

  lemma AcceptIsRunsStep(s: State, id: Id, c: Id, caller: Caller, source: RunSource)
    ensures RunsStep(s, AcceptRun(s, id, c, caller, source).0, None)
  {
  }

  lemma RecoverIsRunsStep(s: State)
    ensures RunsStep(s, Recover(s), None)
  {
  }

  lemma OnlyRunWriters(s: State, e: Event)
    requires e.EBeginSettleRun? || e.EReconcileRun? || e.ECreateDelivery? || e.EClaimDelivery? || e.EBeginSettleDelivery?
             || e.ECommitSettleDelivery? || e.ETransitionDelivery? || e.EResolveAttention? || e.EAddAttention? || e.ECrash?
    ensures Step(s, e).runs == s.runs && Step(s, e).nextSequence == s.nextSequence
    ensures RunsStep(s, Step(s, e), Starter(e))
  {
  }

  lemma RunsStepKeepsInv(s: State, t: State, starter: Option<Id>)
    requires RunsInv(s) && RunsStep(s, t, starter)
    ensures RunsInv(t)
  {
    forall r, q | r in t.runs && q in t.runs && r != q
      ensures t.runs[r].sequence != t.runs[q].sequence
      ensures t.runs[r].conversationId == t.runs[q].conversationId ==> !(Active(t.runs[r].status) && Active(t.runs[q].status))
    {
      if r in s.runs && q in s.runs {
        PairStays(s, t, starter, r, q);
      }
    }
  }

  lemma PairStays(s: State, t: State, starter: Option<Id>, r: Id, q: Id)
    requires RunsInv(s) && RunsStep(s, t, starter) && r in s.runs && q in s.runs && r != q
    ensures t.runs[r].sequence != t.runs[q].sequence
    ensures t.runs[r].conversationId == t.runs[q].conversationId ==> !(Active(t.runs[r].status) && Active(t.runs[q].status))
  {
    assert RunMoves(s.runs[r], t.runs[r]) && RunMoves(s.runs[q], t.runs[q]);
  }

  /** No step removes a Run, changes its address, reopens a settled one or rewrites its result;
      a started Run is cancelled only after it was asked to stop. */
  lemma RunFactsAreFinal(s: State, e: Event, r: Id)
    requires r in s.runs
    ensures r in Step(s, e).runs && RunMoves(s.runs[r], Step(s, e).runs[r])
    ensures Step(s, e).runs[r].status.Queued? ==> s.runs[r].status.Queued?
    ensures Step(s, e).runs[r].status.Cancelled? && Active(s.runs[r].status) ==> s.runs[r].status.Cancelling?
  {
    StepIsRunsStep(s, e);
  }

  // ---------------------------------------------------------------------------------------
  // Histories

  lemma {:induction false} RunsInvAlways(s: State, es: seq<Event>)
    requires RunsInv(s)
    ensures RunsInv(After(s, es))
    decreases |es|
  {
    if es != [] {
      StepIsRunsStep(s, es[0]);
      RunsStepKeepsInv(s, Step(s, es[0]), Starter(es[0]));
      RunsInvAlways(Step(s, es[0]), es[1..]);
    }
  }

  /** A terminal Run keeps its status and its result through any history. */
  lemma {:induction false} TerminalForever(s: State, es: seq<Event>, r: Id)
    requires r in s.runs && Terminal(s.runs[r].status)
    ensures r in After(s, es).runs && After(s, es).runs[r] == s.runs[r]
    decreases |es|
  {
    if es != [] {
      RunFactsAreFinal(s, es[0], r);
      TerminalForever(Step(s, es[0]), es[1..], r);
    }
  }

  /** The insertion numbers of a Conversation's Runs in the order in which they started. */
  ghost function StartOrder(s: State, es: seq<Event>, c: Id): seq<nat>
    decreases |es|
  {
    if es == [] then []
    else
      (match Starter(es[0])
       case Some(r) => if Starts(s, es[0], r) && s.runs[r].conversationId == c then [s.runs[r].sequence] else []
       case None => [])
      + StartOrder(Step(s, es[0]), es[1..], c)
  }

  /** From now on, every Run of the Conversation that can still start was inserted after `floor`. */
  ghost predicate QueuedAbove(s: State, c: Id, floor: int) {
    && floor < s.nextSequence
    && forall r :: r in s.runs && s.runs[r].conversationId == c && s.runs[r].status.Queued? ==> floor < s.runs[r].sequence
  }

  lemma RunsStepKeepsQueuedAbove(s: State, t: State, starter: Option<Id>, c: Id, floor: int)
    requires RunsInv(s) && RunsStep(s, t, starter) && QueuedAbove(s, c, floor)
    ensures QueuedAbove(t, c, floor)
    ensures starter.Some? && starter.value in s.runs && s.runs[starter.value].conversationId == c
            && s.runs[starter.value].status.Queued? && t.runs[starter.value].status.Running? ==>
              floor < s.runs[starter.value].sequence && QueuedAbove(t, c, s.runs[starter.value].sequence)
  {
  }

  ghost predicate Increasing(ns: seq<nat>, floor: int) {
    && (forall i :: 0 <= i < |ns| ==> floor < ns[i])
    && (forall i, j :: 0 <= i < j < |ns| ==> ns[i] < ns[j])
  }

  /** Where the floor stands after one event. */
  ghost function FloorAfter(s: State, e: Event, c: Id, floor: int): int {
    var r := Starter(e);
    if r.Some? && Starts(s, e, r.value) && s.runs[r.value].conversationId == c then s.runs[r.value].sequence else floor
  }

  lemma StepRaisesFloor(s: State, e: Event, c: Id, floor: int)
    requires RunsInv(s) && QueuedAbove(s, c, floor)
    ensures RunsInv(Step(s, e)) && QueuedAbove(Step(s, e), c, FloorAfter(s, e, c, floor)) && floor <= FloorAfter(s, e, c, floor)
    ensures FloorAfter(s, e, c, floor) != floor || Starter(e).None? || !Starts(s, e, Starter(e).value)
            || s.runs[Starter(e).value].conversationId != c
  {
    StepIsRunsStep(s, e);
    RunsStepKeepsInv(s, Step(s, e), Starter(e));
    RunsStepKeepsQueuedAbove(s, Step(s, e), Starter(e), c, floor);
  }

  /** Over the whole history, Runs of a Conversation start in strictly increasing insertion order. */
  lemma {:induction false} StartsIncrease(s: State, es: seq<Event>, c: Id, floor: int)
    requires RunsInv(s) && QueuedAbove(s, c, floor)
    ensures Increasing(StartOrder(s, es, c), floor)
    decreases |es|
  {
    if es != [] {
      StepRaisesFloor(s, es[0], c, floor);
      StartsIncrease(Step(s, es[0]), es[1..], c, FloorAfter(s, es[0], c, floor));
    }
  }

  lemma StartsIncreaseFromTheBeginning(es: seq<Event>, c: Id)
    ensures Increasing(StartOrder(EMPTY, es, c), 0)
    ensures RunsInv(After(EMPTY, es))
  {
    StartsIncrease(EMPTY, es, c, 0);
    RunsInvAlways(EMPTY, es);
  }

  // ---------------------------------------------------------------------------------------
  // No stranded queue

  ghost function QueuedIn(s: State, c: Id): set<Id> {
    set r | r in s.runs && s.runs[r].conversationId == c && s.runs[r].status.Queued?
  }

  lemma {:induction false} LowestOf(s: State, rs: set<Id>) returns (first: Id)
    requires rs != {} && forall r :: r in rs ==> r in s.runs
    ensures first in rs && forall r :: r in rs ==> s.runs[first].sequence <= s.runs[r].sequence
    decreases rs
  {
    var r :| r in rs;
    var rest := rs - {r};
    if rest == {} {
      first := r;
      assert rs == {r};
    } else {
      first := LowestOf(s, rest);
      assert forall q :: q in rs ==> q == r || q in rest;
      if s.runs[r].sequence < s.runs[first].sequence {
        first := r;
      }
    }
  }

  /** A claim starts a Run exactly when it may, the Run is first in its queue and nothing is active. */
  lemma ClaimSucceedsExactlyWhen(s: State, caller: Caller, id: Id, lease: Id, allowed: bool)
    requires lease !in s.issued
    ensures ClaimQueuedRun(s, caller, id, lease, allowed).1.Done? <==>
              MayControl(s, caller, id, allowed) && IsFirstQueued(s, id) && !HasActiveRun(s, s.runs[id].conversationId)
    ensures ClaimQueuedRun(s, caller, id, lease, allowed).1.Done? ==>
              Starts(s, EClaimQueuedRun(caller, id, lease, allowed), id)
  {
  }

  /** Whenever a Conversation has queued Runs and no active one, its lowest queued Run can be
      claimed by its own principal. */
  lemma QueueIsNeverStranded(s: State, c: Id, lease: Id) returns (first: Id)
    requires QueuedIn(s, c) != {} && !HasActiveRun(s, c) && lease !in s.issued
    ensures first in QueuedIn(s, c)
    ensures ClaimQueuedRun(s, Caller(s.runs[first].principalId, s.runs[first].scopeKey), first, lease, true).1.Done?
  {
    first := LowestOf(s, QueuedIn(s, c));
    assert forall r :: r in s.runs && s.runs[r].conversationId == c && s.runs[r].status.Queued? ==> r in QueuedIn(s, c);
  }

  /** Recovery leaves no Run active and touches no queued one, so nothing stays blocked behind it. */
  lemma RecoveryUnblocksEveryQueue(s: State, c: Id)
    ensures !HasActiveRun(Step(s, ERecover), c)
    ensures QueuedIn(Step(s, ERecover), c) == QueuedIn(s, c)
    ensures forall r :: r in s.runs && !Active(s.runs[r].status) ==> Step(s, ERecover).runs[r] == s.runs[r]
  {
  }
}
