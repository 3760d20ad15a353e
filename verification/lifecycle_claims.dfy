/** Whose claim does a settlement belong to? */
module LifecycleClaims {
  import opened LifecycleModel
  import opened Options
  import opened LifecycleDeliveries

  /** The lease can still record an outcome. */
  ghost predicate Live(s: State, lease: Id) {
    lease in s.deliveryLeases && (s.deliveryLeases[lease].active || s.deliveryLeases[lease].pending.Some?)
  }

  /** Only the latest claim of a delivery has a live lease, and only while nothing else settled it. */
  ghost predicate ClaimsInv(s: State) {
    forall l :: Live(s, l) ==>
      var d := s.deliveryLeases[l].deliveryId;
      && d in s.deliveries
      && (s.deliveries[d].status.Sending? || s.deliveries[d].status.Unknown?)
      && d in s.claimedBy && s.claimedBy[d] == Some(l)
  }

  /** No live lease is added or turned to another delivery, and no claimed delivery leaves its send. */
  ghost predicate ClaimsAside(s: State, t: State) {
    && t.claimedBy == s.claimedBy
    && (forall l :: Live(t, l) ==> Live(s, l) && t.deliveryLeases[l].deliveryId == s.deliveryLeases[l].deliveryId)
    && (forall d :: HasStatus(s, d, Sending) || HasStatus(s, d, DeliveryStatus.Unknown) ==>
          HasStatus(t, d, Sending) || HasStatus(t, d, DeliveryStatus.Unknown))
  }

  lemma AsideKeepsClaimsInv(s: State, t: State)
    requires ClaimsInv(s) && ClaimsAside(s, t)
    ensures ClaimsInv(t)
  {
    forall l | Live(t, l)
      ensures var d := t.deliveryLeases[l].deliveryId; HasStatus(t, d, Sending) || HasStatus(t, d, DeliveryStatus.Unknown)
    {
      assert Live(s, l);
      var d := s.deliveryLeases[l].deliveryId;
      assert HasStatus(s, d, Sending) || HasStatus(s, d, DeliveryStatus.Unknown);
    }
  }

  /** Sending is left only through a lease or through recovery. */
  predicate LeavesSendingByHand(e: Event) {
    e.ETransitionDelivery? && e.from.Sending?
  }

  lemma ClaimKeepsClaimsInv(s: State, caller: Caller, r: Id, id: Id, lease: Id, ok: bool)
    requires ClaimsInv(s)
    ensures ClaimsInv(ClaimDelivery(s, caller, r, id, lease, ok).0)
  {
  }

  lemma SettledKeepsClaimsInv(s: State, t: State, lease: Id)
    requires ClaimsInv(s) && Live(s, lease) && t.claimedBy == s.claimedBy && !Live(t, lease)
    requires forall l :: l != lease && Live(t, l) ==> Live(s, l) && t.deliveryLeases[l] == s.deliveryLeases[l]
    requires var d := s.deliveryLeases[lease].deliveryId; d in t.deliveries && t.deliveries == s.deliveries[d := t.deliveries[d]]
    ensures ClaimsInv(t)
  {
  }

  lemma SettleKeepsClaimsInv(s: State, lease: Id, aborts: bool)
    requires ClaimsInv(s) && LeasesInv(s)
    ensures ClaimsInv(CommitSettleDelivery(s, lease, aborts).0)
  {
    var (t, out) := CommitSettleDelivery(s, lease, aborts);
    if lease in s.deliveryLeases && s.deliveryLeases[lease].pending.Some? {
      assert Live(s, lease);
      if out.Done? {
        SettledKeepsClaimsInv(s, t, lease);
      } else {
        assert t == RestoreDeliveryLease(s, lease);
        AsideKeepsClaimsInv(s, t);
      }
    }
  }

  lemma TransitionKeepsClaimsInv(s: State, caller: Caller, r: Id, id: Id, from: DeliveryStatus, to: DeliveryStatus,
                                 x: Option<string>, ok: bool)
    requires ClaimsInv(s) && !from.Sending?
    ensures ClaimsInv(TransitionDelivery(s, caller, r, id, from, to, x, ok).0)
  {
  }

  lemma OthersLeaveClaims(s: State, e: Event)
    requires !WritesDeliveries(e) && !e.EBeginSettleDelivery? && !e.ECrash?
    ensures var t := Step(s, e);
            t.deliveries == s.deliveries && t.deliveryLeases == s.deliveryLeases && t.claimedBy == s.claimedBy
  {
    OnlyDeliveryWriters(s, e);
  }

  lemma RecoveryKeepsClaimsInv(s: State)
    requires ClaimsInv(s)
    ensures ClaimsInv(Recover(s))
  {
    AsideKeepsClaimsInv(s, Recover(s));
  }

  lemma CreationKeepsClaimsInv(s: State, e: Event)
    requires ClaimsInv(s) && e.ECreateDelivery?
    ensures ClaimsInv(Step(s, e))
  {
    var t := Step(s, e);
    assert t.deliveryLeases == s.deliveryLeases;
    assert forall d :: d in s.deliveries ==> d in t.deliveries && t.deliveries[d] == s.deliveries[d];
    AsideKeepsClaimsInv(s, t);
  }

  lemma RestKeepsClaimsInv(s: State, e: Event)
    requires ClaimsInv(s) && !e.EClaimDelivery? && !e.ECommitSettleDelivery? && !e.ETransitionDelivery?
    ensures ClaimsInv(Step(s, e))
  {
    if e.ECreateDelivery? {
      CreationKeepsClaimsInv(s, e);
    } else if e.ERecover? {
      RecoveryKeepsClaimsInv(s);
    } else {
      if !e.EBeginSettleDelivery? && !e.ECrash? {
        OthersLeaveClaims(s, e);
      }
      AsideKeepsClaimsInv(s, Step(s, e));
    }
  }

  lemma StepKeepsClaimsInv(s: State, e: Event)
    requires ClaimsInv(s) && LeasesInv(s) && !LeavesSendingByHand(e)
    ensures ClaimsInv(Step(s, e))
  {
    match e
    case EClaimDelivery(caller, r, id, lease, ok) => ClaimKeepsClaimsInv(s, caller, r, id, lease, ok);
    case ECommitSettleDelivery(lease, aborts) => SettleKeepsClaimsInv(s, lease, aborts);
    case ETransitionDelivery(caller, r, id, from, to, x, ok) => TransitionKeepsClaimsInv(s, caller, r, id, from, to, x, ok);
    case _ => RestKeepsClaimsInv(s, e);
  }

  // ---------------------------------------------------------------------------------------
  // The law

  /** What a lease can record from here on its own: the settlement it has in flight, or, once that one has
      failed and raised the flag again, any other it is asked for. */
  ghost predicate CanRecord(s: State, lease: Id, o: DeliveryOutcome) {
    && lease in s.deliveryLeases
    && (|| (s.deliveryLeases[lease].pending == Some(o) && CommitSettleDelivery(s, lease, false).1.Done?)
        || CommitSettleDelivery(BeginSettleDelivery(Idle(s, lease), lease, o).0, lease, false).1.Done?)
  }

  /** The state with no settlement of this lease in flight. */
  function Idle(s: State, lease: Id): State
    requires lease in s.deliveryLeases
  {
    if s.deliveryLeases[lease].pending.Some? then CommitSettleDelivery(s, lease, true).0 else s
  }

  /** Every outcome a lease can record is about the claim that issued the lease, and the delivery is still
      in that send. */
  ghost predicate OutcomesAreOwn(s: State) {
    forall lease, o :: CanRecord(s, lease, o) ==>
      var d := s.deliveryLeases[lease].deliveryId;
      d in s.claimedBy && s.claimedBy[d] == Some(lease) && HasStatus(s, d, Sending)
  }

  /** A lease that can still settle a send is the lease of that send. */
  ghost predicate OwnSends(s: State) {
    forall l :: Live(s, l) && HasStatus(s, s.deliveryLeases[l].deliveryId, Sending) ==>
      var d := s.deliveryLeases[l].deliveryId; d in s.claimedBy && s.claimedBy[d] == Some(l)
  }

  /** A lease names a stored delivery, under its Run. */
  ghost predicate LeasesName(s: State) {
    forall l :: l in s.deliveryLeases ==>
      var d := s.deliveryLeases[l].deliveryId; d in s.deliveries && s.deliveries[d].runId == s.deliveryLeases[l].runId
  }

  ghost predicate LeaseFacts(s: State) {
    LeasesInv(s) && LeasesName(s)
  }

  lemma OnlySendsAreRecorded(s: State, lease: Id, o: DeliveryOutcome)
    requires CanRecord(s, lease, o)
    ensures Live(s, lease) && HasStatus(s, s.deliveryLeases[lease].deliveryId, Sending)
  {
  }

  /** Any live lease of a delivery that is sending can record that it was sent. */
  lemma EverySendCanBeRecorded(s: State, lease: Id)
    requires LeaseFacts(s) && Live(s, lease) && HasStatus(s, s.deliveryLeases[lease].deliveryId, Sending)
    ensures CanRecord(s, lease, DeliveryOutcome(Sent, None))
  {
    var u := Idle(s, lease);
    if s.deliveryLeases[lease].pending.Some? {
      assert u == RestoreDeliveryLease(s, lease);
    }
    assert u.deliveryLeases[lease].active && u.deliveries == s.deliveries;
    var v := BeginSettleDelivery(u, lease, DeliveryOutcome(Sent, None)).0;
    assert v.deliveryLeases[lease].pending == Some(DeliveryOutcome(Sent, None));
  }

  lemma OutcomesAreOwnExactly(s: State)
    requires LeaseFacts(s)
    ensures OutcomesAreOwn(s) <==> OwnSends(s)
  {
    if OwnSends(s) {
      forall lease, o | CanRecord(s, lease, o)
        ensures var d := s.deliveryLeases[lease].deliveryId;
                d in s.claimedBy && s.claimedBy[d] == Some(lease) && HasStatus(s, d, Sending)
      {
        OnlySendsAreRecorded(s, lease, o);
      }
    }
    if OutcomesAreOwn(s) {
      forall l | Live(s, l) && HasStatus(s, s.deliveryLeases[l].deliveryId, Sending)
        ensures var d := s.deliveryLeases[l].deliveryId; d in s.claimedBy && s.claimedBy[d] == Some(l)
      {
        EverySendCanBeRecorded(s, l);
      }
    }
  }

  // ---------------------------------------------------------------------------------------
  // One step

  /** The guards of the two calls that put a delivery into sending. */
  ghost predicate StartsSend(s: State, e: Event, d: Id) {
    && HasStatus(s, d, Pending) && s.deliveries[d].runId in s.runs && s.runs[s.deliveries[d].runId].source.External?
    && match e {
         case EClaimDelivery(caller, r, id, lease, ok) =>
           id == d && r == s.deliveries[d].runId && MayDeliver(s, caller, r, ok) && caller.scopeKey == s.deliveries[d].destination
           && lease !in s.issued
         case ETransitionDelivery(caller, r, id, from, to, _, ok) =>
           id == d && r == s.deliveries[d].runId && MayDeliver(s, caller, r, ok) && caller.scopeKey == s.deliveries[d].destination
           && from.Pending? && to.Sending?
         case _ => false
       }
  }

  ghost predicate Enters(s: State, e: Event, d: Id) {
    !HasStatus(s, d, Sending) && HasStatus(Step(s, e), d, Sending)
  }

  lemma EntersExactlyWhen(s: State, e: Event, d: Id)
    ensures Enters(s, e, d) <==> StartsSend(s, e, d)
  {
    if e.EClaimDelivery? {
      ClaimEntersExactlyWhen(s, e, d);
    } else if e.ETransitionDelivery? {
      TransitionEntersExactlyWhen(s, e, d);
    } else {
      NothingElseEnters(s, e, d);
    }
  }

  lemma ClaimEntersExactlyWhen(s: State, e: Event, d: Id)
    requires e.EClaimDelivery?
    ensures Enters(s, e, d) <==> StartsSend(s, e, d)
  {
  }

  lemma TransitionEntersExactlyWhen(s: State, e: Event, d: Id)
    requires e.ETransitionDelivery?
    ensures Enters(s, e, d) <==> StartsSend(s, e, d)
  {
  }

  lemma NothingElseEnters(s: State, e: Event, d: Id)
    requires !e.EClaimDelivery? && !e.ETransitionDelivery?
    ensures !Enters(s, e, d)
  {
    if !WritesDeliveries(e) {
      OnlyDeliveryWriters(s, e);
    }
  }

  /** A send is started on a delivery while a lease of an earlier send of it can still settle. */
  ghost predicate OverlapsALease(s: State, e: Event) {
    exists l :: Live(s, l) && StartsSend(s, e, s.deliveryLeases[l].deliveryId)
  }

  /** What one step may do to live leases: add the one of a send it starts, and nothing else. */
  ghost predicate LeasesFollowSends(s: State, e: Event, t: State) {
    && (forall l :: Live(t, l) ==>
          || (Live(s, l) && t.deliveryLeases[l].deliveryId == s.deliveryLeases[l].deliveryId)
          || (var d := t.deliveryLeases[l].deliveryId;
              l !in s.issued && Enters(s, e, d) && d in t.claimedBy && t.claimedBy[d] == Some(l)))
    && (forall d :: HasStatus(s, d, Sending) && HasStatus(t, d, Sending) ==>
          (d in t.claimedBy <==> d in s.claimedBy) && (d in s.claimedBy ==> t.claimedBy[d] == s.claimedBy[d]))
  }

  lemma ClaimFollows(s: State, e: Event)
    requires LeaseFacts(s) && e.EClaimDelivery?
    ensures LeasesFollowSends(s, e, Step(s, e))
  {
  }

  lemma TransitionFollows(s: State, e: Event)
    requires e.ETransitionDelivery?
    ensures LeasesFollowSends(s, e, Step(s, e))
  {
  }

  lemma BeginFollows(s: State, lease: Id, o: DeliveryOutcome, e: Event)
    requires e == EBeginSettleDelivery(lease, o)
    ensures LeasesFollowSends(s, e, BeginSettleDelivery(s, lease, o).0)
  {
  }

  lemma CommitFollows(s: State, lease: Id, aborts: bool, e: Event)
    requires LeaseFacts(s) && e == ECommitSettleDelivery(lease, aborts)
    ensures LeasesFollowSends(s, e, CommitSettleDelivery(s, lease, aborts).0)
  {
    var (t, out) := CommitSettleDelivery(s, lease, aborts);
    if lease in s.deliveryLeases && s.deliveryLeases[lease].pending.Some? && !out.Done? {
      assert t == RestoreDeliveryLease(s, lease);
    }
  }

  lemma RestFollows(s: State, e: Event)
    requires !e.EClaimDelivery? && !e.ETransitionDelivery? && !e.EBeginSettleDelivery? && !e.ECommitSettleDelivery?
    ensures LeasesFollowSends(s, e, Step(s, e))
  {
    if !WritesDeliveries(e) && !e.ECrash? {
      OthersLeaveClaims(s, e);
    }
  }

  lemma StepFollows(s: State, e: Event)
    requires LeaseFacts(s)
    ensures LeasesFollowSends(s, e, Step(s, e))
  {
    if e.EClaimDelivery? {
      ClaimFollows(s, e);
    } else if e.ETransitionDelivery? {
      TransitionFollows(s, e);
    } else if e.EBeginSettleDelivery? {
      BeginFollows(s, e.lease, e.deliveryOutcome, e);
    } else if e.ECommitSettleDelivery? {
      CommitFollows(s, e.lease, e.aborts, e);
    } else {
      RestFollows(s, e);
    }
  }

  lemma StepKeepsLeaseFacts(s: State, e: Event)
    requires LeaseFacts(s)
    ensures LeaseFacts(Step(s, e))
  {
    StepKeepsLeasesInv(s, e);
    StepIsDeliveriesStep(s, e);
    StepKeepsNames(s, e);
  }

  lemma StepKeepsNames(s: State, e: Event)
    requires LeasesName(s) && DeliveriesStep(s, Step(s, e))
    ensures LeasesName(Step(s, e))
  {
    var t := Step(s, e);
    forall l | l in t.deliveryLeases
      ensures var d := t.deliveryLeases[l].deliveryId; d in t.deliveries && t.deliveries[d].runId == t.deliveryLeases[l].runId
    {
      LeaseNamesStay(s, e, l);
    }
  }

  lemma LeaseNamesStay(s: State, e: Event, l: Id)
    requires l in Step(s, e).deliveryLeases
    ensures var t := Step(s, e).deliveryLeases[l];
            || (l in s.deliveryLeases && t.deliveryId == s.deliveryLeases[l].deliveryId && t.runId == s.deliveryLeases[l].runId)
            || (t.deliveryId in s.deliveries && s.deliveries[t.deliveryId].runId == t.runId)
  {
    if !WritesDeliveries(e) && !e.EBeginSettleDelivery? && !e.ECrash? {
      OthersLeaveClaims(s, e);
    }
  }

  /** A started send that overlaps no lease keeps the law. */
  lemma ApartKeepsOwn(s: State, e: Event)
    requires LeaseFacts(s) && OwnSends(s) && !OverlapsALease(s, e)
    ensures OwnSends(Step(s, e))
  {
    var t := Step(s, e);
    StepFollows(s, e);
    forall l | Live(t, l) && HasStatus(t, t.deliveryLeases[l].deliveryId, Sending)
      ensures var d := t.deliveryLeases[l].deliveryId; d in t.claimedBy && t.claimedBy[d] == Some(l)
    {
      var d := t.deliveryLeases[l].deliveryId;
      if Live(s, l) && s.deliveryLeases[l].deliveryId == d {
        EntersExactlyWhen(s, e, d);
        assert HasStatus(s, d, Sending);
      }
    }
  }

  lemma ClaimBreaksOwn(s: State, e: Event, l: Id)
    requires LeaseFacts(s) && Live(s, l) && StartsSend(s, e, s.deliveryLeases[l].deliveryId)
    ensures !OwnSends(Step(s, e))
  {
    var t, d := Step(s, e), s.deliveryLeases[l].deliveryId;
    EntersExactlyWhen(s, e, d);
    assert l in s.issued;
    assert Live(t, l) && t.deliveryLeases[l].deliveryId == d && HasStatus(t, d, Sending);
    assert d in t.claimedBy && t.claimedBy[d] != Some(l);
  }

  /** One step keeps the law exactly when it starts no send under a lease that can still settle. */
  lemma StepKeepsOwnExactlyWhen(s: State, e: Event)
    requires LeaseFacts(s) && OwnSends(s)
    ensures OwnSends(Step(s, e)) <==> !OverlapsALease(s, e)
  {
    if OverlapsALease(s, e) {
      var l :| Live(s, l) && StartsSend(s, e, s.deliveryLeases[l].deliveryId);
      ClaimBreaksOwn(s, e, l);
    } else {
      ApartKeepsOwn(s, e);
    }
  }

  // ---------------------------------------------------------------------------------------
  // Histories

  /** The law at every moment of a history. */
  ghost predicate OwnThroughout(s: State, es: seq<Event>)
    decreases |es|
  {
    OutcomesAreOwn(s) && (es != [] ==> OwnThroughout(Step(s, es[0]), es[1..]))
  }

  ghost predicate NeverOverlaps(s: State, es: seq<Event>)
    decreases |es|
  {
    es != [] ==> !OverlapsALease(s, es[0]) && NeverOverlaps(Step(s, es[0]), es[1..])
  }

  lemma {:induction false} OwnThroughoutExactlyWhen(s: State, es: seq<Event>)
    requires LeaseFacts(s) && OwnSends(s)
    ensures OwnThroughout(s, es) <==> NeverOverlaps(s, es)
    decreases |es|
  {
    OutcomesAreOwnExactly(s);
    if es != [] {
      var t := Step(s, es[0]);
      StepKeepsOwnExactlyWhen(s, es[0]);
      StepKeepsLeaseFacts(s, es[0]);
      OutcomesAreOwnExactly(t);
      if OwnSends(t) {
        OwnThroughoutExactlyWhen(t, es[1..]);
      } else {
        NotOwnNow(t, es[1..]);
      }
    }
  }

  lemma NotOwnNow(s: State, es: seq<Event>)
    requires !OutcomesAreOwn(s)
    ensures !OwnThroughout(s, es)
  {
  }

  lemma EmptyClaims()
    ensures ClaimsInv(EMPTY) && LeaseFacts(EMPTY) && OwnSends(EMPTY)
  {
  }

  /** In every history from an empty store: whatever a lease could record was about its own claim at every
      moment, if and only if no send was ever started on a delivery under a lease that could still settle. */
  lemma OutcomesBelongToTheirClaim(es: seq<Event>)
    ensures OwnThroughout(EMPTY, es) <==> NeverOverlaps(EMPTY, es)
  {
    EmptyClaims();
    OwnThroughoutExactlyWhen(EMPTY, es);
  }

  lemma PendingIsUnleased(s: State, e: Event)
    requires ClaimsInv(s)
    ensures !OverlapsALease(s, e)
  {
  }

  lemma {:induction false} NoOverlapWithoutHands(s: State, es: seq<Event>)
    requires ClaimsInv(s) && LeaseFacts(s) && forall i :: 0 <= i < |es| ==> !LeavesSendingByHand(es[i])
    ensures NeverOverlaps(s, es)
    decreases |es|
  {
    PendingIsUnleased(s, if es == [] then ECrash else es[0]);
    if es != [] {
      StepKeepsClaimsInv(s, es[0]);
      StepKeepsLeaseFacts(s, es[0]);
      NoOverlapWithoutHands(Step(s, es[0]), es[1..]);
    }
  }

  /** In particular while sending is left only through leases or recovery. */
  lemma OutcomesBelongWithoutHands(es: seq<Event>)
    requires forall i :: 0 <= i < |es| ==> !LeavesSendingByHand(es[i])
    ensures OwnThroughout(EMPTY, es)
  {
    EmptyClaims();
    NoOverlapWithoutHands(EMPTY, es);
    OutcomesBelongToTheirClaim(es);
  }

  // ---------------------------------------------------------------------------------------
  // A history that breaks the law

  ghost predicate SendIsUp(s: State, r: Id, d: Id, lease: Id, me: Caller) {
    && r in s.runs && s.runs[r].principalId == me.principalId && s.runs[r].source.External?
    && d in s.deliveries && s.deliveries[d].runId == r && s.deliveries[d].destination == me.scopeKey
    && s.deliveries[d].status.Sending?
    && lease in s.deliveryLeases && s.deliveryLeases[lease] == DeliveryLease(r, d, true, None)
    && AttentionId(d) !in s.attention
  }

  /** From any state with a send under way: failing it by hand, retrying it and claiming it again
      lets the first claim's lease settle the second claim. */
  lemma AStaleLeaseSettlesALaterClaim(s: State, r: Id, d: Id, first: Id, second: Id, me: Caller)
    requires SendIsUp(s, r, d, first, me) && second !in s.issued && second != first
    ensures var es := [ETransitionDelivery(me, r, d, Sending, DeliveryStatus.Failed, None, true),
                       ETransitionDelivery(me, r, d, DeliveryStatus.Failed, Pending, None, true),
                       EClaimDelivery(me, r, d, second, true),
                       EBeginSettleDelivery(first, DeliveryOutcome(Sent, None))];
            var t := After(s, es);
            && CommitSettleDelivery(t, first, false).1.Done? && t.deliveryLeases[first].deliveryId == d
            && d in t.claimedBy && t.claimedBy[d] == Some(second) && !OutcomesAreOwn(t)
  {
    var e1 := ETransitionDelivery(me, r, d, Sending, DeliveryStatus.Failed, None, true);
    var e2 := ETransitionDelivery(me, r, d, DeliveryStatus.Failed, Pending, None, true);
    var e3 := EClaimDelivery(me, r, d, second, true);
    var e4 := EBeginSettleDelivery(first, DeliveryOutcome(Sent, None));
    var s1 := FailedByHand(s, r, d, first, me);
    var s2 := RetriedByHand(s1, r, d, first, me);
    var s3 := ClaimedAgain(s2, r, d, first, second, me);
    SettledByTheFirst(s3, r, d, first, second);
    AfterFour(s, e1, e2, e3, e4);
    assert CanRecord(After(s, [e1, e2, e3, e4]), first, DeliveryOutcome(Sent, None));
  }

  ghost predicate HandState(s: State, r: Id, d: Id, lease: Id, me: Caller, status: DeliveryStatus) {
    && r in s.runs && s.runs[r].principalId == me.principalId && s.runs[r].source.External?
    && d in s.deliveries && s.deliveries[d].runId == r && s.deliveries[d].destination == me.scopeKey
    && s.deliveries[d].status == status
    && lease in s.deliveryLeases && s.deliveryLeases[lease] == DeliveryLease(r, d, true, None)
    && AttentionId(d) in s.attention && s.attention[AttentionId(d)].kind.DeliveryFailed?
    && s.attention[AttentionId(d)].conversationId == Some(s.runs[r].conversationId)
  }

  lemma FailedByHand(s: State, r: Id, d: Id, lease: Id, me: Caller) returns (t: State)
    requires SendIsUp(s, r, d, lease, me)
    ensures t == Step(s, ETransitionDelivery(me, r, d, Sending, DeliveryStatus.Failed, None, true))
    ensures HandState(t, r, d, lease, me, DeliveryStatus.Failed) && t.issued == s.issued
  {
    t := TransitionDelivery(s, me, r, d, Sending, DeliveryStatus.Failed, None, true).0;
  }

  lemma RetriedByHand(s: State, r: Id, d: Id, lease: Id, me: Caller) returns (t: State)
    requires HandState(s, r, d, lease, me, DeliveryStatus.Failed)
    ensures t == Step(s, ETransitionDelivery(me, r, d, DeliveryStatus.Failed, Pending, None, true))
    ensures HandState(t, r, d, lease, me, Pending) && t.issued == s.issued
  {
    t := TransitionDelivery(s, me, r, d, DeliveryStatus.Failed, Pending, None, true).0;
  }

  lemma ClaimedAgain(s: State, r: Id, d: Id, first: Id, second: Id, me: Caller) returns (t: State)
    requires HandState(s, r, d, first, me, Pending) && second !in s.issued && second != first
    ensures t == Step(s, EClaimDelivery(me, r, d, second, true))
    ensures HandState(t, r, d, first, me, Sending) && d in t.claimedBy && t.claimedBy[d] == Some(second)
  {
    t := ClaimDelivery(s, me, r, d, second, true).0;
  }

  lemma SettledByTheFirst(s: State, r: Id, d: Id, first: Id, second: Id)
    requires exists me :: HandState(s, r, d, first, me, Sending)
    requires d in s.claimedBy && s.claimedBy[d] == Some(second)
    ensures var t := Step(s, EBeginSettleDelivery(first, DeliveryOutcome(Sent, None)));
            && CommitSettleDelivery(t, first, false).1.Done? && d in t.claimedBy && t.claimedBy[d] == Some(second)
            && first in t.deliveryLeases && t.deliveryLeases[first].deliveryId == d
            && t.deliveryLeases[first].pending == Some(DeliveryOutcome(Sent, None))
  {
    var t := BeginSettleDelivery(s, first, DeliveryOutcome(Sent, None)).0;
    assert t.deliveryLeases[first].pending == Some(DeliveryOutcome(Sent, None));
  }

  lemma AfterFour(s: State, e1: Event, e2: Event, e3: Event, e4: Event)
    ensures After(s, [e1, e2, e3, e4]) == Step(Step(Step(Step(s, e1), e2), e3), e4)
  {
    AfterThree(Step(s, e1), e2, e3, e4);
    assert [e1, e2, e3, e4][1..] == [e2, e3, e4];
  }

  lemma AfterThree(s: State, e1: Event, e2: Event, e3: Event)
    ensures After(s, [e1, e2, e3]) == Step(Step(Step(s, e1), e2), e3)
  {
    AfterOne(Step(Step(s, e1), e2), e3);
    assert [e1, e2, e3][1..] == [e2, e3] && [e2, e3][1..] == [e3];
  }

  lemma AfterOne(s: State, e: Event)
    ensures After(s, [e]) == Step(s, e)
  {
    assert [e][1..] == [];
  }

  lemma {:induction false} AfterBoth(s: State, es: seq<Event>, fs: seq<Event>)
    ensures After(s, es + fs) == After(After(s, es), fs)
    decreases |es|
  {
    if es == [] {
      assert es + fs == fs;
    } else {
      assert (es + fs)[1..] == es[1..] + fs;
      AfterBoth(Step(s, es[0]), es[1..], fs);
    }
  }

  /** A first send: one message, one Run, one delivery, claimed. */
  function FirstSend(me: Caller, c: Id, r: Id, d: Id, lease: Id): seq<Event> {
    [EAcceptRun(r, c, me, External), ECreateDelivery(me, d, r, "answer", me.scopeKey, "", Text, true),
     EClaimDelivery(me, r, d, lease, true)]
  }

  lemma FirstSendIsUp(me: Caller, c: Id, r: Id, d: Id, lease: Id)
    ensures SendIsUp(After(EMPTY, FirstSend(me, c, r, d, lease)), r, d, lease, me)
    ensures After(EMPTY, FirstSend(me, c, r, d, lease)).issued == {lease}
  {
    var es := FirstSend(me, c, r, d, lease);
    AfterThree(EMPTY, es[0], es[1], es[2]);
    var s1 := AcceptRun(EMPTY, r, c, me, External).0;
    var s2 := CreateDelivery(s1, me, d, r, "answer", me.scopeKey, "", Text, true).0;
    assert s2.deliveries == map[d := Delivery(r, "answer", me.scopeKey, "", Text, Pending, None, 1)];
    var s3 := ClaimDelivery(s2, me, r, d, lease, true).0;
    assert s3.deliveryLeases == map[lease := DeliveryLease(r, d, true, None)];
  }

  /** It happens from the very beginning: whoever sends, fails the send by hand, retries it and claims it again
      has a first lease that records the second send's outcome, while its own claim is no longer the delivery's. */
  lemma AStaleLeaseIsReachable(me: Caller, c: Id, r: Id, d: Id, first: Id, second: Id)
    requires second != first
    ensures var es := FirstSend(me, c, r, d, first)
                      + [ETransitionDelivery(me, r, d, Sending, DeliveryStatus.Failed, None, true),
                         ETransitionDelivery(me, r, d, DeliveryStatus.Failed, Pending, None, true),
                         EClaimDelivery(me, r, d, second, true),
                         EBeginSettleDelivery(first, DeliveryOutcome(Sent, None))];
            && CommitSettleDelivery(After(EMPTY, es), first, false).1.Done?
            && !OutcomesAreOwn(After(EMPTY, es)) && !NeverOverlaps(EMPTY, es)
  {
    var up := FirstSend(me, c, r, d, first);
    var es := [ETransitionDelivery(me, r, d, Sending, DeliveryStatus.Failed, None, true),
               ETransitionDelivery(me, r, d, DeliveryStatus.Failed, Pending, None, true),
               EClaimDelivery(me, r, d, second, true),
               EBeginSettleDelivery(first, DeliveryOutcome(Sent, None))];
    FirstSendIsUp(me, c, r, d, first);
    AStaleLeaseSettlesALaterClaim(After(EMPTY, up), r, d, first, second, me);
    AfterBoth(EMPTY, up, es);
    OutcomesBelongToTheirClaim(up + es);
    if OwnThroughout(EMPTY, up + es) {
      OwnToTheEnd(EMPTY, up + es);
    }
  }

  lemma {:induction false} OwnToTheEnd(s: State, es: seq<Event>)
    requires OwnThroughout(s, es)
    ensures OutcomesAreOwn(After(s, es))
    decreases |es|
  {
    if es != [] {
      OwnToTheEnd(Step(s, es[0]), es[1..]);
    }
  }
}
