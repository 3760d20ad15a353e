/** Deliveries, over every history: nothing unconfirmed is sent again. */
module LifecycleDeliveries {
  import opened LifecycleModel
  import opened Options

  ghost predicate SameDeliveryFacts(a: Delivery, b: Delivery) {
    && a.runId == b.runId && a.dedupKey == b.dedupKey && a.destination == b.destination
    && a.payloadText == b.payloadText && a.payloadKind == b.payloadKind && a.rowId == b.rowId
  }

  /** Everything one step may do to the deliveries. */
  ghost predicate DeliveriesStep(s: State, t: State) {
    && s.nextRow <= t.nextRow
    && (forall d :: d in s.deliveries ==>
          && d in t.deliveries
          && SameDeliveryFacts(s.deliveries[d], t.deliveries[d])
          && (s.deliveries[d].status == t.deliveries[d].status
              || ListedDeliveryTransition(s.deliveries[d].status, t.deliveries[d].status)))
    && (forall d :: d in t.deliveries && d !in s.deliveries ==>
          t.deliveries[d].status.Pending? && t.deliveries[d].rowId == s.nextRow < t.nextRow)
    && (forall d, x :: d in t.deliveries && x in t.deliveries && d !in s.deliveries && x !in s.deliveries ==> d == x)
  }

  lemma OneDeliveryStep(s: State, t: State, id: Id)
    requires id in s.deliveries && id in t.deliveries && t.deliveries == s.deliveries[id := t.deliveries[id]]
    requires s.nextRow == t.nextRow && SameDeliveryFacts(s.deliveries[id], t.deliveries[id])
    requires ListedDeliveryTransition(s.deliveries[id].status, t.deliveries[id].status)
    ensures DeliveriesStep(s, t)
  {
  }

  lemma CreateIsDeliveriesStep(s: State, caller: Caller, id: Id, r: Id, key: string, dest: string, text: string,
                               kind: PayloadKind, ok: bool)
    ensures DeliveriesStep(s, CreateDelivery(s, caller, id, r, key, dest, text, kind, ok).0)
  {
  }

  lemma ClaimIsDeliveriesStep(s: State, caller: Caller, r: Id, id: Id, lease: Id, ok: bool)
    ensures DeliveriesStep(s, ClaimDelivery(s, caller, r, id, lease, ok).0)
  {
    var t := ClaimDelivery(s, caller, r, id, lease, ok).0;
    if t != s {
      OneDeliveryStep(s, t, id);
    }
  }

  lemma SettleIsDeliveriesStep(s: State, lease: Id, aborts: bool)
    ensures DeliveriesStep(s, CommitSettleDelivery(s, lease, aborts).0)
  {
    var (t, out) := CommitSettleDelivery(s, lease, aborts);
    if out.Done? {
      OneDeliveryStep(s, t, s.deliveryLeases[lease].deliveryId);
    }
  }

  lemma TransitionIsDeliveriesStep(s: State, caller: Caller, r: Id, id: Id, from: DeliveryStatus, to: DeliveryStatus,
                                   x: Option<string>, ok: bool)
    ensures DeliveriesStep(s, TransitionDelivery(s, caller, r, id, from, to, x, ok).0)
  {
    var (t, out) := TransitionDelivery(s, caller, r, id, from, to, x, ok);
    if out.Done? {
      OneDeliveryStep(s, t, id);
    }
  }

  lemma RecoverIsDeliveriesStep(s: State)
    ensures DeliveriesStep(s, Recover(s))
  {
  }

  predicate WritesDeliveries(e: Event) {
    e.ECreateDelivery? || e.EClaimDelivery? || e.ECommitSettleDelivery? || e.ETransitionDelivery? || e.ERecover?
  }

  lemma OnlyDeliveryWriters(s: State, e: Event)
    requires !WritesDeliveries(e)
    ensures Step(s, e).deliveries == s.deliveries && Step(s, e).nextRow == s.nextRow && Step(s, e).claimedBy == s.claimedBy
  {
  }

  lemma StepIsDeliveriesStep(s: State, e: Event)
    ensures DeliveriesStep(s, Step(s, e))
  {
    match e
    case ECreateDelivery(caller, id, r, key, dest, text, kind, ok) => CreateIsDeliveriesStep(s, caller, id, r, key, dest, text, kind, ok);
    case EClaimDelivery(caller, r, id, lease, ok) => ClaimIsDeliveriesStep(s, caller, r, id, lease, ok);
    case ECommitSettleDelivery(lease, aborts) => SettleIsDeliveriesStep(s, lease, aborts);
    case ETransitionDelivery(caller, r, id, from, to, x, ok) => TransitionIsDeliveriesStep(s, caller, r, id, from, to, x, ok);
    case ERecover => RecoverIsDeliveriesStep(s);
    case _ => OnlyDeliveryWriters(s, e);
  }

  // ---------------------------------------------------------------------------------------
  // Counting sends

  ghost predicate HasStatus(s: State, d: Id, status: DeliveryStatus) {
    d in s.deliveries && s.deliveries[d].status == status
  }

  /** How often a history moves the delivery into a status it did not have the moment before. */
  ghost function Entries(s: State, es: seq<Event>, d: Id, status: DeliveryStatus): nat
    decreases |es|
  {
    if es == [] then 0
    else
      var t := Step(s, es[0]);
      (if !HasStatus(s, d, status) && HasStatus(t, d, status) then 1 else 0) + Entries(t, es[1..], d, status)
  }

  /** 1 while a send is under way, done or unconfirmed. */
  ghost function Outstanding(s: State, d: Id): int {
    if HasStatus(s, d, Sending) || HasStatus(s, d, Sent) || HasStatus(s, d, DeliveryStatus.Unknown) then 1 else 0
  }

  lemma {:induction false} SendBalance(s: State, es: seq<Event>, d: Id)
    ensures Entries(s, es, d, Sending) - Entries(s, es, d, DeliveryStatus.Failed)
            == Outstanding(After(s, es), d) - Outstanding(s, d)
    decreases |es|
  {
    if es != [] {
      var t := Step(s, es[0]);
      StepIsDeliveriesStep(s, es[0]);
      SendBalance(t, es[1..], d);
    }
  }

  /** In every history, sends minus recorded failures is 1 exactly while the delivery is sending,
      sent or unknown, and 0 otherwise. */
  lemma EverySendIsAccountedFor(es: seq<Event>, d: Id)
    ensures Entries(EMPTY, es, d, Sending) - Entries(EMPTY, es, d, DeliveryStatus.Failed) == Outstanding(After(EMPTY, es), d)
  {
    SendBalance(EMPTY, es, d);
  }

  /** A sent or unknown delivery is never sent again, whoever claims, settles, crashes or recovers. */
  lemma {:induction false} NeverSentAgain(s: State, es: seq<Event>, d: Id)
    requires HasStatus(s, d, Sent) || HasStatus(s, d, DeliveryStatus.Unknown)
    ensures Entries(s, es, d, Sending) == 0
    ensures After(s, es).deliveries.Keys >= {d} && After(s, es).deliveries[d].status == s.deliveries[d].status
    decreases |es|
  {
    if es != [] {
      StepIsDeliveriesStep(s, es[0]);
      NeverSentAgain(Step(s, es[0]), es[1..], d);
    }
  }

  /** A delivery's address, key and payload never change, and it is never removed. */
  lemma {:induction false} PayloadsAreImmutable(s: State, es: seq<Event>, d: Id)
    requires d in s.deliveries
    ensures d in After(s, es).deliveries && SameDeliveryFacts(s.deliveries[d], After(s, es).deliveries[d])
    decreases |es|
  {
    if es != [] {
      StepIsDeliveriesStep(s, es[0]);
      PayloadsAreImmutable(Step(s, es[0]), es[1..], d);
    }
  }

  // ---------------------------------------------------------------------------------------
  // Leases

  /** A lease that can no longer settle anything. */
  ghost predicate Spent(s: State, lease: Id) {
    && lease in s.issued
    && (lease in s.deliveryLeases ==> !s.deliveryLeases[lease].active && s.deliveryLeases[lease].pending.None?)
    && (lease in s.runLeases ==> !s.runLeases[lease].active && s.runLeases[lease].pending.None?)
  }

  /** The event is a settlement by this lease that commits. */
  ghost predicate Settles(s: State, e: Event, lease: Id) {
    || (e.ECommitSettleDelivery? && e.lease == lease && CommitSettleDelivery(s, lease, e.aborts).1.Done?)
    || (e.ECommitSettleRun? && e.lease == lease && CommitSettleRun(s, lease, e.readable, e.aborts).1.Done?)
  }

  ghost function Settlements(s: State, es: seq<Event>, lease: Id): nat
    decreases |es|
  {
    if es == [] then 0 else (if Settles(s, es[0], lease) then 1 else 0) + Settlements(Step(s, es[0]), es[1..], lease)
  }

  /** Leases are handed out once, as a Run lease or as a delivery lease, and a lease with a
      settlement in flight has its flag down. */
  ghost predicate LeasesInv(s: State) {
    && s.runLeases.Keys <= s.issued && s.deliveryLeases.Keys <= s.issued
    && s.runLeases.Keys !! s.deliveryLeases.Keys
    && (forall l :: l in s.runLeases && s.runLeases[l].pending.Some? ==> !s.runLeases[l].active)
    && (forall l :: l in s.deliveryLeases && s.deliveryLeases[l].pending.Some? ==> !s.deliveryLeases[l].active)
  }

  /** Everything one step may do to the leases: only `settler` may fall silent. */
  ghost predicate LeasesStep(s: State, t: State) {
    && s.issued <= t.issued
    && (forall l :: l in t.runLeases ==>
          if l in s.runLeases then
            && (Spent(s, l) ==> t.runLeases[l] == s.runLeases[l])
            && (t.runLeases[l].pending.Some? ==> !t.runLeases[l].active)
          else l !in s.issued && l in t.issued && t.runLeases[l].pending.None? && l !in t.deliveryLeases)
    && (forall l :: l in t.deliveryLeases ==>
          if l in s.deliveryLeases then
            && (Spent(s, l) ==> t.deliveryLeases[l] == s.deliveryLeases[l])
            && (t.deliveryLeases[l].pending.Some? ==> !t.deliveryLeases[l].active)
          else l !in s.issued && l in t.issued && t.deliveryLeases[l].pending.None? && l !in t.runLeases)
  }

  lemma LeasesStepKeepsInv(s: State, t: State)
    requires LeasesInv(s) && LeasesStep(s, t)
    ensures LeasesInv(t)
    ensures forall l :: Spent(s, l) ==> Spent(t, l)
  {
  }

  lemma RunLeaseSteps(s: State, e: Event)
    requires LeasesInv(s)
    requires e.EClaimQueuedRun? || e.EBeginSettleRun? || e.EReconcileRun?
    ensures LeasesStep(s, Step(s, e))
  {
  }

  /** A settlement in flight comes back, or is spent; no other lease moves. */
  lemma RunLeaseComesBack(s: State, t: State, lease: Id)
    requires LeasesInv(s) && lease in s.runLeases && s.runLeases[lease].pending.Some?
    requires t.issued == s.issued && t.deliveryLeases == s.deliveryLeases
    requires lease in t.runLeases && t.runLeases == s.runLeases[lease := t.runLeases[lease]] && t.runLeases[lease].pending.None?
    ensures LeasesStep(s, t) && !Spent(s, lease)
  {
  }

  lemma DeliveryLeaseComesBack(s: State, t: State, lease: Id)
    requires LeasesInv(s) && lease in s.deliveryLeases && s.deliveryLeases[lease].pending.Some?
    requires t.issued == s.issued && t.runLeases == s.runLeases
    requires lease in t.deliveryLeases && t.deliveryLeases == s.deliveryLeases[lease := t.deliveryLeases[lease]]
    requires t.deliveryLeases[lease].pending.None?
    ensures LeasesStep(s, t) && !Spent(s, lease)
  {
  }

  lemma RunSettlementSteps(s: State, lease: Id, readable: bool, aborts: bool)
    requires LeasesInv(s)
    ensures var (t, out) := CommitSettleRun(s, lease, readable, aborts);
            LeasesStep(s, t) && (out.Done? ==> !Spent(s, lease) && Spent(t, lease))
  {
    if lease in s.runLeases && s.runLeases[lease].pending.Some? {
      RunLeaseComesBack(s, CommitSettleRun(s, lease, readable, aborts).0, lease);
    }
  }

  lemma DeliveryLeaseSteps(s: State, e: Event)
    requires LeasesInv(s)
    requires e.EClaimDelivery? || e.EBeginSettleDelivery?
    ensures LeasesStep(s, Step(s, e))
  {
  }

  lemma DeliverySettlementSteps(s: State, lease: Id, aborts: bool)
    requires LeasesInv(s)
    ensures var (t, out) := CommitSettleDelivery(s, lease, aborts);
            LeasesStep(s, t) && (out.Done? ==> !Spent(s, lease) && Spent(t, lease))
  {
    if lease in s.deliveryLeases && s.deliveryLeases[lease].pending.Some? {
      DeliveryLeaseComesBack(s, CommitSettleDelivery(s, lease, aborts).0, lease);
    }
  }

  lemma LeasesAside(s: State, t: State)
    requires LeasesInv(s) && t.issued == s.issued
    requires (t.runLeases == s.runLeases && t.deliveryLeases == s.deliveryLeases) || (t.runLeases == map[] && t.deliveryLeases == map[])
    ensures LeasesStep(s, t)
  {
  }

  lemma StepIsLeasesStep(s: State, e: Event)
    requires LeasesInv(s)
    ensures LeasesStep(s, Step(s, e))
  {
    if e.EClaimQueuedRun? || e.EBeginSettleRun? || e.EReconcileRun? {
      RunLeaseSteps(s, e);
    } else if e.ECommitSettleRun? {
      RunSettlementSteps(s, e.lease, e.readable, e.aborts);
    } else if e.EClaimDelivery? || e.EBeginSettleDelivery? {
      DeliveryLeaseSteps(s, e);
    } else if e.ECommitSettleDelivery? {
      DeliverySettlementSteps(s, e.lease, e.aborts);
    } else {
      LeasesAside(s, Step(s, e));
    }
  }

  lemma SettlingSpends(s: State, e: Event, l: Id)
    requires LeasesInv(s) && Settles(s, e, l)
    ensures !Spent(s, l) && Spent(Step(s, e), l)
  {
    if e.ECommitSettleRun? {
      RunSettlementSteps(s, l, e.readable, e.aborts);
    } else {
      DeliverySettlementSteps(s, l, e.aborts);
    }
  }

  lemma StepKeepsLeasesInv(s: State, e: Event)
    requires LeasesInv(s)
    ensures LeasesInv(Step(s, e))
    ensures forall l :: Spent(s, l) ==> Spent(Step(s, e), l)
    ensures forall l :: Settles(s, e, l) ==> !Spent(s, l) && Spent(Step(s, e), l)
  {
    StepIsLeasesStep(s, e);
    LeasesStepKeepsInv(s, Step(s, e));
    forall l | Settles(s, e, l) ensures !Spent(s, l) && Spent(Step(s, e), l) {
      SettlingSpends(s, e, l);
    }
  }

  lemma {:induction false} SpentLeasesSettleNothing(s: State, es: seq<Event>, lease: Id)
    requires LeasesInv(s) && Spent(s, lease)
    ensures Settlements(s, es, lease) == 0
    decreases |es|
  {
    if es != [] {
      StepKeepsLeasesInv(s, es[0]);
      SpentLeasesSettleNothing(Step(s, es[0]), es[1..], lease);
    }
  }

  /** Each lease records at most one settlement, through any interleaving of its own retries
      with crashes, recoveries and other writers. */
  lemma {:induction false} LeasesAreLinear(s: State, es: seq<Event>, lease: Id)
    requires LeasesInv(s)
    ensures Settlements(s, es, lease) <= 1
    decreases |es|
  {
    if es != [] {
      var t := Step(s, es[0]);
      StepKeepsLeasesInv(s, es[0]);
      if Settles(s, es[0], lease) {
        SpentLeasesSettleNothing(t, es[1..], lease);
      } else {
        LeasesAreLinear(t, es[1..], lease);
      }
    }
  }

  lemma LeasesAreLinearFromTheBeginning(es: seq<Event>, lease: Id)
    ensures Settlements(EMPTY, es, lease) <= 1
  {
    LeasesAreLinear(EMPTY, es, lease);
  }
}
