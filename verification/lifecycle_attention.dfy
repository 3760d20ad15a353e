/** Attention items against deliveries, over every history. */
module LifecycleAttention {
  import opened LifecycleModel
  import opened Options
  import opened LifecycleRuns
  import opened LifecycleDeliveries

  /** An open item that asks somebody to look at this delivery. */
  ghost predicate OpenItem(s: State, d: Id) {
    AttentionId(d) in s.attention && s.attention[AttentionId(d)].kind.DeliveryFailed? && !s.attention[AttentionId(d)].resolved
  }

  ghost predicate AttentionInv(s: State) {
    && (forall d :: d in s.deliveries ==> s.deliveries[d].runId in s.runs && s.deliveries[d].rowId < s.nextRow)
    && (forall d, x :: d in s.deliveries && x in s.deliveries && d != x ==> s.deliveries[d].rowId != s.deliveries[x].rowId)
    && (forall a :: a in s.attention && NamesDelivery(a) && s.attention[a].kind.DeliveryFailed? ==>
          && DeliveryNamed(a) in s.deliveries && s.deliveries[DeliveryNamed(a)].runId in s.runs
          && s.attention[a].conversationId == Some(s.runs[s.deliveries[DeliveryNamed(a)].runId].conversationId))
    && (forall d :: d in s.deliveries && s.deliveries[d].status.Sent? ==> !OpenItem(s, d))
  }

  lemma NamesAreExact()
    ensures forall d {:trigger AttentionId(d)} :: NamesDelivery(AttentionId(d)) && DeliveryNamed(AttentionId(d)) == d
    ensures forall a {:trigger DeliveryNamed(a)} :: NamesDelivery(a) ==> AttentionId(DeliveryNamed(a)) == a
  {
    forall d ensures NamesDelivery(AttentionId(d)) && DeliveryNamed(AttentionId(d)) == d {
      DeliveryNamedIsExact(d);
    }
  }

  // ---------------------------------------------------------------------------------------
  // The batch of a recovery

  ghost predicate Ordered(s: State, ds: set<Id>) {
    && (forall d :: d in ds ==> d in s.deliveries)
    && forall d, x :: d in ds && x in ds && d != x ==> s.deliveries[d].rowId != s.deliveries[x].rowId
  }

  lemma {:induction false} LastOf(s: State, ds: set<Id>) returns (last: Id)
    requires ds != {} && Ordered(s, ds)
    ensures last in ds && Ahead(s, ds, last) == ds - {last}
    ensures forall x :: x in ds && x != last ==> last !in Ahead(s, ds, x)
    decreases ds
  {
    last := FindLast(s, ds);
    assert Ahead(s, ds, last) == ds - {last};
  }

  lemma {:induction false} FindLast(s: State, ds: set<Id>) returns (last: Id)
    requires ds != {} && Ordered(s, ds)
    ensures last in ds && forall x :: x in ds && x != last ==> Earlier(s.deliveries[x], s.deliveries[last])
    decreases ds
  {
    var d :| d in ds;
    var rest := ds - {d};
    if rest == {} {
      assert ds == {d};
      last := d;
    } else {
      last := FindLast(s, rest);
      assert forall x :: x in ds ==> x == d || x in rest;
      if Earlier(s.deliveries[last], s.deliveries[d]) {
        last := d;
      }
    }
  }

  /** Without the last candidate, the others stand where they stood. */
  lemma BatchWithoutLast(s: State, ds: set<Id>, last: Id, limit: nat)
    requires Ordered(s, ds) && last in ds && Ahead(s, ds, last) == ds - {last}
    requires forall x :: x in ds && x != last ==> last !in Ahead(s, ds, x)
    ensures Batch(s, ds, limit) == Batch(s, ds - {last}, limit) + if |ds| <= limit then {last} else {}
  {
    var rest := ds - {last};
    assert |rest| == |ds| - 1;
    forall x | x in rest ensures Ahead(s, ds, x) == Ahead(s, rest, x) {
    }
    forall x ensures x in Batch(s, ds, limit) <==> x in Batch(s, rest, limit) || (x == last && |ds| <= limit) {
    }
  }

  /** Exactly the smaller of the limit and the number of candidates is chosen. */
  lemma {:induction false} BatchSize(s: State, ds: set<Id>, limit: nat)
    requires Ordered(s, ds)
    ensures |Batch(s, ds, limit)| == if |ds| < limit then |ds| else limit
    decreases ds
  {
    if ds == {} {
      assert Batch(s, ds, limit) == {};
    } else {
      var last := LastOf(s, ds);
      BatchWithoutLast(s, ds, last, limit);
      var rest := ds - {last};
      var chosen := Batch(s, rest, limit);
      BatchSize(s, rest, limit);
      assert |rest| == |ds| - 1 && last !in chosen;
      assert |chosen + {last}| == |chosen| + 1;
    }
  }

  lemma BackfillFilesTheBatch(s: State, d: Id)
    ensures AttentionId(d) in BackfillAttention(s) <==> AttentionId(d) in s.attention || d in Batch(s, Lacking(s), BACKFILL_LIMIT)
  {
  }

  lemma BackfillKeepsItems(s: State, a: Id)
    requires a in s.attention
    ensures a in BackfillAttention(s) && BackfillAttention(s)[a] == s.attention[a]
  {
    NamesAreExact();
  }

  lemma RecoveryShrinksLacking(s: State)
    ensures Lacking(Recover(s)) == Lacking(s) - Batch(s, Lacking(s), BACKFILL_LIMIT)
  {
    forall d | d in s.deliveries
      ensures d in Lacking(Recover(s)) <==> d in Lacking(s) && d !in Batch(s, Lacking(s), BACKFILL_LIMIT)
    {
      BackfillFilesTheBatch(s, d);
    }
  }

  lemma RecoveryEmptiesABatch(s: State)
    requires AttentionInv(s)
    ensures var n := |Lacking(s)|;
            |Lacking(Recover(s))| == n - (if n < BACKFILL_LIMIT then n else BACKFILL_LIMIT)
  {
    var all := Lacking(s);
    BatchSize(s, all, BACKFILL_LIMIT);
    RecoveryShrinksLacking(s);
    assert Batch(s, all, BACKFILL_LIMIT) <= all;
    assert |all - Batch(s, all, BACKFILL_LIMIT)| == |all| - |Batch(s, all, BACKFILL_LIMIT)|;
  }

  /** Each recovery files the missing items for as many deliveries as its batch holds, reopens
      nothing, and adds no delivery to those still lacking one. */
  lemma RecoveryCatchesUp(s: State)
    requires AttentionInv(s)
    ensures var n := |Lacking(s)|;
            |Lacking(Step(s, ERecover))| == n - (if n < BACKFILL_LIMIT then n else BACKFILL_LIMIT)
    ensures Lacking(Step(s, ERecover)) <= Lacking(s)
    ensures forall a :: a in s.attention ==> a in Step(s, ERecover).attention && Step(s, ERecover).attention[a] == s.attention[a]
  {
    var t := Recover(s);
    RecoveryEmptiesABatch(s);
    RecoveryShrinksLacking(s);
    forall a | a in s.attention ensures a in t.attention && t.attention[a] == s.attention[a] {
      BackfillKeepsItems(s, a);
    }
    assert Step(s, ERecover) == t;
  }

  // ---------------------------------------------------------------------------------------
  // Every step

  /** Items under a delivery's name are about that delivery, and an item is open only where it
      was open before or its delivery is not sent. */
  ghost predicate ItemsStep(s: State, t: State) {
    && (forall a :: a in t.attention && NamesDelivery(a) && t.attention[a].kind.DeliveryFailed? ==>
          || (a in s.attention && s.attention[a].kind.DeliveryFailed?
              && t.attention[a].conversationId == s.attention[a].conversationId
              && (!t.attention[a].resolved ==> !s.attention[a].resolved))
          || (DeliveryNamed(a) in s.deliveries && s.deliveries[DeliveryNamed(a)].runId in s.runs
              && !HasStatus(t, DeliveryNamed(a), Sent)
              && t.attention[a].conversationId == Some(s.runs[s.deliveries[DeliveryNamed(a)].runId].conversationId)))
    && (forall a :: a in s.attention ==> a in t.attention && t.attention[a].kind == s.attention[a].kind)
    && (forall d :: d in t.deliveries && d !in s.deliveries ==> t.deliveries[d].runId in s.runs)
  }

  /** A delivery that just became sent has no open item. */
  ghost predicate SentIsClosed(s: State, t: State) {
    forall d :: d in t.deliveries && t.deliveries[d].status.Sent? && !HasStatus(s, d, Sent) ==> !OpenItem(t, d)
  }

  /** Only a delivery that just entered sending can newly lack an item. */
  ghost predicate LackingStep(s: State, t: State) {
    forall d :: d in Lacking(t) ==> d in Lacking(s) || (HasStatus(s, d, Pending) && HasStatus(t, d, Sending))
  }

  lemma StepKeepsAttentionInv(s: State, t: State, starter: Option<Id>)
    requires AttentionInv(s) && DeliveriesStep(s, t) && RunsStep(s, t, starter) && ItemsStep(s, t) && SentIsClosed(s, t)
    ensures AttentionInv(t)
  {
    forall d | d in t.deliveries ensures t.deliveries[d].runId in t.runs && t.deliveries[d].rowId < t.nextRow {
      assert d in s.deliveries ==> SameDeliveryFacts(s.deliveries[d], t.deliveries[d]);
    }
    NamesAreExact();
    ItemsStayAddressed(s, t, starter);
    SentStaysClosed(s, t);
  }

  lemma ItemsStayAddressed(s: State, t: State, starter: Option<Id>)
    requires AttentionInv(s) && DeliveriesStep(s, t) && RunsStep(s, t, starter) && ItemsStep(s, t)
    ensures forall a :: a in t.attention && NamesDelivery(a) && t.attention[a].kind.DeliveryFailed? ==>
              && DeliveryNamed(a) in t.deliveries && t.deliveries[DeliveryNamed(a)].runId in t.runs
              && t.attention[a].conversationId == Some(t.runs[t.deliveries[DeliveryNamed(a)].runId].conversationId)
  {
    forall a | a in t.attention && NamesDelivery(a) && t.attention[a].kind.DeliveryFailed?
      ensures DeliveryNamed(a) in t.deliveries && t.deliveries[DeliveryNamed(a)].runId in t.runs
              && t.attention[a].conversationId == Some(t.runs[t.deliveries[DeliveryNamed(a)].runId].conversationId)
    {
      var d := DeliveryNamed(a);
      assert d in s.deliveries && SameDeliveryFacts(s.deliveries[d], t.deliveries[d]);
      assert RunMoves(s.runs[s.deliveries[d].runId], t.runs[s.deliveries[d].runId]);
    }
  }

  lemma SentStaysClosed(s: State, t: State)
    requires AttentionInv(s) && DeliveriesStep(s, t) && ItemsStep(s, t) && SentIsClosed(s, t)
    ensures forall d :: d in t.deliveries && t.deliveries[d].status.Sent? ==> !OpenItem(t, d)
  {
    forall d | d in t.deliveries && t.deliveries[d].status.Sent? && HasStatus(s, d, Sent)
      ensures !OpenItem(t, d)
    {
      DeliveryNamedIsExact(d);
      assert !OpenItem(s, d);
    }
  }

  lemma RecordedElsewhere(s: State, runId: Id, d: Id, status: DeliveryStatus, a: Id)
    requires RecordAttention(s, runId, d, status).Some? && a != AttentionId(d)
    ensures var after := RecordAttention(s, runId, d, status).value;
            (a in after <==> a in s.attention) && (a in after ==> after[a] == s.attention[a])
  {
  }

  /** What a settlement, by lease or by hand, does to one delivery and its item. */
  lemma OutcomeStep(s: State, t: State, d: Id, status: DeliveryStatus)
    requires AttentionInv(s) && d in s.deliveries && s.deliveries[d].status.Sending?
    requires status.Sent? || status.Failed? || status.Unknown?
    requires d in t.deliveries && t.deliveries == s.deliveries[d := t.deliveries[d]] && t.deliveries[d].status == status
    requires t.deliveries[d].runId == s.deliveries[d].runId && t.runs == s.runs
    requires RecordAttention(s, s.deliveries[d].runId, d, status) == Some(t.attention)
    ensures ItemsStep(s, t) && SentIsClosed(s, t) && LackingStep(s, t) && Lacking(t) <= Lacking(s)
  {
    var r := s.deliveries[d].runId;
    NamesAreExact();
    forall a
      ensures a != AttentionId(d) ==> (a in t.attention <==> a in s.attention) && (a in t.attention ==> t.attention[a] == s.attention[a])
    {
      if a != AttentionId(d) {
        RecordedElsewhere(s, r, d, status, a);
      }
    }
    OutcomeItems(s, t, d, status);
    OutcomeLacking(s, t, d);
  }

  lemma OutcomeItems(s: State, t: State, d: Id, status: DeliveryStatus)
    requires AttentionInv(s) && d in s.deliveries && s.deliveries[d].status.Sending?
    requires status.Sent? || status.Failed? || status.Unknown?
    requires d in t.deliveries && t.deliveries == s.deliveries[d := t.deliveries[d]] && t.deliveries[d].status == status
    requires t.deliveries[d].runId == s.deliveries[d].runId && t.runs == s.runs
    requires RecordAttention(s, s.deliveries[d].runId, d, status) == Some(t.attention)
    requires forall a :: a != AttentionId(d) ==>
               (a in t.attention <==> a in s.attention) && (a in t.attention ==> t.attention[a] == s.attention[a])
    ensures ItemsStep(s, t) && SentIsClosed(s, t)
  {
    NamesAreExact();
  }

  lemma OutcomeLacking(s: State, t: State, d: Id)
    requires d in s.deliveries && s.deliveries[d].status.Sending? && s.deliveries[d].runId in s.runs
    requires d in t.deliveries && t.deliveries == s.deliveries[d := t.deliveries[d]] && t.runs == s.runs
    requires t.deliveries[d].runId == s.deliveries[d].runId
    requires forall a :: a != AttentionId(d) ==> (a in t.attention <==> a in s.attention)
    requires AttentionId(d) in s.attention ==> AttentionId(d) in t.attention
    ensures LackingStep(s, t) && Lacking(t) <= Lacking(s)
  {
    NamesAreExact();
  }

  ghost predicate GoodAttentionStep(s: State, t: State) {
    ItemsStep(s, t) && SentIsClosed(s, t) && LackingStep(s, t)
  }

  /** No outcome is recorded, and no item under a delivery's name is touched or reopened. */
  ghost predicate QuietDeliveries(s: State, t: State) {
    && (forall d :: d in t.deliveries && d !in s.deliveries ==> t.deliveries[d].runId in s.runs)
    && (forall d :: d in s.deliveries && d in t.deliveries ==>
          t.deliveries[d].status == s.deliveries[d].status || t.deliveries[d].status.Pending? || t.deliveries[d].status.Sending?)
  }

  ghost predicate QuietItems(s: State, t: State) {
    && (forall a :: a in s.attention ==>
          && a in t.attention && t.attention[a].kind == s.attention[a].kind
          && t.attention[a].conversationId == s.attention[a].conversationId
          && (s.attention[a].resolved ==> t.attention[a].resolved))
    && (forall a :: a in t.attention && a !in s.attention ==> !NamesDelivery(a) || !t.attention[a].kind.DeliveryFailed?)
  }

  lemma QuietStep(s: State, t: State)
    requires AttentionInv(s) && DeliveriesStep(s, t) && QuietDeliveries(s, t) && QuietItems(s, t)
    ensures GoodAttentionStep(s, t)
  {
    NamesAreExact();
    forall d | d in Lacking(t) ensures d in Lacking(s) || (HasStatus(s, d, Pending) && HasStatus(t, d, Sending)) {
      assert d in s.deliveries && SameDeliveryFacts(s.deliveries[d], t.deliveries[d]);
    }
  }

  lemma SettlementAttention(s: State, lease: Id, aborts: bool)
    requires AttentionInv(s)
    ensures GoodAttentionStep(s, CommitSettleDelivery(s, lease, aborts).0)
    ensures Lacking(CommitSettleDelivery(s, lease, aborts).0) <= Lacking(s)
  {
    var (t, out) := CommitSettleDelivery(s, lease, aborts);
    if out.Done? {
      OutcomeStep(s, t, s.deliveryLeases[lease].deliveryId, s.deliveryLeases[lease].pending.value.status);
    }
  }

  lemma OutcomeByHandAttention(s: State, caller: Caller, r: Id, id: Id, to: DeliveryStatus, x: Option<string>, ok: bool)
    requires AttentionInv(s)
    ensures var t := TransitionDelivery(s, caller, r, id, Sending, to, x, ok).0;
            GoodAttentionStep(s, t) && Lacking(t) <= Lacking(s)
  {
    var (t, out) := TransitionDelivery(s, caller, r, id, Sending, to, x, ok);
    if out.Done? {
      OutcomeStep(s, t, id, to);
    }
  }

  lemma RetryAttention(s: State, caller: Caller, r: Id, id: Id, from: DeliveryStatus, to: DeliveryStatus, x: Option<string>, ok: bool)
    requires AttentionInv(s) && !from.Sending?
    ensures var t := TransitionDelivery(s, caller, r, id, from, to, x, ok).0;
            QuietDeliveries(s, t) && t.attention == s.attention && (!to.Sending? ==> Lacking(t) <= Lacking(s))
  {
    var (t, out) := TransitionDelivery(s, caller, r, id, from, to, x, ok);
    if out.Done? {
      assert t.deliveries == s.deliveries[id := t.deliveries[id]];
    }
  }

  lemma TransitionAttention(s: State, caller: Caller, r: Id, id: Id, from: DeliveryStatus, to: DeliveryStatus, x: Option<string>, ok: bool)
    requires AttentionInv(s)
    ensures GoodAttentionStep(s, TransitionDelivery(s, caller, r, id, from, to, x, ok).0)
    ensures !to.Sending? ==> Lacking(TransitionDelivery(s, caller, r, id, from, to, x, ok).0) <= Lacking(s)
  {
    if from.Sending? {
      OutcomeByHandAttention(s, caller, r, id, to, x, ok);
    } else {
      RetryAttention(s, caller, r, id, from, to, x, ok);
      TransitionIsDeliveriesStep(s, caller, r, id, from, to, x, ok);
      QuietStep(s, TransitionDelivery(s, caller, r, id, from, to, x, ok).0);
    }
  }

  lemma CreateIsQuiet(s: State, caller: Caller, id: Id, r: Id, key: string, dest: string, text: string, kind: PayloadKind, ok: bool)
    ensures QuietDeliveries(s, CreateDelivery(s, caller, id, r, key, dest, text, kind, ok).0)
  {
  }

  lemma CreateAttention(s: State, caller: Caller, id: Id, r: Id, key: string, dest: string, text: string, kind: PayloadKind, ok: bool)
    requires AttentionInv(s)
    ensures GoodAttentionStep(s, CreateDelivery(s, caller, id, r, key, dest, text, kind, ok).0)
  {
    CreateIsDeliveriesStep(s, caller, id, r, key, dest, text, kind, ok);
    CreateIsQuiet(s, caller, id, r, key, dest, text, kind, ok);
    QuietStep(s, CreateDelivery(s, caller, id, r, key, dest, text, kind, ok).0);
  }

  lemma ClaimIsQuiet(s: State, caller: Caller, r: Id, id: Id, lease: Id, ok: bool)
    ensures QuietDeliveries(s, ClaimDelivery(s, caller, r, id, lease, ok).0)
  {
  }

  lemma ClaimAttention(s: State, caller: Caller, r: Id, id: Id, lease: Id, ok: bool)
    requires AttentionInv(s)
    ensures GoodAttentionStep(s, ClaimDelivery(s, caller, r, id, lease, ok).0)
  {
    ClaimIsDeliveriesStep(s, caller, r, id, lease, ok);
    ClaimIsQuiet(s, caller, r, id, lease, ok);
    QuietStep(s, ClaimDelivery(s, caller, r, id, lease, ok).0);
  }

  lemma RecoveryFiles(s: State, a: Id)
    requires a in BackfillAttention(s) && a !in s.attention
    ensures NamesDelivery(a) && BackfillAttention(s)[a].kind.DeliveryFailed?
    ensures var d := DeliveryNamed(a);
            && d in s.deliveries && s.deliveries[d].runId in s.runs && NeedsAttention(s.deliveries[d].status)
            && BackfillAttention(s)[a].conversationId == Some(s.runs[s.deliveries[d].runId].conversationId)
  {
    assert DeliveryNamed(a) in Lacking(s);
  }

  lemma RecoveryItems(s: State)
    requires AttentionInv(s)
    ensures ItemsStep(s, Recover(s))
  {
    var t := Recover(s);
    forall a | a in s.attention ensures a in t.attention && t.attention[a] == s.attention[a] {
      BackfillKeepsItems(s, a);
    }
    forall a | a in t.attention && a !in s.attention
      ensures var d := DeliveryNamed(a);
              && d in s.deliveries && s.deliveries[d].runId in s.runs && !HasStatus(t, d, Sent)
              && t.attention[a].conversationId == Some(s.runs[s.deliveries[d].runId].conversationId)
    {
      RecoveryFiles(s, a);
    }
  }

  lemma RecoveryAttention(s: State)
    requires AttentionInv(s)
    ensures GoodAttentionStep(s, Recover(s))
  {
    RecoveryItems(s);
    RecoveryShrinksLacking(s);
    assert forall d :: HasStatus(Recover(s), d, Sent) ==> HasStatus(s, d, Sent);
  }

  lemma DispatchFailureIsQuiet(s: State, caller: Caller, id: Id, a: Id)
    ensures var t := FailQueuedDispatch(s, caller, id, a).0;
            t.deliveries == s.deliveries && t.nextRow == s.nextRow && QuietItems(s, t)
  {
  }

  lemma DispatchFailureAttention(s: State, caller: Caller, id: Id, a: Id)
    requires AttentionInv(s)
    ensures GoodAttentionStep(s, FailQueuedDispatch(s, caller, id, a).0)
  {
    var t := FailQueuedDispatch(s, caller, id, a).0;
    DispatchFailureIsQuiet(s, caller, id, a);
    SameDeliveries(s, t);
    QuietStep(s, t);
  }

  lemma ResolveIsQuiet(s: State, a: Id)
    requires AttentionInv(s)
    ensures GoodAttentionStep(s, ResolveAttention(s, a))
  {
    SameDeliveries(s, ResolveAttention(s, a));
    QuietStep(s, ResolveAttention(s, a));
  }

  lemma AddIsQuiet(s: State, a: Id, kind: AttentionKind, about: Option<Id>)
    requires AttentionInv(s)
    ensures GoodAttentionStep(s, AddAttention(s, a, kind, about))
  {
    SameDeliveries(s, AddAttention(s, a, kind, about));
    QuietStep(s, AddAttention(s, a, kind, about));
  }

  lemma SameDeliveries(s: State, t: State)
    requires t.deliveries == s.deliveries && t.nextRow == s.nextRow
    ensures DeliveriesStep(s, t) && QuietDeliveries(s, t)
  {
  }

  predicate WritesItems(e: Event) {
    e.EFailQueuedDispatch? || e.EResolveAttention? || e.EAddAttention? || e.ECommitSettleDelivery? || e.ETransitionDelivery? || e.ERecover?
  }

  lemma OnlyItemWriters(s: State, e: Event)
    requires !WritesItems(e)
    ensures Step(s, e).attention == s.attention
  {
  }

  lemma OtherIsQuiet(s: State, e: Event, t: State)
    requires t == Step(s, e) && !WritesItems(e) && !WritesDeliveries(e)
    ensures DeliveriesStep(s, t) && QuietDeliveries(s, t) && QuietItems(s, t)
  {
    OnlyItemWriters(s, e);
    OnlyDeliveryWriters(s, e);
    SameDeliveries(s, t);
  }

  lemma OtherAttention(s: State, e: Event)
    requires AttentionInv(s) && !WritesItems(e) && !WritesDeliveries(e)
    ensures GoodAttentionStep(s, Step(s, e))
  {
    OtherIsQuiet(s, e, Step(s, e));
    QuietStep(s, Step(s, e));
  }

  lemma DeliveryWriterAttention(s: State, e: Event)
    requires AttentionInv(s)
    requires e.ECommitSettleDelivery? || e.ETransitionDelivery? || e.ECreateDelivery? || e.EClaimDelivery?
    ensures GoodAttentionStep(s, Step(s, e))
  {
    match e {
      case ECommitSettleDelivery(lease, aborts) => SettlementAttention(s, lease, aborts);
      case ETransitionDelivery(caller, r, id, from, to, x, ok) => TransitionAttention(s, caller, r, id, from, to, x, ok);
      case ECreateDelivery(caller, id, r, key, dest, text, kind, ok) => CreateAttention(s, caller, id, r, key, dest, text, kind, ok);
      case EClaimDelivery(caller, r, id, lease, ok) => ClaimAttention(s, caller, r, id, lease, ok);
    }
  }

  lemma ItemWriterAttention(s: State, e: Event)
    requires AttentionInv(s)
    requires e.ERecover? || e.EFailQueuedDispatch? || e.EResolveAttention? || e.EAddAttention?
    ensures GoodAttentionStep(s, Step(s, e))
  {
    match e {
      case ERecover => RecoveryAttention(s);
      case EFailQueuedDispatch(caller, id, a) => DispatchFailureAttention(s, caller, id, a);
      case EResolveAttention(a) => ResolveIsQuiet(s, a);
      case EAddAttention(a, kind, about) => AddIsQuiet(s, a, kind, about);
    }
  }

  lemma StepAttention(s: State, e: Event)
    requires AttentionInv(s)
    ensures GoodAttentionStep(s, Step(s, e))
  {
    if e.ECommitSettleDelivery? || e.ETransitionDelivery? || e.ECreateDelivery? || e.EClaimDelivery? {
      DeliveryWriterAttention(s, e);
    } else if e.ERecover? || e.EFailQueuedDispatch? || e.EResolveAttention? || e.EAddAttention? {
      ItemWriterAttention(s, e);
    } else {
      OtherAttention(s, e);
    }
  }

  /** In every history a sent delivery has no open item, and every open item names a stored delivery. */
  lemma {:induction false} SentDeliveriesHaveNoOpenItem(s: State, es: seq<Event>)
    requires AttentionInv(s)
    ensures AttentionInv(After(s, es))
    decreases |es|
  {
    if es != [] {
      StepAttention(s, es[0]);
      StepIsRunsStep(s, es[0]);
      StepIsDeliveriesStep(s, es[0]);
      StepKeepsAttentionInv(s, Step(s, es[0]), Starter(es[0]));
      SentDeliveriesHaveNoOpenItem(Step(s, es[0]), es[1..]);
    }
  }

  lemma NoOpenItemFromTheBeginning(es: seq<Event>, d: Id)
    requires HasStatus(After(EMPTY, es), d, Sent)
    ensures !OpenItem(After(EMPTY, es), d)
  {
    SentDeliveriesHaveNoOpenItem(EMPTY, es);
  }

  lemma SettlingAddsNothing(s: State, e: Event)
    requires AttentionInv(s)
    requires e.ECommitSettleDelivery? || (e.ETransitionDelivery? && !e.to.Sending?)
    ensures |Lacking(Step(s, e))| <= |Lacking(s)|
  {
    if e.ECommitSettleDelivery? {
      SettlementAttention(s, e.lease, e.aborts);
    } else {
      TransitionAttention(s, e.caller, e.runId, e.id, e.from, e.to, e.externalId, e.allowed);
    }
    SmallerSet(Lacking(Step(s, e)), Lacking(s));
  }

  /** Whatever is done to the tables, only entering sending adds a delivery to those lacking an
      item; settling one, by lease or by hand, never does. */
  lemma OnlySendingAddsToLacking(s: State, e: Event)
    requires AttentionInv(s)
    ensures Lacking(Step(s, e)) <= Lacking(s) + set d | d in s.deliveries && HasStatus(s, d, Pending) && HasStatus(Step(s, e), d, Sending)
    ensures e.ECommitSettleDelivery? || (e.ETransitionDelivery? && !e.to.Sending?) ==> |Lacking(Step(s, e))| <= |Lacking(s)|
  {
    StepAttention(s, e);
    if e.ECommitSettleDelivery? || (e.ETransitionDelivery? && !e.to.Sending?) {
      SettlingAddsNothing(s, e);
    }
  }

  lemma SmallerSet(a: set<Id>, b: set<Id>)
    requires a <= b
    ensures |a| <= |b|
  {
    assert |b| == |a| + |b - a|;
  }
}
