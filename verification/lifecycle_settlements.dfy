/** What settlements, crashes and recovery leave behind, over every history. */
module LifecycleSettlements {
  import opened LifecycleModel
  import opened Options
  import opened LifecycleRuns
  import opened LifecycleDeliveries
  import opened LifecycleAttention

  // ---------------------------------------------------------------------------------------
  // One delivery per key

  predicate SameKey(a: Delivery, b: Delivery) {
    a.runId == b.runId && a.dedupKey == b.dedupKey
  }

  ghost predicate OnePerDedupKey(s: State) {
    forall d, x :: d in s.deliveries && x in s.deliveries && SameKey(s.deliveries[d], s.deliveries[x]) ==> d == x
  }

  lemma NewKeysAreFree(s: State, e: Event, d: Id)
    requires d !in s.deliveries && d in Step(s, e).deliveries
    ensures !HasDedupKey(s, Step(s, e).deliveries[d].runId, Step(s, e).deliveries[d].dedupKey)
  {
    if !WritesDeliveries(e) {
      OnlyDeliveryWriters(s, e);
    }
  }

  lemma StepKeepsOnePerKey(s: State, t: State, e: Event)
    requires OnePerDedupKey(s) && t == Step(s, e)
    ensures OnePerDedupKey(t)
  {
    StepIsDeliveriesStep(s, e);
    forall d, x | d in t.deliveries && x in t.deliveries && SameKey(t.deliveries[d], t.deliveries[x])
      ensures d == x
    {
      if d !in s.deliveries {
        NewKeysAreFree(s, e, d);
      }
      if x !in s.deliveries {
        NewKeysAreFree(s, e, x);
      }
      assert d in s.deliveries ==> SameDeliveryFacts(s.deliveries[d], t.deliveries[d]);
      assert x in s.deliveries ==> SameDeliveryFacts(s.deliveries[x], t.deliveries[x]);
    }
  }

  /** In every history a Run has at most one delivery per key. */
  lemma {:induction false} OneDeliveryPerKey(s: State, es: seq<Event>)
    requires OnePerDedupKey(s)
    ensures OnePerDedupKey(After(s, es))
    decreases |es|
  {
    if es != [] {
      StepKeepsOnePerKey(s, Step(s, es[0]), es[0]);
      OneDeliveryPerKey(Step(s, es[0]), es[1..]);
    }
  }

  lemma CreatedIsStored(s: State, caller: Caller, id: Id, r: Id, key: string, text: string, kind: PayloadKind, ok: bool) returns (d: Id)
    requires OnePerDedupKey(s) && CreateDelivery(s, caller, id, r, key, caller.scopeKey, text, kind, ok).1.Done?
    ensures var t := CreateDelivery(s, caller, id, r, key, caller.scopeKey, text, kind, ok).0;
            && d in t.deliveries && t.deliveries[d].runId == r && t.deliveries[d].dedupKey == key
            && t.deliveries[d].payloadText == text && t.deliveries[d].payloadKind == kind
  {
    if HasDedupKey(s, r, key) {
      d :| d in s.deliveries && s.deliveries[d].runId == r && s.deliveries[d].dedupKey == key;
    } else {
      d := id;
    }
  }

  lemma RepeatedCreation(s: State, caller: Caller, id: Id, r: Id, key: string, text: string, kind: PayloadKind, ok: bool, d: Id)
    requires OnePerDedupKey(s) && d in s.deliveries && s.deliveries[d].runId == r && s.deliveries[d].dedupKey == key
    ensures var (t, out) := CreateDelivery(s, caller, id, r, key, caller.scopeKey, text, kind, ok);
            && t == s
            && (out.Done? ==> s.deliveries[d].payloadText == text && s.deliveries[d].payloadKind == kind)
            && (out.PayloadImmutable? ==> s.deliveries[d].payloadText != text || s.deliveries[d].payloadKind != kind)
            && (MayDeliver(s, caller, r, ok) && s.runs[r].source.External? && |text| <= RESULT_LIMIT ==> out.Done? || out.PayloadImmutable?)
  {
    assert HasDedupKey(s, r, key);
    forall x | x in s.deliveries && s.deliveries[x].runId == r && s.deliveries[x].dedupKey == key ensures x == d {
      assert SameKey(s.deliveries[x], s.deliveries[d]);
    }
  }

  /** Creating a delivery again, whatever happened in between, stores nothing more; it is answered with the
      first one exactly when the payload is the same. */
  lemma CreatingTwiceIsCreatingOnce(s: State, caller: Caller, id: Id, r: Id, key: string, text: string, kind: PayloadKind,
                                    es: seq<Event>, again: Caller, id2: Id, text2: string, kind2: PayloadKind)
    requires OnePerDedupKey(s) && CreateDelivery(s, caller, id, r, key, caller.scopeKey, text, kind, true).1.Done?
    ensures var u := After(CreateDelivery(s, caller, id, r, key, caller.scopeKey, text, kind, true).0, es);
            var (v, out) := CreateDelivery(u, again, id2, r, key, again.scopeKey, text2, kind2, true);
            && v == u
            && (MayDeliver(u, again, r, true) && u.runs[r].source.External? && |text2| <= RESULT_LIMIT ==>
                  out == if text2 == text && kind2 == kind then Done else PayloadImmutable)
  {
    var e := ECreateDelivery(caller, id, r, key, caller.scopeKey, text, kind, true);
    var t := Step(s, e);
    var d := CreatedIsStored(s, caller, id, r, key, text, kind, true);
    StepKeepsOnePerKey(s, t, e);
    OneDeliveryPerKey(t, es);
    PayloadsAreImmutable(t, es, d);
    RepeatedCreation(After(t, es), again, id2, r, key, text2, kind2, true, d);
  }

  // ---------------------------------------------------------------------------------------
  // Leases are lost only with their Run, or with the process

  ghost predicate Able(s: State, lease: Id) {
    lease in s.runLeases && (s.runLeases[lease].active || s.runLeases[lease].pending.Some?)
  }

  /** A lease that can no longer settle belongs to a Run that has ended. */
  ghost predicate LostOnlyWhenOver(s: State) {
    forall l :: l in s.runLeases ==>
      s.runLeases[l].runId in s.runs && (Able(s, l) || Terminal(s.runs[s.runLeases[l].runId].status))
  }

  lemma RunLeasesAside(s: State, t: State, e: Event)
    requires LostOnlyWhenOver(s) && t == Step(s, e) && (t.runLeases == s.runLeases || t.runLeases == map[])
    ensures LostOnlyWhenOver(t)
  {
    StepIsRunsStep(s, e);
    forall l | l in t.runLeases
      ensures t.runLeases[l].runId in t.runs && (Able(t, l) || Terminal(t.runs[t.runLeases[l].runId].status))
    {
      assert Able(s, l) ==> Able(t, l);
      assert RunMoves(s.runs[s.runLeases[l].runId], t.runs[s.runLeases[l].runId]);
    }
  }

  lemma OtherEventsLeaveRunLeases(s: State, e: Event)
    requires !e.EClaimQueuedRun? && !e.EBeginSettleRun? && !e.EReconcileRun? && !e.ECommitSettleRun? && !e.ECrash?
    ensures Step(s, e).runLeases == s.runLeases
  {
  }

  lemma RunSettlementKeepsAbility(s: State, lease: Id, readable: bool, aborts: bool)
    requires LostOnlyWhenOver(s)
    ensures LostOnlyWhenOver(CommitSettleRun(s, lease, readable, aborts).0)
  {
  }

  lemma ClaimKeepsAbility(s: State, caller: Caller, id: Id, lease: Id, ok: bool)
    requires LostOnlyWhenOver(s)
    ensures LostOnlyWhenOver(ClaimQueuedRun(s, caller, id, lease, ok).0)
  {
    var e := EClaimQueuedRun(caller, id, lease, ok);
    var (t, out) := ClaimQueuedRun(s, caller, id, lease, ok);
    StepIsRunsStep(s, e);
    forall l | l in t.runLeases
      ensures t.runLeases[l].runId in t.runs && (Able(t, l) || Terminal(t.runs[t.runLeases[l].runId].status))
    {
      if l != lease {
        assert Able(s, l) ==> Able(t, l);
        assert RunMoves(s.runs[s.runLeases[l].runId], t.runs[s.runLeases[l].runId]);
      }
    }
  }

  lemma BeginKeepsAbility(s: State, lease: Id, o: RunOutcome)
    requires LostOnlyWhenOver(s)
    ensures LostOnlyWhenOver(BeginSettleRun(s, lease, o).0)
  {
  }

  lemma ReconcileKeepsAbility(s: State, lease: Id)
    requires LostOnlyWhenOver(s)
    ensures LostOnlyWhenOver(ReconcileRun(s, lease).0)
  {
  }

  lemma StepKeepsAbility(s: State, e: Event)
    requires LostOnlyWhenOver(s)
    ensures LostOnlyWhenOver(Step(s, e))
  {
    if e.ECommitSettleRun? {
      RunSettlementKeepsAbility(s, e.lease, e.readable, e.aborts);
    } else if e.EClaimQueuedRun? {
      ClaimKeepsAbility(s, e.caller, e.id, e.lease, e.allowed);
    } else if e.EBeginSettleRun? {
      BeginKeepsAbility(s, e.lease, e.runOutcome);
    } else if e.EReconcileRun? {
      ReconcileKeepsAbility(s, e.lease);
    } else {
      if !e.ECrash? {
        OtherEventsLeaveRunLeases(s, e);
      }
      RunLeasesAside(s, Step(s, e), e);
    }
  }

  /** Through any interleaving of settlements, retries, reconciliations and other writers, a lease goes silent
      only when its Run has ended: an unfinished Run can always still be settled by the lease that started it. */
  lemma {:induction false} UnfinishedRunsKeepTheirLease(s: State, es: seq<Event>)
    requires LostOnlyWhenOver(s)
    ensures LostOnlyWhenOver(After(s, es))
    decreases |es|
  {
    if es != [] {
      StepKeepsAbility(s, es[0]);
      UnfinishedRunsKeepTheirLease(Step(s, es[0]), es[1..]);
    }
  }

  /** A lease handed out before a crash settles nothing after it, however long the process runs on. */
  lemma CrashEndsEveryLease(s: State, es: seq<Event>, lease: Id)
    requires LeasesInv(s) && lease in s.issued
    ensures Settlements(Step(s, ECrash), es, lease) == 0
  {
    StepKeepsLeasesInv(s, ECrash);
    assert Step(s, ECrash) == Crash(s);
    SpentLeasesSettleNothing(Step(s, ECrash), es, lease);
  }

  // ---------------------------------------------------------------------------------------
  // Outcomes

  lemma RunOutcomeIsStored(s: State, lease: Id, readable: bool)
    requires CommitSettleRun(s, lease, readable, false).1.Done?
    ensures var t := CommitSettleRun(s, lease, readable, false).0;
            var l := s.runLeases[lease];
            && l.runId in s.runs && l.runId in t.runs && Active(s.runs[l.runId].status)
            && t.runs[l.runId].status == l.pending.value.status && Terminal(t.runs[l.runId].status)
            && t.runs[l.runId].failureCode == l.pending.value.failureCode
            && t.runs[l.runId].resultText == if readable then l.pending.value.text else None
  {
  }

  /** Output that the rechecks did not clear when its Run was settled is in no later state; output that
      they cleared stays for good, and so does the code of a failure. */
  lemma WithheldOutputNeverAppears(s: State, lease: Id, readable: bool, es: seq<Event>)
    requires CommitSettleRun(s, lease, readable, false).1.Done?
    ensures var r := s.runLeases[lease].runId;
            var u := After(CommitSettleRun(s, lease, readable, false).0, es);
            && r in u.runs && u.runs[r].resultText == (if readable then s.runLeases[lease].pending.value.text else None)
            && u.runs[r].failureCode == s.runLeases[lease].pending.value.failureCode
  {
    RunOutcomeIsStored(s, lease, readable);
    TerminalForever(CommitSettleRun(s, lease, readable, false).0, es, s.runLeases[lease].runId);
  }

  /** A text once stored is taken away only by the settlement that withholds it. */
  lemma TextsAreOnlyWithheldBySettlement(s: State, e: Event, r: Id)
    requires r in s.runs && s.runs[r].resultText.Some? && r in Step(s, e).runs && Step(s, e).runs[r].resultText.None?
    ensures e.ECommitSettleRun? && e.lease in s.runLeases && s.runLeases[e.lease].runId == r
            && s.runLeases[e.lease].pending.Some? && (!e.readable || s.runLeases[e.lease].pending.value.text.None?)
  {
  }

  /** An outcome recorded by lease keeps the provider's identifier, and one that is not a success has an
      open item for its Conversation. */
  lemma LeasedOutcomesAreOnShow(s: State, lease: Id)
    requires AttentionInv(s) && CommitSettleDelivery(s, lease, false).1.Done?
    ensures var t := CommitSettleDelivery(s, lease, false).0;
            var (l, o) := (s.deliveryLeases[lease], s.deliveryLeases[lease].pending.value);
            && HasStatus(t, l.deliveryId, o.status) && t.deliveries[l.deliveryId].externalId == o.externalId
            && (OpenItem(t, l.deliveryId) <==> !o.status.Sent?)
  {
    var l, o := s.deliveryLeases[lease], s.deliveryLeases[lease].pending.value;
    RecordedIsOnShow(s, l.runId, l.deliveryId, o.status);
  }

  /** The same when it is recorded by hand; an identifier stored before is not lost. */
  lemma HandOutcomesAreOnShow(s: State, caller: Caller, r: Id, d: Id, to: DeliveryStatus, x: Option<string>, ok: bool)
    requires AttentionInv(s) && TransitionDelivery(s, caller, r, d, Sending, to, x, ok).1.Done?
    ensures var t := TransitionDelivery(s, caller, r, d, Sending, to, x, ok).0;
            && HasStatus(t, d, to) && t.deliveries[d].externalId == (if x.Some? then x else s.deliveries[d].externalId)
            && (OpenItem(t, d) <==> !to.Sent?)
  {
    RecordedIsOnShow(s, r, d, to);
  }

  lemma RecordedIsOnShow(s: State, r: Id, d: Id, status: DeliveryStatus)
    requires AttentionInv(s) && d in s.deliveries && s.deliveries[d].runId == r && RecordAttention(s, r, d, status).Some?
    ensures var after := RecordAttention(s, r, d, status).value;
            (AttentionId(d) in after && after[AttentionId(d)].kind.DeliveryFailed? && !after[AttentionId(d)].resolved)
            <==> !status.Sent?
  {
    DeliveryNamedIsExact(d);
  }

  // ---------------------------------------------------------------------------------------
  // Recovery

  ghost predicate EndsRun(a: Run, b: Run) {
    && b == a.(status := b.status)
    && match a.status {
         case Running => b.status.Interrupted?
         case Cancelling => b.status.Unknown?
         case _ => b.status == a.status
       }
  }

  ghost predicate EndsSend(a: Delivery, b: Delivery) {
    && b == a.(status := b.status)
    && if a.status.Sending? then b.status.Unknown? else b.status == a.status
  }

  /** Recovery ends what was under way without claiming how it went: a running Run was interrupted, and of one asked to
      stop and of a delivery being sent nobody knows. It keeps every text and identifier, touches nothing else, and has
      nothing left to do to a Run or a delivery when it is repeated. */
  lemma RecoveryClaimsNoOutcome(s: State)
    ensures var t := Recover(s);
            && t.runs.Keys == s.runs.Keys && (forall r :: r in s.runs ==> EndsRun(s.runs[r], t.runs[r]))
            && t.deliveries.Keys == s.deliveries.Keys && (forall d :: d in s.deliveries ==> EndsSend(s.deliveries[d], t.deliveries[d]))
            && Recover(t).runs == t.runs && Recover(t).deliveries == t.deliveries
  {
    var t := Recover(s);
    assert Recover(t).runs == t.runs;
    assert Recover(t).deliveries == t.deliveries;
  }
}
