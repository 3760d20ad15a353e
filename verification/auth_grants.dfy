/** The grant ledger over every history. */
module AuthGrants {
  import opened Options
  import opened CanonicalKeys
  import opened AuthModel

  /** No tuple has two live rows of one effect. */
  ghost predicate OneLiveRow(gs: seq<Grant>) {
    forall i, j :: 0 <= i < j < |gs| && !gs[i].revoked && !gs[j].revoked && gs[i].tuple == gs[j].tuple ==> gs[i].effect != gs[j].effect
  }

  /** Rows are only appended and only ever revoked. */
  ghost predicate Grew(gs: seq<Grant>, gt: seq<Grant>) {
    && |gs| <= |gt|
    && forall i :: 0 <= i < |gs| ==>
         gt[i].tuple == gs[i].tuple && gt[i].effect == gs[i].effect && (gs[i].revoked ==> gt[i].revoked)
  }

  /** Some row of the tuple is live that was not live before. */
  ghost predicate Activates(gs: seq<Grant>, gt: seq<Grant>, t: Tuple) {
    exists i :: 0 <= i < |gt| && gt[i].tuple == t && !gt[i].revoked && !(i < |gs| && !gs[i].revoked)
  }

  lemma GrewTransitive(a: seq<Grant>, b: seq<Grant>, c: seq<Grant>)
    requires Grew(a, b) && Grew(b, c)
    ensures Grew(a, c)
    ensures forall t :: Configured(a, t) ==> Configured(b, t)
    ensures forall t :: Activates(a, c, t) ==> Activates(a, b, t) || Activates(b, c, t)
  {
    forall t | Configured(a, t) ensures Configured(b, t) {
      var i :| 0 <= i < |a| && a[i].tuple == t;
      assert b[i].tuple == t;
    }
    forall t | Activates(a, c, t) ensures Activates(a, b, t) || Activates(b, c, t) {
      var i :| 0 <= i < |c| && c[i].tuple == t && !c[i].revoked && !(i < |a| && !a[i].revoked);
      assert i < |b| && !b[i].revoked ==> b[i].tuple == t;
    }
  }

  // ---------------------------------------------------------------------------------------
  // One write

  lemma WriteGrantKeeps(gs: seq<Grant>, t: Tuple, e: Effect, initialOnly: bool)
    ensures var gt := WriteGrant(gs, t, e, initialOnly);
            && Grew(gs, gt) && (OneLiveRow(gs) ==> OneLiveRow(gt)) && Configured(gt, t)
            && (forall u :: Activates(gs, gt, u) ==> u == t && (initialOnly ==> !Configured(gs, t)))
            && (!initialOnly ==> exists i :: 0 <= i < |gt| && Live(gt[i], t, e))
  {
    var gt := WriteGrant(gs, t, e, initialOnly);
    var live := FirstLive(gs, t, e);
    if gt == gs {
      if live.Some? {
        assert gs[live.value].tuple == t;
      }
    } else {
      assert gt[|gs|] == Grant(t, e, false);
      assert forall i :: 0 <= i < |gs| ==> gt[i] == gs[i] && !Live(gs[i], t, e);
    }
  }

  lemma RevokeKeeps(gs: seq<Grant>, sel: Selector)
    ensures var gt := Revoke(gs, sel);
            && Grew(gs, gt) && (OneLiveRow(gs) ==> OneLiveRow(gt)) && forall t :: !Activates(gs, gt, t)
  {
  }

  // ---------------------------------------------------------------------------------------
  // Evaluation and decisions leave the ledger's policy alone

  lemma {:induction false} RechecksLeaveGrants(s: State, receipts: seq<ReadReceipt>, now: int)
    ensures RecheckReads(s, receipts, now).0.grants == s.grants
    decreases |receipts|
  {
    if receipts != [] && ReceiptHolds(s, receipts[0]) {
      RechecksLeaveGrants(Evaluate(s, receipts[0].request, Some(receipts[0].decision), now).0, receipts[1..], now);
    }
  }

  lemma {:induction false} MarksLeaveGrants(s: State, decisions: seq<nat>, receipts: seq<ReadReceipt>)
    requires |decisions| == |receipts|
    ensures MarkAll(s, decisions, receipts).grants == s.grants
    decreases |receipts|
  {
    if receipts != [] {
      MarksLeaveGrants(SetMark(s, decisions[0], receipts[0].source), decisions[1..], receipts[1..]);
    }
  }

  lemma CompletionLeavesGrants(s: State, receipts: seq<ReadReceipt>, action: Option<Request>, now: int)
    ensures CompleteReads(s, receipts, action, now).0.grants == s.grants
  {
    RechecksLeaveGrants(s, receipts, now);
    var (t, completion) := RecheckReads(s, receipts, now);
    if completion.Completed? {
      MarksLeaveGrants(t, completion.decisions, receipts);
      if action.Some? {
        MarksLeaveGrants(Evaluate(t, action.value, None, now).0, completion.decisions, receipts);
      }
    }
  }

  // ---------------------------------------------------------------------------------------
  // Provisioning

  ghost predicate NamesTuple(principalId: Id, scope: Scope, entries: seq<Entry>, t: Tuple) {
    exists e :: e in entries && EntryRequest(principalId, scope, e).tuple == t
  }

  lemma ProvisionOneGrants(s: State, principalId: Id, scope: Scope, entry: Entry, initialOnly: bool, now: int)
    ensures var one := ProvisionOne(s, principalId, scope, entry, initialOnly, now);
            var tuple := EntryRequest(principalId, scope, entry).tuple;
            one.Some? ==>
              && Grew(s.grants, one.value.grants) && (OneLiveRow(s.grants) ==> OneLiveRow(one.value.grants))
              && forall u :: Activates(s.grants, one.value.grants, u) ==> u == tuple && (initialOnly ==> !Configured(s.grants, u))
  {
    WriteGrantKeeps(s.grants, EntryRequest(principalId, scope, entry).tuple, AllowEffect, initialOnly);
  }

  lemma {:induction false} ProvisionKeeps(s: State, principalId: Id, scope: Scope, entries: seq<Entry>, initialOnly: bool, now: int)
    ensures var t := ProvisionAll(s, principalId, scope, entries, initialOnly, now);
            t.Some? ==>
              && Grew(s.grants, t.value.grants) && (OneLiveRow(s.grants) ==> OneLiveRow(t.value.grants))
              && forall u :: Activates(s.grants, t.value.grants, u) ==>
                   NamesTuple(principalId, scope, entries, u) && (initialOnly ==> !Configured(s.grants, u))
    decreases |entries|
  {
    if entries != [] {
      var one := ProvisionOne(s, principalId, scope, entries[0], initialOnly, now);
      if one.Some? {
        ProvisionOneGrants(s, principalId, scope, entries[0], initialOnly, now);
        ProvisionKeeps(one.value, principalId, scope, entries[1..], initialOnly, now);
        var rest := ProvisionAll(one.value, principalId, scope, entries[1..], initialOnly, now);
        if rest.Some? {
          GrewTransitive(s.grants, one.value.grants, rest.value.grants);
          forall u | Activates(s.grants, rest.value.grants, u)
            ensures NamesTuple(principalId, scope, entries, u) && (initialOnly ==> !Configured(s.grants, u))
          {
            if Activates(s.grants, one.value.grants, u) {
              assert entries[0] in entries;
            } else {
              var e :| e in entries[1..] && EntryRequest(principalId, scope, e).tuple == u;
              assert e in entries;
            }
          }
        }
      }
    }
  }

  // ---------------------------------------------------------------------------------------
  // The delivery backfill

  lemma {:induction false} ReadersAreExact(gs: seq<Grant>, resourceId: Id, action: string)
    ensures var rs := Readers(gs, resourceId, action);
            && (forall p, k :: (p, k) in rs <==> exists i :: 0 <= i < |gs| && Live(gs[i], Tuple(p, resourceId, action, k), AllowEffect))
            && (forall i, j :: 0 <= i < j < |rs| ==> rs[i] != rs[j])
    decreases |gs|
  {
    if gs != [] {
      var before := gs[..|gs| - 1];
      ReadersAreExact(before, resourceId, action);
      forall p, k
        ensures (p, k) in Readers(gs, resourceId, action)
                <==> exists i :: 0 <= i < |gs| && Live(gs[i], Tuple(p, resourceId, action, k), AllowEffect)
      {
        ReaderOfOneMore(gs, p, k, resourceId, action);
      }
    }
  }

  lemma ReaderOfOneMore(gs: seq<Grant>, p: Id, k: Scope, resourceId: Id, action: string)
    requires gs != []
    requires var before := gs[..|gs| - 1];
             (p, k) in Readers(before, resourceId, action)
             <==> exists i :: 0 <= i < |before| && Live(before[i], Tuple(p, resourceId, action, k), AllowEffect)
    ensures (p, k) in Readers(gs, resourceId, action)
            <==> exists i :: 0 <= i < |gs| && Live(gs[i], Tuple(p, resourceId, action, k), AllowEffect)
  {
    var before := gs[..|gs| - 1];
    var t := Tuple(p, resourceId, action, k);
    if (p, k) in Readers(before, resourceId, action) {
      var i :| 0 <= i < |gs| - 1 && Live(before[i], t, AllowEffect);
      assert Live(gs[i], t, AllowEffect);
    }
    if i :| 0 <= i < |gs| && Live(gs[i], t, AllowEffect) {
      if i < |gs| - 1 {
        assert Live(before[i], t, AllowEffect);
      }
    }
  }

  lemma ConfiguredGrows(gs: seq<Grant>, gt: seq<Grant>, t: Tuple)
    requires gs <= gt && Configured(gs, t)
    ensures Configured(gt, t)
  {
    var i :| 0 <= i < |gs| && gs[i].tuple == t;
    assert gt[i].tuple == t;
  }

  /** A new allow row for a reader whose delivery tuple had no row at all. */
  ghost predicate FreshRow(g: Grant, gs: seq<Grant>, r: (Id, Scope), resourceId: Id) {
    g == Grant(DeliveryTuple(r, resourceId), AllowEffect, false) && !Configured(gs, DeliveryTuple(r, resourceId))
  }

  ghost predicate AddedFor(g: Grant, gs: seq<Grant>, readers: seq<(Id, Scope)>, resourceId: Id) {
    exists k: nat :: k < |readers| && FreshRow(g, gs, readers[k], resourceId)
  }

  lemma AddedForOneMore(g: Grant, gs: seq<Grant>, mid: seq<Grant>, readers: seq<(Id, Scope)>, resourceId: Id)
    requires readers != [] && gs <= mid && AddedFor(g, mid, readers[1..], resourceId)
    ensures AddedFor(g, gs, readers, resourceId) && !Configured(mid, g.tuple)
  {
    var rest := readers[1..];
    var k: nat :| k < |rest| && FreshRow(g, mid, rest[k], resourceId);
    if Configured(gs, g.tuple) {
      ConfiguredGrows(gs, mid, g.tuple);
    }
    assert FreshRow(g, gs, readers[k + 1], resourceId);
  }

  /** What a backfill over some readers did: it only appended allow rows for tuples that never had
      a row, one for each of its readers that had none. */
  ghost predicate Backfilled(gs: seq<Grant>, gt: seq<Grant>, readers: seq<(Id, Scope)>, resourceId: Id) {
    && gs <= gt
    && (forall i :: |gs| <= i < |gt| ==> AddedFor(gt[i], gs, readers, resourceId))
    && (forall i, j :: |gs| <= i < j < |gt| ==> gt[i] != gt[j])
    && (forall r :: r in readers ==> Configured(gt, DeliveryTuple(r, resourceId)))
  }

  lemma {:induction false} BackfillReadersDoes(gs: seq<Grant>, readers: seq<(Id, Scope)>, resourceId: Id)
    ensures Backfilled(gs, BackfillReaders(gs, readers, resourceId), readers, resourceId)
    decreases |readers|
  {
    if readers != [] {
      var t := DeliveryTuple(readers[0], resourceId);
      var mid := WriteGrant(gs, t, AllowEffect, true);
      WriteGrantKeeps(gs, t, AllowEffect, true);
      BackfillReadersDoes(mid, readers[1..], resourceId);
      BackfillOneMore(gs, mid, BackfillReaders(mid, readers[1..], resourceId), readers, resourceId);
    }
  }

  lemma BackfillOneMore(gs: seq<Grant>, mid: seq<Grant>, gt: seq<Grant>, readers: seq<(Id, Scope)>, resourceId: Id)
    requires readers != [] && mid == WriteGrant(gs, DeliveryTuple(readers[0], resourceId), AllowEffect, true)
    requires Configured(mid, DeliveryTuple(readers[0], resourceId)) && Backfilled(mid, gt, readers[1..], resourceId)
    ensures Backfilled(gs, gt, readers, resourceId)
  {
    var t := DeliveryTuple(readers[0], resourceId);
    ConfiguredGrows(mid, gt, t);
    assert mid == gs || mid == gs + [Grant(t, AllowEffect, false)];
    forall i | |gs| <= i < |gt| ensures AddedFor(gt[i], gs, readers, resourceId) {
      if i < |mid| {
        assert gt[i] == mid[i];
        NotConfiguredBefore(gs, mid, t);
        assert FreshRow(gt[i], gs, readers[0], resourceId);
      } else {
        AddedForOneMore(gt[i], gs, mid, readers, resourceId);
      }
    }
    forall i, j | |gs| <= i < j < |gt| ensures gt[i] != gt[j] {
      if i < |mid| {
        assert gt[i] == mid[i];
        AddedForOneMore(gt[j], gs, mid, readers, resourceId);
      }
    }
  }

  lemma NotConfiguredBefore(gs: seq<Grant>, mid: seq<Grant>, t: Tuple)
    requires mid == WriteGrant(gs, t, AllowEffect, true) && mid != gs
    ensures !Configured(gs, t)
  {
  }

  /** Backfill leaves every live allow-reader with a delivery row, and adds rows only for readers
      whose delivery tuple never had one, revoked or approval-only rows included. */
  lemma BackfillCoversReaders(gs: seq<Grant>, resourceId: Id, readAction: string)
    ensures var gt := BackfillDelivery(gs, resourceId, readAction);
            && Backfilled(gs, gt, Readers(gs, resourceId, readAction), resourceId)
            && (forall i :: 0 <= i < |gs| && gs[i].tuple.resourceId == resourceId && gs[i].tuple.action == readAction
                            && gs[i].effect.AllowEffect? && !gs[i].revoked
                  ==> Configured(gt, DeliveryTuple((gs[i].tuple.principalId, gs[i].tuple.scope), resourceId)))
            && (forall t :: Configured(gs, t) ==> !Activates(gs, gt, t))
  {
    var gt := BackfillDelivery(gs, resourceId, readAction);
    var readers := Readers(gs, resourceId, readAction);
    BackfillReadersDoes(gs, readers, resourceId);
    ReadersAreExact(gs, resourceId, readAction);
    forall i | 0 <= i < |gs| && gs[i].tuple.resourceId == resourceId && gs[i].tuple.action == readAction
               && gs[i].effect.AllowEffect? && !gs[i].revoked
      ensures Configured(gt, DeliveryTuple((gs[i].tuple.principalId, gs[i].tuple.scope), resourceId))
    {
      assert Live(gs[i], Tuple(gs[i].tuple.principalId, resourceId, readAction, gs[i].tuple.scope), AllowEffect);
    }
  }

  lemma {:induction false} NothingToBackfill(gs: seq<Grant>, readers: seq<(Id, Scope)>, resourceId: Id)
    requires forall r :: r in readers ==> Configured(gs, DeliveryTuple(r, resourceId))
    ensures BackfillReaders(gs, readers, resourceId) == gs
    decreases |readers|
  {
    if readers != [] {
      assert readers[0] in readers;
      NothingToBackfill(gs, readers[1..], resourceId);
    }
  }

  /** A second backfill adds nothing. */
  lemma SecondBackfillAddsNothing(gs: seq<Grant>, resourceId: Id, readAction: string)
    ensures var gt := BackfillDelivery(gs, resourceId, readAction);
            BackfillDelivery(gt, resourceId, readAction) == gt
  {
    var gt := BackfillDelivery(gs, resourceId, readAction);
    BackfillCoversReaders(gs, resourceId, readAction);
    ReadersAreExact(gt, resourceId, readAction);
    var readers := Readers(gt, resourceId, readAction);
    forall r | r in readers ensures Configured(gt, DeliveryTuple(r, resourceId)) {
      var i :| 0 <= i < |gt| && Live(gt[i], Tuple(r.0, resourceId, readAction, r.1), AllowEffect);
      if i < |gs| {
        assert gs[i] == gt[i];
      } else {
        assert gt[i].tuple.action == DELIVERY_ACTION;
        assert gt[i].tuple == DeliveryTuple(r, resourceId);
      }
    }
    NothingToBackfill(gt, readers, resourceId);
  }

  lemma BackfillKeeps(gs: seq<Grant>, resourceId: Id, readAction: string)
    ensures var gt := BackfillDelivery(gs, resourceId, readAction);
            && Grew(gs, gt) && (OneLiveRow(gs) ==> OneLiveRow(gt))
            && forall t :: Activates(gs, gt, t) ==> !Configured(gs, t)
  {
    var gt := BackfillDelivery(gs, resourceId, readAction);
    BackfillCoversReaders(gs, resourceId, readAction);
    assert forall i :: 0 <= i < |gs| ==> gt[i] == gs[i];
  }

  // ---------------------------------------------------------------------------------------
  // Histories

  /** The event grants this tuple on purpose, whatever its past. */
  ghost predicate GrantsOnPurpose(e: Event, t: Tuple) {
    || (e.EGrant? && !e.initialOnly && e.tuple == t)
    || (e.EProvision? && !e.initialOnly && NamesTuple(e.principalId, e.scope, e.entries, t))
  }

  /** Initial provisioning and the backfill activate no tuple that ever had a row; only a grant made
      on purpose does. */
  lemma OnlyOnPurpose(s: State, e: Event)
    ensures Grew(s.grants, Step(s, e).grants)
    ensures OneLiveRow(s.grants) ==> OneLiveRow(Step(s, e).grants)
    ensures forall t :: Activates(s.grants, Step(s, e).grants, t) && Configured(s.grants, t) ==> GrantsOnPurpose(e, t)
  {
    match e {
      case ECompleteReads(receipts, action, now) => CompletionLeavesGrants(s, receipts, action, now);
      case EGrant(t, effect, initialOnly) => WriteGrantKeeps(s.grants, t, effect, initialOnly);
      case ERevoke(sel) => RevokeKeeps(s.grants, sel);
      case EProvision(p, k, entries, initialOnly, now) => ProvisionKeeps(s, p, k, entries, initialOnly, now);
      case EBackfill(r, action) => BackfillKeeps(s.grants, r, action);
      case _ =>
    }
  }

  lemma {:induction false} AtMostOneLiveRow(s: State, es: seq<Event>)
    requires OneLiveRow(s.grants)
    ensures OneLiveRow(After(s, es).grants) && Grew(s.grants, After(s, es).grants)
    decreases |es|
  {
    if es != [] {
      OnlyOnPurpose(s, es[0]);
      AtMostOneLiveRow(Step(s, es[0]), es[1..]);
      GrewTransitive(s.grants, Step(s, es[0]).grants, After(Step(s, es[0]), es[1..]).grants);
    }
  }

  /** Until somebody grants it on purpose, a tuple that has been configured once stays as its rows
      left it, through every provisioning and backfill. */
  lemma {:induction false} RevocationsStick(s: State, es: seq<Event>, t: Tuple)
    requires Configured(s.grants, t) && forall i :: 0 <= i < |es| ==> !GrantsOnPurpose(es[i], t)
    ensures Grew(s.grants, After(s, es).grants) && !Activates(s.grants, After(s, es).grants, t)
    decreases |es|
  {
    if es != [] {
      var u := Step(s, es[0]);
      OnlyOnPurpose(s, es[0]);
      GrewTransitive(s.grants, u.grants, u.grants);
      assert !GrantsOnPurpose(es[0], t);
      RevocationsStick(u, es[1..], t);
      GrewTransitive(s.grants, u.grants, After(u, es[1..]).grants);
    }
  }

  // ---------------------------------------------------------------------------------------
  // What a grant is needed for

  ghost predicate HasLive(gs: seq<Grant>, t: Tuple) {
    exists i :: 0 <= i < |gs| && gs[i].tuple == t && !gs[i].revoked
  }

  /** Nothing is allowed unless the sender is bound to the principal now, the Resource exists, and a
      live row covers this exact tuple or the creator's Task policy. */
  lemma AllowNeedsALiveGrant(s: State, req: Request, completed: Option<nat>, now: int)
    requires Judge(s, req, completed, now).verdict.Allow?
    ensures IdentityOf(req.tuple.scope) in s.env.identities
            && s.env.identities[IdentityOf(req.tuple.scope)] == req.tuple.principalId
    ensures req.tuple.resourceId in s.env.resources && DelegationAllows(s.env, req)
    ensures var fallback := FallbackTuple(s.env, req.tuple, s.env.resources[req.tuple.resourceId].kind);
            HasLive(s.grants, req.tuple) || (fallback.Some? && HasLive(s.grants, fallback.value))
  {
    var kind := s.env.resources[req.tuple.resourceId].kind;
    var grant := GrantFor(s, req.tuple, kind).value;
    assert !s.grants[grant].revoked;
  }

  /** A revocation takes effect at the next evaluation, approvals and completed reads included. */
  lemma RevocationIsImmediate(s: State, sel: Selector, req: Request, completed: Option<nat>, now: int)
    requires forall i :: 0 <= i < |s.grants| && s.grants[i].tuple == req.tuple ==> Selects(sel, i, req.tuple)
    requires req.tuple.resourceId in s.env.resources ==>
               FallbackTuple(s.env, req.tuple, s.env.resources[req.tuple.resourceId].kind).None?
    ensures !Judge(Step(s, ERevoke(sel)), req, completed, now).verdict.Allow?
  {
    var t := Step(s, ERevoke(sel));
    if Judge(t, req, completed, now).verdict.Allow? {
      AllowNeedsALiveGrant(t, req, completed, now);
    }
  }
}
