/** Exactly when a delivery passes, and what a revocation does to it. */
module ProvenanceGate {
  import opened Options
  import opened Auth = AuthModel
  import opened AuthGrants
  import opened ProvenanceModel
  import opened ProvenanceMarks
  import opened ProvenanceRuns

  predicate Plain(req: Request) { req.approvalId.None? }

  /** A decision made without an approval in hand never opens a door that was shut before it. */
  lemma AdmissionIsStable(l: Ledger, made: Request, req: Request, now: int)
    requires Plain(made)
    ensures var t := Evaluate(l, made, None, now).0;
            FirstAdmission(t, req, now).Some? <==> FirstAdmission(l, req, now).Some?
  {
    var (t, j) := Evaluate(l, made, None, now);
    EvaluateAppends(l, made, None, now);
    if FirstAdmission(l, req, now).Some? {
      assert AdmittedRun(t, req, FirstAdmission(l, req, now).value, now);
    }
    if FirstAdmission(t, req, now).Some? {
      var i := FirstAdmission(t, req, now).value;
      if i == |l.decisions| {
        assert j.basis.RechecksAdmission?;
        assert AdmittedRun(l, made, j.basis.of, now);
        assert AdmittedRun(l, req, j.basis.of, now);
      } else {
        assert AdmittedRun(l, req, i, now);
      }
    }
  }

  lemma VerdictsAgree(l: Ledger, t: Ledger, req: Request, now: int)
    requires Plain(req) && t == l.(decisions := t.decisions)
    requires FirstAdmission(t, req, now).Some? <==> FirstAdmission(l, req, now).Some?
    ensures Judge(t, req, None, now).verdict == Judge(l, req, None, now).verdict
  {
  }

  lemma VerdictIsStable(l: Ledger, made: Request, req: Request, now: int)
    requires Plain(made) && Plain(req)
    ensures var t := Evaluate(l, made, None, now).0;
            Judge(t, req, None, now).verdict == Judge(l, req, None, now).verdict
  {
    var (t, j) := Evaluate(l, made, None, now);
    AdmissionIsStable(l, made, req, now);
    assert t == l.(decisions := t.decisions);
    VerdictsAgree(l, t, req, now);
  }

  /** The caller may have this source's content delivered, as things stand. */
  predicate Passes(l: Ledger, caller: Caller, ev: Evidence, src: Source, now: int) {
    && Judge(l, SourceRequest(caller, src, ev), None, now).verdict.Allow?
    && (Classification(src.mark).ContentSource? ==> Judge(l, SendRequest(caller, src, ev), None, now).verdict.Allow?)
  }

  lemma PassingIsStable(l: Ledger, made: Request, caller: Caller, ev: Evidence, src: Source, now: int)
    requires Plain(made)
    ensures Passes(Evaluate(l, made, None, now).0, caller, ev, src, now) <==> Passes(l, caller, ev, src, now)
  {
    VerdictIsStable(l, made, SourceRequest(caller, src, ev), now);
    VerdictIsStable(l, made, SendRequest(caller, src, ev), now);
  }

  lemma OneSourcePasses(l: Ledger, caller: Caller, ev: Evidence, src: Source, other: Source, now: int)
    ensures var (t, ok) := GateSources(l, caller, ev, [src], now);
            && (ok <==> Passes(l, caller, ev, src, now))
            && (Passes(t, caller, ev, other, now) <==> Passes(l, caller, ev, other, now))
  {
    var t := Evaluate(l, SourceRequest(caller, src, ev), None, now).0;
    assert [src][1..] == [];
    PassingIsStable(l, SourceRequest(caller, src, ev), caller, ev, other, now);
    VerdictIsStable(l, SourceRequest(caller, src, ev), SendRequest(caller, src, ev), now);
    PassingIsStable(t, SendRequest(caller, src, ev), caller, ev, other, now);
  }

  ghost predicate AllPass(l: Ledger, caller: Caller, ev: Evidence, sources: seq<Source>, now: int) {
    forall i :: 0 <= i < |sources| ==> Passes(l, caller, ev, sources[i], now)
  }

  lemma AllButTheFirstPass(l: Ledger, t: Ledger, caller: Caller, ev: Evidence, sources: seq<Source>, now: int)
    requires sources != []
    requires forall other :: Passes(t, caller, ev, other, now) <==> Passes(l, caller, ev, other, now)
    ensures AllPass(l, caller, ev, sources, now) <==>
            Passes(l, caller, ev, sources[0], now) && AllPass(t, caller, ev, sources[1..], now)
  {
    var rest := sources[1..];
    if AllPass(l, caller, ev, sources, now) {
      forall i | 0 <= i < |rest| ensures Passes(t, caller, ev, rest[i], now) {
        assert rest[i] == sources[i + 1];
      }
    }
    if Passes(l, caller, ev, sources[0], now) && AllPass(t, caller, ev, rest, now) {
      forall i | 0 <= i < |sources| ensures Passes(l, caller, ev, sources[i], now) {
        assert i > 0 ==> rest[i - 1] == sources[i] && Passes(t, caller, ev, rest[i - 1], now);
      }
    }
  }

  lemma {:induction false} GatePassesExactlyWhen(l: Ledger, caller: Caller, ev: Evidence, sources: seq<Source>, now: int)
    ensures GateSources(l, caller, ev, sources, now).1 <==> AllPass(l, caller, ev, sources, now)
    decreases |sources|
  {
    if sources != [] {
      var t := GateSources(l, caller, ev, [sources[0]], now).0;
      OneAtATime(l, caller, ev, sources, now);
      forall other ensures (GateSources(l, caller, ev, [sources[0]], now).1 <==> Passes(l, caller, ev, sources[0], now))
                           && (Passes(t, caller, ev, other, now) <==> Passes(l, caller, ev, other, now)) {
        OneSourcePasses(l, caller, ev, sources[0], other, now);
      }
      OneSourcePasses(l, caller, ev, sources[0], sources[0], now);
      GatePassesExactlyWhen(t, caller, ev, sources[1..], now);
      AllButTheFirstPass(l, t, caller, ev, sources, now);
    }
  }

  /** A delivery of the Run's own principal passes exactly when every source marked on the Run for
      that principal is allowed now, content sources for sending too. */
  lemma DeliveryPassesExactlyWhen(l: Ledger, caller: Caller, runId: Id, allowed: bool, now: int)
    ensures DeliveryGate(l, caller, runId, allowed, now).1 <==>
              && allowed && runId in l.env.runs && l.env.runs[runId].principalId == caller.principalId
              && forall src :: HasSource(l.decisions, {runId}, Some(caller.principalId), src) ==>
                   Passes(l, caller, DeliveryEvidence(l.env, caller, runId), src, now)
  {
    var rows := SourceRows(l.decisions, {runId}, Some(caller.principalId));
    GatePassesExactlyWhen(l, caller, DeliveryEvidence(l.env, caller, runId), rows, now);
    forall src ensures src in rows <==> HasSource(l.decisions, {runId}, Some(caller.principalId), src) {
      SourceRowsAreExact(l.decisions, {runId}, Some(caller.principalId), src);
    }
    assert AllPass(l, caller, DeliveryEvidence(l.env, caller, runId), rows, now)
           <==> forall src :: src in rows ==> Passes(l, caller, DeliveryEvidence(l.env, caller, runId), src, now);
  }

  /** This decision marked a source on the Run for this principal. */
  ghost predicate MarkedAt(l: Ledger, i: nat, runId: Id, p: Id) {
    && i < |l.decisions| && l.decisions[i].runId == Some(runId) && l.decisions[i].tuple.principalId == p
    && l.decisions[i].verdict == Allow && l.decisions[i].mark.Some?
  }

  /** The caller may do this now, for this Run in its Conversation. */
  ghost predicate MayNow(l: Ledger, caller: Caller, runId: Id, resourceId: Id, action: string, route: Route, now: int)
    requires runId in l.env.runs
  {
    Judge(l, Request(Tuple(caller.principalId, resourceId, action, caller.scope), None, Some(l.env.runs[runId].conversationId),
                     Some(runId), None, route), None, now).verdict == Allow
  }

  /** Mark by mark: the Run's own principal may still do what each decision allowed, under the route it was recorded
      with, and send each Resource whose content was read; access that gave no content needs no sending. */
  lemma DeliveriesPassMarkByMark(l: Ledger, caller: Caller, runId: Id, allowed: bool, now: int)
    ensures DeliveryGate(l, caller, runId, allowed, now).1 <==>
              && allowed && runId in l.env.runs && l.env.runs[runId].principalId == caller.principalId
              && forall i: nat :: MarkedAt(l, i, runId, caller.principalId) ==>
                   var (d, resource) := (l.decisions[i], l.decisions[i].tuple.resourceId);
                   && MayNow(l, caller, runId, resource, d.tuple.action,
                             if d.condition.None? then LegacyRoute else Named(d.condition.value), now)
                   && (d.mark == Some(ContentSource) || d.mark == Some(LegacyContentSource) ==>
                         MayNow(l, caller, runId, resource, "delivery:send", Unstated, now))
  {
    DeliveryPassesExactlyWhen(l, caller, runId, allowed, now);
    var p := caller.principalId;
    if runId in l.env.runs && l.env.runs[runId].principalId == p {
      var ev := DeliveryEvidence(l.env, caller, runId);
      forall i: nat | MarkedAt(l, i, runId, p) ensures HasSource(l.decisions, {runId}, Some(p), SourceOf(l.decisions[i])) {
        assert SourceAt(l.decisions[i], {runId}, Some(p), SourceOf(l.decisions[i]));
      }
      forall src | HasSource(l.decisions, {runId}, Some(p), src)
        ensures exists i: nat :: MarkedAt(l, i, runId, p) && SourceOf(l.decisions[i]) == src
      {
        var i: nat :| i < |l.decisions| && SourceAt(l.decisions[i], {runId}, Some(p), src);
        assert MarkedAt(l, i, runId, p);
      }
    }
  }

  /** The caller holds no live row for the tuple, and no Task policy stands in for one. */
  predicate Uncovered(l: Ledger, t: Tuple) {
    && (forall i :: 0 <= i < |l.grants| && l.grants[i].tuple == t ==> l.grants[i].revoked)
    && (t.resourceId in l.env.resources ==> FallbackTuple(l.env, t, l.env.resources[t.resourceId].kind).None?)
  }

  /** Losing the read, or the right to send, on any one source of the whole lineage stops every
      delivery of the Run, wherever the source was first read. */
  lemma LosingASourceStopsDelivery(s: ProvenanceModel.State, caller: Caller, runId: Id, allowed: bool, now: int, k: Key)
    requires ClosureInv(s) && k in Taint(s, runId)
    requires Uncovered(s.ledger, Tuple(caller.principalId, k.resourceId, k.action, caller.scope))
             || (k.isContent && Uncovered(s.ledger, Tuple(caller.principalId, k.resourceId, DELIVERY_ACTION, caller.scope)))
    ensures !DeliveryGate(s.ledger, caller, runId, allowed, now).1
  {
    var l := s.ledger;
    if DeliveryGate(l, caller, runId, allowed, now).1 {
      DeliveryPassesExactlyWhen(l, caller, runId, allowed, now);
      OwnMarksAreRows(l, runId);
      var rows := SourceRows(l.decisions, {runId}, Some(caller.principalId));
      var src :| src in rows && k == KeyOfSource(src);
      SourceRowsAreExact(l.decisions, {runId}, Some(caller.principalId), src);
      var ev := DeliveryEvidence(l.env, caller, runId);
      AllowNeedsALiveGrant(l, SourceRequest(caller, src, ev), None, now);
      if k.isContent {
        AllowNeedsALiveGrant(l, SendRequest(caller, src, ev), None, now);
      }
    }
  }

  // ---------------------------------------------------------------------------------------
  // Marks made for somebody else

  /** The source is marked on the Run on a decision of this principal. */
  ghost predicate OwnSource(l: Ledger, runId: Id, p: Id, src: Source) {
    HasSource(l.decisions, {runId}, Some(p), src)
  }

  predicate IsContent(src: Source) { Classification(src.mark).ContentSource? }

  /** What the gate decides about one source. */
  ghost predicate Answers(d: Decision, caller: Caller, src: Source) {
    || (d.tuple == Tuple(caller.principalId, src.resourceId, src.action, caller.scope) && d.condition == src.condition)
    || (IsContent(src) && d.tuple == Tuple(caller.principalId, src.resourceId, DELIVERY_ACTION, caller.scope)
        && d.condition == Some(NoCondition))
  }

  ghost predicate AnswersOneOf(d: Decision, caller: Caller, sources: seq<Source>) {
    exists src :: src in sources && Answers(d, caller, src)
  }

  /** Whatever the gate appends is about one of its sources. */
  lemma {:induction false} GateOnlyAnswers(l: Ledger, caller: Caller, ev: Evidence, sources: seq<Source>, now: int)
    ensures var t := GateSources(l, caller, ev, sources, now).0;
            l.decisions <= t.decisions && forall i :: |l.decisions| <= i < |t.decisions| ==> AnswersOneOf(t.decisions[i], caller, sources)
    decreases |sources|
  {
    if sources != [] {
      var src, rest := sources[0], sources[1..];
      var (t, j) := Evaluate(l, SourceRequest(caller, src, ev), None, now);
      var (u, k) := Evaluate(t, SendRequest(caller, src, ev), None, now);
      EvaluateAppends(l, SourceRequest(caller, src, ev), None, now);
      EvaluateAppends(t, SendRequest(caller, src, ev), None, now);
      assert src in sources && Answers(t.decisions[|l.decisions|], caller, src);
      assert IsContent(src) ==> Answers(u.decisions[|t.decisions|], caller, src);
      if j.verdict.Allow? {
        if !IsContent(src) {
          GateOnlyAnswers(t, caller, ev, rest, now);
          RestAnswers(l, t, GateSources(t, caller, ev, rest, now).0, caller, sources);
        } else if k.verdict.Allow? {
          GateOnlyAnswers(u, caller, ev, rest, now);
          RestAnswers(l, u, GateSources(u, caller, ev, rest, now).0, caller, sources);
        }
      }
    }
  }

  lemma RestAnswers(l: Ledger, u: Ledger, t: Ledger, caller: Caller, sources: seq<Source>)
    requires sources != [] && l.decisions <= u.decisions <= t.decisions
    requires forall i :: |l.decisions| <= i < |u.decisions| ==> AnswersOneOf(u.decisions[i], caller, sources)
    requires forall i :: |u.decisions| <= i < |t.decisions| ==> AnswersOneOf(t.decisions[i], caller, sources[1..])
    ensures forall i :: |l.decisions| <= i < |t.decisions| ==> AnswersOneOf(t.decisions[i], caller, sources)
  {
    forall i | |l.decisions| <= i < |t.decisions| ensures AnswersOneOf(t.decisions[i], caller, sources) {
      if i < |u.decisions| {
        assert t.decisions[i] == u.decisions[i];
      } else {
        assert AnswersOneOf(t.decisions[i], caller, sources[1..]);
        var src :| src in sources[1..] && Answers(t.decisions[i], caller, src);
        assert src in sources;
      }
    }
  }

  /** The principal's own marks on the Run stand for this key: one of them is about the same Resource, action and
      route, and, where content was read, one of them asks for sending the Resource's content. */
  ghost predicate CoveredByOwn(l: Ledger, runId: Id, p: Id, k: Key) {
    && (exists src :: OwnSource(l, runId, p, src) && src.resourceId == k.resourceId
                      && (|| (src.action == k.action && src.condition == k.condition)
                          || (IsContent(src) && k.action == DELIVERY_ACTION && k.condition == Some(NoCondition))))
    && (k.isContent ==>
          exists src :: OwnSource(l, runId, p, src) && src.resourceId == k.resourceId
                        && (IsContent(src) || (src.action == DELIVERY_ACTION && src.condition == Some(NoCondition))))
  }

  lemma OwnRowsAreExact(l: Ledger, runId: Id, p: Id)
    ensures forall src :: src in SourceRows(l.decisions, {runId}, Some(p)) <==> OwnSource(l, runId, p, src)
  {
    forall src ensures src in SourceRows(l.decisions, {runId}, Some(p)) <==> OwnSource(l, runId, p, src) {
      SourceRowsAreExact(l.decisions, {runId}, Some(p), src);
    }
  }

  /** Whatever a delivery appends is about a source its own principal marked on the Run. */
  lemma AnswersAreOwn(l: Ledger, caller: Caller, runId: Id, now: int, i: nat) returns (src: Source)
    requires |l.decisions| <= i < |AuthorizeDeliverySources(l, caller, runId, now).0.decisions|
    ensures OwnSource(l, runId, caller.principalId, src)
    ensures Answers(AuthorizeDeliverySources(l, caller, runId, now).0.decisions[i], caller, src)
  {
    var d := AuthorizeDeliverySources(l, caller, runId, now).0.decisions[i];
    var rows := SourceRows(l.decisions, {runId}, Some(caller.principalId));
    GateOnlyAnswers(l, caller, DeliveryEvidence(l.env, caller, runId), rows, now);
    assert AnswersOneOf(d, caller, rows);
    src :| src in rows && Answers(d, caller, src);
    OwnRowsAreExact(l, runId, caller.principalId);
  }

  lemma RecheckedIsCovered(l: Ledger, caller: Caller, runId: Id, now: int, k: Key)
    requires Rechecked(l, AuthorizeDeliverySources(l, caller, runId, now).0, caller, runId, k)
    ensures CoveredByOwn(l, runId, caller.principalId, k)
  {
    var t := AuthorizeDeliverySources(l, caller, runId, now).0;
    var i :| |l.decisions| <= i < |t.decisions|
             && t.decisions[i].tuple == Tuple(caller.principalId, k.resourceId, k.action, caller.scope)
             && t.decisions[i].verdict.Allow? && t.decisions[i].runId == Some(runId) && t.decisions[i].condition == k.condition;
    var src := AnswersAreOwn(l, caller, runId, now, i);
    if k.isContent {
      var j :| |l.decisions| <= j < |t.decisions|
               && t.decisions[j].tuple == Tuple(caller.principalId, k.resourceId, DELIVERY_ACTION, caller.scope)
               && t.decisions[j].verdict.Allow? && t.decisions[j].runId == Some(runId)
               && t.decisions[j].condition == Some(NoCondition);
      var sent := AnswersAreOwn(l, caller, runId, now, j);
    }
  }

  lemma CoveredIsRechecked(l: Ledger, caller: Caller, runId: Id, now: int, k: Key)
    requires AuthorizeDeliverySources(l, caller, runId, now).1 && CoveredByOwn(l, runId, caller.principalId, k)
    ensures Rechecked(l, AuthorizeDeliverySources(l, caller, runId, now).0, caller, runId, k)
  {
    var p, t := caller.principalId, AuthorizeDeliverySources(l, caller, runId, now).0;
    var rows := SourceRows(l.decisions, {runId}, Some(p));
    OwnRowsAreExact(l, runId, p);
    AllSourcesRechecked(l, caller, DeliveryEvidence(l.env, caller, runId), rows, runId, now);
    forall src | OwnSource(l, runId, p, src) ensures Rechecked(l, t, caller, runId, KeyOfSource(src)) {
      assert src in rows && KeyOfSource(src) in KeysOf(rows);
    }
    var src :| OwnSource(l, runId, p, src) && src.resourceId == k.resourceId
               && (|| (src.action == k.action && src.condition == k.condition)
                   || (IsContent(src) && k.action == DELIVERY_ACTION && k.condition == Some(NoCondition)));
    assert Rechecked(l, t, caller, runId, KeyOfSource(src));
    if k.isContent {
      var sent :| OwnSource(l, runId, p, sent) && sent.resourceId == k.resourceId
                  && (IsContent(sent) || (sent.action == DELIVERY_ACTION && sent.condition == Some(NoCondition)));
      assert Rechecked(l, t, caller, runId, KeyOfSource(sent));
    }
  }

  /** The row is a mark on the Run made for somebody else. */
  predicate ForeignMark(d: Decision, runId: Id, p: Id) {
    MarkedFor(d, runId) && d.tuple.principalId != p
  }

  /** The principal's own marks stand for every mark made for somebody else. */
  ghost predicate ForeignMarksAreCovered(l: Ledger, runId: Id, p: Id) {
    forall i :: 0 <= i < |l.decisions| && ForeignMark(l.decisions[i], runId, p) ==>
      CoveredByOwn(l, runId, p, KeyOfSource(SourceOf(l.decisions[i])))
  }

  ghost predicate EveryMarkIsRechecked(l: Ledger, t: Ledger, caller: Caller, runId: Id) {
    forall k :: k in Marked(l, runId) ==> Rechecked(l, t, caller, runId, k)
  }

  /** A delivery that passes rechecks every source marked on its Run, whoever it was marked for, if and only if the
      caller's own marks stand for each one that was marked for somebody else. */
  lemma EveryMarkIsRecheckedExactlyWhen(l: Ledger, caller: Caller, runId: Id, now: int)
    requires DeliveryGate(l, caller, runId, true, now).1
    ensures EveryMarkIsRechecked(l, DeliveryGate(l, caller, runId, true, now).0, caller, runId)
            <==> ForeignMarksAreCovered(l, runId, caller.principalId)
  {
    var p, t := caller.principalId, AuthorizeDeliverySources(l, caller, runId, now).0;
    if EveryMarkIsRechecked(l, t, caller, runId) {
      forall i | 0 <= i < |l.decisions| && ForeignMark(l.decisions[i], runId, p)
        ensures CoveredByOwn(l, runId, p, KeyOfSource(SourceOf(l.decisions[i])))
      {
        assert l.decisions[i] in l.decisions && KeyOfSource(SourceOf(l.decisions[i])) in Marked(l, runId);
        RecheckedIsCovered(l, caller, runId, now, KeyOfSource(SourceOf(l.decisions[i])));
      }
    }
    if ForeignMarksAreCovered(l, runId, p) {
      forall k | k in Marked(l, runId) ensures Rechecked(l, t, caller, runId, k) {
        var d :| d in l.decisions && MarkedFor(d, runId) && k == KeyOfSource(SourceOf(d));
        var i :| 0 <= i < |l.decisions| && l.decisions[i] == d;
        if d.tuple.principalId == p {
          OwnMarksAreCovered(l, runId, p, i);
        }
        CoveredIsRechecked(l, caller, runId, now, k);
      }
    }
  }

  lemma OwnMarksAreCovered(l: Ledger, runId: Id, p: Id, i: nat)
    requires i < |l.decisions| && MarkedFor(l.decisions[i], runId) && l.decisions[i].tuple.principalId == p
    ensures CoveredByOwn(l, runId, p, KeyOfSource(SourceOf(l.decisions[i])))
  {
    var src := SourceOf(l.decisions[i]);
    assert SourceAt(l.decisions[i], {runId}, Some(p), src);
    assert OwnSource(l, runId, p, src);
  }

  /** In particular a source of a Resource that none of the caller's own marks is about goes unchecked, whatever
      else is marked on the Run and whatever the caller may do with it. */
  lemma ForeignMarksAreNotRechecked(l: Ledger, caller: Caller, runId: Id, now: int, k: Key)
    requires forall src :: OwnSource(l, runId, caller.principalId, src) ==> src.resourceId != k.resourceId
    ensures !Rechecked(l, DeliveryGate(l, caller, runId, true, now).0, caller, runId, k)
  {
    if Rechecked(l, DeliveryGate(l, caller, runId, true, now).0, caller, runId, k) {
      RecheckedIsCovered(l, caller, runId, now, k);
    }
  }
}
