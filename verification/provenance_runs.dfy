/** Source closure over whole histories, and what every delivery rechecks. */
module ProvenanceRuns {
  import opened Options
  import opened Auth = AuthModel
  import opened ProvenanceModel
  import opened ProvenanceMarks
  import opened ProvenanceClosure
  import opened ProvenanceLedger

  /** Everything a Run's text may hold is marked on that Run, on decisions for its own principal. */
  ghost predicate ClosureInv(s: ProvenanceModel.State) {
    && (forall i :: 0 <= i < |s.turns| ==>
          s.turns[i].id in s.ledger.env.runs && s.ledger.env.runs[s.turns[i].id].principalId == s.turns[i].principalId)
    && MarksAreOwn(s.ledger)
    && (forall r :: r in s.taint ==> s.taint[r] <= Marked(s.ledger, r))
  }

  /** A mark is only made on a decision for the principal of its Run. */
  ghost predicate MarksByOwnPrincipal(s: ProvenanceModel.State, e: ProvenanceModel.Event) {
    e.ELedger? ==> ByOwnPrincipal(s.ledger, e.e)
  }

  // ---------------------------------------------------------------------------------------
  // Steps

  lemma LedgerKeepsClosure(s: ProvenanceModel.State, e: Auth.Event)
    requires ClosureInv(s) && ByOwnPrincipal(s.ledger, e)
    ensures ClosureInv(ProvenanceModel.Step(s, ELedger(e)))
  {
    if MayHappen(s.ledger, e) {
      var l := Auth.Step(s.ledger, e);
      LedgerEventsAreHarmless(s.ledger, e);
      forall r ensures Marked(s.ledger, r) <= Marked(l, r) {
        MarkedStays(s.ledger, l, r);
      }
    }
  }

  lemma LoadKeepsClosure(s: ProvenanceModel.State, caller: Caller, at: nat, allowed: bool, bound: Option<Id>, deps: seq<Dependency>,
                         now: int)
    requires ClosureInv(s)
    ensures ClosureInv(LoadRunInput(s, caller, at, allowed, bound, deps, now).0)
  {
    if at < |s.turns| {
      var (t, out) := LoadRunInput(s, caller, at, allowed, bound, deps, now);
      var r := s.turns[at].id;
      LoadCarriesItsSources(s, caller, at, allowed, bound, deps, now);
      forall q ensures Marked(s.ledger, q) <= Marked(t.ledger, q) {
        MarkedStays(s.ledger, t.ledger, q);
      }
      if t.ledger != s.ledger {
        MarksStayOwn(s.ledger, t.ledger, r, caller.principalId);
      }
      if out.Loaded? {
        var from: set<Id>, own: set<Key> :| t == TakeIn(s.(ledger := t.ledger), r, from, own)
          && Carries(s.ledger, t.ledger, from, r) && own <= Marked(t.ledger, r);
        TakenInIsMarked(s, t, r, from, own);
      }
    }
  }

  lemma MarksStayOwn(l: Ledger, t: Ledger, r: Id, p: Id)
    requires MarksAreOwn(l) && Extends(l, t, Some(r), p) && r in l.env.runs && l.env.runs[r].principalId == p
    ensures MarksAreOwn(t)
  {
    forall i | 0 <= i < |t.decisions| && t.decisions[i].mark.Some? ensures OwnDecision(t.env, t.decisions[i]) {
      if i < |l.decisions| {
        assert SameRow(l.decisions[i], t.decisions[i]);
      }
    }
  }

  lemma TakenInIsMarked(s: ProvenanceModel.State, t: ProvenanceModel.State, r: Id, from: set<Id>, own: set<Key>)
    requires ClosureInv(s) && t == TakeIn(s.(ledger := t.ledger), r, from, own)
    requires Carries(s.ledger, t.ledger, from, r) && own <= Marked(t.ledger, r)
    requires forall q :: Marked(s.ledger, q) <= Marked(t.ledger, q)
    ensures forall q :: q in t.taint ==> t.taint[q] <= Marked(t.ledger, q)
  {
    forall q, k | q in from && k in Taint(s, q) ensures k in Marked(t.ledger, r) {
      assert k in Marked(s.ledger, q);
    }
  }

  /** Evaluations for one Run and principal were recorded, none of them marked, and nothing else. */
  ghost predicate OnlyEvaluated(l: Ledger, t: Ledger, runId: Option<Id>, principal: Id) {
    && Extends(l, t, runId, principal) && l.decisions <= t.decisions && t == l.(decisions := t.decisions)
    && forall i :: |l.decisions| <= i < |t.decisions| ==> t.decisions[i].mark.None?
  }

  lemma EvaluateOnlyEvaluates(l: Ledger, req: Request, now: int)
    requires req.approvalId.None?
    ensures OnlyEvaluated(l, Evaluate(l, req, None, now).0, req.runId, req.tuple.principalId)
  {
    EvaluateAppends(l, req, None, now);
  }

  lemma OnlyEvaluatedTransitive(l: Ledger, t: Ledger, u: Ledger, runId: Option<Id>, principal: Id)
    requires OnlyEvaluated(l, t, runId, principal) && OnlyEvaluated(t, u, runId, principal)
    ensures OnlyEvaluated(l, u, runId, principal)
  {
    ExtendsTransitive(l, t, u, runId, principal);
  }

  lemma {:induction false} GateAppends(l: Ledger, caller: Caller, ev: Evidence, sources: seq<Source>, now: int)
    ensures OnlyEvaluated(l, GateSources(l, caller, ev, sources, now).0, ev.runId, caller.principalId)
    decreases |sources|
  {
    ExtendsItself(l, ev.runId, caller.principalId);
    if sources != [] {
      var src, rest := sources[0], sources[1..];
      var (t, j) := Evaluate(l, SourceRequest(caller, src, ev), None, now);
      EvaluateOnlyEvaluates(l, SourceRequest(caller, src, ev), now);
      if j.verdict.Allow? {
        if Classification(src.mark).ContentSource? {
          var (u, k) := Evaluate(t, SendRequest(caller, src, ev), None, now);
          EvaluateOnlyEvaluates(t, SendRequest(caller, src, ev), now);
          OnlyEvaluatedTransitive(l, t, u, ev.runId, caller.principalId);
          if k.verdict.Allow? {
            GateAppends(u, caller, ev, rest, now);
            OnlyEvaluatedTransitive(l, u, GateSources(u, caller, ev, rest, now).0, ev.runId, caller.principalId);
          }
        } else {
          GateAppends(t, caller, ev, rest, now);
          OnlyEvaluatedTransitive(l, t, GateSources(t, caller, ev, rest, now).0, ev.runId, caller.principalId);
        }
      }
    }
  }

  lemma DeliveryKeepsClosure(s: ProvenanceModel.State, caller: Caller, runId: Id, allowed: bool, now: int)
    requires ClosureInv(s)
    ensures ClosureInv(s.(ledger := DeliveryGate(s.ledger, caller, runId, allowed, now).0))
  {
    var t := DeliveryGate(s.ledger, caller, runId, allowed, now).0;
    if t != s.ledger {
      GateAppends(s.ledger, caller, DeliveryEvidence(s.ledger.env, caller, runId),
                  SourceRows(s.ledger.decisions, {runId}, Some(caller.principalId)), now);
      MarksStayOwn(s.ledger, t, runId, caller.principalId);
      forall q ensures Marked(s.ledger, q) <= Marked(t, q) {
        MarkedStays(s.ledger, t, q);
      }
    }
  }

  lemma AcceptKeepsClosure(s: ProvenanceModel.State, turn: Turn, row: RunRow)
    requires ClosureInv(s)
    ensures ClosureInv(ProvenanceModel.Step(s, EAccept(turn, row)))
  {
    var t := ProvenanceModel.Step(s, EAccept(turn, row));
    if t != s {
      assert t.ledger.decisions == s.ledger.decisions;
      forall i | 0 <= i < |t.ledger.decisions| && t.ledger.decisions[i].mark.Some?
        ensures OwnDecision(t.ledger.env, t.ledger.decisions[i])
      {
        assert t.ledger.decisions[i] in s.ledger.decisions && OwnDecision(s.ledger.env, s.ledger.decisions[i]);
      }
      forall r ensures Marked(t.ledger, r) == Marked(s.ledger, r) {
      }
    }
  }

  lemma StepKeepsClosure(s: ProvenanceModel.State, e: ProvenanceModel.Event)
    requires ClosureInv(s) && MarksByOwnPrincipal(s, e)
    ensures ClosureInv(ProvenanceModel.Step(s, e))
  {
    match e
    case ELedger(a) => LedgerKeepsClosure(s, a);
    case ELoad(caller, at, allowed, bound, deps, now) => LoadKeepsClosure(s, caller, at, allowed, bound, deps, now);
    case EDeliver(_, caller, runId, allowed, now) => DeliveryKeepsClosure(s, caller, runId, allowed, now);
    case EAccept(turn, row) => AcceptKeepsClosure(s, turn, row);
    case _ =>
  }

  ghost predicate AllMarksByOwnPrincipal(s: ProvenanceModel.State, es: seq<ProvenanceModel.Event>)
    decreases |es|
  {
    es != [] ==> MarksByOwnPrincipal(s, es[0]) && AllMarksByOwnPrincipal(ProvenanceModel.Step(s, es[0]), es[1..])
  }

  lemma {:induction false} ClosureAlways(s: ProvenanceModel.State, es: seq<ProvenanceModel.Event>)
    requires ClosureInv(s) && AllMarksByOwnPrincipal(s, es)
    ensures ClosureInv(ProvenanceModel.After(s, es))
    decreases |es|
  {
    if es != [] {
      StepKeepsClosure(s, es[0]);
      ClosureAlways(ProvenanceModel.Step(s, es[0]), es[1..]);
    }
  }

  // ---------------------------------------------------------------------------------------
  // Deliveries

  /** Allowed in this transaction, for no route in particular. */
  ghost predicate AllowedNow(l: Ledger, t: Ledger, tuple: Tuple, runId: Id) {
    exists i :: |l.decisions| <= i < |t.decisions| && t.decisions[i].tuple == tuple && t.decisions[i].verdict.Allow?
                && t.decisions[i].runId == Some(runId) && t.decisions[i].condition == Some(NoCondition)
  }

  /** This very transaction allowed the source's action, under its own route, and sending its content. */
  ghost predicate Rechecked(l: Ledger, t: Ledger, caller: Caller, runId: Id, k: Key) {
    && (exists i :: |l.decisions| <= i < |t.decisions|
                    && t.decisions[i].tuple == Tuple(caller.principalId, k.resourceId, k.action, caller.scope)
                    && t.decisions[i].verdict.Allow? && t.decisions[i].runId == Some(runId) && t.decisions[i].condition == k.condition)
    && (k.isContent ==> AllowedNow(l, t, Tuple(caller.principalId, k.resourceId, DELIVERY_ACTION, caller.scope), runId))
  }

  lemma RecheckedOn(l: Ledger, m: Ledger, t: Ledger, u: Ledger, caller: Caller, runId: Id, k: Key)
    requires l.decisions <= m.decisions && t.decisions <= u.decisions && Rechecked(m, t, caller, runId, k)
    ensures Rechecked(l, u, caller, runId, k)
  {
    var i :| |m.decisions| <= i < |t.decisions|
             && t.decisions[i].tuple == Tuple(caller.principalId, k.resourceId, k.action, caller.scope)
             && t.decisions[i].verdict.Allow? && t.decisions[i].runId == Some(runId) && t.decisions[i].condition == k.condition;
    assert u.decisions[i] == t.decisions[i];
    if k.isContent {
      var send := Tuple(caller.principalId, k.resourceId, DELIVERY_ACTION, caller.scope);
      var j :| |m.decisions| <= j < |t.decisions| && t.decisions[j].tuple == send && t.decisions[j].verdict.Allow?
               && t.decisions[j].runId == Some(runId) && t.decisions[j].condition == Some(NoCondition);
      assert u.decisions[j] == t.decisions[j];
    }
  }

  lemma SourceRechecked(l: Ledger, caller: Caller, ev: Evidence, src: Source, runId: Id, now: int)
    requires ev.runId == Some(runId) && GateSources(l, caller, ev, [src], now).1
    ensures Rechecked(l, GateSources(l, caller, ev, [src], now).0, caller, runId, KeyOfSource(src))
  {
    var t := Evaluate(l, SourceRequest(caller, src, ev), None, now).0;
    EvaluateAppends(l, SourceRequest(caller, src, ev), None, now);
    DecidedNow(l, caller, ev, src, now);
    assert DecidedFor(t.decisions[|l.decisions|], caller, ev, src);
    if Classification(src.mark).ContentSource? {
      var u := Evaluate(t, SendRequest(caller, src, ev), None, now).0;
      EvaluateAppends(t, SendRequest(caller, src, ev), None, now);
      assert u.decisions[|l.decisions|] == t.decisions[|l.decisions|];
      assert u.decisions[|t.decisions|].tuple == SendRequest(caller, src, ev).tuple;
    }
  }

  lemma OneAtATime(l: Ledger, caller: Caller, ev: Evidence, sources: seq<Source>, now: int)
    requires sources != []
    ensures var (t, ok) := GateSources(l, caller, ev, [sources[0]], now);
            GateSources(l, caller, ev, sources, now) == if ok then GateSources(t, caller, ev, sources[1..], now) else (t, false)
  {
    assert [sources[0]][1..] == [];
  }

  lemma {:induction false} AllSourcesRechecked(l: Ledger, caller: Caller, ev: Evidence, sources: seq<Source>, runId: Id, now: int)
    requires ev.runId == Some(runId) && GateSources(l, caller, ev, sources, now).1
    ensures forall k :: k in KeysOf(sources) ==> Rechecked(l, GateSources(l, caller, ev, sources, now).0, caller, runId, k)
    decreases |sources|
  {
    if sources != [] {
      var t := GateSources(l, caller, ev, [sources[0]], now).0;
      var u := GateSources(t, caller, ev, sources[1..], now).0;
      OneAtATime(l, caller, ev, sources, now);
      SourceRechecked(l, caller, ev, sources[0], runId, now);
      GateAppends(l, caller, ev, [sources[0]], now);
      GateAppends(t, caller, ev, sources[1..], now);
      AllSourcesRechecked(t, caller, ev, sources[1..], runId, now);
      forall k | k in KeysOf(sources) ensures Rechecked(l, u, caller, runId, k) {
        var src :| src in sources && k == KeyOfSource(src);
        if src == sources[0] {
          RecheckedOn(l, l, t, u, caller, runId, k);
        } else {
          assert src in sources[1..];
          RecheckedOn(l, t, u, u, caller, runId, k);
        }
      }
    }
  }

  lemma OwnMarksAreRows(l: Ledger, runId: Id)
    requires MarksAreOwn(l) && runId in l.env.runs
    ensures Marked(l, runId) <= KeysOf(SourceRows(l.decisions, {runId}, Some(l.env.runs[runId].principalId)))
  {
    var p := l.env.runs[runId].principalId;
    forall k | k in Marked(l, runId) ensures k in KeysOf(SourceRows(l.decisions, {runId}, Some(p))) {
      var d :| d in l.decisions && MarkedFor(d, runId) && k == KeyOfSource(SourceOf(d));
      var i :| 0 <= i < |l.decisions| && l.decisions[i] == d;
      assert OwnDecision(l.env, l.decisions[i]);
      assert SourceAt(l.decisions[i], {runId}, Some(p), SourceOf(d));
      SourceRowsAreExact(l.decisions, {runId}, Some(p), SourceOf(d));
    }
  }

  /** Every source whose content may be in the Run's text, taken in however indirectly, is allowed to
      the caller again by the very transaction that lets the delivery through. */
  lemma EveryDeliveryRechecksEverySource(s: ProvenanceModel.State, caller: Caller, runId: Id, allowed: bool, now: int, k: Key)
    requires ClosureInv(s) && DeliveryGate(s.ledger, caller, runId, allowed, now).1 && k in Taint(s, runId)
    ensures Rechecked(s.ledger, DeliveryGate(s.ledger, caller, runId, allowed, now).0, caller, runId, k)
  {
    var ev := DeliveryEvidence(s.ledger.env, caller, runId);
    OwnMarksAreRows(s.ledger, runId);
    AllSourcesRechecked(s.ledger, caller, ev, SourceRows(s.ledger.decisions, {runId}, Some(caller.principalId)), runId, now);
  }

  /** Whatever kind of mark says that a source's content was read, old kinds included, the delivery is let through
      only if its content may be sent by the caller now. */
  lemma ReadContentMayBeSent(l: Ledger, caller: Caller, runId: Id, now: int, i: nat)
    requires i < |l.decisions| && MarkedFor(l.decisions[i], runId) && l.decisions[i].tuple.principalId == caller.principalId
    requires l.decisions[i].mark.value.ContentSource? || l.decisions[i].mark.value.LegacyContentSource?
    requires AuthorizeDeliverySources(l, caller, runId, now).1
    ensures AllowedNow(l, AuthorizeDeliverySources(l, caller, runId, now).0,
                       Tuple(caller.principalId, l.decisions[i].tuple.resourceId, DELIVERY_ACTION, caller.scope), runId)
  {
    var d := l.decisions[i];
    var sources := SourceRows(l.decisions, {runId}, Some(caller.principalId));
    assert SourceAt(d, {runId}, Some(caller.principalId), SourceOf(d));
    SourceRowsAreExact(l.decisions, {runId}, Some(caller.principalId), SourceOf(d));
    AllSourcesRechecked(l, caller, DeliveryEvidence(l.env, caller, runId), sources, runId, now);
    assert KeyOfSource(SourceOf(d)) in KeysOf(sources);
  }

  /** What a delivery's recheck records is filed under its Run, and under the Run's Conversation when the Run is
      the caller's own. */
  ghost predicate Filed(l: Ledger, t: Ledger, caller: Caller, ev: Evidence) {
    forall i :: |l.decisions| <= i < |t.decisions| ==>
      && t.decisions[i].runId == ev.runId && t.decisions[i].conversationId == ev.conversationId
      && t.decisions[i].tuple.principalId == caller.principalId && t.decisions[i].tuple.scope == caller.scope
  }

  lemma {:induction false} GateFiles(l: Ledger, caller: Caller, ev: Evidence, sources: seq<Source>, now: int)
    ensures l.decisions <= GateSources(l, caller, ev, sources, now).0.decisions
    ensures Filed(l, GateSources(l, caller, ev, sources, now).0, caller, ev)
    decreases |sources|
  {
    if sources != [] {
      var src, rest := sources[0], sources[1..];
      var t := Evaluate(l, SourceRequest(caller, src, ev), None, now).0;
      EvaluateAppends(l, SourceRequest(caller, src, ev), None, now);
      GateFiles(t, caller, ev, rest, now);
      var u := Evaluate(t, SendRequest(caller, src, ev), None, now).0;
      EvaluateAppends(t, SendRequest(caller, src, ev), None, now);
      GateFiles(u, caller, ev, rest, now);
    }
  }

  lemma RechecksAreFiled(l: Ledger, caller: Caller, runId: Id, now: int)
    ensures var t := AuthorizeDeliverySources(l, caller, runId, now).0;
            forall i :: |l.decisions| <= i < |t.decisions| ==>
              && t.decisions[i].runId == Some(runId)
              && (t.decisions[i].conversationId.Some? <==> runId in l.env.runs && l.env.runs[runId].principalId == caller.principalId)
              && (t.decisions[i].conversationId.Some? ==> t.decisions[i].conversationId == Some(l.env.runs[runId].conversationId))
  {
    GateFiles(l, caller, DeliveryEvidence(l.env, caller, runId), SourceRows(l.decisions, {runId}, Some(caller.principalId)), now);
  }

  /** The same from the beginning of any history. */
  lemma DeliveriesRecheckWholeLineages(es: seq<ProvenanceModel.Event>, s: ProvenanceModel.State, caller: Caller, runId: Id,
                                       allowed: bool, now: int, k: Key)
    requires AllMarksByOwnPrincipal(ProvenanceModel.EMPTY, es) && s == ProvenanceModel.After(ProvenanceModel.EMPTY, es)
    requires DeliveryGate(s.ledger, caller, runId, allowed, now).1 && k in Taint(s, runId)
    ensures Rechecked(s.ledger, DeliveryGate(s.ledger, caller, runId, allowed, now).0, caller, runId, k)
  {
    ClosureAlways(ProvenanceModel.EMPTY, es);
    EveryDeliveryRechecksEverySource(s, caller, runId, allowed, now, k);
  }
}
