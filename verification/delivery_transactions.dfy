/** Runs, deliveries and the ledger in one state: each delivery transaction rechecks the Run's sources and
    writes its row, or does neither. */
module DeliveryTransactions {
  import opened Options
  import opened CanonicalKeys
  import opened ProvenanceModel
  import opened ProvenanceRuns
  import opened LifecycleDeliveries
  import LifecycleRuns
  import AuthModel
  import Lifecycle = LifecycleModel

  datatype Both = Both(tables: Lifecycle.State, reading: ProvenanceModel.State)

  const NOTHING: Both := Both(Lifecycle.EMPTY, ProvenanceModel.EMPTY)

  /** How a scope is written where a delivery is addressed. */
  type Writing = Scope -> string

  datatype Event =
    | Tables(e: Lifecycle.Event)
    | Reading(r: ProvenanceModel.Event)
    | Accept(turn: Turn, row: AuthModel.RunRow, scope: Scope)
    | Deliver(d: Lifecycle.Event, caller: ProvenanceModel.Caller, now: int)

  predicate Sends(e: Lifecycle.Event) {
    e.ECreateDelivery? || e.EClaimDelivery? || e.ETransitionDelivery?
  }

  /** The transaction, were every source allowed. */
  function Transact(s: Lifecycle.State, e: Lifecycle.Event, caller: Lifecycle.Caller): (Lifecycle.State, Lifecycle.Outcome)
    requires Sends(e)
  {
    match e
    case ECreateDelivery(_, id, r, key, dest, text, kind, ok) => Lifecycle.CreateDelivery(s, caller, id, r, key, dest, text, kind, ok)
    case EClaimDelivery(_, r, id, lease, ok) => Lifecycle.ClaimDelivery(s, caller, r, id, lease, ok)
    case ETransitionDelivery(_, r, id, from, to, x, ok) => Lifecycle.TransitionDelivery(s, caller, r, id, from, to, x, ok)
  }

  /** What was checked before the sources stops the transaction; a refused source commits its recheck alone; a
      failure after it rolls everything back. */
  function Perform(b: Both, e: Lifecycle.Event, caller: ProvenanceModel.Caller, now: int, written: Writing): (Both, Lifecycle.Outcome)
    requires Sends(e)
  {
    var (s, out) := Transact(b.tables, e, Lifecycle.Caller(caller.principalId, written(caller.scope)));
    if out.InvalidInput? || out.Denied? || out.NotExternal? then (b, out)
    else
      var (l, ok) := DeliveryGate(b.reading.ledger, caller, e.runId, true, now);
      if !ok then (b.(reading := b.reading.(ledger := l)), Lifecycle.Denied)
      else if out.Done? || out.NothingToDo? then (Both(s, b.reading.(ledger := l)), out)
      else (b, out)
  }

  /** A delivery goes through if and only if it could be written were every source allowed, and every source is; then the
      tables and the ledger change together. A refused source leaves its recheck on record and the tables alone; what is
      wrong with the request itself, before or after the recheck, leaves everything alone. */
  lemma DeliveriesGoThroughExactlyWhen(b: Both, e: Lifecycle.Event, caller: ProvenanceModel.Caller, now: int, written: Writing)
    requires Sends(e)
    ensures var (s, would) := Transact(b.tables, e, Lifecycle.Caller(caller.principalId, written(caller.scope)));
            var (l, allowed) := DeliveryGate(b.reading.ledger, caller, e.runId, true, now);
            var (t, out) := Perform(b, e, caller, now, written);
            var early := would.InvalidInput? || would.Denied? || would.NotExternal?;
            && (out.Done? <==> would.Done? && allowed) && (out.Done? ==> t.tables == s)
            && (!out.Done? ==> t.tables == b.tables)
            && t.reading == (if early || (allowed && !would.Done? && !would.NothingToDo?) then b.reading else b.reading.(ledger := l))
            && out == if !early && !allowed then Lifecycle.Denied else would
  {
  }

  /** The turns show the Runs as they are. */
  function Synced(s: ProvenanceModel.State, runs: map<Lifecycle.Id, Lifecycle.Run>): ProvenanceModel.State {
    s.(turns := seq(|s.turns|, i requires 0 <= i < |s.turns| =>
         var t := s.turns[i];
         if t.id in runs then t.(status := runs[t.id].status, resultText := runs[t.id].resultText) else t))
  }

  ghost function Step(b: Both, e: Event, written: Writing): Both {
    match e
    case Tables(a) =>
      if Sends(a) || a.EAcceptRun? then b
      else
        var s := Lifecycle.Step(b.tables, a);
        Both(s, Synced(b.reading, s.runs))
    case Reading(a) =>
      if a.EAccept? || a.ESettle? || a.EDeliver? then b else b.(reading := ProvenanceModel.Step(b.reading, a))
    case Accept(turn, row, scope) =>
      var t := turn.(status := Lifecycle.RunStatus.Queued, resultText := None);
      var (s, out) := Lifecycle.AcceptRun(b.tables, t.id, t.conversationId, Lifecycle.Caller(t.principalId, written(scope)),
                                          if t.external then Lifecycle.External else Lifecycle.TaskStep);
      var r := ProvenanceModel.Step(b.reading, EAccept(t, row));
      if out.Done? && r != b.reading then Both(s, r) else b
    case Deliver(a, caller, now) => if Sends(a) then Perform(b, a, caller, now, written).0 else b
  }

  ghost function After(b: Both, es: seq<Event>, written: Writing): Both
    decreases |es|
  {
    if es == [] then b else After(Step(b, es[0], written), es[1..], written)
  }

  // ---------------------------------------------------------------------------------------
  // Every step

  ghost predicate OwnMark(b: Both, e: Event) {
    e.Reading? ==> MarksByOwnPrincipal(b.reading, e.r)
  }

  ghost predicate OwnMarks(b: Both, es: seq<Event>, written: Writing)
    decreases |es|
  {
    es != [] ==> OwnMark(b, es[0]) && OwnMarks(Step(b, es[0], written), es[1..], written)
  }

  lemma SyncingKeepsClosure(s: ProvenanceModel.State, runs: map<Lifecycle.Id, Lifecycle.Run>)
    requires ClosureInv(s)
    ensures ClosureInv(Synced(s, runs))
  {
    var t := Synced(s, runs);
    forall i | 0 <= i < |t.turns| ensures t.turns[i].id == s.turns[i].id && t.turns[i].principalId == s.turns[i].principalId {
    }
  }

  lemma StepKeepsClosureToo(b: Both, e: Event, written: Writing)
    requires ClosureInv(b.reading) && OwnMark(b, e)
    ensures ClosureInv(Step(b, e, written).reading)
  {
    match e
    case Tables(a) => SyncingKeepsClosure(b.reading, Lifecycle.Step(b.tables, a).runs);
    case Reading(a) => StepKeepsClosure(b.reading, a);
    case Accept(turn, row, scope) => AcceptKeepsClosure(b.reading, turn.(status := Lifecycle.RunStatus.Queued, resultText := None), row);
    case Deliver(a, caller, now) =>
      if Sends(a) {
        DeliveryKeepsClosure(b.reading, caller, a.runId, true, now);
      }
  }

  /** The step allowed again, to its caller and for this Run, every source whose content may be in the Run's text. */
  ghost predicate RechecksAll(b: Both, e: Event, written: Writing) {
    && e.Deliver? && Sends(e.d)
    && forall k :: k in Taint(b.reading, e.d.runId) ==>
         Rechecked(b.reading.ledger, Step(b, e, written).reading.ledger, e.caller, e.d.runId, k)
  }

  /** Only rows of the Run are written, by its own principal. */
  lemma TransactTouchesItsRun(s: Lifecycle.State, e: Lifecycle.Event, caller: Lifecycle.Caller)
    requires Sends(e) && Transact(s, e, caller).0 != s
    ensures e.runId in s.runs && s.runs[e.runId].principalId == caller.principalId
    ensures var t := Transact(s, e, caller).0;
            && t.runs == s.runs
            && forall d :: d in t.deliveries && (d !in s.deliveries || t.deliveries[d] != s.deliveries[d])
                           ==> t.deliveries[d].runId == e.runId
  {
  }

  /** A transaction by a caller writes a delivery only if it rechecks every source of the Run's text, and the Run is
      the caller's own; otherwise no row of any table changes. */
  lemma WritesAreRechecked(b: Both, e: Event, written: Writing)
    requires ClosureInv(b.reading) && e.Deliver? && Step(b, e, written).tables != b.tables
    ensures RechecksAll(b, e, written)
    ensures e.d.runId in b.tables.runs && b.tables.runs[e.d.runId].principalId == e.caller.principalId
    ensures forall d :: d in Step(b, e, written).tables.deliveries
                        && (d !in b.tables.deliveries || Step(b, e, written).tables.deliveries[d] != b.tables.deliveries[d])
                        ==> Step(b, e, written).tables.deliveries[d].runId == e.d.runId
  {
    var (l, caller) := (b.reading.ledger, e.caller);
    var t := Perform(b, e.d, caller, e.now, written).0;
    TransactTouchesItsRun(b.tables, e.d, Lifecycle.Caller(caller.principalId, written(caller.scope)));
    assert t.reading.ledger == DeliveryGate(l, caller, e.d.runId, true, e.now).0;
    forall k | k in Taint(b.reading, e.d.runId) ensures Rechecked(l, t.reading.ledger, caller, e.d.runId, k) {
      EveryDeliveryRechecksEverySource(b.reading, caller, e.d.runId, true, e.now, k);
    }
  }

  // ---------------------------------------------------------------------------------------
  // One table of Runs

  /** Both sides tell the same of every Run. */
  ghost predicate Agrees(b: Both) {
    var rows, runs := b.reading.ledger.env.runs, b.tables.runs;
    && rows.Keys == runs.Keys
    && (forall r :: r in runs ==> rows[r].principalId == runs[r].principalId && rows[r].conversationId == runs[r].conversationId)
    && (forall i :: 0 <= i < |b.reading.turns| ==> Shows(runs, b.reading.turns[i]))
  }

  predicate Shows(runs: map<Lifecycle.Id, Lifecycle.Run>, t: Turn) {
    && t.id in runs && runs[t.id].principalId == t.principalId && runs[t.id].conversationId == t.conversationId
    && runs[t.id].source.External? == t.external && runs[t.id].status == t.status && runs[t.id].resultText == t.resultText
  }

  lemma TablesKeepAgreement(b: Both, a: Lifecycle.Event, written: Writing)
    requires Agrees(b)
    ensures Agrees(Step(b, Tables(a), written))
  {
    if !Sends(a) && !a.EAcceptRun? {
      var runs := Lifecycle.Step(b.tables, a).runs;
      LifecycleRuns.StepIsRunsStep(b.tables, a);
      OnlyAcceptedRuns(b.tables, a);
      forall i | 0 <= i < |b.reading.turns| ensures Shows(runs, Synced(b.reading, runs).turns[i]) {
        assert Shows(b.tables.runs, b.reading.turns[i]);
      }
    }
  }

  lemma OnlyAcceptedRuns(s: Lifecycle.State, a: Lifecycle.Event)
    requires !a.EAcceptRun?
    ensures Lifecycle.Step(s, a).runs.Keys == s.runs.Keys
  {
  }

  lemma GateKeepsRuns(l: Ledger, caller: ProvenanceModel.Caller, runId: Lifecycle.Id, now: int)
    ensures DeliveryGate(l, caller, runId, true, now).0.env == l.env
  {
    GateAppends(l, caller, DeliveryEvidence(l.env, caller, runId), SourceRows(l.decisions, {runId}, Some(caller.principalId)), now);
  }

  /** Reading leaves every Run as it is. */
  lemma ReadingKeepsRuns(s: ProvenanceModel.State, a: ProvenanceModel.Event)
    requires MarksByOwnPrincipal(s, a) && !a.EAccept? && !a.ESettle?
    ensures var t := ProvenanceModel.Step(s, a);
            && t.ledger.env.runs == s.ledger.env.runs && |t.turns| == |s.turns|
            && forall i :: 0 <= i < |s.turns| ==> t.turns[i] == s.turns[i].(excluded := t.turns[i].excluded)
  {
    match a
    case ELedger(e) =>
      if MayHappen(s.ledger, e) {
        ProvenanceLedger.LedgerEventsAreHarmless(s.ledger, e);
      }
    case ELoad(caller, at, allowed, bound, deps, now) =>
      if at < |s.turns| {
        ProvenanceClosure.LoadCarriesItsSources(s, caller, at, allowed, bound, deps, now);
      }
    case EDeliver(_, caller, runId, allowed, now) => GateKeepsRuns(s.ledger, caller, runId, now);
    case _ =>
  }

  lemma ReadingKeepsAgreement(b: Both, a: ProvenanceModel.Event)
    requires Agrees(b) && MarksByOwnPrincipal(b.reading, a) && !a.EAccept? && !a.ESettle?
    ensures Agrees(b.(reading := ProvenanceModel.Step(b.reading, a)))
  {
    var t := ProvenanceModel.Step(b.reading, a);
    ReadingKeepsRuns(b.reading, a);
    forall i | 0 <= i < |t.turns| ensures Shows(b.tables.runs, t.turns[i]) {
      assert Shows(b.tables.runs, b.reading.turns[i]);
    }
  }

  lemma AcceptingKeepsAgreement(b: Both, turn: Turn, row: AuthModel.RunRow, scope: Scope, written: Writing)
    requires Agrees(b)
    ensures Agrees(Step(b, Accept(turn, row, scope), written))
  {
    var t := Step(b, Accept(turn, row, scope), written);
    if t != b {
      forall i | 0 <= i < |t.reading.turns| ensures Shows(t.tables.runs, t.reading.turns[i]) {
        if i < |b.reading.turns| {
          assert Shows(b.tables.runs, b.reading.turns[i]);
        }
      }
    }
  }

  lemma AgreeingAlike(b: Both, t: Both)
    requires Agrees(b) && t.tables.runs == b.tables.runs && t.reading.turns == b.reading.turns
    requires t.reading.ledger.env == b.reading.ledger.env
    ensures Agrees(t)
  {
  }

  lemma DeliveringKeepsRuns(b: Both, a: Lifecycle.Event, caller: ProvenanceModel.Caller, now: int, written: Writing)
    requires Sends(a)
    ensures var t := Perform(b, a, caller, now, written).0;
            && t.tables.runs == b.tables.runs && t.reading == b.reading.(ledger := t.reading.ledger)
            && t.reading.ledger.env == b.reading.ledger.env
  {
    var k := Lifecycle.Caller(caller.principalId, written(caller.scope));
    if Transact(b.tables, a, k).0 != b.tables {
      TransactTouchesItsRun(b.tables, a, k);
    }
    GateKeepsRuns(b.reading.ledger, caller, a.runId, now);
  }

  lemma DeliveringKeepsAgreement(b: Both, a: Lifecycle.Event, caller: ProvenanceModel.Caller, now: int, written: Writing)
    requires Agrees(b) && Sends(a)
    ensures Agrees(Perform(b, a, caller, now, written).0)
  {
    DeliveringKeepsRuns(b, a, caller, now, written);
    AgreeingAlike(b, Perform(b, a, caller, now, written).0);
  }

  /** In every history the tables and the reading side tell the same of every Run. */
  lemma {:induction false} RunsAgreeAlways(b: Both, es: seq<Event>, written: Writing)
    requires Agrees(b) && OwnMarks(b, es, written)
    ensures Agrees(After(b, es, written))
    decreases |es|
  {
    if es != [] {
      StepKeepsAgreement(b, es[0], written);
      RunsAgreeAlways(Step(b, es[0], written), es[1..], written);
    }
  }

  lemma StepKeepsAgreement(b: Both, e: Event, written: Writing)
    requires Agrees(b) && OwnMark(b, e)
    ensures Agrees(Step(b, e, written))
  {
    match e
    case Tables(a) => TablesKeepAgreement(b, a, written);
    case Reading(a) =>
      if !a.EAccept? && !a.ESettle? {
        ReadingKeepsAgreement(b, a);
      }
    case Accept(turn, row, scope) => AcceptingKeepsAgreement(b, turn, row, scope, written);
    case Deliver(a, caller, now) =>
      if Sends(a) {
        DeliveringKeepsAgreement(b, a, caller, now, written);
      }
  }

  // ---------------------------------------------------------------------------------------
  // Histories

  /** The step takes the delivery into sending, or makes it, and rechecks everything its Run was given. */
  ghost predicate ChecksSend(b: Both, e: Event, d: Lifecycle.Id, written: Writing) {
    && RechecksAll(b, e, written) && !HasStatus(b.tables, d, Lifecycle.Sending)
    && HasStatus(Step(b, e, written).tables, d, Lifecycle.Sending)
    && Step(b, e, written).tables.deliveries[d].runId == e.d.runId
  }

  ghost predicate ChecksCreation(b: Both, e: Event, d: Lifecycle.Id, written: Writing) {
    && RechecksAll(b, e, written) && d !in b.tables.deliveries && d in Step(b, e, written).tables.deliveries
    && Step(b, e, written).tables.deliveries[d].runId == e.d.runId
  }

  ghost predicate SendChecked(b: Both, es: seq<Event>, d: Lifecycle.Id, written: Writing)
    decreases |es|
  {
    es != [] && (ChecksSend(b, es[0], d, written) || SendChecked(Step(b, es[0], written), es[1..], d, written))
  }

  ghost predicate CreationChecked(b: Both, es: seq<Event>, d: Lifecycle.Id, written: Writing)
    decreases |es|
  {
    es != [] && (ChecksCreation(b, es[0], d, written) || CreationChecked(Step(b, es[0], written), es[1..], d, written))
  }

  predicate Left(s: Lifecycle.State, d: Lifecycle.Id) { d in s.deliveries && !s.deliveries[d].status.Pending? }

  lemma TablesOnlyMove(b: Both, a: Lifecycle.Event, d: Lifecycle.Id)
    requires !Sends(a)
    ensures d in Lifecycle.Step(b.tables, a).deliveries <==> d in b.tables.deliveries
    ensures Left(Lifecycle.Step(b.tables, a), d) ==> Left(b.tables, d)
  {
    StepIsDeliveriesStep(b.tables, a);
    if !WritesDeliveries(a) {
      OnlyDeliveryWriters(b.tables, a);
    }
  }

  lemma TransactIsStep(s: Lifecycle.State, e: Lifecycle.Event, caller: Lifecycle.Caller)
    requires Sends(e)
    ensures DeliveriesStep(s, Transact(s, e, caller).0)
  {
    match e
    case ECreateDelivery(_, id, r, key, dest, text, kind, ok) => CreateIsDeliveriesStep(s, caller, id, r, key, dest, text, kind, ok);
    case EClaimDelivery(_, r, id, lease, ok) => ClaimIsDeliveriesStep(s, caller, r, id, lease, ok);
    case ETransitionDelivery(_, r, id, from, to, x, ok) => TransitionIsDeliveriesStep(s, caller, r, id, from, to, x, ok);
  }

  /** A delivery that comes to be, or leaves pending, does so in a step that rechecks everything. */
  lemma ChangesAreChecked(b: Both, e: Event, d: Lifecycle.Id, written: Writing)
    requires ClosureInv(b.reading)
    ensures d in Step(b, e, written).tables.deliveries ==> d in b.tables.deliveries || ChecksCreation(b, e, d, written)
    ensures Left(Step(b, e, written).tables, d) ==> Left(b.tables, d) || ChecksSend(b, e, d, written)
  {
    var t := Step(b, e, written);
    match e
    case Tables(a) =>
      if !Sends(a) && !a.EAcceptRun? {
        TablesOnlyMove(b, a, d);
      }
    case Reading(_) =>
    case Accept(_, _, _) =>
    case Deliver(a, caller, now) =>
      if t.tables != b.tables {
        WritesAreRechecked(b, e, written);
        TransactIsStep(b.tables, a, Lifecycle.Caller(caller.principalId, written(caller.scope)));
      }
  }

  /** In every history, each delivery was made by a transaction that rechecked every source of the Run's text then,
      and each one that is no longer pending was taken into sending by one that rechecked every source once more. */
  lemma {:induction false} NothingIsSentUnchecked(b: Both, es: seq<Event>, d: Lifecycle.Id, written: Writing)
    requires ClosureInv(b.reading) && OwnMarks(b, es, written)
    ensures d in After(b, es, written).tables.deliveries ==> d in b.tables.deliveries || CreationChecked(b, es, d, written)
    ensures Left(After(b, es, written).tables, d) ==> Left(b.tables, d) || SendChecked(b, es, d, written)
    decreases |es|
  {
    if es != [] {
      StepKeepsClosureToo(b, es[0], written);
      ChangesAreChecked(b, es[0], d, written);
      NothingIsSentUnchecked(Step(b, es[0], written), es[1..], d, written);
    }
  }

  lemma NothingIsSentUncheckedFromTheBeginning(es: seq<Event>, d: Lifecycle.Id, written: Writing)
    requires OwnMarks(NOTHING, es, written) && d in After(NOTHING, es, written).tables.deliveries
    ensures CreationChecked(NOTHING, es, d, written)
    ensures After(NOTHING, es, written).tables.deliveries[d].status.Pending? || SendChecked(NOTHING, es, d, written)
    ensures Agrees(After(NOTHING, es, written))
  {
    RunsAgreeAlways(NOTHING, es, written);
    NothingIsSentUnchecked(NOTHING, es, d, written);
  }
}
