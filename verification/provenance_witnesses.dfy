/** Histories from an empty store in which marks miss their readers, or their recheck. */
module ProvenanceWitnesses {
  import opened Options
  import opened CanonicalKeys
  import opened Auth = AuthModel
  import opened ProvenanceModel
  import opened ProvenanceMarks
  import opened ProvenanceGate
  import opened ProvenanceCarrying

  lemma AfterOneMore(s: ProvenanceModel.State, es: seq<ProvenanceModel.Event>, e: ProvenanceModel.Event)
    ensures ProvenanceModel.After(s, es + [e]) == ProvenanceModel.Step(ProvenanceModel.After(s, es), e)
    decreases |es|
  {
    if es == [] {
      assert es + [e] == [e] && [e][1..] == [];
    } else {
      assert (es + [e])[1..] == es[1..] + [e];
      AfterOneMore(ProvenanceModel.Step(s, es[0]), es[1..], e);
    }
  }

  // ---------------------------------------------------------------------------------------
  // A Run, a Resource, and somebody who read it for the Run

  /** The owner `p` at `k`, and the reader `z` at `w`, who may be the same. */
  datatype Cast = Cast(p: Id, k: Scope, z: Id, w: Scope)

  const CONVERSATION: Id := "conversation"
  const FIRST: Id := "first"
  const SECOND: Id := "second"

  function World(c: Cast): Environment {
    NO_ENVIRONMENT.(identities := map[IdentityOf(c.k) := c.p, IdentityOf(c.w) := c.z],
                    resources := map["notes" := Resource("workspace", false)])
  }

  function ReadOf(c: Cast): Tuple { Tuple(c.z, "notes", "workspace:read", c.w) }

  function ReadFor(c: Cast, runId: Id): Request { Request(ReadOf(c), None, None, Some(runId), None, Unstated) }

  function NewTurn(id: Id, p: Id): Turn { Turn(id, CONVERSATION, p, true, Lifecycle.RunStatus.Queued, None, Some("question"), false) }

  function NewRow(p: Id): RunRow { RunRow(p, CONVERSATION, false, None) }

  /** Two Runs of the owner; the reader is granted the Resource and reads it for the first Run. */
  function Beginning(c: Cast): seq<ProvenanceModel.Event> {
    [ELedger(EEnvironment(World(c))), ELedger(EGrant(ReadOf(c), AllowEffect, false)), EAccept(NewTurn(FIRST, c.p), NewRow(c.p)),
     EAccept(NewTurn(SECOND, c.p), NewRow(c.p)), ELedger(EEvaluate(ReadFor(c, FIRST), None, 0))]
  }

  ghost predicate Begun(c: Cast, s: ProvenanceModel.State) {
    && s.turns == [NewTurn(FIRST, c.p), NewTurn(SECOND, c.p)] && s.sent == [] && s.admitted == {}
    && s.ledger.env == World(c).(runs := map[FIRST := NewRow(c.p), SECOND := NewRow(c.p)])
    && s.ledger.grants == [Grant(ReadOf(c), AllowEffect, false)]
    && s.ledger.decisions == [Recorded(ReadFor(c, FIRST), Judgement(Allow, ExplicitGrant, Some(0), None, NoApproval))]
  }

  lemma NamesDiffer()
    ensures FIRST != SECOND
  {
    assert |FIRST| == 5 && |SECOND| == 6;
  }

  lemma OneOn(s: ProvenanceModel.State, es: seq<ProvenanceModel.Event>, i: nat)
    requires i < |es|
    ensures ProvenanceModel.After(s, es[i..]) == ProvenanceModel.After(ProvenanceModel.Step(s, es[i]), es[i + 1..])
  {
    assert es[i..][0] == es[i] && es[i..][1..] == es[i + 1..];
  }

  /** The world is set up, and the reader is granted the Resource. */
  lemma Granted(c: Cast)
    ensures ProvenanceModel.After(ProvenanceModel.EMPTY, Beginning(c))
            == ProvenanceModel.After(WithGrant(c), Beginning(c)[2..])
  {
    var es, s0 := Beginning(c), ProvenanceModel.EMPTY;
    var s1 := ProvenanceModel.Step(s0, es[0]);
    var s2 := ProvenanceModel.Step(s1, es[1]);
    assert s2.ledger.grants == [Grant(ReadOf(c), AllowEffect, false)];
    assert es[0..] == es;
    OneOn(s0, es, 0);
    OneOn(s1, es, 1);
  }

  function WithGrant(c: Cast): ProvenanceModel.State {
    ProvenanceModel.EMPTY.(ledger := ProvenanceModel.EMPTY.ledger.(env := World(c), grants := [Grant(ReadOf(c), AllowEffect, false)]))
  }

  function WithRuns(c: Cast): ProvenanceModel.State {
    var s := WithGrant(c);
    s.(turns := [NewTurn(FIRST, c.p), NewTurn(SECOND, c.p)],
       ledger := s.ledger.(env := World(c).(runs := map[FIRST := NewRow(c.p), SECOND := NewRow(c.p)])))
  }

  /** Both Runs are accepted. */
  lemma Accepted(c: Cast)
    ensures ProvenanceModel.After(WithGrant(c), Beginning(c)[2..]) == ProvenanceModel.After(WithRuns(c), Beginning(c)[4..])
  {
    NamesDiffer();
    var es, s2 := Beginning(c), WithGrant(c);
    var s3 := ProvenanceModel.Step(s2, es[2]);
    assert s3.turns == [NewTurn(FIRST, c.p)] && s3.ledger.env.runs == map[FIRST := NewRow(c.p)];
    assert ProvenanceModel.Step(s3, es[3]) == WithRuns(c);
    OneOn(s2, es, 2);
    OneOn(s3, es, 3);
  }

  lemma Begins(c: Cast)
    requires IdentityOf(c.k) != IdentityOf(c.w) || c.p == c.z
    ensures Begun(c, ProvenanceModel.After(ProvenanceModel.EMPTY, Beginning(c)))
  {
    var es, s := Beginning(c), WithRuns(c);
    Granted(c);
    Accepted(c);
    ReadsFor(c, s.ledger);
    var t := ProvenanceModel.Step(s, es[4]);
    assert t.ledger.decisions == [Recorded(ReadFor(c, FIRST), Judgement(Allow, ExplicitGrant, Some(0), None, NoApproval))];
    OneOn(s, es, 4);
    assert es[5..] == [];
  }

  lemma ReadsFor(c: Cast, l: Ledger)
    requires l.env == World(c).(runs := map[FIRST := NewRow(c.p), SECOND := NewRow(c.p)])
    requires l.grants == [Grant(ReadOf(c), AllowEffect, false)] && (IdentityOf(c.k) != IdentityOf(c.w) || c.p == c.z)
    ensures Judge(l, ReadFor(c, FIRST), None, 0) == Judgement(Allow, ExplicitGrant, Some(0), None, NoApproval)
  {
    assert Precheck(l, ReadFor(c, FIRST)).None?;
    assert FirstLive(l.grants, ReadOf(c), AllowEffect) == Some(0);
  }

  // ---------------------------------------------------------------------------------------
  // A mark made for somebody else

  /** The reader is not the owner, and its read for the owner's Run is marked. */
  function ForeignHistory(c: Cast): seq<ProvenanceModel.Event> {
    Beginning(c) + [ELedger(EMark(0, ContentSource))]
  }

  /** The owner marked nothing on the Run, and somebody else did. */
  lemma OnlyForeign(c: Cast, l: Ledger)
    requires c.p != c.z && |l.decisions| == 1 && l.decisions[0].tuple == ReadOf(c)
    requires MarkedFor(l.decisions[0], FIRST)
    ensures !ForeignMarksAreCovered(l, FIRST, c.p) && forall src :: !HasSource(l.decisions, {FIRST}, Some(c.p), src)
  {
    forall src ensures !HasSource(l.decisions, {FIRST}, Some(c.p), src) {
      assert !SourceAt(l.decisions[0], {FIRST}, Some(c.p), src);
    }
    forall src ensures !OwnSource(l, FIRST, c.p, src) {
    }
    assert ForeignMark(l.decisions[0], FIRST, c.p);
  }

  /** Then every delivery of the Run passes, and never rechecks what was read. */
  lemma ForeignMarksHappen(c: Cast, now: int)
    requires IdentityOf(c.k) != IdentityOf(c.w) && c.p != c.z
    ensures var l := ProvenanceModel.After(ProvenanceModel.EMPTY, ForeignHistory(c)).ledger;
            && DeliveryGate(l, Caller(c.p, c.k), FIRST, true, now).1
            && !ForeignMarksAreCovered(l, FIRST, c.p)
            && !EveryMarkIsRechecked(l, DeliveryGate(l, Caller(c.p, c.k), FIRST, true, now).0, Caller(c.p, c.k), FIRST)
  {
    var s := ProvenanceModel.After(ProvenanceModel.EMPTY, Beginning(c));
    Begins(c);
    AfterOneMore(ProvenanceModel.EMPTY, Beginning(c), ELedger(EMark(0, ContentSource)));
    var l := ProvenanceModel.Step(s, ELedger(EMark(0, ContentSource))).ledger;
    assert l.decisions == [s.ledger.decisions[0].(mark := Some(ContentSource))];
    OnlyForeign(c, l);
    DeliveryPassesExactlyWhen(l, Caller(c.p, c.k), FIRST, true, now);
    EveryMarkIsRecheckedExactlyWhen(l, Caller(c.p, c.k), FIRST, now);
  }

  // ---------------------------------------------------------------------------------------
  // A mark made after the text was handed on

  /** The owner reads for the first Run, which succeeds; the second Run is given its text; then the read is marked. */
  function LateHistory(c: Cast): seq<ProvenanceModel.Event> {
    Beginning(c) + [ESettle(0, Lifecycle.RunStatus.Succeeded, Some("answer"))]
    + [ELoad(Caller(c.p, c.k), 1, true, None, [], 0)] + [ELedger(EMark(0, ContentSource))]
  }

  lemma SecondIsGivenTheFirst(c: Cast, s: ProvenanceModel.State)
    requires c.p == c.z && s.sent == [] && s.admitted == {} && |s.turns| == 2
    requires s.turns[0] == NewTurn(FIRST, c.p).(status := Lifecycle.RunStatus.Succeeded, resultText := Some("answer"))
    requires s.turns[1] == NewTurn(SECOND, c.p)
    requires s.ledger.grants == [Grant(ReadOf(c), AllowEffect, false)]
    requires s.ledger.decisions == [Recorded(ReadFor(c, FIRST), Judgement(Allow, ExplicitGrant, Some(0), None, NoApproval))]
    ensures var t := ProvenanceModel.Step(s, ELoad(Caller(c.p, c.k), 1, true, None, [], 0));
            (SECOND, FIRST) in t.admitted && t.ledger == s.ledger
  {
    var caller, ev := Caller(c.p, c.k), Evidence(Some(CONVERSATION), Some(SECOND), None);
    var turn := s.turns[0];
    assert EarlierTurns(s.turns, [], CONVERSATION, 0, 256) == [];
    assert EarlierTurns(s.turns, [], CONVERSATION, 1, 257) == [0];
    assert TurnsAt(s.turns, [0]) == [turn];
    assert SourceRows(s.ledger.decisions[..0], {FIRST}, None) == [];
    assert SourceRows(s.ledger.decisions, {FIRST}, None) == [];
    assert UsesGrant(s.ledger, s.ledger.decisions[0], FIRST) && s.ledger.decisions[0] in s.ledger.decisions;
    assert GrantsStand(s.ledger, FIRST);
    assert AnswerFor(turn, [], caller) == Some("answer");
    var (l, g) := ReadTurn(s.ledger, s.ledger, caller, ev, turn, [], NO_HISTORY, 0);
    assert l == s.ledger && g.exchanges == [Exchange(FIRST, "question", "answer", c.p)];
    assert [turn][1..] == [];
    assert ReadTurns(s.ledger, s.ledger, caller, ev, [turn], [], NO_HISTORY, 0) == (l, g);
    assert g.exchanges[0] in g.exchanges && FIRST in ReusedRuns(g);
  }

  /** Then the second Run holds the first one's text without its source. */
  lemma LateMarksHappen(c: Cast)
    requires c.p == c.z
    ensures !ReadersCarryMarks(ProvenanceModel.After(ProvenanceModel.EMPTY, LateHistory(c)))
    ensures !AllReachReaders(ProvenanceModel.EMPTY, LateHistory(c))
  {
    var s0 := ProvenanceModel.After(ProvenanceModel.EMPTY, Beginning(c));
    Begins(c);
    var settle := ESettle(0, Lifecycle.RunStatus.Succeeded, Some("answer"));
    var load := ELoad(Caller(c.p, c.k), 1, true, None, [], 0);
    var mark := ELedger(EMark(0, ContentSource));
    AfterOneMore(ProvenanceModel.EMPTY, Beginning(c), settle);
    AfterOneMore(ProvenanceModel.EMPTY, Beginning(c) + [settle], load);
    AfterOneMore(ProvenanceModel.EMPTY, Beginning(c) + [settle] + [load], mark);
    var s1 := ProvenanceModel.Step(s0, settle);
    SecondIsGivenTheFirst(c, s1);
    var s2 := ProvenanceModel.Step(s1, load);
    MarkedTooLate(c, s2);
    if AllReachReaders(ProvenanceModel.EMPTY, LateHistory(c)) {
      CarryingAlways(LateHistory(c));
      CarriedToTheEnd(ProvenanceModel.EMPTY, LateHistory(c));
    }
  }

  lemma MarkedTooLate(c: Cast, s: ProvenanceModel.State)
    requires (SECOND, FIRST) in s.admitted
    requires s.ledger.decisions == [Recorded(ReadFor(c, FIRST), Judgement(Allow, ExplicitGrant, Some(0), None, NoApproval))]
    ensures !ReadersCarryMarks(ProvenanceModel.Step(s, ELedger(EMark(0, ContentSource))))
  {
    NamesDiffer();
    var t := ProvenanceModel.Step(s, ELedger(EMark(0, ContentSource)));
    assert t.ledger.decisions == [s.ledger.decisions[0].(mark := Some(ContentSource))];
    var d := t.ledger.decisions[0];
    assert d in t.ledger.decisions && MarkedFor(d, FIRST);
    var k := KeyOfSource(SourceOf(d));
    assert k in Marked(t.ledger, FIRST);
    assert Marked(t.ledger, SECOND) == {};
  }

  lemma {:induction false} CarriedToTheEnd(s: ProvenanceModel.State, es: seq<ProvenanceModel.Event>)
    requires CarriedThroughout(s, es)
    ensures ReadersCarryMarks(ProvenanceModel.After(s, es))
    decreases |es|
  {
    if es != [] {
      CarriedToTheEnd(ProvenanceModel.Step(s, es[0]), es[1..]);
    }
  }
}
