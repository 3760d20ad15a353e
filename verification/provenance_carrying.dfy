/** When a reader carries every mark of the Runs whose text it was given, over every history. */
module ProvenanceCarrying {
  import opened Options
  import opened Auth = AuthModel
  import AuthGuards
  import opened ProvenanceModel
  import opened ProvenanceMarks
  import opened ProvenanceClosure
  import opened ProvenanceRuns

  /** Each reader carries all the marks of every Run whose text it was given. */
  ghost predicate ReadersCarryMarks(s: ProvenanceModel.State) {
    forall r, q :: (r, q) in s.admitted ==> Marked(s.ledger, q) <= Marked(s.ledger, r)
  }

  // ---------------------------------------------------------------------------------------
  // The marks an event makes, told beforehand

  function KeyOfRead(r: ReadReceipt): Key {
    KeyOfSource(Source(r.request.tuple.resourceId, r.request.tuple.action, r.source, StoredRoute(r.request.route)))
  }

  function KeyOfMark(d: Decision, m: Mark): Key {
    KeyOfSource(Source(d.tuple.resourceId, d.tuple.action, m, d.condition))
  }

  /** The Runs and keys a ledger transaction marks: a mark that finds its decision unmarked, and the reads of a
      completion that goes through. */
  function MadeByLedger(l: Ledger, a: Auth.Event): set<(Id, Key)> {
    match a
    case EMark(d, m) =>
      if d < |l.decisions| && l.decisions[d].verdict.Allow? && l.decisions[d].mark.None? && l.decisions[d].runId.Some?
      then {(l.decisions[d].runId.value, KeyOfMark(l.decisions[d], m))} else {}
    case ECompleteReads(receipts, action, now) =>
      if CompleteReads(l, receipts, action, now).1
      then set r | r in receipts && r.request.runId.Some? :: (r.request.runId.value, KeyOfRead(r)) else {}
    case _ => {}
  }

  /** All the marks of the reader once it has loaded its input. */
  ghost function MadeByLoad(s: ProvenanceModel.State, caller: Caller, at: nat, allowed: bool, bound: Option<Id>, deps: seq<Dependency>,
                            now: int): set<(Id, Key)>
    requires at < |s.turns|
  {
    var r := s.turns[at].id;
    set k | k in Marked(LoadRunInput(s, caller, at, allowed, bound, deps, now).0.ledger, r) :: (r, k)
  }

  ghost function Made(s: ProvenanceModel.State, e: ProvenanceModel.Event): set<(Id, Key)> {
    match e
    case ELedger(a) => if MayHappen(s.ledger, a) then MadeByLedger(s.ledger, a) else {}
    case ELoad(caller, at, allowed, bound, deps, now) =>
      if at < |s.turns| then MadeByLoad(s, caller, at, allowed, bound, deps, now) else {}
    case _ => {}
  }

  /** What is marked on a Run afterwards is what was, and what the event marks on it. */
  ghost predicate MarksExactly(l: Ledger, t: Ledger, made: set<(Id, Key)>) {
    forall q, k :: k in Marked(t, q) <==> k in Marked(l, q) || (q, k) in made
  }

  // ---------------------------------------------------------------------------------------
  // That it tells them exactly

  /** Marked rows are as they were, and the new rows carry no mark. */
  ghost predicate NoNewMarks(l: Ledger, t: Ledger) {
    && |l.decisions| <= |t.decisions|
    && (forall i :: 0 <= i < |l.decisions| ==>
          t.decisions[i] == l.decisions[i] || (t.decisions[i].mark.None? && l.decisions[i].mark.None?))
    && (forall i :: |l.decisions| <= i < |t.decisions| ==> t.decisions[i].mark.None?)
  }

  ghost predicate MarksAt(l: Ledger, i: nat, q: Id, k: Key) {
    i < |l.decisions| && MarkedFor(l.decisions[i], q) && KeyOfSource(SourceOf(l.decisions[i])) == k
  }

  lemma MarkedAt(l: Ledger, q: Id, k: Key)
    ensures k in Marked(l, q) <==> exists i: nat :: MarksAt(l, i, q, k)
  {
    if k in Marked(l, q) {
      var d :| d in l.decisions && MarkedFor(d, q) && k == KeyOfSource(SourceOf(d));
      var i :| 0 <= i < |l.decisions| && l.decisions[i] == d;
      assert MarksAt(l, i, q, k);
    }
    if i: nat :| MarksAt(l, i, q, k) {
      assert l.decisions[i] in l.decisions;
    }
  }

  lemma NothingMarked(l: Ledger, t: Ledger)
    requires NoNewMarks(l, t)
    ensures MarksExactly(l, t, {})
  {
    forall q, k ensures k in Marked(t, q) <==> k in Marked(l, q) {
      MarkedAt(l, q, k);
      MarkedAt(t, q, k);
      if i: nat :| MarksAt(l, i, q, k) {
        assert MarksAt(t, i, q, k);
      }
      if i: nat :| MarksAt(t, i, q, k) {
        assert MarksAt(l, i, q, k);
      }
    }
  }

  lemma MarkTold(l: Ledger, d: nat, m: Mark)
    ensures MarksExactly(l, SetMark(l, d, m), MadeByLedger(l, EMark(d, m)))
  {
    var t := SetMark(l, d, m);
    forall q, k ensures k in Marked(t, q) <==> k in Marked(l, q) || (q, k) in MadeByLedger(l, EMark(d, m)) {
      MarkedAt(l, q, k);
      MarkedAt(t, q, k);
      if i: nat :| MarksAt(l, i, q, k) {
        assert MarksAt(t, i, q, k);
      }
      if i: nat :| MarksAt(t, i, q, k) {
        assert i != d ==> MarksAt(l, i, q, k);
        assert i == d && t == l ==> MarksAt(l, i, q, k);
      }
      if (q, k) in MadeByLedger(l, EMark(d, m)) {
        assert MarksAt(t, d, q, k);
      }
    }
  }

  lemma CompletionMarks(l: Ledger, receipts: seq<ReadReceipt>, action: Option<Request>, now: int, q: Id, k: Key)
    requires CompleteReads(l, receipts, action, now).1
    requires k in Marked(l, q) || (q, k) in MadeByLedger(l, ECompleteReads(receipts, action, now))
    ensures k in Marked(CompleteReads(l, receipts, action, now).0, q)
  {
    var t := CompleteReads(l, receipts, action, now).0;
    AuthGuards.CompletionTakesEveryRead(l, receipts, action, now);
    MarkedAt(l, q, k);
    MarkedAt(t, q, k);
    if k in Marked(l, q) {
      var i: nat :| MarksAt(l, i, q, k);
      assert MarksAt(t, i, q, k);
    } else {
      var r :| r in receipts && r.request.runId == Some(q) && KeyOfRead(r) == k;
      var j :| 0 <= j < |receipts| && receipts[j] == r;
      assert AuthGuards.Rechecked(t.decisions[|l.decisions| + j], receipts[j]);
      assert MarksAt(t, |l.decisions| + j, q, k);
    }
  }

  lemma CompletionTold(l: Ledger, receipts: seq<ReadReceipt>, action: Option<Request>, now: int)
    requires CompleteReads(l, receipts, action, now).1
    ensures MarksExactly(l, CompleteReads(l, receipts, action, now).0, MadeByLedger(l, ECompleteReads(receipts, action, now)))
  {
    var t, made := CompleteReads(l, receipts, action, now).0, MadeByLedger(l, ECompleteReads(receipts, action, now));
    AuthGuards.CompletionTakesEveryRead(l, receipts, action, now);
    forall q, k ensures k in Marked(t, q) <==> k in Marked(l, q) || (q, k) in made {
      if k in Marked(l, q) || (q, k) in made {
        CompletionMarks(l, receipts, action, now, q, k);
      } else if k in Marked(t, q) {
        MarkedAt(l, q, k);
        MarkedAt(t, q, k);
        var i: nat :| MarksAt(t, i, q, k);
        assert i < |l.decisions| ==> MarksAt(l, i, q, k);
        ReadAt(l, t, receipts, i, q, k);
      }
    }
  }

  lemma ReadAt(l: Ledger, t: Ledger, receipts: seq<ReadReceipt>, i: nat, q: Id, k: Key)
    requires AuthGuards.InOrder(t, |l.decisions|, receipts) && |l.decisions| <= i && MarksAt(t, i, q, k)
    requires forall j :: 0 <= j < |receipts| ==> t.decisions[|l.decisions| + j].mark == Some(receipts[j].source)
    requires |t.decisions| <= |l.decisions| + |receipts| + 1
    requires |t.decisions| == |l.decisions| + |receipts| + 1 ==> t.decisions[|l.decisions| + |receipts|].mark.None?
    ensures exists r :: r in receipts && r.request.runId == Some(q) && KeyOfRead(r) == k
  {
    var j := i - |l.decisions|;
    assert AuthGuards.Rechecked(t.decisions[|l.decisions| + j], receipts[j]);
    assert receipts[j] in receipts && receipts[j].request.runId == Some(q) && KeyOfRead(receipts[j]) == k;
  }

  lemma LedgerTold(l: Ledger, a: Auth.Event)
    requires MayHappen(l, a)
    ensures MarksExactly(l, Auth.Step(l, a), MadeByLedger(l, a))
  {
    match a {
      case EMark(d, m) => MarkTold(l, d, m);
      case ECompleteReads(receipts, action, now) =>
        if CompleteReads(l, receipts, action, now).1 {
          CompletionTold(l, receipts, action, now);
        } else {
          AuthGuards.RefusedCompletionMarksNothing(l, receipts, action, now);
          NothingMarked(l, Auth.Step(l, a));
        }
      case EProvision(p, k, entries, initialOnly, now) =>
        AuthGuards.ProvisioningAppends(l, p, k, entries, initialOnly, now);
        NothingMarked(l, Auth.Step(l, a));
      case _ => NothingMarked(l, Auth.Step(l, a));
    }
  }

  lemma OthersKeepTheirMarks(l: Ledger, t: Ledger, reader: Id, p: Id, q: Id)
    requires Extends(l, t, Some(reader), p) && q != reader
    ensures Marked(t, q) == Marked(l, q)
  {
    MarkedStays(l, t, q);
    forall k | k in Marked(t, q) ensures k in Marked(l, q) {
      MarkedAt(t, q, k);
      MarkedAt(l, q, k);
      var i: nat :| MarksAt(t, i, q, k);
      assert i < |l.decisions| && SameRow(l.decisions[i], t.decisions[i]);
      assert MarksAt(l, i, q, k);
    }
  }

  lemma LoadTold(s: ProvenanceModel.State, caller: Caller, at: nat, allowed: bool, bound: Option<Id>, deps: seq<Dependency>, now: int)
    requires at < |s.turns|
    ensures MarksExactly(s.ledger, LoadRunInput(s, caller, at, allowed, bound, deps, now).0.ledger,
                         MadeByLoad(s, caller, at, allowed, bound, deps, now))
  {
    var l, t, r := s.ledger, LoadRunInput(s, caller, at, allowed, bound, deps, now).0.ledger, s.turns[at].id;
    LoadCarriesItsSources(s, caller, at, allowed, bound, deps, now);
    MarkedStays(l, t, r);
    forall q | q != r ensures Marked(t, q) == Marked(l, q) {
      OthersKeepTheirMarks(l, t, r, caller.principalId, q);
    }
  }

  /** Whatever happens, the marks made are the ones told beforehand. */
  lemma StepTold(s: ProvenanceModel.State, e: ProvenanceModel.Event)
    ensures MarksExactly(s.ledger, ProvenanceModel.Step(s, e).ledger, Made(s, e))
  {
    match e {
      case ELedger(a) =>
        if MayHappen(s.ledger, a) {
          LedgerTold(s.ledger, a);
        }
      case ELoad(caller, at, allowed, bound, deps, now) =>
        if at < |s.turns| {
          LoadTold(s, caller, at, allowed, bound, deps, now);
        }
      case EDeliver(_, caller, runId, allowed, now) =>
        GateAppends(s.ledger, caller, DeliveryEvidence(s.ledger.env, caller, runId),
                    SourceRows(s.ledger.decisions, {runId}, Some(caller.principalId)), now);
        NothingMarked(s.ledger, ProvenanceModel.Step(s, e).ledger);
      case _ => NothingMarked(s.ledger, ProvenanceModel.Step(s, e).ledger);
    }
  }

  // ---------------------------------------------------------------------------------------
  // The law

  /** Whoever was given a Run's text carries already, or is marked with by the same event, what the event marks on
      the Run. */
  ghost predicate MarksReachReaders(s: ProvenanceModel.State, e: ProvenanceModel.Event) {
    forall r, q, k :: (r, q) in s.admitted && (q, k) in Made(s, e) ==> k in Marked(s.ledger, r) || (r, k) in Made(s, e)
  }

  lemma AdmittedStay(s: ProvenanceModel.State, e: ProvenanceModel.Event)
    ensures s.admitted <= ProvenanceModel.Step(s, e).admitted
    ensures !e.ELoad? || e.at >= |s.turns| ==> ProvenanceModel.Step(s, e).admitted == s.admitted
  {
    if e.ELoad? && e.at < |s.turns| {
      LoadCarriesItsSources(s, e.caller, e.at, e.allowed, e.bound, e.deps, e.now);
    }
  }

  lemma NewReader(s: ProvenanceModel.State, e: ProvenanceModel.Event, r: Id, q: Id)
    requires (r, q) !in s.admitted && (r, q) in ProvenanceModel.Step(s, e).admitted
    ensures Marked(ProvenanceModel.Step(s, e).ledger, q) <= Marked(ProvenanceModel.Step(s, e).ledger, r)
  {
    AdmittedStay(s, e);
    var (t, out) := LoadRunInput(s, e.caller, e.at, e.allowed, e.bound, e.deps, e.now);
    LoadCarriesItsSources(s, e.caller, e.at, e.allowed, e.bound, e.deps, e.now);
    var reader := s.turns[e.at].id;
    var from: set<Id>, own: set<Key> :| t == TakeIn(s.(ledger := t.ledger), reader, from, own)
      && Carries(s.ledger, t.ledger, from, reader) && own <= Marked(t.ledger, reader);
    assert r == reader && q in from;
    if q != reader {
      OthersKeepTheirMarks(s.ledger, t.ledger, reader, e.caller.principalId, q);
    }
  }

  /** One event keeps every reader carrying the marks of what it was given exactly when its own marks reach the
      readers; a load always gives the reader the marks of what it takes in. */
  lemma StepCarriesExactlyWhen(s: ProvenanceModel.State, e: ProvenanceModel.Event)
    requires ReadersCarryMarks(s)
    ensures ReadersCarryMarks(ProvenanceModel.Step(s, e)) <==> MarksReachReaders(s, e)
  {
    var t := ProvenanceModel.Step(s, e);
    StepTold(s, e);
    AdmittedStay(s, e);
    if ReadersCarryMarks(t) {
      forall r, q, k | (r, q) in s.admitted && (q, k) in Made(s, e) ensures k in Marked(s.ledger, r) || (r, k) in Made(s, e) {
        assert k in Marked(t.ledger, q) && (r, q) in t.admitted;
        assert k in Marked(t.ledger, r);
      }
    }
    if MarksReachReaders(s, e) {
      forall r, q | (r, q) in t.admitted ensures Marked(t.ledger, q) <= Marked(t.ledger, r) {
        if (r, q) in s.admitted {
          forall k | k in Marked(t.ledger, q) ensures k in Marked(t.ledger, r) {
            assert k in Marked(s.ledger, q) ==> k in Marked(s.ledger, r);
          }
        } else {
          NewReader(s, e, r, q);
        }
      }
    }
  }

  /** For a single mark: every other Run that was given the text has to carry its key already. */
  lemma LateMarkIsCarriedExactlyWhen(s: ProvenanceModel.State, d: nat, m: Mark)
    requires ReadersCarryMarks(s) && d < |s.ledger.decisions|
    requires s.ledger.decisions[d].verdict.Allow? && s.ledger.decisions[d].mark.None? && s.ledger.decisions[d].runId.Some?
    ensures ReadersCarryMarks(ProvenanceModel.Step(s, ELedger(EMark(d, m)))) <==>
              var q, k := s.ledger.decisions[d].runId.value, KeyOfMark(s.ledger.decisions[d], m);
              forall r :: (r, q) in s.admitted && r != q ==> k in Marked(s.ledger, r)
  {
    var e := ELedger(EMark(d, m));
    var q, k := s.ledger.decisions[d].runId.value, KeyOfMark(s.ledger.decisions[d], m);
    assert Made(s, e) == {(q, k)};
    StepCarriesExactlyWhen(s, e);
    if MarksReachReaders(s, e) {
      forall r | (r, q) in s.admitted && r != q ensures k in Marked(s.ledger, r) {
        assert (q, k) in Made(s, e) && (r, k) !in Made(s, e);
      }
    }
  }

  /** The law at every moment of a history. */
  ghost predicate CarriedThroughout(s: ProvenanceModel.State, es: seq<ProvenanceModel.Event>)
    decreases |es|
  {
    ReadersCarryMarks(s) && (es != [] ==> CarriedThroughout(ProvenanceModel.Step(s, es[0]), es[1..]))
  }

  ghost predicate AllReachReaders(s: ProvenanceModel.State, es: seq<ProvenanceModel.Event>)
    decreases |es|
  {
    es != [] ==> MarksReachReaders(s, es[0]) && AllReachReaders(ProvenanceModel.Step(s, es[0]), es[1..])
  }

  /** Through a whole history every reader carries the marks of every Run it was given, at every moment, if and only
      if each event's marks reached the readers when they were made. */
  lemma {:induction false} CarriedExactlyWhen(s: ProvenanceModel.State, es: seq<ProvenanceModel.Event>)
    requires ReadersCarryMarks(s)
    ensures CarriedThroughout(s, es) <==> AllReachReaders(s, es)
    decreases |es|
  {
    if es != [] {
      var t := ProvenanceModel.Step(s, es[0]);
      StepCarriesExactlyWhen(s, es[0]);
      if ReadersCarryMarks(t) {
        CarriedExactlyWhen(t, es[1..]);
      }
    }
  }

  /** The same from an empty store. */
  lemma CarryingAlways(es: seq<ProvenanceModel.Event>)
    ensures CarriedThroughout(ProvenanceModel.EMPTY, es) <==> AllReachReaders(ProvenanceModel.EMPTY, es)
  {
    CarriedExactlyWhen(ProvenanceModel.EMPTY, es);
  }

  /** A chain of Runs, each given the text of the next. */
  ghost predicate GivenChain(s: ProvenanceModel.State, runs: seq<Id>) {
    |runs| > 0 && forall i :: 0 <= i < |runs| - 1 ==> (runs[i], runs[i + 1]) in s.admitted
  }

  /** Along any chain of texts handed on, the last reader carries all the marks of the first Run. */
  lemma {:induction false} MarksReachEveryReader(s: ProvenanceModel.State, runs: seq<Id>)
    requires ReadersCarryMarks(s) && GivenChain(s, runs)
    ensures Marked(s.ledger, runs[|runs| - 1]) <= Marked(s.ledger, runs[0])
    decreases |runs|
  {
    if |runs| > 1 {
      var rest := runs[1..];
      assert forall i :: 0 <= i < |rest| - 1 ==> rest[i] == runs[i + 1] && (runs[i + 1], runs[i + 2]) in s.admitted;
      MarksReachEveryReader(s, rest);
      assert (runs[0], runs[1]) in s.admitted;
    }
  }
}
