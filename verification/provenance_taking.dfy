/** What loading an input marks: the sources of what it takes in, and nothing else. */
module ProvenanceTaking {
  import opened Options
  import opened Auth = AuthModel
  import opened ProvenanceModel
  import opened ProvenanceMarks
  import opened ProvenanceClosure
  import opened ProvenanceCarrying

  /** The Run gains no mark but these. */
  ghost predicate Adds(l: Ledger, t: Ledger, r: Id, ks: set<Key>) {
    Marked(t, r) <= Marked(l, r) + ks
  }

  /** Everything marked on some Runs. */
  ghost function MarkedOn(l: Ledger, runs: set<Id>): set<Key> {
    set q, k | q in runs && k in Marked(l, q) :: k
  }

  /** What later ledgers of the same load have marked on those Runs is what was, or is marked on the reader. */
  lemma MarkedOnLater(l: Ledger, t: Ledger, r: Id, p: Id, runs: set<Id>)
    requires Extends(l, t, Some(r), p)
    ensures MarkedOn(t, runs) <= MarkedOn(l, runs) + Marked(t, r)
  {
    forall q, k | q in runs && k in Marked(t, q) ensures k in MarkedOn(l, runs) + Marked(t, r) {
      if q != r {
        OthersKeepTheirMarks(l, t, r, p, q);
      }
    }
  }

  lemma MarkedOnGrows(l: Ledger, some: set<Id>, all: set<Id>)
    requires some <= all
    ensures MarkedOn(l, some) <= MarkedOn(l, all)
  {
  }

  /** What two steps of a load add is what either took in, as it was marked before both. */
  lemma AddsThen(l: Ledger, t: Ledger, u: Ledger, r: Id, p: Id, first: set<Key>, a: set<Id>, second: set<Key>, b: set<Id>, own: set<Key>,
                 from: set<Id>)
    requires Extends(l, t, Some(r), p) && Adds(l, t, r, first + MarkedOn(l, a)) && Adds(t, u, r, second + MarkedOn(t, b))
    requires first <= own && second <= own && a <= from && b <= from
    ensures Adds(l, u, r, own + MarkedOn(l, from))
  {
    MarkedOnLater(l, t, r, p, b);
    MarkedOnGrows(l, a, from);
    MarkedOnGrows(l, b, from);
  }

  // ---------------------------------------------------------------------------------------
  // Lists of sources

  lemma {:induction false} InspectAddsNothing(l: Ledger, caller: Caller, ev: Evidence, sources: seq<Source>, now: int)
    ensures NoNewMarks(l, Inspect(l, caller, ev, sources, now).0)
    decreases |sources|
  {
    if sources != [] {
      var t := Evaluate(l, SourceRequest(caller, sources[0], ev), None, now).0;
      EvaluateAppends(l, SourceRequest(caller, sources[0], ev), None, now);
      InspectAddsNothing(t, caller, ev, sources[1..], now);
    }
  }

  lemma SetMarkAdds(l: Ledger, i: nat, caller: Caller, ev: Evidence, src: Source, r: Id)
    requires ev.runId == Some(r) && i < |l.decisions| && DecidedFor(l.decisions[i], caller, ev, src)
    ensures Adds(l, SetMark(l, i, Classification(src.mark)), r, {KeyOfSource(src)})
  {
    var m := Classification(src.mark);
    MarkTold(l, i, m);
    assert KeyOfMark(l.decisions[i], m) == KeyOfSource(src);
  }

  lemma {:induction false} MarkFromAdds(l: Ledger, start: nat, caller: Caller, ev: Evidence, sources: seq<Source>, r: Id)
    requires ev.runId == Some(r) && DecidedInOrder(l, start, caller, ev, sources)
    ensures Adds(l, MarkFrom(l, start, sources), r, KeysOf(sources))
    decreases |sources|
  {
    if sources != [] {
      var t := SetMark(l, start, Classification(sources[0].mark));
      SetMarkAdds(l, start, caller, ev, sources[0], r);
      RestStaysDecided(l, t, start, caller, ev, sources);
      MarkFromAdds(t, start + 1, caller, ev, sources[1..], r);
      FirstAndRest(sources);
    }
  }

  lemma FirstAndRest(sources: seq<Source>)
    requires sources != []
    ensures KeysOf(sources) == {KeyOfSource(sources[0])} + KeysOf(sources[1..])
  {
    assert forall src :: src in sources <==> src == sources[0] || src in sources[1..];
  }

  lemma {:induction false} ReauthorizeAdds(l: Ledger, caller: Caller, ev: Evidence, sources: seq<Source>, now: int, r: Id)
    requires ev.runId == Some(r)
    ensures Adds(l, Reauthorize(l, caller, ev, sources, now).0, r, KeysOf(sources))
    decreases |sources|
  {
    if sources != [] {
      var req := SourceRequest(caller, sources[0], ev);
      var (t, j) := Evaluate(l, req, None, now);
      EvaluateAppends(l, req, None, now);
      NothingMarked(l, t);
      FirstAndRest(sources);
      if j.verdict.Allow? {
        DecidedNow(l, caller, ev, sources[0], now);
        SetMarkAdds(t, |l.decisions|, caller, ev, sources[0], r);
        ReauthorizeAdds(SetMark(t, |l.decisions|, Classification(sources[0].mark)), caller, ev, sources[1..], now, r);
      }
    }
  }

  lemma RowsAreMarks(l: Ledger, runs: set<Id>)
    ensures KeysOf(SourceRows(l.decisions, runs, None)) <= MarkedOn(l, runs)
  {
    var rows := SourceRows(l.decisions, runs, None);
    forall k | k in KeysOf(rows) ensures k in MarkedOn(l, runs) {
      var src :| src in rows && k == KeyOfSource(src);
      SourceRowsAreExact(l.decisions, runs, None, src);
      var i :| 0 <= i < |l.decisions| && SourceAt(l.decisions[i], runs, None, src);
      assert l.decisions[i] in l.decisions && k in Marked(l, l.decisions[i].runId.value);
    }
  }

  lemma ReauthorizeRunsAdds(l: Ledger, caller: Caller, ev: Evidence, runs: set<Id>, now: int, r: Id)
    requires ev.runId == Some(r)
    ensures Adds(l, ReauthorizeRuns(l, caller, ev, runs, now).0, r, MarkedOn(l, runs))
  {
    RowsAreMarks(l, runs);
    ReauthorizeAdds(l, caller, ev, SourceRows(l.decisions, runs, None), now, r);
  }

  lemma InheritingAdds(l: Ledger, caller: Caller, ev: Evidence, own: seq<Source>, runs: Option<set<Id>>, now: int, r: Id)
    requires ev.runId == Some(r)
    ensures Adds(l, ReadThenInherit(l, caller, ev, own, runs, now).0, r,
                 KeysOf(own) + if runs.Some? then MarkedOn(l, runs.value) else {})
  {
    var (t, ok) := Inspect(l, caller, ev, own, now);
    InspectAddsNothing(l, caller, ev, own, now);
    InspectAppends(l, caller, ev, own, now);
    NothingMarked(l, t);
    if ok && runs.Some? {
      InspectDecides(l, caller, ev, own, now);
      var (u, progress) := ReauthorizeRuns(t, caller, ev, runs.value, now);
      RunsAreCarried(t, caller, ev, runs.value, now, r);
      ReauthorizeRunsAdds(t, caller, ev, runs.value, now, r);
      MarkedOnLater(l, t, r, caller.principalId, runs.value);
      if progress.Ok? {
        DecidedStays(t, u, |l.decisions|, caller, ev, own);
        MarkFromAdds(u, |l.decisions|, caller, ev, own, r);
      }
    }
  }

  // ---------------------------------------------------------------------------------------
  // Dependencies

  lemma OneKey(src: Source)
    ensures KeysOf([src]) == {KeyOfSource(src)} && KeysOf([]) == {}
  {
    assert forall x :: x in [src] <==> x == src;
  }

  /** Reading one task again adds that read alone. */
  lemma TargetAdds(l: Ledger, caller: Caller, ev: Evidence, target: Option<Id>, now: int, r: Id)
    requires ev.runId == Some(r)
    ensures var sources := if target.Some? then [TaskRead(target.value)] else [];
            && Adds(l, Reauthorize(l, caller, ev, sources, now).0, r,
                    if target.Some? then {KeyOfSource(TaskRead(target.value))} else {})
            && Extends(l, Reauthorize(l, caller, ev, sources, now).0, Some(r), caller.principalId)
  {
    var sources := if target.Some? then [TaskRead(target.value)] else [];
    OneKey(TaskRead(if target.Some? then target.value else ""));
    ReauthorizeAdds(l, caller, ev, sources, now, r);
    ReauthorizeDoes(l, caller, ev, sources, now, r);
  }

  lemma RunResultAdds(l: Ledger, caller: Caller, ev: Evidence, task: Id, d: Dependency, now: int, r: Id)
    requires ev.runId == Some(r) && d.RunResult?
    ensures Adds(l, ReadDependency(l, caller, ev, task, d, now).0, r, OwnReads(task, d) + MarkedOn(l, Sources(l.env, d)))
  {
    if d.allowed {
      var target := if d.target.Some? then [TaskRead(d.target.value)] else [];
      var (t, ok) := Reauthorize(l, caller, ev, target, now);
      TargetAdds(l, caller, ev, d.target, now, r);
      if ok {
        var (u, progress) := ReauthorizeRuns(t, caller, ev, {d.sourceRun}, now);
        ReauthorizeRunsAdds(t, caller, ev, {d.sourceRun}, now, r);
        var reread := if d.target.Some? then {KeyOfSource(TaskRead(d.target.value))} else {};
        AddsThen(l, t, u, r, caller.principalId, reread, {}, {}, {d.sourceRun}, reread, {d.sourceRun});
        if progress.Ok? {
          TargetAdds(u, caller, ev, Some(task), now, r);
        }
      }
    }
  }

  lemma ChildAdds(l: Ledger, caller: Caller, ev: Evidence, task: Id, d: Dependency, now: int, r: Id)
    requires ev.runId == Some(r) && d.ChildResult?
    ensures Adds(l, ReadDependency(l, caller, ev, task, d, now).0, r, OwnReads(task, d) + MarkedOn(l, Sources(l.env, d)))
  {
    OneKey(TaskRead(d.childTask));
    if d.allowed {
      InheritingAdds(l, caller, ev, [TaskRead(d.childTask)], Some({d.sourceRun}), now, r);
    } else {
      InspectAddsNothing(l, caller, ev, [TaskRead(d.childTask)], now);
      NothingMarked(l, Inspect(l, caller, ev, [TaskRead(d.childTask)], now).0);
    }
  }

  lemma WorkerAdds(l: Ledger, caller: Caller, ev: Evidence, task: Id, d: Dependency, now: int, r: Id)
    requires ev.runId == Some(r) && d.WorkerResult?
    ensures Adds(l, ReadDependency(l, caller, ev, task, d, now).0, r, OwnReads(task, d) + MarkedOn(l, Sources(l.env, d)))
  {
    var child := if d.ofChild then [TaskRead(d.sourceTask)] else [];
    var t := Inspect(l, caller, ev, child, now).0;
    InspectAddsNothing(l, caller, ev, child, now);
    InspectAppends(l, caller, ev, child, now);
    NothingMarked(l, t);
    var delegated := if d.sourceTask == task then ev.(delegatedTaskId := Some(d.sourceTask)) else ev;
    var sources, runs := WorkerReads(d.sourceTask, d.permissions), WorkerRuns(l.env, d);
    InheritingAdds(t, caller, delegated, sources, runs, now, r);
    var from := if runs.Some? then runs.value else {};
    AddsThen(l, t, ReadThenInherit(t, caller, delegated, sources, runs, now).0, r, caller.principalId, {}, {}, KeysOf(sources), from,
             OwnReads(task, d), Sources(l.env, d));
  }

  lemma DependencyAdds(l: Ledger, caller: Caller, ev: Evidence, task: Id, d: Dependency, now: int, r: Id)
    requires ev.runId == Some(r)
    ensures Adds(l, ReadDependency(l, caller, ev, task, d, now).0, r, OwnReads(task, d) + MarkedOn(l, Sources(l.env, d)))
  {
    match d
    case RunResult(_, _, _, _) => RunResultAdds(l, caller, ev, task, d, now, r);
    case ChildResult(_, _, _, _) => ChildAdds(l, caller, ev, task, d, now, r);
    case WorkerResult(_, _, _, _) => WorkerAdds(l, caller, ev, task, d, now, r);
    case CheckpointResult =>
      OneKey(TaskRead(task));
      ReauthorizeAdds(l, caller, ev, [TaskRead(task)], now, r);
    case NoResult(child) =>
      var own := if child.Some? then [TaskRead(child.value)] else [];
      InspectAddsNothing(l, caller, ev, own, now);
      NothingMarked(l, Inspect(l, caller, ev, own, now).0);
  }

  lemma FirstDependencyAndRest(env: Environment, task: Id, ds: seq<Dependency>)
    requires ds != []
    ensures Sources(env, ds[0]) <= AllSources(env, ds) && OwnReads(task, ds[0]) <= AllOwnReads(task, ds)
    ensures AllSources(env, ds[1..]) <= AllSources(env, ds) && AllOwnReads(task, ds[1..]) <= AllOwnReads(task, ds)
  {
    assert ds[0] in ds;
    assert forall d :: d in ds[1..] ==> d in ds;
  }

  lemma {:induction false} DependenciesAdd(l: Ledger, caller: Caller, ev: Evidence, task: Id, ds: seq<Dependency>, now: int, r: Id)
    requires ev.runId == Some(r)
    ensures Adds(l, ReadDependencies(l, caller, ev, task, ds, now).0, r, AllOwnReads(task, ds) + MarkedOn(l, AllSources(l.env, ds)))
    decreases |ds|
  {
    if ds != [] {
      var (t, progress) := ReadDependency(l, caller, ev, task, ds[0], now);
      DependencyAdds(l, caller, ev, task, ds[0], now, r);
      DependencyIsCarried(l, caller, ev, task, ds[0], now, r);
      FirstDependencyAndRest(l.env, task, ds);
      if progress.Ok? {
        DependenciesAdd(t, caller, ev, task, ds[1..], now, r);
      } else {
        assert Adds(t, t, r, AllOwnReads(task, ds[1..]) + MarkedOn(t, AllSources(l.env, ds[1..])));
      }
      AddsThen(l, t, ReadDependencies(l, caller, ev, task, ds, now).0, r, caller.principalId, OwnReads(task, ds[0]), Sources(l.env, ds[0]),
               AllOwnReads(task, ds[1..]), AllSources(l.env, ds[1..]), AllOwnReads(task, ds), AllSources(l.env, ds));
    }
  }

  lemma StepInputAdds(l: Ledger, caller: Caller, task: Id, deps: seq<Dependency>, ev: Evidence, now: int, r: Id)
    requires ev.runId == Some(r)
    ensures var (t, progress) := StepInput(l, caller, task, deps, ev, now);
            progress.Ok? ==>
              OriginSet(l.env, task).Some?
              && Adds(l, t, r, AllOwnReads(task, deps) + MarkedOn(l, OriginSet(l.env, task).value + AllSources(l.env, deps)))
  {
    var origin := OriginSet(l.env, task);
    if origin.Some? {
      var (t, first) := ReauthorizeRuns(l, caller, ev, origin.value, now);
      ReauthorizeRunsAdds(l, caller, ev, origin.value, now, r);
      RunsAreCarried(l, caller, ev, origin.value, now, r);
      DependenciesAdd(t, caller, ev, task, deps, now, r);
      AddsThen(l, t, ReadDependencies(t, caller, ev, task, deps, now).0, r, caller.principalId, {}, origin.value, AllOwnReads(task, deps),
               AllSources(l.env, deps), AllOwnReads(task, deps), origin.value + AllSources(l.env, deps));
    }
  }

  // ---------------------------------------------------------------------------------------
  // History

  lemma TurnAdds(was: Ledger, l: Ledger, caller: Caller, ev: Evidence, t: Turn, sent: seq<SentDelivery>, h: History, now: int, r: Id)
    requires ev.runId == Some(r)
    ensures var (u, g) := ReadTurn(was, l, caller, ev, t, sent, h, now);
            ReusedRuns(h) <= ReusedRuns(g) && Adds(l, u, r, MarkedOn(was, ReusedRuns(g)))
  {
    if GrantsStand(was, t.id) {
      var sources := SourceRows(was.decisions, {t.id}, None);
      var (checked, permitted) := Inspect(l, caller, ev, sources, now);
      InspectAddsNothing(l, caller, ev, sources, now);
      NothingMarked(l, checked);
      if permitted {
        InspectDecides(l, caller, ev, sources, now);
        MarkFromAdds(checked, |l.decisions|, caller, ev, sources, r);
        RowsAreMarks(was, {t.id});
        TakenIsReused(checked, |l.decisions|, sources, t, AnswerFor(t, sent, caller), h);
      }
    }
  }

  lemma TakenIsReused(l: Ledger, start: nat, sources: seq<Source>, t: Turn, answer: Option<string>, h: History)
    ensures var (u, g) := UseTurn(l, start, sources, t, answer, h);
            ReusedRuns(h) <= ReusedRuns(g) && (u == l || (u == MarkFrom(l, start, sources) && t.id in ReusedRuns(g)))
  {
    var g := UseTurn(l, start, sources, t, answer, h).1;
    forall x | x in h.exchanges ensures x in g.exchanges {
    }
    if g.exchanges != h.exchanges {
      assert g.exchanges[|h.exchanges|] in g.exchanges && g.exchanges[|h.exchanges|].runId == t.id;
    }
  }

  lemma {:induction false} TurnsAdd(was: Ledger, l: Ledger, caller: Caller, ev: Evidence, ts: seq<Turn>, sent: seq<SentDelivery>,
                                    h: History, now: int, r: Id)
    requires ev.runId == Some(r)
    ensures var (u, g) := ReadTurns(was, l, caller, ev, ts, sent, h, now);
            ReusedRuns(h) <= ReusedRuns(g) && Adds(l, u, r, MarkedOn(was, ReusedRuns(g)))
    decreases |ts|
  {
    if ts != [] {
      var (t, g) := ReadTurn(was, l, caller, ev, ts[0], sent, h, now);
      TurnAdds(was, l, caller, ev, ts[0], sent, h, now, r);
      TurnsAdd(was, t, caller, ev, ts[1..], sent, g, now, r);
    }
  }

  // ---------------------------------------------------------------------------------------
  // The whole load

  ghost predicate TakesExactly(s: ProvenanceModel.State, t: ProvenanceModel.State, r: Id, from: set<Id>, own: set<Key>) {
    && t == TakeIn(s.(ledger := t.ledger), r, from, own)
    && Marked(t.ledger, r) == Marked(s.ledger, r) + MarkedOn(s.ledger, from) + own
  }

  lemma HistoryTakesExactly(s: ProvenanceModel.State, caller: Caller, at: nat, now: int)
    requires at < |s.turns| && s.turns[at].principalId == caller.principalId && s.turns[at].external
    ensures var t := s.turns[at];
            var (l, h) := LoadHistory(s, at, caller, Evidence(Some(t.conversationId), Some(t.id), None), now);
            Marked(l, t.id) == Marked(s.ledger, t.id) + MarkedOn(s.ledger, ReusedRuns(h))
  {
    var r, ev := s.turns[at].id, Evidence(Some(s.turns[at].conversationId), Some(s.turns[at].id), None);
    var found := EarlierTurns(s.turns, s.sent, s.turns[at].conversationId, at, HISTORY_LIMIT + 1);
    var ks := if |found| > HISTORY_LIMIT then found[..HISTORY_LIMIT] else found;
    HistoryIsCarried(s, at, caller, ev, now);
    TurnsAdd(s.ledger, s.ledger, caller, ev, TurnsAt(s.turns, ks), s.sent, NO_HISTORY.(truncated := |found| > HISTORY_LIMIT), now, r);
    MarkedStays(s.ledger, LoadHistory(s, at, caller, ev, now).0, r);
  }

  /** Marks on the reader that are all taken in, with everything taken in marked on the reader. */
  lemma NothingElse(l: Ledger, t: Ledger, r: Id, p: Id, from: set<Id>, own: set<Key>)
    requires Extends(l, t, Some(r), p) && Carries(l, t, from, r) && own <= Marked(t, r)
    requires Adds(l, t, r, own + MarkedOn(l, from))
    ensures Marked(t, r) == Marked(l, r) + MarkedOn(l, from) + own
  {
    MarkedStays(l, t, r);
  }

  lemma StepTakesExactly(s: ProvenanceModel.State, caller: Caller, at: nat, task: Id, deps: seq<Dependency>, now: int)
    requires at < |s.turns| && s.turns[at].principalId == caller.principalId && !s.turns[at].external
    requires LoadRunInput(s, caller, at, true, Some(task), deps, now).1.Loaded?
    ensures OriginSet(s.ledger.env, task).Some?
    ensures TakesExactly(s, LoadRunInput(s, caller, at, true, Some(task), deps, now).0, s.turns[at].id,
                         OriginSet(s.ledger.env, task).value + AllSources(s.ledger.env, deps), AllOwnReads(task, deps))
  {
    var r, ev := s.turns[at].id, Evidence(Some(s.turns[at].conversationId), Some(s.turns[at].id), None);
    StepIsCarried(s, caller, at, task, deps, now);
    StepInputAdds(s.ledger, caller, task, deps, ev, now, r);
    NothingElse(s.ledger, StepInput(s.ledger, caller, task, deps, ev, now).0, r, caller.principalId,
                OriginSet(s.ledger.env, task).value + AllSources(s.ledger.env, deps), AllOwnReads(task, deps));
  }

  /** A load that goes through marks on its Run exactly the marks of the Runs whose text it took in, and its own
      reads: nothing is missing, and nothing is marked that it did not take in. */
  lemma LoadMarksExactlyWhatItTakesIn(s: ProvenanceModel.State, caller: Caller, at: nat, allowed: bool, bound: Option<Id>,
                                      deps: seq<Dependency>, now: int)
    requires at < |s.turns| && LoadRunInput(s, caller, at, allowed, bound, deps, now).1.Loaded?
    ensures exists from: set<Id>, own: set<Key> ::
              TakesExactly(s, LoadRunInput(s, caller, at, allowed, bound, deps, now).0, s.turns[at].id, from, own)
  {
    var turn := s.turns[at];
    var t := LoadRunInput(s, caller, at, allowed, bound, deps, now).0;
    if turn.external {
      HistoryTakesExactly(s, caller, at, now);
      var h := LoadHistory(s, at, caller, Evidence(Some(turn.conversationId), Some(turn.id), None), now).1;
      assert TakesExactly(s, t, turn.id, ReusedRuns(h), {});
    } else {
      StepTakesExactly(s, caller, at, bound.value, deps, now);
    }
  }
}
