/** Whatever text a Run takes in, the sources it came from are marked on that Run. */
module ProvenanceClosure {
  import opened Options
  import opened Auth = AuthModel
  import opened ProvenanceModel
  import opened ProvenanceMarks

  /** Everything marked on these Runs before is carried by the reader now. */
  ghost predicate Carries(l: Ledger, t: Ledger, runs: set<Id>, reader: Id) {
    forall q :: q in runs ==> Marked(l, q) <= Marked(t, reader)
  }

  lemma CarriesOn(l: Ledger, m: Ledger, t: Ledger, u: Ledger, runs: set<Id>, reader: Id)
    requires MarksStay(l, m) && Carries(m, t, runs, reader) && MarksStay(t, u)
    ensures Carries(l, u, runs, reader)
  {
    forall q | q in runs ensures Marked(l, q) <= Marked(u, reader) {
      MarkedStays(l, m, q);
      MarkedStays(t, u, reader);
    }
  }

  // ---------------------------------------------------------------------------------------
  // Task steps

  lemma {:induction false} ReauthorizeAppends(l: Ledger, caller: Caller, ev: Evidence, sources: seq<Source>, now: int)
    ensures l.decisions <= Reauthorize(l, caller, ev, sources, now).0.decisions
    decreases |sources|
  {
    if sources != [] {
      var (t, j) := Evaluate(l, SourceRequest(caller, sources[0], ev), None, now);
      EvaluateAppends(l, SourceRequest(caller, sources[0], ev), None, now);
      if j.verdict.Allow? {
        var u := SetMark(t, |l.decisions|, Classification(sources[0].mark));
        assert l.decisions <= u.decisions;
        ReauthorizeAppends(u, caller, ev, sources[1..], now);
      }
    }
  }

  lemma RunsAreCarried(l: Ledger, caller: Caller, ev: Evidence, runs: set<Id>, now: int, r: Id)
    requires ev.runId == Some(r)
    ensures var (t, progress) := ReauthorizeRuns(l, caller, ev, runs, now);
            && Extends(l, t, Some(r), caller.principalId) && l.decisions <= t.decisions
            && (progress.Ok? ==> Carries(l, t, runs, r))
  {
    var rows := SourceRows(l.decisions, runs, None);
    ExtendsItself(l, Some(r), caller.principalId);
    ReauthorizeDoes(l, caller, ev, rows, now, r);
    ReauthorizeAppends(l, caller, ev, rows, now);
    forall q | q in runs ensures Marked(l, q) <= KeysOf(rows) {
      RowsCoverMarks(l, runs, q);
    }
  }

  lemma InheritedAreCarried(l: Ledger, caller: Caller, ev: Evidence, own: seq<Source>, runs: Option<set<Id>>, now: int, r: Id)
    requires ev.runId == Some(r)
    ensures var (t, progress) := ReadThenInherit(l, caller, ev, own, runs, now);
            && Extends(l, t, Some(r), caller.principalId)
            && (progress.Ok? ==> runs.Some? && KeysOf(own) <= Marked(t, r) && Carries(l, t, runs.value, r))
  {
    var (t, ok) := Inspect(l, caller, ev, own, now);
    InspectAppends(l, caller, ev, own, now);
    if ok && runs.Some? {
      InspectDecides(l, caller, ev, own, now);
      var (u, progress) := ReauthorizeRuns(t, caller, ev, runs.value, now);
      RunsAreCarried(t, caller, ev, runs.value, now, r);
      ExtendsTransitive(l, t, u, Some(r), caller.principalId);
      if progress.Ok? {
        var v := MarkFrom(u, |l.decisions|, own);
        DecidedStays(t, u, |l.decisions|, caller, ev, own);
        MarkFromDoes(u, |l.decisions|, caller, ev, own, r);
        ExtendsTransitive(l, u, v, Some(r), caller.principalId);
        CarriesOn(l, t, u, v, runs.value, r);
      }
    }
  }

  lemma DecidedStays(t: Ledger, u: Ledger, start: nat, caller: Caller, ev: Evidence, own: seq<Source>)
    requires t.decisions <= u.decisions && DecidedInOrder(t, start, caller, ev, own)
    ensures DecidedInOrder(u, start, caller, ev, own)
  {
    forall i | start <= i < start + |own|
      ensures DecidedFor(u.decisions[i], caller, ev, own[i - start]) && u.decisions[i].mark.None?
    {
      assert u.decisions[i] == t.decisions[i];
    }
  }

  ghost predicate DependencyCarried(l: Ledger, t: Ledger, env: Environment, task: Id, d: Dependency, r: Id) {
    OwnReads(task, d) <= Marked(t, r) && Carries(l, t, Sources(env, d), r)
  }

  lemma CheckpointIsCarried(l: Ledger, caller: Caller, ev: Evidence, task: Id, now: int, r: Id)
    requires ev.runId == Some(r)
    ensures var (t, progress) := ReadDependency(l, caller, ev, task, CheckpointResult, now);
            && Extends(l, t, Some(r), caller.principalId)
            && (progress.Ok? ==> DependencyCarried(l, t, l.env, task, CheckpointResult, r))
  {
    ReauthorizeDoes(l, caller, ev, [TaskRead(task)], now, r);
    assert TaskRead(task) in [TaskRead(task)];
  }

  lemma ChildIsCarried(l: Ledger, caller: Caller, ev: Evidence, task: Id, d: Dependency, now: int, r: Id)
    requires ev.runId == Some(r) && d.ChildResult?
    ensures var (t, progress) := ReadDependency(l, caller, ev, task, d, now);
            && Extends(l, t, Some(r), caller.principalId)
            && (progress.Ok? ==> DependencyCarried(l, t, l.env, task, d, r))
  {
    InspectAppends(l, caller, ev, [TaskRead(d.childTask)], now);
    InheritedAreCarried(l, caller, ev, [TaskRead(d.childTask)], Some({d.sourceRun}), now, r);
    assert TaskRead(d.childTask) in [TaskRead(d.childTask)];
  }

  lemma WorkerIsCarried(l: Ledger, caller: Caller, ev: Evidence, task: Id, d: Dependency, now: int, r: Id)
    requires ev.runId == Some(r) && d.WorkerResult?
    ensures var (t, progress) := ReadDependency(l, caller, ev, task, d, now);
            && Extends(l, t, Some(r), caller.principalId)
            && (progress.Ok? ==> DependencyCarried(l, t, l.env, task, d, r))
  {
    var p, child := caller.principalId, if d.ofChild then [TaskRead(d.sourceTask)] else [];
    var t := Inspect(l, caller, ev, child, now).0;
    InspectAppends(l, caller, ev, child, now);
    var delegated := if d.sourceTask == task then ev.(delegatedTaskId := Some(d.sourceTask)) else ev;
    var sources, runs := WorkerReads(d.sourceTask, d.permissions), WorkerRuns(l.env, d);
    InheritedAreCarried(t, caller, delegated, sources, runs, now, r);
    var (u, progress) := ReadThenInherit(t, caller, delegated, sources, runs, now);
    ExtendsTransitive(l, t, u, Some(r), p);
    if progress.Ok? {
      ExtendsItself(u, Some(r), p);
      CarriesOn(l, t, u, u, runs.value, r);
    }
  }

  ghost function WorkerRuns(env: Environment, d: Dependency): Option<set<Id>>
    requires d.WorkerResult?
  {
    if |ReadsOf(d.permissions)| == |d.permissions| then OriginSet(env, d.sourceTask) else None
  }

  lemma RunResultIsCarried(l: Ledger, caller: Caller, ev: Evidence, task: Id, d: Dependency, now: int, r: Id)
    requires ev.runId == Some(r) && d.RunResult?
    ensures var (t, progress) := ReadDependency(l, caller, ev, task, d, now);
            && Extends(l, t, Some(r), caller.principalId)
            && (progress.Ok? ==> DependencyCarried(l, t, l.env, task, d, r))
  {
    var p := caller.principalId;
    ExtendsItself(l, Some(r), p);
    if d.allowed {
      var target := if d.target.Some? then [TaskRead(d.target.value)] else [];
      var (t, ok) := Reauthorize(l, caller, ev, target, now);
      ReauthorizeDoes(l, caller, ev, target, now, r);
      if ok {
        var (u, progress) := ReauthorizeRuns(t, caller, ev, {d.sourceRun}, now);
        RunsAreCarried(t, caller, ev, {d.sourceRun}, now, r);
        ExtendsTransitive(l, t, u, Some(r), p);
        if progress.Ok? {
          var (v, own) := Reauthorize(u, caller, ev, [TaskRead(task)], now);
          ReauthorizeDoes(u, caller, ev, [TaskRead(task)], now, r);
          ExtendsTransitive(l, u, v, Some(r), p);
          MarksStayTransitive(t, u, v);
          MarkedStays(t, v, r);
          CarriesOn(l, t, u, v, {d.sourceRun}, r);
          assert TaskRead(task) in [TaskRead(task)];
          assert d.target.Some? ==> TaskRead(d.target.value) in target;
        }
      }
    }
  }

  lemma DependencyIsCarried(l: Ledger, caller: Caller, ev: Evidence, task: Id, d: Dependency, now: int, r: Id)
    requires ev.runId == Some(r)
    ensures var (t, progress) := ReadDependency(l, caller, ev, task, d, now);
            && Extends(l, t, Some(r), caller.principalId)
            && (progress.Ok? ==> DependencyCarried(l, t, l.env, task, d, r))
  {
    match d
    case CheckpointResult => CheckpointIsCarried(l, caller, ev, task, now, r);
    case ChildResult(_, _, _, _) => ChildIsCarried(l, caller, ev, task, d, now, r);
    case WorkerResult(_, _, _, _) => WorkerIsCarried(l, caller, ev, task, d, now, r);
    case RunResult(_, _, _, _) => RunResultIsCarried(l, caller, ev, task, d, now, r);
    case NoResult(child) =>
      ExtendsItself(l, Some(r), caller.principalId);
      InspectAppends(l, caller, ev, if child.Some? then [TaskRead(child.value)] else [], now);
  }

  lemma DependencyCarriedOn(l: Ledger, m: Ledger, t: Ledger, u: Ledger, env: Environment, task: Id, d: Dependency, r: Id)
    requires MarksStay(l, m) && DependencyCarried(m, t, env, task, d, r) && MarksStay(t, u)
    ensures DependencyCarried(l, u, env, task, d, r)
  {
    CarriesOn(l, m, t, u, Sources(env, d), r);
    MarkedStays(t, u, r);
  }

  lemma {:induction false} DependenciesAreCarried(l: Ledger, caller: Caller, ev: Evidence, task: Id, ds: seq<Dependency>, now: int, r: Id)
    requires ev.runId == Some(r)
    ensures var (t, progress) := ReadDependencies(l, caller, ev, task, ds, now);
            && Extends(l, t, Some(r), caller.principalId)
            && (progress.Ok? ==> forall i :: 0 <= i < |ds| ==> DependencyCarried(l, t, l.env, task, ds[i], r))
    decreases |ds|
  {
    if ds == [] {
      ExtendsItself(l, Some(r), caller.principalId);
    } else {
      var (t, progress) := ReadDependency(l, caller, ev, task, ds[0], now);
      DependencyIsCarried(l, caller, ev, task, ds[0], now, r);
      if progress.Ok? {
        var rest := ds[1..];
        var (u, later) := ReadDependencies(t, caller, ev, task, rest, now);
        DependenciesAreCarried(t, caller, ev, task, rest, now, r);
        ExtendsTransitive(l, t, u, Some(r), caller.principalId);
        if later.Ok? {
          forall i | 0 <= i < |ds| ensures DependencyCarried(l, u, l.env, task, ds[i], r) {
            if i == 0 {
              DependencyCarriedOn(l, l, t, u, l.env, task, ds[0], r);
            } else {
              assert rest[i - 1] == ds[i] && DependencyCarried(t, u, l.env, task, rest[i - 1], r);
              DependencyCarriedOn(l, t, u, u, l.env, task, ds[i], r);
            }
          }
        }
      }
    }
  }

  // ---------------------------------------------------------------------------------------
  // History

  lemma TurnIsCarried(was: Ledger, l: Ledger, caller: Caller, ev: Evidence, t: Turn, sent: seq<SentDelivery>, h: History, now: int,
                      r: Id)
    requires ev.runId == Some(r)
    ensures var (u, g) := ReadTurn(was, l, caller, ev, t, sent, h, now);
            && Extends(l, u, Some(r), caller.principalId)
            && (ReusedRuns(g) == ReusedRuns(h)
                || (ReusedRuns(g) == ReusedRuns(h) + {t.id} && Marked(was, t.id) <= Marked(u, r)))
  {
    var p := caller.principalId;
    ExtendsItself(l, Some(r), p);
    if GrantsStand(was, t.id) {
      var sources := SourceRows(was.decisions, {t.id}, None);
      var (checked, permitted) := Inspect(l, caller, ev, sources, now);
      InspectAppends(l, caller, ev, sources, now);
      if permitted {
        InspectDecides(l, caller, ev, sources, now);
        var u := MarkFrom(checked, |l.decisions|, sources);
        MarkFromDoes(checked, |l.decisions|, caller, ev, sources, r);
        ExtendsTransitive(l, checked, u, Some(r), p);
        RowsCoverMarks(was, {t.id}, t.id);
        OneMoreReused(h, t, ReadTurn(was, l, caller, ev, t, sent, h, now).1);
      }
    }
  }

  lemma OneMoreReused(h: History, t: Turn, g: History)
    requires g.exchanges == h.exchanges
             || exists e: Exchange :: e.runId == t.id && g.exchanges == h.exchanges + [e]
    ensures ReusedRuns(g) == ReusedRuns(h) || ReusedRuns(g) == ReusedRuns(h) + {t.id}
  {
    if g.exchanges != h.exchanges {
      var e: Exchange :| e.runId == t.id && g.exchanges == h.exchanges + [e];
      assert forall x :: x in g.exchanges <==> x in h.exchanges || x == e;
      assert e in g.exchanges;
    }
  }

  lemma {:induction false} TurnsAreCarried(was: Ledger, l: Ledger, caller: Caller, ev: Evidence, ts: seq<Turn>, sent: seq<SentDelivery>,
                                           h: History, now: int, r: Id)
    requires ev.runId == Some(r) && Carries(was, l, ReusedRuns(h), r)
    ensures var (u, g) := ReadTurns(was, l, caller, ev, ts, sent, h, now);
            Extends(l, u, Some(r), caller.principalId) && Carries(was, u, ReusedRuns(g), r)
    decreases |ts|
  {
    if ts == [] {
      ExtendsItself(l, Some(r), caller.principalId);
    } else {
      var (t, g) := ReadTurn(was, l, caller, ev, ts[0], sent, h, now);
      TurnIsCarried(was, l, caller, ev, ts[0], sent, h, now, r);
      MarkedStays(l, t, r);
      TurnsAreCarried(was, t, caller, ev, ts[1..], sent, g, now, r);
      ExtendsTransitive(l, t, ReadTurns(was, t, caller, ev, ts[1..], sent, g, now).0, Some(r), caller.principalId);
    }
  }

  // ---------------------------------------------------------------------------------------
  // Loading

  /** What a load leaves: marks only by this Run's principal on this Run, and when text was taken in,
      everything its sources were marked with, on this Run too. */
  lemma LoadCarriesItsSources(s: ProvenanceModel.State, caller: Caller, at: nat, allowed: bool, bound: Option<Id>,
                              deps: seq<Dependency>, now: int)
    requires at < |s.turns|
    ensures var (t, out) := LoadRunInput(s, caller, at, allowed, bound, deps, now);
            var r := s.turns[at].id;
            && Extends(s.ledger, t.ledger, Some(r), caller.principalId)
            && t.turns == s.turns && t.sent == s.sent
            && (t.ledger != s.ledger ==> s.turns[at].principalId == caller.principalId)
            && (if out.Loaded? then
                  exists from: set<Id>, own: set<Key> ::
                    t == TakeIn(s.(ledger := t.ledger), r, from, own) && Carries(s.ledger, t.ledger, from, r) && own <= Marked(t.ledger, r)
                else t == s.(ledger := t.ledger))
  {
    var turn := s.turns[at];
    var p := caller.principalId;
    ExtendsItself(s.ledger, Some(turn.id), p);
    if allowed && turn.principalId == p {
      var ev := Evidence(Some(turn.conversationId), Some(turn.id), None);
      if turn.external {
        HistoryIsCarried(s, at, caller, ev, now);
      } else if bound.Some? {
        StepIsCarried(s, caller, at, bound.value, deps, now);
      }
    }
  }

  lemma HistoryIsCarried(s: ProvenanceModel.State, at: nat, caller: Caller, ev: Evidence, now: int)
    requires at < |s.turns| && ev.runId == Some(s.turns[at].id)
    ensures var (l, h) := LoadHistory(s, at, caller, ev, now);
            Extends(s.ledger, l, ev.runId, caller.principalId) && Carries(s.ledger, l, ReusedRuns(h), s.turns[at].id)
  {
    var found := EarlierTurns(s.turns, s.sent, s.turns[at].conversationId, at, HISTORY_LIMIT + 1);
    var ks := if |found| > HISTORY_LIMIT then found[..HISTORY_LIMIT] else found;
    var none := NO_HISTORY.(truncated := |found| > HISTORY_LIMIT);
    assert ReusedRuns(none) == {};
    TurnsAreCarried(s.ledger, s.ledger, caller, ev, TurnsAt(s.turns, ks), s.sent, none, now, s.turns[at].id);
  }

  lemma StepIsCarried(s: ProvenanceModel.State, caller: Caller, at: nat, task: Id, deps: seq<Dependency>, now: int)
    requires at < |s.turns| && s.turns[at].principalId == caller.principalId && !s.turns[at].external
    ensures var (t, out) := LoadRunInput(s, caller, at, true, Some(task), deps, now);
            var r := s.turns[at].id;
            && Extends(s.ledger, t.ledger, Some(r), caller.principalId)
            && (out.Loaded? ==>
                  var origin := OriginSet(s.ledger.env, task);
                  var own := AllOwnReads(task, deps);
                  && origin.Some? && own <= Marked(t.ledger, r)
                  && var from := origin.value + AllSources(s.ledger.env, deps);
                     Carries(s.ledger, t.ledger, from, r) && t == TakeIn(s.(ledger := t.ledger), r, from, own))
  {
    var r, p := s.turns[at].id, caller.principalId;
    var ev := Evidence(Some(s.turns[at].conversationId), Some(r), None);
    var origin := OriginSet(s.ledger.env, task);
    ExtendsItself(s.ledger, Some(r), p);
    if origin.Some? {
      var (l, first) := ReauthorizeRuns(s.ledger, caller, ev, origin.value, now);
      RunsAreCarried(s.ledger, caller, ev, origin.value, now, r);
      if first.Ok? {
        var (m, rest) := ReadDependencies(l, caller, ev, task, deps, now);
        DependenciesAreCarried(l, caller, ev, task, deps, now, r);
        ExtendsTransitive(s.ledger, l, m, Some(r), p);
        if rest.Ok? {
          CarriesOn(s.ledger, s.ledger, l, m, origin.value, r);
          AllAreCarried(s.ledger, l, m, task, deps, r);
        }
      }
    }
  }

  lemma AllAreCarried(s: Ledger, l: Ledger, m: Ledger, task: Id, deps: seq<Dependency>, r: Id)
    requires MarksStay(s, l) && l.env == s.env
    requires forall i :: 0 <= i < |deps| ==> DependencyCarried(l, m, l.env, task, deps[i], r)
    ensures AllOwnReads(task, deps) <= Marked(m, r) && Carries(s, m, AllSources(s.env, deps), r)
  {
    forall d | d in deps ensures DependencyCarried(l, m, l.env, task, d, r) {
      var i :| 0 <= i < |deps| && deps[i] == d;
    }
    forall q | q in AllSources(s.env, deps) ensures Marked(s, q) <= Marked(m, r) {
      var d :| d in deps && q in Sources(s.env, d);
      assert DependencyCarried(l, m, l.env, task, d, r);
      MarkedStays(s, l, q);
    }
  }
}
