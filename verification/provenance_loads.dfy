/** A whole load at once: what it gives a Run is what the ledger allows at its beginning. */
module ProvenanceLoads {
  import opened Options
  import opened Auth = AuthModel
  import opened ProvenanceModel
  import opened ProvenanceMarks
  import opened ProvenanceClosure
  import opened ProvenanceHistory
  import opened ProvenanceDependencies

  // ---------------------------------------------------------------------------------------
  // Within one load

  /** Since the load began, decisions were only added, for its own Run, and nobody's verdict changed. */
  ghost predicate Within(base: Ledger, t: Ledger, caller: Caller, r: Id, now: int) {
    && base.decisions <= t.decisions && t.env == base.env && t.grants == base.grants
    && (forall i :: |base.decisions| <= i < |t.decisions| ==> t.decisions[i].runId == Some(r))
    && forall ev :: SameVerdicts(base, t, caller, ev, now)
  }

  lemma ReadStaysWithin(base: Ledger, l: Ledger, caller: Caller, ev: Evidence, src: Source, now: int, r: Id)
    requires Within(base, l, caller, r, now) && ev.runId == Some(r)
    ensures var t := Evaluate(l, SourceRequest(caller, src, ev), None, now).0;
            Within(base, t, caller, r, now) && Within(base, SetMark(t, |l.decisions|, Classification(src.mark)), caller, r, now)
  {
    var t := Evaluate(l, SourceRequest(caller, src, ev), None, now).0;
    var u := SetMark(t, |l.decisions|, Classification(src.mark));
    EvaluateAppends(l, SourceRequest(caller, src, ev), None, now);
    forall other ensures SameVerdicts(base, t, caller, other, now) && SameVerdicts(base, u, caller, other, now) {
      OneReadIsStable(l, caller, ev, src, other, now);
      assert SameVerdicts(base, l, caller, other, now);
    }
  }

  lemma {:induction false} InspectStaysWithin(base: Ledger, l: Ledger, caller: Caller, ev: Evidence, sources: seq<Source>, now: int, r: Id)
    requires Within(base, l, caller, r, now) && ev.runId == Some(r)
    ensures Within(base, Inspect(l, caller, ev, sources, now).0, caller, r, now)
    decreases |sources|
  {
    if sources != [] {
      ReadStaysWithin(base, l, caller, ev, sources[0], now, r);
      InspectStaysWithin(base, Evaluate(l, SourceRequest(caller, sources[0], ev), None, now).0, caller, ev, sources[1..], now, r);
    }
  }

  lemma {:induction false} ReauthorizeStaysWithin(base: Ledger, l: Ledger, caller: Caller, ev: Evidence, sources: seq<Source>, now: int,
                                                  r: Id)
    requires Within(base, l, caller, r, now) && ev.runId == Some(r)
    ensures Within(base, Reauthorize(l, caller, ev, sources, now).0, caller, r, now)
    decreases |sources|
  {
    if sources != [] {
      var t := Evaluate(l, SourceRequest(caller, sources[0], ev), None, now).0;
      ReadStaysWithin(base, l, caller, ev, sources[0], now, r);
      ReauthorizeStaysWithin(base, SetMark(t, |l.decisions|, Classification(sources[0].mark)), caller, ev, sources[1..], now, r);
    }
  }

  lemma MarkStaysWithin(base: Ledger, l: Ledger, caller: Caller, i: nat, m: Mark, now: int, r: Id)
    requires Within(base, l, caller, r, now) && i >= |base.decisions|
    ensures Within(base, SetMark(l, i, m), caller, r, now)
  {
    var t := SetMark(l, i, m);
    forall ev ensures SameVerdicts(base, t, caller, ev, now) {
      assert SameVerdicts(base, l, caller, ev, now);
      forall src ensures Readable(t, caller, ev, src, now) <==> Readable(l, caller, ev, src, now) {
        MarkIsStable(l, i, m, SourceRequest(caller, src, ev), now);
      }
    }
  }

  lemma {:induction false} MarkFromStaysWithin(base: Ledger, l: Ledger, caller: Caller, start: nat, sources: seq<Source>, now: int, r: Id)
    requires Within(base, l, caller, r, now) && start >= |base.decisions|
    ensures Within(base, MarkFrom(l, start, sources), caller, r, now)
    decreases |sources|
  {
    if sources != [] {
      MarkStaysWithin(base, l, caller, start, Classification(sources[0].mark), now, r);
      MarkFromStaysWithin(base, SetMark(l, start, Classification(sources[0].mark)), caller, start + 1, sources[1..], now, r);
    }
  }

  lemma RunsStayWithin(base: Ledger, l: Ledger, caller: Caller, ev: Evidence, runs: set<Id>, now: int, r: Id)
    requires Within(base, l, caller, r, now) && ev.runId == Some(r)
    ensures Within(base, ReauthorizeRuns(l, caller, ev, runs, now).0, caller, r, now)
  {
    ReauthorizeStaysWithin(base, l, caller, ev, SourceRows(l.decisions, runs, None), now, r);
  }

  lemma InheritingStaysWithin(base: Ledger, l: Ledger, caller: Caller, ev: Evidence, own: seq<Source>, runs: Option<set<Id>>, now: int,
                              r: Id)
    requires Within(base, l, caller, r, now) && ev.runId == Some(r)
    ensures Within(base, ReadThenInherit(l, caller, ev, own, runs, now).0, caller, r, now)
  {
    var t := Inspect(l, caller, ev, own, now).0;
    InspectStaysWithin(base, l, caller, ev, own, now, r);
    if runs.Some? {
      var u := ReauthorizeRuns(t, caller, ev, runs.value, now).0;
      RunsStayWithin(base, t, caller, ev, runs.value, now, r);
      MarkFromStaysWithin(base, u, caller, |l.decisions|, own, now, r);
    }
  }

  lemma DependencyStaysWithin(base: Ledger, l: Ledger, caller: Caller, ev: Evidence, task: Id, d: Dependency, now: int, r: Id)
    requires Within(base, l, caller, r, now) && ev.runId == Some(r)
    ensures Within(base, ReadDependency(l, caller, ev, task, d, now).0, caller, r, now)
  {
    match d
    case NoResult(child) =>
      if child.Some? {
        InspectStaysWithin(base, l, caller, ev, [TaskRead(child.value)], now, r);
      }
    case CheckpointResult => ReauthorizeStaysWithin(base, l, caller, ev, [TaskRead(task)], now, r);
    case RunResult(sourceRun, target, allowed, ready) =>
      var own := if target.Some? then [TaskRead(target.value)] else [];
      var t := Reauthorize(l, caller, ev, own, now).0;
      ReauthorizeStaysWithin(base, l, caller, ev, own, now, r);
      RunsStayWithin(base, t, caller, ev, {sourceRun}, now, r);
      ReauthorizeStaysWithin(base, ReauthorizeRuns(t, caller, ev, {sourceRun}, now).0, caller, ev, [TaskRead(task)], now, r);
    case ChildResult(childTask, sourceRun, allowed, ready) =>
      InspectStaysWithin(base, l, caller, ev, [TaskRead(childTask)], now, r);
      InheritingStaysWithin(base, l, caller, ev, [TaskRead(childTask)], Some({sourceRun}), now, r);
    case WorkerResult(sourceTask, permissions, ofChild, ready) =>
      var child := if ofChild then [TaskRead(sourceTask)] else [];
      InspectStaysWithin(base, l, caller, ev, child, now, r);
      InheritingStaysWithin(base, Inspect(l, caller, ev, child, now).0, caller,
                            if sourceTask == task then ev.(delegatedTaskId := Some(sourceTask)) else ev,
                            WorkerReads(sourceTask, permissions), WorkerRuns(l.env, d), now, r);
  }

  /** What other Runs are marked with is as it was. */
  lemma OthersInheritAlike(base: Ledger, l: Ledger, caller: Caller, ev: Evidence, runs: set<Id>, now: int, r: Id)
    requires Within(base, l, caller, r, now) && r !in runs
    ensures MayInherit(l, caller, ev, runs, now) <==> MayInherit(base, caller, ev, runs, now)
  {
    AppendedAddNoRow(base.decisions, l.decisions, runs);
    SameMayInherit(base, l, caller, ev, runs, now);
  }

  lemma MayAlike(base: Ledger, l: Ledger, caller: Caller, ev: Evidence, resource: Id, action: string, now: int, r: Id)
    requires Within(base, l, caller, r, now)
    ensures May(l, caller, ev, resource, action, Some(NoCondition), now)
            <==> May(base, caller, ev, resource, action, Some(NoCondition), now)
  {
    var src := Source(resource, action, ContentSource, Some(NoCondition));
    assert SameVerdicts(base, l, caller, ev, now);
    assert Readable(l, caller, ev, src, now) <==> Readable(base, caller, ev, src, now);
    ReadableIsMay(l, caller, ev, src, now);
    ReadableIsMay(base, caller, ev, src, now);
  }

  lemma MayTaskAlike(base: Ledger, l: Ledger, caller: Caller, ev: Evidence, task: Id, now: int, r: Id)
    requires Within(base, l, caller, r, now)
    ensures MayTask(l, caller, ev, task, now) <==> MayTask(base, caller, ev, task, now)
  {
    MayAlike(base, l, caller, ev, "task-" + task, "task:read", now, r);
  }

  // ---------------------------------------------------------------------------------------
  // A Task step

  /** What the worker was permitted is a source of content, and the reader may read it. */
  ghost predicate MayAsReader(l: Ledger, caller: Caller, at: Evidence, p: Permission, now: int) {
    ReaderAction(p).Some? && May(l, caller, at, p.resourceId, ReaderAction(p).value, Some(NoCondition), now)
  }

  /** What a dependency's result asks for. */
  ghost predicate Passes(l: Ledger, caller: Caller, ev: Evidence, task: Id, d: Dependency, now: int) {
    match d
    case NoResult(child) => child.Some? ==> MayTask(l, caller, ev, child.value, now)
    case CheckpointResult => MayTask(l, caller, ev, task, now)
    case RunResult(sourceRun, target, allowed, ready) =>
      && ready && allowed && (target.Some? ==> MayTask(l, caller, ev, target.value, now)) && MayTask(l, caller, ev, task, now)
      && MayInherit(l, caller, ev, {sourceRun}, now)
    case ChildResult(childTask, sourceRun, allowed, ready) =>
      ready && allowed && MayTask(l, caller, ev, childTask, now) && MayInherit(l, caller, ev, {sourceRun}, now)
    case WorkerResult(sourceTask, permissions, ofChild, ready) =>
      var at := if sourceTask == task then ev.(delegatedTaskId := Some(task)) else ev;
      && ready && (ofChild ==> MayTask(l, caller, ev, sourceTask, now)) && MayTask(l, caller, at, sourceTask, now)
      && May(l, caller, at, "task-" + sourceTask, "worker:read", Some(NoCondition), now)
      && (forall p :: p in permissions ==> MayAsReader(l, caller, at, p, now))
      && OriginSet(l.env, sourceTask).Some? && MayInherit(l, caller, at, OriginSet(l.env, sourceTask).value, now)
  }

  lemma PassesExactlyWhen(l: Ledger, caller: Caller, ev: Evidence, task: Id, d: Dependency, now: int)
    requires d.RunResult? ==> ev.runId != Some(d.sourceRun)
    ensures ReadDependency(l, caller, ev, task, d, now).1.Ok? <==> Passes(l, caller, ev, task, d, now)
  {
    match d
    case NoResult(_) => OthersPassExactlyWhen(l, caller, ev, task, d, now);
    case CheckpointResult => OthersPassExactlyWhen(l, caller, ev, task, d, now);
    case RunResult(_, _, _, _) => RunsPassExactlyWhen(l, caller, ev, task, d, now);
    case ChildResult(_, _, _, _) => ChildrenPassExactlyWhen(l, caller, ev, task, d, now);
    case WorkerResult(_, _, _, _) => WorkersPassExactlyWhen(l, caller, ev, task, d, now);
  }

  lemma WorkerPassesAlike(base: Ledger, l: Ledger, caller: Caller, ev: Evidence, task: Id, d: Dependency, now: int, r: Id)
    requires d.WorkerResult? && Within(base, l, caller, r, now) && r !in Sources(base.env, d)
    ensures Passes(l, caller, ev, task, d, now) <==> Passes(base, caller, ev, task, d, now)
  {
    var at := if d.sourceTask == task then ev.(delegatedTaskId := Some(task)) else ev;
    MayTaskAlike(base, l, caller, ev, d.sourceTask, now, r);
    MayTaskAlike(base, l, caller, at, d.sourceTask, now, r);
    MayAlike(base, l, caller, at, "task-" + d.sourceTask, "worker:read", now, r);
    forall p | p in d.permissions ensures MayAsReader(l, caller, at, p, now) <==> MayAsReader(base, caller, at, p, now) {
      if ReaderAction(p).Some? {
        MayAlike(base, l, caller, at, p.resourceId, ReaderAction(p).value, now, r);
      }
    }
    if OriginSet(base.env, d.sourceTask).Some? {
      OthersInheritAlike(base, l, caller, at, OriginSet(base.env, d.sourceTask).value, now, r);
    }
  }

  lemma PassesAlike(base: Ledger, l: Ledger, caller: Caller, ev: Evidence, task: Id, d: Dependency, now: int, r: Id)
    requires Within(base, l, caller, r, now) && r !in Sources(base.env, d)
    ensures Passes(l, caller, ev, task, d, now) <==> Passes(base, caller, ev, task, d, now)
  {
    match d
    case WorkerResult(_, _, _, _) => WorkerPassesAlike(base, l, caller, ev, task, d, now, r);
    case RunResult(sourceRun, target, _, _) =>
      MayTaskAlike(base, l, caller, ev, task, now, r);
      MayTaskAlike(base, l, caller, ev, if target.Some? then target.value else task, now, r);
      OthersInheritAlike(base, l, caller, ev, {sourceRun}, now, r);
    case ChildResult(childTask, sourceRun, _, _) =>
      MayTaskAlike(base, l, caller, ev, childTask, now, r);
      OthersInheritAlike(base, l, caller, ev, {sourceRun}, now, r);
    case CheckpointResult => MayTaskAlike(base, l, caller, ev, task, now, r);
    case NoResult(child) => MayTaskAlike(base, l, caller, ev, if child.Some? then child.value else task, now, r);
  }

  lemma {:induction false} DependenciesPassExactlyWhen(base: Ledger, l: Ledger, caller: Caller, ev: Evidence, task: Id, ds: seq<Dependency>,
                                                       now: int, r: Id)
    requires Within(base, l, caller, r, now) && ev.runId == Some(r) && forall d :: d in ds ==> r !in Sources(base.env, d)
    ensures ReadDependencies(l, caller, ev, task, ds, now).1.Ok? <==> forall d :: d in ds ==> Passes(base, caller, ev, task, d, now)
    decreases |ds|
  {
    if ds != [] {
      assert ds[0] in ds && forall d :: d in ds <==> d == ds[0] || d in ds[1..];
      PassesExactlyWhen(l, caller, ev, task, ds[0], now);
      PassesAlike(base, l, caller, ev, task, ds[0], now, r);
      DependencyStaysWithin(base, l, caller, ev, task, ds[0], now, r);
      DependenciesPassExactlyWhen(base, ReadDependency(l, caller, ev, task, ds[0], now).0, caller, ev, task, ds[1..], now, r);
    }
  }

  /** Everything a Task step's input asks for. */
  ghost predicate MayStart(l: Ledger, caller: Caller, ev: Evidence, task: Id, deps: seq<Dependency>, now: int) {
    && OriginSet(l.env, task).Some? && MayInherit(l, caller, ev, OriginSet(l.env, task).value, now)
    && forall d :: d in deps ==> Passes(l, caller, ev, task, d, now)
  }

  /** A Task step is given its input if and only if its Task's origin is known, everything marked on the Runs it came from
      may be read now, and each dependency passes; all of it as the ledger stands when the load begins, whatever the order.
      No Run takes in its own text. */
  lemma StepsLoadExactlyWhen(l: Ledger, caller: Caller, task: Id, deps: seq<Dependency>, ev: Evidence, now: int, r: Id)
    requires ev.runId == Some(r) && forall d :: d in deps ==> r !in Sources(l.env, d)
    ensures StepInput(l, caller, task, deps, ev, now).1.Ok? <==> MayStart(l, caller, ev, task, deps, now)
  {
    if OriginSet(l.env, task).Some? {
      var origin := OriginSet(l.env, task).value;
      assert Within(l, l, caller, r, now);
      InheritsExactlyWhen(l, caller, ev, origin, now);
      RunsStayWithin(l, l, caller, ev, origin, now, r);
      DependenciesPassExactlyWhen(l, ReauthorizeRuns(l, caller, ev, origin, now).0, caller, ev, task, deps, now, r);
    }
  }

  // ---------------------------------------------------------------------------------------
  // A history

  /** What a reader may be shown as this turn's answer. */
  ghost predicate Shows(t: Turn, sent: seq<SentDelivery>, caller: Caller, x: string) {
    if exists i: nat :: DeliveredAt(sent, i, t.id, caller.scope) then
      exists i: nat :: Newest(sent, i, t.id, caller.scope) && sent[i].payloadText == x
    else t.status != Lifecycle.RunStatus.Failed && t.principalId == caller.principalId && t.resultText == Some(x) && x != ""
  }

  /** Every grant the turn was allowed something under stands, everything marked on it may be read now, and there is a
      question and an answer to show. */
  ghost predicate MayTell(l: Ledger, caller: Caller, ev: Evidence, t: Turn, sent: seq<SentDelivery>, now: int) {
    && StillGranted(l, t.id) && t.inputText.Some? && (exists x :: Shows(t, sent, caller, x))
    && forall src :: src in MarkedSources(l, {t.id}) ==> May(l, caller, ev, src.resourceId, src.action, src.condition, now)
  }

  /** Newest first: each turn that may be told and still fits, and those that only lack room. */
  ghost predicate Fills(l: Ledger, caller: Caller, ev: Evidence, ts: seq<Turn>, sent: seq<SentDelivery>, now: int, room: int,
                        told: seq<Exchange>, omitted: seq<Id>)
    decreases |ts|
  {
    if ts == [] then told == [] && omitted == []
    else if !MayTell(l, caller, ev, ts[0], sent, now) then Fills(l, caller, ev, ts[1..], sent, now, room, told, omitted)
    else exists x {:trigger Shows(ts[0], sent, caller, x)} ::
      && Shows(ts[0], sent, caller, x)
      && if |ts[0].inputText.value| + |x| > room then
           omitted != [] && omitted[0] == ts[0].id && Fills(l, caller, ev, ts[1..], sent, now, room, told, omitted[1..])
         else
           && told != [] && told[0] == Exchange(ts[0].id, ts[0].inputText.value, x, ts[0].principalId)
           && Fills(l, caller, ev, ts[1..], sent, now, room - |ts[0].inputText.value| - |x|, told[1..], omitted)
  }

  lemma StandingExactly(l: Ledger, runId: Id)
    ensures GrantsStand(l, runId) <==> StillGranted(l, runId)
  {
    if GrantsStand(l, runId) {
      StandingIsStillGranted(l, runId);
    }
    if StillGranted(l, runId) {
      var i: nat :| i < |l.decisions| && GrantedAt(l, i, runId);
      assert l.decisions[i] in l.decisions && UsesGrant(l, l.decisions[i], runId);
      forall d | d in l.decisions && UsesGrant(l, d, runId) ensures !l.grants[d.grant.value].revoked {
        var k :| 0 <= k < |l.decisions| && l.decisions[k] == d;
        assert GrantedAt(l, k, runId);
      }
    }
  }

  lemma ShowsExactly(t: Turn, sent: seq<SentDelivery>, caller: Caller)
    ensures forall x :: Shows(t, sent, caller, x) <==> AnswerFor(t, sent, caller) == Some(x)
  {
    forall x ensures Shows(t, sent, caller, x) <==> AnswerFor(t, sent, caller) == Some(x) {
      AnswersAreExact(t, sent, caller, x);
    }
  }

  lemma RowsReadableExactly(base: Ledger, l: Ledger, caller: Caller, ev: Evidence, runs: set<Id>, now: int, r: Id)
    requires Within(base, l, caller, r, now)
    ensures AllReadable(l, caller, ev, SourceRows(base.decisions, runs, None), now) <==>
            forall src :: src in MarkedSources(base, runs) ==> May(base, caller, ev, src.resourceId, src.action, src.condition, now)
  {
    var rows := SourceRows(base.decisions, runs, None);
    RowsAreTheMarked(base, runs);
    assert SameVerdicts(base, l, caller, ev, now);
    forall src ensures Readable(l, caller, ev, src, now) <==> May(base, caller, ev, src.resourceId, src.action, src.condition, now) {
      ReadableIsMay(base, caller, ev, src, now);
    }
    if AllReadable(l, caller, ev, rows, now) {
      forall src | src in MarkedSources(base, runs) ensures May(base, caller, ev, src.resourceId, src.action, src.condition, now) {
        assert src in rows;
        var i :| 0 <= i < |rows| && rows[i] == src;
        assert Readable(l, caller, ev, rows[i], now);
      }
    }
  }

  lemma MayTellExactly(base: Ledger, l: Ledger, caller: Caller, ev: Evidence, t: Turn, sent: seq<SentDelivery>, now: int, r: Id)
    requires Within(base, l, caller, r, now)
    ensures MayRead(base, l, caller, ev, t, sent, now) <==> MayTell(base, caller, ev, t, sent, now)
  {
    StandingExactly(base, t.id);
    ShowsExactly(t, sent, caller);
    RowsReadableExactly(base, l, caller, ev, {t.id}, now, r);
    if AnswerFor(t, sent, caller).Some? {
      assert Shows(t, sent, caller, AnswerFor(t, sent, caller).value);
    }
  }

  lemma TurnStaysWithin(base: Ledger, l: Ledger, caller: Caller, ev: Evidence, t: Turn, sent: seq<SentDelivery>, h: History, now: int,
                        r: Id)
    requires Within(base, l, caller, r, now) && ev.runId == Some(r)
    ensures Within(base, ReadTurn(base, l, caller, ev, t, sent, h, now).0, caller, r, now)
  {
    var sources := SourceRows(base.decisions, {t.id}, None);
    var u := Inspect(l, caller, ev, sources, now).0;
    InspectStaysWithin(base, l, caller, ev, sources, now, r);
    MarkFromStaysWithin(base, u, caller, |l.decisions|, sources, now, r);
  }

  /** What one turn adds. */
  ghost predicate Adds(l: Ledger, caller: Caller, ev: Evidence, t: Turn, sent: seq<SentDelivery>, now: int, h: History, g: History) {
    if !MayTell(l, caller, ev, t, sent, now) then g == h
    else
      exists x {:trigger Shows(t, sent, caller, x)} ::
        && Shows(t, sent, caller, x)
        && var size := |t.inputText.value| + |x|;
           if h.chars + size > 1_000_000 then g == h.(omitted := h.omitted + [t.id], truncated := true)
           else g == h.(exchanges := h.exchanges + [Exchange(t.id, t.inputText.value, x, t.principalId)], chars := h.chars + size)
  }

  lemma TurnAdds(base: Ledger, l: Ledger, caller: Caller, ev: Evidence, t: Turn, sent: seq<SentDelivery>, h: History, now: int, r: Id)
    requires Within(base, l, caller, r, now)
    ensures Adds(base, caller, ev, t, sent, now, h, ReadTurn(base, l, caller, ev, t, sent, h, now).1)
  {
    TurnIsGivenExactlyWhen(base, l, caller, ev, t, sent, h, now);
    MayTellExactly(base, l, caller, ev, t, sent, now, r);
    if MayTell(base, caller, ev, t, sent, now) {
      ShowsExactly(t, sent, caller);
      assert Shows(t, sent, caller, AnswerFor(t, sent, caller).value);
    }
  }

  lemma AddingFills(l: Ledger, caller: Caller, ev: Evidence, ts: seq<Turn>, sent: seq<SentDelivery>, now: int, h: History, g: History,
                    f: History)
    requires ts != [] && Adds(l, caller, ev, ts[0], sent, now, h, g) && g.exchanges <= f.exchanges && g.omitted <= f.omitted
    requires Fills(l, caller, ev, ts[1..], sent, now, 1_000_000 - g.chars, f.exchanges[|g.exchanges|..], f.omitted[|g.omitted|..])
    ensures h.exchanges <= f.exchanges && h.omitted <= f.omitted
    ensures Fills(l, caller, ev, ts, sent, now, 1_000_000 - h.chars, f.exchanges[|h.exchanges|..], f.omitted[|h.omitted|..])
  {
    if MayTell(l, caller, ev, ts[0], sent, now) {
      var x :| Shows(ts[0], sent, caller, x)
               && var size := |ts[0].inputText.value| + |x|;
                  if h.chars + size > 1_000_000 then g == h.(omitted := h.omitted + [ts[0].id], truncated := true)
                  else g == h.(exchanges := h.exchanges + [Exchange(ts[0].id, ts[0].inputText.value, x, ts[0].principalId)],
                               chars := h.chars + size);
      if h.chars + |ts[0].inputText.value| + |x| > 1_000_000 {
        OneFromTheFront(h.omitted, f.omitted, ts[0].id);
      } else {
        OneFromTheFront(h.exchanges, f.exchanges, Exchange(ts[0].id, ts[0].inputText.value, x, ts[0].principalId));
      }
    }
  }

  lemma OneFromTheFront<T>(before: seq<T>, all: seq<T>, x: T)
    requires before + [x] <= all
    ensures before <= all && all[|before|..] != [] && all[|before|..][0] == x && all[|before|..][1..] == all[|before + [x]|..]
  {
    assert all[|before|] == (before + [x])[|before|];
  }

  /** A load fills its history as the ledger stands when the load begins, whatever it records and marks on the way. */
  lemma {:induction false} TurnsFillExactly(base: Ledger, l: Ledger, caller: Caller, ev: Evidence, ts: seq<Turn>, sent: seq<SentDelivery>,
                                            h: History, now: int, r: Id)
    requires Within(base, l, caller, r, now) && ev.runId == Some(r)
    ensures var g := ReadTurns(base, l, caller, ev, ts, sent, h, now).1;
            && h.exchanges <= g.exchanges && h.omitted <= g.omitted
            && Fills(base, caller, ev, ts, sent, now, 1_000_000 - h.chars, g.exchanges[|h.exchanges|..], g.omitted[|h.omitted|..])
    decreases |ts|
  {
    if ts != [] {
      var (t, g) := ReadTurn(base, l, caller, ev, ts[0], sent, h, now);
      TurnAdds(base, l, caller, ev, ts[0], sent, h, now, r);
      TurnStaysWithin(base, l, caller, ev, ts[0], sent, h, now, r);
      TurnsFillExactly(base, t, caller, ev, ts[1..], sent, g, now, r);
      AddingFills(base, caller, ev, ts, sent, now, h, g, ReadTurns(base, t, caller, ev, ts[1..], sent, g, now).1);
    }
  }

  lemma {:induction false} TruncationIsSaid(was: Ledger, l: Ledger, caller: Caller, ev: Evidence, ts: seq<Turn>, sent: seq<SentDelivery>,
                                            h: History, now: int)
    ensures var g := ReadTurns(was, l, caller, ev, ts, sent, h, now).1;
            |h.omitted| <= |g.omitted| && (g.truncated <==> h.truncated || |g.omitted| > |h.omitted|)
    decreases |ts|
  {
    if ts != [] {
      var (t, g) := ReadTurn(was, l, caller, ev, ts[0], sent, h, now);
      TruncationIsSaid(was, t, caller, ev, ts[1..], sent, g, now);
    }
  }

  // ---------------------------------------------------------------------------------------
  // The candidates

  /** An earlier turn of the Conversation that may come up at all. */
  ghost predicate MayComeUp(turns: seq<Turn>, sent: seq<SentDelivery>, conversationId: Id, k: nat) {
    && k < |turns| && turns[k].conversationId == conversationId && turns[k].external && !turns[k].excluded && turns[k].resultText.Some?
    && (turns[k].status == Lifecycle.RunStatus.Succeeded
        || (turns[k].status == Lifecycle.RunStatus.Failed && exists i :: 0 <= i < |sent| && sent[i].runId == turns[k].id))
  }

  /** These are the newest ones before `at`, newest first, and no more than 256. */
  ghost predicate NewestOnes(turns: seq<Turn>, sent: seq<SentDelivery>, at: nat, ks: seq<nat>)
    requires at < |turns|
  {
    && |ks| <= 256 && (forall i, j :: 0 <= i < j < |ks| ==> ks[i] > ks[j])
    && (forall i :: 0 <= i < |ks| ==> ks[i] < at && MayComeUp(turns, sent, turns[at].conversationId, ks[i]))
    && forall k: nat :: k < at && MayComeUp(turns, sent, turns[at].conversationId, k) && k !in ks ==>
         |ks| == 256 && forall i :: 0 <= i < |ks| ==> ks[i] > k
  }

  lemma ComesUpExactly(turns: seq<Turn>, sent: seq<SentDelivery>, conversationId: Id, k: nat)
    requires k < |turns|
    ensures Reusable(turns[k], conversationId, sent) <==> MayComeUp(turns, sent, conversationId, k)
  {
    if WasSent(sent, turns[k].id) {
      var d :| d in sent && d.runId == turns[k].id;
      var i :| 0 <= i < |sent| && sent[i] == d;
    }
    if i :| 0 <= i < |sent| && sent[i].runId == turns[k].id {
      assert sent[i] in sent;
    }
  }

  /** At most 256 of what is found is used. */
  ghost function Used(found: seq<nat>): seq<nat> { if |found| > 256 then found[..256] else found }

  lemma UsedAreFound(found: seq<nat>)
    requires forall i, j :: 0 <= i < j < |found| ==> found[i] > found[j]
    ensures forall i :: 0 <= i < |found| ==> (found[i] in Used(found) <==> i < 256)
    ensures forall i, j :: 0 <= i < |Used(found)| && 256 <= j < |found| ==> Used(found)[i] > found[j]
  {
    forall i | 0 <= i < |found| ensures found[i] in Used(found) <==> i < 256 {
      assert i < |Used(found)| ==> Used(found)[i] == found[i];
      if found[i] in Used(found) {
        var j :| 0 <= j < |Used(found)| && Used(found)[j] == found[i];
        assert found[j] == found[i];
      }
    }
  }

  lemma CandidatesAreNewestOnes(turns: seq<Turn>, sent: seq<SentDelivery>, at: nat) returns (ks: seq<nat>)
    requires at < |turns|
    ensures var found := EarlierTurns(turns, sent, turns[at].conversationId, at, HISTORY_LIMIT + 1);
            ks == Used(found) && NewestOnes(turns, sent, at, ks)
            && (|found| > 256 <==> exists k: nat :: k < at && MayComeUp(turns, sent, turns[at].conversationId, k) && k !in ks)
  {
    var c := turns[at].conversationId;
    var found := EarlierTurns(turns, sent, c, at, HISTORY_LIMIT + 1);
    ks := Used(found);
    CandidatesDescend(turns, sent, c, at, HISTORY_LIMIT + 1);
    UsedAreFound(found);
    forall i | 0 <= i < |found| ensures found[i] < at && MayComeUp(turns, sent, c, found[i]) {
      ComesUpExactly(turns, sent, c, found[i]);
    }
    forall k: nat | k < at && MayComeUp(turns, sent, c, k) && k !in ks
      ensures |found| > 256 && forall i :: 0 <= i < |ks| ==> ks[i] > k
    {
      ComesUpExactly(turns, sent, c, k);
      CandidatesAreTheNewest(turns, sent, c, at, HISTORY_LIMIT + 1, k);
    }
    if |found| > 256 {
      assert found[256] !in ks;
    }
  }

  /** The whole history of a Run, as the ledger stands when it is loaded: of the at most 256 newest turns that may come up,
      newest first, each one that may be told and still fits in a million characters, with those that only lack room
      named; and it says so when anything that might have been told was left out for number or room. */
  lemma HistoryIsExact(s: ProvenanceModel.State, at: nat, caller: Caller, ev: Evidence, now: int, r: Id) returns (ks: seq<nat>)
    requires at < |s.turns| && ev.runId == Some(r)
    ensures NewestOnes(s.turns, s.sent, at, ks)
    ensures var h := LoadHistory(s, at, caller, ev, now).1;
            && Fills(s.ledger, caller, ev, TurnsAt(s.turns, ks), s.sent, now, 1_000_000, h.exchanges, h.omitted)
            && (h.truncated <==>
                  || h.omitted != []
                  || exists k: nat :: k < at && MayComeUp(s.turns, s.sent, s.turns[at].conversationId, k) && k !in ks)
  {
    ks := CandidatesAreNewestOnes(s.turns, s.sent, at);
    var found := EarlierTurns(s.turns, s.sent, s.turns[at].conversationId, at, HISTORY_LIMIT + 1);
    var none := NO_HISTORY.(truncated := |found| > 256);
    assert Within(s.ledger, s.ledger, caller, r, now);
    TurnsFillExactly(s.ledger, s.ledger, caller, ev, TurnsAt(s.turns, ks), s.sent, none, now, r);
    TruncationIsSaid(s.ledger, s.ledger, caller, ev, TurnsAt(s.turns, ks), s.sent, none, now);
    var h := LoadHistory(s, at, caller, ev, now).1;
    assert h.exchanges[0..] == h.exchanges && h.omitted[0..] == h.omitted;
  }

  // ---------------------------------------------------------------------------------------
  // A Run's input

  /** Who gets the input of a Run: its own principal, where the Run's own recheck allows it; an external Run its history,
      oldest first, and a Task step nothing in advance, if what it depends on passes. A load that fails leaves nothing
      behind, and no load touches the turns or what was sent. */
  lemma InputsAreGivenExactlyWhen(s: ProvenanceModel.State, caller: Caller, at: nat, allowed: bool, bound: Option<Id>,
                                  deps: seq<Dependency>, now: int)
    requires at < |s.turns| && !s.turns[at].external ==> forall d :: d in deps ==> s.turns[at].id !in Sources(s.ledger.env, d)
    ensures var (t, out) := LoadRunInput(s, caller, at, allowed, bound, deps, now);
            && t.turns == s.turns && t.sent == s.sent && (out.LoadFailed? ==> t == s)
            && (out.Loaded? <==>
                  && at < |s.turns| && allowed && s.turns[at].principalId == caller.principalId
                  && (s.turns[at].external
                      || (bound.Some? && MayStart(s.ledger, caller, Evidence(Some(s.turns[at].conversationId), Some(s.turns[at].id), None),
                                                  bound.value, deps, now))))
            && (out.Loaded? && !s.turns[at].external ==> out.input == Input([], [], [], false))
            && (out.Loaded? && s.turns[at].external ==>
                  var h := LoadHistory(s, at, caller, Evidence(Some(s.turns[at].conversationId), Some(s.turns[at].id), None), now).1;
                  out.input == Input(Said(h.exchanges), Told(h.exchanges), h.omitted, h.truncated))
  {
    if at < |s.turns| && !s.turns[at].external && bound.Some? {
      var ev := Evidence(Some(s.turns[at].conversationId), Some(s.turns[at].id), None);
      StepsLoadExactlyWhen(s.ledger, caller, bound.value, deps, ev, now, s.turns[at].id);
    }
  }

  /** What a load leaves in the ledger: what it read or was refused on the way, and nothing where the Run is not the caller's
      to load or the load fails; a step whose attempt is not under way is refused on the record. */
  lemma LoadsAreOnRecord(s: ProvenanceModel.State, caller: Caller, at: nat, allowed: bool, bound: Option<Id>, deps: seq<Dependency>,
                         now: int)
    ensures var (t, out) := LoadRunInput(s, caller, at, allowed, bound, deps, now);
            if at >= |s.turns| || !allowed || s.turns[at].principalId != caller.principalId then t == s && out.LoadDenied?
            else
              var (turn, ev) := (s.turns[at], Evidence(Some(s.turns[at].conversationId), Some(s.turns[at].id), None));
              if turn.external then t.ledger == LoadHistory(s, at, caller, ev, now).0
              else if bound.None? then
                && out.LoadDenied? && |t.ledger.decisions| == |s.ledger.decisions| + 1 && s.ledger.decisions <= t.ledger.decisions
                && t.ledger == s.ledger.(decisions := t.ledger.decisions)
                && RefusedStep(t.ledger.decisions[|s.ledger.decisions|], caller, turn)
              else if out.LoadFailed? then t == s
              else t.ledger == StepInput(s.ledger, caller, bound.value, deps, ev, now).0
  {
  }

  ghost predicate RefusedStep(d: Decision, caller: Caller, t: Turn) {
    && d.tuple == Tuple(caller.principalId, "run", "conversation:read", caller.scope) && d.verdict == Deny && d.reason == ScopeMismatch
    && d.runId == Some(t.id) && d.conversationId == Some(t.conversationId) && d.mark.None?
  }
}
