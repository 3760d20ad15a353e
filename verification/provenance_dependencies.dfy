/** Exactly when a Task step is given a dependency's result, and what it is marked with for it. */
module ProvenanceDependencies {
  import opened Options
  import opened Auth = AuthModel
  import AuthDelegation
  import opened ProvenanceModel
  import opened ProvenanceMarks
  import opened ProvenanceClosure
  import opened ProvenanceGate
  import opened ProvenanceHistory

  // ---------------------------------------------------------------------------------------
  // What was read, and may be read

  /** This transaction allowed the reader the action, and marked the decision as a source of the Run's content. */
  ghost predicate ReadNow(l: Ledger, t: Ledger, caller: Caller, r: Id, resourceId: Id, action: string) {
    exists i: nat :: |l.decisions| <= i < |t.decisions| && IsRead(t.decisions[i], caller, r, resourceId, action)
  }

  ghost predicate IsRead(d: Decision, caller: Caller, r: Id, resourceId: Id, action: string) {
    && d.tuple == Tuple(caller.principalId, resourceId, action, caller.scope) && d.verdict.Allow?
    && d.runId == Some(r) && d.mark == Some(ContentSource) && d.condition == Some(NoCondition)
  }

  /** The reader may do this now, for the same Run and Conversation, under the route a source was recorded with. */
  ghost predicate May(l: Ledger, caller: Caller, ev: Evidence, resourceId: Id, action: string, condition: Option<Condition>, now: int) {
    Judge(l, Request(Tuple(caller.principalId, resourceId, action, caller.scope), None, ev.conversationId, ev.runId, ev.delegatedTaskId,
                     if condition.None? then LegacyRoute else Named(condition.value)), None, now).verdict.Allow?
  }

  lemma ReadableIsMay(l: Ledger, caller: Caller, ev: Evidence, src: Source, now: int)
    ensures Readable(l, caller, ev, src, now) <==> May(l, caller, ev, src.resourceId, src.action, src.condition, now)
  {
  }

  /** What a worker was permitted, as the reader has to be allowed it; None where it is no source of content. */
  ghost function ReaderAction(p: Permission): Option<string> {
    if p.action == "worker:file:read" || p.action == "worker:file:write" then Some("worker:file:read")
    else if (p.action == "workspace:read" || p.action == "workspace:write") && "workspace:" <= p.resourceId then Some("workspace:read")
    else None
  }

  lemma {:induction false} ReadsAreTheReaders(permissions: seq<Permission>)
    ensures |ReadsOf(permissions)| == |permissions| <==> forall p :: p in permissions ==> ReaderAction(p).Some?
    ensures forall src :: src in ReadsOf(permissions) ==>
              exists p :: p in permissions && ReaderAction(p) == Some(src.action)
                          && src == Source(p.resourceId, src.action, ContentSource, Some(NoCondition))
    ensures |ReadsOf(permissions)| == |permissions| ==>
              forall p :: p in permissions ==>
                Source(p.resourceId, ReaderAction(p).value, ContentSource, Some(NoCondition)) in ReadsOf(permissions)
    decreases |permissions|
  {
    if permissions != [] {
      var p, rest := permissions[0], permissions[1..];
      assert ReadOf(p).Some? <==> ReaderAction(p).Some?;
      assert forall x :: x in permissions <==> x == p || x in rest;
      ReadsAreTheReaders(rest);
    }
  }

  // ---------------------------------------------------------------------------------------
  // Marks on fresh decisions

  lemma {:induction false} MarkingMarksEach(l: Ledger, start: nat, sources: seq<Source>)
    requires start + |sources| <= |l.decisions|
    requires forall i :: start <= i < start + |sources| ==> l.decisions[i].verdict.Allow? && l.decisions[i].mark.None?
    ensures var t := MarkFrom(l, start, sources);
            && |t.decisions| == |l.decisions|
            && (forall i :: 0 <= i < |l.decisions| && !(start <= i < start + |sources|) ==> t.decisions[i] == l.decisions[i])
            && forall i :: 0 <= i < |sources| ==>
                 t.decisions[start + i] == l.decisions[start + i].(mark := Some(Classification(sources[i].mark)))
    decreases |sources|
  {
    if sources != [] {
      var u, rest := SetMark(l, start, Classification(sources[0].mark)), sources[1..];
      MarkingMarksEach(u, start + 1, rest);
      var t := MarkFrom(u, start + 1, rest);
      forall i | 0 <= i < |sources|
        ensures t.decisions[start + i] == l.decisions[start + i].(mark := Some(Classification(sources[i].mark)))
      {
        if i > 0 {
          assert t.decisions[start + 1 + (i - 1)] == u.decisions[start + 1 + (i - 1)].(mark := Some(Classification(rest[i - 1].mark)));
        }
      }
    }
  }

  ghost predicate IsOwn(src: Source) { src.mark.ContentSource? && src.condition == Some(NoCondition) }

  lemma MarkedAreRead(l: Ledger, u: Ledger, caller: Caller, ev: Evidence, own: seq<Source>, r: Id)
    requires ev.runId == Some(r) && DecidedInOrder(u, |l.decisions|, caller, ev, own) && forall src :: src in own ==> IsOwn(src)
    ensures forall src :: src in own ==> ReadNow(l, MarkFrom(u, |l.decisions|, own), caller, r, src.resourceId, src.action)
  {
    var start := |l.decisions|;
    forall i | start <= i < start + |own| ensures u.decisions[i].verdict.Allow? && u.decisions[i].mark.None? {
      assert DecidedFor(u.decisions[i], caller, ev, own[i - start]);
    }
    MarkingMarksEach(u, start, own);
    var v := MarkFrom(u, start, own);
    forall src | src in own ensures ReadNow(l, v, caller, r, src.resourceId, src.action) {
      var i: nat :| i < |own| && own[i] == src;
      assert DecidedFor(u.decisions[start + i], caller, ev, own[start + i - start]);
      assert IsRead(v.decisions[start + i], caller, r, src.resourceId, src.action);
    }
  }

  /** Own checks that go through leave each of them allowed and marked. */
  lemma InheritingReads(l: Ledger, caller: Caller, ev: Evidence, own: seq<Source>, runs: Option<set<Id>>, now: int, r: Id)
    requires ev.runId == Some(r) && ReadThenInherit(l, caller, ev, own, runs, now).1.Ok? && forall src :: src in own ==> IsOwn(src)
    ensures forall src :: src in own ==> ReadNow(l, ReadThenInherit(l, caller, ev, own, runs, now).0, caller, r, src.resourceId, src.action)
  {
    var t := Inspect(l, caller, ev, own, now).0;
    InspectDecides(l, caller, ev, own, now);
    var u := ReauthorizeRuns(t, caller, ev, runs.value, now).0;
    RunsAreCarried(t, caller, ev, runs.value, now, r);
    DecidedStays(t, u, |l.decisions|, caller, ev, own);
    MarkedAreRead(l, u, caller, ev, own, r);
  }

  /** A load that stops before what it inherits is allowed leaves its own checks on record, but marks none of them. */
  lemma StoppedReadsStayUnmarked(l: Ledger, caller: Caller, ev: Evidence, own: seq<Source>, runs: Option<set<Id>>, now: int)
    requires !ReadThenInherit(l, caller, ev, own, runs, now).1.Ok?
    ensures var t := ReadThenInherit(l, caller, ev, own, runs, now).0;
            l.decisions <= t.decisions
            && forall i :: |l.decisions| <= i < |t.decisions| && i < |l.decisions| + |own| ==> t.decisions[i].mark.None?
  {
    var t := Inspect(l, caller, ev, own, now).0;
    InspectAddsUnmarked(l, caller, ev, own, now);
    if Inspect(l, caller, ev, own, now).1 && runs.Some? {
      InspectDecides(l, caller, ev, own, now);
      ReauthorizeAppends(t, caller, ev, SourceRows(t.decisions, runs.value, None), now);
    }
    var u := ReadThenInherit(l, caller, ev, own, runs, now).0;
    forall i | |l.decisions| <= i < |u.decisions| && i < |l.decisions| + |own| ensures u.decisions[i].mark.None? {
      assert i < |t.decisions| ==> u.decisions[i] == t.decisions[i] && t.decisions[i] in t.decisions[|l.decisions|..];
    }
  }

  // ---------------------------------------------------------------------------------------
  // Where a Task came from

  /** A way from the Task up to one that no other made, by at most five Tasks that are all on file, as are their Runs. */
  ghost predicate WayUp(env: Environment, task: Id, path: seq<Id>) {
    && 0 < |path| <= 5 && path[0] == task && path[|path| - 1] !in env.links
    && (forall i :: 0 <= i < |path| - 1 ==> path[i] in env.links && env.links[path[i]].parent == path[i + 1])
    && forall t :: t in path ==> t in env.tasks && (env.tasks[t].runId.Some? ==> env.tasks[t].runId.value in env.runs)
  }

  lemma {:induction false} RunsOfAllTasks(env: Environment, path: seq<Id>, r: Id)
    requires AuthDelegation.RowsExist(env, path)
    ensures r in AuthDelegation.OriginRuns(env, path) <==> exists t :: t in path && env.tasks[t].runId == Some(r)
    decreases |path|
  {
    if path != [] {
      var front, last := path[..|path| - 1], path[|path| - 1];
      RunsOfAllTasks(env, front, r);
      assert forall t :: t in path <==> t in front || t == last;
    }
  }

  /** The Runs a Task's content came from are those of every Task on its way up, and are known if and only if there is
      such a way. */
  lemma OriginsAreExact(env: Environment, task: Id)
    ensures OriginSet(env, task).Some? <==> exists path :: WayUp(env, task, path)
    ensures forall path, r :: WayUp(env, task, path) ==>
              OriginSet(env, task).Some? && (r in OriginSet(env, task).value <==> exists t :: t in path && env.tasks[t].runId == Some(r))
  {
    forall path | WayUp(env, task, path) ensures AuthDelegation.SourceRuns(env, task) == Some(AuthDelegation.OriginRuns(env, path)) {
      AuthDelegation.ShortLineageIsFound(env.links, task, 5, path);
    }
    forall path, r | WayUp(env, task, path)
      ensures r in AuthDelegation.OriginRuns(env, path) <==> exists t :: t in path && env.tasks[t].runId == Some(r)
    {
      RunsOfAllTasks(env, path, r);
    }
    AuthDelegation.LineageIsLineage(env.links, task, 5);
    if AuthDelegation.SourceRuns(env, task).Some? {
      assert WayUp(env, task, Lineage(env.links, task, 5).value);
    }
  }

  // ---------------------------------------------------------------------------------------
  // Verdicts within one load

  /** Decisions were added without an approval in hand, or marked; so nobody's verdict changed. */
  lemma MarkIsStable(l: Ledger, i: nat, m: Mark, req: Request, now: int)
    requires Plain(req)
    ensures Judge(SetMark(l, i, m), req, None, now).verdict == Judge(l, req, None, now).verdict
  {
    var t := SetMark(l, i, m);
    forall of: nat ensures AdmittedRun(t, req, of, now) <==> AdmittedRun(l, req, of, now) {
    }
    if FirstAdmission(l, req, now).Some? {
      assert AdmittedRun(t, req, FirstAdmission(l, req, now).value, now);
    }
    if FirstAdmission(t, req, now).Some? {
      assert AdmittedRun(l, req, FirstAdmission(t, req, now).value, now);
    }
    VerdictsAgree(l, t, req, now);
  }

  ghost predicate SameVerdicts(l: Ledger, t: Ledger, caller: Caller, ev: Evidence, now: int) {
    forall src :: Readable(t, caller, ev, src, now) <==> Readable(l, caller, ev, src, now)
  }

  lemma OneReadIsStable(l: Ledger, caller: Caller, made: Evidence, src: Source, ev: Evidence, now: int)
    ensures var t := Evaluate(l, SourceRequest(caller, src, made), None, now).0;
            SameVerdicts(l, t, caller, ev, now) && SameVerdicts(l, SetMark(t, |l.decisions|, Classification(src.mark)), caller, ev, now)
  {
    var t := Evaluate(l, SourceRequest(caller, src, made), None, now).0;
    forall other ensures Readable(t, caller, ev, other, now) <==> Readable(l, caller, ev, other, now) {
      VerdictIsStable(l, SourceRequest(caller, src, made), SourceRequest(caller, other, ev), now);
    }
    forall other ensures Readable(SetMark(t, |l.decisions|, Classification(src.mark)), caller, ev, other, now)
                         <==> Readable(t, caller, ev, other, now) {
      MarkIsStable(t, |l.decisions|, Classification(src.mark), SourceRequest(caller, other, ev), now);
    }
  }

  lemma {:induction false} ReauthorizeIsStable(l: Ledger, caller: Caller, made: Evidence, sources: seq<Source>, ev: Evidence, now: int)
    ensures SameVerdicts(l, Reauthorize(l, caller, made, sources, now).0, caller, ev, now)
    decreases |sources|
  {
    if sources != [] {
      var (t, j) := Evaluate(l, SourceRequest(caller, sources[0], made), None, now);
      OneReadIsStable(l, caller, made, sources[0], ev, now);
      if j.verdict.Allow? {
        ReauthorizeIsStable(SetMark(t, |l.decisions|, Classification(sources[0].mark)), caller, made, sources[1..], ev, now);
      }
    }
  }

  lemma {:induction false} InspectKeepsVerdicts(l: Ledger, caller: Caller, made: Evidence, sources: seq<Source>, ev: Evidence, now: int)
    ensures SameVerdicts(l, Inspect(l, caller, made, sources, now).0, caller, ev, now)
    decreases |sources|
  {
    if sources != [] {
      OneReadIsStable(l, caller, made, sources[0], ev, now);
      InspectKeepsVerdicts(Evaluate(l, SourceRequest(caller, sources[0], made), None, now).0, caller, made, sources[1..], ev, now);
    }
  }

  ghost predicate EachReadable(l: Ledger, caller: Caller, ev: Evidence, sources: seq<Source>, now: int) {
    forall src :: src in sources ==> Readable(l, caller, ev, src, now)
  }

  lemma FirstAndRestReadable(l: Ledger, u: Ledger, caller: Caller, ev: Evidence, sources: seq<Source>, now: int)
    requires sources != [] && SameVerdicts(l, u, caller, ev, now)
    ensures EachReadable(l, caller, ev, sources, now) <==>
            Readable(l, caller, ev, sources[0], now) && EachReadable(u, caller, ev, sources[1..], now)
  {
    assert forall x :: x in sources <==> x == sources[0] || x in sources[1..];
  }

  lemma {:induction false} ReauthorizePassesExactlyWhen(l: Ledger, caller: Caller, ev: Evidence, sources: seq<Source>, now: int)
    ensures Reauthorize(l, caller, ev, sources, now).1 <==> EachReadable(l, caller, ev, sources, now)
    decreases |sources|
  {
    if sources != [] {
      var (t, j) := Evaluate(l, SourceRequest(caller, sources[0], ev), None, now);
      OneReadIsStable(l, caller, ev, sources[0], ev, now);
      var u := SetMark(t, |l.decisions|, Classification(sources[0].mark));
      FirstAndRestReadable(l, u, caller, ev, sources, now);
      ReauthorizePassesExactlyWhen(u, caller, ev, sources[1..], now);
    }
  }

  lemma InspectingPassesExactlyWhen(l: Ledger, caller: Caller, ev: Evidence, sources: seq<Source>, now: int)
    ensures Inspect(l, caller, ev, sources, now).1 <==> EachReadable(l, caller, ev, sources, now)
  {
    InspectPassesExactlyWhen(l, caller, ev, sources, now);
    if EachReadable(l, caller, ev, sources, now) {
      forall i | 0 <= i < |sources| ensures Readable(l, caller, ev, sources[i], now) {
        assert sources[i] in sources;
      }
    }
  }

  // ---------------------------------------------------------------------------------------
  // Which rows are rechecked

  lemma {:induction false} OthersAddNoRow(ds: seq<Decision>, more: seq<Decision>, runs: set<Id>)
    requires forall d :: d in more ==> d.mark.None? || d.runId.None? || d.runId.value !in runs
    ensures SourceRows(ds + more, runs, None) == SourceRows(ds, runs, None)
    decreases |more|
  {
    if more == [] {
      assert ds + more == ds;
    } else {
      var shorter := more[..|more| - 1];
      assert (ds + more)[..|ds + more| - 1] == ds + shorter && (ds + more)[|ds + more| - 1] == more[|more| - 1];
      assert more[|more| - 1] in more && forall d :: d in shorter ==> d in more;
      OthersAddNoRow(ds, shorter, runs);
    }
  }

  lemma AppendedAddNoRow(ds: seq<Decision>, es: seq<Decision>, runs: set<Id>)
    requires ds <= es && forall d :: d in es[|ds|..] ==> d.mark.None? || d.runId.None? || d.runId.value !in runs
    ensures SourceRows(es, runs, None) == SourceRows(ds, runs, None)
  {
    var more := es[|ds|..];
    assert es == ds + more;
    OthersAddNoRow(ds, more, runs);
  }

  lemma {:induction false} InspectAddsUnmarked(l: Ledger, caller: Caller, ev: Evidence, sources: seq<Source>, now: int)
    ensures var t := Inspect(l, caller, ev, sources, now).0;
            l.decisions <= t.decisions && forall d :: d in t.decisions[|l.decisions|..] ==> d.mark.None?
    decreases |sources|
  {
    if sources != [] {
      var (t, j) := Evaluate(l, SourceRequest(caller, sources[0], ev), None, now);
      EvaluateAppends(l, SourceRequest(caller, sources[0], ev), None, now);
      if j.verdict.Allow? {
        InspectAddsUnmarked(t, caller, ev, sources[1..], now);
        var u := Inspect(t, caller, ev, sources[1..], now).0;
        forall d | d in u.decisions[|l.decisions|..] ensures d.mark.None? {
          var i :| |l.decisions| <= i < |u.decisions| && u.decisions[i] == d;
          if i > |l.decisions| {
            assert d in u.decisions[|t.decisions|..];
          }
        }
      }
    }
  }

  lemma InspectKeepsRows(l: Ledger, caller: Caller, ev: Evidence, sources: seq<Source>, now: int, runs: set<Id>)
    ensures SourceRows(Inspect(l, caller, ev, sources, now).0.decisions, runs, None) == SourceRows(l.decisions, runs, None)
  {
    var t := Inspect(l, caller, ev, sources, now).0;
    InspectAddsUnmarked(l, caller, ev, sources, now);
    AppendedAddNoRow(l.decisions, t.decisions, runs);
  }

  lemma {:induction false} ReauthorizeFilesForItsRun(l: Ledger, caller: Caller, ev: Evidence, sources: seq<Source>, now: int)
    ensures var t := Reauthorize(l, caller, ev, sources, now).0;
            l.decisions <= t.decisions && forall d :: d in t.decisions[|l.decisions|..] ==> d.runId == ev.runId
    decreases |sources|
  {
    if sources != [] {
      var (t, j) := Evaluate(l, SourceRequest(caller, sources[0], ev), None, now);
      EvaluateAppends(l, SourceRequest(caller, sources[0], ev), None, now);
      if j.verdict.Allow? {
        var m := SetMark(t, |l.decisions|, Classification(sources[0].mark));
        ReauthorizeFilesForItsRun(m, caller, ev, sources[1..], now);
        var u := Reauthorize(m, caller, ev, sources[1..], now).0;
        forall d | d in u.decisions[|l.decisions|..] ensures d.runId == ev.runId {
          var i :| |l.decisions| <= i < |u.decisions| && u.decisions[i] == d;
          if i == |l.decisions| {
            assert u.decisions[i] == m.decisions[i];
          } else {
            assert d in u.decisions[|m.decisions|..];
          }
        }
        assert l.decisions <= u.decisions;
      }
    }
  }

  lemma ReauthorizeKeepsRows(l: Ledger, caller: Caller, ev: Evidence, sources: seq<Source>, now: int, q: Id)
    requires ev.runId != Some(q)
    ensures SourceRows(Reauthorize(l, caller, ev, sources, now).0.decisions, {q}, None) == SourceRows(l.decisions, {q}, None)
  {
    var t := Reauthorize(l, caller, ev, sources, now).0;
    ReauthorizeFilesForItsRun(l, caller, ev, sources, now);
    AppendedAddNoRow(l.decisions, t.decisions, {q});
  }

  // ---------------------------------------------------------------------------------------
  // Inheriting

  /** The distinct sources marked on these Runs. */
  ghost function MarkedSources(l: Ledger, runs: set<Id>): set<Source> {
    set d | d in l.decisions && d.runId.Some? && d.runId.value in runs && d.verdict.Allow? && d.mark.Some? ::
      Source(d.tuple.resourceId, d.tuple.action, d.mark.value, d.condition)
  }

  lemma {:induction false} DistinctCounts(xs: seq<Source>)
    requires forall i, j :: 0 <= i < j < |xs| ==> xs[i] != xs[j]
    ensures |set x | x in xs| == |xs|
    decreases |xs|
  {
    if xs != [] {
      var front, last := xs[..|xs| - 1], xs[|xs| - 1];
      DistinctCounts(front);
      assert (set x | x in xs) == (set x | x in front) + {last};
    }
  }

  lemma RowsAreTheMarked(l: Ledger, runs: set<Id>)
    ensures var rows := SourceRows(l.decisions, runs, None);
            |rows| == |MarkedSources(l, runs)| && forall src :: src in rows <==> src in MarkedSources(l, runs)
  {
    var rows := SourceRows(l.decisions, runs, None);
    forall src ensures src in rows <==> src in MarkedSources(l, runs) {
      SourceRowsAreExact(l.decisions, runs, None, src);
      if src in rows {
        var i :| 0 <= i < |l.decisions| && SourceAt(l.decisions[i], runs, None, src);
        assert l.decisions[i] in l.decisions;
      }
      if src in MarkedSources(l, runs) {
        var d :| d in l.decisions && d.runId.Some? && d.runId.value in runs && d.verdict.Allow? && d.mark.Some?
                 && src == Source(d.tuple.resourceId, d.tuple.action, d.mark.value, d.condition);
        var i :| 0 <= i < |l.decisions| && l.decisions[i] == d;
        assert SourceAt(l.decisions[i], runs, None, src);
      }
    }
    SourceRowsAreDistinct(l.decisions, runs, None);
    DistinctCounts(rows);
    assert (set src | src in rows) == MarkedSources(l, runs);
  }

  /** Everything marked on these Runs may be read now, and is not too much to recheck at once. */
  ghost predicate MayInherit(l: Ledger, caller: Caller, ev: Evidence, runs: set<Id>, now: int) {
    && |MarkedSources(l, runs)| <= 128
    && forall src :: src in MarkedSources(l, runs) ==> May(l, caller, ev, src.resourceId, src.action, src.condition, now)
  }

  lemma InheritsExactlyWhen(l: Ledger, caller: Caller, ev: Evidence, runs: set<Id>, now: int)
    ensures ReauthorizeRuns(l, caller, ev, runs, now).1.Ok? <==> MayInherit(l, caller, ev, runs, now)
  {
    RowsAreTheMarked(l, runs);
    ReauthorizePassesExactlyWhen(l, caller, ev, SourceRows(l.decisions, runs, None), now);
    assert forall src :: Readable(l, caller, ev, src, now) <==> May(l, caller, ev, src.resourceId, src.action, src.condition, now);
  }

  lemma SameMayInherit(l: Ledger, t: Ledger, caller: Caller, ev: Evidence, runs: set<Id>, now: int)
    requires SameVerdicts(l, t, caller, ev, now) && SourceRows(t.decisions, runs, None) == SourceRows(l.decisions, runs, None)
    ensures MayInherit(t, caller, ev, runs, now) <==> MayInherit(l, caller, ev, runs, now)
  {
    RowsAreTheMarked(l, runs);
    RowsAreTheMarked(t, runs);
    assert forall src :: src in MarkedSources(t, runs) <==> src in MarkedSources(l, runs);
    assert forall src :: Readable(l, caller, ev, src, now) <==> May(l, caller, ev, src.resourceId, src.action, src.condition, now);
    assert forall src :: Readable(t, caller, ev, src, now) <==> May(t, caller, ev, src.resourceId, src.action, src.condition, now);
  }

  lemma ReadsThenInheritsExactlyWhen(l: Ledger, caller: Caller, ev: Evidence, own: seq<Source>, runs: Option<set<Id>>, now: int)
    ensures ReadThenInherit(l, caller, ev, own, runs, now).1.Ok? <==>
            EachReadable(l, caller, ev, own, now) && runs.Some? && MayInherit(l, caller, ev, runs.value, now)
  {
    var t := Inspect(l, caller, ev, own, now).0;
    InspectingPassesExactlyWhen(l, caller, ev, own, now);
    if runs.Some? {
      InspectKeepsVerdicts(l, caller, ev, own, ev, now);
      InspectKeepsRows(l, caller, ev, own, now, runs.value);
      SameMayInherit(l, t, caller, ev, runs.value, now);
      InheritsExactlyWhen(t, caller, ev, runs.value, now);
    }
  }

  // ---------------------------------------------------------------------------------------
  // One dependency

  ghost predicate MayTask(l: Ledger, caller: Caller, ev: Evidence, task: Id, now: int) {
    May(l, caller, ev, "task-" + task, "task:read", Some(NoCondition), now)
  }

  /** A worker's result is given if and only if it is there, its Task and the worker may be read now, every one of its
      permissions is a source of content that may be read now, and its origin is known and may be inherited; a child
      Task's result asks for the Task first. */
  lemma WorkersPassExactlyWhen(l: Ledger, caller: Caller, ev: Evidence, task: Id, d: Dependency, now: int)
    requires d.WorkerResult?
    ensures ReadDependency(l, caller, ev, task, d, now).1.Ok? <==>
              var at := if d.sourceTask == task then ev.(delegatedTaskId := Some(task)) else ev;
              && d.ready && (d.ofChild ==> MayTask(l, caller, ev, d.sourceTask, now))
              && MayTask(l, caller, at, d.sourceTask, now)
              && May(l, caller, at, "task-" + d.sourceTask, "worker:read", Some(NoCondition), now)
              && (forall p :: p in d.permissions ==>
                    ReaderAction(p).Some? && May(l, caller, at, p.resourceId, ReaderAction(p).value, Some(NoCondition), now))
              && OriginSet(l.env, d.sourceTask).Some? && MayInherit(l, caller, at, OriginSet(l.env, d.sourceTask).value, now)
  {
    var at := if d.sourceTask == task then ev.(delegatedTaskId := Some(task)) else ev;
    var child, own := if d.ofChild then [TaskRead(d.sourceTask)] else [], WorkerReads(d.sourceTask, d.permissions);
    var t := Inspect(l, caller, ev, child, now).0;
    InspectingPassesExactlyWhen(l, caller, ev, child, now);
    InspectAddsUnmarked(l, caller, ev, child, now);
    InspectKeepsVerdicts(l, caller, ev, child, at, now);
    var runs := WorkerRuns(l.env, d);
    ReadsThenInheritsExactlyWhen(t, caller, at, own, runs, now);
    if runs.Some? {
      InspectKeepsRows(l, caller, ev, child, now, runs.value);
      SameMayInherit(l, t, caller, at, runs.value, now);
    }
    WorkerReadsAre(l, t, caller, at, d, now);
    OneReadable(l, caller, ev, d.sourceTask, now);
  }

  lemma OneReadable(l: Ledger, caller: Caller, ev: Evidence, task: Id, now: int)
    ensures EachReadable(l, caller, ev, [TaskRead(task)], now) <==> MayTask(l, caller, ev, task, now)
    ensures EachReadable(l, caller, ev, [], now)
  {
    assert TaskRead(task) in [TaskRead(task)];
    ReadableIsMay(l, caller, ev, TaskRead(task), now);
  }

  lemma WorkerReadsAre(l: Ledger, t: Ledger, caller: Caller, at: Evidence, d: Dependency, now: int)
    requires d.WorkerResult? && SameVerdicts(l, t, caller, at, now)
    ensures |ReadsOf(d.permissions)| == |d.permissions| <==> forall p :: p in d.permissions ==> ReaderAction(p).Some?
    ensures |ReadsOf(d.permissions)| == |d.permissions| ==>
              (EachReadable(t, caller, at, WorkerReads(d.sourceTask, d.permissions), now) <==>
                && MayTask(l, caller, at, d.sourceTask, now)
                && May(l, caller, at, "task-" + d.sourceTask, "worker:read", Some(NoCondition), now)
                && forall p :: p in d.permissions ==> May(l, caller, at, p.resourceId, ReaderAction(p).value, Some(NoCondition), now))
  {
    ReadsAreTheReaders(d.permissions);
    var own := WorkerReads(d.sourceTask, d.permissions);
    var worker := Source("task-" + d.sourceTask, "worker:read", ContentSource, Some(NoCondition));
    assert own[0] == TaskRead(d.sourceTask) && own[1] == worker;
    assert forall src :: src in own <==> src == TaskRead(d.sourceTask) || src == worker || src in ReadsOf(d.permissions);
    assert EachReadable(t, caller, at, own, now) <==> EachReadable(l, caller, at, own, now);
    forall p | p in d.permissions && ReaderAction(p).Some?
      ensures Readable(l, caller, at, Source(p.resourceId, ReaderAction(p).value, ContentSource, Some(NoCondition)), now)
              <==> May(l, caller, at, p.resourceId, ReaderAction(p).value, Some(NoCondition), now)
    {
    }
  }

  /** And then each of these reads was allowed in this transaction, and stands marked on the reader. */
  lemma WorkersReadsAreMarked(l: Ledger, caller: Caller, ev: Evidence, task: Id, d: Dependency, now: int, r: Id)
    requires d.WorkerResult? && ev.runId == Some(r) && ReadDependency(l, caller, ev, task, d, now).1.Ok?
    ensures var t := ReadDependency(l, caller, ev, task, d, now).0;
            && ReadNow(l, t, caller, r, "task-" + d.sourceTask, "task:read")
            && ReadNow(l, t, caller, r, "task-" + d.sourceTask, "worker:read")
            && forall p :: p in d.permissions ==> ReaderAction(p).Some? && ReadNow(l, t, caller, r, p.resourceId, ReaderAction(p).value)
  {
    var at := if d.sourceTask == task then ev.(delegatedTaskId := Some(task)) else ev;
    var child, own := if d.ofChild then [TaskRead(d.sourceTask)] else [], WorkerReads(d.sourceTask, d.permissions);
    var u := Inspect(l, caller, ev, child, now).0;
    InspectAddsUnmarked(l, caller, ev, child, now);
    ReadsAreTheReaders(d.permissions);
    InheritingReads(u, caller, at, own, WorkerRuns(l.env, d), now, r);
    assert own[0] in own && own[1] in own && forall src :: src in ReadsOf(d.permissions) ==> src in own;
    forall resource, action | ReadNow(u, ReadDependency(l, caller, ev, task, d, now).0, caller, r, resource, action)
      ensures ReadNow(l, ReadDependency(l, caller, ev, task, d, now).0, caller, r, resource, action)
    {
    }
  }

  /** A child Task's result is given if and only if it is there, the Task may be read now, and its Run's own recheck and
      everything marked on it allow it. */
  lemma ChildrenPassExactlyWhen(l: Ledger, caller: Caller, ev: Evidence, task: Id, d: Dependency, now: int)
    requires d.ChildResult?
    ensures ReadDependency(l, caller, ev, task, d, now).1.Ok? <==>
              d.ready && d.allowed && MayTask(l, caller, ev, d.childTask, now) && MayInherit(l, caller, ev, {d.sourceRun}, now)
  {
    ReadsThenInheritsExactlyWhen(l, caller, ev, [TaskRead(d.childTask)], Some({d.sourceRun}), now);
    OneReadable(l, caller, ev, d.childTask, now);
  }

  lemma ChildsReadIsMarked(l: Ledger, caller: Caller, ev: Evidence, task: Id, d: Dependency, now: int, r: Id)
    requires d.ChildResult? && ev.runId == Some(r) && ReadDependency(l, caller, ev, task, d, now).1.Ok?
    ensures ReadNow(l, ReadDependency(l, caller, ev, task, d, now).0, caller, r, "task-" + d.childTask, "task:read")
  {
    InheritingReads(l, caller, ev, [TaskRead(d.childTask)], Some({d.sourceRun}), now, r);
    assert TaskRead(d.childTask) in [TaskRead(d.childTask)];
  }

  /** Another Run's result is given if and only if it is there, its own recheck and everything marked on it allow it,
      and the reading Task, and the Task that was looked up, if any, may be read now. */
  lemma RunsPassExactlyWhen(l: Ledger, caller: Caller, ev: Evidence, task: Id, d: Dependency, now: int)
    requires d.RunResult? && ev.runId != Some(d.sourceRun)
    ensures ReadDependency(l, caller, ev, task, d, now).1.Ok? <==>
              && d.ready && d.allowed && (d.target.Some? ==> MayTask(l, caller, ev, d.target.value, now))
              && MayTask(l, caller, ev, task, now) && MayInherit(l, caller, ev, {d.sourceRun}, now)
  {
    if d.allowed {
      var target := if d.target.Some? then [TaskRead(d.target.value)] else [];
      var t := Reauthorize(l, caller, ev, target, now).0;
      ReauthorizePassesExactlyWhen(l, caller, ev, target, now);
      ReauthorizeIsStable(l, caller, ev, target, ev, now);
      ReauthorizeKeepsRows(l, caller, ev, target, now, d.sourceRun);
      SameMayInherit(l, t, caller, ev, {d.sourceRun}, now);
      InheritsExactlyWhen(t, caller, ev, {d.sourceRun}, now);
      var u := ReauthorizeRuns(t, caller, ev, {d.sourceRun}, now).0;
      RunsKeepVerdicts(t, caller, ev, {d.sourceRun}, now);
      ReauthorizePassesExactlyWhen(u, caller, ev, [TaskRead(task)], now);
      OneReadable(l, caller, ev, if d.target.Some? then d.target.value else task, now);
      OneReadable(u, caller, ev, task, now);
      ReadableIsMay(l, caller, ev, TaskRead(task), now);
      ReadableIsMay(u, caller, ev, TaskRead(task), now);
    }
  }

  lemma RunsKeepVerdicts(l: Ledger, caller: Caller, ev: Evidence, runs: set<Id>, now: int)
    ensures SameVerdicts(l, ReauthorizeRuns(l, caller, ev, runs, now).0, caller, ev, now)
  {
    ReauthorizeIsStable(l, caller, ev, SourceRows(l.decisions, runs, None), ev, now);
  }

  lemma OneReadMarked(l: Ledger, caller: Caller, ev: Evidence, task: Id, now: int, r: Id)
    requires ev.runId == Some(r) && Reauthorize(l, caller, ev, [TaskRead(task)], now).1
    ensures ReadNow(l, Reauthorize(l, caller, ev, [TaskRead(task)], now).0, caller, r, "task-" + task, "task:read")
  {
    var t := Evaluate(l, SourceRequest(caller, TaskRead(task), ev), None, now).0;
    DecidedNow(l, caller, ev, TaskRead(task), now);
    assert [TaskRead(task)][1..] == [];
    assert IsRead(SetMark(t, |l.decisions|, ContentSource).decisions[|l.decisions|], caller, r, "task-" + task, "task:read");
  }

  lemma ReadEarlier(l: Ledger, t: Ledger, u: Ledger, v: Ledger, caller: Caller, r: Id, task: Id)
    requires l.decisions <= t.decisions && u.decisions <= v.decisions && ReadNow(t, u, caller, r, "task-" + task, "task:read")
    ensures ReadNow(l, v, caller, r, "task-" + task, "task:read")
  {
    var i: nat :| |t.decisions| <= i < |u.decisions| && IsRead(u.decisions[i], caller, r, "task-" + task, "task:read");
    assert v.decisions[i] == u.decisions[i];
  }

  lemma RunsReadsAreMarked(l: Ledger, caller: Caller, ev: Evidence, task: Id, d: Dependency, now: int, r: Id)
    requires d.RunResult? && ev.runId == Some(r) && ReadDependency(l, caller, ev, task, d, now).1.Ok?
    ensures var v := ReadDependency(l, caller, ev, task, d, now).0;
            && ReadNow(l, v, caller, r, "task-" + task, "task:read")
            && (d.target.Some? ==> ReadNow(l, v, caller, r, "task-" + d.target.value, "task:read"))
  {
    var target := if d.target.Some? then [TaskRead(d.target.value)] else [];
    var t := Reauthorize(l, caller, ev, target, now).0;
    ReauthorizeAppends(l, caller, ev, target, now);
    var u := ReauthorizeRuns(t, caller, ev, {d.sourceRun}, now).0;
    RunsAreCarried(t, caller, ev, {d.sourceRun}, now, r);
    var v := Reauthorize(u, caller, ev, [TaskRead(task)], now).0;
    ReauthorizeAppends(u, caller, ev, [TaskRead(task)], now);
    OneReadMarked(u, caller, ev, task, now, r);
    ReadEarlier(l, u, v, v, caller, r, task);
    if d.target.Some? {
      OneReadMarked(l, caller, ev, d.target.value, now, r);
      ReadEarlier(l, l, t, v, caller, r, d.target.value);
    }
  }

  /** A checkpoint is given if and only if the reading Task may be read now; nothing else a dependency may be needs more
      than the child Task it names. */
  lemma OthersPassExactlyWhen(l: Ledger, caller: Caller, ev: Evidence, task: Id, d: Dependency, now: int)
    requires d.CheckpointResult? || d.NoResult?
    ensures ReadDependency(l, caller, ev, task, d, now).1.Ok? <==>
              if d.CheckpointResult? then MayTask(l, caller, ev, task, now)
              else d.child.Some? ==> MayTask(l, caller, ev, d.child.value, now)
  {
    if d.CheckpointResult? {
      ReauthorizePassesExactlyWhen(l, caller, ev, [TaskRead(task)], now);
      OneReadable(l, caller, ev, task, now);
    } else if d.child.Some? {
      InspectingPassesExactlyWhen(l, caller, ev, [TaskRead(d.child.value)], now);
      OneReadable(l, caller, ev, d.child.value, now);
    }
  }
}
