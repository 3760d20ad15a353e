/** What evaluating and marking do to the sources a Run carries. */
module ProvenanceMarks {
  import opened Options
  import opened Auth = AuthModel
  import opened ProvenanceModel

  ghost predicate SameRow(d: Decision, e: Decision) {
    && e.tuple == d.tuple && e.verdict == d.verdict && e.condition == d.condition
    && (d.runId.Some? ==> e.runId == d.runId) && (d.mark.Some? ==> e.mark == d.mark && e.runId == d.runId)
  }

  /** Decisions are only appended, and a mark or a Run once set stays. */
  ghost predicate MarksStay(l: Ledger, t: Ledger) {
    && |l.decisions| <= |t.decisions|
    && forall i :: 0 <= i < |l.decisions| ==> SameRow(l.decisions[i], t.decisions[i])
  }

  lemma MarkedStays(l: Ledger, t: Ledger, r: Id)
    requires MarksStay(l, t)
    ensures Marked(l, r) <= Marked(t, r)
  {
    forall k | k in Marked(l, r) ensures k in Marked(t, r) {
      var d :| d in l.decisions && MarkedFor(d, r) && k == KeyOfSource(SourceOf(d));
      var i :| 0 <= i < |l.decisions| && l.decisions[i] == d;
      assert t.decisions[i] in t.decisions && MarkedFor(t.decisions[i], r);
    }
  }

  lemma MarksStayTransitive(l: Ledger, t: Ledger, u: Ledger)
    requires MarksStay(l, t) && MarksStay(t, u)
    ensures MarksStay(l, u)
  {
    forall i | 0 <= i < |l.decisions| ensures SameRow(l.decisions[i], u.decisions[i]) {
      assert SameRow(l.decisions[i], t.decisions[i]) && SameRow(t.decisions[i], u.decisions[i]);
    }
  }

  /** Every mark is new on a decision of this Run for this principal, or was there before. */
  ghost predicate MarksOnlyBy(l: Ledger, t: Ledger, r: Option<Id>, p: Id) {
    && t.env == l.env && t.grants == l.grants
    && forall i :: 0 <= i < |t.decisions| && t.decisions[i].mark.Some? ==>
         || (i < |l.decisions| && l.decisions[i].mark.Some?)
         || (t.decisions[i].runId == r && t.decisions[i].tuple.principalId == p)
  }

  ghost predicate Extends(l: Ledger, t: Ledger, r: Option<Id>, p: Id) {
    MarksStay(l, t) && MarksOnlyBy(l, t, r, p)
  }

  lemma ExtendsTransitive(l: Ledger, t: Ledger, u: Ledger, r: Option<Id>, p: Id)
    requires Extends(l, t, r, p) && Extends(t, u, r, p)
    ensures Extends(l, u, r, p)
  {
    MarksStayTransitive(l, t, u);
    forall i | 0 <= i < |u.decisions| && u.decisions[i].mark.Some?
      ensures (i < |l.decisions| && l.decisions[i].mark.Some?)
              || (u.decisions[i].runId == r && u.decisions[i].tuple.principalId == p)
    {
      if i < |t.decisions| {
        assert SameRow(t.decisions[i], u.decisions[i]);
      }
    }
  }

  lemma ExtendsItself(l: Ledger, r: Option<Id>, p: Id)
    ensures Extends(l, l, r, p)
  {
  }

  // ---------------------------------------------------------------------------------------
  // One evaluation, one mark

  /** An evaluation appends one unmarked decision about its request. */
  lemma EvaluateAppends(l: Ledger, req: Request, completed: Option<nat>, now: int)
    ensures var (t, j) := Evaluate(l, req, completed, now);
            && t.decisions == l.decisions + [Recorded(req, j)] && t.env == l.env && t.grants == l.grants
            && Extends(l, t, req.runId, req.tuple.principalId)
  {
  }

  lemma MarkSets(l: Ledger, i: nat, m: Mark)
    requires i < |l.decisions| && l.decisions[i].verdict.Allow? && l.decisions[i].mark.None?
    ensures var t := SetMark(l, i, m);
            && t == l.(decisions := l.decisions[i := l.decisions[i].(mark := Some(m))])
            && Extends(l, t, l.decisions[i].runId, l.decisions[i].tuple.principalId)
  {
  }

  // ---------------------------------------------------------------------------------------
  // Sources of a Run

  function KeysOf(sources: seq<Source>): set<Key> {
    set src | src in sources :: KeyOfSource(src)
  }

  ghost predicate HasSource(ds: seq<Decision>, runs: set<Id>, principal: Option<Id>, src: Source) {
    exists i :: 0 <= i < |ds| && SourceAt(ds[i], runs, principal, src)
  }

  predicate SourceAt(d: Decision, runs: set<Id>, principal: Option<Id>, src: Source) {
    && d.runId.Some? && d.runId.value in runs && MarkedFor(d, d.runId.value)
    && (principal.Some? ==> d.tuple.principalId == principal.value) && SourceOf(d) == src
  }

  lemma {:induction false} SourceRowsAreExact(ds: seq<Decision>, runs: set<Id>, principal: Option<Id>, src: Source)
    ensures src in SourceRows(ds, runs, principal) <==> HasSource(ds, runs, principal, src)
    decreases |ds|
  {
    if ds != [] {
      var before := ds[..|ds| - 1];
      SourceRowsAreExact(before, runs, principal, src);
      if HasSource(before, runs, principal, src) {
        var i :| 0 <= i < |before| && SourceAt(before[i], runs, principal, src);
        assert SourceAt(ds[i], runs, principal, src);
      }
      if HasSource(ds, runs, principal, src) {
        var i :| 0 <= i < |ds| && SourceAt(ds[i], runs, principal, src);
        if i < |before| {
          assert SourceAt(before[i], runs, principal, src);
        }
      }
    }
  }

  ghost predicate Distinct(rows: seq<Source>) {
    forall i, j :: 0 <= i < j < |rows| ==> rows[i] != rows[j]
  }

  /** Each source is rechecked once, however many decisions it was marked on. */
  lemma {:induction false} SourceRowsAreDistinct(ds: seq<Decision>, runs: set<Id>, principal: Option<Id>)
    ensures Distinct(SourceRows(ds, runs, principal))
    decreases |ds|
  {
    if ds != [] {
      var before, rows := SourceRows(ds[..|ds| - 1], runs, principal), SourceRows(ds, runs, principal);
      SourceRowsAreDistinct(ds[..|ds| - 1], runs, principal);
      if rows != before {
        var last := SourceOf(ds[|ds| - 1]);
        assert rows == before + [last] && last !in before;
        forall i, j | 0 <= i < j < |rows| ensures rows[i] != rows[j] {
          assert rows[i] == before[i];
        }
      }
    }
  }

  /** The rows cover everything marked on each of the Runs. */
  lemma RowsCoverMarks(l: Ledger, runs: set<Id>, r: Id)
    requires r in runs
    ensures Marked(l, r) <= KeysOf(SourceRows(l.decisions, runs, None))
  {
    forall k | k in Marked(l, r) ensures k in KeysOf(SourceRows(l.decisions, runs, None)) {
      var d :| d in l.decisions && MarkedFor(d, r) && k == KeyOfSource(SourceOf(d));
      var i :| 0 <= i < |l.decisions| && l.decisions[i] == d;
      assert SourceAt(l.decisions[i], runs, None, SourceOf(d));
      SourceRowsAreExact(l.decisions, runs, None, SourceOf(d));
    }
  }

  // ---------------------------------------------------------------------------------------
  // Rechecking lists of sources

  /** The decision an inspection leaves for one source. */
  ghost predicate DecidedFor(d: Decision, caller: Caller, ev: Evidence, src: Source) {
    && d.tuple == SourceRequest(caller, src, ev).tuple && d.verdict.Allow? && d.runId == ev.runId && d.condition == src.condition
  }

  lemma DecidedNow(l: Ledger, caller: Caller, ev: Evidence, src: Source, now: int)
    requires Evaluate(l, SourceRequest(caller, src, ev), None, now).1.verdict.Allow?
    ensures var t := Evaluate(l, SourceRequest(caller, src, ev), None, now).0;
            |t.decisions| == |l.decisions| + 1
            && DecidedFor(t.decisions[|l.decisions|], caller, ev, src) && t.decisions[|l.decisions|].mark.None?
  {
    EvaluateAppends(l, SourceRequest(caller, src, ev), None, now);
  }

  /** From `start` on, one unmarked decision per source, in order. */
  ghost predicate DecidedInOrder(l: Ledger, start: nat, caller: Caller, ev: Evidence, sources: seq<Source>) {
    && start + |sources| <= |l.decisions|
    && forall i :: start <= i < start + |sources| ==>
         DecidedFor(l.decisions[i], caller, ev, sources[i - start]) && l.decisions[i].mark.None?
  }

  lemma OneMoreDecided(l: Ledger, start: nat, caller: Caller, ev: Evidence, sources: seq<Source>)
    requires sources != [] && start < |l.decisions|
    requires DecidedFor(l.decisions[start], caller, ev, sources[0]) && l.decisions[start].mark.None?
    requires DecidedInOrder(l, start + 1, caller, ev, sources[1..])
    ensures DecidedInOrder(l, start, caller, ev, sources)
  {
    var rest := sources[1..];
    forall i | start <= i < start + |sources|
      ensures DecidedFor(l.decisions[i], caller, ev, sources[i - start]) && l.decisions[i].mark.None?
    {
      if i > start {
        assert rest[i - (start + 1)] == sources[i - start];
      }
    }
  }

  lemma {:induction false} InspectAppends(l: Ledger, caller: Caller, ev: Evidence, sources: seq<Source>, now: int)
    ensures l.decisions <= Inspect(l, caller, ev, sources, now).0.decisions
    ensures Extends(l, Inspect(l, caller, ev, sources, now).0, ev.runId, caller.principalId)
    decreases |sources|
  {
    ExtendsItself(l, ev.runId, caller.principalId);
    if sources != [] {
      var req := SourceRequest(caller, sources[0], ev);
      var t := Evaluate(l, req, None, now).0;
      EvaluateAppends(l, req, None, now);
      InspectAppends(t, caller, ev, sources[1..], now);
      ExtendsTransitive(l, t, Inspect(t, caller, ev, sources[1..], now).0, ev.runId, caller.principalId);
    }
  }

  lemma {:induction false} InspectDecides(l: Ledger, caller: Caller, ev: Evidence, sources: seq<Source>, now: int)
    requires Inspect(l, caller, ev, sources, now).1
    ensures DecidedInOrder(Inspect(l, caller, ev, sources, now).0, |l.decisions|, caller, ev, sources)
    decreases |sources|
  {
    if sources != [] {
      var t := Evaluate(l, SourceRequest(caller, sources[0], ev), None, now).0;
      DecidedNow(l, caller, ev, sources[0], now);
      InspectDecides(t, caller, ev, sources[1..], now);
      InspectAppends(t, caller, ev, sources[1..], now);
      var u := Inspect(t, caller, ev, sources[1..], now).0;
      assert u.decisions[|l.decisions|] == t.decisions[|l.decisions|];
      OneMoreDecided(u, |l.decisions|, caller, ev, sources);
    }
  }

  /** Marking makes those sources' keys part of what the Run carries. */
  lemma {:induction false} MarkFromDoes(l: Ledger, start: nat, caller: Caller, ev: Evidence, sources: seq<Source>, r: Id)
    requires ev.runId == Some(r) && DecidedInOrder(l, start, caller, ev, sources)
    ensures var t := MarkFrom(l, start, sources);
            Extends(l, t, Some(r), caller.principalId) && KeysOf(sources) <= Marked(t, r)
    decreases |sources|
  {
    if sources == [] {
      ExtendsItself(l, Some(r), caller.principalId);
    } else {
      assert DecidedFor(l.decisions[start], caller, ev, sources[0]);
      var m := Classification(sources[0].mark);
      var t := SetMark(l, start, m);
      MarkSets(l, start, m);
      var rest := sources[1..];
      assert DecidedInOrder(t, start + 1, caller, ev, rest) by {
        RestStaysDecided(l, t, start, caller, ev, sources);
      }
      MarkFromDoes(t, start + 1, caller, ev, rest, r);
      var u := MarkFrom(t, start + 1, rest);
      ExtendsTransitive(l, t, u, Some(r), caller.principalId);
      MarkedStays(t, u, r);
      FreshlyMarked(t, start, caller, ev, sources[0], r);
      assert forall src :: src in sources ==> src == sources[0] || src in rest;
    }
  }

  lemma RestStaysDecided(l: Ledger, t: Ledger, start: nat, caller: Caller, ev: Evidence, sources: seq<Source>)
    requires sources != [] && DecidedInOrder(l, start, caller, ev, sources)
    requires |t.decisions| == |l.decisions| && forall i :: start < i < |l.decisions| ==> t.decisions[i] == l.decisions[i]
    ensures DecidedInOrder(t, start + 1, caller, ev, sources[1..])
  {
    var rest := sources[1..];
    forall i | start + 1 <= i < start + 1 + |rest|
      ensures DecidedFor(t.decisions[i], caller, ev, rest[i - (start + 1)]) && t.decisions[i].mark.None?
    {
      assert rest[i - (start + 1)] == sources[i - start];
    }
  }

  lemma FreshlyMarked(t: Ledger, i: nat, caller: Caller, ev: Evidence, src: Source, r: Id)
    requires i < |t.decisions| && DecidedFor(t.decisions[i], caller, ev, src) && ev.runId == Some(r)
    requires t.decisions[i].mark == Some(Classification(src.mark))
    ensures KeyOfSource(src) in Marked(t, r)
  {
    var d := t.decisions[i];
    assert d in t.decisions && MarkedFor(d, r) && KeyOfSource(SourceOf(d)) == KeyOfSource(src);
  }

  lemma {:induction false} ReauthorizeDoes(l: Ledger, caller: Caller, ev: Evidence, sources: seq<Source>, now: int, r: Id)
    requires ev.runId == Some(r)
    ensures var (t, ok) := Reauthorize(l, caller, ev, sources, now);
            Extends(l, t, Some(r), caller.principalId) && (ok ==> KeysOf(sources) <= Marked(t, r))
    decreases |sources|
  {
    if sources == [] {
      ExtendsItself(l, Some(r), caller.principalId);
    } else {
      var req := SourceRequest(caller, sources[0], ev);
      var (t, j) := Evaluate(l, req, None, now);
      EvaluateAppends(l, req, None, now);
      if j.verdict.Allow? {
        var m := Classification(sources[0].mark);
        var u := SetMark(t, |l.decisions|, m);
        DecidedNow(l, caller, ev, sources[0], now);
        MarkSets(t, |l.decisions|, m);
        ExtendsTransitive(l, t, u, Some(r), caller.principalId);
        FreshlyMarked(u, |l.decisions|, caller, ev, sources[0], r);
        var rest := sources[1..];
        ReauthorizeDoes(u, caller, ev, rest, now, r);
        var v := Reauthorize(u, caller, ev, rest, now).0;
        ExtendsTransitive(l, u, v, Some(r), caller.principalId);
        MarkedStays(u, v, r);
        assert forall src :: src in sources ==> src == sources[0] || src in rest;
      }
    }
  }
}
