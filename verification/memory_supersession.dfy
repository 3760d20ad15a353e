/** Supersession is acyclic and inactivity is permanent, over every history. */
module MemorySupersession {
  import opened Options
  import opened MemoryModel

  /** The index holds exactly the active rows, one per signature. */
  ghost predicate IndexInv(s: State) {
    && (forall sig :: sig in s.index ==>
          s.index[sig] in s.memories && s.memories[s.index[sig]].state.Active? && s.memories[s.index[sig]].signature == sig)
    && (forall id :: id in s.memories && s.memories[id].state.Active? ==>
          s.memories[id].signature in s.index && s.index[s.memories[id].signature] == id)
  }

  /** The log holds exactly the rows that are no longer active, each once. */
  ghost predicate LogInv(s: State) {
    && (forall i, j :: 0 <= i < j < |s.log| ==> s.log[i] != s.log[j])
    && (forall id :: id in s.log <==> id in s.memories && !s.memories[id].state.Active?)
  }

  /** A row only supersedes rows that stopped being active, and earlier than itself. */
  ghost predicate OrderInv(s: State) {
    && (forall x, y :: x in s.memories && y in s.memories[x].supersedes ==> y in s.log)
    && (forall j :: 0 <= j < |s.log| && s.log[j] in s.memories ==> AllIn(s.memories[s.log[j]].supersedes, s.log[..j]))
  }

  ghost predicate AllIn(xs: seq<Id>, ys: seq<Id>) {
    forall x :: x in xs ==> x in ys
  }

  ghost predicate Inv(s: State) {
    IndexInv(s) && LogInv(s) && OrderInv(s)
  }

  /** No row disappears; one that is not active keeps its state and what it supersedes. */
  ghost predicate Settled(s: State, t: State) {
    && s.log <= t.log
    && forall id :: id in s.memories ==>
         && id in t.memories
         && (!s.memories[id].state.Active? ==>
               t.memories[id].state == s.memories[id].state && t.memories[id].supersedes == s.memories[id].supersedes)
  }

  lemma SettledTransitive(s: State, t: State, u: State)
    requires Settled(s, t) && Settled(t, u)
    ensures Settled(s, u)
  {
  }

  /** The row may be written: an inactive one only as it is, any other one superseding only rows
      that are no longer active; a new one is active. */
  ghost predicate MayWrite(s: State, id: Id, m: Memory) {
    if id in s.memories && !s.memories[id].state.Active? then
      m.state == s.memories[id].state && m.supersedes == s.memories[id].supersedes
    else AllIn(m.supersedes, s.log) && id !in m.supersedes && (id in s.memories || m.state.Active?)
  }

  lemma WriteKeepsIndex(s: State, id: Id, m: Memory)
    requires Inv(s) && MayWrite(s, id, m) && Write(s, id, m).Some?
    ensures IndexInv(Write(s, id, m).value)
  {
  }

  lemma WriteKeepsLog(s: State, id: Id, m: Memory)
    requires Inv(s) && MayWrite(s, id, m) && Write(s, id, m).Some?
    ensures LogInv(Write(s, id, m).value) && Settled(s, Write(s, id, m).value)
  {
    var t := Write(s, id, m).value;
    if t.log != s.log {
      assert t.log == s.log + [id] && id !in s.log;
    }
  }

  lemma WriteKeepsOrder(s: State, id: Id, m: Memory)
    requires Inv(s) && MayWrite(s, id, m) && Write(s, id, m).Some?
    ensures OrderInv(Write(s, id, m).value)
  {
    var t := Write(s, id, m).value;
    assert s.log <= t.log;
    forall x, y | x in t.memories && y in t.memories[x].supersedes ensures y in t.log {
      if x == id && !(id in s.memories && !s.memories[id].state.Active?) {
        assert y in s.log;
      } else {
        assert x in s.memories && y in s.memories[x].supersedes;
      }
    }
    forall j | 0 <= j < |t.log| ensures AllIn(t.memories[t.log[j]].supersedes, t.log[..j]) {
      if j < |s.log| {
        assert t.log[..j] == s.log[..j] && t.log[j] == s.log[j];
        assert s.log[j] in s.log;
      } else {
        assert t.log[j] == id && t.log[..j] == s.log;
      }
    }
  }

  lemma WriteKeeps(s: State, id: Id, m: Memory)
    requires Inv(s) && MayWrite(s, id, m)
    ensures Write(s, id, m).Some? ==> Inv(Write(s, id, m).value) && Settled(s, Write(s, id, m).value)
  {
    if Write(s, id, m).Some? {
      WriteKeepsIndex(s, id, m);
      WriteKeepsLog(s, id, m);
      WriteKeepsOrder(s, id, m);
    }
  }

  function KeptSources(s: State, id: Id, sources: Option<set<Key>>): set<Key> {
    (if sources.Some? then sources.value else {}) + if id in s.memories then s.memories[id].sources else {}
  }

  lemma PersistWrites(s: State, id: Id, m: Memory, sources: Option<set<Key>>)
    ensures Persist(s, id, m, sources).Some? ==>
              Persist(s, id, m, sources) == Write(s, id, m.(sources := KeptSources(s, id, sources)))
  {
    var stored := if id in s.memories then s.memories[id].sources else {};
    assert KeptSources(s, id, sources) == if sources.None? then stored else sources.value + stored;
  }

  /** What a written row changes: itself, and the log when it stops being active. */
  ghost predicate Wrote(s: State, t: State, id: Id, m: Memory, kept: set<Key>) {
    && t.memories == s.memories[id := m.(sources := kept)] && t.candidates == s.candidates
    && t.log == (if id in s.memories && s.memories[id].state.Active? && !m.state.Active? then s.log + [id] else s.log)
  }

  lemma WriteDoes(s: State, id: Id, m: Memory)
    requires (id in s.memories || m.state.Active?) && Write(s, id, m).Some?
    ensures Wrote(s, Write(s, id, m).value, id, m, m.sources)
  {
  }

  lemma PersistKeeps(s: State, id: Id, m: Memory, sources: Option<set<Key>>)
    requires Inv(s) && MayWrite(s, id, m)
    ensures var t := Persist(s, id, m, sources);
            t.Some? ==> Inv(t.value) && Settled(s, t.value) && Wrote(s, t.value, id, m, KeptSources(s, id, sources))
  {
    if Persist(s, id, m, sources).Some? {
      var row := m.(sources := KeptSources(s, id, sources));
      PersistWrites(s, id, m, sources);
      assert MayWrite(s, id, row);
      WriteKeeps(s, id, row);
      WriteDoes(s, id, row);
    }
  }

  // ---------------------------------------------------------------------------------------
  // Promotion

  lemma {:induction false} UniqueIsExact(xs: seq<Id>, x: Id)
    ensures x in Unique(xs) <==> x in xs
    decreases |xs|
  {
    if xs != [] {
      UniqueIsExact(xs[..|xs| - 1], x);
    }
  }

  lemma OwnRowMayBeWritten(s: State, id: Id, m: Memory)
    requires Inv(s) && id in s.memories && m.supersedes == s.memories[id].supersedes
    requires s.memories[id].state.Active? || m.state == s.memories[id].state
    ensures MayWrite(s, id, m)
  {
    if s.memories[id].state.Active? {
      assert AllIn(m.supersedes, s.log) && id !in s.log;
    }
  }

  lemma ExpireKeeps(s: State, id: Id, now: int)
    requires Inv(s) && id in s.memories && s.memories[id].state.Active?
    ensures var t := Persist(s, id, s.memories[id].(state := Expired, updatedAt := now), None);
            t.Some? ==> Inv(t.value) && Settled(s, t.value) && t.value.log == s.log + [id]
                        && t.value.memories.Keys == s.memories.Keys && t.value.candidates == s.candidates
  {
    var row := s.memories[id].(state := Expired, updatedAt := now);
    OwnRowMayBeWritten(s, id, row);
    PersistKeeps(s, id, row, None);
  }

  lemma AbsorbKeeps(s: State, sig: Signature, sources: set<Key>, now: int)
    requires Inv(s)
    ensures var a := Absorb(s, sig, sources, now);
            a.Some? ==>
              && Inv(a.value.0) && Settled(s, a.value.0) && a.value.0.memories.Keys == s.memories.Keys
              && AllIn(a.value.2, a.value.0.log) && a.value.0.candidates == s.candidates
  {
    var overdue := Overdue(s, sig, now);
    if overdue.Some? {
      ExpireKeeps(s, overdue.value, now);
    }
  }

  lemma FinishKeeps(s: State, cid: Id, id: Id, m: Memory, sources: set<Key>)
    requires Inv(s) && MayWrite(s, id, m) && cid in s.candidates
    ensures var r := Finish(s, cid, id, m, sources); r.Some? ==> Inv(r.value.0) && Settled(s, r.value.0)
  {
    PersistKeeps(s, id, m, Some(sources));
  }

  lemma MergedMayBeWritten(s: State, id: Id, incoming: Memory, merged: string, strategy: Strategy, now: int)
    requires Inv(s) && id in s.memories && s.memories[id].state.Active? && incoming.state.Active? && AllIn(incoming.supersedes, s.log)
    ensures var row := MergeInto(s.memories[id], incoming, merged, strategy, now); row.Some? ==> MayWrite(s, id, row.value)
  {
    var m := s.memories[id];
    assert AllIn(m.supersedes, s.log) && id !in s.log;
    forall x ensures x in Unique(m.supersedes + incoming.supersedes) ==> x in s.log {
      UniqueIsExact(m.supersedes + incoming.supersedes, x);
    }
  }

  lemma RetireKeeps(s: State, id: Id, now: int)
    requires Inv(s) && id in s.memories && s.memories[id].state.Active?
    ensures var t := Persist(s, id, s.memories[id].(state := Retired, updatedAt := now), None);
            t.Some? ==> Inv(t.value) && Settled(s, t.value) && t.value.log == s.log + [id]
                        && t.value.memories.Keys == s.memories.Keys && t.value.candidates == s.candidates
  {
    var row := s.memories[id].(state := Retired, updatedAt := now);
    OwnRowMayBeWritten(s, id, row);
    PersistKeeps(s, id, row, None);
  }

  lemma JoinedLists(log: seq<Id>, x: Id, a: seq<Id>, b: seq<Id>)
    requires AllIn(a, log) && AllIn(b, log)
    ensures AllIn([x] + a + b, log + [x])
  {
    forall y | y in [x] + a + b ensures y in log + [x] {
      assert y == x || y in a || y in b;
    }
  }

  /** What the invariant says of one row and one log entry. */
  lemma RowFacts(s: State, id: Id, other: Id)
    requires Inv(s) && id in s.memories && other !in s.memories
    ensures AllIn(s.memories[id].supersedes, s.log) && other !in s.log
    ensures s.memories[id].state.Active? <==> id !in s.log
  {
  }

  lemma ReplaceRowKeeps(s: State, existing: Id, incoming: Memory, newId: Id, sources: set<Key>, now: int)
    requires Inv(s) && existing in s.memories && s.memories[existing].state.Active? && newId !in s.memories
    requires incoming.state.Active? && AllIn(incoming.supersedes, s.log)
    ensures var t := ReplaceRow(s, existing, incoming, newId, sources, now);
            t.Some? ==> Inv(t.value) && Settled(s, t.value) && t.value.candidates == s.candidates
  {
    RetireKeeps(s, existing, now);
    var retired := Persist(s, existing, s.memories[existing].(state := Retired, updatedAt := now), None);
    if retired.Some? {
      var t := retired.value;
      var row := incoming.(supersedes := [existing] + s.memories[existing].supersedes + incoming.supersedes);
      RowFacts(s, existing, newId);
      RowFacts(t, existing, newId);
      JoinedLists(s.log, existing, s.memories[existing].supersedes, incoming.supersedes);
      PersistKeeps(t, newId, row, Some(sources));
    }
  }

  lemma SettleKeeps(s: State, cid: Id, c: Candidate, existing: Id, incoming: Memory, newId: Id, merged: string, sources: set<Key>,
                    now: int)
    requires Inv(s) && existing in s.memories && s.memories[existing].state.Active? && cid in s.candidates
    requires newId !in s.memories && incoming.state.Active? && AllIn(incoming.supersedes, s.log)
    ensures var r := Settle(s, cid, c, existing, incoming, newId, merged, sources, now); r.Some? ==> Inv(r.value.0) && Settled(s, r.value.0)
  {
    var was := s.memories[existing];
    assert AllIn(was.supersedes, s.log) && existing !in s.log;
    if was.about == incoming.about {
      if Retires(c) {
        FinishKeeps(s, cid, existing, was.(state := Retired, updatedAt := now), sources);
      } else {
        var inherited := if c.kind.Correction? then incoming.(terms := Inherit(was.terms, incoming.terms)) else incoming;
        MergeKeeps(s, cid, c, existing, inherited, newId, merged, sources, now);
      }
    }
  }

  lemma MergeKeeps(s: State, cid: Id, c: Candidate, existing: Id, inherited: Memory, newId: Id, merged: string, sources: set<Key>,
                   now: int)
    requires Inv(s) && existing in s.memories && s.memories[existing].state.Active? && cid in s.candidates
    requires newId !in s.memories && inherited.state.Active? && AllIn(inherited.supersedes, s.log)
    ensures var r := ReplaceReviewed(s, cid, existing, inherited, newId, sources, now); r.Some? ==> Inv(r.value.0) && Settled(s, r.value.0)
    ensures var row := MergeInto(s.memories[existing], inherited, merged, Resolved(c), now);
            row.Some? ==>
              var r := Finish(s, cid, existing, row.value, sources); r.Some? ==> Inv(r.value.0) && Settled(s, r.value.0)
  {
    ReplaceRowKeeps(s, existing, inherited, newId, sources, now);
    MergedMayBeWritten(s, existing, inherited, merged, Resolved(c), now);
    var row := MergeInto(s.memories[existing], inherited, merged, Resolved(c), now);
    if row.Some? {
      FinishKeeps(s, cid, existing, row.value, sources);
    }
  }

  lemma PromoteKeeps(s: State, cid: Id, newId: Id, merged: string, now: int)
    requires Inv(s)
    ensures var r := Promote(s, cid, newId, merged, now); r.Some? ==> Inv(r.value.0) && Settled(s, r.value.0)
  {
    if cid in s.candidates && newId !in s.memories {
      var c := s.candidates[cid];
      var absorbed := Absorb(s, Signed(c), c.sources, now);
      AbsorbKeeps(s, Signed(c), c.sources, now);
      if absorbed.Some? {
        var (t, sources, gone) := absorbed.value;
        var incoming := Canonical(c, now).(supersedes := gone);
        assert newId !in t.memories && newId !in t.log;
        NewRowKeeps(t, cid, newId, incoming, sources);
        MatchKeeps(t, cid, c, incoming, newId, merged, sources, now);
      }
    }
  }

  lemma NewRowKeeps(t: State, cid: Id, newId: Id, incoming: Memory, sources: set<Key>)
    requires Inv(t) && cid in t.candidates && newId !in t.memories && incoming.state.Active? && AllIn(incoming.supersedes, t.log)
    ensures var r := Finish(t, cid, newId, incoming, sources); r.Some? ==> Inv(r.value.0) && Settled(t, r.value.0)
  {
    assert newId !in t.log;
    FinishKeeps(t, cid, newId, incoming, sources);
  }

  lemma MatchKeeps(t: State, cid: Id, c: Candidate, incoming: Memory, newId: Id, merged: string, sources: set<Key>, now: int)
    requires Inv(t) && cid in t.candidates && newId !in t.memories && incoming.state.Active? && AllIn(incoming.supersedes, t.log)
    ensures var existing := MatchOf(t, c, now);
            existing.Some? ==>
              var all := Union(sources, t.memories[existing.value].sources);
              all.Some? ==>
                var r := Settle(t, cid, c, existing.value, incoming, newId, merged, all.value, now);
                r.Some? ==> Inv(r.value.0) && Settled(t, r.value.0)
  {
    var existing := MatchOf(t, c, now);
    if existing.Some? {
      var all := Union(sources, t.memories[existing.value].sources);
      if all.Some? {
        SettleKeeps(t, cid, c, existing.value, incoming, newId, merged, all.value, now);
      }
    }
  }

  lemma ConfirmKeeps(s: State, id: Id, now: int)
    requires Inv(s)
    ensures var t := Confirm(s, id, now); t.Some? ==> Inv(t.value) && Settled(s, t.value)
  {
    if id in s.memories {
      assert s.memories[id].state.Active? ==> AllIn(s.memories[id].supersedes, s.log) && id !in s.log;
      PersistKeeps(s, id, s.memories[id].(updatedAt := now), None);
    }
  }

  // ---------------------------------------------------------------------------------------
  // Everything else

  lemma SupersedeKeeps(s: State, id: Id, cid: Id, c: Candidate, newId: Id, now: int)
    requires Inv(s)
    ensures var r := Supersede(s, id, cid, c, newId, now); r.Some? ==> Inv(r.value.0) && Settled(s, r.value.0)
  {
    if Supersede(s, id, cid, c, newId, now).Some? {
      var t := InsertCandidate(s, cid, AsCorrection(c, id), None).value.0;
      SameRowsKeep(s, t);
      var row := Canonical(c, now).(terms := Inherit(s.memories[id].terms, Canonical(c, now).terms));
      var sources := Union(s.memories[id].sources, c.sources).value;
      ReplaceRowKeeps(t, id, row, newId, sources, now);
      var u := ReplaceRow(t, id, row, newId, sources, now).value;
      SameRowsKeep(u, Superseded(u, cid, newId));
    }
  }

  lemma SameRowsKeep(s: State, t: State)
    requires Inv(s) && t.memories == s.memories && t.index == s.index && t.log == s.log
    ensures Inv(t) && Settled(s, t)
  {
  }

  lemma UpdateKeeps(s: State, id: Id, statement: string, content: string, ttl: Option<nat>, now: int)
    requires Inv(s)
    ensures var t := Update(s, id, statement, content, ttl, now); t.Some? ==> Inv(t.value) && Settled(s, t.value)
  {
    if id in s.memories && Current(s.memories[id], now) {
      var row := Edited(s.memories[id], statement, content, ttl, now);
      OwnRowMayBeWritten(s, id, row);
      PersistKeeps(s, id, row, None);
    }
  }

  lemma SetLifecycleKeeps(s: State, id: Id, state: Lifecycle, now: int)
    requires Inv(s)
    ensures var t := SetLifecycle(s, id, state, now); t.Some? ==> Inv(t.value) && Settled(s, t.value)
  {
    if id in s.memories && s.memories[id].state.Active? {
      var row := s.memories[id].(state := state, updatedAt := now);
      OwnRowMayBeWritten(s, id, row);
      WriteKeeps(s, id, row);
    }
  }

  lemma MarkUsedKeeps(s: State, id: Id, now: int)
    requires Inv(s)
    ensures var t := MarkUsed(s, id, now); t.Some? ==> Inv(t.value) && Settled(s, t.value)
  {
    if id in s.memories {
      var row := s.memories[id].(uses := s.memories[id].uses + 1);
      OwnRowMayBeWritten(s, id, row);
      PersistKeeps(s, id, row, None);
    }
  }

  lemma StepKeeps(s: State, e: Event)
    requires Inv(s)
    ensures Inv(Step(s, e)) && Settled(s, Step(s, e))
  {
    match e {
      case EPromote(cid, newId, merged, now, confirmed) =>
        PromoteKeeps(s, cid, newId, merged, now);
        var promoted := Promote(s, cid, newId, merged, now);
        if confirmed && promoted.Some? {
          ConfirmKeeps(promoted.value.0, promoted.value.1, now);
        }
      case ESupersede(id, cid, c, newId, now) => SupersedeKeeps(s, id, cid, c, newId, now);
      case EUpdate(id, statement, content, ttl, now) => UpdateKeeps(s, id, statement, content, ttl, now);
      case ESetLifecycle(id, state, now) => SetLifecycleKeeps(s, id, state, now);
      case EMarkUsed(id, now) => MarkUsedKeeps(s, id, now);
      case _ => CandidatesOnly(s, e);
    }
  }

  lemma CandidatesOnly(s: State, e: Event)
    requires Inv(s) && (e.EInsert? || e.EReject? || e.EFeedback?)
    ensures Inv(Step(s, e)) && Settled(s, Step(s, e))
  {
    SameRowsKeep(s, Step(s, e));
  }

  // ---------------------------------------------------------------------------------------
  // Histories

  lemma {:induction false} InvAlways(s: State, es: seq<Event>)
    requires Inv(s)
    ensures Inv(After(s, es)) && Settled(s, After(s, es))
    decreases |es|
  {
    if es != [] {
      StepKeeps(s, es[0]);
      InvAlways(Step(s, es[0]), es[1..]);
      SettledTransitive(s, Step(s, es[0]), After(Step(s, es[0]), es[1..]));
    }
  }

  /** Once a memory is not active, no history makes it active again or changes what it superseded. */
  lemma InactivityIsPermanent(s: State, es: seq<Event>, id: Id)
    requires Inv(s) && id in s.memories && !s.memories[id].state.Active?
    ensures id in After(s, es).memories && After(s, es).memories[id].state == s.memories[id].state
            && After(s, es).memories[id].supersedes == s.memories[id].supersedes
  {
    InvAlways(s, es);
  }

  /** A walk along supersedes lists. */
  ghost predicate Supersedes(s: State, path: seq<Id>) {
    && |path| >= 2
    && forall i :: 0 <= i < |path| - 1 ==> path[i] in s.memories && path[i + 1] in s.memories[path[i]].supersedes
  }

  /** Each step of a walk goes further back in the log. */
  lemma {:induction false} WalksGoBack(s: State, path: seq<Id>, j: nat)
    requires Inv(s) && Supersedes(s, path) && j < |s.log| && path[0] == s.log[j]
    ensures path[|path| - 1] in s.log[..j]
    decreases |path|
  {
    assert s.log[j] in s.log && path[1] in s.memories[s.log[j]].supersedes;
    assert path[1] in s.log[..j];
    if |path| > 2 {
      var k :| 0 <= k < j && s.log[k] == path[1];
      var rest := path[1..];
      forall i | 0 <= i < |rest| - 1 ensures rest[i] in s.memories && rest[i + 1] in s.memories[rest[i]].supersedes {
        assert path[i + 1] in s.memories && path[(i + 1) + 1] in s.memories[path[i + 1]].supersedes;
      }
      WalksGoBack(s, rest, k);
    }
  }

  /** In every history, supersedes lists name only inactive memories and never close a cycle. */
  lemma SupersessionIsAcyclic(es: seq<Event>, s: State, path: seq<Id>)
    requires s == After(EMPTY, es) && Supersedes(s, path)
    ensures path[0] != path[|path| - 1]
    ensures forall i :: 0 < i < |path| ==> path[i] in s.memories && !s.memories[path[i]].state.Active?
  {
    InvAlways(EMPTY, es);
    WalksNeverReturn(s, path);
  }

  lemma WalksNeverReturn(s: State, path: seq<Id>)
    requires Inv(s) && Supersedes(s, path)
    ensures path[0] != path[|path| - 1]
    ensures forall i :: 0 < i < |path| ==> path[i] in s.memories && !s.memories[path[i]].state.Active?
  {
    forall i | 0 < i < |path| ensures path[i] in s.log {
      assert path[i - 1] in s.memories && path[(i - 1) + 1] in s.memories[path[i - 1]].supersedes;
    }
    if path[0] in s.log {
      var j :| 0 <= j < |s.log| && s.log[j] == path[0];
      WalksGoBack(s, path, j);
    }
  }
}
