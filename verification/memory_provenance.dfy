/** The sources of a memory never shrink, over every history. */
module MemoryProvenance {
  import opened Options
  import opened MemoryModel
  import opened MemorySupersession

  /** These sources cover everything the listed rows came from. */
  ghost predicate Covers(s: State, sources: set<Key>, ids: seq<Id>) {
    forall y :: y in ids ==> y in s.memories && s.memories[y].sources <= sources
  }

  /** A memory carries the sources of the candidate it was promoted from and of every memory it
      supersedes, at most 128 of them. */
  ghost predicate SourcesInv(s: State) {
    && (forall x :: x in s.memories ==>
          Covers(s, s.memories[x].sources, s.memories[x].supersedes) && |s.memories[x].sources| <= SOURCE_LIMIT)
    && (forall c :: c in s.candidates && s.candidates[c].status.Promoted? ==>
          s.candidates[c].status.memory in s.memories
          && s.candidates[c].sources <= s.memories[s.candidates[c].status.memory].sources)
  }

  /** No source set shrinks, and an inactive memory's does not change. */
  ghost predicate Grew(s: State, t: State) {
    forall x :: x in s.memories ==>
      && x in t.memories && s.memories[x].sources <= t.memories[x].sources
      && (!s.memories[x].state.Active? ==> t.memories[x].sources == s.memories[x].sources)
  }

  lemma GrewTransitive(s: State, t: State, u: State)
    requires Settled(s, t) && Grew(s, t) && Grew(t, u)
    ensures Grew(s, u)
  {
  }

  // ---------------------------------------------------------------------------------------
  // One row

  ghost predicate MayCarry(s: State, id: Id, m: Memory, sources: set<Key>) {
    && |sources| <= SOURCE_LIMIT && id !in m.supersedes && Covers(s, sources, m.supersedes)
    && (id in s.memories ==>
          s.memories[id].sources <= sources && (!s.memories[id].state.Active? ==> sources == s.memories[id].sources))
  }

  lemma WroteCovers(s: State, t: State, id: Id, m: Memory, kept: set<Key>)
    requires Inv(s) && SourcesInv(s) && Wrote(s, t, id, m, kept) && MayCarry(s, id, m, kept)
    ensures SourcesInv(t) && Grew(s, t)
  {
    forall x | x in t.memories ensures Covers(t, t.memories[x].sources, t.memories[x].supersedes) {
      if x == id {
      } else {
        forall y | y in s.memories[x].supersedes ensures y in t.memories && t.memories[y].sources <= t.memories[x].sources {
          assert y in s.log;
        }
      }
    }
  }

  lemma PersistCovers(s: State, id: Id, m: Memory, sources: Option<set<Key>>)
    requires Inv(s) && SourcesInv(s) && MayWrite(s, id, m) && id !in m.supersedes
    requires Covers(s, KeptSources(s, id, sources), m.supersedes)
    requires id in s.memories && !s.memories[id].state.Active? ==> sources.None?
    ensures var t := Persist(s, id, m, sources);
            t.Some? ==> SourcesInv(t.value) && Grew(s, t.value) && id in t.value.memories
                        && t.value.memories[id].sources == KeptSources(s, id, sources)
  {
    PersistKeeps(s, id, m, sources);
    var t := Persist(s, id, m, sources);
    if t.Some? {
      var kept := KeptSources(s, id, sources);
      assert sources.None? ==> kept == s.memories[id].sources;
      assert |kept| <= SOURCE_LIMIT;
      WroteCovers(s, t.value, id, m, kept);
    }
  }

  /** Rewriting a row as it supersedes now. */
  lemma OwnRowCovers(s: State, id: Id, m: Memory, sources: Option<set<Key>>)
    requires Inv(s) && SourcesInv(s) && id in s.memories && m.supersedes == s.memories[id].supersedes
    requires s.memories[id].state.Active? || (m.state == s.memories[id].state && sources.None?)
    ensures var t := Persist(s, id, m, sources);
            t.Some? ==> SourcesInv(t.value) && Grew(s, t.value) && t.value.memories[id].sources == KeptSources(s, id, sources)
                        && Inv(t.value) && Settled(s, t.value) && Wrote(s, t.value, id, m, KeptSources(s, id, sources))
  {
    OwnRowMayBeWritten(s, id, m);
    OwnRowIsNotItsOwn(s, id);
    PersistKeeps(s, id, m, sources);
    PersistCovers(s, id, m, sources);
  }

  lemma OwnRowIsNotItsOwn(s: State, id: Id)
    requires Inv(s) && id in s.memories
    ensures id !in s.memories[id].supersedes
  {
    if id in s.memories[id].supersedes {
      WalksNeverReturn(s, [id, id]);
    }
  }

  // ---------------------------------------------------------------------------------------
  // Promotion

  /** The overdue row's sources come along. */
  lemma ExpiredCovers(s: State, x: Id, now: int, sources: set<Key>)
    requires Inv(s) && SourcesInv(s) && x in s.memories && s.memories[x].state.Active?
    ensures var t := Persist(s, x, s.memories[x].(state := Expired, updatedAt := now), None);
            t.Some? ==> SourcesInv(t.value) && Grew(s, t.value) && Covers(t.value, sources + s.memories[x].sources, [x])
  {
    OwnRowCovers(s, x, s.memories[x].(state := Expired, updatedAt := now), None);
  }

  lemma AbsorbCovers(s: State, sig: Signature, sources: set<Key>, now: int)
    requires Inv(s) && SourcesInv(s)
    ensures var a := Absorb(s, sig, sources, now);
            a.Some? ==>
              && SourcesInv(a.value.0) && Grew(s, a.value.0) && sources <= a.value.1 && Covers(a.value.0, a.value.1, a.value.2)
              && (var overdue := Overdue(s, sig, now); overdue.Some? ==> s.memories[overdue.value].sources <= a.value.1)
  {
    var overdue := Overdue(s, sig, now);
    if overdue.Some? {
      ExpiredCovers(s, overdue.value, now, sources);
    }
  }

  lemma ReviewedCovers(t: State, cid: Id, id: Id)
    requires SourcesInv(t) && cid in t.candidates && id in t.memories && t.candidates[cid].sources <= t.memories[id].sources
    ensures SourcesInv(Reviewed(t, cid, id))
  {
  }

  /** What a promotion that wrote `id` has to leave behind. */
  ghost predicate Carried(s: State, r: (State, Id), sources: set<Key>) {
    && SourcesInv(r.0) && Grew(s, r.0) && r.1 in r.0.memories && sources <= r.0.memories[r.1].sources
  }

  lemma FinishCovers(s: State, cid: Id, id: Id, m: Memory, sources: set<Key>)
    requires Inv(s) && SourcesInv(s) && MayWrite(s, id, m) && cid in s.candidates && s.candidates[cid].sources <= sources
    requires id !in m.supersedes && Covers(s, KeptSources(s, id, Some(sources)), m.supersedes)
    requires id in s.memories ==> s.memories[id].state.Active?
    ensures var r := Finish(s, cid, id, m, sources); r.Some? ==> Carried(s, r.value, sources)
  {
    PersistKeeps(s, id, m, Some(sources));
    PersistCovers(s, id, m, Some(sources));
    var t := Persist(s, id, m, Some(sources));
    if t.Some? {
      ReviewedCovers(t.value, cid, id);
    }
  }

  lemma ReplaceRowCovers(s: State, existing: Id, incoming: Memory, newId: Id, sources: set<Key>, now: int)
    requires Inv(s) && SourcesInv(s) && existing in s.memories && s.memories[existing].state.Active? && newId !in s.memories
    requires incoming.state.Active? && AllIn(incoming.supersedes, s.log)
    requires s.memories[existing].sources <= sources && Covers(s, sources, incoming.supersedes)
    ensures var t := ReplaceRow(s, existing, incoming, newId, sources, now);
            t.Some? ==> SourcesInv(t.value) && Grew(s, t.value) && t.value.candidates == s.candidates
                        && newId in t.value.memories && t.value.memories[newId].sources == sources
  {
    var was := s.memories[existing];
    var gone := was.(state := Retired, updatedAt := now);
    OwnRowCovers(s, existing, gone, None);
    var retired := Persist(s, existing, gone, None);
    if retired.Some? {
      var t := retired.value;
      var row := incoming.(supersedes := [existing] + was.supersedes + incoming.supersedes);
      RowFacts(s, existing, newId);
      RowFacts(t, existing, newId);
      JoinedLists(s.log, existing, was.supersedes, incoming.supersedes);
      SupersedingCovers(s, t, existing, was.supersedes, incoming.supersedes, newId, sources);
      NewRowCovers(s, t, newId, row, sources);
    }
  }

  /** The sources cover the retired row and everything either row supersedes. */
  lemma SupersedingCovers(s: State, t: State, existing: Id, a: seq<Id>, b: seq<Id>, newId: Id, sources: set<Key>)
    requires existing in s.memories && s.memories[existing].sources <= sources && newId !in s.memories
    requires Covers(s, s.memories[existing].sources, a) && Covers(s, sources, b)
    requires existing in t.memories && t.memories == s.memories[existing := t.memories[existing]]
    requires t.memories[existing].sources == s.memories[existing].sources
    ensures Covers(t, sources, [existing] + a + b) && newId !in [existing] + a + b
  {
    forall y | y in [existing] + a + b ensures y in t.memories && t.memories[y].sources <= sources && y != newId {
      assert y == existing || y in a || y in b;
    }
  }

  lemma NewRowCovers(s: State, t: State, newId: Id, row: Memory, sources: set<Key>)
    requires Settled(s, t) && Grew(s, t) && Inv(t) && SourcesInv(t) && t.candidates == s.candidates && newId !in t.memories
    requires MayWrite(t, newId, row) && newId !in row.supersedes && Covers(t, sources, row.supersedes)
    ensures var u := Persist(t, newId, row, Some(sources));
            u.Some? ==> SourcesInv(u.value) && Grew(s, u.value) && u.value.candidates == s.candidates
                        && newId in u.value.memories && u.value.memories[newId].sources == sources
  {
    assert KeptSources(t, newId, Some(sources)) == sources;
    PersistKeeps(t, newId, row, Some(sources));
    PersistCovers(t, newId, row, Some(sources));
    var u := Persist(t, newId, row, Some(sources));
    if u.Some? {
      GrewTransitive(s, t, u.value);
    }
  }

  lemma ReplaceReviewedCovers(s: State, cid: Id, existing: Id, incoming: Memory, newId: Id, sources: set<Key>, now: int)
    requires Inv(s) && SourcesInv(s) && existing in s.memories && s.memories[existing].state.Active? && cid in s.candidates
    requires newId !in s.memories && incoming.state.Active? && AllIn(incoming.supersedes, s.log)
    requires s.candidates[cid].sources <= sources && s.memories[existing].sources <= sources && Covers(s, sources, incoming.supersedes)
    ensures var r := ReplaceReviewed(s, cid, existing, incoming, newId, sources, now); r.Some? ==> Carried(s, r.value, sources)
  {
    ReplaceRowCovers(s, existing, incoming, newId, sources, now);
    var t := ReplaceRow(s, existing, incoming, newId, sources, now);
    if t.Some? {
      ReviewedCovers(t.value, cid, newId);
    }
  }

  lemma MergeCovers(s: State, cid: Id, c: Candidate, existing: Id, incoming: Memory, merged: string, sources: set<Key>, now: int)
    requires Inv(s) && SourcesInv(s) && existing in s.memories && s.memories[existing].state.Active? && cid in s.candidates
    requires incoming.state.Active? && AllIn(incoming.supersedes, s.log)
    requires s.candidates[cid].sources <= sources && s.memories[existing].sources <= sources && Covers(s, sources, incoming.supersedes)
    ensures var row := MergeInto(s.memories[existing], incoming, merged, Resolved(c), now);
            row.Some? ==> var r := Finish(s, cid, existing, row.value, sources); r.Some? ==> Carried(s, r.value, sources)
  {
    var was := s.memories[existing];
    MergedMayBeWritten(s, existing, incoming, merged, Resolved(c), now);
    var row := MergeInto(was, incoming, merged, Resolved(c), now);
    if row.Some? {
      forall y | y in row.value.supersedes ensures y in s.memories && s.memories[y].sources <= sources && y != existing {
        UniqueIsExact(was.supersedes + incoming.supersedes, y);
        OwnRowIsNotItsOwn(s, existing);
        assert existing !in s.log;
      }
      FinishCovers(s, cid, existing, row.value, sources);
    }
  }

  lemma SettleCovers(s: State, cid: Id, c: Candidate, existing: Id, incoming: Memory, newId: Id, merged: string, sources: set<Key>,
                     now: int)
    requires Inv(s) && SourcesInv(s) && existing in s.memories && s.memories[existing].state.Active? && cid in s.candidates
    requires newId !in s.memories && incoming.state.Active? && AllIn(incoming.supersedes, s.log)
    requires s.candidates[cid].sources <= sources && s.memories[existing].sources <= sources && Covers(s, sources, incoming.supersedes)
    ensures var r := Settle(s, cid, c, existing, incoming, newId, merged, sources, now); r.Some? ==> Carried(s, r.value, sources)
  {
    var was := s.memories[existing];
    if was.about == incoming.about {
      if Retires(c) {
        RetireCovers(s, cid, existing, sources, now);
      } else {
        var inherited := if c.kind.Correction? then incoming.(terms := Inherit(was.terms, incoming.terms)) else incoming;
        ReplaceReviewedCovers(s, cid, existing, inherited, newId, sources, now);
        MergeCovers(s, cid, c, existing, inherited, merged, sources, now);
      }
    }
  }

  lemma RetireCovers(s: State, cid: Id, existing: Id, sources: set<Key>, now: int)
    requires Inv(s) && SourcesInv(s) && existing in s.memories && s.memories[existing].state.Active? && cid in s.candidates
    requires s.candidates[cid].sources <= sources && s.memories[existing].sources <= sources
    ensures var r := Finish(s, cid, existing, s.memories[existing].(state := Retired, updatedAt := now), sources);
            r.Some? ==> Carried(s, r.value, sources)
  {
    var row := s.memories[existing].(state := Retired, updatedAt := now);
    OwnRowMayBeWritten(s, existing, row);
    OwnRowIsNotItsOwn(s, existing);
    FinishCovers(s, cid, existing, row, sources);
  }

  /** What is known once the overdue row has been absorbed. */
  ghost predicate Absorbed(s: State, t: State, c: Candidate, sources: set<Key>, gone: seq<Id>, now: int) {
    && Inv(t) && SourcesInv(t) && Settled(s, t) && Grew(s, t)
    && t.memories.Keys == s.memories.Keys && t.candidates == s.candidates
    && AllIn(gone, t.log) && Covers(t, sources, gone) && c.sources <= sources
    && MatchOf(t, c, now) == MatchOf(s, c, now)
    && (forall x :: x in s.memories && Overdue(s, Signed(c), now) == Some(x) ==> s.memories[x].sources <= sources)
  }

  lemma AbsorbingIsAbsorbed(s: State, c: Candidate, now: int)
    requires Inv(s) && SourcesInv(s) && Absorb(s, Signed(c), c.sources, now).Some?
    ensures var a := Absorb(s, Signed(c), c.sources, now).value; Absorbed(s, a.0, c, a.1, a.2, now)
  {
    AbsorbKeeps(s, Signed(c), c.sources, now);
    AbsorbCovers(s, Signed(c), c.sources, now);
    MatchStays(s, c, now);
  }

  lemma AbsorbedCovers(s: State, t: State, cid: Id, c: Candidate, sources: set<Key>, gone: seq<Id>, newId: Id, merged: string, now: int)
    requires Absorbed(s, t, c, sources, gone, now) && cid in t.candidates && c == t.candidates[cid] && newId !in t.memories
    ensures var incoming := Canonical(c, now).(supersedes := gone);
            var existing := MatchOf(t, c, now);
            if existing.None? then
              var r := Finish(t, cid, newId, incoming, sources); r.Some? ==> Carried(t, r.value, sources)
            else
              var all := Union(sources, t.memories[existing.value].sources);
              all.Some? ==>
                var r := Settle(t, cid, c, existing.value, incoming, newId, merged, all.value, now);
                r.Some? ==> Carried(t, r.value, all.value)
  {
    var incoming := Canonical(c, now).(supersedes := gone);
    var existing := MatchOf(t, c, now);
    assert newId !in t.log;
    if existing.Some? {
      var all := Union(sources, t.memories[existing.value].sources);
      if all.Some? {
        CoversMore(t, sources, all.value, gone);
        SettleCovers(t, cid, c, existing.value, incoming, newId, merged, all.value, now);
      }
    } else {
      assert KeptSources(t, newId, Some(sources)) == sources;
      FinishCovers(t, cid, newId, incoming, sources);
    }
  }

  /** A promotion that succeeds leaves a memory carrying the sources of its candidate, of the row that
      had run out, and of the row it matched, whether it merged into that row, retired or replaced it. */
  lemma PromotionKeepsEverySource(s: State, cid: Id, newId: Id, merged: string, now: int)
    requires Inv(s) && SourcesInv(s) && cid in s.candidates && s.candidates[cid].status.Pending?
    requires Promote(s, cid, newId, merged, now).Some?
    ensures var r := Promote(s, cid, newId, merged, now).value;
            Carried(s, r, s.candidates[cid].sources) && CarriesMatches(s, r, s.candidates[cid], now)
  {
    var c := s.candidates[cid];
    var (t, sources, gone) := Absorb(s, Signed(c), c.sources, now).value;
    AbsorbingIsAbsorbed(s, c, now);
    AbsorbedCovers(s, t, cid, c, sources, gone, newId, merged, now);
    GrewTransitive(s, t, Promote(s, cid, newId, merged, now).value.0);
  }

  ghost predicate CarriesMatches(s: State, r: (State, Id), c: Candidate, now: int) {
    forall x :: x in s.memories && (Overdue(s, Signed(c), now) == Some(x) || MatchOf(s, c, now) == Some(x)) ==>
      r.1 in r.0.memories && s.memories[x].sources <= r.0.memories[r.1].sources
  }

  lemma CoversMore(s: State, a: set<Key>, b: set<Key>, ids: seq<Id>)
    requires Covers(s, a, ids) && a <= b
    ensures Covers(s, b, ids)
  {
  }

  /** The row a candidate matches is not the one that ran out, so absorbing that leaves it alone. */
  lemma MatchStays(s: State, c: Candidate, now: int)
    requires Inv(s) && Absorb(s, Signed(c), c.sources, now).Some?
    ensures MatchOf(Absorb(s, Signed(c), c.sources, now).value.0, c, now) == MatchOf(s, c, now)
  {
    var overdue := Overdue(s, Signed(c), now);
    if overdue.Some? {
      var row := s.memories[overdue.value].(state := Expired, updatedAt := now);
      OwnRowMayBeWritten(s, overdue.value, row);
      PersistKeeps(s, overdue.value, row, None);
      IndexAfterExpiry(s, overdue.value, now);
      MatchUnaffected(s, Persist(s, overdue.value, row, None).value, c, overdue.value, now);
    }
  }

  lemma MatchUnaffected(s: State, t: State, c: Candidate, gone: Id, now: int)
    requires Overdue(s, Signed(c), now) == Some(gone) && t.index == s.index - {Signed(c)}
    requires gone in t.memories && t.memories == s.memories[gone := t.memories[gone]] && !t.memories[gone].state.Active?
    ensures MatchOf(t, c, now) == MatchOf(s, c, now)
  {
  }

  lemma IndexAfterExpiry(s: State, id: Id, now: int)
    requires Inv(s) && id in s.memories && s.memories[id].state.Active?
    ensures var t := Persist(s, id, s.memories[id].(state := Expired, updatedAt := now), None);
            t.Some? && t.value.index == s.index - {s.memories[id].signature}
  {
  }

  // ---------------------------------------------------------------------------------------
  // Everything else

  lemma SupersessionKeepsEverySource(s: State, id: Id, cid: Id, c: Candidate, newId: Id, now: int)
    requires Inv(s) && SourcesInv(s) && Supersede(s, id, cid, c, newId, now).Some?
    ensures var r := Supersede(s, id, cid, c, newId, now).value;
            Carried(s, r, c.sources) && s.memories[id].sources <= r.0.memories[r.1].sources
  {
    var t := InsertCandidate(s, cid, AsCorrection(c, id), None).value.0;
    SameRowsKeep(s, t);
    var sources := Union(s.memories[id].sources, c.sources).value;
    var row := Canonical(c, now).(terms := Inherit(s.memories[id].terms, Canonical(c, now).terms));
    InsertedCorrection(s, cid, AsCorrection(c, id));
    CorrectionCovers(s, t, id, cid, row, newId, sources, c.sources, now);
  }

  lemma InsertedCorrection(s: State, cid: Id, c: Candidate)
    requires SourcesInv(s) && InsertCandidate(s, cid, c, None).Some?
    ensures var t := InsertCandidate(s, cid, c, None).value.0;
            SourcesInv(t) && t == s.(candidates := t.candidates) && cid in t.candidates && t.candidates[cid].sources == c.sources
  {
  }

  lemma CorrectionCovers(s: State, t: State, id: Id, cid: Id, row: Memory, newId: Id, sources: set<Key>, own: set<Key>, now: int)
    requires Inv(t) && SourcesInv(t) && t == s.(candidates := t.candidates) && cid in t.candidates && t.candidates[cid].sources == own
    requires id in s.memories && s.memories[id].state.Active? && newId !in s.memories
    requires row.state.Active? && row.supersedes == [] && sources == s.memories[id].sources + own
    requires ReplaceRow(t, id, row, newId, sources, now).Some?
    ensures var v := ReplaceRow(t, id, row, newId, sources, now).value;
            && cid in v.candidates && Carried(s, (Superseded(v, cid, newId), newId), own)
            && s.memories[id].sources <= Superseded(v, cid, newId).memories[newId].sources
  {
    ReplaceRowCovers(t, id, row, newId, sources, now);
    SupersededCandidate(ReplaceRow(t, id, row, newId, sources, now).value, cid, newId);
  }

  lemma SupersededCandidate(v: State, cid: Id, newId: Id)
    requires SourcesInv(v) && cid in v.candidates && newId in v.memories && v.candidates[cid].sources <= v.memories[newId].sources
    ensures SourcesInv(Superseded(v, cid, newId))
  {
  }

  lemma ConfirmCovers(s: State, id: Id, now: int)
    requires Inv(s) && SourcesInv(s)
    ensures var t := Confirm(s, id, now); t.Some? ==> SourcesInv(t.value) && Grew(s, t.value)
  {
    if id in s.memories {
      OwnRowCovers(s, id, s.memories[id].(updatedAt := now), None);
    }
  }

  lemma LifecycleCovers(s: State, id: Id, state: Lifecycle, now: int)
    requires Inv(s) && SourcesInv(s)
    ensures var t := SetLifecycle(s, id, state, now); t.Some? ==> SourcesInv(t.value) && Grew(s, t.value)
  {
    if SetLifecycle(s, id, state, now).Some? {
      var row := s.memories[id].(state := state, updatedAt := now);
      OwnRowIsNotItsOwn(s, id);
      WriteDoes(s, id, row);
      WroteCovers(s, SetLifecycle(s, id, state, now).value, id, row, row.sources);
    }
  }

  lemma UpdateCovers(s: State, id: Id, statement: string, content: string, ttl: Option<nat>, now: int)
    requires Inv(s) && SourcesInv(s)
    ensures var t := Update(s, id, statement, content, ttl, now); t.Some? ==> SourcesInv(t.value) && Grew(s, t.value)
  {
    if id in s.memories && Current(s.memories[id], now) {
      OwnRowCovers(s, id, Edited(s.memories[id], statement, content, ttl, now), None);
    }
  }

  lemma MarkUsedCovers(s: State, id: Id, now: int)
    requires Inv(s) && SourcesInv(s)
    ensures var t := MarkUsed(s, id, now); t.Some? ==> SourcesInv(t.value) && Grew(s, t.value)
  {
    if id in s.memories {
      OwnRowCovers(s, id, s.memories[id].(uses := s.memories[id].uses + 1), None);
    }
  }

  lemma CandidateStepsCover(s: State, e: Event)
    requires SourcesInv(s) && (e.EInsert? || e.EReject? || e.EFeedback?)
    ensures SourcesInv(Step(s, e)) && Grew(s, Step(s, e))
  {
    assert Step(s, e).memories == s.memories;
  }

  lemma StepCovers(s: State, e: Event)
    requires Inv(s) && SourcesInv(s)
    ensures SourcesInv(Step(s, e)) && Grew(s, Step(s, e))
  {
    match e {
      case EPromote(cid, newId, merged, now, confirmed) => PromotionCovers(s, cid, newId, merged, now, confirmed);
      case ESupersede(id, cid, c, newId, now) =>
        if Supersede(s, id, cid, c, newId, now).Some? {
          SupersessionKeepsEverySource(s, id, cid, c, newId, now);
        }
      case EUpdate(id, statement, content, ttl, now) => UpdateCovers(s, id, statement, content, ttl, now);
      case ESetLifecycle(id, state, now) => LifecycleCovers(s, id, state, now);
      case EMarkUsed(id, now) => MarkUsedCovers(s, id, now);
      case _ => CandidateStepsCover(s, e);
    }
  }

  lemma PromotionCovers(s: State, cid: Id, newId: Id, merged: string, now: int, confirmed: bool)
    requires Inv(s) && SourcesInv(s)
    ensures var t := Step(s, EPromote(cid, newId, merged, now, confirmed)); SourcesInv(t) && Grew(s, t)
  {
    var promoted := Promote(s, cid, newId, merged, now);
    if promoted.Some? {
      var t := promoted.value.0;
      PromotedCovers(s, cid, newId, merged, now);
      ConfirmCovers(t, promoted.value.1, now);
      if Confirm(t, promoted.value.1, now).Some? {
        GrewTransitive(s, t, Confirm(t, promoted.value.1, now).value);
      }
    }
  }

  lemma PromotedCovers(s: State, cid: Id, newId: Id, merged: string, now: int)
    requires Inv(s) && SourcesInv(s) && Promote(s, cid, newId, merged, now).Some?
    ensures var t := Promote(s, cid, newId, merged, now).value.0; Inv(t) && Settled(s, t) && SourcesInv(t) && Grew(s, t)
  {
    PromoteKeeps(s, cid, newId, merged, now);
    if s.candidates[cid].status.Pending? {
      PromotionKeepsEverySource(s, cid, newId, merged, now);
    }
  }

  // ---------------------------------------------------------------------------------------
  // Histories

  lemma {:induction false} SourcesInvAlways(s: State, es: seq<Event>)
    requires Inv(s) && SourcesInv(s)
    ensures Inv(After(s, es)) && SourcesInv(After(s, es)) && Grew(s, After(s, es))
    decreases |es|
  {
    if es != [] {
      var t := Step(s, es[0]);
      StepKeeps(s, es[0]);
      StepCovers(s, es[0]);
      SourcesInvAlways(t, es[1..]);
      GrewTransitive(s, t, After(t, es[1..]));
    }
  }

  /** Along any chain of supersession the newest memory carries every source of the oldest. */
  lemma {:induction false} ChainsCarryEverySource(s: State, path: seq<Id>)
    requires SourcesInv(s) && Supersedes(s, path)
    ensures path[|path| - 1] in s.memories && s.memories[path[|path| - 1]].sources <= s.memories[path[0]].sources
    decreases |path|
  {
    assert path[0] in s.memories && path[0 + 1] in s.memories[path[0]].supersedes;
    assert Covers(s, s.memories[path[0]].sources, s.memories[path[0]].supersedes);
    if |path| > 2 {
      var rest := path[1..];
      forall i | 0 <= i < |rest| - 1 ensures rest[i] in s.memories && rest[i + 1] in s.memories[rest[i]].supersedes {
        assert path[i + 1] in s.memories && path[(i + 1) + 1] in s.memories[path[i + 1]].supersedes;
      }
      ChainsCarryEverySource(s, rest);
    }
  }

  /** In every history: no memory's sources shrink, a promoted candidate's are in its memory, and a
      superseded memory's are in what superseded it, through any number of steps. */
  lemma ProvenanceNeverShrinks(es: seq<Event>, later: seq<Event>, s: State, t: State, x: Id, path: seq<Id>)
    requires s == After(EMPTY, es) && t == After(s, later)
    requires x in s.memories && Supersedes(s, path)
    ensures x in t.memories && s.memories[x].sources <= t.memories[x].sources && |t.memories[x].sources| <= SOURCE_LIMIT
    ensures path[0] in s.memories && path[|path| - 1] in s.memories
            && s.memories[path[|path| - 1]].sources <= s.memories[path[0]].sources
  {
    SourcesInvAlways(EMPTY, es);
    SourcesInvAlways(s, later);
    ChainsCarryEverySource(s, path);
    assert path[0] in s.memories && path[0 + 1] in s.memories[path[0]].supersedes;
  }
}
