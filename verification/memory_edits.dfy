/** Exactly when a correction, an edit, an end, a use, or a review goes through, and what every row is after it. */
module MemoryEdits {
  import opened Options
  import opened MemoryModel
  import opened MemorySupersession
  import opened MemoryPromotions
  import opened MemoryRows

  /** The explicit correction as it is stored: promoted to the row that took over. */
  ghost function Correcting(c: Candidate, id: Id, newId: Id): Candidate {
    c.(kind := Correction, strategy := Replace, ifMatch := Some(id), ifMatchUpdatedAt := None,
       status := CandidateStatus.Promoted(newId))
  }

  /** What an explicit correction asks for. */
  ghost predicate MayCorrect(s: State, id: Id, cid: Id, c: Candidate, newId: Id, now: int) {
    && Correctable(s, id, cid, c, newId, now) && !Taken(s, id, Signature(c.about, c.statement))
  }

  ghost predicate Correctable(s: State, id: Id, cid: Id, c: Candidate, newId: Id, now: int) {
    && id in s.memories && IsCurrent(s.memories[id], now) && s.memories[id].about == c.about && newId !in s.memories
    && cid !in s.candidates && |c.sources| <= 128 && |s.memories[id].sources + c.sources| <= 128
  }

  /** Every row after it. */
  ghost predicate Corrected(s: State, t: State, id: Id, cid: Id, c: Candidate, newId: Id, now: int)
    requires id in s.memories
  {
    var was := s.memories[id];
    && t.candidates == s.candidates[cid := Correcting(c, id, newId)]
    && t.memories == s.memories[id := was.(state := Retired, updatedAt := now)]
                               [newId := SaysRow(c, KeptTerms(was.terms, c, now), [id] + was.supersedes, now, was.sources + c.sources)]
  }

  /** An explicit correction goes through if and only if it is about a current memory on the same subject, the sources of
      both have room, and nobody else says what it says. Then the new row says what the correction says, with the old
      row's terms where the correction is silent; the old row is retired and keeps all else; no other row changes. */
  lemma SupersedesExactly(s: State, id: Id, cid: Id, c: Candidate, newId: Id, now: int)
    requires Inv(s)
    ensures var r := Supersede(s, id, cid, c, newId, now);
            && (r.Some? <==> MayCorrect(s, id, cid, c, newId, now))
            && (r.Some? ==> r.value.1 == newId && Corrected(s, r.value.0, id, cid, c, newId, now))
  {
    if Correctable(s, id, cid, c, newId, now) {
      CorrectsExactly(s, id, cid, c, newId, now);
    }
  }

  /** With the correction's candidate stored. */
  ghost function Stored(s: State, cid: Id, c: Candidate, id: Id): State {
    s.(candidates := s.candidates[cid := AsCorrection(c, id).(status := Pending)])
  }

  ghost function Taking(t: State, id: Id, c: Candidate, newId: Id, now: int): Option<State>
    requires id in t.memories
  {
    var was := t.memories[id];
    ReplaceRow(t, id, Canonical(c, now).(terms := Inherit(was.terms, Canonical(c, now).terms)), newId, was.sources + c.sources, now)
  }

  lemma SupersedeUnfolds(s: State, id: Id, cid: Id, c: Candidate, newId: Id, now: int, u: Option<State>)
    requires Correctable(s, id, cid, c, newId, now) && u == Taking(Stored(s, cid, c, id), id, c, newId, now)
    ensures Supersede(s, id, cid, c, newId, now)
            == if u.None? || cid !in u.value.candidates then None else Some((Superseded(u.value, cid, newId), newId))
  {
    assert InsertCandidate(s, cid, AsCorrection(c, id), None) == Some((Stored(s, cid, c, id), cid));
  }

  lemma CorrectsExactly(s: State, id: Id, cid: Id, c: Candidate, newId: Id, now: int)
    requires Inv(s) && Correctable(s, id, cid, c, newId, now)
    ensures var r := Supersede(s, id, cid, c, newId, now);
            && (r.Some? <==> !Taken(s, id, Signature(c.about, c.statement)))
            && (r.Some? ==> r.value.1 == newId && Corrected(s, r.value.0, id, cid, c, newId, now))
  {
    var t := Stored(s, cid, c, id);
    SameRowsKeep(s, t);
    SameRowsTake(s, t, id, Signature(c.about, c.statement));
    TakesOverExactly(t, id, c, newId, now);
    var u := Taking(t, id, c, newId, now);
    SupersedeUnfolds(s, id, cid, c, newId, now, u);
    if u.Some? {
      SupersededIsCorrected(s, u.value, id, cid, c, newId, now);
    }
  }

  lemma SupersededIsCorrected(s: State, u: State, id: Id, cid: Id, c: Candidate, newId: Id, now: int)
    requires id in s.memories && u.candidates == Stored(s, cid, c, id).candidates
    requires var was := s.memories[id];
             u.memories == s.memories[id := was.(state := Retired, updatedAt := now)]
                                     [newId := SaysRow(c, KeptTerms(was.terms, c, now), [id] + was.supersedes, now,
                                                       was.sources + c.sources)]
    ensures cid in u.candidates && Corrected(s, Superseded(u, cid, newId), id, cid, c, newId, now)
  {
    assert s.candidates[cid := AsCorrection(c, id).(status := Pending)][cid := Correcting(c, id, newId)]
           == s.candidates[cid := Correcting(c, id, newId)];
  }

  lemma SameRowsTake(s: State, t: State, id: Id, sig: Signature)
    requires s.memories == t.memories
    ensures Taken(s, id, sig) <==> Taken(t, id, sig)
  {
  }

  lemma TakesOverExactly(t: State, id: Id, c: Candidate, newId: Id, now: int)
    requires Inv(t) && id in t.memories && t.memories[id].state.Active? && newId !in t.memories
    ensures var was := t.memories[id];
            var r := Taking(t, id, c, newId, now);
            && (r.Some? <==> |was.sources + c.sources| <= 128 && !Taken(t, id, Signature(c.about, c.statement)))
            && (r.Some? ==>
                  && r.value.candidates == t.candidates
                  && r.value.memories == t.memories[id := was.(state := Retired, updatedAt := now)]
                                                   [newId := SaysRow(c, KeptTerms(was.terms, c, now), [id] + was.supersedes, now,
                                                                     was.sources + c.sources)])
  {
    var was := t.memories[id];
    var row := Canonical(c, now).(terms := Inherit(was.terms, Canonical(c, now).terms));
    assert row == SaysRow(c, KeptTerms(was.terms, c, now), [], now, {});
    ReplacesExactlyWhen(t, id, row, newId, was.sources + c.sources, now);
    assert [id] + was.supersedes + [] == [id] + was.supersedes;
  }

  /** An edit needs a current memory and nobody else saying what it will say; only that row changes. */
  lemma UpdatesExactly(s: State, id: Id, statement: string, content: string, ttl: Option<nat>, now: int)
    requires Inv(s)
    ensures var r := Update(s, id, statement, content, ttl, now);
            && (r.Some? <==>
                  && id in s.memories && IsCurrent(s.memories[id], now)
                  && !Taken(s, id, Signature(s.memories[id].about, statement)))
            && (r.Some? ==>
                  var was := s.memories[id];
                  && r.value.candidates == s.candidates
                  && r.value.memories == s.memories[id := was.(content := content, signature := Signature(was.about, statement),
                                                               updatedAt := now, terms := EditedTerms(was.terms, ttl, now))])
  {
    if id in s.memories && Current(s.memories[id], now) {
      PersistsExactlyWhen(s, id, Edited(s.memories[id], statement, content, ttl, now), None);
    }
  }

  ghost function EditedTerms(was: Terms, ttl: Option<nat>, now: int): Terms {
    if ttl.Some? then was.(ttl := ttl, expiresAt := Some(now + 1_000 * ttl.value)) else was
  }

  /** Only an active memory is ended, as asked; nothing else changes. */
  lemma EndsExactly(s: State, id: Id, state: Lifecycle, now: int)
    requires Inv(s)
    ensures var r := SetLifecycle(s, id, state, now);
            && (r.Some? <==> !state.Active? && id in s.memories && s.memories[id].state.Active?)
            && (r.Some? ==> r.value.candidates == s.candidates
                            && r.value.memories == s.memories[id := s.memories[id].(state := state, updatedAt := now)])
  {
    if id in s.memories {
      WritesExactlyWhen(s, id, s.memories[id].(state := state, updatedAt := now));
    }
  }

  /** A current memory is counted as used once more; a use of any other changes nothing and is no failure. */
  lemma UsesExactly(s: State, id: Id, now: int)
    requires Inv(s)
    ensures var r := MarkUsed(s, id, now);
            && r.Some? && r.value.candidates == s.candidates
            && r.value.memories == if id in s.memories && IsCurrent(s.memories[id], now)
                                   then s.memories[id := s.memories[id].(uses := s.memories[id].uses + 1)] else s.memories
  {
    if id in s.memories && Current(s.memories[id], now) {
      var row := s.memories[id].(uses := s.memories[id].uses + 1);
      PersistsExactlyWhen(s, id, row, None);
      OwnPlaceIsFree(s, id);
    }
  }

  /** Only a pending candidate is rejected, and then nothing else changes. */
  lemma RejectsExactly(s: State, cid: Id)
    ensures var r := Reject(s, cid);
            && (r.Some? <==> cid in s.candidates && s.candidates[cid].status == Pending)
            && (r.Some? ==> r.value == s.(candidates := s.candidates[cid := s.candidates[cid].(status := Rejected)]))
  {
  }

  /** Feedback reaches only a pending candidate with room for its sources, which it joins; a contradiction makes the
      candidate a correction, and no other feedback changes its kind. */
  lemma FeedbackExactly(s: State, cid: Id, contradicting: bool, sources: set<Key>)
    ensures var r := Feedback(s, cid, contradicting, sources);
            && (r.Some? <==> cid in s.candidates && s.candidates[cid].status == Pending && |s.candidates[cid].sources + sources| <= 128)
            && (r.Some? ==>
                  var c := s.candidates[cid];
                  r.value == s.(candidates := s.candidates[cid := c.(sources := c.sources + sources,
                                                                     kind := if contradicting then Correction else c.kind)]))
  {
  }

  /** A promotion already made is answered with its memory; a rejected candidate is promoted by nothing. */
  lemma OnlyPendingOnesArePromoted(s: State, cid: Id, newId: Id, merged: string, now: int)
    requires newId !in s.memories && cid in s.candidates && s.candidates[cid].status != Pending
    ensures var r := Promote(s, cid, newId, merged, now);
            && (r.Some? <==> s.candidates[cid].status.Promoted? && s.candidates[cid].status.memory in s.memories)
            && (r.Some? ==> r.value == (s, s.candidates[cid].status.memory))
    ensures PromoteCandidate(s, cid, newId, merged, now).None?
  {
  }

  /** The Owner's promotion goes through if and only if the promotion itself does, and leaves what it leaves, with the
      row it came to dated now. */
  lemma ConfirmsExactly(s: State, cid: Id, newId: Id, merged: string, now: int)
    requires Inv(s) && cid in s.candidates && s.candidates[cid].status == Pending && newId !in s.memories
    ensures var (r, p) := (PromoteCandidate(s, cid, newId, merged, now), Promote(s, cid, newId, merged, now));
            && (r.Some? <==> p.Some?)
            && (r.Some? ==>
                  var (t, id) := p.value;
                  && r.value.1 == id && id in t.memories && r.value.0.candidates == t.candidates
                  && r.value.0.memories == t.memories[id := t.memories[id].(updatedAt := now)])
  {
    if Promote(s, cid, newId, merged, now).Some? {
      var (t, id) := Promote(s, cid, newId, merged, now).value;
      PromotionComesTo(s, cid, newId, merged, now);
      PromoteKeeps(s, cid, newId, merged, now);
      DatesExactly(t, id, now);
    }
  }

  lemma DatesExactly(t: State, id: Id, now: int)
    requires Inv(t) && id in t.memories
    ensures Confirm(t, id, now).Some? && Confirm(t, id, now).value.candidates == t.candidates
            && Confirm(t, id, now).value.memories == t.memories[id := t.memories[id].(updatedAt := now)]
  {
    if t.memories[id].state.Active? {
      OwnPlaceIsFree(t, id);
    }
    PersistsExactlyWhen(t, id, t.memories[id].(updatedAt := now), None);
  }

  /** The list of what was superseded holds each row once, in the order of first mention. */
  lemma {:induction false} UniqueHoldsEachOnce(xs: seq<Id>)
    ensures forall x :: x in Unique(xs) <==> x in xs
    ensures forall i, j :: 0 <= i < j < |Unique(xs)| ==> Unique(xs)[i] != Unique(xs)[j]
    decreases |xs|
  {
    if xs != [] {
      UniqueHoldsEachOnce(xs[..|xs| - 1]);
    }
  }

  /** A list without repetitions is kept as it is, and appending never reorders what was there. */
  lemma {:induction false} UniqueKeepsOrder(xs: seq<Id>, ys: seq<Id>)
    ensures Unique(xs) <= Unique(xs + ys)
    ensures (forall i, j :: 0 <= i < j < |xs| ==> xs[i] != xs[j]) ==> Unique(xs) == xs
    decreases |xs| + |ys|
  {
    if ys != [] {
      assert (xs + ys)[..|xs + ys| - 1] == xs + ys[..|ys| - 1];
      UniqueKeepsOrder(xs, ys[..|ys| - 1]);
    } else {
      assert xs + ys == xs;
      if xs != [] {
        UniqueKeepsOrder(xs[..|xs| - 1], []);
      }
    }
  }
}
