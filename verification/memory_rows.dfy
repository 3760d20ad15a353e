/** Exactly when each change to the memories goes through, and what every row is after it. */
module MemoryRows {
  import opened Options
  import opened MemoryModel
  import opened MemorySupersession
  import opened MemoryProvenance

  // ---------------------------------------------------------------------------------------
  // Rows

  /** Another active row says the same about the same thing. */
  ghost predicate Taken(s: State, id: Id, sig: Signature) {
    exists x :: x in s.memories && x != id && s.memories[x].state.Active? && s.memories[x].signature == sig
  }

  ghost predicate IsCurrent(m: Memory, now: int) {
    m.state.Active? && (m.terms.expiresAt.None? || m.terms.expiresAt.value > now)
  }

  lemma WritesExactlyWhen(s: State, id: Id, m: Memory)
    requires Inv(s)
    ensures Write(s, id, m).Some? <==> !(m.state.Active? && Taken(s, id, m.signature))
    ensures Write(s, id, m).Some? ==>
              Write(s, id, m).value.memories == s.memories[id := m] && Write(s, id, m).value.candidates == s.candidates
  {
    if m.state.Active? && m.signature in s.index && s.index[m.signature] != id {
      var x := s.index[m.signature];
      assert x in s.memories && s.memories[x].state.Active?;
    }
  }

  /** A row is stored with the sources it has and those it brings, at most 128, unless its place is taken. */
  lemma PersistsExactlyWhen(s: State, id: Id, m: Memory, sources: Option<set<Key>>)
    requires Inv(s)
    ensures var all := (if sources.Some? then sources.value else {}) + (if id in s.memories then s.memories[id].sources else {});
            && (Persist(s, id, m, sources).Some? <==>
                  && (if sources.None? then id in s.memories else |all| <= 128) && !(m.state.Active? && Taken(s, id, m.signature)))
            && (Persist(s, id, m, sources).Some? ==>
                  && Persist(s, id, m, sources).value.memories == s.memories[id := m.(sources := all)]
                  && Persist(s, id, m, sources).value.candidates == s.candidates)
  {
    var stored := if id in s.memories then s.memories[id].sources else {};
    assert (if sources.Some? then sources.value else {}) + stored == if sources.None? then stored else sources.value + stored;
    WritesExactlyWhen(s, id, m.(sources := if sources.None? then stored else sources.value + stored));
  }

  // ---------------------------------------------------------------------------------------
  // What a candidate is about

  /** The row that says the same and has run out. */
  ghost predicate RanOut(s: State, c: Candidate, now: int, o: Id) {
    && o in s.memories && s.memories[o].state.Active? && s.memories[o].signature == Signature(c.about, c.statement)
    && s.memories[o].terms.expiresAt.Some? && s.memories[o].terms.expiresAt.value <= now
  }

  /** The current row that the candidate names, or, where it names none, the one that says the same. */
  ghost predicate IsMatch(s: State, c: Candidate, now: int, m: Id) {
    && m in s.memories && IsCurrent(s.memories[m], now)
    && if c.ifMatch.Some? then c.ifMatch == Some(m) else s.memories[m].signature == Signature(c.about, c.statement)
  }

  lemma OverdueIsExact(s: State, c: Candidate, now: int)
    requires Inv(s)
    ensures forall o :: Overdue(s, Signed(c), now) == Some(o) <==> RanOut(s, c, now, o)
  {
    forall o | RanOut(s, c, now, o) ensures Overdue(s, Signed(c), now) == Some(o) {
      assert s.index[s.memories[o].signature] == o;
    }
  }

  lemma MatchIsExact(s: State, c: Candidate, now: int)
    requires Inv(s)
    ensures forall m :: MatchOf(s, c, now) == Some(m) <==> IsMatch(s, c, now, m)
  {
    forall m | IsMatch(s, c, now, m) ensures MatchOf(s, c, now) == Some(m) {
      assert s.index[s.memories[m].signature] == m;
    }
  }

  // ---------------------------------------------------------------------------------------
  // Candidates

  /** A proposal is stored as pending under its own id, with at most 128 sources; or it adds its sources to a pending one
      that says the same about the same thing. */
  lemma InsertsExactly(s: State, id: Id, c: Candidate, twin: Option<Id>)
    ensures InsertCandidate(s, id, c, twin) ==
              match twin {
                case None =>
                  if id !in s.candidates && |c.sources| <= 128 then Some((s.(candidates := s.candidates[id := c.(status := Pending)]), id))
                  else None
                case Some(d) =>
                  if d in s.candidates && s.candidates[d].status.Pending? && s.candidates[d].about == c.about
                     && s.candidates[d].statement == c.statement && |c.sources + s.candidates[d].sources| <= 128 then
                    Some((s.(candidates := s.candidates[d := s.candidates[d].(sources := c.sources + s.candidates[d].sources)]), d))
                  else None
              }
  {
  }

  // ---------------------------------------------------------------------------------------
  // What a promotion writes

  ghost function OwnTerms(c: Candidate, now: int): Terms {
    Terms(c.ttl, if c.ttl.Some? then Some(now + 1_000 * c.ttl.value) else None, c.sensitivity, c.retention)
  }

  /** A correction that leaves something out keeps what was. */
  ghost function KeptTerms(was: Terms, c: Candidate, now: int): Terms {
    Terms(if c.ttl.Some? then c.ttl else was.ttl,
          if c.ttl.Some? then Some(now + 1_000 * c.ttl.value) else was.expiresAt,
          if c.sensitivity.Some? then c.sensitivity else was.sensitivity,
          if c.retention.Some? then c.retention else was.retention)
  }

  /** The row of what the candidate says. */
  ghost function SaysRow(c: Candidate, terms: Terms, supersedes: seq<Id>, now: int, sources: set<Key>): Memory {
    Memory(c.about, c.content, Signature(c.about, c.statement), Active, terms, supersedes, now, 0, sources)
  }

  ghost predicate EndsIt(c: Candidate) { c.extractorRetire || (c.taste && c.kind.Correction?) }

  ghost predicate HeldForReview(c: Candidate) { c.strategy.ManualReview? && c.kind.Correction? }

  /** Review of what is no correction keeps the row; of a correction, replaces it. */
  ghost function StrategyOf(c: Candidate): Strategy {
    match c.strategy
    case ManualReview => if c.kind.Correction? then Replace else Dedupe
    case other => other
  }

  ghost function NewTerms(was: Memory, c: Candidate, now: int): Terms {
    if c.kind.Correction? then KeptTerms(was.terms, c, now) else OwnTerms(c, now)
  }

  /** What the matched row becomes where it is neither ended nor replaced by a successor. */
  ghost function Merged(was: Memory, c: Candidate, merged: string, gone: seq<Id>, now: int, all: set<Key>): Memory {
    match StrategyOf(c)
    case Upsert => SaysRow(c, NewTerms(was, c, now), Unique(was.supersedes + gone), now, all)
    case Replace => SaysRow(c, NewTerms(was, c, now), Unique(was.supersedes + gone), now, all)
    case Merge => was.(content := merged, updatedAt := now, sources := all)
    case _ => was.(updatedAt := now, sources := all)
  }

  /** The row that ran out is noted as expired, and what it carried comes along. */
  ghost function Noted(s: State, o: Option<Id>, now: int): map<Id, Memory> {
    if o.Some? && o.value in s.memories then s.memories[o.value := s.memories[o.value].(state := Expired, updatedAt := now)] else s.memories
  }

  ghost function Base(s: State, c: Candidate, o: Option<Id>): set<Key> {
    c.sources + if o.Some? && o.value in s.memories then s.memories[o.value].sources else {}
  }

  ghost function Gone(o: Option<Id>): seq<Id> { if o.Some? then [o.value] else [] }

  /** Every row after a promotion, and the row it came to. */
  ghost predicate Promoted(s: State, t: State, id: Id, cid: Id, c: Candidate, newId: Id, merged: string, now: int, o: Option<Id>,
                           m: Option<Id>)
    requires m.Some? ==> m.value in s.memories
  {
    && t.candidates == s.candidates[cid := c.(status := CandidateStatus.Promoted(id), strategy := StrategyOf(c))]
    && if m.None? then
         id == newId && t.memories == Noted(s, o, now)[newId := SaysRow(c, OwnTerms(c, now), Gone(o), now, Base(s, c, o))]
       else
         var was, all := s.memories[m.value], Base(s, c, o) + s.memories[m.value].sources;
         if EndsIt(c) then
           id == m.value && t.memories == Noted(s, o, now)[m.value := was.(state := Retired, updatedAt := now, sources := all)]
         else if HeldForReview(c) then
           && id == newId
           && t.memories == Noted(s, o, now)[m.value := was.(state := Retired, updatedAt := now)]
                                            [newId := SaysRow(c, KeptTerms(was.terms, c, now), [m.value] + was.supersedes + Gone(o), now,
                                                              all)]
         else id == m.value && t.memories == Noted(s, o, now)[m.value := Merged(was, c, merged, Gone(o), now, all)]
  }

  /** What a promotion asks for. */
  ghost predicate MayPromote(s: State, c: Candidate, o: Option<Id>, m: Option<Id>)
    requires m.Some? ==> m.value in s.memories
  {
    && |Base(s, c, o)| <= 128
    && (c.ifMatch.Some? || EndsIt(c) ==> m.Some?)
    && (c.ifMatchUpdatedAt.Some? ==> m.Some? && c.ifMatchUpdatedAt == Some(s.memories[m.value].updatedAt))
    && (m.Some? ==>
          && s.memories[m.value].about == c.about && |Base(s, c, o) + s.memories[m.value].sources| <= 128
          && (c.extractorRetire ==> c.ifMatch.Some?)
          && (!EndsIt(c) ==> !c.strategy.Create?)
          && (!EndsIt(c) && (StrategyOf(c).Upsert? || StrategyOf(c).Replace?) ==> !TakenBesides(s, c, o, m.value)))
  }

  /** A row other than the matched one, and the one that ran out, says the same. */
  ghost predicate TakenBesides(s: State, c: Candidate, o: Option<Id>, m: Id) {
    exists x :: x in s.memories && x != m && o != Some(x) && s.memories[x].state.Active?
                && s.memories[x].signature == Signature(c.about, c.statement)
  }

  // ---------------------------------------------------------------------------------------
  // Promotion, step by step

  lemma AbsorbsExactly(s: State, c: Candidate, now: int)
    requires Inv(s)
    ensures var (a, o) := (Absorb(s, Signed(c), c.sources, now), Overdue(s, Signed(c), now));
            && (a.Some? <==> |Base(s, c, o)| <= 128 || o.None?)
            && (a.Some? ==> a.value.0.memories == Noted(s, o, now) && a.value.0.candidates == s.candidates && Inv(a.value.0)
                            && a.value.1 == Base(s, c, o) && a.value.2 == Gone(o))
  {
    var o := Overdue(s, Signed(c), now);
    AbsorbKeeps(s, Signed(c), c.sources, now);
    if o.Some? {
      PersistsExactlyWhen(s, o.value, s.memories[o.value].(state := Expired, updatedAt := now), None);
    } else {
      assert Base(s, c, o) == c.sources;
    }
  }

  /** In the tables after noting what ran out, who else says what the candidate says. */
  lemma TakenAfterNoting(s: State, t: State, c: Candidate, now: int, id: Id)
    requires Inv(s) && Inv(t) && t.memories == Noted(s, Overdue(s, Signed(c), now), now)
    ensures Taken(t, id, Signed(c)) <==> TakenBesides(s, c, Overdue(s, Signed(c), now), id)
  {
    var o := Overdue(s, Signed(c), now);
    if x :| x in s.memories && x != id && o != Some(x) && s.memories[x].state.Active?
            && s.memories[x].signature == Signature(c.about, c.statement) {
      assert x in t.memories && t.memories[x] == s.memories[x];
    }
    if x :| x in t.memories && x != id && t.memories[x].state.Active? && t.memories[x].signature == Signed(c) {
      assert o != Some(x);
    }
  }

  /** Where nothing matches, nobody else says it. */
  lemma FreshIsFree(s: State, t: State, c: Candidate, now: int, newId: Id)
    requires Inv(s) && Inv(t) && t.memories == Noted(s, Overdue(s, Signed(c), now), now)
    requires MatchOf(s, c, now).None? && c.ifMatch.None?
    ensures !Taken(t, newId, Signed(c))
  {
    TakenAfterNoting(s, t, c, now, newId);
    OverdueIsExact(s, c, now);
    MatchIsExact(s, c, now);
    forall x | x in s.memories && s.memories[x].state.Active? && s.memories[x].signature == Signed(c)
      ensures Overdue(s, Signed(c), now) == Some(x)
    {
      assert RanOut(s, c, now, x) || IsMatch(s, c, now, x);
    }
  }

  lemma FinishesExactlyWhen(s: State, cid: Id, id: Id, m: Memory, sources: set<Key>)
    requires Inv(s) && cid in s.candidates
    ensures var all := sources + if id in s.memories then s.memories[id].sources else {};
            && (Finish(s, cid, id, m, sources).Some? <==> |all| <= 128 && !(m.state.Active? && Taken(s, id, m.signature)))
            && (Finish(s, cid, id, m, sources).Some? ==>
                  var (t, at) := Finish(s, cid, id, m, sources).value;
                  && at == id && t.memories == s.memories[id := m.(sources := all)]
                  && t.candidates == s.candidates[cid := s.candidates[cid].(status := CandidateStatus.Promoted(id),
                                                                            strategy := StrategyOf(s.candidates[cid]))])
  {
    PersistsExactlyWhen(s, id, m, Some(sources));
  }

  lemma ReplacesExactlyWhen(s: State, existing: Id, incoming: Memory, newId: Id, sources: set<Key>, now: int)
    requires Inv(s) && existing in s.memories && s.memories[existing].state.Active? && newId !in s.memories && incoming.state.Active?
    ensures var (r, was) := (ReplaceRow(s, existing, incoming, newId, sources, now), s.memories[existing]);
            && (r.Some? <==> |sources| <= 128 && !Taken(s, existing, incoming.signature))
            && (r.Some? ==>
                  && r.value.memories == s.memories[existing := was.(state := Retired, updatedAt := now)]
                                                   [newId := incoming.(supersedes := [existing] + was.supersedes + incoming.supersedes,
                                                                       sources := sources)]
                  && r.value.candidates == s.candidates)
  {
    var was := s.memories[existing];
    var ended := was.(state := Retired, updatedAt := now);
    OwnRowMayBeWritten(s, existing, ended);
    PersistKeeps(s, existing, ended, None);
    PersistsExactlyWhen(s, existing, ended, None);
    var t := Persist(s, existing, ended, None).value;
    assert t.memories == s.memories[existing := ended];
    PersistsExactlyWhen(t, newId, incoming.(supersedes := [existing] + was.supersedes + incoming.supersedes), Some(sources));
    assert sources + {} == sources;
    EndedFreesItsPlace(s, t, existing, newId, incoming.signature);
  }

  lemma ReviewedExactlyWhen(s: State, cid: Id, existing: Id, incoming: Memory, newId: Id, sources: set<Key>, now: int)
    requires Inv(s) && cid in s.candidates && existing in s.memories && s.memories[existing].state.Active? && newId !in s.memories
    requires incoming.state.Active?
    ensures var (r, was) := (ReplaceReviewed(s, cid, existing, incoming, newId, sources, now), s.memories[existing]);
            && (r.Some? <==> |sources| <= 128 && !Taken(s, existing, incoming.signature))
            && (r.Some? ==>
                  && r.value.1 == newId
                  && r.value.0.memories == s.memories[existing := was.(state := Retired, updatedAt := now)]
                                                     [newId := incoming.(supersedes := [existing] + was.supersedes + incoming.supersedes,
                                                                         sources := sources)]
                  && r.value.0.candidates
                     == s.candidates[cid := s.candidates[cid].(status := CandidateStatus.Promoted(newId),
                                                            strategy := StrategyOf(s.candidates[cid]))])
  {
    ReplacesExactlyWhen(s, existing, incoming, newId, sources, now);
  }

  lemma EndedFreesItsPlace(s: State, t: State, existing: Id, newId: Id, sig: Signature)
    requires existing in s.memories && newId !in s.memories
    requires existing in t.memories && !t.memories[existing].state.Active? && t.memories == s.memories[existing := t.memories[existing]]
    ensures Taken(t, newId, sig) <==> Taken(s, existing, sig)
  {
    if x :| x in s.memories && x != existing && s.memories[x].state.Active? && s.memories[x].signature == sig {
      assert x in t.memories && t.memories[x] == s.memories[x];
    }
  }

  lemma CanonicalSays(c: Candidate, gone: seq<Id>, now: int)
    ensures Canonical(c, now).(supersedes := gone) == SaysRow(c, OwnTerms(c, now), gone, now, {})
  {
  }

  lemma MergesExactly(was: Memory, c: Candidate, merged: string, gone: seq<Id>, now: int, all: set<Key>)
    ensures var incoming := SaysRow(c, NewTerms(was, c, now), gone, now, {});
            var row := MergeInto(was, incoming, merged, Resolved(c), now);
            && (row.Some? <==> !c.strategy.Create?)
            && (row.Some? ==> row.value.(sources := all) == Merged(was, c, merged, gone, now, all))
  {
    assert Resolved(c) == StrategyOf(c);
  }

  lemma InheritsExactly(was: Memory, c: Candidate, gone: seq<Id>, now: int)
    ensures SaysRow(c, OwnTerms(c, now), gone, now, {}).(terms := Inherit(was.terms, OwnTerms(c, now)))
            == SaysRow(c, KeptTerms(was.terms, c, now), gone, now, {})
  {
  }

  /** What has to hold of the matched row, in tables where what ran out is noted. */
  ghost predicate MaySettle(t: State, c: Candidate, m: Id)
    requires m in t.memories
  {
    && t.memories[m].about == c.about
    && (!EndsIt(c) ==> !c.strategy.Create?)
    && (!EndsIt(c) && (StrategyOf(c).Upsert? || StrategyOf(c).Replace?) ==> !Taken(t, m, Signed(c)))
  }

  ghost predicate SettledAs(t: State, u: State, id: Id, cid: Id, c: Candidate, newId: Id, merged: string, gone: seq<Id>, now: int, m: Id,
                           all: set<Key>)
    requires m in t.memories
  {
    && u.candidates == t.candidates[cid := c.(status := CandidateStatus.Promoted(id), strategy := StrategyOf(c))]
    && var was := t.memories[m];
       if EndsIt(c) then id == m && u.memories == t.memories[m := was.(state := Retired, updatedAt := now, sources := all)]
       else if HeldForReview(c) then
         && id == newId
         && u.memories == t.memories[m := was.(state := Retired, updatedAt := now)]
                                    [newId := SaysRow(c, KeptTerms(was.terms, c, now), [m] + was.supersedes + gone, now, all)]
       else id == m && u.memories == t.memories[m := Merged(was, c, merged, gone, now, all)]
  }

  lemma SettlesExactlyWhen(t: State, cid: Id, c: Candidate, m: Id, newId: Id, merged: string, gone: seq<Id>, all: set<Key>, now: int)
    requires Inv(t) && cid in t.candidates && t.candidates[cid] == c && m in t.memories && t.memories[m].state.Active?
    requires newId !in t.memories && t.memories[m].sources <= all && |all| <= 128
    ensures var r := Settle(t, cid, c, m, Canonical(c, now).(supersedes := gone), newId, merged, all, now);
            && (r.Some? <==> MaySettle(t, c, m))
            && (r.Some? ==> SettledAs(t, r.value.0, r.value.1, cid, c, newId, merged, gone, now, m, all))
  {
    var was := t.memories[m];
    CanonicalSays(c, gone, now);
    InheritsExactly(was, c, gone, now);
    assert all + was.sources == all;
    if was.about == c.about {
      if EndsIt(c) {
        FinishesExactlyWhen(t, cid, m, was.(state := Retired, updatedAt := now), all);
      } else if HeldForReview(c) {
        ReviewedExactlyWhen(t, cid, m, SaysRow(c, KeptTerms(was.terms, c, now), gone, now, {}), newId, all, now);
      } else {
        MergesExactly(was, c, merged, gone, now, all);
        OwnPlaceIsFree(t, m);
        var row := MergeInto(was, SaysRow(c, NewTerms(was, c, now), gone, now, {}), merged, Resolved(c), now);
        if row.Some? {
          FinishesExactlyWhen(t, cid, m, row.value, all);
        }
      }
    }
  }

  lemma OwnPlaceIsFree(t: State, m: Id)
    requires Inv(t) && m in t.memories && t.memories[m].state.Active?
    ensures !Taken(t, m, t.memories[m].signature)
  {
  }

  // ---------------------------------------------------------------------------------------
  // Promotion

  /** With nothing to meet, a promotion writes a new row. */
  lemma WritesAnewExactlyWhen(t: State, cid: Id, c: Candidate, newId: Id, merged: string, base: set<Key>, gone: seq<Id>, now: int)
    requires Inv(t) && cid in t.candidates && t.candidates[cid] == c && newId !in t.memories && MatchOf(t, c, now).None?
    ensures var r := AfterAbsorbing(t, cid, c, newId, merged, base, gone, now);
            && (r.Some? <==> c.ifMatch.None? && c.ifMatchUpdatedAt.None? && !EndsIt(c) && |base| <= 128 && !Taken(t, newId, Signed(c)))
            && (r.Some? ==>
                  && r.value.1 == newId && r.value.0.memories == t.memories[newId := SaysRow(c, OwnTerms(c, now), gone, now, base)]
                  && r.value.0.candidates == t.candidates[cid := c.(status := CandidateStatus.Promoted(newId), strategy := StrategyOf(c))])
  {
    CanonicalSays(c, gone, now);
    FinishesExactlyWhen(t, cid, newId, Canonical(c, now).(supersedes := gone), base);
    assert base + {} == base;
  }

  lemma FreshPromotesExactly(s: State, cid: Id, newId: Id, merged: string, now: int)
    requires Inv(s) && cid in s.candidates && s.candidates[cid].status.Pending? && newId !in s.memories
    requires MatchOf(s, s.candidates[cid], now).None?
    ensures var (c, o) := (s.candidates[cid], Overdue(s, Signed(s.candidates[cid]), now));
            && (Promote(s, cid, newId, merged, now).Some? <==> MayPromote(s, c, o, None))
            && (Promote(s, cid, newId, merged, now).Some? ==>
                  var (t, id) := Promote(s, cid, newId, merged, now).value; Promoted(s, t, id, cid, c, newId, merged, now, o, None))
  {
    var c := s.candidates[cid];
    var o, a := Overdue(s, Signed(c), now), Absorb(s, Signed(c), c.sources, now);
    AbsorbsExactly(s, c, now);
    if a.Some? {
      var t := a.value.0;
      MatchStays(s, c, now);
      WritesAnewExactlyWhen(t, cid, c, newId, merged, Base(s, c, o), Gone(o), now);
      if c.ifMatch.None? {
        FreshIsFree(s, t, c, now, newId);
      }
    }
  }

  lemma PartsAreSmaller<T>(a: set<T>, b: set<T>)
    ensures |a| <= |a + b|
    decreases |b|
  {
    assert a + b == a + (b - a);
    assert |a + (b - a)| == |a| + |b - a|;
  }

  /** What a promotion asks of the row it matches, in tables where what ran out is noted. */
  ghost predicate MayMeet(t: State, c: Candidate, m: Id, all: set<Key>)
    requires m in t.memories
  {
    && (c.ifMatchUpdatedAt.Some? ==> c.ifMatchUpdatedAt == Some(t.memories[m].updatedAt))
    && |all| <= 128 && (c.extractorRetire ==> c.ifMatch.Some?) && MaySettle(t, c, m)
  }

  lemma MeetsExactlyWhen(t: State, cid: Id, c: Candidate, m: Id, newId: Id, merged: string, base: set<Key>, gone: seq<Id>, now: int)
    requires Inv(t) && cid in t.candidates && t.candidates[cid] == c && newId !in t.memories
    requires MatchOf(t, c, now) == Some(m) && m in t.memories && t.memories[m].state.Active?
    ensures var (r, all) := (AfterAbsorbing(t, cid, c, newId, merged, base, gone, now), base + t.memories[m].sources);
            && (r.Some? <==> MayMeet(t, c, m, all))
            && (r.Some? ==> SettledAs(t, r.value.0, r.value.1, cid, c, newId, merged, gone, now, m, all))
  {
    var all := base + t.memories[m].sources;
    if |all| <= 128 {
      SettlesExactlyWhen(t, cid, c, m, newId, merged, gone, all, now);
    }
  }

  lemma MatchedPromotesExactly(s: State, cid: Id, newId: Id, merged: string, now: int, m: Id)
    requires Inv(s) && cid in s.candidates && s.candidates[cid].status.Pending? && newId !in s.memories
    requires MatchOf(s, s.candidates[cid], now) == Some(m) && m in s.memories
    ensures var (c, o) := (s.candidates[cid], Overdue(s, Signed(s.candidates[cid]), now));
            && (Promote(s, cid, newId, merged, now).Some? <==> MayPromote(s, c, o, Some(m)))
            && (Promote(s, cid, newId, merged, now).Some? ==>
                  var (t, id) := Promote(s, cid, newId, merged, now).value; Promoted(s, t, id, cid, c, newId, merged, now, o, Some(m)))
  {
    var c := s.candidates[cid];
    var o, a := Overdue(s, Signed(c), now), Absorb(s, Signed(c), c.sources, now);
    AbsorbsExactly(s, c, now);
    PartsAreSmaller(Base(s, c, o), s.memories[m].sources);
    if a.Some? {
      var t := a.value.0;
      MatchStays(s, c, now);
      NotedLeavesTheMatch(s, c, now, m, t);
      MeetsExactlyWhen(t, cid, c, m, newId, merged, Base(s, c, o), Gone(o), now);
      MayMeetIsMayPromote(s, t, c, now, o, m);
      if Promote(s, cid, newId, merged, now).Some? {
        var (u, id) := Promote(s, cid, newId, merged, now).value;
        SettledIsPromoted(s, t, u, id, cid, c, newId, merged, now, o, m);
      }
    }
  }

  lemma NotedLeavesTheMatch(s: State, c: Candidate, now: int, m: Id, t: State)
    requires Inv(s) && MatchOf(s, c, now) == Some(m) && t.memories == Noted(s, Overdue(s, Signed(c), now), now)
    ensures Overdue(s, Signed(c), now) != Some(m) && m in s.memories && s.memories[m].state.Active?
    ensures m in t.memories && t.memories[m] == s.memories[m]
  {
  }

  lemma MayMeetIsMayPromote(s: State, t: State, c: Candidate, now: int, o: Option<Id>, m: Id)
    requires Inv(s) && Inv(t) && o == Overdue(s, Signed(c), now) && t.memories == Noted(s, o, now)
    requires m in s.memories && m in t.memories && t.memories[m] == s.memories[m]
    requires |Base(s, c, o)| <= |Base(s, c, o) + s.memories[m].sources|
    ensures MayMeet(t, c, m, Base(s, c, o) + s.memories[m].sources) <==> MayPromote(s, c, o, Some(m))
  {
    TakenAfterNoting(s, t, c, now, m);
  }

  lemma SettledIsPromoted(s: State, t: State, u: State, id: Id, cid: Id, c: Candidate, newId: Id, merged: string, now: int, o: Option<Id>,
                          m: Id)
    requires m in s.memories && m in t.memories && t.memories[m] == s.memories[m]
    requires t.memories == Noted(s, o, now) && t.candidates == s.candidates
    requires SettledAs(t, u, id, cid, c, newId, merged, Gone(o), now, m, Base(s, c, o) + s.memories[m].sources)
    ensures Promoted(s, u, id, cid, c, newId, merged, now, o, Some(m))
  {
  }

  /** A pending candidate is promoted if and only if what it asks for is met, and then every row is as said: the row
      that ran out noted, the matched row ended, replaced by a successor that says what the candidate says, or merged
      as the strategy has it, or else a new row; no other row changes. */
  lemma PromotesExactly(s: State, cid: Id, newId: Id, merged: string, now: int)
    requires Inv(s) && cid in s.candidates && s.candidates[cid].status.Pending? && newId !in s.memories
    ensures var c := s.candidates[cid];
            var (o, m) := (Overdue(s, Signed(c), now), MatchOf(s, c, now));
            && (o.Some? ==> RanOut(s, c, now, o.value)) && (o.None? ==> forall x :: !RanOut(s, c, now, x))
            && (m.Some? ==> IsMatch(s, c, now, m.value)) && (m.None? ==> forall x :: !IsMatch(s, c, now, x))
            && (Promote(s, cid, newId, merged, now).Some? <==> MayPromote(s, c, o, m))
            && (Promote(s, cid, newId, merged, now).Some? ==>
                  var (t, id) := Promote(s, cid, newId, merged, now).value; Promoted(s, t, id, cid, c, newId, merged, now, o, m))
  {
    var c := s.candidates[cid];
    OverdueIsExact(s, c, now);
    MatchIsExact(s, c, now);
    if MatchOf(s, c, now).None? {
      FreshPromotesExactly(s, cid, newId, merged, now);
    } else {
      MatchedPromotesExactly(s, cid, newId, merged, now, MatchOf(s, c, now).value);
    }
  }
}
