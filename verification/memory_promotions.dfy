/** What a promotion requires and what comes of it; candidates and supersedes lists over every history. */
module MemoryPromotions {
  import opened Options
  import opened MemoryModel
  import opened MemorySupersession
  import opened MemoryProvenance
  import opened MemoryCorrections

  // ---------------------------------------------------------------------------------------
  // One promotion

  /** A promotion that goes through found the memory it named, in the version it named, about the same thing;
      one that retires found something to retire, and an extractor's named it. */
  lemma PromotionHonoursItsGuards(s: State, cid: Id, newId: Id, merged: string, now: int)
    requires Inv(s) && cid in s.candidates && s.candidates[cid].status.Pending?
    requires Promote(s, cid, newId, merged, now).Some?
    ensures var (c, m) := (s.candidates[cid], MatchOf(s, s.candidates[cid], now));
            && (c.ifMatch.Some? ==> m == c.ifMatch)
            && (m.Some? ==> m.value in s.memories && Current(s.memories[m.value], now) && s.memories[m.value].about == c.about)
            && (c.ifMatchUpdatedAt.Some? ==> m.Some? && c.ifMatchUpdatedAt == Some(s.memories[m.value].updatedAt))
            && (Retires(c) ==> m.Some?) && (c.extractorRetire ==> c.ifMatch.Some?)
  {
    var c := s.candidates[cid];
    MatchStays(s, c, now);
    if MatchOf(s, c, now).Some? {
      AbsorbingLeavesTheMatch(s, c, now, MatchOf(s, c, now).value);
    }
  }

  /** What the row of an existing memory becomes, by strategy: only upserting and replacing say what the
      candidate says; what it superseded stays listed. */
  ghost predicate MergedAs(was: Memory, row: Memory, c: Candidate, merged: string) {
    && AllIn(was.supersedes, row.supersedes) && row.state.Active?
    && match Resolved(c) {
         case Upsert => row.content == c.content && row.signature == Signed(c)
         case Replace => row.content == c.content && row.signature == Signed(c)
         case Merge => row.content == merged && row.signature == was.signature && row.terms == was.terms
         case Dedupe => row.content == was.content && row.signature == was.signature && row.terms == was.terms
         case Reinforce => row.content == was.content && row.signature == was.signature && row.terms == was.terms
         case _ => false
       }
  }

  /** The new row takes over from the old one and from everything that one superseded; it says this, and the old row
      still says what it said. */
  ghost predicate TookOver(s: State, t: State, was: Id, id: Id, content: string, signature: Signature) {
    && was in s.memories && was in t.memories && id in t.memories && id !in s.memories
    && t.memories[was].state.Retired? && t.memories[id].state.Active?
    && was in t.memories[id].supersedes && AllIn(s.memories[was].supersedes, t.memories[id].supersedes)
    && t.memories[id].content == content && t.memories[id].signature == signature
    && t.memories[was].content == s.memories[was].content && t.memories[was].signature == s.memories[was].signature
  }

  lemma UniqueKeeps(xs: seq<Id>)
    ensures AllIn(xs, Unique(xs))
    decreases |xs|
  {
    if xs != [] {
      UniqueKeeps(xs[..|xs| - 1]);
    }
  }

  lemma MergingSays(was: Memory, incoming: Memory, c: Candidate, merged: string, now: int)
    requires MergeInto(was, incoming, merged, Resolved(c), now).Some? && was.state.Active? && incoming.state.Active?
    requires incoming.content == c.content && incoming.signature == Signed(c)
    ensures MergedAs(was, MergeInto(was, incoming, merged, Resolved(c), now).value, c, merged)
  {
    UniqueKeeps(was.supersedes + incoming.supersedes);
    assert AllIn(was.supersedes, was.supersedes + incoming.supersedes);
  }

  lemma ReplacingTakesOver(s: State, existing: Id, incoming: Memory, newId: Id, sources: set<Key>, now: int)
    requires existing in s.memories && newId !in s.memories && incoming.state.Active?
    requires ReplaceRow(s, existing, incoming, newId, sources, now).Some?
    ensures TookOver(s, ReplaceRow(s, existing, incoming, newId, sources, now).value, existing, newId, incoming.content, incoming.signature)
  {
    var was := s.memories[existing];
    var gone := was.(state := Retired, updatedAt := now);
    PersistedRow(s, existing, gone, None);
    var t := Persist(s, existing, gone, None).value;
    PersistedRow(t, newId, incoming.(supersedes := [existing] + was.supersedes + incoming.supersedes), Some(sources));
  }

  /** What a promotion came to: a new memory, an ended one, a successor, or a merged row. */
  ghost predicate CameTo(s: State, r: (State, Id), c: Candidate, m: Option<Id>, newId: Id, merged: string) {
    && r.1 in r.0.memories
    && if m.None? then r.1 == newId && r.0.memories[newId].state.Active? && r.0.memories[newId].content == c.content
       else if Retires(c) then r.1 == m.value && r.0.memories[r.1].state.Retired?
       else if c.strategy.ManualReview? && c.kind.Correction? then r.1 == newId && TookOver(s, r.0, m.value, newId, c.content, Signed(c))
       else m.value in s.memories && r.1 == m.value && MergedAs(s.memories[m.value], r.0.memories[r.1], c, merged)
  }

  lemma SettlingComesTo(s: State, cid: Id, c: Candidate, existing: Id, incoming: Memory, newId: Id, merged: string,
                        sources: set<Key>, now: int)
    requires existing in s.memories && cid in s.candidates && s.memories[existing].state.Active? && newId !in s.memories
    requires incoming.state.Active? && incoming.content == c.content && incoming.signature == Signed(c)
    requires Settle(s, cid, c, existing, incoming, newId, merged, sources, now).Some?
    ensures CameTo(s, Settle(s, cid, c, existing, incoming, newId, merged, sources, now).value, c, Some(existing), newId, merged)
  {
    var was := s.memories[existing];
    var inherited := if c.kind.Correction? then incoming.(terms := Inherit(was.terms, incoming.terms)) else incoming;
    if Retires(c) {
      PersistedRow(s, existing, was.(state := Retired, updatedAt := now), Some(sources));
    } else if c.strategy.ManualReview? && c.kind.Correction? {
      ReplacingTakesOver(s, existing, inherited, newId, sources, now);
    } else {
      MergingSays(was, inherited, c, merged, now);
      PersistedRow(s, existing, MergeInto(was, inherited, merged, Resolved(c), now).value, Some(sources));
    }
  }

  lemma AbsorbingAddsNoRow(s: State, sig: Signature, sources: set<Key>, now: int)
    requires Absorb(s, sig, sources, now).Some?
    ensures Absorb(s, sig, sources, now).value.0.memories.Keys == s.memories.Keys
            && Absorb(s, sig, sources, now).value.0.candidates == s.candidates
  {
  }

  /** A promotion makes a new memory where nothing matches; otherwise it ends the match, replaces it by a successor
      that lists it, or merges into it as the strategy says. */
  lemma PromotionComesTo(s: State, cid: Id, newId: Id, merged: string, now: int)
    requires Inv(s) && cid in s.candidates && s.candidates[cid].status.Pending?
    requires Promote(s, cid, newId, merged, now).Some?
    ensures var c := s.candidates[cid];
            CameTo(s, Promote(s, cid, newId, merged, now).value, c, MatchOf(s, c, now), newId, merged)
  {
    var c := s.candidates[cid];
    var (t, sources, gone) := Absorb(s, Signed(c), c.sources, now).value;
    var incoming := Canonical(c, now).(supersedes := gone);
    var m := MatchOf(s, c, now);
    MatchStays(s, c, now);
    AbsorbingAddsNoRow(s, Signed(c), c.sources, now);
    if m.Some? {
      AbsorbingLeavesTheMatch(s, c, now, m.value);
      var all := Union(sources, t.memories[m.value].sources).value;
      SettlingComesTo(t, cid, c, m.value, incoming, newId, merged, all, now);
    } else {
      PersistedRow(t, newId, incoming, Some(sources));
    }
  }

  /** An explicit correction needs a current memory about the same thing, and takes over from it. */
  lemma SupersedingTakesOver(s: State, id: Id, cid: Id, c: Candidate, newId: Id, now: int)
    requires Supersede(s, id, cid, c, newId, now).Some?
    ensures id in s.memories && Current(s.memories[id], now) && s.memories[id].about == c.about
    ensures var r := Supersede(s, id, cid, c, newId, now).value;
            r.1 == newId && TookOver(s, r.0, id, newId, c.content, Signature(c.about, c.statement))
  {
    var t := InsertCandidate(s, cid, AsCorrection(c, id), None).value.0;
    assert t.memories == s.memories;
    var row := Canonical(c, now).(terms := Inherit(s.memories[id].terms, Canonical(c, now).terms));
    ReplacingTakesOver(t, id, row, newId, Union(s.memories[id].sources, c.sources).value, now);
  }

  /** An edit reaches only a current memory and moves its deadline only when it says so. */
  lemma EditsKeepTermsUnlessTold(s: State, id: Id, statement: string, content: string, ttl: Option<nat>, now: int)
    requires Update(s, id, statement, content, ttl, now).Some?
    ensures id in s.memories && Current(s.memories[id], now)
    ensures var (was, row) := (s.memories[id], Update(s, id, statement, content, ttl, now).value.memories[id]);
            && row.content == content && row.signature == Signature(was.about, statement)
            && row.supersedes == was.supersedes && row.sources == was.sources && row.state == was.state
            && row.terms.sensitivity == was.terms.sensitivity && row.terms.retention == was.terms.retention
            && if ttl.None? then row.terms == was.terms
               else row.terms.ttl == ttl && row.terms.expiresAt == Some(now + 1_000 * ttl.value)
  {
    PersistedRow(s, id, Edited(s.memories[id], statement, content, ttl, now), None);
  }

  // ---------------------------------------------------------------------------------------
  // Candidates

  /** A candidate keeps what it claims; a pending one only gains sources or becomes a correction. */
  ghost predicate CandidateStays(a: Candidate, b: Candidate) {
    && Signed(b) == Signed(a) && b.content == a.content && b.ttl == a.ttl && b.sensitivity == a.sensitivity
    && b.ifMatch == a.ifMatch && b.ifMatchUpdatedAt == a.ifMatchUpdatedAt
    && a.sources <= b.sources && (b.kind == a.kind || b.kind.Correction?)
    && (!a.status.Pending? ==> b == a)
  }

  ghost predicate CandidatesStay(s: State, t: State) {
    forall c :: c in s.candidates ==> c in t.candidates && CandidateStays(s.candidates[c], t.candidates[c])
  }

  /** Candidates keep their kind, but for these. */
  ghost predicate KindsStay(s: State, t: State, contradicted: set<Id>) {
    forall c :: c in s.candidates && c !in contradicted ==> c in t.candidates && t.candidates[c].kind == s.candidates[c].kind
  }

  lemma PersistLeavesCandidates(s: State, id: Id, m: Memory, sources: Option<set<Key>>)
    ensures Persist(s, id, m, sources).Some? ==> Persist(s, id, m, sources).value.candidates == s.candidates
  {
  }

  lemma FinishReviews(s: State, cid: Id, id: Id, m: Memory, sources: set<Key>)
    requires cid in s.candidates
    ensures var r := Finish(s, cid, id, m, sources);
            r.Some? ==> r.value.0.candidates == Reviewed(s, cid, r.value.1).candidates
  {
    PersistLeavesCandidates(s, id, m, Some(sources));
  }

  lemma ReplaceReviews(s: State, cid: Id, existing: Id, incoming: Memory, newId: Id, sources: set<Key>, now: int)
    requires existing in s.memories && cid in s.candidates
    ensures var r := ReplaceReviewed(s, cid, existing, incoming, newId, sources, now);
            r.Some? ==> r.value.0.candidates == Reviewed(s, cid, r.value.1).candidates
  {
    var gone := s.memories[existing].(state := Retired, updatedAt := now);
    PersistLeavesCandidates(s, existing, gone, None);
    var t := Persist(s, existing, gone, None);
    if t.Some? {
      PersistLeavesCandidates(t.value, newId,
                              incoming.(supersedes := [existing] + s.memories[existing].supersedes + incoming.supersedes), Some(sources));
    }
  }

  lemma SettlingReviews(s: State, cid: Id, c: Candidate, existing: Id, incoming: Memory, newId: Id, merged: string,
                        sources: set<Key>, now: int)
    requires existing in s.memories && cid in s.candidates
    ensures var r := Settle(s, cid, c, existing, incoming, newId, merged, sources, now);
            r.Some? ==> r.value.0.candidates == Reviewed(s, cid, r.value.1).candidates
  {
    var was := s.memories[existing];
    var inherited := if c.kind.Correction? then incoming.(terms := Inherit(was.terms, incoming.terms)) else incoming;
    FinishReviews(s, cid, existing, was.(state := Retired, updatedAt := now), sources);
    ReplaceReviews(s, cid, existing, inherited, newId, sources, now);
    var row := MergeInto(was, inherited, merged, Resolved(c), now);
    if row.Some? {
      FinishReviews(s, cid, existing, row.value, sources);
    }
  }

  /** A promotion reviews its own candidate, names the memory it came to, and touches no other. */
  lemma PromotionReviews(s: State, cid: Id, newId: Id, merged: string, now: int)
    requires cid in s.candidates && s.candidates[cid].status.Pending? && Promote(s, cid, newId, merged, now).Some?
    ensures var r := Promote(s, cid, newId, merged, now).value; r.0.candidates == Reviewed(s, cid, r.1).candidates
  {
    var c := s.candidates[cid];
    var (t, sources, gone) := Absorb(s, Signed(c), c.sources, now).value;
    AbsorbingAddsNoRow(s, Signed(c), c.sources, now);
    var incoming := Canonical(c, now).(supersedes := gone);
    var existing := MatchOf(t, c, now);
    if existing.None? {
      FinishReviews(t, cid, newId, incoming, sources);
    } else {
      var all := Union(sources, t.memories[existing.value].sources).value;
      SettlingReviews(t, cid, c, existing.value, incoming, newId, merged, all, now);
    }
  }

  lemma ReviewingKeeps(s: State, t: State, cid: Id, id: Id)
    requires cid in s.candidates && s.candidates[cid].status.Pending? && t.candidates == Reviewed(s, cid, id).candidates
    ensures CandidatesStay(s, t) && KindsStay(s, t, {})
  {
  }

  lemma ReviewedPromotes(s: State, cid: Id, newId: Id, merged: string, now: int)
    requires cid in s.candidates && !s.candidates[cid].status.Pending? && Promote(s, cid, newId, merged, now).Some?
    ensures Promote(s, cid, newId, merged, now).value.0 == s
  {
  }

  lemma PromotionKeepsCandidates(s: State, cid: Id, newId: Id, merged: string, now: int)
    ensures var r := Promote(s, cid, newId, merged, now); r.Some? ==> CandidatesStay(s, r.value.0) && KindsStay(s, r.value.0, {})
  {
    if Promote(s, cid, newId, merged, now).Some? {
      var (t, id) := Promote(s, cid, newId, merged, now).value;
      if s.candidates[cid].status.Pending? {
        PromotionReviews(s, cid, newId, merged, now);
        ReviewingKeeps(s, t, cid, id);
      } else {
        ReviewedPromotes(s, cid, newId, merged, now);
      }
    }
  }

  lemma PromoteStepKeepsCandidates(s: State, cid: Id, newId: Id, merged: string, now: int, confirmed: bool)
    ensures var t := Step(s, EPromote(cid, newId, merged, now, confirmed)); CandidatesStay(s, t) && KindsStay(s, t, {})
  {
    PromotionKeepsCandidates(s, cid, newId, merged, now);
    var r := Promote(s, cid, newId, merged, now);
    if r.Some? && r.value.1 in r.value.0.memories {
      PersistLeavesCandidates(r.value.0, r.value.1, r.value.0.memories[r.value.1].(updatedAt := now), None);
    }
  }

  lemma SupersedeStepKeepsCandidates(s: State, id: Id, cid: Id, c: Candidate, newId: Id, now: int)
    ensures var t := Step(s, ESupersede(id, cid, c, newId, now)); CandidatesStay(s, t) && KindsStay(s, t, {})
  {
    if Supersede(s, id, cid, c, newId, now).Some? {
      var t := InsertCandidate(s, cid, AsCorrection(c, id), None).value.0;
      var row := Canonical(c, now).(terms := Inherit(s.memories[id].terms, Canonical(c, now).terms));
      ReplaceReviews(t, cid, id, row, newId, Union(s.memories[id].sources, c.sources).value, now);
    }
  }

  lemma RowStepKeepsCandidates(s: State, e: Event)
    requires e.EUpdate? || e.ESetLifecycle? || e.EMarkUsed?
    ensures Step(s, e).candidates == s.candidates
  {
  }

  /** The candidate this event contradicts, if it goes through. */
  function Contradicts(s: State, e: Event): set<Id> {
    if e.EFeedback? && e.contradicting && Feedback(s, e.cid, true, e.sources).Some? then {e.cid} else {}
  }

  lemma StepKeepsCandidates(s: State, e: Event)
    ensures CandidatesStay(s, Step(s, e)) && KindsStay(s, Step(s, e), Contradicts(s, e))
  {
    match e {
      case EPromote(cid, newId, merged, now, confirmed) => PromoteStepKeepsCandidates(s, cid, newId, merged, now, confirmed);
      case ESupersede(id, cid, c, newId, now) => SupersedeStepKeepsCandidates(s, id, cid, c, newId, now);
      case EUpdate(_, _, _, _, _) => RowStepKeepsCandidates(s, e);
      case ESetLifecycle(_, _, _) => RowStepKeepsCandidates(s, e);
      case EMarkUsed(_, _) => RowStepKeepsCandidates(s, e);
      case _ =>
    }
  }

  /** In every history a candidate is never lost, never loses a source, and once reviewed never changes. */
  lemma {:induction false} CandidatesStayAlways(s: State, es: seq<Event>)
    ensures CandidatesStay(s, After(s, es))
    decreases |es|
  {
    if es != [] {
      StepKeepsCandidates(s, es[0]);
      CandidatesStayAlways(Step(s, es[0]), es[1..]);
    }
  }

  /** However much happens after it was proposed, what was proposed stands under the candidate it was answered
      with, with every source it was proposed with. */
  lemma NoProposalIsLost(s: State, id: Id, c: Candidate, twin: Option<Id>, es: seq<Event>)
    requires InsertCandidate(s, id, c, twin).Some?
    ensures var (t, stood) := InsertCandidate(s, id, c, twin).value;
            var u := After(t, es);
            && stood in t.candidates && t.candidates[stood].status.Pending?
            && stood in u.candidates && Signed(u.candidates[stood]) == Signed(c) && c.sources <= u.candidates[stood].sources
            && CandidatesStay(s, t)
  {
    CandidatesStayAlways(InsertCandidate(s, id, c, twin).value.0, es);
  }

  lemma RowsStayAlways(s: State, es: seq<Event>)
    requires Inv(s)
    ensures s.memories.Keys <= After(s, es).memories.Keys
  {
    InvAlways(s, es);
  }

  /** Promoting again, whatever happened in between, changes nothing and gives the same memory. */
  lemma PromotingTwiceIsPromotingOnce(s: State, cid: Id, newId: Id, merged: string, now: int, es: seq<Event>,
                                      newId2: Id, merged2: string, now2: int)
    requires Inv(s) && cid in s.candidates && s.candidates[cid].status.Pending? && Promote(s, cid, newId, merged, now).Some?
    ensures var (t, id) := Promote(s, cid, newId, merged, now).value;
            var u := After(t, es);
            newId2 !in u.memories ==> Promote(u, cid, newId2, merged2, now2) == Some((u, id))
  {
    var (t, id) := Promote(s, cid, newId, merged, now).value;
    PromotionReviews(s, cid, newId, merged, now);
    PromotionComesTo(s, cid, newId, merged, now);
    PromoteKeeps(s, cid, newId, merged, now);
    CandidatesStayAlways(t, es);
    RowsStayAlways(t, es);
  }

  /** Feedback only adds to a pending candidate, and contradiction makes it a correction. */
  lemma ContradictionMakesCorrections(s: State, cid: Id, contradicting: bool, sources: set<Key>)
    requires Feedback(s, cid, contradicting, sources).Some?
    ensures cid in s.candidates
    ensures var c := Feedback(s, cid, contradicting, sources).value.candidates[cid];
            && c.status.Pending? && c.sources == s.candidates[cid].sources + sources
            && (c.kind.Correction? <==> contradicting || s.candidates[cid].kind.Correction?)
  {
  }

  /** However much happens after feedback went through, its sources are on the candidate, and on the memory it was
      promoted to by then, if any. */
  lemma FeedbackIsNeverLost(s: State, cid: Id, contradicting: bool, sources: set<Key>, es: seq<Event>)
    requires Inv(s) && SourcesInv(s) && Feedback(s, cid, contradicting, sources).Some?
    ensures var u := After(Feedback(s, cid, contradicting, sources).value, es);
            && cid in u.candidates && sources <= u.candidates[cid].sources
            && (u.candidates[cid].status.Promoted? ==>
                  var m := u.candidates[cid].status.memory;
                  m in u.memories && sources <= u.memories[m].sources)
  {
    var e, t := EFeedback(cid, contradicting, sources), Feedback(s, cid, contradicting, sources).value;
    ContradictionMakesCorrections(s, cid, contradicting, sources);
    assert Step(s, e) == t;
    StepKeeps(s, e);
    StepCovers(s, e);
    SourcesInvAlways(t, es);
    CandidatesStayAlways(t, es);
  }

  /** Everything a history contradicted. */
  ghost function Contradicted(s: State, es: seq<Event>): set<Id>
    decreases |es|
  {
    if es == [] then {} else Contradicts(s, es[0]) + Contradicted(Step(s, es[0]), es[1..])
  }

  lemma ContradictionCorrects(s: State, e: Event, cid: Id)
    requires cid in s.candidates
    ensures cid in Step(s, e).candidates
    ensures Step(s, e).candidates[cid].kind.Correction? <==> s.candidates[cid].kind.Correction? || cid in Contradicts(s, e)
  {
    StepKeepsCandidates(s, e);
  }

  /** After any history a candidate is a correction if and only if it was one or feedback in that history
      contradicted it: nothing else makes one, and nothing unmakes it. */
  lemma {:induction false} CorrectionsAreTheContradicted(s: State, es: seq<Event>, cid: Id)
    requires cid in s.candidates
    ensures cid in After(s, es).candidates
    ensures After(s, es).candidates[cid].kind.Correction? <==> s.candidates[cid].kind.Correction? || cid in Contradicted(s, es)
    decreases |es|
  {
    if es != [] {
      ContradictionCorrects(s, es[0], cid);
      CorrectionsAreTheContradicted(Step(s, es[0]), es[1..], cid);
    }
  }

  /** However much happens after a candidate was contradicted, and by whatever strategy it is promoted in the end,
      the memory it corrects keeps its deadline and its sensitivity, unless the candidate itself says otherwise. */
  lemma ContradictedCandidatesNeverLaunder(s: State, es: seq<Event>, cid: Id, newId: Id, merged: string, now: int, m: Id)
    requires Inv(s) && cid in s.candidates && Silent(s.candidates[cid]) && cid in Contradicted(s, es)
    requires var u := After(s, es);
             && cid in u.candidates && u.candidates[cid].status.Pending? && m in u.memories
             && MatchOf(u, u.candidates[cid], now) == Some(m) && Promote(u, cid, newId, merged, now).Some?
    ensures var (u, r) := (After(s, es), Promote(After(s, es), cid, newId, merged, now).value);
            r.1 in r.0.memories && SameTerms(u.memories[m], r.0.memories[r.1])
  {
    InvAlways(s, es);
    CandidatesStayAlways(s, es);
    CorrectionsAreTheContradicted(s, es, cid);
    CorrectionsKeepTerms(After(s, es), cid, newId, merged, now, m);
  }

  // ---------------------------------------------------------------------------------------
  // Supersedes lists only grow

  ghost predicate ListsGrow(s: State, t: State) {
    forall x :: x in s.memories ==> x in t.memories && AllIn(s.memories[x].supersedes, t.memories[x].supersedes)
  }

  lemma PersistGrows(s: State, id: Id, m: Memory, sources: Option<set<Key>>)
    requires id in s.memories ==> AllIn(s.memories[id].supersedes, m.supersedes)
    ensures var t := Persist(s, id, m, sources); t.Some? ==> ListsGrow(s, t.value)
  {
  }

  lemma ReplacingGrows(s: State, existing: Id, incoming: Memory, newId: Id, sources: set<Key>, now: int)
    requires existing in s.memories && newId !in s.memories
    ensures var t := ReplaceRow(s, existing, incoming, newId, sources, now); t.Some? ==> ListsGrow(s, t.value)
  {
    var gone := s.memories[existing].(state := Retired, updatedAt := now);
    PersistGrows(s, existing, gone, None);
    var t := Persist(s, existing, gone, None);
    if t.Some? {
      assert t.value.memories.Keys == s.memories.Keys;
      PersistGrows(t.value, newId, incoming.(supersedes := [existing] + s.memories[existing].supersedes + incoming.supersedes),
                   Some(sources));
    }
  }

  lemma FinishGrows(s: State, cid: Id, id: Id, m: Memory, sources: set<Key>)
    requires id in s.memories ==> AllIn(s.memories[id].supersedes, m.supersedes)
    ensures var r := Finish(s, cid, id, m, sources); r.Some? ==> ListsGrow(s, r.value.0)
  {
    PersistGrows(s, id, m, Some(sources));
  }

  lemma MergedGrows(was: Memory, incoming: Memory, merged: string, strategy: Strategy, now: int)
    ensures var row := MergeInto(was, incoming, merged, strategy, now); row.Some? ==> AllIn(was.supersedes, row.value.supersedes)
  {
    UniqueKeeps(was.supersedes + incoming.supersedes);
    assert AllIn(was.supersedes, was.supersedes + incoming.supersedes);
  }

  lemma SettlingGrows(s: State, cid: Id, c: Candidate, existing: Id, incoming: Memory, newId: Id, merged: string,
                      sources: set<Key>, now: int)
    requires existing in s.memories && cid in s.candidates && newId !in s.memories
    ensures var r := Settle(s, cid, c, existing, incoming, newId, merged, sources, now); r.Some? ==> ListsGrow(s, r.value.0)
  {
    var was := s.memories[existing];
    var inherited := if c.kind.Correction? then incoming.(terms := Inherit(was.terms, incoming.terms)) else incoming;
    if Retires(c) {
      FinishGrows(s, cid, existing, was.(state := Retired, updatedAt := now), sources);
    } else if c.strategy.ManualReview? && c.kind.Correction? {
      ReplacingGrows(s, existing, inherited, newId, sources, now);
    } else {
      var row := MergeInto(was, inherited, merged, Resolved(c), now);
      MergedGrows(was, inherited, merged, Resolved(c), now);
      if row.Some? {
        FinishGrows(s, cid, existing, row.value, sources);
      }
    }
  }

  lemma PromotionGrows(s: State, cid: Id, newId: Id, merged: string, now: int)
    ensures var r := Promote(s, cid, newId, merged, now); r.Some? ==> ListsGrow(s, r.value.0)
  {
    if Promote(s, cid, newId, merged, now).Some? && s.candidates[cid].status.Pending? {
      var c := s.candidates[cid];
      var (t, sources, gone) := Absorb(s, Signed(c), c.sources, now).value;
      AbsorbingAddsNoRow(s, Signed(c), c.sources, now);
      assert ListsGrow(s, t);
      var incoming := Canonical(c, now).(supersedes := gone);
      var existing := MatchOf(t, c, now);
      if existing.None? {
        PersistGrows(t, newId, incoming, Some(sources));
      } else {
        var all := Union(sources, t.memories[existing.value].sources).value;
        SettlingGrows(t, cid, c, existing.value, incoming, newId, merged, all, now);
      }
    }
  }

  lemma StepGrows(s: State, e: Event)
    ensures ListsGrow(s, Step(s, e))
  {
    match e {
      case EPromote(cid, newId, merged, now, confirmed) =>
        PromotionGrows(s, cid, newId, merged, now);
        var r := Promote(s, cid, newId, merged, now);
        if r.Some? && r.value.1 in r.value.0.memories {
          PersistGrows(r.value.0, r.value.1, r.value.0.memories[r.value.1].(updatedAt := now), None);
        }
      case ESupersede(id, cid, c, newId, now) =>
        if Supersede(s, id, cid, c, newId, now).Some? {
          var t := InsertCandidate(s, cid, AsCorrection(c, id), None).value.0;
          var row := Canonical(c, now).(terms := Inherit(s.memories[id].terms, Canonical(c, now).terms));
          ReplacingGrows(t, id, row, newId, Union(s.memories[id].sources, c.sources).value, now);
        }
      case EUpdate(id, statement, content, ttl, now) =>
        if Update(s, id, statement, content, ttl, now).Some? {
          PersistGrows(s, id, Edited(s.memories[id], statement, content, ttl, now), None);
        }
      case EMarkUsed(id, now) =>
        if id in s.memories {
          PersistGrows(s, id, s.memories[id].(uses := s.memories[id].uses + 1), None);
        }
      case _ =>
    }
  }

  /** What a memory has superseded stays on its list through every history. */
  lemma {:induction false} SupersededStaysListed(s: State, es: seq<Event>)
    ensures ListsGrow(s, After(s, es))
    decreases |es|
  {
    if es != [] {
      StepGrows(s, es[0]);
      SupersededStaysListed(Step(s, es[0]), es[1..]);
    }
  }
}
