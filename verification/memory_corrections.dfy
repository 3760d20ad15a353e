/** Corrections do not launder a memory's deadline or sensitivity. */
module MemoryCorrections {
  import opened Options
  import opened MemoryModel
  import opened MemorySupersession
  import opened MemoryProvenance

  /** How long the memory is kept and how sensitive it is. */
  ghost predicate SameTerms(m: Memory, n: Memory) {
    && n.terms.ttl == m.terms.ttl && n.terms.expiresAt == m.terms.expiresAt && n.terms.sensitivity == m.terms.sensitivity
  }

  /** A correction that says nothing about either. */
  predicate Silent(c: Candidate) {
    c.ttl.None? && c.sensitivity.None?
  }

  lemma InheritingKeepsTerms(c: Candidate, m: Memory, now: int)
    requires Silent(c)
    ensures SameTerms(m, Canonical(c, now).(terms := Inherit(m.terms, Canonical(c, now).terms)))
  {
  }

  lemma MergingKeepsTerms(existing: Memory, incoming: Memory, merged: string, strategy: Strategy, now: int)
    requires SameTerms(existing, incoming)
    ensures var row := MergeInto(existing, incoming, merged, strategy, now); row.Some? ==> SameTerms(existing, row.value)
  {
  }

  /** Persisting changes a row's sources only. */
  lemma PersistedRow(s: State, id: Id, m: Memory, sources: Option<set<Key>>)
    ensures var t := Persist(s, id, m, sources);
            t.Some? ==> id in t.value.memories && t.value.memories[id] == m.(sources := t.value.memories[id].sources)
  {
  }

  lemma SettlingKeepsTerms(s: State, cid: Id, c: Candidate, existing: Id, incoming: Memory, newId: Id, merged: string,
                           sources: set<Key>, now: int)
    requires existing in s.memories && cid in s.candidates && c.kind.Correction? && Silent(c)
    requires incoming.terms == Canonical(c, now).terms
    ensures var r := Settle(s, cid, c, existing, incoming, newId, merged, sources, now);
            r.Some? ==> r.value.1 in r.value.0.memories && SameTerms(s.memories[existing], r.value.0.memories[r.value.1])
  {
    var was := s.memories[existing];
    PersistedRow(s, existing, was.(state := Retired, updatedAt := now), Some(sources));
    if !Retires(c) && was.about == incoming.about {
      var inherited := incoming.(terms := Inherit(was.terms, incoming.terms));
      InheritingKeepsTerms(c, was, now);
      ReplacedRow(s, existing, inherited, newId, sources, now);
      MergingKeepsTerms(was, inherited, merged, Resolved(c), now);
      var row := MergeInto(was, inherited, merged, Resolved(c), now);
      if row.Some? {
        PersistedRow(s, existing, row.value, Some(sources));
      }
    }
  }

  lemma ReplacedRow(s: State, existing: Id, incoming: Memory, newId: Id, sources: set<Key>, now: int)
    requires existing in s.memories
    ensures var t := ReplaceRow(s, existing, incoming, newId, sources, now);
            t.Some? ==> newId in t.value.memories && t.value.memories[newId].terms == incoming.terms
  {
    var retired := Persist(s, existing, s.memories[existing].(state := Retired, updatedAt := now), None);
    if retired.Some? {
      PersistedRow(retired.value, newId,
                   incoming.(supersedes := [existing] + s.memories[existing].supersedes + incoming.supersedes), Some(sources));
    }
  }

  /** Whatever merge strategy lets it through, a silent correction of a memory that has not run out
      leaves a memory with the original's deadline and sensitivity. */
  lemma CorrectionsKeepTerms(s: State, cid: Id, newId: Id, merged: string, now: int, m: Id)
    requires Inv(s) && cid in s.candidates && s.candidates[cid].status.Pending?
    requires s.candidates[cid].kind.Correction? && Silent(s.candidates[cid])
    requires m in s.memories && MatchOf(s, s.candidates[cid], now) == Some(m)
    requires Promote(s, cid, newId, merged, now).Some?
    ensures var r := Promote(s, cid, newId, merged, now).value;
            r.1 in r.0.memories && SameTerms(s.memories[m], r.0.memories[r.1])
  {
    var c := s.candidates[cid];
    var (t, sources, gone) := Absorb(s, Signed(c), c.sources, now).value;
    MatchStays(s, c, now);
    AbsorbingLeavesTheMatch(s, c, now, m);
    var incoming := Canonical(c, now).(supersedes := gone);
    var all := Union(sources, t.memories[m].sources).value;
    SettlingKeepsTerms(t, cid, c, m, incoming, newId, merged, all, now);
  }

  lemma AbsorbingLeavesTheMatch(s: State, c: Candidate, now: int, m: Id)
    requires Inv(s) && Absorb(s, Signed(c), c.sources, now).Some? && m in s.memories && MatchOf(s, c, now) == Some(m)
    ensures var t := Absorb(s, Signed(c), c.sources, now).value.0; m in t.memories && t.memories[m] == s.memories[m]
  {
    var overdue := Overdue(s, Signed(c), now);
    if overdue.Some? {
      var row := s.memories[overdue.value].(state := Expired, updatedAt := now);
      OwnRowMayBeWritten(s, overdue.value, row);
      PersistKeeps(s, overdue.value, row, None);
    }
  }

  lemma SupersedingKeepsTerms(s: State, id: Id, cid: Id, c: Candidate, newId: Id, now: int)
    requires Silent(c) && Supersede(s, id, cid, c, newId, now).Some?
    ensures var r := Supersede(s, id, cid, c, newId, now).value;
            r.1 in r.0.memories && id in s.memories && SameTerms(s.memories[id], r.0.memories[r.1])
  {
    var t := InsertCandidate(s, cid, AsCorrection(c, id), None).value.0;
    assert t.memories == s.memories;
    InheritingKeepsTerms(c, s.memories[id], now);
    var row := Canonical(c, now).(terms := Inherit(s.memories[id].terms, Canonical(c, now).terms));
    ReplacedRow(t, id, row, newId, Union(s.memories[id].sources, c.sources).value, now);
  }

  // ---------------------------------------------------------------------------------------
  // Chains

  /** The event is a silent correction of this memory, promoted or explicit. */
  ghost predicate Corrects(s: State, e: Event, m: Id) {
    match e
    case EPromote(cid, _, _, now, _) =>
      && cid in s.candidates && s.candidates[cid].status.Pending? && s.candidates[cid].kind.Correction?
      && Silent(s.candidates[cid]) && MatchOf(s, s.candidates[cid], now) == Some(m)
    case ESupersede(id, _, c, _, _) => id == m && Silent(c)
    case _ => false
  }

  lemma OneCorrection(s: State, e: Event, m: Id)
    requires Inv(s) && m in s.memories && Corrects(s, e, m) && Perform(s, e).Some?
    ensures var r := Perform(s, e).value;
            r.1.Some? && r.1.value in r.0.memories && SameTerms(s.memories[m], r.0.memories[r.1.value])
  {
    match e
    case EPromote(cid, newId, merged, now, confirmed) =>
      CorrectionsKeepTerms(s, cid, newId, merged, now, m);
      if confirmed {
        var r := Promote(s, cid, newId, merged, now).value;
        PersistedRow(r.0, r.1, r.0.memories[r.1].(updatedAt := now), None);
      }
    case ESupersede(id, cid, c, newId, now) => SupersedingKeepsTerms(s, id, cid, c, newId, now);
  }

  /** The memory a chain of corrections ends with: each corrects what the one before it left. */
  ghost function Corrected(s: State, es: seq<Event>, m: Id): Option<Id>
    decreases |es|
  {
    if es == [] then Some(m)
    else if !Corrects(s, es[0], m) || Perform(s, es[0]).None? then None
    else
      var r := Perform(s, es[0]).value;
      if r.1.None? then None else Corrected(r.0, es[1..], r.1.value)
  }

  /** Along any chain of silent corrections, by any strategies, the deadline and the sensitivity at the
      end are those the memory started with. */
  lemma {:induction false} CorrectionsNeverLaunder(s: State, es: seq<Event>, m: Id)
    requires Inv(s) && m in s.memories && Corrected(s, es, m).Some?
    ensures var t, last := After(s, es), Corrected(s, es, m).value;
            last in t.memories && SameTerms(s.memories[m], t.memories[last])
    decreases |es|
  {
    if es != [] {
      var (t, next) := Perform(s, es[0]).value;
      OneCorrection(s, es[0], m);
      StepKeeps(s, es[0]);
      CorrectionsNeverLaunder(t, es[1..], next.value);
    }
  }

  // ---------------------------------------------------------------------------------------
  // Where it stops

  /** The condition is needed: a silent correction that finds no memory still current starts a memory
      with no deadline and no sensitivity, even over one with the same statement that had both. */
  lemma CorrectionsAfterExpiryStartAfresh(s: State, cid: Id, newId: Id, merged: string, now: int)
    requires Inv(s) && cid in s.candidates && s.candidates[cid].status.Pending? && Silent(s.candidates[cid])
    requires MatchOf(s, s.candidates[cid], now).None? && Promote(s, cid, newId, merged, now).Some?
    ensures var r := Promote(s, cid, newId, merged, now).value;
            && r.1 in r.0.memories && r.0.memories[r.1].terms.expiresAt.None? && r.0.memories[r.1].terms.sensitivity.None?
            && forall m :: m in s.memories && Overdue(s, Signed(s.candidates[cid]), now) == Some(m)
                 ==> m in r.0.memories[r.1].supersedes && !SameTerms(s.memories[m], r.0.memories[r.1])
  {
    var c := s.candidates[cid];
    var (t, sources, gone) := Absorb(s, Signed(c), c.sources, now).value;
    MatchStays(s, c, now);
    PersistedRow(t, newId, Canonical(c, now).(supersedes := gone), Some(sources));
  }

  /** And a silent assertion merged by upsert or replace takes the original's terms away. */
  lemma AssertionsMayDropTerms(s: State, cid: Id, newId: Id, merged: string, now: int, m: Id)
    requires Inv(s) && cid in s.candidates && s.candidates[cid].status.Pending? && Silent(s.candidates[cid])
    requires !s.candidates[cid].kind.Correction? && !Retires(s.candidates[cid])
    requires s.candidates[cid].strategy.Upsert? || s.candidates[cid].strategy.Replace?
    requires m in s.memories && MatchOf(s, s.candidates[cid], now) == Some(m)
    requires Promote(s, cid, newId, merged, now).Some?
    ensures var r := Promote(s, cid, newId, merged, now).value;
            r.1 == m && m in r.0.memories && r.0.memories[m].terms.expiresAt.None? && r.0.memories[m].terms.sensitivity.None?
  {
    var c := s.candidates[cid];
    var (t, sources, gone) := Absorb(s, Signed(c), c.sources, now).value;
    MatchStays(s, c, now);
    AbsorbingLeavesTheMatch(s, c, now, m);
    var incoming := Canonical(c, now).(supersedes := gone);
    var all := Union(sources, t.memories[m].sources).value;
    var row := MergeInto(t.memories[m], incoming, merged, Resolved(c), now).value;
    PersistedRow(t, m, row, Some(all));
  }
}
