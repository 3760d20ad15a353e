/** The store itself: each transaction as one method, proved against what it does to the tables. */
module MemoryStores {
  import opened Options
  import opened MemoryModel

  /** Rows are used one after the other; a refusal on one undoes them all. */
  function MarkAllUsed(s: State, ids: seq<Id>, now: int): Option<State>
    decreases |ids|
  {
    if ids == [] then Some(s)
    else
      var t := MarkUsed(s, ids[0], now);
      if t.None? then None else MarkAllUsed(t.value, ids[1..], now)
  }

  class LearningStore {
    var memories: map<Id, Memory>
    var index: map<Signature, Id>
    var candidates: map<Id, Candidate>
    var log: seq<Id>

    function Tables(): State
      reads this
    {
      State(memories, index, candidates, log)
    }

    constructor ()
      ensures Tables() == EMPTY
    {
      memories, index, candidates, log := map[], map[], map[], [];
    }

    method Restore(s: State)
      modifies this
      ensures Tables() == s
    {
      memories, index, candidates, log := s.memories, s.index, s.candidates, s.log;
    }

    /** INSERT … ON CONFLICT(id) DO UPDATE, under the unique index of active signatures. */
    method WriteMemory(id: Id, m: Memory) returns (ok: bool)
      modifies this`memories, this`index, this`log
      ensures ok <==> Write(old(Tables()), id, m).Some?
      ensures Tables() == if ok then Write(old(Tables()), id, m).value else old(Tables())
    {
      if m.state.Active? && m.signature in index && index[m.signature] != id {
        return false;
      }
      var wasActive := id in memories && memories[id].state.Active?;
      if !m.state.Active? && (id !in memories || wasActive) {
        log := log + [id];
      }
      if wasActive && memories[id].signature in index {
        index := index - {memories[id].signature};
      }
      if m.state.Active? {
        index := index[m.signature := id];
      }
      memories := memories[id := m];
      ok := true;
    }

    method PersistMemory(id: Id, m: Memory, sources: Option<set<Key>>) returns (ok: bool)
      modifies this`memories, this`index, this`log
      ensures ok <==> Persist(old(Tables()), id, m, sources).Some?
      ensures Tables() == if ok then Persist(old(Tables()), id, m, sources).value else old(Tables())
    {
      if id !in memories && sources.None? {
        return false;
      }
      var dependencies := if id in memories then memories[id].sources else {};
      if sources.Some? {
        dependencies := sources.value + dependencies;
        if |dependencies| > SOURCE_LIMIT {
          return false;
        }
      }
      ok := WriteMemory(id, m.(sources := dependencies));
    }

    // -------------------------------------------------------------------------------------
    // Candidates

    method InsertCandidate(id: Id, c: Candidate, deduplicate: bool) returns (found: Option<Id>)
      modifies this`candidates
      ensures exists twin: Option<Id> ::
        && (twin.None? ==> !deduplicate || forall d :: !PendingTwin(old(Tables()), d, c))
        && var r := MemoryModel.InsertCandidate(old(Tables()), id, c, twin);
           if r.None? then found.None? && Tables() == old(Tables())
           else found == Some(r.value.1) && Tables() == r.value.0
    {
      ghost var was := Tables();
      if deduplicate && exists d :: d in candidates && PendingTwin(Tables(), d, c) {
        var d :| d in candidates && PendingTwin(Tables(), d, c);
        ghost var twin := Some(d);
        var all := c.sources + candidates[d].sources;
        if |all| > SOURCE_LIMIT {
          assert MemoryModel.InsertCandidate(was, id, c, twin).None?;
          return None;
        }
        candidates := candidates[d := candidates[d].(sources := all)];
        assert MemoryModel.InsertCandidate(was, id, c, twin) == Some((Tables(), d));
        return Some(d);
      }
      ghost var twin: Option<Id> := None;
      if id in candidates || |c.sources| > SOURCE_LIMIT {
        assert MemoryModel.InsertCandidate(was, id, c, twin).None?;
        return None;
      }
      candidates := candidates[id := c.(status := Pending)];
      assert MemoryModel.InsertCandidate(was, id, c, twin) == Some((Tables(), id));
      found := Some(id);
    }

    method RejectCandidate(cid: Id) returns (ok: bool)
      modifies this`candidates
      ensures ok <==> Reject(old(Tables()), cid).Some?
      ensures Tables() == if ok then Reject(old(Tables()), cid).value else old(Tables())
    {
      if cid !in candidates || candidates[cid].status != Pending {
        return false;
      }
      candidates := candidates[cid := candidates[cid].(status := Rejected)];
      ok := true;
    }

    method RecordFeedback(cid: Id, contradicting: bool, sources: set<Key>) returns (ok: bool)
      modifies this`candidates
      ensures ok <==> Feedback(old(Tables()), cid, contradicting, sources).Some?
      ensures Tables() == if ok then Feedback(old(Tables()), cid, contradicting, sources).value else old(Tables())
    {
      if cid !in candidates || candidates[cid].status != Pending || |candidates[cid].sources + sources| > SOURCE_LIMIT {
        return false;
      }
      var c := candidates[cid];
      candidates := candidates[cid := c.(kind := if contradicting then Correction else c.kind, sources := c.sources + sources)];
      ok := true;
    }

    // -------------------------------------------------------------------------------------
    // Promotion

    method AbsorbExpired(sig: Signature, sources: set<Key>, now: int) returns (ok: bool, all: set<Key>, gone: seq<Id>)
      modifies this`memories, this`index, this`log
      ensures ok <==> Absorb(old(Tables()), sig, sources, now).Some?
      ensures ok ==> (Tables(), all, gone) == Absorb(old(Tables()), sig, sources, now).value
    {
      all, gone := sources, [];
      if sig !in index || index[sig] !in memories || Current(memories[index[sig]], now) {
        return true, all, gone;
      }
      var id := index[sig];
      var expired := memories[id];
      all := sources + expired.sources;
      if |all| > SOURCE_LIMIT {
        return false, all, gone;
      }
      ok := PersistMemory(id, expired.(state := Expired, updatedAt := now), None);
      gone := [id];
    }

    method MarkReviewed(cid: Id, id: Id)
      requires cid in candidates
      modifies this`candidates
      ensures Tables() == Reviewed(old(Tables()), cid, id)
    {
      var c := candidates[cid];
      candidates := candidates[cid := c.(status := Promoted(id), strategy := Resolved(c))];
    }

    /** The existing row goes, and the incoming one takes over under its own id. */
    method ReplaceMemory(existing: Id, incoming: Memory, newId: Id, sources: set<Key>, now: int) returns (ok: bool)
      requires existing in memories
      modifies this`memories, this`index, this`log
      ensures ok <==> ReplaceRow(old(Tables()), existing, incoming, newId, sources, now).Some?
      ensures ok ==> Tables() == ReplaceRow(old(Tables()), existing, incoming, newId, sources, now).value
    {
      var was := memories[existing];
      ok := PersistMemory(existing, was.(state := Retired, updatedAt := now), None);
      if ok {
        ok := PersistMemory(newId, incoming.(supersedes := [existing] + was.supersedes + incoming.supersedes), Some(sources));
      }
    }

    method FinishPromotion(cid: Id, id: Id, m: Memory, sources: set<Key>) returns (result: Option<Id>)
      requires cid in candidates
      modifies this
      ensures var r := Finish(old(Tables()), cid, id, m, sources);
              if r.None? then result.None? else result == Some(r.value.1) && Tables() == r.value.0
    {
      var ok := PersistMemory(id, m, Some(sources));
      if !ok || cid !in candidates {
        return None;
      }
      MarkReviewed(cid, id);
      result := Some(id);
    }

    method SettlePromotion(cid: Id, c: Candidate, existing: Id, incoming: Memory, newId: Id, merged: string, sources: set<Key>, now: int)
      returns (result: Option<Id>)
      requires existing in memories && cid in candidates
      modifies this
      ensures var r := Settle(old(Tables()), cid, c, existing, incoming, newId, merged, sources, now);
              if r.None? then result.None? else result == Some(r.value.1) && Tables() == r.value.0
    {
      var was := memories[existing];
      if was.about != incoming.about {
        return None;
      }
      if c.extractorRetire || (c.taste && c.kind.Correction?) {
        result := FinishPromotion(cid, existing, was.(state := Retired, updatedAt := now), sources);
        return;
      }
      var row := incoming;
      if c.kind.Correction? {
        row := row.(terms := Inherit(was.terms, incoming.terms));
      }
      if c.strategy.ManualReview? && c.kind.Correction? {
        var ok := ReplaceMemory(existing, row, newId, sources, now);
        if !ok || cid !in candidates {
          return None;
        }
        MarkReviewed(cid, newId);
        return Some(newId);
      }
      var combined := MergeInto(was, row, merged, Resolved(c), now);
      if combined.None? {
        return None;
      }
      result := FinishPromotion(cid, existing, combined.value, sources);
    }

    /** A refusal anywhere puts every table back. */
    method PromoteInTransaction(cid: Id, newId: Id, merged: string, now: int) returns (result: Option<Id>)
      modifies this
      ensures var r := Promote(old(Tables()), cid, newId, merged, now);
              if r.None? then result.None? && Tables() == old(Tables()) else result == Some(r.value.1) && Tables() == r.value.0
    {
      if cid !in candidates || newId in memories {
        return None;
      }
      var c := candidates[cid];
      if c.status.Promoted? && c.status.memory in memories {
        return Some(c.status.memory);
      }
      if !c.status.Pending? {
        return None;
      }
      var before := Tables();
      var ok, sources, gone := AbsorbExpired(Signed(c), c.sources, now);
      if !ok {
        Restore(before);
        return None;
      }
      result := PromoteAgainst(cid, c, newId, merged, sources, gone, now);
      if result.None? {
        Restore(before);
      }
    }

    /** What follows once the row that had run out is out of the way. */
    method PromoteAgainst(cid: Id, c: Candidate, newId: Id, merged: string, sources: set<Key>, gone: seq<Id>, now: int)
      returns (result: Option<Id>)
      modifies this
      ensures var r := AfterAbsorbing(old(Tables()), cid, c, newId, merged, sources, gone, now);
              if r.None? then result.None? else result == Some(r.value.1) && Tables() == r.value.0
    {
      var incoming := Canonical(c, now).(supersedes := gone);
      var existing := if c.ifMatch.Some? then c.ifMatch else if Signed(c) in index then Some(index[Signed(c)]) else None;
      if existing.Some? && (existing.value !in memories || !Current(memories[existing.value], now)) {
        existing := None;
      }
      if (c.ifMatch.Some? && existing.None?) || cid !in candidates {
        return None;
      }
      if c.ifMatchUpdatedAt.Some? && (existing.None? || memories[existing.value].updatedAt != c.ifMatchUpdatedAt.value) {
        return None;
      }
      if existing.None? {
        if Retires(c) {
          return None;
        }
        result := FinishPromotion(cid, newId, incoming, sources);
        return;
      }
      var all := sources + memories[existing.value].sources;
      if |all| > SOURCE_LIMIT || (c.extractorRetire && c.ifMatch.None?) {
        return None;
      }
      result := SettlePromotion(cid, c, existing.value, incoming, newId, merged, all, now);
    }

    method PromoteCandidate(cid: Id, newId: Id, merged: string, now: int) returns (result: Option<Id>)
      modifies this
      ensures var r := MemoryModel.PromoteCandidate(old(Tables()), cid, newId, merged, now);
              if r.None? then result.None? && Tables() == old(Tables()) else result == Some(r.value.1) && Tables() == r.value.0
    {
      if cid !in candidates || !candidates[cid].status.Pending? {
        return None;
      }
      var before := Tables();
      result := PromoteInTransaction(cid, newId, merged, now);
      if result.Some? {
        if result.value in memories {
          var ok := PersistMemory(result.value, memories[result.value].(updatedAt := now), None);
          if ok {
            return;
          }
        }
        Restore(before);
        result := None;
      }
    }

    // -------------------------------------------------------------------------------------
    // Superseding, editing, ending and using a memory

    method SupersedeMemory(id: Id, cid: Id, c: Candidate, newId: Id, now: int) returns (result: Option<Id>)
      modifies this
      ensures var r := Supersede(old(Tables()), id, cid, c, newId, now);
              if r.None? then result.None? && Tables() == old(Tables()) else result == Some(r.value.1) && Tables() == r.value.0
    {
      if id !in memories || !Current(memories[id], now) || newId in memories || memories[id].about != c.about
         || cid in candidates || |c.sources| > SOURCE_LIMIT || |memories[id].sources + c.sources| > SOURCE_LIMIT {
        return None;
      }
      var before := Tables();
      var was := memories[id];
      candidates := candidates[cid := AsCorrection(c, id).(status := Pending)];
      var canonical := Canonical(c, now);
      var ok := ReplaceMemory(id, canonical.(terms := Inherit(was.terms, canonical.terms)), newId, was.sources + c.sources, now);
      if !ok || cid !in candidates {
        Restore(before);
        return None;
      }
      candidates := candidates[cid := candidates[cid].(status := Promoted(newId))];
      result := Some(newId);
    }

    method UpdateMemory(id: Id, statement: string, content: string, ttl: Option<nat>, now: int) returns (ok: bool)
      modifies this`memories, this`index, this`log
      ensures ok <==> Update(old(Tables()), id, statement, content, ttl, now).Some?
      ensures Tables() == if ok then Update(old(Tables()), id, statement, content, ttl, now).value else old(Tables())
    {
      if id !in memories || !Current(memories[id], now) {
        return false;
      }
      var updated := memories[id].(content := content, signature := Signature(memories[id].about, statement), updatedAt := now);
      if ttl.Some? {
        updated := updated.(terms := updated.terms.(ttl := ttl, expiresAt := Some(now + 1_000 * ttl.value)));
      }
      ok := PersistMemory(id, updated, None);
    }

    method SetLifecycle(id: Id, state: Lifecycle, now: int) returns (ok: bool)
      modifies this`memories, this`index, this`log
      ensures ok <==> MemoryModel.SetLifecycle(old(Tables()), id, state, now).Some?
      ensures Tables() == if ok then MemoryModel.SetLifecycle(old(Tables()), id, state, now).value else old(Tables())
    {
      if state.Active? || id !in memories || !memories[id].state.Active? {
        return false;
      }
      ok := WriteMemory(id, memories[id].(state := state, updatedAt := now));
    }

    method MarkUsedRows(ids: seq<Id>, now: int) returns (ok: bool)
      modifies this
      ensures ok <==> MarkAllUsed(old(Tables()), ids, now).Some?
      ensures Tables() == if ok then MarkAllUsed(old(Tables()), ids, now).value else old(Tables())
    {
      var before := Tables();
      for i := 0 to |ids|
        invariant MarkAllUsed(Tables(), ids[i..], now) == MarkAllUsed(old(Tables()), ids, now)
      {
        assert ids[i..][0] == ids[i] && ids[i..][1..] == ids[i + 1..];
        if ids[i] in memories && Current(memories[ids[i]], now) {
          var written := PersistMemory(ids[i], memories[ids[i]].(uses := memories[ids[i]].uses + 1), None);
          if !written {
            Restore(before);
            return false;
          }
        }
      }
      ok := true;
    }
  }
}
