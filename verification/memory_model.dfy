/** Durable memories and the candidates they are promoted from. */
module MemoryModel {
  import opened Options
  import ProvenanceModel

  type Id = string

  type Key = ProvenanceModel.Key

  datatype Lifecycle = Active | Expired | Revoked | Retired

  datatype Kind = Assertion | Confirmation | Correction | Derived

  datatype Strategy = Create | Upsert | Replace | Dedupe | Reinforce | Merge | ManualReview

  /** Stands for the digest of what a memory is about and its normalized statement. */
  datatype Signature = Signature(about: string, statement: string)

  /** What the merge rules carry over together: how long, how sensitive, and how retained. */
  datatype Terms = Terms(ttl: Option<nat>, expiresAt: Option<int>, sensitivity: Option<string>, retention: Option<string>)

  /** `about` is the subject, scope and type, compared as a whole. */
  datatype Memory = Memory(about: string, content: string, signature: Signature, state: Lifecycle, terms: Terms,
                           supersedes: seq<Id>, updatedAt: int, uses: nat, sources: set<Key>)

  datatype CandidateStatus = Pending | Promoted(memory: Id) | Rejected

  /** `extractorRetire` and `taste` are flags of the candidate's extensions. */
  datatype Candidate = Candidate(kind: Kind, about: string, statement: string, content: string, ttl: Option<nat>,
                                 sensitivity: Option<string>, retention: Option<string>, strategy: Strategy,
                                 ifMatch: Option<Id>, ifMatchUpdatedAt: Option<int>, extractorRetire: bool, taste: bool,
                                 status: CandidateStatus, sources: set<Key>)

  /** `index` is the unique index over the signatures of active rows. `log` is history: the memories
      in the order in which they stopped being active; no transaction reads it. */
  datatype State = State(memories: map<Id, Memory>, index: map<Signature, Id>, candidates: map<Id, Candidate>, log: seq<Id>)

  const EMPTY: State := State(map[], map[], map[], [])

  const SOURCE_LIMIT: nat := 128

  /** The union of two source sets, by key; it fails rather than drop a source. */
  function Union(a: set<Key>, b: set<Key>): Option<set<Key>> {
    if |a + b| > SOURCE_LIMIT then None else Some(a + b)
  }

  predicate Current(m: Memory, now: int) {
    m.state.Active? && (m.terms.expiresAt.Some? ==> now < m.terms.expiresAt.value)
  }

  // ---------------------------------------------------------------------------------------
  // Writing one row

  /** The row is written under its id; an active row may not share its signature with another. */
  function Write(s: State, id: Id, m: Memory): Option<State> {
    if m.state.Active? && m.signature in s.index && s.index[m.signature] != id then None
    else
      var stopped := !m.state.Active? && (id !in s.memories || s.memories[id].state.Active?);
      var freed := if id in s.memories && s.memories[id].state.Active? && s.memories[id].signature in s.index
                   then s.index - {s.memories[id].signature} else s.index;
      Some(s.(memories := s.memories[id := m],
              index := if m.state.Active? then freed[m.signature := id] else freed,
              log := if stopped then s.log + [id] else s.log))
  }

  /** A stored row's sources are added to, never replaced; without new sources they stay. */
  function Persist(s: State, id: Id, m: Memory, sources: Option<set<Key>>): Option<State> {
    var stored := if id in s.memories then s.memories[id].sources else {};
    if sources.None? then (if id in s.memories then Write(s, id, m.(sources := stored)) else None)
    else
      var all := Union(sources.value, stored);
      if all.None? then None else Write(s, id, m.(sources := all.value))
  }

  // ---------------------------------------------------------------------------------------
  // Candidates

  function Signed(c: Candidate): Signature { Signature(c.about, c.statement) }

  predicate PendingTwin(s: State, d: Id, c: Candidate) {
    d in s.candidates && s.candidates[d].status.Pending? && Signed(s.candidates[d]) == Signed(c)
  }

  /** A pending candidate of the same signature stands in for the new one and takes on its sources. */
  function InsertCandidate(s: State, id: Id, c: Candidate, twin: Option<Id>): Option<(State, Id)> {
    if twin.Some? then
      if !PendingTwin(s, twin.value, c) then None
      else
        var all := Union(c.sources, s.candidates[twin.value].sources);
        if all.None? then None
        else Some((s.(candidates := s.candidates[twin.value := s.candidates[twin.value].(sources := all.value)]), twin.value))
    else if id in s.candidates || |c.sources| > SOURCE_LIMIT then None
    else Some((s.(candidates := s.candidates[id := c.(status := Pending)]), id))
  }

  function Canonical(c: Candidate, now: int): Memory {
    Memory(c.about, c.content, Signed(c), Active,
           Terms(c.ttl, if c.ttl.Some? then Some(now + 1_000 * c.ttl.value) else None, c.sensitivity, c.retention), [], now, 0, {})
  }

  // ---------------------------------------------------------------------------------------
  // Promotion

  function Inherit(existing: Terms, incoming: Terms): Terms {
    Terms(if incoming.ttl.None? then existing.ttl else incoming.ttl,
          if incoming.ttl.None? && existing.expiresAt.Some? then existing.expiresAt else incoming.expiresAt,
          if incoming.sensitivity.None? then existing.sensitivity else incoming.sensitivity,
          if incoming.retention.None? then existing.retention else incoming.retention)
  }

  function Unique(xs: seq<Id>): seq<Id>
    decreases |xs|
  {
    if xs == [] then []
    else
      var before := Unique(xs[..|xs| - 1]);
      if xs[|xs| - 1] in before then before else before + [xs[|xs| - 1]]
  }

  /** None where the strategy refuses to merge; the result keeps the existing row's id. */
  function MergeInto(existing: Memory, incoming: Memory, merged: string, strategy: Strategy, now: int): Option<Memory> {
    match strategy
    case Create => None
    case ManualReview => None
    case Upsert => Some(incoming.(supersedes := Unique(existing.supersedes + incoming.supersedes), updatedAt := now))
    case Replace => Some(incoming.(supersedes := Unique(existing.supersedes + incoming.supersedes), updatedAt := now))
    case Merge => Some(existing.(content := merged, updatedAt := now))
    case _ => Some(existing.(updatedAt := now))
  }

  /** The active row of this signature that has run out without anyone noticing. */
  function Overdue(s: State, sig: Signature, now: int): Option<Id> {
    if sig in s.index && s.index[sig] in s.memories && !Current(s.memories[s.index[sig]], now) then Some(s.index[sig]) else None
  }

  /** The row the candidate is about: the one it names, or the one with its signature. */
  function MatchOf(s: State, c: Candidate, now: int): Option<Id> {
    var id := if c.ifMatch.Some? then c.ifMatch else if Signed(c) in s.index then Some(s.index[Signed(c)]) else None;
    if id.Some? && id.value in s.memories && Current(s.memories[id.value], now) then id else None
  }

  function Resolved(c: Candidate): Strategy {
    if !c.strategy.ManualReview? then c.strategy else if c.kind.Correction? then Replace else Dedupe
  }

  predicate Retires(c: Candidate) {
    c.extractorRetire || (c.taste && c.kind.Correction?)
  }

  function Reviewed(s: State, cid: Id, id: Id): State
    requires cid in s.candidates
  {
    s.(candidates := s.candidates[cid := s.candidates[cid].(status := Promoted(id), strategy := Resolved(s.candidates[cid]))])
  }

  /** The row that ran out is materialized as expired first, and its sources come along. */
  function Absorb(s: State, sig: Signature, sources: set<Key>, now: int): Option<(State, set<Key>, seq<Id>)> {
    var overdue := Overdue(s, sig, now);
    if overdue.None? then Some((s, sources, []))
    else
      var was := s.memories[overdue.value];
      var all := Union(sources, was.sources);
      var t := Persist(s, overdue.value, was.(state := Expired, updatedAt := now), None);
      if all.None? || t.None? then None else Some((t.value, all.value, [overdue.value]))
  }

  /** The existing row is retired and a new one, superseding it and what it superseded, takes over. */
  function ReplaceRow(s: State, existing: Id, incoming: Memory, newId: Id, sources: set<Key>, now: int): Option<State>
    requires existing in s.memories
  {
    var was := s.memories[existing];
    var retired := Persist(s, existing, was.(state := Retired, updatedAt := now), None);
    if retired.None? then None
    else
      Persist(retired.value, newId, incoming.(supersedes := [existing] + was.supersedes + incoming.supersedes), Some(sources))
  }

  /** A correction held for manual review does not merge: it replaces what it corrects. */
  function ReplaceReviewed(s: State, cid: Id, existing: Id, incoming: Memory, newId: Id, sources: set<Key>, now: int): Option<(State, Id)>
    requires existing in s.memories && cid in s.candidates
  {
    var t := ReplaceRow(s, existing, incoming, newId, sources, now);
    if t.None? || cid !in t.value.candidates then None else Some((Reviewed(t.value, cid, newId), newId))
  }

  function Finish(s: State, cid: Id, id: Id, m: Memory, sources: set<Key>): Option<(State, Id)> {
    var t := Persist(s, id, m, Some(sources));
    if t.None? || cid !in t.value.candidates then None else Some((Reviewed(t.value, cid, id), id))
  }

  /** The candidate against the row it matches, once that row's sources are in. `merged` is the
      content a deep merge of the two would have. */
  function Settle(s: State, cid: Id, c: Candidate, existing: Id, incoming: Memory, newId: Id, merged: string, sources: set<Key>,
                  now: int): Option<(State, Id)>
    requires existing in s.memories && cid in s.candidates
  {
    var was := s.memories[existing];
    if was.about != incoming.about then None
    else if Retires(c) then Finish(s, cid, existing, was.(state := Retired, updatedAt := now), sources)
    else
      var inherited := if c.kind.Correction? then incoming.(terms := Inherit(was.terms, incoming.terms)) else incoming;
      if c.strategy.ManualReview? && c.kind.Correction? then
        ReplaceReviewed(s, cid, existing, inherited, newId, sources, now)
      else
        var row := MergeInto(was, inherited, merged, Resolved(c), now);
        if row.None? then None else Finish(s, cid, existing, row.value, sources)
  }

  /** What follows once the row that had run out is out of the way. */
  function AfterAbsorbing(t: State, cid: Id, c: Candidate, newId: Id, merged: string, sources: set<Key>, gone: seq<Id>,
                          now: int): Option<(State, Id)> {
    var incoming := Canonical(c, now).(supersedes := gone);
    var existing := MatchOf(t, c, now);
    if c.ifMatch.Some? && existing.None? then None
    else if c.ifMatchUpdatedAt.Some?
            && (existing.None? || Some(t.memories[existing.value].updatedAt) != c.ifMatchUpdatedAt) then None
    else if existing.None? then
      if Retires(c) || cid !in t.candidates then None else Finish(t, cid, newId, incoming, sources)
    else
      var all := Union(sources, t.memories[existing.value].sources);
      if all.None? || (c.extractorRetire && c.ifMatch.None?) || cid !in t.candidates then None
      else Settle(t, cid, c, existing.value, incoming, newId, merged, all.value, now)
  }

  /** None when the promotion is refused; nothing is written then. */
  function Promote(s: State, cid: Id, newId: Id, merged: string, now: int): Option<(State, Id)> {
    if cid !in s.candidates || newId in s.memories then None
    else
      var c := s.candidates[cid];
      if c.status.Promoted? && c.status.memory in s.memories then Some((s, c.status.memory))
      else if !c.status.Pending? then None
      else
        var absorbed := Absorb(s, Signed(c), c.sources, now);
        if absorbed.None? then None
        else
          AfterAbsorbing(absorbed.value.0, cid, c, newId, merged, absorbed.value.1, absorbed.value.2, now)
  }

  /** The Owner's confirmation rewrites the promoted row under its own id. */
  function Confirm(s: State, id: Id, now: int): Option<State> {
    if id !in s.memories then None else Persist(s, id, s.memories[id].(updatedAt := now), None)
  }

  function PromoteCandidate(s: State, cid: Id, newId: Id, merged: string, now: int): Option<(State, Id)> {
    if cid !in s.candidates || !s.candidates[cid].status.Pending? then None
    else
      var promoted := Promote(s, cid, newId, merged, now);
      if promoted.None? then None
      else
        var t := Confirm(promoted.value.0, promoted.value.1, now);
        if t.None? then None else Some((t.value, promoted.value.1))
  }

  // ---------------------------------------------------------------------------------------
  // Superseding, editing, ending and using a memory

  function AsCorrection(c: Candidate, id: Id): Candidate {
    c.(kind := Correction, strategy := Replace, ifMatch := Some(id), ifMatchUpdatedAt := None)
  }

  /** An explicit correction: a new candidate, the old row retired, a new row in its place. */
  function Supersede(s: State, id: Id, cid: Id, c: Candidate, newId: Id, now: int): Option<(State, Id)> {
    if id !in s.memories || !Current(s.memories[id], now) || newId in s.memories || s.memories[id].about != c.about then None
    else
      var inserted := InsertCandidate(s, cid, AsCorrection(c, id), None);
      var sources := Union(s.memories[id].sources, c.sources);
      if inserted.None? || sources.None? then None
      else
        var canonical := Canonical(c, now);
        var row := canonical.(terms := Inherit(s.memories[id].terms, canonical.terms));
        var t := ReplaceRow(inserted.value.0, id, row, newId, sources.value, now);
        if t.None? || cid !in t.value.candidates then None else Some((Superseded(t.value, cid, newId), newId))
  }

  function Superseded(s: State, cid: Id, newId: Id): State
    requires cid in s.candidates
  {
    s.(candidates := s.candidates[cid := s.candidates[cid].(status := Promoted(newId))])
  }

  function Edited(m: Memory, statement: string, content: string, ttl: Option<nat>, now: int): Memory {
    m.(content := content, signature := Signature(m.about, statement), updatedAt := now,
       terms := if ttl.None? then m.terms else m.terms.(ttl := ttl, expiresAt := Some(now + 1_000 * ttl.value)))
  }

  function Update(s: State, id: Id, statement: string, content: string, ttl: Option<nat>, now: int): Option<State> {
    if id !in s.memories || !Current(s.memories[id], now) then None
    else Persist(s, id, Edited(s.memories[id], statement, content, ttl, now), None)
  }

  function SetLifecycle(s: State, id: Id, state: Lifecycle, now: int): Option<State> {
    if state.Active? || id !in s.memories || !s.memories[id].state.Active? then None
    else Write(s, id, s.memories[id].(state := state, updatedAt := now))
  }

  function MarkUsed(s: State, id: Id, now: int): Option<State> {
    if id !in s.memories || !Current(s.memories[id], now) then Some(s)
    else Persist(s, id, s.memories[id].(uses := s.memories[id].uses + 1), None)
  }

  function Reject(s: State, cid: Id): Option<State> {
    if cid !in s.candidates || !s.candidates[cid].status.Pending? then None
    else Some(s.(candidates := s.candidates[cid := s.candidates[cid].(status := Rejected)]))
  }

  /** Feedback on a pending candidate: more sources, and a contradiction makes it a correction. */
  function Feedback(s: State, cid: Id, contradicting: bool, sources: set<Key>): Option<State> {
    if cid !in s.candidates || !s.candidates[cid].status.Pending? then None
    else
      var c := s.candidates[cid];
      var all := Union(c.sources, sources);
      if all.None? then None
      else Some(s.(candidates := s.candidates[cid := c.(kind := if contradicting then Correction else c.kind, sources := all.value)]))
  }

  // ---------------------------------------------------------------------------------------
  // Histories

  datatype Event =
    | EInsert(cid: Id, candidate: Candidate, twin: Option<Id>)
    | EPromote(cid: Id, newId: Id, merged: string, now: int, confirmed: bool)
    | ESupersede(id: Id, cid: Id, candidate: Candidate, newId: Id, now: int)
    | EUpdate(id: Id, statement: string, content: string, ttl: Option<nat>, now: int)
    | ESetLifecycle(id: Id, state: Lifecycle, now: int)
    | EMarkUsed(id: Id, now: int)
    | EReject(cid: Id)
    | EFeedback(cid: Id, contradicting: bool, sources: set<Key>)

  /** What a successful event leaves, and the memory it was about. */
  function Perform(s: State, e: Event): Option<(State, Option<Id>)> {
    match e
    case EInsert(cid, c, twin) =>
      var r := InsertCandidate(s, cid, c, twin);
      if r.None? then None else Some((r.value.0, None))
    case EPromote(cid, newId, merged, now, confirmed) =>
      var r := if confirmed then PromoteCandidate(s, cid, newId, merged, now) else Promote(s, cid, newId, merged, now);
      if r.None? then None else Some((r.value.0, Some(r.value.1)))
    case ESupersede(id, cid, c, newId, now) =>
      var r := Supersede(s, id, cid, c, newId, now);
      if r.None? then None else Some((r.value.0, Some(r.value.1)))
    case EUpdate(id, statement, content, ttl, now) =>
      var r := Update(s, id, statement, content, ttl, now);
      if r.None? then None else Some((r.value, Some(id)))
    case ESetLifecycle(id, state, now) =>
      var r := SetLifecycle(s, id, state, now);
      if r.None? then None else Some((r.value, Some(id)))
    case EMarkUsed(id, now) =>
      var r := MarkUsed(s, id, now);
      if r.None? then None else Some((r.value, Some(id)))
    case EReject(cid) =>
      var r := Reject(s, cid);
      if r.None? then None else Some((r.value, None))
    case EFeedback(cid, contradicting, sources) =>
      var r := Feedback(s, cid, contradicting, sources);
      if r.None? then None else Some((r.value, None))
  }

  /** A refused event rolls back. */
  function Step(s: State, e: Event): State {
    var r := Perform(s, e);
    if r.None? then s else r.value.0
  }

  function After(s: State, es: seq<Event>): State
    decreases |es|
  {
    if es == [] then s else After(Step(s, es[0]), es[1..])
  }
}
