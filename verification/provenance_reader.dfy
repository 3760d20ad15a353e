/** The loops that read earlier text and recheck its sources, proved against their specifications. */
module ProvenanceReaders {
  import opened Options
  import opened CanonicalKeys
  import opened Auth = AuthModel
  import opened AuthServices
  import opened ProvenanceModel

  lemma ListTail<T>(xs: seq<T>, i: nat)
    requires i < |xs|
    ensures xs[i..] != [] && xs[i..][0] == xs[i] && xs[i..][1..] == xs[i + 1..]
  {
  }

  class ConversationReader {
    const auth: AuthorizationService
    var turns: seq<Turn>
    var sent: seq<SentDelivery>

    constructor (auth: AuthorizationService)
      ensures this.auth == auth && turns == [] && sent == []
    {
      this.auth := auth;
      turns, sent := [], [];
    }

    /** SELECT DISTINCT over the marked ALLOW decisions of some Runs. */
    method ListSources(runs: set<Id>, principal: Option<Id>) returns (sources: seq<Source>)
      ensures sources == SourceRows(auth.decisions, runs, principal)
    {
      sources := [];
      for i := 0 to |auth.decisions|
        invariant sources == SourceRows(auth.decisions[..i], runs, principal)
      {
        assert auth.decisions[..i + 1][..i] == auth.decisions[..i];
        var d := auth.decisions[i];
        if d.runId.Some? && d.runId.value in runs && d.verdict.Allow? && d.mark.Some?
           && (principal.None? || d.tuple.principalId == principal.value) {
          var src := Source(d.tuple.resourceId, d.tuple.action, d.mark.value, d.condition);
          if src !in sources {
            sources := sources + [src];
          }
        }
      }
      assert auth.decisions[..|auth.decisions|] == auth.decisions;
    }

    method ReauthorizeSourceRows(caller: Caller, sources: seq<Source>, ev: Evidence, now: int) returns (ok: bool)
      modifies auth`decisions, auth`approvals
      ensures (auth.Ledger(), ok) == Reauthorize(old(auth.Ledger()), caller, ev, sources, now)
    {
      for i := 0 to |sources|
        invariant Reauthorize(auth.Ledger(), caller, ev, sources[i..], now) == Reauthorize(old(auth.Ledger()), caller, ev, sources, now)
      {
        ListTail(sources, i);
        var decision := |auth.decisions|;
        var j := auth.Evaluate(SourceRequest(caller, sources[i], ev), None, now);
        if !j.verdict.Allow? {
          return false;
        }
        auth.MarkDecision(decision, Classification(sources[i].mark));
      }
      ok := true;
    }

    method AuthorizeDeliverySources(caller: Caller, runId: Id, now: int) returns (ok: bool)
      modifies auth`decisions, auth`approvals
      ensures (auth.Ledger(), ok) == ProvenanceModel.AuthorizeDeliverySources(old(auth.Ledger()), caller, runId, now)
    {
      var sources := ListSources({runId}, Some(caller.principalId));
      var mine := runId in auth.env.runs && auth.env.runs[runId].principalId == caller.principalId;
      var ev := Evidence(if mine then Some(auth.env.runs[runId].conversationId) else None, Some(runId), None);
      for i := 0 to |sources|
        invariant GateSources(auth.Ledger(), caller, ev, sources[i..], now) == GateSources(old(auth.Ledger()), caller, ev, sources, now)
      {
        ListTail(sources, i);
        var j := auth.Evaluate(SourceRequest(caller, sources[i], ev), None, now);
        if !j.verdict.Allow? {
          return false;
        }
        if Classification(sources[i].mark).ContentSource? {
          var k := auth.Evaluate(SendRequest(caller, sources[i], ev), None, now);
          if !k.verdict.Allow? {
            return false;
          }
        }
      }
      ok := true;
    }

    method InspectSources(caller: Caller, sources: seq<Source>, ev: Evidence, now: int) returns (ok: bool)
      modifies auth`decisions, auth`approvals
      ensures (auth.Ledger(), ok) == Inspect(old(auth.Ledger()), caller, ev, sources, now)
    {
      for i := 0 to |sources|
        invariant Inspect(auth.Ledger(), caller, ev, sources[i..], now) == Inspect(old(auth.Ledger()), caller, ev, sources, now)
      {
        ListTail(sources, i);
        var j := auth.Evaluate(SourceRequest(caller, sources[i], ev), None, now);
        if !j.verdict.Allow? {
          return false;
        }
      }
      ok := true;
    }

    method MarkSources(start: nat, sources: seq<Source>)
      modifies auth`decisions
      ensures auth.Ledger() == MarkFrom(old(auth.Ledger()), start, sources)
    {
      for i := 0 to |sources|
        invariant MarkFrom(auth.Ledger(), start + i, sources[i..]) == MarkFrom(old(auth.Ledger()), start, sources)
      {
        ListTail(sources, i);
        auth.MarkDecision(start + i, Classification(sources[i].mark));
      }
    }

    /** Candidates newest first, one more than may be used. */
    method ListEarlier(at: nat) returns (found: seq<nat>)
      requires at < |turns|
      ensures found == EarlierTurns(turns, sent, turns[at].conversationId, at, HISTORY_LIMIT + 1)
    {
      var conversationId := turns[at].conversationId;
      ghost var whole := EarlierTurns(turns, sent, conversationId, at, HISTORY_LIMIT + 1);
      found := [];
      var below := at;
      while below > 0 && |found| < HISTORY_LIMIT + 1
        invariant below <= at && |found| <= HISTORY_LIMIT + 1
        invariant whole == found + EarlierTurns(turns, sent, conversationId, below, HISTORY_LIMIT + 1 - |found|)
      {
        below := below - 1;
        if Reusable(turns[below], conversationId, sent) {
          ghost var later := EarlierTurns(turns, sent, conversationId, below, HISTORY_LIMIT - |found|);
          assert found + ([below] + later) == (found + [below]) + later;
          found := found + [below];
        }
      }
    }

    /** What a newest-first search of the sent deliveries finds at the caller's location. */
    method FindDelivery(runId: Id, scope: Scope) returns (payload: Option<string>)
      ensures payload == MatchingDelivery(sent, runId, scope)
    {
      var i := |sent|;
      assert sent[..i] == sent;
      while i > 0
        invariant i <= |sent|
        invariant MatchingDelivery(sent[..i], runId, scope) == MatchingDelivery(sent, runId, scope)
      {
        assert sent[..i][..i - 1] == sent[..i - 1];
        i := i - 1;
        if sent[i].runId == runId && SameLocation(sent[i].destination, scope) {
          return Some(sent[i].payloadText);
        }
      }
      payload := None;
    }

    /** The delivered text, or the reader's own result where none was delivered. */
    method AnswerOf(t: Turn, caller: Caller) returns (answer: Option<string>)
      ensures answer == AnswerFor(t, sent, caller)
    {
      var delivered := FindDelivery(t.id, caller.scope);
      if t.status.Failed? && delivered.None? {
        return None;
      }
      if delivered.Some? {
        return delivered;
      }
      if t.principalId == caller.principalId && t.resultText.Some? && t.resultText.value != "" {
        return t.resultText;
      }
      answer := None;
    }

    /** Admits a turn whose sources were allowed, or leaves it out for room or for want of a text. */
    method UseTurn(start: nat, sources: seq<Source>, t: Turn, answer: Option<string>, h: History) returns (g: History)
      modifies auth`decisions
      ensures (auth.Ledger(), g) == ProvenanceModel.UseTurn(old(auth.Ledger()), start, sources, t, answer, h)
    {
      if answer.None? || t.inputText.None? {
        return h;
      }
      var size := |t.inputText.value| + |answer.value|;
      if h.chars + size > HISTORY_CHARS {
        return h.(omitted := h.omitted + [t.id], truncated := true);
      }
      MarkSources(start, sources);
      g := h.(exchanges := h.exchanges + [Exchange(t.id, t.inputText.value, answer.value, t.principalId)], chars := h.chars + size);
    }

    /** One earlier turn: admitted, skipped or left out for room. */
    method ReadTurn(ghost was: Ledger, sources: seq<Source>, stands: bool, caller: Caller, ev: Evidence, t: Turn, h: History, now: int)
      returns (g: History)
      requires sources == SourceRows(was.decisions, {t.id}, None) && stands == GrantsStand(was, t.id)
      modifies auth`decisions, auth`approvals
      ensures (auth.Ledger(), g) == ProvenanceModel.ReadTurn(was, old(auth.Ledger()), caller, ev, t, sent, h, now)
    {
      if !stands {
        return h;
      }
      var start := |auth.decisions|;
      var permitted := InspectSources(caller, sources, ev, now);
      if !permitted {
        return h;
      }
      var answer := AnswerOf(t, caller);
      g := UseTurn(start, sources, t, answer, h);
    }

    /** The rows of the earlier Runs are fetched once, before the first evaluation. */
    method FetchRows(ts: seq<Turn>) returns (sources: seq<seq<Source>>, stands: seq<bool>)
      ensures |sources| == |ts| == |stands|
      ensures forall i :: 0 <= i < |ts| ==> sources[i] == SourceRows(auth.decisions, {ts[i].id}, None)
                                            && stands[i] == GrantsStand(auth.Ledger(), ts[i].id)
    {
      sources, stands := [], [];
      for i := 0 to |ts|
        invariant |sources| == i == |stands|
        invariant forall k :: 0 <= k < i ==> sources[k] == SourceRows(auth.decisions, {ts[k].id}, None)
                                             && stands[k] == GrantsStand(auth.Ledger(), ts[k].id)
      {
        var rows := ListSources({ts[i].id}, None);
        sources := sources + [rows];
        stands := stands + [GrantsStand(Auth.State.State(auth.env, auth.grants, auth.approvals, auth.decisions), ts[i].id)];
      }
    }

    /** The history of the Run at this position. */
    method LoadHistory(at: nat, caller: Caller, ev: Evidence, now: int) returns (h: History)
      requires at < |turns|
      modifies auth`decisions, auth`approvals
      ensures forall taint, admitted ::
        (auth.Ledger(), h) == ProvenanceModel.LoadHistory(ProvenanceModel.State.State(old(auth.Ledger()), turns, sent, taint, admitted),
                                                          at, caller, ev, now)
    {
      var found := ListEarlier(at);
      var ks := if |found| > HISTORY_LIMIT then found[..HISTORY_LIMIT] else found;
      var ts := TurnsAt(turns, ks);
      var sources, stands := FetchRows(ts);
      h := NO_HISTORY.(truncated := |found| > HISTORY_LIMIT);
      ghost var was := auth.Ledger();
      ghost var none := h;
      for i := 0 to |ts|
        invariant ReadTurns(was, auth.Ledger(), caller, ev, ts[i..], sent, h, now) == ReadTurns(was, was, caller, ev, ts, sent, none, now)
      {
        ListTail(ts, i);
        h := ReadTurn(was, sources[i], stands[i], caller, ev, ts[i], h, now);
      }
    }

    // -------------------------------------------------------------------------------------
    // Task steps

    method ReauthorizeRunSources(caller: Caller, runs: set<Id>, ev: Evidence, now: int) returns (progress: Progress)
      modifies auth`decisions, auth`approvals
      ensures (auth.Ledger(), progress) == ReauthorizeRuns(old(auth.Ledger()), caller, ev, runs, now)
    {
      var rows := ListSources(runs, None);
      if |rows| > SOURCE_LIMIT {
        return Progress.Failed;
      }
      var ok := ReauthorizeSourceRows(caller, rows, ev, now);
      progress := if ok then Ok else Stopped;
    }

    /** The origin Runs of a Task and of every Task above it. */
    method OriginRuns(task: Id) returns (runs: Option<set<Id>>)
      ensures runs == OriginSet(auth.env, task)
    {
      var walked := AuthDelegation.WalkSources(auth.env, task);
      runs := if walked.None? then None else Some(set r | r in walked.value);
    }

    method InspectThenInherit(caller: Caller, own: seq<Source>, runs: Option<set<Id>>, ev: Evidence, now: int) returns (progress: Progress)
      modifies auth`decisions, auth`approvals
      ensures (auth.Ledger(), progress) == ReadThenInherit(old(auth.Ledger()), caller, ev, own, runs, now)
    {
      var start := |auth.decisions|;
      var ok := InspectSources(caller, own, ev, now);
      if !ok {
        return Stopped;
      }
      if runs.None? {
        return Progress.Failed;
      }
      progress := ReauthorizeRunSources(caller, runs.value, ev, now);
      if progress.Ok? {
        MarkSources(start, own);
      }
    }

    method ReadDependency(caller: Caller, task: Id, d: Dependency, ev: Evidence, now: int) returns (progress: Progress)
      modifies auth`decisions, auth`approvals
      ensures (auth.Ledger(), progress) == ProvenanceModel.ReadDependency(old(auth.Ledger()), caller, ev, task, d, now)
    {
      match d {
        case NoResult(child) =>
          var ok := InspectSources(caller, if child.Some? then [TaskRead(child.value)] else [], ev, now);
          progress := if ok then Ok else Stopped;
        case CheckpointResult =>
          var ok := ReauthorizeSourceRows(caller, [TaskRead(task)], ev, now);
          progress := if ok then Ok else Stopped;
        case RunResult(sourceRun, target, allowed, ready) =>
          if !allowed {
            return Stopped;
          }
          var ok := ReauthorizeSourceRows(caller, if target.Some? then [TaskRead(target.value)] else [], ev, now);
          if !ok {
            return Stopped;
          }
          progress := ReauthorizeRunSources(caller, {sourceRun}, ev, now);
          if !progress.Ok? {
            return;
          }
          ok := ReauthorizeSourceRows(caller, [TaskRead(task)], ev, now);
          progress := if !ok then Stopped else if ready then Ok else Progress.Failed;
        case ChildResult(childTask, sourceRun, allowed, ready) =>
          if !allowed {
            var ok := InspectSources(caller, [TaskRead(childTask)], ev, now);
            return Stopped;
          }
          progress := InspectThenInherit(caller, [TaskRead(childTask)], Some({sourceRun}), ev, now);
          if progress.Ok? && !ready {
            progress := Progress.Failed;
          }
        case WorkerResult(sourceTask, permissions, ofChild, ready) =>
          var ok := InspectSources(caller, if ofChild then [TaskRead(sourceTask)] else [], ev, now);
          if !ok {
            return Stopped;
          }
          if !ready {
            return Progress.Failed;
          }
          var origin := OriginRuns(sourceTask);
          progress := InspectThenInherit(caller, WorkerReads(sourceTask, permissions),
                                         if |ReadsOf(permissions)| == |permissions| then origin else None,
                                         if sourceTask == task then ev.(delegatedTaskId := Some(sourceTask)) else ev, now);
      }
    }

    method ReadDependencies(caller: Caller, task: Id, ds: seq<Dependency>, ev: Evidence, now: int) returns (progress: Progress)
      modifies auth`decisions, auth`approvals
      ensures (auth.Ledger(), progress) == ProvenanceModel.ReadDependencies(old(auth.Ledger()), caller, ev, task, ds, now)
    {
      for i := 0 to |ds|
        invariant ProvenanceModel.ReadDependencies(auth.Ledger(), caller, ev, task, ds[i..], now)
                  == ProvenanceModel.ReadDependencies(old(auth.Ledger()), caller, ev, task, ds, now)
      {
        ListTail(ds, i);
        progress := ReadDependency(caller, task, ds[i], ev, now);
        if !progress.Ok? {
          return;
        }
      }
      progress := Ok;
    }

    /** A failure rolls back everything the transaction recorded; a refusal commits it. */
    method LoadStepInput(caller: Caller, task: Id, deps: seq<Dependency>, ev: Evidence, now: int) returns (progress: Progress)
      modifies auth`decisions, auth`approvals
      ensures progress == StepInput(old(auth.Ledger()), caller, task, deps, ev, now).1
      ensures auth.Ledger() == if progress.Failed? then old(auth.Ledger())
                               else StepInput(old(auth.Ledger()), caller, task, deps, ev, now).0
    {
      var decisions, approvals := auth.decisions, auth.approvals;
      var origin := OriginRuns(task);
      if origin.None? {
        return Progress.Failed;
      }
      progress := ReauthorizeRunSources(caller, origin.value, ev, now);
      if progress.Ok? {
        progress := ReadDependencies(caller, task, deps, ev, now);
      }
      if progress.Failed? {
        auth.decisions, auth.approvals := decisions, approvals;
      }
    }

    // -------------------------------------------------------------------------------------
    // The whole input

    /** exchanges.reverse(), and each as a question and an answer. */
    method SayHistory(exchanges: seq<Exchange>) returns (messages: seq<Message>, runIds: seq<Id>)
      ensures messages == Said(exchanges) && runIds == Told(exchanges)
    {
      messages, runIds := [], [];
      var i := |exchanges|;
      while i > 0
        invariant 0 <= i <= |exchanges|
        invariant messages == Said(exchanges[i..]) && runIds == Told(exchanges[i..])
      {
        i := i - 1;
        ListTail(exchanges, i);
        messages := messages + [Message(true, exchanges[i].user), Message(false, exchanges[i].assistant)];
        runIds := runIds + [exchanges[i].runId];
      }
      assert exchanges[0..] == exchanges;
    }

    method LoadRunInput(caller: Caller, at: nat, allowed: bool, bound: Option<Id>, deps: seq<Dependency>, now: int) returns (out: Outcome)
      modifies auth`decisions, auth`approvals
      ensures forall taint, admitted ::
        var s := ProvenanceModel.State.State(old(auth.Ledger()), turns, sent, taint, admitted);
        var (t, o) := ProvenanceModel.LoadRunInput(s, caller, at, allowed, bound, deps, now);
        o == out && t.ledger == auth.Ledger()
    {
      if at >= |turns| || !allowed || turns[at].principalId != caller.principalId {
        return LoadDenied;
      }
      var t := turns[at];
      var ev := Evidence(Some(t.conversationId), Some(t.id), None);
      if t.external {
        var h := LoadHistory(at, caller, ev, now);
        var messages, runIds := SayHistory(h.exchanges);
        return Loaded(Input(messages, runIds, h.omitted, h.truncated));
      }
      if bound.None? {
        auth.RecordDecision(Unbound(t, caller), Refusal(ScopeMismatch));
        return LoadDenied;
      }
      var progress := LoadStepInput(caller, bound.value, deps, ev, now);
      out := match progress case Failed => LoadFailed case Stopped => LoadDenied case Ok => Loaded(Input([], [], [], false));
    }
  }
}
