/** Protected sources marked on Runs: how a Run takes in earlier text, and what every delivery
    rechecks. */
module ProvenanceModel {
  import opened Options
  import opened CanonicalKeys
  import opened Auth = AuthModel
  import opened AuthDelegation
  import Lifecycle = LifecycleModel

  type Ledger = Auth.State

  datatype Caller = Caller(principalId: Id, scope: Scope)

  datatype Evidence = Evidence(conversationId: Option<Id>, runId: Option<Id>, delegatedTaskId: Option<Id>)

  /** One distinct row of a Run's marked ALLOW decisions. */
  datatype Source = Source(resourceId: Id, action: string, mark: Mark, condition: Option<Condition>)

  /** What a reader has to be allowed: legacy marks count as what they stand for. */
  datatype Key = Key(resourceId: Id, action: string, isContent: bool, condition: Option<Condition>)

  function Classification(m: Mark): Mark {
    if m.ContentSource? || m.LegacyContentSource? then ContentSource else AccessGate
  }

  function KeyOfSource(src: Source): Key {
    Key(src.resourceId, src.action, Classification(src.mark).ContentSource?, src.condition)
  }

  predicate MarkedFor(d: Decision, runId: Id) {
    d.runId == Some(runId) && d.verdict.Allow? && d.mark.Some?
  }

  function SourceOf(d: Decision): Source
    requires d.mark.Some?
  {
    Source(d.tuple.resourceId, d.tuple.action, d.mark.value, d.condition)
  }

  /** Everything marked on a Run, whoever it was decided for. */
  function Marked(l: Ledger, runId: Id): set<Key> {
    set d | d in l.decisions && MarkedFor(d, runId) :: KeyOfSource(SourceOf(d))
  }

  /** The distinct sources of some Runs, optionally those of one principal, in decision order. */
  function SourceRows(ds: seq<Decision>, runs: set<Id>, principal: Option<Id>): seq<Source>
    decreases |ds|
  {
    if ds == [] then []
    else
      var before := SourceRows(ds[..|ds| - 1], runs, principal);
      var d := ds[|ds| - 1];
      if d.runId.Some? && d.runId.value in runs && MarkedFor(d, d.runId.value)
         && (principal.Some? ==> d.tuple.principalId == principal.value) && SourceOf(d) !in before
      then before + [SourceOf(d)] else before
  }

  function RouteOf(c: Option<Condition>): Route {
    if c.None? then LegacyRoute else Named(c.value)
  }

  function SourceRequest(caller: Caller, src: Source, ev: Evidence): Request {
    Request(Tuple(caller.principalId, src.resourceId, src.action, caller.scope), None, ev.conversationId, ev.runId,
            ev.delegatedTaskId, RouteOf(src.condition))
  }

  // ---------------------------------------------------------------------------------------
  // Rechecking sources

  /** Evaluates in order, up to the first refusal. */
  function Inspect(l: Ledger, caller: Caller, ev: Evidence, sources: seq<Source>, now: int): (Ledger, bool)
    decreases |sources|
  {
    if sources == [] then (l, true)
    else
      var (t, j) := Evaluate(l, SourceRequest(caller, sources[0], ev), None, now);
      if j.verdict.Allow? then Inspect(t, caller, ev, sources[1..], now) else (t, false)
  }

  /** Marks the decisions from `start` on with the classifications of these sources. */
  function MarkFrom(l: Ledger, start: nat, sources: seq<Source>): Ledger
    decreases |sources|
  {
    if sources == [] then l
    else MarkFrom(SetMark(l, start, Classification(sources[0].mark)), start + 1, sources[1..])
  }

  /** Evaluates and marks one by one, up to the first refusal. */
  function Reauthorize(l: Ledger, caller: Caller, ev: Evidence, sources: seq<Source>, now: int): (Ledger, bool)
    decreases |sources|
  {
    if sources == [] then (l, true)
    else
      var (t, j) := Evaluate(l, SourceRequest(caller, sources[0], ev), None, now);
      if j.verdict.Allow? then
        Reauthorize(SetMark(t, |l.decisions|, Classification(sources[0].mark)), caller, ev, sources[1..], now)
      else (t, false)
  }

  function SendRequest(caller: Caller, src: Source, ev: Evidence): Request {
    Request(Tuple(caller.principalId, src.resourceId, DELIVERY_ACTION, caller.scope), None, ev.conversationId, ev.runId,
            ev.delegatedTaskId, Unstated)
  }

  /** A delivery needs the original action on every source, and sending on every content source. */
  function GateSources(l: Ledger, caller: Caller, ev: Evidence, sources: seq<Source>, now: int): (Ledger, bool)
    decreases |sources|
  {
    if sources == [] then (l, true)
    else
      var (t, j) := Evaluate(l, SourceRequest(caller, sources[0], ev), None, now);
      if !j.verdict.Allow? then (t, false)
      else if Classification(sources[0].mark).ContentSource? then
        var (u, k) := Evaluate(t, SendRequest(caller, sources[0], ev), None, now);
        if !k.verdict.Allow? then (u, false) else GateSources(u, caller, ev, sources[1..], now)
      else GateSources(t, caller, ev, sources[1..], now)
  }

  function DeliveryEvidence(env: Environment, caller: Caller, runId: Id): Evidence {
    var mine := runId in env.runs && env.runs[runId].principalId == caller.principalId;
    Evidence(if mine then Some(env.runs[runId].conversationId) else None, Some(runId), None)
  }

  /** The recheck inside every create, claim and transition of a delivery. */
  function AuthorizeDeliverySources(l: Ledger, caller: Caller, runId: Id, now: int): (Ledger, bool) {
    GateSources(l, caller, DeliveryEvidence(l.env, caller, runId), SourceRows(l.decisions, {runId}, Some(caller.principalId)), now)
  }

  // ---------------------------------------------------------------------------------------
  // History

  /** A Run as later Runs see it; its position is its insertion order. */
  datatype Turn = Turn(id: Id, conversationId: Id, principalId: Id, external: bool, status: Lifecycle.RunStatus,
                       resultText: Option<string>, inputText: Option<string>, excluded: bool)

  /** A delivery of a Run's text or result that is recorded as sent, in creation order. */
  datatype SentDelivery = SentDelivery(runId: Id, destination: Scope, payloadText: string)

  datatype Exchange = Exchange(runId: Id, user: string, assistant: string, principalId: Id)

  datatype History = History(exchanges: seq<Exchange>, omitted: seq<Id>, chars: nat, truncated: bool)

  const HISTORY_LIMIT: nat := 256
  const HISTORY_CHARS: nat := 1_000_000
  const SOURCE_LIMIT: nat := 128

  predicate WasSent(sent: seq<SentDelivery>, runId: Id) {
    exists d :: d in sent && d.runId == runId
  }

  predicate Reusable(t: Turn, conversationId: Id, sent: seq<SentDelivery>) {
    && t.conversationId == conversationId && t.external && !t.excluded && t.resultText.Some?
    && (t.status.Succeeded? || (t.status.Failed? && WasSent(sent, t.id)))
  }

  /** Reusable turns before position `below`, newest first, at most `limit` of them. */
  function EarlierTurns(turns: seq<Turn>, sent: seq<SentDelivery>, conversationId: Id, below: nat, limit: nat): (r: seq<nat>)
    requires below <= |turns|
    ensures |r| <= limit && forall i :: 0 <= i < |r| ==> r[i] < below && Reusable(turns[r[i]], conversationId, sent)
    decreases below
  {
    if below == 0 || limit == 0 then []
    else if Reusable(turns[below - 1], conversationId, sent) then
      [below - 1] + EarlierTurns(turns, sent, conversationId, below - 1, limit - 1)
    else EarlierTurns(turns, sent, conversationId, below - 1, limit)
  }

  /** The grants its decisions were made under are still there, every one of them. */
  predicate GrantsStand(l: Ledger, runId: Id) {
    && (exists d :: d in l.decisions && UsesGrant(l, d, runId))
    && (forall d :: d in l.decisions && UsesGrant(l, d, runId) ==> !l.grants[d.grant.value].revoked)
  }

  predicate UsesGrant(l: Ledger, d: Decision, runId: Id) {
    d.runId == Some(runId) && d.verdict.Allow? && d.grant.Some? && d.grant.value < |l.grants|
  }

  /** The newest delivery of this Run at the caller's own location. */
  function MatchingDelivery(sent: seq<SentDelivery>, runId: Id, scope: Scope): (r: Option<string>)
    ensures r.Some? ==> exists d :: d in sent && d.runId == runId && SameLocation(d.destination, scope) && d.payloadText == r.value
    decreases |sent|
  {
    if sent == [] then None
    else
      var d := sent[|sent| - 1];
      if d.runId == runId && SameLocation(d.destination, scope) then Some(d.payloadText)
      else MatchingDelivery(sent[..|sent| - 1], runId, scope)
  }

  /** What the reader may be shown as this turn's answer. */
  function AnswerFor(t: Turn, sent: seq<SentDelivery>, caller: Caller): Option<string> {
    var delivered := MatchingDelivery(sent, t.id, caller.scope);
    if t.status.Failed? && delivered.None? then None
    else if delivered.Some? then delivered
    else if t.principalId != caller.principalId || t.resultText.None? || t.resultText.value == "" then None
    else t.resultText
  }

  /** What becomes of a turn whose sources were allowed, their decisions standing from `start` on. */
  function UseTurn(l: Ledger, start: nat, sources: seq<Source>, t: Turn, answer: Option<string>, h: History): (Ledger, History) {
    if answer.None? || t.inputText.None? then (l, h)
    else
      var size := |t.inputText.value| + |answer.value|;
      if h.chars + size > HISTORY_CHARS then (l, h.(omitted := h.omitted + [t.id], truncated := true))
      else
        (MarkFrom(l, start, sources),
         h.(exchanges := h.exchanges + [Exchange(t.id, t.inputText.value, answer.value, t.principalId)], chars := h.chars + size))
  }

  /** One earlier turn: its grants, its sources for this reader, its answer, and the room left. The
      rows of earlier Runs were fetched before the first evaluation, from `was`. */
  function ReadTurn(was: Ledger, l: Ledger, caller: Caller, ev: Evidence, t: Turn, sent: seq<SentDelivery>, h: History,
                    now: int): (Ledger, History)
  {
    if !GrantsStand(was, t.id) then (l, h)
    else
      var sources := SourceRows(was.decisions, {t.id}, None);
      var (checked, permitted) := Inspect(l, caller, ev, sources, now);
      if !permitted then (checked, h) else UseTurn(checked, |l.decisions|, sources, t, AnswerFor(t, sent, caller), h)
  }

  function ReadTurns(was: Ledger, l: Ledger, caller: Caller, ev: Evidence, ts: seq<Turn>, sent: seq<SentDelivery>, h: History,
                     now: int): (Ledger, History)
    decreases |ts|
  {
    if ts == [] then (l, h)
    else
      var (t, g) := ReadTurn(was, l, caller, ev, ts[0], sent, h, now);
      ReadTurns(was, t, caller, ev, ts[1..], sent, g, now)
  }

  // ---------------------------------------------------------------------------------------
  // Results of Task steps

  /** `ready` is whether the stored result itself is there; `allowed` what the source Run's own
      recheck decided. A worker's result may be a child Task's; a child Task may have none. */
  datatype Dependency =
    | RunResult(sourceRun: Id, target: Option<Id>, allowed: bool, ready: bool)
    | ChildResult(childTask: Id, sourceRun: Id, allowed: bool, ready: bool)
    | WorkerResult(sourceTask: Id, permissions: seq<Permission>, ofChild: bool, ready: bool)
    | CheckpointResult
    | NoResult(child: Option<Id>)

  datatype Progress = Ok | Stopped | Failed

  function TaskRead(task: Id): Source {
    Source("task-" + task, "task:read", ContentSource, Some(NoCondition))
  }

  /** What a reader has to be allowed for what a worker was permitted: writing counts as reading; None where it is
      no source of content. */
  function ReadOf(p: Permission): Option<Source> {
    if p.action in ["worker:file:read", "worker:file:write"] then
      Some(Source(p.resourceId, "worker:file:read", ContentSource, Some(NoCondition)))
    else if p.action in ["workspace:read", "workspace:write"] && "workspace:" <= p.resourceId then
      Some(Source(p.resourceId, "workspace:read", ContentSource, Some(NoCondition)))
    else None
  }

  /** Up to the first permission that is no source of content. */
  function ReadsOf(permissions: seq<Permission>): (r: seq<Source>)
    ensures |r| <= |permissions|
    decreases |permissions|
  {
    if permissions == [] || ReadOf(permissions[0]).None? then []
    else [ReadOf(permissions[0]).value] + ReadsOf(permissions[1..])
  }

  function WorkerReads(task: Id, permissions: seq<Permission>): seq<Source> {
    [TaskRead(task), Source("task-" + task, "worker:read", ContentSource, Some(NoCondition))] + ReadsOf(permissions)
  }

  /** Rechecks the sources of some Runs, none of which may be missing from the batch. */
  function ReauthorizeRuns(l: Ledger, caller: Caller, ev: Evidence, runs: set<Id>, now: int): (Ledger, Progress) {
    var rows := SourceRows(l.decisions, runs, None);
    if |rows| > SOURCE_LIMIT then (l, Failed)
    else
      var (t, ok) := Reauthorize(l, caller, ev, rows, now);
      (t, if ok then Ok else Stopped)
  }

  /** Own checks first, then the inherited sources, and only then the marks of the own checks. */
  function ReadThenInherit(l: Ledger, caller: Caller, ev: Evidence, own: seq<Source>, runs: Option<set<Id>>,
                           now: int): (Ledger, Progress) {
    var (t, ok) := Inspect(l, caller, ev, own, now);
    if !ok then (t, Stopped)
    else if runs.None? then (t, Failed)
    else
      var (u, progress) := ReauthorizeRuns(t, caller, ev, runs.value, now);
      (if progress.Ok? then MarkFrom(u, |l.decisions|, own) else u, progress)
  }

  ghost function OriginSet(env: Environment, task: Id): Option<set<Id>> {
    var origin := SourceRuns(env, task);
    if origin.None? then None else Some(set r | r in origin.value)
  }

  ghost function ReadDependency(l: Ledger, caller: Caller, ev: Evidence, task: Id, d: Dependency, now: int): (Ledger, Progress) {
    match d
    case NoResult(child) =>
      if child.None? then (l, Ok)
      else
        var (t, ok) := Inspect(l, caller, ev, [TaskRead(child.value)], now);
        (t, if ok then Ok else Stopped)
    case CheckpointResult =>
      var (t, ok) := Reauthorize(l, caller, ev, [TaskRead(task)], now);
      (t, if ok then Ok else Stopped)
    case RunResult(sourceRun, target, allowed, ready) =>
      if !allowed then (l, Stopped)
      else
        var (t, ok) := Reauthorize(l, caller, ev, if target.Some? then [TaskRead(target.value)] else [], now);
        if !ok then (t, Stopped)
        else
          var (u, progress) := ReauthorizeRuns(t, caller, ev, {sourceRun}, now);
          if !progress.Ok? then (u, progress)
          else
            var (v, own) := Reauthorize(u, caller, ev, [TaskRead(task)], now);
            (v, if !own then Stopped else if ready then Ok else Failed)
    case ChildResult(childTask, sourceRun, allowed, ready) =>
      if !allowed then (Inspect(l, caller, ev, [TaskRead(childTask)], now).0, Stopped)
      else
        var (t, progress) := ReadThenInherit(l, caller, ev, [TaskRead(childTask)], Some({sourceRun}), now);
        (t, if progress.Ok? && !ready then Failed else progress)
    case WorkerResult(sourceTask, permissions, ofChild, ready) =>
      var (t, ok) := Inspect(l, caller, ev, if ofChild then [TaskRead(sourceTask)] else [], now);
      if !ok then (t, Stopped)
      else if !ready then (t, Failed)
      else
        var delegated := if sourceTask == task then ev.(delegatedTaskId := Some(sourceTask)) else ev;
        var supported := |ReadsOf(permissions)| == |permissions|;
        ReadThenInherit(t, caller, delegated, WorkerReads(sourceTask, permissions),
                        if supported then OriginSet(l.env, sourceTask) else None, now)
  }

  ghost function ReadDependencies(l: Ledger, caller: Caller, ev: Evidence, task: Id, ds: seq<Dependency>, now: int): (Ledger, Progress)
    decreases |ds|
  {
    if ds == [] then (l, Ok)
    else
      var (t, progress) := ReadDependency(l, caller, ev, task, ds[0], now);
      if progress.Ok? then ReadDependencies(t, caller, ev, task, ds[1..], now) else (t, progress)
  }

  /** What a Task step reads: the sources of its origin, then those of each dependency. */
  ghost function StepInput(l: Ledger, caller: Caller, task: Id, deps: seq<Dependency>, ev: Evidence, now: int): (r: (Ledger, Progress))
    ensures r.1.Ok? ==> OriginSet(l.env, task).Some?
  {
    var origin := OriginSet(l.env, task);
    if origin.None? then (l, Failed)
    else
      var (t, first) := ReauthorizeRuns(l, caller, ev, origin.value, now);
      if first.Ok? then ReadDependencies(t, caller, ev, task, deps, now) else (t, first)
  }

  // ---------------------------------------------------------------------------------------
  // Loading a Run's input

  /** `taint` and `admitted` are history: the sources whose content may be in a Run's text, and whose
      text each Run was given. No transaction reads them. */
  datatype State = State(ledger: Ledger, turns: seq<Turn>, sent: seq<SentDelivery>,
                         taint: map<Id, set<Key>>, admitted: set<(Id, Id)>)

  const EMPTY: State := State.State(Auth.EMPTY, [], [], map[], {})

  function Taint(s: State, runId: Id): set<Key> {
    if runId in s.taint then s.taint[runId] else {}
  }

  /** The Runs whose text a dependency's result may hold, and the sources it reads itself. */
  ghost function Sources(env: Environment, d: Dependency): set<Id> {
    match d
    case RunResult(r, _, _, _) => {r}
    case ChildResult(_, r, _, _) => {r}
    case WorkerResult(t, _, _, _) => if OriginSet(env, t).Some? then OriginSet(env, t).value else {}
    case _ => {}
  }

  function OwnReads(task: Id, d: Dependency): set<Key> {
    match d
    case RunResult(_, target, _, _) =>
      {KeyOfSource(TaskRead(task))} + if target.Some? then {KeyOfSource(TaskRead(target.value))} else {}
    case ChildResult(child, _, _, _) => {KeyOfSource(TaskRead(child))}
    case WorkerResult(t, permissions, _, _) => set src | src in WorkerReads(t, permissions) :: KeyOfSource(src)
    case CheckpointResult => {KeyOfSource(TaskRead(task))}
    case NoResult(_) => {}
  }

  ghost function AllSources(env: Environment, ds: seq<Dependency>): set<Id> {
    set d, r | d in ds && r in Sources(env, d) :: r
  }

  ghost function AllOwnReads(task: Id, ds: seq<Dependency>): set<Key> {
    set d, k | d in ds && k in OwnReads(task, d) :: k
  }

  /** What a Run is given of earlier turns: their messages, oldest first, and which turns they are. */
  datatype Input = Input(messages: seq<Message>, runIds: seq<Id>, omitted: seq<Id>, truncated: bool)

  datatype Message = Message(isUser: bool, text: string)

  /** Turns are read newest first and told oldest first, each question before its answer. */
  function Said(exchanges: seq<Exchange>): seq<Message>
    decreases |exchanges|
  {
    if exchanges == [] then []
    else Said(exchanges[1..]) + [Message(true, exchanges[0].user), Message(false, exchanges[0].assistant)]
  }

  function Told(exchanges: seq<Exchange>): seq<Id>
    decreases |exchanges|
  {
    if exchanges == [] then [] else Told(exchanges[1..]) + [exchanges[0].runId]
  }

  function InputOf(h: History): Input { Input(Said(h.exchanges), Told(h.exchanges), h.omitted, h.truncated) }

  /** A step whose attempt is not under way is refused on the record. */
  function Unbound(t: Turn, caller: Caller): Request {
    Request(Tuple(caller.principalId, "run", "conversation:read", caller.scope), None, Some(t.conversationId), Some(t.id), None, Unstated)
  }

  datatype Outcome = Loaded(input: Input) | LoadDenied | LoadFailed

  /** The Run's text now also holds what these Runs' texts hold, and these sources. */
  function TakeIn(s: State, runId: Id, from: set<Id>, own: set<Key>): State {
    s.(taint := s.taint[runId := Taint(s, runId) + (set r, k | r in from && k in Taint(s, r) :: k) + own],
       admitted := s.admitted + (set r | r in from :: (runId, r)))
  }

  function TurnsAt(turns: seq<Turn>, ks: seq<nat>): seq<Turn>
    requires forall i :: 0 <= i < |ks| ==> ks[i] < |turns|
  {
    seq(|ks|, i requires 0 <= i < |ks| => turns[ks[i]])
  }

  function ReusedRuns(h: History): set<Id> {
    set e | e in h.exchanges :: e.runId
  }

  const NO_HISTORY: History := History([], [], 0, false)

  /** Two hundred and fifty-seven candidates are looked up to tell whether there are more than 256. */
  function LoadHistory(s: State, at: nat, caller: Caller, ev: Evidence, now: int): (Ledger, History)
    requires at < |s.turns|
  {
    var found := EarlierTurns(s.turns, s.sent, s.turns[at].conversationId, at, HISTORY_LIMIT + 1);
    var ks := if |found| > HISTORY_LIMIT then found[..HISTORY_LIMIT] else found;
    ReadTurns(s.ledger, s.ledger, caller, ev, TurnsAt(s.turns, ks), s.sent,
              NO_HISTORY.(truncated := |found| > HISTORY_LIMIT), now)
  }

  /** The steps of a Task read their origin and their dependencies; only external Runs read history. */
  ghost function LoadRunInput(s: State, caller: Caller, at: nat, allowed: bool, bound: Option<Id>, deps: seq<Dependency>,
                              now: int): (State, Outcome) {
    if at >= |s.turns| || !allowed || s.turns[at].principalId != caller.principalId then (s, LoadDenied)
    else
      var t := s.turns[at];
      var ev := Evidence(Some(t.conversationId), Some(t.id), None);
      if t.external then
        var (l, h) := LoadHistory(s, at, caller, ev, now);
        (TakeIn(s.(ledger := l), t.id, ReusedRuns(h), {}), Loaded(InputOf(h)))
      else if bound.None? then (s.(ledger := Record(s.ledger, Unbound(t, caller), Refusal(ScopeMismatch))), LoadDenied)
      else
        var (l, progress) := StepInput(s.ledger, caller, bound.value, deps, ev, now);
        if progress.Failed? then (s, LoadFailed)
        else if progress.Stopped? then (s.(ledger := l), LoadDenied)
        else
          (TakeIn(s.(ledger := l), t.id, OriginSet(s.ledger.env, bound.value).value + AllSources(s.ledger.env, deps),
                  AllOwnReads(bound.value, deps)),
           Loaded(InputOf(NO_HISTORY)))
  }

  // ---------------------------------------------------------------------------------------
  // Histories

  datatype DeliveryStep = Create | Claim | Transition

  datatype Event =
    | ELedger(e: Auth.Event)
    | EAccept(turn: Turn, row: RunRow)
    | ESettle(at: nat, status: Lifecycle.RunStatus, text: Option<string>)
    | EExclude(at: nat)
    | ELoad(caller: Caller, at: nat, allowed: bool, bound: Option<Id>, deps: seq<Dependency>, now: int)
    | EDeliver(step: DeliveryStep, caller: Caller, runId: Id, allowed: bool, now: int)
    | ESent(delivery: SentDelivery)

  /** What other transactions do to the ledger: links name decisions just made, which have no Run
      and no mark yet, and Runs are only accepted. */
  predicate MayHappen(l: Ledger, e: Auth.Event) {
    match e
    case ELink(d, _, _) => d < |l.decisions| && l.decisions[d].runId.None? && l.decisions[d].mark.None?
    case EEnvironment(env) => env.runs == l.env.runs
    case _ => true
  }

  /** A mark made by the execution itself puts its source into its own Run's text. */
  function OwnMarks(s: State, l: Ledger): map<Id, set<Key>> {
    var runs := s.taint.Keys + (set d | d in l.decisions && d.runId.Some? :: d.runId.value);
    map r | r in runs :: Taint(s, r) + Marked(l, r)
  }

  predicate NamesRun(l: Ledger, runId: Id) {
    exists d :: d in l.decisions && d.runId == Some(runId)
  }

  function DeliveryGate(l: Ledger, caller: Caller, runId: Id, allowed: bool, now: int): (Ledger, bool) {
    if !allowed || runId !in l.env.runs || l.env.runs[runId].principalId != caller.principalId then (l, false)
    else AuthorizeDeliverySources(l, caller, runId, now)
  }

  ghost function Step(s: State, e: Event): State {
    match e
    case ELedger(a) =>
      if !MayHappen(s.ledger, a) then s
      else
        var l := Auth.Step(s.ledger, a);
        s.(ledger := l, taint := OwnMarks(s, l))
    case EAccept(t, row) =>
      if t.id in s.ledger.env.runs || NamesRun(s.ledger, t.id) || row.principalId != t.principalId
         || row.conversationId != t.conversationId then s
      else
        s.(ledger := s.ledger.(env := s.ledger.env.(runs := s.ledger.env.runs[t.id := row])), turns := s.turns + [t])
    case ESettle(at, status, text) =>
      if at < |s.turns| then s.(turns := s.turns[at := s.turns[at].(status := status, resultText := text)]) else s
    case EExclude(at) => if at < |s.turns| then s.(turns := s.turns[at := s.turns[at].(excluded := true)]) else s
    case ELoad(caller, at, allowed, bound, deps, now) => LoadRunInput(s, caller, at, allowed, bound, deps, now).0
    case EDeliver(_, caller, runId, allowed, now) => s.(ledger := DeliveryGate(s.ledger, caller, runId, allowed, now).0)
    case ESent(d) => s.(sent := s.sent + [d])
  }

  ghost function After(s: State, es: seq<Event>): State
    decreases |es|
  {
    if es == [] then s else After(Step(s, es[0]), es[1..])
  }
}
