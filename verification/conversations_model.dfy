/** Conversations and the messages that open, find and remap them, while identities are rebound. */
module ConversationsModel {
  import opened Options
  import opened CanonicalKeys
  import Auth = AuthModel

  type Id = string

  type Identity = Auth.Identity

  type Place = Auth.Place

  /** The first Conversation of a location is stored under the location alone; one opened for another
      principal after a private location changed hands, under both. */
  datatype StoredKey = AtPlace(place: Place) | AtPlaceFor(place: Place, principalId: Id)

  /** Rows are identified by their position, in creation order. `ownerId` is the owner of the
      Conversation's Resource, which is private exactly for a private chat. */
  datatype Conversation = Conversation(agentId: Id, principalId: Id, key: StoredKey, scope: Scope, ownerId: Id)

  /** `message` is the channel message the Run answers; a Task step's Run has an internal one. */
  datatype RunRow = RunRow(conversation: nat, principalId: Id, scope: Scope, message: Option<(Scope, string)>, attempt: Option<Id>)

  datatype State = State(identities: map<Identity, Id>, principals: map<Id, bool>, conversations: seq<Conversation>,
                         locations: map<(Id, Place), nat>, messages: map<(Scope, string), nat>, runs: seq<RunRow>)

  const EMPTY: State := State(map[], map[], [], map[], map[], [])

  datatype Outcome =
    | Accepted(conversation: nat, run: nat, duplicate: bool)
    | Denied
    | Conflict

  predicate IsPrivate(c: Conversation) { c.scope.chatType.Private? }

  predicate IsOwner(s: State, p: Id) { p in s.principals && s.principals[p] }

  // ---------------------------------------------------------------------------------------
  // Identities

  function CreatePrincipal(s: State, p: Id, owner: bool): State {
    if p in s.principals then s else s.(principals := s.principals[p := owner])
  }

  /** A binding may overwrite another principal's. */
  function BindPrincipal(s: State, i: Identity, p: Id): State {
    if p !in s.principals then s else s.(identities := s.identities[i := p])
  }

  function BindOwner(s: State, i: Identity, p: Id): State {
    if p in s.principals && !s.principals[p] then s
    else s.(principals := s.principals[p := true], identities := s.identities[i := p])
  }

  function Unbind(s: State, i: Identity): State {
    s.(identities := s.identities - {i})
  }

  // ---------------------------------------------------------------------------------------
  // Incoming messages

  function ByKey(cs: seq<Conversation>, agentId: Id, key: StoredKey): (r: Option<nat>)
    ensures r.Some? ==> r.value < |cs| && cs[r.value].agentId == agentId && cs[r.value].key == key
    ensures r.None? ==> forall c :: 0 <= c < |cs| ==> !(cs[c].agentId == agentId && cs[c].key == key)
    decreases |cs|
  {
    if cs == [] then None
    else
      var last := |cs| - 1;
      if cs[last].agentId == agentId && cs[last].key == key then Some(last) else ByKey(cs[..last], agentId, key)
  }

  /** The newest Conversation of this principal at this location. */
  function OwnAt(cs: seq<Conversation>, agentId: Id, p: Id, place: Place): (r: Option<nat>)
    ensures r.Some? ==> r.value < |cs| && cs[r.value].agentId == agentId && cs[r.value].principalId == p
                        && Auth.PlaceOf(cs[r.value].scope) == place
    ensures r.None? ==> forall c :: 0 <= c < |cs| ==>
                          !(cs[c].agentId == agentId && cs[c].principalId == p && Auth.PlaceOf(cs[c].scope) == place)
    decreases |cs|
  {
    if cs == [] then None
    else
      var last := |cs| - 1;
      if cs[last].agentId == agentId && cs[last].principalId == p && Auth.PlaceOf(cs[last].scope) == place then Some(last)
      else OwnAt(cs[..last], agentId, p, place)
  }

  /** The Conversation the location stands for. */
  function Found(s: State, agentId: Id, place: Place): Option<nat> {
    if (agentId, place) in s.locations then
      var c := s.locations[(agentId, place)];
      if c < |s.conversations| then Some(c) else None
    else ByKey(s.conversations, agentId, AtPlace(place))
  }

  predicate Remaps(s: State, scope: Scope, p: Id, found: Option<nat>) {
    && found.Some? && found.value < |s.conversations|
    && scope.chatType.Private? && s.conversations[found.value].principalId != p
  }

  /** A new Conversation, mapped from its location; None when its stored key is taken. */
  function Open(s: State, agentId: Id, scope: Scope, p: Id, remap: bool): Option<State> {
    var place := Auth.PlaceOf(scope);
    var key := if remap then AtPlaceFor(place, p) else AtPlace(place);
    if ByKey(s.conversations, agentId, key).Some? then None
    else
      Some(s.(conversations := s.conversations + [Conversation(agentId, p, key, scope, p)],
              locations := s.locations[(agentId, place) := |s.conversations|]))
  }

  /** Where the message goes: the mapped Conversation, the principal's own at that private location, or
      a new one; an Owner speaking in a group becomes its principal. */
  function Route(s: State, agentId: Id, scope: Scope, p: Id): Option<(State, nat)> {
    var place := Auth.PlaceOf(scope);
    var found := Found(s, agentId, place);
    var remap := Remaps(s, scope, p, found);
    var chosen := if remap then OwnAt(s.conversations, agentId, p, place) else found;
    if chosen.None? then
      var made := Open(s, agentId, scope, p, remap);
      if made.None? then None else Some((made.value, |s.conversations|))
    else if chosen.value >= |s.conversations| then None
    else
      var c := chosen.value;
      if remap then
        Some((if (agentId, place) in s.locations then s.(locations := s.locations[(agentId, place) := c]) else s, c))
      else
        var t := if scope.chatType.Group? && s.conversations[c].principalId != p && IsOwner(s, p)
                 then s.(conversations := s.conversations[c := s.conversations[c].(principalId := p)]) else s;
        Some((if (agentId, place) in s.locations then t else t.(locations := t.locations[(agentId, place) := c]), c))
  }

  /** `allowed` is what the evaluation decided; whatever it decides, an unbound sender is denied. */
  function AcceptIncoming(s: State, agentId: Id, scope: Scope, externalId: string, allowed: bool): (State, Outcome) {
    var identity := Auth.IdentityOf(scope);
    if (scope, externalId) in s.messages then
      var run := s.messages[(scope, externalId)];
      if !allowed || identity !in s.identities || run >= |s.runs| || s.runs[run].principalId != s.identities[identity]
         || s.runs[run].conversation >= |s.conversations| || s.conversations[s.runs[run].conversation].agentId != agentId
      then (s, Denied)
      else (s, Accepted(s.runs[run].conversation, run, true))
    else if !allowed || identity !in s.identities then (s, Denied)
    else
      var p := s.identities[identity];
      var routed := Route(s, agentId, scope, p);
      if routed.None? then (s, Conflict)
      else
        var (t, c) := routed.value;
        var run := |s.runs|;
        (t.(runs := t.runs + [RunRow(c, p, scope, Some((scope, externalId)), None)],
            messages := t.messages[(scope, externalId) := run]),
         Accepted(c, run, false))
  }

  // ---------------------------------------------------------------------------------------
  // Task steps

  /** The stored key, a mapped location or the stored scope is the caller's location. */
  predicate AtCallerLocation(s: State, c: nat, scope: Scope)
    requires c < |s.conversations|
  {
    || s.conversations[c].key == AtPlace(Auth.PlaceOf(scope))
    || (exists k :: k in s.locations && k.1 == Auth.PlaceOf(scope) && s.locations[k] == c)
    || Auth.PlaceOf(s.conversations[c].scope) == Auth.PlaceOf(scope)
  }

  predicate MayUse(s: State, c: nat, p: Id, scope: Scope) {
    && c < |s.conversations| && AtCallerLocation(s, c, scope)
    && (IsPrivate(s.conversations[c]) ==> p == s.conversations[c].ownerId)
  }

  function StepRunOf(runs: seq<RunRow>, attempt: Id): (r: Option<nat>)
    ensures r.Some? ==> r.value < |runs| && runs[r.value].attempt == Some(attempt)
    ensures r.None? ==> forall i :: 0 <= i < |runs| ==> runs[i].attempt != Some(attempt)
    decreases |runs|
  {
    if runs == [] then None
    else if runs[|runs| - 1].attempt == Some(attempt) then Some(|runs| - 1)
    else StepRunOf(runs[..|runs| - 1], attempt)
  }

  /** `allowed` covers the Task's own checks. */
  function CreateStepRun(s: State, attempt: Id, c: nat, p: Id, scope: Scope, allowed: bool): (State, Outcome) {
    if !allowed || !MayUse(s, c, p, scope) then (s, Denied)
    else
      var existing := StepRunOf(s.runs, attempt);
      if existing.Some? then
        var run := s.runs[existing.value];
        if run.message.Some? || run.conversation != c || run.principalId != p then (s, Denied)
        else (s, Accepted(c, existing.value, true))
      else
        (s.(runs := s.runs + [RunRow(c, p, s.conversations[c].scope, None, Some(attempt))]), Accepted(c, |s.runs|, false))
  }

  // ---------------------------------------------------------------------------------------
  // Histories

  datatype Event =
    | ECreatePrincipal(p: Id, owner: bool)
    | EBindPrincipal(identity: Identity, p: Id)
    | EBindOwner(identity: Identity, p: Id)
    | EUnbind(identity: Identity)
    | EIncoming(agentId: Id, scope: Scope, externalId: string, allowed: bool)
    | EStep(attempt: Id, conversation: nat, p: Id, scope: Scope, allowed: bool)

  function Step(s: State, e: Event): State {
    match e
    case ECreatePrincipal(p, owner) => CreatePrincipal(s, p, owner)
    case EBindPrincipal(i, p) => BindPrincipal(s, i, p)
    case EBindOwner(i, p) => BindOwner(s, i, p)
    case EUnbind(i) => Unbind(s, i)
    case EIncoming(agentId, scope, x, allowed) => AcceptIncoming(s, agentId, scope, x, allowed).0
    case EStep(attempt, c, p, scope, allowed) => CreateStepRun(s, attempt, c, p, scope, allowed).0
  }

  function After(s: State, es: seq<Event>): State
    decreases |es|
  {
    if es == [] then s else After(Step(s, es[0]), es[1..])
  }
}
