/** Private Conversations never mix principals, over every history of messages and rebindings. */
module ConversationsIsolation {
  import opened Options
  import opened CanonicalKeys
  import opened ConversationsModel

  /** A Conversation row agrees with itself: its key names its own location, and a private one keeps
      the principal it was opened for. */
  ghost predicate Consistent(c: Conversation) {
    && c.key.place == Auth.PlaceOf(c.scope)
    && (IsPrivate(c) ==> c.ownerId == c.principalId)
    && (c.key.AtPlaceFor? ==> IsPrivate(c) && c.key.principalId == c.principalId)
  }

  ghost predicate ConversationsInv(cs: seq<Conversation>) {
    && (forall c :: 0 <= c < |cs| ==> Consistent(cs[c]))
    && (forall c, d :: 0 <= c < d < |cs| ==> Apart(cs[c], cs[d]))
  }

  /** Two Conversations of one agent have different keys, and different principals when they are
      private and at one location. */
  ghost predicate Apart(c: Conversation, d: Conversation) {
    c.agentId == d.agentId ==>
      && c.key != d.key
      && (IsPrivate(c) && Auth.PlaceOf(c.scope) == Auth.PlaceOf(d.scope) ==> c.principalId != d.principalId)
  }

  /** Every location in the map stands for a Conversation stored at that very location, and every
      Conversation's location is in the map. */
  ghost predicate LocationsInv(cs: seq<Conversation>, locations: map<(Id, Place), nat>) {
    && (forall k :: k in locations ==>
          locations[k] < |cs| && cs[locations[k]].agentId == k.0 && Auth.PlaceOf(cs[locations[k]].scope) == k.1)
    && (forall c :: 0 <= c < |cs| ==> (cs[c].agentId, Auth.PlaceOf(cs[c].scope)) in locations)
  }

  /** Runs of a private Conversation are its principal's, and messages and Runs name each other. */
  ghost predicate RunsInv(cs: seq<Conversation>, messages: map<(Scope, string), nat>, runs: seq<RunRow>) {
    && (forall r :: 0 <= r < |runs| ==> OwnRun(cs, runs[r]))
    && (forall m :: m in messages ==> messages[m] < |runs| && runs[messages[m]].message == Some(m))
    && (forall r :: 0 <= r < |runs| && runs[r].message.Some? ==>
          runs[r].message.value in messages && messages[runs[r].message.value] == r)
  }

  ghost predicate OwnRun(cs: seq<Conversation>, r: RunRow) {
    && r.conversation < |cs|
    && (IsPrivate(cs[r.conversation]) ==> r.principalId == cs[r.conversation].principalId)
  }

  ghost predicate Inv(s: State) {
    ConversationsInv(s.conversations) && LocationsInv(s.conversations, s.locations) && RunsInv(s.conversations, s.messages, s.runs)
  }

  /** A Conversation keeps everything but a group's principal, which only an Owner takes over. */
  ghost predicate SameConversation(c: Conversation, d: Conversation, principals: map<Id, bool>) {
    && d.agentId == c.agentId && d.key == c.key && d.scope == c.scope && d.ownerId == c.ownerId
    && (d.principalId != c.principalId ==> !IsPrivate(c) && d.principalId in principals && principals[d.principalId])
  }

  ghost predicate ConversationsStay(cs: seq<Conversation>, ct: seq<Conversation>, principals: map<Id, bool>) {
    |cs| <= |ct| && forall c :: 0 <= c < |cs| ==> SameConversation(cs[c], ct[c], principals)
  }

  /** Rows are only appended, and a Run or message never changes. */
  ghost predicate RowsStay(s: State, t: State) {
    && ConversationsStay(s.conversations, t.conversations, t.principals)
    && s.runs <= t.runs
    && (forall m :: m in s.messages ==> m in t.messages && t.messages[m] == s.messages[m])
  }

  // ---------------------------------------------------------------------------------------
  // One table at a time

  lemma AddConversation(cs: seq<Conversation>, locations: map<(Id, Place), nat>, row: Conversation)
    requires ConversationsInv(cs) && LocationsInv(cs, locations) && Consistent(row)
    requires forall c :: 0 <= c < |cs| ==> Apart(cs[c], row)
    ensures ConversationsInv(cs + [row])
    ensures LocationsInv(cs + [row], locations[(row.agentId, Auth.PlaceOf(row.scope)) := |cs|])
  {
  }

  lemma RunsInMoreConversations(cs: seq<Conversation>, ct: seq<Conversation>, principals: map<Id, bool>,
                                messages: map<(Scope, string), nat>, runs: seq<RunRow>)
    requires RunsInv(cs, messages, runs) && ConversationsStay(cs, ct, principals)
    ensures RunsInv(ct, messages, runs)
  {
    forall r | 0 <= r < |runs| ensures OwnRun(ct, runs[r]) {
      assert OwnRun(cs, runs[r]) && SameConversation(cs[runs[r].conversation], ct[runs[r].conversation], principals);
    }
  }

  /** Changing a group's principal disturbs nothing. */
  lemma OwnerTakesGroup(cs: seq<Conversation>, locations: map<(Id, Place), nat>, principals: map<Id, bool>, c: nat, p: Id)
    requires ConversationsInv(cs) && LocationsInv(cs, locations) && c < |cs| && !IsPrivate(cs[c])
    requires p in principals && principals[p]
    ensures var ct := cs[c := cs[c].(principalId := p)];
            ConversationsInv(ct) && LocationsInv(ct, locations) && ConversationsStay(cs, ct, principals)
  {
    var ct := cs[c := cs[c].(principalId := p)];
    forall i, j | 0 <= i < j < |ct| ensures Apart(ct[i], ct[j]) {
      assert Apart(cs[i], cs[j]);
    }
  }

  lemma MapLocation(cs: seq<Conversation>, locations: map<(Id, Place), nat>, k: (Id, Place), c: nat)
    requires LocationsInv(cs, locations) && c < |cs| && cs[c].agentId == k.0 && Auth.PlaceOf(cs[c].scope) == k.1
    ensures LocationsInv(cs, locations[k := c])
  {
  }

  lemma AddRun(cs: seq<Conversation>, messages: map<(Scope, string), nat>, runs: seq<RunRow>, row: RunRow)
    requires RunsInv(cs, messages, runs) && OwnRun(cs, row) && (row.message.Some? ==> row.message.value !in messages)
    ensures RunsInv(cs, if row.message.Some? then messages[row.message.value := |runs|] else messages, runs + [row])
  {
  }

  // ---------------------------------------------------------------------------------------
  // Routing

  /** A Conversation found for a location is stored there, for this agent. */
  lemma FoundIsThere(s: State, agentId: Id, place: Place)
    requires Inv(s)
    ensures var found := Found(s, agentId, place);
            found.Some? ==>
              && found.value < |s.conversations| && s.conversations[found.value].agentId == agentId
              && Auth.PlaceOf(s.conversations[found.value].scope) == place
  {
  }

  /** With nothing found, nothing is stored at the location at all. */
  lemma NothingThere(s: State, agentId: Id, place: Place, c: nat)
    requires Inv(s) && Found(s, agentId, place).None? && c < |s.conversations|
    ensures !(s.conversations[c].agentId == agentId && Auth.PlaceOf(s.conversations[c].scope) == place)
  {
  }

  /** What a routing leaves behind. */
  ghost predicate Routed(s: State, t: State, c: nat, agentId: Id, scope: Scope, p: Id) {
    && Inv(t) && RowsStay(s, t)
    && t == s.(conversations := t.conversations, locations := t.locations)
    && c < |t.conversations| && t.conversations[c].agentId == agentId
    && Auth.PlaceOf(t.conversations[c].scope) == Auth.PlaceOf(scope)
    && (scope.chatType.Private? ==> t.conversations[c].principalId == p)
    && (agentId, Auth.PlaceOf(scope)) in t.locations && t.locations[(agentId, Auth.PlaceOf(scope))] == c
  }

  lemma NewIsApart(s: State, agentId: Id, scope: Scope, p: Id, remap: bool, c: nat)
    requires Inv(s) && c < |s.conversations|
    requires remap ==> scope.chatType.Private? && OwnAt(s.conversations, agentId, p, Auth.PlaceOf(scope)).None?
    requires !remap ==> Found(s, agentId, Auth.PlaceOf(scope)).None?
    ensures var place := Auth.PlaceOf(scope);
            Apart(s.conversations[c], Conversation(agentId, p, if remap then AtPlaceFor(place, p) else AtPlace(place), scope, p))
  {
    assert Consistent(s.conversations[c]);
    if !remap {
      NothingThere(s, agentId, Auth.PlaceOf(scope), c);
    }
  }

  lemma OpeningKeeps(s: State, agentId: Id, scope: Scope, p: Id, remap: bool)
    requires Inv(s)
    requires remap ==> scope.chatType.Private? && OwnAt(s.conversations, agentId, p, Auth.PlaceOf(scope)).None?
    requires !remap ==> Found(s, agentId, Auth.PlaceOf(scope)).None?
    ensures var made := Open(s, agentId, scope, p, remap);
            made.Some? && Routed(s, made.value, |s.conversations|, agentId, scope, p)
  {
    var place := Auth.PlaceOf(scope);
    var row := Conversation(agentId, p, if remap then AtPlaceFor(place, p) else AtPlace(place), scope, p);
    forall c | 0 <= c < |s.conversations| ensures Apart(s.conversations[c], row) {
      NewIsApart(s, agentId, scope, p, remap, c);
    }
    var taken := ByKey(s.conversations, agentId, row.key);
    assert taken.Some? ==> Apart(s.conversations[taken.value], row);
    OpenedIsRouted(s, row);
  }

  lemma OpenedIsRouted(s: State, row: Conversation)
    requires Inv(s) && Consistent(row) && forall c :: 0 <= c < |s.conversations| ==> Apart(s.conversations[c], row)
    ensures var t := s.(conversations := s.conversations + [row],
                        locations := s.locations[(row.agentId, Auth.PlaceOf(row.scope)) := |s.conversations|]);
            Routed(s, t, |s.conversations|, row.agentId, row.scope, row.principalId)
  {
    AddConversation(s.conversations, s.locations, row);
    RunsInMoreConversations(s.conversations, s.conversations + [row], s.principals, s.messages, s.runs);
  }

  ghost predicate Stands(s: State, agentId: Id, scope: Scope, c: nat) {
    c < |s.conversations| && s.conversations[c].agentId == agentId && Auth.PlaceOf(s.conversations[c].scope) == Auth.PlaceOf(scope)
  }

  /** The state with the location mapped to this Conversation, unless it is to be left alone. */
  function Mapped(s: State, agentId: Id, scope: Scope, c: nat, maps: bool): State {
    if maps then s.(locations := s.locations[(agentId, Auth.PlaceOf(scope)) := c]) else s
  }

  /** The location is mapped to this Conversation already, or is about to be. */
  predicate Leads(s: State, agentId: Id, scope: Scope, c: nat, maps: bool) {
    !maps ==> (agentId, Auth.PlaceOf(scope)) in s.locations && s.locations[(agentId, Auth.PlaceOf(scope))] == c
  }

  lemma FoundIsRouted(s: State, agentId: Id, scope: Scope, p: Id, c: nat, maps: bool)
    requires Inv(s) && Stands(s, agentId, scope, c) && Leads(s, agentId, scope, c, maps)
    requires scope.chatType.Private? ==> s.conversations[c].principalId == p
    ensures Routed(s, Mapped(s, agentId, scope, c, maps), c, agentId, scope, p)
  {
    assert s.conversations[c].scope.chatType == scope.chatType;
    MapLocation(s.conversations, s.locations, (agentId, Auth.PlaceOf(scope)), c);
  }

  lemma TakenIsRouted(s: State, agentId: Id, scope: Scope, p: Id, c: nat, maps: bool)
    requires Inv(s) && Stands(s, agentId, scope, c) && Leads(s, agentId, scope, c, maps) && scope.chatType.Group? && IsOwner(s, p)
    ensures Routed(s, Mapped(Taken(s, c, p), agentId, scope, c, maps), c, agentId, scope, p)
  {
    var cs := s.conversations;
    var ct := cs[c := cs[c].(principalId := p)];
    assert cs[c].scope.chatType == scope.chatType;
    OwnerTakesGroup(cs, s.locations, s.principals, c, p);
    RunsInMoreConversations(cs, ct, s.principals, s.messages, s.runs);
    MapLocation(ct, s.locations, (agentId, Auth.PlaceOf(scope)), c);
  }

  /** A group Conversation as an Owner speaking in it leaves it. */
  function Taken(s: State, c: nat, p: Id): State
    requires c < |s.conversations|
  {
    s.(conversations := s.conversations[c := s.conversations[c].(principalId := p)])
  }

  predicate Takes(s: State, scope: Scope, c: nat, p: Id)
    requires c < |s.conversations|
  {
    scope.chatType.Group? && s.conversations[c].principalId != p && IsOwner(s, p)
  }

  lemma ChosenIs(s: State, agentId: Id, scope: Scope, p: Id, remap: bool, c: nat)
    requires Stands(s, agentId, scope, c) && remap == Remaps(s, scope, p, Found(s, agentId, Auth.PlaceOf(scope)))
    requires if remap then OwnAt(s.conversations, agentId, p, Auth.PlaceOf(scope)) == Some(c)
             else Found(s, agentId, Auth.PlaceOf(scope)) == Some(c)
    ensures var known := (agentId, Auth.PlaceOf(scope)) in s.locations;
            Route(s, agentId, scope, p)
            == Some((Mapped(if !remap && Takes(s, scope, c, p) then Taken(s, c, p) else s, agentId, scope, c, remap == known), c))
  {
  }

  lemma ChosenKeeps(s: State, agentId: Id, scope: Scope, p: Id, remap: bool, c: nat)
    requires Inv(s) && Stands(s, agentId, scope, c)
    requires remap == Remaps(s, scope, p, Found(s, agentId, Auth.PlaceOf(scope)))
    requires if remap then OwnAt(s.conversations, agentId, p, Auth.PlaceOf(scope)) == Some(c)
             else Found(s, agentId, Auth.PlaceOf(scope)) == Some(c)
    ensures var routed := Route(s, agentId, scope, p);
            routed.Some? && routed.value.1 == c && Routed(s, routed.value.0, c, agentId, scope, p)
  {
    var known := (agentId, Auth.PlaceOf(scope)) in s.locations;
    assert known by {
      assert (s.conversations[c].agentId, Auth.PlaceOf(s.conversations[c].scope)) in s.locations;
    }
    ChosenIs(s, agentId, scope, p, remap, c);
    if !remap && Takes(s, scope, c, p) {
      TakenIsRouted(s, agentId, scope, p, c, remap == known);
    } else {
      FoundIsRouted(s, agentId, scope, p, c, remap == known);
    }
  }

  /** A message always finds or opens a Conversation at its own location; a private one is the
      sender's own. */
  lemma RoutingKeeps(s: State, agentId: Id, scope: Scope, p: Id)
    requires Inv(s)
    ensures var routed := Route(s, agentId, scope, p);
            routed.Some? && Routed(s, routed.value.0, routed.value.1, agentId, scope, p)
  {
    var place := Auth.PlaceOf(scope);
    var found := Found(s, agentId, place);
    FoundIsThere(s, agentId, place);
    var remap := Remaps(s, scope, p, found);
    var chosen := if remap then OwnAt(s.conversations, agentId, p, place) else found;
    if chosen.None? {
      OpeningKeeps(s, agentId, scope, p, remap);
    } else {
      ChosenKeeps(s, agentId, scope, p, remap, chosen.value);
    }
  }

  // ---------------------------------------------------------------------------------------
  // Steps

  /** The state with the new message's Run. */
  function WithMessage(t: State, c: nat, p: Id, scope: Scope, externalId: string): State {
    t.(runs := t.runs + [RunRow(c, p, scope, Some((scope, externalId)), None)],
       messages := t.messages[(scope, externalId) := |t.runs|])
  }

  predicate IsNews(s: State, scope: Scope, externalId: string, allowed: bool) {
    (scope, externalId) !in s.messages && allowed && Auth.IdentityOf(scope) in s.identities
  }

  lemma IncomingIs(s: State, agentId: Id, scope: Scope, externalId: string, allowed: bool)
    ensures var (t, out) := AcceptIncoming(s, agentId, scope, externalId, allowed);
            if IsNews(s, scope, externalId, allowed) then
              var p := s.identities[Auth.IdentityOf(scope)];
              var routed := Route(s, agentId, scope, p);
              if routed.None? then out.Conflict? && t == s
              else t == WithMessage(routed.value.0, routed.value.1, p, scope, externalId) && out.Accepted?
            else t == s && !out.Conflict?
  {
  }

  lemma IncomingKeeps(s: State, agentId: Id, scope: Scope, externalId: string, allowed: bool)
    requires Inv(s)
    ensures var (t, out) := AcceptIncoming(s, agentId, scope, externalId, allowed);
            Inv(t) && RowsStay(s, t) && !out.Conflict?
  {
    IncomingIs(s, agentId, scope, externalId, allowed);
    if IsNews(s, scope, externalId, allowed) {
      var p := s.identities[Auth.IdentityOf(scope)];
      RoutingKeeps(s, agentId, scope, p);
      var (t, c) := Route(s, agentId, scope, p).value;
      AcceptedRun(s, t, c, agentId, scope, p, externalId);
    }
  }

  lemma AcceptedRun(s: State, t: State, c: nat, agentId: Id, scope: Scope, p: Id, externalId: string)
    requires Routed(s, t, c, agentId, scope, p) && (scope, externalId) !in s.messages
    ensures Inv(WithMessage(t, c, p, scope, externalId)) && RowsStay(s, WithMessage(t, c, p, scope, externalId))
  {
    assert t.conversations[c].scope.chatType == scope.chatType;
    AddRun(t.conversations, t.messages, t.runs, RunRow(c, p, scope, Some((scope, externalId)), None));
  }

  lemma StepRunKeeps(s: State, attempt: Id, c: nat, p: Id, scope: Scope, allowed: bool)
    requires Inv(s)
    ensures var t := CreateStepRun(s, attempt, c, p, scope, allowed).0; Inv(t) && RowsStay(s, t)
  {
    if c < |s.conversations| {
      var row := RunRow(c, p, s.conversations[c].scope, None, Some(attempt));
      var t := CreateStepRun(s, attempt, c, p, scope, allowed).0;
      assert t == s || (t == s.(runs := s.runs + [row]) && MayUse(s, c, p, scope));
      if t != s {
        UsersOwnTheirRuns(s, c, p, scope, row);
        StepRunAdded(s, row);
      }
    }
  }

  lemma UsersOwnTheirRuns(s: State, c: nat, p: Id, scope: Scope, row: RunRow)
    requires ConversationsInv(s.conversations) && MayUse(s, c, p, scope) && row.conversation == c && row.principalId == p
    ensures OwnRun(s.conversations, row)
  {
    assert Consistent(s.conversations[c]);
  }

  lemma SameRows(s: State, t: State)
    requires Inv(s) && t.conversations == s.conversations && t.locations == s.locations && t.messages == s.messages && t.runs == s.runs
    ensures Inv(t) && RowsStay(s, t)
  {
  }

  lemma StepRunAdded(s: State, row: RunRow)
    requires Inv(s) && OwnRun(s.conversations, row) && row.message.None?
    ensures var t := s.(runs := s.runs + [row]); Inv(t) && RowsStay(s, t)
  {
    AddRun(s.conversations, s.messages, s.runs, row);
  }

  lemma StepKeeps(s: State, e: Event)
    requires Inv(s)
    ensures Inv(Step(s, e)) && RowsStay(s, Step(s, e))
  {
    match e
    case EIncoming(agentId, scope, x, allowed) => IncomingKeeps(s, agentId, scope, x, allowed);
    case EStep(attempt, c, p, scope, allowed) => StepRunKeeps(s, attempt, c, p, scope, allowed);
    case ECreatePrincipal(p, owner) => SameRows(s, CreatePrincipal(s, p, owner));
    case EBindPrincipal(i, p) => SameRows(s, BindPrincipal(s, i, p));
    case EBindOwner(i, p) => SameRows(s, BindOwner(s, i, p));
    case EUnbind(i) => SameRows(s, Unbind(s, i));
  }

  // ---------------------------------------------------------------------------------------
  // Histories

  lemma {:induction false} InvAlways(s: State, es: seq<Event>)
    requires Inv(s)
    ensures Inv(After(s, es))
    decreases |es|
  {
    if es != [] {
      StepKeeps(s, es[0]);
      InvAlways(Step(s, es[0]), es[1..]);
    }
  }

  /** In every history of bindings, rebindings, messages and Task steps: a private Conversation only
      ever has Runs of one principal, its own. */
  lemma PrivateConversationsNeverMix(es: seq<Event>, s: State, r: nat, q: nat)
    requires s == After(EMPTY, es) && r < |s.runs| && q < |s.runs| && s.runs[r].conversation == s.runs[q].conversation
    ensures s.runs[r].conversation < |s.conversations|
    ensures IsPrivate(s.conversations[s.runs[r].conversation]) ==>
              s.runs[r].principalId == s.runs[q].principalId == s.conversations[s.runs[r].conversation].principalId
  {
    InvAlways(EMPTY, es);
    InvSays(s);
  }

  lemma InvSays(s: State)
    requires Inv(s)
    ensures LocationsInv(s.conversations, s.locations) && RunsInv(s.conversations, s.messages, s.runs)
  {
  }

  /** Every mapped location stands for a Conversation stored at that same location. */
  lemma LocationsStandForTheirConversations(es: seq<Event>, s: State, agentId: Id, place: Place)
    requires s == After(EMPTY, es) && (agentId, place) in s.locations
    ensures var c := s.locations[(agentId, place)];
            c < |s.conversations| && s.conversations[c].agentId == agentId && Auth.PlaceOf(s.conversations[c].scope) == place
  {
    InvAlways(EMPTY, es);
    InvSays(s);
  }

  /** A channel message has at most one Run. */
  lemma OneRunPerMessage(es: seq<Event>, s: State, r: nat, q: nat)
    requires s == After(EMPTY, es) && r < |s.runs| && q < |s.runs|
    requires s.runs[r].message.Some? && s.runs[r].message == s.runs[q].message
    ensures r == q
  {
    InvAlways(EMPTY, es);
    InvSays(s);
  }

  lemma {:induction false} RowsStayAlways(s: State, es: seq<Event>)
    requires Inv(s)
    ensures s.runs <= After(s, es).runs && |s.conversations| <= |After(s, es).conversations|
    ensures forall c :: 0 <= c < |s.conversations| && IsPrivate(s.conversations[c]) ==> After(s, es).conversations[c] == s.conversations[c]
    ensures forall c :: 0 <= c < |s.conversations| ==> After(s, es).conversations[c].agentId == s.conversations[c].agentId
    ensures forall m :: m in s.messages ==> m in After(s, es).messages && After(s, es).messages[m] == s.messages[m]
    decreases |es|
  {
    if es != [] {
      StepKeeps(s, es[0]);
      RowsStayAlways(Step(s, es[0]), es[1..]);
    }
  }

  /** How a message that already has a Run is answered. */
  ghost predicate Answers(u: State, identity: Identity, allowed: bool, first: Outcome, principalId: Id, again: Outcome)
    requires first.Accepted?
  {
    again == if allowed && identity in u.identities && u.identities[identity] == principalId
             then Accepted(first.conversation, first.run, true) else Denied
  }

  /** Redelivery: however much happens in between, the same message changes nothing; it is answered with the
      Run it first created if and only if its sender is bound to that Run's principal by then. */
  lemma RedeliveryReturnsTheSameRun(s: State, agentId: Id, scope: Scope, externalId: string, es: seq<Event>, allowed: bool)
    requires Inv(s) && AcceptIncoming(s, agentId, scope, externalId, true).1.Accepted?
    ensures var (t, first) := AcceptIncoming(s, agentId, scope, externalId, true);
            var (v, again) := AcceptIncoming(After(t, es), agentId, scope, externalId, allowed);
            && v == After(t, es) && first.run < |t.runs| && t.runs <= v.runs
            && Answers(v, Auth.IdentityOf(scope), allowed, first, t.runs[first.run].principalId, again)
  {
    var (t, first) := AcceptIncoming(s, agentId, scope, externalId, true);
    IncomingKeeps(s, agentId, scope, externalId, true);
    FirstAnswer(s, agentId, scope, externalId);
    RowsStayAlways(t, es);
    Redelivered(t, After(t, es), agentId, scope, externalId, allowed, first);
  }

  lemma FirstAnswer(s: State, agentId: Id, scope: Scope, externalId: string)
    requires Inv(s) && AcceptIncoming(s, agentId, scope, externalId, true).1.Accepted?
    ensures var (t, first) := AcceptIncoming(s, agentId, scope, externalId, true);
            && first.run < |t.runs| && t.runs[first.run].conversation == first.conversation
            && first.conversation < |t.conversations| && t.conversations[first.conversation].agentId == agentId
            && (scope, externalId) in t.messages && t.messages[(scope, externalId)] == first.run
  {
    if (scope, externalId) !in s.messages {
      RoutingKeeps(s, agentId, scope, s.identities[Auth.IdentityOf(scope)]);
    }
  }

  lemma Redelivered(t: State, u: State, agentId: Id, scope: Scope, externalId: string, allowed: bool, first: Outcome)
    requires first.Accepted? && first.run < |t.runs| && t.runs <= u.runs && t.runs[first.run].conversation == first.conversation
    requires first.conversation < |u.conversations| && u.conversations[first.conversation].agentId == agentId
    requires (scope, externalId) in u.messages && u.messages[(scope, externalId)] == first.run
    ensures var (v, again) := AcceptIncoming(u, agentId, scope, externalId, allowed);
            v == u && Answers(u, Auth.IdentityOf(scope), allowed, first, t.runs[first.run].principalId, again)
  {
    assert u.runs[first.run] == t.runs[first.run];
  }

  // ---------------------------------------------------------------------------------------
  // Task steps

  ghost predicate OnePerAttempt(runs: seq<RunRow>) {
    forall r, q :: 0 <= r < |runs| && 0 <= q < |runs| && runs[r].attempt.Some? && runs[r].attempt == runs[q].attempt ==> r == q
  }

  /** What one event may add to the Runs: one of a message, or one of an attempt that had none. */
  ghost predicate AddsOneRun(runs: seq<RunRow>, more: seq<RunRow>) {
    || more == runs
    || (|more| == |runs| + 1 && runs <= more
        && (more[|runs|].attempt.Some? ==> StepRunOf(runs, more[|runs|].attempt.value).None?))
  }

  lemma RoutingLeavesRuns(s: State, agentId: Id, scope: Scope, p: Id)
    ensures var r := Route(s, agentId, scope, p); r.Some? ==> r.value.0.runs == s.runs
  {
  }

  lemma StepAddsOneRun(s: State, e: Event)
    ensures AddsOneRun(s.runs, Step(s, e).runs)
  {
    if e.EIncoming? {
      IncomingIs(s, e.agentId, e.scope, e.externalId, e.allowed);
      if IsNews(s, e.scope, e.externalId, e.allowed) {
        RoutingLeavesRuns(s, e.agentId, e.scope, s.identities[Auth.IdentityOf(e.scope)]);
      }
    }
  }

  /** An attempt has at most one Run. */
  lemma {:induction false} OneRunPerAttempt(s: State, es: seq<Event>)
    requires OnePerAttempt(s.runs)
    ensures OnePerAttempt(After(s, es).runs)
    decreases |es|
  {
    if es != [] {
      StepAddsOneRun(s, es[0]);
      OneRunPerAttempt(Step(s, es[0]), es[1..]);
    }
  }

  /** Asking again for an attempt's Run, however much happens in between, creates nothing: it is answered with
      the first one if and only if it is asked for in the same Conversation by the same principal, who may use
      the Conversation by then. */
  lemma RepeatedStepsReturnTheSameRun(s: State, attempt: Id, c: nat, p: Id, scope: Scope, es: seq<Event>,
                                      d: nat, q: Id, from: Scope, allowed: bool)
    requires Inv(s) && OnePerAttempt(s.runs) && CreateStepRun(s, attempt, c, p, scope, true).1.Accepted?
    ensures var (t, first) := CreateStepRun(s, attempt, c, p, scope, true);
            var (v, again) := CreateStepRun(After(t, es), attempt, d, q, from, allowed);
            && v == After(t, es)
            && again == if allowed && d == c && q == p && MayUse(v, d, q, from) then Accepted(c, first.run, true) else Denied
  {
    var (t, first) := CreateStepRun(s, attempt, c, p, scope, true);
    StepRunKeeps(s, attempt, c, p, scope, true);
    FirstStepRun(s, attempt, c, p, scope);
    LaterStep(t, es, attempt, c, p, first.run, d, q, from, allowed);
  }

  lemma LaterStep(t: State, es: seq<Event>, attempt: Id, c: nat, p: Id, run: nat, d: nat, q: Id, from: Scope, allowed: bool)
    requires Inv(t) && OnePerAttempt(t.runs) && run < |t.runs| && StepRow(t.runs[run], attempt, c, p)
    ensures var u := After(t, es);
            CreateStepRun(u, attempt, d, q, from, allowed)
            == (u, if allowed && d == c && q == p && MayUse(u, d, q, from) then Accepted(c, run, true) else Denied)
  {
    var u := After(t, es);
    OneRunPerAttempt(t, es);
    RowsStayAlways(t, es);
    assert u.runs[run] == t.runs[run];
    RepeatedStep(u, attempt, c, p, run, d, q, from, allowed);
  }

  lemma FirstStepRun(s: State, attempt: Id, c: nat, p: Id, scope: Scope)
    requires OnePerAttempt(s.runs) && CreateStepRun(s, attempt, c, p, scope, true).1.Accepted?
    ensures var (t, first) := CreateStepRun(s, attempt, c, p, scope, true);
            && OnePerAttempt(t.runs) && first.conversation == c && first.run < |t.runs| && StepRow(t.runs[first.run], attempt, c, p)
  {
  }

  predicate StepRow(r: RunRow, attempt: Id, c: nat, p: Id) {
    r.attempt == Some(attempt) && r.message.None? && r.conversation == c && r.principalId == p
  }

  lemma RepeatedStep(u: State, attempt: Id, c: nat, p: Id, run: nat, d: nat, q: Id, from: Scope, allowed: bool)
    requires OnePerAttempt(u.runs) && run < |u.runs| && StepRow(u.runs[run], attempt, c, p)
    ensures CreateStepRun(u, attempt, d, q, from, allowed)
            == (u, if allowed && d == c && q == p && MayUse(u, d, q, from) then Accepted(c, run, true) else Denied)
  {
    assert StepRunOf(u.runs, attempt) == Some(run);
  }

  /** The three ways to be at a Conversation's location come to the same: whoever gets a step Run is where the
      Conversation is stored, and in a private one they are its principal. */
  lemma StepRunsComeFromTheirLocation(s: State, attempt: Id, c: nat, p: Id, scope: Scope, allowed: bool)
    requires Inv(s) && CreateStepRun(s, attempt, c, p, scope, allowed).1.Accepted?
    ensures c < |s.conversations| && Auth.PlaceOf(s.conversations[c].scope) == Auth.PlaceOf(scope)
    ensures IsPrivate(s.conversations[c]) ==> p == s.conversations[c].principalId
  {
    assert Consistent(s.conversations[c]);
  }

  ghost predicate OwnConversation(s: State, d: nat, agentId: Id, p: Id, place: Place) {
    && d < |s.conversations| && s.conversations[d].agentId == agentId && s.conversations[d].principalId == p
    && Auth.PlaceOf(s.conversations[d].scope) == place
  }

  /** A private sender is only ever answered in a Conversation of their own, and coming back to an
      identity means coming back to the same Conversation. */
  lemma PrivateMessagesGoHome(s: State, agentId: Id, scope: Scope, p: Id, d: nat)
    requires Inv(s) && scope.chatType.Private?
    ensures var (t, c) := (Route(s, agentId, scope, p).value.0, Route(s, agentId, scope, p).value.1);
            && c < |t.conversations| && t.conversations[c].principalId == p
            && (OwnConversation(s, d, agentId, p, Auth.PlaceOf(scope)) ==> c == d)
  {
    RoutingKeeps(s, agentId, scope, p);
    var (t, c) := Route(s, agentId, scope, p).value;
    var place := Auth.PlaceOf(scope);
    assert t.conversations[c].scope.chatType.Private?;
    forall e | 0 <= e < |t.conversations| && t.conversations[e].agentId == agentId && t.conversations[e].principalId == p
               && Auth.PlaceOf(t.conversations[e].scope) == place
      ensures e == c
    {
      OneOfEach(t.conversations, c, e);
    }
    if d < |s.conversations| {
      assert SameConversation(s.conversations[d], t.conversations[d], t.principals);
    }
  }

  /** An agent has one private Conversation per principal and location. */
  lemma OneOfEach(cs: seq<Conversation>, c: nat, e: nat)
    requires ConversationsInv(cs) && c < |cs| && e < |cs| && IsPrivate(cs[c]) && cs[c].agentId == cs[e].agentId
    requires cs[c].principalId == cs[e].principalId && Auth.PlaceOf(cs[c].scope) == Auth.PlaceOf(cs[e].scope)
    ensures c == e
  {
    assert cs[e].scope.chatType == cs[c].scope.chatType;
    assert c < e ==> Apart(cs[c], cs[e]);
    assert e < c ==> Apart(cs[e], cs[c]);
  }
}
