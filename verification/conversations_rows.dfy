/** Exactly what a message, a step Run, and a binding leave in the tables. */
module ConversationsRows {
  import opened Options
  import opened CanonicalKeys
  import opened ConversationsModel
  import opened ConversationsIsolation

  /** Everything of the scope but who is speaking. */
  ghost function Here(k: Scope): Place { Auth.Place(k.connectionId, k.botId, k.chatType, k.chatId, k.threadId) }

  ghost function Sender(k: Scope): Identity { Auth.Identity(k.connectionId, k.botId, k.senderId) }

  // ---------------------------------------------------------------------------------------
  // Where a message goes

  /** A private message goes to the sender's own Conversation at its location, any other to the one the location
      stands for. */
  ghost predicate IsHome(s: State, agentId: Id, scope: Scope, p: Id, c: nat) {
    if scope.chatType == Private then
      && c < |s.conversations| && s.conversations[c].agentId == agentId && s.conversations[c].principalId == p
      && Here(s.conversations[c].scope) == Here(scope)
    else (agentId, Here(scope)) in s.locations && s.locations[(agentId, Here(scope))] == c
  }

  ghost predicate Homeless(s: State, agentId: Id, scope: Scope, p: Id) {
    forall c :: 0 <= c < |s.conversations| ==> !IsHome(s, agentId, scope, p, c)
  }

  /** What is opened for a principal that has no home there; its key names the principal where the location already
      stands for somebody else's. */
  ghost function Opened(s: State, agentId: Id, scope: Scope, p: Id): Conversation {
    Conversation(agentId, p, if (agentId, Here(scope)) in s.locations then AtPlaceFor(Here(scope), p) else AtPlace(Here(scope)), scope, p)
  }

  /** A group's Conversation passes to an Owner who speaks in it, and to nobody else. */
  ghost function Spoken(s: State, c: Conversation, p: Id): Conversation {
    if c.scope.chatType == Group && p in s.principals && s.principals[p] then c.(principalId := p) else c
  }

  /** The tables with the message's Run. */
  ghost predicate Answered(s: State, t: State, agentId: Id, scope: Scope, externalId: string, p: Id, c: nat) {
    && t.identities == s.identities && t.principals == s.principals
    && t.runs == s.runs + [RunRow(c, p, scope, Some((scope, externalId)), None)]
    && t.messages == s.messages[(scope, externalId) := |s.runs|]
    && t.locations == s.locations[(agentId, Here(scope)) := c]
    && if Homeless(s, agentId, scope, p) then
         c == |s.conversations| && t.conversations == s.conversations + [Opened(s, agentId, scope, p)]
       else
         && c < |s.conversations| && IsHome(s, agentId, scope, p, c)
         && t.conversations == s.conversations[c := Spoken(s, s.conversations[c], p)]
  }

  /** The location stands for a Conversation stored there, or nothing is. */
  lemma HomesAreFound(s: State, agentId: Id, scope: Scope)
    requires Inv(s)
    ensures var (k, found) := ((agentId, Here(scope)), Found(s, agentId, Here(scope)));
            && found == (if k in s.locations then Some(s.locations[k]) else None)
            && (found.Some? ==> found.value < |s.conversations| && Here(s.conversations[found.value].scope) == Here(scope)
                                && s.conversations[found.value].agentId == agentId)
            && (found.None? ==> forall c :: 0 <= c < |s.conversations| ==>
                                  !(s.conversations[c].agentId == agentId && Here(s.conversations[c].scope) == Here(scope)))
  {
    assert Here(scope) == Auth.PlaceOf(scope);
    FoundIsThere(s, agentId, Here(scope));
    forall c | 0 <= c < |s.conversations| ensures Here(s.conversations[c].scope) == Auth.PlaceOf(s.conversations[c].scope) {
    }
  }

  lemma OwnIsHome(s: State, agentId: Id, scope: Scope, p: Id)
    requires scope.chatType == Private
    ensures var own := OwnAt(s.conversations, agentId, p, Auth.PlaceOf(scope));
            && (own.None? <==> Homeless(s, agentId, scope, p))
            && (own.Some? ==> own.value < |s.conversations| && IsHome(s, agentId, scope, p, own.value))
  {
    var own := OwnAt(s.conversations, agentId, p, Auth.PlaceOf(scope));
    forall c | 0 <= c < |s.conversations| ensures Here(s.conversations[c].scope) == Auth.PlaceOf(s.conversations[c].scope) {
    }
    if own.Some? {
      assert IsHome(s, agentId, scope, p, own.value);
    }
  }

  /** What a routing leaves, before the Run. */
  ghost predicate Settles(s: State, t: State, agentId: Id, scope: Scope, p: Id, c: nat) {
    && t == s.(conversations := t.conversations, locations := s.locations[(agentId, Here(scope)) := c])
    && if Homeless(s, agentId, scope, p) then
         c == |s.conversations| && t.conversations == s.conversations + [Opened(s, agentId, scope, p)]
       else
         && c < |s.conversations| && IsHome(s, agentId, scope, p, c)
         && t.conversations == s.conversations[c := Spoken(s, s.conversations[c], p)]
  }

  /** Nobody was here before. */
  lemma FirstMessageSettles(s: State, agentId: Id, scope: Scope, p: Id)
    requires Inv(s) && (agentId, Here(scope)) !in s.locations
    ensures var r := Route(s, agentId, scope, p); r.Some? && Settles(s, r.value.0, agentId, scope, p, r.value.1)
  {
    HomesAreFound(s, agentId, scope);
    OpeningKeeps(s, agentId, scope, p, false);
    assert Homeless(s, agentId, scope, p);
  }

  /** The location stands for one the sender may use. */
  lemma KnownMessageSettles(s: State, agentId: Id, scope: Scope, p: Id, c: nat)
    requires Inv(s) && (agentId, Here(scope)) in s.locations && s.locations[(agentId, Here(scope))] == c && c < |s.conversations|
    requires scope.chatType == Private ==> s.conversations[c].principalId == p
    ensures var r := Route(s, agentId, scope, p); r.Some? && Settles(s, r.value.0, agentId, scope, p, r.value.1)
  {
    HomesAreFound(s, agentId, scope);
    ChosenIs(s, agentId, scope, p, false, c);
    assert IsHome(s, agentId, scope, p, c);
    assert s.locations[(agentId, Here(scope)) := c] == s.locations;
    assert s.conversations[c := s.conversations[c]] == s.conversations;
    assert s.conversations[c].scope.chatType == scope.chatType;
  }

  /** A private location stands for somebody else's: the sender goes back to their own there, or gets one. */
  lemma ReturningMessageSettles(s: State, agentId: Id, scope: Scope, p: Id, c: nat)
    requires Inv(s) && scope.chatType == Private && Remaps(s, scope, p, Found(s, agentId, Here(scope)))
    requires OwnAt(s.conversations, agentId, p, Here(scope)) == Some(c) && c < |s.conversations| && IsHome(s, agentId, scope, p, c)
    ensures var r := Route(s, agentId, scope, p); r.Some? && Settles(s, r.value.0, agentId, scope, p, r.value.1)
  {
    HomesAreFound(s, agentId, scope);
    ChosenIs(s, agentId, scope, p, true, c);
    assert s.conversations[c := s.conversations[c]] == s.conversations;
    assert Auth.PlaceOf(s.conversations[c].scope).chatType == scope.chatType;
  }

  lemma RemappedMessageSettles(s: State, agentId: Id, scope: Scope, p: Id, c: nat)
    requires Inv(s) && (agentId, Here(scope)) in s.locations && s.locations[(agentId, Here(scope))] == c && c < |s.conversations|
    requires scope.chatType == Private && s.conversations[c].principalId != p
    ensures var r := Route(s, agentId, scope, p); r.Some? && Settles(s, r.value.0, agentId, scope, p, r.value.1)
  {
    HomesAreFound(s, agentId, scope);
    OwnIsHome(s, agentId, scope, p);
    var own := OwnAt(s.conversations, agentId, p, Here(scope));
    if own.Some? {
      ReturningMessageSettles(s, agentId, scope, p, own.value);
    } else {
      OpeningKeeps(s, agentId, scope, p, true);
    }
  }

  lemma RouteSettles(s: State, agentId: Id, scope: Scope, p: Id)
    requires Inv(s)
    ensures var r := Route(s, agentId, scope, p); r.Some? && Settles(s, r.value.0, agentId, scope, p, r.value.1)
  {
    HomesAreFound(s, agentId, scope);
    if (agentId, Here(scope)) !in s.locations {
      FirstMessageSettles(s, agentId, scope, p);
    } else {
      var c := s.locations[(agentId, Here(scope))];
      if scope.chatType == Private && s.conversations[c].principalId != p {
        RemappedMessageSettles(s, agentId, scope, p, c);
      } else {
        KnownMessageSettles(s, agentId, scope, p, c);
      }
    }
  }

  // ---------------------------------------------------------------------------------------
  // A message

  /** In every history: a message that is new is accepted if and only if it is allowed and its sender is bound, and then
      its Run is stored in the sender's home there, opened where there is none. A message already known is answered with
      its first Run if and only if it is allowed, for that Run's agent, and its sender is still bound to that Run's
      principal. Nothing else ever changes the tables. */
  lemma MessagesAreAcceptedExactlyWhen(s: State, agentId: Id, scope: Scope, externalId: string, allowed: bool)
    requires Inv(s)
    ensures var (t, out) := AcceptIncoming(s, agentId, scope, externalId, allowed);
            var bound := Sender(scope) in s.identities;
            if (scope, externalId) in s.messages then
              var r := s.messages[(scope, externalId)];
              && t == s && r < |s.runs| && s.runs[r].conversation < |s.conversations|
              && out == if allowed && bound && s.identities[Sender(scope)] == s.runs[r].principalId
                           && s.conversations[s.runs[r].conversation].agentId == agentId
                        then Accepted(s.runs[r].conversation, r, true) else Denied
            else if allowed && bound then
              && out.Accepted? && out.run == |s.runs| && !out.duplicate
              && Answered(s, t, agentId, scope, externalId, s.identities[Sender(scope)], out.conversation)
            else out == Denied && t == s
  {
    if (scope, externalId) in s.messages {
      assert OwnRun(s.conversations, s.runs[s.messages[(scope, externalId)]]);
    } else if Sender(scope) in s.identities {
      RouteSettles(s, agentId, scope, s.identities[Sender(scope)]);
    }
  }

  // ---------------------------------------------------------------------------------------
  // A Task step

  /** A step Run is given if and only if the Task's checks allow it, in a Conversation stored where the caller calls from
      that is not another principal's private one, and where the attempt has a Run already, only if that one was for the
      same Conversation and principal. Only a first one is stored. */
  lemma StepRunsAreGivenExactlyWhen(s: State, attempt: Id, c: nat, p: Id, scope: Scope, allowed: bool, r: nat)
    requires Inv(s) && OnePerAttempt(s.runs)
    ensures var (t, out) := CreateStepRun(s, attempt, c, p, scope, allowed);
            var may := && allowed && c < |s.conversations| && Here(s.conversations[c].scope) == Here(scope)
                       && (s.conversations[c].scope.chatType == Private ==> p == s.conversations[c].ownerId);
            if r < |s.runs| && s.runs[r].attempt == Some(attempt) then
              && t == s
              && out == if may && s.runs[r].message.None? && s.runs[r].conversation == c && s.runs[r].principalId == p
                        then Accepted(c, r, true) else Denied
            else (forall q :: 0 <= q < |s.runs| ==> s.runs[q].attempt != Some(attempt)) ==>
              if may then
                && out == Accepted(c, |s.runs|, false)
                && t == s.(runs := s.runs + [RunRow(c, p, s.conversations[c].scope, None, Some(attempt))])
              else out == Denied && t == s
  {
    if c < |s.conversations| {
      assert Consistent(s.conversations[c]);
      assert AtCallerLocation(s, c, scope) <==> Here(s.conversations[c].scope) == Here(scope);
    }
    var first := StepRunOf(s.runs, attempt);
    if first.Some? && r < |s.runs| && s.runs[r].attempt == Some(attempt) {
      assert first.value == r;
    }
  }

  // ---------------------------------------------------------------------------------------
  // Bindings

  /** Whom a sender speaks for. */
  ghost function SpeaksFor(s: State, i: Identity): Option<Id> {
    if i in s.identities then Some(s.identities[i]) else None
  }

  ghost predicate SameButSpeakers(s: State, t: State) {
    && t.conversations == s.conversations && t.locations == s.locations && t.messages == s.messages && t.runs == s.runs
  }

  /** A binding reaches one sender and no other, whoever that one spoke for before: a known principal, or an Owner, who
      becomes known by it; a principal known as something else is no Owner. Nothing that was stored moves with it. */
  lemma BindingsReachOneSender(s: State, i: Identity, p: Id, j: Identity)
    ensures var t := BindPrincipal(s, i, p);
            && SameButSpeakers(s, t) && t.principals == s.principals
            && SpeaksFor(t, j) == if j == i && p in s.principals then Some(p) else SpeaksFor(s, j)
    ensures var (t, may) := (BindOwner(s, i, p), p !in s.principals || s.principals[p]);
            && SameButSpeakers(s, t) && t.principals == (if may then s.principals[p := true] else s.principals)
            && SpeaksFor(t, j) == if j == i && may then Some(p) else SpeaksFor(s, j)
    ensures var t := Unbind(s, i);
            && SameButSpeakers(s, t) && t.principals == s.principals
            && SpeaksFor(t, j) == if j == i then None else SpeaksFor(s, j)
  {
  }

  /** A principal once known stays what it was, unless an Owner's binding names it, and no other event touches one. */
  lemma PrincipalsStay(s: State, e: Event, p: Id)
    ensures p in s.principals ==> p in Step(s, e).principals && Step(s, e).principals[p] == s.principals[p]
    ensures p !in s.principals && p in Step(s, e).principals ==>
              || (e.EBindOwner? && e.p == p && Step(s, e).principals[p])
              || (e.ECreatePrincipal? && e.p == p && Step(s, e).principals[p] == e.owner)
    ensures e.ECreatePrincipal? ==> SameButSpeakers(s, Step(s, e)) && Step(s, e).identities == s.identities && e.p in Step(s, e).principals
  {
  }
}
