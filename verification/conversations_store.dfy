/** The store itself: each transaction as one method, proved against what it does to the tables. */
module ConversationsStores {
  import opened Options
  import opened CanonicalKeys
  import opened ConversationsModel

  class ConversationStore {
    var identities: map<Identity, Id>
    var principals: map<Id, bool>
    var conversations: seq<Conversation>
    var locations: map<(Id, Place), nat>
    var messages: map<(Scope, string), nat>
    var runs: seq<RunRow>

    ghost function Tables(): State
      reads this
    {
      State(identities, principals, conversations, locations, messages, runs)
    }

    constructor ()
      ensures Tables() == EMPTY
    {
      identities, principals, conversations := map[], map[], [];
      locations, messages, runs := map[], map[], [];
    }

    method CreatePrincipal(p: Id, owner: bool) returns (ok: bool)
      modifies this`principals
      ensures Tables() == ConversationsModel.CreatePrincipal(old(Tables()), p, owner)
      ensures ok <==> p in principals && principals[p] == owner
    {
      if p !in principals {
        principals := principals[p := owner];
      }
      ok := principals[p] == owner;
    }

    method BindPrincipal(identity: Identity, p: Id)
      modifies this`identities
      ensures Tables() == ConversationsModel.BindPrincipal(old(Tables()), identity, p)
    {
      if p in principals {
        identities := identities[identity := p];
      }
    }

    method BindOwner(identity: Identity, p: Id)
      modifies this`identities, this`principals
      ensures Tables() == ConversationsModel.BindOwner(old(Tables()), identity, p)
    {
      if p in principals && !principals[p] {
        return;
      }
      principals := principals[p := true];
      identities := identities[identity := p];
    }

    method Unbind(identity: Identity)
      modifies this`identities
      ensures Tables() == ConversationsModel.Unbind(old(Tables()), identity)
    {
      identities := identities - {identity};
    }

    method FindByKey(agentId: Id, key: StoredKey) returns (found: Option<nat>)
      ensures found == ByKey(conversations, agentId, key)
    {
      var i := |conversations|;
      assert conversations[..i] == conversations;
      while i > 0
        invariant i <= |conversations|
        invariant ByKey(conversations[..i], agentId, key) == ByKey(conversations, agentId, key)
      {
        assert conversations[..i][..i - 1] == conversations[..i - 1];
        i := i - 1;
        if conversations[i].agentId == agentId && conversations[i].key == key {
          return Some(i);
        }
      }
      found := None;
    }

    /** Newest first among the principal's Conversations, the first at this location. */
    method FindOwnAt(agentId: Id, p: Id, place: Place) returns (found: Option<nat>)
      ensures found == OwnAt(conversations, agentId, p, place)
    {
      var i := |conversations|;
      assert conversations[..i] == conversations;
      while i > 0
        invariant i <= |conversations|
        invariant OwnAt(conversations[..i], agentId, p, place) == OwnAt(conversations, agentId, p, place)
      {
        assert conversations[..i][..i - 1] == conversations[..i - 1];
        i := i - 1;
        if conversations[i].agentId == agentId && conversations[i].principalId == p
           && Auth.PlaceOf(conversations[i].scope) == place {
          return Some(i);
        }
      }
      found := None;
    }

    /** Finds, remaps or opens the Conversation; a taken stored key aborts the transaction. */
    method RouteMessage(agentId: Id, scope: Scope, p: Id) returns (conversation: Option<nat>)
      modifies this`conversations, this`locations
      ensures var routed := Route(old(Tables()), agentId, scope, p);
              if routed.None? then conversation.None? && Tables() == old(Tables())
              else conversation == Some(routed.value.1) && Tables() == routed.value.0
    {
      var place := Auth.PlaceOf(scope);
      var mapped := (agentId, place) in locations;
      if mapped && locations[(agentId, place)] < |conversations| {
        conversation := Some(locations[(agentId, place)]);
      } else if mapped {
        conversation := None;
      } else {
        conversation := FindByKey(agentId, AtPlace(place));
      }
      var remap := conversation.Some? && scope.chatType.Private? && conversations[conversation.value].principalId != p;
      if remap {
        conversation := FindOwnAt(agentId, p, place);
      } else if conversation.Some? && scope.chatType.Group? && conversations[conversation.value].principalId != p
                && p in principals && principals[p] {
        conversations := conversations[conversation.value := conversations[conversation.value].(principalId := p)];
      }
      if conversation.None? {
        var key := if remap then AtPlaceFor(place, p) else AtPlace(place);
        var taken := FindByKey(agentId, key);
        if taken.Some? {
          return None;
        }
        conversation := Some(|conversations|);
        locations := locations[(agentId, place) := |conversations|];
        conversations := conversations + [Conversation(agentId, p, key, scope, p)];
      } else if remap {
        if mapped {
          locations := locations[(agentId, place) := conversation.value];
        }
      } else if !mapped {
        locations := locations[(agentId, place) := conversation.value];
      }
    }

    method AcceptIncoming(agentId: Id, scope: Scope, externalId: string, allowed: bool) returns (out: Outcome)
      modifies this`conversations, this`locations, this`messages, this`runs
      ensures (Tables(), out) == ConversationsModel.AcceptIncoming(old(Tables()), agentId, scope, externalId, allowed)
    {
      var identity := Auth.IdentityOf(scope);
      if !allowed || identity !in identities {
        return Denied;
      }
      var p := identities[identity];
      if (scope, externalId) in messages {
        var run := messages[(scope, externalId)];
        if run >= |runs| || runs[run].principalId != p || runs[run].conversation >= |conversations|
           || conversations[runs[run].conversation].agentId != agentId {
          return Denied;
        }
        return Accepted(runs[run].conversation, run, true);
      }
      var conversation := RouteMessage(agentId, scope, p);
      if conversation.None? {
        return Conflict;
      }
      var run := |runs|;
      messages := messages[(scope, externalId) := run];
      runs := runs + [RunRow(conversation.value, p, scope, Some((scope, externalId)), None)];
      out := Accepted(conversation.value, run, false);
    }

    method FindStepRun(attempt: Id) returns (found: Option<nat>)
      ensures found == StepRunOf(runs, attempt)
    {
      var i := |runs|;
      assert runs[..i] == runs;
      while i > 0
        invariant i <= |runs|
        invariant StepRunOf(runs[..i], attempt) == StepRunOf(runs, attempt)
      {
        assert runs[..i][..i - 1] == runs[..i - 1];
        i := i - 1;
        if runs[i].attempt == Some(attempt) {
          return Some(i);
        }
      }
      found := None;
    }

    method CreateInternalStepRun(attempt: Id, c: nat, p: Id, scope: Scope, allowed: bool) returns (out: Outcome)
      modifies this`runs
      ensures (Tables(), out) == CreateStepRun(old(Tables()), attempt, c, p, scope, allowed)
    {
      if !allowed || c >= |conversations| {
        return Denied;
      }
      var place := Auth.PlaceOf(scope);
      var here := conversations[c].key == AtPlace(place)
                  || (exists k :: k in locations && k.1 == place && locations[k] == c)
                  || Auth.PlaceOf(conversations[c].scope) == place;
      assert here == AtCallerLocation(Tables(), c, scope);
      if !here || (conversations[c].scope.chatType.Private? && p != conversations[c].ownerId) {
        return Denied;
      }
      var existing := FindStepRun(attempt);
      if existing.Some? {
        var run := runs[existing.value];
        if run.message.Some? || run.conversation != c || run.principalId != p {
          return Denied;
        }
        return Accepted(c, existing.value, true);
      }
      out := Accepted(c, |runs|, false);
      runs := runs + [RunRow(c, p, conversations[c].scope, None, Some(attempt))];
    }
  }
}
