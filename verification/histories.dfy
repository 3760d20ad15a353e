/** What a history is, part by part: its events one after another, each its transaction or nothing. */
module Histories {
  import opened Options
  import Auth = AuthModel
  import Both = DeliveryTransactions
  import Conversations = ConversationsModel
  import Keys = CanonicalKeys
  import Lifecycle = LifecycleModel
  import Memory = MemoryModel
  import Profiles = ProfilesModel
  import Provenance = ProvenanceModel

  // ---------------------------------------------------------------------------------------
  // One event after another

  lemma {:induction false} LifecycleGrows(s: Lifecycle.State, es: seq<Lifecycle.Event>, e: Lifecycle.Event)
    ensures Lifecycle.After(s, []) == s && Lifecycle.After(s, es + [e]) == Lifecycle.Step(Lifecycle.After(s, es), e)
    decreases |es|
  {
    if es == [] {
      assert es + [e] == [e] && [e][1..] == [];
    } else {
      assert (es + [e])[1..] == es[1..] + [e];
      LifecycleGrows(Lifecycle.Step(s, es[0]), es[1..], e);
    }
  }

  lemma {:induction false} AuthGrows(s: Auth.State, es: seq<Auth.Event>, e: Auth.Event)
    ensures Auth.After(s, []) == s && Auth.After(s, es + [e]) == Auth.Step(Auth.After(s, es), e)
    decreases |es|
  {
    if es == [] {
      assert es + [e] == [e] && [e][1..] == [];
    } else {
      assert (es + [e])[1..] == es[1..] + [e];
      AuthGrows(Auth.Step(s, es[0]), es[1..], e);
    }
  }

  lemma {:induction false} ProvenanceGrows(s: Provenance.State, es: seq<Provenance.Event>, e: Provenance.Event)
    ensures Provenance.After(s, []) == s && Provenance.After(s, es + [e]) == Provenance.Step(Provenance.After(s, es), e)
    decreases |es|
  {
    if es == [] {
      assert es + [e] == [e] && [e][1..] == [];
    } else {
      assert (es + [e])[1..] == es[1..] + [e];
      ProvenanceGrows(Provenance.Step(s, es[0]), es[1..], e);
    }
  }

  lemma {:induction false} ConversationsGrows(s: Conversations.State, es: seq<Conversations.Event>, e: Conversations.Event)
    ensures Conversations.After(s, []) == s && Conversations.After(s, es + [e]) == Conversations.Step(Conversations.After(s, es), e)
    decreases |es|
  {
    if es == [] {
      assert es + [e] == [e] && [e][1..] == [];
    } else {
      assert (es + [e])[1..] == es[1..] + [e];
      ConversationsGrows(Conversations.Step(s, es[0]), es[1..], e);
    }
  }

  lemma {:induction false} MemoryGrows(s: Memory.State, es: seq<Memory.Event>, e: Memory.Event)
    ensures Memory.After(s, []) == s && Memory.After(s, es + [e]) == Memory.Step(Memory.After(s, es), e)
    decreases |es|
  {
    if es == [] {
      assert es + [e] == [e] && [e][1..] == [];
    } else {
      assert (es + [e])[1..] == es[1..] + [e];
      MemoryGrows(Memory.Step(s, es[0]), es[1..], e);
    }
  }

  lemma {:induction false} ProfilesGrows(s: Profiles.Settings, es: seq<Profiles.Event>, e: Profiles.Event)
    ensures Profiles.After(s, []) == s && Profiles.After(s, es + [e]) == Profiles.Step(Profiles.After(s, es), e)
    decreases |es|
  {
    if es == [] {
      assert es + [e] == [e] && [e][1..] == [];
    } else {
      assert (es + [e])[1..] == es[1..] + [e];
      ProfilesGrows(Profiles.Step(s, es[0]), es[1..], e);
    }
  }

  // ---------------------------------------------------------------------------------------
  // Each event its transaction

  /** What a transaction leaves: its state, or, where it was refused, the state before. */
  ghost function Left<S, X>(s: S, r: Option<(S, X)>): S { if r.Some? then r.value.0 else s }

  ghost function LeftBy<S>(s: S, r: Option<S>): S { if r.Some? then r.value else s }

  lemma CandidatesDo(s: Memory.State, cid: Memory.Id, c: Memory.Candidate, twin: Option<Memory.Id>, contradicting: bool,
                     sources: set<Memory.Key>)
    ensures Memory.Step(s, Memory.EInsert(cid, c, twin)) == Left(s, Memory.InsertCandidate(s, cid, c, twin))
    ensures Memory.Step(s, Memory.EReject(cid)) == LeftBy(s, Memory.Reject(s, cid))
    ensures Memory.Step(s, Memory.EFeedback(cid, contradicting, sources)) == LeftBy(s, Memory.Feedback(s, cid, contradicting, sources))
  {
  }

  lemma PromotionsDo(s: Memory.State, cid: Memory.Id, newId: Memory.Id, text: string, now: int)
    ensures Memory.Step(s, Memory.EPromote(cid, newId, text, now, false)) == Left(s, Memory.Promote(s, cid, newId, text, now))
    ensures Memory.Step(s, Memory.EPromote(cid, newId, text, now, true)) == Left(s, Memory.PromoteCandidate(s, cid, newId, text, now))
  {
  }

  lemma CorrectionsDo(s: Memory.State, id: Memory.Id, cid: Memory.Id, c: Memory.Candidate, newId: Memory.Id, now: int)
    ensures Memory.Step(s, Memory.ESupersede(id, cid, c, newId, now)) == Left(s, Memory.Supersede(s, id, cid, c, newId, now))
  {
  }

  lemma EditsDo(s: Memory.State, id: Memory.Id, statement: string, text: string, ttl: Option<nat>, state: Memory.Lifecycle, now: int)
    ensures Memory.Step(s, Memory.EUpdate(id, statement, text, ttl, now)) == LeftBy(s, Memory.Update(s, id, statement, text, ttl, now))
    ensures Memory.Step(s, Memory.ESetLifecycle(id, state, now)) == LeftBy(s, Memory.SetLifecycle(s, id, state, now))
    ensures Memory.Step(s, Memory.EMarkUsed(id, now)) == LeftBy(s, Memory.MarkUsed(s, id, now))
  {
  }

  lemma ProfilesDo(s: Profiles.Settings, p: Profiles.Profile, secret: Profiles.SecretInput, slot: Profiles.Slot, vetoed: bool, text: string)
    ensures Profiles.Step(s, Profiles.ESaveModel(p, secret, slot)) == LeftBy(s, Profiles.SaveModel(s, p, secret, slot))
    ensures Profiles.Step(s, Profiles.ESaveChannel(p, secret, slot, vetoed)) == LeftBy(s, Profiles.SaveChannel(s, p, secret, slot, vetoed))
    ensures Profiles.Step(s, Profiles.EEditChannel(p.id, text)) == LeftBy(s, Profiles.EditChannel(s, p.id, text))
  {
  }

  lemma ConversationsDo(s: Conversations.State, i: Conversations.Identity, p: Conversations.Id, owner: bool, agentId: Conversations.Id,
                        scope: Keys.Scope, x: string, attempt: Conversations.Id, c: nat, allowed: bool)
    ensures Conversations.Step(s, Conversations.ECreatePrincipal(p, owner)) == Conversations.CreatePrincipal(s, p, owner)
    ensures Conversations.Step(s, Conversations.EBindPrincipal(i, p)) == Conversations.BindPrincipal(s, i, p)
    ensures Conversations.Step(s, Conversations.EBindOwner(i, p)) == Conversations.BindOwner(s, i, p)
    ensures Conversations.Step(s, Conversations.EUnbind(i)) == Conversations.Unbind(s, i)
    ensures Conversations.Step(s, Conversations.EIncoming(agentId, scope, x, allowed))
            == Conversations.AcceptIncoming(s, agentId, scope, x, allowed).0
    ensures Conversations.Step(s, Conversations.EStep(attempt, c, p, scope, allowed))
            == Conversations.CreateStepRun(s, attempt, c, p, scope, allowed).0
  {
  }

  lemma EvaluationsDo(s: Auth.State, req: Auth.Request, of: Option<nat>, now: int, reason: Auth.Reason)
    ensures Auth.Step(s, Auth.EEvaluate(req, of, now)) == Auth.Evaluate(s, req, of, now).0
    ensures Auth.Step(s, Auth.ERefuse(req, reason)) == Auth.Record(s, req, Auth.Refusal(reason))
  {
  }

  lemma MarksDo(s: Auth.State, d: nat, mark: Auth.Mark, c: Auth.Id, r: Auth.Id, receipts: seq<Auth.ReadReceipt>,
                action: Option<Auth.Request>, now: int)
    ensures Auth.Step(s, Auth.EMark(d, mark)) == Auth.SetMark(s, d, mark)
    ensures Auth.Step(s, Auth.ELink(d, c, r)) == Auth.LinkDecision(s, d, c, r)
    ensures Auth.Step(s, Auth.ECompleteReads(receipts, action, now)) == Auth.CompleteReads(s, receipts, action, now).0
  {
  }

  lemma PoliciesDo(s: Auth.State, t: Auth.Tuple, e: Auth.Effect, first: bool, sel: Auth.Selector, d: nat, until: int,
                   entries: seq<Auth.Entry>, env: Auth.Environment, now: int)
    ensures Auth.Step(s, Auth.EGrant(t, e, first)) == s.(grants := Auth.WriteGrant(s.grants, t, e, first))
    ensures Auth.Step(s, Auth.ERevoke(sel)) == s.(grants := Auth.Revoke(s.grants, sel))
    ensures Auth.Step(s, Auth.EApprove(d, until, now)) == Auth.Approve(s, d, until, now)
    ensures Auth.Step(s, Auth.EBackfill(t.resourceId, t.action)) == s.(grants := Auth.BackfillDelivery(s.grants, t.resourceId, t.action))
    ensures Auth.Step(s, Auth.EEnvironment(env)) == s.(env := env)
  {
  }

  lemma ProvisioningDoes(s: Auth.State, p: Auth.Id, k: Keys.Scope, entries: seq<Auth.Entry>, first: bool, now: int)
    ensures Auth.Step(s, Auth.EProvision(p, k, entries, first, now)) == Auth.Provision(s, p, k, entries, first, now)
  {
  }

  lemma ProvenanceDoes(s: Provenance.State, a: Auth.Event, at: nat, caller: Provenance.Caller, allowed: bool, bound: Option<Auth.Id>,
                       deps: seq<Provenance.Dependency>, r: Auth.Id, way: Provenance.DeliveryStep, sent: Provenance.SentDelivery, now: int)
    ensures Provenance.MayHappen(s.ledger, a) ==> Provenance.Step(s, Provenance.ELedger(a)).ledger == Auth.Step(s.ledger, a)
    ensures Provenance.Step(s, Provenance.ELoad(caller, at, allowed, bound, deps, now))
            == Provenance.LoadRunInput(s, caller, at, allowed, bound, deps, now).0
    ensures Provenance.Step(s, Provenance.EDeliver(way, caller, r, allowed, now))
            == s.(ledger := Provenance.DeliveryGate(s.ledger, caller, r, allowed, now).0)
    ensures Provenance.Step(s, Provenance.ESent(sent)) == s.(sent := s.sent + [sent])
  {
  }

  /** A Run is known to later ones from when it is accepted, once, for the principal and Conversation of its row. */
  lemma TurnsDo(s: Provenance.State, t: Provenance.Turn, row: Auth.RunRow, at: nat, status: Lifecycle.RunStatus, text: Option<string>)
    ensures var u := Provenance.Step(s, Provenance.EAccept(t, row));
            if t.id !in s.ledger.env.runs && (forall i :: 0 <= i < |s.ledger.decisions| ==> s.ledger.decisions[i].runId != Some(t.id))
               && row.principalId == t.principalId && row.conversationId == t.conversationId
            then u == s.(turns := s.turns + [t], ledger := s.ledger.(env := s.ledger.env.(runs := s.ledger.env.runs[t.id := row])))
            else u == s
    ensures Provenance.Step(s, Provenance.ESettle(at, status, text)).turns
            == if at < |s.turns| then s.turns[at := s.turns[at].(status := status, resultText := text)] else s.turns
    ensures Provenance.Step(s, Provenance.EExclude(at)).turns
            == if at < |s.turns| then s.turns[at := s.turns[at].(excluded := true)] else s.turns
  {
    if i: nat :| i < |s.ledger.decisions| && s.ledger.decisions[i].runId == Some(t.id) {
      assert s.ledger.decisions[i] in s.ledger.decisions;
    }
  }

  lemma BothDo(b: Both.Both, a: Lifecycle.Event, e: Provenance.Event, caller: Provenance.Caller, now: int, written: Both.Writing)
    ensures !Both.Sends(a) && !a.EAcceptRun? ==>
              Both.Step(b, Both.Tables(a), written).tables == Lifecycle.Step(b.tables, a)
    ensures !e.EAccept? && !e.ESettle? && !e.EDeliver? ==>
              Both.Step(b, Both.Reading(e), written) == b.(reading := Provenance.Step(b.reading, e))
    ensures Both.Sends(a) ==> Both.Step(b, Both.Deliver(a, caller, now), written) == Both.Perform(b, a, caller, now, written).0
  {
  }

  /** A Run is accepted on both sides, if it is new to both, or on neither. */
  lemma BothAccept(b: Both.Both, t: Provenance.Turn, row: Auth.RunRow, scope: Keys.Scope, written: Both.Writing)
    requires t.status.Queued? && t.resultText.None?
    ensures var (u, r) := (Both.Step(b, Both.Accept(t, row, scope), written), Provenance.Step(b.reading, Provenance.EAccept(t, row)));
            if t.id in b.tables.runs || r == b.reading then u == b
            else
              && u.reading == r && t.id in u.tables.runs
              && u.tables.runs[t.id].conversationId == t.conversationId && u.tables.runs[t.id].principalId == t.principalId
              && (u.tables.runs[t.id].source.External? <==> t.external) && u.tables.runs[t.id].scopeKey == written(scope)
  {
    assert t.(status := Lifecycle.RunStatus.Queued, resultText := None) == t;
  }

  lemma {:induction false} BothGrow(b: Both.Both, es: seq<Both.Event>, e: Both.Event, written: Both.Writing)
    ensures Both.After(b, [], written) == b && Both.After(b, es + [e], written) == Both.Step(Both.After(b, es, written), e, written)
    decreases |es|
  {
    if es == [] {
      assert es + [e] == [e] && [e][1..] == [];
    } else {
      assert (es + [e])[1..] == es[1..] + [e];
      BothGrow(Both.Step(b, es[0], written), es[1..], e, written);
    }
  }
}
