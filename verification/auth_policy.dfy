/** What each change of policy leaves of the grants, row by row, and what becomes allowed by it. */
module AuthPolicy {
  import opened Options
  import opened CanonicalKeys
  import opened AuthModel
  import opened AuthEvaluation

  // ---------------------------------------------------------------------------------------
  // Revoking

  /** The row is one the selector names: each field the selector states is the row's. */
  ghost predicate Named(sel: Selector, i: nat, t: Tuple) {
    || (sel.OneGrant? && i == sel.id)
    || (sel.InScope? && t.principalId == sel.principalId && t.resourceId == sel.resourceId && t.scope == sel.scope)
    || (sel.OneAction? && t.principalId == sel.tuple.principalId && t.resourceId == sel.tuple.resourceId
        && t.action == sel.tuple.action && t.scope == sel.tuple.scope)
    || (sel.OfSender? && t.scope.connectionId == sel.connectionId && t.scope.botId == sel.botId && t.scope.senderId == sel.senderId)
    || (sel.OfResource? && t.resourceId == sel.resourceId)
    || (sel.AtLocation? && t.scope.connectionId == sel.connectionId && t.scope.botId == sel.botId
        && t.scope.chatType == sel.chatType && t.scope.chatId == sel.chatId)
  }

  /** A revocation revokes the rows it names, each with its facts kept, and leaves every other row as it is. */
  lemma RevokesExactly(gs: seq<Grant>, sel: Selector)
    ensures |Revoke(gs, sel)| == |gs|
    ensures forall i :: 0 <= i < |gs| ==>
              Revoke(gs, sel)[i] == if Named(sel, i, gs[i].tuple) then Grant(gs[i].tuple, gs[i].effect, true) else gs[i]
  {
    forall i | 0 <= i < |gs| ensures Selects(sel, i, gs[i].tuple) <==> Named(sel, i, gs[i].tuple) {
    }
  }

  /** What was allowed outright on a row the revocation does not name is allowed still: another action on the same
      Resource, another sender, another place. */
  lemma {:induction false} SiblingsStayAllowed(s: State, sel: Selector, req: Request, completed: Option<nat>, now: int, row: nat)
    requires Judge(s, req, completed, now).reason.ExplicitGrant? && Judge(s, req, completed, now).grant == Some(row) && row < |s.grants|
    requires !Named(sel, row, s.grants[row].tuple)
    ensures Judge(Step(s, ERevoke(sel)), req, completed, now).reason.ExplicitGrant?
  {
    var t := Step(s, ERevoke(sel));
    assert MayAsk(s, req) && RouteIsOpen(s.env, req.tuple, req.route) && Allows(s, req.tuple, row) by {
      AllowedOn(s, req, completed, now, row);
    }
    assert Allows(t, req.tuple, row) by {
      RowsStay(s, sel, req.tuple, row);
    }
    StillAllowed(s, t, req, completed, now, row);
  }

  /** The row allows by itself. */
  ghost predicate Allows(s: State, u: Tuple, row: nat) {
    Stood(s, u, AllowEffect, row) || (PolicyStands(s, u, row) && !IsLive(s, u, ApprovalEffect))
  }

  lemma AllowedOn(s: State, req: Request, completed: Option<nat>, now: int, row: nat)
    requires Judge(s, req, completed, now).reason.ExplicitGrant? && Judge(s, req, completed, now).grant == Some(row)
    ensures MayAsk(s, req) && RouteIsOpen(s.env, req.tuple, req.route) && Allows(s, req.tuple, row)
  {
    AllowedOutrightExactlyWhen(s, req, completed, now);
  }

  lemma RowsStay(s: State, sel: Selector, u: Tuple, row: nat)
    requires row < |s.grants| && !Named(sel, row, s.grants[row].tuple) && Allows(s, u, row)
    ensures Allows(Step(s, ERevoke(sel)), u, row)
  {
    var t := Step(s, ERevoke(sel));
    RevokesExactly(s.grants, sel);
    assert t.grants[row] == s.grants[row];
    if n: nat :| Stood(t, u, ApprovalEffect, n) {
      assert Stood(s, u, ApprovalEffect, n);
    }
  }

  lemma StillAllowed(s: State, t: State, req: Request, completed: Option<nat>, now: int, row: nat)
    requires t.env == s.env && MayAsk(s, req) && RouteIsOpen(s.env, req.tuple, req.route) && Allows(t, req.tuple, row)
    ensures Judge(t, req, completed, now).reason.ExplicitGrant?
  {
    AllowedOutrightExactlyWhen(t, req, completed, now);
  }

  // ---------------------------------------------------------------------------------------
  // Granting and approving

  /** A grant adds one live row of its own and nothing else, unless such a row is live, or the mode is initial and the
      tuple ever had a row; then it adds nothing. */
  lemma GrantsExactly(s: State, t: Tuple, e: Effect, initialOnly: bool)
    ensures WriteGrant(s.grants, t, e, initialOnly)
            == if IsLive(s, t, e) || (initialOnly && exists i :: 0 <= i < |s.grants| && s.grants[i].tuple == t) then s.grants
               else s.grants + [Grant(t, e, false)]
  {
    FirstLiveExactly(s, t, e);
  }

  /** An approval is added if and only if it has time left and its grant is live and asks for approval. */
  lemma ApprovesExactlyWhen(s: State, grant: nat, expiresAt: int, now: int)
    ensures Approve(s, grant, expiresAt, now)
            == if now < expiresAt && grant < |s.grants| && s.grants[grant].effect.ApprovalEffect? && !s.grants[grant].revoked
               then s.(approvals := s.approvals + [Approval(grant, s.grants[grant].tuple, expiresAt, false)]) else s
  {
  }

  // ---------------------------------------------------------------------------------------
  // Provisioning

  /** Rows are only added, each a live allow row for one of the entries. */
  ghost predicate AddedFor(gs: seq<Grant>, gt: seq<Grant>, p: Id, k: Scope, entries: seq<Entry>) {
    && gs <= gt
    && forall i :: |gs| <= i < |gt| ==>
         && !gt[i].revoked && gt[i].effect.AllowEffect? && gt[i].tuple.principalId == p && gt[i].tuple.scope == k
         && ForOne(entries, gt[i].tuple)
  }

  ghost predicate ForOne(entries: seq<Entry>, t: Tuple) {
    exists e :: e in entries && t.resourceId == e.resourceId && t.action == e.action
  }

  /** The entry's action is the owner's by a live allow row, or its tuple had a row before and provisioning is initial,
      or it is a Task's, which the Task policy may allow. */
  ghost predicate Provided(gs: seq<Grant>, t: State, p: Id, k: Scope, e: Entry, initialOnly: bool) {
    var u := Tuple(p, e.resourceId, e.action, k);
    || IsLive(t, u, AllowEffect)
    || (initialOnly && exists i :: 0 <= i < |gs| && gs[i].tuple == u)
    || e.resource.kind == "task"
  }

  /** Without an approval or a Run to look at, only a grant allows. */
  lemma PlainlyAllowed(s: State, req: Request, now: int)
    requires req.approvalId.None? && req.runId.None? && Judge(s, req, None, now).verdict.Allow?
    ensures IsLive(s, req.tuple, AllowEffect)
            || (req.tuple.resourceId in s.env.resources && s.env.resources[req.tuple.resourceId].kind == "task")
  {
    AllowedOutrightExactlyWhen(s, req, None, now);
  }

  lemma ProvisioningOne(s: State, p: Id, k: Scope, e: Entry, initialOnly: bool, now: int)
    requires ProvisionOne(s, p, k, e, initialOnly, now).Some?
    ensures var t := ProvisionOne(s, p, k, e, initialOnly, now).value;
            && AddedFor(s.grants, t.grants, p, k, [e]) && Provided(s.grants, t, p, k, e, initialOnly)
  {
    var env := RegisterResource(s.env, e).value;
    var t, req := s.(env := env), EntryRequest(p, k, e);
    var u, j := Evaluate(t, req, None, now).0, Judge(t, req, None, now);
    var v := ProvisionOne(s, p, k, e, initialOnly, now).value;
    assert e in [e] && env.resources[e.resourceId] == e.resource && u.grants == s.grants;
    if j.verdict.Allow? {
      PlainlyAllowed(t, req, now);
      LiveAlike(t, v, req.tuple);
    } else {
      GrantsExactly(u, req.tuple, AllowEffect, initialOnly);
      LiveAlike(u, v, req.tuple);
      if v.grants != u.grants {
        assert Stood(v, req.tuple, AllowEffect, |u.grants|);
      }
    }
  }

  lemma LiveAlike(s: State, t: State, u: Tuple)
    requires s.grants <= t.grants
    ensures IsLive(s, u, AllowEffect) ==> IsLive(t, u, AllowEffect)
  {
    if i: nat :| Stood(s, u, AllowEffect, i) {
      assert t.grants[i] == s.grants[i] && Stood(t, u, AllowEffect, i);
    }
  }

  lemma {:induction false} ProvisioningAll(s: State, p: Id, k: Scope, entries: seq<Entry>, initialOnly: bool, now: int)
    requires ProvisionAll(s, p, k, entries, initialOnly, now).Some?
    ensures var t := ProvisionAll(s, p, k, entries, initialOnly, now).value;
            && AddedFor(s.grants, t.grants, p, k, entries)
            && forall e :: e in entries ==> Provided(s.grants, t, p, k, e, initialOnly)
    decreases |entries|
  {
    if entries != [] {
      var u, rest := ProvisionOne(s, p, k, entries[0], initialOnly, now).value, entries[1..];
      var t := ProvisionAll(s, p, k, entries, initialOnly, now).value;
      ProvisioningOne(s, p, k, entries[0], initialOnly, now);
      ProvisioningAll(u, p, k, rest, initialOnly, now);
      AddedInTurn(s.grants, u.grants, t.grants, p, k, entries);
      forall e | e in entries ensures Provided(s.grants, t, p, k, e, initialOnly) {
        StaysProvided(s.grants, u, t, p, k, e, entries, initialOnly);
      }
    }
  }

  lemma AddedInTurn(gs: seq<Grant>, gu: seq<Grant>, gt: seq<Grant>, p: Id, k: Scope, entries: seq<Entry>)
    requires entries != [] && AddedFor(gs, gu, p, k, [entries[0]]) && AddedFor(gu, gt, p, k, entries[1..])
    ensures AddedFor(gs, gt, p, k, entries)
  {
    forall i | |gs| <= i < |gt|
      ensures !gt[i].revoked && gt[i].effect.AllowEffect? && gt[i].tuple.principalId == p && gt[i].tuple.scope == k
              && ForOne(entries, gt[i].tuple)
    {
      if i < |gu| {
        assert gt[i] == gu[i];
        assert entries[0] in entries;
      } else {
        assert ForOne(entries[1..], gt[i].tuple);
        var e :| e in entries[1..] && gt[i].tuple.resourceId == e.resourceId && gt[i].tuple.action == e.action;
        assert e in entries;
      }
    }
  }

  lemma StaysProvided(gs: seq<Grant>, u: State, t: State, p: Id, k: Scope, e: Entry, entries: seq<Entry>, initialOnly: bool)
    requires entries != [] && e in entries && u.grants <= t.grants
    requires AddedFor(gs, u.grants, p, k, [entries[0]]) && Provided(gs, u, p, k, entries[0], initialOnly)
    requires e in entries[1..] ==> Provided(u.grants, t, p, k, e, initialOnly)
    ensures Provided(gs, t, p, k, e, initialOnly)
  {
    var v := Tuple(p, e.resourceId, e.action, k);
    LiveAlike(u, t, v);
    if e in entries[1..] && !IsLive(t, v, AllowEffect) && e.resource.kind != "task" {
      var i: nat :| i < |u.grants| && u.grants[i].tuple == v;
      if i < |gs| {
        assert gs[i] == u.grants[i];
      } else {
        assert Stood(u, v, AllowEffect, i);
      }
    } else {
      assert e in entries[1..] || e == entries[0];
    }
  }

  /** A batch that goes through leaves every entry's action with the owner: by a live allow row, unless provisioning is
      initial and the tuple ever had a row, which stays what it was, or the entry is a Task's. It adds nothing but live
      allow rows for its entries, and no row of before changes. */
  lemma ProvisionedOwnersAreAllowed(s: State, p: Id, k: Scope, entries: seq<Entry>, initialOnly: bool, now: int)
    requires |entries| <= 128 && ProvisionAll(s, p, k, entries, initialOnly, now).Some?
    ensures var t := Step(s, EProvision(p, k, entries, initialOnly, now));
            && AddedFor(s.grants, t.grants, p, k, entries)
            && forall e :: e in entries ==> Provided(s.grants, t, p, k, e, initialOnly)
  {
    ProvisioningAll(s, p, k, entries, initialOnly, now);
  }

  /** The entry's Resource is new, or stored as the entry describes it, which the entry says is all right. */
  ghost predicate Registers(env: Environment, e: Entry) {
    e.resourceId in env.resources ==> e.ifAbsent && env.resources[e.resourceId] == e.resource
  }

  /** Every entry registers where the table stands, and agrees with those before it in the batch. */
  ghost predicate BatchRegisters(env: Environment, entries: seq<Entry>) {
    && (forall i :: 0 <= i < |entries| ==> Registers(env, entries[i]))
    && forall i, j :: 0 <= i < j < |entries| && entries[i].resourceId == entries[j].resourceId ==>
         entries[j].ifAbsent && entries[i].resource == entries[j].resource
  }

  lemma FirstRegisters(env: Environment, after: Environment, entries: seq<Entry>)
    requires entries != [] && Registers(env, entries[0])
    requires after == env.(resources := env.resources[entries[0].resourceId := entries[0].resource])
    ensures BatchRegisters(env, entries) <==> BatchRegisters(after, entries[1..])
  {
    var rest := entries[1..];
    if BatchRegisters(env, entries) {
      forall i | 0 <= i < |rest| ensures Registers(after, rest[i]) {
        assert rest[i] == entries[i + 1] && Registers(env, entries[i + 1]);
      }
      forall i, j | 0 <= i < j < |rest| && rest[i].resourceId == rest[j].resourceId
        ensures rest[j].ifAbsent && rest[i].resource == rest[j].resource
      {
        assert entries[i + 1].resourceId == entries[j + 1].resourceId;
      }
    }
    if BatchRegisters(after, rest) {
      forall i | 0 <= i < |entries| ensures Registers(env, entries[i]) {
        assert i > 0 ==> entries[i] == rest[i - 1] && Registers(after, rest[i - 1]);
      }
      forall i, j | 0 <= i < j < |entries| && entries[i].resourceId == entries[j].resourceId
        ensures entries[j].ifAbsent && entries[i].resource == entries[j].resource
      {
        assert entries[j] == rest[j - 1] && Registers(after, rest[j - 1]);
        assert i > 0 ==> entries[i] == rest[i - 1];
      }
    }
  }

  /** One entry: registered, and granted if and only if it is not allowed already and the grant leaves room. */
  lemma ProvisionsOneExactly(s: State, p: Id, k: Scope, e: Entry, initialOnly: bool, now: int)
    ensures var r := ProvisionOne(s, p, k, e, initialOnly, now);
            && (r.Some? <==> Registers(s.env, e))
            && (r.Some? ==>
                  var (t, u) := (s.(env := r.value.env), Tuple(p, e.resourceId, e.action, k));
                  && t.env == s.env.(resources := s.env.resources[e.resourceId := e.resource])
                  && r.value.grants
                     == if Judge(t, Request(u, None, None, None, None, Unstated), None, now).verdict == Allow || IsLive(s, u, AllowEffect)
                           || (initialOnly && exists i :: 0 <= i < |s.grants| && s.grants[i].tuple == u)
                        then s.grants else s.grants + [Grant(u, AllowEffect, false)])
  {
    if Registers(s.env, e) {
      var env := RegisterResource(s.env, e).value;
      assert env.resources == s.env.resources[e.resourceId := e.resource];
      var t := Evaluate(s.(env := env), EntryRequest(p, k, e), None, now).0;
      GrantsExactly(t, Tuple(p, e.resourceId, e.action, k), AllowEffect, initialOnly);
      SameRowsLive(s, t, Tuple(p, e.resourceId, e.action, k));
    }
  }

  lemma SameRowsLive(s: State, t: State, u: Tuple)
    requires t.grants == s.grants
    ensures IsLive(t, u, AllowEffect) <==> IsLive(s, u, AllowEffect)
  {
    if i: nat :| Stood(s, u, AllowEffect, i) {
      assert Stood(t, u, AllowEffect, i);
    }
    if i: nat :| Stood(t, u, AllowEffect, i) {
      assert Stood(s, u, AllowEffect, i);
    }
  }

  lemma {:induction false} ProvisionsAllExactlyWhen(s: State, p: Id, k: Scope, entries: seq<Entry>, initialOnly: bool, now: int)
    ensures ProvisionAll(s, p, k, entries, initialOnly, now).Some? <==> BatchRegisters(s.env, entries)
    decreases |entries|
  {
    if entries != [] {
      ProvisionsOneExactly(s, p, k, entries[0], initialOnly, now);
      var t := ProvisionOne(s, p, k, entries[0], initialOnly, now);
      if t.Some? {
        FirstRegisters(s.env, t.value.env, entries);
        ProvisionsAllExactlyWhen(t.value, p, k, entries[1..], initialOnly, now);
      }
    }
  }

  /** A batch changes anything if and only if it has at most 128 entries and all of them register, with what is stored and
      with each other; otherwise everything stays. */
  lemma BatchesGoThroughExactlyWhen(s: State, p: Id, k: Scope, entries: seq<Entry>, initialOnly: bool, now: int)
    ensures var t := Step(s, EProvision(p, k, entries, initialOnly, now));
            if |entries| <= 128 && BatchRegisters(s.env, entries) then
              |t.decisions| == |s.decisions| + |entries| && forall e :: e in entries ==> e.resourceId in t.env.resources
            else t == s
  {
    ProvisionsAllExactlyWhen(s, p, k, entries, initialOnly, now);
    if |entries| <= 128 && BatchRegisters(s.env, entries) {
      ProvisioningRecords(s, p, k, entries, initialOnly, now);
    }
  }

  lemma {:induction false} ProvisioningRecords(s: State, p: Id, k: Scope, entries: seq<Entry>, initialOnly: bool, now: int)
    requires ProvisionAll(s, p, k, entries, initialOnly, now).Some?
    ensures var t := ProvisionAll(s, p, k, entries, initialOnly, now).value;
            && |t.decisions| == |s.decisions| + |entries| && s.env.resources.Keys <= t.env.resources.Keys
            && forall e :: e in entries ==> e.resourceId in t.env.resources
    decreases |entries|
  {
    if entries != [] {
      ProvisionsOneExactly(s, p, k, entries[0], initialOnly, now);
      var t := ProvisionOne(s, p, k, entries[0], initialOnly, now).value;
      ProvisioningRecords(t, p, k, entries[1..], initialOnly, now);
    }
  }
}
