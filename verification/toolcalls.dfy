/** Per-turn accounting of tool results, and the bounded retry of identical tool calls. */
module ToolCalls {
  import opened Options
  import ContextBudget

  datatype ResultClass = External | Local | Artifact | Error | Control | Unknown

  datatype Projection = Full | Compact | Reference | OmitDuplicate

  /** Texts are given by their token estimates; None is a text the caller did not supply. */
  datatype ToolResult = ToolResult(callId: string, resultClass: ResultClass, projection: Projection,
                                   text: Option<nat>, projectedText: Option<nat>, evidenceRef: Option<nat>,
                                   metadataTokens: nat, required: bool)

  datatype Classification = Content(contentTokens: nat) | Evidence(evidenceTokens: nat) | Omitted | Unavailable

  function Classify(r: ToolResult): Classification {
    match r.projection
    case OmitDuplicate => Omitted
    // An empty reference is no reference; an estimate of zero means the empty text.
    case Reference =>
      if r.evidenceRef.Some? && r.evidenceRef.value > 0 then Evidence(r.evidenceRef.value + r.metadataTokens) else Unavailable
    case Compact => if r.projectedText.Some? then Content(r.projectedText.value + r.metadataTokens) else Unavailable
    case Full => if r.text.Some? then Content(r.text.value + r.metadataTokens) else Unavailable
  }

  function TokensOf(r: ToolResult): nat {
    match Classify(r)
    case Content(n) => n
    case Evidence(n) => n
    case _ => 0
  }

  datatype Policy = Policy(perTurnTokens: int, singleResultTokens: map<ResultClass, int>)

  predicate ValidPolicy(p: Policy) {
    && 0 <= p.perTurnTokens <= ContextBudget.MAX_SAFE_INTEGER
    && forall c :: c in p.singleResultTokens ==> 0 <= p.singleResultTokens[c] <= ContextBudget.MAX_SAFE_INTEGER
  }

  datatype Call = Call(callId: string, tokens: nat, admitted: bool)

  datatype Outcome =
    | InvalidBudget
    | ProjectionMissing(missingId: string)
    | ExceedsBudget(excessId: string)
    | Turn(calls: seq<Call>, usedTokens: nat, overflowCallIds: seq<string>,
           callsByClass: map<ResultClass, nat>, tokensByClass: map<ResultClass, nat>)

  predicate MustPreserve(r: ToolResult) {
    r.required || r.resultClass.Error? || r.resultClass.Control?
  }

  /** First come, first served: a result is admitted when it is available and fits both its own
      limit and what the results before it left of the turn. */
  ghost function Decisions(rs: seq<ToolResult>, p: Policy): (calls: seq<Call>)
    ensures |calls| == |rs|
  {
    if rs == [] then []
    else
      var front, r := rs[..|rs| - 1], rs[|rs| - 1];
      Decisions(front, p) + [Call(r.callId, TokensOf(r), Fits(r, p, Used(front, p)))]
  }

  ghost predicate Fits(r: ToolResult, p: Policy, used: int) {
    && !Classify(r).Unavailable?
    && r.resultClass in p.singleResultTokens
    && TokensOf(r) <= p.singleResultTokens[r.resultClass]
    && TokensOf(r) <= p.perTurnTokens - used
  }

  ghost function Used(rs: seq<ToolResult>, p: Policy): nat
    decreases |rs|, 0
  {
    if rs == [] then 0
    else
      var front, r := rs[..|rs| - 1], rs[|rs| - 1];
      Used(front, p) + if Fits(r, p, Used(front, p)) then TokensOf(r) else 0
  }

  ghost function UsedBy(rs: seq<ToolResult>, p: Policy, c: ResultClass): nat {
    if rs == [] then 0
    else
      var front, r := rs[..|rs| - 1], rs[|rs| - 1];
      UsedBy(front, p, c) + if r.resultClass == c && Fits(r, p, Used(front, p)) then TokensOf(r) else 0
  }

  ghost function CountOf(rs: seq<ToolResult>, c: ResultClass): nat {
    if rs == [] then 0 else CountOf(rs[..|rs| - 1], c) + (if rs[|rs| - 1].resultClass == c then 1 else 0)
  }

  ghost function Rejected(calls: seq<Call>): seq<string> {
    if calls == [] then []
    else Rejected(calls[..|calls| - 1]) + (if calls[|calls| - 1].admitted then [] else [calls[|calls| - 1].callId])
  }

  function Lost(r: ToolResult): Outcome {
    if Classify(r).Unavailable? then ProjectionMissing(r.callId) else ExceedsBudget(r.callId)
  }

  /** Every result that has to be kept is. */
  ghost predicate NothingLost(rs: seq<ToolResult>, p: Policy) {
    forall k :: 0 <= k < |rs| && MustPreserve(rs[k]) ==> Fits(rs[k], p, Used(rs[..k], p))
  }

  /** The first result that had to be kept and could not be. */
  ghost predicate FirstLost(rs: seq<ToolResult>, p: Policy, i: nat) {
    && i < |rs|
    && MustPreserve(rs[i]) && !Fits(rs[i], p, Used(rs[..i], p))
    && NothingLost(rs[..i], p)
  }

  function NoCounts(): map<ResultClass, nat> {
    map[External := 0, Local := 0, Artifact := 0, Error := 0, Control := 0, Unknown := 0]
  }

  ghost predicate Complete(m: map<ResultClass, int>) {
    forall c: ResultClass :: c in m
  }

  ghost function Total(m: map<ResultClass, nat>): nat
    requires Complete(m)
  {
    m[External] + m[Local] + m[Artifact] + m[Error] + m[Control] + m[Unknown]
  }

  lemma {:induction false} ClassesAddUp(rs: seq<ToolResult>, p: Policy)
    requires 0 <= p.perTurnTokens
    ensures UsedBy(rs, p, External) + UsedBy(rs, p, Local) + UsedBy(rs, p, Artifact)
            + UsedBy(rs, p, Error) + UsedBy(rs, p, Control) + UsedBy(rs, p, Unknown) == Used(rs, p) <= p.perTurnTokens
    ensures CountOf(rs, External) + CountOf(rs, Local) + CountOf(rs, Artifact)
            + CountOf(rs, Error) + CountOf(rs, Control) + CountOf(rs, Unknown) == |rs|
  {
    if rs != [] {
      ClassesAddUp(rs[..|rs| - 1], p);
    }
  }

  ghost predicate Accounts(rs: seq<ToolResult>, p: Policy, byCount: map<ResultClass, nat>, byTokens: map<ResultClass, nat>) {
    && Complete(byCount) && Complete(byTokens)
    && forall c: ResultClass :: byCount[c] == CountOf(rs, c) && byTokens[c] == UsedBy(rs, p, c)
  }

  lemma AccountsForOne(front: seq<ToolResult>, r: ToolResult, p: Policy, byCount: map<ResultClass, nat>, byTokens: map<ResultClass, nat>)
    requires Accounts(front, p, byCount, byTokens)
    ensures r.resultClass in byCount && r.resultClass in byTokens
    ensures var byCount' := byCount[r.resultClass := byCount[r.resultClass] + 1];
            var byTokens' := byTokens[r.resultClass := byTokens[r.resultClass] + TokensOf(r)];
            Accounts(front + [r], p, byCount', if Fits(r, p, Used(front, p)) then byTokens' else byTokens)
  {
    assert (front + [r])[..|front|] == front;
  }

  lemma LoseNone(front: seq<ToolResult>, r: ToolResult, p: Policy)
    ensures NothingLost(front + [r], p) <==> NothingLost(front, p) && (MustPreserve(r) ==> Fits(r, p, Used(front, p)))
  {
    var all := front + [r];
    assert forall k :: 0 <= k < |front| ==> all[..k] == front[..k] && all[k] == front[k];
    assert all[..|front|] == front && all[|front|] == r;
  }

  lemma LossIsPermanent(rs: seq<ToolResult>, p: Policy, i: nat)
    requires i < |rs| && NothingLost(rs[..i], p) && !NothingLost(rs[..i] + [rs[i]], p)
    ensures FirstLost(rs, p, i) && !NothingLost(rs, p)
  {
    LoseNone(rs[..i], rs[i], p);
  }

  lemma DecideOne(front: seq<ToolResult>, r: ToolResult, p: Policy)
    ensures var fits := Fits(r, p, Used(front, p));
            && Decisions(front + [r], p) == Decisions(front, p) + [Call(r.callId, TokensOf(r), fits)]
            && Used(front + [r], p) == Used(front, p) + (if fits then TokensOf(r) else 0)
            && Rejected(Decisions(front + [r], p)) == Rejected(Decisions(front, p)) + if fits then [] else [r.callId]
  {
    assert (front + [r])[..|front|] == front;
    var calls := Decisions(front + [r], p);
    assert calls[..|front|] == Decisions(front, p);
  }

  /** What the loop holds after these results. */
  ghost predicate Tally(front: seq<ToolResult>, p: Policy, calls: seq<Call>, used: nat, overflow: seq<string>,
                        byCount: map<ResultClass, nat>, byTokens: map<ResultClass, nat>)
  {
    calls == Decisions(front, p) && used == Used(front, p) && overflow == Rejected(calls) && Accounts(front, p, byCount, byTokens)
  }

  lemma TallyOne(front: seq<ToolResult>, r: ToolResult, p: Policy, calls: seq<Call>, used: nat, overflow: seq<string>,
                 byCount: map<ResultClass, nat>, byTokens: map<ResultClass, nat>)
    requires Tally(front, p, calls, used, overflow, byCount, byTokens)
    ensures r.resultClass in byCount && r.resultClass in byTokens
    ensures var tokens := TokensOf(r);
            var byCount' := byCount[r.resultClass := byCount[r.resultClass] + 1];
            if Fits(r, p, used) then
              Tally(front + [r], p, calls + [Call(r.callId, tokens, true)], used + tokens, overflow, byCount',
                    byTokens[r.resultClass := byTokens[r.resultClass] + tokens])
            else Tally(front + [r], p, calls + [Call(r.callId, tokens, false)], used, overflow + [r.callId], byCount', byTokens)
  {
    DecideOne(front, r, p);
    AccountsForOne(front, r, p, byCount, byTokens);
  }

  lemma NothingCounted(rs: seq<ToolResult>, p: Policy)
    ensures Accounts(rs[..0], p, NoCounts(), NoCounts())
  {
    forall c: ResultClass ensures c in NoCounts() && NoCounts()[c] == 0 {
      match c case External => case Local => case Artifact => case Error => case Control => case Unknown =>
    }
  }

  /** The turn reports the decisions, and its totals per class add up to what was spent. */
  ghost predicate Balances(rs: seq<ToolResult>, p: Policy, out: Outcome)
    requires out.Turn?
  {
    && out.calls == Decisions(rs, p)
    && out.usedTokens == Used(rs, p) <= p.perTurnTokens
    && out.overflowCallIds == Rejected(out.calls)
    && Accounts(rs, p, out.callsByClass, out.tokensByClass)
    && Total(out.tokensByClass) == out.usedTokens
    && Total(out.callsByClass) == |rs|
  }

  lemma TurnBalances(rs: seq<ToolResult>, p: Policy, out: Outcome)
    requires out.Turn? && 0 <= p.perTurnTokens
    requires out.calls == Decisions(rs, p) && out.usedTokens == Used(rs, p) && out.overflowCallIds == Rejected(out.calls)
    requires Accounts(rs, p, out.callsByClass, out.tokensByClass)
    ensures Balances(rs, p, out)
  {
    ClassesAddUp(rs, p);
  }

  /** One result, counted in its class and admitted if it fits. */
  method ProjectOne(ghost front: seq<ToolResult>, r: ToolResult, p: Policy, calls: seq<Call>, used: nat, overflow: seq<string>,
                    byCount: map<ResultClass, nat>, byTokens: map<ResultClass, nat>)
    returns (calls': seq<Call>, used': nat, overflow': seq<string>, byCount': map<ResultClass, nat>, byTokens': map<ResultClass, nat>,
             admitted: bool)
    requires Complete(p.singleResultTokens) && Tally(front, p, calls, used, overflow, byCount, byTokens)
    ensures NothingLost(front + [r], p) <==> NothingLost(front, p) && (MustPreserve(r) ==> admitted)
    ensures Tally(front + [r], p, calls', used', overflow', byCount', byTokens')
  {
    LoseNone(front, r, p);
    TallyOne(front, r, p, calls, used, overflow, byCount, byTokens);
    var tokens, available := TokensOf(r), !Classify(r).Unavailable?;
    admitted := available && tokens <= p.singleResultTokens[r.resultClass] && tokens <= p.perTurnTokens - used;
    assert admitted == Fits(r, p, used);
    byCount', byTokens', used', overflow' := byCount[r.resultClass := byCount[r.resultClass] + 1], byTokens, used, overflow;
    if admitted {
      used' := used + tokens;
      byTokens' := byTokens[r.resultClass := byTokens[r.resultClass] + tokens];
    } else {
      overflow' := overflow + [r.callId];
    }
    calls' := calls + [Call(r.callId, tokens, admitted)];
  }

  /** The loop over the results, up to the first that had to be kept and could not be. */
  method ProjectAll(rs: seq<ToolResult>, p: Policy) returns (out: Outcome, ghost lost: nat)
    requires Complete(p.singleResultTokens) && 0 <= p.perTurnTokens
    ensures if out.Turn? then NothingLost(rs, p) && Balances(rs, p, out)
            else !NothingLost(rs, p) && FirstLost(rs, p, lost) && out == Lost(rs[lost])
  {
    var calls: seq<Call>, used: nat, overflow: seq<string> := [], 0, [];
    var callsByClass: map<ResultClass, nat> := NoCounts();
    var tokensByClass: map<ResultClass, nat> := NoCounts();
    NothingCounted(rs, p);
    var i := 0;
    lost := 0;
    while i < |rs|
      invariant 0 <= i <= |rs|
      invariant Tally(rs[..i], p, calls, used, overflow, callsByClass, tokensByClass)
      invariant NothingLost(rs[..i], p)
    {
      assert rs[..i] + [rs[i]] == rs[..i + 1];
      var admitted: bool;
      calls, used, overflow, callsByClass, tokensByClass, admitted :=
        ProjectOne(rs[..i], rs[i], p, calls, used, overflow, callsByClass, tokensByClass);
      if !admitted && MustPreserve(rs[i]) {
        LossIsPermanent(rs, p, i);
        return Lost(rs[i]), i;
      }
      i := i + 1;
    }
    assert rs[..i] == rs;
    out := Turn(calls, used, overflow, callsByClass, tokensByClass);
    TurnBalances(rs, p, out);
  }

  method ProjectToolResultsForTurn(rs: seq<ToolResult>, p: Policy) returns (out: Outcome)
    requires Complete(p.singleResultTokens)
    ensures out.InvalidBudget? <==> !ValidPolicy(p)
    ensures out.Turn? ==> Balances(rs, p, out)
    // A result that must be kept is never dropped silently: the turn fails with the first one lost.
    ensures out.Turn? <==> ValidPolicy(p) && NothingLost(rs, p)
    ensures ValidPolicy(p) && !out.Turn? ==>
              exists i: nat :: FirstLost(rs, p, i) && out == Lost(rs[i])
  {
    if !ValidPolicy(p) {
      return InvalidBudget;
    }
    ghost var lost;
    out, lost := ProjectAll(rs, p);
  }

  // ---------------------------------------------------------------------------------------
  // Identical calls

  datatype CallState = Running | Succeeded | Failed

  datatype Attempt = Attempt(key: string, attempt: int, state: CallState)

  datatype Admission = Admitted(attempt: int) | AlreadyRunning | AlreadySucceeded | RetryLimitReached

  /** The record with the highest attempt number; the first of equals, as a stable sort leaves it. */
  function Latest(records: seq<Attempt>, key: string): (r: Option<Attempt>)
    ensures r.None? <==> forall i :: 0 <= i < |records| ==> records[i].key != key
    ensures r.Some? ==> r.value in records && r.value.key == key
                        && forall i :: 0 <= i < |records| && records[i].key == key ==> records[i].attempt <= r.value.attempt
  {
    if records == [] then None
    else
      var best := Latest(records[..|records| - 1], key);
      var last := records[|records| - 1];
      if last.key == key && (best.None? || best.value.attempt < last.attempt) then Some(last) else best
  }

  function AdmitDuplicateCall(existing: seq<Attempt>, key: string, retryAllowed: bool, maxRetries: int): Admission {
    if !(0 <= maxRetries <= ContextBudget.MAX_SAFE_INTEGER) then RetryLimitReached
    else
      var prior := Latest(existing, key);
      if prior.None? then Admitted(1)
      else if prior.value.state.Running? then AlreadyRunning
      else if prior.value.state.Succeeded? then AlreadySucceeded
      else if !retryAllowed || prior.value.attempt > maxRetries then RetryLimitReached
      else Admitted(prior.value.attempt + 1)
  }

  datatype LedgerEvent = Try(key: string, retryAllowed: bool) | Finish(index: nat, ok: bool)

  /** A ledger that records each admitted call as running and later its outcome. */
  function LedgerStep(l: seq<Attempt>, e: LedgerEvent, maxRetries: int): seq<Attempt> {
    match e
    case Try(key, retryAllowed) =>
      var a := AdmitDuplicateCall(l, key, retryAllowed, maxRetries);
      if a.Admitted? then l + [Attempt(key, a.attempt, Running)] else l
    case Finish(i, ok) =>
      if i < |l| && l[i].state.Running? then l[i := l[i].(state := if ok then Succeeded else Failed)] else l
  }

  function LedgerRun(es: seq<LedgerEvent>, maxRetries: int): seq<Attempt> {
    if es == [] then [] else LedgerStep(LedgerRun(es[..|es| - 1], maxRetries), es[|es| - 1], maxRetries)
  }

  /** Attempts of one call are numbered in order, only the latest may be anything but failed,
      and there are never more of them than one plus the retries. */
  ghost predicate Linear(l: seq<Attempt>, maxRetries: int) {
    && (forall i :: 0 <= i < |l| ==> 1 <= l[i].attempt <= maxRetries + 1)
    && (forall i, j :: 0 <= i < j < |l| && l[i].key == l[j].key ==> l[i].attempt < l[j].attempt && l[i].state.Failed?)
  }

  lemma {:induction false} RetriesAreBounded(es: seq<LedgerEvent>, maxRetries: int)
    requires 0 <= maxRetries
    ensures Linear(LedgerRun(es, maxRetries), maxRetries)
  {
    if es != [] {
      RetriesAreBounded(es[..|es| - 1], maxRetries);
      StepStaysLinear(LedgerRun(es[..|es| - 1], maxRetries), es[|es| - 1], maxRetries);
    }
  }

  lemma StepStaysLinear(l: seq<Attempt>, e: LedgerEvent, maxRetries: int)
    requires 0 <= maxRetries && Linear(l, maxRetries)
    ensures Linear(LedgerStep(l, e, maxRetries), maxRetries)
  {
    var l' := LedgerStep(l, e, maxRetries);
    if e.Try? && l' != l {
      var prior := Latest(l, e.key);
      forall i | 0 <= i < |l| && l[i].key == e.key
        ensures l[i].attempt < l'[|l|].attempt && l[i].state.Failed?
      {
        var k :| 0 <= k < |l| && l[k] == prior.value;
        assert i <= k;
      }
    }
  }

  // ---------------------------------------------------------------------------------------
  // What the decisions are, apart from the functions

  /** What the result costs in the form it is to be shown in; one that is not there in that form has no cost. */
  ghost predicate Costs(r: ToolResult, n: nat) {
    || (r.projection == OmitDuplicate && n == 0)
    || (r.projection == Reference && r.evidenceRef.Some? && r.evidenceRef.value != 0 && n == r.evidenceRef.value + r.metadataTokens)
    || (r.projection == Compact && r.projectedText.Some? && n == r.projectedText.value + r.metadataTokens)
    || (r.projection == Full && r.text.Some? && n == r.text.value + r.metadataTokens)
  }

  lemma CostsAreExact(r: ToolResult)
    ensures forall n :: Costs(r, n) ==> TokensOf(r) == n
    ensures Classify(r).Unavailable? <==> forall n :: !Costs(r, n)
    ensures Lost(r) == if forall n :: !Costs(r, n) then ProjectionMissing(r.callId) else ExceedsBudget(r.callId)
  {
    if !Classify(r).Unavailable? {
      assert Costs(r, TokensOf(r));
    }
  }

  /** A policy is one if and only if all its limits are counts that a number holds exactly. */
  lemma PoliciesAreValidExactly(p: Policy)
    requires Complete(p.singleResultTokens)
    ensures ValidPolicy(p) <==> 0 <= p.perTurnTokens <= 9_007_199_254_740_991
                                && forall c: ResultClass :: 0 <= p.singleResultTokens[c] <= 9_007_199_254_740_991
  {
  }

  ghost function Spent(calls: seq<Call>): nat
    decreases |calls|
  {
    if calls == [] then 0 else Spent(calls[..|calls| - 1]) + if calls[|calls| - 1].admitted then calls[|calls| - 1].tokens else 0
  }

  lemma {:induction false} UsedIsSpent(rs: seq<ToolResult>, p: Policy)
    ensures Used(rs, p) == Spent(Decisions(rs, p))
    decreases |rs|
  {
    if rs != [] {
      UsedIsSpent(rs[..|rs| - 1], p);
      var calls := Decisions(rs, p);
      assert calls[..|calls| - 1] == Decisions(rs[..|rs| - 1], p);
    }
  }

  lemma {:induction false} EarlierDecisions(rs: seq<ToolResult>, p: Policy, i: nat)
    requires i <= |rs|
    ensures Decisions(rs[..i], p) == Decisions(rs, p)[..i]
    decreases |rs|
  {
    if i == |rs| {
      assert rs[..i] == rs;
    } else {
      EarlierDecisions(rs[..|rs| - 1], p, i);
      assert rs[..|rs| - 1][..i] == rs[..i];
    }
  }

  /** Call by call: each result stands under its own id at its cost, and is admitted if and only if it is there, and fits
      its class's limit and what those admitted before it left of the turn. */
  lemma DecisionsAreExact(rs: seq<ToolResult>, p: Policy, i: nat)
    requires i < |rs| && Complete(p.singleResultTokens)
    ensures var (calls, r) := (Decisions(rs, p), rs[i]);
            && calls[i].callId == r.callId && (forall n :: Costs(r, n) ==> calls[i].tokens == n)
            && (calls[i].admitted <==>
                  && (exists n :: Costs(r, n)) && calls[i].tokens <= p.singleResultTokens[r.resultClass]
                  && Spent(calls[..i]) + calls[i].tokens <= p.perTurnTokens)
  {
    EarlierDecisions(rs, p, i);
    EarlierDecisions(rs, p, i + 1);
    assert rs[..i + 1][..i] == rs[..i];
    UsedIsSpent(rs[..i], p);
    CostsAreExact(rs[i]);
    assert Decisions(rs, p)[i] == Decisions(rs[..i + 1], p)[i];
  }

  /** These ids are those of the calls that were not admitted, once each, in order: the calls at these positions. */
  ghost predicate ListedAt(calls: seq<Call>, ids: seq<string>, at: seq<nat>) {
    && |at| == |ids| && (forall i, j :: 0 <= i < j < |at| ==> at[i] < at[j])
    && (forall i :: 0 <= i < |at| ==> at[i] < |calls| && !calls[at[i]].admitted && ids[i] == calls[at[i]].callId)
    && forall k: nat :: k < |calls| && !calls[k].admitted ==> k in at
  }

  lemma OneMoreListed(front: seq<Call>, c: Call, ids: seq<string>, at: seq<nat>)
    requires ListedAt(front, ids, at)
    ensures c.admitted ==> ListedAt(front + [c], ids, at)
    ensures !c.admitted ==> ListedAt(front + [c], ids + [c.callId], at + [|front|])
  {
    var calls, more := front + [c], at + [|front|];
    forall k: nat | k < |calls| && !calls[k].admitted ensures k in more && (c.admitted ==> k in at) {
      if k < |front| {
        assert front[k] == calls[k];
      } else {
        assert more[|at|] == k;
      }
    }
  }

  lemma {:induction false} RejectedAreListed(calls: seq<Call>) returns (at: seq<nat>)
    ensures ListedAt(calls, Rejected(calls), at)
    decreases |calls|
  {
    if calls == [] {
      at := [];
    } else {
      var front, c := calls[..|calls| - 1], calls[|calls| - 1];
      var before := RejectedAreListed(front);
      OneMoreListed(front, c, Rejected(front), before);
      assert front + [c] == calls;
      at := if c.admitted then before else before + [|front|];
      assert Rejected(calls) == if c.admitted then Rejected(front) else Rejected(front) + [c.callId] by {
        assert Rejected(front) + [] == Rejected(front);
      }
    }
  }

  // ---------------------------------------------------------------------------------------
  // When an identical call is admitted

  /** The record that counts: the highest attempt of this call, the first of equals. */
  ghost predicate Counts(records: seq<Attempt>, key: string, k: nat) {
    && k < |records| && records[k].key == key
    && (forall j :: 0 <= j < |records| && records[j].key == key ==> records[j].attempt <= records[k].attempt)
    && forall j :: 0 <= j < k && records[j].key == key ==> records[j].attempt < records[k].attempt
  }

  lemma {:induction false} LatestCounts(records: seq<Attempt>, key: string)
    ensures Latest(records, key).Some? ==> exists k: nat :: Counts(records, key, k) && Latest(records, key) == Some(records[k])
    decreases |records|
  {
    if records != [] {
      var front, last := records[..|records| - 1], |records| - 1;
      LatestCounts(front, key);
      var best := Latest(front, key);
      if records[last].key == key && (best.None? || best.value.attempt < records[last].attempt) {
        assert Counts(records, key, last);
      } else if best.Some? {
        var k: nat :| Counts(front, key, k) && best == Some(front[k]);
        assert Counts(records, key, k);
      }
    }
  }

  lemma OneCounts(records: seq<Attempt>, key: string, k: nat)
    requires Counts(records, key, k)
    ensures Latest(records, key) == Some(records[k])
  {
    LatestCounts(records, key);
    var j: nat :| Counts(records, key, j) && Latest(records, key) == Some(records[j]);
    assert !(j < k) && !(k < j);
  }

  /** A call is admitted for the first time if and only if no record has it, and again if and only if its last attempt
      failed, a retry may help, and there were no more attempts than retries; a limit that is no count admits nothing. */
  lemma AdmitsExactlyWhen(records: seq<Attempt>, key: string, retryAllowed: bool, maxRetries: int, k: nat)
    requires Counts(records, key, k) || forall j :: 0 <= j < |records| ==> records[j].key != key
    ensures AdmitDuplicateCall(records, key, retryAllowed, maxRetries)
            == if maxRetries < 0 || maxRetries > 9_007_199_254_740_991 then RetryLimitReached
               else if forall j :: 0 <= j < |records| ==> records[j].key != key then Admitted(1)
               else match records[k].state
                 case Running => AlreadyRunning
                 case Succeeded => AlreadySucceeded
                 case Failed =>
                   if retryAllowed && records[k].attempt <= maxRetries then Admitted(records[k].attempt + 1) else RetryLimitReached
  {
    if Counts(records, key, k) {
      OneCounts(records, key, k);
    }
  }
}
