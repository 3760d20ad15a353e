/** Everything else that is done to the ledger leaves the marks of a Run in place. */
module ProvenanceLedger {
  import opened Options
  import opened CanonicalKeys
  import opened Auth = AuthModel
  import opened ProvenanceModel
  import opened ProvenanceMarks

  predicate OwnDecision(env: Environment, d: Decision) {
    d.runId.Some? && d.runId.value in env.runs ==> d.tuple.principalId == env.runs[d.runId.value].principalId
  }

  /** Every mark is on a decision for its Run's own principal. */
  ghost predicate MarksAreOwn(l: Ledger) {
    forall i :: 0 <= i < |l.decisions| && l.decisions[i].mark.Some? ==> OwnDecision(l.env, l.decisions[i])
  }

  /** The mark, or the marks, this event makes are on decisions for the Run's own principal. */
  ghost predicate ByOwnPrincipal(l: Ledger, e: Auth.Event) {
    match e
    case EMark(d, _) => d < |l.decisions| ==> OwnDecision(l.env, l.decisions[d])
    case ECompleteReads(receipts, _, _) =>
      forall i :: 0 <= i < |receipts| ==>
        var req := receipts[i].request;
        req.runId.Some? && req.runId.value in l.env.runs ==> req.tuple.principalId == l.env.runs[req.runId.value].principalId
    case _ => true
  }

  ghost predicate Harmless(l: Ledger, t: Ledger) {
    MarksStay(l, t) && t.env.runs == l.env.runs && (MarksAreOwn(l) ==> MarksAreOwn(t))
  }

  lemma HarmlessTransitive(l: Ledger, t: Ledger, u: Ledger)
    requires Harmless(l, t) && Harmless(t, u)
    ensures Harmless(l, u)
  {
    MarksStayTransitive(l, t, u);
  }

  lemma AppendIsHarmless(l: Ledger, t: Ledger, d: Decision)
    requires t.decisions == l.decisions + [d] && d.mark.None? && t.env.runs == l.env.runs
    ensures Harmless(l, t)
  {
  }

  lemma SameDecisionsAreHarmless(l: Ledger, t: Ledger)
    requires t.decisions == l.decisions && t.env.runs == l.env.runs
    ensures Harmless(l, t)
  {
  }

  lemma EvaluateIsHarmless(l: Ledger, req: Request, completed: Option<nat>, now: int)
    ensures Harmless(l, Evaluate(l, req, completed, now).0)
  {
    EvaluateAppends(l, req, completed, now);
    AppendIsHarmless(l, Evaluate(l, req, completed, now).0, Recorded(req, Evaluate(l, req, completed, now).1));
  }

  lemma MarkIsHarmless(l: Ledger, d: nat, m: Mark)
    requires d < |l.decisions| ==> OwnDecision(l.env, l.decisions[d])
    ensures Harmless(l, SetMark(l, d, m))
  {
  }

  lemma LinkIsHarmless(l: Ledger, d: nat, c: Id, r: Id)
    requires d < |l.decisions| && l.decisions[d].runId.None? && l.decisions[d].mark.None?
    ensures Harmless(l, LinkDecision(l, d, c, r))
  {
  }

  // ---------------------------------------------------------------------------------------
  // Completing reads

  ghost predicate RecordedFor(t: Ledger, at: nat, req: Request) {
    at < |t.decisions| && t.decisions[at].tuple == req.tuple && t.decisions[at].runId == req.runId
  }

  lemma {:induction false} RechecksAppend(l: Ledger, receipts: seq<ReadReceipt>, now: int)
    ensures var (t, completion) := RecheckReads(l, receipts, now);
            && Harmless(l, t) && l.decisions <= t.decisions && t.env == l.env
            && (completion.Completed? ==>
                  forall i :: 0 <= i < |receipts| ==> RecordedFor(t, completion.decisions[i], receipts[i].request))
    decreases |receipts|
  {
    if receipts == [] {
      SameDecisionsAreHarmless(l, l);
    } else if !ReceiptHolds(l, receipts[0]) {
      var refused := Recorded(receipts[0].request, Refusal(SourceReadUnverified));
      AppendIsHarmless(l, l.(decisions := l.decisions + [refused]), refused);
    } else {
      var (t, j) := Evaluate(l, receipts[0].request, Some(receipts[0].decision), now);
      EvaluateIsHarmless(l, receipts[0].request, Some(receipts[0].decision), now);
      EvaluateAppends(l, receipts[0].request, Some(receipts[0].decision), now);
      if j.verdict.Allow? {
        var rest := receipts[1..];
        var (u, later) := RecheckReads(t, rest, now);
        RechecksAppend(t, rest, now);
        HarmlessTransitive(l, t, u);
        assert l.decisions <= u.decisions;
        if later.Completed? {
          var made := [|l.decisions|] + later.decisions;
          forall i | 0 <= i < |receipts| ensures RecordedFor(u, made[i], receipts[i].request) {
            if i > 0 {
              assert rest[i - 1] == receipts[i];
            } else {
              assert u.decisions[|l.decisions|] == t.decisions[|l.decisions|];
            }
          }
        }
      }
    }
  }

  lemma {:induction false} MarkAllIsHarmless(l: Ledger, made: seq<nat>, receipts: seq<ReadReceipt>)
    requires |made| == |receipts|
    requires forall i :: 0 <= i < |made| ==> RecordedFor(l, made[i], receipts[i].request) && OwnDecision(l.env, l.decisions[made[i]])
    ensures Harmless(l, MarkAll(l, made, receipts))
    decreases |receipts|
  {
    if receipts == [] {
      SameDecisionsAreHarmless(l, l);
    } else {
      var t := SetMark(l, made[0], receipts[0].source);
      assert RecordedFor(l, made[0], receipts[0].request);
      MarkIsHarmless(l, made[0], receipts[0].source);
      forall i | 0 <= i < |made[1..]|
        ensures RecordedFor(t, made[1..][i], receipts[1..][i].request) && OwnDecision(t.env, t.decisions[made[1..][i]])
      {
        assert RecordedFor(l, made[i + 1], receipts[i + 1].request);
      }
      MarkAllIsHarmless(t, made[1..], receipts[1..]);
      HarmlessTransitive(l, t, MarkAll(t, made[1..], receipts[1..]));
    }
  }

  lemma CompletionIsHarmless(l: Ledger, receipts: seq<ReadReceipt>, action: Option<Request>, now: int)
    requires ByOwnPrincipal(l, ECompleteReads(receipts, action, now))
    ensures Harmless(l, CompleteReads(l, receipts, action, now).0)
  {
    SameDecisionsAreHarmless(l, l);
    if action.Some? {
      var refused := Recorded(action.value, Refusal(SourceReadUnverified));
      AppendIsHarmless(l, l.(decisions := l.decisions + [refused]), refused);
    }
    var (t, completion) := RecheckReads(l, receipts, now);
    RechecksAppend(l, receipts, now);
    if completion.Completed? {
      forall i | 0 <= i < |receipts| ensures OwnDecision(t.env, t.decisions[completion.decisions[i]]) {
        assert RecordedFor(t, completion.decisions[i], receipts[i].request);
      }
      if action.Some? {
        var u := Evaluate(t, action.value, None, now).0;
        EvaluateAppends(t, action.value, None, now);
        EvaluateIsHarmless(t, action.value, None, now);
        HarmlessTransitive(l, t, u);
        forall i | 0 <= i < |receipts|
          ensures RecordedFor(u, completion.decisions[i], receipts[i].request) && OwnDecision(u.env, u.decisions[completion.decisions[i]])
        {
          assert RecordedFor(t, completion.decisions[i], receipts[i].request);
        }
        MarkAllIsHarmless(u, completion.decisions, receipts);
        HarmlessTransitive(l, u, MarkAll(u, completion.decisions, receipts));
      } else {
        MarkAllIsHarmless(t, completion.decisions, receipts);
        HarmlessTransitive(l, t, MarkAll(t, completion.decisions, receipts));
      }
    }
  }

  // ---------------------------------------------------------------------------------------
  // Provisioning

  lemma {:induction false} ProvisionIsHarmless(l: Ledger, p: Id, k: Scope, entries: seq<Entry>, initialOnly: bool, now: int)
    ensures var t := ProvisionAll(l, p, k, entries, initialOnly, now); t.Some? ==> Harmless(l, t.value)
    decreases |entries|
  {
    SameDecisionsAreHarmless(l, l);
    if entries != [] {
      var env := RegisterResource(l.env, entries[0]);
      if env.Some? {
        var registered := l.(env := env.value);
        var req := EntryRequest(p, k, entries[0]);
        var evaluated := Evaluate(registered, req, None, now).0;
        var one := ProvisionOne(l, p, k, entries[0], initialOnly, now).value;
        SameDecisionsAreHarmless(l, registered);
        EvaluateIsHarmless(registered, req, None, now);
        HarmlessTransitive(l, registered, evaluated);
        SameDecisionsAreHarmless(evaluated, one);
        HarmlessTransitive(l, evaluated, one);
        ProvisionIsHarmless(one, p, k, entries[1..], initialOnly, now);
        var rest := ProvisionAll(one, p, k, entries[1..], initialOnly, now);
        if rest.Some? {
          HarmlessTransitive(l, one, rest.value);
        }
      }
    }
  }

  lemma LedgerEventsAreHarmless(l: Ledger, e: Auth.Event)
    requires MayHappen(l, e) && ByOwnPrincipal(l, e)
    ensures Harmless(l, Auth.Step(l, e))
  {
    match e {
      case EEvaluate(req, completed, now) => EvaluateIsHarmless(l, req, completed, now);
      case ERefuse(req, reason) => AppendIsHarmless(l, Auth.Step(l, e), Recorded(req, Refusal(reason)));
      case EMark(d, m) => MarkIsHarmless(l, d, m);
      case ELink(d, c, r) => LinkIsHarmless(l, d, c, r);
      case ECompleteReads(receipts, action, now) => CompletionIsHarmless(l, receipts, action, now);
      case EProvision(p, k, entries, initialOnly, now) =>
        SameDecisionsAreHarmless(l, l);
        ProvisionIsHarmless(l, p, k, entries, initialOnly, now);
      case _ => SameDecisionsAreHarmless(l, Auth.Step(l, e));
    }
  }
}
