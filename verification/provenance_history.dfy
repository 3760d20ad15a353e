/** Exactly which earlier turns a Run is given, and whose words they hold. */
module ProvenanceHistory {
  import opened Options
  import opened CanonicalKeys
  import opened Auth = AuthModel
  import opened ProvenanceModel
  import opened ProvenanceGate
  import HistoryMessages

  /** The reader may read this source, as things stand. */
  predicate Readable(l: Ledger, caller: Caller, ev: Evidence, src: Source, now: int) {
    Judge(l, SourceRequest(caller, src, ev), None, now).verdict.Allow?
  }

  ghost predicate AllReadable(l: Ledger, caller: Caller, ev: Evidence, sources: seq<Source>, now: int) {
    forall i :: 0 <= i < |sources| ==> Readable(l, caller, ev, sources[i], now)
  }

  /** Earlier evaluations of the same transaction change no later verdict. */
  lemma {:induction false} InspectIsStable(l: Ledger, caller: Caller, ev: Evidence, sources: seq<Source>, now: int, other: Source)
    ensures Readable(Inspect(l, caller, ev, sources, now).0, caller, ev, other, now) <==> Readable(l, caller, ev, other, now)
    decreases |sources|
  {
    if sources != [] {
      var t := Evaluate(l, SourceRequest(caller, sources[0], ev), None, now).0;
      VerdictIsStable(l, SourceRequest(caller, sources[0], ev), SourceRequest(caller, other, ev), now);
      InspectIsStable(t, caller, ev, sources[1..], now, other);
    }
  }

  lemma {:induction false} InspectPassesExactlyWhen(l: Ledger, caller: Caller, ev: Evidence, sources: seq<Source>, now: int)
    ensures Inspect(l, caller, ev, sources, now).1 <==> AllReadable(l, caller, ev, sources, now)
    decreases |sources|
  {
    if sources != [] {
      var t := Evaluate(l, SourceRequest(caller, sources[0], ev), None, now).0;
      var rest := sources[1..];
      InspectPassesExactlyWhen(t, caller, ev, rest, now);
      forall i | 0 <= i < |rest| ensures Readable(t, caller, ev, rest[i], now) <==> Readable(l, caller, ev, sources[i + 1], now) {
        VerdictIsStable(l, SourceRequest(caller, sources[0], ev), SourceRequest(caller, rest[i], ev), now);
      }
      AllOrFirst(l, t, caller, ev, sources, now);
    }
  }

  lemma AllOrFirst(l: Ledger, t: Ledger, caller: Caller, ev: Evidence, sources: seq<Source>, now: int)
    requires sources != []
    requires forall i :: 0 <= i < |sources[1..]| ==>
               (Readable(t, caller, ev, sources[1..][i], now) <==> Readable(l, caller, ev, sources[i + 1], now))
    ensures AllReadable(l, caller, ev, sources, now) <==>
            Readable(l, caller, ev, sources[0], now) && AllReadable(t, caller, ev, sources[1..], now)
  {
    var rest := sources[1..];
    if AllReadable(l, caller, ev, sources, now) {
      forall i | 0 <= i < |rest| ensures Readable(t, caller, ev, rest[i], now) {
        assert Readable(l, caller, ev, sources[i + 1], now);
      }
    }
    if Readable(l, caller, ev, sources[0], now) && AllReadable(t, caller, ev, rest, now) {
      forall i | 0 <= i < |sources| ensures Readable(l, caller, ev, sources[i], now) {
        assert i > 0 ==> Readable(t, caller, ev, rest[i - 1], now);
      }
    }
  }

  // ---------------------------------------------------------------------------------------
  // One turn

  /** Nothing stands between the reader and this turn but room: its grants stand, every source marked on
      it is readable now, and it has a question and an answer the reader may see. */
  ghost predicate MayRead(was: Ledger, l: Ledger, caller: Caller, ev: Evidence, t: Turn, sent: seq<SentDelivery>, now: int) {
    && GrantsStand(was, t.id) && AllReadable(l, caller, ev, SourceRows(was.decisions, {t.id}, None), now)
    && AnswerFor(t, sent, caller).Some? && t.inputText.Some?
  }

  function SizeOf(t: Turn, sent: seq<SentDelivery>, caller: Caller): nat
    requires AnswerFor(t, sent, caller).Some? && t.inputText.Some?
  {
    |t.inputText.value| + |AnswerFor(t, sent, caller).value|
  }

  /** A turn is given exactly when it may be read and still fits; one that only lacks room is listed as
      left out, and any other is passed over without a trace in the history. */
  lemma TurnIsGivenExactlyWhen(was: Ledger, l: Ledger, caller: Caller, ev: Evidence, t: Turn, sent: seq<SentDelivery>, h: History,
                               now: int)
    ensures var g := ReadTurn(was, l, caller, ev, t, sent, h, now).1;
            if !MayRead(was, l, caller, ev, t, sent, now) then g == h
            else if h.chars + SizeOf(t, sent, caller) > HISTORY_CHARS then g == h.(omitted := h.omitted + [t.id], truncated := true)
            else
              g == h.(exchanges := h.exchanges + [Exchange(t.id, t.inputText.value, AnswerFor(t, sent, caller).value, t.principalId)],
                      chars := h.chars + SizeOf(t, sent, caller))
  {
    InspectPassesExactlyWhen(l, caller, ev, SourceRows(was.decisions, {t.id}, None), now);
  }

  /** Another principal's answer is only ever shown as it was sent to the reader's own location; an
      unsent answer only to the principal it was made for. */
  lemma AnswersStayWhereTheyWereSent(t: Turn, sent: seq<SentDelivery>, caller: Caller)
    requires AnswerFor(t, sent, caller).Some?
    ensures || (t.principalId == caller.principalId && t.resultText == AnswerFor(t, sent, caller) && !t.status.Failed?)
            || exists d :: d in sent && d.runId == t.id && SameLocation(d.destination, caller.scope)
                           && d.payloadText == AnswerFor(t, sent, caller).value
  {
    var delivered := MatchingDelivery(sent, t.id, caller.scope);
    if delivered.Some? {
      var d :| d in sent && d.runId == t.id && SameLocation(d.destination, caller.scope) && d.payloadText == delivered.value;
    }
  }

  /** The i-th delivery is one of this Run at this location. */
  ghost predicate DeliveredAt(sent: seq<SentDelivery>, i: nat, runId: Id, scope: Scope) {
    && i < |sent| && sent[i].runId == runId
    && sent[i].destination.connectionId == scope.connectionId && sent[i].destination.botId == scope.botId
    && sent[i].destination.chatType == scope.chatType && sent[i].destination.chatId == scope.chatId
    && sent[i].destination.threadId == scope.threadId
  }

  ghost predicate Newest(sent: seq<SentDelivery>, i: nat, runId: Id, scope: Scope) {
    DeliveredAt(sent, i, runId, scope) && forall j: nat :: j > i ==> !DeliveredAt(sent, j, runId, scope)
  }

  lemma NotTheLast(sent: seq<SentDelivery>, runId: Id, scope: Scope)
    requires sent != [] && !DeliveredAt(sent, |sent| - 1, runId, scope)
    ensures var front := sent[..|sent| - 1];
            && (forall i: nat :: DeliveredAt(sent, i, runId, scope) <==> DeliveredAt(front, i, runId, scope))
            && forall i: nat :: Newest(sent, i, runId, scope) <==> Newest(front, i, runId, scope)
  {
    var front := sent[..|sent| - 1];
    forall i: nat ensures DeliveredAt(sent, i, runId, scope) <==> DeliveredAt(front, i, runId, scope) {
      assert i < |front| ==> sent[i] == front[i];
    }
    forall i: nat ensures Newest(sent, i, runId, scope) <==> Newest(front, i, runId, scope) {
    }
  }

  /** The delivery found is the newest there is. */
  lemma {:induction false} NewestIsFound(sent: seq<SentDelivery>, runId: Id, scope: Scope)
    ensures MatchingDelivery(sent, runId, scope).None? <==> forall i: nat :: !DeliveredAt(sent, i, runId, scope)
    ensures forall i: nat :: Newest(sent, i, runId, scope) ==> MatchingDelivery(sent, runId, scope) == Some(sent[i].payloadText)
    ensures MatchingDelivery(sent, runId, scope).Some? ==> exists i: nat :: Newest(sent, i, runId, scope)
    decreases |sent|
  {
    if sent != [] {
      var front, last := sent[..|sent| - 1], |sent| - 1;
      NewestIsFound(front, runId, scope);
      if DeliveredAt(sent, last, runId, scope) {
        assert Newest(sent, last, runId, scope);
      } else {
        NotTheLast(sent, runId, scope);
      }
    }
  }

  /** What a reader is shown as a turn's answer: what was sent last to where the reader is, or else, to the principal
      it was made for, an answer that did not fail and says something. */
  lemma AnswersAreExact(t: Turn, sent: seq<SentDelivery>, caller: Caller, x: string)
    ensures AnswerFor(t, sent, caller) == Some(x) <==>
              if exists i: nat :: DeliveredAt(sent, i, t.id, caller.scope) then
                exists i: nat :: Newest(sent, i, t.id, caller.scope) && sent[i].payloadText == x
              else !t.status.Failed? && t.principalId == caller.principalId && t.resultText == Some(x) && x != ""
  {
    NewestIsFound(sent, t.id, caller.scope);
  }

  // ---------------------------------------------------------------------------------------
  // The whole history

  function Chars(es: seq<Exchange>): nat
    decreases |es|
  {
    if es == [] then 0 else Chars(es[..|es| - 1]) + |es[|es| - 1].user| + |es[|es| - 1].assistant|
  }

  /** The counter is what was taken in, within the limit. */
  ghost predicate Accounted(h: History) {
    h.chars == Chars(h.exchanges) && h.chars <= HISTORY_CHARS
  }

  lemma {:induction false} HistoryStaysWithinItsLimit(was: Ledger, l: Ledger, caller: Caller, ev: Evidence, ts: seq<Turn>,
                                                      sent: seq<SentDelivery>, h: History, now: int)
    requires Accounted(h)
    ensures var g := ReadTurns(was, l, caller, ev, ts, sent, h, now).1;
            Accounted(g) && |g.exchanges| + |g.omitted| <= |h.exchanges| + |h.omitted| + |ts|
    decreases |ts|
  {
    if ts != [] {
      var (t, g) := ReadTurn(was, l, caller, ev, ts[0], sent, h, now);
      TurnIsGivenExactlyWhen(was, l, caller, ev, ts[0], sent, h, now);
      if g.exchanges != h.exchanges {
        assert g.exchanges[..|g.exchanges| - 1] == h.exchanges;
      }
      HistoryStaysWithinItsLimit(was, t, caller, ev, ts[1..], sent, g, now);
    }
  }

  /** Any history a Run is given: at most 256 earlier turns, at most a million characters. */
  lemma LoadedHistoryIsBounded(s: ProvenanceModel.State, at: nat, caller: Caller, ev: Evidence, now: int)
    requires at < |s.turns|
    ensures var h := LoadHistory(s, at, caller, ev, now).1;
            && h.chars == Chars(h.exchanges) && h.chars <= HISTORY_CHARS
            && |h.exchanges| + |h.omitted| <= HISTORY_LIMIT
  {
    var found := EarlierTurns(s.turns, s.sent, s.turns[at].conversationId, at, HISTORY_LIMIT + 1);
    var ks := if |found| > HISTORY_LIMIT then found[..HISTORY_LIMIT] else found;
    HistoryStaysWithinItsLimit(s.ledger, s.ledger, caller, ev, TurnsAt(s.turns, ks), s.sent,
                               NO_HISTORY.(truncated := |found| > HISTORY_LIMIT), now);
  }

  /** A reusable turn before this one is a candidate unless enough newer ones are. */
  lemma {:induction false} CandidatesAreTheNewest(turns: seq<Turn>, sent: seq<SentDelivery>, conversationId: Id, below: nat, limit: nat,
                                                  k: nat)
    requires below <= |turns| && k < below && Reusable(turns[k], conversationId, sent)
    ensures var found := EarlierTurns(turns, sent, conversationId, below, limit);
            (exists i :: 0 <= i < |found| && found[i] == k)
            || (|found| == limit && forall i :: 0 <= i < |found| ==> found[i] > k)
    decreases below
  {
    if limit > 0 {
      if Reusable(turns[below - 1], conversationId, sent) {
        var rest := EarlierTurns(turns, sent, conversationId, below - 1, limit - 1);
        var found := [below - 1] + rest;
        if k < below - 1 {
          CandidatesAreTheNewest(turns, sent, conversationId, below - 1, limit - 1, k);
          if i :| 0 <= i < |rest| && rest[i] == k {
            assert found[i + 1] == k;
          }
        } else {
          assert found[0] == k;
        }
      } else {
        CandidatesAreTheNewest(turns, sent, conversationId, below - 1, limit, k);
      }
    }
  }

  ghost predicate Descends(ks: seq<nat>) {
    forall i, j :: 0 <= i < j < |ks| ==> ks[i] > ks[j]
  }

  lemma DescendsFrom(k: nat, rest: seq<nat>)
    requires Descends(rest) && forall i :: 0 <= i < |rest| ==> rest[i] < k
    ensures Descends([k] + rest)
  {
  }

  /** Newest first. */
  lemma {:induction false} CandidatesDescend(turns: seq<Turn>, sent: seq<SentDelivery>, conversationId: Id, below: nat, limit: nat)
    requires below <= |turns|
    ensures Descends(EarlierTurns(turns, sent, conversationId, below, limit))
    decreases below
  {
    if below > 0 && limit > 0 {
      if Reusable(turns[below - 1], conversationId, sent) {
        CandidatesDescend(turns, sent, conversationId, below - 1, limit - 1);
        DescendsFrom(below - 1, EarlierTurns(turns, sent, conversationId, below - 1, limit - 1));
      } else {
        CandidatesDescend(turns, sent, conversationId, below - 1, limit);
      }
    }
  }

  // ---------------------------------------------------------------------------------------
  // Where the history comes from

  /** The Run was allowed something under a grant, and no grant it was allowed anything under is revoked. */
  ghost predicate StillGranted(l: Ledger, runId: Id) {
    && (exists i :: 0 <= i < |l.decisions| && GrantedAt(l, i, runId))
    && (forall i :: 0 <= i < |l.decisions| && GrantedAt(l, i, runId) ==> !l.grants[l.decisions[i].grant.value].revoked)
  }

  ghost predicate GrantedAt(l: Ledger, i: nat, runId: Id)
    requires i < |l.decisions|
  {
    var d := l.decisions[i];
    d.runId == Some(runId) && d.verdict.Allow? && d.grant.Some? && d.grant.value < |l.grants|
  }

  lemma StandingIsStillGranted(l: Ledger, runId: Id)
    requires GrantsStand(l, runId)
    ensures StillGranted(l, runId)
  {
    var d :| d in l.decisions && UsesGrant(l, d, runId);
    var i :| 0 <= i < |l.decisions| && l.decisions[i] == d;
    assert GrantedAt(l, i, runId);
    forall k | 0 <= k < |l.decisions| && GrantedAt(l, k, runId) ensures !l.grants[l.decisions[k].grant.value].revoked {
      assert l.decisions[k] in l.decisions && UsesGrant(l, l.decisions[k], runId);
    }
  }

  /** The exchange holds this turn's question and answer, and everything the turn was allowed still stands. */
  ghost predicate Tells(was: Ledger, caller: Caller, t: Turn, sent: seq<SentDelivery>, x: Exchange) {
    && x.runId == t.id && Some(x.user) == t.inputText && Some(x.assistant) == AnswerFor(t, sent, caller)
    && x.principalId == t.principalId && StillGranted(was, t.id)
  }

  lemma {:induction false} ExchangesTellTurns(was: Ledger, l: Ledger, caller: Caller, ev: Evidence, ts: seq<Turn>,
                                              sent: seq<SentDelivery>, h: History, now: int, x: Exchange)
    requires x in ReadTurns(was, l, caller, ev, ts, sent, h, now).1.exchanges && x !in h.exchanges
    ensures exists i :: 0 <= i < |ts| && Tells(was, caller, ts[i], sent, x)
    decreases |ts|
  {
    var (t, g) := ReadTurn(was, l, caller, ev, ts[0], sent, h, now);
    if x in g.exchanges {
      TurnIsGivenExactlyWhen(was, l, caller, ev, ts[0], sent, h, now);
      StandingIsStillGranted(was, ts[0].id);
      assert Tells(was, caller, ts[0], sent, x);
    } else {
      ExchangesTellTurns(was, t, caller, ev, ts[1..], sent, g, now, x);
      var i :| 0 <= i < |ts[1..]| && Tells(was, caller, ts[1..][i], sent, x);
      assert Tells(was, caller, ts[i + 1], sent, x);
    }
  }

  /** Everything in a Run's history is the question and answer of an earlier external Run of the very same
      Conversation that was not excluded, that succeeded, or failed with something sent, and whose grants all
      still stand: excluding a Run, or revoking one grant it used, takes its words out of every later history. */
  lemma HistoryIsItsConversations(s: ProvenanceModel.State, at: nat, caller: Caller, ev: Evidence, now: int, x: Exchange) returns (k: nat)
    requires at < |s.turns| && x in LoadHistory(s, at, caller, ev, now).1.exchanges
    ensures k < at && Tells(s.ledger, caller, s.turns[k], s.sent, x)
    ensures s.turns[k].conversationId == s.turns[at].conversationId && s.turns[k].external && !s.turns[k].excluded
    ensures s.turns[k].status.Succeeded? || (s.turns[k].status.Failed? && exists d :: d in s.sent && d.runId == s.turns[k].id)
  {
    var found := EarlierTurns(s.turns, s.sent, s.turns[at].conversationId, at, HISTORY_LIMIT + 1);
    var ks := if |found| > HISTORY_LIMIT then found[..HISTORY_LIMIT] else found;
    ExchangesTellTurns(s.ledger, s.ledger, caller, ev, TurnsAt(s.turns, ks), s.sent,
                       NO_HISTORY.(truncated := |found| > HISTORY_LIMIT), now, x);
    var i :| 0 <= i < |ks| && Tells(s.ledger, caller, TurnsAt(s.turns, ks)[i], s.sent, x);
    k := ks[i];
    assert ks[i] == found[i];
  }

  // ---------------------------------------------------------------------------------------
  // How it is told

  /** These positions of the turns, newest first, are the ones the exchanges tell. */
  ghost predicate TellsInOrder(was: Ledger, caller: Caller, ts: seq<Turn>, sent: seq<SentDelivery>, xs: seq<Exchange>, at: seq<nat>) {
    && |at| == |xs| && (forall i, j :: 0 <= i < j < |at| ==> at[i] < at[j])
    && forall i :: 0 <= i < |at| ==> at[i] < |ts| && Tells(was, caller, ts[at[i]], sent, xs[i])
  }

  /** One more turn in front of those told. */
  lemma TurnInFront(was: Ledger, caller: Caller, ts: seq<Turn>, sent: seq<SentDelivery>, xs: seq<Exchange>, rest: seq<nat>)
    returns (at: seq<nat>)
    requires ts != [] && TellsInOrder(was, caller, ts[1..], sent, xs, rest)
    ensures TellsInOrder(was, caller, ts, sent, xs, at) && (at != [] ==> at[0] > 0)
  {
    at := seq(|rest|, i requires 0 <= i < |rest| => rest[i] + 1);
    forall i | 0 <= i < |at| ensures at[i] < |ts| && Tells(was, caller, ts[at[i]], sent, xs[i]) {
      assert ts[at[i]] == ts[1..][rest[i]];
    }
  }

  lemma FirstIsTold(was: Ledger, caller: Caller, ts: seq<Turn>, sent: seq<SentDelivery>, x: Exchange, xs: seq<Exchange>, at: seq<nat>)
    requires ts != [] && TellsInOrder(was, caller, ts, sent, xs, at) && (at != [] ==> at[0] > 0) && Tells(was, caller, ts[0], sent, x)
    ensures TellsInOrder(was, caller, ts, sent, [x] + xs, [0] + at)
  {
    forall i, j | 0 <= i < j < |[0] + at| ensures ([0] + at)[i] < ([0] + at)[j] {
      if i == 0 && j > 1 {
        assert at[0] < at[j - 1];
      }
    }
  }

  lemma TailsMeet(h: seq<Exchange>, g: seq<Exchange>, f: seq<Exchange>)
    requires h <= g <= f && |g| == |h| + 1
    ensures f[|h|..] == [g[|h|]] + f[|g|..]
  {
  }

  /** The exchanges of a load tell its turns in the order in which they were read. */
  lemma {:induction false} ExchangesFollowTurns(was: Ledger, l: Ledger, caller: Caller, ev: Evidence, ts: seq<Turn>,
                                                sent: seq<SentDelivery>, h: History, now: int) returns (at: seq<nat>)
    ensures var g := ReadTurns(was, l, caller, ev, ts, sent, h, now).1;
            h.exchanges <= g.exchanges && TellsInOrder(was, caller, ts, sent, g.exchanges[|h.exchanges|..], at)
    decreases |ts|
  {
    at := [];
    if ts != [] {
      var (t, g) := ReadTurn(was, l, caller, ev, ts[0], sent, h, now);
      TurnIsGivenExactlyWhen(was, l, caller, ev, ts[0], sent, h, now);
      var rest := ExchangesFollowTurns(was, t, caller, ev, ts[1..], sent, g, now);
      var f := ReadTurns(was, t, caller, ev, ts[1..], sent, g, now).1;
      at := TurnInFront(was, caller, ts, sent, f.exchanges[|g.exchanges|..], rest);
      if g.exchanges != h.exchanges {
        StandingIsStillGranted(was, ts[0].id);
        FirstIsTold(was, caller, ts, sent, g.exchanges[|h.exchanges|], f.exchanges[|g.exchanges|..], at);
        at := [0] + at;
        TailsMeet(h.exchanges, g.exchanges, f.exchanges);
      }
    }
  }

  /** Oldest first: the i-th exchange told is the i-th from the end of those read, as a question and its answer. */
  lemma {:induction false} SaidOldestFirst(xs: seq<Exchange>, i: nat)
    requires i < |xs|
    ensures |Said(xs)| == 2 * |xs| && |Told(xs)| == |xs|
    ensures var x := xs[|xs| - 1 - i];
            Said(xs)[2 * i] == Message(true, x.user) && Said(xs)[2 * i + 1] == Message(false, x.assistant) && Told(xs)[i] == x.runId
    decreases |xs|
  {
    SaidIsLong(xs[1..]);
    if i < |xs| - 1 {
      SaidOldestFirst(xs[1..], i);
    }
  }

  lemma {:induction false} SaidIsLong(xs: seq<Exchange>)
    ensures |Said(xs)| == 2 * |xs| && |Told(xs)| == |xs|
    decreases |xs|
  {
    if xs != [] {
      SaidIsLong(xs[1..]);
    }
  }

  /** Message by message: question and answer in turn, each exchange from a later turn than the one before. */
  ghost predicate ReadsInOrder(turns: seq<Turn>, sent: seq<SentDelivery>, caller: Caller, ms: seq<Message>, ks: seq<nat>, below: nat) {
    && |ms| == 2 * |ks| && (forall i, j :: 0 <= i < j < |ks| ==> ks[i] < ks[j])
    && forall i :: 0 <= i < |ks| ==> ks[i] < |turns| && ks[i] < below && SaysTurn(turns[ks[i]], sent, caller, ms[2 * i], ms[2 * i + 1])
  }

  ghost predicate SaysTurn(t: Turn, sent: seq<SentDelivery>, caller: Caller, asked: Message, answered: Message) {
    asked.isUser && Some(asked.text) == t.inputText && !answered.isUser && Some(answered.text) == AnswerFor(t, sent, caller)
  }

  lemma ToldInOrder(was: Ledger, turns: seq<Turn>, sent: seq<SentDelivery>, caller: Caller, chosen: seq<nat>, told: seq<nat>,
                    xs: seq<Exchange>, below: nat) returns (ks: seq<nat>)
    requires Descends(chosen) && below <= |turns| && forall i :: 0 <= i < |chosen| ==> chosen[i] < below
    requires TellsInOrder(was, caller, TurnsAt(turns, chosen), sent, xs, told)
    ensures ReadsInOrder(turns, sent, caller, Said(xs), ks, below) && |ks| == |xs|
  {
    var n := |xs|;
    ks := seq(n, i requires 0 <= i < n => chosen[told[n - 1 - i]]);
    SaidIsLong(xs);
    forall i, j | 0 <= i < j < n ensures ks[i] < ks[j] {
      assert told[n - 1 - j] < told[n - 1 - i];
    }
    forall i | 0 <= i < n ensures ks[i] < below && SaysTurn(turns[ks[i]], sent, caller, Said(xs)[2 * i], Said(xs)[2 * i + 1]) {
      SaidOldestFirst(xs, i);
      assert Tells(was, caller, TurnsAt(turns, chosen)[told[n - 1 - i]], sent, xs[n - 1 - i]);
    }
  }

  /** A Run's history reads as it was said. */
  lemma HistoryReadsInOrder(s: ProvenanceModel.State, at: nat, caller: Caller, ev: Evidence, now: int) returns (ks: seq<nat>)
    requires at < |s.turns|
    ensures ReadsInOrder(s.turns, s.sent, caller, Said(LoadHistory(s, at, caller, ev, now).1.exchanges), ks, at)
  {
    var found := EarlierTurns(s.turns, s.sent, s.turns[at].conversationId, at, HISTORY_LIMIT + 1);
    var chosen := if |found| > HISTORY_LIMIT then found[..HISTORY_LIMIT] else found;
    CandidatesDescend(s.turns, s.sent, s.turns[at].conversationId, at, HISTORY_LIMIT + 1);
    var none := NO_HISTORY.(truncated := |found| > HISTORY_LIMIT);
    var told := ExchangesFollowTurns(s.ledger, s.ledger, caller, ev, TurnsAt(s.turns, chosen), s.sent, none, now);
    var xs := LoadHistory(s, at, caller, ev, now).1.exchanges;
    assert xs[|none.exchanges|..] == xs;
    ks := ToldInOrder(s.ledger, s.turns, s.sent, caller, chosen, told, xs, at);
  }

  /** What a load tells, with estimates added, is never refused for how questions and answers follow each other. */
  lemma LoadedHistoriesAlternate(xs: seq<Exchange>, entries: seq<HistoryMessages.Entry>)
    requires |entries| == |Said(xs)| && forall i :: 0 <= i < |entries| ==> entries[i].isUser == Said(xs)[i].isUser
    ensures HistoryMessages.Alternates(entries)
  {
    SaidIsLong(xs);
    forall i | 0 <= i < |entries| ensures entries[i].isUser == (i % 2 == 0) {
      SaidOldestFirst(xs, i / 2);
      assert i == 2 * (i / 2) + i % 2;
    }
  }
}
