/** A Run's history on its way to a model: paired into exchanges, projected into the budget, and
    filtered back to the messages of the exchanges that were kept. */
module HistoryMessages {
  import opened Options
  import opened ContextBudget

  /** A history entry with the estimate of its text. */
  datatype Entry = Entry(isUser: bool, text: string, tokens: nat)

  const OVERHEAD: nat := 8

  // ---------------------------------------------------------------------------------------
  // Exchange ids

  const DIGITS: string := "0123456789"

  /** String(n). */
  function Decimal(n: nat): (s: string)
    ensures s != [] && ValueOf(s) == n && forall i :: 0 <= i < |s| ==> s[i] in DIGITS
  {
    if n < 10 then
      assert ValueOf([DIGITS[n]]) == n by { assert [DIGITS[n]][..0] == []; }
      [DIGITS[n]]
    else
      var s := Decimal(n / 10) + [DIGITS[n % 10]];
      assert s[..|s| - 1] == Decimal(n / 10);
      s
  }

  function DigitValue(c: char): int { c as int - '0' as int }

  function ValueOf(s: string): int
    decreases |s|
  {
    if s == [] then 0 else 10 * ValueOf(s[..|s| - 1]) + DigitValue(s[|s| - 1])
  }

  /** How an index is printed; String in the program, which tells indices apart. */
  type Naming = nat -> string

  ghost predicate TellsApart(name: Naming) {
    forall m, n :: name(m) == name(n) ==> m == n
  }

  lemma DecimalTellsApart()
    ensures TellsApart(Decimal) && forall n :: Decimal(n) != ""
  {
    forall m: nat, n: nat | Decimal(m) == Decimal(n) ensures m == n {
      assert ValueOf(Decimal(m)) == m && ValueOf(Decimal(n)) == n;
    }
  }

  // ---------------------------------------------------------------------------------------
  // Pairing

  /** Users first, answers second; only the last answer may be missing. */
  predicate Alternates(history: seq<Entry>) {
    forall i :: 0 <= i < |history| ==> history[i].isUser == (i % 2 == 0)
  }

  function PairCount(history: seq<Entry>): nat { (|history| + 1) / 2 }

  function PairAt(history: seq<Entry>, name: Naming, k: nat): Exchange
    requires k < PairCount(history)
  {
    Exchange(name(2 * k), history[2 * k].tokens + OVERHEAD,
             if 2 * k + 1 < |history| then history[2 * k + 1].tokens + OVERHEAD else 0, false)
  }

  method PairHistory(history: seq<Entry>, name: Naming) returns (exchanges: Option<seq<Exchange>>)
    ensures exchanges.Some? <==> Alternates(history)
    ensures exchanges.Some? ==> |exchanges.value| == PairCount(history)
                                && forall k :: 0 <= k < PairCount(history) ==> exchanges.value[k] == PairAt(history, name, k)
  {
    var pairs: seq<Exchange> := [];
    var index := 0;
    while index < |history|
      invariant index == 2 * |pairs| && |pairs| <= PairCount(history)
      invariant forall i :: 0 <= i < index && i < |history| ==> history[i].isUser == (i % 2 == 0)
      invariant forall k :: 0 <= k < |pairs| ==> pairs[k] == PairAt(history, name, k)
    {
      var first := history[index];
      if !first.isUser || (index + 1 < |history| && history[index + 1].isUser) {
        return None;
      }
      pairs := pairs + [Exchange(name(index), first.tokens + OVERHEAD,
                                 if index + 1 < |history| then history[index + 1].tokens + OVERHEAD else 0, false)];
      index := index + 2;
    }
    exchanges := Some(pairs);
  }

  /** The pairs a history gives are told apart by their ids, as the projection demands. */
  lemma PairsHaveDistinctIds(history: seq<Entry>, exchanges: seq<Exchange>)
    requires |exchanges| == PairCount(history) && forall k :: 0 <= k < |exchanges| ==> exchanges[k] == PairAt(history, Decimal, k)
    ensures DistinctIds(exchanges) && forall k :: 0 <= k < |exchanges| ==> exchanges[k].id != ""
  {
    DecimalTellsApart();
    forall i, j | 0 <= i < j < |exchanges| ensures exchanges[i].id != exchanges[j].id {
      assert exchanges[i].id == Decimal(2 * i) && exchanges[j].id == Decimal(2 * j);
    }
  }

  // ---------------------------------------------------------------------------------------
  // Filtering back

  /** Where the exchange of the i-th entry starts. */
  function StartOf(i: nat): nat { i - i % 2 }

  lemma ExchangeStart(i: nat)
    requires i % 2 == 0
    ensures StartOf(i) == StartOf(i + 1) == i
  {
  }

  function Kept(history: seq<Entry>, name: Naming, admitted: set<string>, from: nat := 0): seq<Entry>
    requires from <= |history|
    decreases |history| - from
  {
    if from == |history| then []
    else (if name(StartOf(from)) in admitted then [history[from]] else []) + Kept(history, name, admitted, from + 1)
  }

  lemma KeepOne(bounded: seq<Entry>, history: seq<Entry>, name: Naming, admitted: set<string>, i: nat)
    requires i < |history|
    ensures var mine := if name(StartOf(i)) in admitted then [history[i]] else [];
            bounded + Kept(history, name, admitted, i) == (bounded + mine) + Kept(history, name, admitted, i + 1)
  {
    var mine, later := if name(StartOf(i)) in admitted then [history[i]] else [], Kept(history, name, admitted, i + 1);
    assert Kept(history, name, admitted, i) == mine + later;
    assert bounded + (mine + later) == (bounded + mine) + later;
  }

  /** history.filter((_, index) => admitted.has(String(index - (index % 2)))). */
  method FilterHistory(history: seq<Entry>, name: Naming, admitted: set<string>) returns (bounded: seq<Entry>)
    ensures bounded == Kept(history, name, admitted)
  {
    bounded := [];
    for i := 0 to |history|
      invariant bounded + Kept(history, name, admitted, i) == Kept(history, name, admitted)
    {
      KeepOne(bounded, history, name, admitted, i);
      if name(StartOf(i)) in admitted {
        bounded := bounded + [history[i]];
      } else {
        assert bounded + [] == bounded;
      }
    }
    assert bounded + [] == bounded;
  }

  /** The messages of the k-th exchange. */
  function MessagesOf(history: seq<Entry>, k: nat): seq<Entry>
    requires k < PairCount(history)
  {
    if 2 * k + 1 < |history| then history[2 * k..2 * k + 2] else history[2 * k..]
  }

  function MessagesOfKept(history: seq<Entry>, name: Naming, admitted: set<string>, k: nat := 0): seq<Entry>
    requires k <= PairCount(history)
    decreases PairCount(history) - k
  {
    if k == PairCount(history) then []
    else (if name(2 * k) in admitted then MessagesOf(history, k) else []) + MessagesOfKept(history, name, admitted, k + 1)
  }

  lemma KeptTwo(history: seq<Entry>, name: Naming, admitted: set<string>, i: nat)
    requires i + 1 < |history| && i % 2 == 0
    ensures Kept(history, name, admitted, i)
            == (if name(i) in admitted then history[i..i + 2] else []) + Kept(history, name, admitted, i + 2)
  {
    ExchangeStart(i);
    var rest := Kept(history, name, admitted, i + 2);
    var second := if name(i) in admitted then [history[i + 1]] else [];
    assert Kept(history, name, admitted, i + 1) == second + rest;
    if name(i) in admitted {
      assert history[i..i + 2] == [history[i]] + second;
      assert [history[i]] + (second + rest) == ([history[i]] + second) + rest;
    } else {
      assert [] + ([] + rest) == rest;
    }
  }

  lemma KeptLast(history: seq<Entry>, name: Naming, admitted: set<string>, i: nat)
    requires i + 1 == |history| && i % 2 == 0
    ensures Kept(history, name, admitted, i) == if name(i) in admitted then history[i..] else []
  {
    ExchangeStart(i);
    assert history[i..] == [history[i]];
  }

  lemma {:induction false} KeptFromPair(history: seq<Entry>, name: Naming, admitted: set<string>, k: nat)
    requires 2 * k <= |history|
    ensures k <= PairCount(history) && Kept(history, name, admitted, 2 * k) == MessagesOfKept(history, name, admitted, k)
    decreases |history| - 2 * k
  {
    if 2 * k + 1 < |history| {
      KeptTwo(history, name, admitted, 2 * k);
      KeptFromPair(history, name, admitted, k + 1);
    } else if 2 * k < |history| {
      KeptLast(history, name, admitted, 2 * k);
    }
  }

  /** What reaches the model is whole exchanges, in order: exactly the messages of those kept. */
  lemma WholeExchangesAreKept(history: seq<Entry>, name: Naming, admitted: set<string>)
    ensures Kept(history, name, admitted) == MessagesOfKept(history, name, admitted)
  {
    KeptFromPair(history, name, admitted, 0);
  }

  function Tokens(entries: seq<Entry>): nat
    decreases |entries|
  {
    if entries == [] then 0 else entries[0].tokens + OVERHEAD + Tokens(entries[1..])
  }

  lemma {:induction false} TokensJoin(a: seq<Entry>, b: seq<Entry>)
    ensures Tokens(a + b) == Tokens(a) + Tokens(b)
    decreases |a|
  {
    if a == [] {
      assert a + b == b;
    } else {
      assert (a + b)[1..] == a[1..] + b;
      TokensJoin(a[1..], b);
    }
  }

  /** The exchanges a history is paired into. */
  function PairsOf(history: seq<Entry>, name: Naming): seq<Exchange> {
    seq(PairCount(history), k requires 0 <= k < PairCount(history) => PairAt(history, name, k))
  }

  /** The ids stand for this choice of exchanges. */
  ghost predicate Stands(admitted: set<string>, exs: seq<Exchange>, pick: Choice) {
    |pick| == |exs| && forall k :: 0 <= k < |exs| ==> (exs[k].id in admitted <==> pick[k])
  }

  lemma PairCost(history: seq<Entry>, name: Naming, k: nat)
    requires k < PairCount(history)
    ensures var e := PairAt(history, name, k); Tokens(MessagesOf(history, k)) == e.userTokens + e.assistantTokens
  {
    if 2 * k + 1 < |history| {
      assert MessagesOf(history, k) == [history[2 * k]] + [history[2 * k + 1]];
      TokensJoin([history[2 * k]], [history[2 * k + 1]]);
    } else {
      assert MessagesOf(history, k) == [history[2 * k]];
    }
  }

  /** The messages sent cost exactly what the projection accounted for the exchanges it chose. */
  lemma {:induction false} MessagesCostTheirExchanges(history: seq<Entry>, name: Naming, admitted: set<string>, pick: Choice, k: nat)
    requires Stands(admitted, PairsOf(history, name), pick) && k <= PairCount(history)
    ensures Cost(PairsOf(history, name)[..k], pick[..k]) + Tokens(MessagesOfKept(history, name, admitted, k))
            == Cost(PairsOf(history, name), pick)
    decreases PairCount(history) - k
  {
    var exs := PairsOf(history, name);
    if k < PairCount(history) {
      MessagesCostTheirExchanges(history, name, admitted, pick, k + 1);
      PairCost(history, name, k);
      assert exs[..k + 1][..k] == exs[..k] && pick[..k + 1][..k] == pick[..k] && exs[k].id in admitted <==> pick[k];
      TokensJoin(if name(2 * k) in admitted then MessagesOf(history, k) else [], MessagesOfKept(history, name, admitted, k + 1));
    } else {
      assert exs[..k] == exs && pick[..k] == pick;
    }
  }

  lemma {:induction false} SelectedExactly(exs: seq<Exchange>, pick: Choice)
    requires DistinctIds(exs) && |pick| == |exs|
    ensures forall k :: 0 <= k < |exs| ==> (exs[k].id in Select(exs, pick, true) <==> pick[k])
    ensures forall id :: id in Select(exs, pick, true) ==> exists k :: 0 <= k < |exs| && exs[k].id == id
  {
    if exs != [] {
      SelectedExactly(exs[..|exs| - 1], pick[..|exs| - 1]);
    }
  }

  // ---------------------------------------------------------------------------------------
  // From the history to the messages

  /** Room a model keeps free beside its answer. */
  const MARGIN: nat := 512

  function SumOf(exs: seq<Exchange>): int {
    if exs == [] then 0 else SumOf(exs[..|exs| - 1]) + exs[|exs| - 1].userTokens + exs[|exs| - 1].assistantTokens
  }

  function DemandOf(systemTokens: nat, textTokens: nat, exs: seq<Exchange>): Demand {
    Demand(systemTokens + textTokens + SumOf(exs), "unicode_conservative", "standard", systemTokens, textTokens + OVERHEAD, 0, 0, exs)
  }

  function CapacityOf(window: int, output: int): Capacity { Capacity(window, output, 0, MARGIN) }

  datatype Prepared = CapacityUnknown | GateRefused | ContextOverflow | Ready(messages: seq<Entry>)

  lemma {:induction false} NothingIsRequired(exs: seq<Exchange>)
    requires forall k :: 0 <= k < |exs| ==> !exs[k].required
    ensures Cost(exs, RequiredOnly(exs)) == 0
  {
    if exs != [] {
      NothingIsRequired(exs[..|exs| - 1]);
      assert RequiredOnly(exs)[..|exs| - 1] == RequiredOnly(exs[..|exs| - 1]);
    }
  }

  /** The exchanges sent are the best that fit; the messages are theirs, whole and in order, and fit beside the
      prompt and the question. */
  ghost predicate Fills(history: seq<Entry>, systemTokens: nat, textTokens: nat, c: Capacity, messages: seq<Entry>) {
    var exs := PairsOf(history, Decimal);
    exists pick, admitted ::
      && Best(exs, pick, Limit(DemandOf(systemTokens, textTokens, exs), c)) && Stands(admitted, exs, pick)
      && messages == MessagesOfKept(history, Decimal, admitted)
      && systemTokens + textTokens + OVERHEAD + Tokens(messages) <= Budget(c)
  }

  /** Pairing, projecting and filtering back, for a model whose window and output may be unknown. */
  method BoundHistory(history: seq<Entry>, systemTokens: nat, textTokens: nat, window: Option<int>, output: Option<int>)
    returns (r: Prepared)
    ensures r.CapacityUnknown? <==> window.None? || output.None? || output.value >= window.value
    ensures r.GateRefused? <==> !r.CapacityUnknown? && !Alternates(history)
    ensures !r.CapacityUnknown? && !r.GateRefused? ==>
              var c, d := CapacityOf(window.value, output.value), DemandOf(systemTokens, textTokens, PairsOf(history, Decimal));
              && (r.Ready? <==> ValidCapacity(c) && ValidDemand(d) && systemTokens + textTokens + OVERHEAD <= Budget(c))
              && (r.Ready? ==> Fills(history, systemTokens, textTokens, c, r.messages))
  {
    if window.None? || output.None? || output.value >= window.value {
      return CapacityUnknown;
    }
    var exchanges := PairHistory(history, Decimal);
    if exchanges.None? {
      return GateRefused;
    }
    var exs := exchanges.value;
    assert exs == PairsOf(history, Decimal);
    NothingIsRequired(exs);
    var c, d := CapacityOf(window.value, output.value), DemandOf(systemTokens, textTokens, exs);
    var projected := ProjectContextBudget(d, c);
    if projected.Overflowed? {
      return ContextOverflow;
    }
    var admitted := set id | id in projected.projection.included;
    var bounded := FilterHistory(history, Decimal, admitted);
    ghost var pick :| Shows(d, c, pick, projected.projection);
    SelectedExactly(exs, pick);
    WholeExchangesAreKept(history, Decimal, admitted);
    MessagesCostTheirExchanges(history, Decimal, admitted, pick, 0);
    assert Stands(admitted, exs, pick);
    r := Ready(bounded);
  }
}
