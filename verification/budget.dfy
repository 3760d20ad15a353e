/** Projection of prior exchanges into a model's token budget. The loops of the program are
    kept; what they compute is compared with every admissible choice of exchanges. */
module ContextBudget {

  /** Number.MAX_SAFE_INTEGER. */
  const MAX_SAFE_INTEGER: int := 9007199254740991

  datatype Exchange = Exchange(id: string, userTokens: int, assistantTokens: int, required: bool)

  datatype Demand = Demand(estimatedMaterialTokens: int, estimateSource: string, requiredOutputClass: string,
                           systemTokens: int, currentMessageTokens: int, toolSchemaTokens: int,
                           requiredFloorTokens: int, exchanges: seq<Exchange>)

  datatype Capacity = Capacity(contextWindowTokens: int, outputReserveTokens: int,
                               thinkingReserveTokens: int, safetyMarginTokens: int)

  datatype Overflow =
    | InvalidCapacity
    | InvalidDemand
    | FixedFloorExceedsCapacity(floorTokens: int, floorBudget: int)
    | RequiredExchangeExceedsCapacity(exchangeId: string, requiredBudget: int)

  datatype Projection = Projection(budgetTokens: int, fixedFloorTokens: int, projectedTokens: int,
                                   included: seq<string>, omitted: seq<string>)

  datatype ProjectionResult = Projected(projection: Projection) | Overflowed(overflow: Overflow)

  predicate IsNonNegativeInteger(n: int) {
    0 <= n <= MAX_SAFE_INTEGER
  }

  predicate ValidCapacity(c: Capacity) {
    && IsNonNegativeInteger(c.contextWindowTokens)
    && IsNonNegativeInteger(c.outputReserveTokens)
    && IsNonNegativeInteger(c.thinkingReserveTokens)
    && IsNonNegativeInteger(c.safetyMarginTokens)
    && c.contextWindowTokens != 0
  }

  predicate ValidExchange(e: Exchange) {
    e.id != "" && IsNonNegativeInteger(e.userTokens) && IsNonNegativeInteger(e.assistantTokens)
  }

  ghost predicate DistinctIds(exs: seq<Exchange>) {
    forall i, j :: 0 <= i < j < |exs| ==> exs[i].id != exs[j].id
  }

  ghost predicate ValidDemand(d: Demand) {
    && IsNonNegativeInteger(d.estimatedMaterialTokens)
    && d.estimateSource != ""
    && d.requiredOutputClass in {"short", "standard", "long", "structured"}
    && IsNonNegativeInteger(d.systemTokens)
    && IsNonNegativeInteger(d.currentMessageTokens)
    && IsNonNegativeInteger(d.toolSchemaTokens)
    && IsNonNegativeInteger(d.requiredFloorTokens)
    && (forall i :: 0 <= i < |d.exchanges| ==> ValidExchange(d.exchanges[i]))
    && DistinctIds(d.exchanges)
  }

  function Budget(c: Capacity): int {
    var b := c.contextWindowTokens - c.outputReserveTokens - c.thinkingReserveTokens - c.safetyMarginTokens;
    if b < 0 then 0 else b
  }

  function FixedFloor(d: Demand): int {
    d.systemTokens + d.currentMessageTokens + d.toolSchemaTokens + d.requiredFloorTokens
  }

  function Tokens(e: Exchange): int {
    e.userTokens + e.assistantTokens
  }

  /** A choice marks, by position, the exchanges that are kept. */
  type Choice = seq<bool>

  ghost function Cost(exs: seq<Exchange>, pick: Choice): int
    requires |pick| == |exs|
  {
    if |exs| == 0 then 0
    else Cost(exs[..|exs| - 1], pick[..|exs| - 1]) + (if pick[|exs| - 1] then Tokens(exs[|exs| - 1]) else 0)
  }

  ghost function RequiredOnly(exs: seq<Exchange>): (pick: Choice)
    ensures |pick| == |exs|
  {
    seq(|exs|, i requires 0 <= i < |exs| => exs[i].required)
  }

  /** A choice an honest projection may return: every required exchange, within the limit. */
  ghost predicate Feasible(exs: seq<Exchange>, pick: Choice, limit: int) {
    && |pick| == |exs|
    && (forall i :: 0 <= i < |exs| && exs[i].required ==> pick[i])
    && Cost(exs, pick) <= limit
  }

  /** p is at least as good as q: at the newest exchange where they differ, p keeps it. */
  ghost predicate AtLeast(p: Choice, q: Choice)
    requires |p| == |q|
  {
    var n := |p|;
    n == 0 || (p[n - 1] && !q[n - 1]) || (p[n - 1] == q[n - 1] && AtLeast(p[..n - 1], q[..n - 1]))
  }

  ghost function Select(exs: seq<Exchange>, pick: Choice, keep: bool): seq<string>
    requires |pick| == |exs|
  {
    if |exs| == 0 then []
    else Select(exs[..|exs| - 1], pick[..|exs| - 1], keep)
         + (if pick[|exs| - 1] == keep then [exs[|exs| - 1].id] else [])
  }

  /** What walking newest to oldest admits, given what is left after the required exchanges. */
  ghost function Greedy(exs: seq<Exchange>, left: int): (pick: Choice)
    ensures |pick| == |exs|
    ensures forall i :: 0 <= i < |exs| && exs[i].required ==> pick[i]
  {
    if |exs| == 0 then []
    else
      var e := exs[|exs| - 1];
      if e.required then Greedy(exs[..|exs| - 1], left) + [true]
      else if Tokens(e) <= left then Greedy(exs[..|exs| - 1], left - Tokens(e)) + [true]
      else Greedy(exs[..|exs| - 1], left) + [false]
  }

  ghost predicate NonNegative(exs: seq<Exchange>) {
    forall i :: 0 <= i < |exs| ==> 0 <= Tokens(exs[i])
  }

  lemma {:induction false} RequiredIsCheapest(exs: seq<Exchange>, pick: Choice)
    requires |pick| == |exs| && NonNegative(exs)
    requires forall i :: 0 <= i < |exs| && exs[i].required ==> pick[i]
    ensures 0 <= Cost(exs, RequiredOnly(exs)) <= Cost(exs, pick)
  {
    if |exs| > 0 {
      var n := |exs| - 1;
      RequiredIsCheapest(exs[..n], pick[..n]);
      assert RequiredOnly(exs)[..n] == RequiredOnly(exs[..n]);
    }
  }

  /** The greedy choice is feasible and at least as good as any other feasible choice. */
  lemma {:induction false} GreedyIsBest(exs: seq<Exchange>, left: int, q: Choice)
    requires NonNegative(exs) && 0 <= left
    ensures Cost(exs, Greedy(exs, left)) <= Cost(exs, RequiredOnly(exs)) + left
    ensures Feasible(exs, q, Cost(exs, RequiredOnly(exs)) + left) ==> AtLeast(Greedy(exs, left), q)
  {
    if |exs| > 0 {
      var n, g := |exs| - 1, Greedy(exs, left);
      var e, front := exs[n], exs[..n];
      var rest := if e.required || Tokens(e) > left then left else left - Tokens(e);
      assert g[..n] == Greedy(front, rest);
      assert RequiredOnly(exs)[..n] == RequiredOnly(front);
      if Feasible(exs, q, Cost(exs, RequiredOnly(exs)) + left) {
        RequiredIsCheapest(front, q[..n]);
        GreedyIsBest(front, rest, q[..n]);
      } else {
        GreedyIsBest(front, rest, RequiredOnly(front));
      }
    }
  }

  /** Two choices that are each at least as good as the other are the same choice. */
  lemma {:induction false} AtLeastAntisymmetric(p: Choice, q: Choice)
    requires |p| == |q| && AtLeast(p, q) && AtLeast(q, p)
    ensures p == q
  {
    if |p| > 0 {
      var n := |p| - 1;
      AtLeastAntisymmetric(p[..n], q[..n]);
      assert p == p[..n] + [p[n]] && q == q[..n] + [q[n]];
    }
  }

  /** Nothing that was left out still fits: adding any omitted exchange breaks the limit. */
  lemma {:induction false} CostOfAdding(exs: seq<Exchange>, pick: Choice, k: nat)
    requires |pick| == |exs| && k < |exs| && !pick[k]
    ensures Cost(exs, pick[k := true]) == Cost(exs, pick) + Tokens(exs[k])
  {
    var n := |exs| - 1;
    if k < n {
      CostOfAdding(exs[..n], pick[..n], k);
      assert pick[k := true][..n] == pick[..n][k := true];
    } else {
      assert pick[k := true][..n] == pick[..n];
    }
  }

  lemma {:induction false} AddingIsBetter(pick: Choice, k: nat)
    requires k < |pick| && !pick[k]
    ensures !AtLeast(pick, pick[k := true])
  {
    var n := |pick| - 1;
    if k < n {
      assert pick[k := true][..n] == pick[..n][k := true];
      AddingIsBetter(pick[..n], k);
    }
  }

  ghost predicate Best(exs: seq<Exchange>, pick: Choice, limit: int) {
    Feasible(exs, pick, limit) && forall q :: Feasible(exs, q, limit) ==> AtLeast(pick, q)
  }

  /** The best choice is unique, leaves no room for anything it omitted, and only improves
      as the window grows. */
  lemma BestIsTightAndMonotone(exs: seq<Exchange>, p: Choice, limit: int, p': Choice, limit': int)
    requires Best(exs, p, limit) && Best(exs, p', limit') && limit <= limit'
    ensures AtLeast(p', p)
    ensures limit == limit' ==> p == p'
    ensures forall k :: 0 <= k < |exs| && !p[k] ==> Cost(exs, p) + Tokens(exs[k]) > limit
  {
    if limit == limit' {
      AtLeastAntisymmetric(p, p');
    }
    forall k | 0 <= k < |exs| && !p[k]
      ensures Cost(exs, p) + Tokens(exs[k]) > limit
    {
      CostOfAdding(exs, p, k);
      AddingIsBetter(p, k);
      assert !Feasible(exs, p[k := true], limit);
    }
  }

  /** The required exchange at which the running total of required exchanges first exceeds the limit. */
  ghost predicate FirstToOverflow(exs: seq<Exchange>, limit: int, id: string) {
    exists i :: 0 <= i < |exs| && exs[i].required && exs[i].id == id
                && Cost(exs[..i], RequiredOnly(exs[..i])) <= limit < Cost(exs[..i + 1], RequiredOnly(exs[..i + 1]))
  }

  method RequiredPass(exs: seq<Exchange>, start: int) returns (included: set<string>, remaining: int, failed: bool, failedId: string)
    requires NonNegative(exs) && DistinctIds(exs) && 0 <= start
    ensures failed <==> Cost(exs, RequiredOnly(exs)) > start
    ensures failed ==> FirstToOverflow(exs, start, failedId)
    ensures !failed ==> remaining == start - Cost(exs, RequiredOnly(exs))
    ensures !failed ==> forall i :: 0 <= i < |exs| ==> (exs[i].id in included <==> exs[i].required)
  {
    included, remaining, failed, failedId := {}, start, false, "";
    var i := 0;
    while i < |exs|
      invariant 0 <= i <= |exs|
      invariant remaining == start - Cost(exs[..i], RequiredOnly(exs[..i])) && 0 <= remaining
      invariant forall k :: 0 <= k < i ==> (exs[k].id in included <==> exs[k].required)
      invariant forall k :: i <= k < |exs| ==> exs[k].id !in included
    {
      assert exs[..i + 1][..i] == exs[..i] && RequiredOnly(exs[..i + 1])[..i] == RequiredOnly(exs[..i]);
      if exs[i].required {
        var tokens := exs[i].userTokens + exs[i].assistantTokens;
        if tokens > remaining {
          CostOfPrefix(exs, i + 1);
          failed, failedId := true, exs[i].id;
          return;
        }
        included := included + {exs[i].id};
        remaining := remaining - tokens;
      }
      i := i + 1;
    }
    assert exs[..i] == exs;
  }

  lemma {:induction false} CostOfPrefix(exs: seq<Exchange>, k: nat)
    requires k <= |exs| && NonNegative(exs)
    ensures Cost(exs[..k], RequiredOnly(exs[..k])) <= Cost(exs, RequiredOnly(exs))
    decreases |exs|
  {
    if k == |exs| {
      assert exs[..k] == exs;
    } else {
      var n := |exs| - 1;
      assert exs[..n][..k] == exs[..k] && RequiredOnly(exs)[..n] == RequiredOnly(exs[..n]);
      CostOfPrefix(exs[..n], k);
    }
  }

  /** What the walk leaves of the budget. */
  ghost function LeftOver(exs: seq<Exchange>, left: int): int {
    if |exs| == 0 then left
    else
      var e := exs[|exs| - 1];
      LeftOver(exs[..|exs| - 1], if !e.required && Tokens(e) <= left then left - Tokens(e) else left)
  }

  lemma {:induction false} LeftOverIsBudgetMinusCost(exs: seq<Exchange>, left: int)
    ensures LeftOver(exs, left) == left + Cost(exs, RequiredOnly(exs)) - Cost(exs, Greedy(exs, left))
  {
    if |exs| > 0 {
      var n, g := |exs| - 1, Greedy(exs, left);
      var e, front := exs[n], exs[..n];
      var rest := if !e.required && Tokens(e) <= left then left - Tokens(e) else left;
      assert g[..n] == Greedy(front, rest);
      assert RequiredOnly(exs)[..n] == RequiredOnly(front);
      LeftOverIsBudgetMinusCost(front, rest);
    }
  }

  lemma GreedyStep(exs: seq<Exchange>, i: nat, left: int)
    requires i < |exs|
    ensures var g := Greedy(exs[..i + 1], left);
            var takes := !exs[i].required && Tokens(exs[i]) <= left;
            && g[i] == (exs[i].required || takes)
            && g[..i] == Greedy(exs[..i], if takes then left - Tokens(exs[i]) else left)
            && LeftOver(exs[..i + 1], left) == LeftOver(exs[..i], if takes then left - Tokens(exs[i]) else left)
  {
    assert exs[..i + 1][..i] == exs[..i];
  }

  /** The ids collected so far: decided from position i on, only the required ones before it. */
  ghost predicate Collected(exs: seq<Exchange>, included: set<string>, pick: Choice, i: nat)
    requires |pick| == |exs|
  {
    forall k :: 0 <= k < |exs| ==> (exs[k].id in included <==> if k < i then exs[k].required else pick[k])
  }

  method NewestFirstPass(exs: seq<Exchange>, required: set<string>, start: int) returns (included: set<string>, remaining: int)
    requires DistinctIds(exs) && Collected(exs, required, Greedy(exs, start), |exs|)
    ensures Collected(exs, included, Greedy(exs, start), 0)
    ensures remaining == LeftOver(exs, start)
  {
    included, remaining := required, start;
    var i := |exs|;
    assert exs[..i] == exs;
    ghost var pick := Greedy(exs, start);
    assert pick[..i] == pick;
    while i > 0
      invariant 0 <= i <= |exs|
      invariant pick[..i] == Greedy(exs[..i], remaining)
      invariant Collected(exs, included, pick, i)
      invariant LeftOver(exs[..i], remaining) == LeftOver(exs, start)
    {
      i := i - 1;
      GreedyStep(exs, i, remaining);
      assert pick[i] == pick[..i + 1][i] && pick[..i] == pick[..i + 1][..i];
      assert exs[i].id in included <==> exs[i].required;
      if exs[i].id !in included {
        var tokens := exs[i].userTokens + exs[i].assistantTokens;
        if tokens <= remaining {
          CollectOne(exs, included, pick, i);
          included := included + {exs[i].id};
          remaining := remaining - tokens;
        }
      }
    }
  }

  lemma CollectOne(exs: seq<Exchange>, included: set<string>, pick: Choice, i: nat)
    requires DistinctIds(exs) && i < |exs| == |pick| && pick[i] && Collected(exs, included, pick, i + 1)
    ensures Collected(exs, included + {exs[i].id}, pick, i)
  {
  }

  method Partition(exs: seq<Exchange>, included: set<string>, ghost pick: Choice) returns (kept: seq<string>, dropped: seq<string>)
    requires |pick| == |exs|
    requires forall i :: 0 <= i < |exs| ==> (exs[i].id in included <==> pick[i])
    ensures kept == Select(exs, pick, true) && dropped == Select(exs, pick, false)
  {
    kept, dropped := [], [];
    var i := 0;
    while i < |exs|
      invariant 0 <= i <= |exs|
      invariant kept == Select(exs[..i], pick[..i], true) && dropped == Select(exs[..i], pick[..i], false)
    {
      assert exs[..i + 1][..i] == exs[..i] && pick[..i + 1][..i] == pick[..i];
      if exs[i].id in included {
        kept := kept + [exs[i].id];
      } else {
        dropped := dropped + [exs[i].id];
      }
      i := i + 1;
    }
    assert exs[..i] == exs && pick[..i] == pick;
  }

  ghost function Limit(d: Demand, c: Capacity): int {
    Budget(c) - FixedFloor(d)
  }

  method HasDuplicate(exs: seq<Exchange>) returns (found: bool)
    ensures found <==> !DistinctIds(exs)
  {
    var seen: set<string> := {};
    var i := 0;
    while i < |exs|
      invariant 0 <= i <= |exs|
      invariant forall s :: s in seen <==> exists k :: 0 <= k < i && exs[k].id == s
      invariant DistinctIds(exs[..i])
    {
      if exs[i].id in seen {
        return true;
      }
      seen := seen + {exs[i].id};
      i := i + 1;
    }
    assert exs[..i] == exs;
    return false;
  }

  method CheckDemand(d: Demand) returns (ok: bool)
    ensures ok <==> ValidDemand(d)
  {
    var duplicate := HasDuplicate(d.exchanges);
    ok := && IsNonNegativeInteger(d.estimatedMaterialTokens)
          && d.estimateSource != ""
          && d.requiredOutputClass in {"short", "standard", "long", "structured"}
          && IsNonNegativeInteger(d.systemTokens)
          && IsNonNegativeInteger(d.currentMessageTokens)
          && IsNonNegativeInteger(d.toolSchemaTokens)
          && IsNonNegativeInteger(d.requiredFloorTokens)
          && (forall i :: 0 <= i < |d.exchanges| ==> ValidExchange(d.exchanges[i]))
          && !duplicate;
  }

  /** The projection a choice of exchanges stands for. */
  ghost predicate Shows(d: Demand, c: Capacity, pick: Choice, p: Projection) {
    && Best(d.exchanges, pick, Limit(d, c))
    && p.budgetTokens == Budget(c)
    && p.fixedFloorTokens == FixedFloor(d)
    && p.projectedTokens == FixedFloor(d) + Cost(d.exchanges, pick) <= Budget(c)
    && p.included == Select(d.exchanges, pick, true)
    && p.omitted == Select(d.exchanges, pick, false)
  }

  lemma GreedyBest(exs: seq<Exchange>, limit: int)
    requires NonNegative(exs) && Cost(exs, RequiredOnly(exs)) <= limit
    ensures var left := limit - Cost(exs, RequiredOnly(exs));
            Best(exs, Greedy(exs, left), limit) && LeftOver(exs, left) == limit - Cost(exs, Greedy(exs, left))
  {
    var left := limit - Cost(exs, RequiredOnly(exs));
    var pick := Greedy(exs, left);
    LeftOverIsBudgetMinusCost(exs, left);
    forall q | Feasible(exs, q, limit) ensures AtLeast(pick, q) {
      GreedyIsBest(exs, left, q);
    }
    GreedyIsBest(exs, left, pick);
  }

  /** Both admission passes and the final partition, once the fixed floor is known to fit. */
  method Admit(d: Demand, c: Capacity) returns (r: ProjectionResult)
    requires ValidDemand(d) && 0 <= Limit(d, c)
    ensures r.Projected? <==> Cost(d.exchanges, RequiredOnly(d.exchanges)) <= Limit(d, c)
    ensures r.Projected? ==> exists pick :: Shows(d, c, pick, r.projection)
    ensures r.Overflowed? ==> (&& r.overflow.RequiredExchangeExceedsCapacity?
                               && FirstToOverflow(d.exchanges, Limit(d, c), r.overflow.exchangeId))
  {
    var included, remaining, failed, failedId := RequiredPass(d.exchanges, Budget(c) - FixedFloor(d));
    if failed {
      return Overflowed(RequiredExchangeExceedsCapacity(failedId, Budget(c)));
    }
    GreedyBest(d.exchanges, Limit(d, c));
    ghost var pick := Greedy(d.exchanges, remaining);
    included, remaining := NewestFirstPass(d.exchanges, included, remaining);
    var kept, dropped := Partition(d.exchanges, included, pick);
    r := Projected(Projection(Budget(c), FixedFloor(d), Budget(c) - remaining, kept, dropped));
    assert Shows(d, c, pick, r.projection);
  }

  method ProjectContextBudget(d: Demand, c: Capacity) returns (r: ProjectionResult)
    // It succeeds exactly when the inputs are valid and the floors fit ...
    ensures r.Projected? <==> ValidCapacity(c) && ValidDemand(d) && 0 <= Limit(d, c)
                              && Cost(d.exchanges, RequiredOnly(d.exchanges)) <= Limit(d, c)
    // ... reports the first floor that does not ...
    ensures r == Overflowed(InvalidCapacity) <==> !ValidCapacity(c)
    ensures r == Overflowed(InvalidDemand) <==> ValidCapacity(c) && !ValidDemand(d)
    ensures r.Overflowed? && r.overflow.FixedFloorExceedsCapacity? <==>
              ValidCapacity(c) && ValidDemand(d) && Limit(d, c) < 0
    ensures r.Overflowed? && r.overflow.RequiredExchangeExceedsCapacity? ==>
              FirstToOverflow(d.exchanges, Limit(d, c), r.overflow.exchangeId)
    // ... and otherwise keeps, in the original order, the best choice that fits.
    ensures r.Projected? ==> exists pick :: Shows(d, c, pick, r.projection)
  {
    if !ValidCapacity(c) {
      return Overflowed(InvalidCapacity);
    }
    var ok := CheckDemand(d);
    if !ok {
      return Overflowed(InvalidDemand);
    }
    if FixedFloor(d) > Budget(c) {
      return Overflowed(FixedFloorExceedsCapacity(FixedFloor(d), Budget(c)));
    }
    r := Admit(d, c);
  }
}
