/** Delegation chains: the walk, what it accepts, and that it only attenuates. */
module AuthDelegation {
  import opened Options
  import opened AuthModel

  /** A way up from the Task to a root, one parent link at a time. */
  ghost predicate IsLineage(links: map<Id, Link>, task: Id, path: seq<Id>) {
    && |path| > 0 && path[0] == task
    && (forall i :: 0 <= i < |path| - 1 ==> path[i] in links && links[path[i]].parent == path[i + 1])
    && path[|path| - 1] !in links
  }

  ghost predicate Distinct(path: seq<Id>) {
    forall i, j :: 0 <= i < j < |path| ==> path[i] != path[j]
  }

  lemma {:induction false} LineageIsLineage(links: map<Id, Link>, task: Id, limit: nat)
    ensures var l := Lineage(links, task, limit);
            l.Some? ==> IsLineage(links, task, l.value) && |l.value| <= limit
    decreases limit
  {
    if limit > 0 && task in links {
      LineageIsLineage(links, links[task].parent, limit - 1);
    }
  }

  lemma {:induction false} ShortLineageIsFound(links: map<Id, Link>, task: Id, limit: nat, path: seq<Id>)
    requires IsLineage(links, task, path) && |path| <= limit
    ensures Lineage(links, task, limit) == Some(path)
    decreases limit
  {
    if task in links {
      assert IsLineage(links, links[task].parent, path[1..]);
      ShortLineageIsFound(links, links[task].parent, limit - 1, path[1..]);
      assert path == [task] + path[1..];
    } else {
      assert |path| == 1 && path == [path[0]];
    }
  }

  /** Two positions of one Task stay in step, so a repeated Task would never reach a root. */
  lemma {:induction false} InStep(links: map<Id, Link>, task: Id, path: seq<Id>, i: nat, j: nat, k: nat)
    requires IsLineage(links, task, path) && i < j && j + k < |path| && path[i] == path[j]
    ensures path[i + k] == path[j + k]
    decreases k
  {
    if k > 0 {
      InStep(links, task, path, i, j, k - 1);
    }
  }

  lemma LineagesNeverRepeat(links: map<Id, Link>, task: Id, path: seq<Id>)
    requires IsLineage(links, task, path)
    ensures Distinct(path)
  {
    forall i, j | 0 <= i < j < |path| ensures path[i] != path[j] {
      if path[i] == path[j] {
        InStep(links, task, path, i, j, |path| - 1 - j);
      }
    }
  }

  /** A chain passes exactly when a root is reached without repetition in at most five Tasks and
      every link on the way lists the permission (or the action is the Task's own business). */
  lemma ChainAllowsExactlyWhen(links: map<Id, Link>, task: Id, p: Permission, technical: bool)
    ensures ChainAllows(links, task, p, technical) <==>
            exists path :: IsLineage(links, task, path) && Distinct(path) && |path| <= MAX_LINEAGE
                           && forall i :: 0 <= i < |path| - 1 ==> Lists(links[path[i]], p, technical)
  {
    LineageIsLineage(links, task, MAX_LINEAGE);
    if ChainAllows(links, task, p, technical) {
      LineagesNeverRepeat(links, task, Lineage(links, task, MAX_LINEAGE).value);
    }
    forall path | IsLineage(links, task, path) && |path| <= MAX_LINEAGE ensures Lineage(links, task, MAX_LINEAGE) == Some(path) {
      ShortLineageIsFound(links, task, MAX_LINEAGE, path);
    }
  }

  /** What a child may do, its parent may do: delegation only attenuates. */
  lemma DelegationOnlyAttenuates(links: map<Id, Link>, child: Id, p: Permission)
    requires child in links && ChainAllows(links, child, p, false)
    ensures ChainAllows(links, links[child].parent, p, false)
    ensures links[child].permissions.Some? && p in links[child].permissions.value
  {
    var parent := links[child].parent;
    var path := Lineage(links, child, MAX_LINEAGE).value;
    LineageIsLineage(links, child, MAX_LINEAGE);
    assert IsLineage(links, parent, path[1..]);
    ShortLineageIsFound(links, parent, MAX_LINEAGE, path[1..]);
    assert path[0] == child;
  }

  /** A Task above itself, or with five Tasks above it, is refused whatever it asks for. */
  lemma CyclesAndLongChainsAreRefused(links: map<Id, Link>, task: Id, walk: seq<Id>, p: Permission, technical: bool)
    requires |walk| > 0 && walk[0] == task
    requires forall i :: 0 <= i < |walk| - 1 ==> walk[i] in links && links[walk[i]].parent == walk[i + 1]
    requires !Distinct(walk) || |walk| > MAX_LINEAGE
    ensures !ChainAllows(links, task, p, technical)
  {
    if ChainAllows(links, task, p, technical) {
      var path := Lineage(links, task, MAX_LINEAGE).value;
      LineageIsLineage(links, task, MAX_LINEAGE);
      WalkFollowsLineage(links, task, path, walk);
      LineagesNeverRepeat(links, task, path);
    }
  }

  lemma {:induction false} WalkFollowsLineage(links: map<Id, Link>, task: Id, path: seq<Id>, walk: seq<Id>)
    requires IsLineage(links, task, path) && |walk| > 0 && walk[0] == task
    requires forall i :: 0 <= i < |walk| - 1 ==> walk[i] in links && links[walk[i]].parent == walk[i + 1]
    ensures walk <= path
    decreases |walk|
  {
    if |walk| > 1 {
      assert IsLineage(links, links[task].parent, path[1..]);
      WalkFollowsLineage(links, links[task].parent, path[1..], walk[1..]);
      assert path == [task] + path[1..] && walk == [task] + walk[1..];
    }
  }

  // ---------------------------------------------------------------------------------------
  // The two walks

  /** The part of a walk already done, and what is left of the lineage. */
  ghost predicate Walked(links: map<Id, Link>, task: Id, walked: seq<Id>, current: Id) {
    && (walked == [] ==> current == task) && (walked != [] ==> walked[0] == task)
    && (forall t :: t in walked ==> t in links)
    && (forall i :: 0 <= i < |walked| - 1 ==> links[walked[i]].parent == walked[i + 1])
    && (walked != [] ==> links[walked[|walked| - 1]].parent == current)
  }

  lemma WalkOn(links: map<Id, Link>, task: Id, walked: seq<Id>, current: Id)
    requires Walked(links, task, walked, current) && current in links
    ensures Walked(links, task, walked + [current], links[current].parent)
  {
  }

  lemma WalkSoFar(links: map<Id, Link>, task: Id, walked: seq<Id>, current: Id, path: seq<Id>)
    requires Walked(links, task, walked, current) && IsLineage(links, task, path)
    ensures |walked| < |path| && walked == path[..|walked|] && path[|walked|] == current
  {
    var walk := walked + [current];
    assert forall i :: 0 <= i < |walk| - 1 ==> walk[i] in links && links[walk[i]].parent == walk[i + 1];
    WalkFollowsLineage(links, task, path, walk);
    assert walk[|walked|] == current;
  }

  /** A walk that comes back, or is still going after five Tasks, has no short lineage. */
  lemma WalkFails(links: map<Id, Link>, task: Id, walked: seq<Id>, current: Id)
    requires Walked(links, task, walked, current) && (current in walked || |walked| >= MAX_LINEAGE)
    ensures Lineage(links, task, MAX_LINEAGE).None?
  {
    var l := Lineage(links, task, MAX_LINEAGE);
    LineageIsLineage(links, task, MAX_LINEAGE);
    if l.Some? {
      WalkSoFar(links, task, walked, current, l.value);
      LineagesNeverRepeat(links, task, l.value);
    }
  }

  lemma WalkArrives(links: map<Id, Link>, task: Id, walked: seq<Id>, current: Id)
    requires Walked(links, task, walked, current) && current !in links && |walked| < MAX_LINEAGE
    ensures Lineage(links, task, MAX_LINEAGE) == Some(walked + [current])
  {
    ShortLineageIsFound(links, task, MAX_LINEAGE, walked + [current]);
  }

  lemma WalkStopsAtABadLink(links: map<Id, Link>, task: Id, walked: seq<Id>, current: Id, p: Permission, technical: bool)
    requires Walked(links, task, walked, current) && current in links && !Lists(links[current], p, technical)
    ensures !ChainAllows(links, task, p, technical)
  {
    if ChainAllows(links, task, p, technical) {
      LineageIsLineage(links, task, MAX_LINEAGE);
      WalkSoFar(links, task, walked, current, Lineage(links, task, MAX_LINEAGE).value);
    }
  }

  /** The authorization walk. */
  method WalkChain(links: map<Id, Link>, task: Id, p: Permission, technical: bool) returns (allowed: bool)
    ensures allowed == ChainAllows(links, task, p, technical)
  {
    var seen: set<Id> := {};
    var current := task;
    ghost var walked: seq<Id> := [];
    for depth := 0 to MAX_LINEAGE
      invariant |walked| == depth && Walked(links, task, walked, current)
      invariant seen == set t | t in walked
      invariant forall t :: t in walked ==> Lists(links[t], p, technical)
    {
      if current in seen {
        WalkFails(links, task, walked, current);
        return false;
      }
      seen := seen + {current};
      if current !in links {
        WalkArrives(links, task, walked, current);
        return true;
      }
      if links[current].permissions.None? || (!technical && p !in links[current].permissions.value) {
        WalkStopsAtABadLink(links, task, walked, current, p, technical);
        return false;
      }
      walked := walked + [current];
      current := links[current].parent;
    }
    WalkFails(links, task, walked, current);
    allowed := false;
  }

  /** Every Task of the lineage is stored, and so is the Run it came from. */
  ghost predicate RowsExist(env: Environment, path: seq<Id>) {
    forall t :: t in path ==> t in env.tasks && (env.tasks[t].runId.Some? ==> env.tasks[t].runId.value in env.runs)
  }

  function OriginRuns(env: Environment, path: seq<Id>): seq<Id>
    requires forall t :: t in path ==> t in env.tasks
    decreases |path|
  {
    if path == [] then []
    else
      var before := OriginRuns(env, path[..|path| - 1]);
      var run := env.tasks[path[|path| - 1]].runId;
      if run.Some? then before + [run.value] else before
  }

  /** The set of visited Tasks has the walk's Tasks and as many of them. */
  ghost predicate Visited(seen: set<Id>, walked: seq<Id>) {
    |seen| == |walked| && forall t :: t in seen <==> t in walked
  }

  lemma VisitOne(seen: set<Id>, walked: seq<Id>, current: Id)
    requires Visited(seen, walked) && current !in seen
    ensures Visited(seen + {current}, walked + [current])
  {
  }

  lemma SourcesOfOneMore(env: Environment, walked: seq<Id>, current: Id)
    requires RowsExist(env, walked) && current in env.tasks
    requires env.tasks[current].runId.Some? ==> env.tasks[current].runId.value in env.runs
    ensures var next := walked + [current];
            && RowsExist(env, next)
            && OriginRuns(env, next)
               == OriginRuns(env, walked) + if env.tasks[current].runId.Some? then [env.tasks[current].runId.value] else []
  {
    var next := walked + [current];
    assert next[..|next| - 1] == walked;
  }

  ghost function SourceRuns(env: Environment, task: Id): Option<seq<Id>> {
    var lineage := Lineage(env.links, task, MAX_LINEAGE);
    if lineage.Some? && RowsExist(env, lineage.value) then Some(OriginRuns(env, lineage.value)) else None
  }

  /** The source walk: the origin Runs of the Task and of every Task above it. It accepts the
      lineages the authorization walk accepts, provided their rows exist. */
  method WalkSources(env: Environment, task: Id) returns (runs: Option<seq<Id>>)
    ensures runs == SourceRuns(env, task)
  {
    var seen: set<Id> := {};
    var found: seq<Id> := [];
    var current := task;
    ghost var walked: seq<Id> := [];
    while true
      invariant |walked| <= MAX_LINEAGE && Walked(env.links, task, walked, current) && Visited(seen, walked)
      invariant RowsExist(env, walked) && found == OriginRuns(env, walked)
      decreases MAX_LINEAGE - |walked|
    {
      if current in seen || |seen| >= MAX_LINEAGE {
        WalkFails(env.links, task, walked, current);
        return None;
      }
      VisitOne(seen, walked, current);
      seen := seen + {current};
      if current !in env.tasks || (env.tasks[current].runId.Some? && env.tasks[current].runId.value !in env.runs) {
        MissingRow(env, task, walked, current);
        return None;
      }
      SourcesOfOneMore(env, walked, current);
      if env.tasks[current].runId.Some? {
        found := found + [env.tasks[current].runId.value];
      }
      if current !in env.links {
        WalkArrives(env.links, task, walked, current);
        return Some(found);
      }
      WalkOn(env.links, task, walked, current);
      walked := walked + [current];
      current := env.links[current].parent;
    }
  }

  lemma MissingRow(env: Environment, task: Id, walked: seq<Id>, current: Id)
    requires Walked(env.links, task, walked, current)
    requires current !in env.tasks || (env.tasks[current].runId.Some? && env.tasks[current].runId.value !in env.runs)
    ensures SourceRuns(env, task).None?
  {
    LineageIsLineage(env.links, task, MAX_LINEAGE);
    if Lineage(env.links, task, MAX_LINEAGE).Some? {
      WalkSoFar(env.links, task, walked, current, Lineage(env.links, task, MAX_LINEAGE).value);
    }
  }

  /** The source walk accepts the same shapes: a root reached without repetition in at most five
      Tasks, whatever the links pass on, provided the rows exist. */
  lemma SourcesAreTracedExactlyWhen(env: Environment, task: Id)
    ensures SourceRuns(env, task).Some? <==>
            exists path :: IsLineage(env.links, task, path) && Distinct(path) && |path| <= MAX_LINEAGE && RowsExist(env, path)
  {
    LineageIsLineage(env.links, task, MAX_LINEAGE);
    if Lineage(env.links, task, MAX_LINEAGE).Some? {
      LineagesNeverRepeat(env.links, task, Lineage(env.links, task, MAX_LINEAGE).value);
    }
    forall path | IsLineage(env.links, task, path) && |path| <= MAX_LINEAGE ensures Lineage(env.links, task, MAX_LINEAGE) == Some(path) {
      ShortLineageIsFound(env.links, task, MAX_LINEAGE, path);
    }
  }
}
