/** Sets of source decisions: their union by key, and the walk over the ancestors of rows that
    predate stored source sets. */
module MemorySources {
  import opened Options
  import ProvenanceModel

  type Id = string

  type Key = ProvenanceModel.Key

  /** A decision row; the key is missing where its mark or its route does not parse. */
  datatype Row = Row(allowed: bool, key: Option<Key>)

  const SOURCE_LIMIT: nat := 128
  const ANCESTOR_LIMIT: nat := 32

  predicate Usable(table: map<Id, Row>, id: Id) {
    id in table && table[id].allowed && table[id].key.Some?
  }

  predicate AllUsable(table: map<Id, Row>, ids: set<Id>) {
    forall id :: id in ids ==> Usable(table, id)
  }

  function KeysAt(table: map<Id, Row>, ids: set<Id>): set<Key> {
    set id | id in ids && Usable(table, id) :: table[id].key.value
  }

  ghost predicate OnePerKey(table: map<Id, Row>, ids: set<Id>) {
    forall i, j :: i in ids && j in ids && Usable(table, i) && Usable(table, j) && table[i].key == table[j].key ==> i == j
  }

  ghost function UnionOf(sets: seq<set<Id>>): set<Id> {
    set s, id | s in sets && id in s :: id
  }

  /** A set of decisions that stands for exactly these keys. */
  ghost predicate StandsFor(table: map<Id, Row>, ids: set<Id>, all: set<Id>) {
    && ids <= all && AllUsable(table, all) && KeysAt(table, ids) == KeysAt(table, all) && OnePerKey(table, ids)
    && |KeysAt(table, all)| <= SOURCE_LIMIT && |ids| <= SOURCE_LIMIT
  }

  // ---------------------------------------------------------------------------------------
  // Union by key

  lemma {:induction false} NoMoreValuesThanKeys(m: map<Key, Id>)
    ensures |m.Values| <= |m|
    decreases |m|
  {
    if m != map[] {
      var k :| k in m;
      var rest := m - {k};
      assert m.Values == rest.Values + {m[k]} by {
        forall v | v in m.Values ensures v in rest.Values + {m[k]} {
          var x :| x in m && m[x] == v;
          assert x != k ==> x in rest && rest[x] == v;
        }
      }
      assert m.Keys == rest.Keys + {k} && |rest.Keys| == |m.Keys| - 1;
      NoMoreValuesThanKeys(rest);
    }
  }

  lemma FewerKeys(table: map<Id, Row>, a: set<Id>, b: set<Id>)
    requires a <= b
    ensures KeysAt(table, a) <= KeysAt(table, b) && |KeysAt(table, a)| <= |KeysAt(table, b)|
  {
    var x, y := KeysAt(table, a), KeysAt(table, b);
    assert x <= y;
    assert |y| == |x| + |y - x|;
  }

  /** One decision for each key among these; which one depends on the order the rows come in. */
  method OneOfEach(table: map<Id, Row>, wanted: set<Id>) returns (unique: map<Key, Id>)
    requires AllUsable(table, wanted)
    ensures unique.Keys == KeysAt(table, wanted)
    ensures forall k :: k in unique ==> unique[k] in wanted && table[unique[k]].key == Some(k)
  {
    unique := map[];
    var rest := wanted;
    while rest != {}
      invariant rest <= wanted
      invariant unique.Keys == KeysAt(table, wanted - rest)
      invariant forall k :: k in unique ==> unique[k] in wanted && table[unique[k]].key == Some(k)
      decreases |rest|
    {
      var id :| id in rest;
      assert wanted - (rest - {id}) == (wanted - rest) + {id};
      assert KeysAt(table, (wanted - rest) + {id}) == KeysAt(table, wanted - rest) + {table[id].key.value};
      unique := unique[table[id].key.value := id];
      rest := rest - {id};
    }
    assert wanted - rest == wanted;
  }

  lemma ChosenStandFor(table: map<Id, Row>, unique: map<Key, Id>, wanted: set<Id>)
    requires AllUsable(table, wanted) && unique.Keys == KeysAt(table, wanted) && |unique| <= SOURCE_LIMIT
    requires forall k :: k in unique ==> unique[k] in wanted && table[unique[k]].key == Some(k)
    ensures StandsFor(table, unique.Values, wanted)
  {
    NoMoreValuesThanKeys(unique);
    assert |unique.Keys| == |unique|;
    forall k | k in KeysAt(table, wanted) ensures k in KeysAt(table, unique.Values) {
      assert unique[k] in unique.Values && Usable(table, unique[k]);
    }
    forall id | id in unique.Values ensures id in wanted {
    }
  }

  lemma Extended(table: map<Id, Row>, result: set<Id>, all: set<Id>, more: set<Id>, wider: set<Id>, next: set<Id>)
    requires StandsFor(table, result, all) && wider == all + more && StandsFor(table, next, result + more)
    ensures StandsFor(table, next, wider)
  {
    assert KeysAt(table, wider) == KeysAt(table, all) + KeysAt(table, more);
    assert KeysAt(table, result + more) == KeysAt(table, result) + KeysAt(table, more);
  }

  /** Usable is a decision that is there, allowed its read, and says what it was about. */
  lemma UsableExactlyWhen(table: map<Id, Row>, sets: seq<set<Id>>)
    ensures AllUsable(table, UnionOf(sets)) <==>
              forall i, id :: 0 <= i < |sets| && id in sets[i] ==> id in table && table[id].allowed && table[id].key.Some?
  {
    if AllUsable(table, UnionOf(sets)) {
      forall i, id | 0 <= i < |sets| && id in sets[i] ensures id in table && table[id].allowed && table[id].key.Some? {
        assert sets[i] in sets && id in UnionOf(sets);
      }
    }
    if forall i, id :: 0 <= i < |sets| && id in sets[i] ==> id in table && table[id].allowed && table[id].key.Some? {
      forall id | id in UnionOf(sets) ensures Usable(table, id) {
        var s :| s in sets && id in s;
        var i :| 0 <= i < |sets| && sets[i] == s;
      }
    }
  }

  /** Keeps exactly one decision per key, none dropped; refuses an unusable decision or too many
      keys, and nothing else while each set fits the limit itself. */
  method UnionLearningSources(table: map<Id, Row>, sets: seq<set<Id>>) returns (result: Option<set<Id>>)
    ensures result.Some? ==> StandsFor(table, result.value, UnionOf(sets))
    ensures (forall s :: s in sets ==> |s| <= SOURCE_LIMIT) ==>
              (result.Some? <==> AllUsable(table, UnionOf(sets)) && |KeysAt(table, UnionOf(sets))| <= SOURCE_LIMIT)
  {
    var kept: set<Id> := {};
    ghost var all: set<Id> := {};
    for i := 0 to |sets|
      invariant all == UnionOf(sets[..i]) && StandsFor(table, kept, all)
    {
      var wanted := kept + sets[i];
      OneMoreSet(sets, i);
      Bounded(kept, sets[i]);
      if |wanted| > SOURCE_LIMIT * 2 || exists id :: id in wanted && !Usable(table, id) {
        return None;
      }
      var unique := OneOfEach(table, wanted);
      if |unique| > SOURCE_LIMIT {
        TooManyKeys(table, unique, wanted, all, sets, i);
        return None;
      }
      ChosenStandFor(table, unique, wanted);
      Extended(table, kept, all, sets[i], UnionOf(sets[..i + 1]), unique.Values);
      kept := unique.Values;
      all := UnionOf(sets[..i + 1]);
    }
    assert sets[..|sets|] == sets;
    result := Some(kept);
  }

  lemma OneMoreSet(sets: seq<set<Id>>, i: nat)
    requires i < |sets|
    ensures UnionOf(sets[..i + 1]) == UnionOf(sets[..i]) + sets[i] && UnionOf(sets[..i + 1]) <= UnionOf(sets)
    ensures sets[i] in sets
  {
    assert sets[..i + 1] == sets[..i] + [sets[i]];
    forall s | s in sets[..i + 1] ensures s in sets {
    }
  }

  lemma Bounded(a: set<Id>, b: set<Id>)
    ensures |a + b| <= |a| + |b|
  {
    assert |a + b| == |a| + |b - a|;
    assert |b| == |b - a| + |a * b|;
  }

  lemma TooManyKeys(table: map<Id, Row>, unique: map<Key, Id>, wanted: set<Id>, all: set<Id>, sets: seq<set<Id>>, i: nat)
    requires i < |sets| && unique.Keys == KeysAt(table, wanted) && |unique| > SOURCE_LIMIT
    requires wanted <= all + sets[i] && all == UnionOf(sets[..i])
    ensures |KeysAt(table, UnionOf(sets))| > SOURCE_LIMIT
  {
    OneMoreSet(sets, i);
    assert |unique.Keys| == |unique|;
    FewerKeys(table, wanted, UnionOf(sets));
  }

  // ---------------------------------------------------------------------------------------
  // Ancestors

  datatype Target = Candidate(id: Id) | Memory(id: Id)

  /** A row either stores its sources or is legacy: then `own` are the sources its evidence and its
      Runs prove, and `links` the candidates and memories its audit names; without proof there is
      nothing to carry. */
  datatype Node = Stored(ids: set<Id>) | Legacy(own: set<Id>, links: seq<Target>, proven: bool)

  function OwnIds(n: Node): set<Id> {
    if n.Stored? then n.ids else n.own
  }

  ghost predicate Path(nodes: map<Target, Node>, path: seq<Target>) {
    && |path| > 0 && path[|path| - 1] in nodes
    && forall i :: 0 <= i < |path| - 1 ==> path[i] in nodes && nodes[path[i]].Legacy? && path[i + 1] in nodes[path[i]].links
  }

  ghost predicate CarriesVia(table: map<Id, Row>, nodes: map<Target, Node>, path: seq<Target>, from: Target, k: Key) {
    Path(nodes, path) && path[0] == from && k in KeysAt(table, OwnIds(nodes[path[|path| - 1]]))
  }

  /** A source of this row, or of a row its legacy links lead to. */
  ghost predicate Carries(table: map<Id, Row>, nodes: map<Target, Node>, from: Target, k: Key) {
    exists path :: CarriesVia(table, nodes, path, from, k)
  }

  ghost predicate CarriesOn(table: map<Id, Row>, nodes: map<Target, Node>, later: map<Target, Node>) {
    later.Keys == nodes.Keys && forall x, k :: Carries(table, nodes, x, k) <==> Carries(table, later, x, k)
  }

  ghost predicate Exactly(table: map<Id, Row>, nodes: map<Target, Node>, from: Target, ids: set<Id>) {
    && AllUsable(table, ids) && OnePerKey(table, ids) && |ids| <= SOURCE_LIMIT
    && forall k :: k in KeysAt(table, ids) <==> Carries(table, nodes, from, k)
  }

  lemma OwnIsCarried(table: map<Id, Row>, nodes: map<Target, Node>, n: Target, k: Key)
    requires n in nodes && k in KeysAt(table, OwnIds(nodes[n]))
    ensures Carries(table, nodes, n, k)
  {
    assert CarriesVia(table, nodes, [n], n, k);
  }

  lemma LinkedIsCarried(table: map<Id, Row>, nodes: map<Target, Node>, n: Target, m: Target, k: Key)
    requires n in nodes && nodes[n].Legacy? && m in nodes[n].links && Carries(table, nodes, m, k)
    ensures Carries(table, nodes, n, k)
  {
    var path :| CarriesVia(table, nodes, path, m, k);
    var longer := [n] + path;
    forall i | 0 <= i < |longer| - 1
      ensures longer[i] in nodes && nodes[longer[i]].Legacy? && longer[i + 1] in nodes[longer[i]].links
    {
      if i > 0 {
        assert longer[i] == path[i - 1] && longer[i + 1] == path[(i - 1) + 1];
      }
    }
    assert CarriesVia(table, nodes, longer, n, k);
  }

  lemma CarriedIsOwnOrLinked(table: map<Id, Row>, nodes: map<Target, Node>, n: Target, k: Key)
    requires Carries(table, nodes, n, k)
    ensures n in nodes
    ensures k in KeysAt(table, OwnIds(nodes[n]))
            || (nodes[n].Legacy? && exists j :: 0 <= j < |nodes[n].links| && Carries(table, nodes, nodes[n].links[j], k))
  {
    var path :| CarriesVia(table, nodes, path, n, k);
    if |path| > 1 {
      assert path[0] in nodes && path[0 + 1] in nodes[path[0]].links;
      var rest := path[1..];
      forall i | 0 <= i < |rest| - 1 ensures rest[i] in nodes && nodes[rest[i]].Legacy? && rest[i + 1] in nodes[rest[i]].links {
        assert path[i + 1] in nodes && path[(i + 1) + 1] in nodes[path[i + 1]].links;
      }
      assert CarriesVia(table, nodes, rest, path[1], k);
      var j :| 0 <= j < |nodes[n].links| && nodes[n].links[j] == path[1];
    }
  }

  /** Storing a row's proven sources changes what no row carries. */
  lemma StoringCarriesOn(table: map<Id, Row>, nodes: map<Target, Node>, n: Target, ids: set<Id>)
    requires n in nodes && Exactly(table, nodes, n, ids)
    ensures CarriesOn(table, nodes, nodes[n := Stored(ids)])
  {
    var later := nodes[n := Stored(ids)];
    forall x, k | Carries(table, nodes, x, k) ensures Carries(table, later, x, k) {
      CarriedAfterStoring(table, nodes, n, ids, x, k);
    }
    forall x, k | Carries(table, later, x, k) ensures Carries(table, nodes, x, k) {
      CarriedBeforeStoring(table, nodes, n, ids, x, k);
    }
  }

  lemma CarriedAfterStoring(table: map<Id, Row>, nodes: map<Target, Node>, n: Target, ids: set<Id>, x: Target, k: Key)
    requires n in nodes && Exactly(table, nodes, n, ids) && Carries(table, nodes, x, k)
    ensures Carries(table, nodes[n := Stored(ids)], x, k)
  {
    var later := nodes[n := Stored(ids)];
    var path :| CarriesVia(table, nodes, path, x, k);
    if n in path {
      var i := FirstAt(path, n);
      var tail := path[i..];
      forall j | 0 <= j < |tail| - 1 ensures tail[j] in nodes && nodes[tail[j]].Legacy? && tail[j + 1] in nodes[tail[j]].links {
        assert path[i + j] in nodes && path[(i + j) + 1] in nodes[path[i + j]].links;
      }
      assert CarriesVia(table, nodes, tail, n, k);
      var head := path[..i + 1];
      forall j | 0 <= j < |head| - 1 ensures head[j] in later && later[head[j]].Legacy? && head[j + 1] in later[head[j]].links {
        assert head[j] == path[j] && path[j] != n && path[j + 1] in nodes[path[j]].links;
      }
      assert CarriesVia(table, later, head, x, k);
    } else {
      forall j | 0 <= j < |path| - 1 ensures path[j] in later && later[path[j]].Legacy? && path[j + 1] in later[path[j]].links {
        assert path[j] in path && path[j + 1] in nodes[path[j]].links;
      }
      assert path[|path| - 1] in path;
      assert CarriesVia(table, later, path, x, k);
    }
  }

  lemma FirstAt(path: seq<Target>, n: Target) returns (i: nat)
    requires n in path
    ensures i < |path| && path[i] == n && forall j :: 0 <= j < i ==> path[j] != n
  {
    i := 0;
    while path[i] != n
      invariant i < |path| && n in path[i..] && forall j :: 0 <= j < i ==> path[j] != n
      decreases |path| - i
    {
      i := i + 1;
    }
  }

  lemma CarriedBeforeStoring(table: map<Id, Row>, nodes: map<Target, Node>, n: Target, ids: set<Id>, x: Target, k: Key)
    requires n in nodes && Exactly(table, nodes, n, ids) && Carries(table, nodes[n := Stored(ids)], x, k)
    ensures Carries(table, nodes, x, k)
  {
    var later := nodes[n := Stored(ids)];
    var path :| CarriesVia(table, later, path, x, k);
    forall j | 0 <= j < |path| - 1 ensures path[j] in nodes && nodes[path[j]].Legacy? && path[j + 1] in nodes[path[j]].links {
      assert path[j] in later && later[path[j]].Legacy? && path[j + 1] in later[path[j]].links;
    }
    if path[|path| - 1] == n {
      var onward :| CarriesVia(table, nodes, onward, n, k);
      JoinedPath(table, nodes, path, onward, x, n, k);
    } else {
      assert CarriesVia(table, nodes, path, x, k);
    }
  }

  lemma JoinedPath(table: map<Id, Row>, nodes: map<Target, Node>, path: seq<Target>, onward: seq<Target>, x: Target, n: Target, k: Key)
    requires Path(nodes, path) && path[0] == x && path[|path| - 1] == n && CarriesVia(table, nodes, onward, n, k)
    ensures Carries(table, nodes, x, k)
  {
    var whole := path + onward[1..];
    forall j | 0 <= j < |whole| - 1 ensures whole[j] in nodes && nodes[whole[j]].Legacy? && whole[j + 1] in nodes[whole[j]].links {
      if j < |path| - 1 {
        assert whole[j] == path[j] && whole[j + 1] == path[j + 1];
      } else {
        var i := j - (|path| - 1);
        assert whole[j] == onward[i] && whole[j + 1] == onward[i + 1];
      }
    }
    assert whole[|whole| - 1] == onward[|onward| - 1];
    assert CarriesVia(table, nodes, whole, x, k);
  }

  lemma UnionOfOne(a: set<Id>)
    ensures UnionOf([a]) == a
  {
  }

  lemma UnionOfTwo(a: set<Id>, b: set<Id>)
    ensures UnionOf([a, b]) == a + b
  {
    assert a in [a, b] && b in [a, b];
  }

  // ---------------------------------------------------------------------------------------
  // The walk

  class SourceStore {
    const table: map<Id, Row>
    var nodes: map<Target, Node>

    constructor (table: map<Id, Row>, nodes: map<Target, Node>)
      ensures this.table == table && this.nodes == nodes
    {
      this.table := table;
      this.nodes := nodes;
    }

    /** One counter is shared by the whole walk, so it ends; a row on the way to itself is refused. */
    method Walk(n: Target, active: set<Target>, count: nat) returns (sources: Option<set<Id>>, used: nat)
      modifies this`nodes
      ensures sources.Some? ==> count < used <= ANCESTOR_LIMIT
      ensures sources.Some? ==> Exactly(table, old(nodes), n, sources.value) && CarriesOn(table, old(nodes), nodes)
      ensures sources.Some? ==> forall x :: x in active && x in nodes ==> nodes[x] == old(nodes[x])
      decreases ANCESTOR_LIMIT - count
    {
      used := count + 1;
      if n in active || used > ANCESTOR_LIMIT || n !in nodes {
        return None, used;
      }
      if nodes[n].Stored? {
        sources := UnionLearningSources(table, [nodes[n].ids]);
        if sources.Some? {
          StoredIsExact(table, nodes, n, sources.value);
        }
        return;
      }
      var row := nodes[n];
      if !row.proven {
        return None, used;
      }
      sources := UnionLearningSources(table, [row.own]);
      UnionOfOne(row.own);
      var i := 0;
      while sources.Some? && i < |row.links|
        invariant 0 <= i <= |row.links|
        invariant sources.Some? ==> count < used <= ANCESTOR_LIMIT && n in nodes && nodes[n] == row
        invariant sources.Some? ==> CarriesOn(table, old(nodes), nodes) && PartlyCarried(table, old(nodes), row, i, sources.value)
        invariant sources.Some? ==> forall x :: x in active && x in nodes ==> nodes[x] == old(nodes[x])
      {
        ghost var before := nodes;
        var linked: Option<set<Id>>;
        linked, used := Walk(row.links[i], active + {n}, used);
        if linked.None? {
          return None, used;
        }
        ghost var was := sources.value;
        sources := UnionLearningSources(table, [sources.value, linked.value]);
        if sources.Some? {
          UnionOfTwo(was, linked.value);
          OneMoreLink(table, old(nodes), before, row, i, was, linked.value, sources.value);
        }
        i := i + 1;
      }
      if sources.Some? {
        WholeIsExact(table, old(nodes), n, row, sources.value);
        ExactLater(table, old(nodes), nodes, n, sources.value);
        StoringCarriesOn(table, nodes, n, sources.value);
        nodes := nodes[n := Stored(sources.value)];
      }
    }

    /** What the row carries, or nothing at all: a refusal puts back every row the walk stored. */
    method LearningSourcesFor(n: Target) returns (sources: Option<set<Id>>)
      modifies this`nodes
      ensures sources.Some? ==> Exactly(table, old(nodes), n, sources.value) && CarriesOn(table, old(nodes), nodes)
      ensures sources.None? ==> nodes == old(nodes)
    {
      var before := nodes;
      var used: nat;
      sources, used := Walk(n, {}, 0);
      if sources.None? {
        nodes := before;
      }
    }
  }

  lemma StoredIsExact(table: map<Id, Row>, nodes: map<Target, Node>, n: Target, ids: set<Id>)
    requires n in nodes && nodes[n].Stored? && StandsFor(table, ids, UnionOf([nodes[n].ids]))
    ensures Exactly(table, nodes, n, ids)
  {
    UnionOfOne(nodes[n].ids);
    forall k ensures k in KeysAt(table, ids) <==> Carries(table, nodes, n, k) {
      if k in KeysAt(table, nodes[n].ids) {
        OwnIsCarried(table, nodes, n, k);
      }
      if Carries(table, nodes, n, k) {
        CarriedIsOwnOrLinked(table, nodes, n, k);
      }
    }
  }

  /** The sources gathered so far: the row's own and those its first links lead to. */
  ghost predicate PartlyCarried(table: map<Id, Row>, nodes: map<Target, Node>, row: Node, upTo: nat, ids: set<Id>)
    requires row.Legacy? && upTo <= |row.links|
  {
    && AllUsable(table, ids) && OnePerKey(table, ids) && |ids| <= SOURCE_LIMIT
    && forall k :: k in KeysAt(table, ids) <==>
                     k in KeysAt(table, row.own) || exists j :: 0 <= j < upTo && Carries(table, nodes, row.links[j], k)
  }

  lemma OneMoreLink(table: map<Id, Row>, first: map<Target, Node>, before: map<Target, Node>, row: Node, i: nat, was: set<Id>,
                    linked: set<Id>, ids: set<Id>)
    requires row.Legacy? && i < |row.links| && PartlyCarried(table, first, row, i, was) && CarriesOn(table, first, before)
    requires Exactly(table, before, row.links[i], linked) && StandsFor(table, ids, was + linked)
    ensures PartlyCarried(table, first, row, i + 1, ids)
  {
    assert KeysAt(table, was + linked) == KeysAt(table, was) + KeysAt(table, linked);
    forall k ensures k in KeysAt(table, ids) <==>
                       k in KeysAt(table, row.own) || exists j :: 0 <= j < i + 1 && Carries(table, first, row.links[j], k) {
      assert k in KeysAt(table, linked) <==> Carries(table, first, row.links[i], k);
    }
  }

  lemma WholeIsExact(table: map<Id, Row>, nodes: map<Target, Node>, n: Target, row: Node, ids: set<Id>)
    requires n in nodes && nodes[n] == row && row.Legacy? && PartlyCarried(table, nodes, row, |row.links|, ids)
    ensures Exactly(table, nodes, n, ids)
  {
    forall k ensures k in KeysAt(table, ids) <==> Carries(table, nodes, n, k) {
      if k in KeysAt(table, row.own) {
        OwnIsCarried(table, nodes, n, k);
      } else if j :| 0 <= j < |row.links| && Carries(table, nodes, row.links[j], k) {
        LinkedIsCarried(table, nodes, n, row.links[j], k);
      }
      if Carries(table, nodes, n, k) {
        CarriedIsOwnOrLinked(table, nodes, n, k);
      }
    }
  }

  lemma ExactLater(table: map<Id, Row>, nodes: map<Target, Node>, later: map<Target, Node>, n: Target, ids: set<Id>)
    requires Exactly(table, nodes, n, ids) && CarriesOn(table, nodes, later)
    ensures Exactly(table, later, n, ids)
  {
  }
}
