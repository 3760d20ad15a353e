/** Keyset pagination: following cursors to the end reads the whole table once, in order. */
module Paging {
  import opened Options

  /** A text as its code points, or a row number as the one element of a list. */
  type Ordinal = seq<int>

  datatype Cursor = Cursor(time: Ordinal, tie: Ordinal)

  datatype Row = Row(key: Cursor, payload: string)

  datatype Page = Page(items: seq<Row>, nextCursor: Option<Cursor>)

  const START: Cursor := Cursor([], [])
  const DEFAULT_LIMIT: nat := 30
  const MAX_LIMIT: nat := 100

  // ---------------------------------------------------------------------------------------
  // Order

  predicate Less(a: Ordinal, b: Ordinal)
    decreases |a|
  {
    if b == [] then false
    else if a == [] then true
    else a[0] < b[0] || (a[0] == b[0] && Less(a[1..], b[1..]))
  }

  /** (created_at, id) > (?, ?). */
  predicate After(k: Cursor, than: Cursor) {
    Less(than.time, k.time) || (than.time == k.time && Less(than.tie, k.tie))
  }

  lemma {:induction false} LessIsStrict(a: Ordinal, b: Ordinal)
    ensures !(Less(a, b) && Less(b, a)) && !Less(a, a)
    decreases |a|
  {
    if a != [] && b != [] {
      LessIsStrict(a[1..], b[1..]);
    } else if a != [] {
      LessIsStrict(a[1..], a[1..]);
    }
  }

  lemma {:induction false} LessIsTransitive(a: Ordinal, b: Ordinal, c: Ordinal)
    requires Less(a, b) && Less(b, c)
    ensures Less(a, c)
    decreases |a|
  {
    if a != [] && a[0] == b[0] == c[0] {
      LessIsTransitive(a[1..], b[1..], c[1..]);
    }
  }

  lemma AfterIsStrict(a: Cursor, b: Cursor)
    ensures !(After(a, b) && After(b, a)) && !After(a, a)
  {
    LessIsStrict(a.time, b.time);
    LessIsStrict(a.time, a.time);
    LessIsStrict(a.tie, b.tie);
    LessIsStrict(a.tie, a.tie);
  }

  /** The rows as ORDER BY gives them; their keys are different and their times are not empty. */
  ghost predicate InOrder(rows: seq<Row>) {
    && (forall i, j :: 0 <= i < j < |rows| ==> After(rows[j].key, rows[i].key))
    && (forall i :: 0 <= i < |rows| ==> rows[i].key.time != [])
  }

  // ---------------------------------------------------------------------------------------
  // Pages

  /** WHERE (created_at, id) > cursor. */
  function Matching(rows: seq<Row>, after: Cursor): seq<Row>
    decreases |rows|
  {
    if rows == [] then []
    else if After(rows[0].key, after) then [rows[0]] + Matching(rows[1..], after)
    else Matching(rows[1..], after)
  }

  predicate ValidLimit(limit: int) { 1 <= limit <= MAX_LIMIT }

  /** One row more than the page holds is read, to tell whether another page follows. */
  function ListPage(rows: seq<Row>, after: Cursor, limit: nat): (p: Page)
    requires ValidLimit(limit)
    ensures p.nextCursor.Some? ==> p.items != [] && p.nextCursor.value == p.items[|p.items| - 1].key
  {
    var found := Matching(rows, after);
    if |found| > limit then Page(found[..limit], Some(found[limit - 1].key)) else Page(found, None)
  }

  /** SELECT … WHERE (created_at, id) > (?, ?) ORDER BY created_at, id LIMIT ?. */
  method QueryRows(rows: seq<Row>, after: Cursor, most: nat) returns (fetched: seq<Row>)
    ensures var whole := Matching(rows, after); fetched == if |whole| > most then whole[..most] else whole
  {
    fetched := [];
    var i := 0;
    ghost var whole := Matching(rows, after);
    while i < |rows| && |fetched| < most
      invariant 0 <= i <= |rows| && |fetched| <= most
      invariant whole == fetched + Matching(rows[i..], after)
    {
      assert rows[i..][0] == rows[i] && rows[i..][1..] == rows[i + 1..];
      if After(rows[i].key, after) {
        assert fetched + ([rows[i]] + Matching(rows[i + 1..], after)) == (fetched + [rows[i]]) + Matching(rows[i + 1..], after);
        fetched := fetched + [rows[i]];
      }
      i := i + 1;
    }
  }

  /** The page made of what the query returns. */
  method QueryPage(rows: seq<Row>, cursor: Option<Cursor>, limit: Option<int>) returns (page: Option<Page>)
    ensures var n := if limit.Some? then limit.value else DEFAULT_LIMIT;
            page == if ValidLimit(n) then Some(ListPage(rows, if cursor.Some? then cursor.value else START, n)) else None
  {
    var n := if limit.Some? then limit.value else DEFAULT_LIMIT;
    if n < 1 || n > MAX_LIMIT {
      return None;
    }
    var after := if cursor.Some? then cursor.value else START;
    var fetched := QueryRows(rows, after, n + 1);
    ghost var whole := Matching(rows, after);
    if |fetched| > n {
      assert fetched[..n] == whole[..n];
      page := Some(Page(fetched[..n], Some(fetched[n - 1].key)));
    } else {
      page := Some(Page(fetched, None));
    }
  }

  /** All pages, one after the other; the k-th may have its own size. */
  function Follow(rows: seq<Row>, after: Cursor, limitAt: nat -> nat, k: nat): seq<Row>
    requires InOrder(rows) && forall n :: ValidLimit(limitAt(n))
    decreases |Matching(rows, after)|
  {
    var page := ListPage(rows, after, limitAt(k));
    if page.nextCursor.None? then page.items
    else
      FewerLeft(rows, after, limitAt(k));
      page.items + Follow(rows, page.nextCursor.value, limitAt, k + 1)
  }

  // ---------------------------------------------------------------------------------------
  // Every row, once, in order

  lemma {:induction false} AllMatch(rows: seq<Row>, after: Cursor)
    requires forall i :: 0 <= i < |rows| ==> After(rows[i].key, after)
    ensures Matching(rows, after) == rows
    decreases |rows|
  {
    if rows != [] {
      AllMatch(rows[1..], after);
    }
  }

  lemma {:induction false} NoneMatch(before: seq<Row>, rows: seq<Row>, after: Cursor)
    requires forall i :: 0 <= i < |before| ==> !After(before[i].key, after)
    ensures Matching(before + rows, after) == Matching(rows, after)
    decreases |before|
  {
    if before == [] {
      assert before + rows == rows;
    } else {
      assert (before + rows)[1..] == before[1..] + rows && (before + rows)[0] == before[0];
      NoneMatch(before[1..], rows, after);
    }
  }

  lemma OnlyLaterRowsComeAfter(rows: seq<Row>, i: nat, j: nat)
    requires InOrder(rows) && i < |rows| && j < |rows|
    ensures After(rows[j].key, rows[i].key) <==> i < j
  {
    AfterIsStrict(rows[j].key, rows[i].key);
    AfterIsStrict(rows[i].key, rows[i].key);
    if j < i {
      assert After(rows[i].key, rows[j].key);
    }
  }

  /** After the key of one row come exactly the rows behind it. */
  lemma MatchingIsTheRest(rows: seq<Row>, i: nat)
    requires InOrder(rows) && i < |rows|
    ensures Matching(rows, rows[i].key) == rows[i + 1..]
  {
    var before, rest, key := rows[..i + 1], rows[i + 1..], rows[i].key;
    forall j | 0 <= j < |before| ensures !After(before[j].key, key) {
      OnlyLaterRowsComeAfter(rows, i, j);
    }
    forall j | 0 <= j < |rest| ensures After(rest[j].key, key) {
      OnlyLaterRowsComeAfter(rows, i, i + 1 + j);
    }
    NoneMatch(before, rest, key);
    AllMatch(rest, key);
    assert rows == before + rest;
  }

  lemma EverythingComesAfterTheStart(rows: seq<Row>)
    requires InOrder(rows)
    ensures Matching(rows, START) == rows
  {
    AllMatch(rows, START);
  }

  /** What a cursor leaves to read is some tail of the table. */
  lemma {:induction false} MatchingIsATail(rows: seq<Row>, after: Cursor) returns (i: nat)
    requires InOrder(rows)
    ensures i <= |rows| && Matching(rows, after) == rows[i..]
    decreases |rows|
  {
    if rows == [] {
      i := 0;
    } else if After(rows[0].key, after) {
      forall j | 0 <= j < |rows| ensures After(rows[j].key, after) {
        if j > 0 {
          AfterIsTransitive(rows[j].key, rows[0].key, after);
        }
      }
      AllMatch(rows, after);
      i := 0;
    } else {
      i := MatchingIsATail(rows[1..], after);
      i := i + 1;
    }
  }

  lemma AfterIsTransitive(a: Cursor, b: Cursor, c: Cursor)
    requires After(a, b) && After(b, c)
    ensures After(a, c)
  {
    if Less(c.time, b.time) && Less(b.time, a.time) {
      LessIsTransitive(c.time, b.time, a.time);
    } else if c.time == b.time == a.time {
      LessIsStrict(a.time, a.time);
      LessIsTransitive(c.tie, b.tie, a.tie);
    }
  }

  lemma FewerLeft(rows: seq<Row>, after: Cursor, limit: nat)
    requires InOrder(rows) && ValidLimit(limit) && ListPage(rows, after, limit).nextCursor.Some?
    ensures var next := ListPage(rows, after, limit).nextCursor.value;
            && |Matching(rows, next)| < |Matching(rows, after)|
            && Matching(rows, after) == ListPage(rows, after, limit).items + Matching(rows, next)
  {
    var i := MatchingIsATail(rows, after);
    assert Matching(rows, after)[limit - 1] == rows[i + limit - 1];
    MatchingIsTheRest(rows, i + limit - 1);
  }

  lemma {:induction false} FollowReadsTheRest(rows: seq<Row>, after: Cursor, limitAt: nat -> nat, k: nat)
    requires InOrder(rows) && forall n :: ValidLimit(limitAt(n))
    ensures Follow(rows, after, limitAt, k) == Matching(rows, after)
    decreases |Matching(rows, after)|
  {
    var page := ListPage(rows, after, limitAt(k));
    if page.nextCursor.Some? {
      FewerLeft(rows, after, limitAt(k));
      FollowReadsTheRest(rows, page.nextCursor.value, limitAt, k + 1);
    }
  }

  /** From the first page to the null cursor, whatever sizes the pages have, every row of the table is
      read exactly once, in order. */
  lemma CursorsVisitEveryRowOnce(rows: seq<Row>, limitAt: nat -> nat)
    requires InOrder(rows) && forall n :: ValidLimit(limitAt(n))
    ensures Follow(rows, START, limitAt, 0) == rows
  {
    FollowReadsTheRest(rows, START, limitAt, 0);
    EverythingComesAfterTheStart(rows);
  }
}
