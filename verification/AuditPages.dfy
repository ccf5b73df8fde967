/** What AuditDb::list and AuditDb::count answer, and what reading the trail page by page
    shows. */
module AuditPages {
  import opened AuditTypes
  import opened Sql
  import opened AuditQuery
  import opened AuditList
  import Sorting

  /** Newest first, and among equal times the highest id first. */
  predicate NewerFirst(x: Row, y: Row) {
    x.cols.ts > y.cols.ts || (x.cols.ts == y.cols.ts && x.id >= y.id)
  }

  function Order(): (Row, Row) -> bool {
    (x, y) => NewerFirst(x, y)
  }

  /** The rows the filter matches, in table order. */
  function Matching(f: Filter, rows: seq<Row>): seq<Row> {
    if rows == [] then []
    else Matching(f, rows[..|rows| - 1]) + if Matches(f, rows[|rows| - 1].cols) then [rows[|rows| - 1]] else []
  }

  /** All matches in the order they are listed. */
  function Listed(f: Filter, rows: seq<Row>): seq<Row> {
    Sorting.Sort(Order(), Matching(f, rows))
  }

  function Least(a: nat, b: nat): nat {
    if b < a then b else a
  }

  function PageAt<T>(xs: seq<T>, size: nat, offset: nat): seq<T> {
    xs[Least(offset, |xs|)..Least(offset + size, |xs|)]
  }

  /** The rows the statement selects, in table order. */
  function Selected(where: seq<Token>, binds: map<int, Val>, rows: seq<Row>): seq<Row> {
    if rows == [] then []
    else
      var last := rows[|rows| - 1];
      Selected(where, binds, rows[..|rows| - 1])
        + if Selects(where, Env(ReadRow(last.cols), binds)) then [last] else []
  }

  lemma {:induction false} SelectedIsMatching(f: Filter, rows: seq<Row>)
    ensures Selected(Joined(Conds(f)), Numbered(AllArgs(Conds(f))), rows) == Matching(f, rows)
  {
    hide Selects, Matches, Joined, Numbered, AllArgs, Conds;
    if rows != [] {
      SelectedIsMatching(f, rows[..|rows| - 1]);
      NumberedInOrder(AllArgs(Conds(f)));
      SelectsWhatMatches(f, Numbered(AllArgs(Conds(f))), rows[|rows| - 1].cols);
    }
  }

  /** The events are those listed from `start` on, at most `size` and at most `readable` of them,
      and fewer only where the listing ends. */
  predicate ShowsFrom<T(==)>(events: seq<T>, listed: seq<T>, start: nat, size: nat, readable: nat) {
    && |events| <= size && |events| <= readable
    && (forall i | 0 <= i < |events| :: start + i < |listed| && events[i] == listed[start + i])
    && (|events| < size && |events| < readable ==> start + |events| >= |listed|)
  }

  lemma PageShows<T>(listed: seq<T>, start: nat, size: nat, readable: nat)
    ensures var page := PageAt(listed, size, start);
            ShowsFrom(page[..Least(readable, |page|)], listed, start, size, readable)
  {
  }

  /** A page of the matches, newest first; nothing when the statement cannot be prepared, and
      only the first `readable` rows of the page when reading it fails after those. */
  method List(rows: seq<Row>, f: Filter, prepareOk: bool, readable: nat) returns (events: seq<Row>)
    ensures var page := PageAt(Listed(f, rows), PageSize(f.limit), Start(f.offset));
            events == if prepareOk then page[..Least(readable, |page|)] else []
    ensures var size := if f.limit < 1 then 1 else if f.limit > 1000 then 1000 else f.limit;
            var start := if f.offset > 0 then f.offset else 0;
            if prepareOk then ShowsFrom(events, Listed(f, rows), start, size, readable) else events == []
  {
    hide Selects, Joined, Numbered, Bound, Matching, PageAt, ShowsFrom;
    var q := BuildListQuery(f);
    var found := Selected(q.where, Bound(q.ints, q.texts), rows);
    SelectedIsMatching(f, rows);
    if !prepareOk {
      return [];
    }
    PageShows(Listed(f, rows), q.offset, q.limit, readable);
    var page := PageAt(Sorting.Sort(Order(), found), q.limit, q.offset);
    events := ReadRows(page, readable);
  }

  /** The rows one after the other, until the last or the one that cannot be read. */
  method ReadRows(page: seq<Row>, readable: nat) returns (events: seq<Row>)
    ensures events == page[..Least(readable, |page|)]
  {
    events := [];
    for i := 0 to Least(readable, |page|)
      invariant events == page[..i]
    {
      events := events + [page[i]];
    }
  }

  /** How many rows match, or 0 when the statement fails. */
  method Count(rows: seq<Row>, f: Filter, prepareOk: bool, stepOk: bool) returns (n: nat)
    ensures n == if prepareOk && stepOk then |Listed(f, rows)| else 0
  {
    hide Selects, Joined, Numbered, Bound, Matching;
    var q := BuildListQuery(f);
    SelectedIsMatching(f, rows);
    if !prepareOk || !stepOk {
      return 0;
    }
    n := |Selected(q.where, Bound(q.ints, q.texts), rows)|;
  }

  lemma OrderTotal(m: multiset<Row>)
    requires forall x, y | x in m && y in m && x.id == y.id :: x == y
    ensures Sorting.TotalOn(Order(), m)
  {
  }

  predicate DistinctIds(rows: seq<Row>) {
    forall i, j | 0 <= i < j < |rows| :: rows[i].id != rows[j].id
  }

  lemma {:induction false} MatchingSays(f: Filter, rows: seq<Row>, r: Row)
    ensures r in Matching(f, rows) <==> r in rows && Matches(f, r.cols)
  {
    hide Matches;
    if rows != [] {
      MatchingSays(f, rows[..|rows| - 1], r);
      assert r in rows <==> r in rows[..|rows| - 1] || r == rows[|rows| - 1];
    }
  }

  /** The listing is exactly the matching rows, each as often as the table has it, newest
      first; with distinct ids that leaves one possible order. */
  lemma ListedIsSorted(f: Filter, rows: seq<Row>)
    requires DistinctIds(rows)
    ensures var listed := Listed(f, rows);
            && (forall i, j | 0 <= i < j < |listed| ::
                  listed[i].cols.ts > listed[j].cols.ts
                  || (listed[i].cols.ts == listed[j].cols.ts && listed[i].id > listed[j].id))
            && (forall r :: multiset(listed)[r] == if Matches(f, r.cols) then multiset(rows)[r] else 0)
  {
    ListedInOrder(f, rows);
    forall r ensures multiset(Matching(f, rows))[r] == if Matches(f, r.cols) then multiset(rows)[r] else 0 {
      MatchingCounts(f, rows, r);
    }
    var listed := Listed(f, rows);
    forall i, j | 0 <= i < j < |listed| ensures listed[i].id != listed[j].id {
      DistinctListed(f, rows, i, j);
    }
  }

  lemma {:induction false} MatchingCounts(f: Filter, rows: seq<Row>, r: Row)
    ensures multiset(Matching(f, rows))[r] == if Matches(f, r.cols) then multiset(rows)[r] else 0
  {
    hide Matches;
    if rows != [] {
      var n := |rows| - 1;
      MatchingCounts(f, rows[..n], r);
      assert rows == rows[..n] + [rows[n]];
    }
  }

  lemma DistinctListed(f: Filter, rows: seq<Row>, i: nat, j: nat)
    requires DistinctIds(rows) && i < j < |Listed(f, rows)|
    ensures Listed(f, rows)[i].id != Listed(f, rows)[j].id
  {
    hide Matches, Listed;
    var listed := Listed(f, rows);
    ListedInOrder(f, rows);
    var x, y := listed[i], listed[j];
    assert x in multiset(listed) && y in multiset(listed);
    MatchingSays(f, rows, x);
    MatchingSays(f, rows, y);
    if x.id == y.id {
      assert x == y;
      Sorting.TwiceAtLeast(listed, i, j);
      MatchingCounts(f, rows, x);
      DistinctRows(rows);
      Sorting.OnceAtMost(rows, x);
    }
  }

  lemma DistinctRows(rows: seq<Row>)
    requires DistinctIds(rows)
    ensures Sorting.Distinct(rows)
  {
    forall i, j | 0 <= i < j < |rows| ensures rows[i] != rows[j] {
      assert rows[i].id != rows[j].id;
    }
  }

  lemma ListedInOrder(f: Filter, rows: seq<Row>)
    requires DistinctIds(rows)
    ensures Sorting.Sorted(Order(), Listed(f, rows))
    ensures multiset(Listed(f, rows)) == multiset(Matching(f, rows))
  {
    hide Matches, Sorting.TotalOn, Sorting.Sorted, Sorting.Sort;
    var m := multiset(Matching(f, rows));
    forall x, y | x in m && y in m && x.id == y.id ensures x == y {
      MatchingSays(f, rows, x);
      MatchingSays(f, rows, y);
    }
    OrderTotal(m);
    Sorting.SortSorted(Order(), Matching(f, rows));
  }

  // ---- pages ------------------------------------------------------------------------------------

  /** The first `count` pages of this size, one after the other. */
  function Pages<T>(xs: seq<T>, size: nat, count: nat): seq<T> {
    if count == 0 then [] else Pages(xs, size, count - 1) + PageAt(xs, size, (count - 1) * size)
  }

  lemma {:induction false} PagesAreAPrefix<T>(xs: seq<T>, size: nat, count: nat)
    ensures Pages(xs, size, count) == xs[..Least(count * size, |xs|)]
  {
    if count > 0 {
      PagesAreAPrefix(xs, size, count - 1);
      assert (count - 1) * size + size == count * size;
      assert (count - 1) * size <= count * size;
      assert Pages(xs, size, count)
          == xs[..Least((count - 1) * size, |xs|)] + xs[Least((count - 1) * size, |xs|)..Least(count * size, |xs|)];
    }
  }

  /** Consecutive pages, each starting where the one before ended, add up to every match
      exactly once, in order, as soon as there are enough of them for the count. */
  lemma PagesShowEverything(f: Filter, rows: seq<Row>, count: nat)
    requires count * PageSize(f.limit) >= |Listed(f, rows)|
    ensures Pages(Listed(f, rows), PageSize(f.limit), count) == Listed(f, rows)
  {
    hide Listed;
    PagesAreAPrefix(Listed(f, rows), PageSize(f.limit), count);
  }

  /** Match number i is on page p of a reader that asks for `limit` rows at a time and moves
      on by as many as it asked for. */
  predicate OnPage(limit: int, p: nat, i: nat) {
    var start := if p * limit > 0 then p * limit else 0;
    start <= i < start + if limit < 1 then 1 else if limit > 1000 then 1000 else limit
  }

  ghost predicate Reached(limit: int, i: nat) {
    exists p: nat :: OnPage(limit, p, i)
  }

  /** The reply repeats the limit that was asked for, not the clamped one. A reader that steps
      by it sees every match exactly when the limit was within bounds, or one page holds them
      all. */
  lemma SteppingByTheAskedLimit(limit: int, matches: nat)
    ensures (forall i: nat | i < matches :: Reached(limit, i))
            <==> 1 <= limit <= 1000 || matches <= (if limit < 1 then 1 else 1000)
  {
    if 1 <= limit <= MAX_LIST_LIMIT {
      forall i: nat | i < matches ensures Reached(limit, i) {
        WithinBounds(limit, i);
      }
    } else if matches <= PageSize(limit) {
      forall i: nat | i < matches ensures Reached(limit, i) {
        assert OnPage(limit, 0, i);
      }
    } else {
      forall p: nat ensures !OnPage(limit, p, PageSize(limit)) {
        OutOfBounds(limit, p);
      }
      assert !Reached(limit, PageSize(limit));
    }
  }

  lemma WithinBounds(limit: int, i: nat)
    requires 1 <= limit <= MAX_LIST_LIMIT
    ensures Reached(limit, i)
  {
    var p := i / limit;
    assert i == p * limit + i % limit;
    assert OnPage(limit, p, i);
  }

  lemma OutOfBounds(limit: int, p: nat)
    requires limit < 1 || limit > MAX_LIST_LIMIT
    ensures !OnPage(limit, p, PageSize(limit))
  {
    if limit < 1 {
      assert p * limit <= 0;
    } else if p > 0 {
      assert p * limit >= limit;
    }
  }
}
