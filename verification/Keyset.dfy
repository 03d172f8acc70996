/** Keyset pagination: pages of rows in key order, each continued after the last key of the one before, with one row of
    look-ahead. Generic in the key and its order; the two orders in use are at the end. */
module Keyset {
  import opened Wrappers

  // ----- orders -----

  ghost predicate StrictTotal<K(!new)>(less: (K, K) -> bool) {
    && (forall x :: !less(x, x))
    && (forall x, y :: x != y ==> less(x, y) || less(y, x))
    && (forall x, y, z :: less(x, y) && less(y, z) ==> less(x, z))
  }

  predicate Ascends<K>(less: (K, K) -> bool, s: seq<K>) {
    forall i, j :: 0 <= i < j < |s| ==> less(s[i], s[j])
  }

  predicate Distinct<K(==)>(s: seq<K>) {
    forall i, j :: 0 <= i < j < |s| ==> s[i] != s[j]
  }

  // ----- the query -----

  function Insert<K>(less: (K, K) -> bool, x: K, s: seq<K>): seq<K> {
    if s == [] then [x] else if less(x, s[0]) then [x] + s else [s[0]] + Insert(less, x, s[1..])
  }

  predicate Selects<K>(less: (K, K) -> bool, matches: K -> bool, cursor: Option<K>, x: K) {
    matches(x) && (cursor.Some? ==> less(cursor.value, x))
  }

  /** WHERE the row matches and lies after the cursor, ORDER BY the key. */
  function Query<K>(less: (K, K) -> bool, rows: seq<K>, matches: K -> bool, cursor: Option<K>): seq<K> {
    if rows == [] then []
    else
      var before := Query(less, rows[..|rows| - 1], matches, cursor);
      var x := rows[|rows| - 1];
      if Selects(less, matches, cursor, x) then Insert(less, x, before) else before
  }

  datatype Page<K> = Page(items: seq<K>, next: Option<K>)

  function Take<K>(s: seq<K>, n: nat): seq<K> {
    if |s| <= n then s else s[..n]
  }

  function PageOf<K>(less: (K, K) -> bool, rows: seq<K>, matches: K -> bool, cursor: Option<K>, limit: nat): Page<K>
    requires limit >= 1
  {
    var all := Query(less, rows, matches, cursor);
    if |all| > limit then Page(all[..limit], Some(all[limit - 1])) else Page(all, None)
  }

  /** A cursor string: absent, the encoding of a key, or something that does not decode. */
  datatype Cursor<K> = Absent | Encodes(key: K) | Malformed

  datatype SearchError = InvalidCursor | Unavailable

  /** The services bound the limit before they search, so it is never below one; `standard` and `max` are 20 and 100 for
      searches, 50 and 200 for saved tracks. */
  function Clamped(limit: int, standard: nat, max: nat): (r: nat)
    requires 1 <= standard <= max
    ensures 1 <= r <= max && (1 <= limit <= max ==> r == limit)
    ensures (limit <= 0 ==> r == standard) && (limit > max ==> r == max)
  {
    if limit <= 0 then standard else if limit > max then max else limit
  }

  /** One search. The rows of the limited query arrive one by one; with more than the bounded limit of them, the page is
      cut and its last key becomes the next cursor. */
  method Search<K(==)>(less: (K, K) -> bool, rows: seq<K>, matches: K -> bool, cursor: Cursor<K>, asked: int,
                       standard: nat, max: nat, fails: bool) returns (r: Result<Page<K>, SearchError>)
    requires 1 <= standard <= max
    ensures cursor.Malformed? ==> r == Err(InvalidCursor)
    ensures !cursor.Malformed? && fails ==> r == Err(Unavailable)
    ensures !cursor.Malformed? && !fails ==>
              r == Ok(PageOf(less, rows, matches, if cursor.Encodes? then Some(cursor.key) else None,
                             Clamped(asked, standard, max)))
  {
    var limit := Clamped(asked, standard, max);
    if cursor.Malformed? {
      return Err(InvalidCursor);
    }
    var after := if cursor.Encodes? then Some(cursor.key) else None;
    if fails {
      return Err(Unavailable);
    }
    var all := Query(less, rows, matches, after);
    var delivered := Take(all, limit + 1);
    var items := [];
    var i := 0;
    while i < |delivered|
      invariant i <= |delivered| && items == delivered[..i]
    {
      items := items + [delivered[i]];
      i := i + 1;
    }
    var next := None;
    assert items == delivered;
    assert |all| > limit ==> delivered[..limit] == all[..limit] && delivered[limit - 1] == all[limit - 1];
    if |items| > limit {
      next := Some(items[limit - 1]);
      items := items[..limit];
    }
    r := Ok(Page(items, next));
  }

  // ----- what the query returns -----

  lemma {:induction false} InsertMembers<K>(less: (K, K) -> bool, x: K, s: seq<K>)
    ensures |Insert(less, x, s)| == |s| + 1
    ensures forall y :: y in Insert(less, x, s) <==> y in s || y == x
  {
    if s != [] {
      assert s == [s[0]] + s[1..];
      InsertMembers(less, x, s[1..]);
    }
  }

  lemma {:induction false} InsertIs<K(!new)>(less: (K, K) -> bool, x: K, s: seq<K>)
    requires StrictTotal(less) && Ascends(less, s) && x !in s
    ensures Ascends(less, Insert(less, x, s))
    ensures forall y :: y in Insert(less, x, s) <==> y in s || y == x
  {
    InsertMembers(less, x, s);
    if s != [] {
      assert s == [s[0]] + s[1..];
      if less(x, s[0]) {
        BeforeAll(less, x, s);
      } else {
        InsertIs(less, x, s[1..]);
        InsertMembers(less, x, s[1..]);
        assert less(s[0], x);
        var t := Insert(less, x, s[1..]);
        forall k | 0 <= k < |t|
          ensures less(s[0], t[k])
        {
          assert t[k] in t;
          if t[k] != x {
            var j :| 0 <= j < |s[1..]| && s[1..][j] == t[k];
            assert less(s[0], s[j + 1]);
          }
        }
      }
    }
  }

  lemma BeforeAll<K(!new)>(less: (K, K) -> bool, x: K, s: seq<K>)
    requires StrictTotal(less) && Ascends(less, s) && s != [] && less(x, s[0])
    ensures Ascends(less, [x] + s)
  {
    forall k | 0 <= k < |s|
      ensures less(x, s[k])
    {
      assert k == 0 || less(s[0], s[k]);
    }
  }

  /** It is ascending, and holds exactly the matching rows after the cursor. */
  lemma {:induction false} QueryIs<K(!new)>(less: (K, K) -> bool, rows: seq<K>, matches: K -> bool, cursor: Option<K>)
    requires StrictTotal(less) && Distinct(rows)
    ensures Ascends(less, Query(less, rows, matches, cursor))
    ensures forall x :: x in Query(less, rows, matches, cursor) <==> x in rows && Selects(less, matches, cursor, x)
  {
    if rows != [] {
      var last := |rows| - 1;
      QueryIs(less, rows[..last], matches, cursor);
      assert rows == rows[..last] + [rows[last]];
      assert rows[last] !in rows[..last];
      if Selects(less, matches, cursor, rows[last]) {
        InsertIs(less, rows[last], Query(less, rows[..last], matches, cursor));
      }
    }
  }

  /** An ascending sequence is determined by what it holds. */
  lemma {:induction false} AscendingIsUnique<K(!new)>(less: (K, K) -> bool, s: seq<K>, t: seq<K>)
    requires StrictTotal(less) && Ascends(less, s) && Ascends(less, t) && forall x :: x in s <==> x in t
    ensures s == t
  {
    if s == [] {
      assert forall k :: 0 <= k < |t| ==> t[k] in s;
    } else {
      assert s[0] in t;
      assert t[0] in s;
      assert s[0] == t[0] by {
        var i :| 0 <= i < |t| && t[i] == s[0];
        var j :| 0 <= j < |s| && s[j] == t[0];
      }
      forall x
        ensures x in s[1..] <==> x in t[1..]
      {
        TailMembers(less, s, x);
        TailMembers(less, t, x);
      }
      AscendingIsUnique(less, s[1..], t[1..]);
      assert s == [s[0]] + s[1..] && t == [t[0]] + t[1..];
    }
  }

  lemma TailMembers<K(!new)>(less: (K, K) -> bool, s: seq<K>, x: K)
    requires StrictTotal(less) && Ascends(less, s) && s != []
    ensures x in s[1..] <==> x in s && x != s[0]
  {
    assert s == [s[0]] + s[1..];
  }

  // ----- following the cursor over one table -----

  /** Continuing after the last key of a cut page finds exactly the rest. */
  lemma NextPageContinues<K(!new)>(less: (K, K) -> bool, rows: seq<K>, matches: K -> bool, cursor: Option<K>,
                                   limit: nat)
    requires StrictTotal(less) && Distinct(rows) && 1 <= limit < |Query(less, rows, matches, cursor)|
    ensures Query(less, rows, matches, PageOf(less, rows, matches, cursor, limit).next)
            == Query(less, rows, matches, cursor)[limit..]
  {
    var all := Query(less, rows, matches, cursor);
    var next := Some(all[limit - 1]);
    QueryIs(less, rows, matches, cursor);
    QueryIs(less, rows, matches, next);
    forall x
      ensures x in Query(less, rows, matches, next) <==> x in all[limit..]
    {
      AfterMeansLater(less, all, limit - 1, x);
      if x in Query(less, rows, matches, next) && cursor.Some? {
        assert all[limit - 1] in all;
        assert less(cursor.value, x);
      }
    }
    AscendingIsUnique(less, Query(less, rows, matches, next), all[limit..]);
  }

  lemma AfterMeansLater<K(!new)>(less: (K, K) -> bool, all: seq<K>, i: nat, x: K)
    requires StrictTotal(less) && Ascends(less, all) && i < |all|
    ensures x in all[i + 1..] <==> x in all && less(all[i], x)
  {
    if x in all && less(all[i], x) {
      var j :| 0 <= j < |all| && all[j] == x;
      assert j > i;
      assert all[i + 1..][j - i - 1] == x;
    }
  }

  /** All pages from a cursor on, one after the other, until there is no next cursor. */
  ghost function Follow<K(!new)>(less: (K, K) -> bool, rows: seq<K>, matches: K -> bool, cursor: Option<K>,
                                 limit: nat): seq<K>
    requires StrictTotal(less) && Distinct(rows) && limit >= 1
    decreases |Query(less, rows, matches, cursor)|
  {
    var page := PageOf(less, rows, matches, cursor, limit);
    if page.next.None? then page.items
    else
      NextPageContinues(less, rows, matches, cursor, limit);
      page.items + Follow(less, rows, matches, page.next, limit)
  }

  /** Following the cursor from the start ends, and gives the full sorted match list: the one ascending sequence of the
      rows that match. */
  lemma {:induction false} PagesMakeTheFullList<K(!new)>(less: (K, K) -> bool, rows: seq<K>, matches: K -> bool,
                                                         cursor: Option<K>, limit: nat)
    requires StrictTotal(less) && Distinct(rows) && limit >= 1
    ensures Follow(less, rows, matches, cursor, limit) == Query(less, rows, matches, cursor)
    decreases |Query(less, rows, matches, cursor)|
  {
    var all := Query(less, rows, matches, cursor);
    var page := PageOf(less, rows, matches, cursor, limit);
    if page.next.Some? {
      NextPageContinues(less, rows, matches, cursor, limit);
      PagesMakeTheFullList(less, rows, matches, page.next, limit);
      assert all == all[..limit] + all[limit..];
    }
  }

  // ----- following the cursor while the table changes -----

  function CursorAt<K>(pages: seq<Page<K>>, i: nat): Option<K>
    requires i <= |pages|
  {
    if i == 0 then None else pages[i - 1].next
  }

  /** A reader fetches page after page, each from the table as it is then. */
  ghost predicate IsPaging<K(!new)>(less: (K, K) -> bool, tables: seq<seq<K>>, matches: K -> bool, limit: nat,
                                    pages: seq<Page<K>>)
    requires limit >= 1
  {
    && |tables| == |pages|
    && (forall i {:trigger tables[i]} :: 0 <= i < |tables| ==>
          Distinct(tables[i]) && pages[i] == PageOf(less, tables[i], matches, CursorAt(pages, i), limit))
    && (forall i {:trigger pages[i]} :: 0 <= i < |pages| - 1 ==> pages[i].next.Some?)
  }

  function Fetched<K>(pages: seq<Page<K>>): seq<K> {
    if pages == [] then [] else Fetched(pages[..|pages| - 1]) + pages[|pages| - 1].items
  }

  /** What one page holds: selected rows of its table, ascending; and what it leaves out lies after its next cursor,
      which is the last key on it. */
  lemma PageIs<K(!new)>(less: (K, K) -> bool, rows: seq<K>, matches: K -> bool, cursor: Option<K>, limit: nat)
    requires StrictTotal(less) && Distinct(rows) && limit >= 1
    ensures var page := PageOf(less, rows, matches, cursor, limit);
            && Ascends(less, page.items)
            && (forall x :: x in page.items ==> x in rows && Selects(less, matches, cursor, x))
            && |page.items| <= limit
            && (page.next.Some? ==> |page.items| == limit && page.items[limit - 1] == page.next.value)
            && (page.next.Some? ==> exists x :: x in rows && Selects(less, matches, cursor, x) && x !in page.items)
            && (forall x :: x in rows && Selects(less, matches, cursor, x) ==>
                  x in page.items || (page.next.Some? && less(page.next.value, x)))
  {
    QueryIs(less, rows, matches, cursor);
    var all := Query(less, rows, matches, cursor);
    if |all| > limit {
      assert all[limit] in all && all[limit] !in all[..limit];
      forall x | x in all && x !in all[..limit]
        ensures less(all[limit - 1], x)
      {
        var j :| 0 <= j < |all| && all[j] == x;
        InTake(all, limit, j);
      }
    }
  }

  lemma InTake<K>(s: seq<K>, n: nat, j: nat)
    requires j < |s| && n <= |s|
    ensures j < n ==> s[j] in s[..n]
  {
    if j < n { assert s[..n][j] == s[j]; }
  }

  lemma JoinAscends<K(!new)>(less: (K, K) -> bool, s: seq<K>, t: seq<K>, c: K)
    requires StrictTotal(less) && Ascends(less, s) && Ascends(less, t)
    requires (forall x :: x in s ==> x == c || less(x, c)) && (forall y :: y in t ==> less(c, y))
    ensures Ascends(less, s + t)
  {
    var r := s + t;
    forall i, j | 0 <= i < j < |r|
      ensures less(r[i], r[j])
    {
      if i < |s| <= j {
        assert s[i] in s && t[j - |s|] in t;
      }
    }
  }

  lemma LastIsLargest<K>(less: (K, K) -> bool, s: seq<K>)
    requires Ascends(less, s) && s != []
    ensures forall x :: x in s ==> x == s[|s| - 1] || less(x, s[|s| - 1])
  {
  }

  /** Rows may come and go between the pages: the keys fetched still strictly ascend, so none comes twice. */
  lemma {:induction false} NothingIsFetchedTwice<K(!new)>(less: (K, K) -> bool, tables: seq<seq<K>>,
                                                          matches: K -> bool, limit: nat, pages: seq<Page<K>>)
    requires limit >= 1 && StrictTotal(less) && IsPaging(less, tables, matches, limit, pages)
    ensures Ascends(less, Fetched(pages)) && Distinct(Fetched(pages))
    ensures pages != [] && pages[|pages| - 1].next.Some? ==>
              forall x :: x in Fetched(pages) ==>
                x == pages[|pages| - 1].next.value || less(x, pages[|pages| - 1].next.value)
  {
    if pages != [] {
      var last := |pages| - 1;
      var before := pages[..last];
      PrefixIsPaging(less, tables, matches, limit, pages);
      NothingIsFetchedTwice(less, tables[..last], matches, limit, before);
      PageIs(less, tables[last], matches, CursorAt(pages, last), limit);
      if last > 0 {
        assert pages[last - 1].next.Some? && before[last - 1] == pages[last - 1];
        JoinAscends(less, Fetched(before), pages[last].items, pages[last - 1].next.value);
      } else {
        assert Fetched(before) + pages[last].items == pages[last].items;
      }
      AscendingIsDistinct(less, Fetched(pages));
      if pages[last].next.Some? { LastIsLargest(less, Fetched(pages)); }
    }
  }

  lemma AscendingIsDistinct<K(!new)>(less: (K, K) -> bool, s: seq<K>)
    requires StrictTotal(less) && Ascends(less, s)
    ensures Distinct(s)
  {
  }

  /** And each of them was in the table, and matched, when its page was read. */
  lemma {:induction false} FetchedRowsWereThere<K(!new)>(less: (K, K) -> bool, tables: seq<seq<K>>,
                                                         matches: K -> bool, limit: nat, pages: seq<Page<K>>, x: K)
    requires limit >= 1 && StrictTotal(less) && IsPaging(less, tables, matches, limit, pages)
    requires x in Fetched(pages)
    ensures matches(x) && exists i :: 0 <= i < |tables| && x in tables[i]
  {
    var last := |pages| - 1;
    PrefixIsPaging(less, tables, matches, limit, pages);
    if x in Fetched(pages[..last]) {
      FetchedRowsWereThere(less, tables[..last], matches, limit, pages[..last], x);
      var i :| 0 <= i < |tables[..last]| && x in tables[..last][i];
      assert x in tables[i];
    } else {
      PageIs(less, tables[last], matches, CursorAt(pages, last), limit);
      assert x in tables[last];
    }
  }

  lemma PrefixIsPaging<K(!new)>(less: (K, K) -> bool, tables: seq<seq<K>>, matches: K -> bool, limit: nat,
                                pages: seq<Page<K>>)
    requires limit >= 1 && IsPaging(less, tables, matches, limit, pages) && pages != []
    ensures IsPaging(less, tables[..|tables| - 1], matches, limit, pages[..|pages| - 1])
  {
    var last := |pages| - 1;
    forall i | 0 <= i < last
      ensures Distinct(tables[..last][i])
      ensures pages[..last][i] == PageOf(less, tables[..last][i], matches, CursorAt(pages[..last], i), limit)
    {
      assert tables[..last][i] == tables[i];
    }
    forall i | 0 <= i < last - 1
      ensures pages[..last][i].next.Some?
    {
      assert pages[..last][i] == pages[i];
    }
  }

  /** A matching row that is in the table whenever a page is read has been fetched, or lies after the next cursor. */
  lemma {:induction false} PresentRowsAreReached<K(!new)>(less: (K, K) -> bool, tables: seq<seq<K>>,
                                                          matches: K -> bool, limit: nat, pages: seq<Page<K>>, x: K)
    requires limit >= 1 && StrictTotal(less) && IsPaging(less, tables, matches, limit, pages)
    requires matches(x) && forall i :: 0 <= i < |tables| ==> x in tables[i]
    ensures pages != [] ==>
              x in Fetched(pages) || (pages[|pages| - 1].next.Some? && less(pages[|pages| - 1].next.value, x))
  {
    if pages != [] {
      var last := |pages| - 1;
      PrefixIsPaging(less, tables, matches, limit, pages);
      PresentRowsAreReached(less, tables[..last], matches, limit, pages[..last], x);
      PageIs(less, tables[last], matches, CursorAt(pages, last), limit);
      if last > 0 { assert pages[..last][last - 1] == pages[last - 1]; }
      assert x in tables[last];
    }
  }

  /** So when the reader has come to the end, every row present throughout was returned exactly once. */
  lemma PresentRowsAreFetchedOnce<K(!new)>(less: (K, K) -> bool, tables: seq<seq<K>>, matches: K -> bool, limit: nat,
                                           pages: seq<Page<K>>, x: K)
    requires limit >= 1 && StrictTotal(less) && IsPaging(less, tables, matches, limit, pages)
    requires pages != [] && pages[|pages| - 1].next.None?
    requires matches(x) && forall i :: 0 <= i < |tables| ==> x in tables[i]
    ensures multiset(Fetched(pages))[x] == 1
  {
    PresentRowsAreReached(less, tables, matches, limit, pages, x);
    NothingIsFetchedTwice(less, tables, matches, limit, pages);
    OnceInDistinct(Fetched(pages), x);
  }

  lemma {:induction false} OnceInDistinct<K>(s: seq<K>, x: K)
    requires Distinct(s)
    ensures multiset(s)[x] == if x in s then 1 else 0
  {
    if s != [] {
      assert s == [s[0]] + s[1..];
      OnceInDistinct(s[1..], x);
    }
  }

  // ----- the orders in use -----

  function Lex<A(==), B>(first: (A, A) -> bool, second: (B, B) -> bool): ((A, B), (A, B)) -> bool {
    (x: (A, B), y: (A, B)) => first(x.0, y.0) || (x.0 == y.0 && second(x.1, y.1))
  }

  function Descending<K>(less: (K, K) -> bool): (K, K) -> bool {
    (x, y) => less(y, x)
  }

  /** Row comparison of pairs is a strict total order if the columns' orders are, ascending as for (name, id) and
      (title, id), and descending as for (added_at, track_id). */
  lemma RowOrdersAreTotal<A(!new), B(!new)>(first: (A, A) -> bool, second: (B, B) -> bool)
    requires StrictTotal(first) && StrictTotal(second)
    ensures StrictTotal(Lex(first, second)) && StrictTotal(Descending(Lex(first, second)))
  {
    var less := Lex(first, second);
    forall x: (A, B), y: (A, B), z: (A, B) | less(x, y) && less(y, z)
      ensures less(x, z)
    {
      if x.0 != y.0 && y.0 != z.0 { assert first(x.0, z.0); }
    }
    forall x: (A, B), y: (A, B) | x != y
      ensures less(x, y) || less(y, x)
    {
      if x.0 == y.0 { assert x.1 != y.1; }
    }
    assert StrictTotal(less);
  }
}
