/** Keyset pagination: what following nextCursor returns, on a fixed table and while the table
    grows and bills change status between page fetches. */
module Keyset {
  import opened Model
  import opened Base64
  import opened Cursor

  const DEFAULT_LIST_LIMIT: nat := 50
  const MAX_LIST_LIMIT: nat := 500

  /** A listed row: a line item or event of bill `owner`, or a bill of account `owner`. */
  datatype Row = Row(at: Stamp, id: string, owner: string, status: Status)

  /** Line items and events are listed ascending, bills descending. */
  datatype Direction = Ascending | Descending

  datatype Listing = LineItems | BillEvents | Bills

  function DirectionOf(l: Listing): Direction {
    if l.Bills? then Descending else Ascending
  }

  /** The WHERE clause without its cursor; only bills are filtered by status. */
  datatype Filter = Filter(owner: string, status: Option<Status>)

  predicate Matches(f: Filter, r: Row) {
    r.owner == f.owner && (f.status.Some? ==> r.status == f.status.value)
  }

  type Key = seq<int>

  /** (created_at, id) as one sequence; the instant counts, not the offset it is read in. */
  function KeyOf(at: Stamp, id: string): Key {
    [Instant(at)] + seq(|id|, k requires 0 <= k < |id| => id[k] as int)
  }

  function RowKey(r: Row): Key {
    KeyOf(r.at, r.id)
  }

  predicate Less(a: Key, b: Key) {
    b != [] && (a == [] || a[0] < b[0] || (a[0] == b[0] && Less(a[1..], b[1..])))
  }

  predicate Before(dir: Direction, a: Key, b: Key) {
    if dir == Ascending then Less(a, b) else Less(b, a)
  }

  lemma {:induction false} LessIrreflexive(a: Key)
    ensures !Less(a, a)
  {
    if a != [] { LessIrreflexive(a[1..]); }
  }

  lemma {:induction false} LessTransitive(a: Key, b: Key, c: Key)
    requires Less(a, b) && Less(b, c)
    ensures Less(a, c)
  {
    if a != [] && a[0] == b[0] && b[0] == c[0] {
      LessTransitive(a[1..], b[1..], c[1..]);
    }
  }

  lemma {:induction false} LessTotal(a: Key, b: Key)
    ensures Less(a, b) || a == b || Less(b, a)
  {
    if a != [] && b != [] {
      LessTotal(a[1..], b[1..]);
      if a[0] == b[0] && a[1..] == b[1..] { assert a == [a[0]] + a[1..] == b; }
    }
  }

  lemma BeforeOrder(dir: Direction, a: Key, b: Key, c: Key)
    ensures !Before(dir, a, a)
    ensures Before(dir, a, b) && Before(dir, b, c) ==> Before(dir, a, c)
    ensures Before(dir, a, b) || a == b || Before(dir, b, a)
  {
    LessIrreflexive(a);
    LessTotal(a, b);
    if Less(a, b) && Less(b, c) { LessTransitive(a, b, c); }
    if Less(c, b) && Less(b, a) { LessTransitive(c, b, a); }
  }

  predicate Beyond(dir: Direction, cursor: Option<Key>, k: Key) {
    cursor.Some? ==> Before(dir, cursor.value, k)
  }

  predicate Sorted(dir: Direction, rows: seq<Row>) {
    forall i, j :: 0 <= i < j < |rows| ==> Before(dir, RowKey(rows[i]), RowKey(rows[j]))
  }

  /** The rows a page may still return. */
  predicate Eligible(t: set<Row>, f: Filter, dir: Direction, cursor: Option<Key>, r: Row) {
    r in t && Matches(f, r) && Beyond(dir, cursor, RowKey(r))
  }

  predicate AllBefore(dir: Direction, rows: seq<Row>, k: Key) {
    forall i :: 0 <= i < |rows| ==> Before(dir, RowKey(rows[i]), k)
  }

  /** What SELECT ... WHERE ... ORDER BY created_at, id LIMIT n returns. */
  ghost predicate QueryResult(rows: seq<Row>, t: set<Row>, f: Filter, dir: Direction, cursor: Option<Key>, n: nat) {
    && |rows| <= n
    && Sorted(dir, rows)
    && (forall i :: 0 <= i < |rows| ==> Eligible(t, f, dir, cursor, rows[i]))
    && (forall r :: Eligible(t, f, dir, cursor, r) && r !in rows ==>
          |rows| == n && AllBefore(dir, rows, RowKey(r)))
  }

  /** A page: the next rows in order, and `more` exactly when something is left after them. */
  ghost predicate IsPage(items: seq<Row>, more: bool, t: set<Row>, f: Filter, dir: Direction, cursor: Option<Key>, limit: nat) {
    && |items| <= limit
    && (more ==> |items| == limit)
    && Sorted(dir, items)
    && (forall i :: 0 <= i < |items| ==> Eligible(t, f, dir, cursor, items[i]))
    && (forall r :: Eligible(t, f, dir, cursor, r) && r !in items ==>
          more && AllBefore(dir, items, RowKey(r)))
    && (more ==> exists r :: Eligible(t, f, dir, cursor, r) && r !in items)
  }

  /** The limit of a request: negative is refused, zero means the default, and there is a cap. */
  method ClampLimit(requested: int) returns (ok: bool, limit: nat)
    ensures ok <==> requested >= 0
    ensures ok ==> 1 <= limit <= 500
    ensures 1 <= requested <= 500 ==> limit == requested
    ensures requested == 0 ==> limit == 50
    ensures requested > 500 ==> limit == 500
  {
    limit := DEFAULT_LIST_LIMIT;
    if requested < 0 { return false, 0; }
    if requested > 0 { limit := requested; }
    if limit > MAX_LIST_LIMIT { limit := MAX_LIST_LIMIT; }
    ok := true;
  }

  /** Where a request starts: an empty cursor, or one whose ID is empty, means the beginning. */
  function CursorKey(cursor: string): Option<Option<Key>> {
    if cursor == "" then Some(None)
    else
      match DecodeCursor(cursor)
      case None => None
      case Some((at, id)) => if id == "" then Some(None) else Some(Some(KeyOf(at, id)))
  }

  /** What rows have in the database: valid timestamps of four-digit years, non-empty IDs. */
  predicate Printable(r: Row) {
    Valid(r.at) && r.at.year < 10_000 && IsBytes(r.id) && r.id != ""
  }

  /** The cursor sent back is the key of the row it was made from. */
  lemma CursorKeyRoundTrip(r: Row)
    requires Printable(r)
    ensures EncodeCursor(r.at, r.id) != "" && CursorKey(EncodeCursor(r.at, r.id)) == Some(Some(RowKey(r)))
  {
    CursorRoundTripIff(r.at, r.id);
  }

  lemma QueryGivesPage(
    rows: seq<Row>, items: seq<Row>, more: bool, t: set<Row>, f: Filter, dir: Direction, cursor: Option<Key>, limit: nat)
    requires QueryResult(rows, t, f, dir, cursor, limit + 1)
    requires more == (|rows| > limit) && items == if |rows| > limit then rows[..limit] else rows
    ensures IsPage(items, more, t, f, dir, cursor, limit)
  {
    if more {
      var extra := rows[limit];
      assert Eligible(t, f, dir, cursor, extra);
      assert extra !in items by {
        forall i | 0 <= i < limit ensures items[i] != extra { BeforeOrder(dir, RowKey(items[i]), RowKey(extra), []); }
      }
      forall r | Eligible(t, f, dir, cursor, r) && r !in items
        ensures AllBefore(dir, items, RowKey(r))
      {
        if r in rows {
          var j :| 0 <= j < |rows| && rows[j] == r;
          assert j < limit ==> items[j] == r;
        }
      }
    }
  }

  /** A well-formed cursor that names no row means the beginning, like no cursor at all. */
  lemma CursorWithoutId(at: Stamp)
    requires Valid(at) && at.year < 10_000
    ensures CursorKey(EncodeCursor(at, "")) == CursorKey("") == Some(None)
  {
    CursorRoundTripIff(at, "");
  }

  /** The cursor decodes to the key of the last row. */
  predicate NamesLast(next: string, items: seq<Row>) {
    |items| > 0 && CursorKey(next) == Some(Some(RowKey(items[|items| - 1])))
  }

  /** One list response: the table its query saw, the rows, and the cursor for the next request. */
  datatype Response = Response(table: set<Row>, items: seq<Row>, next: string)

  /** What the endpoint answers to a request with this cursor string. */
  ghost predicate Answers(r: Response, cursor: string, f: Filter, dir: Direction, limit: nat) {
    && CursorKey(cursor).Some?
    && IsPage(r.items, r.next != "", r.table, f, dir, CursorKey(cursor).value, limit)
    && (r.next != "" ==> NamesLast(r.next, r.items))
  }

  lemma PageAnswers(
    rows: seq<Row>, items: seq<Row>, next: string, t: set<Row>, f: Filter, dir: Direction, cursor: string, limit: nat)
    requires limit > 0 && CursorKey(cursor).Some?
    requires QueryResult(rows, t, f, dir, CursorKey(cursor).value, limit + 1)
    requires items == if |rows| > limit then rows[..limit] else rows
    requires |rows| <= limit ==> next == ""
    requires |rows| > limit ==> Printable(rows[limit - 1]) && next == EncodeCursor(rows[limit - 1].at, rows[limit - 1].id)
    ensures Answers(Response(t, items, next), cursor, f, dir, limit)
  {
    if |rows| > limit { CursorKeyRoundTrip(rows[limit - 1]); }
    QueryGivesPage(rows, items, next != "", t, f, dir, CursorKey(cursor).value, limit);
  }

  /** The endpoint's row loop: read everything the query returned for the request's cursor, and if
      there is one row too many, cut it off and name the last one kept. */
  method CollectPage(rows: seq<Row>, limit: nat, ghost t: set<Row>, ghost f: Filter, ghost dir: Direction, ghost cursor: string)
    returns (items: seq<Row>, next: string)
    requires limit > 0 && CursorKey(cursor).Some?
    requires QueryResult(rows, t, f, dir, CursorKey(cursor).value, limit + 1)
    requires forall i :: 0 <= i < |rows| ==> Printable(rows[i])
    ensures Answers(Response(t, items, next), cursor, f, dir, limit)
  {
    items := [];
    var n := 0;
    while n < |rows|
      invariant 0 <= n <= |rows| && items == rows[..n]
    {
      items := items + [rows[n]];
      n := n + 1;
    }
    next := "";
    if |items| > limit {
      var last := items[limit - 1];
      next := EncodeCursor(last.at, last.id);
      items := items[..limit];
    }
    PageAnswers(rows, items, next, t, f, dir, cursor, limit);
  }

  /** One page fetch: the table it saw and what it returned. */
  datatype Fetch = Fetch(table: set<Row>, items: seq<Row>, more: bool)

  /** The key nextCursor names after these fetches. */
  function CursorAfter(fs: seq<Fetch>): Option<Key> {
    if fs == [] || fs[|fs| - 1].items == [] then None
    else Some(RowKey(fs[|fs| - 1].items[|fs[|fs| - 1].items| - 1]))
  }

  /** Following nextCursor from the empty cursor, newest fetch last; each fetch sees the table of
      its own moment and is made only because the one before it left a cursor. */
  ghost predicate Traversal(fs: seq<Fetch>, f: Filter, dir: Direction, limit: nat) {
    limit > 0 &&
    (fs == [] ||
     (var init, last := fs[..|fs| - 1], fs[|fs| - 1];
      && Traversal(init, f, dir, limit)
      && (init != [] ==> init[|init| - 1].more)
      && IsPage(last.items, last.more, last.table, f, dir, CursorAfter(init), limit)))
  }

  function Returned(fs: seq<Fetch>): seq<Row> {
    if fs == [] then [] else Returned(fs[..|fs| - 1]) + fs[|fs| - 1].items
  }

  lemma LastReturned(fs: seq<Fetch>)
    requires CursorAfter(fs).Some?
    ensures Returned(fs) != [] && CursorAfter(fs) == Some(RowKey(Returned(fs)[|Returned(fs)| - 1]))
  {
    var last := fs[|fs| - 1];
    assert Returned(fs)[|Returned(fs)| - 1] == last.items[|last.items| - 1];
  }

  lemma SortedConcat(dir: Direction, xs: seq<Row>, ys: seq<Row>)
    requires Sorted(dir, xs) && Sorted(dir, ys) && xs != []
    requires forall i :: 0 <= i < |ys| ==> Before(dir, RowKey(xs[|xs| - 1]), RowKey(ys[i]))
    ensures Sorted(dir, xs + ys)
  {
    var zs := xs + ys;
    forall i, j | 0 <= i < j < |zs| ensures Before(dir, RowKey(zs[i]), RowKey(zs[j])) {
      if i < |xs| <= j {
        BeforeOrder(dir, RowKey(xs[i]), RowKey(xs[|xs| - 1]), RowKey(ys[j - |xs|]));
      }
    }
  }

  lemma SortedAfter(dir: Direction, xs: seq<Row>, ys: seq<Row>, cursor: Option<Key>)
    requires Sorted(dir, xs) && Sorted(dir, ys)
    requires xs == [] || cursor == Some(RowKey(xs[|xs| - 1]))
    requires forall i :: 0 <= i < |ys| ==> Beyond(dir, cursor, RowKey(ys[i]))
    ensures Sorted(dir, xs + ys)
  {
    if xs == [] {
      assert xs + ys == ys;
    } else {
      SortedConcat(dir, xs, ys);
    }
  }

  lemma PageRows(p: Fetch, f: Filter, dir: Direction, cursor: Option<Key>, limit: nat)
    requires IsPage(p.items, p.more, p.table, f, dir, cursor, limit)
    ensures Sorted(dir, p.items)
    ensures forall i :: 0 <= i < |p.items| ==> Beyond(dir, cursor, RowKey(p.items[i]))
  {
    forall i | 0 <= i < |p.items| ensures Beyond(dir, cursor, RowKey(p.items[i])) {
      assert Eligible(p.table, f, dir, cursor, p.items[i]);
    }
  }

  lemma FullPage(fs: seq<Fetch>, f: Filter, dir: Direction, limit: nat)
    requires Traversal(fs, f, dir, limit) && fs != [] && fs[|fs| - 1].more
    ensures |fs[|fs| - 1].items| == limit
  {
  }

  /** Pages follow each other strictly, across tables: no key is returned twice. */
  lemma {:induction false} ReturnedSorted(fs: seq<Fetch>, f: Filter, dir: Direction, limit: nat)
    requires Traversal(fs, f, dir, limit)
    ensures Sorted(dir, Returned(fs))
  {
    if fs != [] {
      var init, last := fs[..|fs| - 1], fs[|fs| - 1];
      ReturnedSorted(init, f, dir, limit);
      PageRows(last, f, dir, CursorAfter(init), limit);
      if init != [] {
        FullPage(init, f, dir, limit);
        LastReturned(init);
      }
      SortedAfter(dir, Returned(init), last.items, CursorAfter(init));
    }
  }

  ghost predicate IsThere(t: set<Row>, f: Filter, id: string, k: Key) {
    exists r :: r in t && r.id == id && RowKey(r) == k && Matches(f, r)
  }

  /** The row with this key and ID is there, matching, at every fetch. */
  ghost predicate Stays(fs: seq<Fetch>, f: Filter, id: string, k: Key) {
    forall i :: 0 <= i < |fs| ==> IsThere(fs[i].table, f, id, k)
  }

  /** IDs are primary keys, and a row keeps its key while its status may change. */
  ghost predicate Evolves(fs: seq<Fetch>) {
    forall i, j, r, s :: 0 <= i < |fs| && 0 <= j < |fs| && r in fs[i].table && s in fs[j].table && r.id == s.id ==>
      RowKey(r) == RowKey(s)
  }

  predicate ReturnedKey(rows: seq<Row>, k: Key) {
    exists n :: 0 <= n < |rows| && RowKey(rows[n]) == k
  }

  lemma ReturnedKeyConcat(xs: seq<Row>, ys: seq<Row>, k: Key)
    requires ReturnedKey(xs, k) || ReturnedKey(ys, k)
    ensures ReturnedKey(xs + ys, k)
  {
    if ReturnedKey(xs, k) {
      var n :| 0 <= n < |xs| && RowKey(xs[n]) == k;
      assert RowKey((xs + ys)[n]) == k;
    } else {
      var n :| 0 <= n < |ys| && RowKey(ys[n]) == k;
      assert RowKey((xs + ys)[|xs| + n]) == k;
    }
  }

  lemma StayingRowOnPage(p: Fetch, f: Filter, dir: Direction, cursor: Option<Key>, limit: nat, id: string, k: Key)
    requires limit > 0 && IsPage(p.items, p.more, p.table, f, dir, cursor, limit)
    requires IsThere(p.table, f, id, k) && Beyond(dir, cursor, k)
    ensures ReturnedKey(p.items, k) || (p.more && p.items != [] && AllBefore(dir, p.items, k))
  {
    var r :| r in p.table && r.id == id && RowKey(r) == k && Matches(f, r);
    assert Eligible(p.table, f, dir, cursor, r);
    if r in p.items {
      var n :| 0 <= n < |p.items| && p.items[n] == r;
      assert RowKey(p.items[n]) == k;
    }
  }

  /** A row that stays is either returned already or still ahead of the cursor. */
  lemma {:induction false} StayingRowIsReached(fs: seq<Fetch>, f: Filter, dir: Direction, limit: nat, id: string, k: Key)
    requires Traversal(fs, f, dir, limit) && Stays(fs, f, id, k)
    ensures ReturnedKey(Returned(fs), k) || (Beyond(dir, CursorAfter(fs), k) && (fs != [] ==> fs[|fs| - 1].more))
  {
    if fs != [] {
      var init, last := fs[..|fs| - 1], fs[|fs| - 1];
      assert forall i :: 0 <= i < |init| ==> init[i] == fs[i];
      StayingRowIsReached(init, f, dir, limit, id, k);
      if !ReturnedKey(Returned(init), k) {
        StayingRowOnPage(last, f, dir, CursorAfter(init), limit, id, k);
      }
      if ReturnedKey(Returned(init), k) || ReturnedKey(last.items, k) {
        ReturnedKeyConcat(Returned(init), last.items, k);
      }
    }
  }

  lemma OnPage(p: Fetch, f: Filter, dir: Direction, cursor: Option<Key>, limit: nat, n: nat)
    requires IsPage(p.items, p.more, p.table, f, dir, cursor, limit) && n < |p.items|
    ensures p.items[n] in p.table && Matches(f, p.items[n]) && Beyond(dir, cursor, RowKey(p.items[n]))
  {
    assert Eligible(p.table, f, dir, cursor, p.items[n]);
  }

  /** Every returned row comes from the table of some fetch. */
  lemma {:induction false} FetchOf(fs: seq<Fetch>, f: Filter, dir: Direction, limit: nat, n: nat) returns (i: nat)
    requires Traversal(fs, f, dir, limit) && n < |Returned(fs)|
    ensures i < |fs| && Returned(fs)[n] in fs[i].table && Matches(f, Returned(fs)[n])
  {
    var init, last := fs[..|fs| - 1], fs[|fs| - 1];
    if n < |Returned(init)| {
      i := FetchOf(init, f, dir, limit, n);
    } else {
      i := |fs| - 1;
      OnPage(last, f, dir, CursorAfter(init), limit, n - |Returned(init)|);
    }
  }

  lemma NoRowTwice(fs: seq<Fetch>, f: Filter, dir: Direction, limit: nat)
    requires Traversal(fs, f, dir, limit) && Evolves(fs)
    ensures forall m, n :: 0 <= m < n < |Returned(fs)| ==> Returned(fs)[m].id != Returned(fs)[n].id
  {
    ReturnedSorted(fs, f, dir, limit);
    var rows := Returned(fs);
    forall m, n | 0 <= m < n < |rows|
      ensures rows[m].id != rows[n].id
    {
      var i := FetchOf(fs, f, dir, limit, m);
      var j := FetchOf(fs, f, dir, limit, n);
      BeforeOrder(dir, RowKey(rows[m]), RowKey(rows[n]), []);
    }
  }

  predicate IsReturned(fs: seq<Fetch>, n: int, id: string) {
    0 <= n < |Returned(fs)| && Returned(fs)[n].id == id
  }

  /** A key determines its ID. */
  lemma SameId(r: Row, s: Row)
    requires RowKey(r) == RowKey(s)
    ensures r.id == s.id
  {
    assert |r.id| == |RowKey(r)| - 1 == |s.id|;
    forall n | 0 <= n < |r.id| ensures r.id[n] == s.id[n] {
      assert RowKey(r)[1 + n] == r.id[n] as int && RowKey(s)[1 + n] == s.id[n] as int;
    }
  }

  /** Traversal while the table changes: no row is returned twice, and a row that matches the
      filter throughout is returned exactly once by the time the cursor comes back empty. */
  lemma TraversalUnderWrites(fs: seq<Fetch>, f: Filter, dir: Direction, limit: nat, id: string, k: Key)
    requires Traversal(fs, f, dir, limit) && fs != [] && Evolves(fs)
    ensures forall m, n :: 0 <= m < n < |Returned(fs)| ==> Returned(fs)[m].id != Returned(fs)[n].id
    ensures Stays(fs, f, id, k) && !fs[|fs| - 1].more ==>
      exists n :: IsReturned(fs, n, id) && forall m :: IsReturned(fs, m, id) ==> m == n
  {
    NoRowTwice(fs, f, dir, limit);
    if Stays(fs, f, id, k) && !fs[|fs| - 1].more {
      StayingRowIsReached(fs, f, dir, limit, id, k);
      var n :| 0 <= n < |Returned(fs)| && RowKey(Returned(fs)[n]) == k;
      assert IsThere(fs[0].table, f, id, k);
      var r :| r in fs[0].table && r.id == id && RowKey(r) == k && Matches(f, r);
      SameId(Returned(fs)[n], r);
      assert IsReturned(fs, n, id);
    }
  }

  ghost predicate FixedTable(fs: seq<Fetch>, t: set<Row>) {
    forall i :: 0 <= i < |fs| ==> fs[i].table == t
  }

  /** The single sorted filtered scan of a table. */
  ghost predicate FullScan(scan: seq<Row>, t: set<Row>, f: Filter, dir: Direction) {
    && Sorted(dir, scan)
    && forall r :: r in scan <==> r in t && Matches(f, r)
  }

  lemma FirstEqual(dir: Direction, xs: seq<Row>, ys: seq<Row>)
    requires Sorted(dir, xs) && Sorted(dir, ys) && xs != [] && ys != [] && xs[0] in ys && ys[0] in xs
    ensures xs[0] == ys[0]
  {
    var i :| 0 <= i < |xs| && xs[i] == ys[0];
    var j :| 0 <= j < |ys| && ys[j] == xs[0];
    if i > 0 && j > 0 {
      BeforeOrder(dir, RowKey(xs[0]), RowKey(ys[0]), RowKey(xs[0]));
    }
  }

  lemma TailMember(dir: Direction, xs: seq<Row>, r: Row)
    requires Sorted(dir, xs) && xs != []
    ensures r in xs[1..] <==> r in xs && r != xs[0]
  {
    if r in xs[1..] {
      var i :| 0 <= i < |xs| - 1 && xs[1..][i] == r;
      assert xs[i + 1] == r;
      BeforeOrder(dir, RowKey(xs[0]), RowKey(r), []);
    }
    if r in xs && r != xs[0] {
      var i :| 0 <= i < |xs| && xs[i] == r;
      assert xs[1..][i - 1] == r;
    }
  }

  /** Strictly sorted enumerations of the same rows are equal. */
  lemma {:induction false} SortedUnique(dir: Direction, xs: seq<Row>, ys: seq<Row>)
    requires Sorted(dir, xs) && Sorted(dir, ys) && forall r :: r in xs <==> r in ys
    ensures xs == ys
  {
    if xs == [] {
      assert forall i :: 0 <= i < |ys| ==> ys[i] in ys;
    } else {
      assert xs[0] in ys;
      assert ys[0] in xs;
      FirstEqual(dir, xs, ys);
      forall r ensures r in xs[1..] <==> r in ys[1..] {
        TailMember(dir, xs, r);
        TailMember(dir, ys, r);
      }
      SortedUnique(dir, xs[1..], ys[1..]);
      assert xs == [xs[0]] + xs[1..] && ys == [ys[0]] + ys[1..];
    }
  }

  lemma OneMorePage(limit: nat, pages: nat)
    requires pages > 0
    ensures limit * (pages - 1) + limit == limit * pages
  {
  }

  /** Every page but the last is full. */
  lemma {:induction false} ReturnedLength(fs: seq<Fetch>, f: Filter, dir: Direction, limit: nat)
    requires Traversal(fs, f, dir, limit) && fs != []
    ensures |Returned(fs)| == limit * (|fs| - 1) + |fs[|fs| - 1].items|
  {
    var init := fs[..|fs| - 1];
    if init != [] {
      ReturnedLength(init, f, dir, limit);
      FullPage(init, f, dir, limit);
      OneMorePage(limit, |init|);
    }
  }

  lemma NextNotEmpty(p: Fetch, q: Fetch, t: set<Row>, f: Filter, dir: Direction, cursor: Option<Key>, limit: nat)
    requires limit > 0 && p.table == t && q.table == t && p.more
    requires IsPage(p.items, p.more, t, f, dir, cursor, limit)
    requires p.items != [] ==> IsPage(q.items, q.more, t, f, dir, Some(RowKey(p.items[|p.items| - 1])), limit)
    ensures q.items != []
  {
    var r :| Eligible(t, f, dir, cursor, r) && r !in p.items;
    assert AllBefore(dir, p.items, RowKey(r));
    assert Eligible(t, f, dir, Some(RowKey(p.items[|p.items| - 1])), r);
    assert q.items == [] ==> r !in q.items;
  }

  /** Something is left after a page that is not the last, so the next page is not empty. */
  lemma LastPageNotEmpty(fs: seq<Fetch>, t: set<Row>, f: Filter, dir: Direction, limit: nat)
    requires Traversal(fs, f, dir, limit) && FixedTable(fs, t) && |fs| > 1
    ensures |fs[|fs| - 1].items| > 0
  {
    var init, last := fs[..|fs| - 1], fs[|fs| - 1];
    var page, before := init[|init| - 1], init[..|init| - 1];
    assert page == fs[|fs| - 2] && page.table == t && last.table == t;
    NextNotEmpty(page, last, t, f, dir, CursorAfter(before), limit);
  }

  lemma SortedNoDuplicates(dir: Direction, rows: seq<Row>)
    requires Sorted(dir, rows)
    ensures forall i, j :: 0 <= i < j < |rows| ==> rows[i] != rows[j]
  {
    forall i, j | 0 <= i < j < |rows| ensures rows[i] != rows[j] {
      BeforeOrder(dir, RowKey(rows[i]), RowKey(rows[j]), []);
    }
  }

  lemma {:induction false} DistinctFit(rows: seq<Row>, t: set<Row>)
    requires forall i, j :: 0 <= i < j < |rows| ==> rows[i] != rows[j]
    requires forall i :: 0 <= i < |rows| ==> rows[i] in t
    ensures |rows| <= |t|
  {
    if rows != [] {
      var last := rows[|rows| - 1];
      DistinctFit(rows[..|rows| - 1], t - {last});
    }
  }

  lemma ReturnedFit(fs: seq<Fetch>, t: set<Row>, f: Filter, dir: Direction, limit: nat)
    requires Traversal(fs, f, dir, limit) && FixedTable(fs, t)
    ensures |Returned(fs)| <= |t|
  {
    ReturnedSorted(fs, f, dir, limit);
    SortedNoDuplicates(dir, Returned(fs));
    forall n | 0 <= n < |Returned(fs)| ensures Returned(fs)[n] in t {
      var i := FetchOf(fs, f, dir, limit, n);
    }
    DistinctFit(Returned(fs), t);
  }

  lemma AtLeast(limit: nat, n: nat)
    requires limit > 0
    ensures n <= limit * n
  {
  }

  /** Traversal of a fixed table terminates: it cannot have more pages than rows, plus one. */
  lemma TraversalTerminates(fs: seq<Fetch>, t: set<Row>, f: Filter, dir: Direction, limit: nat)
    requires Traversal(fs, f, dir, limit) && FixedTable(fs, t) && fs != []
    ensures limit * (|fs| - 1) <= |t| && |fs| <= |t| + 1
  {
    ReturnedFit(fs, t, f, dir, limit);
    ReturnedLength(fs, f, dir, limit);
    AtLeast(limit, |fs| - 1);
  }

  lemma Ahead(p: Fetch, f: Filter, dir: Direction, cursor: Option<Key>, limit: nat, r: Row)
    requires limit > 0 && IsPage(p.items, p.more, p.table, f, dir, cursor, limit)
    requires r in p.table && Matches(f, r) && Beyond(dir, cursor, RowKey(r)) && r !in p.items
    ensures p.more && p.items != [] && Before(dir, RowKey(p.items[|p.items| - 1]), RowKey(r))
  {
    assert Eligible(p.table, f, dir, cursor, r);
    assert AllBefore(dir, p.items, RowKey(r));
  }

  /** On a fixed table the row itself, not only its key, is returned or still ahead. */
  lemma {:induction false} Reached(fs: seq<Fetch>, t: set<Row>, f: Filter, dir: Direction, limit: nat, r: Row)
    requires Traversal(fs, f, dir, limit) && FixedTable(fs, t) && r in t && Matches(f, r)
    ensures r in Returned(fs) || (Beyond(dir, CursorAfter(fs), RowKey(r)) && (fs != [] ==> fs[|fs| - 1].more))
  {
    if fs != [] {
      var init, last := fs[..|fs| - 1], fs[|fs| - 1];
      assert forall i :: 0 <= i < |init| ==> init[i] == fs[i];
      Reached(init, t, f, dir, limit, r);
      assert Returned(fs) == Returned(init) + last.items;
      if r !in Returned(fs) {
        assert r !in Returned(init) && r !in last.items;
        Ahead(last, f, dir, CursorAfter(init), limit, r);
        assert CursorAfter(fs) == Some(RowKey(last.items[|last.items| - 1]));
      }
    }
  }

  lemma ReturnedIsScan(fs: seq<Fetch>, t: set<Row>, f: Filter, dir: Direction, limit: nat, scan: seq<Row>)
    requires Traversal(fs, f, dir, limit) && FixedTable(fs, t) && fs != [] && !fs[|fs| - 1].more
    requires FullScan(scan, t, f, dir)
    ensures Returned(fs) == scan
  {
    ReturnedSorted(fs, f, dir, limit);
    forall r ensures r in Returned(fs) <==> r in scan {
      if r in Returned(fs) {
        var n :| 0 <= n < |Returned(fs)| && Returned(fs)[n] == r;
        var i := FetchOf(fs, f, dir, limit, n);
      }
      if r in scan { Reached(fs, t, f, dir, limit, r); }
    }
    SortedUnique(dir, Returned(fs), scan);
  }

  lemma Quotient(n: nat, d: nat, q: nat, r: nat)
    requires d > 0 && r < d && n == d * q + r
    ensures n / d == q
  {
    var p := n / d;
    assert n == d * p + n % d;
    assert p > q ==> d * p >= d * (q + 1);
    assert p < q ==> d * q >= d * (p + 1);
  }

  lemma PageCount(n: nat, limit: nat, pages: nat, last: nat)
    requires limit > 0 && pages > 0 && last <= limit && n == limit * (pages - 1) + last
    requires pages > 1 ==> last > 0
    ensures pages == if n == 0 then 1 else (n - 1) / limit + 1
  {
    if last > 0 {
      assert n - 1 == limit * (pages - 1) + (last - 1);
      assert limit * (pages - 1) >= 0;
      Quotient(n - 1, limit, pages - 1, last - 1);
    }
  }

  /** A traversal of a fixed table that ran to the empty cursor returned exactly the sorted
      filtered scan, in max(1, ceil(n / limit)) pages. */
  lemma TraversalOfFixedTable(fs: seq<Fetch>, t: set<Row>, f: Filter, dir: Direction, limit: nat, scan: seq<Row>)
    requires Traversal(fs, f, dir, limit) && FixedTable(fs, t) && fs != [] && !fs[|fs| - 1].more
    requires FullScan(scan, t, f, dir)
    ensures Returned(fs) == scan
    ensures |fs| == if |scan| == 0 then 1 else (|scan| - 1) / limit + 1
  {
    ReturnedIsScan(fs, t, f, dir, limit, scan);
    ReturnedLength(fs, f, dir, limit);
    if |fs| > 1 { LastPageNotEmpty(fs, t, f, dir, limit); }
    PageCount(|scan|, limit, |fs|, |fs[|fs| - 1].items|);
  }

  /** The cursor string a client sends after these responses. */
  function SentAfter(rs: seq<Response>): string {
    if rs == [] then "" else rs[|rs| - 1].next
  }

  /** A client starts without a cursor and sends back each `next` it is given, until it is empty. */
  ghost predicate Browse(rs: seq<Response>, f: Filter, dir: Direction, limit: nat) {
    limit > 0 &&
    (rs == [] ||
     (var init, last := rs[..|rs| - 1], rs[|rs| - 1];
      && Browse(init, f, dir, limit)
      && (init != [] ==> init[|init| - 1].next != "")
      && Answers(last, SentAfter(init), f, dir, limit)))
  }

  function Fetches(rs: seq<Response>): (fs: seq<Fetch>)
    ensures |fs| == |rs|
    ensures forall i :: 0 <= i < |rs| ==> fs[i] == Fetch(rs[i].table, rs[i].items, rs[i].next != "")
  {
    seq(|rs|, i requires 0 <= i < |rs| => Fetch(rs[i].table, rs[i].items, rs[i].next != ""))
  }

  /** The last response left a cursor, so its string decodes to the last row's key. */
  lemma SentIsAfter(rs: seq<Response>, f: Filter, dir: Direction, limit: nat)
    requires Browse(rs, f, dir, limit) && (rs != [] ==> rs[|rs| - 1].next != "")
    ensures CursorKey(SentAfter(rs)) == Some(CursorAfter(Fetches(rs)))
  {
  }

  lemma OneMoreFetch(fs: seq<Fetch>, last: Fetch, f: Filter, dir: Direction, limit: nat)
    requires Traversal(fs, f, dir, limit) && (fs != [] ==> fs[|fs| - 1].more)
    requires IsPage(last.items, last.more, last.table, f, dir, CursorAfter(fs), limit)
    ensures Traversal(fs + [last], f, dir, limit)
  {
    assert (fs + [last])[..|fs|] == fs;
  }

  lemma LastFetch(rs: seq<Response>)
    requires rs != []
    ensures var last := rs[|rs| - 1];
      Fetches(rs) == Fetches(rs[..|rs| - 1]) + [Fetch(last.table, last.items, last.next != "")]
  {
  }

  /** The strings carry the keys: the responses of a client that sends back every cursor are a
      traversal, whatever the tables do between the requests. */
  lemma {:induction false} BrowseIsTraversal(rs: seq<Response>, f: Filter, dir: Direction, limit: nat)
    requires Browse(rs, f, dir, limit)
    ensures Traversal(Fetches(rs), f, dir, limit)
  {
    if rs != [] {
      var init, last := rs[..|rs| - 1], rs[|rs| - 1];
      BrowseIsTraversal(init, f, dir, limit);
      SentIsAfter(init, f, dir, limit);
      LastFetch(rs);
      OneMoreFetch(Fetches(init), Fetch(last.table, last.items, last.next != ""), f, dir, limit);
    }
  }

  /** What a client sees of a table that changes meanwhile: no ID twice, and a row that stays exactly
      once when the cursor comes back empty. */
  lemma BrowseUnderWrites(rs: seq<Response>, f: Filter, dir: Direction, limit: nat, id: string, k: Key)
    requires Browse(rs, f, dir, limit) && rs != [] && Evolves(Fetches(rs))
    ensures var fs := Fetches(rs);
      && (forall m, n :: 0 <= m < n < |Returned(fs)| ==> Returned(fs)[m].id != Returned(fs)[n].id)
      && (Stays(fs, f, id, k) && SentAfter(rs) == "" ==>
            exists n :: IsReturned(fs, n, id) && forall m :: IsReturned(fs, m, id) ==> m == n)
  {
    BrowseIsTraversal(rs, f, dir, limit);
    TraversalUnderWrites(Fetches(rs), f, dir, limit, id, k);
  }

  predicate DiffersAt(a: string, b: string, k: int) {
    0 <= k <= |a| && k < |b| && a[..k] == b[..k] && (k == |a| || a[k] < b[k])
  }

  /** The dictionary order of strings. */
  ghost predicate Lexicographic(a: string, b: string) {
    exists k :: DiffersAt(a, b, k)
  }

  function Codes(id: string): Key {
    seq(|id|, k requires 0 <= k < |id| => id[k] as int)
  }

  lemma {:induction false} CodesInOrder(a: string, b: string)
    requires Less(Codes(a), Codes(b))
    ensures Lexicographic(a, b)
  {
    if a == "" {
      assert DiffersAt(a, b, 0);
    } else if a[0] < b[0] {
      assert DiffersAt(a, b, 0);
    } else {
      assert Codes(a)[1..] == Codes(a[1..]) && Codes(b)[1..] == Codes(b[1..]);
      CodesInOrder(a[1..], b[1..]);
      var k :| DiffersAt(a[1..], b[1..], k);
      assert a[..k + 1] == [a[0]] + a[1..][..k] && b[..k + 1] == [b[0]] + b[1..][..k];
      assert DiffersAt(a, b, k + 1);
    }
  }

  lemma LessKeys(r: Row, s: Row)
    requires Less(RowKey(r), RowKey(s))
    ensures Instant(r.at) < Instant(s.at) || (Instant(r.at) == Instant(s.at) && Lexicographic(r.id, s.id))
  {
    assert RowKey(r)[1..] == Codes(r.id) && RowKey(s)[1..] == Codes(s.id);
    if Less(Codes(r.id), Codes(s.id)) { CodesInOrder(r.id, s.id); }
  }

  /** An earlier date, or the same date and an earlier time of day. */
  predicate Earlier(a: Stamp, b: Stamp)
    requires Valid(a) && Valid(b)
  {
    EarlierDate(a, b) || (!EarlierDate(b, a) && OfDay(a) < OfDay(b))
  }

  /** The order a reader of two rows sees: by reading when the offsets are the same, and by ID when
      the readings are. */
  ghost predicate InTime(r: Row, s: Row)
    requires Valid(r.at) && Valid(s.at)
  {
    && (r.at.offset == s.at.offset ==> !Earlier(s.at, r.at))
    && (r.at == s.at ==> Lexicographic(r.id, s.id))
  }

  lemma LessInTime(r: Row, s: Row)
    requires Valid(r.at) && Valid(s.at) && Less(RowKey(r), RowKey(s))
    ensures InTime(r, s)
  {
    LessKeys(r, s);
    if r.at.offset == s.at.offset { InstantOrder(s.at, r.at); }
  }

  /** What every listing returns, over all its pages and while the table changes: line items and
      events oldest first, bills newest first, rows of one reading by ID; and only rows of the owner
      and, if one is asked for, of the status. */
  lemma ListedInTime(l: Listing, fs: seq<Fetch>, f: Filter, limit: nat, m: nat, n: nat)
    requires Traversal(fs, f, DirectionOf(l), limit) && m < n < |Returned(fs)|
    ensures var r, s := Returned(fs)[m], Returned(fs)[n];
      Valid(r.at) && Valid(s.at) ==> if l.Bills? then InTime(s, r) else InTime(r, s)
  {
    ReturnedSorted(fs, f, DirectionOf(l), limit);
    var r, s := Returned(fs)[m], Returned(fs)[n];
    if Valid(r.at) && Valid(s.at) {
      if l.Bills? { LessInTime(s, r); } else { LessInTime(r, s); }
    }
  }

  lemma ListedIsOwned(fs: seq<Fetch>, f: Filter, dir: Direction, limit: nat, n: nat)
    requires Traversal(fs, f, dir, limit) && n < |Returned(fs)|
    ensures var r := Returned(fs)[n]; r.owner == f.owner && (f.status.Some? ==> r.status == f.status.value)
  {
    var i := FetchOf(fs, f, dir, limit, n);
  }

  /** On a fixed table exactly those rows are returned. */
  lemma ListedExactly(fs: seq<Fetch>, t: set<Row>, f: Filter, dir: Direction, limit: nat, r: Row)
    requires Traversal(fs, f, dir, limit) && FixedTable(fs, t) && fs != [] && !fs[|fs| - 1].more
    ensures r in Returned(fs) <==> r in t && r.owner == f.owner && (f.status.None? || r.status == f.status.value)
  {
    if r in Returned(fs) {
      var n :| 0 <= n < |Returned(fs)| && Returned(fs)[n] == r;
      var i := FetchOf(fs, f, dir, limit, n);
      ListedIsOwned(fs, f, dir, limit, n);
    } else if r in t && Matches(f, r) {
      Reached(fs, t, f, dir, limit, r);
    }
  }
}
