/**
 * Keyset pagination of the monitoring events: pages ordered by (event_time,
 * id), each resuming after the cursor of the row the previous page ended on.
 */
module Keyset {
  import opened Prelude

  /** The ordering key of a row: its instant, and its UUID as a number. */
  datatype Key = Key(time: int, id: nat)

  type Payload = nat

  datatype Row = Row(key: Key, payload: Payload)

  // ----- the order ---------------------------------------------------------------

  /** The keyset predicate: a row's key is past the cursor's in the walking direction. */
  predicate RowCompare(a: Key, cursor: Key, greater: bool) {
    if greater then a.time > cursor.time || (a.time == cursor.time && a.id > cursor.id)
    else a.time < cursor.time || (a.time == cursor.time && a.id < cursor.id)
  }

  /** Rows are unique by id, as the primary key makes them. */
  ghost predicate Table(rows: seq<Row>) {
    forall i, j :: 0 <= i < j < |rows| ==> rows[i].key.id != rows[j].key.id
  }

  ghost predicate Ascending(rows: seq<Row>, asc: bool) {
    forall i, j :: 0 <= i < j < |rows| ==> RowCompare(rows[j].key, rows[i].key, asc)
  }

  /** ORDER BY (event_time, id). */
  function OrderBy(rows: seq<Row>, asc: bool): seq<Row> {
    if rows == [] then [] else Insert(rows[0], OrderBy(rows[1..], asc), asc)
  }

  function Insert(row: Row, rows: seq<Row>, asc: bool): seq<Row> {
    if rows == [] || RowCompare(rows[0].key, row.key, asc) then [row] + rows
    else [rows[0]] + Insert(row, rows[1..], asc)
  }

  function Where(rows: seq<Row>, keep: Row -> bool): seq<Row> {
    if rows == [] then []
    else (if keep(rows[0]) then [rows[0]] else []) + Where(rows[1..], keep)
  }

  lemma {:induction false} WhereMembers(rows: seq<Row>, keep: Row -> bool)
    ensures forall r :: r in Where(rows, keep) <==> r in rows && keep(r)
    ensures Table(rows) ==> Table(Where(rows, keep))
  {
    if rows != [] {
      WhereMembers(rows[1..], keep);
      assert rows == [rows[0]] + rows[1..];
      if Table(rows) {
        var rest := Where(rows[1..], keep);
        forall i | 0 <= i < |rest| ensures rest[i].key.id != rows[0].key.id {
          assert rest[i] in rows[1..];
        }
        assert Table(rows[1..]);
      }
    }
  }

  lemma {:induction false} InsertOrdered(row: Row, rows: seq<Row>, asc: bool)
    requires Ascending(rows, asc) && forall i :: 0 <= i < |rows| ==> rows[i].key.id != row.key.id
    ensures Ascending(Insert(row, rows, asc), asc)
    ensures forall r :: r in Insert(row, rows, asc) <==> r == row || r in rows
  {
    if rows == [] || RowCompare(rows[0].key, row.key, asc) {
      forall i | 0 <= i < |rows| ensures RowCompare(rows[i].key, row.key, asc) {
        assert i > 0 ==> RowCompare(rows[i].key, rows[0].key, asc);
      }
    } else {
      var rest := Insert(row, rows[1..], asc);
      InsertOrdered(row, rows[1..], asc);
      assert rows == [rows[0]] + rows[1..];
      forall i | 0 <= i < |rest| ensures RowCompare(rest[i].key, rows[0].key, asc) {
        assert rest[i] in rest;
      }
    }
  }

  lemma {:induction false} OrderByOrdered(rows: seq<Row>, asc: bool)
    requires Table(rows)
    ensures Ascending(OrderBy(rows, asc), asc)
    ensures forall r :: r in OrderBy(rows, asc) <==> r in rows
  {
    if rows != [] {
      var rest := OrderBy(rows[1..], asc);
      OrderByOrdered(rows[1..], asc);
      assert rows == [rows[0]] + rows[1..];
      forall i | 0 <= i < |rest| ensures rest[i].key.id != rows[0].key.id {
        assert rest[i] in rows[1..];
      }
      InsertOrdered(rows[0], rest, asc);
    }
  }

  lemma {:induction false} HasMember(rows: seq<Row>)
    ensures rows != [] ==> exists r :: r in rows
  {
    if rows != [] {
      assert rows[0] in rows;
    }
  }

  /** Rows in strict order are determined by which rows they are. */
  lemma {:induction false} OrderedUnique(a: seq<Row>, b: seq<Row>, asc: bool)
    requires Ascending(a, asc) && Ascending(b, asc)
    requires forall r :: r in a <==> r in b
    ensures a == b
  {
    if a == [] {
      HasMember(b);
    } else {
      assert a[0] in b;
      assert b[0] in a;
      var i :| 0 <= i < |b| && b[i] == a[0];
      var j :| 0 <= j < |a| && a[j] == b[0];
      assert i == 0 && a[0] == b[0];
      assert a == [a[0]] + a[1..] && b == [b[0]] + b[1..];
      HeadNotInTail(a, asc);
      HeadNotInTail(b, asc);
      assert forall r :: r in a <==> r == a[0] || r in a[1..];
      assert forall r :: r in b <==> r == b[0] || r in b[1..];
      OrderedUnique(a[1..], b[1..], asc);
    }
  }

  lemma {:induction false} HeadNotInTail(a: seq<Row>, asc: bool)
    requires Ascending(a, asc) && a != []
    ensures a[0] !in a[1..]
  {
    forall i | 0 <= i < |a[1..]| ensures a[1..][i] != a[0] {
      assert RowCompare(a[i + 1].key, a[0].key, asc);
    }
  }

  // ----- the cursor text -----------------------------------------------------------

  /** How instants and UUIDs are written and read; the parsers may refuse. */
  datatype Codec = Codec(
    iso: int -> string, fromIso: string -> Option<int>,
    uuid: nat -> string, fromUuid: string -> Option<nat>)

  /** isoformat and str(UUID) are read back exactly, and neither is empty; the first has no separator. */
  ghost predicate Faithful(c: Codec) {
    && (forall t :: c.fromIso(c.iso(t)) == Some(t) && c.iso(t) != "" && '|' !in c.iso(t))
    && (forall u: nat :: c.fromUuid(c.uuid(u)) == Some(u) && c.uuid(u) != "")
  }

  function EncodeCursor(c: Codec, key: Key): string {
    c.iso(key.time) + "|" + c.uuid(key.id)
  }

  /** str.partition: the text before and after the first separator. */
  function Partition(s: string): (string, string) {
    if s == [] then ("", "")
    else if s[0] == '|' then ("", s[1..])
    else var (head, tail) := Partition(s[1..]); ([s[0]] + head, tail)
  }

  /** None where the source raises ValueError. */
  function DecodeCursor(c: Codec, cursor: string): Option<Key> {
    var (rawTime, rawId) := Partition(cursor);
    if rawTime == "" || rawId == "" then None
    else if c.fromUuid(rawId).None? then None
    else if c.fromIso(rawTime).None? then None
    else Some(Key(c.fromIso(rawTime).value, c.fromUuid(rawId).value))
  }

  lemma {:induction false} PartitionAtFirst(head: string, tail: string)
    requires '|' !in head
    ensures Partition(head + "|" + tail) == (head, tail)
  {
    var s := head + "|" + tail;
    if head == [] {
      assert s == ['|'] + tail;
    } else {
      assert s[1..] == head[1..] + "|" + tail;
      assert head == [head[0]] + head[1..];
      PartitionAtFirst(head[1..], tail);
    }
  }

  /** Every key survives the trip through its cursor. */
  lemma {:induction false} CursorRoundTrip(c: Codec, key: Key)
    requires Faithful(c)
    ensures DecodeCursor(c, EncodeCursor(c, key)) == Some(key)
  {
    PartitionAtFirst(c.iso(key.time), c.uuid(key.id));
  }

  // ----- one page --------------------------------------------------------------------

  const MAX_LIMIT := 500
  const DEFAULT_LIMIT := 100

  /** A size from 1 to 500 is the page size; a larger one is capped, none or a non-positive one is 100. */
  function NormalizeLimit(limit: Option<int>): (n: nat)
    ensures 1 <= n <= 500
    ensures limit.Some? && 1 <= limit.value <= 500 ==> n == limit.value
    ensures limit.Some? && limit.value > 500 ==> n == 500
    ensures limit.None? || limit.value < 1 ==> n == 100
  {
    if limit.None? || limit.value <= 0 then DEFAULT_LIMIT else MinInt(limit.value, MAX_LIMIT)
  }

  datatype Query = Query(keep: Row -> bool, limit: Option<int>, asc: bool)

  datatype Page = Page(rows: seq<Row>, total: int, next: Option<string>)

  /** The rows a query reads: filtered, past the cursor, in order. */
  function Matching(table: seq<Row>, q: Query, after: Option<Key>): seq<Row> {
    OrderBy(Where(table, (r: Row) => q.keep(r) && (after.Some? ==> RowCompare(r.key, after.value, q.asc))), q.asc)
  }

  function Take(rows: seq<Row>, n: nat): seq<Row> {
    if |rows| <= n then rows else rows[..n]
  }

  /** An empty cursor text counts as no cursor for the rows, but not for the total. */
  function After(c: Codec, cursor: Option<string>): Result<Option<Key>, ()> {
    if cursor.None? || cursor.value == "" then Ok(None)
    else
      var key := DecodeCursor(c, cursor.value);
      if key.None? then Err(()) else Ok(key)
  }

  function ListEvents(c: Codec, table: seq<Row>, q: Query, cursor: Option<string>,
                      includeTotal: Option<bool>): Result<Page, ()> {
    var after := After(c, cursor);
    if after.Err? then Err(())
    else
      var n := NormalizeLimit(q.limit);
      var rows := Take(Matching(table, q, after.value), n);
      var counted := if includeTotal.Some? then includeTotal.value else cursor.None?;
      Ok(Page(rows,
              if counted then |Where(table, q.keep)| else -1,
              if |rows| == n then Some(EncodeCursor(c, rows[|rows| - 1].key)) else None))
  }

  ghost predicate Wanted(table: seq<Row>, q: Query, after: Option<Key>, r: Row) {
    r in table && q.keep(r) && (after.Some? ==> RowCompare(r.key, after.value, q.asc))
  }

  lemma {:induction false} MatchingRows(table: seq<Row>, q: Query, after: Option<Key>)
    requires Table(table)
    ensures Ascending(Matching(table, q, after), q.asc)
    ensures forall r :: r in Matching(table, q, after) <==> Wanted(table, q, after, r)
  {
    var keep := (r: Row) => q.keep(r) && (after.Some? ==> RowCompare(r.key, after.value, q.asc));
    WhereMembers(table, keep);
    OrderByOrdered(Where(table, keep), q.asc);
  }

  /** The order of keys, said without the walking direction. */
  predicate Before(a: Key, b: Key) {
    a.time < b.time || (a.time == b.time && a.id < b.id)
  }

  /** Ascending lists run from the earliest key to the latest, descending ones the other way. */
  lemma {:induction false} AscendingMeans(rows: seq<Row>, asc: bool)
    ensures Ascending(rows, asc) <==>
      forall i, j :: 0 <= i < j < |rows| ==>
        if asc then Before(rows[i].key, rows[j].key) else Before(rows[j].key, rows[i].key)
  {
    assert forall a, b :: RowCompare(a, b, true) <==> Before(b, a);
    assert forall a, b :: RowCompare(a, b, false) <==> Before(a, b);
  }

  /** The cursors that name a row are the texts with a date and a UUID around the first separator. */
  lemma {:induction false} DecodesIff(c: Codec, cursor: string, key: Key)
    ensures DecodeCursor(c, cursor) == Some(key) <==>
              exists head, tail :: CursorParts(cursor, head, tail) && c.fromIso(head) == Some(key.time)
                                   && c.fromUuid(tail) == Some(key.id)
  {
    var parts := Partition(cursor);
    PartitionParts(cursor);
    if DecodeCursor(c, cursor) == Some(key) {
      assert CursorParts(cursor, parts.0, parts.1);
    }
    forall head, tail | CursorParts(cursor, head, tail) ensures parts == (head, tail) {
      PartitionAtFirst(head, tail);
    }
  }

  ghost predicate CursorParts(cursor: string, head: string, tail: string) {
    cursor == head + "|" + tail && '|' !in head && head != "" && tail != ""
  }

  lemma {:induction false} PartitionParts(s: string)
    ensures var (head, tail) := Partition(s);
            '|' !in head && (tail != "" ==> s == head + "|" + tail)
  {
    if s != [] {
      var (head, tail) := Partition(s[1..]);
      PartitionParts(s[1..]);
      assert s == [s[0]] + s[1..];
      if s[0] != '|' && tail != "" {
        assert s == ([s[0]] + head) + "|" + tail;
      }
    }
  }

  /** A page fails exactly for a cursor text that names no row; otherwise it has at most as many
      rows as were asked for, all wanted, and counts all filtered rows when asked to, or by default
      on the first page only. */
  lemma {:induction false} PageAnswers(c: Codec, table: seq<Row>, q: Query, cursor: Option<string>,
                                       includeTotal: Option<bool>)
    requires Table(table)
    ensures var r := ListEvents(c, table, q, cursor, includeTotal);
            && (r.Err? <==> cursor.Some? && cursor.value != "" && DecodeCursor(c, cursor.value).None?)
            && (r.Ok? ==>
                  && (q.limit.Some? && q.limit.value >= 1 ==> |r.value.rows| <= q.limit.value)
                  && (forall row :: row in r.value.rows ==> row in table && q.keep(row))
                  && (includeTotal == Some(true) || (includeTotal.None? && cursor.None?) ==>
                        r.value.total == |set row | row in table && q.keep(row)|)
                  && (includeTotal == Some(false) || (includeTotal.None? && cursor.Some?) ==> r.value.total == -1))
  {
    var r := ListEvents(c, table, q, cursor, includeTotal);
    if r.Ok? {
      var after := After(c, cursor).value;
      PageOrdered(table, q, after, NormalizeLimit(q.limit));
      CountKept(table, q.keep);
    }
  }

  lemma {:induction false} CountKept(table: seq<Row>, keep: Row -> bool)
    requires Table(table)
    ensures |Where(table, keep)| == |set row | row in table && keep(row)|
  {
    var kept := Where(table, keep);
    WhereMembers(table, keep);
    forall i, j | 0 <= i < j < |kept| ensures kept[i] != kept[j] {
      assert kept[i].key.id != kept[j].key.id;
    }
    DistinctImage(kept);
    assert Image(kept) == set row | row in table && keep(row);
  }

  /** What follows the last row of a page is the rest of the same listing. */
  lemma {:induction false} MatchingSuffix(table: seq<Row>, q: Query, after: Option<Key>, k: nat)
    requires Table(table) && 0 < k <= |Matching(table, q, after)|
    ensures var all := Matching(table, q, after);
            Matching(table, q, Some(all[k - 1].key)) == all[k..]
  {
    var all := Matching(table, q, after);
    var rest := Matching(table, q, Some(all[k - 1].key));
    MatchingRows(table, q, after);
    MatchingRows(table, q, Some(all[k - 1].key));
    assert forall i :: 0 <= i < k - 1 ==> RowCompare(all[k - 1].key, all[i].key, q.asc);
    forall r ensures r in rest <==> r in all[k..] {
      if r in all[k..] {
        var i :| 0 <= i < |all[k..]| && all[k..][i] == r;
        assert all[k + i] == r && r in all;
        assert RowCompare(all[k + i].key, all[k - 1].key, q.asc);
      }
      if r in rest {
        assert RowCompare(r.key, all[k - 1].key, q.asc);
        if after.Some? {
          assert all[k - 1] in all;
        }
        assert r in all;
        var i :| 0 <= i < |all| && all[i] == r;
        assert all[k..][i - k] == r;
      }
    }
    OrderedUnique(rest, all[k..], q.asc);
  }

  lemma {:induction false} NextResumes(c: Codec, key: Key)
    requires Faithful(c)
    ensures After(c, Some(EncodeCursor(c, key))) == Ok(Some(key))
  {
    CursorRoundTrip(c, key);
    assert EncodeCursor(c, key) != "";
  }

  // ----- walking the cursor ------------------------------------------------------------

  /** Page k is read from the table as it is then, from the cursor of page k - 1. */
  ghost predicate Walk(c: Codec, tables: seq<seq<Row>>, q: Query, pages: seq<Page>) {
    && |pages| == |tables| > 0
    && forall k :: 0 <= k < |pages| ==> PageAt(c, tables, q, pages, k)
  }

  ghost predicate PageAt(c: Codec, tables: seq<seq<Row>>, q: Query, pages: seq<Page>, k: nat)
    requires k < |pages| == |tables|
  {
    var cursor := if k == 0 then None else pages[k - 1].next;
    && (k > 0 ==> cursor.Some?)
    && ListEvents(c, tables[k], q, cursor, None) == Ok(pages[k])
  }

  ghost predicate Complete(pages: seq<Page>) {
    pages != [] && pages[|pages| - 1].next.None?
  }

  function Returned(pages: seq<Page>): seq<Row> {
    if pages == [] then [] else Returned(pages[..|pages| - 1]) + pages[|pages| - 1].rows
  }

  ghost predicate Unchanging(tables: seq<seq<Row>>, table: seq<Row>) {
    Table(table) && forall k :: 0 <= k < |tables| ==> tables[k] == table
  }

  /** The page is the slice of the listing that begins at `at`, and points on exactly if it is full. */
  ghost predicate SliceAt(c: Codec, table: seq<Row>, q: Query, page: Page, at: nat) {
    var all := Matching(table, q, None);
    var n := NormalizeLimit(q.limit);
    && at <= |all|
    && page.rows == Take(all[at..], n)
    && (page.next.Some? <==> at + n <= |all|)
    && (page.next.Some? ==> page.next == Some(EncodeCursor(c, all[at + n - 1].key)))
  }

  /** Over a fixed table, page k is the k-th slice of the listing and the last is the first short one. */
  lemma {:induction false} PageIsSlice(c: Codec, table: seq<Row>, tables: seq<seq<Row>>, q: Query, pages: seq<Page>,
                                       k: nat)
    requires Faithful(c) && Unchanging(tables, table) && Walk(c, tables, q, pages) && k < |pages|
    ensures SliceAt(c, table, q, pages[k], k * NormalizeLimit(q.limit))
  {
    SliceByOffset(c, table, tables, q, pages, k);
    OffsetIsProduct(k, NormalizeLimit(q.limit));
  }

  /** Where page k begins, counted page by page. */
  function Offset(k: nat, n: nat): nat {
    if k == 0 then 0 else Offset(k - 1, n) + n
  }

  lemma {:induction false} OffsetIsProduct(k: nat, n: nat)
    ensures Offset(k, n) == k * n
  {
    if k > 0 {
      OffsetIsProduct(k - 1, n);
      assert (k - 1) * n + n == k * n;
    }
  }

  lemma {:induction false} SliceByOffset(c: Codec, table: seq<Row>, tables: seq<seq<Row>>, q: Query,
                                         pages: seq<Page>, k: nat)
    requires Faithful(c) && Unchanging(tables, table) && Walk(c, tables, q, pages) && k < |pages|
    ensures SliceAt(c, table, q, pages[k], Offset(k, NormalizeLimit(q.limit)))
  {
    if k == 0 {
      FirstSlice(c, table, tables, q, pages);
    } else {
      SliceByOffset(c, table, tables, q, pages, k - 1);
      NextSlice(c, table, tables, q, pages, k - 1, Offset(k - 1, NormalizeLimit(q.limit)));
    }
  }

  lemma {:induction false} FirstSlice(c: Codec, table: seq<Row>, tables: seq<seq<Row>>, q: Query, pages: seq<Page>)
    requires Unchanging(tables, table) && Walk(c, tables, q, pages)
    ensures SliceAt(c, table, q, pages[0], 0)
  {
    var all := Matching(table, q, None);
    assert PageAt(c, tables, q, pages, 0) && all[0..] == all;
    PageOfRest(c, table, q, None, None, pages[0], all, 0);
  }

  lemma {:induction false} NextSlice(c: Codec, table: seq<Row>, tables: seq<seq<Row>>, q: Query, pages: seq<Page>,
                                     k: nat, at: nat)
    requires Faithful(c) && Unchanging(tables, table) && Walk(c, tables, q, pages) && k + 1 < |pages|
    requires SliceAt(c, table, q, pages[k], at)
    ensures SliceAt(c, table, q, pages[k + 1], at + NormalizeLimit(q.limit))
  {
    var all := Matching(table, q, None);
    var next := at + NormalizeLimit(q.limit);
    assert PageAt(c, tables, q, pages, k + 1);
    NextResumes(c, all[next - 1].key);
    MatchingSuffix(table, q, None, next);
    PageOfRest(c, table, q, pages[k].next, Some(all[next - 1].key), pages[k + 1], all, next);
  }

  lemma {:induction false} PageOfRest(c: Codec, table: seq<Row>, q: Query, cursor: Option<string>, after: Option<Key>,
                                      page: Page, all: seq<Row>, at: nat)
    requires ListEvents(c, table, q, cursor, None) == Ok(page) && After(c, cursor) == Ok(after)
    requires all == Matching(table, q, None) && at <= |all| && Matching(table, q, after) == all[at..]
    ensures SliceAt(c, table, q, page, at)
  {
  }

  lemma {:induction false} ReturnedIsPrefix(c: Codec, table: seq<Row>, tables: seq<seq<Row>>, q: Query,
                                            pages: seq<Page>, k: nat)
    requires Faithful(c) && Unchanging(tables, table) && Walk(c, tables, q, pages) && k < |pages|
    ensures var all := Matching(table, q, None);
            var n := NormalizeLimit(q.limit);
            Returned(pages[..k + 1]) == Take(all, k * n + n)
  {
    var n := NormalizeLimit(q.limit);
    PageIsSlice(c, table, tables, q, pages, k);
    ReturnedUnfold(pages, k);
    if k == 0 {
      assert Returned(pages[..0]) == [] == Take(Matching(table, q, None), 0);
    } else {
      ReturnedIsPrefix(c, table, tables, q, pages, k - 1);
      assert (k - 1) * n + n == k * n;
    }
    SliceExtends(c, table, q, pages[k], k * n);
  }

  lemma {:induction false} ReturnedUnfold(pages: seq<Page>, k: nat)
    requires k < |pages|
    ensures Returned(pages[..k + 1]) == Returned(pages[..k]) + pages[k].rows
  {
    assert pages[..k + 1][..k] == pages[..k];
  }

  lemma {:induction false} SliceExtends(c: Codec, table: seq<Row>, q: Query, page: Page, at: nat)
    requires SliceAt(c, table, q, page, at)
    ensures var all := Matching(table, q, None);
            Take(all, at) + page.rows == Take(all, at + NormalizeLimit(q.limit))
  {
    TakeMore(Matching(table, q, None), at, NormalizeLimit(q.limit));
  }

  lemma {:induction false} TakeMore(rows: seq<Row>, from: nat, n: nat)
    requires from <= |rows|
    ensures Take(rows, from) + Take(rows[from..], n) == Take(rows, from + n)
  {
  }

  lemma {:induction false} Multiples(x: int, n: int)
    requires n >= 0
    ensures x >= 1 ==> x * n >= n
    ensures x <= -1 ==> x * n <= -n
  {
    if x >= 1 {
      assert (x - 1) * n >= 0;
    } else if x <= -1 {
      assert (x + 1) * n <= 0;
    }
  }

  /** A walk over a fixed table has at most floor(n / limit) + 1 pages, and is complete exactly when
      it has that many. */
  lemma {:induction false} FixedWalkEnds(c: Codec, table: seq<Row>, tables: seq<seq<Row>>, q: Query, pages: seq<Page>)
    requires Faithful(c) && Unchanging(tables, table) && Walk(c, tables, q, pages)
    ensures var most := |Where(table, q.keep)| / NormalizeLimit(q.limit) + 1;
            |pages| <= most && (Complete(pages) <==> |pages| == most)
  {
    var n := NormalizeLimit(q.limit);
    var last := |pages| - 1;
    PageIsSlice(c, table, tables, q, pages, last);
    WhereCounts(table, q);
    PagesWithin(|Matching(table, q, None)|, n, last);
  }

  lemma {:induction false} PagesWithin(total: nat, n: nat, k: nat)
    requires n > 0 && k * n <= total
    ensures k <= total / n
    ensures k * n + n <= total <==> k < total / n
  {
    var d, m := total / n, total % n;
    assert total == n * d + m;
    assert (d - k) * n == total - m - k * n;
    Multiples(d - k, n);
  }

  /** A completed walk over a fixed table returns exactly the filtered rows in order, in
      floor(n / limit) + 1 pages, and its first page's total is their number. */
  lemma {:induction false} FixedWalk(c: Codec, table: seq<Row>, tables: seq<seq<Row>>, q: Query, pages: seq<Page>)
    requires Faithful(c) && Unchanging(tables, table) && Walk(c, tables, q, pages) && Complete(pages)
    ensures Ascending(Returned(pages), q.asc)
    ensures forall r :: r in Returned(pages) <==> r in table && q.keep(r)
    ensures pages[0].total == |Returned(pages)|
    ensures q.limit.Some? && 1 <= q.limit.value <= 500 ==> |pages| == |Returned(pages)| / q.limit.value + 1
    ensures |pages| == |Returned(pages)| / NormalizeLimit(q.limit) + 1
  {
    ListingReturned(c, table, tables, q, pages);
    MatchingRows(table, q, None);
    WhereCounts(table, q);
    FixedWalkEnds(c, table, tables, q, pages);
    assert PageAt(c, tables, q, pages, 0);
  }

  lemma {:induction false} ListingReturned(c: Codec, table: seq<Row>, tables: seq<seq<Row>>, q: Query, pages: seq<Page>)
    requires Faithful(c) && Unchanging(tables, table) && Walk(c, tables, q, pages) && Complete(pages)
    ensures Returned(pages) == Matching(table, q, None)
  {
    var all := Matching(table, q, None);
    var n := NormalizeLimit(q.limit);
    var last := |pages| - 1;
    PageIsSlice(c, table, tables, q, pages, last);
    ReturnedIsPrefix(c, table, tables, q, pages, last);
    assert pages[..last + 1] == pages;
    assert |all| < last * n + n;
  }

  lemma {:induction false} OrderByLength(rows: seq<Row>, asc: bool)
    ensures |OrderBy(rows, asc)| == |rows|
  {
    if rows != [] {
      OrderByLength(rows[1..], asc);
      InsertLength(rows[0], OrderBy(rows[1..], asc), asc);
    }
  }

  lemma {:induction false} InsertLength(row: Row, rows: seq<Row>, asc: bool)
    ensures |Insert(row, rows, asc)| == |rows| + 1
  {
    if rows != [] && !RowCompare(rows[0].key, row.key, asc) {
      InsertLength(row, rows[1..], asc);
    }
  }

  lemma {:induction false} WhereSame(rows: seq<Row>, f: Row -> bool, g: Row -> bool)
    requires forall r :: f(r) == g(r)
    ensures Where(rows, f) == Where(rows, g)
  {
    if rows != [] {
      WhereSame(rows[1..], f, g);
    }
  }

  lemma {:induction false} WhereCounts(table: seq<Row>, q: Query)
    ensures |Where(table, q.keep)| == |Matching(table, q, None)|
  {
    var after: Option<Key> := None;
    var keep := (r: Row) => q.keep(r) && (after.Some? ==> RowCompare(r.key, after.value, q.asc));
    WhereSame(table, keep, q.keep);
    OrderByLength(Where(table, keep), q.asc);
  }

  // ----- walking a growing table ------------------------------------------------------

  ghost predicate Growing(tables: seq<seq<Row>>) {
    && (forall k :: 0 <= k < |tables| ==> Table(tables[k]))
    && (forall j, k, r :: 0 <= j <= k < |tables| && r in tables[j] ==> r in tables[k])
  }

  /** The key the walk has reached after page k. */
  ghost predicate Reached(pages: seq<Page>, k: nat, key: Key) {
    k < |pages| && pages[k].rows != [] && pages[k].rows[|pages[k].rows| - 1].key == key
  }

  /** Page k read the rows past the key the previous page reached. */
  lemma {:induction false} PageReads(c: Codec, tables: seq<seq<Row>>, q: Query, pages: seq<Page>, k: nat)
      returns (after: Option<Key>)
    requires Faithful(c) && Growing(tables) && Walk(c, tables, q, pages) && k < |pages|
    ensures after.None? <==> k == 0
    ensures after.Some? ==> Reached(pages, k - 1, after.value)
    ensures var n := NormalizeLimit(q.limit);
            && pages[k].rows == Take(Matching(tables[k], q, after), n)
            && (pages[k].next.Some? <==> |pages[k].rows| == n)
  {
    assert PageAt(c, tables, q, pages, k);
    if k == 0 {
      after := None;
    } else {
      var rows := pages[k - 1].rows;
      PageNext(c, tables, q, pages, k - 1);
      NextResumes(c, rows[|rows| - 1].key);
      after := Some(rows[|rows| - 1].key);
    }
  }

  lemma {:induction false} PageNext(c: Codec, tables: seq<seq<Row>>, q: Query, pages: seq<Page>, k: nat)
    requires Walk(c, tables, q, pages) && k < |pages| && pages[k].next.Some?
    ensures pages[k].rows != []
    ensures pages[k].next == Some(EncodeCursor(c, pages[k].rows[|pages[k].rows| - 1].key))
  {
    assert PageAt(c, tables, q, pages, k);
  }

  /** In strict order, and each of them a wanted row of the table. */
  ghost predicate Listed(table: seq<Row>, q: Query, got: seq<Row>) {
    Ascending(got, q.asc) && forall r :: r in got ==> r in table && q.keep(r)
  }

  /** However the table grows, the rows returned so far are in strict order: none comes twice. */
  lemma {:induction false} GrowingOrdered(c: Codec, tables: seq<seq<Row>>, q: Query, pages: seq<Page>, k: nat)
    requires Faithful(c) && Growing(tables) && Walk(c, tables, q, pages) && k < |pages|
    ensures var got := Returned(pages[..k + 1]);
            && Listed(tables[k], q, got)
            && (pages[k].rows != [] ==> got != [] && Reached(pages, k, got[|got| - 1].key))
  {
    var after := PageReads(c, tables, q, pages, k);
    var rows := pages[k].rows;
    PageOrdered(tables[k], q, after, NormalizeLimit(q.limit));
    ReturnedUnfold(pages, k);
    if k == 0 {
      assert Returned(pages[..0]) == [];
    } else {
      GrowingOrdered(c, tables, q, pages, k - 1);
      PageContinues(c, tables, q, pages, k - 1);
      PagePast(tables[k], q, after, rows, Returned(pages[..k]));
    }
  }

  lemma {:induction false} PageContinues(c: Codec, tables: seq<seq<Row>>, q: Query, pages: seq<Page>, k: nat)
    requires Walk(c, tables, q, pages) && k + 1 < |pages|
    ensures pages[k].rows != []
  {
    assert PageAt(c, tables, q, pages, k + 1);
    PageNext(c, tables, q, pages, k);
  }

  /** Rows past the last one already returned extend the listing. */
  lemma {:induction false} PagePast(table: seq<Row>, q: Query, after: Option<Key>, rows: seq<Row>, got: seq<Row>)
    requires Listed(table, q, got) && Ascending(rows, q.asc)
    requires forall r :: r in rows ==> Wanted(table, q, after, r)
    requires got != [] && after == Some(got[|got| - 1].key)
    ensures Listed(table, q, got + rows)
  {
    forall i | 0 <= i < |rows| ensures RowCompare(rows[i].key, got[|got| - 1].key, q.asc) {
      assert rows[i] in rows;
    }
    JoinOrdered(got, rows, q.asc);
  }

  lemma {:induction false} PageOrdered(table: seq<Row>, q: Query, after: Option<Key>, n: nat)
    requires Table(table)
    ensures var rows := Take(Matching(table, q, after), n);
            Ascending(rows, q.asc) && forall r :: r in rows ==> Wanted(table, q, after, r)
  {
    MatchingRows(table, q, after);
    assert forall r :: r in Take(Matching(table, q, after), n) ==> r in Matching(table, q, after);
  }

  lemma {:induction false} JoinOrdered(a: seq<Row>, b: seq<Row>, asc: bool)
    requires Ascending(a, asc) && Ascending(b, asc) && a != []
    requires forall i :: 0 <= i < |b| ==> RowCompare(b[i].key, a[|a| - 1].key, asc)
    ensures Ascending(a + b, asc)
  {
    var s := a + b;
    forall i, j | 0 <= i < j < |s| ensures RowCompare(s[j].key, s[i].key, asc) {
      if i < |a| <= j {
        assert RowCompare(b[j - |a|].key, a[|a| - 1].key, asc);
        assert i < |a| - 1 ==> RowCompare(a[|a| - 1].key, a[i].key, asc);
      }
    }
  }

  /** A wanted row that is in the table when page j is read, past the cursor, has been returned
      by page k or is still ahead of the cursor; once the walk is complete it has been returned. */
  lemma {:induction false} NoneSkipped(c: Codec, tables: seq<seq<Row>>, q: Query, pages: seq<Page>, j: nat, k: nat,
                                       r: Row)
    requires Faithful(c) && Growing(tables) && Walk(c, tables, q, pages) && j <= k < |pages|
    requires r in tables[j] && q.keep(r)
    requires j > 0 ==> forall key :: Reached(pages, j - 1, key) ==> RowCompare(r.key, key, q.asc)
    ensures || r in Returned(pages[..k + 1])
            || (pages[k].next.Some? && forall key :: Reached(pages, k, key) ==> RowCompare(r.key, key, q.asc))
  {
    ReturnedUnfold(pages, k);
    if j < k {
      NoneSkipped(c, tables, q, pages, j, k - 1, r);
    }
    if j == k || r !in Returned(pages[..k]) {
      PageSettles(c, tables, q, pages, k, r);
    }
  }

  lemma {:induction false} PageSettles(c: Codec, tables: seq<seq<Row>>, q: Query, pages: seq<Page>, k: nat, r: Row)
    requires Faithful(c) && Growing(tables) && Walk(c, tables, q, pages) && k < |pages|
    requires r in tables[k] && q.keep(r)
    requires k > 0 ==> forall key :: Reached(pages, k - 1, key) ==> RowCompare(r.key, key, q.asc)
    ensures r in pages[k].rows
            || (pages[k].next.Some? && forall key :: Reached(pages, k, key) ==> RowCompare(r.key, key, q.asc))
  {
    var after := PageReads(c, tables, q, pages, k);
    PageTakesOrPasses(tables[k], q, after, NormalizeLimit(q.limit), r);
  }

  lemma {:induction false} PageTakesOrPasses(table: seq<Row>, q: Query, after: Option<Key>, n: nat, r: Row)
    requires Table(table) && n > 0 && Wanted(table, q, after, r)
    ensures var rows := Take(Matching(table, q, after), n);
            r in rows || (|rows| == n && RowCompare(r.key, rows[n - 1].key, q.asc))
  {
    MatchingRows(table, q, after);
    var all := Matching(table, q, after);
    var i :| 0 <= i < |all| && all[i] == r;
    if i >= n {
      assert RowCompare(all[i].key, all[n - 1].key, q.asc);
    } else {
      assert Take(all, n)[i] == r;
    }
  }

  /** A completed walk over a growing table returns no row twice and skips no row that was there
      when it began, in either direction. */
  lemma {:induction false} GrowingWalk(c: Codec, tables: seq<seq<Row>>, q: Query, pages: seq<Page>)
    requires Faithful(c) && Growing(tables) && Walk(c, tables, q, pages) && Complete(pages)
    ensures Ascending(Returned(pages), q.asc)
    ensures forall i, j :: 0 <= i < j < |Returned(pages)| ==> Returned(pages)[i] != Returned(pages)[j]
    ensures forall r :: r in tables[0] && q.keep(r) ==> r in Returned(pages)
    ensures forall r :: r in Returned(pages) ==> r in tables[|tables| - 1] && q.keep(r)
  {
    var last := |pages| - 1;
    assert pages[..last + 1] == pages;
    GrowingOrdered(c, tables, q, pages, last);
    forall r | r in tables[0] && q.keep(r) ensures r in Returned(pages) {
      NoneSkipped(c, tables, q, pages, 0, last, r);
    }
    forall i, j | 0 <= i < j < |Returned(pages)| ensures Returned(pages)[i] != Returned(pages)[j] {
      assert RowCompare(Returned(pages)[j].key, Returned(pages)[i].key, q.asc);
    }
  }
}
