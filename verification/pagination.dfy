/** Keyset paging of the booking list, in either direction. */
module Pagination {
  import opened Tables
  import opened KeyOrder

  const DEFAULT_PAGE_SIZE := 20
  const MAX_PAGE_SIZE := 100

  // ---------------------------------------------------------------- one page, over sort keys

  ghost predicate Beyond(k: Key, cursor: Option<Key>) {
    cursor.Some? ==> Before(cursor.value, k)
  }

  function Rest(all: set<Key>, cursor: Option<Key>): set<Key> {
    if cursor.None? then all else set k | k in all && Before(cursor.value, k)
  }

  datatype Page = Page(keys: seq<Key>, next: Option<Key>)

  // One row beyond the limit is fetched, to know whether there is a next page.
  function PageOf(all: set<Key>, cursor: Option<Key>, limit: nat): Page
    requires limit > 0
  {
    var ks := Ascending(Rest(all, cursor));
    if |ks| <= limit then Page(ks, None) else Page(ks[..limit], Some(ks[limit - 1]))
  }

  // A page holds exactly the rows between its cursor and the next; with a next cursor it is non-empty, ends at
  // that cursor, and so advances strictly.
  lemma PageIsTheStretch(all: set<Key>, cursor: Option<Key>, limit: nat)
    requires limit > 0
    ensures var p := PageOf(all, cursor, limit);
      && StrictlySorted(p.keys) && |p.keys| <= limit
      && (forall k :: k in p.keys <==> k in all && Beyond(k, cursor) && (p.next.Some? ==> k == p.next.value || Before(k, p.next.value)))
      && (p.next.Some? ==> p.keys != [] && p.keys[|p.keys| - 1] == p.next.value && Beyond(p.next.value, cursor))
  {
    var ks, p := Ascending(Rest(all, cursor)), PageOf(all, cursor, limit);
    if p.next.Some? {
      forall k ensures k in p.keys <==> k in ks && (k == ks[limit - 1] || Before(k, ks[limit - 1])) {
        if k in ks {
          var i :| 0 <= i < |ks| && ks[i] == k;
          assert i < limit ==> ks[..limit][i] == k;
        }
      }
      assert ks[limit - 1] in ks;
    }
  }

  // ---------------------------------------------------------------- unchanging data

  // Following next cursors to the end.
  function Walk(all: set<Key>, cursor: Option<Key>, limit: nat): seq<Key>
    requires limit > 0
    decreases |Rest(all, cursor)|
  {
    var p := PageOf(all, cursor, limit);
    PageIsTheStretch(all, cursor, limit);
    if p.next.None? then p.keys
    else
      RestShrinks(all, cursor, p.next.value);
      p.keys + Walk(all, p.next, limit)
  }

  lemma RestShrinks(all: set<Key>, cursor: Option<Key>, next: Key)
    requires next in all && Beyond(next, cursor)
    ensures |Rest(all, Some(next))| < |Rest(all, cursor)|
  {
    var smaller, larger := Rest(all, Some(next)), Rest(all, cursor);
    assert smaller <= larger - {next};
    Smaller(smaller, larger - {next});
  }

  lemma {:induction false} Smaller(a: set<Key>, b: set<Key>)
    requires a <= b
    ensures |a| <= |b|
  {
    if a != {} {
      var k :| k in a;
      Smaller(a - {k}, b - {k});
    }
  }

  lemma RestOfRest(all: set<Key>, cursor: Option<Key>, next: Key)
    requires Beyond(next, cursor)
    ensures Rest(Rest(all, cursor), Some(next)) == Rest(all, Some(next))
  {}

  lemma PageSplitsListing(all: set<Key>, cursor: Option<Key>, limit: nat)
    requires limit > 0 && PageOf(all, cursor, limit).next.Some?
    ensures var p := PageOf(all, cursor, limit);
      Ascending(Rest(all, cursor)) == p.keys + Ascending(Rest(all, p.next))
  {
    var ks := Ascending(Rest(all, cursor));
    var next := ks[limit - 1];
    assert next in ks;
    TailListing(ks, Rest(all, cursor), limit, next);
    RestOfRest(all, cursor, next);
    ListingUnique(ks[limit..], Ascending(Rest(all, Some(next))), Rest(all, Some(next)));
    assert ks == ks[..limit] + ks[limit..];
  }

  // The pages concatenate to the sorted list.
  lemma {:induction false} PagesConcatenate(all: set<Key>, cursor: Option<Key>, limit: nat)
    requires limit > 0
    ensures Walk(all, cursor, limit) == Ascending(Rest(all, cursor))
    decreases |Rest(all, cursor)|
  {
    var p := PageOf(all, cursor, limit);
    if p.next.Some? {
      PageIsTheStretch(all, cursor, limit);
      RestShrinks(all, cursor, p.next.value);
      PagesConcatenate(all, p.next, limit);
      PageSplitsListing(all, cursor, limit);
    }
  }

  lemma TailListing(ks: seq<Key>, all: set<Key>, n: nat, last: Key)
    requires Lists(ks, all) && 0 < n < |ks| && ks[n - 1] == last
    ensures Lists(ks[n..], Rest(all, Some(last)))
  {
    forall k ensures k in ks[n..] <==> k in Rest(all, Some(last)) {
      if k in ks[n..] {
        var i :| 0 <= i < |ks[n..]| && ks[n..][i] == k;
        assert ks[n + i] == k;
      }
      if k in all && Before(last, k) {
        var i :| 0 <= i < |ks| && ks[i] == k;
        assert i >= n;
        assert ks[n..][i - n] == k;
      }
    }
  }

  // ---------------------------------------------------------------- data changing between pages

  // The cursor of the i-th fetch, when fetch i sees the rows snaps[i].
  function CursorAt(snaps: seq<set<Key>>, limit: nat, i: nat): Option<Key>
    requires limit > 0 && i <= |snaps|
    decreases i, 0
  {
    if i == 0 then None else PageAt(snaps, limit, i - 1).next
  }

  function PageAt(snaps: seq<set<Key>>, limit: nat, i: nat): Page
    requires limit > 0 && i < |snaps|
    decreases i, 1
  {
    PageOf(snaps[i], CursorAt(snaps, limit, i), limit)
  }

  // Each page but perhaps the last hands on a cursor.
  ghost predicate Underway(snaps: seq<set<Key>>, limit: nat)
    requires limit > 0
  {
    forall i: nat | i < |snaps| - 1 :: PageAt(snaps, limit, i).next.Some?
  }

  // And the last does not.
  ghost predicate Completed(snaps: seq<set<Key>>, limit: nat)
    requires limit > 0
  {
    Underway(snaps, limit) && snaps != [] && PageAt(snaps, limit, |snaps| - 1).next.None?
  }

  lemma {:induction false} CursorsAscend(snaps: seq<set<Key>>, limit: nat, i: nat, j: nat)
    requires limit > 0 && Underway(snaps, limit) && 0 < i <= j < |snaps|
    ensures var c, d := CursorAt(snaps, limit, i), CursorAt(snaps, limit, j);
      c.Some? && d.Some? && (c == d || Before(c.value, d.value))
  {
    assert PageAt(snaps, limit, i - 1).next.Some?;
    if i < j {
      CursorsAscend(snaps, limit, i, j - 1);
      assert PageAt(snaps, limit, j - 1).next.Some?;
      PageIsTheStretch(snaps[j - 1], CursorAt(snaps, limit, j - 1), limit);
    }
  }

  // However the rows change between pages, and however far the walk has come, no key is on two pages.
  lemma NoKeyTwice(snaps: seq<set<Key>>, limit: nat, k: Key, i: nat, j: nat)
    requires limit > 0 && Underway(snaps, limit) && i < |snaps| && j < |snaps|
    requires k in PageAt(snaps, limit, i).keys && k in PageAt(snaps, limit, j).keys
    ensures i == j
  {
    if i < j { LaterPageIsBeyond(snaps, limit, k, i, j); }
    if j < i { LaterPageIsBeyond(snaps, limit, k, j, i); }
  }

  lemma LaterPageIsBeyond(snaps: seq<set<Key>>, limit: nat, k: Key, i: nat, j: nat)
    requires limit > 0 && Underway(snaps, limit) && i < j < |snaps| && k in PageAt(snaps, limit, i).keys
    ensures k !in PageAt(snaps, limit, j).keys
  {
    var c, d := CursorAt(snaps, limit, i + 1), CursorAt(snaps, limit, j);
    CursorsAscend(snaps, limit, i + 1, j);
    assert k == c.value || Before(k, c.value) by { PageIsTheStretch(snaps[i], CursorAt(snaps, limit, i), limit); }
    assert k in PageAt(snaps, limit, j).keys ==> Before(d.value, k) by { PageIsTheStretch(snaps[j], d, limit); }
  }

  lemma {:induction false} OnSomePage(snaps: seq<set<Key>>, limit: nat, k: Key, i: nat) returns (j: nat)
    requires limit > 0 && Completed(snaps, limit) && i < |snaps|
    requires (forall n | 0 <= n < |snaps| :: k in snaps[n]) && Beyond(k, CursorAt(snaps, limit, i))
    ensures i <= j < |snaps| && k in PageAt(snaps, limit, j).keys
    decreases |snaps| - i
  {
    PageIsTheStretch(snaps[i], CursorAt(snaps, limit, i), limit);
    if k in PageAt(snaps, limit, i).keys {
      j := i;
    } else {
      j := OnSomePage(snaps, limit, k, i + 1);
    }
  }

  // A row there with the same key throughout a completed walk is on exactly one page, and on it once.
  lemma StableRowsReturnedOnce(snaps: seq<set<Key>>, limit: nat, k: Key) returns (i: nat, n: nat)
    requires limit > 0 && Completed(snaps, limit) && forall m | 0 <= m < |snaps| :: k in snaps[m]
    ensures i < |snaps| && n < |PageAt(snaps, limit, i).keys| && PageAt(snaps, limit, i).keys[n] == k
    ensures forall j: nat, m: nat | j < |snaps| && m < |PageAt(snaps, limit, j).keys| && PageAt(snaps, limit, j).keys[m] == k ::
      j == i && m == n
  {
    i := OnSomePage(snaps, limit, k, 0);
    n :| 0 <= n < |PageAt(snaps, limit, i).keys| && PageAt(snaps, limit, i).keys[n] == k;
    PageIsTheStretch(snaps[i], CursorAt(snaps, limit, i), limit);
    forall j: nat, m: nat | j < |snaps| && m < |PageAt(snaps, limit, j).keys| && PageAt(snaps, limit, j).keys[m] == k
      ensures j == i && m == n
    {
      NoKeyTwice(snaps, limit, k, i, j);
    }
  }

  // ---------------------------------------------------------------- the booking list

  datatype LimitParam = Absent | NotAnInteger | Number(n: int)

  // The page size asked for; None stands for a 400.
  function ParseLimit(raw: LimitParam): (limit: Option<nat>)
    ensures limit.Some? ==> 1 <= limit.value <= MAX_PAGE_SIZE
    ensures limit.None? <==> raw.NotAnInteger? || (raw.Number? && raw.n < 1)
    ensures raw.Absent? ==> limit == Some(DEFAULT_PAGE_SIZE)
    ensures raw.Number? && limit.Some? ==> limit.value <= raw.n && (limit.value == raw.n || limit.value == MAX_PAGE_SIZE)
  {
    match raw
    case Absent => Some(DEFAULT_PAGE_SIZE)
    case NotAnInteger => None
    case Number(n) => if n < 1 then None else Some(if n <= MAX_PAGE_SIZE then n else MAX_PAGE_SIZE)
  }

  datatype CursorParam = NoCursor | Malformed | At(starts: Instant, id: Id)

  datatype TimeFilter = Always | Future | Past

  // Either everyone's bookings of one resource, or the caller's own.
  datatype Query = Query(
    resource: Option<Id>,
    user: Id,
    status: Option<BookingStatus>,
    time: TimeFilter,
    limit: LimitParam,
    cursor: CursorParam)
  {
    // Past bookings are listed latest first.
    predicate Descending() {
      time == Past
    }

    predicate Matches(b: Booking, now: Instant) {
      && b.status != Held
      && (if resource.Some? then b.resource == resource.value else b.user == user)
      && (status.Some? ==> b.status == status.value)
      && match time
         case Always => true
         case Future => b.range.lo >= now
         case Past => b.range.lo < now
    }
  }

  function SortKey(descending: bool, starts: Instant, id: Id): Key {
    Key(if descending then -starts else starts, id)
  }

  function Keys(rows: map<Id, Booking>, q: Query, now: Instant): set<Key> {
    set i | i in rows && q.Matches(rows[i], now) :: SortKey(q.Descending(), rows[i].range.lo, i)
  }

  function CursorKey(q: Query): Option<Key> {
    if q.cursor.At? then Some(SortKey(q.Descending(), q.cursor.starts, q.cursor.id)) else None
  }

  datatype Listing = Rows(ids: seq<Id>, next: CursorParam) | BadRequest

  predicate Follows(q: Query, starts: Instant, id: Id) {
    q.cursor.At? ==> Before(SortKey(q.Descending(), q.cursor.starts, q.cursor.id), SortKey(q.Descending(), starts, id))
  }

  lemma RestIsTheFilter(rows: map<Id, Booking>, q: Query, now: Instant, qs: map<Id, Booking>)
    requires forall i :: (i in qs <==> i in rows && q.Matches(rows[i], now) && Follows(q, rows[i].range.lo, i))
    requires forall i | i in qs :: qs[i] == rows[i]
    ensures (set i | i in qs :: SortKey(q.Descending(), qs[i].range.lo, i)) == Rest(Keys(rows, q, now), CursorKey(q))
  {
    var keys, rest := set i | i in qs :: SortKey(q.Descending(), qs[i].range.lo, i), Rest(Keys(rows, q, now), CursorKey(q));
    forall k | k in keys ensures k in rest {
      var i :| i in qs && k == SortKey(q.Descending(), qs[i].range.lo, i);
      assert k in Keys(rows, q, now);
    }
    forall k | k in rest ensures k in keys {
      var i :| i in rows && q.Matches(rows[i], now) && k == SortKey(q.Descending(), rows[i].range.lo, i);
      assert i in qs;
    }
  }

  // The first `limit` of the rows beyond the cursor; one more is fetched to know whether any remain.
  method CutPage(keys: set<Key>, limit: nat, ghost all: set<Key>, ghost cursor: Option<Key>) returns (p: Page)
    requires limit > 0 && keys == Rest(all, cursor)
    ensures p == PageOf(all, cursor, limit)
  {
    var sorted := Ascending(keys);
    var fetched := if |sorted| <= limit + 1 then sorted else sorted[..limit + 1];
    var next := None;
    if |fetched| > limit {
      fetched := fetched[..limit];
      next := Some(fetched[limit - 1]);
    }
    p := Page(fetched, next);
  }

  predicate IsRow(rows: map<Id, Booking>, q: Query, k: Key) {
    k.minor >= 0 && k.minor in rows && k == SortKey(q.Descending(), rows[k.minor].range.lo, k.minor)
  }

  lemma PageHoldsRows(rows: map<Id, Booking>, q: Query, now: Instant, limit: nat)
    requires limit > 0
    ensures var p := PageOf(Keys(rows, q, now), CursorKey(q), limit);
      (forall k | k in p.keys :: IsRow(rows, q, k)) && (p.next.Some? ==> IsRow(rows, q, p.next.value))
  {
    PageIsTheStretch(Keys(rows, q, now), CursorKey(q), limit);
  }

  function IdsOf(rows: map<Id, Booking>, q: Query, keys: seq<Key>): (ids: seq<Id>)
    requires forall k | k in keys :: IsRow(rows, q, k)
    ensures |ids| == |keys| && forall n | 0 <= n < |ids| :: ids[n] == keys[n].minor
  {
    if keys == [] then []
    else
      assert IsRow(rows, q, keys[0]);
      var id: Id := keys[0].minor;
      [id] + IdsOf(rows, q, keys[1..])
  }

  // The list view answers with the page of its filtered rows.
  method ListBookings(rows: map<Id, Booking>, q: Query, now: Instant) returns (r: Listing, ghost page: Page)
    ensures r.BadRequest? <==> ParseLimit(q.limit).None? || q.cursor.Malformed?
    ensures r.Rows? ==>
      && page == PageOf(Keys(rows, q, now), CursorKey(q), ParseLimit(q.limit).value)
      && (forall k | k in page.keys :: IsRow(rows, q, k))
      && r.ids == IdsOf(rows, q, page.keys)
      && !r.next.Malformed? && CursorKey(q.(cursor := r.next)) == page.next
  {
    var limit := ParseLimit(q.limit);
    page := Page([], None);
    if limit.None? || q.cursor.Malformed? { return BadRequest, page; }
    var qs := map i | i in rows && q.Matches(rows[i], now) :: rows[i];
    if q.cursor.At? {
      if q.Descending() {
        qs := map i | i in qs && (qs[i].range.lo < q.cursor.starts || (qs[i].range.lo == q.cursor.starts && i > q.cursor.id)) :: qs[i];
      } else {
        qs := map i | i in qs && (qs[i].range.lo > q.cursor.starts || (qs[i].range.lo == q.cursor.starts && i > q.cursor.id)) :: qs[i];
      }
    }
    RestIsTheFilter(rows, q, now, qs);
    var p := CutPage(set i | i in qs :: SortKey(q.Descending(), qs[i].range.lo, i), limit.value, Keys(rows, q, now), CursorKey(q));
    PageHoldsRows(rows, q, now, limit.value);
    page := p;
    var next := if p.next.Some? then At(rows[p.next.value.minor].range.lo, p.next.value.minor) else NoCursor;
    r := Rows(IdsOf(rows, q, p.keys), next);
  }

  // ---------------------------------------------------------------- in the columns of the rows

  // Not a hold; of the resource asked for, or else the caller's; of the status asked for, if any; and begun or not.
  predicate Wanted(b: Booking, q: Query, now: Instant) {
    && b.status != Held
    && (q.resource.Some? ==> b.resource == q.resource.value) && (q.resource.None? ==> b.user == q.user)
    && (q.status.Some? ==> b.status == q.status.value)
    && (q.time == Future ==> now <= b.range.lo) && (q.time == Past ==> b.range.lo < now)
  }

  // By start, past bookings latest first; the lower id first among those that start at once.
  predicate Earlier(q: Query, starts: Instant, id: Id, otherStarts: Instant, other: Id) {
    (if q.time == Past then otherStarts < starts else starts < otherStarts) || (starts == otherStarts && id < other)
  }

  lemma OrderInColumns(q: Query, starts: Instant, id: Id, otherStarts: Instant, other: Id)
    ensures Before(SortKey(q.Descending(), starts, id), SortKey(q.Descending(), otherStarts, other))
      <==> Earlier(q, starts, id, otherStarts, other)
  {}

  lemma ListedInColumns(rows: map<Id, Booking>, q: Query, now: Instant, id: Id)
    requires id in rows
    ensures SortKey(q.Descending(), rows[id].range.lo, id) in Keys(rows, q, now) <==> Wanted(rows[id], q, now)
  {}

  ghost predicate AfterCursor(rows: map<Id, Booking>, q: Query, id: Id)
    requires id in rows
  {
    q.cursor.At? ==> Earlier(q, q.cursor.starts, q.cursor.id, rows[id].range.lo, id)
  }

  // What a page may hold: 20 unless asked otherwise, and never more than 100.
  function AtMost(limit: LimitParam): int {
    if limit.Number? then (if limit.n > 100 then 100 else limit.n) else 20
  }

  // Every row on a page is wanted and comes after the cursor; they come in order, and not too many. A wanted row after
  // the cursor is on the page, unless the page is full and hands on a cursor, its last row, before it.
  lemma PageInColumns(rows: map<Id, Booking>, q: Query, now: Instant, r: Listing, page: Page, id: Id)
    requires ParseLimit(q.limit).Some? && r.Rows? && page == PageOf(Keys(rows, q, now), CursorKey(q), ParseLimit(q.limit).value)
    requires (forall k | k in page.keys :: IsRow(rows, q, k)) && r.ids == IdsOf(rows, q, page.keys)
    requires !r.next.Malformed? && CursorKey(q.(cursor := r.next)) == page.next
    ensures |r.ids| <= AtMost(q.limit)
    ensures id in r.ids ==> id in rows && Wanted(rows[id], q, now) && AfterCursor(rows, q, id)
    ensures id in rows && Wanted(rows[id], q, now) && AfterCursor(rows, q, id) && id !in r.ids ==>
      && r.next.At? && |r.ids| == AtMost(q.limit) && r.next.id == r.ids[|r.ids| - 1]
      && Earlier(q, r.next.starts, r.next.id, rows[id].range.lo, id)
  {
    var all, cursor := Keys(rows, q, now), CursorKey(q);
    PageIsTheStretch(all, cursor, ParseLimit(q.limit).value);
    if id in r.ids { OnPageIsWanted(rows, q, now, page, r.ids, id); }
    if id in rows && Wanted(rows[id], q, now) && AfterCursor(rows, q, id) && id !in r.ids {
      OffPageIsLater(rows, q, now, page, r.ids, id);
      NextIsLast(rows, q, now, r, page);
    }
  }

  lemma OnPageIsWanted(rows: map<Id, Booking>, q: Query, now: Instant, page: Page, ids: seq<Id>, id: Id)
    requires (forall k | k in page.keys :: IsRow(rows, q, k) && k in Keys(rows, q, now) && Beyond(k, CursorKey(q)))
    requires ids == IdsOf(rows, q, page.keys) && id in ids
    ensures id in rows && Wanted(rows[id], q, now) && AfterCursor(rows, q, id)
  {
    var n :| 0 <= n < |ids| && ids[n] == id;
    var k := page.keys[n];
    assert k in page.keys;
    ListedInColumns(rows, q, now, id);
    if q.cursor.At? { OrderInColumns(q, q.cursor.starts, q.cursor.id, rows[id].range.lo, id); }
  }

  lemma OffPageIsLater(rows: map<Id, Booking>, q: Query, now: Instant, page: Page, ids: seq<Id>, id: Id)
    requires ParseLimit(q.limit).Some? && page == PageOf(Keys(rows, q, now), CursorKey(q), ParseLimit(q.limit).value)
    requires (forall k | k in page.keys :: IsRow(rows, q, k)) && ids == IdsOf(rows, q, page.keys)
    requires id in rows && Wanted(rows[id], q, now) && AfterCursor(rows, q, id) && id !in ids
    ensures page.next.Some? && Before(page.next.value, SortKey(q.Descending(), rows[id].range.lo, id))
  {
    var k := SortKey(q.Descending(), rows[id].range.lo, id);
    PageIsTheStretch(Keys(rows, q, now), CursorKey(q), ParseLimit(q.limit).value);
    ListedInColumns(rows, q, now, id);
    if q.cursor.At? { OrderInColumns(q, q.cursor.starts, q.cursor.id, rows[id].range.lo, id); }
    forall n | 0 <= n < |page.keys| ensures page.keys[n] != k { assert ids[n] in ids; }
    assert page.next.Some? ==> (k == page.next.value || Before(k, page.next.value) || Before(page.next.value, k));
    assert page.next.Some? ==> page.next.value in page.keys;
  }

  lemma NextIsLast(rows: map<Id, Booking>, q: Query, now: Instant, r: Listing, page: Page)
    requires ParseLimit(q.limit).Some? && r.Rows? && page == PageOf(Keys(rows, q, now), CursorKey(q), ParseLimit(q.limit).value)
    requires (forall k | k in page.keys :: IsRow(rows, q, k)) && r.ids == IdsOf(rows, q, page.keys)
    requires page.next.Some? && !r.next.Malformed? && CursorKey(q.(cursor := r.next)) == page.next
    ensures r.next.At? && |r.ids| == AtMost(q.limit) && r.next.id == r.ids[|r.ids| - 1]
    ensures page.next.value == SortKey(q.Descending(), r.next.starts, r.next.id)
  {
    PageIsTheStretch(Keys(rows, q, now), CursorKey(q), ParseLimit(q.limit).value);
  }

  // A cursor is handed on only when there is a row left to list.
  lemma CursorMeansMore(rows: map<Id, Booking>, q: Query, now: Instant, r: Listing, page: Page) returns (id: Id)
    requires ParseLimit(q.limit).Some? && r.Rows? && page == PageOf(Keys(rows, q, now), CursorKey(q), ParseLimit(q.limit).value)
    requires (forall k | k in page.keys :: IsRow(rows, q, k)) && r.ids == IdsOf(rows, q, page.keys)
    requires r.next.At? && CursorKey(q.(cursor := r.next)) == page.next
    ensures id in rows && Wanted(rows[id], q, now) && AfterCursor(rows, q, id) && id !in r.ids
  {
    var ks, limit := Ascending(Rest(Keys(rows, q, now), CursorKey(q))), ParseLimit(q.limit).value;
    var k := ks[limit];
    assert k in ks;
    id := k.minor;
    ListedInColumns(rows, q, now, id);
    if q.cursor.At? { OrderInColumns(q, q.cursor.starts, q.cursor.id, rows[id].range.lo, id); }
    forall n | 0 <= n < |r.ids| ensures r.ids[n] != id {
      assert page.keys[n] in page.keys;
      assert ks[n] != k;
    }
  }

  lemma RowsInOrder(rows: map<Id, Booking>, q: Query, keys: seq<Key>, m: nat, n: nat)
    requires StrictlySorted(keys) && (forall k | k in keys :: IsRow(rows, q, k)) && m < n < |keys|
    ensures var ids := IdsOf(rows, q, keys);
      && ids[m] in rows && ids[n] in rows
      && Earlier(q, rows[ids[m]].range.lo, ids[m], rows[ids[n]].range.lo, ids[n])
  {
    assert keys[m] in keys && keys[n] in keys;
    var ids := IdsOf(rows, q, keys);
    OrderInColumns(q, rows[ids[m]].range.lo, ids[m], rows[ids[n]].range.lo, ids[n]);
  }
}
