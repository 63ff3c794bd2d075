/** Re-materialization after a tzdata change: every future booking of a stale series is moved to the nearest occurrence
 of the series as recomputed under the installed rules. */
module Rematerialization {
  import opened Tables
  import opened Transactions
  import opened BookingService
  import opened TimeZones
  import opened Recurrence
  import opened RollingWindows
  import opened SeriesTasks
  import Preservation

  // Among the first n occurrences, the first of those starting closest to x.
  function Nearest(os: seq<Occurrence>, x: Instant, n: nat): (k: nat)
    requires 0 < n <= |os|
    ensures k < n && forall j | 0 <= j < n :: Distance(os[k].start, x) <= Distance(os[j].start, x)
  {
    if n == 1 then 0
    else
      var k := Nearest(os, x, n - 1);
      if Distance(os[n - 1].start, x) < Distance(os[k].start, x) then n - 1 else k
  }

  // Where a booking now at `range` belongs; where it is, if no occurrence starts within two days of it.
  function Retarget(os: seq<Occurrence>, range: Range): Range
    requires os != []
  {
    var closest := os[Nearest(os, range.lo, |os|)];
    if Distance(closest.start, range.lo) > 2 * DAY then range else closest.Span()
  }

  // ---------------------------------------------------------------- the match is right

  lemma NearestIsTheOneWithin(os: seq<Occurrence>, x: Instant, k: nat)
    requires k < |os|
    requires forall j | 0 <= j < |os| && j != k :: Distance(os[k].start, x) < Distance(os[j].start, x)
    ensures Nearest(os, x, |os|) == k
  {}

  // A booking materialized as occurrence k under any earlier rules is moved to occurrence k under the new ones:
  // the nearest recomputed occurrence is k and no other, and within the threshold.
  lemma OwnOccurrenceIsNearest(d: SeriesDef, before: Zone, after: Zone, k: nat)
    requires ValidSeries(d) && k < d.count
    ensures Nearest(Occurrences(d, after), OccurrenceAt(d, before, k).start, d.count) == k
    ensures Retarget(Occurrences(d, after), OccurrenceAt(d, before, k).Span()) == OccurrenceAt(d, after, k).Span()
  {
    var os, x := Occurrences(d, after), OccurrenceAt(d, before, k).start;
    MovedLittle(d, before, after, k);
    NearestIsTheOneWithin(os, x, k);
  }

  lemma MovedLittle(d: SeriesDef, before: Zone, after: Zone, k: nat)
    requires ValidSeries(d) && k < d.count
    ensures var os, x := Occurrences(d, after), OccurrenceAt(d, before, k).start;
      && Distance(os[k].start, x) < 2 * DAY
      && forall j | 0 <= j < |os| && j != k :: Distance(os[j].start, x) > 5 * DAY
  {
    var os := Occurrences(d, after);
    forall j | 0 <= j < |os| ensures os[j] == OccurrenceAt(d, after, j)
      ensures Distance(os[k].start, OccurrenceAt(d, before, k).start) < 2 * DAY
      ensures j != k ==> Distance(os[j].start, OccurrenceAt(d, before, k).start) > 5 * DAY
    {
      RulesMoveOccurrencesLittle(d, before, after, k, j);
    }
    RulesMoveOccurrencesLittle(d, before, after, k, k);
  }

  // A booking already moved stays where it is.
  lemma RetargetSettles(os: seq<Occurrence>, range: Range)
    requires InOrder(os) && os != []
    ensures Retarget(os, Retarget(os, range)) == Retarget(os, range)
  {
    var k := Nearest(os, range.lo, |os|);
    if Distance(os[k].start, range.lo) <= 2 * DAY {
      forall j | 0 <= j < |os| && j != k ensures Distance(os[k].start, os[k].start) < Distance(os[j].start, os[k].start) {
        assert if j < k then os[j].start < os[k].start else os[k].start < os[j].start;
      }
      NearestIsTheOneWithin(os, os[k].start, k);
    }
  }

  // The threshold decides alone: a booking is moved exactly when it starts within two days of an occurrence it does
  // not coincide with, whoever put it where it is.
  lemma MovedExactlyWhenNearAnother(d: SeriesDef, z: Zone, range: Range)
    requires ValidSeries(d)
    ensures Retarget(Occurrences(d, z), range) != range
      <==> exists k: nat | k < d.count :: NearAnother(OccurrenceAt(d, z, k), range)
  {
    var os := Occurrences(d, z);
    var n := Nearest(os, range.lo, |os|);
    assert os[n] == OccurrenceAt(d, z, n);
    if Retarget(os, range) != range { assert NearAnother(OccurrenceAt(d, z, n), range); }
    forall k: nat | k < d.count && NearAnother(OccurrenceAt(d, z, k), range) ensures Retarget(os, range) != range {
      WithinTwoDaysIsMoved(d, z, range, k);
    }
  }

  ghost predicate NearAnother(o: Occurrence, range: Range) {
    Distance(o.start, range.lo) <= 2 * DAY && o.Span() != range
  }

  // And then it is moved onto that occurrence: no other is as near.
  lemma WithinTwoDaysIsMoved(d: SeriesDef, z: Zone, range: Range, k: nat)
    requires ValidSeries(d) && k < d.count && Distance(OccurrenceAt(d, z, k).start, range.lo) <= 2 * DAY
    ensures Retarget(Occurrences(d, z), range) == OccurrenceAt(d, z, k).Span()
  {
    var os := Occurrences(d, z);
    forall j | 0 <= j < |os| && j != k ensures Distance(os[k].start, range.lo) < Distance(os[j].start, range.lo) {
      if j < k { FourDaysApart(d, z, j, k); } else { FourDaysApart(d, z, k, j); }
    }
    NearestIsTheOneWithin(os, range.lo, k);
  }

  lemma FourDaysApart(d: SeriesDef, z: Zone, i: nat, j: nat)
    requires ValidWindow(d) && i < j
    ensures OccurrenceAt(d, z, i).start + 4 * DAY < OccurrenceAt(d, z, j).start
  {
    OccurrenceWellOrdered(d, z, i);
    OccurrencesInOrder(d, z, i, j);
  }

  // ---------------------------------------------------------------- a run

  function Wanted(plans: map<Id, seq<Occurrence>>, b: Booking): Range {
    if b.series.Some? && b.series.value in plans && plans[b.series.value] != [] then Retarget(plans[b.series.value], b.range)
    else b.range
  }

  // The tables with exactly the bookings in `moved` put where they belong, and nothing else touched.
  function Moved(s: Store, plans: map<Id, seq<Occurrence>>, moved: set<Id>): Store {
    s.(bookings := map i | i in s.bookings ::
      if i in moved then s.bookings[i].(range := Wanted(plans, s.bookings[i])) else s.bookings[i])
  }

  // When a booking's turn came, with some others moved before it, another row stood in its way.
  ghost predicate InTheWay(s: Store, plans: map<Id, seq<Occurrence>>, updated: set<Id>, i: Id) {
    && i in s.bookings
    && exists moved | moved <= updated ::
         i !in moved && Edit(Moved(s, plans, moved), i, Wanted(plans, s.bookings[i])).0 == SlotUnavailable
  }

  // Of the bookings considered, exactly those out of place were either moved or found a conflict.
  ghost predicate Retargeted(s: Store, t: Store, plans: map<Id, seq<Occurrence>>, tried: set<Id>, updated: set<Id>, conflicts: set<Id>) {
    && tried <= s.bookings.Keys
    && t == Moved(s, plans, updated)
    && updated !! conflicts
    && (forall i :: i in updated || i in conflicts <==> i in tried && Wanted(plans, s.bookings[i]) != s.bookings[i].range)
    && (forall i | i in conflicts :: InTheWay(s, plans, updated, i))
  }

  lemma InTheWayStays(s: Store, plans: map<Id, seq<Occurrence>>, updated: set<Id>, i: Id, more: set<Id>)
    requires InTheWay(s, plans, updated, i)
    ensures InTheWay(s, plans, updated + more, i)
  {
    var moved :| moved <= updated && i !in moved && Edit(Moved(s, plans, moved), i, Wanted(plans, s.bookings[i])).0 == SlotUnavailable;
    assert moved <= updated + more;
  }

  lemma BookingRetargeted(s: Store, t: Store, plans: map<Id, seq<Occurrence>>, tried: set<Id>, updated: set<Id>, conflicts: set<Id>, i: Id)
    requires Retargeted(s, t, plans, tried, updated, conflicts) && i in s.bookings && i !in tried
    ensures t.bookings.Keys == s.bookings.Keys && t.bookings[i] == s.bookings[i]
    ensures Wanted(plans, s.bookings[i]) == s.bookings[i].range ==> Retargeted(s, t, plans, tried + {i}, updated, conflicts)
    ensures Wanted(plans, s.bookings[i]) != s.bookings[i].range ==>
      var (outcome, u) := Edit(t, i, Wanted(plans, s.bookings[i]));
      && (outcome.Done? ==> Retargeted(s, u, plans, tried + {i}, updated + {i}, conflicts))
      && (outcome.SlotUnavailable? ==> Retargeted(s, u, plans, tried + {i}, updated, conflicts + {i}))
  {
    var (outcome, u) := Edit(t, i, Wanted(plans, s.bookings[i]));
    if outcome.Done? {
      assert u == Moved(s, plans, updated + {i});
      forall j | j in conflicts ensures InTheWay(s, plans, updated + {i}, j) { InTheWayStays(s, plans, updated, j, {i}); }
    }
    if outcome.SlotUnavailable? { assert InTheWay(s, plans, updated, i); }
  }

  ghost predicate Proper(os: seq<Occurrence>) {
    os != [] && forall i | 0 <= i < |os| :: os[i].start < os[i].end
  }

  lemma ExpansionProper(d: SeriesDef, z: Zone)
    requires ValidSeries(d)
    ensures Proper(Occurrences(d, z))
  {
    forall i | 0 <= i < d.count ensures Occurrences(d, z)[i].start < Occurrences(d, z)[i].end {
      OccurrenceWellOrdered(d, z, i);
    }
  }

  lemma EditKeepsConstraints(s: Store, i: Id, wanted: Range)
    requires BookingsSound(s) && ReferencesSound(s) && EntriesSound(s)
    ensures var t := Edit(s, i, wanted).1; BookingsSound(t) && ReferencesSound(t) && EntriesSound(t)
  {
    Preservation.EditKeepsBookingsSound(s, i, wanted);
  }

  // One booking: skipped, moved, or noted as a conflict.
  method RematerializeBooking(db: Database, i: Id, os: seq<Occurrence>, ghost start: Store, ghost plans: map<Id, seq<Occurrence>>,
                              ghost tried: set<Id>, ghost updated: set<Id>, ghost conflicts: set<Id>)
    returns (moved: bool, clashed: bool)
    requires db.Valid() && Proper(os) && i in start.bookings && i !in tried
    requires Retargeted(start, db.Snapshot(), plans, tried, updated, conflicts)
    requires start.bookings[i].series.Some? && start.bookings[i].series.value in plans && plans[start.bookings[i].series.value] == os
    modifies db`bookings
    ensures db.Valid()
    ensures Retargeted(start, db.Snapshot(), plans, tried + {i}, if moved then updated + {i} else updated,
                       if clashed then conflicts + {i} else conflicts)
  {
    BookingRetargeted(start, db.Snapshot(), plans, tried, updated, conflicts, i);
    var booking := db.bookings[i];
    var closest := os[Nearest(os, booking.range.lo, |os|)];
    if Distance(closest.start, booking.range.lo) > 2 * DAY { return false, false; }
    if closest.start == booking.range.lo && closest.end == booking.range.hi { return false, false; }
    EditKeepsConstraints(db.Snapshot(), i, closest.Span());
    var outcome := EditBooking(db, i, closest.Span());
    return outcome.Done?, outcome.SlotUnavailable?;
  }

  predicate Stale(row: SeriesRow, current: string) {
    row.active && row.tzdata != current
  }

  // The still-confirmed, still-future bookings of the given series.
  function Candidates(rows: map<Id, Booking>, ids: set<Id>, now: Instant): set<Id> {
    set i | i in rows && rows[i].series.Some? && rows[i].series.value in ids && Upcoming(rows[i], rows[i].series.value, now)
  }

  ghost predicate HasConflict(rows: map<Id, Booking>, conflicts: set<Id>, id: Id) {
    exists i | i in conflicts :: i in rows && rows[i].series == Some(id)
  }

  // Marked current, unless a conflict keeps it stale.
  ghost function Checked(row: SeriesRow, current: string, conflicted: bool): SeriesRow {
    if conflicted then row else row.(tzdata := current)
  }

  // The bookings of a series are untouched until its turn comes.
  lemma SeriesUntouched(s: Store, t: Store, plans: map<Id, seq<Occurrence>>, finished: set<Id>, updated: set<Id>, conflicts: set<Id>,
                        id: Id, now: Instant)
    requires Retargeted(s, t, plans, Candidates(s.bookings, finished, now), updated, conflicts) && id !in finished
    ensures UpcomingIds(t.bookings, id, now) == UpcomingIds(s.bookings, id, now)
    ensures Candidates(s.bookings, finished + {id}, now) == Candidates(s.bookings, finished, now) + UpcomingIds(s.bookings, id, now)
    ensures Candidates(s.bookings, finished, now) !! UpcomingIds(s.bookings, id, now)
  {
    assert forall i | i in s.bookings && s.bookings[i].series == Some(id) :: i !in updated;
  }

  lemma OneTried(tried: set<Id>, pending: set<Id>, i: Id)
    requires i in pending && tried !! pending
    ensures (tried + {i}) + (pending - {i}) == tried + pending && tried + {i} !! pending - {i}
  {}

  lemma UnionsAssociate(a: set<Id>, b: set<Id>, c: set<Id>)
    ensures (a + b) + c == a + (b + c)
  {}

  method RematerializeSeries(db: Database, id: Id, os: seq<Occurrence>, now: Instant, ghost start: Store,
                             ghost plans: map<Id, seq<Occurrence>>, ghost finished: set<Id>,
                             ghost updated: set<Id>, ghost conflicts: set<Id>)
    returns (moved: set<Id>, clashed: set<Id>)
    requires db.Valid() && Proper(os) && id !in finished && id in plans && plans[id] == os
    requires Retargeted(start, db.Snapshot(), plans, Candidates(start.bookings, finished, now), updated, conflicts)
    modifies db`bookings
    ensures db.Valid() && clashed <= UpcomingIds(start.bookings, id, now)
    ensures Retargeted(start, db.Snapshot(), plans, Candidates(start.bookings, finished + {id}, now),
                       updated + moved, conflicts + clashed)
  {
    SeriesUntouched(start, db.Snapshot(), plans, finished, updated, conflicts, id, now);
    moved, clashed := {}, {};
    var pending := UpcomingIds(db.bookings, id, now);
    ghost var all, tried := pending, Candidates(start.bookings, finished, now);
    assert updated + moved == updated && conflicts + clashed == conflicts;
    while pending != {}
      invariant pending <= all && tried + pending == Candidates(start.bookings, finished, now) + all && tried !! pending
      invariant db.Valid() && clashed <= all
      invariant Retargeted(start, db.Snapshot(), plans, tried, updated + moved, conflicts + clashed)
    {
      var i :| i in pending;
      var up, clash := RematerializeBooking(db, i, os, start, plans, tried, updated + moved, conflicts + clashed);
      UnionsAssociate(updated, moved, {i});
      UnionsAssociate(conflicts, clashed, {i});
      if up { moved := moved + {i}; }
      if clash { clashed := clashed + {i}; }
      OneTried(tried, pending, i);
      pending, tried := pending - {i}, tried + {i};
    }
  }

  // The series whose turn has come are marked current exactly where no conflict was found.
  ghost predicate Marked(rows: map<Id, SeriesRow>, table: map<Id, SeriesRow>, bookings: map<Id, Booking>,
                         finished: set<Id>, conflicts: set<Id>, current: string)
  {
    && table.Keys == rows.Keys
    && forall id | id in rows ::
         table[id] == if id in finished then Checked(rows[id], current, HasConflict(bookings, conflicts, id)) else rows[id]
  }

  lemma SeriesMarked(rows: map<Id, SeriesRow>, table: map<Id, SeriesRow>, bookings: map<Id, Booking>, finished: set<Id>,
                     conflicts: set<Id>, current: string, id: Id, clashed: set<Id>, now: Instant)
    requires Marked(rows, table, bookings, finished, conflicts, current) && id in rows && id !in finished
    requires clashed <= UpcomingIds(bookings, id, now) && conflicts <= Candidates(bookings, finished, now)
    ensures clashed == {} ==>
      Marked(rows, table[id := rows[id].(tzdata := current)], bookings, finished + {id}, conflicts + clashed, current)
    ensures clashed != {} ==> Marked(rows, table, bookings, finished + {id}, conflicts + clashed, current)
    ensures conflicts + clashed <= Candidates(bookings, finished + {id}, now)
  {
    if clashed != {} {
      var i :| i in clashed;
      assert HasConflict(bookings, conflicts + clashed, id);
    }
    forall other | other in finished
      ensures HasConflict(bookings, conflicts + clashed, other) <==> HasConflict(bookings, conflicts, other)
    {
      if i :| i in conflicts && i in bookings && bookings[i].series == Some(other) { assert i in conflicts + clashed; }
    }
  }

  // One turn of the loop over stale series.
  method RematerializeRow(db: Database, table: SeriesTable, id: Id, tz: TzData, current: string, now: Instant, ghost start: Store,
                          ghost rows: map<Id, SeriesRow>, ghost plans: map<Id, seq<Occurrence>>, ghost finished: set<Id>,
                          ghost updated: set<Id>, ghost conflicts: set<Id>)
    returns (moved: set<Id>, clashed: set<Id>)
    requires db.Valid() && id in rows && id !in finished && ValidSeries(rows[id].def)
    requires id in plans && plans[id] == Expand(rows[id], tz)
    requires Retargeted(start, db.Snapshot(), plans, Candidates(start.bookings, finished, now), updated, conflicts)
    requires Marked(rows, table.rows, start.bookings, finished, conflicts, current)
    requires conflicts <= Candidates(start.bookings, finished, now)
    modifies db`bookings, table
    ensures db.Valid() && conflicts + clashed <= Candidates(start.bookings, finished + {id}, now)
    ensures Retargeted(start, db.Snapshot(), plans, Candidates(start.bookings, finished + {id}, now),
                       updated + moved, conflicts + clashed)
    ensures Marked(rows, table.rows, start.bookings, finished + {id}, conflicts + clashed, current)
  {
    var row := table.rows[id];
    var os := Expand(row, tz);
    ExpansionProper(row.def, tz(row.timezone));
    moved, clashed := RematerializeSeries(db, id, os, now, start, plans, finished, updated, conflicts);
    SeriesMarked(rows, table.rows, start.bookings, finished, conflicts, current, id, clashed, now);
    if clashed == {} { table.rows := table.rows[id := row.(tzdata := current)]; }
  }

  ghost function StaleIds(rows: map<Id, SeriesRow>, current: string): set<Id> {
    set id | id in rows && Stale(rows[id], current)
  }

  // What a run comes to, from tables s and series rows `rows` to tables t and series rows `after`.
  ghost predicate Rematerialized(s: Store, t: Store, rows: map<Id, SeriesRow>, after: map<Id, SeriesRow>, tz: TzData,
                                 current: string, now: Instant, updated: set<Id>, conflicts: set<Id>)
    requires SeriesSound(rows)
  {
    && Retargeted(s, t, Plans(rows, tz), Candidates(s.bookings, StaleIds(rows, current), now), updated, conflicts)
    && Marked(rows, after, s.bookings, StaleIds(rows, current), conflicts, current)
  }

  method RematerializeStaleSeries(db: Database, table: SeriesTable, tz: TzData, current: string, now: Instant)
    returns (updated: set<Id>, conflicts: set<Id>)
    requires db.Valid() && table.Valid()
    modifies db`bookings, table
    ensures db.Valid() && table.Valid()
    ensures Rematerialized(old(db.Snapshot()), db.Snapshot(), old(table.rows), table.rows, tz, current, now, updated, conflicts)
  {
    ghost var s, rows, plans := db.Snapshot(), table.rows, Plans(table.rows, tz);
    updated, conflicts := {}, {};
    var pending := set id | id in table.rows && Stale(table.rows[id], current);
    ghost var stale, finished := pending, {};
    assert Candidates(s.bookings, {}, now) == {} && Moved(s, plans, {}) == s;
    while pending != {}
      invariant finished + pending == stale && finished !! pending && stale <= rows.Keys
      invariant db.Valid() && conflicts <= Candidates(s.bookings, finished, now)
      invariant Retargeted(s, db.Snapshot(), plans, Candidates(s.bookings, finished, now), updated, conflicts)
      invariant Marked(rows, table.rows, s.bookings, finished, conflicts, current)
    {
      var id :| id in pending;
      var moved, clashed := RematerializeRow(db, table, id, tz, current, now, s, rows, plans, finished, updated, conflicts);
      updated, conflicts := updated + moved, conflicts + clashed;
      OneTried(finished, pending, id);
      pending, finished := pending - {id}, finished + {id};
    }
  }

  // ---------------------------------------------------------------- what a run achieves

  ghost predicate MaterializedAs(row: SeriesRow, z: Zone, b: Booking, k: nat) {
    k < row.def.count && b.range == OccurrenceAt(row.def, z, k).Span()
  }

  // A booking made from occurrence k under the rules of the day, and not edited since, is occurrence k under the
  // installed rules after the run; or it is reported, and unchanged.
  lemma RunRestoresOccurrences(s: Store, t: Store, rows: map<Id, SeriesRow>, tz: TzData, tried: set<Id>,
                               updated: set<Id>, conflicts: set<Id>, i: Id, id: Id, before: Zone, k: nat)
    requires SeriesSound(rows)
    requires Retargeted(s, t, Plans(rows, tz), tried, updated, conflicts) && i in tried
    requires id in rows && s.bookings[i].series == Some(id) && MaterializedAs(rows[id], before, s.bookings[i], k)
    ensures i !in conflicts ==> MaterializedAs(rows[id], tz(rows[id].timezone), t.bookings[i], k)
    ensures i in conflicts ==> t.bookings[i] == s.bookings[i]
  {
    OwnOccurrenceIsNearest(rows[id].def, before, tz(rows[id].timezone), k);
  }

  // After a run without conflicts, another one under the same rules changes none of the bookings considered before.
  lemma SecondRunChangesNothing(s: Store, t: Store, u: Store, rows: map<Id, SeriesRow>, tz: TzData, tried: set<Id>,
                                updated: set<Id>, triedAgain: set<Id>, again: set<Id>, clashes: set<Id>)
    requires SeriesSound(rows) && triedAgain <= tried
    requires Retargeted(s, t, Plans(rows, tz), tried, updated, {})
    requires Retargeted(t, u, Plans(rows, tz), triedAgain, again, clashes)
    ensures u == t && again == {} && clashes == {}
  {
    forall i | i in triedAgain ensures Wanted(Plans(rows, tz), t.bookings[i]) == t.bookings[i].range {
      WantedSettles(rows, tz, s.bookings[i]);
    }
    assert again == {} && clashes == {};
  }

  // Marking versions changes no plan.
  lemma MarkedPlans(s: Store, t: Store, rows: map<Id, SeriesRow>, after: map<Id, SeriesRow>, tz: TzData, current: string,
                    now: Instant, updated: set<Id>, conflicts: set<Id>)
    requires SeriesSound(rows) && Rematerialized(s, t, rows, after, tz, current, now, updated, conflicts)
    ensures SeriesSound(after) && Plans(after, tz) == Plans(rows, tz)
    ensures forall id :: id in StaleIds(after, current) <==>
      id in StaleIds(rows, current) && HasConflict(s.bookings, conflicts, id)
  {}

  // What a later run considers, of the series an earlier one considered, that one considered too.
  lemma LaterCandidates(s: Store, t: Store, plans: map<Id, seq<Occurrence>>, ids: set<Id>, fewer: set<Id>, now: Instant, later: Instant,
                        updated: set<Id>, conflicts: set<Id>)
    requires Retargeted(s, t, plans, Candidates(s.bookings, ids, now), updated, conflicts) && fewer <= ids && now <= later
    ensures Candidates(t.bookings, fewer, later) <= Candidates(s.bookings, ids, now)
  {}

  // The next run under the same version retries exactly the bookings that found a conflict, as far as they are still
  // upcoming: none is forgotten, and none already moved is touched again.
  lemma NextRunRetriesExactlyTheConflicts(s: Store, t: Store, u: Store, rows: map<Id, SeriesRow>, after: map<Id, SeriesRow>,
                                          last: map<Id, SeriesRow>, tz: TzData, current: string, now: Instant, later: Instant,
                                          updated: set<Id>, conflicts: set<Id>, again: set<Id>, clashes: set<Id>, i: Id)
    requires SeriesSound(rows) && SeriesSound(after) && now <= later
    requires Rematerialized(s, t, rows, after, tz, current, now, updated, conflicts)
    requires Rematerialized(t, u, after, last, tz, current, later, again, clashes)
    ensures i in again || i in clashes
      <==> i in conflicts && i in s.bookings && s.bookings[i].range.lo >= later
  {
    var plans, stale, left := Plans(rows, tz), StaleIds(rows, current), StaleIds(after, current);
    MarkedPlans(s, t, rows, after, tz, current, now, updated, conflicts);
    LaterCandidates(s, t, plans, stale, left, now, later, updated, conflicts);
    if i in Candidates(t.bookings, left, later) { WantedSettles(rows, tz, s.bookings[i]); }
    if i in conflicts { assert HasConflict(s.bookings, conflicts, s.bookings[i].series.value); }
  }

  // So after a run without conflicts, nothing is left to do under its version; nor under another version with the same
  // rules, for the series it considered.
  lemma ConflictFreeRunSettles(s: Store, t: Store, u: Store, rows: map<Id, SeriesRow>, after: map<Id, SeriesRow>,
                               last: map<Id, SeriesRow>, tz: TzData, current: string, next: string, now: Instant, later: Instant,
                               updated: set<Id>, again: set<Id>, clashes: set<Id>)
    requires SeriesSound(rows) && SeriesSound(after) && now <= later
    requires Rematerialized(s, t, rows, after, tz, current, now, updated, {})
    requires Rematerialized(t, u, after, last, tz, next, later, again, clashes)
    requires StaleIds(after, next) <= StaleIds(rows, current)
    ensures u == t && again == {} && clashes == {}
    ensures next == current ==> StaleIds(after, next) == {} && last == after
  {
    MarkedPlans(s, t, rows, after, tz, current, now, updated, {});
    var before, considered := Candidates(s.bookings, StaleIds(rows, current), now), Candidates(t.bookings, StaleIds(after, next), later);
    LaterCandidates(s, t, Plans(rows, tz), StaleIds(rows, current), StaleIds(after, next), now, later, updated, {});
    SecondRunChangesNothing(s, t, u, rows, tz, before, updated, considered, again, clashes);
    assert next == current ==> StaleIds(after, next) == {};
  }

  // A user's edit within two days is undone by the next run for the series; beyond, it stands unless another
  // occurrence is that near.
  lemma NearbyEditIsUndone(s: Store, rows: map<Id, SeriesRow>, tz: TzData, i: Id, id: Id, k: nat, wanted: Range)
    requires SeriesSound(rows) && i in s.bookings && id in rows && s.bookings[i].series == Some(id)
    requires MaterializedAs(rows[id], tz(rows[id].timezone), s.bookings[i], k)
    requires Edit(s, i, wanted).0.Done? && Distance(s.bookings[i].range.lo, wanted.lo) <= 2 * DAY
    ensures Wanted(Plans(rows, tz), Edit(s, i, wanted).1.bookings[i]) == s.bookings[i].range
  {
    WithinTwoDaysIsMoved(rows[id].def, tz(rows[id].timezone), wanted, k);
  }

  // A weekly series in UTC; its one booking, moved from nine to ten o'clock by its owner; and the row stale. The run
  // moves it back.
  lemma EditIsMovedBack() returns (s: Store, row: SeriesRow, wanted: Range)
    ensures ValidSeries(row.def) && Stale(row, "2025b") && 0 in s.bookings && s.bookings[0].series == Some(0)
    ensures Edit(s, 0, wanted).0.Done? && wanted != s.bookings[0].range
    ensures var t, plans := Edit(s, 0, wanted).1, Plans(map[0 := row], (name: string) => Rules(0, []));
      && 0 in Candidates(t.bookings, StaleIds(map[0 := row], "2025b"), 0)
      && Edit(t, 0, Wanted(plans, t.bookings[0])) == (Done(0), s)
  {
    row := SeriesRow(0, 0, "UTC", SeriesDef(9 * HOUR, 10 * HOUR, 0, 1), 0, "2025a", true);
    var range := OccurrenceAt(row.def, Rules(0, []), 0).Span();
    OccurrenceInUtc(row.def, Rules(0, []), 0);
    wanted := Range(range.lo + HOUR, range.hi + HOUR);
    s := Store(map[0 := Booking(0, 0, Some(0), range, Confirmed, None, None, None, None)], map[], map[], 1);
    WithinTwoDaysIsMoved(row.def, Rules(0, []), wanted, 0);
    var t := Edit(s, 0, wanted).1;
    assert Wanted(Plans(map[0 := row], (name: string) => Rules(0, [])), t.bookings[0]) == range;
    assert t.bookings[0 := t.bookings[0].(range := range)] == s.bookings;
  }

  lemma WantedSettles(rows: map<Id, SeriesRow>, tz: TzData, b: Booking)
    requires SeriesSound(rows)
    ensures var plans := Plans(rows, tz); Wanted(plans, b.(range := Wanted(plans, b))) == Wanted(plans, b)
  {
    if b.series.Some? && b.series.value in rows {
      var row := rows[b.series.value];
      ExpansionInOrder(row.def, tz(row.timezone));
      RetargetSettles(Expand(row, tz), b.range);
    }
  }
}
