/** What previews, confirms and the two background jobs mean in dates, clock readings and the columns of the rows. */
module SeriesColumns {
  import opened Tables
  import opened Transactions
  import opened Columns
  import opened BookingService
  import opened TimeZones
  import opened Recurrence
  import opened RollingWindows
  import opened SeriesTasks
  import RollingJob
  import opened RecurringSeries
  import Rematerialization

  const DAYS := 24 * 3_600_000_000

  // ---------------------------------------------------------------- preview

  // Nobody's booking, and no hold, run out or not, is in the way.
  predicate Unused(s: Store, resource: Id, o: Occurrence) {
    forall i | i in s.bookings :: !Uses(s.bookings[i], resource, o.start, o.end)
  }

  lemma UnusedIsFree(s: Store, resource: Id, o: Occurrence)
    ensures SlotIsFree(s, resource, o.Span()) <==> Unused(s, resource, o)
  {
    forall i | i in s.bookings ensures s.bookings[i].Blocks(resource, o.Span()) == Uses(s.bookings[i], resource, o.start, o.end) {}
  }

  lemma OneDateEach(d: SeriesDef, os: seq<Occurrence>, o: Occurrence, p: Occurrence)
    requires Dated(d, os) && o in os && p in os && o.date == p.date
    ensures o == p
  {}

  // A preview lists every occurrence once: under would_create if its slot is unused, under conflicts if it is not. It
  // lists the adjusted ones again, and its token carries those dates.
  lemma PreviewInColumns(p: Preview, s: Store, user: Id, resource: Id, timezone: string, d: SeriesDef, os: seq<Occurrence>,
                         now: Instant, o: Occurrence)
    requires p.Preview? && Dated(d, os) && Describes(p, s, user, resource, timezone, d, os, now)
    ensures o in p.wouldCreate <==> o in os && Unused(s, resource, o)
    ensures o in p.conflicts <==> o in os && !Unused(s, resource, o)
    ensures o in p.adjusted <==> o in os && o.adjustment.Some?
    ensures o in os ==> (o.date in p.token.conflictDates <==> !Unused(s, resource, o))
    ensures o in os ==> (o.date in p.token.adjustmentDates <==> o.adjustment.Some?)
    ensures p.token.user == user && p.token.resource == resource && p.token.timezone == timezone && p.token.def == d
  {
    var dates := ConflictDates(s, resource, os);
    OffHolds(os, dates, o);
    OffHolds(os, AdjustedDates(os), o);
    UnusedIsFree(s, resource, o);
    if o in os && o.date in dates {
      var q :| q in os && !SlotIsFree(s, resource, q.Span()) && q.date == o.date;
      OneDateEach(d, os, o, q);
    }
    if o in os && o.date in AdjustedDates(os) {
      var q :| q in os && q.adjustment.Some? && q.date == o.date;
      OneDateEach(d, os, o, q);
    }
  }

  // The lists are in order of date.
  ghost predicate ByDate(os: seq<Occurrence>) {
    forall i, j | 0 <= i < j < |os| :: os[i].date < os[j].date
  }

  lemma {:induction false} ListsInOrder(os: seq<Occurrence>, dates: set<int>)
    requires ByDate(os)
    ensures ByDate(On(os, dates)) && ByDate(Off(os, dates))
  {
    if os != [] {
      var before, last := os[..|os| - 1], os[|os| - 1];
      ListsInOrder(before, dates);
      forall o | o in On(before, dates) ensures o.date < last.date { OffHolds(before, dates, o); }
      forall o | o in Off(before, dates) ensures o.date < last.date { OffHolds(before, dates, o); }
    }
  }

  lemma PreviewInOrder(p: Preview, s: Store, user: Id, resource: Id, timezone: string, d: SeriesDef, os: seq<Occurrence>, now: Instant)
    requires p.Preview? && Dated(d, os) && Describes(p, s, user, resource, timezone, d, os, now)
    ensures ByDate(p.wouldCreate) && ByDate(p.conflicts) && ByDate(p.adjusted)
  {
    ListsInOrder(os, ConflictDates(s, resource, os));
    ListsInOrder(os, AdjustedDates(os));
  }

  // The token lasts a quarter of an hour, counted from the last whole second; and a preview is refused when the series'
  // last occurrence starts more than 365 days from now.
  lemma PreviewInTime(p: Preview, s: Store, user: Id, resource: Id, timezone: string, d: SeriesDef, os: seq<Occurrence>, now: Instant)
    requires Describes(p, s, user, resource, timezone, d, os, now)
    ensures p.BeyondHorizon? <==> os[|os| - 1].start > now + 365 * DAYS
    ensures p.Preview? ==>
      var issued := p.token.expires - 15 * 60 * 1_000_000; issued % 1_000_000 == 0 && issued <= now < issued + 1_000_000
  {}

  // Every week of the series is in the preview, on its date and at its time.
  lemma PreviewIsWeekly(p: Preview, s: Store, user: Id, resource: Id, timezone: string, d: SeriesDef, z: Zone, now: Instant, i: nat)
    requires p.Preview? && ValidWindow(d) && i < d.count && Describes(p, s, user, resource, timezone, d, Occurrences(d, z), now)
    ensures IsWeekly(d, z, i, Occurrences(d, z)[i])
    ensures Occurrences(d, z)[i] in p.wouldCreate || Occurrences(d, z)[i] in p.conflicts
  {
    ExpansionDated(d, z);
    OccurrencesAreWeekly(d, z);
    PreviewInColumns(p, s, user, resource, timezone, d, Occurrences(d, z), now, Occurrences(d, z)[i]);
  }

  // ---------------------------------------------------------------- confirm

  // Leaving out any one conflict or adjustment of the preview books nothing.
  lemma LeftOutAcknowledgmentBooksNothing(p: Preview, s: Store, user: Id, resource: Id, timezone: string, d: SeriesDef, tz: TzData,
                                          previewed: Instant, r: Confirmation, before: Store, after: Store, confirmer: Id,
                                          conflicts: set<int>, adjustments: set<int>, id: Id, version: string,
                                          clashes: seq<nat>, now: Instant, o: Occurrence)
    requires p.Preview? && 0 <= d.count
    requires Describes(p, s, user, resource, timezone, d, Occurrences(d, tz(timezone)), previewed)
    requires Confirms(r, before, after, p.token, confirmer, conflicts, adjustments, id, tz, version, clashes, now)
    requires (o in p.conflicts && o.date !in conflicts) || (o in p.adjusted && o.date !in adjustments)
    ensures after == before && (r.UnacknowledgedConflicts? || r.PreviewExpired?)
    ensures confirmer == user && now < p.token.expires ==> r.UnacknowledgedConflicts?
  {
    ExpansionDated(d, tz(timezone));
    PreviewInColumns(p, s, user, resource, timezone, d, Occurrences(d, tz(timezone)), previewed, o);
  }

  // Every row a run of attempts adds is for the series' resource and owner, in the series, at one of its occurrences.
  lemma AttemptedRows(s: Store, t: Store, id: Id, row: SeriesRow, os: seq<Occurrence>, tried: seq<nat>, created: seq<nat>,
                      conflicts: seq<nat>, now: Instant, k: nat)
    requires Attempted(s, t, id, row, os, tried, created, conflicts, now) && k < |created|
    ensures created[k] in created && created[k] < |os| && s.nextId + k in t.bookings
    ensures MadeFor(t.bookings[s.nextId + k], row.resource, row.owner, Some(id), os[created[k]].start, os[created[k]].end, None, now)
  {
    assert created[k] in created;
    assert Holds(t, s.nextId + k, NewBooking(Requests(id, row, os, created)[k], now));
  }

  // Of the rows there before, only holds that have run out are gone; nothing else is new.
  ghost predicate OnlyAdds(s: Store, t: Store, added: nat, now: Instant) {
    && t.offers == s.offers && t.entries == s.entries
    && (forall i | i in t.bookings :: s.nextId <= i < s.nextId + added || (i in s.bookings && t.bookings[i] == s.bookings[i]))
    && (forall i | i in s.bookings && !RanOut(s.bookings[i], now) :: i in t.bookings)
  }

  lemma ExtendsAdds(s: Store, t: Store, made: seq<CreateRequest>, now: Instant)
    requires Extends(s, t, made, now)
    ensures OnlyAdds(s, t, |made|, now)
  {}

  ghost predicate BookedFor(t: Store, note: CreatedNote, row: SeriesRow, id: Id, os: seq<Occurrence>, now: Instant) {
    && note.booking in t.bookings && note.occurrence in os
    && MadeFor(t.bookings[note.booking], row.resource, row.owner, Some(id), note.occurrence.start, note.occurrence.end, None, now)
  }

  lemma NotedIsBooked(s: Store, t: Store, id: Id, row: SeriesRow, os: seq<Occurrence>, known: set<int>, n: nat, made: seq<nat>,
                      clashes: seq<nat>, created: seq<CreatedNote>, notes: seq<ConflictNote>, now: Instant, k: nat)
    requires RecurringSeries.Confirmed(s, t, id, row, os, known, n, made, clashes, created, notes, now) && k < |created|
    ensures created[k].booking == s.nextId + k && BookedFor(t, created[k], row, id, os, now)
  {
    AttemptedRows(s, t, id, row, os, Wanted(os, known, n), made, clashes, now, k);
  }

  // What a confirm reports as created is booked for the token's user, on its resource, in the new series.
  lemma ReportedIsBooked(r: Confirmation, before: Store, after: Store, token: Token, user: Id, conflicts: set<int>, adjustments: set<int>,
                         id: Id, tz: TzData, version: string, clashes: seq<nat>, now: Instant, k: nat)
    requires 0 <= token.def.count && r.Report? && k < |r.created|
    requires Confirms(r, before, after, token, user, conflicts, adjustments, id, tz, version, clashes, now)
    ensures r.created[k].booking == before.nextId + k
    ensures BookedFor(after, r.created[k], SeriesOf(token, version), id, Occurrences(token.def, tz(token.timezone)), now)
  {
    var os, row := Occurrences(token.def, tz(token.timezone)), SeriesOf(token, version);
    NotedIsBooked(before, after, id, row, os, token.conflictDates, |os|, Bookable(before, row, os, token.conflictDates, |os|, now),
                  clashes, r.created, r.conflicts, now, k);
  }

  // So is whatever an interrupted one leaves behind.
  lemma LeftBehindIsBooked(s: Store, t: Store, id: Id, row: SeriesRow, os: seq<Occurrence>, known: set<int>, n: nat,
                           clashes: seq<nat>, now: Instant, i: Id)
    requires StopsAt(s, t, id, row, os, known, n, clashes, now) && i in t.bookings && s.nextId <= i && IdsHandedOut(s)
    ensures exists o | o in os :: MadeFor(t.bookings[i], row.resource, row.owner, Some(id), o.start, o.end, None, now)
  {
    var made := Bookable(s, row, os, known, n, now);
    AttemptedRows(s, t, id, row, os, Wanted(os, known, n), made, clashes, now, i - s.nextId);
    assert os[made[i - s.nextId]] in os;
  }

  lemma ConfirmOnlyAdds(r: Confirmation, before: Store, after: Store, token: Token, user: Id, conflicts: set<int>, adjustments: set<int>,
                        id: Id, tz: TzData, version: string, clashes: seq<nat>, now: Instant)
    requires 0 <= token.def.count && r.Report?
    requires Confirms(r, before, after, token, user, conflicts, adjustments, id, tz, version, clashes, now)
    ensures OnlyAdds(before, after, |r.created|, now)
  {
    var os, row := Occurrences(token.def, tz(token.timezone)), SeriesOf(token, version);
    var made := Bookable(before, row, os, token.conflictDates, |os|, now);
    ExtendsAdds(before, after, Requests(id, row, os, made), now);
  }

  // The series row is the previewer's, as previewed, and through to its last date.
  lemma SeriesRowInColumns(token: Token, version: string)
    ensures var row := SeriesOf(token, version);
      && row.resource == token.resource && row.owner == token.user && row.timezone == token.timezone && row.def == token.def
      && row.tzdata == version && row.active
      && row.through == token.def.startDate + (token.def.count - 1) * (7 * DAYS)
  {}

  // ---------------------------------------------------------------- the rolling job

  // What a run creates for a slot is booked for the series' owner, on its resource, in the series.
  lemma RolledRows(s: Store, t: Store, rows: map<Id, SeriesRow>, tz: TzData, created: seq<RollingJob.Slot>, conflicts: seq<RollingJob.Slot>,
                   now: Instant, k: nat)
    requires SeriesSound(rows) && RollingJob.Rolled(s, t, rows, Plans(rows, tz), created, conflicts, now) && k < |created|
    ensures created[k].0 in rows && created[k].1 < rows[created[k].0].def.count && s.nextId + k in t.bookings
    ensures var row := rows[created[k].0]; var o := Occurrences(row.def, tz(row.timezone))[created[k].1];
      && IsWeekly(row.def, tz(row.timezone), created[k].1, o)
      && MadeFor(t.bookings[s.nextId + k], row.resource, row.owner, Some(created[k].0), o.start, o.end, None, now)
    ensures OnlyAdds(s, t, |created|, now)
  {
    var p := created[k];
    assert p in created && RollingJob.Planned(rows, Plans(rows, tz), p);
    assert Holds(t, s.nextId + k, NewBooking(RollingJob.SlotRequests(rows, Plans(rows, tz), created)[k], now));
    OccurrencesAreWeekly(rows[p.0].def, tz(rows[p.0].timezone));
    ExtendsAdds(s, t, RollingJob.SlotRequests(rows, Plans(rows, tz), created), now);
  }

  // A run attempts exactly the occurrences past the watermark that start within 365 days.
  lemma {:induction false} SelectedInColumns(os: seq<Occurrence>, through: int, cutoff: Instant, n: nat, i: nat)
    requires n <= |os|
    ensures i in Selected(os, through, cutoff, n) <==> i < n && through < os[i].date && os[i].start <= cutoff
  {
    if n > 0 { SelectedInColumns(os, through, cutoff, n - 1, i); }
  }

  lemma ToRollInColumns(row: SeriesRow, os: seq<Occurrence>, now: Instant, i: nat)
    ensures i in ToRoll(row, os, now) <==> i < |os| && row.through < os[i].date && os[i].start <= now + 365 * DAYS
  {
    SelectedInColumns(os, row.through, now + 365 * DAYS, |os|, i);
  }

  // And leaves the watermark at the date of the latest of them; where there are none, where it was.
  lemma WatermarkInColumns(row: SeriesRow, os: seq<Occurrence>, now: Instant)
    requires 0 < row.def.count && OfSeries(row.def, RollingRun(now + MAX_ADVANCE_HORIZON, os)) && ByDate(os)
    ensures var after, todo := RollingJob.RolledRow(row, os, now), ToRoll(row, os, now);
      && after == row.(through := after.through)
      && (todo == [] ==> after.through == row.through)
      && (todo != [] ==> (exists i | i in todo :: after.through == os[i].date) && forall i | i in todo :: os[i].date <= after.through)
  {
    var cutoff, todo := now + MAX_ADVANCE_HORIZON, ToRoll(row, os, now);
    if todo != [] {
      HorizonSelectsBlock(row.def, os, row.through, cutoff);
      var last := todo[|todo| - 1];
      assert last in todo;
      ToRollInColumns(row, os, now, last);
      assert row.through < os[last].date <= os[|os| - 1].date;
      forall i | i in todo ensures os[i].date <= os[last].date {
        var k :| 0 <= k < |todo| && todo[k] == i;
        assert i <= last;
      }
    }
  }

  // ---------------------------------------------------------------- re-materialization

  // A run considers exactly the confirmed bookings, still to come, of active series of another version.
  lemma CandidatesInColumns(s: Store, rows: map<Id, SeriesRow>, current: string, now: Instant, i: Id)
    ensures i in Rematerialization.Candidates(s.bookings, Rematerialization.StaleIds(rows, current), now)
      <==> && i in s.bookings && s.bookings[i].status == Confirmed && now <= s.bookings[i].range.lo
           && s.bookings[i].series.Some? && s.bookings[i].series.value in rows
           && rows[s.bookings[i].series.value].active && rows[s.bookings[i].series.value].tzdata != current
  {}

  // No other occurrence starts closer.
  ghost predicate Closest(os: seq<Occurrence>, k: nat, x: Instant) {
    k < |os| && forall j | 0 <= j < |os| :: Gap(os[k].start, x) <= Gap(os[j].start, x)
  }

  function Gap(a: int, b: int): int {
    if a < b then b - a else a - b
  }

  lemma RetargetInColumns(os: seq<Occurrence>, range: Range) returns (k: nat)
    requires os != []
    ensures Closest(os, k, range.lo)
    ensures Rematerialization.Retarget(os, range)
      == if Gap(os[k].start, range.lo) <= 2 * DAYS then Range(os[k].start, os[k].end) else range
  {
    k := Rematerialization.Nearest(os, range.lo, |os|);
    forall j | 0 <= j < |os| ensures Gap(os[j].start, range.lo) == Distance(os[j].start, range.lo) {}
  }

  // After a run, a booking it considered is at the occurrence of its series that starts closest to where it was, within
  // two days, or is reported as a conflict and where it was; one with none that near stays. Of all the others, and of
  // the rest of these, nothing has changed.
  lemma RematerializedInColumns(s: Store, t: Store, rows: map<Id, SeriesRow>, after: map<Id, SeriesRow>, tz: TzData, current: string,
                                now: Instant, updated: set<Id>, conflicts: set<Id>, i: Id) returns (k: nat)
    requires SeriesSound(rows) && i in s.bookings
    requires Rematerialization.Rematerialized(s, t, rows, after, tz, current, now, updated, conflicts)
    ensures i in t.bookings && t.bookings[i] == s.bookings[i].(range := t.bookings[i].range)
    ensures i !in Rematerialization.Candidates(s.bookings, Rematerialization.StaleIds(rows, current), now) ==>
      t.bookings[i] == s.bookings[i] && i !in updated && i !in conflicts
    ensures i in Rematerialization.Candidates(s.bookings, Rematerialization.StaleIds(rows, current), now) ==>
      var b := s.bookings[i]; var row := rows[b.series.value]; var os := Occurrences(row.def, tz(row.timezone));
      && Closest(os, k, b.range.lo)
      && (Gap(os[k].start, b.range.lo) > 2 * DAYS ==> t.bookings[i] == b && i !in conflicts)
      && (i in conflicts ==> t.bookings[i] == b)
      && (Gap(os[k].start, b.range.lo) <= 2 * DAYS && i !in conflicts ==> t.bookings[i].range == Range(os[k].start, os[k].end))
    ensures t.bookings.Keys == s.bookings.Keys && t.offers == s.offers && t.entries == s.entries
  {
    k := 0;
    if i in Rematerialization.Candidates(s.bookings, Rematerialization.StaleIds(rows, current), now) {
      var row := rows[s.bookings[i].series.value];
      k := RetargetInColumns(Occurrences(row.def, tz(row.timezone)), s.bookings[i].range);
    }
  }

  // A series is marked with the installed version exactly when it was active, of another version, and none of its
  // bookings is in conflict; nothing else about any series changes.
  lemma MarkedInColumns(s: Store, t: Store, rows: map<Id, SeriesRow>, after: map<Id, SeriesRow>, tz: TzData, current: string,
                        now: Instant, updated: set<Id>, conflicts: set<Id>, id: Id)
    requires SeriesSound(rows) && id in rows
    requires Rematerialization.Rematerialized(s, t, rows, after, tz, current, now, updated, conflicts)
    ensures after.Keys == rows.Keys
    ensures after[id] ==
      if rows[id].active && forall i | i in conflicts && i in s.bookings :: s.bookings[i].series != Some(id)
      then rows[id].(tzdata := current) else rows[id]
  {}
}
