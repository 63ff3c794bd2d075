/** The booking write path: each function is one transaction over the shared tables. */
module BookingService {
  import opened Tables
  import opened Transactions
  import Preservation

  class Database {
    var bookings: map<Id, Booking>
    var offers: map<Id, Offer>
    var entries: map<Id, Entry>
    var nextId: Id

    ghost function Snapshot(): (s: Store)
      reads this
    {
      Store(bookings, offers, entries, nextId)
    }

    // What PostgreSQL's constraints guarantee of the tables between transactions.
    ghost predicate Valid()
      reads this
    {
      BookingsSound(Snapshot()) && ReferencesSound(Snapshot()) && EntriesSound(Snapshot())
    }

    constructor ()
      ensures Valid() && Snapshot() == Store(map[], map[], map[], 0)
    {
      bookings, offers, entries, nextId := map[], map[], map[], 0;
    }
  }

  // After the cleanup, a row still in the way is somebody's; and a reference left dangling is a pinned hold's.
  lemma CleanupDecides(s: Store, req: CreateRequest, now: Instant)
    requires BookingsSound(s) && ReferencesSound(s)
    ensures var rows := WithoutExpired(s.bookings, req.resource, req.range, now);
      && ((exists i | i in rows :: rows[i].Blocks(req.resource, req.range)) <==> Taken(s, req.resource, req.range, now))
      && ((exists o | o in s.offers :: s.offers[o].hold !in rows && s.offers[o].hold != s.nextId)
          <==> Pinned(s, req.resource, req.range, now))
  {
    var rows := WithoutExpired(s.bookings, req.resource, req.range, now);
    if Taken(s, req.resource, req.range, now) {
      var i :| i in s.bookings && s.bookings[i].Blocks(req.resource, req.range) && !s.bookings[i].ExpiredBy(now);
      assert i in rows && rows[i].Blocks(req.resource, req.range);
    }
    if Pinned(s, req.resource, req.range, now) {
      var o :| o in s.offers && Reclaimable(s.bookings[s.offers[o].hold], req.resource, req.range, now);
      assert s.offers[o].hold !in rows && s.offers[o].hold != s.nextId;
    }
    if o :| o in s.offers && s.offers[o].hold !in rows {
      assert Reclaimable(s.bookings[s.offers[o].hold], req.resource, req.range, now);
    }
  }

  // The DELETE of expired holds, the INSERT, and the deferred foreign keys at commit, rolled back together.
  method CreateBooking(db: Database, req: CreateRequest, now: Instant) returns (outcome: WriteOutcome)
    requires db.Valid()
    modifies db
    ensures (outcome, db.Snapshot()) == Create(old(db.Snapshot()), req, now)
    ensures !outcome.Done? ==> db.Snapshot() == old(db.Snapshot())
  {
    CleanupDecides(db.Snapshot(), req, now);
    var saved := db.bookings;
    if !req.range.NonEmpty() { return BadRange; }
    db.bookings := map i | i in saved && !Reclaimable(saved[i], req.resource, req.range, now) :: saved[i];
    if exists i | i in db.bookings :: db.bookings[i].Blocks(req.resource, req.range) {
      db.bookings := saved;
      return SlotUnavailable;
    }
    var id := db.nextId;
    var inserted := InsertBooking(db, req, now);
    if !inserted {
      db.bookings := saved;
      return HoldReferenced;
    }
    return Done(id);
  }

  // The new row, which the commit refuses if a reference is left dangling.
  method InsertBooking(db: Database, req: CreateRequest, now: Instant) returns (committed: bool)
    modifies db`bookings, db`nextId
    ensures db.bookings == old(db.bookings)[old(db.nextId) := NewBooking(req, now)]
    ensures committed <==> !exists o | o in db.offers :: db.offers[o].hold !in db.bookings
    ensures db.nextId == if committed then old(db.nextId) + 1 else old(db.nextId)
  {
    var expiresAt := if req.holdFor.Some? then Some(now + req.holdFor.value) else None;
    var status := if req.holdFor.Some? then Held else Confirmed;
    db.bookings := db.bookings[db.nextId := Booking(req.resource, req.user, req.series, req.range, status, expiresAt, None, None, None)];
    if exists o | o in db.offers :: db.offers[o].hold !in db.bookings { return false; }
    db.nextId := db.nextId + 1;
    return true;
  }

  // In the terms of a caller: no booking and no live hold in the way, and no offered hold to delete.
  lemma CreateSucceedsExactlyWhenNothingIsInTheWay(s: Store, req: CreateRequest, now: Instant)
    requires BookingsSound(s) && ReferencesSound(s)
    ensures Create(s, req, now).0.Done? <==>
      && req.range.NonEmpty()
      && (forall i | i in s.bookings && s.bookings[i].Blocks(req.resource, req.range) ::
            s.bookings[i].ExpiredBy(now) && !exists o :: o in s.offers && s.offers[o].hold == i)
  {
    if Pinned(s, req.resource, req.range, now) {
      var o :| o in s.offers && Reclaimable(s.bookings[s.offers[o].hold], req.resource, req.range, now);
      var i := s.offers[o].hold;
      assert s.bookings[i].Blocks(req.resource, req.range);
    }
  }

  method EditBooking(db: Database, id: Id, wanted: Range) returns (outcome: WriteOutcome)
    modifies db`bookings
    ensures (outcome, db.Snapshot()) == Edit(old(db.Snapshot()), id, wanted)
  {
    if id !in db.bookings { return Missing; }
    if !wanted.NonEmpty() { return BadRange; }
    var saved := db.bookings;
    var row := db.bookings[id].(range := wanted);
    db.bookings := db.bookings[id := row];
    if row.Occupies() && exists i | i in db.bookings :: i != id && db.bookings[i].Blocks(row.resource, wanted) {
      assert Contested(old(db.Snapshot()), id, wanted);
      db.bookings := saved;
      return SlotUnavailable;
    }
    assert row.Occupies() ==> forall i | i in saved && i != id :: i in db.bookings && db.bookings[i] == saved[i];
    return Done(id);
  }

  // The freed range, when there is one, is what on_commit hands to the cascade.
  method CancelBooking(db: Database, id: Id, actor: Id, reason: Option<string>, now: Instant) returns (outcome: CancelOutcome)
    modifies db`bookings
    ensures (outcome, db.Snapshot()) == Cancel(old(db.Snapshot()), id, actor, reason, now)
  {
    if id !in db.bookings { return NoSuchBooking; }
    var updated := db.bookings[id].status == Confirmed;
    if updated {
      db.bookings := db.bookings[id := db.bookings[id].(status := Cancelled, expiresAt := None, cancelledAt := Some(now),
                                                        cancelledBy := Some(actor), reason := reason)];
    }
    var booking := db.bookings[id];
    return if updated then Released(booking.range) else AlreadyCancelled;
  }

  method TransferBookingOwnership(db: Database, id: Id, owner: Id)
    modifies db`bookings
    ensures db.Snapshot() == Transfer(old(db.Snapshot()), id, owner)
  {
    if id in db.bookings {
      db.bookings := db.bookings[id := db.bookings[id].(user := owner)];
    }
  }

  function UpcomingIds(rows: map<Id, Booking>, series: Id, now: Instant): set<Id> {
    set i | i in rows && Upcoming(rows[i], series, now)
  }

  function PastIds(rows: map<Id, Booking>, series: Id, now: Instant): set<Id> {
    set i | i in rows && rows[i].series == Some(series) && rows[i].range.lo < now
  }

  method CancelRecurringSeries(db: Database, series: Id, actor: Id, reason: Option<string>, now: Instant)
    returns (cancelled: set<Id>, alreadyPast: nat)
    modifies db`bookings
    ensures db.Snapshot() == CancelSeries(old(db.Snapshot()), series, actor, reason, now)
    ensures cancelled == UpcomingIds(old(db.bookings), series, now)
    ensures alreadyPast == |PastIds(db.bookings, series, now)|
  {
    cancelled := UpcomingIds(db.bookings, series, now);
    db.bookings := map i | i in db.bookings ::
      if i in cancelled then db.bookings[i].CancelledRow(now, Some(actor), reason) else db.bookings[i];
    alreadyPast := |PastIds(db.bookings, series, now)|;
  }

  // ---------------------------------------------------------------- what the write path decides

  // The tables an INSERT would leave behind after the cleanup.
  function AfterCleanupAndInsert(s: Store, req: CreateRequest, now: Instant): Store {
    s.(bookings := WithoutExpired(s.bookings, req.resource, req.range, now)[s.nextId := NewBooking(req, now)], nextId := s.nextId + 1)
  }

  // A create commits exactly when the cleaned-up tables with the new row meet every constraint; on success
  // those are the tables, otherwise nothing has changed.
  lemma CreateCommitsExactlyWhenSound(s: Store, req: CreateRequest, now: Instant)
    requires BookingsSound(s) && ReferencesSound(s)
    ensures var (outcome, t) := Create(s, req, now); var wanted := AfterCleanupAndInsert(s, req, now);
      && (outcome.Done? <==> BookingsSound(wanted) && ReferencesSound(wanted))
      && t == if outcome.Done? then wanted else s
  {
    var (outcome, t) := Create(s, req, now);
    var wanted := AfterCleanupAndInsert(s, req, now);
    assert wanted.bookings[s.nextId] == NewBooking(req, now);
    if outcome.Done? {
      Preservation.CreateKeepsBookingsSound(s, req, now);
      assert ReferencesSound(wanted);
    } else if outcome.SlotUnavailable? {
      var i :| i in s.bookings && s.bookings[i].Blocks(req.resource, req.range) && !s.bookings[i].ExpiredBy(now);
      assert wanted.bookings[i] == s.bookings[i];
      assert wanted.bookings[i].Blocks(wanted.bookings[s.nextId].resource, wanted.bookings[s.nextId].range);
    } else if outcome.HoldReferenced? {
      var o :| o in s.offers && Reclaimable(s.bookings[s.offers[o].hold], req.resource, req.range, now);
      assert s.offers[o].hold !in wanted.bookings;
    }
  }

  function WithRange(s: Store, id: Id, wanted: Range): Store
    requires id in s.bookings
  {
    s.(bookings := s.bookings[id := s.bookings[id].(range := wanted)])
  }

  // The same for an edit, which cleans nothing up.
  lemma EditCommitsExactlyWhenSound(s: Store, id: Id, wanted: Range)
    requires BookingsSound(s) && id in s.bookings
    ensures var (outcome, t) := Edit(s, id, wanted);
      && (outcome.Done? <==> BookingsSound(WithRange(s, id, wanted)))
      && t == if outcome.Done? then WithRange(s, id, wanted) else s
  {
    var outcome := Edit(s, id, wanted).0;
    var t := WithRange(s, id, wanted);
    if outcome.Done? {
      Preservation.EditKeepsBookingsSound(s, id, wanted);
    } else if outcome.SlotUnavailable? {
      var i :| i in s.bookings && i != id && s.bookings[i].Blocks(s.bookings[id].resource, wanted);
      assert t.bookings[i].Blocks(t.bookings[id].resource, t.bookings[id].range);
    } else {
      assert !t.bookings[id].WellShaped();
    }
  }

  predicate SlotIsFree(s: Store, resource: Id, wanted: Range) {
    forall i | i in s.bookings :: !s.bookings[i].Blocks(resource, wanted)
  }

  // The waitlist's advisory read promises what a direct booking would find.
  lemma FreeSlotCanBeBooked(s: Store, req: CreateRequest, now: Instant)
    requires BookingsSound(s) && ReferencesSound(s) && req.range.NonEmpty()
    requires SlotIsFree(s, req.resource, req.range)
    ensures Create(s, req, now).0 == Done(s.nextId)
    ensures Create(s, req, now).1.bookings == s.bookings[s.nextId := NewBooking(req, now)]
  {
    assert WithoutExpired(s.bookings, req.resource, req.range, now) == s.bookings;
  }

  // An expired hold gives way to a booking exactly when no offer row refers to it: the documentation's
  // "an expired hold must not block any booking" fails for every hold that was actually offered.
  lemma ExpiredHoldYieldsExactlyWhenUnoffered(s: Store, req: CreateRequest, now: Instant, hold: Id)
    requires BookingsSound(s) && ReferencesSound(s) && req.range.NonEmpty()
    requires hold in s.bookings && Reclaimable(s.bookings[hold], req.resource, req.range, now)
    requires forall i | i in s.bookings && i != hold :: !s.bookings[i].Blocks(req.resource, req.range)
    ensures Create(s, req, now).0.Done? <==> forall o | o in s.offers :: s.offers[o].hold != hold
    ensures !Create(s, req, now).0.Done? ==> Create(s, req, now) == (HoldReferenced, s)
  {
    assert forall o | o in s.offers && Reclaimable(s.bookings[s.offers[o].hold], req.resource, req.range, now) ::
      s.offers[o].hold == hold;
  }
}
