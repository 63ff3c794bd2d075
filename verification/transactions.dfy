/**
 What each committed transaction does to the tables. Every function takes the tables before the
 transaction and gives the outcome together with the tables after it; a transaction that is
 refused leaves them as they were. Row locks and guarded UPDATEs make each of them one step.
 */
module Transactions {
  import opened Tables

  // ---------------------------------------------------------------- bookings

  // `holdFor` is the offer window for a waitlist hold, and absent for an ordinary booking.
  datatype CreateRequest = CreateRequest(
    resource: Id,
    user: Id,
    series: Option<Id>,
    range: Range,
    holdFor: Option<int>)

  datatype WriteOutcome =
    | Done(id: Id)
    | SlotUnavailable    // 23P01, the exclusion constraint
    | HoldReferenced     // 23503 at commit: an offer row still points at a hold the cleanup deleted
    | BadRange           // 22000 or 23514, an empty or reversed range
    | Missing            // no such row

  // Somebody's booking, or a hold that has not run out, stands in the way.
  predicate Taken(s: Store, resource: Id, wanted: Range, now: Instant) {
    exists i | i in s.bookings :: s.bookings[i].Blocks(resource, wanted) && !s.bookings[i].ExpiredBy(now)
  }

  // The holds that cleanup-on-write removes.
  predicate Reclaimable(b: Booking, resource: Id, wanted: Range, now: Instant) {
    b.Blocks(resource, wanted) && b.ExpiredBy(now)
  }

  // An expired hold in the way cannot be deleted, because an offer row refers to it.
  predicate Pinned(s: Store, resource: Id, wanted: Range, now: Instant) {
    exists o | o in s.offers ::
      s.offers[o].hold in s.bookings && Reclaimable(s.bookings[s.offers[o].hold], resource, wanted, now)
  }

  function NewBooking(req: CreateRequest, now: Instant): Booking {
    Booking(
      req.resource, req.user, req.series, req.range,
      if req.holdFor.Some? then Held else Confirmed,
      if req.holdFor.Some? then Some(now + req.holdFor.value) else None,
      None, None, None)
  }

  function WithoutExpired(rows: map<Id, Booking>, resource: Id, wanted: Range, now: Instant): map<Id, Booking> {
    map i | i in rows && !Reclaimable(rows[i], resource, wanted, now) :: rows[i]
  }

  function Create(s: Store, req: CreateRequest, now: Instant): (r: (WriteOutcome, Store)) {
    if !req.range.NonEmpty() then (BadRange, s)
    else if Taken(s, req.resource, req.range, now) then (SlotUnavailable, s)
    else if Pinned(s, req.resource, req.range, now) then (HoldReferenced, s)
    else
      (Done(s.nextId),
       s.(bookings := WithoutExpired(s.bookings, req.resource, req.range, now)[s.nextId := NewBooking(req, now)],
          nextId := s.nextId + 1))
  }

  // Another occupying row overlaps the range an edit asks for. Expired holds count: edits clean nothing up.
  predicate Contested(s: Store, id: Id, wanted: Range)
    requires id in s.bookings
  {
    exists i | i in s.bookings :: i != id && s.bookings[i].Blocks(s.bookings[id].resource, wanted)
  }

  function Edit(s: Store, id: Id, wanted: Range): (WriteOutcome, Store) {
    if id !in s.bookings then (Missing, s)
    else if !wanted.NonEmpty() then (BadRange, s)
    else if s.bookings[id].Occupies() && Contested(s, id, wanted) then (SlotUnavailable, s)
    else (Done(id), s.(bookings := s.bookings[id := s.bookings[id].(range := wanted)]))
  }

  datatype CancelOutcome = Released(freed: Range) | AlreadyCancelled | NoSuchBooking

  function Cancel(s: Store, id: Id, actor: Id, reason: Option<string>, now: Instant): (CancelOutcome, Store) {
    if id !in s.bookings then (NoSuchBooking, s)
    else if s.bookings[id].status != Confirmed then (AlreadyCancelled, s)
    else
      (Released(s.bookings[id].range),
       s.(bookings := s.bookings[id := s.bookings[id].CancelledRow(now, Some(actor), reason)]))
  }

  predicate Upcoming(b: Booking, series: Id, now: Instant) {
    b.series == Some(series) && b.status == Confirmed && b.range.lo >= now
  }

  function CancelSeries(s: Store, series: Id, actor: Id, reason: Option<string>, now: Instant): Store {
    s.(bookings := map i | i in s.bookings ::
      if Upcoming(s.bookings[i], series, now) then s.bookings[i].CancelledRow(now, Some(actor), reason)
      else s.bookings[i])
  }

  function Transfer(s: Store, id: Id, owner: Id): Store {
    if id !in s.bookings then s
    else s.(bookings := s.bookings[id := s.bookings[id].(user := owner)])
  }

  // ---------------------------------------------------------------- waitlist entries

  predicate AlreadyWaiting(s: Store, resource: Id, user: Id, wanted: Range) {
    exists e | e in s.entries ::
      s.entries[e].Live() && s.entries[e].resource == resource && s.entries[e].user == user && s.entries[e].range == wanted
  }

  function Join(s: Store, id: Id, resource: Id, user: Id, wanted: Range, now: Instant): (bool, Store) {
    if id in s.entries || !wanted.NonEmpty() || AlreadyWaiting(s, resource, user, wanted) then (false, s)
    else (true, s.(entries := s.entries[id := Entry(resource, user, wanted, Waiting, now)]))
  }

  function SetEntry(s: Store, id: Id, status: EntryStatus): Store {
    if id !in s.entries then s
    else s.(entries := s.entries[id := s.entries[id].(status := status)])
  }

  // Another live entry has the same user, resource and range.
  predicate TwinLives(s: Store, id: Id)
    requires id in s.entries
  {
    exists e | e in s.entries :: e != id && s.entries[e].Live() && s.entries[e].SameSlot(s.entries[id])
  }

  // The worker's last UPDATE. It is by id alone, and the partial unique index refuses it when the entry has left
  // the queue and its user has joined for the same slot again.
  function MarkOffered(s: Store, id: Id): (bool, Store) {
    if id in s.entries && TwinLives(s, id) then (false, s) else (true, SetEntry(s, id, Offered))
  }

  function WithdrawEntry(s: Store, id: Id): (bool, Store) {
    if id in s.entries && s.entries[id].status == Waiting then (true, SetEntry(s, id, Withdrawn)) else (false, s)
  }

  // ---------------------------------------------------------------- offers

  function SetOffer(s: Store, id: Id, status: OfferStatus): Store {
    if id !in s.offers then s
    else s.(offers := s.offers[id := s.offers[id].(status := status)])
  }

  datatype InsertOutcome = Inserted(offer: Id) | IntegrityError

  // The foreign keys, the one-to-one hold, and one active offer per entry.
  predicate OfferInsertable(s: Store, entry: Id, hold: Id) {
    && hold in s.bookings
    && entry in s.entries
    && forall o | o in s.offers ::
         s.offers[o].hold != hold && !(s.offers[o].entry == entry && s.offers[o].status == Active)
  }

  function InsertOffer(s: Store, entry: Id, hold: Id, resource: Id, range: Range, expiresAt: Instant, now: Instant):
    (InsertOutcome, Store)
  {
    if !OfferInsertable(s, entry, hold) then (IntegrityError, s)
    else
      (Inserted(s.nextId),
       s.(offers := s.offers[s.nextId := Offer(entry, hold, resource, range, Active, expiresAt, now)],
          nextId := s.nextId + 1))
  }

  // The guard of accept_offer's conditional UPDATE.
  predicate Acceptable(b: Booking, user: Id, now: Instant) {
    b.IsHold() && b.user == user && b.expiresAt.Some? && b.expiresAt.value > now
  }

  datatype AcceptOutcome = Booked(booking: Id) | OfferExpired

  function Accept(s: Store, offer: Id, user: Id, now: Instant): (AcceptOutcome, Store) {
    if offer !in s.offers then (OfferExpired, s)
    else
      var o := s.offers[offer];
      if o.hold !in s.bookings || !Acceptable(s.bookings[o.hold], user, now) then (OfferExpired, s)
      else
        var s1 := s.(bookings := s.bookings[o.hold := s.bookings[o.hold].(status := Confirmed, expiresAt := None)]);
        var s2 := if o.status == Active then SetOffer(s1, offer, Accepted) else s1;
        (Booked(o.hold), SetEntry(s2, o.entry, Fulfilled))
  }

  datatype DeclineOutcome = Freed(range: Range) | AlreadyResolved

  function ReleaseHold(s: Store, id: Id, now: Instant): Store {
    if !s.HoldsAt(id) then s
    else s.(bookings := s.bookings[id := s.bookings[id].CancelledRow(now, s.bookings[id].cancelledBy, s.bookings[id].reason)])
  }

  function Decline(s: Store, offer: Id, now: Instant): (DeclineOutcome, Store) {
    if offer !in s.offers || s.offers[offer].status != Active then (AlreadyResolved, s)
    else
      var o := s.offers[offer];
      (Freed(o.range), SetEntry(ReleaseHold(SetOffer(s, offer, Declined), o.hold, now), o.entry, Lapsed))
  }

  predicate HasActiveOffer(s: Store, hold: Id) {
    exists o | o in s.offers :: s.offers[o].hold == hold && s.offers[o].status == Active
  }

  ghost function ActiveOffer(s: Store, hold: Id): (o: Id)
    requires HasActiveOffer(s, hold)
    ensures o in s.offers && s.offers[o].hold == hold && s.offers[o].status == Active
  {
    var o :| o in s.offers && s.offers[o].hold == hold && s.offers[o].status == Active;
    o
  }

  datatype ReapOutcome = LostRace | Reclaimed | ReclaimedOffer(freed: Range)

  // One hold of the reaper's sweep; `now` is the instant the sweep began.
  ghost function Reap(s: Store, hold: Id, now: Instant): (ReapOutcome, Store) {
    if hold !in s.bookings || !s.bookings[hold].ExpiredBy(now) then (LostRace, s)
    else if !HasActiveOffer(s, hold) then (Reclaimed, ReleaseHold(s, hold, now))
    else
      var id := ActiveOffer(s, hold);
      var o := s.offers[id];
      (ReclaimedOffer(o.range), SetEntry(SetOffer(ReleaseHold(s, hold, now), id, Expired), o.entry, Lapsed))
  }
}
