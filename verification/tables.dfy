/** The rows the booking engine keeps, and the constraints PostgreSQL enforces on them. */
module Tables {

  type Id = nat

  // Microseconds since the epoch, UTC.
  type Instant = int

  datatype Option<+T> = None | Some(value: T)

  // A half-open range of instants, `[lo, hi)`.
  datatype Range = Range(lo: Instant, hi: Instant) {

    predicate NonEmpty() {
      lo < hi
    }

    predicate Overlaps(other: Range) {
      lo < other.hi && other.lo < hi
    }

    predicate Contains(other: Range) {
      lo <= other.lo && other.hi <= hi
    }
  }

  datatype BookingStatus = Confirmed | Held | Cancelled

  datatype Booking = Booking(
    resource: Id,
    user: Id,
    series: Option<Id>,
    range: Range,
    status: BookingStatus,
    expiresAt: Option<Instant>,
    cancelledAt: Option<Instant>,
    cancelledBy: Option<Id>,
    reason: Option<string>)
  {
    // The rows the exclusion constraint ranges over.
    predicate Occupies() {
      status != Cancelled
    }

    predicate Blocks(on: Id, wanted: Range) {
      resource == on && Occupies() && range.Overlaps(wanted)
    }

    predicate IsHold() {
      status == Held
    }

    predicate ExpiredBy(now: Instant) {
      IsHold() && expiresAt.Some? && expiresAt.value <= now
    }

    // CHECK constraints hold_has_expiry and booking_time_range_not_empty.
    predicate WellShaped() {
      (IsHold() <==> expiresAt.Some?) && range.NonEmpty()
    }

    function CancelledRow(at: Instant, actor: Option<Id>, why: Option<string>): Booking {
      this.(status := Cancelled, expiresAt := None, cancelledAt := Some(at), cancelledBy := actor, reason := why)
    }
  }

  datatype OfferStatus = Active | Accepted | Expired | Declined

  datatype Offer = Offer(
    entry: Id,
    hold: Id,
    resource: Id,
    range: Range,
    status: OfferStatus,
    expiresAt: Instant,
    createdAt: Instant)

  datatype EntryStatus = Waiting | Offered | Fulfilled | Lapsed | Withdrawn

  datatype Entry = Entry(
    resource: Id,
    user: Id,
    range: Range,
    status: EntryStatus,
    joinedAt: Instant)
  {
    // What uniq_live_waitlist_per_user_slot ranges over.
    predicate Live() {
      status == Waiting || status == Offered
    }

    predicate SameSlot(other: Entry) {
      user == other.user && resource == other.resource && range == other.range
    }
  }

  // Row ids are UUIDs in the source: never handed out twice. `nextId` stands for the supply.
  datatype Store = Store(
    bookings: map<Id, Booking>,
    offers: map<Id, Offer>,
    entries: map<Id, Entry>,
    nextId: Id)
  {
    predicate HoldsAt(i: Id) {
      i in bookings && bookings[i].IsHold()
    }
  }

  // no_overlapping_bookings, over all pairs of rows.
  ghost predicate NoDoubleBooking(s: Store) {
    forall i, j | i in s.bookings && j in s.bookings && i != j && s.bookings[i].Occupies() ::
      !s.bookings[j].Blocks(s.bookings[i].resource, s.bookings[i].range)
  }

  ghost predicate RowsWellShaped(s: Store) {
    forall i | i in s.bookings :: s.bookings[i].WellShaped()
  }

  ghost predicate IdsHandedOut(s: Store) {
    (forall i | i in s.bookings :: i < s.nextId) && (forall o | o in s.offers :: o < s.nextId)
  }

  ghost predicate BookingsSound(s: Store) {
    NoDoubleBooking(s) && RowsWellShaped(s) && IdsHandedOut(s)
  }

  // Foreign keys of waitlist_offer, and the uniqueness of hold_booking_id.
  ghost predicate ReferencesSound(s: Store) {
    && (forall o | o in s.offers :: s.offers[o].hold in s.bookings && s.offers[o].entry in s.entries)
    && (forall o, p | o in s.offers && p in s.offers && o != p :: s.offers[o].hold != s.offers[p].hold)
  }

  // CHECK constraint wl_entry_time_range_not_empty.
  ghost predicate EntriesWellShaped(s: Store) {
    forall e | e in s.entries :: s.entries[e].range.NonEmpty()
  }

  // uniq_live_waitlist_per_user_slot, over all pairs of rows.
  ghost predicate OneLiveEntryPerSlot(s: Store) {
    forall e, f | e in s.entries && f in s.entries && e != f && s.entries[e].Live() && s.entries[f].Live() ::
      !s.entries[e].SameSlot(s.entries[f])
  }

  ghost predicate EntriesSound(s: Store) {
    EntriesWellShaped(s) && OneLiveEntryPerSlot(s)
  }

  // uniq_active_offer_per_entry.
  ghost predicate OneActiveOfferPerEntry(s: Store) {
    forall o, p | o in s.offers && p in s.offers && o != p && s.offers[o].status == Active && s.offers[p].status == Active ::
      s.offers[o].entry != s.offers[p].entry
  }

  // An offer never outlives its hold's resolution: while the hold stands, the offer is active, on the same terms.
  ghost predicate HeldMeansActive(s: Store) {
    forall o | o in s.offers && s.HoldsAt(s.offers[o].hold) ::
      && s.offers[o].status == Active
      && s.bookings[s.offers[o].hold].expiresAt == Some(s.offers[o].expiresAt)
      && s.offers[o].entry in s.entries
      && s.bookings[s.offers[o].hold].user == s.entries[s.offers[o].entry].user
  }

  // The converse, for every offer that was written before its hold ran out.
  ghost predicate ActiveMeansHeld(s: Store) {
    forall o | o in s.offers && s.offers[o].status == Active && s.offers[o].createdAt < s.offers[o].expiresAt ::
      s.HoldsAt(s.offers[o].hold)
  }

  ghost predicate OffersSound(s: Store) {
    ReferencesSound(s) && OneActiveOfferPerEntry(s) && HeldMeansActive(s) && ActiveMeansHeld(s)
  }
}
