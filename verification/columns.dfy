/**
 What each transaction means in the columns of the rows alone. Nothing here is stated through the functions that
 compute the transactions, so that they answer to a second description.
 */
module Columns {
  import opened Tables
  import opened Transactions
  import opened BookingService
  import opened Queue
  import opened QueueTheorems
  import opened CascadeTheorems

  // The row occupies some of the resource's time between two instants; a range that only touches it does not count.
  predicate Uses(b: Booking, resource: Id, lo: Instant, hi: Instant) {
    b.resource == resource && b.status != Cancelled && b.range.lo < hi && lo < b.range.hi
  }

  predicate RanOut(b: Booking, now: Instant) {
    b.status == Held && b.expiresAt.Some? && b.expiresAt.value <= now
  }

  predicate OfferedHold(s: Store, i: Id) {
    exists o | o in s.offers :: s.offers[o].hold == i
  }

  // ---------------------------------------------------------------- bookings

  ghost predicate OnlyBooking(s: Store, t: Store, id: Id) {
    && t.offers == s.offers && t.entries == s.entries && t.nextId == s.nextId
    && t.bookings.Keys == s.bookings.Keys && (forall i | i in s.bookings && i != id :: t.bookings[i] == s.bookings[i])
  }

  // The request's own resource, user, series and range; confirmed, or held until the window has passed.
  ghost predicate MadeFor(b: Booking, resource: Id, user: Id, series: Option<Id>, lo: Instant, hi: Instant, window: Option<int>,
                          now: Instant)
  {
    && b.resource == resource && b.user == user && b.series == series && b.range.lo == lo && b.range.hi == hi
    && b.cancelledAt.None? && b.cancelledBy.None? && b.reason.None?
    && (window.None? ==> b.status == Confirmed && b.expiresAt.None?)
    && (window.Some? ==> b.status == Held && b.expiresAt == Some(now + window.value))
  }

  // A create is refused for an empty range, for a row in the way that has not run out, or for one that has and was
  // offered; otherwise it adds this row, and of the others removes exactly the holds in the way.
  lemma CreateInColumns(s: Store, req: CreateRequest, now: Instant)
    requires IdsHandedOut(s) && ReferencesSound(s)
    ensures var (outcome, t) := Create(s, req, now); var lo, hi := req.range.lo, req.range.hi;
      && (outcome.BadRange? <==> lo >= hi)
      && (outcome.SlotUnavailable? <==>
            lo < hi && exists i | i in s.bookings :: Uses(s.bookings[i], req.resource, lo, hi) && !RanOut(s.bookings[i], now))
      && (outcome.Done? <==>
            lo < hi && forall i | i in s.bookings ::
              Uses(s.bookings[i], req.resource, lo, hi) ==> RanOut(s.bookings[i], now) && !OfferedHold(s, i))
      && !outcome.Missing? && (!outcome.Done? ==> t == s)
      && (outcome.Done? ==>
            && outcome.id !in s.bookings && outcome.id in t.bookings
            && MadeFor(t.bookings[outcome.id], req.resource, req.user, req.series, lo, hi, req.holdFor, now)
            && (forall i | i in t.bookings && i != outcome.id :: i in s.bookings && t.bookings[i] == s.bookings[i])
            && (forall i | i in s.bookings :: i in t.bookings <==> !Uses(s.bookings[i], req.resource, lo, hi))
            && t.offers == s.offers && t.entries == s.entries)
  {
    forall i | i in s.bookings
      ensures s.bookings[i].Blocks(req.resource, req.range) == Uses(s.bookings[i], req.resource, req.range.lo, req.range.hi)
      ensures s.bookings[i].ExpiredBy(now) == RanOut(s.bookings[i], now)
    {}
    if Create(s, req, now).0.Done? {
      forall i | i in s.bookings && Uses(s.bookings[i], req.resource, req.range.lo, req.range.hi) ensures !OfferedHold(s, i) {}
    }
  }

  // An edit is refused for a missing row, an empty range, or any other row in the way, run out or not; otherwise it
  // changes the row's range and nothing else. A cancelled row is in nobody's way.
  lemma EditInColumns(s: Store, id: Id, wanted: Range)
    ensures var (outcome, t) := Edit(s, id, wanted);
      && (outcome.Missing? <==> id !in s.bookings)
      && (outcome.BadRange? <==> id in s.bookings && wanted.lo >= wanted.hi)
      && (outcome.SlotUnavailable? <==>
            && id in s.bookings && wanted.lo < wanted.hi && s.bookings[id].status != Cancelled
            && exists i | i in s.bookings :: i != id && Uses(s.bookings[i], s.bookings[id].resource, wanted.lo, wanted.hi))
      && !outcome.HoldReferenced? && (!outcome.Done? ==> t == s)
      && (outcome.Done? ==>
            && OnlyBooking(s, t, id) && t.bookings[id] == s.bookings[id].(range := t.bookings[id].range)
            && t.bookings[id].range.lo == wanted.lo && t.bookings[id].range.hi == wanted.hi)
  {
    forall i | i in s.bookings && id in s.bookings
      ensures s.bookings[i].Blocks(s.bookings[id].resource, wanted) == Uses(s.bookings[i], s.bookings[id].resource, wanted.lo, wanted.hi)
    {}
  }

  // The columns a cancellation writes, and those it leaves.
  ghost predicate CancelledAs(b: Booking, was: Booking, at: Instant, actor: Option<Id>, reason: Option<string>) {
    && b.status == Cancelled && b.expiresAt.None? && b.cancelledAt == Some(at) && b.cancelledBy == actor && b.reason == reason
    && b.resource == was.resource && b.user == was.user && b.series == was.series && b.range == was.range
  }

  // Only a confirmed booking can be cancelled; what is freed is its whole range.
  lemma CancelInColumns(s: Store, id: Id, actor: Id, reason: Option<string>, now: Instant)
    ensures var (outcome, t) := Cancel(s, id, actor, reason, now);
      && (outcome.NoSuchBooking? <==> id !in s.bookings)
      && (outcome.Released? <==> id in s.bookings && s.bookings[id].status == Confirmed)
      && (!outcome.Released? ==> t == s)
      && (outcome.Released? ==>
            && outcome.freed.lo == s.bookings[id].range.lo && outcome.freed.hi == s.bookings[id].range.hi
            && OnlyBooking(s, t, id) && CancelledAs(t.bookings[id], s.bookings[id], now, Some(actor), reason))
  {}

  // Exactly the confirmed bookings of the series that start at or after now are cancelled.
  lemma CancelSeriesInColumns(s: Store, series: Id, actor: Id, reason: Option<string>, now: Instant)
    ensures var t := CancelSeries(s, series, actor, reason, now);
      && t.offers == s.offers && t.entries == s.entries && t.nextId == s.nextId && t.bookings.Keys == s.bookings.Keys
      && forall i | i in s.bookings ::
           var b := s.bookings[i];
           if b.series == Some(series) && b.status == Confirmed && now <= b.range.lo
           then CancelledAs(t.bookings[i], b, now, Some(actor), reason) else t.bookings[i] == b
  {}

  // What cancelling a series reports: the ids of those, and how many of the series' rows had begun.
  lemma SeriesCountsInColumns(rows: map<Id, Booking>, series: Id, now: Instant, i: Id)
    ensures i in UpcomingIds(rows, series, now)
      <==> i in rows && rows[i].series == Some(series) && rows[i].status == Confirmed && now <= rows[i].range.lo
    ensures i in PastIds(rows, series, now) <==> i in rows && rows[i].series == Some(series) && rows[i].range.lo < now
  {}

  // A booking changes hands, and nothing else about it changes.
  lemma TransferInColumns(s: Store, id: Id, owner: Id)
    ensures var t := Transfer(s, id, owner);
      && (id !in s.bookings ==> t == s)
      && (id in s.bookings ==>
            OnlyBooking(s, t, id) && t.bookings[id].user == owner && t.bookings[id].(user := s.bookings[id].user) == s.bookings[id])
  {}

  // ---------------------------------------------------------------- waitlist entries

  ghost predicate OnlyEntry(s: Store, t: Store, id: Id) {
    && t.bookings == s.bookings && t.offers == s.offers && t.nextId == s.nextId && EntryApart(s, t, id)
  }

  ghost predicate EntryApart(s: Store, t: Store, id: Id) {
    t.entries.Keys == s.entries.Keys && forall e | e in s.entries && e != id :: t.entries[e] == s.entries[e]
  }

  // A user waits at most once for a slot; whoever joins waits from now on, for what they asked for.
  lemma JoinInColumns(s: Store, id: Id, resource: Id, user: Id, wanted: Range, now: Instant)
    ensures var (joined, t) := Join(s, id, resource, user, wanted, now);
      && (joined <==>
            && id !in s.entries && wanted.lo < wanted.hi
            && forall e | e in s.entries && (s.entries[e].status == Waiting || s.entries[e].status == Offered) ::
                 !(s.entries[e].user == user && s.entries[e].resource == resource
                   && s.entries[e].range.lo == wanted.lo && s.entries[e].range.hi == wanted.hi))
      && (!joined ==> t == s)
      && (joined ==>
            && t.bookings == s.bookings && t.offers == s.offers && t.nextId == s.nextId && t.entries.Keys == s.entries.Keys + {id}
            && (forall e | e in s.entries :: t.entries[e] == s.entries[e])
            && t.entries[id].resource == resource && t.entries[id].user == user && t.entries[id].range == wanted
            && t.entries[id].status == Waiting && t.entries[id].joinedAt == now)
  {
    if id !in s.entries && wanted.lo < wanted.hi && AlreadyWaiting(s, resource, user, wanted) {
      var e :| e in s.entries && s.entries[e].Live() && s.entries[e].resource == resource && s.entries[e].user == user
        && s.entries[e].range == wanted;
      assert s.entries[e].status == Waiting || s.entries[e].status == Offered;
    }
    forall e | e in s.entries && s.entries[e].range.lo == wanted.lo && s.entries[e].range.hi == wanted.hi
      ensures s.entries[e].range == wanted
    {}
  }

  // Only a waiting entry can be withdrawn.
  lemma WithdrawInColumns(s: Store, id: Id)
    ensures var (withdrawn, t) := WithdrawEntry(s, id);
      && (withdrawn <==> id in s.entries && s.entries[id].status == Waiting)
      && (!withdrawn ==> t == s)
      && (withdrawn ==> OnlyEntry(s, t, id) && t.entries[id] == s.entries[id].(status := Withdrawn))
  {}

  // ---------------------------------------------------------------- offers

  ghost predicate OfferApart(s: Store, t: Store, id: Id) {
    t.offers.Keys == s.offers.Keys && forall o | o in s.offers && o != id :: t.offers[o] == s.offers[o]
  }

  ghost predicate BookingApart(s: Store, t: Store, id: Id) {
    t.bookings.Keys == s.bookings.Keys && forall i | i in s.bookings && i != id :: t.bookings[i] == s.bookings[i]
  }

  // An offer is accepted exactly by the user its hold is for, while the hold stands and has not run out. The hold
  // becomes a confirmed booking, the offer accepted, and the entry fulfilled.
  lemma AcceptInColumns(s: Store, offer: Id, user: Id, now: Instant)
    requires OffersSound(s)
    ensures var (outcome, t) := Accept(s, offer, user, now);
      && (outcome.Booked? <==>
            && offer in s.offers
            && var b := s.bookings[s.offers[offer].hold];
               b.status == Held && b.user == user && b.expiresAt.Some? && now < b.expiresAt.value)
      && (!outcome.Booked? ==> t == s)
      && (outcome.Booked? ==>
            var o := s.offers[offer];
            && outcome.booking == o.hold && t.nextId == s.nextId
            && BookingApart(s, t, o.hold) && t.bookings[o.hold] == s.bookings[o.hold].(status := Confirmed, expiresAt := None)
            && OfferApart(s, t, offer) && t.offers[offer] == o.(status := Accepted)
            && EntryApart(s, t, o.entry) && t.entries[o.entry] == s.entries[o.entry].(status := Fulfilled))
  {}

  // What a decline and a reap have in common: the hold, if it stands, is cancelled, the offer takes this status, and
  // the entry lapses.
  ghost predicate ResolvedAs(s: Store, t: Store, offer: Id, status: OfferStatus, now: Instant)
    requires offer in s.offers && s.offers[offer].hold in s.bookings && s.offers[offer].entry in s.entries
  {
    var o := s.offers[offer];
    && t.nextId == s.nextId
    && BookingApart(s, t, o.hold) && OfferApart(s, t, offer) && EntryApart(s, t, o.entry)
    && (if s.bookings[o.hold].status == Held
        then CancelledAs(t.bookings[o.hold], s.bookings[o.hold], now, s.bookings[o.hold].cancelledBy, s.bookings[o.hold].reason)
        else t.bookings[o.hold] == s.bookings[o.hold])
    && t.offers[offer] == o.(status := status)
    && t.entries[o.entry] == s.entries[o.entry].(status := Lapsed)
  }

  // Only an active offer can be declined; its whole range is freed.
  lemma DeclineInColumns(s: Store, offer: Id, now: Instant)
    requires ReferencesSound(s)
    ensures var (outcome, t) := Decline(s, offer, now);
      && (outcome.Freed? <==> offer in s.offers && s.offers[offer].status == Active)
      && (!outcome.Freed? ==> t == s)
      && (outcome.Freed? ==> outcome.range == s.offers[offer].range && ResolvedAs(s, t, offer, Declined, now))
  {}

  // Only a hold that has run out is reclaimed. With an active offer on it, that expires, and its whole range is freed.
  lemma ReapInColumns(s: Store, hold: Id, now: Instant)
    requires ReferencesSound(s)
    ensures var (outcome, t) := Reap(s, hold, now);
      && (outcome.LostRace? <==> !(hold in s.bookings && RanOut(s.bookings[hold], now)))
      && (outcome.LostRace? ==> t == s)
      && (outcome.Reclaimed? ==>
            && (forall o | o in s.offers && s.offers[o].hold == hold :: s.offers[o].status != Active)
            && OnlyBooking(s, t, hold)
            && CancelledAs(t.bookings[hold], s.bookings[hold], now, s.bookings[hold].cancelledBy, s.bookings[hold].reason))
      && (outcome.ReclaimedOffer? ==>
            exists o | o in s.offers && s.offers[o].hold == hold ::
              s.offers[o].status == Active && outcome.freed == s.offers[o].range && ResolvedAs(s, t, o, Expired, now))
  {
    if Reap(s, hold, now).0.ReclaimedOffer? {
      var o := ActiveOffer(s, hold);
      assert ResolvedAs(s, Reap(s, hold, now).1, o, Expired, now);
    }
  }

  // ---------------------------------------------------------------- the cascade

  // Waits for something on the resource that lies within the freed range.
  predicate WaitsWithin(e: Entry, resource: Id, freed: Range) {
    e.status == Waiting && e.resource == resource && freed.lo <= e.range.lo && e.range.hi <= freed.hi
  }

  // No row stands in the way but holds that have run out and were not offered.
  ghost predicate CanBook(s: Store, resource: Id, lo: Instant, hi: Instant, now: Instant) {
    forall i | i in s.bookings && Uses(s.bookings[i], resource, lo, hi) :: RanOut(s.bookings[i], now) && !OfferedHold(s, i)
  }

  lemma CanBookIsHad(s: Store, e: Id, now: Instant)
    requires ReferencesSound(s) && e in s.entries
    ensures CanBeHad(s, e, now) <==> CanBook(s, s.entries[e].resource, s.entries[e].range.lo, s.entries[e].range.hi, now)
  {
    var w := s.entries[e];
    forall i | i in s.bookings
      ensures s.bookings[i].Blocks(w.resource, w.range) == Uses(s.bookings[i], w.resource, w.range.lo, w.range.hi)
      ensures s.bookings[i].ExpiredBy(now) == RanOut(s.bookings[i], now)
    {}
    if Pinned(s, w.resource, w.range, now) {
      var o :| o in s.offers && Reclaimable(s.bookings[s.offers[o].hold], w.resource, w.range, now);
      assert OfferedHold(s, s.offers[o].hold);
    }
  }

  // First come, first served: whoever is offered the slot joined before every other waiter within the freed range
  // whose own slot could be booked, the lower id deciding between two who joined at once. And if nobody is offered
  // anything though the cascade does not fail, there was no such waiter.
  lemma FirstComeFirstServed(s: Store, resource: Id, freed: Range, window: int, now: Instant)
    requires BookingsSound(s) && ReferencesSound(s) && EntriesSound(s)
    ensures var outcome := Cascade(s, resource, freed, window, now).0;
      && (outcome.OfferMade? ==>
            var e := outcome.entry;
            && e in s.entries && WaitsWithin(s.entries[e], resource, freed)
            && CanBook(s, resource, s.entries[e].range.lo, s.entries[e].range.hi, now)
            && forall f | f in s.entries && f != e && WaitsWithin(s.entries[f], resource, freed)
                 && CanBook(s, resource, s.entries[f].range.lo, s.entries[f].range.hi, now) ::
                 s.entries[e].joinedAt < s.entries[f].joinedAt || (s.entries[e].joinedAt == s.entries[f].joinedAt && e < f))
      && (outcome.NobodyEligible? ==>
            forall f | f in s.entries && WaitsWithin(s.entries[f], resource, freed) ::
              !CanBook(s, resource, s.entries[f].range.lo, s.entries[f].range.hi, now))
  {
    CascadeServesUnlessItFails(s, resource, freed, window, now);
    forall f | f in s.entries
      ensures CanBeHad(s, f, now) <==> CanBook(s, s.entries[f].resource, s.entries[f].range.lo, s.entries[f].range.hi, now)
      ensures Eligible(s.entries[f], resource, freed) <==> WaitsWithin(s.entries[f], resource, freed)
    {
      CanBookIsHad(s, f, now);
    }
  }

  ghost predicate OfferedAs(s: Store, t: Store, offer: Id, entry: Id, window: int, now: Instant)
    requires offer in t.offers && entry in s.entries
  {
    var o, w := t.offers[offer], s.entries[entry];
    && o.entry == entry && o.resource == w.resource && o.range == w.range && o.status == Active
    && o.expiresAt == now + window && o.createdAt == now && o.hold !in s.bookings && o.hold in t.bookings
    && MadeFor(t.bookings[o.hold], w.resource, w.user, None, w.range.lo, w.range.hi, Some(window), now)
  }

  // What an offer writes: a hold for the waiter's own slot, an offer of it on the same terms, and the entry offered.
  lemma OfferInColumns(s: Store, resource: Id, freed: Range, window: int, now: Instant)
    requires BookingsSound(s) && ReferencesSound(s) && EntriesSound(s)
    requires Cascade(s, resource, freed, window, now).0.OfferMade?
    ensures var (outcome, t) := Cascade(s, resource, freed, window, now); var w := s.entries[outcome.entry];
      && outcome.offer in t.offers && outcome.offer !in s.offers && OfferedAs(s, t, outcome.offer, outcome.entry, window, now)
      && t.offers == s.offers[outcome.offer := t.offers[outcome.offer]]
      && EntryApart(s, t, outcome.entry) && t.entries[outcome.entry] == w.(status := Offered)
      && (forall i | i in s.bookings :: i in t.bookings <==> !Uses(s.bookings[i], w.resource, w.range.lo, w.range.hi))
      && (forall i | i in s.bookings && i in t.bookings :: t.bookings[i] == s.bookings[i])
      && t.bookings.Keys <= s.bookings.Keys + {t.offers[outcome.offer].hold}
  {
    var entry := Cascade(s, resource, freed, window, now).0.entry;
    WinnerIsFirst(s, resource, freed, now);
    CascadeServesUnlessItFails(s, resource, freed, window, now);
    OfferToSucceeds(s, entry, window, now);
    CreateInColumns(s, HoldRequest(s.entries[entry], window), now);
  }
}
