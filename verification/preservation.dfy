/** Each transaction keeps the tables sound. Only Create and Edit consult the exclusion constraint; nothing else needs to. */
module Preservation {
  import opened Tables
  import opened Transactions

  lemma CreateKeepsBookingsSound(s: Store, req: CreateRequest, now: Instant)
    requires BookingsSound(s)
    ensures BookingsSound(Create(s, req, now).1)
  {
    var (outcome, t) := Create(s, req, now);
    if outcome.Done? {
      forall i | i in s.bookings && s.bookings[i].Blocks(req.resource, req.range)
        ensures i !in WithoutExpired(s.bookings, req.resource, req.range, now)
      {}
      assert forall i | i in t.bookings && i != s.nextId :: i in s.bookings && t.bookings[i] == s.bookings[i];
    }
  }

  lemma CreateKeepsOffersSound(s: Store, req: CreateRequest, now: Instant)
    requires BookingsSound(s) && OffersSound(s)
    ensures OffersSound(Create(s, req, now).1)
  {
    var (outcome, t) := Create(s, req, now);
    if outcome.Done? {
      forall o | o in s.offers
        ensures t.offers[o].hold in t.bookings && t.bookings[t.offers[o].hold] == s.bookings[s.offers[o].hold]
      {
        assert !Reclaimable(s.bookings[s.offers[o].hold], req.resource, req.range, now);
        assert s.offers[o].hold < s.nextId;
      }
    }
  }

  lemma EditKeepsBookingsSound(s: Store, id: Id, wanted: Range)
    requires BookingsSound(s)
    ensures BookingsSound(Edit(s, id, wanted).1)
  {
    var (outcome, t) := Edit(s, id, wanted);
    if outcome.Done? && s.bookings[id].Occupies() {
      assert forall i | i in s.bookings && i != id :: !s.bookings[i].Blocks(s.bookings[id].resource, wanted);
    }
  }

  lemma EditKeepsOffersSound(s: Store, id: Id, wanted: Range)
    requires OffersSound(s)
    ensures OffersSound(Edit(s, id, wanted).1)
  {}

  lemma CancelKeepsSound(s: Store, id: Id, actor: Id, reason: Option<string>, now: Instant)
    requires BookingsSound(s) && OffersSound(s)
    ensures BookingsSound(Cancel(s, id, actor, reason, now).1) && OffersSound(Cancel(s, id, actor, reason, now).1)
  {}

  lemma CancelSeriesKeepsSound(s: Store, series: Id, actor: Id, reason: Option<string>, now: Instant)
    requires BookingsSound(s) && OffersSound(s)
    ensures BookingsSound(CancelSeries(s, series, actor, reason, now)) && OffersSound(CancelSeries(s, series, actor, reason, now))
  {
    var t := CancelSeries(s, series, actor, reason, now);
    assert t.bookings.Keys == s.bookings.Keys;
    assert forall i | i in s.bookings ::
      t.bookings[i] == s.bookings[i] || t.bookings[i] == s.bookings[i].CancelledRow(now, Some(actor), reason);
    CancellingKeepsBookingsSound(s, t);
    HoldsUntouchedKeepOffersSound(s, t);
  }

  // Confirmed rows may be cancelled; holds and the rest stay as they are.
  ghost predicate OnlyCancels(s: Store, t: Store) {
    && t.bookings.Keys == s.bookings.Keys && t.offers == s.offers && t.entries == s.entries && t.nextId == s.nextId
    && forall i | i in s.bookings :: t.bookings[i] == s.bookings[i]
         || (s.bookings[i].status == Confirmed && t.bookings[i].status == Cancelled && t.bookings[i].expiresAt.None?
             && t.bookings[i].range == s.bookings[i].range)
  }

  lemma CancellingKeepsBookingsSound(s: Store, t: Store)
    requires BookingsSound(s) && OnlyCancels(s, t)
    ensures BookingsSound(t)
  {
    forall i, j | i in t.bookings && j in t.bookings && i != j && t.bookings[i].Occupies()
      ensures !t.bookings[j].Blocks(t.bookings[i].resource, t.bookings[i].range)
    {
      assert t.bookings[i] == s.bookings[i];
      assert !s.bookings[j].Blocks(s.bookings[i].resource, s.bookings[i].range);
    }
  }

  lemma HoldsUntouchedKeepOffersSound(s: Store, t: Store)
    requires OffersSound(s) && OnlyCancels(s, t)
    ensures OffersSound(t)
  {
    assert forall i :: t.HoldsAt(i) <==> s.HoldsAt(i);
  }

  lemma TransferKeepsSound(s: Store, id: Id, owner: Id)
    requires BookingsSound(s) && OffersSound(s)
    requires !s.HoldsAt(id)
    ensures BookingsSound(Transfer(s, id, owner)) && OffersSound(Transfer(s, id, owner))
  {}

  // Entries keep their slots, and none that had left the queue is back in it.
  ghost predicate NobodyRevived(s: Store, t: Store) {
    forall e | e in t.entries ::
      e in s.entries && t.entries[e].range == s.entries[e].range && t.entries[e].SameSlot(s.entries[e])
      && (t.entries[e].Live() ==> s.entries[e].Live())
  }

  lemma QueueShrinksSoundly(s: Store, t: Store)
    requires EntriesSound(s) && NobodyRevived(s, t)
    ensures EntriesSound(t)
  {}

  lemma JoinKeepsEntriesSound(s: Store, id: Id, resource: Id, user: Id, wanted: Range, now: Instant)
    requires EntriesSound(s)
    ensures EntriesSound(Join(s, id, resource, user, wanted, now).1)
  {}

  lemma MarkOfferedKeepsEntriesSound(s: Store, id: Id)
    requires EntriesSound(s)
    ensures EntriesSound(MarkOffered(s, id).1)
  {}

  lemma EntryChangeKeepsSound(s: Store, entries: map<Id, Entry>)
    requires BookingsSound(s) && OffersSound(s)
    requires forall e | e in s.entries :: e in entries && entries[e].user == s.entries[e].user
    ensures BookingsSound(s.(entries := entries)) && OffersSound(s.(entries := entries))
  {}

  lemma AcceptKeepsSound(s: Store, offer: Id, user: Id, now: Instant)
    requires BookingsSound(s) && OffersSound(s)
    ensures BookingsSound(Accept(s, offer, user, now).1) && OffersSound(Accept(s, offer, user, now).1)
  {
    var (outcome, t) := Accept(s, offer, user, now);
    if outcome.Booked? {
      var o := s.offers[offer];
      var s1 := s.(bookings := s.bookings[o.hold := s.bookings[o.hold].(status := Confirmed, expiresAt := None)]);
      assert BookingsSound(s1);
      assert o.status == Active;
      var s2 := SetOffer(s1, offer, Accepted);
      assert OffersSound(s2);
      EntryChangeKeepsSound(s2, t.entries);
    }
  }

  lemma ReleaseKeepsBookingsSound(s: Store, hold: Id, now: Instant)
    requires BookingsSound(s)
    ensures BookingsSound(ReleaseHold(s, hold, now))
  {}

  // Taking an active offer and its hold out together, as both decline and the reaper do.
  function Resolved(s: Store, offer: Id, status: OfferStatus, now: Instant): Store
    requires offer in s.offers
  {
    SetOffer(ReleaseHold(s, s.offers[offer].hold, now), offer, status)
  }

  lemma ResolvedFrame(s: Store, offer: Id, status: OfferStatus, now: Instant)
    requires ReferencesSound(s) && offer in s.offers
    ensures var t := Resolved(s, offer, status, now);
      && t.bookings.Keys == s.bookings.Keys && t.offers.Keys == s.offers.Keys && t.entries == s.entries
      && (forall p | p in s.offers :: t.offers[p] == if p == offer then s.offers[p].(status := status) else s.offers[p])
      && !t.HoldsAt(s.offers[offer].hold)
      && (forall i | i in s.bookings && i != s.offers[offer].hold :: t.bookings[i] == s.bookings[i])
  {}

  lemma ResolveOfferKeepsOffersSound(s: Store, offer: Id, status: OfferStatus, now: Instant)
    requires OffersSound(s)
    requires offer in s.offers && s.offers[offer].status == Active && status != Active
    ensures OffersSound(Resolved(s, offer, status, now))
  {
    ResolvedFrame(s, offer, status, now);
    var t := Resolved(s, offer, status, now);
    assert forall p | p in t.offers && p != offer :: t.offers[p].hold != s.offers[offer].hold;
  }

  lemma ResolveOfferKeepsSound(s: Store, offer: Id, status: OfferStatus, now: Instant)
    requires BookingsSound(s) && OffersSound(s)
    requires offer in s.offers && s.offers[offer].status == Active && status != Active
    ensures BookingsSound(Resolved(s, offer, status, now)) && OffersSound(Resolved(s, offer, status, now))
  {
    var hold := s.offers[offer].hold;
    ReleaseKeepsBookingsSound(s, hold, now);
    assert Resolved(s, offer, status, now).bookings == ReleaseHold(s, hold, now).bookings;
    ResolveOfferKeepsOffersSound(s, offer, status, now);
  }

  lemma ResolveKeepsSound(s: Store, offer: Id, status: OfferStatus, entry: EntryStatus, now: Instant)
    requires BookingsSound(s) && OffersSound(s)
    requires offer in s.offers && s.offers[offer].status == Active && status != Active
    ensures var o := s.offers[offer];
      var t := SetEntry(Resolved(s, offer, status, now), o.entry, entry);
      BookingsSound(t) && OffersSound(t)
  {
    ResolveOfferKeepsSound(s, offer, status, now);
    var o := s.offers[offer];
    var s2 := Resolved(s, offer, status, now);
    EntryChangeKeepsSound(s2, SetEntry(s2, o.entry, entry).entries);
  }

  lemma DeclineKeepsSound(s: Store, offer: Id, now: Instant)
    requires BookingsSound(s) && OffersSound(s)
    ensures BookingsSound(Decline(s, offer, now).1) && OffersSound(Decline(s, offer, now).1)
  {
    if Decline(s, offer, now).0.Freed? {
      ResolveKeepsSound(s, offer, Declined, Lapsed, now);
      var hold := s.offers[offer].hold;
      assert ReleaseHold(SetOffer(s, offer, Declined), hold, now) == SetOffer(ReleaseHold(s, hold, now), offer, Declined);
    }
  }

  lemma ReapKeepsSound(s: Store, hold: Id, now: Instant)
    requires BookingsSound(s) && OffersSound(s)
    ensures BookingsSound(Reap(s, hold, now).1) && OffersSound(Reap(s, hold, now).1)
  {
    var (outcome, t) := Reap(s, hold, now);
    if outcome.Reclaimed? {
      ReleaseKeepsBookingsSound(s, hold, now);
      assert forall o | o in s.offers && s.offers[o].status == Active :: s.offers[o].hold != hold;
    } else if outcome.ReclaimedOffer? {
      ResolveKeepsSound(s, ActiveOffer(s, hold), Expired, Lapsed, now);
    }
  }

  lemma InsertOfferKeepsSound(s: Store, entry: Id, hold: Id, resource: Id, range: Range, expiresAt: Instant, now: Instant)
    requires BookingsSound(s) && OffersSound(s)
    // What the worker knows about the hold it created earlier.
    requires hold in s.bookings && s.bookings[hold].IsHold() ==>
               && s.bookings[hold].expiresAt == Some(expiresAt)
               && (entry in s.entries ==> s.bookings[hold].user == s.entries[entry].user)
    requires now < expiresAt ==> s.HoldsAt(hold)
    ensures var t := InsertOffer(s, entry, hold, resource, range, expiresAt, now).1; BookingsSound(t) && OffersSound(t)
  {
    var (outcome, t) := InsertOffer(s, entry, hold, resource, range, expiresAt, now);
    if outcome.Inserted? {
      assert s.nextId !in s.offers;
      assert ReferencesSound(t);
      assert OneActiveOfferPerEntry(t);
    }
  }
}
