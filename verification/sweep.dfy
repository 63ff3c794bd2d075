/** What the reaper's sweep relies on: reclaiming a hold frees its whole range, so the cascade that follows takes nothing else. */
module Sweep {
  import opened Tables
  import opened Transactions
  import opened Queue
  import opened Preservation
  import Interleaving
  import opened QueueTheorems
  import opened CascadeTheorems
  import opened BookingService

  // What a sweep run alone relies on: sound tables, offers for what their entries ask for, and no held range edited
  // since it was offered. Workers leave tables like these wherever they crash.
  ghost predicate Sweepable(s: Store) {
    BookingsSound(s) && OffersSound(s) && EntriesSound(s) && HeldAsOffered(s) && OffersMatch(s)
  }

  ghost predicate HeldAsOffered(s: Store) {
    forall o | o in s.offers && s.HoldsAt(s.offers[o].hold) ::
      s.bookings[s.offers[o].hold].range == s.offers[o].range && s.bookings[s.offers[o].hold].resource == s.offers[o].resource
  }

  ghost predicate OffersMatch(s: Store) {
    forall o | o in s.offers :: MatchesEntry(s, s.offers[o])
  }

  // An offer is for the slot its entry asked for.
  ghost predicate MatchesEntry(s: Store, o: Offer) {
    o.entry in s.entries && o.range == s.entries[o.entry].range && o.resource == s.entries[o.entry].resource
  }

  ghost function ExpiredHolds(s: Store, now: Instant): set<Id> {
    set i | i in s.bookings && s.bookings[i].ExpiredBy(now)
  }

  // ---------------------------------------------------------------- which holds end a sweep

  // Waits for something in the range of an offer, which was made to another entry.
  ghost predicate Behind(s: Store, o: Id, e: Id)
    requires o in s.offers
  {
    e in s.entries && e != s.offers[o].entry && Eligible(s.entries[e], s.offers[o].resource, s.offers[o].range)
  }

  ghost predicate NextInLine(s: Store, o: Id, e: Id)
    requires o in s.offers
  {
    Behind(s, o, e) && forall f | f in s.entries && f != e && Behind(s, o, f) :: InLineBefore(s, e, f)
  }

  ghost predicate ActiveOn(s: Store, o: Id, hold: Id) {
    o in s.offers && s.offers[o].hold == hold && s.offers[o].status == Active
  }

  // The hold is offered, and the next in line for its range has an active offer already.
  ghost predicate Halts(s: Store, hold: Id) {
    exists o, e | ActiveOn(s, o, hold) && e in s.entries :: NextInLine(s, o, e) && HasOfferOut(s, e)
  }

  // From s to t, nothing changes but entry x and its offers.
  ghost predicate OnlyTouches(s: Store, t: Store, x: Id) {
    && t.entries.Keys == s.entries.Keys
    && (forall e | e in s.entries && e != x :: t.entries[e] == s.entries[e])
    && (forall o | o in s.offers && s.offers[o].entry != x :: o in t.offers && t.offers[o] == s.offers[o])
    && (forall o | o in t.offers && t.offers[o].entry != x :: o in s.offers && t.offers[o] == s.offers[o])
  }

  // Entry x has no part in what becomes of the hold.
  ghost predicate Apart(s: Store, hold: Id, x: Id) {
    forall o | ActiveOn(s, o, hold) :: s.offers[o].entry != x && !Behind(s, o, x)
  }

  lemma HaltsCarries(s: Store, t: Store, hold: Id, x: Id)
    requires OnlyTouches(s, t, x) && Apart(s, hold, x) && Apart(t, hold, x) && Halts(s, hold)
    ensures Halts(t, hold)
  {
    var o, e :| ActiveOn(s, o, hold) && e in s.entries && NextInLine(s, o, e) && HasOfferOut(s, e);
    var p :| p in s.offers && s.offers[p].entry == e && s.offers[p].status == Active;
    assert ActiveOn(t, o, hold) && t.offers[p] == s.offers[p];
    forall f | f in t.entries && f != e && Behind(t, o, f) ensures InLineBefore(t, e, f) {
      assert f != x && Behind(s, o, f);
    }
    assert NextInLine(t, o, e);
  }

  // Holds do not overlap, so nobody waits behind two of them.
  lemma HeldApart(s: Store, hold: Id, other: Id, o: Id, p: Id, x: Id)
    requires Sweepable(s) && hold != other && s.HoldsAt(hold) && s.HoldsAt(other) && x in s.entries
    requires ActiveOn(s, o, hold) && ActiveOn(s, p, other)
    requires s.entries[x].resource == s.offers[o].resource && s.offers[o].range.Contains(s.entries[x].range)
    ensures !Behind(s, p, x)
  {
    assert !s.bookings[other].Blocks(s.bookings[hold].resource, s.bookings[hold].range);
    assert s.entries[x].range.NonEmpty();
  }

  // Bookings other than `touched` are as they were, and `touched` is no longer occupying.
  ghost predicate OnlyReleased(s: Store, t: Store, touched: Id) {
    && t.bookings.Keys == s.bookings.Keys
    && (forall i | i in s.bookings && i != touched :: t.bookings[i] == s.bookings[i])
    && touched in t.bookings && t.bookings[touched].status == Cancelled
  }

  lemma ReapReleasesOne(s: Store, hold: Id, now: Instant)
    requires Sweepable(s) && hold in s.bookings && s.bookings[hold].ExpiredBy(now)
    ensures var (outcome, t) := Reap(s, hold, now);
      && OnlyReleased(s, t, hold)
      && (outcome.Reclaimed? || outcome.ReclaimedOffer?)
      && (outcome.ReclaimedOffer? ==> outcome.freed == s.bookings[hold].range)
  {}

  // Offers and entries keep everything but their status.
  lemma ReapTouchesOnlyStatus(s: Store, hold: Id, now: Instant)
    requires ReferencesSound(s)
    ensures var t := Reap(s, hold, now).1;
      && t.offers.Keys == s.offers.Keys && t.entries.Keys == s.entries.Keys
      && (forall o | o in s.offers :: t.offers[o] == s.offers[o].(status := t.offers[o].status))
      && (forall e | e in s.entries :: t.entries[e] == s.entries[e].(status := t.entries[e].status))
  {}

  lemma ReapKeepsSweepable(s: Store, hold: Id, now: Instant)
    requires Sweepable(s) && hold in s.bookings && s.bookings[hold].ExpiredBy(now)
    ensures Sweepable(Reap(s, hold, now).1)
  {
    ReapKeepsSound(s, hold, now);
    ReapTouchesOnlyStatus(s, hold, now);
    ReapReleasesOne(s, hold, now);
    ReapRevivesNobody(s, hold, now);
    StatusOnlyKeepsShape(s, Reap(s, hold, now).1, hold);
  }

  lemma ReapRevivesNobody(s: Store, hold: Id, now: Instant)
    requires ReferencesSound(s) && EntriesSound(s)
    ensures var t := Reap(s, hold, now).1;
      EntriesSound(t) && forall o | o in t.offers && t.offers[o].status == Active :: o in s.offers && s.offers[o].status == Active
  {
    QueueShrinksSoundly(s, Reap(s, hold, now).1);
  }

  lemma StatusOnlyKeepsShape(s: Store, t: Store, hold: Id)
    requires HeldAsOffered(s) && OffersMatch(s) && OnlyReleased(s, t, hold)
    requires t.offers.Keys == s.offers.Keys && t.entries.Keys == s.entries.Keys
    requires forall o | o in s.offers :: t.offers[o] == s.offers[o].(status := t.offers[o].status)
    requires forall e | e in s.entries :: t.entries[e] == s.entries[e].(status := t.entries[e].status)
    ensures HeldAsOffered(t) && OffersMatch(t)
  {
    forall o | o in t.offers && t.HoldsAt(t.offers[o].hold)
      ensures t.bookings[t.offers[o].hold].range == t.offers[o].range
      ensures t.bookings[t.offers[o].hold].resource == t.offers[o].resource
    {
      assert t.offers[o].hold != hold && s.HoldsAt(s.offers[o].hold);
    }
    forall o | o in t.offers ensures MatchesEntry(t, t.offers[o]) { assert MatchesEntry(s, s.offers[o]); }
  }

  lemma ReleasedRangeIsFree(s: Store, t: Store, hold: Id)
    requires BookingsSound(s) && s.HoldsAt(hold) && OnlyReleased(s, t, hold)
    ensures SlotIsFree(t, s.bookings[hold].resource, s.bookings[hold].range)
  {
    forall i | i in t.bookings
      ensures !t.bookings[i].Blocks(s.bookings[hold].resource, s.bookings[hold].range)
    {
      if i != hold { assert !s.bookings[i].Blocks(s.bookings[hold].resource, s.bookings[hold].range); }
    }
  }

  // Reclaiming a hold changes nothing for the others: its entry is behind none of them.
  lemma ReapKeepsHalts(s: Store, hold: Id, now: Instant, other: Id)
    requires Sweepable(s) && hold in s.bookings && s.bookings[hold].ExpiredBy(now) && s.HoldsAt(other) && other != hold
    ensures Halts(Reap(s, hold, now).1, other) <==> Halts(s, other)
  {
    var t := Reap(s, hold, now).1;
    if HasActiveOffer(s, hold) {
      var o := ActiveOffer(s, hold);
      var x := s.offers[o].entry;
      assert MatchesEntry(s, s.offers[o]) && ActiveOn(s, o, hold);
      forall p | ActiveOn(s, p, other) ensures s.offers[p].entry != x && !Behind(s, p, x) {
        HeldApart(s, hold, other, o, p, x);
      }
      forall p | ActiveOn(t, p, other) ensures t.offers[p].entry != x && !Behind(t, p, x) { assert ActiveOn(s, p, other); }
      assert OnlyTouches(s, t, x) by {
        forall p | p in s.offers && s.offers[p].entry != x ensures t.offers[p] == s.offers[p] {}
      }
      if Halts(s, other) { HaltsCarries(s, t, other, x); }
      if Halts(t, other) { HaltsCarries(t, s, other, x); }
    } else {
      if Halts(s, other) { SameQueueHalts(s, t, other); }
      if Halts(t, other) { SameQueueHalts(t, s, other); }
    }
  }

  lemma SameQueueHalts(s: Store, t: Store, hold: Id)
    requires t.offers == s.offers && t.entries == s.entries && Halts(s, hold)
    ensures Halts(t, hold)
  {
    var o, e :| ActiveOn(s, o, hold) && e in s.entries && NextInLine(s, o, e) && HasOfferOut(s, e);
    assert ActiveOn(t, o, hold) && NextInLine(t, o, e) && HasOfferOut(t, e);
  }

  // Who is next in line behind an offer wins the cascade over the range it frees.
  lemma NextInLineWins(s: Store, hold: Id, now: Instant, at: Instant)
    requires Sweepable(s) && hold in s.bookings && s.bookings[hold].ExpiredBy(now) && HasActiveOffer(s, hold)
    ensures var o := ActiveOffer(s, hold); var w := Winner(Reap(s, hold, now).1, s.bookings[hold].resource, s.offers[o].range, at);
      && (w.None? ==> forall e :: !Behind(s, o, e))
      && (w.Some? ==> NextInLine(s, o, w.value))
  {
    var o, t, resource := ActiveOffer(s, hold), Reap(s, hold, now).1, s.bookings[hold].resource;
    var freed := s.offers[o].range;
    assert ActiveOn(s, o, hold);
    ReapReleasesOne(s, hold, now);
    ReleasedRangeIsFree(s, t, hold);
    WinnerIsFirst(t, resource, freed, at);
    forall e | e in t.entries ensures Eligible(t.entries[e], resource, freed) <==> Behind(s, o, e) {}
    forall e | e in t.entries && Eligible(t.entries[e], resource, freed) ensures !Taken(t, resource, t.entries[e].range, at) {
      FreeInside(t, resource, freed, t.entries[e].range);
    }
    var w := Winner(t, resource, freed, at);
    if w.Some? {
      forall f | f in s.entries && f != w.value && Behind(s, o, f) ensures InLineBefore(s, w.value, f) {
        assert InLineBefore(t, w.value, f);
      }
    }
  }

  lemma FreeInside(s: Store, resource: Id, free: Range, inner: Range)
    requires SlotIsFree(s, resource, free) && free.Contains(inner)
    ensures SlotIsFree(s, resource, inner)
  {
    forall i | i in s.bookings ensures !s.bookings[i].Blocks(resource, inner) {
      assert !s.bookings[i].Blocks(resource, free);
    }
  }

  lemma OneNextInLine(s: Store, o: Id, e: Id, f: Id)
    requires o in s.offers && NextInLine(s, o, e) && NextInLine(s, o, f)
    ensures e == f
  {}

  // So the turn's own cascade fails exactly when the hold halts.
  lemma HaltsExactlyWhenWinnerHasOffer(s: Store, hold: Id, now: Instant, at: Instant)
    requires Sweepable(s) && hold in s.bookings && s.bookings[hold].ExpiredBy(now) && HasActiveOffer(s, hold)
    ensures var t := Reap(s, hold, now).1;
      var w := Winner(t, s.bookings[hold].resource, s.offers[ActiveOffer(s, hold)].range, at);
      Halts(s, hold) <==> w.Some? && HasOfferOut(t, w.value)
  {
    var o, t := ActiveOffer(s, hold), Reap(s, hold, now).1;
    var w := Winner(t, s.bookings[hold].resource, s.offers[o].range, at);
    assert ActiveOn(s, o, hold);
    NextInLineWins(s, hold, now, at);
    if w.Some? {
      assert HasOfferOut(t, w.value) <==> HasOfferOut(s, w.value) by { OffersOfOthersStay(s, hold, now, w.value); }
    }
    if Halts(s, hold) {
      var p, e :| ActiveOn(s, p, hold) && e in s.entries && NextInLine(s, p, e) && HasOfferOut(s, e);
      assert p == o && Behind(s, o, e);
      OneNextInLine(s, o, e, w.value);
    }
  }

  lemma OffersOfOthersStay(s: Store, hold: Id, now: Instant, e: Id)
    requires ReferencesSound(s) && HasActiveOffer(s, hold) && e != s.offers[ActiveOffer(s, hold)].entry
    ensures HasOfferOut(Reap(s, hold, now).1, e) <==> HasOfferOut(s, e)
  {
    var t := Reap(s, hold, now).1;
    forall o | o in s.offers && s.offers[o].entry == e ensures t.offers[o] == s.offers[o] {}
  }

  lemma SecondOfferLeavesHold(s: Store, entry: Id, window: int, at: Instant)
    requires Sweepable(s) && entry in s.entries && HasOfferOut(s, entry)
    requires SlotIsFree(s, s.entries[entry].resource, s.entries[entry].range)
    ensures var (outcome, t) := OfferTo(s, entry, window, at); outcome.Failed? && LeavesHold(s, t, window, at)
  {
    FreeSlotCanBeBooked(s, HoldRequest(s.entries[entry], window), at);
    SecondOfferIsRefused(s, entry, window, at);
  }

  // In a free range the cascade fails exactly when its first candidate has an offer out, and leaves a hold then. A
  // hold is the only change to the booking table in any case.
  lemma CascadeInFreeRange(s: Store, resource: Id, freed: Range, window: int, at: Instant)
    requires Sweepable(s) && SlotIsFree(s, resource, freed)
    ensures var (outcome, t) := Cascade(s, resource, freed, window, at); var w := Winner(s, resource, freed, at);
      && (outcome.Failed? <==> w.Some? && HasOfferOut(s, w.value))
      && (outcome.NobodyEligible? ==> t == s)
      && (outcome.Failed? ==> LeavesHold(s, t, window, at))
      && (outcome.OfferMade? ==>
            && outcome.entry in s.entries && s.entries[outcome.entry].status == Waiting && !HasOfferOut(s, outcome.entry)
            && Eligible(s.entries[outcome.entry], resource, freed)
            && OfferedTo(s, t, outcome.offer, outcome.entry, window, at))
  {
    var w := Winner(s, resource, freed, at);
    if w.Some? {
      FreeInside(s, resource, freed, s.entries[w.value].range);
      if HasOfferOut(s, w.value) { SecondOfferLeavesHold(s, w.value, window, at); } else { OfferInFreeSlot(s, w.value, window, at); }
    }
  }

  // A hold for somebody, and nothing else.
  ghost predicate LeavesHold(s: Store, t: Store, window: int, at: Instant) {
    && t.offers == s.offers && t.entries == s.entries && s.nextId !in s.bookings && s.nextId in t.bookings
    && t.bookings == s.bookings[s.nextId := t.bookings[s.nextId]]
    && t.bookings[s.nextId].IsHold() && t.bookings[s.nextId].expiresAt == Some(at + window)
  }

  // One hold, one offer on it, one entry offered; nothing else.
  ghost predicate OfferedTo(s: Store, t: Store, offer: Id, entry: Id, window: int, at: Instant)
    requires entry in s.entries
  {
    var e := s.entries[entry];
    && s.nextId !in s.bookings && offer !in s.offers
    && t.bookings == s.bookings[s.nextId := NewBooking(HoldRequest(e, window), at)]
    && t.offers == s.offers[offer := Offer(entry, s.nextId, e.resource, e.range, Active, at + window, at)]
    && t.entries == s.entries[entry := e.(status := Offered)]
  }

  lemma OfferInFreeSlot(s: Store, entry: Id, window: int, at: Instant)
    requires Sweepable(s) && entry in s.entries && s.entries[entry].status == Waiting && !HasOfferOut(s, entry)
    requires SlotIsFree(s, s.entries[entry].resource, s.entries[entry].range)
    ensures var (outcome, t) := OfferTo(s, entry, window, at);
      outcome.OfferMade? && outcome.entry == entry && OfferedTo(s, t, outcome.offer, entry, window, at)
  {
    FreeSlotCanBeBooked(s, HoldRequest(s.entries[entry], window), at);
    OfferToSucceeds(s, entry, window, at);
  }

  lemma OfferKeepsShape(s: Store, t: Store, offer: Id, entry: Id, window: int, at: Instant)
    requires Sweepable(s) && entry in s.entries && OfferedTo(s, t, offer, entry, window, at)
    ensures HeldAsOffered(t) && OffersMatch(t)
  {
    forall o | o in t.offers ensures MatchesEntry(t, t.offers[o]) {
      if o != offer { assert MatchesEntry(s, s.offers[o]); }
    }
  }

  lemma CascadeKeepsSweepable(s: Store, resource: Id, freed: Range, window: int, at: Instant)
    requires Sweepable(s) && SlotIsFree(s, resource, freed) && !Cascade(s, resource, freed, window, at).0.Failed?
    ensures Sweepable(Cascade(s, resource, freed, window, at).1)
  {
    Interleaving.CascadeKeepsSound(s, resource, freed, window, at);
    Interleaving.CascadeKeepsEntriesSound(s, resource, freed, window, at);
    CascadeInFreeRange(s, resource, freed, window, at);
    var (outcome, t) := Cascade(s, resource, freed, window, at);
    if outcome.OfferMade? { OfferKeepsShape(s, t, outcome.offer, outcome.entry, window, at); }
  }

  lemma OfferTouchesOne(s: Store, t: Store, offer: Id, entry: Id, window: int, at: Instant)
    requires IdsHandedOut(s) && entry in s.entries && OfferedTo(s, t, offer, entry, window, at)
    ensures OnlyTouches(s, t, entry)
    ensures forall p, hold | hold in s.bookings && ActiveOn(t, p, hold) :: ActiveOn(s, p, hold) && t.offers[p] == s.offers[p]
  {}

  // An entry that fits into a free range is behind no hold.
  lemma FreeApart(s: Store, resource: Id, freed: Range, entry: Id, other: Id)
    requires Sweepable(s) && SlotIsFree(s, resource, freed) && s.HoldsAt(other)
    requires entry in s.entries && Eligible(s.entries[entry], resource, freed) && !HasOfferOut(s, entry)
    ensures Apart(s, other, entry)
  {
    forall p | ActiveOn(s, p, other) ensures s.offers[p].entry != entry && !Behind(s, p, entry) {
      assert !s.bookings[other].Blocks(resource, freed);
    }
  }

  // Nor does an offer in a free range: the range of every hold lies elsewhere.
  lemma OfferKeepsHalts(s: Store, t: Store, resource: Id, freed: Range, offer: Id, entry: Id, window: int, at: Instant, other: Id)
    requires Sweepable(s) && SlotIsFree(s, resource, freed) && s.HoldsAt(other)
    requires entry in s.entries && Eligible(s.entries[entry], resource, freed) && !HasOfferOut(s, entry)
    requires OfferedTo(s, t, offer, entry, window, at)
    ensures Halts(t, other) <==> Halts(s, other)
  {
    FreeApart(s, resource, freed, entry, other);
    OfferTouchesOne(s, t, offer, entry, window, at);
    OfferedApart(s, t, other, entry);
    if Halts(s, other) { HaltsCarries(s, t, other, entry); }
    if Halts(t, other) { HaltsCarries(t, s, other, entry); }
  }

  lemma OfferedApart(s: Store, t: Store, hold: Id, entry: Id)
    requires Apart(s, hold, entry) && entry in s.entries && entry in t.entries && t.entries[entry].status == Offered
    requires forall p | ActiveOn(t, p, hold) :: ActiveOn(s, p, hold) && t.offers[p] == s.offers[p]
    ensures Apart(t, hold, entry)
  {}

  lemma CascadeKeepsHalts(s: Store, resource: Id, freed: Range, window: int, at: Instant, other: Id)
    requires Sweepable(s) && SlotIsFree(s, resource, freed) && s.HoldsAt(other)
    requires !Cascade(s, resource, freed, window, at).0.Failed?
    ensures Halts(Cascade(s, resource, freed, window, at).1, other) <==> Halts(s, other)
  {
    CascadeInFreeRange(s, resource, freed, window, at);
    var (outcome, t) := Cascade(s, resource, freed, window, at);
    if outcome.OfferMade? { OfferKeepsHalts(s, t, resource, freed, outcome.offer, outcome.entry, window, at, other); }
  }

  // ---------------------------------------------------------------- when nothing halts

  ghost predicate OffersBacked(s: Store) {
    forall o | o in s.offers && s.offers[o].status == Active :: s.HoldsAt(s.offers[o].hold)
  }

  // While every active offer has its hold, none halts: an offer to the next in line would have its hold in the range.
  lemma BackedOffersHaltNothing(s: Store, hold: Id)
    requires Sweepable(s) && OffersBacked(s) && s.HoldsAt(hold)
    ensures !Halts(s, hold)
  {
    forall o, e, p | ActiveOn(s, o, hold) && p in s.offers && s.offers[p].entry == e && s.offers[p].status == Active
      ensures !Behind(s, o, e)
    {
      assert MatchesEntry(s, s.offers[p]);
      if p != o && e in s.entries && e != s.offers[o].entry { HeldApart(s, s.offers[p].hold, hold, p, o, e); }
    }
  }

  // ---------------------------------------------------------------- the sweep so far

  // Every row there was at the start is as it was, except the holds already reclaimed; rows added since are
  // holds that run out after the sweep's `now`.
  ghost predicate SweptSoFar(s0: Store, s: Store, left: set<Id>, now: Instant) {
    && left <= ExpiredHolds(s0, now)
    && (forall i | i in s0.bookings ::
          i in s.bookings
          && s.bookings[i] == if i in ExpiredHolds(s0, now) - left
             then s0.bookings[i].CancelledRow(now, s0.bookings[i].cancelledBy, s0.bookings[i].reason)
             else s0.bookings[i])
    && (forall i | i in s.bookings && i !in s0.bookings ::
          s.bookings[i].IsHold() && s.bookings[i].expiresAt.Some? && s.bookings[i].expiresAt.value > now)
  }

  ghost function LapsedEntries(s: Store): set<Id> {
    set e | e in s.entries && s.entries[e].status == Lapsed
  }

  ghost function ExpiredOffers(s: Store): set<Id> {
    set o | o in s.offers && s.offers[o].status == Expired
  }

  lemma ReapAdvancesSweep(s0: Store, s: Store, left: set<Id>, hold: Id, now: Instant)
    requires SweptSoFar(s0, s, left, now) && Sweepable(s) && hold in left
    ensures hold in s.bookings && s.bookings[hold].ExpiredBy(now)
    ensures SweptSoFar(s0, Reap(s, hold, now).1, left - {hold}, now)
    ensures !Reap(s, hold, now).0.LostRace?
  {
    assert hold in s0.bookings;
    ReapReleasesOne(s, hold, now);
    var t := Reap(s, hold, now).1;
    assert t.bookings[hold] == s.bookings[hold].CancelledRow(now, s.bookings[hold].cancelledBy, s.bookings[hold].reason);
  }

  lemma NewHoldKeepsSweep(s0: Store, s: Store, t: Store, left: set<Id>, now: Instant, id: Id)
    requires SweptSoFar(s0, s, left, now) && id !in s.bookings && id in t.bookings && t.bookings == s.bookings[id := t.bookings[id]]
    requires t.bookings[id].IsHold() && t.bookings[id].expiresAt.Some? && t.bookings[id].expiresAt.value > now
    ensures SweptSoFar(s0, t, left, now)
  {}

  lemma ReapLapsesOne(s: Store, hold: Id, now: Instant)
    requires Sweepable(s) && QueueSound(s)
    ensures var (outcome, t) := Reap(s, hold, now);
      |LapsedEntries(t)| == |LapsedEntries(s)| + if outcome.ReclaimedOffer? then 1 else 0
  {
    var (outcome, t) := Reap(s, hold, now);
    if outcome.ReclaimedOffer? {
      var e := s.offers[ActiveOffer(s, hold)].entry;
      assert e !in LapsedEntries(s);
      assert LapsedEntries(t) == LapsedEntries(s) + {e};
    } else {
      assert LapsedEntries(t) == LapsedEntries(s);
    }
  }

  lemma ReapExpiresOne(s: Store, hold: Id, now: Instant)
    ensures var (outcome, t) := Reap(s, hold, now);
      |ExpiredOffers(t)| == |ExpiredOffers(s)| + if outcome.ReclaimedOffer? then 1 else 0
  {
    var (outcome, t) := Reap(s, hold, now);
    if outcome.ReclaimedOffer? {
      assert ExpiredOffers(t) == ExpiredOffers(s) + {ActiveOffer(s, hold)};
    } else {
      assert ExpiredOffers(t) == ExpiredOffers(s);
    }
  }

  lemma CascadeSettlesNone(s: Store, resource: Id, freed: Range, window: int, at: Instant)
    requires Sweepable(s) && SlotIsFree(s, resource, freed)
    ensures var t := Cascade(s, resource, freed, window, at).1;
      LapsedEntries(t) == LapsedEntries(s) && ExpiredOffers(t) == ExpiredOffers(s)
  {
    CascadeInFreeRange(s, resource, freed, window, at);
  }

  datatype Findings = Findings(holdsReclaimed: nat, cascadesTriggered: nat, entriesReturned: nat, completed: bool)

  // What is left halts as it did at the start, and nothing reclaimed so far did.
  ghost predicate HaltsAsAtStart(s0: Store, s: Store, left: set<Id>, now: Instant) {
    && (forall h | h in left :: s.HoldsAt(h) && (Halts(s, h) <==> Halts(s0, h)))
    && (forall h | h in ExpiredHolds(s0, now) - left :: !Halts(s0, h))
  }

  // Everything the sweep knows between two iterations.
  ghost predicate SweepState(s0: Store, s: Store, left: set<Id>, now: Instant, f: Findings) {
    && Sweepable(s)
    && SweptSoFar(s0, s, left, now)
    && HaltsAsAtStart(s0, s, left, now)
    && f.holdsReclaimed == |ExpiredHolds(s0, now)| - |left|
    && f.cascadesTriggered == |s.offers.Keys| - |s0.offers.Keys|
    && f.entriesReturned == |ExpiredOffers(s)| - |ExpiredOffers(s0)|
    && (QueueSound(s0) ==> QueueSound(s) && f.entriesReturned == |LapsedEntries(s)| - |LapsedEntries(s0)|)
  }

  // Within a turn, between reclaiming a hold and the cascade over its range.
  ghost predicate Reclaiming(s0: Store, s: Store, left: set<Id>, hold: Id, now: Instant, f: Findings) {
    && Sweepable(s)
    && SweptSoFar(s0, s, left, now)
    && hold in ExpiredHolds(s0, now) && hold !in left
    && (forall h | h in left :: s.HoldsAt(h) && (Halts(s, h) <==> Halts(s0, h)))
    && (forall h | h in ExpiredHolds(s0, now) - left && h != hold :: !Halts(s0, h))
    && f.holdsReclaimed == |ExpiredHolds(s0, now)| - |left|
    && f.cascadesTriggered == |s.offers.Keys| - |s0.offers.Keys|
    && f.entriesReturned == |ExpiredOffers(s)| - |ExpiredOffers(s0)|
    && (QueueSound(s0) ==> QueueSound(s) && f.entriesReturned == |LapsedEntries(s)| - |LapsedEntries(s0)|)
  }

  lemma ReapKeepsOthers(s0: Store, s: Store, left: set<Id>, hold: Id, now: Instant)
    requires Sweepable(s) && SweptSoFar(s0, s, left, now) && HaltsAsAtStart(s0, s, left, now) && hold in left
    ensures var t := Reap(s, hold, now).1;
      && (forall h | h in left - {hold} :: t.HoldsAt(h) && (Halts(t, h) <==> Halts(s0, h)))
      && (forall h | h in ExpiredHolds(s0, now) - (left - {hold}) && h != hold :: !Halts(s0, h))
  {
    ReapReleasesOne(s, hold, now);
    forall h | h in left - {hold} ensures Halts(Reap(s, hold, now).1, h) <==> Halts(s, h) {
      ReapKeepsHalts(s, hold, now, h);
    }
  }

  lemma ReclaimAdvances(s0: Store, s: Store, left: set<Id>, hold: Id, now: Instant, f: Findings)
    requires SweepState(s0, s, left, now, f) && hold in left
    ensures var (outcome, t) := Reap(s, hold, now);
      && !outcome.LostRace? && hold in s.bookings && s.bookings[hold].ExpiredBy(now)
      && Reclaiming(s0, t, left - {hold}, hold, now,
           f.(holdsReclaimed := f.holdsReclaimed + 1,
              entriesReturned := f.entriesReturned + if outcome.ReclaimedOffer? then 1 else 0))
  {
    ReapAdvancesSweep(s0, s, left, hold, now);
    ReapKeepsSweepable(s, hold, now);
    ReapKeepsOthers(s0, s, left, hold, now);
    ReapExpiresOne(s, hold, now);
    ReapTouchesOnlyStatus(s, hold, now);
    if QueueSound(s0) {
      ReapKeepsQueue(s, hold, now);
      ReapLapsesOne(s, hold, now);
    }
  }

  // A hold without an active offer sets off no cascade.
  lemma LoneHoldHaltsNothing(s0: Store, s: Store, left: set<Id>, hold: Id, now: Instant, f: Findings)
    requires SweepState(s0, s, left, now, f) && hold in left && !Reap(s, hold, now).0.ReclaimedOffer?
    ensures !Halts(s0, hold)
  {
    ReapAdvancesSweep(s0, s, left, hold, now);
    assert !HasActiveOffer(s, hold);
    forall o ensures !ActiveOn(s, o, hold) {}
  }

  lemma TurnEnds(s0: Store, s: Store, left: set<Id>, hold: Id, now: Instant, f: Findings)
    requires Reclaiming(s0, s, left, hold, now, f) && !Halts(s0, hold)
    ensures SweepState(s0, s, left, now, f)
  {}

  // The range a turn frees is free, and its cascade fails exactly when the hold halts.
  lemma CascadeFailsExactlyWhenHalts(s0: Store, s: Store, left: set<Id>, hold: Id, now: Instant, f: Findings, window: int, at: Instant)
    requires SweepState(s0, s, left, now, f) && hold in left && Reap(s, hold, now).0.ReclaimedOffer?
    ensures hold in s.bookings
    ensures var (outcome, t) := Reap(s, hold, now); var resource := s.bookings[hold].resource;
      && SlotIsFree(t, resource, outcome.freed)
      && (Cascade(t, resource, outcome.freed, window, at).0.Failed? <==> Halts(s0, hold))
  {
    ReapAdvancesSweep(s0, s, left, hold, now);
    ReapReleasesOne(s, hold, now);
    ReapKeepsSweepable(s, hold, now);
    ReleasedRangeIsFree(s, Reap(s, hold, now).1, hold);
    HaltsExactlyWhenWinnerHasOffer(s, hold, now, at);
    CascadeInFreeRange(Reap(s, hold, now).1, s.bookings[hold].resource, Reap(s, hold, now).0.freed, window, at);
  }

  lemma OfferAdvances(s0: Store, s: Store, t: Store, left: set<Id>, now: Instant, offer: Id, entry: Id, window: int, at: Instant)
    requires SweptSoFar(s0, s, left, now) && entry in s.entries && OfferedTo(s, t, offer, entry, window, at)
    requires now <= at && window > 0
    ensures SweptSoFar(s0, t, left, now) && |t.offers.Keys| == |s.offers.Keys| + 1
  {
    NewHoldKeepsSweep(s0, s, t, left, now, s.nextId);
    assert t.offers.Keys == s.offers.Keys + {offer};
  }

  lemma CascadeKeepsRows(s0: Store, s: Store, left: set<Id>, now: Instant, resource: Id, freed: Range, window: int, at: Instant)
    requires Sweepable(s) && SweptSoFar(s0, s, left, now) && SlotIsFree(s, resource, freed) && now <= at && window > 0
    ensures var (outcome, t) := Cascade(s, resource, freed, window, at);
      && SweptSoFar(s0, t, left, now)
      && |t.offers.Keys| == |s.offers.Keys| + if outcome.OfferMade? then 1 else 0
  {
    CascadeInFreeRange(s, resource, freed, window, at);
    var (outcome, t) := Cascade(s, resource, freed, window, at);
    if outcome.OfferMade? { OfferAdvances(s0, s, t, left, now, outcome.offer, outcome.entry, window, at); }
    if outcome.Failed? { NewHoldKeepsSweep(s0, s, t, left, now, s.nextId); }
  }

  lemma CascadeKeepsOthers(s: Store, left: set<Id>, resource: Id, freed: Range, window: int, at: Instant)
    requires Sweepable(s) && SlotIsFree(s, resource, freed) && (forall h | h in left :: s.HoldsAt(h))
    requires !Cascade(s, resource, freed, window, at).0.Failed?
    ensures var t := Cascade(s, resource, freed, window, at).1;
      forall h | h in left :: t.HoldsAt(h) && (Halts(t, h) <==> Halts(s, h))
  {
    CascadeInFreeRange(s, resource, freed, window, at);
    forall h | h in left ensures Halts(Cascade(s, resource, freed, window, at).1, h) <==> Halts(s, h) {
      CascadeKeepsHalts(s, resource, freed, window, at, h);
    }
  }

  // The cascade that follows adds at most one hold, which outlives the sweep, and never touches a hold still to come,
  // nor what it sets off.
  lemma CascadeAdvances(s0: Store, s: Store, left: set<Id>, hold: Id, now: Instant, f: Findings, resource: Id, freed: Range,
                        window: int, at: Instant)
    requires Reclaiming(s0, s, left, hold, now, f) && SlotIsFree(s, resource, freed) && now <= at && window > 0
    requires !Cascade(s, resource, freed, window, at).0.Failed?
    ensures var (outcome, t) := Cascade(s, resource, freed, window, at);
      Reclaiming(s0, t, left, hold, now, f.(cascadesTriggered := f.cascadesTriggered + if outcome.OfferMade? then 1 else 0))
  {
    CascadeKeepsRows(s0, s, left, now, resource, freed, window, at);
    CascadeKeepsSweepable(s, resource, freed, window, at);
    CascadeSettlesNone(s, resource, freed, window, at);
    CascadeKeepsOthers(s, left, resource, freed, window, at);
    if QueueSound(s0) { CascadeKeepsQueue(s, resource, freed, window, at); }
  }

  lemma SweepStarts(s: Store, now: Instant)
    requires Sweepable(s)
    ensures SweepState(s, s, ExpiredHolds(s, now), now, Findings(0, 0, 0, true))
  {}

  // ---------------------------------------------------------------- what a sweep of tables s0 leaves behind

  ghost predicate NothingHalts(s: Store, now: Instant) {
    forall h | h in ExpiredHolds(s, now) :: !Halts(s, h)
  }

  // Whether or not it completes.
  ghost predicate ConfirmedUntouched(s0: Store, s: Store) {
    && NoDoubleBooking(s)
    && (forall i | i in s0.bookings && s0.bookings[i].status == Confirmed :: i in s.bookings && s.bookings[i] == s0.bookings[i])
    && (forall i | i in s.bookings && s.bookings[i].status == Confirmed :: i in s0.bookings && s0.bookings[i] == s.bookings[i])
  }

  ghost predicate Swept(s0: Store, s: Store, now: Instant, f: Findings) {
    && ConfirmedUntouched(s0, s)
    && ExpiredHolds(s, now) == {}
    && f.holdsReclaimed == |ExpiredHolds(s0, now)|
    && f.cascadesTriggered == |s.offers.Keys| - |s0.offers.Keys|
    && f.entriesReturned == |ExpiredOffers(s)| - |ExpiredOffers(s0)|
    && (QueueSound(s0) ==> f.entriesReturned == |LapsedEntries(s)| - |LapsedEntries(s0)|)
  }

  // It ended in the turn of a hold that halts; every other hold that does is still there, expired.
  ghost predicate CutShort(s0: Store, s: Store, now: Instant, f: Findings) {
    && ConfirmedUntouched(s0, s)
    && f.holdsReclaimed == |ExpiredHolds(s0, now)| - |ExpiredHolds(s, now)|
    && f.cascadesTriggered == |s.offers.Keys| - |s0.offers.Keys|
    && exists hold | hold in ExpiredHolds(s0, now) ::
         && Halts(s0, hold) && hold !in ExpiredHolds(s, now)
         && forall h | h in ExpiredHolds(s0, now) && h != hold && Halts(s0, h) :: h in ExpiredHolds(s, now)
  }

  // After a turn: the sweep goes on, or has been cut short.
  ghost predicate TurnOver(s0: Store, s: Store, left: set<Id>, now: Instant, f: Findings) {
    if f.completed then SweepState(s0, s, left, now, f) else !NothingHalts(s0, now) && CutShort(s0, s, now, f)
  }

  lemma LeftIsExpired(s0: Store, s: Store, left: set<Id>, now: Instant)
    requires SweptSoFar(s0, s, left, now)
    ensures ExpiredHolds(s, now) == left
  {}

  lemma SweepEnds(s0: Store, s: Store, now: Instant, f: Findings)
    requires SweepState(s0, s, {}, now, f) && RowsWellShaped(s0)
    ensures NothingHalts(s0, now) && Swept(s0, s, now, f)
  {
    LeftIsExpired(s0, s, {}, now);
  }

  lemma RowsKeepConfirmed(s0: Store, s: Store, left: set<Id>, now: Instant)
    requires SweptSoFar(s0, s, left, now) && NoDoubleBooking(s)
    ensures ConfirmedUntouched(s0, s)
  {}

  lemma SweepIsCutShort(s0: Store, s: Store, left: set<Id>, hold: Id, now: Instant, f: Findings, resource: Id, freed: Range,
                        window: int, at: Instant)
    requires Reclaiming(s0, s, left, hold, now, f) && SlotIsFree(s, resource, freed) && now <= at && window > 0
    requires Cascade(s, resource, freed, window, at).0.Failed? && Halts(s0, hold)
    ensures !NothingHalts(s0, now) && CutShort(s0, Cascade(s, resource, freed, window, at).1, now, f)
  {
    var t := Cascade(s, resource, freed, window, at).1;
    CascadeKeepsRows(s0, s, left, now, resource, freed, window, at);
    CascadeKeepsConstraints(s, resource, freed, window, at);
    EndsInTurnOf(s0, s, t, left, hold, now, f);
  }

  lemma EndsInTurnOf(s0: Store, s: Store, t: Store, left: set<Id>, hold: Id, now: Instant, f: Findings)
    requires Reclaiming(s0, s, left, hold, now, f) && Halts(s0, hold)
    requires SweptSoFar(s0, t, left, now) && NoDoubleBooking(t) && |t.offers.Keys| == |s.offers.Keys|
    ensures !NothingHalts(s0, now) && CutShort(s0, t, now, f)
  {
    LeftIsExpired(s0, t, left, now);
    RowsKeepConfirmed(s0, t, left, now);
  }

  // What the constraints alone keep, whatever happened before the sweep.
  lemma ReapKeepsConstraints(s: Store, hold: Id, now: Instant)
    requires BookingsSound(s) && ReferencesSound(s) && EntriesSound(s)
    ensures var t := Reap(s, hold, now).1; BookingsSound(t) && ReferencesSound(t) && EntriesSound(t)
  {
    ReapKeepsRows(s, hold, now);
    ReapTouchesOnlyStatus(s, hold, now);
    ReapRevivesNobody(s, hold, now);
  }

  lemma ReapKeepsRows(s: Store, hold: Id, now: Instant)
    requires BookingsSound(s)
    ensures var t := Reap(s, hold, now).1; BookingsSound(t) && t.bookings.Keys == s.bookings.Keys
  {
    ReleaseKeepsBookingsSound(s, hold, now);
    var t := Reap(s, hold, now).1;
    assert t.bookings == s.bookings || t.bookings == ReleaseHold(s, hold, now).bookings;
  }

  lemma InsertKeepsConstraints(s: Store, entry: Id, hold: Id, resource: Id, range: Range, expiresAt: Instant, now: Instant)
    requires BookingsSound(s) && ReferencesSound(s)
    ensures var t := InsertOffer(s, entry, hold, resource, range, expiresAt, now).1; BookingsSound(t) && ReferencesSound(t)
  {}

  lemma MarkKeepsConstraints(s: Store, entry: Id)
    requires BookingsSound(s) && ReferencesSound(s)
    ensures var t := MarkOffered(s, entry).1; BookingsSound(t) && ReferencesSound(t)
  {
    assert MarkOffered(s, entry).1.entries.Keys == s.entries.Keys;
  }

  lemma OfferOnKeepsConstraints(s: Store, entry: Id, e: Entry, hold: Id, window: int, at: Instant)
    requires BookingsSound(s) && ReferencesSound(s)
    ensures var t := OfferOn(s, entry, e, hold, window, at).1; BookingsSound(t) && ReferencesSound(t)
  {
    InsertKeepsConstraints(s, entry, hold, e.resource, e.range, at + window, at);
    MarkKeepsConstraints(InsertOffer(s, entry, hold, e.resource, e.range, at + window, at).1, entry);
  }

  lemma OfferToKeepsConstraints(s: Store, entry: Id, window: int, at: Instant)
    requires BookingsSound(s) && ReferencesSound(s) && entry in s.entries
    ensures var t := OfferTo(s, entry, window, at).1; BookingsSound(t) && ReferencesSound(t)
  {
    var (held, s1) := Create(s, HoldRequest(s.entries[entry], window), at);
    CreateCommitsExactlyWhenSound(s, HoldRequest(s.entries[entry], window), at);
    if held.Done? { OfferOnKeepsConstraints(s1, entry, s.entries[entry], held.id, window, at); }
  }

  lemma CascadeKeepsConstraints(s: Store, resource: Id, freed: Range, window: int, at: Instant)
    requires BookingsSound(s) && ReferencesSound(s) && EntriesSound(s)
    ensures var t := Cascade(s, resource, freed, window, at).1; BookingsSound(t) && ReferencesSound(t) && EntriesSound(t)
  {
    var w := Winner(s, resource, freed, at);
    if w.Some? { OfferToKeepsConstraints(s, w.value, window, at); }
    Interleaving.CascadeKeepsEntriesSound(s, resource, freed, window, at);
  }

  // ---------------------------------------------------------------- a sweep as its transactions

  // One hold's turn; `at` is what the clock reads when its cascade begins.
  datatype Turn = Turn(hold: Id, at: Instant)

  // The reclaim, and then the cascade over what it freed on the hold's resource.
  ghost function AfterTurn(s: Store, turn: Turn, window: int, now: Instant): Store {
    var (reaped, t) := Reap(s, turn.hold, now);
    if reaped.ReclaimedOffer? then Cascade(t, s.bookings[turn.hold].resource, reaped.freed, window, turn.at).1 else t
  }

  ghost function AfterTurns(s: Store, turns: seq<Turn>, window: int, now: Instant): Store {
    if turns == [] then s
    else AfterTurn(AfterTurns(s, turns[..|turns| - 1], window, now), turns[|turns| - 1], window, now)
  }

  lemma OneMoreTurn(s: Store, turns: seq<Turn>, turn: Turn, window: int, now: Instant)
    ensures AfterTurns(s, turns + [turn], window, now) == AfterTurn(AfterTurns(s, turns, window, now), turn, window, now)
  {
    assert (turns + [turn])[..|turns|] == turns;
  }

  // A turn each for holds that had expired when the sweep began, those in `left` still to come.
  ghost predicate TurnsTaken(s: Store, turns: seq<Turn>, left: set<Id>, now: Instant) {
    && (forall h | h in ExpiredHolds(s, now) && h !in left :: exists k | 0 <= k < |turns| :: turns[k].hold == h)
    && (forall k | 0 <= k < |turns| :: turns[k].hold in ExpiredHolds(s, now) && turns[k].hold !in left && now <= turns[k].at)
    && (forall j, k | 0 <= j < k < |turns| :: turns[j].hold != turns[k].hold)
  }

  lemma TurnTaken(s: Store, turns: seq<Turn>, left: set<Id>, now: Instant, turn: Turn)
    requires TurnsTaken(s, turns, left, now) && turn.hold in left && left <= ExpiredHolds(s, now) && now <= turn.at
    ensures TurnsTaken(s, turns + [turn], left - {turn.hold}, now)
  {
    var more := turns + [turn];
    forall h | h in ExpiredHolds(s, now) && h !in left - {turn.hold} ensures exists k | 0 <= k < |more| :: more[k].hold == h {
      if h == turn.hold {
        assert more[|turns|].hold == h;
      } else {
        var k :| 0 <= k < |turns| && turns[k].hold == h;
        assert more[k].hold == h;
      }
    }
  }
}
