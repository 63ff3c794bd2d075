/** What deactivating a user leaves, in the columns of the rows alone. */
module OffboardingColumns {
  import opened Tables
  import opened Transactions
  import opened KeyOrder
  import opened Columns
  import opened SeriesTasks
  import opened BookingService
  import opened Offboarding

  // One-off, confirmed, and not begun.
  predicate Theirs(b: Booking, target: Id, now: Instant) {
    b.user == target && b.status == Confirmed && b.series.None? && now <= b.range.lo
  }

  predicate HasPolicy(policies: map<Id, OffboardingPolicy>, resource: Id, policy: OffboardingPolicy) {
    resource in policies && policies[resource] == policy
  }

  // This user was granted the resource before all others, the lower id deciding between two granted at once.
  ghost predicate FirstGranted(grants: map<Id, Grant>, resource: Id, user: Id) {
    exists g | g in grants ::
      && grants[g].resource == resource && grants[g].user == user
      && forall h | h in grants && grants[h].resource == resource && h != g ::
           grants[g].grantedAt < grants[h].grantedAt || (grants[g].grantedAt == grants[h].grantedAt && g < h)
  }

  lemma FirstGrantedIsEarliest(grants: map<Id, Grant>, resource: Id, user: Id)
    ensures FirstGranted(grants, resource, user) <==> ResourceAdminFor(grants, resource) == Some(user)
  {
    TransferGoesTo(grants, resource, user);
    forall g | g in grants
      ensures IsEarliestGrant(grants, resource, g) <==>
        && grants[g].resource == resource
        && forall h | h in grants && grants[h].resource == resource && h != g ::
             grants[g].grantedAt < grants[h].grantedAt || (grants[g].grantedAt == grants[h].grantedAt && g < h)
    {}
  }

  predicate OfferTo(s: Store, o: Id, target: Id) {
    o in s.offers && s.offers[o].status == Active && s.offers[o].entry in s.entries && s.entries[s.offers[o].entry].user == target
  }

  // What a booking becomes when the policy is to transfer, to cancel, or neither.
  ghost predicate SettledAs(grants: map<Id, Grant>, policies: map<Id, OffboardingPolicy>, b: Booking, after: Booking, actor: Id,
                            reason: string, now: Instant)
  {
    && (forall user | HasPolicy(policies, b.resource, TransferPolicy) && FirstGranted(grants, b.resource, user) ::
          after == b.(user := user))
    && (HasPolicy(policies, b.resource, TransferPolicy) && (forall g | g in grants :: grants[g].resource != b.resource) ==> after == b)
    && (HasPolicy(policies, b.resource, CancelAndNotify) ==> CancelledAs(after, b, now, Some(actor), Some(reason)))
    && (!HasPolicy(policies, b.resource, TransferPolicy) && !HasPolicy(policies, b.resource, CancelAndNotify) ==> after == b)
  }

  lemma SettledInColumns(grants: map<Id, Grant>, policies: map<Id, OffboardingPolicy>, b: Booking, actor: Id, reason: string, now: Instant)
    ensures SettledAs(grants, policies, b, Settled(b, FateOf(grants, policies, b), actor, reason, now), actor, reason, now)
  {
    forall user: Id ensures FirstGranted(grants, b.resource, user) <==> ResourceAdminFor(grants, b.resource) == Some(user) {
      FirstGrantedIsEarliest(grants, b.resource, user);
    }
  }

  // Every booking: theirs to settle by the resource's policy; a hold of an offer of theirs, which is cancelled; or
  // untouched.
  lemma BookingsInColumns(s: Store, grants: map<Id, Grant>, policies: map<Id, OffboardingPolicy>, target: Id, actor: Id,
                          reason: string, now: Instant, i: Id)
    requires i in s.bookings
    ensures var b, t := s.bookings[i], Offboarded(s, grants, policies, target, actor, reason, now);
      && t.bookings.Keys == s.bookings.Keys
      && (Theirs(b, target, now) ==> SettledAs(grants, policies, b, t.bookings[i], actor, reason, now))
      && (!Theirs(b, target, now) ==>
            if b.status == Held && exists o :: OfferTo(s, o, target) && s.offers[o].hold == i
            then CancelledAs(t.bookings[i], b, now, b.cancelledBy, b.reason) else t.bookings[i] == b)
  {
    BookingsAfterwards(s, grants, policies, target, actor, reason, now, i);
    SettledInColumns(grants, policies, s.bookings[i], actor, reason, now);
    HoldsOfOffers(s, target, i);
    assert Concerns(s.bookings[i], target, now) == Theirs(s.bookings[i], target, now);
  }

  lemma HoldsOfOffers(s: Store, target: Id, i: Id)
    ensures HoldsFor(s.offers, ActiveOffers(s, target), i) <==> exists o :: OfferTo(s, o, target) && s.offers[o].hold == i
  {
    forall o ensures o in ActiveOffers(s, target) <==> OfferTo(s, o, target) {}
  }

  // Their active offers are declined, and no other offer changes.
  lemma OffersInColumns(s: Store, grants: map<Id, Grant>, policies: map<Id, OffboardingPolicy>, target: Id, actor: Id,
                        reason: string, now: Instant, o: Id)
    requires o in s.offers
    ensures var t := Offboarded(s, grants, policies, target, actor, reason, now);
      t.offers.Keys == s.offers.Keys && t.offers[o] == if OfferTo(s, o, target) then s.offers[o].(status := Declined) else s.offers[o]
  {
    SettlingLeavesTheQueue(s, grants, policies, target, actor, reason, now);
  }

  // Their entries with an offer lapse, those still waiting are withdrawn, and no other entry changes.
  lemma EntriesInColumns(s: Store, grants: map<Id, Grant>, policies: map<Id, OffboardingPolicy>, target: Id, actor: Id,
                         reason: string, now: Instant, e: Id)
    requires e in s.entries
    ensures var w, t := s.entries[e], Offboarded(s, grants, policies, target, actor, reason, now);
      && t.entries.Keys == s.entries.Keys
      && t.entries[e] ==
           if exists o :: OfferTo(s, o, target) && s.offers[o].entry == e then w.(status := Lapsed)
           else if w.user == target && w.status == Waiting then w.(status := Withdrawn)
           else w
  {
    SettlingLeavesTheQueue(s, grants, policies, target, actor, reason, now);
    ReleasedThenWithdrawn(AfterBookings(s, grants, policies, target, actor, reason, now), target, now, e);
  }

  lemma ReleasedThenWithdrawn(s: Store, target: Id, now: Instant, e: Id)
    requires e in s.entries
    ensures var w, t := s.entries[e], AfterEntries(AfterOffers(s, target, now), target);
      && t.entries.Keys == s.entries.Keys
      && t.entries[e] ==
           if exists o :: OfferTo(s, o, target) && s.offers[o].entry == e then w.(status := Lapsed)
           else if w.user == target && w.status == Waiting then w.(status := Withdrawn)
           else w
  {
    forall o ensures o in ActiveOffers(s, target) <==> OfferTo(s, o, target) {}
    assert WaitsFor(s.offers, ActiveOffers(s, target), e) <==> exists o :: OfferTo(s, o, target) && s.offers[o].entry == e;
  }

  ghost predicate Administered(grants: map<Id, Grant>, resource: Id) {
    exists g | g in grants :: grants[g].resource == resource
  }

  ghost function TheirBookings(s: Store, target: Id, now: Instant): set<Id> {
    set i | i in s.bookings && Theirs(s.bookings[i], target, now)
  }

  ghost function ToCancel(s: Store, policies: map<Id, OffboardingPolicy>, target: Id, now: Instant): set<Id> {
    set i | i in TheirBookings(s, target, now) && HasPolicy(policies, s.bookings[i].resource, CancelAndNotify)
  }

  ghost function ToTransfer(s: Store, grants: map<Id, Grant>, policies: map<Id, OffboardingPolicy>, target: Id, now: Instant): set<Id> {
    set i | i in TheirBookings(s, target, now) && HasPolicy(policies, s.bookings[i].resource, TransferPolicy)
            && Administered(grants, s.bookings[i].resource)
  }

  ghost function OffersToThem(s: Store, target: Id): set<Id> {
    set o | o in s.offers && OfferTo(s, o, target)
  }

  ghost function ToWithdraw(s: Store, target: Id): set<Id> {
    set e | e in s.entries && s.entries[e].user == target && s.entries[e].status == Waiting
            && !exists o :: OfferTo(s, o, target) && s.offers[o].entry == e
  }

  // The counters: bookings given to somebody, bookings cancelled, the rest of them, the active offers released, and the
  // entries withdrawn.
  lemma CountsInColumns(c: Counts, s: Store, grants: map<Id, Grant>, policies: map<Id, OffboardingPolicy>, target: Id, now: Instant)
    requires Counted(c, s, grants, policies, target, now)
    ensures c.cancelled == |ToCancel(s, policies, target, now)|
    ensures c.transferred == |ToTransfer(s, grants, policies, target, now)|
    ensures c.transferred + c.cancelled + c.retained == |TheirBookings(s, target, now)|
    ensures c.offersReleased == |OffersToThem(s, target)| && c.entriesCancelled == |ToWithdraw(s, target)|
  {
    StillWaiting(s, target, now);
    CancelledAmong(s, grants, policies, target, now);
    TransferredAmong(s, grants, policies, target, now);
    assert ActiveOffers(s, target) == OffersToThem(s, target);
    CountsAddUp(c, s, grants, policies, target, now);
  }

  lemma StillWaiting(s: Store, target: Id, now: Instant)
    ensures WaitingEntries(AfterOffers(s, target, now), target) == ToWithdraw(s, target)
  {
    forall o ensures o in ActiveOffers(s, target) <==> OfferTo(s, o, target) {}
    forall e ensures WaitsFor(s.offers, ActiveOffers(s, target), e) <==> exists o :: OfferTo(s, o, target) && s.offers[o].entry == e {}
  }

  lemma CancelledAmong(s: Store, grants: map<Id, Grant>, policies: map<Id, OffboardingPolicy>, target: Id, now: Instant)
    ensures ConcernedIds(s.bookings, target, now) == TheirBookings(s, target, now)
    ensures Among(Fates(s.bookings, grants, policies), ConcernedIds(s.bookings, target, now), (f: Fate) => f.CancelledByPolicy?)
      == ToCancel(s, policies, target, now)
  {}

  lemma TransferredAmong(s: Store, grants: map<Id, Grant>, policies: map<Id, OffboardingPolicy>, target: Id, now: Instant)
    ensures Among(Fates(s.bookings, grants, policies), ConcernedIds(s.bookings, target, now), (f: Fate) => f.Transferred?)
      == ToTransfer(s, grants, policies, target, now)
  {}

  ghost function ToCome(rows: map<Id, Booking>, series: Id, now: Instant): set<Id> {
    set i | i in rows && rows[i].series == Some(series) && rows[i].status == Confirmed && now <= rows[i].range.lo
  }

  // The series flagged are the active ones of the user, each with the number of its confirmed bookings to come.
  lemma FlaggedInColumns(series: map<Id, SeriesRow>, rows: map<Id, Booking>, target: Id, now: Instant, id: Id)
    ensures id in Flagged(series, rows, target, now) <==> id in series && series[id].owner == target && series[id].active
    ensures id in Flagged(series, rows, target, now) ==> Flagged(series, rows, target, now)[id] == |ToCome(rows, id, now)|
  {
    assert UpcomingIds(rows, id, now) == ToCome(rows, id, now);
  }
}
