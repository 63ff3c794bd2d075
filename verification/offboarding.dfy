/** Deactivating a user: their bookings, offers and waitlist entries are settled in one transaction, run alone. */
module Offboarding {
  import opened Tables
  import opened Transactions
  import opened KeyOrder
  import opened Queue
  import opened BookingService
  import opened WaitlistService
  import opened SeriesTasks

  datatype UserStatus = ActiveUser | Deactivated

  datatype Grant = Grant(resource: Id, user: Id, grantedAt: Instant)

  datatype OffboardingPolicy = TransferPolicy | CancelAndNotify | Retain

  class Directory {
    var users: map<Id, UserStatus>
    var grants: map<Id, Grant>
    var policies: map<Id, OffboardingPolicy>

    constructor ()
      ensures users == map[] && grants == map[] && policies == map[]
    {
      users, grants, policies := map[], map[], map[];
    }
  }

  function GrantKeys(grants: map<Id, Grant>, resource: Id): set<Key> {
    set g | g in grants && grants[g].resource == resource :: Key(grants[g].grantedAt, g)
  }

  ghost predicate IsEarliestGrant(grants: map<Id, Grant>, resource: Id, g: Id)
    requires g in grants
  {
    && grants[g].resource == resource
    && forall h | h in grants && grants[h].resource == resource && h != g ::
         Before(Key(grants[g].grantedAt, g), Key(grants[h].grantedAt, h))
  }

  // The administrator who has been granted the resource longest, by (granted_at, id).
  function ResourceAdminFor(grants: map<Id, Grant>, resource: Id): (r: Option<Id>)
    ensures r.None? <==> forall g | g in grants :: grants[g].resource != resource
    ensures r.Some? ==> exists g | g in grants :: IsEarliestGrant(grants, resource, g) && grants[g].user == r.value
  {
    var keys := GrantKeys(grants, resource);
    if keys == {} then
      assert forall g | g in grants && grants[g].resource == resource :: Key(grants[g].grantedAt, g) in keys;
      None
    else
      var first := Least(keys);
      assert forall h | h in grants && grants[h].resource == resource :: Key(grants[h].grantedAt, h) in keys;
      assert first.minor in grants && first == Key(grants[first.minor].grantedAt, first.minor);
      assert IsEarliestGrant(grants, resource, first.minor);
      Some(grants[first.minor].user)
  }

  // ---------------------------------------------------------------- bookings

  datatype Fate = Transferred(to: Id) | CancelledByPolicy | Retained

  function PolicyOf(policies: map<Id, OffboardingPolicy>, resource: Id): OffboardingPolicy {
    if resource in policies then policies[resource] else Retain
  }

  function FateOf(grants: map<Id, Grant>, policies: map<Id, OffboardingPolicy>, b: Booking): Fate {
    match PolicyOf(policies, b.resource)
    case TransferPolicy =>
      var admin := ResourceAdminFor(grants, b.resource);
      if admin.Some? then Transferred(admin.value) else Retained
    case CancelAndNotify => CancelledByPolicy
    case Retain => Retained
  }

  // One-off, confirmed, and still to come.
  predicate Concerns(b: Booking, target: Id, now: Instant) {
    b.user == target && b.status == Confirmed && b.series.None? && b.range.lo >= now
  }

  function ConcernedIds(rows: map<Id, Booking>, target: Id, now: Instant): set<Id> {
    set i | i in rows && Concerns(rows[i], target, now)
  }

  function Settled(b: Booking, fate: Fate, actor: Id, reason: string, now: Instant): Booking {
    match fate
    case Transferred(to) => b.(user := to)
    case CancelledByPolicy => b.CancelledRow(now, Some(actor), Some(reason))
    case Retained => b
  }

  function BookingsSettled(s: Store, fates: map<Id, Fate>, done: set<Id>, actor: Id, reason: string, now: Instant): Store {
    s.(bookings := map i | i in s.bookings ::
      if i in done && i in fates then Settled(s.bookings[i], fates[i], actor, reason, now) else s.bookings[i])
  }

  function Fates(rows: map<Id, Booking>, grants: map<Id, Grant>, policies: map<Id, OffboardingPolicy>): map<Id, Fate> {
    map i | i in rows :: FateOf(grants, policies, rows[i])
  }

  function Among(fates: map<Id, Fate>, ids: set<Id>, which: Fate -> bool): set<Id> {
    set i | i in ids && i in fates && which(fates[i])
  }

  // ---------------------------------------------------------------- offers and entries

  function ActiveOffers(s: Store, target: Id): set<Id> {
    set o | o in s.offers && s.offers[o].status == Active && s.offers[o].entry in s.entries
            && s.entries[s.offers[o].entry].user == target
  }

  predicate HoldsFor(offers: map<Id, Offer>, done: set<Id>, i: Id) {
    exists o | o in done :: o in offers && offers[o].hold == i
  }

  predicate WaitsFor(offers: map<Id, Offer>, done: set<Id>, e: Id) {
    exists o | o in done :: o in offers && offers[o].entry == e
  }

  function HoldsReleased(s: Store, done: set<Id>, now: Instant): map<Id, Booking> {
    map i | i in s.bookings ::
      if s.bookings[i].IsHold() && HoldsFor(s.offers, done, i)
      then s.bookings[i].CancelledRow(now, s.bookings[i].cancelledBy, s.bookings[i].reason) else s.bookings[i]
  }

  function OffersDeclined(s: Store, done: set<Id>): map<Id, Offer> {
    map o | o in s.offers :: if o in done then s.offers[o].(status := Declined) else s.offers[o]
  }

  function EntriesLapsed(s: Store, done: set<Id>): map<Id, Entry> {
    map e | e in s.entries :: if WaitsFor(s.offers, done, e) then s.entries[e].(status := Lapsed) else s.entries[e]
  }

  // Every offer in `done` declined, its hold released, its entry lapsed.
  function OffersReleased(s: Store, done: set<Id>, now: Instant): Store {
    s.(bookings := HoldsReleased(s, done, now), offers := OffersDeclined(s, done), entries := EntriesLapsed(s, done))
  }

  function WaitingEntries(s: Store, target: Id): set<Id> {
    set e | e in s.entries && s.entries[e].user == target && s.entries[e].status == Waiting
  }

  function EntriesWithdrawn(s: Store, done: set<Id>): Store {
    s.(entries := map e | e in s.entries :: if e in done then s.entries[e].(status := Withdrawn) else s.entries[e])
  }

  // ---------------------------------------------------------------- the loops

  datatype Counts = Counts(transferred: nat, cancelled: nat, retained: nat, entriesCancelled: nat, offersReleased: nat)

  lemma OneMoves(done: set<Id>, pending: set<Id>, i: Id)
    requires i in pending && done !! pending
    ensures (done + {i}) + (pending - {i}) == done + pending && (done + {i}) !! (pending - {i})
    ensures |done + {i}| == |done| + 1
  {}

  method SettleBookings(db: Database, dir: Directory, target: Id, actor: Id, reason: string, now: Instant)
    returns (transferred: nat, cancelled: nat, retained: nat)
    modifies db`bookings
    ensures var s := old(db.Snapshot()); var fates := Fates(s.bookings, dir.grants, dir.policies);
      var all := ConcernedIds(s.bookings, target, now);
      && db.Snapshot() == BookingsSettled(s, fates, all, actor, reason, now)
      && transferred == |Among(fates, all, (f: Fate) => f.Transferred?)|
      && cancelled == |Among(fates, all, (f: Fate) => f.CancelledByPolicy?)|
      && retained == |Among(fates, all, (f: Fate) => f.Retained?)|
  {
    ghost var s := db.Snapshot();
    ghost var fates := Fates(s.bookings, dir.grants, dir.policies);
    var pending := ConcernedIds(db.bookings, target, now);
    ghost var all, done := pending, {};
    transferred, cancelled, retained := 0, 0, 0;
    assert all == ConcernedIds(s.bookings, target, now);
    while pending != {}
      invariant done + pending == all && done !! pending
      invariant db.Snapshot() == BookingsSettled(s, fates, done, actor, reason, now)
      invariant transferred == |Among(fates, done, (f: Fate) => f.Transferred?)|
      invariant cancelled == |Among(fates, done, (f: Fate) => f.CancelledByPolicy?)|
      invariant retained == |Among(fates, done, (f: Fate) => f.Retained?)|
    {
      var i :| i in pending;
      var moved, dropped := SettleBooking(db, dir, i, actor, reason, now, s, fates, done);
      OneMoreFate(fates, done, i, (f: Fate) => f.Transferred?);
      OneMoreFate(fates, done, i, (f: Fate) => f.CancelledByPolicy?);
      OneMoreFate(fates, done, i, (f: Fate) => f.Retained?);
      transferred := transferred + if moved then 1 else 0;
      cancelled := cancelled + if dropped then 1 else 0;
      retained := retained + if moved || dropped then 0 else 1;
      OneMoves(done, pending, i);
      pending, done := pending - {i}, done + {i};
    }
    assert done == all;
  }

  lemma OneMoreFate(fates: map<Id, Fate>, done: set<Id>, i: Id, which: Fate -> bool)
    requires i !in done && i in fates
    ensures |Among(fates, done + {i}, which)| == |Among(fates, done, which)| + if which(fates[i]) then 1 else 0
  {
    if which(fates[i]) {
      assert Among(fates, done + {i}, which) == Among(fates, done, which) + {i};
    } else {
      assert Among(fates, done + {i}, which) == Among(fates, done, which);
    }
  }

  // One booking, by the policy of its resource.
  method SettleBooking(db: Database, dir: Directory, i: Id, actor: Id, reason: string, now: Instant,
                       ghost s: Store, ghost fates: map<Id, Fate>, ghost done: set<Id>)
    returns (moved: bool, dropped: bool)
    requires db.Snapshot() == BookingsSettled(s, fates, done, actor, reason, now)
    requires i in s.bookings && i !in done && s.bookings[i].status == Confirmed
    requires i in fates && fates[i] == FateOf(dir.grants, dir.policies, s.bookings[i])
    modifies db`bookings
    ensures db.Snapshot() == BookingsSettled(s, fates, done + {i}, actor, reason, now)
    ensures moved == fates[i].Transferred? && dropped == fates[i].CancelledByPolicy?
  {
    var booking := db.bookings[i];
    var policy := PolicyOf(dir.policies, booking.resource);
    moved, dropped := false, false;
    if policy == TransferPolicy {
      var owner := ResourceAdminFor(dir.grants, booking.resource);
      if owner.Some? {
        TransferBookingOwnership(db, i, owner.value);
        moved := true;
      }
    } else if policy == CancelAndNotify {
      var outcome := CancelBooking(db, i, actor, Some(reason), now);
      dropped := true;
    }
    assert db.bookings == BookingsSettled(s, fates, done + {i}, actor, reason, now).bookings;
  }

  method ReleaseOffers(db: Database, target: Id, now: Instant) returns (released: nat)
    modifies db`bookings, db`offers, db`entries
    ensures var s := old(db.Snapshot());
      db.Snapshot() == OffersReleased(s, ActiveOffers(s, target), now) && released == |ActiveOffers(s, target)|
  {
    ghost var s := db.Snapshot();
    var pending := set o | o in db.offers && db.offers[o].status == Active && db.offers[o].entry in db.entries
                           && db.entries[db.offers[o].entry].user == target;
    ghost var all, done := pending, {};
    released := 0;
    assert all == ActiveOffers(s, target);
    NothingReleased(s, now);
    while pending != {}
      invariant done + pending == all && done !! pending && released == |done|
      invariant db.Snapshot() == OffersReleased(s, done, now)
    {
      var o :| o in pending;
      OfferReleased(s, done, o, now);
      var outcome := DeclineOffer(db, o, now);
      released := released + 1;
      OneMoves(done, pending, o);
      pending, done := pending - {o}, done + {o};
    }
    assert done == all;
  }

  lemma OneMoreOffer(offers: map<Id, Offer>, done: set<Id>, o: Id)
    requires o in offers
    ensures forall i: Id :: HoldsFor(offers, done + {o}, i) <==> HoldsFor(offers, done, i) || i == offers[o].hold
    ensures forall e: Id :: WaitsFor(offers, done + {o}, e) <==> WaitsFor(offers, done, e) || e == offers[o].entry
  {
    assert o in done + {o};
  }

  lemma HoldReleased(s: Store, done: set<Id>, o: Id, now: Instant)
    requires o in s.offers
    ensures ReleaseHold(s.(bookings := HoldsReleased(s, done, now)), s.offers[o].hold, now).bookings == HoldsReleased(s, done + {o}, now)
  {
    OneMoreOffer(s.offers, done, o);
  }

  lemma EntryLapsed(s: Store, done: set<Id>, o: Id)
    requires o in s.offers
    ensures SetEntry(s.(entries := EntriesLapsed(s, done)), s.offers[o].entry, Lapsed).entries == EntriesLapsed(s, done + {o})
  {
    OneMoreOffer(s.offers, done, o);
  }

  lemma OfferReleased(s: Store, done: set<Id>, o: Id, now: Instant)
    requires o in s.offers && s.offers[o].status == Active && o !in done
    ensures Decline(OffersReleased(s, done, now), o, now).0.Freed?
    ensures Decline(OffersReleased(s, done, now), o, now).1 == OffersReleased(s, done + {o}, now)
  {
    var t, u := OffersReleased(s, done, now), OffersReleased(s, done + {o}, now);
    var v := Decline(t, o, now).1;
    HoldReleased(s, done, o, now);
    EntryLapsed(s, done, o);
    assert v.offers == u.offers;
    assert v.bookings == ReleaseHold(s.(bookings := HoldsReleased(s, done, now)), s.offers[o].hold, now).bookings;
    assert v.entries == SetEntry(s.(entries := EntriesLapsed(s, done)), s.offers[o].entry, Lapsed).entries;
  }

  lemma NothingReleased(s: Store, now: Instant)
    ensures OffersReleased(s, {}, now) == s
  {
    assert HoldsReleased(s, {}, now) == s.bookings && EntriesLapsed(s, {}) == s.entries && OffersDeclined(s, {}) == s.offers;
  }

  method WithdrawEntries(db: Database, target: Id) returns (withdrawn: nat)
    modifies db`entries
    ensures var s := old(db.Snapshot());
      db.Snapshot() == EntriesWithdrawn(s, WaitingEntries(s, target)) && withdrawn == |WaitingEntries(s, target)|
  {
    ghost var s := db.Snapshot();
    var pending := set e | e in db.entries && db.entries[e].user == target && db.entries[e].status == Waiting;
    ghost var all, done := pending, {};
    withdrawn := 0;
    assert all == WaitingEntries(s, target);
    assert EntriesWithdrawn(s, {}) == s;
    while pending != {}
      invariant done + pending == all && done !! pending && withdrawn == |done|
      invariant db.Snapshot() == EntriesWithdrawn(s, done)
    {
      var e :| e in pending;
      var already := CancelWaitlistEntry(db, e);
      assert db.entries == EntriesWithdrawn(s, done + {e}).entries;
      withdrawn := withdrawn + 1;
      OneMoves(done, pending, e);
      pending, done := pending - {e}, done + {e};
    }
    assert done == all;
  }

  // The active series of the target, each with the number of its bookings still to come.
  function Flagged(series: map<Id, SeriesRow>, rows: map<Id, Booking>, target: Id, now: Instant): map<Id, nat> {
    map id | id in series && series[id].owner == target && series[id].active :: |UpcomingIds(rows, id, now)|
  }

  // ---------------------------------------------------------------- the whole

  function AfterBookings(s: Store, grants: map<Id, Grant>, policies: map<Id, OffboardingPolicy>, target: Id, actor: Id,
                         reason: string, now: Instant): Store
  {
    BookingsSettled(s, Fates(s.bookings, grants, policies), ConcernedIds(s.bookings, target, now), actor, reason, now)
  }

  function AfterOffers(s: Store, target: Id, now: Instant): Store {
    OffersReleased(s, ActiveOffers(s, target), now)
  }

  function AfterEntries(s: Store, target: Id): Store {
    EntriesWithdrawn(s, WaitingEntries(s, target))
  }

  function Offboarded(s: Store, grants: map<Id, Grant>, policies: map<Id, OffboardingPolicy>, target: Id, actor: Id,
                      reason: string, now: Instant): Store
  {
    AfterEntries(AfterOffers(AfterBookings(s, grants, policies, target, actor, reason, now), target, now), target)
  }

  const NOTHING_DONE := Counts(0, 0, 0, 0, 0)

  // The counters, from the tables before.
  ghost predicate Counted(c: Counts, s: Store, grants: map<Id, Grant>, policies: map<Id, OffboardingPolicy>, target: Id, now: Instant) {
    var fates, all := Fates(s.bookings, grants, policies), ConcernedIds(s.bookings, target, now);
    && c.transferred == |Among(fates, all, (f: Fate) => f.Transferred?)|
    && c.cancelled == |Among(fates, all, (f: Fate) => f.CancelledByPolicy?)|
    && c.retained == |Among(fates, all, (f: Fate) => f.Retained?)|
    && c.offersReleased == |ActiveOffers(s, target)|
    && c.entriesCancelled == |WaitingEntries(AfterOffers(s, target, now), target)|
  }

  // Only the first deactivation does anything. `dir` holds the user's status; the guard decides.
  method DeactivateUser(db: Database, dir: Directory, table: SeriesTable, target: Id, actor: Id, reason: string, now: Instant)
    returns (c: Counts, flagged: map<Id, nat>)
    requires target in dir.users
    modifies db`bookings, db`offers, db`entries, dir`users
    ensures dir.users == old(dir.users)[target := Deactivated]
    ensures old(dir.users)[target].Deactivated? ==> db.Snapshot() == old(db.Snapshot()) && c == NOTHING_DONE && flagged == map[]
    ensures old(dir.users)[target].ActiveUser? ==>
      && db.Snapshot() == Offboarded(old(db.Snapshot()), dir.grants, dir.policies, target, actor, reason, now)
      && Counted(c, old(db.Snapshot()), dir.grants, dir.policies, target, now)
      && flagged == Flagged(table.rows, db.bookings, target, now)
  {
    if dir.users[target] != ActiveUser {
      assert dir.users == dir.users[target := Deactivated];
      return NOTHING_DONE, map[];
    }
    dir.users := dir.users[target := Deactivated];
    ghost var s := db.Snapshot();
    var transferred, cancelled, retained := SettleBookings(db, dir, target, actor, reason, now);
    SettlingLeavesTheQueue(s, dir.grants, dir.policies, target, actor, reason, now);
    var released := ReleaseOffers(db, target, now);
    var withdrawn := WithdrawEntries(db, target);
    c := Counts(transferred, cancelled, retained, withdrawn, released);
    flagged := FlagSeries(db, table, target, now);
  }

  lemma SettlingLeavesTheQueue(s: Store, grants: map<Id, Grant>, policies: map<Id, OffboardingPolicy>, target: Id, actor: Id,
                               reason: string, now: Instant)
    ensures var t := AfterBookings(s, grants, policies, target, actor, reason, now);
      && ActiveOffers(t, target) == ActiveOffers(s, target)
      && WaitingEntries(AfterOffers(t, target, now), target) == WaitingEntries(AfterOffers(s, target, now), target)
  {
    var t := AfterBookings(s, grants, policies, target, actor, reason, now);
    assert EntriesLapsed(t, ActiveOffers(t, target)) == EntriesLapsed(s, ActiveOffers(s, target));
  }

  function Numbered(rows: map<Id, Booking>, ids: set<Id>, now: Instant): map<Id, nat> {
    map id | id in ids :: |UpcomingIds(rows, id, now)|
  }

  lemma OneFlagged(rows: map<Id, Booking>, done: set<Id>, id: Id, now: Instant)
    ensures Numbered(rows, done + {id}, now) == Numbered(rows, done, now)[id := |UpcomingIds(rows, id, now)|]
  {}

  method FlagSeries(db: Database, table: SeriesTable, target: Id, now: Instant) returns (flagged: map<Id, nat>)
    ensures flagged == Flagged(table.rows, db.bookings, target, now)
  {
    var pending := set id | id in table.rows && table.rows[id].owner == target && table.rows[id].active;
    ghost var all, done := pending, {};
    flagged := map[];
    while pending != {}
      invariant done + pending == all && done !! pending
      invariant flagged == Numbered(db.bookings, done, now)
    {
      var id :| id in pending;
      OneFlagged(db.bookings, done, id, now);
      flagged := flagged[id := |UpcomingIds(db.bookings, id, now)|];
      OneMoves(done, pending, id);
      pending, done := pending - {id}, done + {id};
    }
    assert done == all;
  }

  // ---------------------------------------------------------------- what it achieves

  lemma PartsAddUp(a: set<Id>, b: set<Id>, c: set<Id>, all: set<Id>)
    requires a <= all && b <= all && c <= all && a !! b && a !! c && b !! c
    requires forall i | i in all :: i in a || i in b || i in c
    ensures |a| + |b| + |c| == |all|
  {
    assert a + b + c == all;
  }

  // The three counters account for every booking concerned.
  lemma CountsAddUp(c: Counts, s: Store, grants: map<Id, Grant>, policies: map<Id, OffboardingPolicy>, target: Id, now: Instant)
    requires Counted(c, s, grants, policies, target, now)
    ensures c.transferred + c.cancelled + c.retained == |ConcernedIds(s.bookings, target, now)|
  {
    var fates, all := Fates(s.bookings, grants, policies), ConcernedIds(s.bookings, target, now);
    var a := Among(fates, all, (f: Fate) => f.Transferred?);
    var b := Among(fates, all, (f: Fate) => f.CancelledByPolicy?);
    var d := Among(fates, all, (f: Fate) => f.Retained?);
    forall i | i in all ensures i in a || i in b || i in d {}
    PartsAddUp(a, b, d, all);
  }

  // Each booking is left in one of these ways, and no other.
  lemma BookingsAfterwards(s: Store, grants: map<Id, Grant>, policies: map<Id, OffboardingPolicy>, target: Id, actor: Id,
                           reason: string, now: Instant, i: Id)
    requires i in s.bookings
    ensures var b, t := s.bookings[i], Offboarded(s, grants, policies, target, actor, reason, now);
      && i in t.bookings
      && (Concerns(b, target, now) ==>
            match FateOf(grants, policies, b)
            case Transferred(to) => t.bookings[i] == b.(user := to)
            case CancelledByPolicy => t.bookings[i] == b.CancelledRow(now, Some(actor), Some(reason))
            case Retained => t.bookings[i] == b)
      && (!Concerns(b, target, now) ==>
            t.bookings[i] == if b.IsHold() && HoldsFor(s.offers, ActiveOffers(s, target), i)
                             then b.CancelledRow(now, b.cancelledBy, b.reason) else b)
  {
    SettlingLeavesTheQueue(s, grants, policies, target, actor, reason, now);
  }

  lemma EarliestIsOne(grants: map<Id, Grant>, resource: Id, g: Id, h: Id)
    requires g in grants && h in grants && IsEarliestGrant(grants, resource, g) && IsEarliestGrant(grants, resource, h)
    ensures g == h
  {}

  // Whom the resource would be transferred to: nobody, exactly without a grant; else the earliest grant's user.
  lemma TransferGoesTo(grants: map<Id, Grant>, resource: Id, to: Id)
    ensures ResourceAdminFor(grants, resource) == Some(to)
      <==> exists g | g in grants :: IsEarliestGrant(grants, resource, g) && grants[g].user == to
  {
    forall g, h | g in grants && h in grants && IsEarliestGrant(grants, resource, g) && IsEarliestGrant(grants, resource, h)
      ensures g == h
    {
      EarliestIsOne(grants, resource, g, h);
    }
  }

  // A transfer can give a booking back to the user who is leaving: a concerned booking is still theirs, and
  // confirmed, exactly when the policy retains it, or would transfer it but nobody administers the resource, or
  // the resource's earliest grant is their own.
  lemma StillTheirsExactlyWhen(s: Store, grants: map<Id, Grant>, policies: map<Id, OffboardingPolicy>, target: Id, actor: Id,
                               reason: string, now: Instant, i: Id)
    requires i in s.bookings && Concerns(s.bookings[i], target, now)
    ensures var resource, b := s.bookings[i].resource, Offboarded(s, grants, policies, target, actor, reason, now).bookings[i];
      (b.user == target && b.status == Confirmed
       <==> || PolicyOf(policies, resource) == Retain
            || (PolicyOf(policies, resource) == TransferPolicy &&
                  ((forall g | g in grants :: grants[g].resource != resource)
                   || exists g | g in grants :: IsEarliestGrant(grants, resource, g) && grants[g].user == target)))
  {
    BookingsAfterwards(s, grants, policies, target, actor, reason, now, i);
    TransferGoesTo(grants, s.bookings[i].resource, target);
  }

  // As here: the only administrator of a resource leaves, and their own booking is transferred to them.
  lemma TransferredBackToTheLeaver(target: Id, actor: Id, reason: string) returns (s: Store, grants: map<Id, Grant>)
    ensures 0 in s.bookings && Concerns(s.bookings[0], target, 0)
    ensures grants == map[0 := Grant(1, target, 0)]
    ensures FateOf(grants, map[1 := TransferPolicy], s.bookings[0]) == Transferred(target)
    ensures Offboarded(s, grants, map[1 := TransferPolicy], target, actor, reason, 0).bookings == s.bookings
  {
    var b := Booking(1, target, None, Range(5, 10), Confirmed, None, None, None, None);
    s, grants := Store(map[0 := b], map[], map[], 1), map[0 := Grant(1, target, 0)];
    assert IsEarliestGrant(grants, 1, 0);
    TransferGoesTo(grants, 1, target);
    BookingsAfterwards(s, grants, map[1 := TransferPolicy], target, actor, reason, 0, 0);
  }

  // No active offer and no waiting entry is left to the target.
  lemma NothingLeftInTheQueue(s: Store, grants: map<Id, Grant>, policies: map<Id, OffboardingPolicy>, target: Id, actor: Id,
                              reason: string, now: Instant)
    requires ReferencesSound(s)
    ensures var t := Offboarded(s, grants, policies, target, actor, reason, now);
      && WaitingEntries(t, target) == {}
      && forall o | o in t.offers && t.offers[o].status == Active :: t.entries[t.offers[o].entry].user != target
  {
    SettlingLeavesTheQueue(s, grants, policies, target, actor, reason, now);
    var u := AfterOffers(AfterBookings(s, grants, policies, target, actor, reason, now), target, now);
    var t := Offboarded(s, grants, policies, target, actor, reason, now);
    forall o | o in t.offers && t.offers[o].status == Active ensures t.entries[t.offers[o].entry].user != target {
      assert o in s.offers && o !in ActiveOffers(s, target);
    }
  }

  // So none of the cascades it sets off, in whatever order they run, offers anything to the target.
  lemma CascadesPassThemBy(s: Store, target: Id, resource: Id, freed: Range, window: int, now: Instant)
    requires WaitingEntries(s, target) == {}
    ensures var (outcome, t) := Cascade(s, resource, freed, window, now);
      && (outcome.OfferMade? ==> outcome.entry in s.entries && s.entries[outcome.entry].user != target)
      && WaitingEntries(t, target) == {}
  {
    var w := Winner(s, resource, freed, now);
    if w.Some? { assert w.value !in WaitingEntries(s, target); }
    assert WaitingEntries(Cascade(s, resource, freed, window, now).1, target) <= WaitingEntries(s, target);
  }
}
