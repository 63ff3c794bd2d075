/** The waitlist write path and its two loops: the offer cascade and the reaper's sweep. */
module WaitlistService {
  import opened Tables
  import opened Transactions
  import opened KeyOrder
  import opened Queue
  import opened BookingService
  import opened Sweep

  method JoinWaitlist(db: Database, id: Id, resource: Id, user: Id, wanted: Range, now: Instant) returns (joined: bool)
    modifies db`entries
    ensures (joined, db.Snapshot()) == Join(old(db.Snapshot()), id, resource, user, wanted, now)
  {
    if id in db.entries || !wanted.NonEmpty() { return false; }
    if exists e | e in db.entries ::
         db.entries[e].Live() && db.entries[e].resource == resource && db.entries[e].user == user && db.entries[e].range == wanted {
      return false;
    }
    db.entries := db.entries[id := Entry(resource, user, wanted, Waiting, now)];
    return true;
  }

  method UpdateEntry(db: Database, id: Id, status: EntryStatus)
    modifies db`entries
    ensures db.Snapshot() == SetEntry(old(db.Snapshot()), id, status)
  {
    if id in db.entries {
      db.entries := db.entries[id := db.entries[id].(status := status)];
    }
  }

  method MarkEntryOffered(db: Database, id: Id) returns (updated: bool)
    modifies db`entries
    ensures (updated, db.Snapshot()) == MarkOffered(old(db.Snapshot()), id)
  {
    if id in db.entries && exists e | e in db.entries ::
         e != id && db.entries[e].Live() && db.entries[e].SameSlot(db.entries[id]) {
      return false;
    }
    UpdateEntry(db, id, Offered);
    return true;
  }

  method UpdateOffer(db: Database, id: Id, status: OfferStatus)
    modifies db`offers
    ensures db.Snapshot() == SetOffer(old(db.Snapshot()), id, status)
  {
    if id in db.offers {
      db.offers := db.offers[id := db.offers[id].(status := status)];
    }
  }

  method CancelWaitlistEntry(db: Database, id: Id) returns (alreadyCancelled: bool)
    modifies db`entries
    ensures (!alreadyCancelled, db.Snapshot()) == WithdrawEntry(old(db.Snapshot()), id)
  {
    var updated := id in db.entries && db.entries[id].status == Waiting;
    if updated { UpdateEntry(db, id, Withdrawn); }
    return !updated;
  }

  method AcceptOffer(db: Database, offer: Id, user: Id, now: Instant) returns (outcome: AcceptOutcome)
    modifies db`bookings, db`offers, db`entries
    ensures (outcome, db.Snapshot()) == Accept(old(db.Snapshot()), offer, user, now)
  {
    if offer !in db.offers { return OfferExpired; }
    var o := db.offers[offer];
    if o.hold !in db.bookings || !Acceptable(db.bookings[o.hold], user, now) { return OfferExpired; }
    db.bookings := db.bookings[o.hold := db.bookings[o.hold].(status := Confirmed, expiresAt := None)];
    if db.offers[offer].status == Active { UpdateOffer(db, offer, Accepted); }
    UpdateEntry(db, o.entry, Fulfilled);
    return Booked(o.hold);
  }

  method ReleaseHeldBooking(db: Database, id: Id, now: Instant)
    modifies db`bookings
    ensures db.Snapshot() == ReleaseHold(old(db.Snapshot()), id, now)
  {
    if id in db.bookings && db.bookings[id].status == Held {
      db.bookings := db.bookings[id := db.bookings[id].(status := Cancelled, cancelledAt := Some(now), expiresAt := None)];
    }
  }

  method DeclineOffer(db: Database, offer: Id, now: Instant) returns (outcome: DeclineOutcome)
    modifies db`bookings, db`offers, db`entries
    ensures (outcome, db.Snapshot()) == Decline(old(db.Snapshot()), offer, now)
  {
    if offer !in db.offers || db.offers[offer].status != Active { return AlreadyResolved; }
    UpdateOffer(db, offer, Declined);
    var o := db.offers[offer];
    ReleaseHeldBooking(db, o.hold, now);
    UpdateEntry(db, o.entry, Lapsed);
    return Freed(o.range);
  }

  // ---------------------------------------------------------------- the cascade

  // The first of the queue's keys that is a contender is the least contender.
  lemma FirstContenderWins(s: Store, resource: Id, freed: Range, now: Instant, keys: seq<Key>, n: nat)
    requires Lists(keys, EligibleKeys(s, resource, freed)) && n < |keys|
    requires keys[n] in Contenders(s, resource, freed, now)
    requires forall i | 0 <= i < n :: keys[i] !in Contenders(s, resource, freed, now)
    ensures Winner(s, resource, freed, now) == Some(keys[n].minor)
  {
    var all := Contenders(s, resource, freed, now);
    var least := Least(all);
    ContenderIsEntry(s, resource, freed, now, least);
    assert least in EligibleKeys(s, resource, freed);
    assert least in keys;
    var i :| 0 <= i < |keys| && keys[i] == least;
    assert i == n;
  }

  lemma NoContenderNoWinner(s: Store, resource: Id, freed: Range, now: Instant, keys: seq<Key>)
    requires Lists(keys, EligibleKeys(s, resource, freed))
    requires forall i | 0 <= i < |keys| :: keys[i] !in Contenders(s, resource, freed, now)
    ensures Winner(s, resource, freed, now) == None
  {
    var all := Contenders(s, resource, freed, now);
    assert forall k | k in all :: k in EligibleKeys(s, resource, freed);
    assert forall k | k in all :: k in keys;
    assert all == {};
  }

  method InsertWaitlistOffer(db: Database, entry: Id, hold: Id, resource: Id, range: Range, expiresAt: Instant, now: Instant)
    returns (outcome: InsertOutcome)
    modifies db`offers, db`nextId
    ensures (outcome, db.Snapshot()) == InsertOffer(old(db.Snapshot()), entry, hold, resource, range, expiresAt, now)
  {
    if hold !in db.bookings || entry !in db.entries { return IntegrityError; }
    if exists o | o in db.offers :: db.offers[o].hold == hold || (db.offers[o].entry == entry && db.offers[o].status == Active) {
      return IntegrityError;
    }
    var id := db.nextId;
    db.offers := db.offers[id := Offer(entry, hold, resource, range, Active, expiresAt, now)];
    db.nextId := id + 1;
    return Inserted(id);
  }

  // Tries the candidates in queue order until a hold can be created; a conflict moves on to the next one.
  method CreateOfferForFreedRange(db: Database, resource: Id, freed: Range, window: int, now: Instant)
    returns (outcome: CascadeOutcome)
    requires db.Valid()
    modifies db
    ensures (outcome, db.Snapshot()) == Cascade(old(db.Snapshot()), resource, freed, window, now)
  {
    ghost var s := db.Snapshot();
    var candidates := Ascending(EligibleKeys(Store(db.bookings, db.offers, db.entries, db.nextId), resource, freed));
    var n := 0;
    while n < |candidates|
      invariant n <= |candidates| && db.Snapshot() == s
      invariant forall i | 0 <= i < n :: candidates[i] !in Contenders(s, resource, freed, now)
    {
      assert candidates[n] in candidates;
      assert candidates[n] in EligibleKeys(s, resource, freed);
      var id := candidates[n].minor;
      var e := db.entries[id];
      var held := CreateBooking(db, HoldRequest(e, window), now);
      if held.SlotUnavailable? {
        n := n + 1;
        continue;
      }
      assert candidates[n] in Contenders(s, resource, freed, now);
      FirstContenderWins(s, resource, freed, now, candidates, n);
      if !held.Done? { return Failed; }
      var inserted := InsertWaitlistOffer(db, id, held.id, resource, e.range, now + window, now);
      if inserted.IntegrityError? { return Failed; }
      var marked := MarkEntryOffered(db, id);
      return if marked then OfferMade(inserted.offer, id) else Failed;
    }
    NoContenderNoWinner(s, resource, freed, now, candidates);
    return NobodyEligible;
  }

  // ---------------------------------------------------------------- the reaper

  // One transaction per expired hold, each followed by a cascade over the range it frees; the cascade reads the
  // clock afresh. An exception out of a cascade ends the sweep; otherwise every hold it found has its turn. The last
  // clause is for a sweep that runs alone, with a positive offer window: it completes exactly when none of those holds
  // halts it, whatever order it takes them in.
  method ReapExpiredHolds(db: Database, window: int, now: Instant) returns (f: Findings, ghost turns: seq<Turn>)
    requires db.Valid()
    modifies db
    ensures db.Valid()
    ensures db.Snapshot() == AfterTurns(old(db.Snapshot()), turns, window, now)
    ensures exists left :: TurnsTaken(old(db.Snapshot()), turns, left, now) && (f.completed ==> left == {})
    ensures Sweepable(old(db.Snapshot())) && window > 0 ==>
      && (f.completed <==> NothingHalts(old(db.Snapshot()), now))
      && (f.completed ==> Swept(old(db.Snapshot()), db.Snapshot(), now, f))
      && (!f.completed ==> CutShort(old(db.Snapshot()), db.Snapshot(), now, f))
  {
    ghost var s0 := db.Snapshot();
    ghost var calm := Sweepable(s0) && window > 0;
    f, turns := Findings(0, 0, 0, true), [];
    var left := set i | i in db.bookings && db.bookings[i].ExpiredBy(now);
    if calm { SweepStarts(s0, now); }
    while left != {}
      invariant db.Valid() && f.completed && left <= ExpiredHolds(s0, now)
      invariant db.Snapshot() == AfterTurns(s0, turns, window, now) && TurnsTaken(s0, turns, left, now)
      invariant calm ==> SweepState(s0, db.Snapshot(), left, now, f)
    {
      var hold :| hold in left;
      ghost var at;
      f, at := SweepTurn(db, hold, left, window, now, f, s0);
      OneMoreTurn(s0, turns, Turn(hold, at), window, now);
      TurnTaken(s0, turns, left, now, Turn(hold, at));
      turns := turns + [Turn(hold, at)];
      left := left - {hold};
      if !f.completed { return; }
    }
    if calm { SweepEnds(s0, db.Snapshot(), now, f); }
  }

  method SweepTurn(db: Database, hold: Id, ghost left: set<Id>, window: int, now: Instant, f: Findings, ghost s0: Store)
    returns (after: Findings, ghost at: Instant)
    requires db.Valid() && hold in left && f.completed
    modifies db
    ensures db.Valid()
    ensures now <= at && db.Snapshot() == AfterTurn(old(db.Snapshot()), Turn(hold, at), window, now)
    ensures window > 0 && SweepState(s0, old(db.Snapshot()), left, now, f) ==> TurnOver(s0, db.Snapshot(), left - {hold}, now, after)
  {
    ghost var s := db.Snapshot();
    ghost var calm := window > 0 && SweepState(s0, s, left, now, f);
    if calm { ReclaimAdvances(s0, s, left, hold, now, f); }
    ReapKeepsConstraints(s, hold, now);
    var reaped := ReapHold(db, hold, now);
    at := now;
    if reaped.LostRace? { return f, now; }
    after := f.(holdsReclaimed := f.holdsReclaimed + 1, entriesReturned := f.entriesReturned + if reaped.ReclaimedOffer? then 1 else 0);
    if reaped.ReclaimedOffer? {
      var clock: Instant := *;
      if clock < now { clock := now; }
      at := clock;
      if calm { CascadeFailsExactlyWhenHalts(s0, s, left, hold, now, f, window, clock); }
      after := SweepCascade(db, hold, left - {hold}, window, now, after, reaped.freed, clock, s0, calm);
    } else if calm {
      LoneHoldHaltsNothing(s0, s, left, hold, now, f);
      TurnEnds(s0, db.Snapshot(), left - {hold}, hold, now, after);
    }
  }

  method SweepCascade(db: Database, hold: Id, ghost left: set<Id>, window: int, now: Instant, f: Findings, freed: Range, at: Instant,
                      ghost s0: Store, ghost calm: bool)
    returns (after: Findings)
    requires db.Valid() && f.completed && hold in db.bookings && now <= at
    requires calm ==> window > 0 && Reclaiming(s0, db.Snapshot(), left, hold, now, f)
    requires calm ==> SlotIsFree(db.Snapshot(), db.bookings[hold].resource, freed)
    requires calm ==> (Cascade(db.Snapshot(), db.bookings[hold].resource, freed, window, at).0.Failed? <==> Halts(s0, hold))
    modifies db
    ensures db.Valid()
    ensures db.Snapshot() == Cascade(old(db.Snapshot()), old(db.bookings)[hold].resource, freed, window, at).1
    ensures calm ==> TurnOver(s0, db.Snapshot(), left, now, after)
  {
    ghost var s := db.Snapshot();
    var resource := db.bookings[hold].resource;
    CascadeKeepsConstraints(s, resource, freed, window, at);
    var made := CreateOfferForFreedRange(db, resource, freed, window, at);
    after := f.(completed := !made.Failed?, cascadesTriggered := f.cascadesTriggered + if made.OfferMade? then 1 else 0);
    if calm {
      if made.Failed? {
        SweepIsCutShort(s0, s, left, hold, now, f, resource, freed, window, at);
      } else {
        CascadeAdvances(s0, s, left, hold, now, f, resource, freed, window, at);
        TurnEnds(s0, db.Snapshot(), left, hold, now, after);
      }
    }
  }

  method ReapHold(db: Database, hold: Id, now: Instant) returns (outcome: ReapOutcome)
    requires db.Valid()
    modifies db`bookings, db`offers, db`entries
    ensures (outcome, db.Snapshot()) == Reap(old(db.Snapshot()), hold, now)
    ensures !outcome.LostRace? ==> hold in db.bookings && db.bookings[hold].resource == old(db.bookings)[hold].resource
  {
    if hold !in db.bookings || !db.bookings[hold].ExpiredBy(now) { return LostRace; }
    ReleaseHeldBooking(db, hold, now);
    if !exists o | o in db.offers :: db.offers[o].hold == hold && db.offers[o].status == Active { return Reclaimed; }
    var id :| id in db.offers && db.offers[id].hold == hold && db.offers[id].status == Active;
    var offer := db.offers[id];
    UpdateOffer(db, id, Expired);
    UpdateEntry(db, offer.entry, Lapsed);
    return ReclaimedOffer(offer.range);
  }
}
