/** Short runs from empty tables that end where the documentation says no run can. */
module CounterRuns {
  import opened Tables
  import opened Transactions
  import opened KeyOrder
  import opened Queue
  import opened CascadeTheorems
  import opened Interleaving
  import opened TimeZones
  import opened Recurrence
  import opened RollingWindows
  import opened SeriesTasks
  import opened RollingJob
  import Sweep

  lemma {:induction false} AfterBoth(w: World, first: seq<Event>, second: seq<Event>)
    ensures After(w, first + second) == After(After(w, first), second)
  {
    var es := first + second;
    if second == [] {
      assert es == first;
    } else {
      assert es[..|es| - 1] == first + second[..|second| - 1];
      AfterBoth(w, first, second[..|second| - 1]);
    }
  }

  lemma AfterTwo(w: World, a: Event, b: Event)
    ensures After(w, [a, b]) == Apply(Apply(w, a), b)
  {
    AfterBoth(w, [a], [b]);
    assert [a] + [b] == [a, b];
  }

  lemma AfterThree(w: World, a: Event, b: Event, c: Event)
    ensures After(w, [a, b, c]) == Apply(Apply(Apply(w, a), b), c)
  {
    AfterTwo(w, a, b);
    AfterBoth(w, [a, b], [c]);
    assert [a, b] + [c] == [a, b, c];
  }

  lemma AfterFour(w: World, a: Event, b: Event, c: Event, d: Event)
    ensures After(w, [a, b, c, d]) == Apply(Apply(Apply(Apply(w, a), b), c), d)
  {
    AfterThree(w, a, b, c);
    AfterBoth(w, [a, b, c], [d]);
    assert [a, b, c] + [d] == [a, b, c, d];
  }

  lemma SoleCandidate(s: Store, resource: Id, freed: Range, id: Id)
    requires id in s.entries && Eligible(s.entries[id], resource, freed)
    requires forall e | e in s.entries && e != id :: !Eligible(s.entries[e], resource, freed)
    ensures CandidateList(s, resource, freed) == [Candidate(id, s.entries[id].user, s.entries[id].range)]
  {
    var k := QueueKey(s.entries[id], id);
    assert EligibleKeys(s, resource, freed) == {k};
    assert Lists([k], {k});
    ListingUnique(Ascending({k}), [k], {k});
  }

  lemma FirstInLine(s: Store, resource: Id, freed: Range, now: Instant, id: Id)
    requires id in s.entries && Eligible(s.entries[id], resource, freed) && !Taken(s, resource, s.entries[id].range, now)
    requires forall e | e in s.entries && e != id && Eligible(s.entries[e], resource, freed) :: InLineBefore(s, id, e)
    ensures Winner(s, resource, freed, now) == Some(id)
  {
    WinnerIsFirst(s, resource, freed, now);
    assert QueueKey(s.entries[id], id) in Contenders(s, resource, freed, now);
  }

  function Served(s: Store, id: Id, window: int, now: Instant): Store
    requires id in s.entries
  {
    var e := s.entries[id];
    Store(s.bookings[s.nextId := NewBooking(HoldRequest(e, window), now)],
          s.offers[s.nextId + 1 := Offer(id, s.nextId, e.resource, e.range, Active, now + window, now)],
          s.entries[id := e.(status := Offered)], s.nextId + 2)
  }

  lemma FirstIsServed(s: Store, resource: Id, freed: Range, window: int, now: Instant, id: Id)
    requires id in s.entries && Eligible(s.entries[id], resource, freed) && s.entries[id].range.NonEmpty()
    requires forall e | e in s.entries && e != id && Eligible(s.entries[e], resource, freed) :: InLineBefore(s, id, e)
    requires forall i | i in s.bookings :: !s.bookings[i].Blocks(resource, s.entries[id].range)
    requires forall o | o in s.offers :: s.offers[o].hold != s.nextId && s.offers[o].entry != id
    requires !TwinLives(s, id)
    ensures Cascade(s, resource, freed, window, now).1 == Served(s, id, window, now)
  {
    FirstInLine(s, resource, freed, now, id);
    var (held, s1) := Create(s, HoldRequest(s.entries[id], window), now);
    assert held == Done(s.nextId) && WithoutExpired(s.bookings, resource, s.entries[id].range, now) == s.bookings;
    var (inserted, s2) := InsertOffer(s1, id, s.nextId, resource, s.entries[id].range, now + window, now);
    assert inserted == Inserted(s.nextId + 1) && s2.entries == s.entries && !TwinLives(s2, id);
  }

  // Nine to ten o'clock, and ten to eleven.
  const SLOT := Range(9 * HOUR, 10 * HOUR)
  const NEXT := Range(10 * HOUR, 11 * HOUR)
  const BOTH := Range(9 * HOUR, 11 * HOUR)

  // ---------------------------------------------------------------- the worker's last commit

  // A worker reads the queue, and the only entry in it is withdrawn.
  function WithdrawAfterRead(user: Id): seq<Event> {
    [JoinWaitlist(0, 1, user, SLOT), StartWorker(0, 1, SLOT), WithdrawFromWaitlist(0)]
  }

  ghost predicate Withdrew(v: World, user: Id) {
    && v.workers == map[0 := Trying(1, [Candidate(0, user, SLOT)])]
    && v.store == Store(map[], map[], map[0 := Entry(1, user, SLOT, Withdrawn, v.clock)], 0)
  }

  lemma ReadThenWithdrawn(w: World, user: Id)
    requires Fresh(w)
    ensures Withdrew(After(w, WithdrawAfterRead(user)), user)
  {
    var w1 := Apply(w, JoinWaitlist(0, 1, user, SLOT));
    SoleCandidate(w1.store, 1, SLOT, 0);
    var w2 := Apply(w1, StartWorker(0, 1, SLOT));
    assert w2.workers == map[0 := Trying(1, [Candidate(0, user, SLOT)])];
    AfterThree(w, JoinWaitlist(0, 1, user, SLOT), StartWorker(0, 1, SLOT), WithdrawFromWaitlist(0));
  }

  lemma WorkerCarriesOn(v: World, user: Id)
    requires Withdrew(v, user)
    ensures var u := Apply(Apply(Apply(v, StepWorker(0)), StepWorker(0)), StepWorker(0));
      0 in u.store.entries && u.store.entries[0].status == Offered
  {
    var w4 := Apply(v, StepWorker(0));
    assert w4.workers[0] == HoldTaken(1, Candidate(0, user, SLOT), 0, v.clock + v.window);
    var w5 := Apply(w4, StepWorker(0));
    assert w5.workers[0] == OfferWritten(0);
  }

  // A withdrawal between the worker's reading of the queue and its last commit is overwritten: the entry ends up
  // offered.
  lemma WithdrawalCanBeOverwritten(w: World, user: Id, es: seq<Event>)
    requires Fresh(w) && es == WithdrawAfterRead(user) + [StepWorker(0), StepWorker(0), StepWorker(0)]
    ensures var v := After(w, WithdrawAfterRead(user)); 0 in v.store.entries && v.store.entries[0].status == Withdrawn
    ensures var u := After(w, es); 0 in u.store.entries && u.store.entries[0].status == Offered
  {
    var v := After(w, WithdrawAfterRead(user));
    ReadThenWithdrawn(w, user);
    WorkerCarriesOn(v, user);
    AfterThree(v, StepWorker(0), StepWorker(0), StepWorker(0));
    AfterBoth(w, WithdrawAfterRead(user), [StepWorker(0), StepWorker(0), StepWorker(0)]);
  }

  // The offer stands, with its hold, on an entry that stays withdrawn.
  ghost predicate OfferOnWithdrawn(s: Store) {
    && 0 in s.entries && s.entries[0].status == Withdrawn
    && 1 in s.entries && s.entries[1].status == Waiting && s.entries[1].SameSlot(s.entries[0])
    && 1 in s.offers && s.offers[1].entry == 0 && s.offers[1].status == Active && s.HoldsAt(s.offers[1].hold)
  }

  lemma DeclineLapsesWithdrawn(s: Store, now: Instant)
    requires OfferOnWithdrawn(s)
    ensures 0 in Decline(s, 1, now).1.entries && Decline(s, 1, now).1.entries[0].status == Lapsed
  {}

  lemma TwinStandsInTheWay(v: World, user: Id)
    requires Withdrew(v, user)
    ensures var rejoined := Apply(v, JoinWaitlist(1, 1, user, SLOT));
      OfferOnWithdrawn(Apply(Apply(Apply(rejoined, StepWorker(0)), StepWorker(0)), StepWorker(0)).store)
  {
    var w4 := Apply(v, JoinWaitlist(1, 1, user, SLOT));
    assert w4.store.entries[1].status == Waiting;
    var w5 := Apply(w4, StepWorker(0));
    assert w5.workers[0] == HoldTaken(1, Candidate(0, user, SLOT), 0, v.clock + v.window);
    var w6 := Apply(w5, StepWorker(0));
    assert w6.workers[0] == OfferWritten(0) && w6.store.offers[1].entry == 0;
    assert w6.store.entries[1].SameSlot(w6.store.entries[0]);
  }

  // When the user has joined for the same slot again meanwhile, the unique index refuses the last commit. The offer
  // stands all the same, and declining it makes the withdrawn entry lapse.
  lemma TwinRefusesLastCommit(w: World, user: Id, es: seq<Event>)
    requires Fresh(w)
    requires es == WithdrawAfterRead(user) + [JoinWaitlist(1, 1, user, SLOT), StepWorker(0), StepWorker(0), StepWorker(0)]
    ensures OfferOnWithdrawn(After(w, es).store)
    ensures var t := Decline(After(w, es).store, 1, After(w, es).clock).1; 0 in t.entries && t.entries[0].status == Lapsed
  {
    var v := After(w, WithdrawAfterRead(user));
    ReadThenWithdrawn(w, user);
    TwinStandsInTheWay(v, user);
    AfterFour(v, JoinWaitlist(1, 1, user, SLOT), StepWorker(0), StepWorker(0), StepWorker(0));
    AfterBoth(w, WithdrawAfterRead(user), [JoinWaitlist(1, 1, user, SLOT), StepWorker(0), StepWorker(0), StepWorker(0)]);
    DeclineLapsesWithdrawn(After(w, es).store, After(w, es).clock);
  }

  // ---------------------------------------------------------------- an expired hold that was offered

  // A waiter is offered the slot and lets the offer run out.
  function LetItRunOut(window: nat): seq<Event> {
    [JoinWaitlist(0, 1, 7, SLOT), CascadeAtOnce(1, SLOT), Tick(window)]
  }

  ghost predicate HoldRanOut(v: World) {
    && v.store.bookings == map[0 := Booking(1, 7, None, SLOT, Held, Some(v.clock), None, None, None)]
    && v.store.offers == map[1 := Offer(0, 0, 1, SLOT, Active, v.clock, v.clock - v.window)]
    && v.store.entries == map[0 := Entry(1, 7, SLOT, Offered, v.clock - v.window)]
    && v.store.nextId == 2
  }

  // The offer, as the cascade makes it to the only waiter.
  lemma SoleWaiterIsOffered(s: Store, window: int, now: Instant)
    requires s == Store(map[], map[], map[0 := Entry(1, 7, SLOT, Waiting, now)], 0)
    ensures Cascade(s, 1, SLOT, window, now).1 ==
      Store(map[0 := Booking(1, 7, None, SLOT, Held, Some(now + window), None, None, None)],
            map[1 := Offer(0, 0, 1, SLOT, Active, now + window, now)],
            map[0 := Entry(1, 7, SLOT, Offered, now)], 2)
  {
    FirstInLine(s, 1, SLOT, now, 0);
    assert !TwinLives(s, 0);
  }

  lemma JoinThenCascade(w: World)
    requires Fresh(w) && w.window >= 0
    ensures var v := Apply(Apply(w, JoinWaitlist(0, 1, 7, SLOT)), CascadeAtOnce(1, SLOT));
      && v.clock == w.clock && v.window == w.window
      && v.store ==
           Store(map[0 := Booking(1, 7, None, SLOT, Held, Some(w.clock + w.window), None, None, None)],
                 map[1 := Offer(0, 0, 1, SLOT, Active, w.clock + w.window, w.clock)],
                 map[0 := Entry(1, 7, SLOT, Offered, w.clock)], 2)
  {
    var w1 := Apply(w, JoinWaitlist(0, 1, 7, SLOT));
    assert w1.store == Store(map[], map[], map[0 := Entry(1, 7, SLOT, Waiting, w.clock)], 0);
    SoleWaiterIsOffered(w1.store, w.window, w.clock);
  }

  lemma ThenTimePasses(w: World)
    requires Fresh(w) && w.window >= 0
    ensures var v := Apply(Apply(Apply(w, JoinWaitlist(0, 1, 7, SLOT)), CascadeAtOnce(1, SLOT)), Tick(w.window));
      HoldRanOut(v) && v.window == w.window && v.clock == w.clock + w.window
  {
    JoinThenCascade(w);
  }

  lemma OfferRunsOut(w: World)
    requires Fresh(w) && w.window >= 0
    ensures var v := After(w, LetItRunOut(w.window));
      HoldRanOut(v) && v.window == w.window && v.clock == w.clock + w.window
  {
    ThenTimePasses(w);
    AfterThree(w, JoinWaitlist(0, 1, 7, SLOT), CascadeAtOnce(1, SLOT), Tick(w.window));
  }

  // Nobody can book the slot then, until the reaper has been: the hold has expired and the booking is refused.
  lemma ExpiredOfferBlocksBooking(w: World, user: Id)
    requires Fresh(w) && w.window >= 0
    ensures var v := After(w, LetItRunOut(w.window));
      && 0 in v.store.bookings && v.store.bookings[0].ExpiredBy(v.clock)
      && Create(v.store, CreateRequest(1, user, None, SLOT, None), v.clock) == (HoldReferenced, v.store)
  {
    OfferRunsOut(w);
    var v := After(w, LetItRunOut(w.window));
    assert Pinned(v.store, 1, SLOT, v.clock) by {
      assert 1 in v.store.offers && v.store.offers[1].hold == 0 && Reclaimable(v.store.bookings[0], 1, SLOT, v.clock);
    }
  }

  // Then others join: one for the slot, and after them one for the next.
  ghost predicate TwoWait(s: Store, user: Id, now: Instant) {
    && s.bookings == map[0 := Booking(1, 7, None, SLOT, Held, Some(now), None, None, None)]
    && 1 in s.offers && s.offers[1].hold == 0
    && s.entries.Keys == {0, 1, 2} && s.entries[0].status == Offered
    && s.entries[1] == Entry(1, user, SLOT, Waiting, now) && s.entries[2] == Entry(1, 9, NEXT, Waiting, now)
  }

  function TwoMoreJoin(user: Id): seq<Event> {
    [JoinWaitlist(1, 1, user, SLOT), JoinWaitlist(2, 1, 9, NEXT)]
  }

  lemma ThenTwoWait(v: World, user: Id)
    requires HoldRanOut(v) && user != 7
    ensures var u := Apply(Apply(v, JoinWaitlist(1, 1, user, SLOT)), JoinWaitlist(2, 1, 9, NEXT));
      TwoWait(u.store, user, v.clock) && u.clock == v.clock && u.window == v.window
  {
    var u := Apply(v, JoinWaitlist(1, 1, user, SLOT));
    assert u.store.entries == v.store.entries[1 := Entry(1, user, SLOT, Waiting, v.clock)];
  }

  lemma TwoJoin(v: World, user: Id)
    requires HoldRanOut(v) && user != 7
    ensures var u := After(v, TwoMoreJoin(user)); TwoWait(u.store, user, v.clock) && u.clock == v.clock && u.window == v.window
  {
    ThenTwoWait(v, user);
    AfterTwo(v, JoinWaitlist(1, 1, user, SLOT), JoinWaitlist(2, 1, 9, NEXT));
  }

  // Nor does a cascade over the slot and the next one serve anybody: it fails at the first in line, who wants the
  // slot, though the second wants the next one, which can be had.
  lemma PinnedContenderStopsCascade(w: World, user: Id, es: seq<Event>)
    requires Fresh(w) && w.window >= 0 && user != 7 && es == LetItRunOut(w.window) + TwoMoreJoin(user)
    ensures var v := After(w, es);
      && Cascade(v.store, 1, BOTH, v.window, v.clock) == (Failed, v.store)
      && 2 in v.store.entries && Eligible(v.store.entries[2], 1, BOTH) && CanBeHad(v.store, 2, v.clock)
  {
    OfferRunsOut(w);
    TwoJoin(After(w, LetItRunOut(w.window)), user);
    AfterBoth(w, LetItRunOut(w.window), TwoMoreJoin(user));
    FirstOfTwoIsPinned(After(w, es).store, user, After(w, es).window, After(w, es).clock);
  }

  lemma FirstOfTwoIsPinned(s: Store, user: Id, window: int, now: Instant)
    requires TwoWait(s, user, now)
    ensures Cascade(s, 1, BOTH, window, now) == (Failed, s)
    ensures Eligible(s.entries[2], 1, BOTH) && CanBeHad(s, 2, now)
  {
    FirstInLine(s, 1, BOTH, now, 1);
    assert Pinned(s, 1, SLOT, now) by {
      assert 1 in s.offers && s.offers[1].hold == 0 && Reclaimable(s.bookings[0], 1, SLOT, now);
    }
  }

  // A series of one occurrence, in the slot, and not rolled yet.
  ghost predicate OneDate(row: SeriesRow, os: seq<Occurrence>) {
    && row.active && row.resource == 1
    && |os| == 1 && os[0].Span() == SLOT && row.through < os[0].date
  }

  // In UTC there is such a series.
  lemma OneDateExists(row: SeriesRow, z: Zone)
    requires z == Rules(0, []) && row.active && row.resource == 1 && row.through < 0
    requires row.def == SeriesDef(9 * HOUR, 10 * HOUR, 0, 1)
    ensures ValidSeries(row.def) && OneDate(row, Occurrences(row.def, z))
  {
    FirstInUtc(row.def, z, Occurrences(row.def, z));
  }

  // And a rolling run with that series to extend stops. It would attempt this one occurrence, so whatever its
  // lifetime, it completes exactly when nothing is stuck; and the occurrence is.
  lemma RollingRunStops(w: World, row: SeriesRow, os: seq<Occurrence>)
    requires Fresh(w) && w.window >= 0 && w.clock >= 0 && OneDate(row, os)
    ensures var v, rows, plans := After(w, LetItRunOut(w.window)), map[0 := row], map[0 := os];
      && AllSelected(rows, plans, v.clock) == {(0, 0)}
      && Apart(rows, plans, v.clock) && !NothingStuck(v.store, rows, plans, v.clock)
  {
    OfferRunsOut(w);
    var v, rows, plans := After(w, LetItRunOut(w.window)), map[0 := row], map[0 := os];
    OneSelected(row, os, v.clock);
    assert Stuck(v.store, 1, SLOT, v.clock) by {
      assert 1 in v.store.offers && v.store.offers[1].hold == 0 && Reclaimable(v.store.bookings[0], 1, SLOT, v.clock);
    }
    assert StuckIn(v.store, rows, plans, (0, 0), v.clock);
  }

  lemma OneSelected(row: SeriesRow, os: seq<Occurrence>, now: Instant)
    requires OneDate(row, os) && now >= 0
    ensures AllSelected(map[0 := row], map[0 := os], now) == {(0, 0)}
  {
    assert Due(os[0], row.through, now + MAX_ADVANCE_HORIZON);
    assert Selected(os, row.through, now + MAX_ADVANCE_HORIZON, 0) == [];
    assert ToRoll(row, os, now) == [0];
  }

  // ---------------------------------------------------------------- an offer written late

  // A worker has taken a hold on the slot for an entry.
  ghost predicate HoldOut(v: World, c: Candidate, entries: map<Id, Entry>) {
    && v.workers == map[0 := HoldTaken(1, c, 0, v.clock + v.window)] && c.range == SLOT && c.entry in entries
    && v.store == Store(map[0 := Booking(1, c.user, None, SLOT, Held, Some(v.clock + v.window), None, None, None)], map[], entries, 1)
  }

  // The hold runs out and is reaped, and then the worker writes its offer and crashes.
  function OfferLate(window: nat, at: Instant): seq<Event> {
    [Tick(window), ReapHold(0, at), StepWorker(0), CrashWorker(0)]
  }

  function LateOffer(c: Candidate, entries: map<Id, Entry>, at: Instant): Store {
    Store(map[0 := Booking(1, c.user, None, SLOT, Cancelled, None, Some(at), None, None)],
          map[1 := Offer(c.entry, 0, 1, SLOT, Active, at, at)], entries, 2)
  }

  lemma ReapedBeforeOffered(v: World, c: Candidate, entries: map<Id, Entry>)
    requires v.window >= 0 && HoldOut(v, c, entries)
    ensures var at := v.clock + v.window; var u := Apply(Apply(v, Tick(v.window)), ReapHold(0, at));
      && u.clock == at && u.window == v.window && u.workers == v.workers
      && u.store == Store(map[0 := Booking(1, c.user, None, SLOT, Cancelled, None, Some(at), None, None)], map[], entries, 1)
  {}

  lemma OfferComesLate(v: World, c: Candidate, entries: map<Id, Entry>)
    requires v.window >= 0 && HoldOut(v, c, entries)
    ensures var at := v.clock + v.window; var u := After(v, OfferLate(v.window, at));
      u.clock == at && u.window == v.window && u.store == LateOffer(c, entries, at)
  {
    var at := v.clock + v.window;
    ReapedBeforeOffered(v, c, entries);
    AfterFour(v, Tick(v.window), ReapHold(0, at), StepWorker(0), CrashWorker(0));
    var w2 := Apply(Apply(v, Tick(v.window)), ReapHold(0, at));
    assert w2.workers[0] == HoldTaken(1, c, 0, at);
    var w3 := Apply(w2, StepWorker(0));
    assert w3.store.offers == map[1 := Offer(c.entry, 0, 1, SLOT, Active, at, at)];
  }

  // The only entry is the worker's.
  function TakeHoldAlone(user: Id): seq<Event> {
    [JoinWaitlist(0, 1, user, SLOT), StartWorker(0, 1, SLOT), StepWorker(0)]
  }

  lemma AloneAndRead(w: World, user: Id)
    requires Fresh(w)
    ensures var v := Apply(Apply(w, JoinWaitlist(0, 1, user, SLOT)), StartWorker(0, 1, SLOT));
      && v.clock == w.clock && v.window == w.window && v.workers == map[0 := Trying(1, [Candidate(0, user, SLOT)])]
      && v.store == Store(map[], map[], map[0 := Entry(1, user, SLOT, Waiting, w.clock)], 0)
  {
    var w1 := Apply(w, JoinWaitlist(0, 1, user, SLOT));
    assert w1.store.entries == map[0 := Entry(1, user, SLOT, Waiting, w.clock)];
    SoleCandidate(w1.store, 1, SLOT, 0);
  }

  lemma ThenHolds(w: World, user: Id)
    requires Fresh(w)
    ensures var v := Apply(Apply(Apply(w, JoinWaitlist(0, 1, user, SLOT)), StartWorker(0, 1, SLOT)), StepWorker(0));
      v.clock == w.clock && v.window == w.window && HoldOut(v, Candidate(0, user, SLOT), map[0 := Entry(1, user, SLOT, Waiting, w.clock)])
  {
    AloneAndRead(w, user);
  }

  lemma HoldIsTaken(w: World, user: Id)
    requires Fresh(w)
    ensures var v := After(w, TakeHoldAlone(user));
      v.clock == w.clock && v.window == w.window && HoldOut(v, Candidate(0, user, SLOT), map[0 := Entry(1, user, SLOT, Waiting, w.clock)])
  {
    ThenHolds(w, user);
    AfterThree(w, JoinWaitlist(0, 1, user, SLOT), StartWorker(0, 1, SLOT), StepWorker(0));
  }

  // A cascade over the slot fails for its first in line, whose range can be had, and leaves a hold.
  ghost predicate CascadeLeavesHold(v: World) {
    var (outcome, t) := Cascade(v.store, 1, SLOT, v.window, v.clock);
    && outcome == Failed && t.HoldsAt(v.store.nextId) && t.offers == v.store.offers && t.entries == v.store.entries
    && 0 in v.store.entries && v.store.entries[0].status == Waiting && CanBeHad(v.store, 0, v.clock)
  }

  // A worker that writes its offer after the hold was reaped, and crashes before its last commit, leaves a waiting
  // entry with an active offer and no hold. The next cascade creates a hold for it, fails, and leaves that hold.
  lemma LateOfferStopsCascade(w: World, user: Id, es: seq<Event>)
    requires Fresh(w) && w.window >= 0 && es == TakeHoldAlone(user) + OfferLate(w.window, w.clock + w.window)
    ensures CascadeLeavesHold(After(w, es))
  {
    var v := OnlyOfferIsLate(w, user);
    AfterBoth(w, TakeHoldAlone(user), OfferLate(w.window, w.clock + w.window));
    WithOfferOutFails(v, user);
  }

  lemma OnlyOfferIsLate(w: World, user: Id) returns (v: World)
    requires Fresh(w) && w.window >= 0
    ensures v == After(After(w, TakeHoldAlone(user)), OfferLate(w.window, w.clock + w.window)) && v.window == w.window
    ensures v.store == LateOffer(Candidate(0, user, SLOT), map[0 := Entry(1, user, SLOT, Waiting, v.clock - v.window)], v.clock)
  {
    HoldIsTaken(w, user);
    OfferComesLate(After(w, TakeHoldAlone(user)), Candidate(0, user, SLOT), map[0 := Entry(1, user, SLOT, Waiting, w.clock)]);
    v := After(After(w, TakeHoldAlone(user)), OfferLate(w.window, w.clock + w.window));
  }

  lemma WithOfferOutFails(v: World, user: Id)
    requires v.store == LateOffer(Candidate(0, user, SLOT), map[0 := Entry(1, user, SLOT, Waiting, v.clock - v.window)], v.clock)
    ensures CascadeLeavesHold(v)
  {
    FirstInLine(v.store, 1, SLOT, v.clock, 0);
    assert v.store.offers[1].entry == 0;
  }

  // ---------------------------------------------------------------- a withdrawal without a last commit

  // The worker writes its offer, the entry is withdrawn, and the worker crashes.
  function WithdrawBeforeCrash(): seq<Event> {
    [StepWorker(0), WithdrawFromWaitlist(0), CrashWorker(0)]
  }

  function RunOut(window: nat, at: Instant): seq<Event> {
    [Tick(window), ReapHold(0, at)]
  }

  function OfferedThenWithdrawn(user: Id, now: Instant, window: int): Store {
    Store(map[0 := Booking(1, user, None, SLOT, Held, Some(now + window), None, None, None)],
          map[1 := Offer(0, 0, 1, SLOT, Active, now + window, now)], map[0 := Entry(1, user, SLOT, Withdrawn, now)], 2)
  }

  lemma ThenWithdrawn(v: World, user: Id)
    requires HoldOut(v, Candidate(0, user, SLOT), map[0 := Entry(1, user, SLOT, Waiting, v.clock)])
    ensures var u := Apply(Apply(Apply(v, StepWorker(0)), WithdrawFromWaitlist(0)), CrashWorker(0));
      u.clock == v.clock && u.window == v.window && u.workers == map[] && u.store == OfferedThenWithdrawn(user, v.clock, v.window)
  {
    var v1 := Apply(v, StepWorker(0));
    assert v1.workers == map[0 := OfferWritten(0)];
    assert v1.store.offers == map[1 := Offer(0, 0, 1, SLOT, Active, v.clock + v.window, v.clock)];
  }

  lemma WithdrawnWithOffer(w: World, user: Id) returns (u: World)
    requires Fresh(w) && w.window >= 0
    ensures u == After(After(w, TakeHoldAlone(user)), WithdrawBeforeCrash())
    ensures u.clock == w.clock && u.window == w.window && u.workers == map[] && u.store == OfferedThenWithdrawn(user, w.clock, w.window)
  {
    var v := After(w, TakeHoldAlone(user));
    HoldIsTaken(w, user);
    ThenWithdrawn(v, user);
    AfterThree(v, StepWorker(0), WithdrawFromWaitlist(0), CrashWorker(0));
    u := After(v, WithdrawBeforeCrash());
  }

  lemma ReapLapsesWithdrawn(u: World, user: Id)
    requires u.window >= 0 && u.store == OfferedThenWithdrawn(user, u.clock, u.window)
    ensures var v := After(u, RunOut(u.window, u.clock + u.window)); 0 in v.store.entries && v.store.entries[0].status == Lapsed
  {
    var at := u.clock + u.window;
    AfterTwo(u, Tick(u.window), ReapHold(0, at));
    assert HasActiveOffer(u.store, 0) by { assert u.store.offers[1].hold == 0; }
  }

  lemma ThenLapses(w: World, user: Id) returns (u: World, v: World)
    requires Fresh(w) && w.window >= 0
    ensures u == After(After(w, TakeHoldAlone(user)), WithdrawBeforeCrash())
    ensures v == After(u, RunOut(w.window, w.clock + w.window))
    ensures u.workers == map[] && 0 in u.store.entries && u.store.entries[0].status == Withdrawn
    ensures 0 in v.store.entries && v.store.entries[0].status == Lapsed
  {
    u := WithdrawnWithOffer(w, user);
    ReapLapsesWithdrawn(u, user);
    v := After(u, RunOut(w.window, w.clock + w.window));
  }

  // With the worker gone and no last commit to come, a withdrawn entry lapses when the reaper expires its offer.
  lemma ReapOverwritesWithdrawal(w: World, user: Id, es: seq<Event>)
    requires Fresh(w) && w.window >= 0
    requires es == TakeHoldAlone(user) + WithdrawBeforeCrash()
    ensures var u := After(w, es); u.workers == map[] && 0 in u.store.entries && u.store.entries[0].status == Withdrawn
    ensures var v := After(w, es + RunOut(w.window, w.clock + w.window)); 0 in v.store.entries && v.store.entries[0].status == Lapsed
  {
    var u, v := ThenLapses(w, user);
    AfterBoth(w, TakeHoldAlone(user), WithdrawBeforeCrash());
    AfterBoth(w, es, RunOut(w.window, w.clock + w.window));
  }

  // ---------------------------------------------------------------- a sweep that ends early

  // A sweep that takes this hold first reclaims it; then the cascade over the range it freed fails, which ends the
  // sweep with another hold still to reclaim.
  ghost predicate EndsWithHoldLeft(v: World, hold: Id, freed: Range, other: Id) {
    var (reaped, t) := Reap(v.store, hold, v.clock);
    && hold in v.store.bookings && reaped == ReclaimedOffer(freed)
    && var (outcome, u) := Cascade(t, v.store.bookings[hold].resource, freed, v.window, v.clock);
       outcome.Failed? && other in Sweep.ExpiredHolds(u, v.clock)
  }

  // One user waits for two hours, another for the first of them. A worker over the first hour takes a hold for the
  // second user.
  function TakeHold(user: Id): seq<Event> {
    [JoinWaitlist(0, 1, user, BOTH), JoinWaitlist(1, 1, 8, SLOT), StartWorker(0, 1, SLOT), StepWorker(0)]
  }

  // The two hours are offered to the first user, who lets the offer run out.
  function OfferBoth(window: nat): seq<Event> {
    [CascadeAtOnce(1, BOTH), Tick(window)]
  }

  function TwoWaiting(user: Id): map<Id, Entry> {
    map[0 := Entry(1, user, BOTH, Waiting, 0), 1 := Entry(1, 8, SLOT, Waiting, 0)]
  }

  lemma TwoJoinAndRead(w: World, user: Id)
    requires Fresh(w) && w.clock == 0
    ensures var v := Apply(Apply(Apply(w, JoinWaitlist(0, 1, user, BOTH)), JoinWaitlist(1, 1, 8, SLOT)), StartWorker(0, 1, SLOT));
      && v.clock == 0 && v.window == w.window && v.workers == map[0 := Trying(1, [Candidate(1, 8, SLOT)])]
      && v.store == Store(map[], map[], TwoWaiting(user), 0)
  {
    var w2 := Apply(Apply(w, JoinWaitlist(0, 1, user, BOTH)), JoinWaitlist(1, 1, 8, SLOT));
    assert w2.store.entries == TwoWaiting(user);
    SoleCandidate(w2.store, 1, SLOT, 1);
  }

  lemma HoldForSecond(w: World, user: Id)
    requires Fresh(w) && w.clock == 0
    ensures var v := After(w, TakeHold(user)); v.clock == 0 && v.window == w.window && HoldOut(v, Candidate(1, 8, SLOT), TwoWaiting(user))
  {
    TwoJoinAndRead(w, user);
    AfterFour(w, JoinWaitlist(0, 1, user, BOTH), JoinWaitlist(1, 1, 8, SLOT), StartWorker(0, 1, SLOT), StepWorker(0));
  }

  // Before that, an offer on another resource, which runs out with it.
  function OfferElsewhere(user: Id): seq<Event> {
    [JoinWaitlist(2, 2, user, SLOT), CascadeAtOnce(2, SLOT)]
  }

  function OneElsewhere(user: Id, window: int): Store {
    Store(map[0 := Booking(1, 8, None, SLOT, Cancelled, None, Some(window), None, None),
              2 := Booking(2, user, None, SLOT, Held, Some(2 * window), None, None, None)],
          map[1 := Offer(1, 0, 1, SLOT, Active, window, window), 3 := Offer(2, 2, 2, SLOT, Active, 2 * window, window)],
          TwoWaiting(user)[2 := Entry(2, user, SLOT, Offered, window)], 4)
  }

  function ThreeWaiting(user: Id, window: int): map<Id, Entry> {
    TwoWaiting(user)[2 := Entry(2, user, SLOT, Waiting, window)]
  }

  lemma ServedElsewhere(user: Id, window: int)
    ensures Served(LateOffer(Candidate(1, 8, SLOT), ThreeWaiting(user, window), window), 2, window, window) == OneElsewhere(user, window)
  {}

  lemma ElsewhereIsOffered(s: Store, user: Id, window: int)
    requires s == LateOffer(Candidate(1, 8, SLOT), ThreeWaiting(user, window), window)
    ensures Cascade(s, 2, SLOT, window, window).1 == Served(s, 2, window, window)
  {
    FirstIsServed(s, 2, SLOT, window, window, 2);
  }

  lemma OfferedElsewhere(u: World, user: Id)
    requires u.clock == u.window && u.store == LateOffer(Candidate(1, 8, SLOT), TwoWaiting(user), u.window)
    ensures var v := After(u, OfferElsewhere(user)); v.store == OneElsewhere(user, u.window) && v.clock == v.window == u.window
  {
    var u1 := Apply(u, JoinWaitlist(2, 2, user, SLOT));
    assert u1.store.entries == ThreeWaiting(user, u.window);
    ElsewhereIsOffered(u1.store, user, u.window);
    ServedElsewhere(user, u.window);
    AfterTwo(u, JoinWaitlist(2, 2, user, SLOT), CascadeAtOnce(2, SLOT));
  }

  // The tables then: an expired offered hold on two hours, a waiting entry for the first with an offer left over, and
  // another expired offered hold elsewhere.
  ghost predicate LeftOver(s: Store, user: Id, window: int) {
    var before := OneElsewhere(user, window);
    && s.bookings == before.bookings[4 := Booking(1, user, None, BOTH, Held, Some(2 * window), None, None, None)]
    && s.offers == before.offers[5 := Offer(0, 4, 1, BOTH, Active, 2 * window, window)]
    && s.entries == before.entries[0 := Entry(1, user, BOTH, Offered, 0)]
    && s.nextId == 6
  }

  lemma ServedIsLeftOver(user: Id, window: int)
    ensures LeftOver(Served(OneElsewhere(user, window), 0, window, window), user, window)
  {}

  lemma OfferForFirst(s: Store, user: Id, window: int)
    requires s == OneElsewhere(user, window)
    ensures Cascade(s, 1, BOTH, window, window).1 == Served(s, 0, window, window)
  {
    FirstIsServed(s, 1, BOTH, window, window, 0);
  }

  lemma FirstIsReclaimed(s: Store, user: Id, window: int)
    requires LeftOver(s, user, window)
    ensures var (outcome, t) := Reap(s, 4, 2 * window);
      && outcome == ReclaimedOffer(BOTH)
      && t.entries == s.entries[0 := Entry(1, user, BOTH, Lapsed, 0)] && t.offers == s.offers[5 := s.offers[5].(status := Expired)]
      && t.bookings == s.bookings[4 := Booking(1, user, None, BOTH, Cancelled, None, Some(2 * window), None, None)]
  {
    assert HasActiveOffer(s, 4) by { assert s.offers[5].hold == 4; }
    assert ActiveOffer(s, 4) == 5;
  }

  // The cascade over the freed range fails, and the other hold is still there, expired.
  lemma FreedRangeFails(s: Store, user: Id, window: int)
    requires LeftOver(s, user, window)
    ensures var t := Reap(s, 4, 2 * window).1; var (outcome, u) := Cascade(t, 1, BOTH, window, 2 * window);
      outcome.Failed? && 2 in Sweep.ExpiredHolds(u, 2 * window)
  {
    FirstIsReclaimed(s, user, window);
    var t := Reap(s, 4, 2 * window).1;
    FirstInLine(t, 1, BOTH, 2 * window, 1);
    assert HasOfferOut(t, 1) by { assert t.offers[1].entry == 1; }
    var (held, u) := Create(t, HoldRequest(t.entries[1], window), 2 * window);
    assert held.Done? && u.bookings[2] == t.bookings[2];
    SecondOfferIsRefused(t, 1, window, 2 * window);
  }

  lemma BothOffered(u: World)
    requires u.window >= 0
    ensures var v := After(u, OfferBoth(u.window));
      v.store == Cascade(u.store, 1, BOTH, u.window, u.clock).1 && v.clock == u.clock + u.window && v.window == u.window
  {
    AfterTwo(u, CascadeAtOnce(1, BOTH), Tick(u.window));
  }

  lemma AfterAll(w: World, a: seq<Event>, b: seq<Event>, c: seq<Event>, d: seq<Event>)
    ensures After(w, a + (b + (c + d))) == After(After(After(After(w, a), b), c), d)
  {
    AfterBoth(w, a, b + (c + d));
    AfterBoth(After(w, a), b, c + d);
    AfterBoth(After(After(w, a), b), c, d);
  }

  lemma SecondOfferIsLate(w: World, user: Id)
    requires Fresh(w) && w.clock == 0 && w.window >= 0
    ensures var u := After(After(w, TakeHold(user)), OfferLate(w.window, w.window));
      u.clock == u.window == w.window && u.store == LateOffer(Candidate(1, 8, SLOT), TwoWaiting(user), w.window)
  {
    HoldForSecond(w, user);
    OfferComesLate(After(w, TakeHold(user)), Candidate(1, 8, SLOT), TwoWaiting(user));
  }

  lemma BothLeftOver(u: World, user: Id)
    requires u.window >= 0 && u.clock == u.window && u.store == OneElsewhere(user, u.window)
    ensures var v := After(u, OfferBoth(u.window)); LeftOver(v.store, user, u.window) && v.window == u.window && v.clock == 2 * u.window
  {
    OfferForFirst(u.store, user, u.window);
    ServedIsLeftOver(user, u.window);
    BothOffered(u);
  }

  lemma OfferLeftOver(w: World, user: Id)
    requires Fresh(w) && w.clock == 0 && w.window >= 0
    ensures var u := After(After(w, TakeHold(user)), OfferLate(w.window, w.window));
      var v := After(After(u, OfferElsewhere(user)), OfferBoth(w.window));
      LeftOver(v.store, user, w.window) && v.window == w.window && v.clock == 2 * w.window
  {
    SecondOfferIsLate(w, user);
    var u := After(After(w, TakeHold(user)), OfferLate(w.window, w.window));
    OfferedElsewhere(u, user);
    BothLeftOver(After(u, OfferElsewhere(user)), user);
  }

  lemma TwoHoursEndSweep(v: World, user: Id)
    requires LeftOver(v.store, user, v.window) && v.clock == 2 * v.window
    ensures EndsWithHoldLeft(v, 4, BOTH, 2)
  {
    FirstIsReclaimed(v.store, user, v.window);
    FreedRangeFails(v.store, user, v.window);
  }

  // Two holds have expired. In the turn of the one on the two hours the next in line has the late offer.
  lemma LateOfferEndsSweep(w: World, user: Id, es: seq<Event>)
    requires Fresh(w) && w.clock == 0 && w.window >= 0
    requires es == TakeHold(user) + (OfferLate(w.window, w.window) + (OfferElsewhere(user) + OfferBoth(w.window)))
    ensures EndsWithHoldLeft(After(w, es), 4, BOTH, 2)
  {
    var u := After(After(w, TakeHold(user)), OfferLate(w.window, w.window));
    AfterAll(w, TakeHold(user), OfferLate(w.window, w.window), OfferElsewhere(user), OfferBoth(w.window));
    OfferLeftOver(w, user);
    TwoHoursEndSweep(After(After(u, OfferElsewhere(user)), OfferBoth(w.window)), user);
  }

  // ---------------------------------------------------------------- an edited hold

  // A hold is moved to another range while its offer stands.
  function MoveHold(to: Range): seq<Event> {
    [JoinWaitlist(0, 1, 7, SLOT), CascadeAtOnce(1, SLOT), EditBooking(0, to)]
  }

  // The slot it left is offered to a second waiter.
  function OfferAgain(user: Id): seq<Event> {
    [JoinWaitlist(1, 1, user, SLOT), CascadeAtOnce(1, SLOT)]
  }

  // A third one joins, and both offers run out.
  function RunOutBehind(window: nat): seq<Event> {
    [JoinWaitlist(2, 1, 9, SLOT), Tick(window)]
  }

  function HoldMoved(window: int): Store {
    Store(map[0 := Booking(1, 7, None, NEXT, Held, Some(window), None, None, None)],
          map[1 := Offer(0, 0, 1, SLOT, Active, window, 0)], map[0 := Entry(1, 7, SLOT, Offered, 0)], 2)
  }

  lemma ThenHoldMoves(w: World)
    requires Fresh(w) && w.clock == 0 && w.window >= 0
    ensures var v := Apply(Apply(Apply(w, JoinWaitlist(0, 1, 7, SLOT)), CascadeAtOnce(1, SLOT)), EditBooking(0, NEXT));
      v.store == HoldMoved(w.window) && v.clock == 0 && v.window == w.window
  {
    JoinThenCascade(w);
  }

  lemma HoldIsMoved(w: World)
    requires Fresh(w) && w.clock == 0 && w.window >= 0
    ensures var v := After(w, MoveHold(NEXT)); v.store == HoldMoved(w.window) && v.clock == 0 && v.window == w.window
  {
    ThenHoldMoves(w);
    AfterThree(w, JoinWaitlist(0, 1, 7, SLOT), CascadeAtOnce(1, SLOT), EditBooking(0, NEXT));
  }

  function OfferedTwice(user: Id, window: int): Store {
    var s := HoldMoved(window);
    Store(s.bookings[2 := Booking(1, user, None, SLOT, Held, Some(window), None, None, None)],
          s.offers[3 := Offer(1, 2, 1, SLOT, Active, window, 0)], s.entries[1 := Entry(1, user, SLOT, Offered, 0)], 4)
  }

  function SecondWaits(user: Id, window: int): Store {
    var s := HoldMoved(window);
    s.(entries := s.entries[1 := Entry(1, user, SLOT, Waiting, 0)])
  }

  lemma ServedTwice(user: Id, window: int)
    ensures Served(SecondWaits(user, window), 1, window, 0) == OfferedTwice(user, window)
  {}

  lemma SlotIsOfferedAgain(s: Store, user: Id, window: int)
    requires user != 7 && s == SecondWaits(user, window)
    ensures Cascade(s, 1, SLOT, window, 0).1 == Served(s, 1, window, 0)
  {
    FirstIsServed(s, 1, SLOT, window, 0, 1);
  }

  lemma SecondJoins(v: World, user: Id)
    requires user != 7 && v.clock == 0 && v.store == HoldMoved(v.window)
    ensures var u := Apply(v, JoinWaitlist(1, 1, user, SLOT));
      u.store == SecondWaits(user, v.window) && u.clock == 0 && u.window == v.window
  {
    var u := Apply(v, JoinWaitlist(1, 1, user, SLOT));
    assert u.store.entries == SecondWaits(user, v.window).entries;
  }

  lemma SecondIsOffered(v: World, user: Id)
    requires user != 7 && v.clock == 0 && v.store == HoldMoved(v.window)
    ensures var u := After(v, OfferAgain(user)); u.store == OfferedTwice(user, v.window) && u.clock == 0 && u.window == v.window
  {
    SecondJoins(v, user);
    SlotIsOfferedAgain(SecondWaits(user, v.window), user, v.window);
    ServedTwice(user, v.window);
    AfterTwo(v, JoinWaitlist(1, 1, user, SLOT), CascadeAtOnce(1, SLOT));
  }

  function ThirdWaits(user: Id, window: int): Store {
    var s := OfferedTwice(user, window);
    s.(entries := s.entries[2 := Entry(1, 9, SLOT, Waiting, 0)])
  }

  lemma OffersRunOut(u: World, user: Id)
    requires user != 9 && u.clock == 0 && u.window >= 0 && u.store == OfferedTwice(user, u.window)
    ensures var v := After(u, RunOutBehind(u.window)); v.store == ThirdWaits(user, u.window) && v.clock == v.window == u.window
  {
    AfterTwo(u, JoinWaitlist(2, 1, 9, SLOT), Tick(u.window));
  }

  lemma MovedIsReclaimed(s: Store, user: Id, window: int)
    requires s == ThirdWaits(user, window)
    ensures var (outcome, t) := Reap(s, 0, window);
      && outcome == ReclaimedOffer(SLOT) && t.entries == s.entries[0 := Entry(1, 7, SLOT, Lapsed, 0)]
      && t.bookings == s.bookings[0 := Booking(1, 7, None, NEXT, Cancelled, None, Some(window), None, None)]
      && t.offers == s.offers[1 := s.offers[1].(status := Expired)]
  {
    assert HasActiveOffer(s, 0) by { assert s.offers[1].hold == 0; }
    assert ActiveOffer(s, 0) == 1;
  }

  lemma ThirdIsPinned(s: Store, user: Id, window: int)
    requires s == ThirdWaits(user, window)
    ensures var t := Reap(s, 0, window).1; Cascade(t, 1, SLOT, window, window) == (Failed, t) && 2 in Sweep.ExpiredHolds(t, window)
  {
    MovedIsReclaimed(s, user, window);
    var t := Reap(s, 0, window).1;
    FirstInLine(t, 1, SLOT, window, 2);
    assert Pinned(t, 1, SLOT, window) by {
      assert t.offers[3].hold == 2 && Reclaimable(t.bookings[2], 1, SLOT, window);
    }
  }

  lemma AfterStages(w: World, a: seq<Event>, b: seq<Event>, c: seq<Event>)
    ensures After(w, a + (b + c)) == After(After(After(w, a), b), c)
  {
    AfterBoth(w, a, b + c);
    AfterBoth(After(w, a), b, c);
  }

  lemma ThirdIsLeft(w: World, user: Id)
    requires Fresh(w) && w.clock == 0 && w.window >= 0 && user != 7 && user != 9
    ensures var v := After(After(After(w, MoveHold(NEXT)), OfferAgain(user)), RunOutBehind(w.window));
      v.store == ThirdWaits(user, w.window) && v.clock == v.window == w.window
  {
    HoldIsMoved(w);
    SecondIsOffered(After(w, MoveHold(NEXT)), user);
    OffersRunOut(After(After(w, MoveHold(NEXT)), OfferAgain(user)), user);
  }

  lemma MovedHoldEndsSweep(v: World, user: Id)
    requires v.store == ThirdWaits(user, v.window) && v.clock == v.window
    ensures EndsWithHoldLeft(v, 0, SLOT, 2)
  {
    MovedIsReclaimed(v.store, user, v.window);
    ThirdIsPinned(v.store, user, v.window);
  }

  // The moved hold's offer still frees the slot, where the second hold has expired, was offered, and so stays.
  lemma EditedHoldEndsSweep(w: World, user: Id, es: seq<Event>)
    requires Fresh(w) && w.clock == 0 && w.window >= 0 && user != 7 && user != 9
    requires es == MoveHold(NEXT) + (OfferAgain(user) + RunOutBehind(w.window))
    ensures EndsWithHoldLeft(After(w, es), 0, SLOT, 2)
  {
    AfterStages(w, MoveHold(NEXT), OfferAgain(user), RunOutBehind(w.window));
    ThirdIsLeft(w, user);
    MovedHoldEndsSweep(After(After(After(w, MoveHold(NEXT)), OfferAgain(user)), RunOutBehind(w.window)), user);
  }
}
