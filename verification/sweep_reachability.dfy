/** Runs, with real workers, that leave the tables as a sweep relies on. */
module SweepReachability {
  import opened Tables
  import opened Transactions
  import opened KeyOrder
  import opened Queue
  import opened Interleaving
  import opened Sweep

  // No held row is edited.
  ghost predicate Orderly(w: World, e: Event) {
    e.EditBooking? ==> !w.store.HoldsAt(e.booking)
  }

  ghost predicate OrderlyRun(w: World, es: seq<Event>) {
    forall n | 0 <= n < |es| :: Orderly(After(w, es[..n]), es[n])
  }

  // ---------------------------------------------------------------- what an orderly run keeps

  ghost predicate OnTerms(s: Store, o: Offer) {
    && MatchesEntry(s, o)
    && (s.HoldsAt(o.hold) ==> s.bookings[o.hold].range == o.range && s.bookings[o.hold].resource == o.resource)
  }

  ghost predicate OffersOnTerms(s: Store) {
    forall o | o in s.offers :: OnTerms(s, s.offers[o])
  }

  ghost predicate CandidateOnTerms(s: Store, resource: Id, c: Candidate) {
    c.entry in s.entries && s.entries[c.entry].resource == resource && s.entries[c.entry].range == c.range
  }

  ghost predicate WorkerOnTerms(s: Store, k: Worker) {
    match k
    case Trying(resource, left) => forall i | 0 <= i < |left| :: CandidateOnTerms(s, resource, left[i])
    case HoldTaken(resource, c, hold, _) =>
      && CandidateOnTerms(s, resource, c) && hold < s.nextId
      && (s.HoldsAt(hold) ==> s.bookings[hold].range == c.range && s.bookings[hold].resource == resource)
    case OfferWritten(_) => true
    case Finished => true
  }

  ghost predicate WorkersOnTerms(s: Store, workers: map<Id, Worker>) {
    forall k | k in workers :: WorkerOnTerms(s, workers[k])
  }

  // Rows already there keep their terms, nothing becomes held again, and new offers are on theirs.
  ghost predicate TermsKept(s: Store, t: Store) {
    && s.nextId <= t.nextId
    && (forall i: Id | i < s.nextId && t.HoldsAt(i) ::
          s.HoldsAt(i) && t.bookings[i].range == s.bookings[i].range && t.bookings[i].resource == s.bookings[i].resource)
    && (forall e | e in s.entries :: e in t.entries && t.entries[e].SameSlot(s.entries[e]))
    && (forall o | o in t.offers :: (o in s.offers && t.offers[o] == s.offers[o].(status := t.offers[o].status)) || OnTerms(t, t.offers[o]))
  }

  lemma OffersStayOnTerms(s: Store, t: Store)
    requires OffersOnTerms(s) && TermsKept(s, t) && ReferencesSound(s) && IdsHandedOut(s) && BookingsSound(s)
    ensures OffersOnTerms(t)
  {
    forall o | o in t.offers ensures OnTerms(t, t.offers[o]) {
      if o in s.offers { assert OnTerms(s, s.offers[o]); }
    }
  }

  lemma WorkerStaysOnTerms(s: Store, t: Store, k: Worker)
    requires WorkerOnTerms(s, k) && TermsKept(s, t)
    ensures WorkerOnTerms(t, k)
  {
    if k.Trying? {
      forall i | 0 <= i < |k.left| ensures CandidateOnTerms(t, k.resource, k.left[i]) {
        assert CandidateOnTerms(s, k.resource, k.left[i]);
      }
    }
  }

  // ---------------------------------------------------------------- each event

  lemma CreateKeepsTerms(s: Store, req: CreateRequest, now: Instant)
    requires BookingsSound(s)
    ensures TermsKept(s, Create(s, req, now).1)
  {}

  lemma InsertKeepsTerms(s: Store, s1: Store, entry: Id, hold: Id, resource: Id, range: Range, expiresAt: Instant, now: Instant)
    requires TermsKept(s, s1) && s1.offers == s.offers
    requires entry in s1.entries ==> s1.entries[entry].resource == resource && s1.entries[entry].range == range
    requires s1.HoldsAt(hold) ==> s1.bookings[hold].range == range && s1.bookings[hold].resource == resource
    ensures TermsKept(s, InsertOffer(s1, entry, hold, resource, range, expiresAt, now).1)
  {}

  lemma MarkKeepsTerms(s: Store, s2: Store, entry: Id)
    requires TermsKept(s, s2)
    ensures TermsKept(s, MarkOffered(s2, entry).1)
  {
    var t := MarkOffered(s2, entry).1;
    forall o | o in t.offers
      ensures (o in s.offers && t.offers[o] == s.offers[o].(status := t.offers[o].status)) || OnTerms(t, t.offers[o])
    {
      assert t.offers[o] == s2.offers[o];
      if OnTerms(s2, s2.offers[o]) { assert OnTerms(t, t.offers[o]); }
    }
  }

  lemma OfferToKeepsTerms(s: Store, entry: Id, window: int, now: Instant)
    requires BookingsSound(s) && entry in s.entries
    ensures TermsKept(s, OfferTo(s, entry, window, now).1)
  {
    var e := s.entries[entry];
    var (held, s1) := Create(s, HoldRequest(e, window), now);
    CreateKeepsTerms(s, HoldRequest(e, window), now);
    if held.Done? {
      CreatedHold(s, HoldRequest(e, window), now);
      InsertKeepsTerms(s, s1, entry, held.id, e.resource, e.range, now + window, now);
      MarkKeepsTerms(s, InsertOffer(s1, entry, held.id, e.resource, e.range, now + window, now).1, entry);
    }
  }

  lemma AcceptKeepsTerms(s: Store, offer: Id, user: Id, now: Instant)
    ensures TermsKept(s, Accept(s, offer, user, now).1)
  {}

  lemma DeclineKeepsTerms(s: Store, offer: Id, now: Instant)
    ensures TermsKept(s, Decline(s, offer, now).1)
  {}

  lemma ReapKeepsTerms(s: Store, hold: Id, now: Instant)
    ensures TermsKept(s, Reap(s, hold, now).1)
  {}

  lemma PlainEventKeepsTerms(w: World, e: Event)
    requires Orderly(w, e)
    requires e.Tick? || e.EditBooking? || e.CancelBooking? || e.CancelWholeSeries? || e.TransferBooking? || e.JoinWaitlist?
      || e.WithdrawFromWaitlist? || e.StartWorker? || e.CrashWorker?
    ensures TermsKept(w.store, StoreAfter(w, e))
  {}

  lemma EventKeepsTerms(w: World, e: Event)
    requires Inv(w) && Orderly(w, e) && !e.StepWorker?
    ensures TermsKept(w.store, StoreAfter(w, e))
  {
    var s := w.store;
    match e
    case Book(r, u, series, range) => CreateKeepsTerms(s, CreateRequest(r, u, series, range, None), w.clock);
    case AcceptOffer(o, u) => AcceptKeepsTerms(s, o, u, w.clock);
    case DeclineOffer(o) => DeclineKeepsTerms(s, o, w.clock);
    case ReapHold(b, at) => ReapKeepsTerms(s, b, at); PlainEventKeepsTerms(w, Tick(0));
    case CascadeAtOnce(r, freed) =>
      var winner := Winner(s, r, freed, w.clock);
      if winner.Some? { OfferToKeepsTerms(s, winner.value, w.window, w.clock); } else { PlainEventKeepsTerms(w, Tick(0)); }
    case _ => PlainEventKeepsTerms(w, e);
  }

  lemma StepKeepsTerms(w: World, k: Id)
    requires Inv(w) && k in w.workers && WorkerOnTerms(w.store, w.workers[k])
    ensures TermsKept(w.store, StoreAfter(w, StepWorker(k)))
    ensures WorkerOnTerms(StoreAfter(w, StepWorker(k)), StepOf(w.store, w.workers[k], w.window, w.clock).0)
  {
    var s := w.store;
    PlainEventKeepsTerms(w, Tick(0));
    match w.workers[k]
    case Trying(resource, left) =>
      if left != [] { TryingKeepsTerms(w, k); }
    case HoldTaken(resource, c, hold, expiresAt) =>
      InsertKeepsTerms(s, s, c.entry, hold, resource, c.range, expiresAt, w.clock);
    case OfferWritten(entry) => MarkKeepsTerms(s, s, entry);
    case Finished =>
  }

  lemma TryingKeepsTerms(w: World, k: Id)
    requires Inv(w) && k in w.workers && WorkerOnTerms(w.store, w.workers[k])
    requires w.workers[k].Trying? && w.workers[k].left != []
    ensures TermsKept(w.store, StoreAfter(w, StepWorker(k)))
    ensures WorkerOnTerms(StoreAfter(w, StepWorker(k)), StepOf(w.store, w.workers[k], w.window, w.clock).0)
  {
    var s, worker := w.store, w.workers[k];
    var c := worker.left[0];
    var req := CreateRequest(worker.resource, c.user, None, c.range, Some(w.window));
    var (held, t) := Create(s, req, w.clock);
    CreateKeepsTerms(s, req, w.clock);
    assert CandidateOnTerms(s, worker.resource, c);
    if held.Done? {
      CreatedHold(s, req, w.clock);
    } else {
      WorkerStaysOnTerms(s, t, Trying(worker.resource, worker.left[1..]));
    }
  }

  lemma ListOnTerms(s: Store, resource: Id, freed: Range)
    ensures WorkerOnTerms(s, Trying(resource, CandidateList(s, resource, freed)))
  {
    var keys := Ascending(EligibleKeys(s, resource, freed));
    forall i | 0 <= i < |keys| ensures CandidateOnTerms(s, resource, CandidateOf(s, keys[i])) {
      assert keys[i] in keys;
    }
  }

  lemma ApplyKeepsTerms(w: World, e: Event)
    requires Inv(w) && Orderly(w, e) && OffersOnTerms(w.store) && WorkersOnTerms(w.store, w.workers)
    ensures OffersOnTerms(StoreAfter(w, e)) && WorkersOnTerms(StoreAfter(w, e), WorkersAfter(w, e))
  {
    var s, t := w.store, StoreAfter(w, e);
    if e.StepWorker? && e.worker in w.workers {
      StepKeepsTerms(w, e.worker);
    } else if e.StepWorker? {
      PlainEventKeepsTerms(w, Tick(0));
    } else {
      EventKeepsTerms(w, e);
    }
    OffersStayOnTerms(s, t);
    if e.StartWorker? { ListOnTerms(s, e.resource, e.freed); }
    forall k | k in WorkersAfter(w, e) ensures WorkerOnTerms(t, WorkersAfter(w, e)[k]) {
      if k in w.workers && WorkersAfter(w, e)[k] == w.workers[k] { WorkerStaysOnTerms(s, t, w.workers[k]); }
    }
  }

  // ---------------------------------------------------------------- every orderly run

  lemma OrderlyPrefix(w: World, es: seq<Event>, n: nat)
    requires OrderlyRun(w, es) && n <= |es|
    ensures OrderlyRun(w, es[..n]) && (n < |es| ==> Orderly(After(w, es[..n]), es[n]))
  {
    forall k | 0 <= k < n ensures Orderly(After(w, es[..n][..k]), es[..n][k]) {
      assert es[..n][..k] == es[..k];
    }
  }

  lemma {:induction false} RunKeepsTerms(w: World, es: seq<Event>)
    requires Fresh(w) && OrderlyRun(w, es)
    ensures OffersOnTerms(After(w, es).store) && WorkersOnTerms(After(w, es).store, After(w, es).workers)
  {
    if es != [] {
      var n := |es| - 1;
      OrderlyPrefix(w, es, n);
      RunKeepsTerms(w, es[..n]);
      RunKeepsInv(w, es[..n]);
      ApplyKeepsTerms(After(w, es[..n]), es[n]);
    }
  }

  // After any run of transactions and workers, crashes and late offers included, in which no held row was edited, the
  // tables are such as a sweep relies on.
  lemma RunsLeaveTablesSweepable(w: World, es: seq<Event>)
    requires Fresh(w) && OrderlyRun(w, es)
    ensures Sweepable(After(w, es).store)
  {
    RunKeepsInv(w, es);
    RunKeepsTerms(w, es);
    OnTermsIsSweepable(After(w, es).store);
  }

  lemma OnTermsIsSweepable(s: Store)
    requires BookingsSound(s) && OffersSound(s) && EntriesSound(s) && OffersOnTerms(s)
    ensures Sweepable(s)
  {
    assert forall o | o in s.offers :: OnTerms(s, s.offers[o]);
  }

  // ---------------------------------------------------------------- runs after which nothing halts a sweep

  // Every worker writes its offer before the hold runs out.
  ghost predicate Timely(w: World, e: Event) {
    e.StepWorker? && e.worker in w.workers && w.workers[e.worker].HoldTaken? ==> w.clock < w.workers[e.worker].expiresAt
  }

  ghost predicate TimelyRun(w: World, es: seq<Event>) {
    forall n | 0 <= n < |es| :: Timely(After(w, es[..n]), es[n])
  }

  ghost predicate OffersInTime(s: Store) {
    forall o | o in s.offers :: s.offers[o].createdAt < s.offers[o].expiresAt
  }

  lemma OfferToKeepsInTime(s: Store, entry: Id, window: int, now: Instant)
    requires OffersInTime(s) && entry in s.entries && window > 0
    ensures OffersInTime(OfferTo(s, entry, window, now).1)
  {}

  lemma EventKeepsInTime(w: World, e: Event)
    requires w.window > 0 && OffersInTime(w.store) && Timely(w, e)
    ensures OffersInTime(StoreAfter(w, e))
  {
    if e.CascadeAtOnce? {
      var winner := Winner(w.store, e.resource, e.freed, w.clock);
      if winner.Some? { OfferToKeepsInTime(w.store, winner.value, w.window, w.clock); }
    }
  }

  lemma {:induction false} RunKeepsInTime(w: World, es: seq<Event>)
    requires Fresh(w) && w.window > 0 && TimelyRun(w, es)
    ensures After(w, es).window == w.window && OffersInTime(After(w, es).store)
  {
    if es != [] {
      var n := |es| - 1;
      forall k | 0 <= k < n ensures Timely(After(w, es[..n][..k]), es[..n][k]) { assert es[..n][..k] == es[..k]; }
      RunKeepsInTime(w, es[..n]);
      EventKeepsInTime(After(w, es[..n]), es[n]);
    }
  }

  // So a sweep of these tables runs to its end, at whatever time it is started.
  lemma TimelyRunsHaltNothing(w: World, es: seq<Event>, now: Instant)
    requires Fresh(w) && w.window > 0 && OrderlyRun(w, es) && TimelyRun(w, es)
    ensures Sweepable(After(w, es).store) && NothingHalts(After(w, es).store, now)
  {
    var s := After(w, es).store;
    RunsLeaveTablesSweepable(w, es);
    RunKeepsInTime(w, es);
    RunKeepsInv(w, es);
    assert OffersBacked(s);
    forall h | h in ExpiredHolds(s, now) ensures !Halts(s, h) { BackedOffersHaltNothing(s, h); }
  }
}
