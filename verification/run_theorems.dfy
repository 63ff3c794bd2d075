/** The promises of the booking and waitlist tables, for every run from empty tables. */
module RunTheorems {
  import opened Tables
  import opened Transactions
  import opened Interleaving
  import Queue

  // No double booking, and expires_at is set exactly on held rows.
  lemma NeverDoubleBooked(w: World, es: seq<Event>)
    requires Fresh(w)
    ensures var s := After(w, es).store;
      && (forall i, j | i in s.bookings && j in s.bookings && i != j
            && s.bookings[i].status != Cancelled && s.bookings[j].status != Cancelled
            && s.bookings[i].resource == s.bookings[j].resource ::
            s.bookings[i].range.hi <= s.bookings[j].range.lo || s.bookings[j].range.hi <= s.bookings[i].range.lo)
      && (forall i | i in s.bookings :: s.bookings[i].expiresAt.Some? <==> s.bookings[i].status == Held)
  {
    RunKeepsInv(w, es);
    var s := After(w, es).store;
    forall i, j | i in s.bookings && j in s.bookings && i != j && s.bookings[i].Occupies() && s.bookings[j].Occupies()
      && s.bookings[i].resource == s.bookings[j].resource
      ensures s.bookings[i].range.hi <= s.bookings[j].range.lo || s.bookings[j].range.hi <= s.bookings[i].range.lo
    {
      assert !s.bookings[j].Blocks(s.bookings[i].resource, s.bookings[i].range);
    }
  }

  // What the indexes over offers and entries forbid never happens: two active offers for an entry, two offers on a hold,
  // or a user twice in the queue for a slot.
  lemma IndexesHold(w: World, es: seq<Event>)
    requires Fresh(w)
    ensures var s := After(w, es).store;
      && (forall o, p | o in s.offers && p in s.offers && o != p ::
            && s.offers[o].hold != s.offers[p].hold
            && !(s.offers[o].status == Active && s.offers[p].status == Active && s.offers[o].entry == s.offers[p].entry))
      && (forall e, f | e in s.entries && f in s.entries && e != f
            && (s.entries[e].status == Waiting || s.entries[e].status == Offered)
            && (s.entries[f].status == Waiting || s.entries[f].status == Offered) ::
            !(s.entries[e].user == s.entries[f].user && s.entries[e].resource == s.entries[f].resource
              && s.entries[e].range == s.entries[f].range))
  {
    RunKeepsInv(w, es);
    var s := After(w, es).store;
    forall e, f | e in s.entries && f in s.entries && e != f && s.entries[e].Live() && s.entries[f].Live()
      ensures !s.entries[e].SameSlot(s.entries[f])
    {}
  }

  // An offer always has a hold row; while the hold stands the offer is active and expires with it; an accepted
  // offer's hold stands no more; and an active offer written in time still has its hold.
  lemma OffersReserve(w: World, es: seq<Event>, o: Id)
    requires Fresh(w) && o in After(w, es).store.offers
    ensures var s := After(w, es).store; var offer := s.offers[o];
      && offer.hold in s.bookings
      && (s.HoldsAt(offer.hold) ==> offer.status == Active && s.bookings[offer.hold].expiresAt == Some(offer.expiresAt))
      && (offer.status == Accepted ==> !s.HoldsAt(offer.hold))
      && (offer.createdAt < offer.expiresAt ==> (offer.status == Active <==> s.HoldsAt(offer.hold)))
  {
    RunKeepsInv(w, es);
  }

  // For an offer written in time, its entry's owner can accept exactly while it is active and has not run out.
  lemma OwnerCanAcceptExactlyWhenLive(w: World, es: seq<Event>, o: Id)
    requires Fresh(w) && o in After(w, es).store.offers
    requires After(w, es).store.offers[o].createdAt < After(w, es).store.offers[o].expiresAt
    ensures var v := After(w, es); var offer := v.store.offers[o];
      && offer.entry in v.store.entries
      && (Accept(v.store, o, v.store.entries[offer.entry].user, v.clock).0.Booked?
          <==> offer.status == Active && v.clock < offer.expiresAt)
  {
    RunKeepsInv(w, es);
  }

  // A row that was handed out and is not held never becomes held.
  lemma {:induction false} HoldNeverReturns(w: World, es: seq<Event>, m: nat, n: nat, id: Id)
    requires Fresh(w) && m <= n <= |es|
    requires id < After(w, es[..m]).store.nextId && !After(w, es[..m]).store.HoldsAt(id)
    ensures id < After(w, es[..n]).store.nextId && !After(w, es[..n]).store.HoldsAt(id)
    decreases n
  {
    if m < n {
      HoldNeverReturns(w, es, m, n - 1, id);
      NextEventHoldsNone(w, es, n - 1, id);
    }
  }

  lemma NextEventHoldsNone(w: World, es: seq<Event>, n: nat, id: Id)
    requires Fresh(w) && n < |es|
    requires id < After(w, es[..n]).store.nextId && !After(w, es[..n]).store.HoldsAt(id)
    ensures id < After(w, es[..n + 1]).store.nextId && !After(w, es[..n + 1]).store.HoldsAt(id)
  {
    AfterPrefix(w, es, n);
    RunKeepsInv(w, es[..n]);
    StepKeepsInv(After(w, es[..n]), es[n]);
  }

  // Event n of the run takes row `id` out of held.
  ghost predicate Resolves(w: World, es: seq<Event>, n: nat, id: Id)
    requires n < |es|
  {
    After(w, es[..n]).store.HoldsAt(id) && !After(w, es[..n + 1]).store.HoldsAt(id)
  }

  lemma HeldRowIsKnown(w: World, es: seq<Event>, n: nat, id: Id)
    requires Fresh(w) && n < |es| && After(w, es[..n]).store.HoldsAt(id)
    ensures id < After(w, es[..n + 1]).store.nextId
  {
    RunKeepsInv(w, es[..n]);
    AfterPrefix(w, es, n);
    StepKeepsInv(After(w, es[..n]), es[n]);
  }

  // Every hold is resolved at most once over any run.
  lemma HoldResolvedAtMostOnce(w: World, es: seq<Event>, m: nat, n: nat, id: Id)
    requires Fresh(w) && m < |es| && n < |es|
    requires Resolves(w, es, m, id) && Resolves(w, es, n, id)
    ensures m == n
  {
    var lo, hi := if m < n then m else n, if m < n then n else m;
    if lo < hi {
      HeldRowIsKnown(w, es, lo, id);
      HoldNeverReturns(w, es, lo + 1, hi, id);
    }
  }

  // The four ways out of held.
  datatype Resolution = ByAccept | ByDecline | ByReaper | ByCleanup

  ghost predicate ResolvedBy(w: World, e: Event, id: Id, how: Resolution) {
    var s, t := w.store, StoreAfter(w, e);
    s.HoldsAt(id) &&
    match how
    case ByAccept =>
      && e.AcceptOffer? && e.offer in s.offers && s.offers[e.offer].hold == id
      && s.bookings[id].user == e.user && !s.bookings[id].ExpiredBy(w.clock)
      && id in t.bookings && t.bookings[id] == s.bookings[id].(status := Confirmed, expiresAt := None)
      && t.offers[e.offer].status == Accepted
    case ByDecline =>
      && e.DeclineOffer? && e.offer in s.offers && s.offers[e.offer].hold == id
      && id in t.bookings && t.bookings[id].status == Cancelled && t.offers[e.offer].status == Declined
    case ByReaper =>
      && e.ReapHold? && e.booking == id && s.bookings[id].ExpiredBy(e.sweptAt) && e.sweptAt <= w.clock
      && id in t.bookings && t.bookings[id].status == Cancelled
      && forall o | o in s.offers && s.offers[o].hold == id :: t.offers[o].status == Expired
    case ByCleanup =>
      && (e.Book? || e.StepWorker? || e.CascadeAtOnce?)
      && s.bookings[id].ExpiredBy(w.clock) && id !in t.bookings && !Referenced(s, id)
  }

  lemma CreateDeletesOnlyLoneExpired(s: Store, req: CreateRequest, now: Instant, id: Id)
    requires BookingsSound(s) && s.HoldsAt(id) && !Create(s, req, now).1.HoldsAt(id)
    ensures s.bookings[id].ExpiredBy(now) && id !in Create(s, req, now).1.bookings && !Referenced(s, id)
  {}

  // Exactly one of them applies whenever an event of a run takes a row out of held.
  lemma ResolutionIsOneOfFour(w: World, es: seq<Event>, n: nat, id: Id)
    requires Fresh(w) && n < |es| && Resolves(w, es, n, id)
    ensures exists how :: ResolvedBy(After(w, es[..n]), es[n], id, how)
    ensures forall how, other | ResolvedBy(After(w, es[..n]), es[n], id, how) && ResolvedBy(After(w, es[..n]), es[n], id, other) ::
      how == other
  {
    RunKeepsInv(w, es[..n]);
    AfterPrefix(w, es, n);
    var v, e := After(w, es[..n]), es[n];
    var how := WayOut(v, e, id);
  }

  lemma WayOut(w: World, e: Event, id: Id) returns (how: Resolution)
    requires Inv(w) && w.store.HoldsAt(id) && !StoreAfter(w, e).HoldsAt(id)
    ensures ResolvedBy(w, e, id, how)
  {
    match e
    case AcceptOffer(o, u) => how := ByAccept; AcceptedAway(w, o, u, id);
    case DeclineOffer(o) => how := ByDecline; DeclinedAway(w, o, id);
    case ReapHold(b, sweptAt) => how := ByReaper; ReapedAway(w, b, sweptAt, id);
    case _ => how := ByCleanup; CleanedUp(w, e, id);
  }

  lemma AcceptedAway(w: World, o: Id, user: Id, id: Id)
    requires Inv(w) && w.store.HoldsAt(id) && !StoreAfter(w, AcceptOffer(o, user)).HoldsAt(id)
    ensures ResolvedBy(w, AcceptOffer(o, user), id, ByAccept)
  {}

  lemma DeclinedAway(w: World, o: Id, id: Id)
    requires Inv(w) && w.store.HoldsAt(id) && !StoreAfter(w, DeclineOffer(o)).HoldsAt(id)
    ensures ResolvedBy(w, DeclineOffer(o), id, ByDecline)
  {}

  lemma ReapedAway(w: World, b: Id, sweptAt: Instant, id: Id)
    requires Inv(w) && w.store.HoldsAt(id) && !StoreAfter(w, ReapHold(b, sweptAt)).HoldsAt(id)
    ensures ResolvedBy(w, ReapHold(b, sweptAt), id, ByReaper)
  {
    ReaperExpiresOffer(w, b, sweptAt);
  }

  lemma CleanedUp(w: World, e: Event, id: Id)
    requires Inv(w) && w.store.HoldsAt(id) && !StoreAfter(w, e).HoldsAt(id)
    requires !e.AcceptOffer? && !e.DeclineOffer? && !e.ReapHold?
    ensures ResolvedBy(w, e, id, ByCleanup)
  {
    match e
    case Book(r, u, series, range) =>
      CreateDeletesOnlyLoneExpired(w.store, CreateRequest(r, u, series, range, None), w.clock, id);
    case StepWorker(k) => StepDeletesOnlyLoneExpired(w, k, id);
    case CascadeAtOnce(r, freed) => CascadeDeletesOnlyLoneExpired(w, r, freed, id);
    case _ =>
  }

  lemma StepDeletesOnlyLoneExpired(w: World, k: Id, id: Id)
    requires Inv(w) && w.store.HoldsAt(id) && !StoreAfter(w, StepWorker(k)).HoldsAt(id)
    ensures w.store.bookings[id].ExpiredBy(w.clock) && id !in StoreAfter(w, StepWorker(k)).bookings
    ensures !Referenced(w.store, id)
  {
    var worker := w.workers[k];
    if worker.Trying? && worker.left != [] {
      var c := worker.left[0];
      CreateDeletesOnlyLoneExpired(w.store, CreateRequest(worker.resource, c.user, None, c.range, Some(w.window)), w.clock, id);
    }
  }

  lemma ReaperExpiresOffer(w: World, b: Id, sweptAt: Instant)
    requires Inv(w) && w.store.HoldsAt(b) && !StoreAfter(w, ReapHold(b, sweptAt)).HoldsAt(b)
    ensures forall o | o in w.store.offers && w.store.offers[o].hold == b ::
      StoreAfter(w, ReapHold(b, sweptAt)).offers[o].status == Expired
  {
    assert forall o | o in w.store.offers && w.store.offers[o].hold == b :: w.store.offers[o].status == Active;
  }

  lemma CascadeDeletesOnlyLoneExpired(w: World, r: Id, freed: Range, id: Id)
    requires Inv(w) && w.store.HoldsAt(id) && !StoreAfter(w, CascadeAtOnce(r, freed)).HoldsAt(id)
    ensures w.store.bookings[id].ExpiredBy(w.clock) && id !in StoreAfter(w, CascadeAtOnce(r, freed)).bookings
    ensures !Referenced(w.store, id)
  {
    var winner := Queue.Winner(w.store, r, freed, w.clock);
    if winner.Some? {
      CreateDeletesOnlyLoneExpired(w.store, Queue.HoldRequest(w.store.entries[winner.value], w.window), w.clock, id);
    }
  }

  // At any instant, the owner's acceptance and the reaper want opposite things of a hold.
  lemma AcceptAndReapAreComplementary(w: World, es: seq<Event>, id: Id, at: Instant)
    requires Fresh(w) && After(w, es).store.HoldsAt(id)
    ensures var b := After(w, es).store.bookings[id]; Acceptable(b, b.user, at) <==> !b.ExpiredBy(at)
  {
    RunKeepsInv(w, es);
  }
}
