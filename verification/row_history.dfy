/** Where the bookings of a run come from, what becomes of them, and when they go, in their columns alone. */
module RowHistory {
  import opened Tables
  import opened Transactions
  import opened Queue
  import opened Interleaving
  import opened Columns

  // A booking is made exactly when nothing is in the way at that moment but holds that have run out and were not
  // offered; otherwise nothing changes.
  lemma BookedExactlyWhen(w: World, resource: Id, user: Id, series: Option<Id>, range: Range)
    requires Inv(w)
    ensures var s, t := w.store, StoreAfter(w, Book(resource, user, series, range));
      if range.lo < range.hi && CanBook(s, resource, range.lo, range.hi, w.clock)
      then && s.nextId !in s.bookings && s.nextId in t.bookings
           && MadeFor(t.bookings[s.nextId], resource, user, series, range.lo, range.hi, None, w.clock)
      else t == s
  {
    CreateInColumns(w.store, CreateRequest(resource, user, series, range, None), w.clock);
  }

  // ---------------------------------------------------------------- rows that stay

  // What an event may make of a row b: nothing else, and at no other time than the event's own. A hold is released in
  // nobody's name.
  ghost predicate Becomes(w: World, e: Event, b: Booking, c: Booking) {
    c == b || match e
      case EditBooking(_, range) => range.lo < range.hi && c == b.(range := range)
      case TransferBooking(_, user) => b.status != Held && c == b.(user := user)
      case CancelBooking(_, actor, reason) => b.status == Confirmed && CancelledAs(c, b, w.clock, Some(actor), reason)
      case CancelWholeSeries(of, actor, reason) =>
        b.status == Confirmed && b.series == Some(of) && w.clock <= b.range.lo && CancelledAs(c, b, w.clock, Some(actor), reason)
      case AcceptOffer(_, user) =>
        && b.status == Held && b.user == user && b.expiresAt.Some? && w.clock < b.expiresAt.value
        && c == b.(status := Confirmed, expiresAt := None)
      case DeclineOffer(_) => b.status == Held && CancelledAs(c, b, w.clock, b.cancelledBy, b.reason)
      case ReapHold(_, sweptAt) => RanOut(b, sweptAt) && sweptAt <= w.clock && CancelledAs(c, b, sweptAt, b.cancelledBy, b.reason)
      case _ => false
  }

  ghost predicate Kept(s: Store, t: Store, i: Id) {
    i in s.bookings && i in t.bookings
  }

  predicate IsWrite(e: Event) {
    e.EditBooking? || e.TransferBooking? || e.CancelBooking? || e.CancelWholeSeries?
  }

  predicate IsResolution(e: Event) {
    e.AcceptOffer? || e.DeclineOffer? || e.ReapHold?
  }

  lemma WritesChange(w: World, e: Event, i: Id)
    requires IsWrite(e) && i in w.store.bookings
    ensures i in StoreAfter(w, e).bookings && Becomes(w, e, w.store.bookings[i], StoreAfter(w, e).bookings[i])
  {}

  lemma ResolutionsChange(w: World, e: Event, i: Id)
    requires OffersSound(w.store) && IsResolution(e) && i in w.store.bookings
    ensures i in StoreAfter(w, e).bookings && Becomes(w, e, w.store.bookings[i], StoreAfter(w, e).bookings[i])
  {
    match e
    case AcceptOffer(o, user) => AcceptInColumns(w.store, o, user, w.clock);
    case DeclineOffer(o) => DeclineInColumns(w.store, o, w.clock);
    case ReapHold(b, sweptAt) => ReapInColumns(w.store, b, sweptAt);
  }

  // ---------------------------------------------------------------- rows that come and go

  // Rows go only as holds in the way that have run out and were not offered, the rest stay as they are, and a new one
  // is made so.
  ghost predicate OnlyMakes(s: Store, t: Store, resource: Id, user: Id, series: Option<Id>, range: Range, window: Option<int>,
                            now: Instant)
  {
    && (forall i | i in s.bookings && i !in t.bookings ::
          Uses(s.bookings[i], resource, range.lo, range.hi) && RanOut(s.bookings[i], now) && !OfferedHold(s, i))
    && (forall i | Kept(s, t, i) :: t.bookings[i] == s.bookings[i])
    && (forall i | i in t.bookings && i !in s.bookings ::
          MadeFor(t.bookings[i], resource, user, series, range.lo, range.hi, window, now))
  }

  lemma CreateOnlyMakes(s: Store, resource: Id, user: Id, series: Option<Id>, range: Range, window: Option<int>, now: Instant)
    requires IdsHandedOut(s) && ReferencesSound(s)
    ensures OnlyMakes(s, Create(s, CreateRequest(resource, user, series, range, window), now).1, resource, user, series, range, window, now)
  {
    CreateInColumns(s, CreateRequest(resource, user, series, range, window), now);
  }

  // A booking for whoever asked for it, or a hold for an entry that waits, or did when a worker read the queue.
  ghost predicate Makes(w: World, e: Event, t: Store) {
    match e
    case Book(resource, user, series, range) => OnlyMakes(w.store, t, resource, user, series, range, None, w.clock)
    case CascadeAtOnce(resource, freed) =>
      exists id | id in w.store.entries && WaitsWithin(w.store.entries[id], resource, freed) ::
        OnlyMakes(w.store, t, resource, w.store.entries[id].user, None, w.store.entries[id].range, Some(w.window), w.clock)
    case StepWorker(k) =>
      && k in w.workers && w.workers[k].Trying? && w.workers[k].left != []
      && var c := w.workers[k].left[0]; OnlyMakes(w.store, t, w.workers[k].resource, c.user, None, c.range, Some(w.window), w.clock)
    case _ => false
  }

  lemma OfferLeavesBookings(s: Store, entry: Id, window: int, now: Instant)
    requires entry in s.entries
    ensures var held := Create(s, HoldRequest(s.entries[entry], window), now).1;
      OfferTo(s, entry, window, now).1.bookings == held.bookings
  {}

  lemma CascadeMakes(s: Store, resource: Id, freed: Range, window: int, now: Instant)
    requires IdsHandedOut(s) && ReferencesSound(s)
    ensures var t := Cascade(s, resource, freed, window, now).1;
      t.bookings == s.bookings
      || exists id | id in s.entries && WaitsWithin(s.entries[id], resource, freed) ::
           OnlyMakes(s, t, resource, s.entries[id].user, None, s.entries[id].range, Some(window), now)
  {
    var winner := Winner(s, resource, freed, now);
    if winner.Some? {
      var e := s.entries[winner.value];
      assert WaitsWithin(e, resource, freed);
      OfferLeavesBookings(s, winner.value, window, now);
      CreateOnlyMakes(s, e.resource, e.user, None, e.range, Some(window), now);
    }
  }

  lemma StepMakes(w: World, k: Id)
    requires IdsHandedOut(w.store) && ReferencesSound(w.store)
    ensures StoreAfter(w, StepWorker(k)).bookings == w.store.bookings || Makes(w, StepWorker(k), StoreAfter(w, StepWorker(k)))
  {
    if k in w.workers && w.workers[k].Trying? && w.workers[k].left != [] {
      var c := w.workers[k].left[0];
      CreateOnlyMakes(w.store, w.workers[k].resource, c.user, None, c.range, Some(w.window), w.clock);
    }
  }

  // Any event either makes one row, or leaves all there are, each as this event may.
  lemma EventChanges(w: World, e: Event)
    requires Inv(w)
    ensures var s, t := w.store, StoreAfter(w, e);
      Makes(w, e, t) || (t.bookings.Keys == s.bookings.Keys && forall i | i in s.bookings :: Becomes(w, e, s.bookings[i], t.bookings[i]))
  {
    match e
    case Book(resource, user, series, range) => CreateOnlyMakes(w.store, resource, user, series, range, None, w.clock);
    case CascadeAtOnce(resource, freed) => CascadeMakes(w.store, resource, freed, w.window, w.clock);
    case StepWorker(k) => StepMakes(w, k);
    case _ => OtherEventsChange(w, e);
  }

  lemma OtherEventsChange(w: World, e: Event)
    requires Inv(w) && !e.Book? && !e.CascadeAtOnce? && !e.StepWorker?
    ensures StoreAfter(w, e).bookings.Keys == w.store.bookings.Keys
    ensures forall i | i in w.store.bookings :: Becomes(w, e, w.store.bookings[i], StoreAfter(w, e).bookings[i])
  {
    if IsWrite(e) || IsResolution(e) {
      NoNewRow(w, e);
      forall i | i in w.store.bookings
        ensures i in StoreAfter(w, e).bookings && Becomes(w, e, w.store.bookings[i], StoreAfter(w, e).bookings[i])
      {
        if IsWrite(e) { WritesChange(w, e, i); } else { ResolutionsChange(w, e, i); }
      }
    } else {
      assert StoreAfter(w, e).bookings == w.store.bookings;
    }
  }

  lemma NoNewRow(w: World, e: Event)
    requires IsWrite(e) || IsResolution(e)
    ensures StoreAfter(w, e).bookings.Keys <= w.store.bookings.Keys
  {}

  // ---------------------------------------------------------------- over runs

  lemma MadeOrStayed(w: World, es: seq<Event>, k: nat, i: Id)
    requires Fresh(w) && k < |es| && i in After(w, es[..k + 1]).store.bookings
    ensures i in After(w, es[..k]).store.bookings ==> StaysOn(w, es, k, i)
    ensures i !in After(w, es[..k]).store.bookings ==> Makes(After(w, es[..k]), es[k], After(w, es[..k + 1]).store)
  {
    AfterPrefix(w, es, k);
    RunKeepsInv(w, es[..k]);
    EventChanges(After(w, es[..k]), es[k]);
  }

  // Every booking there ever is was made by one event, for its user, as it says; since then it has been there, and each
  // event has made of it what that event may.
  lemma {:induction false} EveryBookingWasMade(w: World, es: seq<Event>, n: nat, i: Id) returns (m: nat)
    requires Fresh(w) && n <= |es| && i in After(w, es[..n]).store.bookings
    ensures m < n && i !in After(w, es[..m]).store.bookings && i in After(w, es[..m + 1]).store.bookings
    ensures Makes(After(w, es[..m]), es[m], After(w, es[..m + 1]).store)
    ensures forall k | m < k < n :: StaysOn(w, es, k, i)
    decreases n
  {
    assert n > 0;
    MadeOrStayed(w, es, n - 1, i);
    if i in After(w, es[..n - 1]).store.bookings {
      m := EveryBookingWasMade(w, es, n - 1, i);
    } else {
      m := n - 1;
    }
  }

  ghost predicate StaysOn(w: World, es: seq<Event>, k: nat, i: Id)
    requires k < |es|
  {
    var v, t := After(w, es[..k]), After(w, es[..k + 1]).store;
    Kept(v.store, t, i) && Becomes(v, es[k], v.store.bookings[i], t.bookings[i])
  }
}
