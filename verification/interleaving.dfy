/**
 Every interleaving of committed transactions. A world is the tables, one clock, and the cascade
 workers, each at some point of its loop; a run is any sequence of events, and an event that is
 refused or not enabled changes nothing, so a theorem about all sequences is about all interleavings.
 */
module Interleaving {
  import opened Tables
  import opened Transactions
  import opened KeyOrder
  import opened Queue
  import opened Preservation

  // One element of a worker's candidate list, as read when the worker started.
  datatype Candidate = Candidate(entry: Id, user: Id, range: Range)

  // create_offer_for_freed_range between its commits.
  datatype Worker =
    | Trying(resource: Id, left: seq<Candidate>)
    | HoldTaken(resource: Id, who: Candidate, hold: Id, expiresAt: Instant)
    | OfferWritten(entry: Id)
    | Finished

  datatype World = World(store: Store, clock: Instant, window: int, workers: map<Id, Worker>)

  datatype Event =
    | Tick(passed: nat)
    | Book(resource: Id, user: Id, series: Option<Id>, range: Range)
    | EditBooking(booking: Id, range: Range)
    | CancelBooking(booking: Id, actor: Id, reason: Option<string>)
    | CancelWholeSeries(of: Id, actor: Id, reason: Option<string>)
    | TransferBooking(booking: Id, user: Id)
    | JoinWaitlist(entry: Id, resource: Id, user: Id, range: Range)
    | WithdrawFromWaitlist(entry: Id)
    | AcceptOffer(offer: Id, user: Id)
    | DeclineOffer(offer: Id)
    | ReapHold(booking: Id, sweptAt: Instant)
    | StartWorker(worker: Id, resource: Id, freed: Range)
    | StepWorker(worker: Id)
    | CrashWorker(worker: Id)
    | CascadeAtOnce(resource: Id, freed: Range)

  ghost function CandidateOf(s: Store, k: Key): Candidate {
    if k.minor >= 0 && k.minor in s.entries
    then Candidate(k.minor, s.entries[k.minor].user, s.entries[k.minor].range)
    else Candidate(0, 0, Range(0, 0))
  }

  ghost function CandidateList(s: Store, resource: Id, freed: Range): seq<Candidate> {
    var keys := Ascending(EligibleKeys(s, resource, freed));
    seq(|keys|, i requires 0 <= i < |keys| => CandidateOf(s, keys[i]))
  }

  ghost function StepOf(s: Store, k: Worker, window: int, now: Instant): (Worker, Store) {
    match k
    case Trying(resource, left) =>
      if left == [] then (Finished, s)
      else
        var c := left[0];
        var (held, t) := Create(s, CreateRequest(resource, c.user, None, c.range, Some(window)), now);
        if held.Done? then (HoldTaken(resource, c, held.id, now + window), t)
        else if held.SlotUnavailable? then (Trying(resource, left[1..]), t)
        else (Finished, t)
    case HoldTaken(resource, c, hold, expiresAt) =>
      var (inserted, t) := InsertOffer(s, c.entry, hold, resource, c.range, expiresAt, now);
      (if inserted.Inserted? then OfferWritten(c.entry) else Finished, t)
    case OfferWritten(entry) => (Finished, MarkOffered(s, entry).1)
    case Finished => (Finished, s)
  }

  // What an event does to the tables.
  ghost function StoreAfter(w: World, e: Event): Store {
    var s := w.store;
    match e
    case Tick(_) => s
    case Book(r, u, series, range) => Create(s, CreateRequest(r, u, series, range, None), w.clock).1
    case EditBooking(b, range) => Edit(s, b, range).1
    case CancelBooking(b, actor, reason) => Cancel(s, b, actor, reason, w.clock).1
    case CancelWholeSeries(series, actor, reason) => CancelSeries(s, series, actor, reason, w.clock)
    case TransferBooking(b, u) => if s.HoldsAt(b) then s else Transfer(s, b, u)
    case JoinWaitlist(id, r, u, range) => Join(s, id, r, u, range, w.clock).1
    case WithdrawFromWaitlist(id) => WithdrawEntry(s, id).1
    case AcceptOffer(o, u) => Accept(s, o, u, w.clock).1
    case DeclineOffer(o) => Decline(s, o, w.clock).1
    case ReapHold(b, sweptAt) => if sweptAt > w.clock then s else Reap(s, b, sweptAt).1
    case StartWorker(_, _, _) => s
    case StepWorker(k) => if k in w.workers then StepOf(s, w.workers[k], w.window, w.clock).1 else s
    case CrashWorker(_) => s
    case CascadeAtOnce(r, freed) => Cascade(s, r, freed, w.window, w.clock).1
  }

  ghost function WorkersAfter(w: World, e: Event): map<Id, Worker> {
    match e
    case StartWorker(k, r, freed) =>
      if k in w.workers then w.workers else w.workers[k := Trying(r, CandidateList(w.store, r, freed))]
    case StepWorker(k) =>
      if k in w.workers then w.workers[k := StepOf(w.store, w.workers[k], w.window, w.clock).0] else w.workers
    case CrashWorker(k) => w.workers - {k}
    case _ => w.workers
  }

  ghost function Apply(w: World, e: Event): World {
    World(StoreAfter(w, e), if e.Tick? then w.clock + e.passed else w.clock, w.window, WorkersAfter(w, e))
  }

  ghost function After(w: World, es: seq<Event>): World {
    if es == [] then w else Apply(After(w, es[..|es| - 1]), es[|es| - 1])
  }

  lemma AfterPrefix(w: World, es: seq<Event>, n: nat)
    requires n < |es|
    ensures After(w, es[..n + 1]) == Apply(After(w, es[..n]), es[n])
  {
    assert es[..n + 1][..n] == es[..n];
  }

  const EmptyStore := Store(map[], map[], map[], 0)

  ghost predicate Fresh(w: World) {
    w.store == EmptyStore && w.workers == map[]
  }

  // ---------------------------------------------------------------- invariant

  ghost predicate KnownCandidate(s: Store, c: Candidate) {
    c.entry in s.entries && s.entries[c.entry].user == c.user
  }

  // What a worker that has taken a hold may rely on until it writes the offer.
  ghost predicate HoldInHand(s: Store, clock: Instant, c: Candidate, hold: Id, expiresAt: Instant) {
    && KnownCandidate(s, c)
    && hold < s.nextId
    && (forall o | o in s.offers :: s.offers[o].hold != hold)
    && (s.HoldsAt(hold) ==> s.bookings[hold].expiresAt == Some(expiresAt) && s.bookings[hold].user == c.user)
    && (clock < expiresAt ==> s.HoldsAt(hold))
  }

  ghost predicate WorkerSound(s: Store, clock: Instant, k: Worker) {
    match k
    case Trying(_, left) => forall i | 0 <= i < |left| :: KnownCandidate(s, left[i])
    case HoldTaken(_, c, hold, expiresAt) => HoldInHand(s, clock, c, hold, expiresAt)
    case OfferWritten(_) => true
    case Finished => true
  }

  ghost predicate WorkersSound(s: Store, clock: Instant, workers: map<Id, Worker>) {
    && (forall k | k in workers :: WorkerSound(s, clock, workers[k]))
    && (forall k, l | k in workers && l in workers && k != l && workers[k].HoldTaken? && workers[l].HoldTaken? ::
          workers[k].hold != workers[l].hold)
  }

  ghost predicate Inv(w: World) {
    && BookingsSound(w.store) && OffersSound(w.store) && EntriesSound(w.store)
    && WorkersSound(w.store, w.clock, w.workers)
  }

  // ---------------------------------------------------------------- what a step may do to holds

  ghost predicate Referenced(s: Store, hold: Id) {
    exists o | o in s.offers :: s.offers[o].hold == hold
  }

  // Holds already known: none comes back, none changes hands or deadline, and one that no offer refers to
  // leaves only once it has run out.
  ghost predicate HoldDiscipline(s: Store, t: Store, clock: Instant) {
    && s.nextId <= t.nextId
    && (forall e | e in s.entries :: e in t.entries && t.entries[e].user == s.entries[e].user)
    && (forall i: Id | i < s.nextId && t.HoldsAt(i) ::
          s.HoldsAt(i) && t.bookings[i].expiresAt == s.bookings[i].expiresAt && t.bookings[i].user == s.bookings[i].user)
    && (forall i: Id | i < s.nextId && s.HoldsAt(i) && !t.HoldsAt(i) ::
          s.bookings[i].ExpiredBy(clock) || Referenced(s, i))
  }

  // Offers written by the step, if any, are on holds the step created.
  ghost predicate OffersOnNewHolds(s: Store, t: Store) {
    forall o | o in t.offers :: (o in s.offers && t.offers[o].hold == s.offers[o].hold) || t.offers[o].hold >= s.nextId
  }

  lemma WorkersKeepSound(s: Store, t: Store, clock: Instant, workers: map<Id, Worker>)
    requires WorkersSound(s, clock, workers) && HoldDiscipline(s, t, clock) && OffersOnNewHolds(s, t)
    ensures WorkersSound(t, clock, workers)
  {
    forall k | k in workers ensures WorkerSound(t, clock, workers[k]) {
      assert WorkerSound(s, clock, workers[k]);
      if workers[k].HoldTaken? {
        assert !Referenced(s, workers[k].hold);
      }
    }
  }

  lemma CreateDiscipline(s: Store, req: CreateRequest, now: Instant)
    requires BookingsSound(s)
    ensures HoldDiscipline(s, Create(s, req, now).1, now) && OffersOnNewHolds(s, Create(s, req, now).1)
  {}

  lemma EditDiscipline(s: Store, id: Id, wanted: Range, now: Instant)
    ensures HoldDiscipline(s, Edit(s, id, wanted).1, now) && OffersOnNewHolds(s, Edit(s, id, wanted).1)
  {}

  lemma CancelDiscipline(s: Store, id: Id, actor: Id, reason: Option<string>, now: Instant)
    ensures HoldDiscipline(s, Cancel(s, id, actor, reason, now).1, now) && OffersOnNewHolds(s, Cancel(s, id, actor, reason, now).1)
  {}

  lemma CancelSeriesDiscipline(s: Store, series: Id, actor: Id, reason: Option<string>, now: Instant)
    ensures HoldDiscipline(s, CancelSeries(s, series, actor, reason, now), now)
    ensures OffersOnNewHolds(s, CancelSeries(s, series, actor, reason, now))
  {}

  lemma TransferDiscipline(s: Store, id: Id, owner: Id, now: Instant)
    requires !s.HoldsAt(id)
    ensures HoldDiscipline(s, Transfer(s, id, owner), now) && OffersOnNewHolds(s, Transfer(s, id, owner))
  {}

  lemma AcceptDiscipline(s: Store, offer: Id, user: Id, now: Instant)
    ensures HoldDiscipline(s, Accept(s, offer, user, now).1, now) && OffersOnNewHolds(s, Accept(s, offer, user, now).1)
  {}

  lemma DeclineDiscipline(s: Store, offer: Id, now: Instant)
    ensures HoldDiscipline(s, Decline(s, offer, now).1, now) && OffersOnNewHolds(s, Decline(s, offer, now).1)
  {}

  lemma ReapDiscipline(s: Store, hold: Id, sweptAt: Instant, now: Instant)
    requires sweptAt <= now
    ensures HoldDiscipline(s, Reap(s, hold, sweptAt).1, now) && OffersOnNewHolds(s, Reap(s, hold, sweptAt).1)
  {}

  lemma DisciplineThrough(s: Store, s1: Store, t: Store, now: Instant)
    requires HoldDiscipline(s, s1, now) && t.bookings == s1.bookings && s1.nextId <= t.nextId
    requires forall e | e in s1.entries :: e in t.entries && t.entries[e].user == s1.entries[e].user
    ensures HoldDiscipline(s, t, now)
  {}

  lemma CascadeDiscipline(s: Store, resource: Id, freed: Range, window: int, now: Instant)
    requires BookingsSound(s)
    ensures var t := Cascade(s, resource, freed, window, now).1; HoldDiscipline(s, t, now) && OffersOnNewHolds(s, t)
  {
    var w := Winner(s, resource, freed, now);
    if w.Some? { OfferToDiscipline(s, w.value, window, now); }
  }

  lemma OfferToDiscipline(s: Store, entry: Id, window: int, now: Instant)
    requires BookingsSound(s) && entry in s.entries
    ensures var t := OfferTo(s, entry, window, now).1; HoldDiscipline(s, t, now) && OffersOnNewHolds(s, t)
  {
    var e := s.entries[entry];
    var (held, s1) := Create(s, HoldRequest(e, window), now);
    CreateDiscipline(s, HoldRequest(e, window), now);
    if held.Done? {
      OfferOnFrame(s1, entry, e, held.id, window, now);
      DisciplineThrough(s, s1, OfferOn(s1, entry, e, held.id, window, now).1, now);
    }
  }

  // Once the hold is there, no booking changes, entries keep their users, and a new offer is on that hold.
  lemma OfferOnFrame(s: Store, entry: Id, e: Entry, hold: Id, window: int, now: Instant)
    ensures var t := OfferOn(s, entry, e, hold, window, now).1;
      && t.bookings == s.bookings && s.nextId <= t.nextId
      && (forall f | f in s.entries :: f in t.entries && t.entries[f].user == s.entries[f].user)
      && (forall o | o in t.offers :: (o in s.offers && t.offers[o] == s.offers[o]) || t.offers[o].hold == hold)
  {}

  // ---------------------------------------------------------------- preservation

  lemma CreatedHold(s: Store, req: CreateRequest, now: Instant)
    requires req.holdFor.Some? && Create(s, req, now).0.Done?
    ensures var (held, t) := Create(s, req, now);
      && held.id in t.bookings && t.bookings[held.id] == NewBooking(req, now) && t.bookings[held.id].IsHold()
      && t.entries == s.entries && t.offers == s.offers
  {}

  lemma CascadeKeepsSound(s: Store, resource: Id, freed: Range, window: int, now: Instant)
    requires BookingsSound(s) && OffersSound(s)
    ensures var t := Cascade(s, resource, freed, window, now).1; BookingsSound(t) && OffersSound(t)
  {
    var w := Winner(s, resource, freed, now);
    if w.Some? { OfferToKeepsSound(s, w.value, window, now); }
  }

  lemma OfferToKeepsSound(s: Store, entry: Id, window: int, now: Instant)
    requires BookingsSound(s) && OffersSound(s) && entry in s.entries
    ensures var t := OfferTo(s, entry, window, now).1; BookingsSound(t) && OffersSound(t)
  {
    var e := s.entries[entry];
    var (held, s1) := Create(s, HoldRequest(e, window), now);
    CreateKeepsBookingsSound(s, HoldRequest(e, window), now);
    CreateKeepsOffersSound(s, HoldRequest(e, window), now);
    if held.Done? {
      CreatedHold(s, HoldRequest(e, window), now);
      OfferOnKeepsSound(s1, entry, e, held.id, window, now);
    }
  }

  lemma OfferOnKeepsSound(s: Store, entry: Id, e: Entry, hold: Id, window: int, now: Instant)
    requires BookingsSound(s) && OffersSound(s) && entry in s.entries && hold in s.bookings
    requires s.bookings[hold].IsHold() && s.bookings[hold].expiresAt == Some(now + window) && s.bookings[hold].user == s.entries[entry].user
    ensures var t := OfferOn(s, entry, e, hold, window, now).1; BookingsSound(t) && OffersSound(t)
  {
    InsertOfferKeepsSound(s, entry, hold, e.resource, e.range, now + window, now);
    var s1 := InsertOffer(s, entry, hold, e.resource, e.range, now + window, now).1;
    EntryChangeKeepsSound(s1, MarkOffered(s1, entry).1.entries);
  }

  lemma CascadeKeepsEntriesSound(s: Store, resource: Id, freed: Range, window: int, now: Instant)
    requires EntriesSound(s)
    ensures EntriesSound(Cascade(s, resource, freed, window, now).1)
  {
    var w := Winner(s, resource, freed, now);
    if w.Some? {
      var e := s.entries[w.value];
      var (held, s1) := Create(s, HoldRequest(e, window), now);
      if held.Done? {
        var s2 := InsertOffer(s1, w.value, held.id, e.resource, e.range, now + window, now).1;
        assert s2.entries == s.entries;
        QueueShrinksSoundly(s, s2);
        MarkOfferedKeepsEntriesSound(s2, w.value);
      }
    }
  }

  ghost predicate IsWorkerEvent(e: Event) {
    e.StartWorker? || e.StepWorker? || e.CrashWorker?
  }

  // Events other than worker steps, on the tables alone.
  lemma StoreStepSound(w: World, e: Event)
    requires Inv(w) && !IsWorkerEvent(e)
    ensures BookingsSound(StoreAfter(w, e)) && OffersSound(StoreAfter(w, e))
  {
    var s, now := w.store, w.clock;
    match e
    case Tick(_) =>
    case Book(r, u, series, range) =>
      CreateKeepsBookingsSound(s, CreateRequest(r, u, series, range, None), now);
      CreateKeepsOffersSound(s, CreateRequest(r, u, series, range, None), now);
    case EditBooking(b, range) => EditKeepsBookingsSound(s, b, range); EditKeepsOffersSound(s, b, range);
    case CancelBooking(b, actor, reason) => CancelKeepsSound(s, b, actor, reason, now);
    case CancelWholeSeries(series, actor, reason) => CancelSeriesKeepsSound(s, series, actor, reason, now);
    case TransferBooking(b, u) => if !s.HoldsAt(b) { TransferKeepsSound(s, b, u); }
    case JoinWaitlist(id, r, u, range) => EntryChangeKeepsSound(s, StoreAfter(w, e).entries);
    case WithdrawFromWaitlist(id) => EntryChangeKeepsSound(s, StoreAfter(w, e).entries);
    case _ => OfferStepSound(w, e);
  }

  lemma OfferStepSound(w: World, e: Event)
    requires Inv(w) && (e.AcceptOffer? || e.DeclineOffer? || e.ReapHold? || e.CascadeAtOnce?)
    ensures BookingsSound(StoreAfter(w, e)) && OffersSound(StoreAfter(w, e))
  {
    var s, now := w.store, w.clock;
    match e
    case AcceptOffer(o, u) => AcceptKeepsSound(s, o, u, now);
    case DeclineOffer(o) => DeclineKeepsSound(s, o, now);
    case ReapHold(b, sweptAt) => ReapKeepsSound(s, b, sweptAt);
    case CascadeAtOnce(r, freed) => CascadeKeepsSound(s, r, freed, w.window, now);
  }

  lemma StoreStepEntriesSound(w: World, e: Event)
    requires EntriesSound(w.store) && !e.StepWorker?
    ensures EntriesSound(StoreAfter(w, e))
  {
    var s, t := w.store, StoreAfter(w, e);
    match e
    case JoinWaitlist(id, r, u, range) => JoinKeepsEntriesSound(s, id, r, u, range, w.clock);
    case CascadeAtOnce(r, freed) => CascadeKeepsEntriesSound(s, r, freed, w.window, w.clock);
    case _ => OtherEventsReviveNobody(w, e); QueueShrinksSoundly(s, t);
  }

  lemma OtherEventsReviveNobody(w: World, e: Event)
    requires !e.StepWorker? && !e.JoinWaitlist? && !e.CascadeAtOnce?
    ensures NobodyRevived(w.store, StoreAfter(w, e))
  {}

  lemma WorkerStepEntriesSound(s: Store, k: Worker, window: int, now: Instant)
    requires EntriesSound(s)
    ensures EntriesSound(StepOf(s, k, window, now).1)
  {
    var t := StepOf(s, k, window, now).1;
    if k.OfferWritten? { MarkOfferedKeepsEntriesSound(s, k.entry); } else { QueueShrinksSoundly(s, t); }
  }

  lemma StoreStepDiscipline(w: World, e: Event)
    requires Inv(w) && !e.StepWorker?
    ensures HoldDiscipline(w.store, StoreAfter(w, e), w.clock) && OffersOnNewHolds(w.store, StoreAfter(w, e))
  {
    var s, now := w.store, w.clock;
    match e
    case Book(r, u, series, range) => CreateDiscipline(s, CreateRequest(r, u, series, range, None), now);
    case EditBooking(b, range) => EditDiscipline(s, b, range, now);
    case CancelBooking(b, actor, reason) => CancelDiscipline(s, b, actor, reason, now);
    case CancelWholeSeries(series, actor, reason) => CancelSeriesDiscipline(s, series, actor, reason, now);
    case TransferBooking(b, u) => if !s.HoldsAt(b) { TransferDiscipline(s, b, u, now); }
    case _ =>
      if e.AcceptOffer? || e.DeclineOffer? || e.ReapHold? || e.CascadeAtOnce? { OfferStepDiscipline(w, e); }
  }

  lemma OfferStepDiscipline(w: World, e: Event)
    requires Inv(w) && (e.AcceptOffer? || e.DeclineOffer? || e.ReapHold? || e.CascadeAtOnce?)
    ensures HoldDiscipline(w.store, StoreAfter(w, e), w.clock) && OffersOnNewHolds(w.store, StoreAfter(w, e))
  {
    var s, now := w.store, w.clock;
    match e
    case AcceptOffer(o, u) => AcceptDiscipline(s, o, u, now);
    case DeclineOffer(o) => DeclineDiscipline(s, o, now);
    case ReapHold(b, sweptAt) => if sweptAt <= now { ReapDiscipline(s, b, sweptAt, now); }
    case CascadeAtOnce(r, freed) => CascadeDiscipline(s, r, freed, w.window, now);
  }

  lemma CandidatesKnown(s: Store, resource: Id, freed: Range)
    ensures forall i | 0 <= i < |CandidateList(s, resource, freed)| :: KnownCandidate(s, CandidateList(s, resource, freed)[i])
  {
    var keys := Ascending(EligibleKeys(s, resource, freed));
    forall i | 0 <= i < |keys| ensures KnownCandidate(s, CandidateOf(s, keys[i])) {
      assert keys[i] in keys;
    }
  }

  // One commit of a worker's loop.
  lemma WorkerStepSound(w: World, k: Id)
    requires Inv(w) && k in w.workers
    ensures Inv(Apply(w, StepWorker(k)))
    ensures HoldDiscipline(w.store, StoreAfter(w, StepWorker(k)), w.clock)
  {
    var s, now, worker := w.store, w.clock, w.workers[k];
    var (next, t) := StepOf(s, worker, w.window, now);
    assert WorkerSound(s, now, worker);
    WorkerStepEntriesSound(s, worker, w.window, now);
    match worker
    case Trying(resource, left) =>
      if left != [] {
        TryingStepSound(w, k);
      } else {
        assert WorkersSound(t, now, w.workers[k := next]);
      }
    case HoldTaken(_, c, hold, expiresAt) =>
      InsertOfferKeepsSound(s, c.entry, hold, worker.resource, c.range, expiresAt, now);
      WorkersAfterInsert(w, k);
    case OfferWritten(entry) =>
      EntryChangeKeepsSound(s, t.entries);
      WorkersKeepSound(s, t, now, w.workers);
    case Finished =>
      assert w.workers[k := next] == w.workers;
  }

  lemma TryingStepSound(w: World, k: Id)
    requires Inv(w) && k in w.workers && w.workers[k].Trying? && w.workers[k].left != []
    ensures Inv(Apply(w, StepWorker(k)))
    ensures HoldDiscipline(w.store, StoreAfter(w, StepWorker(k)), w.clock)
  {
    var s, now, worker := w.store, w.clock, w.workers[k];
    var t := StepOf(s, worker, w.window, now).1;
    var c := worker.left[0];
    var req := CreateRequest(worker.resource, c.user, None, c.range, Some(w.window));
    CreateKeepsBookingsSound(s, req, now);
    CreateKeepsOffersSound(s, req, now);
    CreateDiscipline(s, req, now);
    WorkerStepEntriesSound(s, worker, w.window, now);
    WorkersAfterTrying(w, k);
  }

  lemma WorkersAfterTrying(w: World, k: Id)
    requires Inv(w) && k in w.workers && w.workers[k].Trying? && w.workers[k].left != []
    ensures var (next, t) := StepOf(w.store, w.workers[k], w.window, w.clock); WorkersSound(t, w.clock, w.workers[k := next])
  {
    var s, now, worker := w.store, w.clock, w.workers[k];
    var (next, t) := StepOf(s, worker, w.window, now);
    var c := worker.left[0];
    CreateDiscipline(s, CreateRequest(worker.resource, c.user, None, c.range, Some(w.window)), now);
    assert WorkerSound(s, now, worker);
    assert KnownCandidate(s, c);
    WorkersKeepSound(s, t, now, w.workers);
    assert WorkerSound(t, now, next);
    assert forall l | l in w.workers && w.workers[l].HoldTaken? :: WorkerSound(s, now, w.workers[l]) && w.workers[l].hold < s.nextId;
  }

  lemma WorkersAfterInsert(w: World, k: Id)
    requires Inv(w) && k in w.workers && w.workers[k].HoldTaken?
    ensures var (next, t) := StepOf(w.store, w.workers[k], w.window, w.clock);
      WorkersSound(t, w.clock, w.workers[k := next]) && HoldDiscipline(w.store, t, w.clock)
  {
    var s, now := w.store, w.clock;
    var (next, t) := StepOf(s, w.workers[k], w.window, now);
    assert t.bookings == s.bookings && t.entries == s.entries;
    forall l | l in w.workers && l != k ensures WorkerSound(t, now, w.workers[l]) {
      assert WorkerSound(s, now, w.workers[l]);
    }
  }

  lemma StepKeepsInv(w: World, e: Event)
    requires Inv(w)
    ensures Inv(Apply(w, e))
    ensures HoldDiscipline(w.store, Apply(w, e).store, w.clock)
  {
    if e.StepWorker? && e.worker in w.workers {
      WorkerStepSound(w, e.worker);
    } else if IsWorkerEvent(e) {
      if e.StartWorker? { CandidatesKnown(w.store, e.resource, e.freed); }
    } else {
      StoreStepSound(w, e);
      StoreStepEntriesSound(w, e);
      StoreStepDiscipline(w, e);
      WorkersKeepSound(w.store, StoreAfter(w, e), w.clock, w.workers);
    }
  }

  // Soundness in every state of every run.
  lemma {:induction false} RunKeepsInv(w: World, es: seq<Event>)
    requires Inv(w)
    ensures Inv(After(w, es))
  {
    if es != [] {
      RunKeepsInv(w, es[..|es| - 1]);
      StepKeepsInv(After(w, es[..|es| - 1]), es[|es| - 1]);
    }
  }
}
