/**
 What can become of an entry that has left the queue. A withdrawal is guarded; an acceptance, a decline, the reaper and
 a worker's last commit update the entry by its id alone.
 */
module SettledEntries {
  import opened Tables
  import opened Transactions
  import opened Queue
  import opened Interleaving
  import opened QueueTheorems
  import opened LastCommit

  // An active offer of the entry, with its hold still there.
  ghost predicate Outstanding(s: Store, o: Id, entry: Id) {
    OffersTo(s, o, entry) && s.offers[o].status == Active
  }

  ghost predicate ReapsOfferOf(s: Store, hold: Id, at: Instant, entry: Id) {
    && hold in s.bookings && s.bookings[hold].ExpiredBy(at)
    && exists o :: Outstanding(s, o, entry) && s.offers[o].hold == hold
  }

  // The event writes over a status the entry had settled in.
  ghost predicate Overwrites(w: World, e: Event, entry: Id)
    requires entry in w.store.entries
  {
    var s, status := w.store, w.store.entries[entry].status;
    match e
    case StepWorker(k) =>
      k in w.workers && w.workers[k] == OfferWritten(entry) && !s.entries[entry].Live() && !TwinLives(s, entry)
    case AcceptOffer(o, user) =>
      && OffersTo(s, o, entry) && s.offers[o].hold in s.bookings && Acceptable(s.bookings[s.offers[o].hold], user, w.clock)
      && (status == Withdrawn || status == Lapsed)
    case DeclineOffer(o) => Outstanding(s, o, entry) && (status == Withdrawn || status == Fulfilled)
    case ReapHold(hold, at) => at <= w.clock && ReapsOfferOf(s, hold, at, entry) && (status == Withdrawn || status == Fulfilled)
    case _ => false
  }

  // ---------------------------------------------------------------- one event

  ghost function StatusOf(w: World, entry: Id): EntryStatus
    requires entry in w.store.entries
  {
    w.store.entries[entry].status
  }

  ghost function NextStatus(w: World, e: Event, entry: Id): EntryStatus
    requires entry in w.store.entries
  {
    EventKeepsEntry(w, e, entry);
    StoreAfter(w, e).entries[entry].status
  }

  lemma WorkerOverwrites(w: World, k: Id, entry: Id)
    requires entry in w.store.entries
    ensures !Later(StatusOf(w, entry), NextStatus(w, StepWorker(k), entry)) <==> Overwrites(w, StepWorker(k), entry)
  {}

  lemma AcceptOverwrites(w: World, o: Id, user: Id, entry: Id)
    requires entry in w.store.entries
    ensures !Later(StatusOf(w, entry), NextStatus(w, AcceptOffer(o, user), entry)) <==> Overwrites(w, AcceptOffer(o, user), entry)
  {}

  lemma DeclineOverwrites(w: World, o: Id, entry: Id)
    requires entry in w.store.entries
    ensures !Later(StatusOf(w, entry), NextStatus(w, DeclineOffer(o), entry)) <==> Overwrites(w, DeclineOffer(o), entry)
  {}

  lemma ReapOverwrites(w: World, hold: Id, at: Instant, entry: Id)
    requires ReferencesSound(w.store) && entry in w.store.entries
    ensures !Later(StatusOf(w, entry), NextStatus(w, ReapHold(hold, at), entry)) <==> Overwrites(w, ReapHold(hold, at), entry)
  {
    forall o | HasActiveOffer(w.store, hold) && Outstanding(w.store, o, entry) && w.store.offers[o].hold == hold
      ensures o == ActiveOffer(w.store, hold)
    {}
  }

  lemma CascadeMovesForward(w: World, resource: Id, freed: Range, entry: Id)
    requires entry in w.store.entries
    ensures Forward(StatusOf(w, entry), NextStatus(w, CascadeAtOnce(resource, freed), entry))
  {}

  lemma PlainEventMovesForward(w: World, e: Event, entry: Id)
    requires entry in w.store.entries
    requires !e.StepWorker? && !e.AcceptOffer? && !e.DeclineOffer? && !e.ReapHold? && !e.CascadeAtOnce?
    ensures Forward(StatusOf(w, entry), NextStatus(w, e, entry))
  {}

  // Whatever the event, an entry's status is moved other than on exactly when the event overwrites it: a last commit on
  // an entry that has left the queue and has no twin, or the end of an outstanding offer of an entry that has settled
  // otherwise meanwhile.
  lemma MovesBackExactlyWhenOverwritten(w: World, e: Event, entry: Id)
    requires Inv(w) && entry in w.store.entries
    ensures !Later(StatusOf(w, entry), NextStatus(w, e, entry)) <==> Overwrites(w, e, entry)
  {
    match e
    case StepWorker(k) => WorkerOverwrites(w, k, entry);
    case AcceptOffer(o, user) => AcceptOverwrites(w, o, user, entry);
    case DeclineOffer(o) => DeclineOverwrites(w, o, entry);
    case ReapHold(hold, at) => ReapOverwrites(w, hold, at, entry);
    case CascadeAtOnce(resource, freed) => CascadeMovesForward(w, resource, freed, entry);
    case _ => PlainEventMovesForward(w, e, entry);
  }

  // ---------------------------------------------------------------- runs

  ghost function StatusAt(w: World, es: seq<Event>, n: nat, entry: Id): EntryStatus
    requires n <= |es| && entry in StoreAt(w, es, n).entries
  {
    StoreAt(w, es, n).entries[entry].status
  }

  ghost predicate OverwrittenAt(w: World, es: seq<Event>, n: nat, entry: Id)
    requires n < |es|
  {
    entry in StoreAt(w, es, n).entries && Overwrites(After(w, es[..n]), es[n], entry)
  }

  lemma StatusMoves(w: World, es: seq<Event>, n: nat, entry: Id)
    requires Fresh(w) && n < |es| && entry in StoreAt(w, es, n).entries
    ensures entry in StoreAt(w, es, n + 1).entries
    ensures !Later(StatusAt(w, es, n, entry), StatusAt(w, es, n + 1, entry)) <==> OverwrittenAt(w, es, n, entry)
  {
    Steps(w, es, n);
    EntryStays(w, es, n, n + 1, entry);
    MovesBackExactlyWhenOverwritten(After(w, es[..n]), es[n], entry);
  }

  // Between two moments of a run at which nothing overwrote it, an entry's status has only moved on.
  lemma {:induction false} MovesOnUnlessOverwritten(w: World, es: seq<Event>, m: nat, n: nat, entry: Id)
    requires Fresh(w) && m <= n <= |es| && entry in StoreAt(w, es, m).entries
    requires forall i | m <= i < n :: !OverwrittenAt(w, es, i, entry)
    ensures entry in StoreAt(w, es, n).entries && Later(StatusAt(w, es, m, entry), StatusAt(w, es, n, entry))
    decreases n
  {
    if m < n {
      MovesOnUnlessOverwritten(w, es, m, n - 1, entry);
      StatusMoves(w, es, n - 1, entry);
    }
  }

  // An entry that has been withdrawn, fulfilled or has lapsed stays so exactly as long as nothing overwrites it.
  lemma SettledStaysExactlyWhen(w: World, es: seq<Event>, m: nat, n: nat, entry: Id)
    requires Fresh(w) && m <= n <= |es| && entry in StoreAt(w, es, m).entries && !StoreAt(w, es, m).entries[entry].Live()
    ensures (forall i | m <= i <= n :: entry in StoreAt(w, es, i).entries && StatusAt(w, es, i, entry) == StatusAt(w, es, m, entry))
      <==> (forall i | m <= i < n :: !OverwrittenAt(w, es, i, entry))
  {
    if forall i | m <= i < n :: !OverwrittenAt(w, es, i, entry) {
      forall i | m <= i <= n
        ensures entry in StoreAt(w, es, i).entries && StatusAt(w, es, i, entry) == StatusAt(w, es, m, entry)
      {
        MovesOnUnlessOverwritten(w, es, m, i, entry);
      }
    } else {
      var i :| m <= i < n && OverwrittenAt(w, es, i, entry);
      StatusMoves(w, es, i, entry);
      EntryStays(w, es, m, i, entry);
      assert StatusAt(w, es, i, entry) != StatusAt(w, es, i + 1, entry);
    }
  }

  // ---------------------------------------------------------------- nothing under way

  // A worker has the entry in hand.
  ghost predicate InHand(k: Worker, entry: Id) {
    match k
    case Trying(_, left) => exists i | 0 <= i < |left| :: left[i].entry == entry
    case HoldTaken(_, c, _, _) => c.entry == entry
    case OfferWritten(e) => e == entry
    case Finished => false
  }

  ghost predicate NobodyHas(workers: map<Id, Worker>, entry: Id) {
    forall k | k in workers :: !InHand(workers[k], entry)
  }

  ghost predicate NoneOutstanding(s: Store, entry: Id) {
    forall o :: !Outstanding(s, o, entry)
  }

  // No worker has the entry in hand, and no offer to it is outstanding.
  ghost predicate Idle(w: World, entry: Id) {
    NobodyHas(w.workers, entry) && NoneOutstanding(w.store, entry)
  }

  lemma IdleIsNotOverwritten(w: World, e: Event, entry: Id)
    requires OffersSound(w.store) && entry in w.store.entries && Idle(w, entry)
    ensures !Overwrites(w, e, entry)
  {
    match e
    case StepWorker(k) => assert k in w.workers ==> !InHand(w.workers[k], entry);
    case AcceptOffer(o, _) => assert !Outstanding(w.store, o, entry);
    case DeclineOffer(o) => assert !Outstanding(w.store, o, entry);
    case _ =>
  }

  // A worker only ever takes up entries that are waiting.
  lemma ReadsOnlyWaiting(s: Store, resource: Id, freed: Range, entry: Id)
    requires entry in s.entries && !s.entries[entry].Live()
    ensures !InHand(Trying(resource, CandidateList(s, resource, freed)), entry)
  {
    ListIsReadFrom(s, resource, freed);
  }

  lemma StaysOutOfHand(w: World, e: Event, entry: Id)
    requires entry in w.store.entries && !w.store.entries[entry].Live() && NobodyHas(w.workers, entry)
    ensures NobodyHas(WorkersAfter(w, e), entry)
  {
    match e
    case StartWorker(k, resource, freed) => ReadsOnlyWaiting(w.store, resource, freed, entry);
    case StepWorker(k) => if k in w.workers { StepStaysOutOfHand(w, k, entry); }
    case _ =>
  }

  lemma StepStaysOutOfHand(w: World, k: Id, entry: Id)
    requires k in w.workers && !InHand(w.workers[k], entry)
    ensures !InHand(StepOf(w.store, w.workers[k], w.window, w.clock).0, entry)
  {
    var worker := w.workers[k];
    if worker.Trying? && worker.left != [] { assert worker.left[0].entry != entry; }
  }

  lemma CascadeOffersNone(s: Store, resource: Id, freed: Range, window: int, now: Instant, entry: Id)
    requires entry in s.entries && !s.entries[entry].Live() && NoneOutstanding(s, entry)
    ensures NoneOutstanding(Cascade(s, resource, freed, window, now).1, entry)
  {
    var t := Cascade(s, resource, freed, window, now).1;
    forall o ensures !Outstanding(t, o, entry) { assert !Outstanding(s, o, entry); }
  }

  lemma StepOffersNone(w: World, k: Id, entry: Id)
    requires k in w.workers && !InHand(w.workers[k], entry) && NoneOutstanding(w.store, entry)
    ensures NoneOutstanding(StepOf(w.store, w.workers[k], w.window, w.clock).1, entry)
  {
    var t := StepOf(w.store, w.workers[k], w.window, w.clock).1;
    forall o ensures !Outstanding(t, o, entry) { assert !Outstanding(w.store, o, entry); }
  }

  lemma StaysWithoutOffer(w: World, e: Event, entry: Id)
    requires entry in w.store.entries && !w.store.entries[entry].Live() && Idle(w, entry)
    ensures NoneOutstanding(StoreAfter(w, e), entry)
  {
    match e
    case CascadeAtOnce(resource, freed) => CascadeOffersNone(w.store, resource, freed, w.window, w.clock, entry);
    case StepWorker(k) => if k in w.workers { StepOffersNone(w, k, entry); }
    case _ =>
      forall o ensures !Outstanding(StoreAfter(w, e), o, entry) { assert !Outstanding(w.store, o, entry); }
  }

  lemma IdleKeepsStatus(w: World, e: Event, entry: Id)
    requires Inv(w) && entry in w.store.entries && !w.store.entries[entry].Live() && Idle(w, entry)
    ensures NextStatus(w, e, entry) == StatusOf(w, entry)
  {
    IdleIsNotOverwritten(w, e, entry);
    MovesBackExactlyWhenOverwritten(w, e, entry);
  }

  lemma StaysIdle(w: World, e: Event, entry: Id)
    requires entry in w.store.entries && !w.store.entries[entry].Live() && Idle(w, entry)
    ensures Idle(Apply(w, e), entry)
  {
    StaysOutOfHand(w, e, entry);
    StaysWithoutOffer(w, e, entry);
  }

  // Once an entry has settled with no worker having it in hand and no offer to it outstanding, it stays as it is.
  lemma {:induction false} SettledForGood(w: World, es: seq<Event>, m: nat, n: nat, entry: Id)
    requires Fresh(w) && m <= n <= |es| && entry in StoreAt(w, es, m).entries && !StoreAt(w, es, m).entries[entry].Live()
    requires Idle(After(w, es[..m]), entry)
    ensures entry in StoreAt(w, es, n).entries && StatusAt(w, es, n, entry) == StatusAt(w, es, m, entry)
    ensures Idle(After(w, es[..n]), entry)
    decreases n
  {
    if m < n {
      SettledForGood(w, es, m, n - 1, entry);
      IdleStays(w, es, n - 1, entry);
    }
  }

  lemma IdleStays(w: World, es: seq<Event>, n: nat, entry: Id)
    requires Fresh(w) && n < |es| && entry in StoreAt(w, es, n).entries && !StoreAt(w, es, n).entries[entry].Live()
    requires Idle(After(w, es[..n]), entry)
    ensures entry in StoreAt(w, es, n + 1).entries && StatusAt(w, es, n + 1, entry) == StatusAt(w, es, n, entry)
    ensures Idle(After(w, es[..n + 1]), entry)
  {
    RunKeepsInv(w, es[..n]);
    AfterPrefix(w, es, n);
    EntryStays(w, es, n, n + 1, entry);
    IdleKeepsStatus(After(w, es[..n]), es[n], entry);
    StaysIdle(After(w, es[..n]), es[n], entry);
  }
}
