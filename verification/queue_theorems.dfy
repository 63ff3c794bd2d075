/** The queue when the cascade is one step: entries only move forward, and win at most one offer. */
module QueueTheorems {
  import opened Tables
  import opened Transactions
  import opened Queue
  import opened Interleaving

  // Where an entry stands, given the one offer it has won.
  function StandingOf(status: OfferStatus): EntryStatus {
    match status
    case Active => Offered
    case Accepted => Fulfilled
    case Expired => Lapsed
    case Declined => Lapsed
  }

  ghost predicate QueueSound(s: Store) {
    && (forall o | o in s.offers :: s.offers[o].entry in s.entries
          && s.entries[s.offers[o].entry].status == StandingOf(s.offers[o].status)
          && s.entries[s.offers[o].entry].resource == s.offers[o].resource)
    && (forall o, p | o in s.offers && p in s.offers && o != p :: s.offers[o].entry != s.offers[p].entry)
  }

  // Waiting goes to offered or withdrawn; offered to fulfilled or lapsed; the rest is final.
  predicate Forward(a: EntryStatus, b: EntryStatus) {
    a == b || (a == Waiting && (b == Offered || b == Withdrawn)) || (a == Offered && (b == Fulfilled || b == Lapsed))
  }

  predicate Later(a: EntryStatus, b: EntryStatus) {
    Forward(a, b) || (a == Waiting && (b == Fulfilled || b == Lapsed))
  }

  ghost predicate EntriesForward(s: Store, t: Store) {
    forall e | e in s.entries ::
      e in t.entries && Forward(s.entries[e].status, t.entries[e].status) && t.entries[e].resource == s.entries[e].resource
  }

  ghost predicate NoWorkers(es: seq<Event>) {
    forall e | e in es :: !IsWorkerEvent(e)
  }

  // Once the hold of a waiting entry without an offer is created, nothing can go wrong.
  lemma OfferToSucceeds(s: Store, entry: Id, window: int, now: Instant)
    requires BookingsSound(s) && ReferencesSound(s) && EntriesSound(s)
    requires entry in s.entries && s.entries[entry].status == Waiting && !HasOfferOut(s, entry)
    requires Create(s, HoldRequest(s.entries[entry], window), now).0.Done?
    ensures var (outcome, t) := OfferTo(s, entry, window, now);
      && outcome.OfferMade? && outcome.entry == entry
      && t.offers == s.offers[outcome.offer :=
           Offer(entry, s.nextId, s.entries[entry].resource, s.entries[entry].range, Active, now + window, now)]
      && outcome.offer !in s.offers
      && t.entries == s.entries[entry := s.entries[entry].(status := Offered)]
      && t.nextId == s.nextId + 2
  {
    var (held, s1) := Create(s, HoldRequest(s.entries[entry], window), now);
    assert OfferInsertable(s1, entry, held.id);
    var s2 := InsertOffer(s1, entry, held.id, s.entries[entry].resource, s.entries[entry].range, now + window, now).1;
    assert s2.entries == s.entries && !TwinLives(s2, entry);
  }

  lemma WaitingHasNoOffer(s: Store, entry: Id)
    requires QueueSound(s) && entry in s.entries && s.entries[entry].status == Waiting
    ensures !HasOfferOut(s, entry)
  {}

  // A waiting entry without an offer becomes offered, together with its offer.
  lemma OfferingKeepsQueue(s: Store, t: Store, entry: Id, id: Id, offer: Offer)
    requires ReferencesSound(s) && QueueSound(s) && entry in s.entries && s.entries[entry].status == Waiting && id !in s.offers
    requires offer.entry == entry && offer.status == Active && offer.resource == s.entries[entry].resource
    requires t.offers == s.offers[id := offer] && t.entries == s.entries[entry := s.entries[entry].(status := Offered)]
    ensures QueueSound(t) && EntriesForward(s, t)
  {
    WaitingHasNoOffer(s, entry);
    assert forall o | o in s.offers :: s.offers[o].entry != entry;
  }

  lemma CascadeKeepsQueue(s: Store, resource: Id, freed: Range, window: int, now: Instant)
    requires BookingsSound(s) && OffersSound(s) && EntriesSound(s) && QueueSound(s)
    ensures var t := Cascade(s, resource, freed, window, now).1; QueueSound(t) && EntriesForward(s, t)
  {
    var w := Winner(s, resource, freed, now);
    if w.Some? && Create(s, HoldRequest(s.entries[w.value], window), now).0.Done? {
      WaitingHasNoOffer(s, w.value);
      OfferToSucceeds(s, w.value, window, now);
      var (outcome, t) := OfferTo(s, w.value, window, now);
      OfferingKeepsQueue(s, t, w.value, outcome.offer, t.offers[outcome.offer]);
    }
  }

  // One offer is resolved and its entry with it; nothing else moves.
  lemma ResolvingKeepsQueue(s: Store, t: Store, id: Id, status: OfferStatus)
    requires ReferencesSound(s) && QueueSound(s)
    requires id in s.offers && s.offers[id].status == Active && status != Active
    requires t.offers == s.offers[id := s.offers[id].(status := status)]
    requires t.entries == s.entries[s.offers[id].entry := s.entries[s.offers[id].entry].(status := StandingOf(status))]
    ensures QueueSound(t) && EntriesForward(s, t)
  {
    assert forall o | o in s.offers && o != id :: t.offers[o] == s.offers[o] && s.offers[o].entry != s.offers[id].entry;
  }

  lemma AcceptKeepsQueue(s: Store, offer: Id, user: Id, now: Instant)
    requires BookingsSound(s) && OffersSound(s) && QueueSound(s)
    ensures var t := Accept(s, offer, user, now).1; QueueSound(t) && EntriesForward(s, t) && t.offers.Keys == s.offers.Keys
  {
    var (outcome, t) := Accept(s, offer, user, now);
    if outcome.Booked? {
      assert s.offers[offer].status == Active;
      ResolvingKeepsQueue(s, t, offer, Accepted);
    }
  }

  lemma DeclineKeepsQueue(s: Store, offer: Id, now: Instant)
    requires BookingsSound(s) && OffersSound(s) && QueueSound(s)
    ensures var t := Decline(s, offer, now).1; QueueSound(t) && EntriesForward(s, t) && t.offers.Keys == s.offers.Keys
  {
    var (outcome, t) := Decline(s, offer, now);
    if outcome.Freed? { ResolvingKeepsQueue(s, t, offer, Declined); }
  }

  lemma ReapKeepsQueue(s: Store, hold: Id, now: Instant)
    requires BookingsSound(s) && OffersSound(s) && QueueSound(s)
    ensures var t := Reap(s, hold, now).1; QueueSound(t) && EntriesForward(s, t) && t.offers.Keys == s.offers.Keys
  {
    var (outcome, t) := Reap(s, hold, now);
    if outcome.ReclaimedOffer? { ResolvingKeepsQueue(s, t, ActiveOffer(s, hold), Expired); }
  }

  lemma EventKeepsQueue(w: World, e: Event)
    requires Inv(w) && QueueSound(w.store) && !IsWorkerEvent(e)
    ensures QueueSound(StoreAfter(w, e)) && EntriesForward(w.store, StoreAfter(w, e))
    ensures !e.CascadeAtOnce? ==> StoreAfter(w, e).offers.Keys == w.store.offers.Keys
  {
    match e
    case CascadeAtOnce(r, freed) => CascadeKeepsQueue(w.store, r, freed, w.window, w.clock);
    case AcceptOffer(o, u) => AcceptKeepsQueue(w.store, o, u, w.clock);
    case DeclineOffer(o) => DeclineKeepsQueue(w.store, o, w.clock);
    case ReapHold(b, sweptAt) => ReapKeepsQueue(w.store, b, sweptAt);
    case _ => PlainEventKeepsQueue(w, e);
  }

  lemma PlainEventKeepsQueue(w: World, e: Event)
    requires ReferencesSound(w.store) && QueueSound(w.store) && !IsWorkerEvent(e)
    requires !e.CascadeAtOnce? && !e.AcceptOffer? && !e.DeclineOffer? && !e.ReapHold?
    ensures QueueSound(StoreAfter(w, e)) && EntriesForward(w.store, StoreAfter(w, e))
    ensures StoreAfter(w, e).offers == w.store.offers
  {
    match e
    case JoinWaitlist(id, r, u, range) => JoinKeepsQueue(w.store, id, r, u, range, w.clock);
    case WithdrawFromWaitlist(id) => WithdrawKeepsQueue(w.store, id);
    case _ => OtherEventKeepsQueue(w, e);
  }

  lemma JoinKeepsQueue(s: Store, id: Id, resource: Id, user: Id, wanted: Range, now: Instant)
    requires ReferencesSound(s) && QueueSound(s)
    ensures var t := Join(s, id, resource, user, wanted, now).1; QueueSound(t) && EntriesForward(s, t)
  {}

  lemma WithdrawKeepsQueue(s: Store, id: Id)
    requires ReferencesSound(s) && QueueSound(s)
    ensures var t := WithdrawEntry(s, id).1; QueueSound(t) && EntriesForward(s, t)
  {}

  lemma OtherEventKeepsQueue(w: World, e: Event)
    requires QueueSound(w.store) && !IsWorkerEvent(e) && !e.JoinWaitlist? && !e.WithdrawFromWaitlist?
    requires !e.CascadeAtOnce? && !e.AcceptOffer? && !e.DeclineOffer? && !e.ReapHold?
    ensures StoreAfter(w, e).entries == w.store.entries && StoreAfter(w, e).offers == w.store.offers
    ensures QueueSound(StoreAfter(w, e)) && EntriesForward(w.store, StoreAfter(w, e))
  {}

  lemma {:induction false} RunKeepsQueue(w: World, es: seq<Event>)
    requires Inv(w) && QueueSound(w.store) && NoWorkers(es)
    ensures QueueSound(After(w, es).store) && Inv(After(w, es))
  {
    RunKeepsInv(w, es);
    if es != [] {
      RunKeepsQueue(w, es[..|es| - 1]);
      RunKeepsInv(w, es[..|es| - 1]);
      EventKeepsQueue(After(w, es[..|es| - 1]), es[|es| - 1]);
    }
  }

  lemma LastEventMovesForward(w: World, es: seq<Event>, n: nat, entry: Id)
    requires Fresh(w) && NoWorkers(es) && 0 < n <= |es| && entry in After(w, es[..n - 1]).store.entries
    ensures entry in After(w, es[..n]).store.entries
    ensures Forward(After(w, es[..n - 1]).store.entries[entry].status, After(w, es[..n]).store.entries[entry].status)
  {
    assert es[..n][..n - 1] == es[..n - 1];
    RunKeepsQueue(w, es[..n - 1]);
    EventKeepsQueue(After(w, es[..n - 1]), es[n - 1]);
  }

  // Over a run from empty tables, an entry's status at one moment leads to its status at any later one.
  lemma {:induction false} StatusOnlyMovesForward(w: World, es: seq<Event>, m: nat, n: nat, entry: Id)
    requires Fresh(w) && NoWorkers(es) && m <= n <= |es|
    requires entry in After(w, es[..m]).store.entries
    ensures entry in After(w, es[..n]).store.entries
    ensures Later(After(w, es[..m]).store.entries[entry].status, After(w, es[..n]).store.entries[entry].status)
    decreases n
  {
    if m < n {
      StatusOnlyMovesForward(w, es, m, n - 1, entry);
      LastEventMovesForward(w, es, n, entry);
    }
  }

  lemma {:induction false} InjectionBound(dom: set<Id>, cod: set<Id>, f: map<Id, Id>)
    requires dom <= f.Keys
    requires forall x | x in dom :: f[x] in cod
    requires forall x, y | x in dom && y in dom && x != y :: f[x] != f[y]
    ensures |dom| <= |cod|
  {
    if dom != {} {
      var x :| x in dom;
      InjectionBound(dom - {x}, cod - {f[x]}, f);
    }
  }

  // Each entry wins at most one offer ever, so no more offers are made than entries joined.
  lemma AtMostOneOfferPerEntry(w: World, es: seq<Event>)
    requires Fresh(w) && NoWorkers(es)
    ensures var s := After(w, es).store;
      && (forall o, p | o in s.offers && p in s.offers && s.offers[o].entry == s.offers[p].entry :: o == p)
      && |s.offers.Keys| <= |s.entries.Keys|
  {
    RunKeepsQueue(w, es);
    var s := After(w, es).store;
    InjectionBound(s.offers.Keys, s.entries.Keys, map o | o in s.offers :: s.offers[o].entry);
  }

  ghost function OffersOn(s: Store, r: Id): set<Id> {
    set o | o in s.offers && s.offers[o].resource == r
  }

  ghost function WaitingOn(s: Store, r: Id): set<Id> {
    set e | e in s.entries && s.entries[e].resource == r && s.entries[e].status == Waiting
  }

  ghost function JoinsOn(es: seq<Event>, r: Id): nat {
    if es == [] then 0
    else JoinsOn(es[..|es| - 1], r) + if es[|es| - 1].JoinWaitlist? && es[|es| - 1].resource == r then 1 else 0
  }

  lemma SubsetBound(a: set<Id>, b: set<Id>)
    requires a <= b
    ensures |a| <= |b|
  {
    if a != b {
      assert |b - a| + |a| == |b| by { assert (b - a) + a == b; }
    }
  }

  ghost predicate OffersKeepResource(s: Store, t: Store) {
    forall o | o in s.offers :: o in t.offers && t.offers[o].resource == s.offers[o].resource
  }

  lemma OffersKeepTheirResource(w: World, e: Event)
    requires !IsWorkerEvent(e) && !e.CascadeAtOnce?
    ensures OffersKeepResource(w.store, StoreAfter(w, e))
  {}

  lemma ArrivalSpendsQueue(s: Store, id: Id, resource: Id, user: Id, wanted: Range, now: Instant, r: Id)
    ensures var t := Join(s, id, resource, user, wanted, now).1;
      |OffersOn(t, r)| + |WaitingOn(t, r)| <= |OffersOn(s, r)| + |WaitingOn(s, r)| + if resource == r then 1 else 0
  {
    var t := Join(s, id, resource, user, wanted, now).1;
    assert OffersOn(t, r) == OffersOn(s, r);
    SubsetBound(WaitingOn(t, r), if resource == r then WaitingOn(s, r) + {id} else WaitingOn(s, r));
  }

  // Offers made plus entries still waiting: only a new arrival can add to the sum.
  lemma EventSpendsQueue(w: World, e: Event, r: Id)
    requires Inv(w) && QueueSound(w.store) && !IsWorkerEvent(e)
    ensures var s, t := w.store, StoreAfter(w, e);
      |OffersOn(t, r)| + |WaitingOn(t, r)| <=
        |OffersOn(s, r)| + |WaitingOn(s, r)| + if e.JoinWaitlist? && e.resource == r then 1 else 0
  {
    if e.JoinWaitlist? {
      ArrivalSpendsQueue(w.store, e.entry, e.resource, e.user, e.range, w.clock, r);
    } else if e.CascadeAtOnce? {
      CascadeSpendsQueue(w.store, e.resource, e.freed, w.window, w.clock, r);
    } else {
      QuietEventSpendsQueue(w, e, r);
    }
  }

  lemma QuietEventSpendsQueue(w: World, e: Event, r: Id)
    requires Inv(w) && QueueSound(w.store) && !IsWorkerEvent(e) && !e.JoinWaitlist? && !e.CascadeAtOnce?
    ensures var s, t := w.store, StoreAfter(w, e);
      |OffersOn(t, r)| + |WaitingOn(t, r)| <= |OffersOn(s, r)| + |WaitingOn(s, r)|
  {
    EventKeepsQueue(w, e);
    OffersKeepTheirResource(w, e);
    NobodyNewWaits(w, e);
    WaitingShrinks(w.store, StoreAfter(w, e), r);
  }

  lemma NobodyNewWaits(w: World, e: Event)
    requires !IsWorkerEvent(e) && !e.JoinWaitlist? && !e.CascadeAtOnce?
    ensures StoreAfter(w, e).entries.Keys == w.store.entries.Keys
  {}

  lemma WaitingShrinks(s: Store, t: Store, r: Id)
    requires s.entries.Keys == t.entries.Keys && EntriesForward(s, t)
    requires s.offers.Keys == t.offers.Keys && OffersKeepResource(s, t)
    ensures |OffersOn(t, r)| + |WaitingOn(t, r)| <= |OffersOn(s, r)| + |WaitingOn(s, r)|
  {
    assert OffersOn(t, r) == OffersOn(s, r);
    forall x | x in WaitingOn(t, r) ensures x in WaitingOn(s, r) {
      assert x in t.entries.Keys;
      assert x in s.entries;
    }
    SubsetBound(WaitingOn(t, r), WaitingOn(s, r));
  }

  lemma CascadeSpendsQueue(s: Store, resource: Id, freed: Range, window: int, now: Instant, r: Id)
    requires BookingsSound(s) && OffersSound(s) && EntriesSound(s) && QueueSound(s)
    ensures var t := Cascade(s, resource, freed, window, now).1;
      |OffersOn(t, r)| + |WaitingOn(t, r)| <= |OffersOn(s, r)| + |WaitingOn(s, r)|
  {
    var w := Winner(s, resource, freed, now);
    if w.Some? && Create(s, HoldRequest(s.entries[w.value], window), now).0.Done? {
      WaitingHasNoOffer(s, w.value);
      OfferToSucceeds(s, w.value, window, now);
      var (outcome, t) := OfferTo(s, w.value, window, now);
      OfferSpendsOneWaiter(s, t, w.value, outcome.offer, r);
    }
  }

  lemma OfferSpendsOneWaiter(s: Store, t: Store, entry: Id, offer: Id, r: Id)
    requires entry in s.entries && s.entries[entry].status == Waiting
    requires offer !in s.offers && offer in t.offers && t.offers[offer].resource == s.entries[entry].resource
    requires t.offers == s.offers[offer := t.offers[offer]]
    requires t.entries == s.entries[entry := s.entries[entry].(status := Offered)]
    ensures |OffersOn(t, r)| + |WaitingOn(t, r)| <= |OffersOn(s, r)| + |WaitingOn(s, r)|
  {
    OneMoreOffer(s, t, offer, r);
    OneFewerWaiter(s, t, entry, r);
  }

  lemma OneMoreOffer(s: Store, t: Store, offer: Id, r: Id)
    requires offer in t.offers && t.offers == s.offers[offer := t.offers[offer]]
    ensures |OffersOn(t, r)| <= |OffersOn(s, r)| + if t.offers[offer].resource == r then 1 else 0
  {
    SubsetBound(OffersOn(t, r), if t.offers[offer].resource == r then OffersOn(s, r) + {offer} else OffersOn(s, r));
  }

  lemma OneFewerWaiter(s: Store, t: Store, entry: Id, r: Id)
    requires entry in s.entries && s.entries[entry].status == Waiting
    requires t.entries == s.entries[entry := s.entries[entry].(status := Offered)]
    ensures |WaitingOn(t, r)| + (if s.entries[entry].resource == r then 1 else 0) <= |WaitingOn(s, r)|
  {
    if s.entries[entry].resource == r {
      assert entry in WaitingOn(s, r);
      SubsetBound(WaitingOn(t, r), WaitingOn(s, r) - {entry});
    } else {
      SubsetBound(WaitingOn(t, r), WaitingOn(s, r));
    }
  }

  // However declines, expiries and cascades follow each other, the offers made on a resource are paid for by
  // the entries that were waiting at the start and those that joined since.
  lemma {:induction false} ChainEndsWithinTheQueue(w: World, es: seq<Event>, r: Id)
    requires Inv(w) && QueueSound(w.store) && NoWorkers(es)
    ensures |OffersOn(After(w, es).store, r)| + |WaitingOn(After(w, es).store, r)|
              <= |OffersOn(w.store, r)| + |WaitingOn(w.store, r)| + JoinsOn(es, r)
  {
    if es != [] {
      var front := es[..|es| - 1];
      ChainEndsWithinTheQueue(w, front, r);
      RunKeepsQueue(w, front);
      EventSpendsQueue(After(w, front), es[|es| - 1], r);
    }
  }
}
