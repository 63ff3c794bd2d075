/** The waitlist queue, and the offer cascade taken as a single step. */
module Queue {
  import opened Tables
  import opened Transactions
  import opened KeyOrder

  predicate Eligible(e: Entry, resource: Id, freed: Range) {
    e.resource == resource && e.status == Waiting && freed.Contains(e.range)
  }

  function QueueKey(e: Entry, id: Id): Key {
    Key(e.joinedAt, id)
  }

  // First come, first served: ordered by (joined_at, id).
  function EligibleKeys(s: Store, resource: Id, freed: Range): set<Key> {
    set e | e in s.entries && Eligible(s.entries[e], resource, freed) :: QueueKey(s.entries[e], e)
  }

  // The hold a cascade tries to create for an entry.
  function HoldRequest(e: Entry, window: int): CreateRequest {
    CreateRequest(e.resource, e.user, None, e.range, Some(window))
  }

  // The entries a hold would not be refused for with slot_unavailable.
  ghost function Contenders(s: Store, resource: Id, freed: Range, now: Instant): set<Key> {
    set e | e in s.entries && Eligible(s.entries[e], resource, freed)
            && !Taken(s, resource, s.entries[e].range, now) :: QueueKey(s.entries[e], e)
  }

  lemma ContenderIsEntry(s: Store, resource: Id, freed: Range, now: Instant, k: Key)
    requires k in Contenders(s, resource, freed, now)
    ensures k.minor >= 0 && k.minor in s.entries && k == QueueKey(s.entries[k.minor], k.minor)
    ensures Eligible(s.entries[k.minor], resource, freed) && !Taken(s, resource, s.entries[k.minor].range, now)
  {}

  // The one-line specification of the cascade: the earliest contender, if there is one.
  ghost function Winner(s: Store, resource: Id, freed: Range, now: Instant): (r: Option<Id>)
    ensures r.Some? ==> r.value in s.entries && Eligible(s.entries[r.value], resource, freed)
  {
    var all := Contenders(s, resource, freed, now);
    if all == {} then None
    else
      ContenderIsEntry(s, resource, freed, now, Least(all));
      Some(Least(all).minor)
  }

  ghost predicate HasOfferOut(s: Store, entry: Id) {
    exists o | o in s.offers :: s.offers[o].entry == entry && s.offers[o].status == Active
  }

  datatype CascadeOutcome =
    | OfferMade(offer: Id, entry: Id)
    | NobodyEligible
    | Failed    // an exception other than slot_unavailable escaped

  // What happens once the chosen entry has its hold: the offer row, and the entry update.
  ghost function OfferOn(s: Store, entry: Id, e: Entry, hold: Id, window: int, now: Instant): (CascadeOutcome, Store) {
    var (inserted, s1) := InsertOffer(s, entry, hold, e.resource, e.range, now + window, now);
    if inserted.IntegrityError? then (Failed, s)
    else
      var (marked, s2) := MarkOffered(s1, entry);
      if marked then (OfferMade(inserted.offer, entry), s2) else (Failed, s1)
  }

  ghost function OfferTo(s: Store, entry: Id, window: int, now: Instant): (CascadeOutcome, Store)
    requires entry in s.entries
  {
    var (held, s1) := Create(s, HoldRequest(s.entries[entry], window), now);
    if held.Done? then OfferOn(s1, entry, s.entries[entry], held.id, window, now) else (Failed, s)
  }

  ghost function Cascade(s: Store, resource: Id, freed: Range, window: int, now: Instant): (CascadeOutcome, Store) {
    var w := Winner(s, resource, freed, now);
    if w.None? then (NobodyEligible, s) else OfferTo(s, w.value, window, now)
  }
}
