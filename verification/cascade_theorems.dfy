/** Whom the cascade serves, and when it fails to serve anyone. */
module CascadeTheorems {
  import opened Tables
  import opened Transactions
  import opened KeyOrder
  import opened Queue
  import opened QueueTheorems

  // The entry's own range could be held right now.
  ghost predicate CanBeHad(s: Store, entry: Id, now: Instant)
    requires entry in s.entries
  {
    !Taken(s, s.entries[entry].resource, s.entries[entry].range, now)
    && !Pinned(s, s.entries[entry].resource, s.entries[entry].range, now)
  }

  lemma CanBeHadExactlyWhenHoldable(s: Store, entry: Id, window: int, now: Instant)
    requires EntriesSound(s) && entry in s.entries
    ensures CanBeHad(s, entry, now) <==> Create(s, HoldRequest(s.entries[entry], window), now).0.Done?
  {}

  ghost predicate InLineBefore(s: Store, a: Id, b: Id)
    requires a in s.entries && b in s.entries
  {
    s.entries[a].joinedAt < s.entries[b].joinedAt || (s.entries[a].joinedAt == s.entries[b].joinedAt && a < b)
  }

  // First come, first served among the eligible entries that can be had; nobody when there are none.
  ghost predicate AsPromised(s: Store, resource: Id, freed: Range, now: Instant, outcome: CascadeOutcome) {
    match outcome
    case NobodyEligible => forall e | e in s.entries && Eligible(s.entries[e], resource, freed) :: !CanBeHad(s, e, now)
    case OfferMade(_, entry) =>
      && entry in s.entries && Eligible(s.entries[entry], resource, freed) && CanBeHad(s, entry, now)
      && forall e | e in s.entries && e != entry && Eligible(s.entries[e], resource, freed) && CanBeHad(s, e, now) ::
           InLineBefore(s, entry, e)
    case Failed => false
  }

  // The cascade picks the first eligible entry nobody stands in the way of, expired holds apart.
  lemma WinnerIsFirst(s: Store, resource: Id, freed: Range, now: Instant)
    ensures var w := Winner(s, resource, freed, now);
      && (w.None? ==> forall e | e in s.entries && Eligible(s.entries[e], resource, freed) :: Taken(s, resource, s.entries[e].range, now))
      && (w.Some? ==>
            && Eligible(s.entries[w.value], resource, freed) && !Taken(s, resource, s.entries[w.value].range, now)
            && forall e | e in s.entries && e != w.value && Eligible(s.entries[e], resource, freed)
                 && !Taken(s, resource, s.entries[e].range, now) :: InLineBefore(s, w.value, e))
  {
    var all := Contenders(s, resource, freed, now);
    forall e | e in s.entries && Eligible(s.entries[e], resource, freed) && !Taken(s, resource, s.entries[e].range, now)
      ensures QueueKey(s.entries[e], e) in all
    {}
    if all != {} { ContenderIsEntry(s, resource, freed, now, Least(all)); }
  }

  // The cascade fails exactly when the first in line wants a range with an expired hold in the way that was
  // offered, or already has an active offer; otherwise the first in line among those who can be had is served,
  // and nobody only when there is none.
  lemma CascadeServesUnlessItFails(s: Store, resource: Id, freed: Range, window: int, now: Instant)
    requires BookingsSound(s) && ReferencesSound(s) && EntriesSound(s)
    ensures var outcome, w := Cascade(s, resource, freed, window, now).0, Winner(s, resource, freed, now);
      && (outcome.Failed? <==> w.Some? && (Pinned(s, resource, s.entries[w.value].range, now) || HasOfferOut(s, w.value)))
      && (AsPromised(s, resource, freed, now, outcome) <==> !outcome.Failed?)
  {
    WinnerIsFirst(s, resource, freed, now);
    var w := Winner(s, resource, freed, now);
    if w.Some? {
      CanBeHadExactlyWhenHoldable(s, w.value, window, now);
      if CanBeHad(s, w.value, now) {
        if HasOfferOut(s, w.value) { SecondOfferIsRefused(s, w.value, window, now); } else { OfferToSucceeds(s, w.value, window, now); }
      }
    }
  }

  // The hold of an entry that already has an offer is created, and left behind when the offer row is refused.
  lemma SecondOfferIsRefused(s: Store, entry: Id, window: int, now: Instant)
    requires entry in s.entries && HasOfferOut(s, entry)
    requires Create(s, HoldRequest(s.entries[entry], window), now).0.Done?
    ensures OfferTo(s, entry, window, now) == (Failed, Create(s, HoldRequest(s.entries[entry], window), now).1)
  {}

  // What a cascade leaves behind when it makes no offer: nothing, or the hold of an entry that had one already.
  lemma CascadeWithoutOffer(s: Store, resource: Id, freed: Range, window: int, now: Instant)
    requires BookingsSound(s) && ReferencesSound(s) && EntriesSound(s)
    ensures var (outcome, t) := Cascade(s, resource, freed, window, now);
      !outcome.OfferMade? ==>
        t == s || (exists e | e in s.entries && HasOfferOut(s, e) :: t == Create(s, HoldRequest(s.entries[e], window), now).1)
  {
    var w := Winner(s, resource, freed, now);
    if w.Some? && Create(s, HoldRequest(s.entries[w.value], window), now).0.Done? {
      if HasOfferOut(s, w.value) { SecondOfferIsRefused(s, w.value, window, now); } else { OfferToSucceeds(s, w.value, window, now); }
    }
  }
}
