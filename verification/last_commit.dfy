/**
 The worker's last commit marks its entry as offered, whatever has happened to the entry since the worker read the
 queue. Between the two the owner may withdraw it, or accept or decline the offer already written, and the reaper
 may expire it.
 */
module LastCommit {
  import opened Tables
  import opened Transactions
  import opened KeyOrder
  import opened Queue
  import opened Interleaving
  import opened QueueTheorems

  ghost function StoreAt(w: World, es: seq<Event>, n: nat): Store
    requires n <= |es|
  {
    After(w, es[..n]).store
  }

  ghost predicate InQueue(w: World, es: seq<Event>, n: nat, entry: Id)
    requires n <= |es|
  {
    entry in StoreAt(w, es, n).entries && StoreAt(w, es, n).entries[entry].Live()
  }

  // Whether the entry is in the queue, before each event and at the end.
  ghost function Presence(w: World, es: seq<Event>, entry: Id): seq<bool> {
    seq(|es| + 1, n requires 0 <= n <= |es| => InQueue(w, es, n, entry))
  }

  // Event n takes it out of the queue, or brings it in.
  predicate Leaves(present: seq<bool>, n: nat)
    requires n + 1 < |present|
  {
    present[n] && !present[n + 1]
  }

  predicate Returns(present: seq<bool>, n: nat)
    requires n + 1 < |present|
  {
    !present[n] && present[n + 1]
  }

  // It left at i, and had not come back before n.
  ghost predicate GoneSince(present: seq<bool>, i: nat, n: nat)
    requires i < n < |present|
  {
    Leaves(present, i) && forall j | i < j < n :: !Returns(present, j)
  }

  // Between m and n it left the queue, and did not come back.
  ghost predicate LeftBetween(present: seq<bool>, m: nat, n: nat)
    requires m <= n < |present|
  {
    exists i | m <= i < n :: GoneSince(present, i, n)
  }

  // Event m starts worker k, which is not crashed before event n.
  ghost predicate StartedAt(w: World, es: seq<Event>, m: nat, n: nat, k: Id)
    requires m < n <= |es|
  {
    && es[m].StartWorker? && es[m].worker == k && k !in After(w, es[..m]).workers
    && forall i | m < i < n :: es[i] != CrashWorker(k)
  }

  // ---------------------------------------------------------------- one event

  lemma Steps(w: World, es: seq<Event>, n: nat)
    requires Fresh(w) && n < |es|
    ensures Inv(After(w, es[..n])) && After(w, es[..n + 1]) == Apply(After(w, es[..n]), es[n])
    ensures HoldDiscipline(StoreAt(w, es, n), StoreAt(w, es, n + 1), After(w, es[..n]).clock)
  {
    RunKeepsInv(w, es[..n]);
    AfterPrefix(w, es, n);
    StepKeepsInv(After(w, es[..n]), es[n]);
  }

  ghost predicate OffersTo(s: Store, o: Id, entry: Id) {
    o in s.offers && s.offers[o].entry == entry
  }

  // The entry's withdrawal, or the end of an offer made to it.
  ghost predicate TakesOut(w: World, e: Event, entry: Id) {
    || e == WithdrawFromWaitlist(entry)
    || (e.AcceptOffer? && OffersTo(w.store, e.offer, entry))
    || (e.DeclineOffer? && OffersTo(w.store, e.offer, entry))
    || (e.ReapHold? && exists o :: OffersTo(w.store, o, entry) && w.store.offers[o].hold == e.booking)
  }

  // An entry leaves the queue only so.
  lemma WayOutOfQueue(w: World, e: Event, entry: Id)
    requires entry in w.store.entries && w.store.entries[entry].Live()
    requires entry in StoreAfter(w, e).entries && !StoreAfter(w, e).entries[entry].Live()
    ensures TakesOut(w, e, entry)
  {
    if e.ReapHold? {
      assert Reap(w.store, e.booking, e.sweptAt).0.ReclaimedOffer?;
      assert OffersTo(w.store, ActiveOffer(w.store, e.booking), entry);
    }
  }

  // The entry joins, or some worker makes its last commit on it.
  ghost predicate BringsIn(w: World, e: Event, entry: Id) {
    || (e.JoinWaitlist? && e.entry == entry && entry !in w.store.entries)
    || (e.StepWorker? && e.worker in w.workers && w.workers[e.worker] == OfferWritten(entry))
  }

  // It enters the queue only so.
  lemma WayIntoQueue(w: World, e: Event, entry: Id)
    requires !(entry in w.store.entries && w.store.entries[entry].Live())
    requires entry in StoreAfter(w, e).entries && StoreAfter(w, e).entries[entry].Live()
    ensures BringsIn(w, e, entry)
  {
    if e.CascadeAtOnce? { CascadeRevivesNobody(w.store, e.resource, e.freed, w.window, w.clock); }
  }

  lemma CascadeRevivesNobody(s: Store, resource: Id, freed: Range, window: int, now: Instant)
    ensures var t := Cascade(s, resource, freed, window, now).1;
      forall e | e in t.entries && t.entries[e].Live() :: e in s.entries && s.entries[e].Live()
  {}

  // ---------------------------------------------------------------- over the run

  lemma EventKeepsEntry(w: World, e: Event, entry: Id)
    requires entry in w.store.entries
    ensures entry in StoreAfter(w, e).entries && StoreAfter(w, e).entries[entry].SameSlot(w.store.entries[entry])
  {
    match e
    case CascadeAtOnce(resource, freed) => CascadeKeepsEntry(w.store, resource, freed, w.window, w.clock, entry);
    case _ =>
  }

  lemma CascadeKeepsEntry(s: Store, resource: Id, freed: Range, window: int, now: Instant, entry: Id)
    requires entry in s.entries
    ensures var t := Cascade(s, resource, freed, window, now).1; entry in t.entries && t.entries[entry].SameSlot(s.entries[entry])
  {}

  // Entries are never removed, and keep their user, resource and range.
  lemma {:induction false} EntryStays(w: World, es: seq<Event>, m: nat, n: nat, entry: Id)
    requires m <= n <= |es| && entry in StoreAt(w, es, m).entries
    ensures entry in StoreAt(w, es, n).entries && StoreAt(w, es, n).entries[entry].SameSlot(StoreAt(w, es, m).entries[entry])
    decreases n
  {
    if m < n {
      EntryStays(w, es, m, n - 1, entry);
      AfterPrefix(w, es, n - 1);
      EventKeepsEntry(After(w, es[..n - 1]), es[n - 1], entry);
    }
  }

  // What is in the queue at m is out of it at n exactly when it left in between and did not come back.
  lemma {:induction false} OutExactlyWhenLeft(present: seq<bool>, m: nat, n: nat)
    requires m <= n < |present| && present[m]
    ensures !present[n] <==> LeftBetween(present, m, n)
    decreases n
  {
    if m < n {
      OutExactlyWhenLeft(present, m, n - 1);
      if present[n - 1] {
        if !present[n] { assert GoneSince(present, n - 1, n); }
        forall i | m <= i < n - 1 && GoneSince(present, i, n) ensures GoneSince(present, i, n - 1) {}
      } else {
        var i :| m <= i < n - 1 && GoneSince(present, i, n - 1);
        if !present[n] { assert GoneSince(present, i, n); }
        forall i | m <= i < n && GoneSince(present, i, n) ensures !present[n] {
          assert i < n - 1 && !Returns(present, n - 1);
        }
      }
    }
  }

  // What worker k, started over (resource, freed) in tables s, has in hand was read from s.
  ghost predicate ReadFrom(s: Store, resource: Id, freed: Range, entry: Id) {
    entry in s.entries && Eligible(s.entries[entry], resource, freed)
  }

  ghost predicate Carries(s: Store, resource: Id, freed: Range, worker: Worker) {
    match worker
    case Trying(_, left) => forall i | 0 <= i < |left| :: ReadFrom(s, resource, freed, left[i].entry)
    case HoldTaken(_, c, _, _) => ReadFrom(s, resource, freed, c.entry)
    case OfferWritten(entry) => ReadFrom(s, resource, freed, entry)
    case Finished => true
  }

  lemma ListIsReadFrom(s: Store, resource: Id, freed: Range)
    ensures Carries(s, resource, freed, Trying(resource, CandidateList(s, resource, freed)))
  {
    var keys := Ascending(EligibleKeys(s, resource, freed));
    forall i | 0 <= i < |keys| ensures ReadFrom(s, resource, freed, CandidateOf(s, keys[i]).entry) {
      assert keys[i] in keys;
    }
  }

  lemma {:induction false} WorkerCarriesOn(w: World, es: seq<Event>, m: nat, n: nat, k: Id)
    requires m < n <= |es| && StartedAt(w, es, m, n, k)
    ensures k in After(w, es[..n]).workers
    ensures Carries(StoreAt(w, es, m), es[m].resource, es[m].freed, After(w, es[..n]).workers[k])
    decreases n
  {
    AfterPrefix(w, es, n - 1);
    if n == m + 1 {
      ListIsReadFrom(StoreAt(w, es, m), es[m].resource, es[m].freed);
    } else {
      assert StartedAt(w, es, m, n - 1, k);
      WorkerCarriesOn(w, es, m, n - 1, k);
      EventKeepsCarrying(After(w, es[..n - 1]), es[n - 1], k, StoreAt(w, es, m), es[m].resource, es[m].freed);
    }
  }

  lemma EventKeepsCarrying(w: World, e: Event, k: Id, s: Store, resource: Id, freed: Range)
    requires k in w.workers && Carries(s, resource, freed, w.workers[k]) && e != CrashWorker(k)
    ensures k in WorkersAfter(w, e) && Carries(s, resource, freed, WorkersAfter(w, e)[k])
  {
    if e == StepWorker(k) {
      var worker := w.workers[k];
      if worker.Trying? && worker.left != [] { assert ReadFrom(s, resource, freed, worker.left[0].entry); }
    }
  }

  // ---------------------------------------------------------------- the last commit

  // Worker k was started by event m and makes its last commit at event n.
  ghost predicate CommitsLastAt(w: World, es: seq<Event>, m: nat, n: nat, k: Id)
    requires m < n < |es|
  {
    && StartedAt(w, es, m, n, k) && es[n] == StepWorker(k)
    && k in After(w, es[..n]).workers && After(w, es[..n]).workers[k].OfferWritten?
  }

  lemma LeftSomehow(w: World, es: seq<Event>, m: nat, n: nat, entry: Id)
    requires Fresh(w) && m <= n <= |es| && LeftBetween(Presence(w, es, entry), m, n)
    ensures exists i | m <= i < n :: GoneSince(Presence(w, es, entry), i, n) && TakesOut(After(w, es[..i]), es[i], entry)
  {
    var i :| m <= i < n && GoneSince(Presence(w, es, entry), i, n);
    Steps(w, es, i);
    EntryStays(w, es, i, i + 1, entry);
    WayOutOfQueue(After(w, es[..i]), es[i], entry);
  }

  // The entry was waiting when the worker read the queue. Its last commit moves the entry other than forward
  // exactly when the entry has left the queue since, for good, and its user has not joined for the same slot
  // again; and when they have, the commit is refused and changes nothing.
  lemma LastCommitOverwritesExactlyWhenLeft(w: World, es: seq<Event>, m: nat, n: nat, k: Id)
    requires Fresh(w) && m < n < |es| && CommitsLastAt(w, es, m, n, k)
    ensures var entry := After(w, es[..n]).workers[k].entry;
      var s, t := StoreAt(w, es, n), StoreAt(w, es, n + 1);
      && entry in StoreAt(w, es, m).entries && StoreAt(w, es, m).entries[entry].status == Waiting
      && entry in s.entries && entry in t.entries
      && (!Forward(s.entries[entry].status, t.entries[entry].status)
          <==> LeftBetween(Presence(w, es, entry), m, n) && !TwinLives(s, entry))
      && (TwinLives(s, entry) ==> t == s && LeftBetween(Presence(w, es, entry), m, n))
      && (!TwinLives(s, entry) ==> t.entries[entry].status == Offered)
      && (LeftBetween(Presence(w, es, entry), m, n) ==> exists i | m <= i < n :: TakesOut(After(w, es[..i]), es[i], entry))
  {
    var entry := After(w, es[..n]).workers[k].entry;
    WorkerCarriesOn(w, es, m, n, k);
    EntryStays(w, es, m, n, entry);
    OutExactlyWhenLeft(Presence(w, es, entry), m, n);
    if LeftBetween(Presence(w, es, entry), m, n) { LeftSomehow(w, es, m, n, entry); }
    Steps(w, es, n);
    var s := StoreAt(w, es, n);
    assert s.entries[entry].Live() ==> !TwinLives(s, entry);
  }

  lemma CameSomehow(w: World, es: seq<Event>, j: nat, entry: Id)
    requires Fresh(w) && j < |es| && Returns(Presence(w, es, entry), j)
    ensures BringsIn(After(w, es[..j]), es[j], entry)
  {
    Steps(w, es, j);
    WayIntoQueue(After(w, es[..j]), es[j], entry);
  }

  // Whoever stands in the way then joined the queue, or was brought back into it, after the entry had left.
  lemma {:induction false} TwinCameAfter(w: World, es: seq<Event>, i: nat, n: nat, entry: Id, twin: Id) returns (j: nat)
    requires Fresh(w) && i < n <= |es| && Leaves(Presence(w, es, entry), i) && entry in StoreAt(w, es, n).entries
    requires twin != entry && InQueue(w, es, n, twin) && StoreAt(w, es, n).entries[twin].SameSlot(StoreAt(w, es, n).entries[entry])
    ensures i <= j < n && Returns(Presence(w, es, twin), j) && BringsIn(After(w, es[..j]), es[j], twin)
    decreases n
  {
    if InQueue(w, es, n - 1, twin) {
      EntryStays(w, es, n - 1, n, twin);
      EntryStays(w, es, i, n - 1, entry);
      EntryStays(w, es, n - 1, n, entry);
      if n - 1 > i {
        j := TwinCameAfter(w, es, i, n - 1, entry, twin);
      } else {
        Steps(w, es, i);
        assert false;
      }
    } else {
      j := n - 1;
      CameSomehow(w, es, j, twin);
    }
  }
}
