/** First come, first served over whole runs: when an entry joined, and in what order the cascade takes them up. */
module FirstCome {
  import opened Tables
  import opened Transactions
  import opened KeyOrder
  import opened Queue
  import opened CascadeTheorems
  import opened Interleaving
  import opened LastCommit
  import opened Columns

  // Event m is the entry's joining, at the clock reading the entry carries.
  ghost predicate JoinedBy(w: World, es: seq<Event>, m: nat, id: Id, entry: Entry) {
    && m < |es| && es[m] == JoinWaitlist(id, entry.resource, entry.user, entry.range)
    && entry.joinedAt == After(w, es[..m]).clock
  }

  lemma CascadeKeepsJoin(s: Store, resource: Id, freed: Range, window: int, now: Instant, id: Id)
    requires id in s.entries
    ensures var t := Cascade(s, resource, freed, window, now).1;
      id in t.entries && t.entries[id] == s.entries[id].(status := t.entries[id].status)
    ensures Cascade(s, resource, freed, window, now).1.entries.Keys == s.entries.Keys
  {}

  // Nothing about an entry but its status changes.
  lemma EventKeepsJoin(w: World, e: Event, id: Id)
    requires id in w.store.entries
    ensures var t := StoreAfter(w, e); id in t.entries && t.entries[id] == w.store.entries[id].(status := t.entries[id].status)
  {
    match e
    case CascadeAtOnce(resource, freed) => CascadeKeepsJoin(w.store, resource, freed, w.window, w.clock, id);
    case _ =>
  }

  lemma CascadeAddsNone(s: Store, resource: Id, freed: Range, window: int, now: Instant)
    ensures Cascade(s, resource, freed, window, now).1.entries.Keys == s.entries.Keys
  {}

  lemma NewEntryHasJoined(w: World, e: Event, id: Id)
    requires id !in w.store.entries && id in StoreAfter(w, e).entries
    ensures var t := StoreAfter(w, e).entries[id]; e == JoinWaitlist(id, t.resource, t.user, t.range) && t.joinedAt == w.clock
  {
    match e
    case CascadeAtOnce(resource, freed) => CascadeAddsNone(w.store, resource, freed, w.window, w.clock);
    case _ =>
  }

  // Every entry there ever is has joined, for the slot and at the time it says.
  lemma {:induction false} JoinedAtItsTime(w: World, es: seq<Event>, n: nat, id: Id) returns (m: nat)
    requires Fresh(w) && n <= |es| && id in StoreAt(w, es, n).entries
    ensures m < n && JoinedBy(w, es, m, id, StoreAt(w, es, n).entries[id])
    decreases n
  {
    assert n > 0;
    AfterPrefix(w, es, n - 1);
    if id in StoreAt(w, es, n - 1).entries {
      EventKeepsJoin(After(w, es[..n - 1]), es[n - 1], id);
      m := JoinedAtItsTime(w, es, n - 1, id);
    } else {
      NewEntryHasJoined(After(w, es[..n - 1]), es[n - 1], id);
      m := n - 1;
    }
  }

  lemma {:induction false} ClockNeverGoesBack(w: World, es: seq<Event>, m: nat, n: nat)
    requires m <= n <= |es|
    ensures After(w, es[..m]).clock <= After(w, es[..n]).clock
    decreases n
  {
    if m < n {
      ClockNeverGoesBack(w, es, m, n - 1);
      AfterPrefix(w, es, n - 1);
    }
  }

  // In any run, whoever a cascade makes an offer to joined no later than any other who was waiting within the freed
  // range and whose slot could be booked; so a later joiner is passed over while an earlier one can be served.
  lemma EarlierJoinersAreServedFirst(w: World, es: seq<Event>, n: nat, resource: Id, freed: Range, other: Id) returns (i: nat, j: nat)
    requires Fresh(w) && n < |es| && es[n] == CascadeAtOnce(resource, freed)
    requires Cascade(StoreAt(w, es, n), resource, freed, After(w, es[..n]).window, After(w, es[..n]).clock).0.OfferMade?
    requires var s := StoreAt(w, es, n);
      && other in s.entries && WaitsWithin(s.entries[other], resource, freed)
      && CanBook(s, resource, s.entries[other].range.lo, s.entries[other].range.hi, After(w, es[..n]).clock)
    ensures var s := StoreAt(w, es, n);
      var served := Cascade(s, resource, freed, After(w, es[..n]).window, After(w, es[..n]).clock).0.entry;
      && served in s.entries && i < n && j < n
      && JoinedBy(w, es, i, served, s.entries[served]) && JoinedBy(w, es, j, other, s.entries[other])
      && (served != other ==>
            && (After(w, es[..i]).clock < After(w, es[..j]).clock || (After(w, es[..i]).clock == After(w, es[..j]).clock && served < other))
            && (j < i ==> After(w, es[..i]).clock == After(w, es[..j]).clock))
  {
    var s, now := StoreAt(w, es, n), After(w, es[..n]).clock;
    RunKeepsInv(w, es[..n]);
    FirstComeFirstServed(s, resource, freed, After(w, es[..n]).window, now);
    var served := Cascade(s, resource, freed, After(w, es[..n]).window, now).0.entry;
    i := JoinedAtItsTime(w, es, n, served);
    j := JoinedAtItsTime(w, es, n, other);
    if j < i { ClockNeverGoesBack(w, es, j, i); }
  }

  // ---------------------------------------------------------------- a worker's own order

  // Exactly the entries waiting within the freed range, in the order they joined.
  ghost predicate ReadInOrder(s: Store, resource: Id, freed: Range, list: seq<Candidate>) {
    && (forall n | 0 <= n < |list| ::
          && list[n].entry in s.entries && WaitsWithin(s.entries[list[n].entry], resource, freed)
          && list[n].user == s.entries[list[n].entry].user && list[n].range == s.entries[list[n].entry].range)
    && (forall e | e in s.entries && WaitsWithin(s.entries[e], resource, freed) :: exists n | 0 <= n < |list| :: list[n].entry == e)
    && (forall m, n | 0 <= m < n < |list| :: InLineBefore(s, list[m].entry, list[n].entry))
  }

  // So a worker reads them, and tries them.
  lemma WorkerReadsInOrder(s: Store, resource: Id, freed: Range)
    ensures ReadInOrder(s, resource, freed, CandidateList(s, resource, freed))
  {
    var list, keys := CandidateList(s, resource, freed), Ascending(EligibleKeys(s, resource, freed));
    forall n | 0 <= n < |list|
      ensures list[n].entry in s.entries && QueueKey(s.entries[list[n].entry], list[n].entry) == keys[n]
      ensures WaitsWithin(s.entries[list[n].entry], resource, freed) && list[n].user == s.entries[list[n].entry].user
      ensures list[n].range == s.entries[list[n].entry].range
    {
      assert keys[n] in keys;
    }
    forall e | e in s.entries && WaitsWithin(s.entries[e], resource, freed) ensures exists n | 0 <= n < |list| :: list[n].entry == e {
      assert QueueKey(s.entries[e], e) in keys;
      var n :| 0 <= n < |keys| && keys[n] == QueueKey(s.entries[e], e);
      assert list[n].entry == e;
    }
  }

  // ---------------------------------------------------------------- a worker without interference

  function StepsLeft(k: Worker): nat {
    match k
    case Trying(_, left) => |left| + 3
    case HoldTaken(_, _, _, _) => 2
    case OfferWritten(_) => 1
    case Finished => 0
  }

  // All of a worker's remaining commits, with nothing in between.
  ghost function Alone(s: Store, k: Worker, window: int, now: Instant): Store
    decreases StepsLeft(k)
  {
    if k.Finished? then s
    else
      var (next, t) := StepOf(s, k, window, now);
      Alone(t, next, window, now)
  }

  lemma CarriesOnWithHold(s: Store, resource: Id, c: Candidate, e: Entry, hold: Id, window: int, now: Instant)
    requires e.resource == resource && e.range == c.range
    ensures Alone(s, HoldTaken(resource, c, hold, now + window), window, now) == OfferOn(s, c.entry, e, hold, window, now).1
  {
    var (next, t) := StepOf(s, HoldTaken(resource, c, hold, now + window), window, now);
    if next.OfferWritten? { assert Alone(t, next, window, now) == MarkOffered(t, c.entry).1; }
  }

  lemma TriesFirst(s: Store, resource: Id, left: seq<Candidate>, entry: Id, window: int, now: Instant)
    requires left != [] && entry in s.entries && s.entries[entry].resource == resource
    requires left[0] == Candidate(entry, s.entries[entry].user, s.entries[entry].range)
    requires !Taken(s, resource, s.entries[entry].range, now)
    ensures Alone(s, Trying(resource, left), window, now) == OfferTo(s, entry, window, now).1
  {
    var e := s.entries[entry];
    var (held, s1) := Create(s, HoldRequest(e, window), now);
    var (next, t) := StepOf(s, Trying(resource, left), window, now);
    if held.Done? {
      assert next == HoldTaken(resource, left[0], held.id, now + window) && t == s1;
      CarriesOnWithHold(s1, resource, left[0], e, held.id, window, now);
    } else {
      assert next == Finished && t == s;
    }
  }

  lemma SkipsTaken(s: Store, resource: Id, left: seq<Candidate>, window: int, now: Instant)
    requires left != [] && Taken(s, resource, left[0].range, now) && left[0].range.NonEmpty()
    ensures Alone(s, Trying(resource, left), window, now) == Alone(s, Trying(resource, left[1..]), window, now)
  {}

  lemma NobodyFree(s: Store, resource: Id, freed: Range, list: seq<Candidate>, now: Instant)
    requires ReadInOrder(s, resource, freed, list) && forall m | 0 <= m < |list| :: Taken(s, resource, list[m].range, now)
    ensures Winner(s, resource, freed, now).None?
  {
    WinnerIsFirst(s, resource, freed, now);
  }

  lemma FirstFreeWins(s: Store, resource: Id, freed: Range, list: seq<Candidate>, n: nat, now: Instant)
    requires ReadInOrder(s, resource, freed, list) && n < |list|
    requires (forall m | 0 <= m < n :: Taken(s, resource, list[m].range, now)) && !Taken(s, resource, list[n].range, now)
    ensures Winner(s, resource, freed, now) == Some(list[n].entry)
  {
    WinnerIsFirst(s, resource, freed, now);
    assert Eligible(s.entries[list[n].entry], resource, freed);
    var winner := Winner(s, resource, freed, now).value;
    var k :| 0 <= k < |list| && list[k].entry == winner;
    assert n <= k && (n < k ==> InLineBefore(s, list[n].entry, list[k].entry));
  }

  lemma {:induction false} TriesInTurn(s: Store, resource: Id, freed: Range, list: seq<Candidate>, n: nat, window: int, now: Instant)
    requires EntriesSound(s) && ReadInOrder(s, resource, freed, list) && n <= |list|
    requires forall m | 0 <= m < n :: Taken(s, resource, list[m].range, now)
    ensures Alone(s, Trying(resource, list[n..]), window, now) == Cascade(s, resource, freed, window, now).1
    decreases |list| - n
  {
    if n == |list| {
      NobodyFree(s, resource, freed, list, now);
    } else if Taken(s, resource, list[n].range, now) {
      SkipsTaken(s, resource, list[n..], window, now);
      assert list[n..][1..] == list[n + 1..];
      TriesInTurn(s, resource, freed, list, n + 1, window, now);
    } else {
      FirstFreeWins(s, resource, freed, list, n, now);
      TriesFirst(s, resource, list[n..], list[n].entry, window, now);
    }
  }

  // A worker whose commits nothing comes between does what the one-step cascade does.
  lemma WorkerAloneIsCascade(s: Store, resource: Id, freed: Range, window: int, now: Instant)
    requires EntriesSound(s)
    ensures Alone(s, Trying(resource, CandidateList(s, resource, freed)), window, now) == Cascade(s, resource, freed, window, now).1
  {
    var list := CandidateList(s, resource, freed);
    WorkerReadsInOrder(s, resource, freed);
    TriesInTurn(s, resource, freed, list, 0, window, now);
    assert list[0..] == list;
  }
}
