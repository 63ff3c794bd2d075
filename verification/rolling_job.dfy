/** The rolling job: one run over all active series. */
module RollingJob {
  import opened Tables
  import opened Transactions
  import opened BookingService
  import opened TimeZones
  import opened Recurrence
  import opened RollingWindows
  import opened SeriesTasks

  // A series and the position of one of its occurrences.
  type Slot = (Id, nat)

  predicate Planned(rows: map<Id, SeriesRow>, plans: map<Id, seq<Occurrence>>, p: Slot) {
    p.0 in rows && p.0 in plans && p.1 < |plans[p.0]|
  }

  function SlotRequest(rows: map<Id, SeriesRow>, plans: map<Id, seq<Occurrence>>, p: Slot): CreateRequest
    requires Planned(rows, plans, p)
  {
    OccurrenceRequest(p.0, rows[p.0], plans[p.0][p.1])
  }

  function SlotRequests(rows: map<Id, SeriesRow>, plans: map<Id, seq<Occurrence>>, made: seq<Slot>): seq<CreateRequest>
    requires forall p | p in made :: Planned(rows, plans, p)
  {
    seq(|made|, k requires 0 <= k < |made| => assert Planned(rows, plans, made[k]); SlotRequest(rows, plans, made[k]))
  }

  ghost predicate SlotUnavailableIn(s: Store, rows: map<Id, SeriesRow>, plans: map<Id, seq<Occurrence>>, p: Slot, now: Instant)
    requires Planned(rows, plans, p)
  {
    Unavailable(s, rows[p.0], plans[p.0][p.1], now)
  }

  ghost predicate Rolled(s: Store, t: Store, rows: map<Id, SeriesRow>, plans: map<Id, seq<Occurrence>>,
                         created: seq<Slot>, conflicts: seq<Slot>, now: Instant)
  {
    && (forall p | p in created || p in conflicts :: Planned(rows, plans, p))
    && (forall p | p in created :: p !in conflicts && !SlotUnavailableIn(s, rows, plans, p, now))
    && (forall p | p in conflicts :: SlotUnavailableIn(t, rows, plans, p, now))
    && Extends(s, t, SlotRequests(rows, plans, created), now)
  }

  function Tagged(id: Id, positions: seq<nat>): seq<Slot> {
    seq(|positions|, k requires 0 <= k < |positions| => (id, positions[k]))
  }

  lemma TaggedHolds(id: Id, positions: seq<nat>, p: Slot)
    ensures p in Tagged(id, positions) <==> p.0 == id && p.1 in positions
  {
    if p.0 == id && p.1 in positions {
      var k :| 0 <= k < |positions| && positions[k] == p.1;
      assert Tagged(id, positions)[k] == p;
    }
  }

  lemma SeriesRolled(s: Store, t: Store, u: Store, rows: map<Id, SeriesRow>, plans: map<Id, seq<Occurrence>>,
                     created: seq<Slot>, conflicts: seq<Slot>, id: Id, tried: seq<nat>, more: seq<nat>, clashes: seq<nat>, now: Instant)
    requires IdsHandedOut(s) && Rolled(s, t, rows, plans, created, conflicts, now)
    requires id in rows && id in plans && Attempted(t, u, id, rows[id], plans[id], tried, more, clashes, now)
    requires forall p | p in created || p in conflicts :: p.0 != id
    ensures Rolled(s, u, rows, plans, created + Tagged(id, more), conflicts + Tagged(id, clashes), now)
  {
    var before, added := SlotRequests(rows, plans, created), Requests(id, rows[id], plans[id], more);
    forall p: Slot ensures p in Tagged(id, more) <==> p.0 == id && p.1 in more { TaggedHolds(id, more, p); }
    forall p: Slot ensures p in Tagged(id, clashes) <==> p.0 == id && p.1 in clashes { TaggedHolds(id, clashes, p); }
    ExtendsJoins(s, t, u, before, added, now);
    assert SlotRequests(rows, plans, created + Tagged(id, more)) == before + added;
    forall p | p in conflicts ensures SlotUnavailableIn(u, rows, plans, p, now) {
      TakenStays(t, u, added, rows[p.0].resource, plans[p.0][p.1].Span(), now);
    }
    forall i | i in more ensures !Unavailable(s, rows[id], plans[id][i], now) {
      if Unavailable(s, rows[id], plans[id][i], now) {
        TakenStays(s, t, before, rows[id].resource, plans[id][i].Span(), now);
      }
    }
  }

  // The row of a series whose roll completed.
  function RolledRow(row: SeriesRow, os: seq<Occurrence>, now: Instant): SeriesRow {
    row.(through := RolledThrough(row.def, os, row.through, now + MAX_ADVANCE_HORIZON))
  }

  // The finished series' watermarks have moved, nothing else has, and each of their selected occurrences is
  // accounted for.
  ghost predicate Accounted(rows: map<Id, SeriesRow>, plans: map<Id, seq<Occurrence>>, current: map<Id, SeriesRow>,
                            created: seq<Slot>, conflicts: seq<Slot>, finished: set<Id>, now: Instant)
  {
    && rows.Keys == plans.Keys == current.Keys && finished <= rows.Keys
    && (forall id | id in rows :: current[id] == if id in finished then RolledRow(rows[id], plans[id], now) else rows[id])
    && (forall id, i: nat | id in finished ::
          (id, i) in created || (id, i) in conflicts <==> i in ToRoll(rows[id], plans[id], now))
  }

  lemma SeriesAccounted(rows: map<Id, SeriesRow>, plans: map<Id, seq<Occurrence>>, current: map<Id, SeriesRow>,
                        created: seq<Slot>, conflicts: seq<Slot>, finished: set<Id>, now: Instant,
                        id: Id, more: seq<nat>, clashes: seq<nat>)
    requires Accounted(rows, plans, current, created, conflicts, finished, now) && id in rows
    requires forall p | p in created || p in conflicts :: p.0 != id
    requires forall i: nat :: i in more || i in clashes <==> i in ToRoll(rows[id], plans[id], now)
    ensures Accounted(rows, plans, current[id := RolledRow(rows[id], plans[id], now)],
                      created + Tagged(id, more), conflicts + Tagged(id, clashes), finished + {id}, now)
  {
    forall p: Slot ensures p in Tagged(id, more) <==> p.0 == id && p.1 in more { TaggedHolds(id, more, p); }
    forall p: Slot ensures p in Tagged(id, clashes) <==> p.0 == id && p.1 in clashes { TaggedHolds(id, clashes, p); }
  }

  // ---------------------------------------------------------------- when a whole run completes

  ghost function AllSelected(rows: map<Id, SeriesRow>, plans: map<Id, seq<Occurrence>>, now: Instant): set<Slot>
    requires rows.Keys == plans.Keys
  {
    set id, i | id in rows && rows[id].active && i in ToRoll(rows[id], plans[id], now) :: (id, i)
  }

  ghost function Dealt(created: seq<Slot>, conflicts: seq<Slot>): set<Slot> {
    (set p | p in created) + (set p | p in conflicts)
  }

  // Of the slots a run is to attempt, this many have been dealt with, all of them of these series.
  ghost predicate Spent(rows: map<Id, SeriesRow>, plans: map<Id, seq<Occurrence>>, created: seq<Slot>, conflicts: seq<Slot>,
                        ids: set<Id>, spent: int, now: Instant)
    requires rows.Keys == plans.Keys
  {
    && Dealt(created, conflicts) <= AllSelected(rows, plans, now)
    && |Dealt(created, conflicts)| == spent
    && forall p | p in created || p in conflicts :: p.0 in ids
  }

  ghost function SlotsAt(id: Id, positions: seq<nat>): set<Slot> {
    set i | i in positions :: (id, i)
  }

  lemma {:induction false} SlotsCounted(id: Id, positions: seq<nat>, n: nat)
    requires Distinct(positions, n)
    ensures |SlotsAt(id, positions)| == |positions|
  {
    if positions != [] {
      var k := |positions| - 1;
      PrefixIsDistinct(positions, positions[..k], n);
      SlotsCounted(id, positions[..k], n);
      assert positions == positions[..k] + [positions[k]];
      assert SlotsAt(id, positions) == SlotsAt(id, positions[..k]) + {(id, positions[k])};
    }
  }

  lemma SeriesDealt(created: seq<Slot>, conflicts: seq<Slot>, id: Id, tried: seq<nat>, more: seq<nat>, clashes: seq<nat>)
    requires forall i: nat :: i in more || i in clashes <==> i in tried
    ensures Dealt(created + Tagged(id, more), conflicts + Tagged(id, clashes)) == Dealt(created, conflicts) + SlotsAt(id, tried)
  {
    forall p: Slot ensures p in Tagged(id, more) <==> p.0 == id && p.1 in more { TaggedHolds(id, more, p); }
    forall p: Slot ensures p in Tagged(id, clashes) <==> p.0 == id && p.1 in clashes { TaggedHolds(id, clashes, p); }
  }

  lemma SeriesSpent(rows: map<Id, SeriesRow>, plans: map<Id, seq<Occurrence>>, created: seq<Slot>, conflicts: seq<Slot>,
                    ids: set<Id>, spent: int, now: Instant, id: Id, tried: seq<nat>, more: seq<nat>, clashes: seq<nat>)
    requires rows.Keys == plans.Keys && id in rows && rows[id].active && id !in ids
    requires Spent(rows, plans, created, conflicts, ids, spent, now)
    requires Distinct(tried, |plans[id]|) && tried <= ToRoll(rows[id], plans[id], now)
    requires forall i: nat :: i in more || i in clashes <==> i in tried
    ensures Spent(rows, plans, created + Tagged(id, more), conflicts + Tagged(id, clashes), ids + {id}, spent + |tried|, now)
    ensures Dealt(created + Tagged(id, more), conflicts + Tagged(id, clashes)) == Dealt(created, conflicts) + SlotsAt(id, tried)
  {
    SeriesDealt(created, conflicts, id, tried, more, clashes);
    SlotsCounted(id, tried, |plans[id]|);
    assert Dealt(created, conflicts) !! SlotsAt(id, tried);
    assert SlotsAt(id, tried) <= AllSelected(rows, plans, now);
    forall p | p in created + Tagged(id, more) || p in conflicts + Tagged(id, clashes) ensures p.0 in ids + {id} {
      assert p in Dealt(created + Tagged(id, more), conflicts + Tagged(id, clashes));
    }
  }

  ghost predicate StuckIn(s: Store, rows: map<Id, SeriesRow>, plans: map<Id, seq<Occurrence>>, p: Slot, now: Instant)
    requires Planned(rows, plans, p)
  {
    Stuck(s, rows[p.0].resource, plans[p.0][p.1].Span(), now)
  }

  ghost predicate PinnedIn(s: Store, rows: map<Id, SeriesRow>, plans: map<Id, seq<Occurrence>>, p: Slot, now: Instant)
    requires Planned(rows, plans, p)
  {
    Pinned(s, rows[p.0].resource, plans[p.0][p.1].Span(), now)
  }

  lemma SetGrows<T>(a: set<T>, b: set<T>)
    requires a <= b
    ensures |a| <= |b|
  {
    assert b == a + (b - a);
  }

  ghost predicate NothingStuck(s: Store, rows: map<Id, SeriesRow>, plans: map<Id, seq<Occurrence>>, now: Instant)
    requires rows.Keys == plans.Keys
  {
    forall p | p in AllSelected(rows, plans, now) :: !StuckIn(s, rows, plans, p, now)
  }

  // No two slots to attempt, of one series or of several on one resource, overlap.
  ghost predicate Apart(rows: map<Id, SeriesRow>, plans: map<Id, seq<Occurrence>>, now: Instant)
    requires rows.Keys == plans.Keys
  {
    forall p, q | p in AllSelected(rows, plans, now) && q in AllSelected(rows, plans, now) && p != q ::
      rows[p.0].resource == rows[q.0].resource ==> !plans[p.0][p.1].Span().Overlaps(plans[q.0][q.1].Span())
  }

  // ---------------------------------------------------------------- in the order the series are taken up

  // The active series, as the query lists them.
  ghost predicate ListsActive(order: seq<Id>, rows: map<Id, SeriesRow>) {
    && (forall id :: id in order <==> id in rows && rows[id].active)
    && (forall j, k | 0 <= j < k < |order| :: order[j] != order[k])
  }

  predicate Overlapping(rows: map<Id, SeriesRow>, plans: map<Id, seq<Occurrence>>, p: Slot, q: Slot)
    requires Planned(rows, plans, p) && Planned(rows, plans, q)
  {
    rows[p.0].resource == rows[q.0].resource && plans[p.0][p.1].Span().Overlaps(plans[q.0][q.1].Span())
  }

  // What a run books once it has dealt with these series in this order: the selected slots that are neither taken at
  // the start nor overlapped by one booked for an earlier series.
  ghost function BookedBy(s: Store, rows: map<Id, SeriesRow>, plans: map<Id, seq<Occurrence>>, order: seq<Id>, now: Instant): (b: set<Slot>)
    requires rows.Keys == plans.Keys && forall id | id in order :: id in rows
    ensures forall p | p in b :: Planned(rows, plans, p)
  {
    if order == [] then {}
    else
      var before, id := BookedBy(s, rows, plans, order[..|order| - 1], now), order[|order| - 1];
      before + set i | i in ToRoll(rows[id], plans[id], now) && OpenAfter(s, rows, plans, before, (id, i), now) :: (id, i)
  }

  ghost predicate OpenAfter(s: Store, rows: map<Id, SeriesRow>, plans: map<Id, seq<Occurrence>>, before: set<Slot>, p: Slot, now: Instant)
    requires Planned(rows, plans, p) && forall q | q in before :: Planned(rows, plans, q)
  {
    !SlotUnavailableIn(s, rows, plans, p, now) && forall q | q in before :: !Overlapping(rows, plans, q, p)
  }

  // When the k-th series' turn comes, one of its slots has an expired offered hold in it, and no booking.
  ghost predicate StuckInTurn(s: Store, rows: map<Id, SeriesRow>, plans: map<Id, seq<Occurrence>>, order: seq<Id>, k: nat, now: Instant)
    requires rows.Keys == plans.Keys && k < |order| && forall id | id in order :: id in rows
  {
    exists i | i in ToRoll(rows[order[k]], plans[order[k]], now) ::
      && PinnedIn(s, rows, plans, (order[k], i), now)
      && OpenAfter(s, rows, plans, BookedBy(s, rows, plans, order[..k], now), (order[k], i), now)
  }

  ghost function Elements<T>(xs: seq<T>): set<T> {
    set x | x in xs
  }

  // In the tables a run has come to, a slot is taken exactly if it was at the start or the run has booked one that
  // overlaps it.
  lemma TakenSinceExactlyWhen(s: Store, t: Store, rows: map<Id, SeriesRow>, plans: map<Id, seq<Occurrence>>,
                              created: seq<Slot>, conflicts: seq<Slot>, now: Instant, p: Slot)
    requires Rolled(s, t, rows, plans, created, conflicts, now) && Planned(rows, plans, p)
    ensures !SlotUnavailableIn(t, rows, plans, p, now) <==> OpenAfter(s, rows, plans, Elements(created), p, now)
  {
    var made := SlotRequests(rows, plans, created);
    if SlotUnavailableIn(s, rows, plans, p, now) {
      TakenStays(s, t, made, rows[p.0].resource, plans[p.0][p.1].Span(), now);
    }
    forall k | 0 <= k < |created|
      ensures Holds(t, s.nextId + k, NewBooking(made[k], now)) && created[k] in Elements(created)
      ensures Overlapping(rows, plans, created[k], p) ==> SlotUnavailableIn(t, rows, plans, p, now)
    {
      assert Holds(t, s.nextId + k, NewBooking(made[k], now));
    }
    if OpenAfter(s, rows, plans, Elements(created), p, now) {
      forall b | s.nextId <= b < t.nextId && b in t.bookings
        ensures !t.bookings[b].Blocks(rows[p.0].resource, plans[p.0][p.1].Span())
      {
        var k := b - s.nextId;
        assert created[k] in Elements(created) && Holds(t, s.nextId + k, NewBooking(made[k], now));
      }
    }
  }

  // So a series' turn gets stuck exactly when it would in terms of the start.
  lemma TurnStuckExactlyWhen(s: Store, t: Store, rows: map<Id, SeriesRow>, plans: map<Id, seq<Occurrence>>,
                             created: seq<Slot>, conflicts: seq<Slot>, order: seq<Id>, k: nat, now: Instant)
    requires IdsHandedOut(s) && ReferencesSound(s) && ReferencesSound(t)
    requires rows.Keys == plans.Keys && Rolled(s, t, rows, plans, created, conflicts, now)
    requires k < |order| && (forall id | id in order :: id in rows)
    requires Elements(created) == BookedBy(s, rows, plans, order[..k], now)
    ensures (exists i | i in ToRoll(rows[order[k]], plans[order[k]], now) :: StuckIn(t, rows, plans, (order[k], i), now))
      <==> StuckInTurn(s, rows, plans, order, k, now)
  {
    var id := order[k];
    forall i | i in ToRoll(rows[id], plans[id], now)
      ensures StuckIn(t, rows, plans, (id, i), now) <==>
        PinnedIn(s, rows, plans, (id, i), now) && OpenAfter(s, rows, plans, Elements(created), (id, i), now)
    {
      PinnedStays(s, t, SlotRequests(rows, plans, created), rows[id].resource, plans[id][i].Span(), now);
      TakenSinceExactlyWhen(s, t, rows, plans, created, conflicts, now, (id, i));
    }
  }

  lemma TaggedElements(created: seq<Slot>, id: Id, more: seq<nat>)
    ensures Elements(created + Tagged(id, more)) == Elements(created) + set i | i in more :: (id, i)
  {
    forall p: Slot ensures p in Tagged(id, more) <==> p.0 == id && p.1 in more { TaggedHolds(id, more, p); }
  }

  // And what it books, if it does not, is what it would.
  lemma TurnBooks(s: Store, t: Store, u: Store, rows: map<Id, SeriesRow>, plans: map<Id, seq<Occurrence>>,
                  created: seq<Slot>, conflicts: seq<Slot>, order: seq<Id>, k: nat, more: seq<nat>, clashes: seq<nat>, now: Instant)
    requires rows.Keys == plans.Keys && Rolled(s, t, rows, plans, created, conflicts, now)
    requires k < |order| && (forall id | id in order :: id in rows)
    requires Elements(created) == BookedBy(s, rows, plans, order[..k], now)
    requires SpansDisjoint(plans[order[k]])
    requires Attempted(t, u, order[k], rows[order[k]], plans[order[k]], ToRoll(rows[order[k]], plans[order[k]], now), more, clashes, now)
    ensures Elements(created + Tagged(order[k], more)) == BookedBy(s, rows, plans, order[..k + 1], now)
  {
    var id := order[k];
    var todo := ToRoll(rows[id], plans[id], now);
    assert order[..k + 1][..k] == order[..k] && order[..k + 1][k] == id;
    forall i | i in todo ensures i in more <==> OpenAfter(s, rows, plans, Elements(created), (id, i), now) {
      CreatedExactlyWhenNotTaken(t, u, id, rows[id], plans[id], todo, more, clashes, now, i);
      TakenSinceExactlyWhen(s, t, rows, plans, created, conflicts, now, (id, i));
    }
    TaggedElements(created, id, more);
  }

  lemma {:induction false} BookedIsSelected(s: Store, rows: map<Id, SeriesRow>, plans: map<Id, seq<Occurrence>>, order: seq<Id>,
                                            now: Instant)
    requires rows.Keys == plans.Keys && forall id | id in order :: id in rows && rows[id].active
    ensures forall p | p in BookedBy(s, rows, plans, order, now) :: p in AllSelected(rows, plans, now) && p.0 in order
  {
    if order != [] { BookedIsSelected(s, rows, plans, order[..|order| - 1], now); }
  }

  // Nothing stuck at the start means nothing stuck in its turn; and conversely when no two slots to attempt overlap, so
  // that the order does not matter.
  lemma CompletionForeseen(s: Store, rows: map<Id, SeriesRow>, plans: map<Id, seq<Occurrence>>, order: seq<Id>, now: Instant)
    requires rows.Keys == plans.Keys && ListsActive(order, rows)
    ensures NothingStuck(s, rows, plans, now) ==> forall k: nat | k < |order| :: !StuckInTurn(s, rows, plans, order, k, now)
    ensures Apart(rows, plans, now) && !NothingStuck(s, rows, plans, now) ==>
      exists k: nat | k < |order| :: StuckInTurn(s, rows, plans, order, k, now)
  {
    forall k: nat | k < |order| && StuckInTurn(s, rows, plans, order, k, now) ensures !NothingStuck(s, rows, plans, now) {
      var i :| i in ToRoll(rows[order[k]], plans[order[k]], now)
        && PinnedIn(s, rows, plans, (order[k], i), now)
        && OpenAfter(s, rows, plans, BookedBy(s, rows, plans, order[..k], now), (order[k], i), now);
      assert order[k] in order;
      assert (order[k], i) in AllSelected(rows, plans, now) && StuckIn(s, rows, plans, (order[k], i), now);
    }
    if Apart(rows, plans, now) && !NothingStuck(s, rows, plans, now) {
      var p :| p in AllSelected(rows, plans, now) && StuckIn(s, rows, plans, p, now);
      StuckApartInTurn(s, rows, plans, order, p, now);
    }
  }

  lemma StuckApartInTurn(s: Store, rows: map<Id, SeriesRow>, plans: map<Id, seq<Occurrence>>, order: seq<Id>, p: Slot, now: Instant)
    requires rows.Keys == plans.Keys && ListsActive(order, rows) && Apart(rows, plans, now)
    requires p in AllSelected(rows, plans, now) && StuckIn(s, rows, plans, p, now)
    ensures exists k: nat | k < |order| :: StuckInTurn(s, rows, plans, order, k, now)
  {
    assert p.0 in order;
    var k :| 0 <= k < |order| && order[k] == p.0;
    BookedIsSelected(s, rows, plans, order[..k], now);
    assert p == (order[k], p.1) && p.1 in ToRoll(rows[order[k]], plans[order[k]], now);
    assert order[k] !in order[..k];
    assert OpenAfter(s, rows, plans, BookedBy(s, rows, plans, order[..k], now), (order[k], p.1), now);
    assert StuckInTurn(s, rows, plans, order, k, now);
  }

  // ---------------------------------------------------------------- the loop

  // Where the loop over series stands.
  ghost predicate Progress(s: Store, t: Store, rows: map<Id, SeriesRow>, plans: map<Id, seq<Occurrence>>, current: map<Id, SeriesRow>,
                           created: seq<Slot>, conflicts: seq<Slot>, finished: set<Id>, spent: int, now: Instant)
  {
    && rows.Keys == plans.Keys
    && Rolled(s, t, rows, plans, created, conflicts, now)
    && Accounted(rows, plans, current, created, conflicts, finished, now)
    && Spent(rows, plans, created, conflicts, finished, spent, now)
  }

  // What a run that ended early leaves.
  ghost predicate Abandoned(s: Store, t: Store, rows: map<Id, SeriesRow>, plans: map<Id, seq<Occurrence>>, current: map<Id, SeriesRow>,
                            created: seq<Slot>, conflicts: seq<Slot>, finished: set<Id>, now: Instant)
  {
    && rows.Keys == plans.Keys
    && Rolled(s, t, rows, plans, created, conflicts, now)
    && Accounted(rows, plans, current, created, conflicts, finished, now)
    && Dealt(created, conflicts) <= AllSelected(rows, plans, now)
  }

  // What one series contributes to a run.
  ghost predicate Contributes(t: Store, u: Store, row: SeriesRow, os: seq<Occurrence>, id: Id, tried: seq<nat>,
                              more: seq<nat>, clashes: seq<nat>, now: Instant)
  {
    && Attempted(t, u, id, row, os, tried, more, clashes, now)
    && Distinct(ToRoll(row, os, now), |os|)
    && tried <= ToRoll(row, os, now)
  }

  lemma SeriesDone(s: Store, t: Store, u: Store, rows: map<Id, SeriesRow>, plans: map<Id, seq<Occurrence>>, current: map<Id, SeriesRow>,
                   created: seq<Slot>, conflicts: seq<Slot>, finished: set<Id>, spent: int, now: Instant,
                   id: Id, tried: seq<nat>, more: seq<nat>, clashes: seq<nat>)
    requires IdsHandedOut(s) && Progress(s, t, rows, plans, current, created, conflicts, finished, spent, now)
    requires id in rows && rows[id].active && id !in finished
    requires Contributes(t, u, rows[id], plans[id], id, tried, more, clashes, now) && tried == ToRoll(rows[id], plans[id], now)
    ensures Progress(s, u, rows, plans, current[id := RolledRow(rows[id], plans[id], now)],
                     created + Tagged(id, more), conflicts + Tagged(id, clashes), finished + {id}, spent + |tried|, now)
  {
    SeriesRolled(s, t, u, rows, plans, created, conflicts, id, tried, more, clashes, now);
    SeriesAccounted(rows, plans, current, created, conflicts, finished, now, id, more, clashes);
    SeriesSpent(rows, plans, created, conflicts, finished, spent, now, id, tried, more, clashes);
  }

  lemma SeriesAbandoned(s: Store, t: Store, u: Store, rows: map<Id, SeriesRow>, plans: map<Id, seq<Occurrence>>,
                        current: map<Id, SeriesRow>, created: seq<Slot>, conflicts: seq<Slot>, finished: set<Id>, spent: int,
                        now: Instant, id: Id, tried: seq<nat>, more: seq<nat>, clashes: seq<nat>)
    requires IdsHandedOut(s) && Progress(s, t, rows, plans, current, created, conflicts, finished, spent, now)
    requires id in rows && rows[id].active && id !in finished
    requires Contributes(t, u, rows[id], plans[id], id, tried, more, clashes, now)
    ensures Abandoned(s, u, rows, plans, current, created + Tagged(id, more), conflicts + Tagged(id, clashes), finished, now)
  {
    SeriesRolled(s, t, u, rows, plans, created, conflicts, id, tried, more, clashes, now);
    SeriesUnaccounted(rows, plans, current, created, conflicts, finished, now, id, more, clashes);
    PrefixIsDistinct(ToRoll(rows[id], plans[id], now), tried, |plans[id]|);
    SeriesSpent(rows, plans, created, conflicts, finished, spent, now, id, tried, more, clashes);
  }

  // The series taken up so far were not stuck, and what they booked is what it had to be.
  ghost predicate InStep(s: Store, rows: map<Id, SeriesRow>, plans: map<Id, seq<Occurrence>>, order: seq<Id>, k: nat,
                         created: seq<Slot>, now: Instant)
  {
    && rows.Keys == plans.Keys && k <= |order| && (forall id | id in order :: id in rows)
    && Elements(created) == BookedBy(s, rows, plans, order[..k], now)
    && forall j: nat | j < k :: !StuckInTurn(s, rows, plans, order, j, now)
  }

  // There is more to attempt than the lifetime allows, or the k-th series is stuck when its turn comes.
  ghost predicate HaltedInTurn(s: Store, rows: map<Id, SeriesRow>, plans: map<Id, seq<Occurrence>>, order: seq<Id>, k: nat,
                               lifetime: nat, now: Instant)
  {
    && rows.Keys == plans.Keys && k < |order| && (forall id | id in order :: id in rows)
    && (|AllSelected(rows, plans, now)| > lifetime || StuckInTurn(s, rows, plans, order, k, now))
  }

  // Each finished series' watermark stands where its last attempt was, and every occurrence selected for it was
  // either created, in a slot that was free, or reported as a conflict, with its slot taken. An interruption
  // leaves the watermark of the series it hit where it was, though some of its bookings may exist. In the terms of
  // the tables it starts from and of the order it takes the series up in, the run completes exactly when its lifetime
  // allows all it is to attempt and no series is stuck in its turn.
  method RollingMaterializeSeries(db: Database, table: SeriesTable, order: seq<Id>, tz: TzData, now: Instant, lifetime: nat)
    returns (created: seq<Slot>, conflicts: seq<Slot>, completed: bool, ghost finished: set<Id>)
    requires db.Valid() && table.Valid() && ListsActive(order, table.rows)
    modifies db, table
    ensures db.Valid()
    ensures Rolled(old(db.Snapshot()), db.Snapshot(), old(table.rows), Plans(old(table.rows), tz), created, conflicts, now)
    ensures Accounted(old(table.rows), Plans(old(table.rows), tz), table.rows, created, conflicts, finished, now)
    ensures Dealt(created, conflicts) <= AllSelected(old(table.rows), Plans(old(table.rows), tz), now)
    ensures completed ==> finished == Elements(order)
    ensures var s, rows, plans := old(db.Snapshot()), old(table.rows), Plans(old(table.rows), tz);
      && (completed <==>
            && |AllSelected(rows, plans, now)| <= lifetime
            && forall k: nat | k < |order| :: !StuckInTurn(s, rows, plans, order, k, now))
      && (completed ==> Elements(created) == BookedBy(s, rows, plans, order, now))
      && (Apart(rows, plans, now) ==> (completed <==> |AllSelected(rows, plans, now)| <= lifetime && NothingStuck(s, rows, plans, now)))
  {
    ghost var start, rows, plans := db.Snapshot(), table.rows, Plans(table.rows, tz);
    var left;
    ghost var reached;
    created, conflicts, completed, left, reached := RollAll(db, table, order, tz, now, lifetime, start, rows, plans);
    finished := Elements(order[..reached]);
    if completed {
      assert order[..reached] == order;
      RunCompleted(start, db.Snapshot(), rows, plans, table.rows, created, conflicts, finished, lifetime - left, now);
    }
    CompletionForeseen(start, rows, plans, order, now);
  }

  // The loop over series, of which `reached` were finished.
  method RollAll(db: Database, table: SeriesTable, order: seq<Id>, tz: TzData, now: Instant, lifetime: nat,
                 ghost start: Store, ghost rows: map<Id, SeriesRow>, ghost plans: map<Id, seq<Occurrence>>)
    returns (created: seq<Slot>, conflicts: seq<Slot>, completed: bool, left: nat, ghost reached: nat)
    requires db.Valid() && table.Valid() && rows == table.rows && plans == Plans(rows, tz) && start == db.Snapshot()
    requires ListsActive(order, rows)
    modifies db, table
    ensures db.Valid() && left <= lifetime && reached <= |order|
    ensures completed ==> reached == |order| && InStep(start, rows, plans, order, reached, created, now)
    ensures completed ==>
      Progress(start, db.Snapshot(), rows, plans, table.rows, created, conflicts, Elements(order[..reached]), lifetime - left, now)
    ensures !completed ==>
      && Abandoned(start, db.Snapshot(), rows, plans, table.rows, created, conflicts, Elements(order[..reached]), now)
      && HaltedInTurn(start, rows, plans, order, reached, lifetime, now)
  {
    created, conflicts, completed, left, reached := [], [], false, lifetime, 0;
    NothingRolled(start, rows, plans, order, now);
    for k := 0 to |order|
      invariant db.Valid() && left <= lifetime && !completed && reached == k
      invariant Progress(start, db.Snapshot(), rows, plans, table.rows, created, conflicts, Elements(order[..k]), lifetime - left, now)
      invariant InStep(start, rows, plans, order, k, created, now)
    {
      NextInOrder(order, rows, k);
      var more, clashes, done;
      more, clashes, done, left := RollRow(db, table, order[k], tz, now, lifetime, left, start, rows, plans, order, k, created, conflicts);
      created, conflicts := created + Tagged(order[k], more), conflicts + Tagged(order[k], clashes);
      if !done { return; }
      reached := k + 1;
    }
    completed := true;
  }

  lemma NextInOrder(order: seq<Id>, rows: map<Id, SeriesRow>, k: nat)
    requires ListsActive(order, rows) && k < |order|
    ensures order[k] in rows && rows[order[k]].active && order[k] !in Elements(order[..k])
    ensures Elements(order[..k + 1]) == Elements(order[..k]) + {order[k]}
  {
    assert order[k] in order && order[..k + 1] == order[..k] + [order[k]];
  }

  lemma NothingRolled(s: Store, rows: map<Id, SeriesRow>, plans: map<Id, seq<Occurrence>>, order: seq<Id>, now: Instant)
    requires rows.Keys == plans.Keys && forall id | id in order :: id in rows
    ensures Progress(s, s, rows, plans, rows, [], [], Elements(order[..0]), 0, now) && InStep(s, rows, plans, order, 0, [], now)
  {
    assert SlotRequests(rows, plans, []) == [] && order[..0] == [];
    assert Dealt([], []) == {} && Elements(order[..0]) == {};
  }

  lemma RunCompleted(s: Store, t: Store, rows: map<Id, SeriesRow>, plans: map<Id, seq<Occurrence>>, current: map<Id, SeriesRow>,
                     created: seq<Slot>, conflicts: seq<Slot>, finished: set<Id>, spent: int, now: Instant)
    requires Progress(s, t, rows, plans, current, created, conflicts, finished, spent, now)
    requires forall id :: id in finished <==> id in rows && rows[id].active
    ensures Dealt(created, conflicts) == AllSelected(rows, plans, now) && |AllSelected(rows, plans, now)| == spent
  {
    forall p | p in AllSelected(rows, plans, now) ensures p in Dealt(created, conflicts) {
      assert (p.0, p.1) in created || (p.0, p.1) in conflicts;
    }
  }

  // One turn of the loop over series: attempt, then write the watermark.
  method RollRow(db: Database, table: SeriesTable, id: Id, tz: TzData, now: Instant, ghost lifetime: nat, remaining: nat,
                 ghost start: Store, ghost rows: map<Id, SeriesRow>, ghost plans: map<Id, seq<Occurrence>>,
                 ghost order: seq<Id>, ghost k: nat, ghost created: seq<Slot>, ghost conflicts: seq<Slot>)
    returns (more: seq<nat>, clashes: seq<nat>, done: bool, left: nat)
    requires db.Valid() && IdsHandedOut(start) && ReferencesSound(start) && remaining <= lifetime
    requires SeriesSound(rows) && plans == Plans(rows, tz)
    requires ListsActive(order, rows) && k < |order| && id == order[k] && id in rows && rows[id].active
    requires id !in Elements(order[..k]) && Elements(order[..k + 1]) == Elements(order[..k]) + {id}
    requires Progress(start, db.Snapshot(), rows, plans, table.rows, created, conflicts, Elements(order[..k]), lifetime - remaining, now)
    requires InStep(start, rows, plans, order, k, created, now)
    modifies db, table
    ensures db.Valid() && left <= remaining
    ensures done ==>
      && Progress(start, db.Snapshot(), rows, plans, table.rows, created + Tagged(id, more), conflicts + Tagged(id, clashes),
                  Elements(order[..k + 1]), lifetime - left, now)
      && InStep(start, rows, plans, order, k + 1, created + Tagged(id, more), now)
    ensures !done ==>
      && Abandoned(start, db.Snapshot(), rows, plans, table.rows, created + Tagged(id, more), conflicts + Tagged(id, clashes),
                   Elements(order[..k]), now)
      && HaltedInTurn(start, rows, plans, order, k, lifetime, now)
  {
    var row := table.rows[id];
    var os := Expand(row, tz);
    ghost var before, finished := db.Snapshot(), Elements(order[..k]);
    var through;
    ghost var tried;
    more, clashes, through, done, left, tried := RollExpansion(db, id, row, tz, os, now, remaining);
    TurnGoesAsForeseen(start, before, db.Snapshot(), rows, plans, created, conflicts, order, k, lifetime, remaining,
                       more, clashes, tried, now);
    if done {
      SeriesDone(start, before, db.Snapshot(), rows, plans, table.rows, created, conflicts, finished, lifetime - remaining, now,
                 id, tried, more, clashes);
      table.rows := table.rows[id := row.(through := through)];
    } else {
      SeriesAbandoned(start, before, db.Snapshot(), rows, plans, table.rows, created, conflicts, finished, lifetime - remaining, now,
                      id, tried, more, clashes);
    }
  }

  lemma TurnGoesAsForeseen(s: Store, t: Store, u: Store, rows: map<Id, SeriesRow>, plans: map<Id, seq<Occurrence>>,
                           created: seq<Slot>, conflicts: seq<Slot>, order: seq<Id>, k: nat, lifetime: nat, remaining: nat,
                           more: seq<nat>, clashes: seq<nat>, tried: seq<nat>, now: Instant)
    requires IdsHandedOut(s) && ReferencesSound(s) && ReferencesSound(t) && rows.Keys == plans.Keys && remaining <= lifetime
    requires Rolled(s, t, rows, plans, created, conflicts, now) && InStep(s, rows, plans, order, k, created, now)
    requires Spent(rows, plans, created, conflicts, Elements(order[..k]), lifetime - remaining, now)
    requires k < |order| && rows[order[k]].active && order[k] !in Elements(order[..k]) && SpansDisjoint(plans[order[k]])
    requires Contributes(t, u, rows[order[k]], plans[order[k]], order[k], tried, more, clashes, now)
    requires var todo := ToRoll(rows[order[k]], plans[order[k]], now);
      tried == todo <==> Feasible(t, rows[order[k]], plans[order[k]], todo, remaining, now)
    ensures var todo := ToRoll(rows[order[k]], plans[order[k]], now);
      && (tried == todo ==> InStep(s, rows, plans, order, k + 1, created + Tagged(order[k], more), now))
      && (tried != todo ==> HaltedInTurn(s, rows, plans, order, k, lifetime, now))
  {
    var id := order[k];
    var todo := ToRoll(rows[id], plans[id], now);
    TurnStuckExactlyWhen(s, t, rows, plans, created, conflicts, order, k, now);
    if tried == todo {
      TurnBooks(s, t, u, rows, plans, created, conflicts, order, k, more, clashes, now);
      assert !exists i | i in todo :: StuckIn(t, rows, plans, (id, i), now);
    } else if |todo| > remaining {
      SelectedExceeds(rows, plans, created, conflicts, Elements(order[..k]), lifetime - remaining, now, id);
    } else {
      var i :| i in todo && Stuck(t, rows[id].resource, plans[id][i].Span(), now);
      assert StuckIn(t, rows, plans, (id, i), now);
    }
  }

  lemma SelectedExceeds(rows: map<Id, SeriesRow>, plans: map<Id, seq<Occurrence>>, created: seq<Slot>, conflicts: seq<Slot>,
                        ids: set<Id>, spent: int, now: Instant, id: Id)
    requires rows.Keys == plans.Keys && id in rows && rows[id].active && id !in ids
    requires Spent(rows, plans, created, conflicts, ids, spent, now) && Distinct(ToRoll(rows[id], plans[id], now), |plans[id]|)
    ensures |AllSelected(rows, plans, now)| >= spent + |ToRoll(rows[id], plans[id], now)|
  {
    var todo := ToRoll(rows[id], plans[id], now);
    SlotsCounted(id, todo, |plans[id]|);
    assert Dealt(created, conflicts) !! SlotsAt(id, todo);
    SetGrows(Dealt(created, conflicts) + SlotsAt(id, todo), AllSelected(rows, plans, now));
  }

  method RollExpansion(db: Database, id: Id, row: SeriesRow, ghost tz: TzData, os: seq<Occurrence>, now: Instant, remaining: nat)
    returns (more: seq<nat>, clashes: seq<nat>, through: int, done: bool, left: nat, ghost tried: seq<nat>)
    requires db.Valid() && ValidSeries(row.def) && os == Expand(row, tz)
    modifies db
    ensures db.Valid() && Contributes(old(db.Snapshot()), db.Snapshot(), row, os, id, tried, more, clashes, now)
    ensures done <==> tried == ToRoll(row, os, now)
    ensures done ==> row.(through := through) == RolledRow(row, os, now) && left == remaining - |tried|
    ensures left <= remaining
    ensures SpansDisjoint(os)
    ensures done <==> Feasible(old(db.Snapshot()), row, os, ToRoll(row, os, now), remaining, now)
  {
    ExpansionInOrder(row.def, tz(row.timezone));
    ExpansionDisjoint(row.def, tz(row.timezone));
    SelectionIsDistinct(row, os, now);
    more, clashes, through, done, left, tried := RollSeries(db, id, row, os, now, remaining);
  }

  lemma SeriesUnaccounted(rows: map<Id, SeriesRow>, plans: map<Id, seq<Occurrence>>, current: map<Id, SeriesRow>,
                          created: seq<Slot>, conflicts: seq<Slot>, finished: set<Id>, now: Instant,
                          id: Id, more: seq<nat>, clashes: seq<nat>)
    requires Accounted(rows, plans, current, created, conflicts, finished, now) && id in rows && id !in finished
    ensures Accounted(rows, plans, current, created + Tagged(id, more), conflicts + Tagged(id, clashes), finished, now)
  {
    forall p: Slot ensures p in Tagged(id, more) ==> p.0 == id { TaggedHolds(id, more, p); }
    forall p: Slot ensures p in Tagged(id, clashes) ==> p.0 == id { TaggedHolds(id, clashes, p); }
  }

  lemma PlannedIsNonEmpty(rows: map<Id, SeriesRow>, tz: TzData, p: Slot)
    requires SeriesSound(rows) && Planned(rows, Plans(rows, tz), p)
    ensures SlotRequest(rows, Plans(rows, tz), p).range.NonEmpty()
  {
    OccurrenceWellOrdered(rows[p.0].def, tz(rows[p.0].timezone), p.1);
  }

  // Whatever runs come later, with whatever watermarks the series have reached by then: while an occurrence asks
  // for the same booking as before, and the one created for it is still there unchanged, none creates it again.
  lemma RerunCreatesNoSecondBooking(s: Store, t: Store, rows: map<Id, SeriesRow>, tz: TzData,
                                    created: seq<Slot>, conflicts: seq<Slot>, earlier: Instant,
                                    later: Store, u: Store, laterRows: map<Id, SeriesRow>, laterTz: TzData,
                                    again: seq<Slot>, clashes: seq<Slot>, now: Instant, k: nat)
    requires SeriesSound(rows) && SeriesSound(laterRows)
    requires Rolled(s, t, rows, Plans(rows, tz), created, conflicts, earlier)
    requires Rolled(later, u, laterRows, Plans(laterRows, laterTz), again, clashes, now)
    requires k < |created| && created[k] in created && Planned(laterRows, Plans(laterRows, laterTz), created[k])
    requires SlotRequest(laterRows, Plans(laterRows, laterTz), created[k]) == SlotRequest(rows, Plans(rows, tz), created[k])
    requires Holds(later, s.nextId + k, NewBooking(SlotRequest(rows, Plans(rows, tz), created[k]), earlier))
    ensures created[k] !in again
  {
    var req := SlotRequest(rows, Plans(rows, tz), created[k]);
    PlannedIsNonEmpty(rows, tz, created[k]);
    assert later.bookings[s.nextId + k].Blocks(req.resource, req.range);
  }

  // Rolling itself changes no more of a series than its watermark, so a rerun under the same zone rules asks for
  // the same bookings.
  lemma RerunAsksForTheSame(rows: map<Id, SeriesRow>, current: map<Id, SeriesRow>, tz: TzData, created: seq<Slot>,
                            conflicts: seq<Slot>, finished: set<Id>, now: Instant, p: Slot)
    requires SeriesSound(rows) && Accounted(rows, Plans(rows, tz), current, created, conflicts, finished, now)
    requires Planned(rows, Plans(rows, tz), p)
    ensures SeriesSound(current) && Planned(current, Plans(current, tz), p)
    ensures SlotRequest(current, Plans(current, tz), p) == SlotRequest(rows, Plans(rows, tz), p)
  {}
}
