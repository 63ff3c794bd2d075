/** Rolling materialization: the background job that extends recurring series to the moving horizon. */
module SeriesTasks {
  import opened Tables
  import opened Transactions
  import opened BookingService
  import opened TimeZones
  import opened Recurrence
  import opened RollingWindows

  datatype SeriesRow = SeriesRow(
    resource: Id,
    owner: Id,
    timezone: string,
    def: SeriesDef,
    through: int,
    tzdata: string,
    active: bool)

  ghost predicate SeriesSound(rows: map<Id, SeriesRow>) {
    forall id | id in rows :: ValidSeries(rows[id].def)
  }

  // The installed tzdata: the rules of every zone name.
  type TzData = string -> Zone

  class SeriesTable {
    var rows: map<Id, SeriesRow>

    ghost predicate Valid()
      reads this
    {
      SeriesSound(rows)
    }

    constructor ()
      ensures Valid() && rows == map[]
    {
      rows := map[];
    }
  }

  function Expand(row: SeriesRow, tz: TzData): seq<Occurrence>
    requires 0 <= row.def.count
  {
    Occurrences(row.def, tz(row.timezone))
  }

  function OccurrenceRequest(id: Id, row: SeriesRow, o: Occurrence): CreateRequest {
    CreateRequest(row.resource, row.owner, Some(id), o.Span(), None)
  }

  // ---------------------------------------------------------------- what a run of creates leaves behind

  ghost predicate Holds(s: Store, id: Id, row: Booking) {
    id in s.bookings && s.bookings[id] == row
  }

  // From s to t: one new row per request, in order; of the old rows only expired holds are gone.
  ghost predicate Extends(s: Store, t: Store, made: seq<CreateRequest>, now: Instant) {
    && t.offers == s.offers && t.entries == s.entries
    && t.nextId == s.nextId + |made|
    && (forall k | 0 <= k < |made| :: Holds(t, s.nextId + k, NewBooking(made[k], now)))
    && (forall i | i in t.bookings :: s.nextId <= i < t.nextId || (i in s.bookings && t.bookings[i] == s.bookings[i]))
    && (forall i | i in s.bookings :: s.bookings[i].ExpiredBy(now) || (i in t.bookings && t.bookings[i] == s.bookings[i]))
  }

  lemma CreateExtends(s: Store, req: CreateRequest, now: Instant)
    requires BookingsSound(s) && Create(s, req, now).0.Done?
    ensures Extends(s, Create(s, req, now).1, [req], now)
  {}

  lemma ExtendsJoins(s: Store, t: Store, u: Store, first: seq<CreateRequest>, second: seq<CreateRequest>, now: Instant)
    requires IdsHandedOut(s) && Extends(s, t, first, now) && Extends(t, u, second, now)
    requires forall q | q in first :: q.holdFor.None?
    ensures Extends(s, u, first + second, now)
  {
    var made := first + second;
    forall k | 0 <= k < |made|
      ensures Holds(u, s.nextId + k, NewBooking(made[k], now))
    {
      if k < |first| {
        assert made[k] == first[k] && first[k] in first;
        assert Holds(t, s.nextId + k, NewBooking(first[k], now));
        assert !t.bookings[s.nextId + k].ExpiredBy(now);
      } else {
        assert made[k] == second[k - |first|];
        assert s.nextId + k == t.nextId + (k - |first|);
      }
    }
  }

  // What stood in the way before still does after.
  lemma TakenStays(s: Store, t: Store, made: seq<CreateRequest>, resource: Id, wanted: Range, now: Instant)
    requires Extends(s, t, made, now) && Taken(s, resource, wanted, now)
    ensures Taken(t, resource, wanted, now)
  {}

  // ---------------------------------------------------------------- rolling materialization

  ghost predicate Unavailable(s: Store, row: SeriesRow, o: Occurrence, now: Instant) {
    Taken(s, row.resource, o.Span(), now)
  }

  function Requests(id: Id, row: SeriesRow, os: seq<Occurrence>, created: seq<nat>): seq<CreateRequest>
    requires forall i | i in created :: i < |os|
  {
    seq(|created|, k requires 0 <= k < |created| => assert created[k] in created; OccurrenceRequest(id, row, os[created[k]]))
  }

  // The attempts on the first k positions of `todo`, starting from tables s and ending in tables t: each was
  // either created, its slot having been free, or found unavailable.
  ghost predicate Attempted(s: Store, t: Store, id: Id, row: SeriesRow, os: seq<Occurrence>, tried: seq<nat>,
                            created: seq<nat>, conflicts: seq<nat>, now: Instant)
  {
    && (forall i | i in tried :: i < |os|)
    && (forall i | i in created || i in conflicts :: i in tried)
    && (forall i | i in tried :: (i in created) != (i in conflicts))
    && |created| + |conflicts| == |tried|
    && Extends(s, t, Requests(id, row, os, created), now)
    && (forall i | i in created :: !Unavailable(s, row, os[i], now))
    && (forall i | i in conflicts :: Unavailable(t, row, os[i], now))
  }

  lemma AttemptMade(s: Store, t: Store, id: Id, row: SeriesRow, os: seq<Occurrence>, tried: seq<nat>,
                    created: seq<nat>, conflicts: seq<nat>, now: Instant, i: nat)
    requires BookingsSound(s) && BookingsSound(t) && ReferencesSound(t)
    requires Attempted(s, t, id, row, os, tried, created, conflicts, now) && i < |os| && i !in tried
    ensures var (outcome, u) := Create(t, OccurrenceRequest(id, row, os[i]), now);
      && (outcome.Done? ==> Attempted(s, u, id, row, os, tried + [i], created + [i], conflicts, now))
      && (outcome.SlotUnavailable? ==> Attempted(s, u, id, row, os, tried + [i], created, conflicts + [i], now))
  {
    var req := OccurrenceRequest(id, row, os[i]);
    var (outcome, u) := Create(t, req, now);
    if outcome.Done? {
      var made := Requests(id, row, os, created);
      CreateExtends(t, req, now);
      ExtendsJoins(s, t, u, made, [req], now);
      assert Requests(id, row, os, created + [i]) == made + [req];
      if Unavailable(s, row, os[i], now) { TakenStays(s, t, made, row.resource, os[i].Span(), now); }
      forall j | j in conflicts ensures Unavailable(u, row, os[j], now) {
        TakenStays(t, u, [req], row.resource, os[j].Span(), now);
      }
    }
  }

  lemma CreateKeepsConstraints(s: Store, req: CreateRequest, now: Instant)
    requires BookingsSound(s) && ReferencesSound(s) && EntriesSound(s)
    ensures var t := Create(s, req, now).1; BookingsSound(t) && ReferencesSound(t) && EntriesSound(t)
  {
    CreateCommitsExactlyWhenSound(s, req, now);
  }

  predicate Settles(outcome: WriteOutcome) {
    outcome.Done? || outcome.SlotUnavailable?
  }

  // One occurrence: booked, or a conflict; anything else settles nothing.
  method AttemptOccurrence(db: Database, id: Id, row: SeriesRow, os: seq<Occurrence>, i: nat, now: Instant, ghost start: Store,
                           ghost tried: seq<nat>, created: seq<nat>, conflicts: seq<nat>)
    returns (outcome: WriteOutcome, nowCreated: seq<nat>, nowConflicts: seq<nat>, ghost nowTried: seq<nat>)
    requires db.Valid() && BookingsSound(start) && i < |os| && i !in tried
    requires Attempted(start, db.Snapshot(), id, row, os, tried, created, conflicts, now)
    modifies db
    ensures db.Valid()
    ensures Attempted(start, db.Snapshot(), id, row, os, nowTried, nowCreated, nowConflicts, now)
    ensures nowTried == if Settles(outcome) then tried + [i] else tried
    ensures nowCreated == if outcome.Done? then created + [i] else created
    ensures nowConflicts == if outcome.SlotUnavailable? then conflicts + [i] else conflicts
    ensures outcome == Create(old(db.Snapshot()), OccurrenceRequest(id, row, os[i]), now).0
    ensures outcome.Done? ==> outcome.id == start.nextId + |created|
    ensures !outcome.Done? ==> db.Snapshot() == old(db.Snapshot())
  {
    var req := OccurrenceRequest(id, row, os[i]);
    AttemptMade(start, db.Snapshot(), id, row, os, tried, created, conflicts, now, i);
    CreateKeepsConstraints(db.Snapshot(), req, now);
    outcome := CreateBooking(db, req, now);
    nowTried := if Settles(outcome) then tried + [i] else tried;
    nowCreated := if outcome.Done? then created + [i] else created;
    nowConflicts := if outcome.SlotUnavailable? then conflicts + [i] else conflicts;
  }

  // ---------------------------------------------------------------- when a run gets stuck

  // Nobody's booking is in the way, but an expired hold is that was offered: a create neither books nor conflicts.
  ghost predicate Stuck(s: Store, resource: Id, wanted: Range, now: Instant) {
    Pinned(s, resource, wanted, now) && !Taken(s, resource, wanted, now)
  }

  lemma CreateSettlesUnlessStuck(s: Store, req: CreateRequest, now: Instant)
    requires req.range.NonEmpty()
    ensures Settles(Create(s, req, now).0) <==> !Stuck(s, req.resource, req.range, now)
  {}

  // Holds that were offered stay where they are, and none is added.
  lemma PinnedStays(s: Store, t: Store, made: seq<CreateRequest>, resource: Id, wanted: Range, now: Instant)
    requires IdsHandedOut(s) && ReferencesSound(s) && ReferencesSound(t) && Extends(s, t, made, now)
    ensures Pinned(s, resource, wanted, now) <==> Pinned(t, resource, wanted, now)
  {
    assert forall o | o in s.offers :: t.bookings[s.offers[o].hold] == s.bookings[s.offers[o].hold] by {
      forall o | o in s.offers ensures t.bookings[s.offers[o].hold] == s.bookings[s.offers[o].hold] {
        assert s.offers[o].hold in s.bookings && t.offers[o].hold in t.bookings;
      }
    }
  }

  // What was booked cannot have been stuck: the offered hold would overlap it.
  lemma MadeWasNotPinned(s: Store, t: Store, made: seq<CreateRequest>, now: Instant, k: nat)
    requires IdsHandedOut(s) && ReferencesSound(s) && BookingsSound(t) && ReferencesSound(t) && Extends(s, t, made, now)
    requires k < |made| && made[k].holdFor.None?
    ensures !Pinned(s, made[k].resource, made[k].range, now)
  {
    assert Holds(t, s.nextId + k, NewBooking(made[k], now));
    forall o | o in s.offers ensures !t.bookings[t.offers[o].hold].Blocks(made[k].resource, made[k].range) {
      assert s.offers[o].hold in s.bookings && t.offers[o].hold in t.bookings;
    }
    PinnedStays(s, t, made, made[k].resource, made[k].range, now);
  }

  // The other occurrences of the series do not stand in the way of one not tried yet.
  lemma TakenByOthers(s: Store, t: Store, id: Id, row: SeriesRow, os: seq<Occurrence>, tried: seq<nat>, created: seq<nat>,
                      conflicts: seq<nat>, now: Instant, i: nat)
    requires Attempted(s, t, id, row, os, tried, created, conflicts, now) && SpansDisjoint(os) && i < |os| && i !in created
    requires Unavailable(t, row, os[i], now)
    ensures Unavailable(s, row, os[i], now)
  {
    forall b | s.nextId <= b < t.nextId && b in t.bookings ensures !t.bookings[b].Blocks(row.resource, os[i].Span()) {
      var k := b - s.nextId;
      assert created[k] in created;
      assert Holds(t, s.nextId + k, NewBooking(Requests(id, row, os, created)[k], now));
    }
  }

  // In the terms of the tables before the first attempt: an occurrence of the series will be settled, whatever is
  // created before it, exactly when it is not stuck.
  lemma AttemptSettlesExactlyWhen(s: Store, t: Store, id: Id, row: SeriesRow, os: seq<Occurrence>, tried: seq<nat>,
                                  created: seq<nat>, conflicts: seq<nat>, now: Instant, i: nat)
    requires BookingsSound(s) && ReferencesSound(s) && ReferencesSound(t)
    requires Attempted(s, t, id, row, os, tried, created, conflicts, now) && SpansDisjoint(os) && i < |os| && i !in created
    ensures Stuck(t, row.resource, os[i].Span(), now) <==> Stuck(s, row.resource, os[i].Span(), now)
  {
    var made := Requests(id, row, os, created);
    PinnedStays(s, t, made, row.resource, os[i].Span(), now);
    if Unavailable(s, row, os[i], now) { TakenStays(s, t, made, row.resource, os[i].Span(), now); }
    if Unavailable(t, row, os[i], now) { TakenByOthers(s, t, id, row, os, tried, created, conflicts, now, i); }
  }

  // What has been tried and settled was not stuck at the start.
  lemma TriedWasNotStuck(s: Store, t: Store, id: Id, row: SeriesRow, os: seq<Occurrence>, tried: seq<nat>, created: seq<nat>,
                         conflicts: seq<nat>, now: Instant, i: nat)
    requires BookingsSound(s) && ReferencesSound(s) && BookingsSound(t) && ReferencesSound(t)
    requires Attempted(s, t, id, row, os, tried, created, conflicts, now) && SpansDisjoint(os) && i in tried
    ensures !Stuck(s, row.resource, os[i].Span(), now)
  {
    if i in created {
      var k :| 0 <= k < |created| && created[k] == i;
      MadeWasNotPinned(s, t, Requests(id, row, os, created), now, k);
    } else {
      TakenByOthers(s, t, id, row, os, tried, created, conflicts, now, i);
    }
  }

  // What is booked, of what is tried, is exactly what was not taken at the start.
  lemma CreatedExactlyWhenNotTaken(s: Store, t: Store, id: Id, row: SeriesRow, os: seq<Occurrence>, tried: seq<nat>,
                                   created: seq<nat>, conflicts: seq<nat>, now: Instant, i: nat)
    requires Attempted(s, t, id, row, os, tried, created, conflicts, now) && SpansDisjoint(os) && i in tried
    ensures i in created <==> !Unavailable(s, row, os[i], now)
  {
    if i !in created { TakenByOthers(s, t, id, row, os, tried, created, conflicts, now, i); }
  }

  // One turn of the loop over a series' occurrences.
  method RollOccurrence(db: Database, id: Id, row: SeriesRow, os: seq<Occurrence>, todo: seq<nat>, k: nat, now: Instant,
                        ghost start: Store, created: seq<nat>, conflicts: seq<nat>)
    returns (settled: bool, nowCreated: seq<nat>, nowConflicts: seq<nat>)
    requires db.Valid() && BookingsSound(start) && k < |todo| && todo[k] < |os| && todo[k] !in todo[..k]
    requires os[todo[k]].Span().NonEmpty()
    requires Attempted(start, db.Snapshot(), id, row, os, todo[..k], created, conflicts, now)
    modifies db
    ensures db.Valid()
    ensures Attempted(start, db.Snapshot(), id, row, os, if settled then todo[..k + 1] else todo[..k], nowCreated, nowConflicts, now)
    ensures !settled ==> Stuck(db.Snapshot(), row.resource, os[todo[k]].Span(), now)
  {
    CreateSettlesUnlessStuck(db.Snapshot(), OccurrenceRequest(id, row, os[todo[k]]), now);
    assert todo[..k] + [todo[k]] == todo[..k + 1];
    var outcome;
    ghost var tried;
    outcome, nowCreated, nowConflicts, tried := AttemptOccurrence(db, id, row, os, todo[k], now, start, todo[..k], created, conflicts);
    settled := Settles(outcome);
  }

  // A series whose watermark has reached its last date has nothing left to roll.
  lemma NothingLeft(d: SeriesDef, os: seq<Occurrence>, through: int, cutoff: Instant)
    requires OfSeries(d, RollingRun(cutoff, os)) && 0 < d.count && through >= LastDate(d)
    ensures Selected(os, through, cutoff, |os|) == []
  {
    HorizonSelectsBlock(d, os, through, cutoff);
    PassedSplits(d, through, |os|, |os| - 1);
  }

  lemma NothingAttempted(s: Store, id: Id, row: SeriesRow, os: seq<Occurrence>, now: Instant)
    ensures Attempted(s, s, id, row, os, [], [], [], now)
  {
    assert Requests(id, row, os, []) == [];
  }

  // Different positions, all below n.
  ghost predicate Distinct(todo: seq<nat>, n: nat) {
    && (forall i | i in todo :: i < n)
    && (forall j, k | 0 <= j < k < |todo| :: todo[j] != todo[k])
  }

  lemma PrefixIsDistinct(todo: seq<nat>, tried: seq<nat>, n: nat)
    requires Distinct(todo, n) && tried <= todo
    ensures Distinct(tried, n)
  {
    assert forall i | i in tried :: i in todo;
  }

  // The positions a run is to attempt.
  function ToRoll(row: SeriesRow, os: seq<Occurrence>, now: Instant): (todo: seq<nat>)
    ensures forall i | i in todo :: i < |os|
  {
    Selected(os, row.through, now + MAX_ADVANCE_HORIZON, |os|)
  }

  lemma SelectionIsDistinct(row: SeriesRow, os: seq<Occurrence>, now: Instant)
    requires OfSeries(row.def, RollingRun(now + MAX_ADVANCE_HORIZON, os))
    ensures Distinct(ToRoll(row, os, now), |os|)
  {
    HorizonSelectsBlock(row.def, os, row.through, now + MAX_ADVANCE_HORIZON);
  }

  // The loop over one series' selected occurrences, up to `lifetime` attempts.
  method RollOccurrences(db: Database, id: Id, row: SeriesRow, os: seq<Occurrence>, todo: seq<nat>, now: Instant, lifetime: nat)
    returns (created: seq<nat>, conflicts: seq<nat>, left: nat, reached: nat)
    requires db.Valid() && SpansDisjoint(os) && Distinct(todo, |os|)
    modifies db
    ensures db.Valid() && reached <= |todo|
    ensures Attempted(old(db.Snapshot()), db.Snapshot(), id, row, os, todo[..reached], created, conflicts, now)
    ensures left <= lifetime && reached <= lifetime && (reached == |todo| ==> left == lifetime - reached)
    ensures reached < |todo| ==> todo[reached] in todo
    ensures reached < |todo| ==> reached == lifetime || Stuck(db.Snapshot(), row.resource, os[todo[reached]].Span(), now)
  {
    created, conflicts, left, reached := [], [], lifetime, 0;
    ghost var start := db.Snapshot();
    NothingAttempted(start, id, row, os, now);
    for k := 0 to |todo|
      invariant reached == k && left == lifetime - k
      invariant db.Valid()
      invariant Attempted(start, db.Snapshot(), id, row, os, todo[..k], created, conflicts, now)
    {
      assert todo[k] in todo;
      if left == 0 { return; }
      left := left - 1;
      var settled;
      settled, created, conflicts := RollOccurrence(db, id, row, os, todo, k, now, start, created, conflicts);
      if !settled { return; }
      reached := k + 1;
    }
  }

  // All that a run was to attempt was within its lifetime, and none of it was stuck.
  ghost predicate Feasible(s: Store, row: SeriesRow, os: seq<Occurrence>, todo: seq<nat>, lifetime: nat, now: Instant)
    requires forall i | i in todo :: i < |os|
  {
    |todo| <= lifetime && forall i | i in todo :: !Stuck(s, row.resource, os[i].Span(), now)
  }

  // Why the run ended after the positions tried.
  ghost predicate Halted(t: Store, row: SeriesRow, os: seq<Occurrence>, todo: seq<nat>, tried: seq<nat>, lifetime: nat, now: Instant)
    requires forall i | i in todo :: i < |os|
  {
    |tried| == lifetime || exists i | i in todo :: Stuck(t, row.resource, os[i].Span(), now)
  }

  // One series. The run dies after `lifetime` attempts, or at an occurrence that is neither booked nor in conflict;
  // otherwise it completes. In terms of the tables it starts from, it completes exactly when its selection is
  // within its lifetime and holds no stuck occurrence.
  method RollSeries(db: Database, id: Id, row: SeriesRow, os: seq<Occurrence>, now: Instant, lifetime: nat)
    returns (created: seq<nat>, conflicts: seq<nat>, through: int, completed: bool, left: nat, ghost tried: seq<nat>)
    requires db.Valid() && OfSeries(row.def, RollingRun(now + MAX_ADVANCE_HORIZON, os)) && 0 < row.def.count && SpansDisjoint(os)
    modifies db
    ensures db.Valid()
    ensures Attempted(old(db.Snapshot()), db.Snapshot(), id, row, os, tried, created, conflicts, now)
    ensures through == if completed then RolledThrough(row.def, os, row.through, now + MAX_ADVANCE_HORIZON) else row.through
    ensures left <= lifetime && |tried| <= lifetime && (completed ==> left == lifetime - |tried|)
    ensures var todo := ToRoll(row, os, now);
      && tried <= todo && (completed <==> tried == todo)
      && (completed <==> Feasible(old(db.Snapshot()), row, os, todo, lifetime, now))
      && (!completed ==> Halted(db.Snapshot(), row, os, todo, tried, lifetime, now))
  {
    var todo := ToRoll(row, os, now);
    if row.through >= LastDate(row.def) {
      NothingLeft(row.def, os, row.through, now + MAX_ADVANCE_HORIZON);
      NothingAttempted(db.Snapshot(), id, row, os, now);
      return [], [], row.through, true, lifetime, [];
    }
    SelectionIsDistinct(row, os, now);
    var reached;
    created, conflicts, left, reached := RollOccurrences(db, id, row, os, todo, now, lifetime);
    tried, completed := todo[..reached], reached == |todo|;
    CompletesExactlyWhen(old(db.Snapshot()), db.Snapshot(), id, row, os, todo, reached, created, conflicts, now, lifetime);
    through := row.through;
    if completed && todo != [] {
      assert todo[|todo| - 1] in todo;
      through := os[todo[|todo| - 1]].date;
    }
  }

  lemma CompletesExactlyWhen(s: Store, t: Store, id: Id, row: SeriesRow, os: seq<Occurrence>, todo: seq<nat>, reached: nat,
                             created: seq<nat>, conflicts: seq<nat>, now: Instant, lifetime: nat)
    requires BookingsSound(s) && ReferencesSound(s) && BookingsSound(t) && ReferencesSound(t)
    requires SpansDisjoint(os) && Distinct(todo, |os|) && reached <= |todo| && reached <= lifetime
    requires Attempted(s, t, id, row, os, todo[..reached], created, conflicts, now)
    requires reached < |todo| ==> todo[reached] in todo
    requires reached < |todo| ==> reached == lifetime || Stuck(t, row.resource, os[todo[reached]].Span(), now)
    ensures reached == |todo| <==> Feasible(s, row, os, todo, lifetime, now)
  {
    if reached == |todo| {
      assert todo[..reached] == todo;
      forall i | i in todo ensures !Stuck(s, row.resource, os[i].Span(), now) {
        TriedWasNotStuck(s, t, id, row, os, todo, created, conflicts, now, i);
      }
    } else if reached < lifetime {
      AttemptSettlesExactlyWhen(s, t, id, row, os, todo[..reached], created, conflicts, now, todo[reached]);
    }
  }

  // ---------------------------------------------------------------- every series' expansion

  function Plans(rows: map<Id, SeriesRow>, tz: TzData): map<Id, seq<Occurrence>>
    requires SeriesSound(rows)
  {
    map id | id in rows :: Expand(rows[id], tz)
  }
}
