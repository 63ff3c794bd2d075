/** Previewing a weekly series, and confirming it. */
module RecurringSeries {
  import opened Tables
  import opened Transactions
  import opened BookingService
  import opened TimeZones
  import opened Recurrence
  import opened RollingWindows
  import opened SeriesTasks

  const PREVIEW_TOKEN_TTL := 900_000_000  // 15 minutes

  // The dates whose slot an advisory read finds occupied, expired holds included.
  ghost function ConflictDates(s: Store, resource: Id, os: seq<Occurrence>): set<int> {
    set o | o in os && !SlotIsFree(s, resource, o.Span()) :: o.date
  }

  method OccurrenceConflicts(db: Database, resource: Id, os: seq<Occurrence>) returns (dates: set<int>)
    ensures dates == ConflictDates(db.Snapshot(), resource, os)
  {
    dates := {};
    for k := 0 to |os|
      invariant dates == ConflictDates(db.Snapshot(), resource, os[..k])
    {
      assert os[..k + 1] == os[..k] + [os[k]];
      if exists i | i in db.bookings :: db.bookings[i].Blocks(resource, os[k].Span()) { dates := dates + {os[k].date}; }
    }
    assert os[..|os|] == os;
  }

  // The occurrences on, or off, the given dates, in order.
  function On(os: seq<Occurrence>, dates: set<int>): seq<Occurrence> {
    if os == [] then []
    else On(os[..|os| - 1], dates) + if os[|os| - 1].date in dates then [os[|os| - 1]] else []
  }

  function Off(os: seq<Occurrence>, dates: set<int>): seq<Occurrence> {
    if os == [] then []
    else Off(os[..|os| - 1], dates) + if os[|os| - 1].date in dates then [] else [os[|os| - 1]]
  }

  function AdjustedDates(os: seq<Occurrence>): set<int> {
    set o | o in os && o.adjustment.Some? :: o.date
  }

  // Everything confirm needs travels in the token, which is signed and so comes back as it was issued.
  datatype Token = Token(
    user: Id,
    resource: Id,
    timezone: string,
    def: SeriesDef,
    conflictDates: set<int>,
    adjustmentDates: set<int>,
    expires: Instant)

  datatype Preview =
    | Preview(token: Token, wouldCreate: seq<Occurrence>, conflicts: seq<Occurrence>, adjusted: seq<Occurrence>)
    | CountOutsideLimits
    | BeyondHorizon

  // Whole seconds, as in the token's iat and exp claims.
  function WholeSeconds(t: Instant): Instant {
    t - t % SECOND
  }

  lemma ExpansionDated(d: SeriesDef, z: Zone)
    requires 0 <= d.count
    ensures Dated(d, Occurrences(d, z))
  {}

  // What a preview made of the expansion `os` says.
  ghost predicate Describes(r: Preview, s: Store, user: Id, resource: Id, timezone: string, d: SeriesDef,
                            os: seq<Occurrence>, now: Instant)
  {
    var dates := ConflictDates(s, resource, os);
    && os != []
    && !r.CountOutsideLimits?
    && (r.BeyondHorizon? <==> os[|os| - 1].start > now + MAX_ADVANCE_HORIZON)
    && (r.Preview? ==>
          && r.wouldCreate == Off(os, dates) && r.conflicts == On(os, dates) && r.adjusted == On(os, AdjustedDates(os))
          && r.token == Token(user, resource, timezone, d, dates, AdjustedDates(os), WholeSeconds(now) + PREVIEW_TOKEN_TTL))
  }

  // Commits nothing.
  method PreviewRecurringSeries(db: Database, user: Id, resource: Id, timezone: string, d: SeriesDef, tz: TzData, now: Instant)
    returns (r: Preview)
    ensures r.CountOutsideLimits? <==> !(1 <= d.count <= 100)
    ensures !r.CountOutsideLimits? ==>
      Describes(r, db.Snapshot(), user, resource, timezone, d, Occurrences(d, tz(timezone)), now)
  {
    var expansion := ExpandOccurrences(d, tz(timezone));
    if expansion.CountOutOfBounds? { return CountOutsideLimits; }
    ExpansionDated(d, tz(timezone));
    r := PreviewOccurrences(db, user, resource, timezone, d, expansion.occurrences, now);
  }

  method PreviewOccurrences(db: Database, user: Id, resource: Id, timezone: string, d: SeriesDef, os: seq<Occurrence>, now: Instant)
    returns (r: Preview)
    requires Dated(d, os) && os != []
    ensures Describes(r, db.Snapshot(), user, resource, timezone, d, os, now)
  {
    if os[|os| - 1].start > now + MAX_ADVANCE_HORIZON { return BeyondHorizon; }
    var dates := OccurrenceConflicts(db, resource, os);
    var wouldCreate, conflicts, adjusted := Sort(d, os, dates);
    return Preview(Token(user, resource, timezone, d, dates, AdjustedDates(os), WholeSeconds(now) + PREVIEW_TOKEN_TTL),
                   wouldCreate, conflicts, adjusted);
  }

  lemma OneMore(os: seq<Occurrence>, k: nat, dates: set<int>)
    requires k < |os|
    ensures On(os[..k + 1], dates) == On(os[..k], dates) + if os[k].date in dates then [os[k]] else []
    ensures Off(os[..k + 1], dates) == Off(os[..k], dates) + if os[k].date in dates then [] else [os[k]]
  {
    assert os[..k + 1][..k] == os[..k];
  }

  // The loop that sorts an expansion into the lists of the preview.
  method Sort(d: SeriesDef, os: seq<Occurrence>, dates: set<int>)
    returns (wouldCreate: seq<Occurrence>, conflicts: seq<Occurrence>, adjusted: seq<Occurrence>)
    requires Dated(d, os)
    ensures wouldCreate == Off(os, dates) && conflicts == On(os, dates) && adjusted == On(os, AdjustedDates(os))
  {
    wouldCreate, conflicts, adjusted := [], [], [];
    for k := 0 to |os|
      invariant wouldCreate == Off(os[..k], dates) && conflicts == On(os[..k], dates)
      invariant adjusted == On(os[..k], AdjustedDates(os))
    {
      OneMore(os, k, dates);
      OneMore(os, k, AdjustedDates(os));
      if os[k].date in dates { conflicts := conflicts + [os[k]]; } else { wouldCreate := wouldCreate + [os[k]]; }
      if os[k].adjustment.Some? { adjusted := adjusted + [os[k]]; }
    }
    assert os[..|os|] == os;
  }

  // ---------------------------------------------------------------- confirm

  datatype CreatedNote = CreatedNote(booking: Id, occurrence: Occurrence)

  datatype ConflictNote = ConflictNote(date: int, acknowledged: bool)

  datatype Confirmation =
    | Report(series: Id, created: seq<CreatedNote>, conflicts: seq<ConflictNote>)
    | PreviewExpired
    | UnacknowledgedConflicts
    | Interrupted   // an exception other than slot_unavailable

  // The positions below n that the preview did not report as conflicts.
  function Wanted(os: seq<Occurrence>, known: set<int>, n: nat): seq<nat>
    requires n <= |os|
  {
    if n == 0 then [] else Wanted(os, known, n - 1) + if os[n - 1].date in known then [] else [n - 1]
  }

  // One note, in order, for each position below n that was not created.
  function Notes(os: seq<Occurrence>, known: set<int>, made: seq<nat>, n: nat): seq<ConflictNote>
    requires n <= |os|
  {
    if n == 0 then []
    else Notes(os, known, made, n - 1) + if n - 1 in made then [] else [ConflictNote(os[n - 1].date, os[n - 1].date in known)]
  }

  function CreatedNotes(first: Id, os: seq<Occurrence>, made: seq<nat>): seq<CreatedNote>
    requires forall i | i in made :: i < |os|
  {
    seq(|made|, k requires 0 <= k < |made| => assert made[k] in made; CreatedNote(first + k, os[made[k]]))
  }

  // The first n occurrences have been dealt with, from tables s to tables t, with this report.
  ghost predicate Confirmed(s: Store, t: Store, id: Id, row: SeriesRow, os: seq<Occurrence>, known: set<int>, n: nat,
                            made: seq<nat>, clashes: seq<nat>, created: seq<CreatedNote>, notes: seq<ConflictNote>, now: Instant)
  {
    && n <= |os|
    && Attempted(s, t, id, row, os, Wanted(os, known, n), made, clashes, now)
    && created == CreatedNotes(s.nextId, os, made)
    && notes == Notes(os, known, made, n)
  }

  lemma {:induction false} WantedBelow(os: seq<Occurrence>, known: set<int>, n: nat, i: nat)
    requires n <= |os|
    ensures i in Wanted(os, known, n) <==> i < n && os[i].date !in known
  {
    if n > 0 { WantedBelow(os, known, n - 1, i); }
  }

  lemma {:induction false} NotesStay(os: seq<Occurrence>, known: set<int>, made: seq<nat>, n: nat, i: nat)
    requires n <= i && n <= |os|
    ensures Notes(os, known, made + [i], n) == Notes(os, known, made, n)
  {
    if n > 0 { NotesStay(os, known, made, n - 1, i); }
  }

  lemma NextCreated(first: Id, os: seq<Occurrence>, n: nat, made: seq<nat>)
    requires n < |os| && forall i | i in made :: i < |os|
    ensures CreatedNotes(first, os, made + [n]) == CreatedNotes(first, os, made) + [CreatedNote(first + |made|, os[n])]
  {}

  lemma NextNoted(os: seq<Occurrence>, known: set<int>, n: nat, made: seq<nat>)
    requires n < |os| && forall i | i in made :: i in Wanted(os, known, n)
    ensures forall i | i in made :: i < n
    ensures Wanted(os, known, n + 1) == Wanted(os, known, n) + if os[n].date in known then [] else [n]
    ensures n !in Wanted(os, known, n) && n !in made
    ensures Notes(os, known, made, n + 1) == Notes(os, known, made, n) + [ConflictNote(os[n].date, os[n].date in known)]
    ensures Notes(os, known, made + [n], n + 1) == Notes(os, known, made, n)
  {
    WantedBelow(os, known, n, n);
    forall i | i in made ensures i < n { WantedBelow(os, known, n, i); }
    NotesStay(os, known, made, n, n);
  }

  // Nobody has taken a slot the preview promised.
  ghost predicate Undisturbed(s: Store, row: SeriesRow, os: seq<Occurrence>, known: set<int>) {
    forall i | 0 <= i < |os| && os[i].date !in known :: SlotIsFree(s, row.resource, os[i].Span())
  }

  // An expired hold that was offered stands in a slot the preview promised, and nobody's booking does.
  ghost predicate PromiseStuck(s: Store, row: SeriesRow, os: seq<Occurrence>, known: set<int>, i: nat, now: Instant)
    requires i < |os|
  {
    os[i].date !in known && Stuck(s, row.resource, os[i].Span(), now)
  }

  // The positions below n that the preview promised and whose slots are not taken.
  ghost function Bookable(s: Store, row: SeriesRow, os: seq<Occurrence>, known: set<int>, n: nat, now: Instant): seq<nat>
    requires n <= |os|
  {
    if n == 0 then []
    else
      Bookable(s, row, os, known, n - 1, now) +
      if os[n - 1].date in known || Unavailable(s, row, os[n - 1], now) then [] else [n - 1]
  }

  // In the terms of the tables before the first attempt, what becomes of the attempt on a promised slot.
  lemma PromisedOutcome(s: Store, t: Store, id: Id, row: SeriesRow, os: seq<Occurrence>, tried: seq<nat>, made: seq<nat>,
                        clashes: seq<nat>, now: Instant, i: nat)
    requires BookingsSound(s) && ReferencesSound(s) && ReferencesSound(t) && SpansDisjoint(os)
    requires Attempted(s, t, id, row, os, tried, made, clashes, now) && i < |os| && i !in tried
    ensures var outcome := Create(t, OccurrenceRequest(id, row, os[i]), now).0;
      && (Settles(outcome) <==> !Stuck(s, row.resource, os[i].Span(), now))
      && (outcome.SlotUnavailable? <==> Unavailable(s, row, os[i], now))
  {
    CreateSettlesUnlessStuck(t, OccurrenceRequest(id, row, os[i]), now);
    AttemptSettlesExactlyWhen(s, t, id, row, os, tried, made, clashes, now, i);
    if Unavailable(s, row, os[i], now) {
      TakenStays(s, t, Requests(id, row, os, made), row.resource, os[i].Span(), now);
    }
    if Unavailable(t, row, os[i], now) { TakenByOthers(s, t, id, row, os, tried, made, clashes, now, i); }
  }

  // The report after an attempt.
  method NoteOutcome(outcome: WriteOutcome, ghost first: Id, os: seq<Occurrence>, ghost known: set<int>, n: nat,
                     ghost made: seq<nat>, ghost nowMade: seq<nat>, created: seq<CreatedNote>, notes: seq<ConflictNote>)
    returns (nowCreated: seq<CreatedNote>, nowNotes: seq<ConflictNote>)
    requires n < |os| && os[n].date !in known && (forall i | i in made :: i in Wanted(os, known, n) && i < |os|)
    requires created == CreatedNotes(first, os, made) && notes == Notes(os, known, made, n)
    requires nowMade == if outcome.Done? then made + [n] else made
    requires outcome.Done? ==> outcome.id == first + |made|
    ensures nowCreated == CreatedNotes(first, os, nowMade)
    ensures nowNotes == Notes(os, known, nowMade, if Settles(outcome) then n + 1 else n)
  {
    NextNoted(os, known, n, made);
    NextCreated(first, os, n, made);
    nowCreated := if outcome.Done? then created + [CreatedNote(outcome.id, os[n])] else created;
    nowNotes := if outcome.SlotUnavailable? then notes + [ConflictNote(os[n].date, false)] else notes;
  }

  // Nothing among the first n was stuck, and all that was not taken is made.
  ghost predicate DealtWith(s: Store, row: SeriesRow, os: seq<Occurrence>, known: set<int>, n: nat, made: seq<nat>, now: Instant) {
    && n <= |os|
    && made == Bookable(s, row, os, known, n, now)
    && forall i: nat | i < n :: !PromiseStuck(s, row, os, known, i, now)
  }

  // Where the loop over occurrences stands.
  ghost predicate Dealing(s: Store, t: Store, id: Id, row: SeriesRow, os: seq<Occurrence>, known: set<int>, n: nat,
                          made: seq<nat>, clashes: seq<nat>, created: seq<CreatedNote>, notes: seq<ConflictNote>, now: Instant)
  {
    && Confirmed(s, t, id, row, os, known, n, made, clashes, created, notes, now)
    && DealtWith(s, row, os, known, n, made, now)
  }

  // A known conflict is noted without an attempt, any other occurrence is attempted.
  method ConfirmOccurrence(db: Database, id: Id, row: SeriesRow, os: seq<Occurrence>, known: set<int>, n: nat, now: Instant,
                           ghost start: Store, made: seq<nat>, clashes: seq<nat>, created: seq<CreatedNote>, notes: seq<ConflictNote>)
    returns (settled: bool, nowMade: seq<nat>, nowClashes: seq<nat>, nowCreated: seq<CreatedNote>, nowNotes: seq<ConflictNote>)
    requires db.Valid() && BookingsSound(start) && ReferencesSound(start) && SpansDisjoint(os) && n < |os|
    requires Confirmed(start, db.Snapshot(), id, row, os, known, n, made, clashes, created, notes, now)
    modifies db
    ensures db.Valid()
    ensures Confirmed(start, db.Snapshot(), id, row, os, known, if settled then n + 1 else n,
                      nowMade, nowClashes, nowCreated, nowNotes, now)
    ensures settled <==> !PromiseStuck(start, row, os, known, n, now)
    ensures nowMade == if settled && os[n].date !in known && !Unavailable(start, row, os[n], now) then made + [n] else made
  {
    NextNoted(os, known, n, made);
    nowMade, nowClashes, nowCreated, nowNotes := made, clashes, created, notes;
    if os[n].date in known {
      nowNotes := notes + [ConflictNote(os[n].date, true)];
      return true, nowMade, nowClashes, nowCreated, nowNotes;
    }
    PromisedOutcome(start, db.Snapshot(), id, row, os, Wanted(os, known, n), made, clashes, now, n);
    var outcome;
    ghost var tried;
    outcome, nowMade, nowClashes, tried := AttemptOccurrence(db, id, row, os, n, now, start, Wanted(os, known, n), made, clashes);
    settled := Settles(outcome);
    assert tried == Wanted(os, known, if settled then n + 1 else n);
    nowCreated, nowNotes := NoteOutcome(outcome, start.nextId, os, known, n, made, nowMade, created, notes);
  }

  lemma NextDealt(s: Store, row: SeriesRow, os: seq<Occurrence>, known: set<int>, n: nat, made: seq<nat>, now: Instant)
    requires n < |os| && DealtWith(s, row, os, known, n, made, now) && !PromiseStuck(s, row, os, known, n, now)
    ensures DealtWith(s, row, os, known, n + 1,
                      if os[n].date !in known && !Unavailable(s, row, os[n], now) then made + [n] else made, now)
  {}

  // One turn of the loop.
  method ConfirmTurn(db: Database, id: Id, row: SeriesRow, os: seq<Occurrence>, known: set<int>, n: nat, now: Instant,
                     ghost start: Store, made: seq<nat>, clashes: seq<nat>, created: seq<CreatedNote>, notes: seq<ConflictNote>)
    returns (settled: bool, nowMade: seq<nat>, nowClashes: seq<nat>, nowCreated: seq<CreatedNote>, nowNotes: seq<ConflictNote>)
    requires db.Valid() && BookingsSound(start) && ReferencesSound(start) && SpansDisjoint(os) && n < |os|
    requires Dealing(start, db.Snapshot(), id, row, os, known, n, made, clashes, created, notes, now)
    modifies db
    ensures db.Valid()
    ensures Dealing(start, db.Snapshot(), id, row, os, known, if settled then n + 1 else n,
                    nowMade, nowClashes, nowCreated, nowNotes, now)
    ensures !settled ==> PromiseStuck(start, row, os, known, n, now)
  {
    settled, nowMade, nowClashes, nowCreated, nowNotes :=
      ConfirmOccurrence(db, id, row, os, known, n, now, start, made, clashes, created, notes);
    if settled { NextDealt(start, row, os, known, n, made, now); }
  }

  lemma NothingConfirmed(s: Store, id: Id, row: SeriesRow, os: seq<Occurrence>, known: set<int>, now: Instant)
    ensures Dealing(s, s, id, row, os, known, 0, [], [], [], [], now)
  {
    assert Requests(id, row, os, []) == [];
  }

  // The loop over occurrences. `settled` is how many were dealt with before it ended.
  method ConfirmOccurrences(db: Database, id: Id, row: SeriesRow, os: seq<Occurrence>, known: set<int>, now: Instant)
    returns (completed: bool, created: seq<CreatedNote>, notes: seq<ConflictNote>, made: seq<nat>, clashes: seq<nat>, ghost settled: nat)
    requires db.Valid() && SpansDisjoint(os)
    modifies db
    ensures db.Valid()
    ensures Dealing(old(db.Snapshot()), db.Snapshot(), id, row, os, known, settled, made, clashes, created, notes, now)
    ensures completed ==> settled == |os|
    ensures !completed ==> settled < |os| && PromiseStuck(old(db.Snapshot()), row, os, known, settled, now)
  {
    completed, created, notes, made, clashes, settled := false, [], [], [], [], 0;
    ghost var start := db.Snapshot();
    NothingConfirmed(start, id, row, os, known, now);
    for k := 0 to |os|
      invariant settled == k
      invariant db.Valid()
      invariant Dealing(start, db.Snapshot(), id, row, os, known, k, made, clashes, created, notes, now)
    {
      var went;
      went, made, clashes, created, notes :=
        ConfirmTurn(db, id, row, os, known, k, now, start, made, clashes, created, notes);
      if !went { return; }
      settled := k + 1;
    }
    completed := true;
  }

  // The series row a confirm writes: materialized to its end, under the installed rules.
  function SeriesOf(token: Token, version: string): SeriesRow {
    SeriesRow(token.resource, token.user, token.timezone, token.def, LastDate(token.def), version, true)
  }

  predicate Expired(token: Token, user: Id, now: Instant) {
    token.user != user || token.expires <= now
  }

  // A superset will do; a missing acknowledgment will not.
  predicate FullyAcknowledged(token: Token, conflicts: set<int>, adjustments: set<int>) {
    token.conflictDates <= conflicts && token.adjustmentDates <= adjustments
  }

  // The first n occurrences were dealt with, and the next one is stuck.
  ghost predicate StopsAt(s: Store, t: Store, id: Id, row: SeriesRow, os: seq<Occurrence>, known: set<int>, n: nat,
                          clashes: seq<nat>, now: Instant)
  {
    && n < |os| && PromiseStuck(s, row, os, known, n, now)
    && Attempted(s, t, id, row, os, Wanted(os, known, n), Bookable(s, row, os, known, n, now), clashes, now)
  }

  // What a confirm that was neither expired nor short of an acknowledgment comes to, from tables s to tables t.
  ghost predicate Books(r: Confirmation, s: Store, t: Store, id: Id, row: SeriesRow, os: seq<Occurrence>, known: set<int>,
                        clashes: seq<nat>, now: Instant)
  {
    && (r.Report? || r.Interrupted?)
    && (r.Interrupted? <==> exists i: nat | i < |os| :: PromiseStuck(s, row, os, known, i, now))
    && (r.Interrupted? ==> exists n: nat :: StopsAt(s, t, id, row, os, known, n, clashes, now))
    && (r.Report? ==>
          && r.series == id
          && Confirmed(s, t, id, row, os, known, |os|, Bookable(s, row, os, known, |os|, now), clashes, r.created, r.conflicts, now))
  }

  // The series row and one attempt per occurrence the preview promised, each in a transaction of its own.
  method ConfirmExpansion(db: Database, table: SeriesTable, token: Token, id: Id, os: seq<Occurrence>, version: string, now: Instant)
    returns (r: Confirmation, clashes: seq<nat>)
    requires db.Valid() && Dated(token.def, os) && SpansDisjoint(os) && os != []
    modifies db, table
    ensures db.Valid() && table.rows == old(table.rows)[id := SeriesOf(token, version)]
    ensures Books(r, old(db.Snapshot()), db.Snapshot(), id, SeriesOf(token, version), os, token.conflictDates, clashes, now)
  {
    var row := SeriesRow(token.resource, token.user, token.timezone, token.def, os[|os| - 1].date, version, true);
    table.rows := table.rows[id := row];
    var completed, created, notes, made;
    ghost var settled;
    completed, created, notes, made, clashes, settled := ConfirmOccurrences(db, id, row, os, token.conflictDates, now);
    r := if completed then Report(id, created, notes) else Interrupted;
    assert !completed ==> StopsAt(old(db.Snapshot()), db.Snapshot(), id, row, os, token.conflictDates, settled, clashes, now);
  }

  // What a confirm comes to, from tables s to tables t.
  ghost predicate Confirms(r: Confirmation, s: Store, t: Store, token: Token, user: Id, conflicts: set<int>, adjustments: set<int>,
                           id: Id, tz: TzData, version: string, clashes: seq<nat>, now: Instant)
    requires 0 <= token.def.count
  {
    && (r.PreviewExpired? <==> token.user != user || token.expires <= now)
    && (r.UnacknowledgedConflicts? <==>
          && token.user == user && now < token.expires
          && ((exists date :: date in token.conflictDates && date !in conflicts)
              || exists date :: date in token.adjustmentDates && date !in adjustments))
    && (r.PreviewExpired? || r.UnacknowledgedConflicts? ==> t == s)
    && (r.Report? || r.Interrupted? ==>
          Books(r, s, t, id, SeriesOf(token, version), Occurrences(token.def, tz(token.timezone)), token.conflictDates, clashes, now))
  }

  // Refuses before anything is written, or books exactly the promised occurrences whose slots are not taken; it is
  // interrupted exactly when one of them is stuck, the series row and the bookings before that one remaining.
  // `id` is the new series' id.
  method ConfirmRecurringSeries(db: Database, table: SeriesTable, token: Token, user: Id, conflicts: set<int>, adjustments: set<int>,
                                id: Id, tz: TzData, version: string, now: Instant)
    returns (r: Confirmation, clashes: seq<nat>)
    requires db.Valid() && table.Valid() && id !in table.rows && ValidSeries(token.def)
    modifies db, table
    ensures db.Valid() && table.Valid()
    ensures Confirms(r, old(db.Snapshot()), db.Snapshot(), token, user, conflicts, adjustments, id, tz, version, clashes, now)
    ensures table.rows ==
      if r.Report? || r.Interrupted? then old(table.rows)[id := SeriesOf(token, version)] else old(table.rows)
  {
    clashes := [];
    ghost var s := db.Snapshot();
    if Expired(token, user, now) {
      r := PreviewExpired;
      RefusalConfirms(r, s, token, user, conflicts, adjustments, id, tz, version, now);
    } else if !FullyAcknowledged(token, conflicts, adjustments) {
      r := UnacknowledgedConflicts;
      RefusalConfirms(r, s, token, user, conflicts, adjustments, id, tz, version, now);
    } else {
      r, clashes := ConfirmInFull(db, table, token, id, tz, version, now);
      BookingConfirms(r, s, db.Snapshot(), token, user, conflicts, adjustments, id, tz, version, clashes, now);
    }
  }

  method ConfirmInFull(db: Database, table: SeriesTable, token: Token, id: Id, tz: TzData, version: string, now: Instant)
    returns (r: Confirmation, clashes: seq<nat>)
    requires db.Valid() && table.Valid() && ValidSeries(token.def)
    modifies db, table
    ensures db.Valid() && table.Valid() && table.rows == old(table.rows)[id := SeriesOf(token, version)]
    ensures r.Report? || r.Interrupted?
    ensures Books(r, old(db.Snapshot()), db.Snapshot(), id, SeriesOf(token, version), Occurrences(token.def, tz(token.timezone)),
                  token.conflictDates, clashes, now)
  {
    var os := Occurrences(token.def, tz(token.timezone));
    ExpansionDated(token.def, tz(token.timezone));
    ExpansionDisjoint(token.def, tz(token.timezone));
    r, clashes := ConfirmExpansion(db, table, token, id, os, version, now);
  }

  lemma RefusalConfirms(r: Confirmation, s: Store, token: Token, user: Id, conflicts: set<int>, adjustments: set<int>,
                        id: Id, tz: TzData, version: string, now: Instant)
    requires 0 <= token.def.count && (r.PreviewExpired? || r.UnacknowledgedConflicts?)
    requires r.PreviewExpired? <==> Expired(token, user, now)
    requires r.UnacknowledgedConflicts? ==> !FullyAcknowledged(token, conflicts, adjustments)
    ensures Confirms(r, s, s, token, user, conflicts, adjustments, id, tz, version, [], now)
  {
    NoneMissing(token.conflictDates, conflicts);
    NoneMissing(token.adjustmentDates, adjustments);
  }

  lemma NoneMissing(dates: set<int>, given: set<int>)
    ensures dates <= given <==> !exists date :: date in dates && date !in given
  {
    if !exists date :: date in dates && date !in given {
      forall date | date in dates ensures date in given {}
    }
  }

  lemma BookingConfirms(r: Confirmation, s: Store, t: Store, token: Token, user: Id, conflicts: set<int>, adjustments: set<int>,
                        id: Id, tz: TzData, version: string, clashes: seq<nat>, now: Instant)
    requires 0 <= token.def.count && !Expired(token, user, now) && FullyAcknowledged(token, conflicts, adjustments)
    requires Books(r, s, t, id, SeriesOf(token, version), Occurrences(token.def, tz(token.timezone)), token.conflictDates, clashes, now)
    ensures Confirms(r, s, t, token, user, conflicts, adjustments, id, tz, version, clashes, now)
  {}

  // ---------------------------------------------------------------- what the report says

  lemma {:induction false} NoteOf(os: seq<Occurrence>, known: set<int>, made: seq<nat>, n: nat, note: ConflictNote)
    requires n <= |os|
    ensures note in Notes(os, known, made, n)
      <==> exists i | 0 <= i < n :: i !in made && os[i].date == note.date && (note.acknowledged <==> os[i].date in known)
  {
    if n > 0 { NoteOf(os, known, made, n - 1, note); }
  }

  lemma DateAcknowledged(d: SeriesDef, os: seq<Occurrence>, known: set<int>, made: seq<nat>, i: nat)
    requires Dated(d, os) && i < |os| && (forall j | j in made :: j in Wanted(os, known, |os|))
    ensures ConflictNote(os[i].date, true) in Notes(os, known, made, |os|) <==> os[i].date in known
  {
    NoteOf(os, known, made, |os|, ConflictNote(os[i].date, true));
    WantedBelow(os, known, |os|, i);
  }

  lemma DateUnacknowledged(d: SeriesDef, os: seq<Occurrence>, known: set<int>, made: seq<nat>, i: nat)
    requires Dated(d, os) && i < |os|
    ensures ConflictNote(os[i].date, false) in Notes(os, known, made, |os|) <==> os[i].date !in known && i !in made
  {
    NoteOf(os, known, made, |os|, ConflictNote(os[i].date, false));
  }

  // Every date of the series is in exactly one part of the report: created, an acknowledged conflict, or an
  // unacknowledged one; and the acknowledged conflicts are exactly the preview's.
  lemma EveryDateReportedOnce(d: SeriesDef, s: Store, t: Store, id: Id, row: SeriesRow, os: seq<Occurrence>, known: set<int>,
                              made: seq<nat>, clashes: seq<nat>, created: seq<CreatedNote>, notes: seq<ConflictNote>, now: Instant, i: nat)
    requires Dated(d, os) && i < |os|
    requires Confirmed(s, t, id, row, os, known, |os|, made, clashes, created, notes, now)
    ensures ConflictNote(os[i].date, true) in notes <==> os[i].date in known
    ensures ConflictNote(os[i].date, false) in notes <==> os[i].date !in known && i !in made
    ensures i in made ==> os[i].date !in known
  {
    DateAcknowledged(d, os, known, made, i);
    DateUnacknowledged(d, os, known, made, i);
    WantedBelow(os, known, |os|, i);
  }

  function Picked(created: seq<CreatedNote>): seq<Occurrence> {
    seq(|created|, k requires 0 <= k < |created| => created[k].occurrence)
  }

  lemma {:induction false} OffIsWanted(os: seq<Occurrence>, known: set<int>, n: nat)
    requires n <= |os|
    ensures forall i | i in Wanted(os, known, n) :: i < |os|
    ensures Off(os[..n], known) == Picked(CreatedNotes(0, os, Wanted(os, known, n)))
  {
    forall i | i in Wanted(os, known, n) ensures i < |os| { WantedBelow(os, known, n, i); }
    if n > 0 {
      OffIsWanted(os, known, n - 1);
      OneMore(os, n - 1, known);
    }
  }

  // A slot nothing stands in is neither taken nor stuck.
  lemma {:induction false} UndisturbedBooksAll(s: Store, row: SeriesRow, os: seq<Occurrence>, known: set<int>, n: nat, now: Instant)
    requires Undisturbed(s, row, os, known) && n <= |os|
    ensures Bookable(s, row, os, known, n, now) == Wanted(os, known, n)
    ensures forall i: nat | i < n :: !PromiseStuck(s, row, os, known, i, now)
  {
    if n > 0 { UndisturbedBooksAll(s, row, os, known, n - 1, now); }
  }

  // Confirmed in time and with every acknowledgment, under the preview's zone rules, and before anybody has taken a
  // promised slot: the bookings are exactly those the preview said would be created, in that order, and the
  // conflicts reported are exactly its conflicts, all of them acknowledged.
  lemma ConfirmCreatesWhatWasPreviewed(p: Preview, s: Store, user: Id, resource: Id, timezone: string, d: SeriesDef, tz: TzData,
                                       previewed: Instant, r: Confirmation, before: Store, after: Store, conflicts: set<int>,
                                       adjustments: set<int>, id: Id, version: string, clashes: seq<nat>, now: Instant)
    requires ValidSeries(d) && p.Preview?
    requires Describes(p, s, user, resource, timezone, d, Occurrences(d, tz(timezone)), previewed)
    requires Confirms(r, before, after, p.token, user, conflicts, adjustments, id, tz, version, clashes, now)
    requires now < WholeSeconds(previewed) + PREVIEW_TOKEN_TTL
    requires p.token.conflictDates <= conflicts && p.token.adjustmentDates <= adjustments
    requires forall o | o in p.wouldCreate :: SlotIsFree(before, resource, o.Span())
    ensures r.Report? && Picked(r.created) == p.wouldCreate
    ensures forall note: ConflictNote ::
      (note in r.conflicts <==> note.acknowledged && exists o | o in p.conflicts :: o.date == note.date)
  {
    var os, known, row := Occurrences(d, tz(timezone)), p.token.conflictDates, SeriesOf(p.token, version);
    PromisedIsUndisturbed(before, row, os, known);
    UndisturbedReport(r, before, after, id, row, os, known, clashes, now);
    forall note: ConflictNote
      ensures note in r.conflicts <==> note.acknowledged && exists o | o in p.conflicts :: o.date == note.date
    {
      ConflictsAreNoted(os, known, note);
    }
  }

  lemma PromisedIsUndisturbed(s: Store, row: SeriesRow, os: seq<Occurrence>, known: set<int>)
    requires forall o | o in Off(os, known) :: SlotIsFree(s, row.resource, o.Span())
    ensures Undisturbed(s, row, os, known)
  {
    forall i | 0 <= i < |os| && os[i].date !in known ensures SlotIsFree(s, row.resource, os[i].Span()) {
      OffHolds(os, known, os[i]);
    }
  }

  lemma UndisturbedReport(r: Confirmation, s: Store, t: Store, id: Id, row: SeriesRow, os: seq<Occurrence>, known: set<int>,
                          clashes: seq<nat>, now: Instant)
    requires Books(r, s, t, id, row, os, known, clashes, now) && Undisturbed(s, row, os, known)
    ensures r.Report? && Picked(r.created) == Off(os, known)
    ensures r.conflicts == Notes(os, known, Wanted(os, known, |os|), |os|)
  {
    UndisturbedBooksAll(s, row, os, known, |os|, now);
    OffIsWanted(os, known, |os|);
    assert os[..|os|] == os;
    assert Picked(r.created) == Picked(CreatedNotes(0, os, Wanted(os, known, |os|)));
  }

  lemma {:induction false} OffHolds(os: seq<Occurrence>, dates: set<int>, o: Occurrence)
    ensures o in Off(os, dates) <==> o in os && o.date !in dates
    ensures o in On(os, dates) <==> o in os && o.date in dates
  {
    if os != [] {
      assert os == os[..|os| - 1] + [os[|os| - 1]];
      OffHolds(os[..|os| - 1], dates, o);
    }
  }

  lemma ConflictsAreNoted(os: seq<Occurrence>, known: set<int>, note: ConflictNote)
    ensures note in Notes(os, known, Wanted(os, known, |os|), |os|)
      <==> note.acknowledged && exists o | o in On(os, known) :: o.date == note.date
  {
    NoteOf(os, known, Wanted(os, known, |os|), |os|, note);
    forall i: nat | i < |os| ensures i in Wanted(os, known, |os|) <==> os[i].date !in known { WantedBelow(os, known, |os|, i); }
    forall o: Occurrence ensures o in On(os, known) <==> o in os && o.date in known { OffHolds(os, known, o); }
    if note.acknowledged && exists i | 0 <= i < |os| :: os[i].date == note.date && os[i].date in known {
      var i :| 0 <= i < |os| && os[i].date == note.date && os[i].date in known;
      assert os[i] in On(os, known);
    }
  }

  // While no booking has changed since the preview, every slot it promised is free.
  lemma PreviewedTablesAreUndisturbed(p: Preview, s: Store, user: Id, resource: Id, timezone: string, d: SeriesDef,
                                      os: seq<Occurrence>, now: Instant, later: Store)
    requires p.Preview? && Describes(p, s, user, resource, timezone, d, os, now) && later.bookings == s.bookings
    ensures forall o | o in p.wouldCreate :: SlotIsFree(later, resource, o.Span())
  {
    forall o | o in p.wouldCreate ensures SlotIsFree(later, resource, o.Span()) {
      OffHolds(os, ConflictDates(s, resource, os), o);
    }
  }
}
