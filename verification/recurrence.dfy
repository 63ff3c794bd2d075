/** Weekly recurrence: each occurrence is placed in local time on its own date and only then converted to UTC. */
module Recurrence {
  import opened Tables
  import opened TimeZones

  const MAX_SERIES_OCCURRENCES := 100

  datatype Issue = NonexistentLocalTime | AmbiguousLocalTime

  datatype TimeAdjustment = TimeAdjustment(issue: Issue, requestedLocal: int, adjustedLocal: int)

  // Dates are local midnights, times of day offsets into the day.
  datatype Occurrence = Occurrence(date: int, start: Instant, end: Instant, adjustment: Option<TimeAdjustment>) {
    function Span(): Range {
      Range(start, end)
    }
  }

  datatype SeriesDef = SeriesDef(localStart: int, localEnd: int, startDate: int, count: int)

  datatype Expansion = Expanded(occurrences: seq<Occurrence>) | CountOutOfBounds

  // The series_window_valid check, for times of day.
  ghost predicate ValidWindow(d: SeriesDef) {
    0 <= d.localStart < d.localEnd < DAY
  }

  function TransitionGap(z: Zone, local: int): int {
    ToUtc(z, local, First) - ToUtc(z, local, Second)
  }

  // How far an occurrence is moved: by the size of the gap its start falls in, if any.
  function Shift(z: Zone, local: int): int {
    if IsNonexistent(z, local) then TransitionGap(z, local) else 0
  }

  function Disclosure(z: Zone, local: int, requested: int): Option<TimeAdjustment> {
    if IsNonexistent(z, local) then
      Some(TimeAdjustment(NonexistentLocalTime, requested, TimeOfDay(local + TransitionGap(z, local))))
    else if IsAmbiguous(z, local) then Some(TimeAdjustment(AmbiguousLocalTime, requested, requested))
    else None
  }

  // Converting a local time on its own date is its fold-0 reading (TimeZones.OnDateIsAuthoritative).
  function MaterializeOccurrence(date: int, naiveStart: int, naiveEnd: int, requested: int, z: Zone): Occurrence {
    var gap := Shift(z, naiveStart);
    Occurrence(date, ToUtc(z, naiveStart + gap, First), ToUtc(z, naiveEnd + gap, First), Disclosure(z, naiveStart, requested))
  }

  function DateAt(d: SeriesDef, i: int): int {
    d.startDate + i * 604_800_000_000
  }

  // The wall-clock start and end of occurrence i, before any adjustment.
  function NaiveStart(d: SeriesDef, i: int): int {
    DateAt(d, i) + d.localStart
  }

  function NaiveEnd(d: SeriesDef, i: int): int {
    DateAt(d, i) + d.localEnd
  }

  function OccurrenceAt(d: SeriesDef, z: Zone, i: int): Occurrence {
    MaterializeOccurrence(DateAt(d, i), NaiveStart(d, i), NaiveEnd(d, i), d.localStart, z)
  }

  function ExpandOccurrences(d: SeriesDef, z: Zone): Expansion {
    if !(1 <= d.count <= MAX_SERIES_OCCURRENCES) then CountOutOfBounds
    else Expanded(Occurrences(d, z))
  }

  function Occurrences(d: SeriesDef, z: Zone): seq<Occurrence>
    requires 0 <= d.count
  {
    seq(d.count, i requires 0 <= i < d.count => OccurrenceAt(d, z, i))
  }

  // ---------------------------------------------------------------- one occurrence

  // A local time up to five days past a transition reads with the offset that transition introduced.
  lemma SettledAfter(z: Zone, k: nat, local: int)
    requires k < |z.transitions|
    requires WallBoundary(z, k, First) <= local < z.transitions[k].at + 5 * DAY
    ensures ToUtc(z, local, First) == local - OffsetAfter(z, k + 1)
  {
    if k + 1 < |z.transitions| {
      OffsetBound(z, k + 1); OffsetBound(z, k + 2);
      assert z.transitions[k].at + WEEK <= z.transitions[k + 1].at;
    }
    LocalSplitUnique(z, local, First, Index(z, local, First), k + 1);
  }

  // The transition a gap belongs to, and its size.
  lemma GapAt(z: Zone, start: int)
    requires IsNonexistent(z, start)
    ensures var k := Index(z, start, First);
      && k < |z.transitions|
      && 0 < TransitionGap(z, start) == OffsetAfter(z, k + 1) - OffsetAfter(z, k) < 2 * DAY
      && z.transitions[k].at + OffsetAfter(z, k) <= start < z.transitions[k].at + OffsetAfter(z, k + 1)
      && WallBoundary(z, k, First) == z.transitions[k].at + OffsetAfter(z, k + 1)
      && -DAY < OffsetAfter(z, k) && OffsetAfter(z, k + 1) < DAY
  {
    FirstReadingReadsBack(z, start);
    Between(z, start);
    var k := Index(z, start, First);
    OffsetBound(z, k);
    OffsetBound(z, k + 1);
  }

  lemma ShiftedReading(z: Zone, start: int, local: int)
    requires IsNonexistent(z, start) && start <= local < start + DAY
    ensures ToUtc(z, local + TransitionGap(z, start), First) == local - OffsetAfter(z, Index(z, start, First))
  {
    GapAt(z, start);
    SettledAfter(z, Index(z, start, First), local + TransitionGap(z, start));
  }

  // In a gap, shifting by the gap keeps the start at the fold-0 reading of the requested time, and shifting
  // the end by the same amount keeps the requested local duration.
  lemma GapShift(z: Zone, start: int, end: int)
    requires IsNonexistent(z, start) && start < end < start + DAY
    ensures var gap := TransitionGap(z, start);
      && ToUtc(z, start + gap, First) == ToUtc(z, start, First)
      && ToUtc(z, end + gap, First) - ToUtc(z, start + gap, First) == end - start
  {
    ShiftedReading(z, start, start);
    ShiftedReading(z, start, end);
  }

  // The shift is forward, and leads to a local time that exists.
  lemma ShiftedTimeExists(z: Zone, start: int)
    requires IsNonexistent(z, start)
    ensures TransitionGap(z, start) > 0 && !IsNonexistent(z, start + TransitionGap(z, start))
  {
    GapAt(z, start);
    ShiftedReading(z, start, start);
    var k := Index(z, start, First);
    var u := ToUtc(z, start + TransitionGap(z, start), First);
    if k + 1 < |z.transitions| { assert z.transitions[k].at + WEEK <= z.transitions[k + 1].at; }
    UtcSplitUnique(z, u, UtcIndex(z, u), k + 1);
  }

  // Reading forward from a local time that exists never goes back in UTC.
  lemma ReadingAdvances(z: Zone, start: int, end: int)
    requires !IsNonexistent(z, start) && start < end
    ensures ToUtc(z, start, First) < ToUtc(z, end, First)
  {
    FirstReadingReadsBack(z, start);
    var k, l := Index(z, start, First), Index(z, end, First);
    PassedAdvances(z, start, end);
    if k < l {
      assert z.transitions[l - 1].at + OffsetAfter(z, l) <= WallBoundary(z, l - 1, First) <= end;
      if k < l - 1 { TransitionsAscend(z, k, l - 1); }
    }
  }

  lemma PassedAdvances(z: Zone, start: int, end: int)
    requires start <= end
    ensures Index(z, start, First) <= Index(z, end, First)
  {
    var k, l := Index(z, start, First), Index(z, end, First);
    if l + 1 < k { BoundariesAscend(z, First, l, k - 1); }
  }

  lemma ShiftedWellOrdered(z: Zone, start: int, end: int, gap: int)
    requires start < end < start + DAY && IsNonexistent(z, start) && gap == TransitionGap(z, start)
    ensures ToUtc(z, start, First) == ToUtc(z, start + gap, First) < ToUtc(z, end + gap, First)
  {
    GapShift(z, start, end);
    var a, b, c := ToUtc(z, start, First), ToUtc(z, start + gap, First), ToUtc(z, end + gap, First);
    assert a == b && c - b == end - start;
  }

  lemma PlacedWellOrdered(z: Zone, start: int, end: int, gap: int)
    requires start < end < start + DAY && gap == Shift(z, start)
    ensures ToUtc(z, start, First) == ToUtc(z, start + gap, First) < ToUtc(z, end + gap, First)
  {
    if IsNonexistent(z, start) { ShiftedWellOrdered(z, start, end, gap); } else { ReadingAdvances(z, start, end); }
  }

  lemma ReadingNearWallClock(z: Zone, local: int)
    ensures local - DAY < ToUtc(z, local, First) < local + DAY
  {
    OffsetBound(z, Index(z, local, First));
  }

  lemma StandingNearWallClock(z: Zone, start: int, end: int)
    requires start < end < start + DAY
    ensures ToUtc(z, end, First) < start + 2 * DAY
  {
    ReadingNearWallClock(z, end);
  }

  lemma ShiftedNearWallClock(z: Zone, start: int, end: int, gap: int)
    requires start < end < start + DAY && IsNonexistent(z, start) && gap == TransitionGap(z, start)
    ensures ToUtc(z, end + gap, First) < start + 2 * DAY
  {
    GapShift(z, start, end);
    ReadingNearWallClock(z, start);
  }

  lemma EndNearWallClock(z: Zone, start: int, end: int, gap: int)
    requires start < end < start + DAY && gap == Shift(z, start)
    ensures ToUtc(z, end + gap, First) < start + 2 * DAY
  {
    if IsNonexistent(z, start) { ShiftedNearWallClock(z, start, end, gap); } else { StandingNearWallClock(z, start, end); }
  }

  lemma MaterializedAsPlaced(date: int, start: int, end: int, requested: int, z: Zone)
    ensures MaterializeOccurrence(date, start, end, requested, z).start == ToUtc(z, start + Shift(z, start), First)
    ensures MaterializeOccurrence(date, start, end, requested, z).end == ToUtc(z, end + Shift(z, start), First)
  {}

  lemma MaterializedWellOrdered(date: int, start: int, end: int, requested: int, z: Zone)
    requires start < end < start + DAY
    ensures MaterializeOccurrence(date, start, end, requested, z).start == ToUtc(z, start, First)
    ensures MaterializeOccurrence(date, start, end, requested, z).start < MaterializeOccurrence(date, start, end, requested, z).end
  {
    MaterializedAsPlaced(date, start, end, requested, z);
    PlacedWellOrdered(z, start, end, Shift(z, start));
  }

  lemma MaterializedNearWallClock(date: int, start: int, end: int, requested: int, z: Zone)
    requires start < end < start + DAY
    ensures MaterializeOccurrence(date, start, end, requested, z).end < start + 2 * DAY
  {
    MaterializedAsPlaced(date, start, end, requested, z);
    EndNearWallClock(z, start, end, Shift(z, start));
  }

  lemma MaterializedDuration(date: int, start: int, end: int, requested: int, z: Zone)
    requires start < end < start + DAY && IsNonexistent(z, start)
    ensures var o := MaterializeOccurrence(date, start, end, requested, z); o.end - o.start == end - start
  {
    MaterializedAsPlaced(date, start, end, requested, z);
    ShiftedDuration(z, start, end, Shift(z, start));
  }

  lemma ShiftedDuration(z: Zone, start: int, end: int, gap: int)
    requires start < end < start + DAY && IsNonexistent(z, start) && gap == TransitionGap(z, start)
    ensures ToUtc(z, end + gap, First) - ToUtc(z, start + gap, First) == end - start
  {
    GapShift(z, start, end);
  }

  // Every occurrence of a valid series has a start before its end in UTC, and its start is the fold-0 reading
  // of the requested local time; in a gap the requested local duration is kept.
  lemma OccurrenceWellOrdered(d: SeriesDef, z: Zone, i: int)
    requires ValidWindow(d)
    ensures OccurrenceAt(d, z, i).start < OccurrenceAt(d, z, i).end
    ensures OccurrenceAt(d, z, i).start == ToUtc(z, NaiveStart(d, i), First)
    ensures IsNonexistent(z, NaiveStart(d, i)) ==>
      OccurrenceAt(d, z, i).end - OccurrenceAt(d, z, i).start == d.localEnd - d.localStart
  {
    MaterializedWellOrdered(DateAt(d, i), NaiveStart(d, i), NaiveEnd(d, i), d.localStart, z);
    if IsNonexistent(z, NaiveStart(d, i)) {
      MaterializedDuration(DateAt(d, i), NaiveStart(d, i), NaiveEnd(d, i), d.localStart, z);
    }
  }

  predicate Discloses(o: Occurrence, issue: Issue) {
    o.adjustment.Some? && o.adjustment.value.issue == issue
  }

  // The adjustment discloses a gap or an overlap exactly when there is one.
  lemma AdjustmentDisclosesDst(d: SeriesDef, z: Zone, i: int)
    requires ValidWindow(d)
    ensures var o := OccurrenceAt(d, z, i);
      && (Discloses(o, NonexistentLocalTime) <==> forall u :: ToLocal(z, u) != NaiveStart(d, i))
      && (Discloses(o, AmbiguousLocalTime) <==>
            exists u, v :: u != v && ToLocal(z, u) == NaiveStart(d, i) && ToLocal(z, v) == NaiveStart(d, i))
      && (o.adjustment.None? ==> forall u :: ToLocal(z, u) == NaiveStart(d, i) <==> u == o.start)
  {
    var n := NaiveStart(d, i);
    NonexistentExactlyWhenNoInstant(z, n);
    AmbiguousExactlyWhenTwoInstants(z, n);
    if OccurrenceAt(d, z, i).adjustment.None? {
      forall u ensures ToLocal(z, u) == n <==> u == ToUtc(z, n, First) {
        if ToLocal(z, u) == n { InstantIsFold(z, n, u); }
      }
    }
  }

  lemma WeeksKeepTimeOfDay(date: int, i: int, time: int)
    requires TimeOfDay(date) == 0 && 0 <= time < DAY
    ensures TimeOfDay(date + i * 604_800_000_000 + time) == time
  {
    var days := date / 86_400_000_000 + 7 * i;
    assert date + i * 604_800_000_000 + time == days * 86_400_000_000 + time;
  }

  lemma ShiftedStartReadsBack(z: Zone, start: int)
    requires IsNonexistent(z, start)
    ensures ToLocal(z, ToUtc(z, start, First)) == start + TransitionGap(z, start)
  {
    ShiftedTimeExists(z, start);
    GapShift(z, start, start + 1);
  }

  // What is disclosed as adjusted is the time of day the clock shows when the occurrence starts, and what is
  // disclosed as requested is the time of day the series asks for.
  lemma AdjustmentShowsTheClock(d: SeriesDef, z: Zone, i: int)
    requires ValidWindow(d) && TimeOfDay(d.startDate) == 0 && OccurrenceAt(d, z, i).adjustment.Some?
    ensures var a := OccurrenceAt(d, z, i).adjustment.value;
      && a.requestedLocal == d.localStart == TimeOfDay(NaiveStart(d, i))
      && a.adjustedLocal == TimeOfDay(ToLocal(z, ToUtc(z, NaiveStart(d, i), First)))
  {
    WeeksKeepTimeOfDay(d.startDate, i, d.localStart);
    if IsNonexistent(z, NaiveStart(d, i)) { ShiftedStartReadsBack(z, NaiveStart(d, i)); }
  }

  // Shifting the start alone would let an occurrence end before it begins.
  lemma EndMustShiftWithStart() returns (z: Zone, start: int, end: int)
    ensures IsNonexistent(z, start) && start < end < start + DAY
    ensures ToUtc(z, end, First) < ToUtc(z, start + TransitionGap(z, start), First)
  {
    z := Rules(0, [Transition(0, HOUR)]);
    start, end := HOUR / 2, HOUR + HOUR / 4;
    assert WallBoundary(z, 0, First) == HOUR && WallBoundary(z, 0, Second) == 0;
    LocalSplitUnique(z, start, First, Index(z, start, First), 0);
    LocalSplitUnique(z, start, Second, Index(z, start, Second), 1);
    LocalSplitUnique(z, end, First, Index(z, end, First), 1);
    LocalSplitUnique(z, start + HOUR, First, Index(z, start + HOUR, First), 1);
    FirstReadingReadsBack(z, start);
    assert TransitionGap(z, start) == HOUR;
  }

  // ---------------------------------------------------------------- a whole series

  lemma StartNearWallClock(d: SeriesDef, z: Zone, i: int)
    requires ValidWindow(d)
    ensures NaiveStart(d, i) - DAY < OccurrenceAt(d, z, i).start < NaiveStart(d, i) + DAY
    ensures OccurrenceAt(d, z, i).start < OccurrenceAt(d, z, i).end < NaiveStart(d, i) + 2 * DAY
  {
    MaterializedWellOrdered(DateAt(d, i), NaiveStart(d, i), NaiveEnd(d, i), d.localStart, z);
    MaterializedNearWallClock(DateAt(d, i), NaiveStart(d, i), NaiveEnd(d, i), d.localStart, z);
    ReadingNearWallClock(z, NaiveStart(d, i));
  }

  lemma WeeksApart(d: SeriesDef, i: int, j: int)
    requires i < j
    ensures NaiveStart(d, i) + WEEK <= NaiveStart(d, j)
  {
    assert NaiveStart(d, j) - NaiveStart(d, i) == (j - i) * 604_800_000_000;
  }

  // Weekly occurrences follow each other in UTC without touching, by at least four days.
  lemma OccurrencesInOrder(d: SeriesDef, z: Zone, i: int, j: int)
    requires ValidWindow(d) && i < j
    ensures OccurrenceAt(d, z, i).end + 4 * DAY < OccurrenceAt(d, z, j).start
    ensures OccurrenceAt(d, z, i).start < OccurrenceAt(d, z, j).start
    ensures !OccurrenceAt(d, z, i).Span().Overlaps(OccurrenceAt(d, z, j).Span())
  {
    StartNearWallClock(d, z, i);
    StartNearWallClock(d, z, j);
    WeeksApart(d, i, j);
  }

  // Where the clocks never change from UTC, an occurrence is its wall-clock reading.
  lemma OccurrenceInUtc(d: SeriesDef, z: Zone, i: int)
    requires z == Rules(0, [])
    ensures OccurrenceAt(d, z, i).start == NaiveStart(d, i) && OccurrenceAt(d, z, i).end == NaiveEnd(d, i)
  {
    assert ToLocal(z, ToUtc(z, NaiveStart(d, i), First)) == NaiveStart(d, i);
    MaterializedAsPlaced(DateAt(d, i), NaiveStart(d, i), NaiveEnd(d, i), d.localStart, z);
  }

  lemma FirstInUtc(d: SeriesDef, z: Zone, os: seq<Occurrence>)
    requires z == Rules(0, []) && 0 < d.count && os == Occurrences(d, z)
    ensures os[0].date == d.startDate && os[0].start == d.startDate + d.localStart && os[0].end == d.startDate + d.localEnd
  {
    OccurrenceInUtc(d, z, 0);
  }

  ghost predicate InOrder(os: seq<Occurrence>) {
    forall i, j | 0 <= i < j < |os| :: os[i].start < os[j].start
  }

  ghost predicate Dated(d: SeriesDef, os: seq<Occurrence>) {
    |os| == d.count && forall i | 0 <= i < |os| :: os[i].date == DateAt(d, i)
  }

  // Whatever the zone rules, an expansion has the series' dates, in order and in order of their instants too.
  lemma ExpansionInOrder(d: SeriesDef, z: Zone)
    requires ValidWindow(d) && 0 <= d.count
    ensures InOrder(Occurrences(d, z)) && Dated(d, Occurrences(d, z))
  {
    forall i, j | 0 <= i < j < d.count ensures Occurrences(d, z)[i].start < Occurrences(d, z)[j].start {
      OccurrencesInOrder(d, z, i, j);
    }
  }

  ghost predicate SpansDisjoint(os: seq<Occurrence>) {
    && (forall i | 0 <= i < |os| :: os[i].Span().NonEmpty())
    && (forall i, j | 0 <= i < |os| && 0 <= j < |os| && i != j :: !os[i].Span().Overlaps(os[j].Span()))
  }

  lemma ExpansionDisjoint(d: SeriesDef, z: Zone)
    requires ValidWindow(d) && 0 <= d.count
    ensures SpansDisjoint(Occurrences(d, z))
  {
    var os := Occurrences(d, z);
    forall i | 0 <= i < |os| ensures os[i].Span().NonEmpty() { OccurrenceWellOrdered(d, z, i); }
    forall i, j | 0 <= i < |os| && 0 <= j < |os| && i != j ensures !os[i].Span().Overlaps(os[j].Span()) {
      if i < j { OccurrencesInOrder(d, z, i, j); } else { OccurrencesInOrder(d, z, j, i); }
    }
  }

  // Some instant reads as this local time.
  ghost predicate Shown(z: Zone, local: int) {
    exists u :: ToLocal(z, u) == local
  }

  lemma ShownExactlyWhenExistent(z: Zone, local: int)
    ensures Shown(z, local) <==> !IsNonexistent(z, local)
    ensures Shown(z, local) ==> ToLocal(z, ToUtc(z, local, First)) == local
  {
    NonexistentExactlyWhenNoInstant(z, local);
  }

  // It falls on this date and starts at the fold-0 reading of this local time, whether or not the clocks skip it. It
  // ends at the reading of that local time, or, where they skip its start, lasts as long as asked for.
  ghost predicate FallsOn(date: int, start: int, end: int, z: Zone, o: Occurrence) {
    && o.date == date && o.start == ToUtc(z, start, First)
    && (Shown(z, start) ==> o.end == ToUtc(z, end, First))
    && (!Shown(z, start) ==> o.end - o.start == end - start)
  }

  // Occurrence i falls i times seven days after the first date, at the series' own times.
  ghost predicate IsWeekly(d: SeriesDef, z: Zone, i: int, o: Occurrence) {
    forall date, start, end |
      date == d.startDate + i * (7 * 24 * 3_600_000_000) && start == date + d.localStart && end == date + d.localEnd ::
      FallsOn(date, start, end, z, o)
  }

  lemma FallsOnExactly(date: int, start: int, end: int, z: Zone, o: Occurrence)
    requires o.date == date && o.start == ToUtc(z, start, First)
    requires !IsNonexistent(z, start) ==> o.end == ToUtc(z, end, First)
    requires IsNonexistent(z, start) ==> o.end - o.start == end - start
    ensures FallsOn(date, start, end, z, o)
  {
    ShownExactlyWhenExistent(z, start);
  }

  lemma MaterializedEnd(date: int, start: int, end: int, requested: int, z: Zone)
    requires !IsNonexistent(z, start)
    ensures MaterializeOccurrence(date, start, end, requested, z).end == ToUtc(z, end, First)
  {
    MaterializedAsPlaced(date, start, end, requested, z);
  }

  lemma PlacedFallsOn(date: int, start: int, end: int, requested: int, z: Zone, o: Occurrence)
    requires start < end < start + DAY && o == MaterializeOccurrence(date, start, end, requested, z)
    ensures FallsOn(date, start, end, z, o)
  {
    MaterializedWellOrdered(date, start, end, requested, z);
    if IsNonexistent(z, start) {
      MaterializedDuration(date, start, end, requested, z);
    } else {
      MaterializedEnd(date, start, end, requested, z);
    }
    FallsOnExactly(date, start, end, z, o);
  }

  lemma OccurrenceFallsOn(d: SeriesDef, z: Zone, i: int, date: int, start: int, end: int)
    requires ValidWindow(d) && date == DateAt(d, i) && start == NaiveStart(d, i) && end == NaiveEnd(d, i)
    ensures FallsOn(date, start, end, z, OccurrenceAt(d, z, i))
  {
    PlacedFallsOn(date, start, end, d.localStart, z, OccurrenceAt(d, z, i));
  }

  lemma OccurrenceAtIsWeekly(d: SeriesDef, z: Zone, i: int)
    requires ValidWindow(d)
    ensures IsWeekly(d, z, i, OccurrenceAt(d, z, i))
  {
    forall date, start, end |
      date == d.startDate + i * (7 * 24 * 3_600_000_000) && start == date + d.localStart && end == date + d.localEnd
      ensures FallsOn(date, start, end, z, OccurrenceAt(d, z, i))
    {
      OccurrenceFallsOn(d, z, i, date, start, end);
    }
  }

  lemma OccurrencesAreWeekly(d: SeriesDef, z: Zone)
    requires ValidWindow(d) && 0 <= d.count
    ensures |Occurrences(d, z)| == d.count
    ensures forall i | 0 <= i < d.count :: IsWeekly(d, z, i, Occurrences(d, z)[i])
  {
    forall i | 0 <= i < d.count ensures IsWeekly(d, z, i, Occurrences(d, z)[i]) { OccurrenceAtIsWeekly(d, z, i); }
  }

  // So on every date the clock shows the series' own time when an occurrence starts, and when it ends, wherever the
  // clock shows those times at all.
  lemma ClockShowsItsStart(date: int, start: int, end: int, z: Zone, o: Occurrence)
    requires FallsOn(date, start, end, z, o) && Shown(z, start)
    ensures ToLocal(z, o.start) == start
  {
    ShownExactlyWhenExistent(z, start);
  }

  lemma ClockShowsItsEnd(date: int, start: int, end: int, z: Zone, o: Occurrence)
    requires FallsOn(date, start, end, z, o) && Shown(z, start) && Shown(z, end)
    ensures ToLocal(z, o.end) == end
  {
    ShownExactlyWhenExistent(z, end);
  }

  function Distance(a: int, b: int): (r: nat)
    ensures r == 0 <==> a == b
  {
    if a <= b then b - a else a - b
  }

  // Under any two sets of zone rules, the same occurrence moves by less than 48 hours, and every other one is
  // more than 120 hours away.
  lemma RulesMoveOccurrencesLittle(d: SeriesDef, before: Zone, after: Zone, k: int, j: int)
    requires ValidWindow(d)
    ensures Distance(OccurrenceAt(d, before, k).start, OccurrenceAt(d, after, k).start) < 2 * DAY
    ensures j != k ==> Distance(OccurrenceAt(d, before, k).start, OccurrenceAt(d, after, j).start) > 5 * DAY
  {
    StartNearWallClock(d, before, k);
    StartNearWallClock(d, after, k);
    StartNearWallClock(d, after, j);
    if j < k { WeeksApart(d, j, k); }
    if k < j { WeeksApart(d, k, j); }
  }
}
