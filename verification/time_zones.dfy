/**
 Local wall-clock time and UTC. A zone is an initial offset and a list of transitions; offsets are under
 24 hours and transitions at least a week apart. `fold` follows PEP 495, section "Guidelines for New tzinfo
 Implementations": in a gap fold 0 reads the old offset and fold 1 the new one, in an overlap fold 0 is the
 earlier instant and fold 1 the later.
 */
module TimeZones {
  import opened Tables

  // In microseconds.
  const SECOND := 1_000_000
  const HOUR := 3_600_000_000
  const DAY := 86_400_000_000
  const WEEK := 604_800_000_000

  // The offset that applies from `at` on.
  datatype Transition = Transition(at: Instant, offset: int)

  datatype ZoneRules = Rules(initial: int, transitions: seq<Transition>)

  predicate ValidZone(z: ZoneRules) {
    && -DAY < z.initial < DAY
    && (forall i | 0 <= i < |z.transitions| :: -DAY < z.transitions[i].offset < DAY)
    && (forall i | 0 < i < |z.transitions| :: z.transitions[i - 1].at + WEEK <= z.transitions[i].at)
  }

  type Zone = z: ZoneRules | ValidZone(z) witness Rules(0, [])

  // The offset after the first n transitions.
  function OffsetAfter(z: Zone, n: nat): int
    requires n <= |z.transitions|
  {
    if n == 0 then z.initial else z.transitions[n - 1].offset
  }

  function Max(a: int, b: int): int {
    if a >= b then a else b
  }

  function Min(a: int, b: int): int {
    if a <= b then a else b
  }

  datatype Fold = First | Second

  // The local time at which transition i takes effect for a reader with the given fold.
  function WallBoundary(z: Zone, i: nat, fold: Fold): int
    requires i < |z.transitions|
  {
    var before, after := OffsetAfter(z, i), OffsetAfter(z, i + 1);
    z.transitions[i].at + if fold == First then Max(before, after) else Min(before, after)
  }

  // Bisection: k boundaries lie at or before x.
  predicate SplitsLocal(z: Zone, x: int, fold: Fold, k: int) {
    && 0 <= k <= |z.transitions|
    && (k > 0 ==> WallBoundary(z, k - 1, fold) <= x)
    && (k < |z.transitions| ==> x < WallBoundary(z, k, fold))
  }

  predicate SplitsUtc(z: Zone, u: Instant, k: int) {
    && 0 <= k <= |z.transitions|
    && (k > 0 ==> z.transitions[k - 1].at <= u)
    && (k < |z.transitions| ==> u < z.transitions[k].at)
  }

  lemma OffsetBound(z: Zone, n: nat)
    requires n <= |z.transitions|
    ensures -DAY < OffsetAfter(z, n) < DAY
  {}

  lemma {:induction false} TransitionsAscend(z: Zone, i: nat, j: nat)
    requires i < j < |z.transitions|
    ensures z.transitions[i].at + WEEK <= z.transitions[j].at
  {
    if i + 1 < j { TransitionsAscend(z, i, j - 1); }
  }

  lemma BoundariesAscend(z: Zone, fold: Fold, i: nat, j: nat)
    requires i < j < |z.transitions|
    ensures WallBoundary(z, i, fold) + WEEK - 2 * DAY <= WallBoundary(z, j, fold)
  {
    OffsetBound(z, i); OffsetBound(z, i + 1); OffsetBound(z, j); OffsetBound(z, j + 1);
    TransitionsAscend(z, i, j);
  }

  lemma {:induction false} LocalSplitExists(z: Zone, x: int, fold: Fold, n: nat)
    requires n <= |z.transitions| && (n < |z.transitions| ==> x < WallBoundary(z, n, fold))
    ensures exists k | 0 <= k <= |z.transitions| :: SplitsLocal(z, x, fold, k)
  {
    if n == 0 || WallBoundary(z, n - 1, fold) <= x {
      assert SplitsLocal(z, x, fold, n);
    } else {
      LocalSplitExists(z, x, fold, n - 1);
    }
  }

  lemma {:induction false} UtcSplitExists(z: Zone, u: Instant, n: nat)
    requires n <= |z.transitions| && (n < |z.transitions| ==> u < z.transitions[n].at)
    ensures exists k | 0 <= k <= |z.transitions| :: SplitsUtc(z, u, k)
  {
    if n == 0 || z.transitions[n - 1].at <= u {
      assert SplitsUtc(z, u, n);
    } else {
      UtcSplitExists(z, u, n - 1);
    }
  }

  lemma LocalSplitUnique(z: Zone, x: int, fold: Fold, j: int, k: int)
    requires SplitsLocal(z, x, fold, j) && SplitsLocal(z, x, fold, k)
    ensures j == k
  {
    if j + 1 < k { BoundariesAscend(z, fold, j, k - 1); }
    if k + 1 < j { BoundariesAscend(z, fold, k, j - 1); }
  }

  lemma UtcSplitUnique(z: Zone, u: Instant, j: int, k: int)
    requires SplitsUtc(z, u, j) && SplitsUtc(z, u, k)
    ensures j == k
  {
    if j + 1 < k { TransitionsAscend(z, j, k - 1); }
    if k + 1 < j { TransitionsAscend(z, k, j - 1); }
  }

  lemma OneLocalSplit(z: Zone, x: int, fold: Fold)
    ensures exists k | 0 <= k <= |z.transitions| :: SplitsLocal(z, x, fold, k)
    ensures forall j, k | SplitsLocal(z, x, fold, j) && SplitsLocal(z, x, fold, k) :: j == k
  {
    LocalSplitExists(z, x, fold, |z.transitions|);
    forall j, k | SplitsLocal(z, x, fold, j) && SplitsLocal(z, x, fold, k) ensures j == k {
      LocalSplitUnique(z, x, fold, j, k);
    }
  }

  lemma OneUtcSplit(z: Zone, u: Instant)
    ensures exists k | 0 <= k <= |z.transitions| :: SplitsUtc(z, u, k)
    ensures forall j, k | SplitsUtc(z, u, j) && SplitsUtc(z, u, k) :: j == k
  {
    UtcSplitExists(z, u, |z.transitions|);
    forall j, k | SplitsUtc(z, u, j) && SplitsUtc(z, u, k) ensures j == k {
      UtcSplitUnique(z, u, j, k);
    }
  }

  function Index(z: Zone, local: int, fold: Fold): (k: nat)
    ensures SplitsLocal(z, local, fold, k)
  {
    OneLocalSplit(z, local, fold);
    var k :| 0 <= k <= |z.transitions| && SplitsLocal(z, local, fold, k);
    k
  }

  function UtcIndex(z: Zone, u: Instant): (k: nat)
    ensures SplitsUtc(z, u, k)
  {
    OneUtcSplit(z, u);
    var k :| 0 <= k <= |z.transitions| && SplitsUtc(z, u, k);
    k
  }

  function ToLocal(z: Zone, u: Instant): int {
    u + OffsetAfter(z, UtcIndex(z, u))
  }

  function ToUtc(z: Zone, local: int, fold: Fold): Instant {
    local - OffsetAfter(z, Index(z, local, fold))
  }

  // Round-trips the first reading through UTC.
  predicate IsNonexistent(z: Zone, local: int) {
    ToLocal(z, ToUtc(z, local, First)) != local
  }

  predicate IsAmbiguous(z: Zone, local: int) {
    !IsNonexistent(z, local) && ToUtc(z, local, First) != ToUtc(z, local, Second)
  }

  // A date is written as its local midnight; a local time is a date plus a time of day.
  function DateOf(local: int): int {
    local - TimeOfDay(local)
  }

  function TimeOfDay(local: int): int {
    local % 86_400_000_000
  }

  // The wall-clock time of `localDt` on `onDate`.
  function LocalToInstant(z: Zone, localDt: int, onDate: int): Instant {
    ToUtc(z, onDate + TimeOfDay(localDt), First)
  }

  // ---------------------------------------------------------------- preimages

  // The instant that reads as `local` after j transitions lies after exactly j transitions.
  ghost predicate ReadsAs(z: Zone, local: int, j: nat) {
    && j <= |z.transitions|
    && (j > 0 ==> z.transitions[j - 1].at <= local - OffsetAfter(z, j))
    && (j < |z.transitions| ==> local - OffsetAfter(z, j) < z.transitions[j].at)
  }

  // An instant reads as `local` exactly when it is one of the readings above.
  lemma PreimageIsReading(z: Zone, local: int, u: Instant)
    ensures ToLocal(z, u) == local <==> exists j | 0 <= j <= |z.transitions| :: ReadsAs(z, local, j) && u == local - OffsetAfter(z, j)
  {
    var k := UtcIndex(z, u);
    if ToLocal(z, u) == local { assert ReadsAs(z, local, k); }
    if j :| 0 <= j <= |z.transitions| && ReadsAs(z, local, j) && u == local - OffsetAfter(z, j) {
      UtcSplitUnique(z, u, UtcIndex(z, u), j);
    }
  }

  lemma FoldsClose(z: Zone, i: nat)
    requires i < |z.transitions|
    ensures WallBoundary(z, i, Second) <= WallBoundary(z, i, First) < WallBoundary(z, i, Second) + 2 * DAY
  {
    OffsetBound(z, i); OffsetBound(z, i + 1);
  }

  // The two folds are at most one transition apart.
  lemma FoldsAdjacent(z: Zone, local: int)
    ensures Index(z, local, First) <= Index(z, local, Second) <= Index(z, local, First) + 1
  {
    var k0, k1 := Index(z, local, First), Index(z, local, Second);
    if k1 < k0 {
      FoldsClose(z, k0 - 1);
      if k1 < k0 - 1 { BoundariesAscend(z, Second, k1, k0 - 1); }
    }
    if k0 + 1 < k1 {
      FoldsClose(z, k0);
      BoundariesAscend(z, Second, k0, k1 - 1);
    }
  }

  // Every reading lies between the first and the second.
  lemma ReadingsAreFolds(z: Zone, local: int, j: nat)
    requires ReadsAs(z, local, j)
    ensures Index(z, local, First) <= j <= Index(z, local, Second)
  {
    var k0, k1 := Index(z, local, First), Index(z, local, Second);
    if j + 1 < k0 { BoundariesAscend(z, First, j, k0 - 1); }
    assert j > 0 ==> WallBoundary(z, j - 1, Second) <= local;
    if k1 + 1 < j { BoundariesAscend(z, Second, k1, j - 1); }
  }

  // The second reading lies in the gap or overlap of the transition between the two.
  lemma Between(z: Zone, local: int)
    requires Index(z, local, First) != Index(z, local, Second)
    ensures var k := Index(z, local, First);
      && Index(z, local, Second) == k + 1 && k < |z.transitions|
      && WallBoundary(z, k, Second) <= local < WallBoundary(z, k, First)
      && OffsetAfter(z, k) != OffsetAfter(z, k + 1)
  {
    FoldsAdjacent(z, local);
  }

  lemma SameFoldIsReading(z: Zone, local: int)
    requires Index(z, local, First) == Index(z, local, Second)
    ensures ReadsAs(z, local, Index(z, local, First))
  {
    var k := Index(z, local, First);
    assert k < |z.transitions| ==> local < WallBoundary(z, k, Second);
  }

  lemma GapHasNoReading(z: Zone, local: int, j: nat)
    requires Index(z, local, First) != Index(z, local, Second)
    requires OffsetAfter(z, Index(z, local, First)) < OffsetAfter(z, Index(z, local, Second))
    ensures !ReadsAs(z, local, j)
  {
    Between(z, local);
    if ReadsAs(z, local, j) { ReadingsAreFolds(z, local, j); }
  }

  lemma OverlapHasTwoReadings(z: Zone, local: int)
    requires Index(z, local, First) != Index(z, local, Second)
    requires OffsetAfter(z, Index(z, local, First)) > OffsetAfter(z, Index(z, local, Second))
    ensures ReadsAs(z, local, Index(z, local, First)) && ReadsAs(z, local, Index(z, local, Second))
  {
    Between(z, local);
    var k := Index(z, local, First);
    OffsetBound(z, k); OffsetBound(z, k + 1);
    if k + 1 < |z.transitions| { assert z.transitions[k].at + WEEK <= z.transitions[k + 1].at; }
  }

  // ---------------------------------------------------------------- the detectors

  // The first reading reads back as `local` exactly when `local` is not in a gap.
  lemma FirstReadingReadsBack(z: Zone, local: int)
    ensures IsNonexistent(z, local) <==> OffsetAfter(z, Index(z, local, First)) < OffsetAfter(z, Index(z, local, Second))
    ensures !IsNonexistent(z, local) ==> ReadsAs(z, local, Index(z, local, First))
  {
    var k := Index(z, local, First);
    PreimageIsReading(z, local, ToUtc(z, local, First));
    if k == Index(z, local, Second) {
      SameFoldIsReading(z, local);
    } else if OffsetAfter(z, k) < OffsetAfter(z, Index(z, local, Second)) {
      forall j | 0 <= j <= |z.transitions| ensures !ReadsAs(z, local, j) { GapHasNoReading(z, local, j); }
    } else {
      Between(z, local);
      OverlapHasTwoReadings(z, local);
    }
  }

  // A local time is reported nonexistent exactly when no instant reads as it.
  lemma NonexistentExactlyWhenNoInstant(z: Zone, local: int)
    ensures IsNonexistent(z, local) <==> forall u :: ToLocal(z, u) != local
  {
    FirstReadingReadsBack(z, local);
    if IsNonexistent(z, local) {
      forall u ensures ToLocal(z, u) != local {
        PreimageIsReading(z, local, u);
        forall j | 0 <= j <= |z.transitions| ensures !ReadsAs(z, local, j) {
          GapHasNoReading(z, local, j);
        }
      }
    } else {
      assert ToLocal(z, ToUtc(z, local, First)) == local;
    }
  }

  lemma InstantIsFold(z: Zone, local: int, u: Instant)
    requires ToLocal(z, u) == local
    ensures u == ToUtc(z, local, First) || u == ToUtc(z, local, Second)
  {
    var j := UtcIndex(z, u);
    assert ReadsAs(z, local, j);
    ReadingsAreFolds(z, local, j);
    FoldsAdjacent(z, local);
  }

  // It is reported ambiguous exactly when two instants read as it: the first and the second reading, in that
  // order, and no other.
  lemma AmbiguousExactlyWhenTwoInstants(z: Zone, local: int)
    ensures IsAmbiguous(z, local) <==> exists u, v :: u != v && ToLocal(z, u) == local && ToLocal(z, v) == local
    ensures IsAmbiguous(z, local) ==>
      && ToUtc(z, local, First) < ToUtc(z, local, Second)
      && forall u :: ToLocal(z, u) == local <==> u == ToUtc(z, local, First) || u == ToUtc(z, local, Second)
  {
    FirstReadingReadsBack(z, local);
    if IsAmbiguous(z, local) {
      Between(z, local);
      OverlapHasTwoReadings(z, local);
      PreimageIsReading(z, local, ToUtc(z, local, First));
      PreimageIsReading(z, local, ToUtc(z, local, Second));
      forall u ensures ToLocal(z, u) == local <==> u == ToUtc(z, local, First) || u == ToUtc(z, local, Second) {
        if ToLocal(z, u) == local { InstantIsFold(z, local, u); }
      }
    }
    if u, v :| u != v && ToLocal(z, u) == local && ToLocal(z, v) == local {
      NonexistentExactlyWhenNoInstant(z, local);
      InstantIsFold(z, local, u);
      InstantIsFold(z, local, v);
    }
  }

  // Only `onDate` decides the date, whatever date `localDt` carries; on its own date, a local time keeps its reading.
  lemma OnDateIsAuthoritative(z: Zone, localDt: int, days: int, onDate: int)
    ensures LocalToInstant(z, localDt + days * 86_400_000_000, onDate) == LocalToInstant(z, localDt, onDate)
    ensures LocalToInstant(z, localDt, DateOf(localDt)) == ToUtc(z, localDt, First)
  {
    assert TimeOfDay(localDt + days * 86_400_000_000) == TimeOfDay(localDt);
  }

  // ---------------------------------------------------------------- in the transitions alone

  // The clock shows the offset of the last transition at or before the instant, or the initial one.
  lemma ClockFollowsTransitions(z: Zone, u: Instant)
    ensures (forall i | 0 <= i < |z.transitions| :: u < z.transitions[i].at) ==> ToLocal(z, u) == u + z.initial
    ensures forall i | 0 <= i < |z.transitions| ::
      z.transitions[i].at <= u && (i + 1 < |z.transitions| ==> u < z.transitions[i + 1].at) ==> ToLocal(z, u) == u + z.transitions[i].offset
  {
    if forall i | 0 <= i < |z.transitions| :: u < z.transitions[i].at { UtcSplitUnique(z, u, UtcIndex(z, u), 0); }
    forall i | 0 <= i < |z.transitions| && z.transitions[i].at <= u && (i + 1 < |z.transitions| ==> u < z.transitions[i + 1].at)
      ensures ToLocal(z, u) == u + z.transitions[i].offset
    {
      UtcSplitUnique(z, u, UtcIndex(z, u), i + 1);
    }
  }

  // A local time the clocks skip is read, with fold 0, by the offset that applied before the skip, and with fold 1 by
  // the one that applies after it.
  lemma SkippedTimeIsReadByFold(z: Zone, local: int)
    requires forall u :: ToLocal(z, u) != local
    ensures exists i | 0 <= i < |z.transitions| ::
      var before := if i == 0 then z.initial else z.transitions[i - 1].offset;
      && z.transitions[i].at + before <= local < z.transitions[i].at + z.transitions[i].offset
      && ToUtc(z, local, First) == local - before && ToUtc(z, local, Second) == local - z.transitions[i].offset
  {
    NonexistentExactlyWhenNoInstant(z, local);
    FirstReadingReadsBack(z, local);
    Between(z, local);
    var i := Index(z, local, First);
    assert OffsetAfter(z, i) == if i == 0 then z.initial else z.transitions[i - 1].offset;
  }
}
