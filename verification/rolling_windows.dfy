/** Which occurrences a rolling run attempts, and what a whole history of runs attempts. */
module RollingWindows {
  import opened Tables
  import opened TimeZones
  import opened Recurrence

  const MAX_ADVANCE_HORIZON := 31_536_000_000_000  // 365 days

  // CHECK constraints series_window_valid and recurring_series_occurrence_count_check.
  ghost predicate ValidSeries(d: SeriesDef) {
    ValidWindow(d) && 1 <= d.count <= MAX_SERIES_OCCURRENCES
  }

  predicate Due(o: Occurrence, through: int, cutoff: Instant) {
    o.date > through && o.start <= cutoff
  }

  // The positions, among the first n occurrences, of those a run attempts.
  function Selected(os: seq<Occurrence>, through: int, cutoff: Instant, n: nat): (todo: seq<nat>)
    requires n <= |os|
    ensures forall i | i in todo :: i < n
  {
    if n == 0 then []
    else Selected(os, through, cutoff, n - 1) + if Due(os[n - 1], through, cutoff) then [n - 1] else []
  }

  function LastDate(d: SeriesDef): int {
    DateAt(d, d.count - 1)
  }

  // Where a run that completes leaves the watermark: at the date of the last occurrence it attempted.
  function RolledThrough(d: SeriesDef, os: seq<Occurrence>, through: int, cutoff: Instant): int {
    var todo := Selected(os, through, cutoff, |os|);
    if through >= LastDate(d) || todo == [] then through else DateAt(d, todo[|todo| - 1])
  }

  // ---------------------------------------------------------------- one run

  // How many of the first n dates lie at or before t.
  function Passed(d: SeriesDef, t: int, n: nat): (k: nat)
    ensures k <= n
  {
    if n == 0 || DateAt(d, n - 1) <= t then n else Passed(d, t, n - 1)
  }

  // How many of the first n occurrences have come within the horizon.
  function Reached(os: seq<Occurrence>, cutoff: Instant, n: nat): (k: nat)
    requires n <= |os|
    ensures k <= n
  {
    if n == 0 || os[n - 1].start <= cutoff then n else Reached(os, cutoff, n - 1)
  }

  lemma {:induction false} PassedSplits(d: SeriesDef, t: int, n: nat, i: nat)
    requires i < n
    ensures DateAt(d, i) <= t <==> i < Passed(d, t, n)
  {
    if n > 0 && DateAt(d, n - 1) > t {
      if i < n - 1 { PassedSplits(d, t, n - 1, i); }
    }
  }

  lemma {:induction false} ReachedSplits(os: seq<Occurrence>, cutoff: Instant, n: nat, i: nat)
    requires InOrder(os) && i < n <= |os|
    ensures os[i].start <= cutoff <==> i < Reached(os, cutoff, n)
  {
    if os[n - 1].start > cutoff && i < n - 1 { ReachedSplits(os, cutoff, n - 1, i); }
  }

  // The positions from a up to b.
  function Block(a: nat, b: nat): seq<nat> {
    if a < b then seq(b - a, k requires 0 <= k => a + k) else []
  }

  lemma BlockJoins(a: nat, b: nat, c: nat)
    requires a <= b
    ensures Block(a, b) + Block(b, c) == Block(a, if b <= c then c else b)
  {}

  lemma BlockGrows(a: nat, n: nat)
    ensures Block(a, n + 1) == Block(a, n) + if a <= n then [n] else []
  {}

  lemma {:induction false} SelectedTo(os: seq<Occurrence>, through: int, cutoff: Instant, n: nat, lo: nat, hi: nat)
    requires n <= |os|
    requires forall i: nat | i < n :: os[i].date <= through <==> i < lo
    requires forall i: nat | i < n :: os[i].start <= cutoff <==> i < hi
    ensures Selected(os, through, cutoff, n) == Block(lo, if n <= hi then n else hi)
  {
    if n > 0 {
      SelectedTo(os, through, cutoff, n - 1, lo, hi);
      assert Due(os[n - 1], through, cutoff) <==> lo <= n - 1 < hi;
      if n <= hi { BlockGrows(lo, n - 1); }
    }
  }

  // The horizon filter selects one contiguous block: from the first date after the watermark, up to the last
  // occurrence within the horizon.
  lemma HorizonSelectsBlock(d: SeriesDef, os: seq<Occurrence>, through: int, cutoff: Instant)
    requires InOrder(os) && Dated(d, os)
    ensures Selected(os, through, cutoff, |os|) == Block(Passed(d, through, |os|), Reached(os, cutoff, |os|))
  {
    forall i: nat | i < |os|
      ensures os[i].date <= through <==> i < Passed(d, through, |os|)
      ensures os[i].start <= cutoff <==> i < Reached(os, cutoff, |os|)
    {
      PassedSplits(d, through, |os|, i);
      ReachedSplits(os, cutoff, |os|, i);
    }
    SelectedTo(os, through, cutoff, |os|, Passed(d, through, |os|), Reached(os, cutoff, |os|));
  }

  // A run moves the number of dates passed to exactly the end of its block, and never backwards.
  lemma RunAdvances(d: SeriesDef, os: seq<Occurrence>, through: int, cutoff: Instant)
    requires InOrder(os) && Dated(d, os) && 0 < d.count
    ensures var lo, hi, w := Passed(d, through, |os|), Reached(os, cutoff, |os|), RolledThrough(d, os, through, cutoff);
      && through <= w <= Max(through, LastDate(d))
      && Passed(d, w, |os|) == (if lo <= hi then hi else lo)
  {
    HorizonSelectsBlock(d, os, through, cutoff);
    var lo, hi := Passed(d, through, |os|), Reached(os, cutoff, |os|);
    PassedSplits(d, through, |os|, |os| - 1);
    if lo < hi {
      PassedSplits(d, through, |os|, hi - 1);
      PassedAt(d, hi - 1);
    }
  }

  lemma PassedAt(d: SeriesDef, i: nat)
    requires i < d.count
    ensures Passed(d, DateAt(d, i), d.count) == i + 1 && DateAt(d, i) <= LastDate(d)
  {
    var p := Passed(d, DateAt(d, i), d.count);
    PassedSplits(d, DateAt(d, i), d.count, i);
    if p < d.count { PassedSplits(d, DateAt(d, i), d.count, p); }
    PassedSplits(d, DateAt(d, i), d.count, p - 1);
  }

  // ---------------------------------------------------------------- a history of runs

  // Each run has its own horizon, and its own expansion under the zone rules installed at the time.
  datatype RollingRun = RollingRun(cutoff: Instant, occurrences: seq<Occurrence>)

  function RunUnder(d: SeriesDef, z: Zone, now: Instant): RollingRun
    requires 0 <= d.count
  {
    RollingRun(now + MAX_ADVANCE_HORIZON, Occurrences(d, z))
  }

  ghost predicate OfSeries(d: SeriesDef, run: RollingRun) {
    InOrder(run.occurrences) && Dated(d, run.occurrences)
  }

  ghost predicate AllOfSeries(d: SeriesDef, runs: seq<RollingRun>) {
    forall k | 0 <= k < |runs| :: OfSeries(d, runs[k])
  }

  // Whatever the clock and the zone rules, a run is one of those the history theorems are about.
  lemma EveryRunIsOfSeries(d: SeriesDef, z: Zone, now: Instant)
    requires ValidSeries(d)
    ensures OfSeries(d, RunUnder(d, z, now))
  {
    ExpansionInOrder(d, z);
  }

  function WatermarkAfter(d: SeriesDef, through: int, runs: seq<RollingRun>): int {
    if runs == [] then through
    else
      var last := runs[|runs| - 1];
      RolledThrough(d, last.occurrences, WatermarkAfter(d, through, runs[..|runs| - 1]), last.cutoff)
  }

  // The positions attempted over the whole history, in order.
  function AttemptedBy(d: SeriesDef, through: int, runs: seq<RollingRun>): seq<nat> {
    if runs == [] then []
    else
      var last, before := runs[|runs| - 1], runs[..|runs| - 1];
      AttemptedBy(d, through, before) +
      Selected(last.occurrences, WatermarkAfter(d, through, before), last.cutoff, |last.occurrences|)
  }

  // Over any uninterrupted runs, under any clock readings and zone rules: what is attempted is exactly the run
  // of occurrences after the initial watermark up to the final one, once each and in order, and the watermark
  // never moves back or past the last date.
  lemma {:induction false} EveryOccurrenceAttemptedOnce(d: SeriesDef, through: int, runs: seq<RollingRun>)
    requires ValidSeries(d) && AllOfSeries(d, runs)
    ensures var w := WatermarkAfter(d, through, runs);
      && AttemptedBy(d, through, runs) == Block(Passed(d, through, d.count), Passed(d, w, d.count))
      && Passed(d, through, d.count) <= Passed(d, w, d.count)
      && through <= w <= Max(through, LastDate(d))
  {
    if runs != [] {
      var last, before := runs[|runs| - 1], runs[..|runs| - 1];
      var w := WatermarkAfter(d, through, before);
      EveryOccurrenceAttemptedOnce(d, through, before);
      HorizonSelectsBlock(d, last.occurrences, w, last.cutoff);
      RunAdvances(d, last.occurrences, w, last.cutoff);
      BlockJoins(Passed(d, through, d.count), Passed(d, w, d.count), Reached(last.occurrences, last.cutoff, d.count));
    }
  }

  // The watermark passes everything that came within the horizon of some run.
  lemma {:induction false} WatermarkPassesReached(d: SeriesDef, through: int, runs: seq<RollingRun>, k: nat)
    requires ValidSeries(d) && AllOfSeries(d, runs) && k < |runs|
    ensures Reached(runs[k].occurrences, runs[k].cutoff, d.count) <= Passed(d, WatermarkAfter(d, through, runs), d.count)
  {
    var last, before := runs[|runs| - 1], runs[..|runs| - 1];
    RunAdvances(d, last.occurrences, WatermarkAfter(d, through, before), last.cutoff);
    if k < |before| { WatermarkPassesReached(d, through, before, k); }
  }

  // So nothing is skipped.
  lemma NoOccurrenceSkipped(d: SeriesDef, through: int, runs: seq<RollingRun>, k: nat, i: nat)
    requires ValidSeries(d) && AllOfSeries(d, runs) && k < |runs| && i < d.count
    requires Due(runs[k].occurrences[i], through, runs[k].cutoff)
    ensures i in AttemptedBy(d, through, runs)
  {
    EveryOccurrenceAttemptedOnce(d, through, runs);
    WatermarkPassesReached(d, through, runs, k);
    ReachedSplits(runs[k].occurrences, runs[k].cutoff, d.count, i);
    PassedSplits(d, through, d.count, i);
    var lo := Passed(d, through, d.count);
    assert Block(lo, Passed(d, WatermarkAfter(d, through, runs), d.count))[i - lo] == i;
  }
}
