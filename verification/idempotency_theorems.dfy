/** What the idempotency protocol guarantees, over every run of requests, crashes and cleanups. */
module IdempotencyTheorems {
  import opened Tables
  import opened Idempotency

  // ---------------------------------------------------------------- runs

  // A recurring confirm's last update finds its own row, or none.
  predicate FinishesOwnRow(w: World, e: Event) {
    e.Finish? && e.p in w.executing ==> FinishesItsOwn(w, e.p)
  }

  ghost predicate Possible(w: World, es: seq<Event>)
    decreases |es|
  {
    es == [] || (Enabled(w, es[0]) && FinishesOwnRow(w, es[0]) && Possible(Step(w, es[0]), es[1..]))
  }

  function After(w: World, es: seq<Event>): World
    requires Possible(w, es)
    decreases |es|
  {
    if es == [] then w else After(Step(w, es[0]), es[1..])
  }

  // As it does when it comes within the retention period of its own claim.
  lemma PunctualFinishIsItsOwn(w: World, e: Event)
    requires Inv(w) && Enabled(w, e) && e.Finish? && e.at <= w.executing[e.p].claimedAt + RETENTION
    ensures FinishesOwnRow(w, e)
  {
    var x := w.executing[e.p];
    ClockKeepsInv(w, e.at);
    var k :| 0 <= k < |w.log| && w.log[k].kid == x.kid && w.log[k].owner == e.p && w.log[k].createdAt == x.claimedAt;
    RowIsLogged(w.(clock := e.at), k);
  }

  lemma StepKeepsInv(w: World, e: Event)
    requires Inv(w) && Enabled(w, e) && FinishesOwnRow(w, e)
    ensures Inv(Step(w, e))
  {
    var v := w.(clock := e.at);
    ClockKeepsInv(w, e.at);
    match e
    case Write(_, _, _, _, _, _) => WriteKeepsInv(v, e);
    case Record(_, _, _) => RecordKeepsInv(v, e);
    case Claim(_, _, _, _, _, _) => ClaimKeepsInv(v, e);
    case Occurrence(_, _, _) => OccurrenceKeepsInv(v, e);
    case Finish(_, _, _, _) => FinishKeepsInv(v, e);
    case Crash(p, _) => CrashKeepsInv(v, p);
    case Cleanup(_) => CleanupKeepsInv(v);
  }

  lemma {:induction false} RunKeepsInv(w: World, es: seq<Event>)
    requires Inv(w) && Possible(w, es)
    ensures Inv(After(w, es))
    decreases |es|
  {
    if es != [] {
      StepKeepsInv(w, es[0]);
      RunKeepsInv(Step(w, es[0]), es[1..]);
    }
  }

  ghost predicate Reachable(w: World) {
    exists start, es :: Fresh(start) && Possible(start, es) && After(start, es) == w
  }

  lemma ReachableHoldsInv(w: World)
    requires Reachable(w)
    ensures Inv(w)
  {
    var start, es :| Fresh(start) && Possible(start, es) && After(start, es) == w;
    FreshHoldsInv(start);
    RunKeepsInv(start, es);
  }

  lemma {:induction false} RunExtends(w: World, es: seq<Event>, e: Event)
    requires Possible(w, es) && Enabled(After(w, es), e) && FinishesOwnRow(After(w, es), e)
    ensures Possible(w, es + [e]) && After(w, es + [e]) == Step(After(w, es), e)
    decreases |es|
  {
    if es == [] {
      assert es + [e] == [e];
      assert [e][1..] == [];
    } else {
      RunExtends(Step(w, es[0]), es[1..], e);
      assert (es + [e])[1..] == es[1..] + [e];
    }
  }

  lemma ReachableStep(w: World, e: Event)
    requires Reachable(w) && Enabled(w, e) && FinishesOwnRow(w, e)
    ensures Reachable(Step(w, e))
  {
    var start, es :| Fresh(start) && Possible(start, es) && After(start, es) == w;
    RunExtends(start, es, e);
  }

  lemma {:induction false} ReachableAfter(w: World, es: seq<Event>)
    requires Reachable(w) && Possible(w, es)
    ensures Reachable(After(w, es))
    decreases |es|
  {
    if es != [] {
      ReachableStep(w, es[0]);
      ReachableAfter(Step(w, es[0]), es[1..]);
    }
  }

  // ---------------------------------------------------------------- at most one write

  predicate Unexpired(w: World, c: Commit) {
    w.clock <= c.claimedAt + RETENTION
  }

  // Across retries, 503s, crashes, lost responses and concurrent replays: two commits under one key, of which
  // neither came after the retention period of the other's claim, were made by one and the same request; and a
  // one-transaction request commits once. So occurrences of one key come from at most one execution too.
  lemma CommitsOfOneRetention(w: World, j: nat, k: nat)
    requires Reachable(w) && j < |w.commits| && k < |w.commits| && w.commits[j].kid == w.commits[k].kid
    requires w.commits[k].at <= w.commits[j].claimedAt + RETENTION && w.commits[j].at <= w.commits[k].claimedAt + RETENTION
    ensures w.commits[j].owner == w.commits[k].owner && w.commits[j].claimedAt == w.commits[k].claimedAt
    ensures !w.commits[j].ofSeries && !w.commits[k].ofSeries ==> j == k
  {
    ReachableHoldsInv(w);
    var c, d := w.commits[j], w.commits[k];
    var a :| 0 <= a < |w.log| && w.log[a].kid == c.kid && w.log[a].owner == c.owner && w.log[a].createdAt == c.claimedAt;
    var b :| 0 <= b < |w.log| && w.log[b].kid == d.kid && w.log[b].owner == d.owner && w.log[b].createdAt == d.claimedAt;
    assert a == b;
  }

  predicate Records(row: KeyRow, c: Commit) {
    row == KeyRow(c.body, c.claimedAt, c.owner, Some(Written(c.receipt)))
  }

  // While the retention of a committed write lasts, its key's row holds exactly its response.
  lemma CommittedWriteIsRecorded(w: World, k: nat)
    requires Reachable(w) && k < |w.commits| && !w.commits[k].ofSeries && Unexpired(w, w.commits[k])
    ensures w.commits[k].kid in w.rows && Records(w.rows[w.commits[k].kid], w.commits[k])
  {
    ReachableHoldsInv(w);
    var c := w.commits[k];
    var a :| 0 <= a < |w.log| && w.log[a].kid == c.kid && w.log[a].owner == c.owner && w.log[a].createdAt == c.claimedAt;
    RowIsLogged(w, a);
  }

  // And a row that holds a write's response holds it for a write that was committed.
  lemma RecordedWriteIsCommitted(w: World, kid: KeyId, receipt: nat)
    requires Inv(w) && kid in w.rows && w.rows[kid].response == Some(Written(receipt))
    ensures exists k | 0 <= k < |w.commits| :: !w.commits[k].ofSeries && w.commits[k].kid == kid && Records(w.rows[kid], w.commits[k])
  {
    var p := w.rows[kid].owner;
    assert p in w.answers && w.answers[p].response.Written?;
    var k :| 0 <= k < |w.commits| && w.commits[k].owner == p && !w.commits[k].ofSeries;
    SameClaim(w, kid, k);
  }

  lemma SameClaim(w: World, kid: KeyId, k: nat)
    requires LogInv(w) && CommitInv(w) && kid in w.rows && k < |w.commits| && w.commits[k].owner == w.rows[kid].owner
    ensures w.commits[k].kid == kid && w.commits[k].claimedAt == w.rows[kid].createdAt
  {
    var c, row := w.commits[k], w.rows[kid];
    var a :| 0 <= a < |w.log| && w.log[a].kid == c.kid && w.log[a].owner == c.owner && w.log[a].createdAt == c.claimedAt;
    var b :| 0 <= b < |w.log| && w.log[b].kid == kid && w.log[b].owner == row.owner && w.log[b].createdAt == row.createdAt;
    assert a == b;
  }

  ghost predicate WriteCommitted(w: World, kid: KeyId) {
    exists k | 0 <= k < |w.commits| :: !w.commits[k].ofSeries && w.commits[k].kid == kid && Unexpired(w, w.commits[k])
  }

  // For a key whose row is not past its retention: a write is committed exactly when the row holds a write's response.
  lemma CommittedExactlyWhenRecorded(w: World, kid: KeyId)
    requires Reachable(w) && (kid in w.rows ==> w.clock <= w.rows[kid].createdAt + RETENTION)
    ensures WriteCommitted(w, kid) <==> kid in w.rows && w.rows[kid].response.Some? && w.rows[kid].response.value.Written?
  {
    ReachableHoldsInv(w);
    if WriteCommitted(w, kid) {
      var k :| 0 <= k < |w.commits| && !w.commits[k].ofSeries && w.commits[k].kid == kid && Unexpired(w, w.commits[k]);
      CommittedWriteIsRecorded(w, k);
    }
    if kid in w.rows && w.rows[kid].response.Some? && w.rows[kid].response.value.Written? {
      RecordedWriteIsCommitted(w, kid, w.rows[kid].response.value.receipt);
    }
  }

  // ---------------------------------------------------------------- replays

  predicate Asks(e: Event, kid: KeyId) {
    (e.Write? && e.kid == kid && !e.outcome.Contended?) || (e.Claim? && e.kid == kid && !e.contended)
  }

  // Whatever a request was told as its final outcome is what its row records.
  lemma OutcomeIsRecorded(w: World, e: Event)
    requires Reachable(w) && Enabled(w, e) && FinishesOwnRow(w, e) && ReplyTo(w, e).Replied? && !ReplyTo(w, e).replayed
    ensures e.p in Step(w, e).answers && Step(w, e).answers[e.p].response == ReplyTo(w, e).response
  {}

  // Once a request has been answered, every repetition within the retention period is told that, whatever happens in
  // between.
  lemma AnswerIsRepeated(w: World, k: nat, es: seq<Event>, again: Event)
    requires Reachable(w) && k < |w.log| && w.log[k].owner in w.answers
    requires Possible(w, es) && Enabled(After(w, es), again) && After(w, es).clock <= w.log[k].createdAt + RETENTION
    requires Asks(again, w.log[k].kid) && again.body == w.answers[w.log[k].owner].body
    ensures ReplyTo(After(w, es), again) == Replied(w.answers[w.log[k].owner].response, true)
  {
    var a := w.answers[w.log[k].owner];
    ReachableHoldsInv(w);
    ClockAdvances(w, es);
    AnswerOfOwner(w, k);
    AnswersStay(w, es, k, w.log[k].kid, a.body, a.response);
    ReachableAfter(w, es);
    ReplaysAreVerbatim(After(w, es), k, again);
  }

  // So it is told the same as the request was.
  lemma OutcomeIsRepeated(w: World, e: Event, es: seq<Event>, again: Event, k: nat)
    requires Reachable(w) && Enabled(w, e) && FinishesOwnRow(w, e) && ReplyTo(w, e).Replied? && !ReplyTo(w, e).replayed
    requires k < |Step(w, e).log| && Step(w, e).log[k].owner == e.p
    requires Possible(Step(w, e), es) && Enabled(After(Step(w, e), es), again)
    requires After(Step(w, e), es).clock <= Step(w, e).log[k].createdAt + RETENTION
    requires e.p in Step(w, e).answers && Asks(again, Step(w, e).log[k].kid) && again.body == Step(w, e).answers[e.p].body
    ensures ReplyTo(After(Step(w, e), es), again) == Replied(ReplyTo(w, e).response, true)
  {
    ReachableStep(w, e);
    OutcomeIsRecorded(w, e);
    AnswerIsRepeated(Step(w, e), k, es, again);
  }

  // A request's answer is under the key it inserted.
  lemma AnswerOfOwner(w: World, k: nat)
    requires Inv(w) && k < |w.log| && w.log[k].owner in w.answers && w.clock <= w.log[k].createdAt + RETENTION
    ensures w.answers[w.log[k].owner].kid == w.log[k].kid
  {
    RowIsLogged(w, k);
  }

  lemma {:induction false} ClockAdvances(w: World, es: seq<Event>)
    requires Possible(w, es)
    ensures w.clock <= After(w, es).clock
    decreases |es|
  {
    if es != [] { ClockAdvances(Step(w, es[0]), es[1..]); }
  }

  // The event commits, and its commit is not acknowledged.
  predicate LosesAck(w: World, e: Event)
    requires Enabled(w, e)
  {
    match e
    case Write(_, kid, _, _, outcome, _) => outcome.LosesAck? && kid !in w.rows
    case Record(p, acked, _) => !acked && w.recording[p].kid !in w.rows
    case Claim(_, kid, _, contended, acked, _) => !acked && !contended && kid !in w.rows
    case Finish(_, _, acked, _) => !acked
    case _ => false
  }

  ghost predicate LeavesNothing(w: World, v: World) {
    v.rows == w.rows && v.commits == w.commits && v.log == w.log && v.answers == w.answers
  }

  // Whatever request is told of a failure, on either kind of endpoint, the step that was told so has left nothing
  // behind, no key, no write and no answer, unless it committed and the acknowledgment was lost. Nor has a write that
  // died before its commit.
  lemma FailuresLeaveNothing(w: World, e: Event)
    requires Reachable(w) && Enabled(w, e)
    requires ReplyTo(w, e).Failed? || (e.Write? && ReplyTo(w, e).Silence?)
    ensures LeavesNothing(w, Step(w, e)) <==> !LosesAck(w, e)
  {
    ReachableHoldsInv(w);
    if LosesAck(w, e) { LostStepsShow(w, e); } else { OtherFailuresLeaveNothing(w, e); }
  }

  lemma OtherFailuresLeaveNothing(w: World, e: Event)
    requires Enabled(w, e) && !LosesAck(w, e)
    requires ReplyTo(w, e).Failed? || (e.Write? && ReplyTo(w, e).Silence?)
    ensures LeavesNothing(w, Step(w, e))
  {}

  lemma LostStepsShow(w: World, e: Event)
    requires ProcessInv(w) && Enabled(w, e) && LosesAck(w, e)
    ensures !LeavesNothing(w, Step(w, e)) && ReplyTo(w, e) == Failed(InternalError)
  {
    if e.Finish? {
      assert e.p in Step(w, e).answers && e.p !in w.answers;
    } else {
      assert |Step(w, e).log| == |w.log| + 1;
    }
  }

  // Its request, told of an internal error, finds what was committed when it is repeated within the retention period,
  // whatever happened in between: a write its own receipt, a conflict the same conflict, a confirm its report.
  lemma LostAcknowledgmentIsReplayed(w: World, e: Event, es: seq<Event>, again: Event, k: nat)
    requires Reachable(w) && Enabled(w, e) && FinishesOwnRow(w, e) && LosesAck(w, e) && !e.Claim?
    requires k < |Step(w, e).log| && Step(w, e).log[k].owner == e.p
    requires Possible(Step(w, e), es) && Enabled(After(Step(w, e), es), again)
    requires After(Step(w, e), es).clock <= Step(w, e).log[k].createdAt + RETENTION
    requires e.p in Step(w, e).answers && Asks(again, Step(w, e).log[k].kid) && again.body == Step(w, e).answers[e.p].body
    ensures ReplyTo(w, e) == Failed(InternalError)
    ensures ReplyTo(After(Step(w, e), es), again) == Replied(AnswerOf(w, e), true)
  {
    ReachableStep(w, e);
    AnswerIsRepeated(Step(w, e), k, es, again);
  }

  // What a step answers its request with, whether or not the request hears of it.
  function AnswerOf(w: World, e: Event): Response
    requires Enabled(w, e) && LosesAck(w, e) && !e.Claim?
  {
    match e
    case Write(_, _, _, _, outcome, _) => Written(outcome.receipt)
    case Record(p, _, _) => Conflict(w.recording[p].code)
    case Finish(_, report, _, _) => SeriesReport(report)
  }

  // The k-th insertion was made by a request that was answered this.
  ghost predicate AnsweredAt(w: World, k: nat, kid: KeyId, body: Body, response: Response) {
    && k < |w.log| && w.log[k].kid == kid
    && w.log[k].owner in w.answers && w.answers[w.log[k].owner] == Answer(kid, body, response)
  }

  lemma AnswerStays(w: World, e: Event, k: nat, kid: KeyId, body: Body, response: Response)
    requires ProcessInv(w) && Enabled(w, e) && AnsweredAt(w, k, kid, body, response)
    ensures AnsweredAt(Step(w, e), k, kid, body, response) && Step(w, e).log[k] == w.log[k]
  {}

  // Insertions are remembered, and so are the answers of the requests that made them.
  lemma {:induction false} AnswersStay(w: World, es: seq<Event>, k: nat, kid: KeyId, body: Body, response: Response)
    requires Inv(w) && Possible(w, es) && AnsweredAt(w, k, kid, body, response)
    ensures AnsweredAt(After(w, es), k, kid, body, response) && After(w, es).log[k] == w.log[k]
    decreases |es|
  {
    if es != [] {
      StepKeepsInv(w, es[0]);
      AnswerStays(w, es[0], k, kid, body, response);
      AnswersStay(Step(w, es[0]), es[1..], k, kid, body, response);
    }
  }

  // While the retention of an answered request lasts, every later request under its key, on either kind of
  // endpoint, is told the same with the same body, and of a key conflict with another.
  lemma ReplaysAreVerbatim(w: World, k: nat, e: Event)
    requires Reachable(w) && k < |w.log| && w.log[k].owner in w.answers && w.clock <= w.log[k].createdAt + RETENTION
    requires Enabled(w, e) && Asks(e, w.log[k].kid)
    ensures var a := w.answers[w.log[k].owner];
      ReplyTo(w, e) == if e.body == a.body then Replied(a.response, true) else Failed(KeyConflict)
  {
    ReachableHoldsInv(w);
    RowIsLogged(w, k);
  }

  // Until it is answered, running or crashed, a recurring confirm's key answers request_in_progress. A
  // one-transaction endpoint given the same key and body fails its assertion instead.
  lemma UnansweredClaimIsInProgress(w: World, k: nat, e: Event)
    requires Reachable(w) && k < |w.log| && w.log[k].owner !in w.answers && w.clock <= w.log[k].createdAt + RETENTION
    requires Enabled(w, e) && Asks(e, w.log[k].kid)
    ensures e.kid in w.rows
    ensures e.Claim? ==> ReplyTo(w, e) == Failed(RequestInProgress)
    ensures e.Write? ==> ReplyTo(w, e) == Failed(if e.body == w.rows[e.kid].body then InternalError else KeyConflict)
  {
    ReachableHoldsInv(w);
    RowIsLogged(w, k);
  }

  // A one-transaction write fails that assertion exactly when its key belongs to a confirm that has not been
  // answered, and was given with the same body.
  lemma AssertionFailsExactlyWhen(w: World, e: Event)
    requires Reachable(w) && Enabled(w, e) && e.Write? && !e.outcome.Contended? && !e.outcome.Raises? && !e.outcome.LosesAck?
    ensures ReplyTo(w, e) == Failed(InternalError)
      <==> e.kid in w.rows && w.rows[e.kid].owner !in w.answers && w.rows[e.kid].body == e.body
  {
    ReachableHoldsInv(w);
  }

  // As in this run: a confirm claims its key, and a booking is asked for under the same key and with the same body.
  lemma ConfirmsKeyFailsWrite(start: World, kid: KeyId, body: Body) returns (w: World, e: Event)
    requires Fresh(start) && start.clock == 0
    ensures Possible(start, [Claim(0, kid, body, false, true, 0)]) && w == After(start, [Claim(0, kid, body, false, true, 0)])
    ensures e == Write(1, kid, body, 1, Commits(0), 1) && Enabled(w, e) && ReplyTo(w, e) == Failed(InternalError)
  {
    w, e := Step(start, Claim(0, kid, body, false, true, 0)), Write(1, kid, body, 1, Commits(0), 1);
    var es := [Claim(0, kid, body, false, true, 0)];
    assert es[1..] == [];
    assert Possible(Step(start, es[0]), es[1..]);
  }

  // ---------------------------------------------------------------- what the unguarded update costs

  // The final UPDATE leaves every row with its inserter's answer exactly when it finds its own row, no row, or a
  // row that says the same already.
  lemma FinishIsSafeExactlyWhenItsOwn(w: World, e: Event)
    requires Inv(w) && e.Finish? && e.p in w.executing
    ensures RowInv(FinishStep(w, e)) <==>
      FinishesItsOwn(w, e.p) || w.rows[w.executing[e.p].kid].response == Some(SeriesReport(e.report))
  {
    if FinishesItsOwn(w, e.p) {
      FinishKeepsRows(w, e);
    } else {
      var kid := w.executing[e.p].kid;
      assert FinishStep(w, e).rows[kid].response == Some(SeriesReport(e.report));
      if w.rows[kid].response == Some(SeriesReport(e.report)) { NoRowOwned(w, e.p); }
    }
  }

  lemma NoRowOwned(w: World, p: Pid)
    requires LogInv(w) && ProcessInv(w) && p in w.executing && !FinishesItsOwn(w, p)
    ensures forall kid | kid in w.rows :: w.rows[kid].owner != p
  {
    forall kid | kid in w.rows ensures w.rows[kid].owner != p {
      if w.rows[kid].owner == p { OwnedOnce(w, p, kid, w.executing[p].kid); }
    }
  }

  // A confirm outliving its key's retention can overwrite the response of a write committed since.
  lemma LateFinishOverwrites(start: World, kid: KeyId) returns (w: World)
    requires Fresh(start) && start.clock == 0
    ensures |w.commits| == 1 && w.commits[0].kid == kid && !w.commits[0].ofSeries && Unexpired(w, w.commits[0])
    ensures kid in w.rows && !Records(w.rows[kid], w.commits[0])
  {
    var w1 := Step(start, Claim(0, kid, 5, false, true, 0));
    var w2 := Step(w1, Cleanup(RETENTION + 1));
    assert kid !in w2.rows;
    var w3 := Step(w2, Write(1, kid, 6, RETENTION + 2, Commits(7), RETENTION + 2));
    w := Step(w3, Finish(0, 8, true, RETENTION + 3));
  }

  // ---------------------------------------------------------------- in requests and replies alone

  const DAY_LONG := 24 * 3_600_000_000

  // The cleanup deletes exactly the rows whose key was claimed more than 24 hours ago, answered or not.
  lemma CleanupInColumns(w: World, at: Instant, kid: KeyId)
    ensures var v := CleanupStep(w, at);
      && (kid in v.rows <==> kid in w.rows && at - DAY_LONG <= w.rows[kid].createdAt)
      && (kid in v.rows ==> v.rows[kid] == w.rows[kid])
      && v == w.(rows := v.rows)
  {}

  // A write that succeeds is told so, committed once, and from then on, for 24 hours from its claim, every request under
  // its key is told the same, on either kind of endpoint, with the same body, and of a key conflict with another.
  lemma WriteIsRepeated(w: World, e: Event, es: seq<Event>, again: Event)
    requires Reachable(w) && Enabled(w, e) && e.Write? && e.outcome.Commits? && e.kid !in w.rows
    requires Possible(Step(w, e), es) && Enabled(After(Step(w, e), es), again) && Asks(again, e.kid)
    requires After(Step(w, e), es).clock <= e.claimedAt + DAY_LONG
    ensures ReplyTo(w, e) == Replied(Written(e.outcome.receipt), false)
    ensures Step(w, e).commits == w.commits + [Commit(e.kid, e.body, e.p, e.outcome.receipt, false, e.claimedAt, e.at)]
    ensures ReplyTo(After(Step(w, e), es), again)
      == if again.body == e.body then Replied(Written(e.outcome.receipt), true) else Failed(KeyConflict)
  {
    var v, k := Step(w, e), |w.log|;
    assert FinishesOwnRow(w, e);
    ReachableStep(w, e);
    ReachableHoldsInv(v);
    assert v.log[k] == Insertion(e.kid, e.p, e.claimedAt, e.at);
    AnswersStay(v, es, k, e.kid, e.body, Written(e.outcome.receipt));
    ReachableAfter(v, es);
    ReplaysAreVerbatim(After(v, es), k, again);
  }

  // A request that comes while another is at work under its key is told so and changes nothing; one whose write is
  // rolled back is told 503 or 500, and changes nothing; one that is rolled back for a conflict is told when that is
  // recorded.
  lemma RefusalsInColumns(w: World, e: Event)
    requires Enabled(w, e) && e.Write?
    ensures e.outcome.Contended? ==> ReplyTo(w, e) == Failed(RequestInProgress) && LeavesNothing(w, Step(w, e))
    ensures e.kid !in w.rows && e.outcome.Unavailable? ==> ReplyTo(w, e) == Failed(ServiceUnavailable) && LeavesNothing(w, Step(w, e))
    ensures e.kid !in w.rows && e.outcome.Raises? ==> ReplyTo(w, e) == Failed(InternalError) && LeavesNothing(w, Step(w, e))
    ensures e.kid !in w.rows && e.outcome.Conflicts? ==>
      && LeavesNothing(w, Step(w, e)) && e.p in Step(w, e).recording
      && Step(w, e).recording[e.p] == Pending(e.kid, e.body, e.outcome.code)
  {}

  // A conflict is recorded with its own code, for its own key and body, unless somebody has answered under the key
  // meanwhile.
  lemma RecordInColumns(w: World, p: Pid, at: Instant)
    requires Enabled(w, Record(p, true, at))
    ensures var todo, v := w.recording[p], Step(w, Record(p, true, at));
      && (todo.kid in w.rows ==> ReplyTo(w, Record(p, true, at)) == Failed(InternalError) && LeavesNothing(w, v))
      && (todo.kid !in w.rows ==>
            && ReplyTo(w, Record(p, true, at)) == Replied(Conflict(todo.code), false)
            && v.rows == w.rows[todo.kid := KeyRow(todo.body, at, p, Some(Conflict(todo.code)))] && v.commits == w.commits)
  {}

  // A recurring confirm claims its key for its own body, books under it, and completes the key's row, if there is one,
  // with its report.
  lemma ClaimInColumns(w: World, p: Pid, kid: KeyId, body: Body, at: Instant)
    requires Enabled(w, Claim(p, kid, body, false, true, at)) && kid !in w.rows
    ensures var v := Step(w, Claim(p, kid, body, false, true, at));
      && v.rows == w.rows[kid := KeyRow(body, at, p, None)] && v.commits == w.commits && v.answers == w.answers
      && p in v.executing && v.executing[p] == Execution(kid, body, at)
  {}

  lemma OccurrenceInColumns(w: World, p: Pid, receipt: nat, at: Instant)
    requires Enabled(w, Occurrence(p, receipt, at))
    ensures var x, v := w.executing[p], Step(w, Occurrence(p, receipt, at));
      && v.commits == w.commits + [Commit(x.kid, x.body, p, receipt, true, x.claimedAt, at)]
      && v.rows == w.rows && v.answers == w.answers && v.executing == w.executing
  {}

  lemma FinishInColumns(w: World, p: Pid, report: nat, at: Instant)
    requires Enabled(w, Finish(p, report, true, at))
    ensures var x, e := w.executing[p], Finish(p, report, true, at);
      && ReplyTo(w, e) == Replied(SeriesReport(report), false) && p !in Step(w, e).executing
      && Step(w, e).rows.Keys == w.rows.Keys
      && (forall kid | kid in w.rows ::
            Step(w, e).rows[kid] == if kid == x.kid then w.rows[kid].(response := Some(SeriesReport(report))) else w.rows[kid])
      && Step(w, e).answers == w.answers[p := Answer(x.kid, x.body, SeriesReport(report))] && Step(w, e).commits == w.commits
  {}
}
