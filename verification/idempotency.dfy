/**
 The idempotency protocol around every write. A request is identified by a Pid; a key belongs to a user. The
 protected write itself is not looked into: each request is told what it would do.
 */
module Idempotency {
  import opened Tables

  const RETENTION := 86_400_000_000  // 24 hours

  type Pid = nat

  // The fingerprint is taken to be injective, so a body stands for its own hash. The endpoint is not part of it.
  type Body = nat

  datatype KeyId = KeyId(user: Id, key: Id)

  datatype Response =
    | Written(receipt: nat)       // 2xx, with what the write returned
    | SeriesReport(report: nat)   // 207
    | Conflict(code: nat)         // a recordable 409 or 422

  // `response` is absent while the row is in_progress. `owner` tells apart the rows a key has had.
  datatype KeyRow = KeyRow(body: Body, createdAt: Instant, owner: Pid, response: Option<Response>)

  datatype Commit = Commit(kid: KeyId, body: Body, owner: Pid, receipt: nat, ofSeries: bool, claimedAt: Instant, at: Instant)

  datatype Insertion = Insertion(kid: KeyId, owner: Pid, createdAt: Instant, at: Instant)

  datatype Answer = Answer(kid: KeyId, body: Body, response: Response)

  // A request whose write was rolled back, on its way to record the conflict.
  datatype Pending = Pending(kid: KeyId, body: Body, code: nat)

  // A recurring confirm between its key claim and its final update.
  datatype Execution = Execution(kid: KeyId, body: Body, claimedAt: Instant)

  // The key table and the requests under way; `commits`, `log` and `answers` are history.
  datatype World = World(
    rows: map<KeyId, KeyRow>,
    recording: map<Pid, Pending>,
    executing: map<Pid, Execution>,
    commits: seq<Commit>,
    log: seq<Insertion>,
    answers: map<Pid, Answer>,
    seen: set<Pid>,
    clock: Instant)

  // What the transaction that claims the key and performs the write comes to, when no committed row is in its way.
  datatype TxOutcome =
    | Commits(receipt: nat)
    | Conflicts(code: nat)
    | Unavailable            // 503: rolled back
    | Contended              // the claim blocks on an uncommitted one
    | Raises                 // any other error: rolled back
    | Dies                   // the process or the connection goes before the commit
    | LosesAck(receipt: nat) // committed, but the connection goes before the server hears so: an error is raised
  {
    predicate Writes() {
      Commits? || LosesAck?
    }
  }

  // `acked` tells whether the server hears of the transaction's commit; if it does not, it raises an error.
  datatype Event =
    | Write(p: Pid, kid: KeyId, body: Body, claimedAt: Instant, outcome: TxOutcome, at: Instant)
    | Record(p: Pid, acked: bool, at: Instant)
    | Claim(p: Pid, kid: KeyId, body: Body, contended: bool, acked: bool, at: Instant)
    | Occurrence(p: Pid, receipt: nat, at: Instant)
    | Finish(p: Pid, report: nat, acked: bool, at: Instant)
    | Crash(p: Pid, at: Instant)
    | Cleanup(at: Instant)

  datatype ErrorCode = ServiceUnavailable | RequestInProgress | KeyConflict | InternalError

  datatype Reply =
    | Replied(response: Response, replayed: bool)
    | Failed(code: ErrorCode)
    | Silence

  // ---------------------------------------------------------------- the two replay functions

  // A committed row is in the way of a one-transaction write. An in_progress one, left by a recurring confirm
  // under the same key, trips the assertion there.
  function ReplayOrConflict(row: KeyRow, body: Body): Reply {
    if row.body != body then Failed(KeyConflict)
    else if row.response.None? then Failed(InternalError)
    else Replied(row.response.value, true)
  }

  function ReplayAllowingInProgress(row: KeyRow, body: Body): Reply {
    if row.response.None? then Failed(RequestInProgress)
    else if row.body != body then Failed(KeyConflict)
    else Replied(row.response.value, true)
  }

  // ---------------------------------------------------------------- steps

  function Inserted(w: World, kid: KeyId, row: KeyRow): World {
    w.(rows := w.rows[kid := row], log := w.log + [Insertion(kid, row.owner, row.createdAt, w.clock)])
  }

  // A completed row is inserted, by a one-transaction write or by the record of a conflict.
  function Answered(w: World, p: Pid, kid: KeyId, body: Body, createdAt: Instant, response: Response): World {
    Inserted(w, kid, KeyRow(body, createdAt, p, Some(response))).(answers := w.answers[p := Answer(kid, body, response)])
  }

  function WriteStep(w: World, e: Event): World
    requires e.Write?
  {
    var started := w.(seen := w.seen + {e.p});
    if e.outcome.Contended? || e.kid in w.rows then started
    else if e.outcome.Writes() then
      Answered(started, e.p, e.kid, e.body, e.claimedAt, Written(e.outcome.receipt))
        .(commits := w.commits + [Commit(e.kid, e.body, e.p, e.outcome.receipt, false, e.claimedAt, w.clock)])
    else if e.outcome.Conflicts? then started.(recording := w.recording[e.p := Pending(e.kid, e.body, e.outcome.code)])
    else started
  }

  // Its own transaction: if another request has completed under the key meanwhile, the INSERT fails.
  function RecordStep(w: World, e: Event): World
    requires e.Record? && e.p in w.recording
  {
    var todo := w.recording[e.p];
    var done := w.(recording := w.recording - {e.p});
    if todo.kid in w.rows then done else Answered(done, e.p, todo.kid, todo.body, w.clock, Conflict(todo.code))
  }

  function ClaimStep(w: World, e: Event): World
    requires e.Claim?
  {
    var started := w.(seen := w.seen + {e.p});
    if e.contended || e.kid in w.rows then started
    else
      var claimed := Inserted(started, e.kid, KeyRow(e.body, w.clock, e.p, None));
      if e.acked then claimed.(executing := w.executing[e.p := Execution(e.kid, e.body, w.clock)]) else claimed
  }

  function OccurrenceStep(w: World, e: Event): World
    requires e.Occurrence? && e.p in w.executing
  {
    var x := w.executing[e.p];
    w.(commits := w.commits + [Commit(x.kid, x.body, e.p, e.receipt, true, x.claimedAt, w.clock)])
  }

  // The final UPDATE is by user and key alone: it completes whatever row the key has by then, if any.
  function FinishStep(w: World, e: Event): World
    requires e.Finish? && e.p in w.executing
  {
    var x := w.executing[e.p];
    w.(rows := if x.kid in w.rows then w.rows[x.kid := w.rows[x.kid].(response := Some(SeriesReport(e.report)))] else w.rows,
       executing := w.executing - {e.p},
       answers := w.answers[e.p := Answer(x.kid, x.body, SeriesReport(e.report))])
  }

  function CleanupStep(w: World, at: Instant): World {
    w.(rows := map kid | kid in w.rows && !(w.rows[kid].createdAt < at - RETENTION) :: w.rows[kid])
  }

  predicate Enabled(w: World, e: Event) {
    && w.clock <= e.at
    && match e
       case Write(p, _, _, claimedAt, outcome, at) =>
         p !in w.seen && claimedAt <= at
         && (outcome.Writes() ==> forall k | 0 <= k < |w.commits| :: w.commits[k].receipt != outcome.receipt)
       case Record(p, _, _) => p in w.recording
       case Claim(p, _, _, _, _, _) => p !in w.seen
       case Occurrence(p, receipt, _) =>
         p in w.executing && forall k | 0 <= k < |w.commits| :: w.commits[k].receipt != receipt
       case Finish(p, _, _, _) => p in w.executing
       case Crash(_, _) => true
       case Cleanup(_) => true
  }

  // The instant passes, then the event happens.
  function Step(w: World, e: Event): World
    requires Enabled(w, e)
  {
    var v := w.(clock := e.at);
    match e
    case Write(_, _, _, _, _, _) => WriteStep(v, e)
    case Record(_, _, _) => RecordStep(v, e)
    case Claim(_, _, _, _, _, _) => ClaimStep(v, e)
    case Occurrence(_, _, _) => OccurrenceStep(v, e)
    case Finish(_, _, _, _) => FinishStep(v, e)
    case Crash(p, _) => v.(recording := v.recording - {p}, executing := v.executing - {p})
    case Cleanup(at) => CleanupStep(v, at)
  }

  // What the requester is told.
  function ReplyTo(w: World, e: Event): Reply
    requires Enabled(w, e)
  {
    match e
    case Write(_, kid, body, _, outcome, _) =>
      if outcome.Contended? then Failed(RequestInProgress)
      else if kid in w.rows then ReplayOrConflict(w.rows[kid], body)
      else (match outcome
            case Commits(receipt) => Replied(Written(receipt), false)
            case Unavailable => Failed(ServiceUnavailable)
            case Raises => Failed(InternalError)
            case LosesAck(_) => Failed(InternalError)
            case _ => Silence)
    case Record(p, acked, _) =>
      if w.recording[p].kid in w.rows || !acked then Failed(InternalError) else Replied(Conflict(w.recording[p].code), false)
    case Claim(_, kid, body, contended, acked, _) =>
      if contended then Failed(RequestInProgress)
      else if kid in w.rows then ReplayAllowingInProgress(w.rows[kid], body)
      else if acked then Silence
      else Failed(InternalError)
    case Finish(_, report, acked, _) => if acked then Replied(SeriesReport(report), false) else Failed(InternalError)
    case _ => Silence
  }

  // ---------------------------------------------------------------- what every step keeps

  ghost predicate LoggedAs(log: seq<Insertion>, kid: KeyId, owner: Pid, createdAt: Instant) {
    exists k | 0 <= k < |log| :: log[k].kid == kid && log[k].owner == owner && log[k].createdAt == createdAt
  }

  // A key's rows are inserted more than the retention period apart, and each stands at least that long.
  ghost predicate LogInv(w: World) {
    && (forall k | 0 <= k < |w.log| :: w.log[k].createdAt <= w.log[k].at <= w.clock && w.log[k].owner in w.seen)
    && (forall j, k | 0 <= j < k < |w.log| :: w.log[j].owner != w.log[k].owner)
    && (forall j, k | 0 <= j < k < |w.log| && w.log[j].kid == w.log[k].kid :: w.log[k].at > w.log[j].createdAt + RETENTION)
    && (forall k | 0 <= k < |w.log| :: w.clock > w.log[k].createdAt + RETENTION
          || (w.log[k].kid in w.rows && w.rows[w.log[k].kid].owner == w.log[k].owner))
    && (forall kid | kid in w.rows :: LoggedAs(w.log, kid, w.rows[kid].owner, w.rows[kid].createdAt))
  }

  // A row holds its inserter's recorded answer, or is in progress while there is none.
  ghost predicate RowInv(w: World) {
    forall kid | kid in w.rows ::
      var row := w.rows[kid];
      if row.owner in w.answers then
        var a := w.answers[row.owner];
        a.kid == kid && a.body == row.body && row.response == Some(a.response)
      else row.response.None?
  }

  // The requests under way have answered nothing yet.
  ghost predicate ProcessInv(w: World) {
    && (forall p | p in w.recording :: p in w.seen && p !in w.answers && p !in w.executing)
    && (forall k | 0 <= k < |w.log| :: w.log[k].owner !in w.recording)
    && (forall p | p in w.executing :: p in w.seen && p !in w.answers
          && LoggedAs(w.log, w.executing[p].kid, p, w.executing[p].claimedAt))
    && (forall p | p in w.answers :: p in w.seen)
    && (forall kid | kid in w.rows && w.rows[kid].owner in w.executing :: w.executing[w.rows[kid].owner].body == w.rows[kid].body)
  }

  // A one-transaction write is committed exactly when its response is recorded.
  ghost predicate WrittenMatched(w: World) {
    && (forall k | 0 <= k < |w.commits| && !w.commits[k].ofSeries ::
          w.commits[k].owner in w.answers
          && w.answers[w.commits[k].owner] == Answer(w.commits[k].kid, w.commits[k].body, Written(w.commits[k].receipt)))
    && (forall p | p in w.answers && w.answers[p].response.Written? ::
          exists k | 0 <= k < |w.commits| :: w.commits[k].owner == p && !w.commits[k].ofSeries)
  }

  // Every commit belongs to the request whose row claimed the key.
  ghost predicate CommitsLogged(w: World) {
    && (forall k | 0 <= k < |w.commits| :: w.commits[k].owner in w.seen
          && LoggedAs(w.log, w.commits[k].kid, w.commits[k].owner, w.commits[k].claimedAt))
    && (forall j, k | 0 <= j < k < |w.commits| :: w.commits[j].receipt != w.commits[k].receipt && w.commits[j].at <= w.commits[k].at)
    && (forall k | 0 <= k < |w.commits| :: w.commits[k].at <= w.clock)
    && (forall k, i | 0 <= k < |w.commits| && 0 <= i < |w.log| && w.commits[k].owner == w.log[i].owner ::
          w.log[i].at <= w.commits[k].at)
  }

  ghost predicate CommitInv(w: World) {
    CommitsLogged(w) && WrittenMatched(w)
  }

  ghost predicate Inv(w: World) {
    LogInv(w) && RowInv(w) && ProcessInv(w) && CommitInv(w)
  }

  ghost predicate Fresh(w: World) {
    w.rows == map[] && w.recording == map[] && w.executing == map[] && w.commits == [] && w.log == [] && w.answers == map[]
    && w.seen == {}
  }

  lemma FreshHoldsInv(w: World)
    requires Fresh(w)
    ensures Inv(w)
  {}

  lemma ClockKeepsInv(w: World, at: Instant)
    requires Inv(w) && w.clock <= at
    ensures Inv(w.(clock := at))
  {
    var v := w.(clock := at);
  }

  lemma StartKeepsInv(w: World, p: Pid)
    requires Inv(w)
    ensures Inv(w.(seen := w.seen + {p}))
  {
    var v := w.(seen := w.seen + {p});
  }

  lemma LoggedStays(log: seq<Insertion>, more: Insertion)
    ensures LoggedAs(log + [more], more.kid, more.owner, more.createdAt)
    ensures forall id, owner, createdAt :: LoggedAs(log, id, owner, createdAt) ==> LoggedAs(log + [more], id, owner, createdAt)
  {
    assert (log + [more])[|log|] == more;
    forall id, owner, createdAt | LoggedAs(log, id, owner, createdAt) ensures LoggedAs(log + [more], id, owner, createdAt) {
      var k :| 0 <= k < |log| && log[k].kid == id && log[k].owner == owner && log[k].createdAt == createdAt;
      assert (log + [more])[k] == log[k];
    }
  }

  // A row may be inserted for a key that has none, by a request that has inserted none.
  lemma InsertKeepsLog(w: World, kid: KeyId, row: KeyRow)
    requires LogInv(w) && kid !in w.rows && row.owner in w.seen && row.createdAt <= w.clock
    requires forall k | 0 <= k < |w.log| :: w.log[k].owner != row.owner
    ensures LogInv(Inserted(w, kid, row))
    ensures LoggedAs(Inserted(w, kid, row).log, kid, row.owner, row.createdAt)
    ensures forall id, owner, createdAt ::
      LoggedAs(w.log, id, owner, createdAt) ==> LoggedAs(Inserted(w, kid, row).log, id, owner, createdAt)
  {
    LoggedStays(w.log, Insertion(kid, row.owner, row.createdAt, w.clock));
  }

  lemma CleanupKeepsInv(w: World)
    requires Inv(w)
    ensures Inv(CleanupStep(w, w.clock))
  {
    var v := CleanupStep(w, w.clock);
    forall k | 0 <= k < |v.log|
      ensures v.clock > v.log[k].createdAt + RETENTION || (v.log[k].kid in v.rows && v.rows[v.log[k].kid].owner == v.log[k].owner)
    {
      if w.clock <= w.log[k].createdAt + RETENTION { RowIsLogged(w, k); }
    }
  }

  // While an insertion's retention lasts, the key's row is the one it made.
  lemma RowIsLogged(w: World, k: nat)
    requires LogInv(w) && k < |w.log| && w.clock <= w.log[k].createdAt + RETENTION
    ensures w.log[k].kid in w.rows && w.rows[w.log[k].kid].owner == w.log[k].owner
    ensures w.rows[w.log[k].kid].createdAt == w.log[k].createdAt
  {
    var row := w.rows[w.log[k].kid];
    var j :| 0 <= j < |w.log| && w.log[j].kid == w.log[k].kid && w.log[j].owner == row.owner && w.log[j].createdAt == row.createdAt;
    assert j == k;
  }

  // ---------------------------------------------------------------- each event

  // What inserting a row means for the rest: `kid` was free, and `p` has never inserted or answered anything.
  ghost predicate MayInsert(w: World, p: Pid, kid: KeyId) {
    && kid !in w.rows && p in w.seen && p !in w.answers
    && (forall k | 0 <= k < |w.log| :: w.log[k].owner != p)
  }

  lemma NothingOwned(w: World, p: Pid, kid: KeyId)
    requires LogInv(w) && CommitInv(w) && MayInsert(w, p, kid)
    ensures forall id | id in w.rows :: w.rows[id].owner != p
    ensures forall k | 0 <= k < |w.commits| :: w.commits[k].owner != p
  {
    assert forall id, owner, createdAt | LoggedAs(w.log, id, owner, createdAt) :: owner != p;
  }

  lemma AnsweredKeepsLog(w: World, p: Pid, kid: KeyId, body: Body, createdAt: Instant, response: Response)
    requires LogInv(w) && MayInsert(w, p, kid) && createdAt <= w.clock
    ensures var v := Answered(w, p, kid, body, createdAt, response);
      && LogInv(v) && LoggedAs(v.log, kid, p, createdAt)
      && forall id, owner, at :: LoggedAs(w.log, id, owner, at) ==> LoggedAs(v.log, id, owner, at)
  {
    var row := KeyRow(body, createdAt, p, Some(response));
    var v, u := Answered(w, p, kid, body, createdAt, response), Inserted(w, kid, row);
    InsertKeepsLog(w, kid, row);
  }

  lemma AnsweredKeepsRows(w: World, p: Pid, kid: KeyId, body: Body, createdAt: Instant, response: Response)
    requires LogInv(w) && CommitInv(w) && RowInv(w) && MayInsert(w, p, kid)
    ensures RowInv(Answered(w, p, kid, body, createdAt, response))
  {
    NothingOwned(w, p, kid);
  }

  lemma AnsweredKeepsProcesses(w: World, p: Pid, kid: KeyId, body: Body, createdAt: Instant, response: Response)
    requires LogInv(w) && ProcessInv(w) && MayInsert(w, p, kid) && createdAt <= w.clock && p !in w.recording && p !in w.executing
    ensures ProcessInv(Answered(w, p, kid, body, createdAt, response))
  {
    AnsweredKeepsLog(w, p, kid, body, createdAt, response);
  }

  lemma ConflictKeepsCommits(w: World, p: Pid, kid: KeyId, body: Body, createdAt: Instant, code: nat)
    requires LogInv(w) && CommitInv(w) && MayInsert(w, p, kid) && createdAt <= w.clock
    ensures CommitInv(Answered(w, p, kid, body, createdAt, Conflict(code)))
  {
    NothingOwned(w, p, kid);
    AnsweredKeepsLog(w, p, kid, body, createdAt, Conflict(code));
  }

  lemma StillMatched(w: World, v: World, c: Commit)
    requires WrittenMatched(w) && v.commits == w.commits + [c]
    requires forall k | 0 <= k < |w.commits| :: w.commits[k].owner != c.owner || c.ofSeries
    requires v.answers == if c.ofSeries then w.answers else w.answers[c.owner := Answer(c.kid, c.body, Written(c.receipt))]
    ensures WrittenMatched(v)
  {
    assert v.commits[|w.commits|] == c;
    forall q | q in v.answers && v.answers[q].response.Written?
      ensures exists k | 0 <= k < |v.commits| :: v.commits[k].owner == q && !v.commits[k].ofSeries
    {
      if c.ofSeries || q != c.owner {
        var k :| 0 <= k < |w.commits| && w.commits[k].owner == q && !w.commits[k].ofSeries;
        assert v.commits[k] == w.commits[k];
      }
    }
  }

  lemma WriteKeepsCommits(w: World, p: Pid, kid: KeyId, body: Body, createdAt: Instant, receipt: nat)
    requires LogInv(w) && CommitInv(w) && MayInsert(w, p, kid) && createdAt <= w.clock
    requires forall k | 0 <= k < |w.commits| :: w.commits[k].receipt != receipt
    ensures CommitInv(Answered(w, p, kid, body, createdAt, Written(receipt))
      .(commits := w.commits + [Commit(kid, body, p, receipt, false, createdAt, w.clock)]))
  {
    var u := Answered(w, p, kid, body, createdAt, Written(receipt));
    var c := Commit(kid, body, p, receipt, false, createdAt, w.clock);
    var v := u.(commits := w.commits + [c]);
    NothingOwned(w, p, kid);
    AnsweredKeepsLog(w, p, kid, body, createdAt, Written(receipt));
    StillMatched(w, v, c);
    WriteKeepsCommitsLogged(w, u, v, c);
  }

  lemma WriteKeepsCommitsLogged(w: World, u: World, v: World, c: Commit)
    requires LogInv(w) && CommitsLogged(w) && LogInv(u) && u.commits == w.commits && u.seen == w.seen && u.clock == w.clock
    requires v == u.(commits := w.commits + [c]) && c.owner in w.seen && c.at == w.clock
    requires u.log == w.log + [Insertion(c.kid, c.owner, c.claimedAt, w.clock)]
    requires LoggedAs(u.log, c.kid, c.owner, c.claimedAt)
    requires forall id, owner, at :: LoggedAs(w.log, id, owner, at) ==> LoggedAs(u.log, id, owner, at)
    requires forall k | 0 <= k < |w.commits| :: w.commits[k].receipt != c.receipt && w.commits[k].owner != c.owner
    ensures CommitsLogged(v)
  {}

  lemma NewRequest(w: World, p: Pid, kid: KeyId)
    requires Inv(w) && p !in w.seen && kid !in w.rows
    ensures var started := w.(seen := w.seen + {p});
      Inv(started) && MayInsert(started, p, kid) && p !in w.recording && p !in w.executing
  {
    StartKeepsInv(w, p);
  }

  lemma WriteKeepsInv(w: World, e: Event)
    requires Inv(w) && e.Write? && e.p !in w.seen && e.claimedAt <= w.clock
    requires e.outcome.Writes() ==> forall k | 0 <= k < |w.commits| :: w.commits[k].receipt != e.outcome.receipt
    ensures Inv(WriteStep(w, e))
  {
    StartKeepsInv(w, e.p);
    if !e.outcome.Contended? && e.kid !in w.rows {
      NewRequest(w, e.p, e.kid);
      if e.outcome.Writes() { CommittedWriteKeepsInv(w, e); }
      if e.outcome.Conflicts? { ConflictedWriteKeepsInv(w, e); }
    }
  }

  lemma CommittedWriteKeepsInv(w: World, e: Event)
    requires Inv(w) && e.Write? && e.p !in w.seen && e.claimedAt <= w.clock && e.kid !in w.rows && e.outcome.Writes()
    requires forall k | 0 <= k < |w.commits| :: w.commits[k].receipt != e.outcome.receipt
    ensures Inv(WriteStep(w, e))
  {
    var started, response := w.(seen := w.seen + {e.p}), Written(e.outcome.receipt);
    NewRequest(w, e.p, e.kid);
    AnsweredKeepsLog(started, e.p, e.kid, e.body, e.claimedAt, response);
    AnsweredKeepsRows(started, e.p, e.kid, e.body, e.claimedAt, response);
    AnsweredKeepsProcesses(started, e.p, e.kid, e.body, e.claimedAt, response);
    WriteKeepsCommits(started, e.p, e.kid, e.body, e.claimedAt, e.outcome.receipt);
    CommitsDoNotMatter(Answered(started, e.p, e.kid, e.body, e.claimedAt, response),
                       [Commit(e.kid, e.body, e.p, e.outcome.receipt, false, e.claimedAt, w.clock)]);
  }

  lemma CommitsDoNotMatter(w: World, more: seq<Commit>)
    requires LogInv(w) && RowInv(w) && ProcessInv(w)
    ensures var v := w.(commits := w.commits + more); LogInv(v) && RowInv(v) && ProcessInv(v)
  {
    var v := w.(commits := w.commits + more);
  }

  lemma ConflictedWriteKeepsInv(w: World, e: Event)
    requires Inv(w) && e.Write? && e.p !in w.seen && e.kid !in w.rows && e.outcome.Conflicts?
    ensures Inv(WriteStep(w, e))
  {
    NewRequest(w, e.p, e.kid);
    RecordingStarts(w.(seen := w.seen + {e.p}), e.p, Pending(e.kid, e.body, e.outcome.code));
  }

  lemma RecordingStarts(w: World, p: Pid, todo: Pending)
    requires Inv(w) && MayInsert(w, p, todo.kid) && p !in w.executing
    ensures Inv(w.(recording := w.recording[p := todo]))
  {
    RecordingDoesNotMatter(w, w.recording[p := todo]);
    RecordingKeepsProcesses(w, p, todo);
  }

  lemma RecordingDoesNotMatter(w: World, recording: map<Pid, Pending>)
    requires LogInv(w) && RowInv(w) && CommitInv(w)
    ensures var v := w.(recording := recording); LogInv(v) && RowInv(v) && CommitInv(v)
  {}

  lemma RecordingKeepsProcesses(w: World, p: Pid, todo: Pending)
    requires LogInv(w) && ProcessInv(w) && MayInsert(w, p, todo.kid) && p !in w.executing
    ensures ProcessInv(w.(recording := w.recording[p := todo]))
  {}

  lemma RecordingDone(w: World, p: Pid)
    requires Inv(w)
    ensures Inv(w.(recording := w.recording - {p}))
  {
    var v := w.(recording := w.recording - {p});
  }

  lemma RecordKeepsInv(w: World, e: Event)
    requires Inv(w) && e.Record? && e.p in w.recording
    ensures Inv(RecordStep(w, e))
  {
    RecordingDone(w, e.p);
    if w.recording[e.p].kid !in w.rows { RecordedConflictKeepsInv(w, e); }
  }

  lemma RecordedConflictKeepsInv(w: World, e: Event)
    requires Inv(w) && e.Record? && e.p in w.recording && w.recording[e.p].kid !in w.rows
    ensures Inv(RecordStep(w, e))
  {
    var todo := w.recording[e.p];
    var done := w.(recording := w.recording - {e.p});
    RecordingDone(w, e.p);
    AnsweredKeepsLog(done, e.p, todo.kid, todo.body, w.clock, Conflict(todo.code));
    AnsweredKeepsRows(done, e.p, todo.kid, todo.body, w.clock, Conflict(todo.code));
    AnsweredKeepsProcesses(done, e.p, todo.kid, todo.body, w.clock, Conflict(todo.code));
    ConflictKeepsCommits(done, e.p, todo.kid, todo.body, w.clock, todo.code);
  }

  lemma ClaimKeepsInv(w: World, e: Event)
    requires Inv(w) && e.Claim? && e.p !in w.seen
    ensures Inv(ClaimStep(w, e))
  {
    StartKeepsInv(w, e.p);
    if !e.contended && e.kid !in w.rows {
      var claimed := ClaimStep(w, Claim(e.p, e.kid, e.body, false, true, e.at));
      HeardClaimKeepsInv(w, Claim(e.p, e.kid, e.body, false, true, e.at));
      if !e.acked {
        CrashKeepsInv(claimed, e.p);
        UnheardClaim(w, e);
      }
    }
  }

  // A claim whose acknowledgment is lost is one whose process has crashed.
  lemma UnheardClaim(w: World, e: Event)
    requires Inv(w) && e.Claim? && e.p !in w.seen && !e.contended && e.kid !in w.rows && !e.acked
    ensures var claimed := ClaimStep(w, Claim(e.p, e.kid, e.body, false, true, e.at));
      ClaimStep(w, e) == claimed.(recording := claimed.recording - {e.p}, executing := claimed.executing - {e.p})
  {
    assert e.p !in w.recording && e.p !in w.executing;
    assert w.executing[e.p := Execution(e.kid, e.body, w.clock)] - {e.p} == w.executing && w.recording - {e.p} == w.recording;
  }

  lemma HeardClaimKeepsInv(w: World, e: Event)
    requires Inv(w) && e.Claim? && e.p !in w.seen && !e.contended && e.kid !in w.rows && e.acked
    ensures Inv(ClaimStep(w, e))
  {
    NewRequest(w, e.p, e.kid);
    var started := w.(seen := w.seen + {e.p});
    var row := KeyRow(e.body, w.clock, e.p, None);
    NothingOwned(started, e.p, e.kid);
    InsertKeepsLog(started, e.kid, row);
    ClaimedKeepsInv(started, Inserted(started, e.kid, row), e);
  }

  lemma ClaimedKeepsInv(w: World, u: World, e: Event)
    requires Inv(w) && e.Claim? && MayInsert(w, e.p, e.kid) && e.p !in w.recording && e.p !in w.executing
    requires (forall id | id in w.rows :: w.rows[id].owner != e.p) && u == Inserted(w, e.kid, KeyRow(e.body, w.clock, e.p, None))
    requires LogInv(u) && LoggedAs(u.log, e.kid, e.p, w.clock)
    requires forall id, owner, at :: LoggedAs(w.log, id, owner, at) ==> LoggedAs(u.log, id, owner, at)
    ensures Inv(u.(executing := w.executing[e.p := Execution(e.kid, e.body, w.clock)]))
  {
    ClaimedKeepsRows(w, u, e);
    ClaimedKeepsProcesses(w, u, e);
    ClaimedKeepsCommits(w, u, e);
  }

  lemma ClaimedKeepsRows(w: World, u: World, e: Event)
    requires RowInv(w) && e.Claim? && MayInsert(w, e.p, e.kid)
    requires u == Inserted(w, e.kid, KeyRow(e.body, w.clock, e.p, None)) && LogInv(u)
    ensures var v := u.(executing := w.executing[e.p := Execution(e.kid, e.body, w.clock)]); RowInv(v) && LogInv(v)
  {}

  lemma ClaimedKeepsCommits(w: World, u: World, e: Event)
    requires LogInv(w) && CommitInv(w) && e.Claim? && MayInsert(w, e.p, e.kid)
    requires u == Inserted(w, e.kid, KeyRow(e.body, w.clock, e.p, None))
    requires forall id, owner, at :: LoggedAs(w.log, id, owner, at) ==> LoggedAs(u.log, id, owner, at)
    ensures CommitInv(u.(executing := w.executing[e.p := Execution(e.kid, e.body, w.clock)]))
  {
    NothingOwned(w, e.p, e.kid);
  }

  lemma ClaimedKeepsProcesses(w: World, u: World, e: Event)
    requires LogInv(w) && ProcessInv(w) && e.Claim? && MayInsert(w, e.p, e.kid) && e.p !in w.recording && e.p !in w.executing
    requires (forall id | id in w.rows :: w.rows[id].owner != e.p) && u == Inserted(w, e.kid, KeyRow(e.body, w.clock, e.p, None))
    requires LoggedAs(u.log, e.kid, e.p, w.clock)
    requires forall id, owner, at :: LoggedAs(w.log, id, owner, at) ==> LoggedAs(u.log, id, owner, at)
    ensures ProcessInv(u.(executing := w.executing[e.p := Execution(e.kid, e.body, w.clock)]))
  {}

  lemma OccurrenceKeepsInv(w: World, e: Event)
    requires Inv(w) && e.Occurrence? && e.p in w.executing && forall k | 0 <= k < |w.commits| :: w.commits[k].receipt != e.receipt
    ensures Inv(OccurrenceStep(w, e))
  {
    var x := w.executing[e.p];
    var c := Commit(x.kid, x.body, e.p, e.receipt, true, x.claimedAt, w.clock);
    CommitsDoNotMatter(w, [c]);
    SeriesCommitKeepsCommits(w, c);
  }

  lemma SeriesCommitKeepsCommits(w: World, c: Commit)
    requires LogInv(w) && CommitInv(w) && c.ofSeries && c.owner in w.seen && c.at == w.clock
    requires LoggedAs(w.log, c.kid, c.owner, c.claimedAt)
    requires forall k | 0 <= k < |w.commits| :: w.commits[k].receipt != c.receipt
    ensures CommitInv(w.(commits := w.commits + [c]))
  {
    StillMatched(w, w.(commits := w.commits + [c]), c);
  }

  // The row a final update would complete is the execution's own, or there is none.
  predicate FinishesItsOwn(w: World, p: Pid)
    requires p in w.executing
  {
    w.executing[p].kid in w.rows ==> w.rows[w.executing[p].kid].owner == p
  }

  lemma FinishKeepsInv(w: World, e: Event)
    requires Inv(w) && e.Finish? && e.p in w.executing && FinishesItsOwn(w, e.p)
    ensures Inv(FinishStep(w, e))
  {
    FinishKeepsRows(w, e);
    FinishKeepsProcesses(w, e);
    FinishKeepsCommits(w, e);
  }

  lemma FinishKeepsProcesses(w: World, e: Event)
    requires LogInv(w) && ProcessInv(w) && e.Finish? && e.p in w.executing
    ensures LogInv(FinishStep(w, e)) && ProcessInv(FinishStep(w, e))
  {}

  lemma FinishKeepsCommits(w: World, e: Event)
    requires ProcessInv(w) && CommitInv(w) && e.Finish? && e.p in w.executing
    ensures CommitInv(FinishStep(w, e))
  {
    var v := FinishStep(w, e);
    assert forall q | q in v.answers && v.answers[q].response.Written? :: q in w.answers && w.answers[q] == v.answers[q];
    assert WrittenMatched(v);
  }

  lemma FinishKeepsRows(w: World, e: Event)
    requires Inv(w) && e.Finish? && e.p in w.executing && FinishesItsOwn(w, e.p)
    ensures RowInv(FinishStep(w, e))
  {
    var v := FinishStep(w, e);
    forall kid | kid in v.rows && v.rows[kid].owner == e.p ensures kid == w.executing[e.p].kid {
      OwnedOnce(w, e.p, kid, w.executing[e.p].kid);
    }
  }

  lemma OwnedOnce(w: World, p: Pid, kid: KeyId, claimed: KeyId)
    requires LogInv(w) && kid in w.rows && w.rows[kid].owner == p
    requires exists at :: LoggedAs(w.log, claimed, p, at)
    ensures kid == claimed
  {}

  lemma CrashKeepsInv(w: World, p: Pid)
    requires Inv(w)
    ensures Inv(w.(recording := w.recording - {p}, executing := w.executing - {p}))
  {
    var v := w.(recording := w.recording - {p}, executing := w.executing - {p});
  }
}
