/** The key table as the write path updates it; each method is one transaction of the protocol. */
module IdempotencyService {
  import opened Tables
  import opened Idempotency

  class KeyTable {
    var rows: map<KeyId, KeyRow>

    constructor ()
      ensures rows == map[]
    {
      rows := map[];
    }
  }

  // The claim, the write and its outcome are one transaction; a conflict undoes the claim as well, and is recorded
  // afterwards by RecordConflictOutcome.
  method RunIdempotentWrite(table: KeyTable, ghost w: World, p: Pid, kid: KeyId, body: Body, claimedAt: Instant, outcome: TxOutcome,
                            now: Instant) returns (reply: Reply, conflicted: bool)
    requires table.rows == w.rows && p !in w.recording && Enabled(w, Write(p, kid, body, claimedAt, outcome, now))
    modifies table
    ensures var e := Write(p, kid, body, claimedAt, outcome, now);
      table.rows == Step(w, e).rows && reply == ReplyTo(w, e) && (conflicted <==> p in Step(w, e).recording)
  {
    if outcome.Contended? { return Failed(RequestInProgress), false; }
    if kid in table.rows { return ReplayOrConflict(table.rows[kid], body), false; }
    var saved := table.rows;
    table.rows := table.rows[kid := KeyRow(body, claimedAt, p, None)];
    match outcome
    case Commits(receipt) =>
      table.rows := table.rows[kid := table.rows[kid].(response := Some(Written(receipt)))];
      return Replied(Written(receipt), false), false;
    case Conflicts(_) =>
      table.rows := saved;
      return Silence, true;
    case Unavailable =>
      table.rows := saved;
      return Failed(ServiceUnavailable), false;
    case Raises =>
      table.rows := saved;
      return Failed(InternalError), false;
    case Dies =>
      table.rows := saved;
      return Silence, false;
    case LosesAck(receipt) =>
      table.rows := table.rows[kid := table.rows[kid].(response := Some(Written(receipt)))];
      return Failed(InternalError), false;
  }

  method RecordConflictOutcome(table: KeyTable, ghost w: World, p: Pid, todo: Pending, acked: bool, now: Instant)
    returns (reply: Reply)
    requires table.rows == w.rows && Enabled(w, Record(p, acked, now)) && w.recording[p] == todo
    modifies table
    ensures table.rows == Step(w, Record(p, acked, now)).rows && reply == ReplyTo(w, Record(p, acked, now))
  {
    if todo.kid in table.rows { return Failed(InternalError); }
    table.rows := table.rows[todo.kid := KeyRow(todo.body, now, p, Some(Conflict(todo.code)))];
    return if acked then Replied(Conflict(todo.code), false) else Failed(InternalError);
  }

  // The first of a recurring confirm's transactions.
  method ClaimForConfirm(table: KeyTable, ghost w: World, p: Pid, kid: KeyId, body: Body, contended: bool, acked: bool, now: Instant)
    returns (reply: Reply, claimed: bool)
    requires table.rows == w.rows && p !in w.executing && Enabled(w, Claim(p, kid, body, contended, acked, now))
    modifies table
    ensures var e := Claim(p, kid, body, contended, acked, now);
      table.rows == Step(w, e).rows && reply == ReplyTo(w, e) && (claimed <==> p in Step(w, e).executing)
  {
    if contended { return Failed(RequestInProgress), false; }
    if kid in table.rows { return ReplayAllowingInProgress(table.rows[kid], body), false; }
    table.rows := table.rows[kid := KeyRow(body, now, p, None)];
    if !acked { return Failed(InternalError), false; }
    return Silence, true;
  }

  // And the last, after the occurrences.
  method RecordConfirmed(table: KeyTable, ghost w: World, p: Pid, kid: KeyId, report: nat, acked: bool, now: Instant)
    returns (reply: Reply)
    requires table.rows == w.rows && Enabled(w, Finish(p, report, acked, now)) && w.executing[p].kid == kid
    modifies table
    ensures table.rows == Step(w, Finish(p, report, acked, now)).rows && reply == ReplyTo(w, Finish(p, report, acked, now))
  {
    if kid in table.rows { table.rows := table.rows[kid := table.rows[kid].(response := Some(SeriesReport(report)))]; }
    return if acked then Replied(SeriesReport(report), false) else Failed(InternalError);
  }

  method CleanupExpiredKeys(table: KeyTable, ghost w: World, now: Instant) returns (deleted: nat)
    requires table.rows == w.rows && w.clock <= now
    modifies table
    ensures table.rows == Step(w, Cleanup(now)).rows
    ensures deleted == |set kid | kid in w.rows && w.rows[kid].createdAt < now - RETENTION|
  {
    var cutoff := now - RETENTION;
    var expired := set kid | kid in table.rows && table.rows[kid].createdAt < cutoff;
    table.rows := table.rows - expired;
    deleted := |expired|;
  }
}
