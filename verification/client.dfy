/** The browser's request loop: one idempotency key per call, kept over every automatic retry. */
module Client {
  import opened Tables
  import opened Idempotency
  import opened IdempotencyTheorems

  const SERVICE_UNAVAILABLE_MAX_RETRIES := 3

  // One attempt seen from both ends: what happens elsewhere before it, its transaction on the server, what happens
  // elsewhere before a rolled-back conflict is recorded, whether that is acknowledged, and whether the response arrives.
  datatype Exchange = Exchange(before: seq<Event>, write: Event, between: seq<Event>, recordedAt: Instant, acked: bool, delivered: bool)

  ghost predicate Servable(w: World, kid: KeyId, body: Body, x: Exchange) {
    && Possible(w, x.before)
    && x.write.Write? && x.write.kid == kid && x.write.body == body
    && Enabled(After(w, x.before), x.write)
    && Possible(Step(After(w, x.before), x.write), x.between)
    && (x.write.p in AfterWrite(w, x).recording ==> AfterWrite(w, x).clock <= x.recordedAt)
  }

  function AfterWrite(w: World, x: Exchange): World
    requires Possible(w, x.before) && x.write.Write? && Enabled(After(w, x.before), x.write)
    requires Possible(Step(After(w, x.before), x.write), x.between)
  {
    After(Step(After(w, x.before), x.write), x.between)
  }

  // The server's side of an attempt, and what it sends.
  function Served(w: World, ghost kid: KeyId, ghost body: Body, x: Exchange): (World, Reply)
    requires Servable(w, kid, body, x)
  {
    var v := AfterWrite(w, x);
    if x.write.p in v.recording then
      var record := Record(x.write.p, x.acked, x.recordedAt);
      (Step(v, record), ReplyTo(v, record))
    else (v, ReplyTo(After(w, x.before), x.write))
  }

  ghost predicate Playable(w: World, kid: KeyId, body: Body, script: seq<Exchange>)
    decreases |script|
  {
    script == [] || (Servable(w, kid, body, script[0]) && Playable(Served(w, kid, body, script[0]).0, kid, body, script[1..]))
  }

  datatype Outcome =
    | Returned(response: Response)
    | ThrewApiError(code: ErrorCode)
    | ThrewConflict(conflict: nat)
    | ThrewNetworkError

  function Verdict(r: Reply): Outcome {
    match r
    case Replied(Conflict(code), _) => ThrewConflict(code)
    case Replied(response, _) => Returned(response)
    case Failed(code) => ThrewApiError(code)
    case Silence => ThrewNetworkError
  }

  // A call returns what it was told of success, throws the conflict or the error it was told of, and throws a network
  // error exactly when it was told nothing.
  lemma VerdictInColumns(r: Reply)
    ensures Verdict(r).Returned? <==> r.Replied? && (r.response.Written? || r.response.SeriesReport?)
    ensures Verdict(r).Returned? ==> Verdict(r).response == r.response
    ensures Verdict(r).ThrewConflict? <==> r.Replied? && r.response.Conflict?
    ensures Verdict(r).ThrewConflict? ==> Verdict(r).conflict == r.response.code
    ensures Verdict(r).ThrewApiError? <==> r.Failed?
    ensures Verdict(r).ThrewApiError? ==> Verdict(r).code == r.code
    ensures Verdict(r).ThrewNetworkError? <==> r.Silence?
  {}

  // A one-transaction write of this body, under this key, with this receipt.
  predicate IsWrite(c: Commit, kid: KeyId, body: Body, receipt: nat) {
    !c.ofSeries && c.kid == kid && c.body == body && c.receipt == receipt
  }

  // A call that returns a response has one committed write behind it, and no other under its key.
  ghost predicate ExactlyOneWrite(w: World, kid: KeyId, body: Body, response: Response) {
    response.Written? &&
    exists k | 0 <= k < |w.commits| ::
      && IsWrite(w.commits[k], kid, body, response.receipt)
      && forall j | 0 <= j < |w.commits| && w.commits[j].kid == kid && !w.commits[j].ofSeries :: j == k
  }

  // No retention of the key's commits has run out yet.
  ghost predicate WithinRetention(w: World, kid: KeyId) {
    forall k | 0 <= k < |w.commits| && w.commits[k].kid == kid :: Unexpired(w, w.commits[k])
  }

  // Nor of any row its requests have inserted.
  ghost predicate StillRetained(w: World, kid: KeyId) {
    forall k | 0 <= k < |w.log| && w.log[k].kid == kid :: w.clock <= w.log[k].createdAt + RETENTION
  }

  // One request has been answered so under the key and body, and whatever is committed under the key is its own:
  // a one-transaction write if it was told of one, else only occurrences of the series it reported on.
  ghost predicate OneExecution(w: World, kid: KeyId, body: Body, response: Response) {
    exists k: nat | AnsweredAt(w, k, kid, body, response) ::
      forall j | 0 <= j < |w.commits| && w.commits[j].kid == kid ::
        w.commits[j].owner == w.log[k].owner && (!w.commits[j].ofSeries ==> response == Written(w.commits[j].receipt))
  }

  lemma AnswerIsTheOnlyOne(w: World, k: nat, kid: KeyId, body: Body, response: Response)
    requires Reachable(w) && AnsweredAt(w, k, kid, body, response) && StillRetained(w, kid)
    ensures OneExecution(w, kid, body, response)
  {
    ReachableHoldsInv(w);
    forall j | 0 <= j < |w.commits| && w.commits[j].kid == kid
      ensures w.commits[j].owner == w.log[k].owner && (!w.commits[j].ofSeries ==> response == Written(w.commits[j].receipt))
    {
      var c := w.commits[j];
      var a :| 0 <= a < |w.log| && w.log[a].kid == c.kid && w.log[a].owner == c.owner && w.log[a].createdAt == c.claimedAt;
      RowIsLogged(w, a);
      RowIsLogged(w, k);
    }
  }

  // A reply, fresh or replayed, is the recorded answer of the request whose row the key has.
  lemma ReplyIsAnswer(w: World, e: Event) returns (k: nat)
    requires Inv(w) && Enabled(w, e) && (e.Write? || e.Record?) && ReplyTo(w, e).Replied?
    requires FinishesOwnRow(w, e)
    ensures e.Write? ==> AnsweredAt(Step(w, e), k, e.kid, e.body, ReplyTo(w, e).response)
    ensures e.Record? ==> AnsweredAt(Step(w, e), k, w.recording[e.p].kid, w.recording[e.p].body, ReplyTo(w, e).response)
  {
    k := |w.log|;
    if e.Write? && e.kid in w.rows {
      k :| 0 <= k < |w.log| && w.log[k].kid == e.kid && w.log[k].owner == w.rows[e.kid].owner;
    }
  }

  lemma ServedReplyIsAnswer(w: World, kid: KeyId, body: Body, x: Exchange) returns (k: nat)
    requires Reachable(w) && Servable(w, kid, body, x) && Served(w, kid, body, x).1.Replied?
    ensures AnsweredAt(Served(w, kid, body, x).0, k, kid, body, Served(w, kid, body, x).1.response)
  {
    var u, v := After(w, x.before), AfterWrite(w, x);
    ReachableAfter(w, x.before);
    ReachableHoldsInv(u);
    ReachableStep(u, x.write);
    ReachableHoldsInv(Step(u, x.write));
    if x.write.p in v.recording {
      ReachableAfter(Step(u, x.write), x.between);
      ReachableHoldsInv(v);
      RecordingIsOwn(u, x.write, x.between);
      k := ReplyIsAnswer(v, Record(x.write.p, x.acked, x.recordedAt));
    } else {
      k := ReplyIsAnswer(u, x.write);
      AnswersStay(Step(u, x.write), x.between, k, kid, body, ReplyTo(u, x.write).response);
    }
  }

  // What a request has on its way to be recorded is for its own key and body.
  lemma RecordingIsOwn(w: World, e: Event, es: seq<Event>)
    requires Enabled(w, e) && e.Write? && e.p !in w.recording && Possible(Step(w, e), es)
    requires e.p in After(Step(w, e), es).recording
    ensures After(Step(w, e), es).recording[e.p].kid == e.kid && After(Step(w, e), es).recording[e.p].body == e.body
  {
    RecordingStays(Step(w, e), es, e.p, e.kid, e.body);
  }

  ghost predicate RecordsFor(w: World, p: Pid, kid: KeyId, body: Body) {
    p in w.recording ==> w.recording[p].kid == kid && w.recording[p].body == body
  }

  lemma RecordingStaysOwn(w: World, e: Event, p: Pid, kid: KeyId, body: Body)
    requires Enabled(w, e) && p in w.seen && RecordsFor(w, p, kid, body)
    ensures p in Step(w, e).seen && RecordsFor(Step(w, e), p, kid, body)
  {}

  lemma {:induction false} RecordingStays(w: World, es: seq<Event>, p: Pid, kid: KeyId, body: Body)
    requires Possible(w, es) && p in w.seen && RecordsFor(w, p, kid, body)
    ensures RecordsFor(After(w, es), p, kid, body)
    decreases |es|
  {
    if es != [] {
      RecordingStaysOwn(w, es[0], p, kid, body);
      RecordingStays(Step(w, es[0]), es[1..], p, kid, body);
    }
  }

  lemma ServedIsReachable(w: World, kid: KeyId, body: Body, x: Exchange)
    requires Reachable(w) && Servable(w, kid, body, x)
    ensures Reachable(Served(w, kid, body, x).0)
  {
    ReachableAfter(w, x.before);
    ReachableStep(After(w, x.before), x.write);
    ReachableAfter(Step(After(w, x.before), x.write), x.between);
    if x.write.p in AfterWrite(w, x).recording { ReachableStep(AfterWrite(w, x), Record(x.write.p, x.acked, x.recordedAt)); }
  }

  ghost predicate HasWrite(w: World, kid: KeyId, body: Body, receipt: nat) {
    exists k | 0 <= k < |w.commits| :: IsWrite(w.commits[k], kid, body, receipt)
  }

  lemma {:induction false} WritesStay(w: World, es: seq<Event>, kid: KeyId, body: Body, receipt: nat)
    requires Possible(w, es) && HasWrite(w, kid, body, receipt)
    ensures HasWrite(After(w, es), kid, body, receipt)
    decreases |es|
  {
    if es != [] {
      var k :| 0 <= k < |w.commits| && IsWrite(w.commits[k], kid, body, receipt);
      var v := Step(w, es[0]);
      assert v.commits[k] == w.commits[k];
      WritesStay(v, es[1..], kid, body, receipt);
    }
  }

  // A success reply, fresh or replayed, has a committed write behind it.
  lemma SuccessHasWrite(w: World, e: Event)
    requires Inv(w) && Enabled(w, e) && e.Write? && ReplyTo(w, e).Replied? && ReplyTo(w, e).response.Written?
    ensures HasWrite(Step(w, e), e.kid, e.body, ReplyTo(w, e).response.receipt)
  {
    var receipt := ReplyTo(w, e).response.receipt;
    if e.kid in w.rows {
      RecordedWriteIsCommitted(w, e.kid, receipt);
      var k :| 0 <= k < |w.commits| && !w.commits[k].ofSeries && w.commits[k].kid == e.kid && Records(w.rows[e.kid], w.commits[k]);
      assert Step(w, e).commits[k] == w.commits[k];
    } else {
      assert Step(w, e).commits[|w.commits|] == Commit(e.kid, e.body, e.p, receipt, false, e.claimedAt, e.at);
    }
  }

  lemma ServedSuccessHasWrite(w: World, kid: KeyId, body: Body, x: Exchange)
    requires Reachable(w) && Servable(w, kid, body, x)
    requires Served(w, kid, body, x).1.Replied? && Served(w, kid, body, x).1.response.Written?
    ensures HasWrite(Served(w, kid, body, x).0, kid, body, Served(w, kid, body, x).1.response.receipt)
  {
    var u := After(w, x.before);
    ReachableAfter(w, x.before);
    ReachableHoldsInv(u);
    SuccessHasWrite(u, x.write);
    WritesStay(Step(u, x.write), x.between, kid, body, Served(w, kid, body, x).1.response.receipt);
  }

  lemma WriteIsTheOnlyOne(w: World, kid: KeyId, body: Body, receipt: nat)
    requires Reachable(w) && HasWrite(w, kid, body, receipt) && WithinRetention(w, kid)
    ensures ExactlyOneWrite(w, kid, body, Written(receipt))
  {
    ReachableHoldsInv(w);
    var k :| 0 <= k < |w.commits| && IsWrite(w.commits[k], kid, body, receipt);
    forall j | 0 <= j < |w.commits| && w.commits[j].kid == kid && !w.commits[j].ofSeries ensures j == k {
      CommitsOfOneRetention(w, j, k);
    }
  }

  // What a reply means within the key's retention.
  ghost predicate Meant(w: World, kid: KeyId, body: Body, reply: Reply) {
    && (reply.Replied? && reply.response.Written? && WithinRetention(w, kid) ==> ExactlyOneWrite(w, kid, body, reply.response))
    && (reply.Replied? && StillRetained(w, kid) ==> OneExecution(w, kid, body, reply.response))
  }

  // One attempt. A response that does not arrive is a NetworkError, which is not retried.
  method PerformFetch(w: World, kid: KeyId, body: Body, x: Exchange) returns (v: World, reply: Reply)
    requires Reachable(w) && Servable(w, kid, body, x)
    ensures v == Served(w, kid, body, x).0 && Reachable(v)
    ensures reply == if x.delivered then Served(w, kid, body, x).1 else Silence
    ensures Meant(v, kid, body, reply)
  {
    var (after, sent) := Served(w, kid, body, x);
    v, reply := after, if x.delivered then sent else Silence;
    ServedIsReachable(w, kid, body, x);
    if reply.Replied? && reply.response.Written? && WithinRetention(v, kid) {
      ServedSuccessHasWrite(w, kid, body, x);
      WriteIsTheOnlyOne(v, kid, body, reply.response.receipt);
    }
    if reply.Replied? && StillRetained(v, kid) {
      ghost var k := ServedReplyIsAnswer(w, kid, body, x);
      AnswerIsTheOnlyOne(v, k, kid, body, reply.response);
    }
  }

  ghost predicate AllUnavailable(replies: seq<Reply>) {
    forall reply | reply in replies :: reply == Failed(ServiceUnavailable)
  }

  lemma LastReply(earlier: seq<Reply>, reply: Reply)
    requires AllUnavailable(earlier)
    ensures (earlier + [reply])[..|earlier|] == earlier
    ensures reply == Failed(ServiceUnavailable) ==> AllUnavailable(earlier + [reply])
  {}

  // At most four attempts, all under one key and with one body; another follows only a 503. Within the key's
  // retention, a write returned means exactly one was committed, and any other final response, a conflict included,
  // means that whatever was committed under the key belongs to the one request so answered.
  method Request(start: World, kid: KeyId, body: Body, script: seq<Exchange>)
    returns (outcome: Outcome, w: World, replies: seq<Reply>)
    requires Reachable(start) && |script| == 1 + SERVICE_UNAVAILABLE_MAX_RETRIES && Playable(start, kid, body, script)
    ensures Reachable(w) && 1 <= |replies| <= 4
    ensures AllUnavailable(replies[..|replies| - 1])
    ensures outcome == Verdict(replies[|replies| - 1]) && Meant(w, kid, body, replies[|replies| - 1])
    ensures outcome == ThrewApiError(ServiceUnavailable) ==> |replies| == 4
  {
    w, replies := start, [];
    var rest := script;
    while true
      invariant |replies| + |rest| == 4 && rest != [] && Reachable(w) && Playable(w, kid, body, rest)
      invariant AllUnavailable(replies)
      decreases |rest|
    {
      var reply;
      w, reply := PerformFetch(w, kid, body, rest[0]);
      LastReply(replies, reply);
      rest, replies := rest[1..], replies + [reply];
      var attempt := |replies|;
      if reply == Failed(ServiceUnavailable) && attempt <= SERVICE_UNAVAILABLE_MAX_RETRIES { continue; }
      return Verdict(reply), w, replies;
    }
  }
}
