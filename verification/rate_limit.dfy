/** The token bucket: its Lua script over reals, keyed by principal, with the script's key expiry. */
module RateLimit {
  import opened Tables

  datatype Bucket = Bucket(tokens: real, lastRefill: real)

  datatype Policy = Policy(capacity: nat, window: nat) {
    ghost predicate Valid() {
      window > 0
    }

    function Rate(): real
      requires Valid()
    {
      capacity as real / window as real
    }
  }

  function Min(a: real, b: real): real {
    if a <= b then a else b
  }

  function Max(a: real, b: real): real {
    if a >= b then a else b
  }

  function Ceil(x: real): int {
    -((-x).Floor)
  }

  // What a bucket holds once refilled; a bucket without a key is full.
  function Level(p: Policy, b: Option<Bucket>, now: real): real
    requires p.Valid()
  {
    if b.None? then p.capacity as real
    else Min(p.capacity as real, b.value.tokens + Max(0.0, now - b.value.lastRefill) * p.Rate())
  }

  predicate Allows(p: Policy, b: Option<Bucket>, now: real, requested: nat)
    requires p.Valid()
  {
    Level(p, b, now) >= requested as real
  }

  function Taken(p: Policy, b: Option<Bucket>, now: real, requested: nat): Bucket
    requires p.Valid()
  {
    Bucket(if Allows(p, b, now, requested) then Level(p, b, now) - requested as real else Level(p, b, now), now)
  }

  // The seconds a denied caller is told to wait.
  function RetryAfter(p: Policy, level: real, requested: nat): int
    requires p.Valid()
  {
    if p.Rate() > 0.0 then Ceil((requested as real - level) / p.Rate()) else 0
  }

  // Tokens never go negative, nor over the capacity.
  ghost predicate Sound(p: Policy, b: Option<Bucket>) {
    b.Some? ==> 0.0 <= b.value.tokens <= p.capacity as real
  }

  lemma LevelInBounds(p: Policy, b: Option<Bucket>, now: real)
    requires p.Valid() && Sound(p, b)
    ensures 0.0 <= Level(p, b, now) <= p.capacity as real && p.Rate() >= 0.0
  {
    assert p.Rate() >= 0.0;
    if b.Some? { assert Max(0.0, now - b.value.lastRefill) * p.Rate() >= 0.0; }
  }

  lemma TakenIsSound(p: Policy, b: Option<Bucket>, now: real, requested: nat)
    requires p.Valid() && Sound(p, b)
    ensures Sound(p, Some(Taken(p, b, now, requested)))
  {
    LevelInBounds(p, b, now);
  }

  // Redis drops the key two windows after it was last written; by then the bucket would be full anyway.
  predicate Dropped(p: Policy, b: Bucket, now: real) {
    now >= b.lastRefill + 2.0 * p.window as real
  }

  lemma DroppedIsFull(p: Policy, b: Bucket, now: real)
    requires p.Valid() && Sound(p, Some(b)) && Dropped(p, b, now)
    ensures Level(p, Some(b), now) == Level(p, None, now)
  {
    var idle := now - b.lastRefill;
    RefillsInAWindow(p, idle);
  }

  // A window's refill is the whole capacity.
  lemma RefillsInAWindow(p: Policy, idle: real)
    requires p.Valid() && idle >= p.window as real
    ensures idle * p.Rate() >= p.capacity as real
  {
    var c, w := p.capacity as real, p.window as real;
    assert w * (c / w) == c;
    assert (idle - w) * (c / w) >= 0.0;
  }

  class TokenBucket {
    const policy: Policy
    var keys: map<string, Bucket>

    ghost predicate Valid()
      reads this
    {
      policy.Valid() && forall k | k in keys :: Sound(policy, Some(keys[k]))
    }

    // The state a key would be in had Redis never dropped it.
    ghost function State(key: string): Option<Bucket>
      reads this
    {
      if key in keys then Some(keys[key]) else None
    }

    constructor (capacity: nat, window: nat)
      requires window > 0
      ensures Valid() && keys == map[] && policy == Policy(capacity, window)
    {
      policy := Policy(capacity, window);
      keys := map[];
    }

    // When Redis cannot be reached the request is allowed, and nothing recorded. A key past its expiry reads as
    // absent, and the outcome is as if it had been kept.
    method Check(key: string, now: real, requested: nat, reachable: bool) returns (allowed: bool, retryAfter: int)
      requires Valid()
      modifies this
      ensures Valid()
      ensures !reachable ==> allowed && retryAfter == 0 && keys == old(keys)
      ensures reachable ==>
        && allowed == Allows(policy, old(State(key)), now, requested)
        && keys == old(keys)[key := Taken(policy, old(State(key)), now, requested)]
        && retryAfter == Told(policy, old(State(key)), now, requested)
    {
      if !reachable { return true, 0; }
      ghost var kept := State(key);
      var found := if key in keys && !Dropped(policy, keys[key], now) then Some(keys[key]) else None;
      if found != kept { DroppedTellsTheSame(policy, keys[key], now, requested); }
      TakenIsSound(policy, kept, now, requested);
      var bucket;
      allowed, bucket, retryAfter := RunScript(policy, found, now, requested);
      keys := keys[key := bucket];
    }
  }

  function Told(p: Policy, b: Option<Bucket>, now: real, requested: nat): int
    requires p.Valid()
  {
    if Allows(p, b, now, requested) then 0 else RetryAfter(p, Level(p, b, now), requested)
  }

  // A bucket idle for two windows cannot be told from one that was dropped.
  lemma DroppedTellsTheSame(p: Policy, b: Bucket, now: real, requested: nat)
    requires p.Valid() && Sound(p, Some(b)) && Dropped(p, b, now)
    ensures Allows(p, Some(b), now, requested) == Allows(p, None, now, requested)
    ensures Taken(p, Some(b), now, requested) == Taken(p, None, now, requested)
    ensures Told(p, Some(b), now, requested) == Told(p, None, now, requested)
  {
    DroppedIsFull(p, b, now);
  }

  // The Lua script, on the bucket it read.
  method RunScript(p: Policy, found: Option<Bucket>, now: real, requested: nat)
    returns (allowed: bool, bucket: Bucket, retryAfter: int)
    requires p.Valid()
    ensures allowed == Allows(p, found, now, requested)
    ensures bucket == Taken(p, found, now, requested)
    ensures retryAfter == Told(p, found, now, requested)
  {
    var refillRate := p.Rate();
    var tokens, lastRefill := p.capacity as real, now;
    if found.Some? { tokens, lastRefill := found.value.tokens, found.value.lastRefill; }
    var elapsed := now - lastRefill;
    if elapsed < 0.0 { elapsed := 0.0; }
    assert found.None? ==> elapsed * refillRate == 0.0;
    tokens := Min(p.capacity as real, tokens + elapsed * refillRate);
    assert tokens == Level(p, found, now);
    allowed, retryAfter := false, 0;
    if tokens >= requested as real {
      tokens := tokens - requested as real;
      allowed := true;
    }
    bucket := Bucket(tokens, now);
    if !allowed && refillRate > 0.0 { retryAfter := Ceil((requested as real - tokens) / refillRate); }
  }

  // ---------------------------------------------------------------- one bucket over time

  datatype Call = Call(now: real, requested: nat)

  function StateAfter(p: Policy, b: Option<Bucket>, calls: seq<Call>): Option<Bucket>
    requires p.Valid()
  {
    if calls == [] then b
    else
      var last := calls[|calls| - 1];
      Some(Taken(p, StateAfter(p, b, calls[..|calls| - 1]), last.now, last.requested))
  }

  // The tokens granted over a sequence of calls.
  function Granted(p: Policy, b: Option<Bucket>, calls: seq<Call>): nat
    requires p.Valid()
  {
    if calls == [] then 0
    else
      var last, before := calls[|calls| - 1], calls[..|calls| - 1];
      Granted(p, b, before) + if Allows(p, StateAfter(p, b, before), last.now, last.requested) then last.requested else 0
  }

  ghost predicate Forward(b: Option<Bucket>, calls: seq<Call>) {
    && (forall i, j | 0 <= i < j < |calls| :: calls[i].now <= calls[j].now)
    && (b.Some? && calls != [] ==> b.value.lastRefill <= calls[0].now)
  }

  lemma {:induction false} StateIsSound(p: Policy, b: Option<Bucket>, calls: seq<Call>)
    requires p.Valid() && Sound(p, b)
    ensures Sound(p, StateAfter(p, b, calls))
  {
    if calls != [] {
      var last := calls[|calls| - 1];
      StateIsSound(p, b, calls[..|calls| - 1]);
      TakenIsSound(p, StateAfter(p, b, calls[..|calls| - 1]), last.now, last.requested);
    }
  }

  // What refills between two instants.
  function Refill(p: Policy, from: real, to: real): real
    requires p.Valid()
  {
    (to - from) * p.Rate()
  }

  lemma Distributes(rate: real, a: real, b: real, c: real)
    ensures (b - a) * rate + (c - b) * rate == (c - a) * rate
  {}

  lemma RefillsJoin(p: Policy, a: real, b: real, c: real)
    requires p.Valid()
    ensures Refill(p, a, b) + Refill(p, b, c) == Refill(p, a, c)
  {
    Distributes(p.Rate(), a, b, c);
  }

  function GrantedBy(p: Policy, b: Option<Bucket>, call: Call): nat
    requires p.Valid()
  {
    if Allows(p, b, call.now, call.requested) then call.requested else 0
  }

  lemma CallWithinLevel(p: Policy, b: Option<Bucket>, call: Call)
    requires p.Valid()
    ensures GrantedBy(p, b, call) as real + Taken(p, b, call.now, call.requested).tokens == Level(p, b, call.now)
  {}

  lemma LevelWithinRefill(p: Policy, b: Bucket, now: real)
    requires p.Valid() && b.lastRefill <= now
    ensures Level(p, Some(b), now) <= b.tokens + Refill(p, b.lastRefill, now)
  {}

  // What was granted was in the bucket to begin with, or has been refilled since.
  lemma {:induction false} GrantedWasThere(p: Policy, b: Option<Bucket>, calls: seq<Call>)
    requires p.Valid() && Forward(b, calls) && calls != []
    ensures StateAfter(p, b, calls).Some? && StateAfter(p, b, calls).value.lastRefill == calls[|calls| - 1].now
    ensures Granted(p, b, calls) as real + StateAfter(p, b, calls).value.tokens
      <= Level(p, b, calls[0].now) + Refill(p, calls[0].now, calls[|calls| - 1].now)
  {
    var last, before := calls[|calls| - 1], calls[..|calls| - 1];
    var s := StateAfter(p, b, before);
    CallWithinLevel(p, s, last);
    assert Granted(p, b, calls) == Granted(p, b, before) + GrantedBy(p, s, last);
    if before == [] {
      assert Refill(p, last.now, last.now) == 0.0;
    } else {
      GrantedWasThere(p, b, before);
      LevelWithinRefill(p, s.value, last.now);
      RefillsJoin(p, calls[0].now, s.value.lastRefill, last.now);
    }
  }

  lemma HistoryForward(p: Policy, history: seq<Call>, i: nat, j: nat)
    requires p.Valid() && Forward(None, history) && i < j <= |history|
    ensures Forward(StateAfter(p, None, history[..i]), history[i..j])
  {
    if i > 0 { assert history[..i][..i - 1] == history[..i - 1]; }
  }

  // Whatever came before, the calls of any stretch of time are granted at most the capacity plus what refills
  // meanwhile.
  lemma GrantedInAnyInterval(p: Policy, history: seq<Call>, i: nat, j: nat)
    requires p.Valid() && Forward(None, history) && i < j <= |history|
    ensures Granted(p, StateAfter(p, None, history[..i]), history[i..j]) as real
      <= p.capacity as real + Refill(p, history[i].now, history[j - 1].now)
  {
    var b, calls := StateAfter(p, None, history[..i]), history[i..j];
    StateIsSound(p, None, history[..i]);
    HistoryForward(p, history, i, j);
    GrantedWasThere(p, b, calls);
    LevelInBounds(p, b, calls[0].now);
    StateIsSound(p, b, calls);
  }

  // ---------------------------------------------------------------- waiting

  lemma LevelAfterDenial(p: Policy, b: Option<Bucket>, now: real, requested: nat, wait: nat)
    requires p.Valid() && Sound(p, b) && !Allows(p, b, now, requested)
    ensures Level(p, Some(Taken(p, b, now, requested)), now + wait as real)
      == Min(p.capacity as real, Level(p, b, now) + wait as real * p.Rate())
  {
    var after := Taken(p, b, now, requested);
    assert after == Bucket(Level(p, b, now), now);
    var elapsed := now + wait as real - after.lastRefill;
    assert Max(0.0, elapsed) == elapsed == wait as real;
  }

  lemma CeilIsLeast(x: real, n: int)
    ensures n as real >= x <==> n >= Ceil(x)
  {
    var f := (-x).Floor;
    assert f as real <= -x < f as real + 1.0;
  }

  // After a denial, a caller who waits alone for m whole seconds is allowed exactly when the request is not more
  // than the capacity and m is at least the retry_after it was told.
  lemma RetryAfterIsExact(p: Policy, b: Option<Bucket>, now: real, requested: nat, m: nat)
    requires p.Valid() && Sound(p, b) && !Allows(p, b, now, requested)
    ensures p.capacity > 0 ==> Told(p, b, now, requested) > 0
    ensures Allows(p, Some(Taken(p, b, now, requested)), now + m as real, requested)
      <==> requested <= p.capacity && m >= Told(p, b, now, requested)
  {
    var level, rate := Level(p, b, now), p.Rate();
    LevelAfterDenial(p, b, now, requested, m);
    LevelInBounds(p, b, now);
    if p.capacity > 0 {
      assert rate > 0.0;
      var short := requested as real - level;
      Divides(short, rate, m as real);
      Divides(short, rate, 0.0);
      CeilIsLeast(short / rate, m);
      CeilIsLeast(short / rate, 0);
    }
  }

  lemma Divides(short: real, rate: real, m: real)
    requires rate > 0.0
    ensures m >= short / rate <==> m * rate >= short
  {
    assert short / rate * rate == short;
    if m >= short / rate { assert (m - short / rate) * rate >= 0.0; }
    if m < short / rate { assert (short / rate - m) * rate > 0.0; }
  }

  // ---------------------------------------------------------------- in tokens, seconds and the policy's two numbers

  // A window's worth of refill is the capacity.
  lemma RateTimesWindow(p: Policy)
    requires p.Valid()
    ensures p.Rate() * p.window as real == p.capacity as real
  {}

  lemma Scaled(a: real, b: real, w: real)
    requires w > 0.0
    ensures a <= b <==> a * w <= b * w
  {
    if a <= b { assert (b - a) * w >= 0.0; } else { assert (a - b) * w > 0.0; }
  }

  lemma Regrouped(elapsed: real, rate: real, w: real, c: real)
    requires rate * w == c
    ensures (elapsed * rate) * w == elapsed * c
  {
    assert (elapsed * rate) * w == elapsed * (rate * w);
  }

  // Time that has passed since the last refill; a clock that went back has not moved.
  function Elapsed(b: Bucket, now: real): real {
    if now >= b.lastRefill then now - b.lastRefill else 0.0
  }

  // What a bucket holds, in units of a token per window: what it held and the capacity's share of the time passed, up
  // to the capacity.
  function Stock(p: Policy, b: Bucket, now: real): real {
    Min(p.capacity as real * p.window as real, b.tokens * p.window as real + Elapsed(b, now) * p.capacity as real)
  }

  lemma Widened(tokens: real, refill: real, w: real)
    ensures (tokens + refill) * w == tokens * w + refill * w
  {}

  lemma Narrowed(tokens: real, taken: real, w: real)
    ensures (tokens - taken) * w == tokens * w - taken * w
  {}

  lemma LeastScaled(a: real, b: real, w: real)
    requires w > 0.0
    ensures Min(a, b) * w == Min(a * w, b * w)
  {
    Scaled(a, b, w);
  }

  lemma LevelInTokens(p: Policy, b: Bucket, now: real)
    requires p.Valid()
    ensures Level(p, Some(b), now) * p.window as real == Stock(p, b, now)
  {
    var c, w, refill := p.capacity as real, p.window as real, Elapsed(b, now) * p.Rate();
    RateTimesWindow(p);
    Regrouped(Elapsed(b, now), p.Rate(), w, c);
    Widened(b.tokens, refill, w);
    LeastScaled(c, b.tokens + refill, w);
  }

  lemma AllowsWithinStock(p: Policy, b: Bucket, now: real, requested: nat)
    requires p.Valid()
    ensures Allows(p, Some(b), now, requested) <==> requested as real * p.window as real <= Stock(p, b, now)
  {
    LevelInTokens(p, b, now);
    Scaled(requested as real, Level(p, Some(b), now), p.window as real);
  }

  // What is left is the stock, less the tokens taken if the request is allowed.
  ghost predicate LeavesStock(p: Policy, b: Bucket, now: real, requested: nat, left: real)
    requires p.Valid()
  {
    left == Stock(p, b, now) - (if Allows(p, Some(b), now, requested) then requested as real else 0.0) * p.window as real
  }

  lemma TokensLeft(p: Policy, b: Bucket, now: real, requested: nat)
    requires p.Valid()
    ensures LeavesStock(p, b, now, requested, Taken(p, Some(b), now, requested).tokens * p.window as real)
  {
    LevelInTokens(p, b, now);
    var r := if Allows(p, Some(b), now, requested) then requested as real else 0.0;
    WhatIsLeft(Level(p, Some(b), now), Taken(p, Some(b), now, requested).tokens, r, p.window as real, Stock(p, b, now));
  }

  lemma WhatIsLeft(level: real, left: real, taken: real, w: real, stock: real)
    requires level * w == stock && left == level - taken
    ensures left * w == stock - taken * w
  {
    Narrowed(level, taken, w);
  }

  // A request is allowed exactly when it is within the capacity and within what the bucket holds; then, and only then,
  // its tokens are taken. A bucket not seen before is full.
  lemma AllowsExactlyWhen(p: Policy, b: Bucket, now: real, requested: nat)
    requires p.Valid()
    ensures Allows(p, Some(b), now, requested)
      <==> requested <= p.capacity
           && requested as real * p.window as real <= b.tokens * p.window as real + Elapsed(b, now) * p.capacity as real
    ensures Taken(p, Some(b), now, requested).lastRefill == now
    ensures Allows(p, None, now, requested) <==> requested <= p.capacity
    ensures Taken(p, None, now, requested)
      == Bucket(p.capacity as real - if requested <= p.capacity then requested as real else 0.0, now)
  {
    AllowsWithinStock(p, b, now, requested);
    Scaled(requested as real, p.capacity as real, p.window as real);
  }

  lemma WithinRefill(granted: real, c: real, refill: real, w: real, elapsed: real)
    requires w > 0.0 && granted <= c + refill && refill * w == elapsed * c
    ensures granted * w <= c * (w + elapsed)
  {
    Scaled(granted, c + refill, w);
    Widened(c, refill, w);
  }

  // Over any stretch of any history, the tokens granted are at most a capacity, and a capacity for each window passed.
  lemma GrantedPerWindow(p: Policy, history: seq<Call>, i: nat, j: nat)
    requires p.Valid() && Forward(None, history) && i < j <= |history|
    ensures WithinPerWindow(p, Granted(p, StateAfter(p, None, history[..i]), history[i..j]), history[i].now, history[j - 1].now)
  {
    GrantedInAnyInterval(p, history, i, j);
    RefillPerWindow(p, Granted(p, StateAfter(p, None, history[..i]), history[i..j]), history[i].now, history[j - 1].now);
  }

  // Each token granted takes up its share of a window.
  predicate WithinPerWindow(p: Policy, granted: nat, from: real, to: real) {
    granted as real * p.window as real <= p.capacity as real * (p.window as real + (to - from))
  }

  lemma RefillPerWindow(p: Policy, granted: nat, from: real, to: real)
    requires p.Valid() && granted as real <= p.capacity as real + Refill(p, from, to)
    ensures WithinPerWindow(p, granted, from, to)
  {
    var c, w, refill, elapsed := p.capacity as real, p.window as real, Refill(p, from, to), to - from;
    RateTimesWindow(p);
    Regrouped(elapsed, p.Rate(), w, c);
    WithinRefill(granted as real, c, refill, w, elapsed);
  }

  // The other side: alone after a denial, waiting m seconds is enough exactly when the request is within the capacity
  // and what is missing has been refilled; and the seconds told are the least such m.
  lemma WaitingIsEnoughExactlyWhen(p: Policy, b: Option<Bucket>, now: real, requested: nat, m: nat)
    requires p.Valid() && Sound(p, b) && !Allows(p, b, now, requested)
    ensures Allows(p, Some(Taken(p, b, now, requested)), now + m as real, requested)
      <==> requested <= p.capacity && Refilled(p, Taken(p, b, now, requested).tokens, m, requested)
    ensures requested <= p.capacity ==>
      (Refilled(p, Taken(p, b, now, requested).tokens, m, requested) <==> m >= Told(p, b, now, requested))
  {
    var after := Taken(p, b, now, requested);
    assert Elapsed(after, now + m as real) == m as real;
    AllowsExactlyWhen(p, after, now + m as real, requested);
    RetryAfterIsExact(p, b, now, requested, m);
  }

  // With what the capacity adds in m seconds, these tokens are enough.
  predicate Refilled(p: Policy, tokens: real, m: nat, requested: nat) {
    requested as real * p.window as real <= tokens * p.window as real + m as real * p.capacity as real
  }
}
