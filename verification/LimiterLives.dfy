/**
 * The limiter as one key sees it. The life of a key's bucket begins with a call and ends when the key
 * gets a new configuration or has been idle at a cleanup; within a life all verdicts are those of one
 * token bucket, which RetryAfter and the history law of TokenBucket speak of.
 */
module LimiterLives {
  import opened Keys
  import opened Numbers
  import opened TokenBucket
  import opened RetryAfter
  import opened Limiter
  import opened IdleCleanup

  /** Gone: nothing is known of the key. Assigned: the next bucket gets this configuration. Live: a
      bucket with this configuration has been made at times[0] and called at the other readings. */
  datatype Life = Gone | Assigned(cfg: Config) | Live(cfg: Config, times: seq<int>)

  /** What one operation means for the life of the key. */
  function Lived(life: Life, op: Op, key: Key, defaultCfg: Config): Life {
    match op
    case Allow(k, row, created, now) =>
      if k != key then life
      else if life.Live? then Live(life.cfg, life.times + [now])
      else if life.Assigned? then Live(life.cfg, [created, now])
      else Live(if row.Found? then row.cfg else defaultCfg, [created, now])
    case SetConfig(k, cfg) => if k == key then Assigned(cfg) else life
    case Cleanup(now) =>
      if life.Live? && life.times != [] && now - life.times[|life.times| - 1] > 600_000_000_000 then Gone else life
  }

  function LifeAfter(life: Life, ops: seq<Op>, key: Key, defaultCfg: Config): Life
    decreases |ops|
  {
    if ops == [] then life else LifeAfter(Lived(life, ops[0], key, defaultCfg), ops[1..], key, defaultCfg)
  }

  function BucketOf(life: Life): Bucket
    requires life.Live? && life.times != []
  {
    After(ONE * life.cfg.burstSize, life.cfg.requestsPerMin, life.times)
  }

  /** The limiter is where the life of the key has led it. */
  ghost predicate Matches(s: Limits, life: Life, key: Key) {
    match life
    case Gone => key !in s.buckets && key !in s.configs
    case Assigned(cfg) => key !in s.buckets && key in s.configs && s.configs[key] == cfg
    case Live(_, times) => key in s.buckets && times != [] && s.buckets[key] == BucketOf(life)
  }

  lemma OneMoreReading(capacity: int, rate: int, times: seq<int>, now: int)
    requires times != []
    ensures After(capacity, rate, times + [now]) == Charge(After(capacity, rate, times), now)
    ensures Log(capacity, rate, times + [now])
         == Log(capacity, rate, times) + [Admits(After(capacity, rate, times), now)]
  {
    assert (times + [now])[..|times|] == times;
  }

  lemma NewLife(cfg: Config, created: int, now: int)
    ensures BucketOf(Live(cfg, [created, now])) == Charge(NewBucket(cfg, created), now)
  {
    OneMoreReading(ONE * cfg.burstSize, cfg.requestsPerMin, [created], now);
    assert [created] + [now] == [created, now];
  }

  lemma AllowMatches(s: Limits, op: Op, life: Life, key: Key, defaultCfg: Config)
    requires op.Allow? && op.key == key && Matches(s, life, key)
    ensures Matches(Next(s, op, defaultCfg), Lived(life, op, key, defaultCfg), key)
  {
    var Allow(_, row, created, now) := op;
    if life.Live? {
      OneMoreReading(ONE * life.cfg.burstSize, life.cfg.requestsPerMin, life.times, now);
    } else {
      NewLife(Lived(life, op, key, defaultCfg).cfg, created, now);
    }
  }

  lemma NextMatches(s: Limits, op: Op, life: Life, key: Key, defaultCfg: Config)
    requires Matches(s, life, key)
    ensures Matches(Next(s, op, defaultCfg), Lived(life, op, key, defaultCfg), key)
  {
    if op.Allow? && op.key == key {
      AllowMatches(s, op, life, key, defaultCfg);
    } else if op.Allow? {
      OtherKeys(s, op, defaultCfg, key);
    } else if op.Cleanup? && life.Live? {
      AfterKeepsShape(ONE * life.cfg.burstSize, life.cfg.requestsPerMin, life.times);
    }
  }

  /** The limiter refines the lives of its keys: on every run, each key's bucket and configuration are
      what its own operations say. */
  lemma {:induction false} LimiterIsLives(s: Limits, ops: seq<Op>, life: Life, key: Key, defaultCfg: Config)
    requires Matches(s, life, key)
    ensures Matches(EndOf(s, ops, defaultCfg), LifeAfter(life, ops, key, defaultCfg), key)
    decreases |ops|
  {
    if ops != [] {
      NextMatches(s, ops[0], life, key, defaultCfg);
      LimiterIsLives(Next(s, ops[0], defaultCfg), ops[1..], Lived(life, ops[0], key, defaultCfg), key, defaultCfg);
    }
  }

  // ---------------------------------------------------------------- the verdicts of a run

  lemma {:induction false} LastVerdict(s: Limits, ops: seq<Op>, op: Op, defaultCfg: Config, infinite: int)
    requires op.Allow?
    ensures Verdicts(s, ops + [op], defaultCfg, infinite)
         == Verdicts(s, ops, defaultCfg, infinite)
            + [Allowed(WithBucket(EndOf(s, ops, defaultCfg), op.key, op.row, defaultCfg, op.created),
                       op.key, op.now, infinite)]
    decreases |ops|
  {
    if ops == [] {
      assert ops + [op] == [op] && [op][1..] == [];
    } else {
      assert (ops + [op])[0] == ops[0] && (ops + [op])[1..] == ops[1..] + [op];
      LastVerdict(Next(s, ops[0], defaultCfg), ops[1..], op, defaultCfg, infinite);
    }
  }

  /** The verdict on a call that comes after the run. */
  function VerdictAfter(ops: seq<Op>, op: Op, defaultCfg: Config, infinite: int): Verdict
    requires op.Allow?
  {
    LastVerdict(EMPTY, ops, op, defaultCfg, infinite);
    var all := Verdicts(EMPTY, ops + [op], defaultCfg, infinite);
    all[|all| - 1]
  }

  /** The life of the key after a run and one more call of it. */
  function LifeWith(ops: seq<Op>, op: Op, defaultCfg: Config): Life
    requires op.Allow?
  {
    Lived(LifeAfter(Gone, ops, op.key, defaultCfg), op, op.key, defaultCfg)
  }

  lemma LifeWithIsLive(ops: seq<Op>, op: Op, defaultCfg: Config)
    requires op.Allow?
    ensures LifeWith(ops, op, defaultCfg).Live? && |LifeWith(ops, op, defaultCfg).times| > 1
    ensures LifeWith(ops, op, defaultCfg).times[|LifeWith(ops, op, defaultCfg).times| - 1] == op.now
  {
    LimiterIsLives(EMPTY, ops, Gone, op.key, defaultCfg);
  }

  /** Every verdict of every run is that of the bucket of the key's life, and so of the checker that
      remembers all its calls; a refusal's wait is computed from what the call leaves in it. */
  lemma VerdictsAreOfOneBucket(ops: seq<Op>, op: Op, defaultCfg: Config, infinite: int)
    requires op.Allow?
    ensures var v := VerdictAfter(ops, op, defaultCfg, infinite);
            var life := LifeWith(ops, op, defaultCfg);
            && life.Live? && |life.times| > 1
            && v.ok == Log(ONE * life.cfg.burstSize, life.cfg.requestsPerMin, life.times)[|life.times| - 1]
            && v.ok == HistoryLog(ONE * life.cfg.burstSize, life.cfg.requestsPerMin, life.times)[|life.times| - 1]
            && v.wait == if v.ok then 0 else Wait(BucketOf(life), infinite)
  {
    var before, s := LifeAfter(Gone, ops, op.key, defaultCfg), EndOf(EMPTY, ops, defaultCfg);
    LimiterIsLives(EMPTY, ops, Gone, op.key, defaultCfg);
    LastVerdict(EMPTY, ops, op, defaultCfg, infinite);
    CallIsOfLife(s, before, op, defaultCfg);
    NextMatches(s, op, before, op.key, defaultCfg);
  }

  /** One call on a limiter that is where the key's life has led it. */
  lemma CallIsOfLife(s: Limits, life: Life, op: Op, defaultCfg: Config)
    requires op.Allow? && Matches(s, life, op.key)
    ensures var life' := Lived(life, op, op.key, defaultCfg);
            var ok := Admits(WithBucket(s, op.key, op.row, defaultCfg, op.created).buckets[op.key], op.now);
            && life'.Live? && |life'.times| > 1
            && ok == Log(ONE * life'.cfg.burstSize, life'.cfg.requestsPerMin, life'.times)[|life'.times| - 1]
            && ok == HistoryLog(ONE * life'.cfg.burstSize, life'.cfg.requestsPerMin, life'.times)[|life'.times| - 1]
  {
    var life' := Lived(life, op, op.key, defaultCfg);
    var capacity, rate := ONE * life'.cfg.burstSize, life'.cfg.requestsPerMin;
    var earlier := life'.times[..|life'.times| - 1];
    assert life'.times == earlier + [op.now];
    assert After(capacity, rate, earlier) == WithBucket(s, op.key, op.row, defaultCfg, op.created).buckets[op.key];
    OneMoreReading(capacity, rate, earlier, op.now);
    BucketIsHistoryChecker(capacity, rate, life'.times);
  }

  // ---------------------------------------------------------------- ordered runs

  /** The readings of the life are in order and not after t. */
  predicate OrderlyLife(life: Life, t: int) {
    life.Live? ==> Sorted(life.times) && EndsBy(life.times, t)
  }

  lemma LivedInOrder(life: Life, op: Op, key: Key, defaultCfg: Config, t: int)
    requires OrderlyLife(life, t) && Clocked([op], t)
    ensures OrderlyLife(Lived(life, op, key, defaultCfg), if op.SetConfig? then t else op.now)
  {
    if op.Allow? && life.Live? {
      SortedSnoc(life.times, op.now);
    }
  }

  lemma {:induction false} LivesAreOrdered(life: Life, ops: seq<Op>, op: Op, key: Key, defaultCfg: Config, t: int)
    requires OrderlyLife(life, t) && Clocked(ops + [op], t)
    ensures OrderlyLife(Lived(LifeAfter(life, ops, key, defaultCfg), op, key, defaultCfg),
                        if op.SetConfig? then LastReading(ops, t) else op.now)
    decreases |ops|
  {
    var all := ops + [op];
    if ops == [] {
      assert all == [op];
      LivedInOrder(life, op, key, defaultCfg, t);
    } else {
      var first, t' := ops[0], if ops[0].SetConfig? then t else ops[0].now;
      assert all[0] == first && all[1..] == ops[1..] + [op];
      LivedInOrder(life, first, key, defaultCfg, t);
      LivesAreOrdered(Lived(life, first, key, defaultCfg), ops[1..], op, key, defaultCfg, t');
    }
  }

  function LastReading(ops: seq<Op>, t: int): int
    decreases |ops|
  {
    if ops == [] then t else LastReading(ops[1..], if ops[0].SetConfig? then t else ops[0].now)
  }

  /** On an ordered run, the refused call leaves a bucket that RetryAfter speaks of. */
  lemma RefusalLeaves(ops: seq<Op>, op: Op, defaultCfg: Config, infinite: int, t: int)
    requires op.Allow? && Clocked(ops + [op], t) && !VerdictAfter(ops, op, defaultCfg, infinite).ok
    requires var cfg := LifeWith(ops, op, defaultCfg).cfg; cfg.requestsPerMin > 0 && cfg.burstSize > 0
    ensures var b := BucketOf(LifeWith(ops, op, defaultCfg));
            && Refused(b) && b.lastFill == op.now
            && 1 <= Header(Wait(b, infinite)) <= 60
  {
    var life := LifeWith(ops, op, defaultCfg);
    VerdictsAreOfOneBucket(ops, op, defaultCfg, infinite);
    LifeWithIsLive(ops, op, defaultCfg);
    LivesAreOrdered(Gone, ops, op, op.key, defaultCfg, t);
    HeaderRange(ONE * life.cfg.burstSize, life.cfg.requestsPerMin, life.times, infinite);
    AfterKeepsShape(ONE * life.cfg.burstSize, life.cfg.requestsPerMin, life.times);
  }

  /** The run, the call, and more operations that are not about its key. */
  lemma NextCall(ops: seq<Op>, op: Op, others: seq<Op>, op': Op, defaultCfg: Config, infinite: int)
    requires op.Allow? && op'.Allow? && op'.key == op.key
    requires LifeAfter(LifeWith(ops, op, defaultCfg), others, op.key, defaultCfg) == LifeWith(ops, op, defaultCfg)
    ensures VerdictAfter(ops + [op] + others, op', defaultCfg, infinite).ok
        <==> LifeWith(ops, op, defaultCfg).Live?
             && LifeWith(ops, op, defaultCfg).times != []
             && Admits(BucketOf(LifeWith(ops, op, defaultCfg)), op'.now)
  {
    var life := LifeWith(ops, op, defaultCfg);
    LifeWithIsLive(ops, op, defaultCfg);
    LifeAfterConcat(Gone, ops, [op], op.key, defaultCfg);
    LifeAfterOne(LifeAfter(Gone, ops, op.key, defaultCfg), op, op.key, defaultCfg);
    LifeAfterConcat(Gone, ops + [op], others, op.key, defaultCfg);
    VerdictsAreOfOneBucket(ops + [op] + others, op', defaultCfg, infinite);
    OneMoreReading(ONE * life.cfg.burstSize, life.cfg.requestsPerMin, life.times, op'.now);
  }

  lemma {:induction false} LifeAfterConcat(life: Life, ops: seq<Op>, more: seq<Op>, key: Key, defaultCfg: Config)
    ensures LifeAfter(life, ops + more, key, defaultCfg)
         == LifeAfter(LifeAfter(life, ops, key, defaultCfg), more, key, defaultCfg)
    decreases |ops|
  {
    if ops == [] {
      assert ops + more == more;
    } else {
      assert (ops + more)[0] == ops[0] && (ops + more)[1..] == ops[1..] + more;
      LifeAfterConcat(Lived(life, ops[0], key, defaultCfg), ops[1..], more, key, defaultCfg);
    }
  }

  lemma LifeAfterOne(life: Life, op: Op, key: Key, defaultCfg: Config)
    ensures LifeAfter(life, [op], key, defaultCfg) == Lived(life, op, key, defaultCfg)
  {
    assert [op][1..] == [];
  }

  /** What the wait and the header of a refused call mean for the next call of the key, whatever happens
      to other keys in between, on every run with an ordered clock: admitted from a millisecond after the
      wait on, and refused before a wait of more than a second; and the header is 1 to 60. */
  lemma WaitOfVerdict(ops: seq<Op>, op: Op, others: seq<Op>, op': Op, defaultCfg: Config, infinite: int, t: int)
    requires op.Allow? && Clocked(ops + [op], t) && !VerdictAfter(ops, op, defaultCfg, infinite).ok
    requires var cfg := LifeWith(ops, op, defaultCfg).cfg; cfg.requestsPerMin > 0 && cfg.burstSize > 0
    requires op'.Allow? && op'.key == op.key && op.now <= op'.now
    requires LifeAfter(LifeWith(ops, op, defaultCfg), others, op.key, defaultCfg) == LifeWith(ops, op, defaultCfg)
    ensures var wait := VerdictAfter(ops, op, defaultCfg, infinite).wait;
            var ok := VerdictAfter(ops + [op] + others, op', defaultCfg, infinite).ok;
            && wait >= 1_000_000_000 && 1 <= Header(wait) <= 60
            && (op'.now >= op.now + wait + 1_000_000 ==> ok)
            && (wait > 1_000_000_000 && op'.now < op.now + wait ==> !ok)
  {
    VerdictsAreOfOneBucket(ops, op, defaultCfg, infinite);
    RefusalLeaves(ops, op, defaultCfg, infinite, t);
    NextCall(ops, op, others, op', defaultCfg, infinite);
    WaitIsTwoSided(BucketOf(LifeWith(ops, op, defaultCfg)), infinite, op'.now);
  }

  /** A client that obeys the header of a verdict: when exactly it is refused again. */
  lemma RetryOfVerdict(ops: seq<Op>, op: Op, others: seq<Op>, op': Op, defaultCfg: Config, infinite: int, t: int)
    requires op.Allow? && Clocked(ops + [op], t) && !VerdictAfter(ops, op, defaultCfg, infinite).ok
    requires var cfg := LifeWith(ops, op, defaultCfg).cfg; cfg.requestsPerMin > 0 && cfg.burstSize > 0
    requires op'.Allow? && op'.key == op.key
    requires op'.now == op.now + 1_000_000_000 * Header(VerdictAfter(ops, op, defaultCfg, infinite).wait)
    requires LifeAfter(LifeWith(ops, op, defaultCfg), others, op.key, defaultCfg) == LifeWith(ops, op, defaultCfg)
    ensures LifeWith(ops, op, defaultCfg).Live? && LifeWith(ops, op, defaultCfg).times != []
    ensures var rate := LifeWith(ops, op, defaultCfg).cfg.requestsPerMin;
            var short := Shortfall(BucketOf(LifeWith(ops, op, defaultCfg)));
            !VerdictAfter(ops + [op] + others, op', defaultCfg, infinite).ok
            <==> short > 1_000_000_000 * rate && 0 < short % (1_000_000_000 * rate) < 1_000_000 * rate
  {
    var life := LifeWith(ops, op, defaultCfg);
    VerdictsAreOfOneBucket(ops, op, defaultCfg, infinite);
    RefusalLeaves(ops, op, defaultCfg, infinite, t);
    NextCall(ops, op, others, op', defaultCfg, infinite);
    AfterKeepsShape(ONE * life.cfg.burstSize, life.cfg.requestsPerMin, life.times);
    RetryOfBucket(BucketOf(life), infinite, op'.now);
  }

  lemma RetryOfBucket(b: Bucket, infinite: int, now: int)
    requires Refused(b) && now == b.lastFill + 1_000_000_000 * Header(Wait(b, infinite))
    ensures !Admits(b, now)
            <==> Shortfall(b) > 1_000_000_000 * b.rate
                 && 0 < Shortfall(b) % (1_000_000_000 * b.rate) < 1_000_000 * b.rate
  {
    RetryAtHeader(b, infinite);
  }

  // ---------------------------------------------------------------- a burst

  function Repeated(op: Op, n: nat): seq<Op> {
    seq(n, _ => op)
  }

  function At(t: int, n: nat): seq<int> {
    seq(n, _ => t)
  }

  lemma {:induction false} Drained(cfg: Config, t: int, n: nat)
    requires n <= cfg.burstSize
    ensures After(ONE * cfg.burstSize, cfg.requestsPerMin, At(t, n + 1))
         == Bucket(ONE * cfg.burstSize - n * ONE, ONE * cfg.burstSize, cfg.requestsPerMin, t)
  {
    if n > 0 {
      Drained(cfg, t, n - 1);
      assert At(t, n + 1)[..n] == At(t, n);
      assert cfg.requestsPerMin * (t - t) == 0;
    }
  }

  lemma {:induction false} LifeOfBurst(key: Key, row: Row, t: int, n: nat, defaultCfg: Config)
    requires n > 0
    ensures LifeAfter(Gone, Repeated(Allow(key, row, t, t), n), key, defaultCfg)
         == Live(Effective(row, defaultCfg), At(t, n + 1))
  {
    var op := Allow(key, row, t, t);
    if n == 1 {
      assert Repeated(op, 1) == [op] && At(t, 2) == [t, t];
      LifeAfterOne(Gone, op, key, defaultCfg);
    } else {
      LifeOfBurst(key, row, t, n - 1, defaultCfg);
      assert Repeated(op, n) == Repeated(op, n - 1) + [op] && At(t, n + 1) == At(t, n) + [t];
      LifeAfterConcat(Gone, Repeated(op, n - 1), [op], key, defaultCfg);
      LifeAfterOne(LifeAfter(Gone, Repeated(op, n - 1), key, defaultCfg), op, key, defaultCfg);
    }
  }

  lemma LifeOfCallInBurst(key: Key, row: Row, t: int, n: nat, defaultCfg: Config)
    ensures LifeWith(Repeated(Allow(key, row, t, t), n), Allow(key, row, t, t), defaultCfg)
         == Live(Effective(row, defaultCfg), At(t, n + 2))
  {
    var op := Allow(key, row, t, t);
    LifeOfBurst(key, row, t, n + 1, defaultCfg);
    assert Repeated(op, n + 1) == Repeated(op, n) + [op];
    LifeAfterConcat(Gone, Repeated(op, n), [op], key, defaultCfg);
    LifeAfterOne(LifeAfter(Gone, Repeated(op, n), key, defaultCfg), op, key, defaultCfg);
  }

  /** A new key that calls at one reading: exactly the first burstSize calls are admitted, and the next
      one is told to wait for one token's refill, in whole milliseconds, but at least a second. */
  lemma BurstThenRefused(key: Key, row: Row, t: int, n: nat, defaultCfg: Config, infinite: int)
    requires var cfg := Effective(row, defaultCfg); cfg.burstSize > 0 && cfg.requestsPerMin > 0 && n <= cfg.burstSize
    ensures var op := Allow(key, row, t, t);
            var cfg := Effective(row, defaultCfg);
            var v := VerdictAfter(Repeated(op, n), op, defaultCfg, infinite);
            && (v.ok <==> n < cfg.burstSize)
            && (!v.ok ==> v.wait == Max(1_000_000_000, 60_000 / cfg.requestsPerMin * 1_000_000))
  {
    var op, cfg := Allow(key, row, t, t), Effective(row, defaultCfg);
    VerdictsAreOfOneBucket(Repeated(op, n), op, defaultCfg, infinite);
    LifeOfCallInBurst(key, row, t, n, defaultCfg);
    CallOnDrained(cfg, t, n);
    if n == cfg.burstSize {
      OneTokenMissing(BucketOf(Live(cfg, At(t, n + 2))), infinite);
    }
  }

  lemma CallOnDrained(cfg: Config, t: int, n: nat)
    requires n <= cfg.burstSize
    ensures var capacity, rate, times := ONE * cfg.burstSize, cfg.requestsPerMin, At(t, n + 2);
            && (Log(capacity, rate, times)[n + 1] <==> n < cfg.burstSize)
            && (n == cfg.burstSize ==> After(capacity, rate, times) == Bucket(0, capacity, rate, t))
  {
    var capacity, rate := ONE * cfg.burstSize, cfg.requestsPerMin;
    Drained(cfg, t, n);
    OneMoreReading(capacity, rate, At(t, n + 1), t);
    assert At(t, n + 2) == At(t, n + 1) + [t];
    assert rate * (t - t) == 0;
  }

  lemma OneTokenMissing(b: Bucket, infinite: int)
    requires b.rate > 0 && b.tokens == 0
    ensures Wait(b, infinite) == Max(1_000_000_000, 60_000 / b.rate * 1_000_000)
  {
    CancelMillisecond(60_000, b.rate);
  }

  lemma CancelMillisecond(a: int, r: int)
    requires a >= 0 && r > 0
    ensures (1_000_000 * a) / (1_000_000 * r) == a / r
  {
    var q := a / r;
    DivideBy(a, r);
    assert 1_000_000 * r * q == 1_000_000 * (r * q);
    assert 1_000_000 * r * q <= 1_000_000 * a < 1_000_000 * r * q + 1_000_000 * r;
    Quotient(1_000_000 * a, 1_000_000 * r, q);
  }

  /** With the gateway's default of 60 requests a minute and a burst of 10, the eleventh call at one
      reading is refused with a wait of a second. */
  lemma EleventhCall(key: Key, t: int, infinite: int)
    ensures VerdictAfter(Repeated(Allow(key, NotFound, t, t), 10), Allow(key, NotFound, t, t), DEFAULT_CONFIG, infinite)
         == Verdict(false, 1_000_000_000)
  {
    BurstThenRefused(key, NotFound, t, 10, DEFAULT_CONFIG, infinite);
  }
}
