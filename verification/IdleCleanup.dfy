/** Whether callers can notice that idle buckets are removed. */
module IdleCleanup {
  import opened Keys
  import opened TokenBucket
  import opened Limiter

  datatype Op =
    | Allow(key: Key, row: Row, created: int, now: int)
    | Cleanup(now: int)
    | SetConfig(key: Key, cfg: Config)

  function Next(s: Limits, op: Op, defaultCfg: Config): Limits {
    match op
    case Allow(key, row, created, now) => Charged(WithBucket(s, key, row, defaultCfg, created), key, now)
    case Cleanup(now) => Cleaned(s, now)
    case SetConfig(key, cfg) => Reconfigured(s, key, cfg)
  }

  /** The answers and waits of the calls of a run. */
  function Verdicts(s: Limits, ops: seq<Op>, defaultCfg: Config, infinite: int): seq<Verdict>
    decreases |ops|
  {
    if ops == [] then [] else
      (match ops[0]
       case Allow(key, row, created, now) => [Allowed(WithBucket(s, key, row, defaultCfg, created), key, now, infinite)]
       case _ => [])
      + Verdicts(Next(s, ops[0], defaultCfg), ops[1..], defaultCfg, infinite)
  }

  function WithoutCleanup(ops: seq<Op>): seq<Op> {
    if ops == [] then [] else (if ops[0].Cleanup? then [] else [ops[0]]) + WithoutCleanup(ops[1..])
  }

  /** The clock readings of the run do not go back. */
  predicate Clocked(ops: seq<Op>, t: int) {
    ops == [] ||
    match ops[0]
    case Allow(_, _, created, now) => t <= created <= now && Clocked(ops[1..], now)
    case Cleanup(now) => t <= now && Clocked(ops[1..], now)
    case SetConfig(_, _) => Clocked(ops[1..], t)
  }

  /** Whenever a key's configuration is looked up or set, it is the planned one. */
  ghost predicate Steady(ops: seq<Op>, plan: Key -> Config, defaultCfg: Config) {
    ops == [] || (SteadyOp(ops[0], plan, defaultCfg) && Steady(ops[1..], plan, defaultCfg))
  }

  predicate SteadyOp(op: Op, plan: Key -> Config, defaultCfg: Config) {
    match op
    case Allow(key, row, _, _) => Effective(row, defaultCfg) == plan(key)
    case Cleanup(_) => true
    case SetConfig(key, cfg) => cfg == plan(key)
  }

  /** An idle bucket of this configuration is as good as a new one: it has refilled, or it never
      admits anything. */
  predicate Forgettable(cfg: Config) {
    cfg.burstSize <= 0 || ONE * cfg.burstSize <= cfg.requestsPerMin * (IDLE + 1)
  }

  /** For every configuration of the database, whose columns are 32 bits wide, this says that the
      burst is at most ten times the rate. */
  lemma ForgettableInPractice(cfg: Config)
    requires cfg.requestsPerMin < 0x8000_0000 && cfg.burstSize > 0
    ensures Forgettable(cfg) <==> cfg.burstSize <= 10 * cfg.requestsPerMin
  {
    assert cfg.requestsPerMin * (IDLE + 1) == ONE * (10 * cfg.requestsPerMin) + cfg.requestsPerMin;
    if cfg.burstSize > 10 * cfg.requestsPerMin {
      assert cfg.burstSize >= 10 * cfg.requestsPerMin + 1;
    }
  }

  // ---------------------------------------------------------------- the two limiters side by side

  /** A bucket in step with the clock: positive bursts stay between empty and full, and a bucket
      without burst stays as it was made unless its rate drains it. */
  predicate InStep(b: Bucket, cfg: Config, t: int) {
    && b.capacity == ONE * cfg.burstSize && b.rate == cfg.requestsPerMin && b.lastFill <= t
    && b.tokens <= b.capacity
    && (cfg.burstSize > 0 ==> 0 <= b.tokens)
    && (cfg.burstSize <= 0 && cfg.requestsPerMin >= 0 ==> b.tokens == b.capacity)
  }

  /** Buckets that answer alike: equal, or both drained by a negative rate. */
  predicate Twins(x: Bucket, y: Bucket, cfg: Config, t: int) {
    && InStep(x, cfg, t) && InStep(y, cfg, t) && x.lastFill == y.lastFill
    && (x.tokens == y.tokens || (cfg.burstSize <= 0 && cfg.requestsPerMin < 0))
  }

  lemma Gain(rate: int, elapsed: int)
    requires elapsed >= 0
    ensures rate >= 0 ==> rate * elapsed >= 0
    ensures rate <= 0 ==> rate * elapsed <= 0
  {}

  lemma ForgettableRate(cfg: Config)
    requires Forgettable(cfg) && cfg.burstSize > 0
    ensures cfg.requestsPerMin > 0
  {}

  lemma ChargeInStep(b: Bucket, cfg: Config, t: int, now: int)
    requires InStep(b, cfg, t) && t <= now && Forgettable(cfg)
    ensures InStep(Charge(b, now), cfg, now)
    ensures cfg.burstSize <= 0 ==> !Admits(b, now)
  {
    Gain(b.rate, now - b.lastFill);
    if cfg.burstSize > 0 {
      ForgettableRate(cfg);
    }
  }

  lemma DrainedWait(b: Bucket, infinite: int)
    requires b.tokens < ONE && b.rate < 0
    ensures Wait(b, infinite) == SECOND
  {
    var s, d := ONE - b.tokens, MILLISECOND * b.rate;
    assert Truncated(s, d) == -(s / -d);
    QuotientSign(s, -d);
  }

  lemma QuotientSign(s: int, d: int)
    requires s >= 0 && d > 0
    ensures s / d >= 0
  {}

  /** Twins give the same verdict and stay twins. */
  lemma TwinsAgree(x: Bucket, y: Bucket, cfg: Config, t: int, now: int, infinite: int)
    requires Twins(x, y, cfg, t) && t <= now && Forgettable(cfg)
    ensures Twins(Charge(x, now), Charge(y, now), cfg, now)
    ensures Admits(x, now) == Admits(y, now)
    ensures !Admits(x, now) ==> Wait(Charge(x, now), infinite) == Wait(Charge(y, now), infinite)
  {
    ChargeInStep(x, cfg, t, now);
    ChargeInStep(y, cfg, t, now);
    if x.tokens != y.tokens {
      DrainedWait(Charge(x, now), infinite);
      DrainedWait(Charge(y, now), infinite);
    }
  }

  /** A new bucket in place of one that has been idle answers as the old one would. */
  lemma NewIsTwinOfIdle(y: Bucket, cfg: Config, created: int, now: int, infinite: int)
    requires InStep(y, cfg, created) && created - y.lastFill > IDLE && created <= now && Forgettable(cfg)
    ensures var x := NewBucket(cfg, created);
            && Twins(Charge(x, now), Charge(y, now), cfg, now)
            && Admits(x, now) == Admits(y, now)
            && (!Admits(x, now) ==> Wait(Charge(x, now), infinite) == Wait(Charge(y, now), infinite))
  {
    var x := NewBucket(cfg, created);
    ChargeInStep(x, cfg, created, now);
    ChargeInStep(y, cfg, created, now);
    Gain(x.rate, now - created);
    if cfg.burstSize > 0 {
      ForgettableRate(cfg);
      assert cfg.requestsPerMin * (now - y.lastFill)
          == cfg.requestsPerMin * (IDLE + 1) + cfg.requestsPerMin * (now - y.lastFill - IDLE - 1);
      Gain(y.rate, now - y.lastFill - IDLE - 1);
    } else if cfg.requestsPerMin < 0 {
      DrainedWait(Charge(x, now), infinite);
      DrainedWait(Charge(y, now), infinite);
    }
  }

  /** The cleaned limiter a against the uncleaned b, seen from one key: a bucket that only b holds
      is idle. */
  ghost predicate RelatedAt(a: Limits, b: Limits, cfg: Config, t: int, key: Key) {
    && (key in a.configs ==> a.configs[key] == cfg)
    && (key in b.configs ==> b.configs[key] == cfg)
    && (key in a.buckets ==> key in b.buckets && Twins(a.buckets[key], b.buckets[key], cfg, t))
    && (key in b.buckets ==> InStep(b.buckets[key], cfg, t))
    && (key in b.buckets && key !in a.buckets ==> t - b.buckets[key].lastFill > IDLE)
  }

  ghost predicate Related(a: Limits, b: Limits, plan: Key -> Config, t: int) {
    forall key :: RelatedAt(a, b, plan(key), t, key)
  }

  lemma RelatedLater(a: Limits, b: Limits, plan: Key -> Config, t: int, t': int)
    requires Related(a, b, plan, t) && t <= t'
    ensures Related(a, b, plan, t')
  {
    forall key ensures RelatedAt(a, b, plan(key), t', key) {
      assert RelatedAt(a, b, plan(key), t, key);
    }
  }

  lemma CleanupKeepsRelated(a: Limits, b: Limits, plan: Key -> Config, t: int)
    requires Related(a, b, plan, t)
    ensures Related(Cleaned(a, t), b, plan, t)
  {
    forall key ensures RelatedAt(Cleaned(a, t), b, plan(key), t, key) {
      assert RelatedAt(a, b, plan(key), t, key);
    }
  }

  lemma SetConfigKeepsRelated(a: Limits, b: Limits, plan: Key -> Config, t: int, key: Key)
    requires Related(a, b, plan, t)
    ensures Related(Reconfigured(a, key, plan(key)), Reconfigured(b, key, plan(key)), plan, t)
  {
    forall k ensures RelatedAt(Reconfigured(a, key, plan(key)), Reconfigured(b, key, plan(key)), plan(k), t, k) {
      assert RelatedAt(a, b, plan(k), t, k);
    }
  }

  lemma AllowAtKey(a: Limits, b: Limits, cfg: Config, defaultCfg: Config, op: Op, infinite: int)
    requires op.Allow? && op.created <= op.now && Effective(op.row, defaultCfg) == cfg
    requires RelatedAt(a, b, cfg, op.created, op.key) && Forgettable(cfg)
    ensures RelatedAt(Next(a, op, defaultCfg), Next(b, op, defaultCfg), cfg, op.now, op.key)
    ensures Allowed(WithBucket(a, op.key, op.row, defaultCfg, op.created), op.key, op.now, infinite)
         == Allowed(WithBucket(b, op.key, op.row, defaultCfg, op.created), op.key, op.now, infinite)
  {
    var Allow(key, row, created, now) := op;
    var a', b' := WithBucket(a, key, row, defaultCfg, created), WithBucket(b, key, row, defaultCfg, created);
    if key in b.buckets && key !in a.buckets {
      assert a'.buckets[key] == NewBucket(cfg, created);
      NewIsTwinOfIdle(b.buckets[key], cfg, created, now, infinite);
    } else {
      assert Twins(a'.buckets[key], b'.buckets[key], cfg, created);
      TwinsAgree(a'.buckets[key], b'.buckets[key], cfg, created, now, infinite);
    }
  }

  lemma OtherKeys(s: Limits, op: Op, defaultCfg: Config, k: Key)
    requires op.Allow? && k != op.key
    ensures var s' := Next(s, op, defaultCfg);
            && (k in s'.buckets <==> k in s.buckets) && (k in s.buckets ==> s'.buckets[k] == s.buckets[k])
            && (k in s'.configs <==> k in s.configs) && (k in s.configs ==> s'.configs[k] == s.configs[k])
  {}

  lemma AllowKeepsRelated(a: Limits, b: Limits, plan: Key -> Config, defaultCfg: Config, t: int, op: Op, infinite: int)
    requires op.Allow? && Related(a, b, plan, t) && Forgettable(plan(op.key))
    requires t <= op.created <= op.now && SteadyOp(op, plan, defaultCfg)
    ensures Related(Next(a, op, defaultCfg), Next(b, op, defaultCfg), plan, op.now)
    ensures Allowed(WithBucket(a, op.key, op.row, defaultCfg, op.created), op.key, op.now, infinite)
         == Allowed(WithBucket(b, op.key, op.row, defaultCfg, op.created), op.key, op.now, infinite)
  {
    RelatedLater(a, b, plan, t, op.created);
    assert RelatedAt(a, b, plan(op.key), op.created, op.key);
    AllowAtKey(a, b, plan(op.key), defaultCfg, op, infinite);
    RelatedLater(a, b, plan, t, op.now);
    forall k ensures RelatedAt(Next(a, op, defaultCfg), Next(b, op, defaultCfg), plan(k), op.now, k) {
      assert RelatedAt(a, b, plan(k), op.now, k);
      if k != op.key {
        OtherKeys(a, op, defaultCfg, k);
        OtherKeys(b, op, defaultCfg, k);
      }
    }
  }

  lemma {:induction false} RelatedRunsAgree(a: Limits, b: Limits, ops: seq<Op>, plan: Key -> Config,
                                            defaultCfg: Config, t: int, infinite: int)
    requires Related(a, b, plan, t) && Clocked(ops, t) && Steady(ops, plan, defaultCfg)
    requires forall key :: Forgettable(plan(key))
    ensures Verdicts(a, ops, defaultCfg, infinite) == Verdicts(b, WithoutCleanup(ops), defaultCfg, infinite)
    decreases |ops|
  {
    if ops != [] {
      var op, rest := ops[0], ops[1..];
      var a' := Next(a, op, defaultCfg);
      match op
      case Cleanup(now) =>
        RelatedLater(a, b, plan, t, now);
        CleanupKeepsRelated(a, b, plan, now);
        RelatedRunsAgree(a', b, rest, plan, defaultCfg, now, infinite);
        assert WithoutCleanup(ops) == WithoutCleanup(rest);
      case Allow(_, _, _, now) =>
        AllowKeepsRelated(a, b, plan, defaultCfg, t, op, infinite);
        RelatedRunsAgree(a', Next(b, op, defaultCfg), rest, plan, defaultCfg, now, infinite);
        assert WithoutCleanup(ops)[1..] == WithoutCleanup(rest);
      case SetConfig(key, _) =>
        SetConfigKeepsRelated(a, b, plan, t, key);
        RelatedRunsAgree(a', Next(b, op, defaultCfg), rest, plan, defaultCfg, t, infinite);
        assert WithoutCleanup(ops)[1..] == WithoutCleanup(rest);
    }
  }

  // ---------------------------------------------------------------- the exact condition

  const EMPTY := Limits(map[], map[])

  /** No run that starts empty, with the clock at t, shows whether idle buckets are removed. */
  ghost predicate Invisible(plan: Key -> Config, defaultCfg: Config, t: int, infinite: int) {
    forall ops :: Clocked(ops, t) && Steady(ops, plan, defaultCfg) ==>
      Verdicts(EMPTY, ops, defaultCfg, infinite) == Verdicts(EMPTY, WithoutCleanup(ops), defaultCfg, infinite)
  }

  function Times(op: Op, n: nat, rest: seq<Op>): seq<Op> {
    if n == 0 then rest else [op] + Times(op, n - 1, rest)
  }

  predicate AllOk(vs: seq<Verdict>) {
    forall v :: v in vs ==> v.ok
  }

  lemma FirstVerdict(s: Limits, op: Op, rest: seq<Op>, defaultCfg: Config, infinite: int)
    requires op.Allow?
    ensures var head := Allowed(WithBucket(s, op.key, op.row, defaultCfg, op.created), op.key, op.now, infinite);
            AllOk(Verdicts(s, [op] + rest, defaultCfg, infinite))
            <==> head.ok && AllOk(Verdicts(Next(s, op, defaultCfg), rest, defaultCfg, infinite))
  {
    var head := Allowed(WithBucket(s, op.key, op.row, defaultCfg, op.created), op.key, op.now, infinite);
    assert ([op] + rest)[1..] == rest;
    var tail := Verdicts(Next(s, op, defaultCfg), rest, defaultCfg, infinite);
    assert Verdicts(s, [op] + rest, defaultCfg, infinite) == [head] + tail;
    assert forall v :: v in [head] + tail <==> v == head || v in tail;
  }

  /** The limiter after n admitted calls of one key at one reading. */
  function Drawn(s: Limits, op: Op, n: nat, defaultCfg: Config): Limits
    requires op.Allow?
  {
    var first := WithBucket(s, op.key, op.row, defaultCfg, op.now);
    var b := first.buckets[op.key];
    first.(buckets := first.buckets[op.key := b.(tokens := Refilled(b, op.now) - n * ONE, lastFill := op.now)])
  }

  lemma DrawOneMore(s: Limits, op: Op, n: nat, defaultCfg: Config)
    requires op.Allow? && op.created == op.now
    requires Refilled(WithBucket(s, op.key, op.row, defaultCfg, op.now).buckets[op.key], op.now) >= ONE
    ensures Next(s, op, defaultCfg) == Drawn(s, op, 1, defaultCfg)
    ensures Drawn(Next(s, op, defaultCfg), op, n, defaultCfg) == Drawn(s, op, n + 1, defaultCfg)
  {
    var b := WithBucket(s, op.key, op.row, defaultCfg, op.now).buckets[op.key];
    var b' := Charge(b, op.now);
    assert b'.rate * (op.now - b'.lastFill) == 0;
    assert Refilled(b', op.now) == Refilled(b, op.now) - ONE;
    assert Drawn(Next(s, op, defaultCfg), op, n, defaultCfg).buckets == Drawn(s, op, n + 1, defaultCfg).buckets;
  }

  /** n calls at one reading, when the bucket holds enough for all of them. */
  lemma {:induction false} BurstAdmitted(s: Limits, op: Op, n: nat, rest: seq<Op>, defaultCfg: Config, infinite: int)
    requires op.Allow? && op.created == op.now && n > 0
    requires Refilled(WithBucket(s, op.key, op.row, defaultCfg, op.now).buckets[op.key], op.now) >= n * ONE
    ensures AllOk(Verdicts(s, Times(op, n, rest), defaultCfg, infinite))
            <==> AllOk(Verdicts(Drawn(s, op, n, defaultCfg), rest, defaultCfg, infinite))
    decreases n
  {
    DrawOneMore(s, op, n - 1, defaultCfg);
    FirstVerdict(s, op, Times(op, n - 1, rest), defaultCfg, infinite);
    if n > 1 {
      BurstAdmitted(Next(s, op, defaultCfg), op, n - 1, rest, defaultCfg, infinite);
    }
  }

  /** n calls at one reading, when the bucket does not hold enough. */
  lemma {:induction false} BurstRefused(s: Limits, op: Op, n: nat, defaultCfg: Config, infinite: int)
    requires op.Allow? && op.created == op.now && n > 0
    requires Refilled(WithBucket(s, op.key, op.row, defaultCfg, op.now).buckets[op.key], op.now) < n * ONE
    ensures !AllOk(Verdicts(s, Times(op, n, []), defaultCfg, infinite))
    decreases n
  {
    FirstVerdict(s, op, Times(op, n - 1, []), defaultCfg, infinite);
    if Admits(WithBucket(s, op.key, op.row, defaultCfg, op.now).buckets[op.key], op.now) {
      DrawOneMore(s, op, n - 1, defaultCfg);
      BurstRefused(Next(s, op, defaultCfg), op, n - 1, defaultCfg, infinite);
    }
  }

  lemma {:induction false} TimesIsFair(op: Op, n: nat, rest: seq<Op>, plan: Key -> Config, defaultCfg: Config)
    requires op.Allow? && op.created == op.now && SteadyOp(op, plan, defaultCfg)
    requires Clocked(rest, op.now) && Steady(rest, plan, defaultCfg)
    ensures Clocked(Times(op, n, rest), op.now) && Steady(Times(op, n, rest), plan, defaultCfg)
    ensures WithoutCleanup(Times(op, n, rest)) == Times(op, n, WithoutCleanup(rest))
  {
    if n > 0 {
      TimesIsFair(op, n - 1, rest, plan, defaultCfg);
      assert Times(op, n, rest)[1..] == Times(op, n - 1, rest);
    }
  }

  /** A burst, a cleanup just after ten minutes, and a second burst: only the cleaned limiter admits
      it all. */
  lemma CleanupShows(key: Key, plan: Key -> Config, defaultCfg: Config, t: int, infinite: int)
    requires !Forgettable(plan(key))
    ensures !Invisible(plan, defaultCfg, t, infinite)
  {
    var cfg := plan(key);
    var n := cfg.burstSize;
    var later := t + IDLE + 1;
    var first, second := Allow(key, Found(cfg), t, t), Allow(key, Found(cfg), later, later);
    var tail := [Cleanup(later)] + Times(second, n, []);
    var ops := Times(first, n, tail);
    assert tail[1..] == Times(second, n, []);

    var drained := Drawn(EMPTY, first, n, defaultCfg);
    BurstAdmitted(EMPTY, first, n, tail, defaultCfg, infinite);
    var cleaned := Cleaned(drained, later);
    assert Verdicts(drained, tail, defaultCfg, infinite) == Verdicts(cleaned, tail[1..], defaultCfg, infinite);
    assert key !in cleaned.buckets && key !in cleaned.configs;
    BurstAdmitted(cleaned, second, n, [], defaultCfg, infinite);

    TimesIsFair(second, n, [], plan, defaultCfg);
    assert Clocked(tail, t) && Steady(tail, plan, defaultCfg);
    TimesIsFair(first, n, tail, plan, defaultCfg);
    assert WithoutCleanup(tail) == Times(second, n, []);

    BurstAdmitted(EMPTY, first, n, Times(second, n, []), defaultCfg, infinite);
    assert later - t == IDLE + 1;
    BurstRefused(drained, second, n, defaultCfg, infinite);
    assert AllOk(Verdicts(EMPTY, ops, defaultCfg, infinite));
    assert !AllOk(Verdicts(EMPTY, WithoutCleanup(ops), defaultCfg, infinite));
  }

  /** Removing idle buckets is invisible on every run exactly when every configuration in use is
      forgettable. */
  lemma CleanupInvisibleIff(plan: Key -> Config, defaultCfg: Config, t: int, infinite: int)
    ensures Invisible(plan, defaultCfg, t, infinite) <==> forall key :: Forgettable(plan(key))
  {
    if forall key :: Forgettable(plan(key)) {
      forall ops | Clocked(ops, t) && Steady(ops, plan, defaultCfg)
        ensures Verdicts(EMPTY, ops, defaultCfg, infinite) == Verdicts(EMPTY, WithoutCleanup(ops), defaultCfg, infinite)
      {
        RelatedRunsAgree(EMPTY, EMPTY, ops, plan, defaultCfg, t, infinite);
      }
    } else {
      var key :| !Forgettable(plan(key));
      CleanupShows(key, plan, defaultCfg, t, infinite);
    }
  }

  // ---------------------------------------------------------------- configurations and buckets

  /** With atomic calls, a live bucket has the capacity and rate of the cached configuration. */
  ghost predicate Matching(s: Limits) {
    forall key :: key in s.buckets && key in s.configs ==>
      s.buckets[key].capacity == ONE * s.configs[key].burstSize && s.buckets[key].rate == s.configs[key].requestsPerMin
  }

  function EndOf(s: Limits, ops: seq<Op>, defaultCfg: Config): Limits
    decreases |ops|
  {
    if ops == [] then s else EndOf(Next(s, ops[0], defaultCfg), ops[1..], defaultCfg)
  }

  lemma {:induction false} BucketsMatchConfigs(s: Limits, ops: seq<Op>, defaultCfg: Config)
    requires Matching(s)
    ensures Matching(EndOf(s, ops, defaultCfg))
    decreases |ops|
  {
    if ops != [] {
      BucketsMatchConfigs(Next(s, ops[0], defaultCfg), ops[1..], defaultCfg);
    }
  }

  // ---------------------------------------------------------------- the configuration of a live bucket

  /** The same calls, except that for keys with a bucket the configuration query may return something
      else. No bucket is taken away. */
  predicate SameButLateRows(ops: seq<Op>, ops': seq<Op>, live: set<Key>) {
    && |ops| == |ops'|
    && (ops != [] ==>
          && ops[0].Allow? && ops'[0].Allow? && ops[0].(row := ops'[0].row) == ops'[0]
          && (ops[0].key !in live ==> ops[0] == ops'[0])
          && SameButLateRows(ops[1..], ops'[1..], live + {ops[0].key}))
  }

  /** A configuration is read once: what the query would return later makes no difference to a key
      that has a bucket. */
  lemma {:induction false} LiveBucketIgnoresRows(s: Limits, ops: seq<Op>, ops': seq<Op>,
                                                 defaultCfg: Config, infinite: int)
    requires SameButLateRows(ops, ops', s.buckets.Keys)
    ensures Verdicts(s, ops, defaultCfg, infinite) == Verdicts(s, ops', defaultCfg, infinite)
    decreases |ops|
  {
    if ops != [] {
      var next := Next(s, ops[0], defaultCfg);
      assert next.buckets.Keys == s.buckets.Keys + {ops[0].key};
      LiveBucketIgnoresRows(next, ops[1..], ops'[1..], defaultCfg, infinite);
    }
  }
}
