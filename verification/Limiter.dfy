/** The per-key rate limiter, with every call atomic: lazy buckets, cached configurations, and the
    removal of idle buckets. */
module Limiter {
  import opened Keys
  import opened TokenBucket

  /** Ten minutes. */
  const IDLE := 600 * SECOND

  datatype Config = Config(requestsPerMin: int, burstSize: int)

  const DEFAULT_CONFIG := Config(60, 10)

  /** What the configuration query returns; a limiter without a loader always finds nothing. */
  datatype Row = Found(cfg: Config) | NotFound

  datatype Limits = Limits(buckets: map<Key, Bucket>, configs: map<Key, Config>)

  datatype Verdict = Verdict(ok: bool, wait: int)

  function Effective(row: Row, defaultCfg: Config): Config {
    if row.Found? then row.cfg else defaultCfg
  }

  function NewBucket(cfg: Config, created: int): Bucket {
    Fresh(ONE * cfg.burstSize, cfg.requestsPerMin, created)
  }

  /** The configuration used for a key. A found row is cached; the default is not. */
  function ConfigFor(configs: map<Key, Config>, key: Key, row: Row, defaultCfg: Config): (Config, map<Key, Config>) {
    if key in configs then (configs[key], configs)
    else if row.Found? then (row.cfg, configs[key := row.cfg])
    else (defaultCfg, configs)
  }

  function WithBucket(s: Limits, key: Key, row: Row, defaultCfg: Config, created: int): (r: Limits)
    ensures key in r.buckets
  {
    if key in s.buckets then s
    else
      var (cfg, configs) := ConfigFor(s.configs, key, row, defaultCfg);
      Limits(s.buckets[key := NewBucket(cfg, created)], configs)
  }

  function Allowed(s: Limits, key: Key, now: int, infinite: int): Verdict
    requires key in s.buckets
  {
    var b := s.buckets[key];
    if Admits(b, now) then Verdict(true, 0) else Verdict(false, Wait(Charge(b, now), infinite))
  }

  function Charged(s: Limits, key: Key, now: int): Limits
    requires key in s.buckets
  {
    s.(buckets := s.buckets[key := Charge(s.buckets[key], now)])
  }

  function IdleKeys(s: Limits, now: int): set<Key> {
    set key | key in s.buckets && now - s.buckets[key].lastFill > IDLE
  }

  function Cleaned(s: Limits, now: int): Limits {
    Limits(s.buckets - IdleKeys(s, now), s.configs - IdleKeys(s, now))
  }

  function Reconfigured(s: Limits, key: Key, cfg: Config): Limits {
    Limits(s.buckets - {key}, s.configs[key := cfg])
  }

  lemma MinusTwice<K, V>(m: map<K, V>, a: set<K>, b: set<K>)
    ensures m - a - b == m - (a + b)
  {}

  class RateLimiter {
    var buckets: map<Key, Cell>
    var configs: map<Key, Config>
    const defaultCfg: Config

    /** No two keys share a bucket. */
    ghost predicate Valid()
      reads this
    {
      forall k, l :: k in buckets && l in buckets && k != l ==> buckets[k] != buckets[l]
    }

    ghost function State(): Limits
      reads this, buckets.Values
    {
      Limits(map key | key in buckets :: buckets[key].Value(), configs)
    }

    constructor (defaultCfg: Config)
      ensures Valid() && State() == Limits(map[], map[]) && this.defaultCfg == defaultCfg
    {
      buckets := map[];
      configs := map[];
      this.defaultCfg := defaultCfg;
    }

    method LoadConfig(key: Key, row: Row) returns (cfg: Config)
      modifies this`configs
      ensures (cfg, configs) == ConfigFor(old(configs), key, row, defaultCfg)
    {
      if key in configs {
        return configs[key];
      }
      if row.Found? {
        configs := configs[key := row.cfg];
        return row.cfg;
      }
      cfg := defaultCfg;
    }

    method GetBucket(key: Key, row: Row, created: int) returns (b: Cell)
      requires Valid()
      modifies this
      ensures Valid() && fresh(buckets.Values - old(buckets.Values))
      ensures key in buckets && b == buckets[key]
      ensures State() == WithBucket(old(State()), key, row, defaultCfg, created)
    {
      if key in buckets {
        return buckets[key];
      }
      var cfg := LoadConfig(key, row);
      b := new Cell(ONE * cfg.burstSize, cfg.requestsPerMin, created);
      buckets := buckets[key := b];
      StateWith(key, b);
    }

    twostate lemma StateWith(key: Key, new b: Cell)
      requires key !in old(buckets) && buckets == old(buckets)[key := b]
      requires forall k :: k in old(buckets) ==> unchanged(old(buckets[k]))
      ensures State().buckets == old(State().buckets)[key := b.Value()]
    {}

    /** created and now are the clock readings of the call, the first used for a new bucket only. */
    method Allow(key: Key, row: Row, created: int, now: int, infinite: int) returns (ok: bool, wait: int)
      requires Valid()
      modifies this, buckets.Values
      ensures Valid() && fresh(buckets.Values - old(buckets.Values))
      ensures Verdict(ok, wait) == Allowed(WithBucket(old(State()), key, row, defaultCfg, created), key, now, infinite)
      ensures State() == Charged(WithBucket(old(State()), key, row, defaultCfg, created), key, now)
    {
      var b := GetBucket(key, row, created);
      ok, wait := b.Allow(now, infinite);
    }

    method Cleanup(now: int)
      requires Valid()
      modifies this
      ensures Valid() && buckets == old(buckets) - IdleKeys(old(State()), now)
      ensures State() == Cleaned(old(State()), now)
    {
      ghost var before := State();
      ghost var gone := IdleKeys(before, now);
      ghost var removed: set<Key> := {};
      var todo := buckets.Keys;
      while todo != {}
        invariant forall key :: key in todo ==> key in buckets
        invariant removed <= gone && todo !! removed
        invariant forall key :: key in gone ==> key in todo || key in removed
        invariant buckets == old(buckets) - removed
        invariant configs == old(configs) - removed
        decreases |todo|
      {
        var key :| key in todo;
        var idle := now - buckets[key].lastFill;
        assert key in gone <==> idle > IDLE;
        todo := todo - {key};
        if idle > IDLE {
          MinusTwice(old(buckets), removed, {key});
          MinusTwice(old(configs), removed, {key});
          buckets := buckets - {key};
          configs := configs - {key};
          removed := removed + {key};
        }
      }
      assert removed == gone;
      StateWithout(gone);
    }

    twostate lemma StateWithout(gone: set<Key>)
      requires buckets == old(buckets) - gone
      requires forall key :: key in old(buckets) ==> unchanged(old(buckets[key]))
      ensures State().buckets == old(State().buckets) - gone
    {}

    method SetConfig(key: Key, cfg: Config)
      requires Valid()
      modifies this
      ensures Valid() && buckets == old(buckets) - {key}
      ensures State() == Reconfigured(old(State()), key, cfg)
    {
      configs := configs[key := cfg];
      buckets := buckets - {key};
      StateWithout({key});
    }
  }
}
