/**
 * Concurrent calls of the limiter. Between the steps of one call, any number of steps of other
 * calls may happen: bucket lookup, configuration lookup, query, configuration store, re-checked
 * insert, clock reading, bucket update. A clock reading can be applied long after it was taken.
 */
module LimiterThreads {
  import opened Keys
  import opened TokenBucket
  import opened Limiter

  type ThreadId = nat

  /** An allocated bucket, with the key it was made for, and the configuration and the clock reading
      it was made from. */
  datatype CellState = CellState(bucket: Bucket, key: Key, made: Config, created: int)

  datatype Stage =
    | NeedsConfig(key: Key)
    | Querying(key: Key)
    | Storing(key: Key, cfg: Config)
    | HasConfig(key: Key, cfg: Config)
    | Holding(key: Key, cell: nat)
    | Timed(key: Key, cell: nat, now: int)

  /** One update of a bucket. */
  datatype Charging = Charging(key: Key, cell: nat, now: int, ok: bool)

  datatype State = State(
    cells: seq<CellState>,
    index: map<Key, nat>,
    configs: map<Key, Config>,
    threads: map<ThreadId, Stage>,
    log: seq<Charging>)

  datatype Event =
    | Lookup(t: ThreadId, key: Key)
    | CheckConfig(t: ThreadId)
    | Query(t: ThreadId, key: Key, row: Row)
    | StoreConfig(t: ThreadId)
    | Insert(t: ThreadId, created: int)
    | ReadClock(t: ThreadId, now: int)
    | Update(t: ThreadId)
    | Reconfigure(key: Key, cfg: Config)
    | Cleanup(now: int)

  const INIT := State([], map[], map[], map[], [])

  predicate Enabled(s: State, e: Event) {
    match e
    case Lookup(t, _) => t !in s.threads
    case CheckConfig(t) => t in s.threads && s.threads[t].NeedsConfig?
    case Query(t, key, _) => t in s.threads && s.threads[t] == Querying(key)
    case StoreConfig(t) => t in s.threads && s.threads[t].Storing?
    case Insert(t, _) => t in s.threads && s.threads[t].HasConfig?
    case ReadClock(t, _) => t in s.threads && s.threads[t].Holding?
    case Update(t) => t in s.threads && s.threads[t].Timed? && s.threads[t].cell < |s.cells|
    case Reconfigure(_, _) => true
    case Cleanup(_) => true
  }

  function Goto(s: State, t: ThreadId, stage: Stage): State {
    s.(threads := s.threads[t := stage])
  }

  function Idle(s: State, now: int): set<Key> {
    set key | key in s.index && s.index[key] < |s.cells| && now - s.cells[s.index[key]].bucket.lastFill > IDLE
  }

  function Next(s: State, e: Event, defaultCfg: Config): State
    requires Enabled(s, e)
  {
    match e
    case Lookup(t, key) => Goto(s, t, if key in s.index then Holding(key, s.index[key]) else NeedsConfig(key))
    case CheckConfig(t) =>
      var key := s.threads[t].key;
      Goto(s, t, if key in s.configs then HasConfig(key, s.configs[key]) else Querying(key))
    case Query(t, key, row) =>
      Goto(s, t, if row.Found? then Storing(key, row.cfg) else HasConfig(key, defaultCfg))
    case StoreConfig(t) =>
      var Storing(key, cfg) := s.threads[t];
      Goto(s, t, HasConfig(key, cfg)).(configs := s.configs[key := cfg])
    case Insert(t, created) =>
      var HasConfig(key, cfg) := s.threads[t];
      if key in s.index then Goto(s, t, Holding(key, s.index[key]))
      else Goto(s, t, Holding(key, |s.cells|)).(
             cells := s.cells + [CellState(NewBucket(cfg, created), key, cfg, created)],
             index := s.index[key := |s.cells|])
    case ReadClock(t, now) => Goto(s, t, Timed(s.threads[t].key, s.threads[t].cell, now))
    case Update(t) =>
      var Timed(key, cell, now) := s.threads[t];
      var c := s.cells[cell];
      s.(threads := s.threads - {t},
         cells := s.cells[cell := c.(bucket := Charge(c.bucket, now))],
         log := s.log + [Charging(key, cell, now, Admits(c.bucket, now))])
    case Reconfigure(key, cfg) => s.(configs := s.configs[key := cfg], index := s.index - {key})
    case Cleanup(now) => s.(index := s.index - Idle(s, now), configs := s.configs - Idle(s, now))
  }

  predicate CanRun(s: State, es: seq<Event>, defaultCfg: Config)
    decreases |es|
  {
    es == [] || (Enabled(s, es[0]) && CanRun(Next(s, es[0], defaultCfg), es[1..], defaultCfg))
  }

  function EndOf(s: State, es: seq<Event>, defaultCfg: Config): State
    requires CanRun(s, es, defaultCfg)
    decreases |es|
  {
    if es == [] then s else EndOf(Next(s, es[0], defaultCfg), es[1..], defaultCfg)
  }

  /** No bucket is taken away during the run. */
  predicate Undisturbed(es: seq<Event>) {
    forall e :: e in es ==> Quiet(e)
  }

  predicate Quiet(e: Event) {
    !e.Reconfigure? && !e.Cleanup?
  }

  // ---------------------------------------------------------------- what one bucket sees

  /** The updates of one bucket, in their order. */
  function Of(log: seq<Charging>, cell: nat): seq<Charging> {
    if log == [] then [] else
      var n := |log| - 1;
      if log[n].cell == cell then Of(log[..n], cell) + [log[n]] else Of(log[..n], cell)
  }

  function Readings(us: seq<Charging>): seq<int> {
    seq(|us|, i requires 0 <= i < |us| => us[i].now)
  }

  function Answers(us: seq<Charging>): seq<bool> {
    seq(|us|, i requires 0 <= i < |us| => us[i].ok)
  }

  /** The cell is where one bucket, called with these readings one after the other, would be, and
      gave the same answers. */
  ghost predicate Sequential(c: CellState, us: seq<Charging>) {
    var capacity, rate, times := ONE * c.made.burstSize, c.made.requestsPerMin, [c.created] + Readings(us);
    && c.bucket == After(capacity, rate, times)
    && Log(capacity, rate, times) == [false] + Answers(us)
  }

  /** A bucket of the key. */
  predicate Owned(s: State, cell: nat, key: Key) {
    cell < |s.cells| && s.cells[cell].key == key
  }

  predicate OwnedStage(s: State, stage: Stage) {
    stage.Holding? || stage.Timed? ==> Owned(s, stage.cell, stage.key)
  }

  /** Every index entry, thread and update refers to a bucket made for its key. */
  ghost predicate Tidy(s: State) {
    && (forall key :: key in s.index ==> Owned(s, s.index[key], key))
    && (forall t :: t in s.threads ==> OwnedStage(s, s.threads[t]))
    && (forall c :: c in s.log ==> Owned(s, c.cell, c.key))
  }

  ghost predicate Faithful(s: State) {
    forall cell :: 0 <= cell < |s.cells| ==> Sequential(s.cells[cell], Of(s.log, cell))
  }

  ghost predicate Sound(s: State) {
    Tidy(s) && Faithful(s)
  }

  lemma NextKeepsTidy(s: State, e: Event, defaultCfg: Config)
    requires Tidy(s) && Enabled(s, e)
    ensures Tidy(Next(s, e, defaultCfg))
  {
    var s' := Next(s, e, defaultCfg);
    forall cell: nat, key | Owned(s, cell, key) ensures Owned(s', cell, key) {}
    forall t | t in s'.threads ensures OwnedStage(s', s'.threads[t]) {
      if t in s.threads {
        assert OwnedStage(s, s.threads[t]);
      }
    }
    forall c | c in s'.log ensures Owned(s', c.cell, c.key) {
      if c !in s.log {
        assert e.Update? && OwnedStage(s, s.threads[e.t]);
      }
    }
  }

  lemma OfSnoc(log: seq<Charging>, c: Charging, cell: nat)
    ensures Of(log + [c], cell) == if c.cell == cell then Of(log, cell) + [c] else Of(log, cell)
  {
    assert (log + [c])[..|log|] == log;
  }

  lemma {:induction false} OfUnused(log: seq<Charging>, cell: nat)
    requires forall c :: c in log ==> c.cell != cell
    ensures Of(log, cell) == []
  {
    if log != [] {
      var n := |log| - 1;
      assert log[n] in log && forall c :: c in log[..n] ==> c in log;
      OfUnused(log[..n], cell);
    }
  }

  lemma OneMoreReading(c: CellState, us: seq<Charging>, u: Charging)
    requires Sequential(c, us) && u.ok == Admits(c.bucket, u.now)
    ensures Sequential(c.(bucket := Charge(c.bucket, u.now)), us + [u])
  {
    var times := [c.created] + Readings(us);
    var times' := [c.created] + Readings(us + [u]);
    assert times' == times + [u.now] && times'[..|times|] == times;
    assert [false] + Answers(us) + [u.ok] == [false] + Answers(us + [u]);
  }

  lemma UpdateKeepsFaithful(s: State, t: ThreadId, defaultCfg: Config)
    requires Faithful(s) && Enabled(s, Update(t))
    ensures Faithful(Next(s, Update(t), defaultCfg))
  {
    var s' := Next(s, Update(t), defaultCfg);
    var Timed(key, cell, now) := s.threads[t];
    var u := Charging(key, cell, now, Admits(s.cells[cell].bucket, now));
    forall i | 0 <= i < |s'.cells| ensures Sequential(s'.cells[i], Of(s'.log, i)) {
      OfSnoc(s.log, u, i);
      assert Sequential(s.cells[i], Of(s.log, i));
      if i == cell {
        OneMoreReading(s.cells[i], Of(s.log, i), u);
      }
    }
  }

  lemma NewIsSequential(key: Key, cfg: Config, created: int)
    ensures Sequential(CellState(NewBucket(cfg, created), key, cfg, created), [])
  {
    assert [created] + Readings([]) == [created] && [false] + Answers([]) == [false];
  }

  lemma InsertKeepsFaithful(s: State, t: ThreadId, created: int, defaultCfg: Config)
    requires Sound(s) && Enabled(s, Insert(t, created))
    ensures Faithful(Next(s, Insert(t, created), defaultCfg))
  {
    var HasConfig(key, cfg) := s.threads[t];
    NewIsSequential(key, cfg, created);
    forall c | c in s.log ensures c.cell != |s.cells| {
      assert Owned(s, c.cell, c.key);
    }
    OfUnused(s.log, |s.cells|);
  }

  lemma NextKeepsSound(s: State, e: Event, defaultCfg: Config)
    requires Sound(s) && Enabled(s, e)
    ensures Sound(Next(s, e, defaultCfg))
  {
    NextKeepsTidy(s, e, defaultCfg);
    if e.Update? {
      UpdateKeepsFaithful(s, e.t, defaultCfg);
    } else if e.Insert? {
      InsertKeepsFaithful(s, e.t, e.created, defaultCfg);
    }
  }

  lemma {:induction false} RunKeepsSound(s: State, es: seq<Event>, defaultCfg: Config)
    requires Sound(s) && CanRun(s, es, defaultCfg)
    ensures Sound(EndOf(s, es, defaultCfg))
    decreases |es|
  {
    if es != [] {
      NextKeepsSound(s, es[0], defaultCfg);
      RunKeepsSound(Next(s, es[0], defaultCfg), es[1..], defaultCfg);
    }
  }

  /** The admissions are paid by the burst and the rate over the time. */
  predicate Affordable(c: CellState, answers: seq<bool>, from: int, to: int) {
    ONE * Count(answers) <= ONE * c.made.burstSize + c.made.requestsPerMin * (to - from)
  }

  /** On every run, removals and replacements included, every bucket ever made answers as it would to
      the same readings one call after the other. Its admissions up to any admitted update are at most
      the burst plus the rate times the time from its creation to the reading of that update; and the
      same holds of any later part of its updates, counted from an earlier one. */
  lemma AdmissionBound(es: seq<Event>, cell: nat, defaultCfg: Config, j: nat, i: nat)
    requires CanRun(INIT, es, defaultCfg) && cell < |EndOf(INIT, es, defaultCfg).cells|
    requires var us := Of(EndOf(INIT, es, defaultCfg).log, cell); j <= i < |us| && us[i].ok
    ensures var s := EndOf(INIT, es, defaultCfg);
            var c, us := s.cells[cell], Of(s.log, cell);
            && Sequential(c, us)
            && Affordable(c, Answers(us)[..i + 1], c.created, us[i].now)
            && Affordable(c, Answers(us)[j..i + 1], us[j].now, us[i].now)
  {
    var s := EndOf(INIT, es, defaultCfg);
    RunKeepsSound(INIT, es, defaultCfg);
    BoundFromCreation(s.cells[cell], Of(s.log, cell), i);
    BoundFromUpdate(s.cells[cell], Of(s.log, cell), j, i);
  }

  lemma BoundFromCreation(c: CellState, us: seq<Charging>, i: nat)
    requires Sequential(c, us) && i < |us| && us[i].ok
    ensures Affordable(c, Answers(us)[..i + 1], c.created, us[i].now)
  {
    var answers := Answers(us);
    var times, log := [c.created] + Readings(us), [false] + answers;
    WindowBound(ONE * c.made.burstSize, c.made.requestsPerMin, times, 0, i + 1);
    assert log[0..i + 2] == [false] + answers[..i + 1];
    CountFront(answers[..i + 1]);
  }

  lemma BoundFromUpdate(c: CellState, us: seq<Charging>, j: nat, i: nat)
    requires Sequential(c, us) && j <= i < |us| && us[i].ok
    ensures Affordable(c, Answers(us)[j..i + 1], us[j].now, us[i].now)
  {
    var answers := Answers(us);
    var times, log := [c.created] + Readings(us), [false] + answers;
    WindowBound(ONE * c.made.burstSize, c.made.requestsPerMin, times, j + 1, i + 1);
    Shifted(answers, j, i + 1);
  }

  lemma Shifted(answers: seq<bool>, j: nat, i: nat)
    requires j <= i <= |answers|
    ensures ([false] + answers)[j + 1..i + 1] == answers[j..i]
  {}

  lemma {:induction false} CountFront(log: seq<bool>)
    ensures Count([false] + log) == Count(log)
    decreases |log|
  {
    if log == [] {
      assert [false] + log == [false] && [false][..0] == [];
    } else {
      var n := |log| - 1;
      CountFront(log[..n]);
      assert ([false] + log)[..n + 1] == [false] + log[..n];
    }
  }

  // ---------------------------------------------------------------- what one key sees

  predicate SettledStage(s: State, stage: Stage, key: Key) {
    (stage.Holding? || stage.Timed?) && stage.key == key ==> key in s.index && s.index[key] == stage.cell
  }

  /** Every thread that holds a bucket of the key, and every update of one since the given length of
      the log, has the bucket of the index. */
  ghost predicate Settled(s: State, key: Key, since: nat) {
    && (forall t :: t in s.threads ==> SettledStage(s, s.threads[t], key))
    && (forall i :: since <= i < |s.log| && s.log[i].key == key ==> key in s.index && s.log[i].cell == s.index[key])
  }

  lemma NextKeepsSettled(s: State, e: Event, key: Key, since: nat, defaultCfg: Config)
    requires Settled(s, key, since) && Enabled(s, e) && Quiet(e)
    ensures Settled(Next(s, e, defaultCfg), key, since)
  {
    var s' := Next(s, e, defaultCfg);
    forall t | t in s'.threads ensures SettledStage(s', s'.threads[t], key) {
      if t in s.threads {
        assert SettledStage(s, s.threads[t], key);
      }
    }
    if e.Update? {
      assert SettledStage(s, s.threads[e.t], key);
    }
  }

  lemma {:induction false} RunKeepsSettled(s: State, es: seq<Event>, key: Key, since: nat, defaultCfg: Config)
    requires Settled(s, key, since) && CanRun(s, es, defaultCfg) && Undisturbed(es)
    ensures Settled(EndOf(s, es, defaultCfg), key, since)
    decreases |es|
  {
    if es != [] {
      NextKeepsSettled(s, es[0], key, since, defaultCfg);
      RunKeepsSettled(Next(s, es[0], defaultCfg), es[1..], key, since, defaultCfg);
    }
  }

  /** However the threads interleave, as long as no bucket is taken away: the updates of a key are
      exactly the updates of one bucket, so that AdmissionBound is a bound for the key. */
  lemma OneBucketPerKey(es: seq<Event>, key: Key, defaultCfg: Config)
    requires CanRun(INIT, es, defaultCfg) && Undisturbed(es)
    ensures var s := EndOf(INIT, es, defaultCfg);
            forall c :: c in s.log ==> (c.key == key <==> key in s.index && c.cell == s.index[key])
  {
    var s := EndOf(INIT, es, defaultCfg);
    RunKeepsSound(INIT, es, defaultCfg);
    RunKeepsSettled(INIT, es, key, 0, defaultCfg);
    forall c | c in s.log ensures c.key == key <==> key in s.index && c.cell == s.index[key] {
      assert Owned(s, c.cell, c.key);
      var i :| 0 <= i < |s.log| && s.log[i] == c;
    }
  }

  // ---------------------------------------------------------------- a call with nothing in between

  lemma RunCons(s: State, e: Event, es: seq<Event>, defaultCfg: Config)
    requires Enabled(s, e) && CanRun(Next(s, e, defaultCfg), es, defaultCfg)
    ensures CanRun(s, [e] + es, defaultCfg)
    ensures EndOf(s, [e] + es, defaultCfg) == EndOf(Next(s, e, defaultCfg), es, defaultCfg)
  {
    assert ([e] + es)[1..] == es;
  }

  /** What a run may meet: the rows that queries return, and the configurations that are set. */
  datatype World = World(rows: iset<Row>, cfgs: iset<Config>)

  /** Nothing is set. */
  ghost function Quietly(rows: iset<Row>): World {
    World(rows, iset{})
  }

  ghost predicate Permitted(e: Event, w: World) {
    !e.Cleanup? && (e.Query? ==> e.row in w.rows) && (e.Reconfigure? ==> e.cfg in w.cfgs)
  }

  ghost predicate Meets(es: seq<Event>, w: World) {
    forall e :: e in es ==> Permitted(e, w)
  }

  /** Reachable in this world without cleanups. */
  ghost predicate Leads(s: State, end: State, w: World, defaultCfg: Config) {
    exists es :: Meets(es, w) && CanRun(s, es, defaultCfg) && EndOf(s, es, defaultCfg) == end
  }

  lemma LeadsBack(s: State, e: Event, end: State, w: World, defaultCfg: Config)
    requires Enabled(s, e) && Permitted(e, w) && Leads(Next(s, e, defaultCfg), end, w, defaultCfg)
    ensures Leads(s, end, w, defaultCfg)
  {
    var n := Next(s, e, defaultCfg);
    var es :| Meets(es, w) && CanRun(n, es, defaultCfg) && EndOf(n, es, defaultCfg) == end;
    RunCons(s, e, es, defaultCfg);
    assert Meets([e] + es, w);
  }

  lemma LeadsToItself(s: State, w: World, defaultCfg: Config)
    ensures Leads(s, s, w, defaultCfg)
  {
    assert Meets([], w) && CanRun(s, [], defaultCfg) && EndOf(s, [], defaultCfg) == s;
  }

  /** The limiter that the threads share, as the atomic model sees it. */
  function Shared(s: State): Limits {
    Limits(map key | key in s.index && s.index[key] < |s.cells| :: s.cells[s.index[key]].bucket, s.configs)
  }

  ghost predicate WellIndexed(s: State) {
    && (forall k :: k in s.index ==> s.index[k] < |s.cells|)
    && (forall k, l :: k in s.index && l in s.index && k != l ==> s.index[k] != s.index[l])
  }

  /** The state in which a call of the key has made its bucket. */
  function Inserted(s: State, t: ThreadId, key: Key, cfg: Config, configs: map<Key, Config>, created: int): State {
    State(s.cells + [CellState(NewBucket(cfg, created), key, cfg, created)], s.index[key := |s.cells|], configs,
          s.threads[t := Holding(key, |s.cells|)], s.log)
  }

  /** The state in which the call has its bucket. */
  function Held(s: State, t: ThreadId, key: Key, row: Row, created: int, defaultCfg: Config): State {
    if key in s.index then Goto(s, t, Holding(key, s.index[key]))
    else
      var (cfg, configs) := ConfigFor(s.configs, key, row, defaultCfg);
      Inserted(s, t, key, cfg, configs, created)
  }

  /** From s0, the call t has come to its configuration in s. */
  lemma BucketFromConfig(s0: State, s: State, t: ThreadId, key: Key, cfg: Config, created: int,
                         w: World, defaultCfg: Config, end: State)
    requires t !in s0.threads && key !in s0.index
    requires s == State(s0.cells, s0.index, s.configs, s0.threads[t := HasConfig(key, cfg)], s0.log)
    requires Leads(Inserted(s0, t, key, cfg, s.configs, created), end, w, defaultCfg)
    ensures Leads(s, end, w, defaultCfg)
  {
    var stage := Holding(key, |s0.cells|);
    assert s.threads[t := stage] == s0.threads[t := stage];
    LeadsBack(s, Insert(t, created), end, w, defaultCfg);
  }

  /** A call without bucket and configuration comes to its query. */
  lemma CallAsks(s: State, t: ThreadId, key: Key, w: World, defaultCfg: Config, end: State)
    requires t !in s.threads && key !in s.index && key !in s.configs
    requires Leads(Goto(s, t, Querying(key)), end, w, defaultCfg)
    ensures Leads(s, end, w, defaultCfg)
  {
    var s1 := Next(s, Lookup(t, key), defaultCfg);
    assert s1.threads[t := Querying(key)] == s.threads[t := Querying(key)];
    LeadsBack(s1, CheckConfig(t), end, w, defaultCfg);
    LeadsBack(s, Lookup(t, key), end, w, defaultCfg);
  }

  /** The state in which the call has the answer to its query, and has stored it if it is a row. */
  function Answered(s: State, t: ThreadId, key: Key, row: Row, defaultCfg: Config): State {
    State(s.cells, s.index, if row.Found? then s.configs[key := row.cfg] else s.configs,
          s.threads[t := HasConfig(key, Effective(row, defaultCfg))], s.log)
  }

  lemma CallIsAnswered(s: State, t: ThreadId, key: Key, row: Row, w: World, defaultCfg: Config, end: State)
    requires t in s.threads && s.threads[t] == Querying(key) && row in w.rows
    requires Leads(Answered(s, t, key, row, defaultCfg), end, w, defaultCfg)
    ensures Leads(s, end, w, defaultCfg)
  {
    var s1 := Next(s, Query(t, key, row), defaultCfg);
    if row.Found? {
      assert s1.threads[t := HasConfig(key, row.cfg)] == s.threads[t := HasConfig(key, row.cfg)];
      LeadsBack(s1, StoreConfig(t), end, w, defaultCfg);
    }
    LeadsBack(s, Query(t, key, row), end, w, defaultCfg);
  }

  lemma CallReachesBucket(s: State, t: ThreadId, key: Key, row: Row, created: int,
                          w: World, defaultCfg: Config, end: State)
    requires t !in s.threads && row in w.rows && Leads(Held(s, t, key, row, created, defaultCfg), end, w, defaultCfg)
    ensures Leads(s, end, w, defaultCfg)
  {
    if key in s.index {
      LeadsBack(s, Lookup(t, key), end, w, defaultCfg);
    } else if key in s.configs {
      CallFindsConfig(s, t, key, created, w, defaultCfg, end);
    } else {
      CallAsksForConfig(s, t, key, row, created, w, defaultCfg, end);
    }
  }

  lemma CallFindsConfig(s: State, t: ThreadId, key: Key, created: int, w: World, defaultCfg: Config, end: State)
    requires t !in s.threads && key !in s.index && key in s.configs
    requires Leads(Inserted(s, t, key, s.configs[key], s.configs, created), end, w, defaultCfg)
    ensures Leads(s, end, w, defaultCfg)
  {
    var s1 := Next(s, Lookup(t, key), defaultCfg);
    var s2 := Next(s1, CheckConfig(t), defaultCfg);
    assert s2.threads == s.threads[t := HasConfig(key, s.configs[key])];
    BucketFromConfig(s, s2, t, key, s.configs[key], created, w, defaultCfg, end);
    LeadsBack(s1, CheckConfig(t), end, w, defaultCfg);
    LeadsBack(s, Lookup(t, key), end, w, defaultCfg);
  }

  lemma CallAsksForConfig(s: State, t: ThreadId, key: Key, row: Row, created: int,
                          w: World, defaultCfg: Config, end: State)
    requires t !in s.threads && key !in s.index && key !in s.configs && row in w.rows
    requires Leads(Held(s, t, key, row, created, defaultCfg), end, w, defaultCfg)
    ensures Leads(s, end, w, defaultCfg)
  {
    var asking := Goto(s, t, Querying(key));
    var answered := Answered(asking, t, key, row, defaultCfg);
    var cfg := Effective(row, defaultCfg);
    assert answered.threads == s.threads[t := HasConfig(key, cfg)];
    BucketFromConfig(s, answered, t, key, cfg, created, w, defaultCfg, end);
    CallIsAnswered(asking, t, key, row, w, defaultCfg, end);
    CallAsks(s, t, key, w, defaultCfg, end);
  }

  /** The state in which the call has updated its bucket and is over. */
  function Ended(s: State, t: ThreadId, now: int): State
    requires t in s.threads && s.threads[t].Holding? && s.threads[t].cell < |s.cells|
  {
    var Holding(key, cell) := s.threads[t];
    var c := s.cells[cell];
    State(s.cells[cell := c.(bucket := Charge(c.bucket, now))], s.index, s.configs, s.threads - {t},
          s.log + [Charging(key, cell, now, Admits(c.bucket, now))])
  }

  lemma CallUpdatesBucket(s: State, t: ThreadId, now: int, w: World, defaultCfg: Config, end: State)
    requires t in s.threads && s.threads[t].Holding? && s.threads[t].cell < |s.cells|
    requires Leads(Ended(s, t, now), end, w, defaultCfg)
    ensures Leads(s, end, w, defaultCfg)
  {
    var s1 := Next(s, ReadClock(t, now), defaultCfg);
    assert s1.threads - {t} == s.threads - {t};
    assert Next(s1, Update(t), defaultCfg) == Ended(s, t, now);
    LeadsBack(s1, Update(t), end, w, defaultCfg);
    LeadsBack(s, ReadClock(t, now), end, w, defaultCfg);
  }

  lemma InsertKeepsWellIndexed(s: State, t: ThreadId, key: Key, cfg: Config, configs: map<Key, Config>, created: int)
    requires WellIndexed(s) && key !in s.index
    ensures WellIndexed(Inserted(s, t, key, cfg, configs, created))
  {
    var index := s.index[key := |s.cells|];
    forall k | k in index ensures index[k] < |s.cells| + 1 && (k != key ==> index[k] == s.index[k] < |s.cells|) {}
  }

  lemma SharedAfterInsert(s: State, t: ThreadId, key: Key, cfg: Config, configs: map<Key, Config>, created: int)
    requires WellIndexed(s) && key !in s.index
    ensures Shared(Inserted(s, t, key, cfg, configs, created))
         == Limits(Shared(s).buckets[key := NewBucket(cfg, created)], configs)
  {
    var a := Shared(Inserted(s, t, key, cfg, configs, created)).buckets;
    var b := Shared(s).buckets[key := NewBucket(cfg, created)];
    forall k ensures (k in a <==> k in b) && (k in a ==> a[k] == b[k]) {
      if k in s.index && k != key {
        assert s.index[k] < |s.cells|;
      }
    }
    assert a == b;
  }

  lemma SharedAfterHeld(s: State, t: ThreadId, key: Key, row: Row, created: int, defaultCfg: Config)
    requires WellIndexed(s)
    ensures var held := Held(s, t, key, row, created, defaultCfg);
            WellIndexed(held) && Shared(held) == WithBucket(Shared(s), key, row, defaultCfg, created)
  {
    if key !in s.index {
      var (cfg, configs) := ConfigFor(s.configs, key, row, defaultCfg);
      InsertKeepsWellIndexed(s, t, key, cfg, configs, created);
      SharedAfterInsert(s, t, key, cfg, configs, created);
    }
  }

  lemma SharedAfterEnd(s: State, t: ThreadId, now: int)
    requires WellIndexed(s) && t in s.threads && s.threads[t].Holding? && s.threads[t].cell < |s.cells|
    requires s.threads[t].key in s.index && s.index[s.threads[t].key] == s.threads[t].cell
    ensures Shared(Ended(s, t, now)) == Charged(Shared(s), s.threads[t].key, now)
  {
    assert Shared(Ended(s, t, now)).buckets == Charged(Shared(s), s.threads[t].key, now).buckets;
  }

  lemma HeldShape(s: State, t: ThreadId, key: Key, row: Row, created: int, defaultCfg: Config)
    requires WellIndexed(s) && t !in s.threads
    ensures var held := Held(s, t, key, row, created, defaultCfg);
            && key in held.index && held.index[key] < |held.cells| && held.log == s.log
            && t in held.threads && held.threads[t] == Holding(key, held.index[key]) && held.threads - {t} == s.threads
  {}

  /** The steps of one call, taken without interruption, are the atomic call. */
  lemma UninterruptedCallIsAtomic(s: State, t: ThreadId, key: Key, row: Row, created: int, now: int, defaultCfg: Config)
    returns (end: State)
    requires WellIndexed(s) && t !in s.threads
    ensures Leads(s, end, Quietly(iset{row}), defaultCfg) && end.threads == s.threads
    ensures Shared(end) == Charged(WithBucket(Shared(s), key, row, defaultCfg, created), key, now)
    ensures var ok := Allowed(WithBucket(Shared(s), key, row, defaultCfg, created), key, now, 0).ok;
            key in end.index && end.log == s.log + [Charging(key, end.index[key], now, ok)]
    ensures end.index[key] == if key in s.index then s.index[key] else |s.cells|
  {
    var held := Held(s, t, key, row, created, defaultCfg);
    HeldShape(s, t, key, row, created, defaultCfg);
    SharedAfterHeld(s, t, key, row, created, defaultCfg);
    end := Ended(held, t, now);
    LeadsToItself(end, Quietly(iset{row}), defaultCfg);
    CallUpdatesBucket(held, t, now, Quietly(iset{row}), defaultCfg, end);
    CallReachesBucket(s, t, key, row, created, Quietly(iset{row}), defaultCfg, end);
    SharedAfterEnd(held, t, now);
    assert Shared(held).buckets[key] == held.cells[held.index[key]].bucket;
  }

  lemma SharedWithout(s: State, s': State, gone: set<Key>)
    requires s'.cells == s.cells && s'.index == s.index - gone
    ensures Shared(s').buckets == Shared(s).buckets - gone
  {}

  lemma IdleIsShared(s: State, now: int)
    requires WellIndexed(s)
    ensures Idle(s, now) == IdleKeys(Shared(s), now)
  {}

  /** A replacement and a cleanup are single steps, and do to the shared limiter what the atomic ones
      do; calls that hold a removed bucket keep it. */
  lemma RemovalsAreAtomic(s: State, key: Key, cfg: Config, now: int, defaultCfg: Config)
    requires WellIndexed(s)
    ensures Shared(Next(s, Reconfigure(key, cfg), defaultCfg)) == Reconfigured(Shared(s), key, cfg)
    ensures Shared(Next(s, Cleanup(now), defaultCfg)) == Cleaned(Shared(s), now)
    ensures Next(s, Reconfigure(key, cfg), defaultCfg).threads == Next(s, Cleanup(now), defaultCfg).threads == s.threads
  {
    SharedWithout(s, Next(s, Reconfigure(key, cfg), defaultCfg), {key});
    SharedWithout(s, Next(s, Cleanup(now), defaultCfg), Idle(s, now));
    IdleIsShared(s, now);
  }
}
