/**
 * What interleaving can break in the limiter, and exactly when: the agreement of a bucket with the
 * cached configuration, and the single bucket of a key across removals.
 */
module LimiterRaces {
  import opened Keys
  import opened Numbers
  import opened TokenBucket
  import opened Limiter
  import opened LimiterThreads

  // ---------------------------------------------------------------- when a bucket has its configuration

  /** The key's bucket, if any, was made from the cached configuration, if any. */
  predicate Agreeing(s: State, key: Key) {
    key in s.index && key in s.configs ==>
      s.index[key] < |s.cells| && s.cells[s.index[key]].made == s.configs[key]
  }

  /** As far as the key is concerned, the run meets this world; there may be cleanups. */
  ghost predicate MeetsFor(es: seq<Event>, key: Key, w: World) {
    forall e :: e in es && (e.Query? || e.Reconfigure?) && e.key == key ==>
      if e.Query? then e.row in w.rows else e.cfg in w.cfgs
  }

  ghost predicate AlwaysAgreeing(key: Key, w: World, defaultCfg: Config) {
    forall es :: MeetsFor(es, key, w) && CanRun(INIT, es, defaultCfg) ==> Agreeing(EndOf(INIT, es, defaultCfg), key)
  }

  /** The key may get this configuration. */
  ghost predicate Possible(cfg: Config, w: World, defaultCfg: Config) {
    cfg in w.cfgs || exists row :: row in w.rows && Effective(row, defaultCfg) == cfg
  }

  /** There is no choice. */
  ghost predicate OneConfig(w: World, defaultCfg: Config) {
    forall c, c' :: Possible(c, w, defaultCfg) && Possible(c', w, defaultCfg) ==> c == c'
  }

  /** Whatever was made, cached or is on its way for the key is this configuration. */
  ghost predicate Uniform(s: State, key: Key, cfg: Config) {
    && (key in s.configs ==> s.configs[key] == cfg)
    && (key in s.index ==> s.index[key] < |s.cells| && s.cells[s.index[key]].made == cfg)
    && (forall t :: t in s.threads ==> UniformStage(s.threads[t], key, cfg))
  }

  predicate UniformStage(stage: Stage, key: Key, cfg: Config) {
    (stage.Storing? || stage.HasConfig?) && stage.key == key ==> stage.cfg == cfg
  }

  lemma NextKeepsUniform(s: State, e: Event, key: Key, cfg: Config, defaultCfg: Config)
    requires Uniform(s, key, cfg) && Enabled(s, e)
    requires e.Query? && e.key == key ==> Effective(e.row, defaultCfg) == cfg
    requires e.Reconfigure? && e.key == key ==> e.cfg == cfg
    ensures Uniform(Next(s, e, defaultCfg), key, cfg)
  {
    var s' := Next(s, e, defaultCfg);
    forall t | t in s'.threads ensures UniformStage(s'.threads[t], key, cfg) {
      if t in s.threads {
        assert UniformStage(s.threads[t], key, cfg);
      }
    }
    if e.StoreConfig? || e.Insert? {
      assert UniformStage(s.threads[e.t], key, cfg);
    }
  }

  lemma {:induction false} RunKeepsUniform(s: State, es: seq<Event>, key: Key, w: World, cfg: Config,
                                           defaultCfg: Config)
    requires Uniform(s, key, cfg) && CanRun(s, es, defaultCfg) && MeetsFor(es, key, w)
    requires forall c :: Possible(c, w, defaultCfg) ==> c == cfg
    ensures Uniform(EndOf(s, es, defaultCfg), key, cfg)
    decreases |es|
  {
    if es != [] {
      var e := es[0];
      assert e.Query? && e.key == key ==> Possible(Effective(e.row, defaultCfg), w, defaultCfg);
      assert e.Reconfigure? && e.key == key ==> Possible(e.cfg, w, defaultCfg);
      NextKeepsUniform(s, e, key, cfg, defaultCfg);
      RunKeepsUniform(Next(s, e, defaultCfg), es[1..], key, w, cfg, defaultCfg);
    }
  }

  /** Two calls query before either stores. The first to be answered inserts last: its bucket has the
      first answer, while the row of the second answer is cached. */
  lemma TwoAnswers(key: Key, first: Row, second: Row, w: World, defaultCfg: Config) returns (end: State)
    requires first in w.rows && second in w.rows && second.Found?
    ensures Leads(INIT, end, w, defaultCfg)
    ensures key in end.index && key in end.configs && end.configs[key] == second.cfg
    ensures end.index[key] < |end.cells| && end.cells[end.index[key]].made == Effective(first, defaultCfg)
  {
    var s1 := Goto(INIT, 0, Querying(key));
    var s2 := Goto(s1, 1, Querying(key));
    var s3 := Answered(s2, 0, key, first, defaultCfg);
    var s4 := Answered(s3, 1, key, second, defaultCfg);
    end := Next(s4, Insert(0, 0), defaultCfg);
    LeadsToItself(end, w, defaultCfg);
    LeadsBack(s4, Insert(0, 0), end, w, defaultCfg);
    CallIsAnswered(s3, 1, key, second, w, defaultCfg, end);
    CallIsAnswered(s2, 0, key, first, w, defaultCfg, end);
    CallAsks(s1, 1, key, w, defaultCfg, end);
    CallAsks(INIT, 0, key, w, defaultCfg, end);
  }

  /** A call that has its configuration inserts after another one has been set. */
  lemma LateInsert(s: State, key: Key, later: Config, w: World, defaultCfg: Config) returns (end: State)
    requires later in w.cfgs && 0 in s.threads && s.threads[0].HasConfig? && s.threads[0].key == key
    ensures Leads(s, end, w, defaultCfg)
    ensures key in end.index && key in end.configs && end.configs[key] == later
    ensures end.index[key] < |end.cells| && end.cells[end.index[key]].made == s.threads[0].cfg
  {
    var s1 := Next(s, Reconfigure(key, later), defaultCfg);
    end := Next(s1, Insert(0, 0), defaultCfg);
    LeadsToItself(end, w, defaultCfg);
    LeadsBack(s1, Insert(0, 0), end, w, defaultCfg);
    LeadsBack(s, Reconfigure(key, later), end, w, defaultCfg);
  }

  /** The call came to its configuration by a query. */
  lemma AnswerThenSet(key: Key, row: Row, later: Config, w: World, defaultCfg: Config) returns (end: State)
    requires row in w.rows && later in w.cfgs
    ensures Leads(INIT, end, w, defaultCfg)
    ensures key in end.index && key in end.configs && end.configs[key] == later
    ensures end.index[key] < |end.cells| && end.cells[end.index[key]].made == Effective(row, defaultCfg)
  {
    var s1 := Goto(INIT, 0, Querying(key));
    end := LateInsert(Answered(s1, 0, key, row, defaultCfg), key, later, w, defaultCfg);
    CallIsAnswered(s1, 0, key, row, w, defaultCfg, end);
    CallAsks(INIT, 0, key, w, defaultCfg, end);
  }

  /** The call found it set before. */
  lemma SetTwice(key: Key, first: Config, later: Config, w: World, defaultCfg: Config) returns (end: State)
    requires first in w.cfgs && later in w.cfgs
    ensures Leads(INIT, end, w, defaultCfg)
    ensures key in end.index && key in end.configs && end.configs[key] == later
    ensures end.index[key] < |end.cells| && end.cells[end.index[key]].made == first
  {
    var s1 := Next(INIT, Reconfigure(key, first), defaultCfg);
    var s2 := Next(s1, Lookup(0, key), defaultCfg);
    var s3 := Next(s2, CheckConfig(0), defaultCfg);
    end := LateInsert(s3, key, later, w, defaultCfg);
    LeadsBack(s2, CheckConfig(0), end, w, defaultCfg);
    LeadsBack(s1, Lookup(0, key), end, w, defaultCfg);
    LeadsBack(INIT, Reconfigure(key, first), end, w, defaultCfg);
  }

  lemma TwoConfigsDisagree(key: Key, c: Config, c': Config, w: World, defaultCfg: Config) returns (end: State)
    requires Possible(c, w, defaultCfg) && Possible(c', w, defaultCfg) && c != c'
    ensures Leads(INIT, end, w, defaultCfg) && !Agreeing(end, key)
  {
    if c in w.cfgs && c' in w.cfgs {
      end := SetTwice(key, c, c', w, defaultCfg);
    } else if c in w.cfgs {
      var row :| row in w.rows && Effective(row, defaultCfg) == c';
      end := AnswerThenSet(key, row, c, w, defaultCfg);
    } else {
      var row :| row in w.rows && Effective(row, defaultCfg) == c;
      if c' in w.cfgs {
        end := AnswerThenSet(key, row, c', w, defaultCfg);
      } else {
        var row' :| row' in w.rows && Effective(row', defaultCfg) == c';
        if row'.Found? {
          end := TwoAnswers(key, row, row', w, defaultCfg);
        } else {
          end := TwoAnswers(key, row', row, w, defaultCfg);
        }
      }
    }
  }

  /** A live bucket has the cached configuration on every run, with any cleanups and replacements,
      exactly when the possible answers to the key's query and the configurations set for it all amount
      to one configuration. */
  lemma BucketsAgreeIff(key: Key, w: World, defaultCfg: Config)
    ensures AlwaysAgreeing(key, w, defaultCfg) <==> OneConfig(w, defaultCfg)
  {
    if OneConfig(w, defaultCfg) {
      var cfg := defaultCfg;
      if c :| Possible(c, w, defaultCfg) {
        cfg := c;
      }
      forall es | MeetsFor(es, key, w) && CanRun(INIT, es, defaultCfg)
        ensures Agreeing(EndOf(INIT, es, defaultCfg), key)
      {
        RunKeepsUniform(INIT, es, key, w, cfg, defaultCfg);
      }
    } else {
      var c, c' :| Possible(c, w, defaultCfg) && Possible(c', w, defaultCfg) && c != c';
      var end := TwoConfigsDisagree(key, c, c', w, defaultCfg);
      var es :| Meets(es, w) && CanRun(INIT, es, defaultCfg) && EndOf(INIT, es, defaultCfg) == end;
      assert MeetsFor(es, key, w) && !Agreeing(EndOf(INIT, es, defaultCfg), key);
    }
  }

  /** One query fails and one succeeds: the bucket keeps the default while the row is cached. */
  lemma BucketCanMissItsConfig(key: Key, cfg: Config, defaultCfg: Config) returns (end: State)
    ensures Leads(INIT, end, Quietly(iset{NotFound, Found(cfg)}), defaultCfg)
    ensures key in end.index && key in end.configs && end.configs[key] == cfg
    ensures end.index[key] < |end.cells| && end.cells[end.index[key]].made == defaultCfg
  {
    end := TwoAnswers(key, NotFound, Found(cfg), Quietly(iset{NotFound, Found(cfg)}), defaultCfg);
  }

  // ---------------------------------------------------------------- after one replacement

  /** On every further run in which nothing is set or cleaned up, the key's bucket agrees. */
  ghost predicate AgreeingFrom(s: State, key: Key, rows: iset<Row>, defaultCfg: Config) {
    forall es :: Undisturbed(es) && MeetsFor(es, key, Quietly(rows)) && CanRun(s, es, defaultCfg) ==>
      Agreeing(EndOf(s, es, defaultCfg), key)
  }

  /** The call does not bring another configuration along. */
  ghost predicate Harmless(stage: Stage, key: Key, cfg: Config, rows: iset<Row>, defaultCfg: Config) {
    && UniformStage(stage, key, cfg)
    && (stage == Querying(key) ==> forall row :: row in rows ==> Effective(row, defaultCfg) == cfg)
  }

  ghost predicate Replaced(s: State, key: Key, cfg: Config, rows: iset<Row>, defaultCfg: Config) {
    && key in s.configs && Uniform(s, key, cfg)
    && forall t :: t in s.threads ==> Harmless(s.threads[t], key, cfg, rows, defaultCfg)
  }

  lemma NextKeepsReplaced(s: State, e: Event, key: Key, cfg: Config, rows: iset<Row>, defaultCfg: Config)
    requires Replaced(s, key, cfg, rows, defaultCfg) && Enabled(s, e) && Quiet(e)
    requires e.Query? && e.key == key ==> e.row in rows
    ensures Replaced(Next(s, e, defaultCfg), key, cfg, rows, defaultCfg)
  {
    var s' := Next(s, e, defaultCfg);
    if e.Query? {
      assert Harmless(s.threads[e.t], key, cfg, rows, defaultCfg);
    }
    NextKeepsUniform(s, e, key, cfg, defaultCfg);
    forall t | t in s'.threads ensures Harmless(s'.threads[t], key, cfg, rows, defaultCfg) {
      assert UniformStage(s'.threads[t], key, cfg);
      if t in s.threads {
        assert Harmless(s.threads[t], key, cfg, rows, defaultCfg);
      }
    }
  }

  lemma {:induction false} RunKeepsReplaced(s: State, es: seq<Event>, key: Key, cfg: Config, rows: iset<Row>,
                                            defaultCfg: Config)
    requires Replaced(s, key, cfg, rows, defaultCfg) && CanRun(s, es, defaultCfg)
    requires Undisturbed(es) && MeetsFor(es, key, Quietly(rows))
    ensures Replaced(EndOf(s, es, defaultCfg), key, cfg, rows, defaultCfg)
    decreases |es|
  {
    if es != [] {
      NextKeepsReplaced(s, es[0], key, cfg, rows, defaultCfg);
      RunKeepsReplaced(Next(s, es[0], defaultCfg), es[1..], key, cfg, rows, defaultCfg);
    }
  }

  /** A call that has another configuration inserts. */
  lemma HarmfulInsert(s: State, t: ThreadId, key: Key, w: World, defaultCfg: Config) returns (end: State)
    requires key !in s.index && key in s.configs && t in s.threads
    requires s.threads[t].HasConfig? && s.threads[t].key == key && s.threads[t].cfg != s.configs[key]
    ensures Leads(s, end, w, defaultCfg) && !Agreeing(end, key)
  {
    end := Next(s, Insert(t, 0), defaultCfg);
    LeadsToItself(end, w, defaultCfg);
    LeadsBack(s, Insert(t, 0), end, w, defaultCfg);
  }

  /** A new call finds the set configuration, then the other one is stored, then the new call inserts. */
  lemma HarmfulStore(s: State, t: ThreadId, key: Key, w: World, defaultCfg: Config) returns (end: State)
    requires key !in s.index && key in s.configs && t in s.threads
    requires s.threads[t].Storing? && s.threads[t].key == key && s.threads[t].cfg != s.configs[key]
    ensures Leads(s, end, w, defaultCfg) && !Agreeing(end, key)
  {
    var u := FreshNumber(s.threads.Keys);
    var s1 := Next(s, Lookup(u, key), defaultCfg);
    var s2 := Next(s1, CheckConfig(u), defaultCfg);
    var s3 := Next(s2, StoreConfig(t), defaultCfg);
    end := HarmfulInsert(s3, u, key, w, defaultCfg);
    LeadsBack(s2, StoreConfig(t), end, w, defaultCfg);
    LeadsBack(s1, CheckConfig(u), end, w, defaultCfg);
    LeadsBack(s, Lookup(u, key), end, w, defaultCfg);
  }

  lemma HarmfulCall(s: State, t: ThreadId, key: Key, rows: iset<Row>, defaultCfg: Config) returns (end: State)
    requires key !in s.index && key in s.configs && t in s.threads
    requires !Harmless(s.threads[t], key, s.configs[key], rows, defaultCfg)
    ensures Leads(s, end, Quietly(rows), defaultCfg) && !Agreeing(end, key)
  {
    var w := Quietly(rows);
    if s.threads[t].HasConfig? {
      end := HarmfulInsert(s, t, key, w, defaultCfg);
    } else if s.threads[t].Storing? {
      end := HarmfulStore(s, t, key, w, defaultCfg);
    } else {
      var row :| row in rows && Effective(row, defaultCfg) != s.configs[key];
      var s' := Next(s, Query(t, key, row), defaultCfg);
      if row.Found? {
        end := HarmfulStore(s', t, key, w, defaultCfg);
      } else {
        end := HarmfulInsert(s', t, key, w, defaultCfg);
      }
      LeadsBack(s, Query(t, key, row), end, w, defaultCfg);
    }
  }

  lemma QuietlyUndisturbed(es: seq<Event>, rows: iset<Row>)
    requires Meets(es, Quietly(rows))
    ensures Undisturbed(es)
  {
    forall e | e in es ensures Quiet(e) {
      assert Permitted(e, Quietly(rows));
    }
  }

  /** After a new configuration has been set, and nothing more is set or cleaned up, the key's bucket
      always agrees exactly when no call of the key was on its way with another configuration, or with a
      query that may return another one. */
  lemma ReplacementAgreesIff(s: State, key: Key, cfg: Config, rows: iset<Row>, defaultCfg: Config)
    ensures AgreeingFrom(Next(s, Reconfigure(key, cfg), defaultCfg), key, rows, defaultCfg)
            <==> forall t :: t in s.threads ==> Harmless(s.threads[t], key, cfg, rows, defaultCfg)
  {
    var s' := Next(s, Reconfigure(key, cfg), defaultCfg);
    if forall t :: t in s.threads ==> Harmless(s.threads[t], key, cfg, rows, defaultCfg) {
      forall t | t in s'.threads ensures UniformStage(s'.threads[t], key, cfg) {
        assert Harmless(s.threads[t], key, cfg, rows, defaultCfg);
      }
      forall es | Undisturbed(es) && MeetsFor(es, key, Quietly(rows)) && CanRun(s', es, defaultCfg)
        ensures Agreeing(EndOf(s', es, defaultCfg), key)
      {
        RunKeepsReplaced(s', es, key, cfg, rows, defaultCfg);
      }
    } else {
      var t :| t in s.threads && !Harmless(s.threads[t], key, cfg, rows, defaultCfg);
      var end := HarmfulCall(s', t, key, rows, defaultCfg);
      var es :| Meets(es, Quietly(rows)) && CanRun(s', es, defaultCfg) && EndOf(s', es, defaultCfg) == end;
      QuietlyUndisturbed(es, rows);
      assert MeetsFor(es, key, Quietly(rows));
      assert !Agreeing(EndOf(s', es, defaultCfg), key);
    }
  }

  // ---------------------------------------------------------------- when a removal is clean

  /** Whatever happens next without removals, all new updates of the key go to one bucket. */
  ghost predicate OneBucketFrom(s: State, key: Key, defaultCfg: Config) {
    forall es :: Undisturbed(es) && CanRun(s, es, defaultCfg) ==>
      OneBucketSince(EndOf(s, es, defaultCfg).log, key, |s.log|)
  }

  ghost predicate OneBucketSince(log: seq<Charging>, key: Key, since: nat) {
    forall i, j :: since <= i < |log| && since <= j < |log| && log[i].key == key && log[j].key == key ==>
      log[i].cell == log[j].cell
  }

  ghost predicate AllSettled(s: State, key: Key) {
    forall t :: t in s.threads ==> SettledStage(s, s.threads[t], key)
  }

  /** A thread that holds a bucket updates it. */
  lemma HolderUpdates(s: State, t: ThreadId, w: World, defaultCfg: Config) returns (next: State, u: Charging)
    requires t in s.threads && (s.threads[t].Holding? || s.threads[t].Timed?) && s.threads[t].cell < |s.cells|
    ensures u.key == s.threads[t].key && u.cell == s.threads[t].cell && next.log == s.log + [u]
    ensures next.index == s.index && next.threads == s.threads - {t} && |next.cells| == |s.cells|
    ensures forall end :: Leads(next, end, w, defaultCfg) ==> Leads(s, end, w, defaultCfg)
  {
    var stage := s.threads[t];
    var s1 := if stage.Timed? then s else Next(s, ReadClock(t, 0), defaultCfg);
    next := Next(s1, Update(t), defaultCfg);
    u := next.log[|s.log|];
    assert s1.threads - {t} == s.threads - {t};
    forall end | Leads(next, end, w, defaultCfg) ensures Leads(s, end, w, defaultCfg) {
      LeadsBack(s1, Update(t), end, w, defaultCfg);
      if stage.Holding? {
        LeadsBack(s, ReadClock(t, 0), end, w, defaultCfg);
      }
    }
  }

  /** A thread that holds another bucket than the index updates it, and a new call updates the one of
      the index, or makes one. */
  lemma UnsettledSplits(s: State, t: ThreadId, key: Key, defaultCfg: Config) returns (end: State)
    requires Tidy(s) && t in s.threads && !SettledStage(s, s.threads[t], key)
    ensures Leads(s, end, Quietly(iset{NotFound}), defaultCfg)
    ensures |end.log| == |s.log| + 2 && end.log[|s.log|].key == end.log[|s.log| + 1].key == key
    ensures end.log[|s.log|].cell != end.log[|s.log| + 1].cell
  {
    assert OwnedStage(s, s.threads[t]);
    var next, u := HolderUpdates(s, t, Quietly(iset{NotFound}), defaultCfg);
    forall k | k in s.index ensures s.index[k] < |s.cells| && s.cells[s.index[k]].key == k {
      assert Owned(s, s.index[k], k);
    }
    var id := FreshNumber(s.threads.Keys);
    end := UninterruptedCallIsAtomic(next, id, key, NotFound, 0, 0, defaultCfg);
  }

  lemma SplitsAreSeen(s: State, end: State, key: Key, rows: iset<Row>, defaultCfg: Config)
    requires Leads(s, end, Quietly(rows), defaultCfg)
    requires |end.log| == |s.log| + 2 && end.log[|s.log|].key == end.log[|s.log| + 1].key == key
    requires end.log[|s.log|].cell != end.log[|s.log| + 1].cell
    ensures !OneBucketFrom(s, key, defaultCfg)
  {
    var es :| Meets(es, Quietly(rows)) && CanRun(s, es, defaultCfg) && EndOf(s, es, defaultCfg) == end;
    QuietlyUndisturbed(es, rows);
    assert !OneBucketSince(EndOf(s, es, defaultCfg).log, key, |s.log|);
  }

  /** From any reachable state, the next updates of the key all go to one bucket exactly when every
      thread that holds a bucket of the key holds the one of the index. */
  lemma OneBucketFromIff(s: State, key: Key, defaultCfg: Config)
    requires Tidy(s)
    ensures OneBucketFrom(s, key, defaultCfg) <==> AllSettled(s, key)
  {
    if AllSettled(s, key) {
      forall es | Undisturbed(es) && CanRun(s, es, defaultCfg)
        ensures OneBucketSince(EndOf(s, es, defaultCfg).log, key, |s.log|)
      {
        RunKeepsSettled(s, es, key, |s.log|, defaultCfg);
      }
    } else {
      var t :| t in s.threads && !SettledStage(s, s.threads[t], key);
      var end := UnsettledSplits(s, t, key, defaultCfg);
      SplitsAreSeen(s, end, key, iset{NotFound}, defaultCfg);
    }
  }

  predicate Holds(stage: Stage, key: Key) {
    (stage.Holding? || stage.Timed?) && stage.key == key
  }

  /** A new configuration, or the removal of an idle bucket, gives the key a single new bucket exactly
      when no call holds a bucket of the key at that moment. */
  lemma RemovalIsCleanIff(s: State, e: Event, key: Key, defaultCfg: Config)
    requires Tidy(s) && ((e.Reconfigure? && e.key == key) || (e.Cleanup? && key in Idle(s, e.now)))
    ensures OneBucketFrom(Next(s, e, defaultCfg), key, defaultCfg)
            <==> forall t :: t in s.threads ==> !Holds(s.threads[t], key)
  {
    var s' := Next(s, e, defaultCfg);
    NextKeepsTidy(s, e, defaultCfg);
    OneBucketFromIff(s', key, defaultCfg);
    assert key !in s'.index && s'.threads == s.threads;
    forall t | t in s.threads ensures SettledStage(s', s.threads[t], key) <==> !Holds(s.threads[t], key) {}
  }

  /** The state after a call has made a new bucket and read the clock, both at time 0. */
  function Waiting(s: State, t: ThreadId, key: Key, cfg: Config): State {
    Goto(Held(s, t, key, NotFound, 0, cfg), t, Timed(key, |s.cells|, 0))
  }

  lemma CallWaits(key: Key, cfg: Config)
    ensures Leads(INIT, Waiting(INIT, 0, key, cfg), Quietly(iset{NotFound}), cfg)
  {
    var held, w := Waiting(INIT, 0, key, cfg), Quietly(iset{NotFound});
    LeadsToItself(held, w, cfg);
    LeadsBack(Held(INIT, 0, key, NotFound, 0, cfg), ReadClock(0, 0), held, w, cfg);
    CallReachesBucket(INIT, 0, key, NotFound, 0, w, cfg, held);
  }

  /** Two admissions at one reading from a burst of one: a call waits with its clock reading while the
      bucket is replaced, and then a whole call comes. */
  lemma ReplacedBucketDoublesBurst(key: Key, rate: int) returns (held: State, end: State)
    ensures var cfg := Config(rate, 1);
            && Leads(INIT, held, Quietly(iset{NotFound}), cfg)
            && Leads(Next(held, Reconfigure(key, cfg), cfg), end, Quietly(iset{NotFound}), cfg)
            && end.log == [Charging(key, 0, 0, true), Charging(key, 1, 0, true)]
  {
    var cfg := Config(rate, 1);
    held := Waiting(INIT, 0, key, cfg);
    CallWaits(key, cfg);
    var s1 := Next(held, Reconfigure(key, cfg), cfg);
    var s2 := Next(s1, Update(0), cfg);
    assert s2.log == [Charging(key, 0, 0, true)] && s2.threads == map[] && s2.index == map[] && |s2.cells| == 1;
    assert Shared(s2) == Limits(map[], map[key := cfg]);
    end := UninterruptedCallIsAtomic(s2, 1, key, NotFound, 0, 0, cfg);
    LeadsBack(s1, Update(0), end, Quietly(iset{NotFound}), cfg);
  }
}
