/**
 * Who is stopped by the gateway, and who is forwarded. A run is observed from outside: for each visit
 * of a deciding layer, what the request asked, what the layer read, and whether the request went on.
 * Every such answer is then explained from the earlier observations alone.
 */
module GatewayVerdicts {
  import opened Glob
  import opened Keys
  import opened Gateway
  import TokenBucket
  import Limiter
  import IdleCleanup
  import LimiterLives
  import Authorization
  import PermissionCache
  import PolicyEngine

  /** One visit of a layer. passed says that the request went on to the next one. */
  datatype Sight =
    | Limited(id: RequestId, key: Key, row: Limiter.Row, created: int, now: int, passed: bool)
    | Judged(id: RequestId, key: Key, resource: Bytes, action: Bytes, fetched: PermissionCache.Fetch, passed: bool)
    | Policed(id: RequestId, key: Key, rules: seq<PolicyEngine.Rule>, isWrite: bool, time: int, passed: bool)

  /** What is seen at one event. */
  ghost function Seen(s: State, e: Event, settings: Settings): seq<Sight>
    requires Enabled(s, e, settings)
  {
    if !e.Enter? || s.flights[e.id].caller.Anonymous? then []
    else
      var key, input := s.flights[e.id].caller.key, e.input;
      var passed := Next(s, e, settings).flights[e.id].stage.At?;
      match Stack(settings)[s.flights[e.id].stage.i]
      case RateLimit => [Limited(e.id, key, input.row, input.created, input.now, passed)]
      case Rbac => [Judged(e.id, key, input.resource, input.action, input.fetched, passed)]
      case Policy => [Policed(e.id, key, input.rules, input.isWrite, input.time, passed)]
      case _ => []
  }

  ghost function Sights(s: State, es: seq<Event>, settings: Settings): seq<Sight>
    requires CanRun(s, es, settings)
    decreases |es|
  {
    if es == [] then [] else Seen(s, es[0], settings) + Sights(Next(s, es[0], settings), es[1..], settings)
  }

  // ---------------------------------------------------------------- what the answers should be

  datatype Option<T> = None | Some(value: T)

  /** The list that was first read for the key. It stays, for nothing in the gateway invalidates it. */
  function Known(seen: seq<Sight>, key: Key): Option<Authorization.Permissions> {
    if seen == [] then None else
      var n := |seen| - 1;
      var before, x := Known(seen[..n], key), seen[n];
      if before.None? && x.Judged? && x.key == key && x.resource != [] && x.fetched.Rows? then Some(x.fetched.perms)
      else before
  }

  /** The key's recorded writes. */
  function Recorded(seen: seq<Sight>, key: Key): seq<int> {
    if seen == [] then [] else
      var n := |seen| - 1;
      var before, x := Recorded(seen[..n], key), seen[n];
      if x.Policed? && x.key == key then
        PolicyEngine.TrackedAll(x.rules, PolicyEngine.Request(Holder(key), x.isWrite, x.time), before)
      else before
  }

  /** The life of the key's bucket. */
  function LifeOf(seen: seq<Sight>, key: Key, defaultCfg: Limiter.Config): LimiterLives.Life {
    if seen == [] then LimiterLives.Gone else
      var n := |seen| - 1;
      var before, x := LifeOf(seen[..n], key, defaultCfg), seen[n];
      if x.Limited? then LimiterLives.Lived(before, IdleCleanup.Allow(x.key, x.row, x.created, x.now), key, defaultCfg)
      else before
  }

  /** The list that a request is judged by: the first one, its own if it is the first, or nil when that
      could not be read. */
  function ListFor(before: seq<Sight>, x: Sight): Authorization.Permissions
    requires x.Judged?
  {
    if Known(before, x.key).Some? then Known(before, x.key).value
    else if x.fetched.Rows? then x.fetched.perms else Authorization.Unassigned
  }

  /** The limiter lets through what a checker with full memory of the key's calls would; the RBAC layer
      what has no resource, no list, or a row whose patterns match resource and action; the policy layer
      what no policy denies, given the writes recorded so far. */
  ghost predicate Right(before: seq<Sight>, x: Sight, defaultCfg: Limiter.Config) {
    match x
    case Limited(_, key, _, _, _, passed) =>
      var life := LifeOf(before + [x], key, defaultCfg);
      life.Live? && |life.times| > 1 &&
      var capacity, rate := TokenBucket.ONE * life.cfg.burstSize, life.cfg.requestsPerMin;
      passed == TokenBucket.HistoryLog(capacity, rate, life.times)[|life.times| - 1]
    case Judged(_, _, resource, action, _, passed) =>
      passed <==> resource == [] || ListFor(before, x).Unassigned?
                  || exists p :: p in ListFor(before, x).rows
                                 && Instance(p.resource, resource) && Instance(p.action, action)
    case Policed(_, key, rules, isWrite, time, passed) =>
      passed <==> !PolicyEngine.Denied(rules, PolicyEngine.Request(Holder(key), isWrite, time), Recorded(before, key))
  }

  ghost predicate AllRight(seen: seq<Sight>, defaultCfg: Limiter.Config) {
    forall n :: 0 <= n < |seen| ==> Right(seen[..n], seen[n], defaultCfg)
  }

  // ---------------------------------------------------------------- the state behind the observations

  ghost predicate CacheKnown(s: State, seen: seq<Sight>, key: Key) {
    Known(seen, key) == if key in s.cache then Some(s.cache[key]) else None
  }

  ghost predicate Explained(s: State, seen: seq<Sight>, settings: Settings, key: Key) {
    && CacheKnown(s, seen, key)
    && Writes(s, key) == Recorded(seen, key)
    && LimiterLives.Matches(s.limits, LifeOf(seen, key, settings.defaultCfg), key)
  }

  datatype Kind = AtLimiter | AtRbac | AtPolicy

  function KindOf(x: Sight): Kind {
    match x
    case Limited(_, _, _, _, _, _) => AtLimiter
    case Judged(_, _, _, _, _, _) => AtRbac
    case Policed(_, _, _, _, _, _) => AtPolicy
  }

  /** How many visits of the key to a layer went on, or did not. */
  function Counted(seen: seq<Sight>, key: Key, kind: Kind, passed: bool): nat {
    if seen == [] then 0 else
      var n := |seen| - 1;
      var x := seen[n];
      Counted(seen[..n], key, kind, passed) + One(KindOf(x) == kind && x.key == key && x.passed == passed)
  }

  lemma CountedSnoc(seen: seq<Sight>, x: Sight, key: Key, kind: Kind, passed: bool)
    ensures Counted(seen + [x], key, kind, passed)
         == Counted(seen, key, kind, passed) + One(KindOf(x) == kind && x.key == key && x.passed == passed)
  {
    assert (seen + [x])[..|seen|] == seen;
  }

  /** The key's marks are its visits. */
  ghost predicate Marked(s: State, seen: seq<Sight>, key: Key) {
    && s.marks[Took(key)] == Counted(seen, key, AtLimiter, true)
    && s.marks[Refused(key)] == Counted(seen, key, AtLimiter, false)
    && s.marks[RbacDenied(key)] == Counted(seen, key, AtRbac, false)
    && s.marks[PolicyDenied(key)] == Counted(seen, key, AtPolicy, false)
  }

  lemma MarksSnoc(seen: seq<Sight>, x: Sight, key: Key)
    ensures forall kind: Kind, passed: bool :: Counted(seen + [x], key, kind, passed)
              == Counted(seen, key, kind, passed) + One(KindOf(x) == kind && x.key == key && x.passed == passed)
  {
    forall kind: Kind, passed: bool
      ensures Counted(seen + [x], key, kind, passed)
           == Counted(seen, key, kind, passed) + One(KindOf(x) == kind && x.key == key && x.passed == passed)
    {
      CountedSnoc(seen, x, key, kind, passed);
    }
  }

  lemma KnownSnoc(seen: seq<Sight>, x: Sight, key: Key)
    ensures Known(seen + [x], key)
         == if Known(seen, key).None? && x.Judged? && x.key == key && x.resource != [] && x.fetched.Rows?
            then Some(x.fetched.perms) else Known(seen, key)
  {
    assert (seen + [x])[..|seen|] == seen;
  }

  lemma RecordedSnoc(seen: seq<Sight>, x: Sight, key: Key)
    ensures Recorded(seen + [x], key)
         == if x.Policed? && x.key == key then
              var request := PolicyEngine.Request(Holder(key), x.isWrite, x.time);
              PolicyEngine.TrackedAll(x.rules, request, Recorded(seen, key))
            else Recorded(seen, key)
  {
    assert (seen + [x])[..|seen|] == seen;
  }

  lemma LifeSnoc(seen: seq<Sight>, x: Sight, key: Key, defaultCfg: Limiter.Config)
    ensures LifeOf(seen + [x], key, defaultCfg)
         == if x.Limited?
            then
              var op := IdleCleanup.Allow(x.key, x.row, x.created, x.now);
              LimiterLives.Lived(LifeOf(seen, key, defaultCfg), op, key, defaultCfg)
            else LifeOf(seen, key, defaultCfg)
  {
    assert (seen + [x])[..|seen|] == seen;
  }

  /** What a visit adds to the marks. */
  function MarksOf(x: Sight): multiset<Mark> {
    match x
    case Limited(_, key, _, _, _, passed) => if passed then multiset{Took(key)} else multiset{Refused(key)}
    case Judged(_, key, _, _, _, passed) => if passed then multiset{} else multiset{RbacDenied(key)}
    case Policed(_, key, _, _, _, passed) => if passed then multiset{} else multiset{PolicyDenied(key)}
  }

  lemma VisitMarked(s: State, s': State, seen: seq<Sight>, x: Sight, key: Key)
    requires Marked(s, seen, key) && s'.marks == s.marks + MarksOf(x)
    ensures Marked(s', seen + [x], key)
  {
    MarksSnoc(seen, x, key);
  }

  lemma SettleShape(s: State, id: RequestId, ok: bool, denial: Mark)
    requires id in s.flights && s.flights[id].stage.At?
    ensures var s' := Settle(s, id, ok, denial);
            && s'.limits == s.limits && s'.cache == s.cache && s'.writes == s.writes
            && s'.marks == s.marks + (if ok then multiset{} else multiset{denial})
            && Moved(s, s', id, ok)
  {}

  /** The request goes on to the next layer, or is answered; no other request moves. */
  ghost predicate Moved(s: State, s': State, id: RequestId, ok: bool) {
    id in s.flights && s.flights[id].stage.At?
    && s'.flights
       == s.flights[id := Flight(s.flights[id].caller, if ok then At(s.flights[id].stage.i + 1) else Finished)]
  }

  // ---------------------------------------------------------------- the limiter's layer

  /** The visit of the limiter by the key's request. */
  ghost predicate AtToken(s: State, s': State, x: Sight, settings: Settings) {
    && x.Limited? && x.id in s.flights && s.flights[x.id].stage.At?
    && s' == TakeToken(s, x.id, x.key, x.row, x.created, x.now, settings)
    && x.passed == s'.flights[x.id].stage.At?
  }

  lemma TokenShape(s: State, s': State, x: Sight, settings: Settings)
    requires AtToken(s, s', x, settings)
    ensures s'.cache == s.cache && s'.writes == s.writes && s'.marks == s.marks + MarksOf(x)
    ensures s'.limits
         == IdleCleanup.Next(s.limits, IdleCleanup.Allow(x.key, x.row, x.created, x.now), settings.defaultCfg)
    ensures var w := Limiter.WithBucket(s.limits, x.key, x.row, settings.defaultCfg, x.created);
            x.passed == TokenBucket.Admits(w.buckets[x.key], x.now)
    ensures Moved(s, s', x.id, x.passed)
  {}

  lemma TokenExplained(s: State, s': State, x: Sight, settings: Settings, seen: seq<Sight>, key: Key)
    requires AtToken(s, s', x, settings) && Explained(s, seen, settings, key)
    ensures Explained(s', seen + [x], settings, key)
  {
    TokenShape(s, s', x, settings);
    KnownSnoc(seen, x, key);
    RecordedSnoc(seen, x, key);
    LifeSnoc(seen, x, key, settings.defaultCfg);
    LimiterLives.NextMatches(s.limits, IdleCleanup.Allow(x.key, x.row, x.created, x.now),
                             LifeOf(seen, key, settings.defaultCfg), key, settings.defaultCfg);
  }

  lemma TokenRight(s: State, s': State, x: Sight, settings: Settings, seen: seq<Sight>)
    requires AtToken(s, s', x, settings) && Explained(s, seen, settings, x.key)
    ensures Right(seen, x, settings.defaultCfg)
  {
    TokenShape(s, s', x, settings);
    LifeSnoc(seen, x, x.key, settings.defaultCfg);
    LimiterLives.CallIsOfLife(s.limits, LifeOf(seen, x.key, settings.defaultCfg),
                              IdleCleanup.Allow(x.key, x.row, x.created, x.now), settings.defaultCfg);
  }

  // ---------------------------------------------------------------- the RBAC layer

  ghost predicate AtJudge(s: State, s': State, x: Sight) {
    && x.Judged? && x.id in s.flights && s.flights[x.id].stage.At?
    && s' == Judge(s, x.id, x.key, x.resource, x.action, x.fetched)
    && x.passed == s'.flights[x.id].stage.At?
  }

  lemma JudgeShape(s: State, s': State, x: Sight)
    requires AtJudge(s, s', x)
    ensures s'.limits == s.limits && s'.writes == s.writes && s'.marks == s.marks + MarksOf(x)
    ensures s'.cache == if x.resource == [] then s.cache else PermissionCache.Lookup(s.cache, x.key, x.fetched).1
    ensures x.passed <==>
              x.resource == []
              || Authorization.Allowed(PermissionCache.Lookup(s.cache, x.key, x.fetched).0, x.resource, x.action)
    ensures Moved(s, s', x.id, x.passed)
  {
    if x.resource == [] {
      SettleShape(s, x.id, true, RbacDenied(x.key));
    } else {
      var (perms, cache) := PermissionCache.Lookup(s.cache, x.key, x.fetched);
      SettleShape(s.(cache := cache), x.id, Authorization.Allowed(perms, x.resource, x.action), RbacDenied(x.key));
    }
  }

  lemma JudgeExplained(s: State, s': State, x: Sight, settings: Settings, seen: seq<Sight>, key: Key)
    requires AtJudge(s, s', x) && Explained(s, seen, settings, key)
    ensures Explained(s', seen + [x], settings, key)
  {
    JudgeShape(s, s', x);
    KnownSnoc(seen, x, key);
    RecordedSnoc(seen, x, key);
    LifeSnoc(seen, x, key, settings.defaultCfg);
  }

  lemma JudgeRight(s: State, s': State, x: Sight, settings: Settings, seen: seq<Sight>)
    requires AtJudge(s, s', x) && CacheKnown(s, seen, x.key)
    ensures Right(seen, x, settings.defaultCfg)
  {
    JudgeShape(s, s', x);
    assert PermissionCache.Lookup(s.cache, x.key, x.fetched).0 == ListFor(seen, x);
    AllowedLiterally(ListFor(seen, x), x.resource, x.action);
  }

  lemma AllowedLiterally(perms: Authorization.Permissions, resource: Bytes, action: Bytes)
    ensures Authorization.Allowed(perms, resource, action)
            <==> perms.Unassigned?
                 || exists p :: p in perms.rows && Instance(p.resource, resource) && Instance(p.action, action)
  {
    if perms.Assigned? {
      assert forall p :: Authorization.Grants(p, resource, action)
                         <==> Instance(p.resource, resource) && Instance(p.action, action);
    }
  }

  // ---------------------------------------------------------------- the policy layer

  ghost predicate AtPolice(s: State, s': State, x: Sight) {
    && x.Policed? && x.id in s.flights && s.flights[x.id].stage.At?
    && s' == Police(s, x.id, x.key, x.rules, x.isWrite, x.time)
    && x.passed == s'.flights[x.id].stage.At?
  }

  lemma PoliceShape(s: State, s': State, x: Sight)
    requires AtPolice(s, s', x)
    ensures var request := PolicyEngine.Request(Holder(x.key), x.isWrite, x.time);
            && s'.limits == s.limits && s'.cache == s.cache && s'.marks == s.marks + MarksOf(x)
            && s'.writes == s.writes[x.key := PolicyEngine.TrackedAll(x.rules, request, Writes(s, x.key))]
            && (x.passed <==> !PolicyEngine.Denied(x.rules, request, Writes(s, x.key)))
            && Moved(s, s', x.id, x.passed)
  {
    var request := PolicyEngine.Request(Holder(x.key), x.isWrite, x.time);
    var tracked := PolicyEngine.TrackedAll(x.rules, request, Writes(s, x.key));
    SettleShape(s.(writes := s.writes[x.key := tracked]), x.id,
                !PolicyEngine.Denied(x.rules, request, Writes(s, x.key)), PolicyDenied(x.key));
  }

  lemma PoliceExplained(s: State, s': State, x: Sight, settings: Settings, seen: seq<Sight>, key: Key)
    requires AtPolice(s, s', x) && Explained(s, seen, settings, key)
    ensures Explained(s', seen + [x], settings, key)
  {
    PoliceShape(s, s', x);
    KnownSnoc(seen, x, key);
    RecordedSnoc(seen, x, key);
    LifeSnoc(seen, x, key, settings.defaultCfg);
  }

  // ---------------------------------------------------------------- any event

  /** The layer that the event is a visit of, by a request with a key. */
  predicate Visits(s: State, e: Event, settings: Settings, layer: Layer) {
    e.Enter? && Enabled(s, e, settings) && s.flights[e.id].caller.Holder?
    && Stack(settings)[s.flights[e.id].stage.i] == layer
  }

  /** No deciding layer is visited. */
  predicate Passes(s: State, e: Event, settings: Settings) {
    Enabled(s, e, settings)
    && !Visits(s, e, settings, RateLimit) && !Visits(s, e, settings, Rbac) && !Visits(s, e, settings, Policy)
  }

  lemma UnseenShape(s: State, e: Event, settings: Settings)
    requires Passes(s, e, settings)
    ensures var s' := Next(s, e, settings);
            Seen(s, e, settings) == [] && s'.cache == s.cache && s'.limits == s.limits && s'.writes == s.writes
  {}

  lemma UnseenMarks(s: State, e: Event, settings: Settings, key: Key)
    requires Passes(s, e, settings)
    ensures var s' := Next(s, e, settings);
            && s'.marks[Took(key)] == s.marks[Took(key)] && s'.marks[Refused(key)] == s.marks[Refused(key)]
            && s'.marks[RbacDenied(key)] == s.marks[RbacDenied(key)]
            && s'.marks[PolicyDenied(key)] == s.marks[PolicyDenied(key)]
  {}

  /** A visit is seen as what it is. */
  lemma SeenShape(s: State, e: Event, settings: Settings, layer: Layer) returns (x: Sight)
    requires Visits(s, e, settings, layer) && layer in {RateLimit, Rbac, Policy}
    ensures Seen(s, e, settings) == [x] && x.id == e.id && x.key == s.flights[e.id].caller.key
    ensures match layer
            case RateLimit => AtToken(s, Next(s, e, settings), x, settings)
            case Rbac => AtJudge(s, Next(s, e, settings), x)
            case _ => AtPolice(s, Next(s, e, settings), x)
  {
    x := Seen(s, e, settings)[0];
  }

  lemma VisitExplained(s: State, e: Event, settings: Settings, seen: seq<Sight>, layer: Layer, x: Sight, key: Key)
    requires Visits(s, e, settings, layer) && layer in {RateLimit, Rbac, Policy} && Seen(s, e, settings) == [x]
    requires Explained(s, seen, settings, key) && Marked(s, seen, key)
    ensures Explained(Next(s, e, settings), seen + [x], settings, key) && Marked(Next(s, e, settings), seen + [x], key)
  {
    var s' := Next(s, e, settings);
    var y := SeenShape(s, e, settings, layer);
    assert y == x;
    if layer.RateLimit? {
      TokenShape(s, s', x, settings);
      TokenExplained(s, s', x, settings, seen, key);
    } else if layer.Rbac? {
      JudgeShape(s, s', x);
      JudgeExplained(s, s', x, settings, seen, key);
    } else {
      PoliceShape(s, s', x);
      PoliceExplained(s, s', x, settings, seen, key);
    }
    VisitMarked(s, s', seen, x, key);
  }

  lemma VisitRight(s: State, e: Event, settings: Settings, seen: seq<Sight>, layer: Layer, x: Sight)
    requires Visits(s, e, settings, layer) && layer in {RateLimit, Rbac, Policy} && Seen(s, e, settings) == [x]
    requires Explained(s, seen, settings, s.flights[e.id].caller.key)
    ensures Right(seen, x, settings.defaultCfg)
  {
    var s' := Next(s, e, settings);
    var y := SeenShape(s, e, settings, layer);
    assert y == x;
    if layer.RateLimit? {
      TokenRight(s, s', x, settings, seen);
    } else if layer.Rbac? {
      JudgeRight(s, s', x, settings, seen);
    } else {
      PoliceShape(s, s', x);
    }
  }

  // ---------------------------------------------------------------- who has come how far

  /** The request went on from a layer of this kind. */
  ghost predicate Cleared(seen: seq<Sight>, id: RequestId, key: Key, kind: Kind) {
    exists n :: 0 <= n < |seen| && seen[n].id == id && seen[n].key == key && KindOf(seen[n]) == kind && seen[n].passed
  }

  /** A request has been cleared by every deciding layer behind it. */
  ghost predicate ClearedBehind(seen: seq<Sight>, id: RequestId, f: Flight, settings: Settings) {
    f.caller.Holder? && f.stage.At? ==>
      var rbac := if settings.rateLimit then 2 else 1;
      && (settings.rateLimit && f.stage.i > 1 ==> Cleared(seen, id, f.caller.key, AtLimiter))
      && (f.stage.i > rbac ==> Cleared(seen, id, f.caller.key, AtRbac))
      && (f.stage.i > rbac + 1 ==> Cleared(seen, id, f.caller.key, AtPolicy))
  }

  lemma StillCleared(seen: seq<Sight>, more: seq<Sight>, id: RequestId, f: Flight, settings: Settings)
    requires ClearedBehind(seen, id, f, settings)
    ensures ClearedBehind(seen + more, id, f, settings)
  {
    forall key, kind | Cleared(seen, id, key, kind) ensures Cleared(seen + more, id, key, kind) {
      var n :| 0 <= n < |seen| && seen[n].id == id && seen[n].key == key && KindOf(seen[n]) == kind && seen[n].passed;
      assert (seen + more)[n] == seen[n];
    }
  }

  /** What is not a visit moves a request past a layer that decides nothing, out of the stack, or not. */
  lemma PassingMoves(s: State, e: Event, settings: Settings, id: RequestId)
    requires Passes(s, e, settings) && id in Next(s, e, settings).flights && Next(s, e, settings).flights[id].stage.At?
    ensures var f := Next(s, e, settings).flights[id];
            || f.stage.i == 0
            || (id in s.flights && s.flights[id] == f)
            || (id in s.flights && f.stage.i > 0 && s.flights[id] == f.(stage := At(f.stage.i - 1))
                && f.stage.i <= |Stack(settings)| && Stack(settings)[f.stage.i - 1] in {Auth, Audit})
  {}

  lemma VisitMoves(s: State, e: Event, settings: Settings, layer: Layer)
    requires Visits(s, e, settings, layer) && layer in {RateLimit, Rbac, Policy}
    ensures |Seen(s, e, settings)| == 1 && Moved(s, Next(s, e, settings), e.id, Seen(s, e, settings)[0].passed)
  {
    var s' := Next(s, e, settings);
    var x := SeenShape(s, e, settings, layer);
    if layer.RateLimit? {
      TokenShape(s, s', x, settings);
    } else if layer.Rbac? {
      JudgeShape(s, s', x);
    } else {
      PoliceShape(s, s', x);
    }
  }

  lemma NextKeepsCleared(s: State, e: Event, settings: Settings, seen: seq<Sight>, id: RequestId)
    requires Enabled(s, e, settings) && id in Next(s, e, settings).flights
    requires id in s.flights ==> ClearedBehind(seen, id, s.flights[id], settings)
    ensures ClearedBehind(seen + Seen(s, e, settings), id, Next(s, e, settings).flights[id], settings)
  {
    var f := Next(s, e, settings).flights[id];
    if f.stage.At? && f.caller.Holder? {
      StackOrder(settings);
      if id in s.flights {
        StillCleared(seen, Seen(s, e, settings), id, s.flights[id], settings);
      }
      if Passes(s, e, settings) {
        PassingMoves(s, e, settings, id);
      } else {
        VisitKeepsCleared(s, e, settings, seen, id);
      }
    }
  }

  lemma VisitKeepsCleared(s: State, e: Event, settings: Settings, seen: seq<Sight>, id: RequestId)
    requires Enabled(s, e, settings) && !Passes(s, e, settings) && id in Next(s, e, settings).flights
    requires id in s.flights ==> ClearedBehind(seen + Seen(s, e, settings), id, s.flights[id], settings)
    ensures ClearedBehind(seen + Seen(s, e, settings), id, Next(s, e, settings).flights[id], settings)
  {
    var layer := Stack(settings)[s.flights[e.id].stage.i];
    var x := SeenShape(s, e, settings, layer);
    VisitMoves(s, e, settings, layer);
    StackOrder(settings);
    if id == e.id && x.passed {
      assert (seen + [x])[|seen|] == x;
      assert Cleared(seen + [x], id, x.key, KindOf(x));
    }
  }

  // ---------------------------------------------------------------- whole runs

  ghost predicate Valid(s: State, seen: seq<Sight>, settings: Settings) {
    && (forall key :: Explained(s, seen, settings, key) && Marked(s, seen, key))
    && (forall id :: id in s.flights ==> ClearedBehind(seen, id, s.flights[id], settings))
    && AllRight(seen, settings.defaultCfg)
  }

  lemma RightSnoc(seen: seq<Sight>, x: Sight, defaultCfg: Limiter.Config)
    requires AllRight(seen, defaultCfg) && Right(seen, x, defaultCfg)
    ensures AllRight(seen + [x], defaultCfg)
  {
    var more := seen + [x];
    forall n | 0 <= n < |more| ensures Right(more[..n], more[n], defaultCfg) {
      if n < |seen| {
        assert more[..n] == seen[..n] && more[n] == seen[n];
      } else {
        assert more[..n] == seen;
      }
    }
  }

  lemma NextKeepsValid(s: State, e: Event, settings: Settings, seen: seq<Sight>)
    requires Enabled(s, e, settings) && Valid(s, seen, settings)
    ensures Valid(Next(s, e, settings), seen + Seen(s, e, settings), settings)
  {
    var s' := Next(s, e, settings);
    forall id | id in s'.flights
      ensures ClearedBehind(seen + Seen(s, e, settings), id, s'.flights[id], settings)
    {
      NextKeepsCleared(s, e, settings, seen, id);
    }
    if Passes(s, e, settings) {
      UnseenShape(s, e, settings);
      assert seen + [] == seen;
      forall key ensures Explained(s', seen, settings, key) && Marked(s', seen, key) {
        assert Explained(s, seen, settings, key) && Marked(s, seen, key);
        UnseenMarks(s, e, settings, key);
      }
    } else {
      var layer := Stack(settings)[s.flights[e.id].stage.i];
      var x := SeenShape(s, e, settings, layer);
      forall key ensures Explained(s', seen + [x], settings, key) && Marked(s', seen + [x], key) {
        assert Explained(s, seen, settings, key) && Marked(s, seen, key);
        VisitExplained(s, e, settings, seen, layer, x, key);
      }
      assert Explained(s, seen, settings, s.flights[e.id].caller.key);
      VisitRight(s, e, settings, seen, layer, x);
      RightSnoc(seen, x, settings.defaultCfg);
    }
  }

  lemma {:induction false} RunKeepsValid(s: State, es: seq<Event>, settings: Settings, seen: seq<Sight>)
    requires CanRun(s, es, settings) && Valid(s, seen, settings)
    ensures Valid(EndOf(s, es, settings), seen + Sights(s, es, settings), settings)
    decreases |es|
  {
    if es == [] {
      assert seen + [] == seen;
    } else {
      var next, now := Next(s, es[0], settings), Seen(s, es[0], settings);
      NextKeepsValid(s, es[0], settings, seen);
      RunKeepsValid(next, es[1..], settings, seen + now);
      Regrouped(seen, now, Sights(next, es[1..], settings));
    }
  }

  lemma Regrouped(a: seq<Sight>, b: seq<Sight>, c: seq<Sight>)
    ensures a + b + c == a + (b + c)
  {}

  lemma StartIsValid(settings: Settings)
    ensures Valid(Start(settings), [], settings)
  {}

  /** On every run, each answer of the limiter, the RBAC layer and the policy layer is the right one,
      given what was asked before; and the counts of tokens, refusals and denials are those of the
      answers. */
  lemma AnswersAreRight(es: seq<Event>, settings: Settings, key: Key)
    requires CanRun(Start(settings), es, settings)
    ensures var seen := Sights(Start(settings), es, settings);
            AllRight(seen, settings.defaultCfg) && Marked(EndOf(Start(settings), es, settings), seen, key)
  {
    StartIsValid(settings);
    RunKeepsValid(Start(settings), es, settings, []);
    assert [] + Sights(Start(settings), es, settings) == Sights(Start(settings), es, settings);
    assert Valid(EndOf(Start(settings), es, settings), Sights(Start(settings), es, settings), settings);
  }

  /** A request that is forwarded was let through by every deciding layer. */
  lemma ForwardsAreCleared(es: seq<Event>, id: RequestId, settings: Settings)
    requires CanRun(Start(settings), es, settings)
    requires Enabled(EndOf(Start(settings), es, settings), Forward(id), settings)
    ensures var seen := Sights(Start(settings), es, settings);
            var key := EndOf(Start(settings), es, settings).flights[id].caller.key;
            && (settings.rateLimit ==> Cleared(seen, id, key, AtLimiter))
            && Cleared(seen, id, key, AtRbac) && Cleared(seen, id, key, AtPolicy)
  {
    StartIsValid(settings);
    RunKeepsValid(Start(settings), es, settings, []);
    assert [] + Sights(Start(settings), es, settings) == Sights(Start(settings), es, settings);
    StackOrder(settings);
    var s := EndOf(Start(settings), es, settings);
    assert ClearedBehind(Sights(Start(settings), es, settings), id, s.flights[id], settings);
  }

  // ---------------------------------------------------------------- the rate of forwards

  function Admissions(life: LimiterLives.Life): seq<bool>
    requires life.Live? && life.times != []
  {
    TokenBucket.Log(TokenBucket.ONE * life.cfg.burstSize, life.cfg.requestsPerMin, life.times)
  }

  lemma CountOneMore(log: seq<bool>, ok: bool)
    ensures TokenBucket.Count(log + [ok]) == TokenBucket.Count(log) + One(ok)
  {
    assert (log + [ok])[..|log|] == log;
  }

  /** The life of the key after its visit of the limiter. */
  function After(life: LimiterLives.Life, x: Sight, defaultCfg: Limiter.Config): LimiterLives.Life
    requires x.Limited?
  {
    LimiterLives.Lived(life, IdleCleanup.Allow(x.key, x.row, x.created, x.now), x.key, defaultCfg)
  }

  /** One more visit of the limiter by the key. */
  lemma VisitCounts(life: LimiterLives.Life, x: Sight, defaultCfg: Limiter.Config)
    requires x.Limited? && !life.Assigned? && (life.Live? ==> life.times != [])
    requires var life' := After(life, x, defaultCfg);
             var capacity, rate := TokenBucket.ONE * life'.cfg.burstSize, life'.cfg.requestsPerMin;
             x.passed == TokenBucket.HistoryLog(capacity, rate, life'.times)[|life'.times| - 1]
    ensures var life' := After(life, x, defaultCfg);
            TokenBucket.Count(Admissions(life'))
            == (if life.Live? then TokenBucket.Count(Admissions(life)) else 0) + One(x.passed)
  {
    var life' := After(life, x, defaultCfg);
    var capacity, rate := TokenBucket.ONE * life'.cfg.burstSize, life'.cfg.requestsPerMin;
    var before := if life.Live? then life.times else [x.created];
    assert life'.times == before + [x.now];
    TokenBucket.BucketIsHistoryChecker(capacity, rate, life'.times);
    LimiterLives.OneMoreReading(capacity, rate, before, x.now);
    CountOneMore(TokenBucket.Log(capacity, rate, before), x.passed);
    CountOneMore([], false);
    assert [] + [false] == [false];
  }

  /** The tokens that a key took are the admissions of its bucket's life. */
  lemma {:induction false} TokensAreAdmissions(seen: seq<Sight>, key: Key, defaultCfg: Limiter.Config)
    requires AllRight(seen, defaultCfg)
    ensures var life := LifeOf(seen, key, defaultCfg);
            && !life.Assigned? && (life.Live? ==> life.times != [])
            && Counted(seen, key, AtLimiter, true) == if life.Live? then TokenBucket.Count(Admissions(life)) else 0
    decreases |seen|
  {
    if seen != [] {
      var before, x := seen[..|seen| - 1], seen[|seen| - 1];
      assert seen == before + [x];
      FrontIsRight(before, x, defaultCfg);
      TokensAreAdmissions(before, key, defaultCfg);
      LifeSnoc(before, x, key, defaultCfg);
      CountedSnoc(before, x, key, AtLimiter, true);
      if x.Limited? && x.key == key {
        VisitCounts(LifeOf(before, key, defaultCfg), x, defaultCfg);
      }
    }
  }

  lemma FrontIsRight(seen: seq<Sight>, x: Sight, defaultCfg: Limiter.Config)
    requires AllRight(seen + [x], defaultCfg)
    ensures AllRight(seen, defaultCfg) && Right(seen, x, defaultCfg)
  {
    var more := seen + [x];
    forall n | 0 <= n < |seen| ensures Right(seen[..n], seen[n], defaultCfg) {
      assert more[..n] == seen[..n] && more[n] == seen[n];
      assert Right(more[..n], more[n], defaultCfg);
    }
    assert more[..|seen|] == seen && Right(more[..|seen|], more[|seen|], defaultCfg);
  }

  lemma {:induction false} LastAdmission(log: seq<bool>) returns (i: nat)
    requires TokenBucket.Count(log) > 0
    ensures i < |log| && log[i] && TokenBucket.Count(log[0..i + 1]) == TokenBucket.Count(log)
    decreases |log|
  {
    var n := |log| - 1;
    if log[n] {
      i := n;
      assert log[0..n + 1] == log;
    } else {
      i := LastAdmission(log[..n]);
      assert log[..n][0..i + 1] == log[0..i + 1];
    }
  }

  /** With rate limiting on: the requests of a key that reach the upstream server are at most the burst
      plus the rate over the time from the making of its bucket to a call that the limiter let through.
      Burst and rate are those read at the key's first call. */
  lemma ForwardsAreRateLimited(es: seq<Event>, settings: Settings, key: Key) returns (i: nat)
    requires settings.rateLimit && CanRun(Start(settings), es, settings)
    requires EndOf(Start(settings), es, settings).marks[Forwarded(key)] > 0
    ensures var s := EndOf(Start(settings), es, settings);
            var life := LifeOf(Sights(Start(settings), es, settings), key, settings.defaultCfg);
            && life.Live? && i < |life.times| && Admissions(life)[i]
            && 60_000_000_000 * s.marks[Forwarded(key)]
               <= 60_000_000_000 * life.cfg.burstSize + life.cfg.requestsPerMin * (life.times[i] - life.times[0])
  {
    var seen := Sights(Start(settings), es, settings);
    var life := LifeOf(seen, key, settings.defaultCfg);
    TokensAreSpent(es, settings, key);
    AnswersAreRight(es, settings, key);
    TokensAreAdmissions(seen, key, settings.defaultCfg);
    i := WithinRate(life, EndOf(Start(settings), es, settings).marks[Forwarded(key)]);
  }

  lemma WithinRate(life: LimiterLives.Life, n: nat) returns (i: nat)
    requires life.Live? && life.times != [] && 0 < n <= TokenBucket.Count(Admissions(life))
    ensures i < |life.times| && Admissions(life)[i]
    ensures 60_000_000_000 * n
         <= 60_000_000_000 * life.cfg.burstSize + life.cfg.requestsPerMin * (life.times[i] - life.times[0])
  {
    i := LastAdmission(Admissions(life));
    TokenBucket.WindowBound(TokenBucket.ONE * life.cfg.burstSize, life.cfg.requestsPerMin, life.times, 0, i);
  }
}
