/**
 * The gateway's request path: the middleware stack as it is put together at start-up, over the
 * shared state of its layers. Requests interleave layer by layer.
 */
module Gateway {
  import opened Glob
  import opened Keys
  import TokenBucket
  import Limiter
  import Authorization
  import PermissionCache
  import PolicyEngine
  import AuditLogger

  datatype Layer = Auth | RateLimit | Rbac | Policy | Audit

  datatype Settings = Settings(rateLimit: bool, audit: bool, defaultCfg: Limiter.Config, bufferSize: nat)

  function Stack(settings: Settings): seq<Layer> {
    [Auth] + (if settings.rateLimit then [RateLimit] else [])
    + [Rbac, Policy] + (if settings.audit then [Audit] else [])
  }

  /** The layers that the settings ask for. */
  predicate Wanted(layer: Layer, settings: Settings) {
    (layer.RateLimit? ==> settings.rateLimit) && (layer.Audit? ==> settings.audit)
  }

  /** The place of a layer in the fixed order. */
  function Rank(layer: Layer): nat {
    match layer
    case Auth => 0
    case RateLimit => 1
    case Rbac => 2
    case Policy => 3
    case Audit => 4
  }

  predicate Ranked(mws: seq<Layer>) {
    forall i, j :: 0 <= i < j < |mws| ==> Rank(mws[i]) < Rank(mws[j])
  }

  /** The stack has exactly the wanted layers, each once, in the fixed order. */
  method BuildStack(settings: Settings) returns (mws: seq<Layer>)
    ensures Ranked(mws) && forall layer :: layer in mws <==> Wanted(layer, settings)
    ensures mws == Stack(settings)
  {
    mws := [];
    mws := mws + [Auth];
    if settings.rateLimit {
      mws := mws + [RateLimit];
    }
    mws := mws + [Rbac];
    mws := mws + [Policy];
    if settings.audit {
      mws := mws + [Audit];
    }
    StackIsWanted(settings);
  }

  lemma StackIsWanted(settings: Settings)
    ensures Ranked(Stack(settings)) && forall layer :: layer in Stack(settings) <==> Wanted(layer, settings)
  {
    var stack := Stack(settings);
    StackOrder(settings);
    forall layer ensures layer in stack <==> Wanted(layer, settings) {
      if Wanted(layer, settings) {
        var k := if settings.rateLimit then 1 else 0;
        assert stack[if layer.Auth? then 0 else if layer.RateLimit? then 1 else if layer.Audit? then k + 3
                     else if layer.Rbac? then k + 1 else k + 2] == layer;
      }
    }
  }

  lemma FirstIsIn(a: seq<Layer>)
    ensures a != [] ==> a[0] in a
  {}

  /** That leaves no choice: such a stack is determined by its layers. */
  lemma {:induction false} RankedIsUnique(a: seq<Layer>, b: seq<Layer>)
    requires Ranked(a) && Ranked(b) && forall layer :: layer in a <==> layer in b
    ensures a == b
  {
    FirstIsIn(a);
    FirstIsIn(b);
    if a != [] && b != [] {
      var n, m := |a| - 1, |b| - 1;
      assert a[n] in b && b[m] in a;
      assert Rank(a[n]) == Rank(b[m]);
      forall layer ensures layer in a[..n] <==> layer in b[..m] {
        assert layer in a[..n] <==> layer in a && layer != a[n];
        assert layer in b[..m] <==> layer in b && layer != b[m];
      }
      RankedIsUnique(a[..n], b[..m]);
    }
  }

  type RequestId = nat

  /** About to enter layer i (the proxy, past the last layer); back from the proxy with its audit
      entry to log; or answered. */
  datatype Stage = At(i: nat) | Returning | Finished

  datatype Flight = Flight(caller: Caller, stage: Stage)

  /** What happened to requests, counted. A handler that panics after it has been handed the request
      never comes back to the audit layer. */
  datatype Mark =
    | Took(key: Key)
    | Refused(key: Key)
    | RbacDenied(key: Key)
    | PolicyDenied(key: Key)
    | Forwarded(key: Key)
    | Proxied
    | Aborted

  datatype State = State(
    limits: Limiter.Limits,
    cache: PermissionCache.Cache,
    writes: map<Key, seq<int>>,
    logger: AuditLogger.State,
    flights: map<RequestId, Flight>,
    marks: multiset<Mark>)

  /** What a layer reads from outside for one request: clock readings, query results, the decoded
      body, and the policies in force. */
  datatype Input =
    | Nothing
    | ForLimiter(row: Limiter.Row, created: int, now: int)
    | ForRbac(resource: Bytes, action: Bytes, fetched: PermissionCache.Fetch)
    | ForPolicy(rules: seq<PolicyEngine.Rule>, isWrite: bool, time: int)

  datatype Event =
    | Arrive(id: RequestId, caller: Caller)
    | Enter(id: RequestId, input: Input)
    | Forward(id: RequestId)
    | LogEntry(id: RequestId, entry: AuditLogger.Entry)
    | Abort(id: RequestId)
    | Drain
    | CloseLog

  predicate Suits(input: Input, layer: Layer) {
    match layer
    case Auth => input.Nothing?
    case RateLimit => input.ForLimiter?
    case Rbac => input.ForRbac?
    case Policy => input.ForPolicy?
    case Audit => input.Nothing?
  }

  predicate Enabled(s: State, e: Event, settings: Settings) {
    match e
    case Arrive(id, _) => id !in s.flights
    case Enter(id, input) =>
      id in s.flights && s.flights[id].stage.At? && s.flights[id].stage.i < |Stack(settings)|
      && (s.flights[id].stage.i > 0 ==> s.flights[id].caller.Holder?)
      && Suits(input, Stack(settings)[s.flights[id].stage.i])
    case Forward(id) => id in s.flights && s.flights[id].stage == At(|Stack(settings)|) && s.flights[id].caller.Holder?
    case LogEntry(id, _) => id in s.flights && s.flights[id].stage.Returning?
    case Abort(id) => id in s.flights && s.flights[id].stage.Returning?
    case Drain => AuditLogger.CanConsume(s.logger)
    case CloseLog => !s.logger.closed
  }

  function Move(s: State, id: RequestId, stage: Stage, marks: multiset<Mark>): State
    requires id in s.flights
  {
    s.(flights := s.flights[id := s.flights[id].(stage := stage)], marks := s.marks + marks)
  }

  function Pass(s: State, id: RequestId, marks: multiset<Mark>): State
    requires id in s.flights && s.flights[id].stage.At?
  {
    Move(s, id, At(s.flights[id].stage.i + 1), marks)
  }

  function TakeToken(s: State, id: RequestId, key: Key, row: Limiter.Row, created: int, now: int,
                     settings: Settings): State
    requires id in s.flights && s.flights[id].stage.At?
  {
    var w := Limiter.WithBucket(s.limits, key, row, settings.defaultCfg, created);
    var s' := s.(limits := Limiter.Charged(w, key, now));
    if TokenBucket.Admits(w.buckets[key], now) then Pass(s', id, multiset{Took(key)})
    else Move(s', id, Finished, multiset{Refused(key)})
  }

  /** The request goes on to the next layer, or is answered with a denial. */
  function Settle(s: State, id: RequestId, ok: bool, denial: Mark): State
    requires id in s.flights && s.flights[id].stage.At?
  {
    if ok then Pass(s, id, multiset{}) else Move(s, id, Finished, multiset{denial})
  }

  ghost function Judge(s: State, id: RequestId, key: Key, resource: Bytes, action: Bytes,
                       fetched: PermissionCache.Fetch): State
    requires id in s.flights && s.flights[id].stage.At?
  {
    if resource == [] then Settle(s, id, true, RbacDenied(key))
    else
      var (perms, cache) := PermissionCache.Lookup(s.cache, key, fetched);
      Settle(s.(cache := cache), id, Authorization.Allowed(perms, resource, action), RbacDenied(key))
  }

  function Writes(s: State, key: Key): seq<int> {
    if key in s.writes then s.writes[key] else []
  }

  function Police(s: State, id: RequestId, key: Key, rules: seq<PolicyEngine.Rule>, isWrite: bool, now: int): State
    requires id in s.flights && s.flights[id].stage.At?
  {
    var request := PolicyEngine.Request(Holder(key), isWrite, now);
    Settle(s.(writes := s.writes[key := PolicyEngine.TrackedAll(rules, request, Writes(s, key))]), id,
           !PolicyEngine.Denied(rules, request, Writes(s, key)), PolicyDenied(key))
  }

  ghost function Next(s: State, e: Event, settings: Settings): State
    requires Enabled(s, e, settings)
  {
    match e
    case Arrive(id, caller) => s.(flights := s.flights[id := Flight(caller, At(0))])
    case Enter(id, input) =>
      var f := s.flights[id];
      var layer := Stack(settings)[f.stage.i];
      if f.caller.Anonymous? then Move(s, id, Finished, multiset{})
      else if layer.RateLimit? then TakeToken(s, id, f.caller.key, input.row, input.created, input.now, settings)
      else if layer.Rbac? then Judge(s, id, f.caller.key, input.resource, input.action, input.fetched)
      else if layer.Policy? then Police(s, id, f.caller.key, input.rules, input.isWrite, input.time)
      else Pass(s, id, multiset{})
    case Forward(id) =>
      Move(s, id, if settings.audit then Returning else Finished,
           multiset{Forwarded(s.flights[id].caller.key), Proxied})
    case LogEntry(id, entry) =>
      Move(s, id, Finished, multiset{}).(logger := AuditLogger.Log(s.logger, entry))
    case Abort(id) => Move(s, id, Finished, multiset{Aborted})
    case Drain => s.(logger := AuditLogger.Consume(s.logger))
    case CloseLog => s.(logger := AuditLogger.CloseChannel(s.logger))
  }

  ghost predicate CanRun(s: State, es: seq<Event>, settings: Settings)
    decreases |es|
  {
    es == [] || (Enabled(s, es[0], settings) && CanRun(Next(s, es[0], settings), es[1..], settings))
  }

  ghost function EndOf(s: State, es: seq<Event>, settings: Settings): State
    requires CanRun(s, es, settings)
    decreases |es|
  {
    if es == [] then s else EndOf(Next(s, es[0], settings), es[1..], settings)
  }

  function Start(settings: Settings): State {
    State(Limiter.Limits(map[], map[]), map[], map[], AuditLogger.New(settings.bufferSize),
          map[], multiset{})
  }

  // ---------------------------------------------------------------- counting requests in flight

  /** The request has its token and is neither answered nor forwarded yet. */
  predicate Passing(f: Flight, key: Key) {
    f.caller == Holder(key) && f.stage.At? && f.stage.i >= 2
  }

  function PassingIds(s: State, key: Key): set<RequestId> {
    set id | id in s.flights && Passing(s.flights[id], key)
  }

  function ReturningIds(s: State): set<RequestId> {
    set id | id in s.flights && s.flights[id].stage.Returning?
  }

  function One(b: bool): nat {
    if b then 1 else 0
  }

  lemma OneElement(a: set<RequestId>, b: set<RequestId>, id: RequestId)
    requires a - {id} == b - {id}
    ensures |b| == |a| - One(id in a) + One(id in b)
  {
    assert a == (a - {id}) + (if id in a then {id} else {});
    assert b == (b - {id}) + (if id in b then {id} else {});
  }

  lemma PassingAfter(s: State, s': State, id: RequestId, key: Key)
    requires id in s'.flights && s'.flights == s.flights[id := s'.flights[id]]
    ensures |PassingIds(s', key)|
         == |PassingIds(s, key)| - One(id in s.flights && Passing(s.flights[id], key))
            + One(Passing(s'.flights[id], key))
  {
    OneElement(PassingIds(s, key), PassingIds(s', key), id);
  }

  lemma ReturningAfter(s: State, s': State, id: RequestId)
    requires id in s'.flights && s'.flights == s.flights[id := s'.flights[id]]
    ensures |ReturningIds(s')|
         == |ReturningIds(s)| - One(id in s.flights && s.flights[id].stage.Returning?)
            + One(s'.flights[id].stage.Returning?)
  {
    OneElement(ReturningIds(s), ReturningIds(s'), id);
  }

  /** How one event changes the flights and the marks. */
  ghost predicate Changes(s: State, s': State, id: RequestId, stage: Stage, marks: multiset<Mark>) {
    && id in s.flights
    && s'.flights == s.flights[id := s.flights[id].(stage := stage)]
    && s'.marks == s.marks + marks
  }

  lemma StackOrder(settings: Settings)
    ensures var k := if settings.rateLimit then 1 else 0;
            && |Stack(settings)| == 3 + k + (if settings.audit then 1 else 0)
            && Stack(settings)[0] == Auth && Stack(settings)[k + 1] == Rbac && Stack(settings)[k + 2] == Policy
            && (settings.rateLimit ==> Stack(settings)[1] == RateLimit)
            && (settings.audit ==> Stack(settings)[k + 3] == Audit)
  {}

  // ---------------------------------------------------------------- tokens against forwards

  ghost predicate TokensAccounted(s: State, key: Key) {
    s.marks[Took(key)]
    == s.marks[Forwarded(key)] + s.marks[RbacDenied(key)] + s.marks[PolicyDenied(key)] + |PassingIds(s, key)|
  }

  /** A token taken, a denial or a forward changes by one the number of requests on their way. */
  predicate Balanced(marks: multiset<Mark>, f: Flight, f': Flight, key: Key) {
    marks[Took(key)] + One(Passing(f, key))
    == marks[Forwarded(key)] + marks[RbacDenied(key)] + marks[PolicyDenied(key)] + One(Passing(f', key))
  }

  lemma ChangeKeepsTokens(s: State, s': State, id: RequestId, stage: Stage, marks: multiset<Mark>, key: Key)
    requires Changes(s, s', id, stage, marks) && TokensAccounted(s, key)
    requires Balanced(marks, s.flights[id], s'.flights[id], key)
    ensures TokensAccounted(s', key)
  {
    PassingAfter(s, s', id, key);
  }

  lemma TakeTokenKeepsTokens(s: State, id: RequestId, k: Key, row: Limiter.Row, created: int, now: int,
                             settings: Settings, key: Key)
    requires id in s.flights && s.flights[id] == Flight(Holder(k), At(1)) && TokensAccounted(s, key)
    ensures TokensAccounted(TakeToken(s, id, k, row, created, now, settings), key)
  {
    var s' := TakeToken(s, id, k, row, created, now, settings);
    if s'.flights[id].stage.At? {
      ChangeKeepsTokens(s, s', id, At(2), multiset{Took(k)}, key);
    } else {
      ChangeKeepsTokens(s, s', id, Finished, multiset{Refused(k)}, key);
    }
  }

  lemma SettleKeepsTokens(s: State, id: RequestId, ok: bool, denial: Mark, key: Key)
    requires id in s.flights && s.flights[id].caller.Holder? && s.flights[id].stage.At? && s.flights[id].stage.i >= 2
    requires denial in {RbacDenied(s.flights[id].caller.key), PolicyDenied(s.flights[id].caller.key)}
    requires TokensAccounted(s, key)
    ensures TokensAccounted(Settle(s, id, ok, denial), key)
  {
    var s' := Settle(s, id, ok, denial);
    ChangeKeepsTokens(s, s', id, s'.flights[id].stage, if ok then multiset{} else multiset{denial}, key);
  }

  /** The counts depend on the flights and the marks only. */
  lemma SameTokens(s: State, s': State, key: Key)
    requires TokensAccounted(s, key) && s'.flights == s.flights && s'.marks == s.marks
    ensures TokensAccounted(s', key)
  {
    assert PassingIds(s', key) == PassingIds(s, key);
  }

  lemma EnterKeepsTokens(s: State, id: RequestId, input: Input, settings: Settings, key: Key)
    requires settings.rateLimit && Enabled(s, Enter(id, input), settings) && TokensAccounted(s, key)
    ensures TokensAccounted(Next(s, Enter(id, input), settings), key)
  {
    StackOrder(settings);
    var f := s.flights[id];
    var i := f.stage.i;
    if f.caller.Anonymous? {
      ChangeKeepsTokens(s, Move(s, id, Finished, multiset{}), id, Finished, multiset{}, key);
    } else if i == 0 || i == 4 {
      ChangeKeepsTokens(s, Pass(s, id, multiset{}), id, At(i + 1), multiset{}, key);
    } else if i == 1 {
      TakeTokenKeepsTokens(s, id, f.caller.key, input.row, input.created, input.now, settings, key);
    } else if i == 2 {
      var cache := PermissionCache.Lookup(s.cache, f.caller.key, input.fetched).1;
      SameTokens(s, s.(cache := cache), key);
      SettleKeepsTokens(s, id, true, RbacDenied(f.caller.key), key);
      SettleKeepsTokens(s.(cache := cache), id, true, RbacDenied(f.caller.key), key);
      SettleKeepsTokens(s.(cache := cache), id, false, RbacDenied(f.caller.key), key);
    } else {
      var request := PolicyEngine.Request(Holder(f.caller.key), input.isWrite, input.time);
      var times := Writes(s, f.caller.key);
      var s1 := s.(writes := s.writes[f.caller.key := PolicyEngine.TrackedAll(input.rules, request, times)]);
      SameTokens(s, s1, key);
      SettleKeepsTokens(s1, id, !PolicyEngine.Denied(input.rules, request, times), PolicyDenied(f.caller.key), key);
    }
  }

  lemma NextKeepsTokens(s: State, e: Event, settings: Settings, key: Key)
    requires settings.rateLimit && Enabled(s, e, settings) && TokensAccounted(s, key)
    ensures TokensAccounted(Next(s, e, settings), key)
  {
    var s' := Next(s, e, settings);
    if e.Drain? || e.CloseLog? {
      assert PassingIds(s', key) == PassingIds(s, key);
    } else if e.Enter? {
      EnterKeepsTokens(s, e.id, e.input, settings, key);
    } else if e.Arrive? {
      PassingAfter(s, s', e.id, key);
    } else if e.Forward? {
      StackOrder(settings);
      ChangeKeepsTokens(s, s', e.id, s'.flights[e.id].stage,
                        multiset{Forwarded(s.flights[e.id].caller.key), Proxied}, key);
    } else {
      ChangeKeepsTokens(s, s', e.id, Finished, if e.Abort? then multiset{Aborted} else multiset{}, key);
    }
  }

  // ---------------------------------------------------------------- forwards against audit entries

  ghost predicate AuditAccounted(s: State) {
    && s.marks[Proxied] == s.logger.calls + |ReturningIds(s)| + s.marks[Aborted]
    && AuditLogger.Valid(s.logger)
  }

  /** One request moved, and nothing was forwarded or logged. */
  ghost predicate Silent(s: State, s': State, id: RequestId) {
    && s'.marks[Proxied] == s.marks[Proxied] && s'.marks[Aborted] == s.marks[Aborted] && s'.logger == s.logger
    && id in s'.flights && s'.flights == s.flights[id := s'.flights[id]] && !s'.flights[id].stage.Returning?
  }

  lemma SettleIsSilent(s: State, id: RequestId, ok: bool, denial: Mark)
    requires id in s.flights && s.flights[id].stage.At? && !denial.Proxied? && !denial.Aborted?
    ensures Silent(s, Settle(s, id, ok, denial), id)
  {}

  lemma TakeTokenIsSilent(s: State, id: RequestId, k: Key, row: Limiter.Row, created: int, now: int, settings: Settings)
    requires id in s.flights && s.flights[id].stage.At?
    ensures Silent(s, TakeToken(s, id, k, row, created, now, settings), id)
  {}

  lemma EnterIsSilent(s: State, id: RequestId, input: Input, settings: Settings)
    requires Enabled(s, Enter(id, input), settings)
    ensures Silent(s, Next(s, Enter(id, input), settings), id)
  {
    var f := s.flights[id];
    var layer := Stack(settings)[f.stage.i];
    if f.caller.Anonymous? || layer.Auth? || layer.Audit? {
    } else if layer.RateLimit? {
      TakeTokenIsSilent(s, id, f.caller.key, input.row, input.created, input.now, settings);
    } else if layer.Rbac? {
      var cache := PermissionCache.Lookup(s.cache, f.caller.key, input.fetched).1;
      SettleIsSilent(s, id, true, RbacDenied(f.caller.key));
      SettleIsSilent(s.(cache := cache), id, true, RbacDenied(f.caller.key));
      SettleIsSilent(s.(cache := cache), id, false, RbacDenied(f.caller.key));
    } else {
      var request := PolicyEngine.Request(Holder(f.caller.key), input.isWrite, input.time);
      var times := Writes(s, f.caller.key);
      SettleIsSilent(s.(writes := s.writes[f.caller.key := PolicyEngine.TrackedAll(input.rules, request, times)]), id,
                     !PolicyEngine.Denied(input.rules, request, times), PolicyDenied(f.caller.key));
    }
  }

  lemma NextKeepsAudit(s: State, e: Event, settings: Settings)
    requires settings.audit && Enabled(s, e, settings) && AuditAccounted(s)
    ensures AuditAccounted(Next(s, e, settings))
  {
    var s' := Next(s, e, settings);
    if e.Drain? {
      AuditLogger.NextKeepsValid(s.logger, AuditLogger.Work);
      assert ReturningIds(s') == ReturningIds(s);
    } else if e.CloseLog? {
      AuditLogger.NextKeepsValid(s.logger, AuditLogger.Close);
      assert ReturningIds(s') == ReturningIds(s);
    } else if e.Enter? {
      EnterIsSilent(s, e.id, e.input, settings);
      ReturningAfter(s, s', e.id);
    } else {
      ReturningAfter(s, s', e.id);
      if e.LogEntry? {
        AuditLogger.NextKeepsValid(s.logger, AuditLogger.Call(e.entry));
      }
    }
  }

  // ---------------------------------------------------------------- whole runs

  lemma {:induction false} RunKeepsTokens(s: State, es: seq<Event>, settings: Settings, key: Key)
    requires settings.rateLimit && CanRun(s, es, settings) && TokensAccounted(s, key)
    ensures TokensAccounted(EndOf(s, es, settings), key)
    decreases |es|
  {
    if es != [] {
      NextKeepsTokens(s, es[0], settings, key);
      RunKeepsTokens(Next(s, es[0], settings), es[1..], settings, key);
    }
  }

  lemma {:induction false} RunKeepsAudit(s: State, es: seq<Event>, settings: Settings)
    requires settings.audit && CanRun(s, es, settings) && AuditAccounted(s)
    ensures AuditAccounted(EndOf(s, es, settings))
    decreases |es|
  {
    if es != [] {
      NextKeepsAudit(s, es[0], settings);
      RunKeepsAudit(Next(s, es[0], settings), es[1..], settings);
    }
  }

  /** With rate limiting on: every token a key has taken went to a request that was forwarded, denied
      by RBAC, denied by a policy, or is still on its way. */
  lemma TokensAreSpent(es: seq<Event>, settings: Settings, key: Key)
    requires settings.rateLimit && CanRun(Start(settings), es, settings)
    ensures TokensAccounted(EndOf(Start(settings), es, settings), key)
  {
    assert PassingIds(Start(settings), key) == {};
    RunKeepsTokens(Start(settings), es, settings, key);
  }

  /** With auditing on: the forwarded requests are the audit calls made, the requests not yet back from
      the proxy and those whose handler panicked; and, while the log is open, each call was accepted or
      dropped. So requests stopped by an earlier layer leave no entry. */
  lemma ForwardsAreAudited(es: seq<Event>, settings: Settings)
    requires settings.audit && CanRun(Start(settings), es, settings)
    ensures var s := EndOf(Start(settings), es, settings);
            && s.marks[Proxied] == s.logger.calls + |ReturningIds(s)| + s.marks[Aborted]
            && (!s.logger.closed ==> s.logger.calls == |s.logger.accepted| + s.logger.dropped)
  {
    assert ReturningIds(Start(settings)) == {};
    RunKeepsAudit(Start(settings), es, settings);
  }
}
