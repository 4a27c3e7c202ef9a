/**
 * The time-limited cache of the policy list. A load has three steps that other requests may come
 * between: the check of the cache, the query, and the store with the time of the store.
 */
module PolicyCache {

  type ThreadId = nat

  /** A policy list as the query returns it: nil when no policy is enabled. Policies are opaque. */
  datatype Policies = Nil | Rows(policies: seq<nat>)

  datatype Fetch = Fetched(list: Policies) | Failed

  /** Thirty seconds in nanoseconds. */
  const TTL := 30_000_000_000

  predicate Fresh(list: Policies, lastLoad: int, now: int) {
    now - lastLoad < TTL && list.Rows?
  }

  /** What one load hands out, and the list and load time that it leaves; checked and stored are the
      clock readings of the check and of the store. */
  function LoadResult(list: Policies, lastLoad: int, checked: int, fetched: Fetch, stored: int)
    : (Policies, Policies, int)
  {
    if Fresh(list, lastLoad, checked) || fetched.Failed? then (list, list, lastLoad)
    else (fetched.list, fetched.list, stored)
  }

  class Engine {
    var list: Policies
    var lastLoad: int

    constructor (zeroTime: int)
      ensures list == Nil && lastLoad == zeroTime
    {
      list := Nil;
      lastLoad := zeroTime;
    }

    method LoadPolicies(checked: int, fetched: Fetch, stored: int) returns (r: Policies)
      modifies this
      ensures (r, list, lastLoad) == LoadResult(old(list), old(lastLoad), checked, fetched, stored)
      ensures checked - old(lastLoad) < 30_000_000_000 && old(list).Rows? ==> r == list == old(list)
    {
      if checked - lastLoad < TTL && list.Rows? {
        return list;
      }
      if fetched.Failed? {
        return list;
      }
      list := fetched.list;
      lastLoad := stored;
      r := fetched.list;
    }
  }

  // ---------------------------------------------------------------- concurrent loads

  /** A list and the instant at which the query read it. */
  datatype Snapshot = Snapshot(list: Policies, taken: int)

  datatype Load = Missed | Queried(snap: Snapshot)

  /** A list handed to a request, when, and whether the request's own load had failed. */
  datatype Served = Served(now: int, snap: Snapshot, failed: bool, hit: bool)

  datatype State = State(clock: int, cached: Snapshot, lastLoad: int, loads: map<ThreadId, Load>, served: seq<Served>)

  datatype Event =
    | Hit(now: int)
    | Miss(t: ThreadId, now: int)
    | Query(t: ThreadId, now: int)
    | Store(t: ThreadId, now: int)
    | Fail(t: ThreadId, now: int)

  /** No load takes longer than slowest from its query to its store. */
  predicate Enabled(s: State, e: Event, slowest: int) {
    s.clock <= e.now &&
    match e
    case Hit(now) => Fresh(s.cached.list, s.lastLoad, now)
    case Miss(t, now) => t !in s.loads && !Fresh(s.cached.list, s.lastLoad, now)
    case Query(t, _) => t in s.loads && s.loads[t].Missed?
    case Store(t, now) => t in s.loads && s.loads[t].Queried? && now - s.loads[t].snap.taken <= slowest
    case Fail(t, _) => t in s.loads && s.loads[t].Missed?
  }

  /** table gives the enabled policies at each instant. */
  function Next(s: State, e: Event, table: int -> Policies, slowest: int): State
    requires Enabled(s, e, slowest)
  {
    var s := s.(clock := e.now);
    match e
    case Hit(now) => s.(served := s.served + [Served(now, s.cached, false, true)])
    case Miss(t, _) => s.(loads := s.loads[t := Missed])
    case Query(t, now) => s.(loads := s.loads[t := Queried(Snapshot(table(now), now))])
    case Store(t, now) =>
      var snap := s.loads[t].snap;
      s.(cached := snap, lastLoad := now, loads := s.loads - {t},
         served := s.served + [Served(now, snap, false, false)])
    case Fail(t, now) =>
      s.(loads := s.loads - {t}, served := s.served + [Served(now, s.cached, true, false)])
  }

  predicate CanRun(s: State, es: seq<Event>, table: int -> Policies, slowest: int)
    decreases |es|
  {
    es == [] || (Enabled(s, es[0], slowest) && CanRun(Next(s, es[0], table, slowest), es[1..], table, slowest))
  }

  function EndOf(s: State, es: seq<Event>, table: int -> Policies, slowest: int): State
    requires CanRun(s, es, table, slowest)
    decreases |es|
  {
    if es == [] then s else EndOf(Next(s, es[0], table, slowest), es[1..], table, slowest)
  }

  function Start(clock: int): State {
    State(clock, Snapshot(Nil, clock), clock, map[], [])
  }

  // ---------------------------------------------------------------- how old a judged list can be

  /** A list that the table did hold, at most so old. */
  predicate Recent(r: Served, table: int -> Policies, slowest: int) {
    && r.snap.list == table(r.snap.taken)
    && 0 <= r.now - r.snap.taken < 30_000_000_000 + slowest
  }

  ghost predicate Valid(s: State, table: int -> Policies, slowest: int) {
    && (s.cached.list.Rows? ==>
          s.cached.list == table(s.cached.taken) && s.cached.taken <= s.clock && s.lastLoad - s.cached.taken <= slowest)
    && (forall t :: t in s.loads && s.loads[t].Queried? ==>
          s.loads[t].snap.list == table(s.loads[t].snap.taken) && s.loads[t].snap.taken <= s.clock)
    && (forall r :: r in s.served && !r.failed ==> Recent(r, table, slowest))
    && (forall r :: r in s.served && r.hit ==> r.snap.list.Rows?)
  }

  lemma NextKeepsValid(s: State, e: Event, table: int -> Policies, slowest: int)
    requires Valid(s, table, slowest) && Enabled(s, e, slowest)
    ensures Valid(Next(s, e, table, slowest), table, slowest)
  {
    var s' := Next(s, e, table, slowest);
    forall r | r in s'.served ensures r in s.served || r == s'.served[|s'.served| - 1] {}
  }

  lemma {:induction false} RunKeepsValid(s: State, es: seq<Event>, table: int -> Policies, slowest: int)
    requires Valid(s, table, slowest) && CanRun(s, es, table, slowest)
    ensures Valid(EndOf(s, es, table, slowest), table, slowest)
    decreases |es|
  {
    if es != [] {
      NextKeepsValid(s, es[0], table, slowest);
      RunKeepsValid(Next(s, es[0], table, slowest), es[1..], table, slowest);
    }
  }

  /** Under any interleaving, a request whose own load did not fail is judged by a list that was in
      force less than thirty seconds plus slowest ago, and the nil list is never served from the cache. */
  lemma JudgedByRecentList(es: seq<Event>, clock: int, table: int -> Policies, slowest: int, r: Served)
    requires CanRun(Start(clock), es, table, slowest) && r in EndOf(Start(clock), es, table, slowest).served
    ensures !r.failed ==> Recent(r, table, slowest)
    ensures r.hit ==> r.snap.list.Rows?
  {
    RunKeepsValid(Start(clock), es, table, slowest);
  }

  /** A change of the policies is enforced on every request from thirty seconds plus slowest after it on, unless
      the request's own load fails. */
  lemma ChangeIsEnforced(es: seq<Event>, clock: int, table: int -> Policies, slowest: int, r: Served,
                         changed: int, list: Policies)
    requires CanRun(Start(clock), es, table, slowest) && r in EndOf(Start(clock), es, table, slowest).served
    requires forall s :: changed <= s ==> table(s) == list
    requires !r.failed && changed + 30_000_000_000 + slowest <= r.now
    ensures r.snap.list == list
  {
    JudgedByRecentList(es, clock, table, slowest, r);
  }

  // ---------------------------------------------------------------- the bound cannot be lowered

  lemma RunCons(s: State, e: Event, es: seq<Event>, table: int -> Policies, slowest: int)
    requires Enabled(s, e, slowest) && CanRun(Next(s, e, table, slowest), es, table, slowest)
    ensures CanRun(s, [e] + es, table, slowest)
    ensures EndOf(s, [e] + es, table, slowest) == EndOf(Next(s, e, table, slowest), es, table, slowest)
  {
    assert ([e] + es)[1..] == es;
  }

  lemma LoadThen(last: Event, others: seq<Event>, table: int -> Policies, slowest: int)
    requires slowest >= 0
    requires CanRun(Loaded(table, slowest), others + [last], table, slowest)
    ensures var es := [Miss(0, 0), Query(0, 0), Store(0, slowest)] + (others + [last]);
            && CanRun(Start(0), es, table, slowest)
            && EndOf(Start(0), es, table, slowest) == EndOf(Loaded(table, slowest), others + [last], table, slowest)
  {
    var rest := others + [last];
    var s1 := Next(Start(0), Miss(0, 0), table, slowest);
    var s2 := Next(s1, Query(0, 0), table, slowest);
    assert Next(s2, Store(0, slowest), table, slowest) == Loaded(table, slowest);
    RunCons(s2, Store(0, slowest), rest, table, slowest);
    RunCons(s1, Query(0, 0), [Store(0, slowest)] + rest, table, slowest);
    RunCons(Start(0), Miss(0, 0), [Query(0, 0)] + ([Store(0, slowest)] + rest), table, slowest);
    assert [Miss(0, 0)] + ([Query(0, 0)] + ([Store(0, slowest)] + rest))
        == [Miss(0, 0), Query(0, 0), Store(0, slowest)] + rest;
  }

  /** The state after one load that reads at 0 and stores as late as allowed. */
  function Loaded(table: int -> Policies, slowest: int): State {
    State(slowest, Snapshot(table(0), 0), slowest, map[], [Served(slowest, Snapshot(table(0), 0), false, false)])
  }

  /** A hit just before the cached list expires serves one nanosecond less than the bound. */
  lemma AgeBoundIsMet(table: int -> Policies, slowest: int) returns (es: seq<Event>)
    requires slowest >= 0 && table(0).Rows?
    ensures CanRun(Start(0), es, table, slowest)
    ensures var served := EndOf(Start(0), es, table, slowest).served;
            && served != []
            && served[|served| - 1] == Served(30_000_000_000 + slowest - 1, Snapshot(table(0), 0), false, true)
  {
    var hit := Hit(30_000_000_000 + slowest - 1);
    RunCons(Loaded(table, slowest), hit, [], table, slowest);
    assert [hit] + [] == [hit] && [] + [hit] == [hit];
    LoadThen(hit, [], table, slowest);
    es := [Miss(0, 0), Query(0, 0), Store(0, slowest)] + ([] + [hit]);
  }

  /** A request whose load fails can be judged by a list of any age. */
  lemma FailureServesAnyAge(table: int -> Policies, slowest: int, age: int) returns (es: seq<Event>)
    requires slowest >= 0 && age >= 30_000_000_000 + slowest
    ensures CanRun(Start(0), es, table, slowest)
    ensures var served := EndOf(Start(0), es, table, slowest).served;
            served != [] && served[|served| - 1] == Served(age, Snapshot(table(0), 0), true, false)
  {
    var s := Loaded(table, slowest);
    var miss, fail := Miss(1, age), Fail(1, age);
    var s' := Next(s, miss, table, slowest);
    RunCons(s', fail, [], table, slowest);
    RunCons(s, miss, [fail], table, slowest);
    assert [fail] + [] == [fail];
    LoadThen(fail, [miss], table, slowest);
    es := [Miss(0, 0), Query(0, 0), Store(0, slowest)] + ([miss] + [fail]);
  }

  // ---------------------------------------------------------------- a load with nothing in between

  /** The request was handed the list, and the engine is left with the list and load time. */
  predicate Ends(s: State, end: State, now: int, result: (Policies, Policies, int)) {
    && |end.served| == |s.served| + 1 && end.served[|s.served|].now == now
    && (end.served[|s.served|].snap.list, end.cached.list, end.lastLoad) == result && end.loads == s.loads
  }

  /** The steps of one load, taken without interruption, are the load of the engine. */
  lemma UninterruptedLoad(s: State, t: ThreadId, checked: int, queried: int, stored: int, fails: bool,
                          table: int -> Policies, slowest: int) returns (es: seq<Event>)
    requires t !in s.loads && s.clock <= checked <= queried <= stored <= queried + slowest
    ensures CanRun(s, es, table, slowest)
    ensures var fetched := if fails then Failed else Fetched(table(queried));
            var now := if Fresh(s.cached.list, s.lastLoad, checked) then checked else if fails then queried else stored;
            Ends(s, EndOf(s, es, table, slowest), now, LoadResult(s.cached.list, s.lastLoad, checked, fetched, stored))
  {
    if Fresh(s.cached.list, s.lastLoad, checked) {
      es := [Hit(checked)];
      var end := Next(s, Hit(checked), table, slowest);
      assert CanRun(end, [], table, slowest);
      RunCons(s, Hit(checked), [], table, slowest);
      assert [Hit(checked)] + [] == es;
    } else {
      var s1 := Next(s, Miss(t, checked), table, slowest);
      assert s1.loads - {t} == s.loads;
      if fails {
        es := [Miss(t, checked)] + ([Fail(t, queried)] + []);
        RunCons(s1, Fail(t, queried), [], table, slowest);
        RunCons(s, Miss(t, checked), [Fail(t, queried)] + [], table, slowest);
      } else {
        es := [Miss(t, checked)] + ([Query(t, queried)] + ([Store(t, stored)] + []));
        var s2 := Next(s1, Query(t, queried), table, slowest);
        assert s2.loads - {t} == s.loads;
        RunCons(s2, Store(t, stored), [], table, slowest);
        RunCons(s1, Query(t, queried), [Store(t, stored)] + [], table, slowest);
        RunCons(s, Miss(t, checked), [Query(t, queried)] + ([Store(t, stored)] + []), table, slowest);
      }
    }
  }
}
