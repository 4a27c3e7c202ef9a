/**
 * Concurrent loads, invalidations and permission changes. A load has three steps that other
 * requests may come between: the cache lookup, the query, and the store that keeps the first list.
 */
module CacheProtocol {
  import opened Authorization
  import opened Keys
  import opened PermissionCache

  type ThreadId = nat

  /** A list together with the number of the table version it was read from. */
  datatype Snapshot = Snapshot(perms: Permissions, version: nat)

  datatype Load = Missed(key: Key) | Fetched(key: Key, snap: Snapshot)

  /** One list handed to a request, in the given epoch: the number of invalidations of its key. */
  datatype Handout = Handout(key: Key, epoch: nat, snap: Snapshot)

  /** history holds every version of a key's permissions, the current one last. */
  datatype State = State(
    cache: map<Key, Snapshot>,
    loads: map<ThreadId, Load>,
    history: map<Key, seq<Permissions>>,
    epochs: map<Key, nat>,
    handed: seq<Handout>)

  datatype Event =
    | Hit(key: Key)
    | Miss(t: ThreadId, key: Key)
    | Query(t: ThreadId)
    | QueryFails(t: ThreadId)
    | Store(t: ThreadId)
    | Drop(key: Key)
    | Rewrite(key: Key, perms: Permissions)

  function Versions(s: State, key: Key): (r: seq<Permissions>) {
    if key in s.history then s.history[key] else [Unassigned]
  }

  function Epoch(s: State, key: Key): nat {
    if key in s.epochs then s.epochs[key] else 0
  }

  predicate Enabled(s: State, e: Event) {
    match e
    case Hit(key) => key in s.cache
    case Miss(t, key) => t !in s.loads && key !in s.cache
    case Query(t) => t in s.loads && s.loads[t].Missed? && Versions(s, s.loads[t].key) != []
    case QueryFails(t) => t in s.loads && s.loads[t].Missed?
    case Store(t) => t in s.loads && s.loads[t].Fetched?
    case Drop(_) => true
    case Rewrite(_, _) => true
  }

  function Hand(s: State, key: Key): State
    requires key in s.cache
  {
    s.(handed := s.handed + [Handout(key, Epoch(s, key), s.cache[key])])
  }

  function Next(s: State, e: Event): State
    requires Enabled(s, e)
  {
    match e
    case Hit(key) => Hand(s, key)
    case Miss(t, key) => s.(loads := s.loads[t := Missed(key)])
    case Query(t) =>
      var key := s.loads[t].key;
      var all := Versions(s, key);
      s.(loads := s.loads[t := Fetched(key, Snapshot(all[|all| - 1], |all| - 1))])
    case QueryFails(t) => s.(loads := s.loads - {t})
    case Store(t) =>
      var load := s.loads[t];
      Hand(s.(loads := s.loads - {t}, cache := KeepFirst(s.cache, load.key, load.snap)), load.key)
    case Drop(key) => s.(cache := s.cache - {key}, epochs := s.epochs[key := Epoch(s, key) + 1])
    case Rewrite(key, perms) => s.(history := s.history[key := Versions(s, key) + [perms]])
  }

  predicate CanRun(s: State, es: seq<Event>)
    decreases |es|
  {
    es == [] || (Enabled(s, es[0]) && CanRun(Next(s, es[0]), es[1..]))
  }

  function After(s: State, es: seq<Event>): State
    requires CanRun(s, es)
    decreases |es|
  {
    if es == [] then s else After(Next(s, es[0]), es[1..])
  }

  const INIT := State(map[], map[], map[], map[], [])

  // ---------------------------------------------------------------- first stored wins

  ghost predicate Genuine(s: State, key: Key, snap: Snapshot) {
    snap.version < |Versions(s, key)| && Versions(s, key)[snap.version] == snap.perms
  }

  ghost predicate SourcedTable(s: State) {
    forall key :: Versions(s, key) != []
  }

  ghost predicate SourcedCache(s: State) {
    forall key :: key in s.cache ==> Genuine(s, key, s.cache[key])
  }

  ghost predicate SourcedLoads(s: State) {
    forall t :: t in s.loads && s.loads[t].Fetched? ==> Genuine(s, s.loads[t].key, s.loads[t].snap)
  }

  ghost predicate SourcedHandouts(s: State) {
    forall h :: h in s.handed ==> Genuine(s, h.key, h.snap)
  }

  ghost predicate Sourced(s: State) {
    SourcedTable(s) && SourcedCache(s) && SourcedLoads(s) && SourcedHandouts(s)
  }

  ghost predicate Agreed(s: State) {
    && (forall h :: h in s.handed ==> h.epoch <= Epoch(s, h.key))
    && (forall h :: h in s.handed && h.epoch == Epoch(s, h.key) ==> h.key in s.cache && s.cache[h.key] == h.snap)
    && (forall h, g :: h in s.handed && g in s.handed && h.key == g.key && h.epoch == g.epoch ==> h.snap == g.snap)
  }

  /** Versions are never taken back. */
  lemma StaysGenuine(s: State, e: Event, key: Key, snap: Snapshot)
    requires Enabled(s, e) && Genuine(s, key, snap)
    ensures Genuine(Next(s, e), key, snap)
  {}

  lemma NextKeepsTable(s: State, e: Event)
    requires SourcedTable(s) && Enabled(s, e)
    ensures SourcedTable(Next(s, e))
  {
    forall key ensures Versions(Next(s, e), key) != [] {
      assert Versions(s, key) != [];
    }
  }

  lemma NextKeepsCache(s: State, e: Event)
    requires SourcedCache(s) && SourcedLoads(s) && Enabled(s, e)
    ensures SourcedCache(Next(s, e))
  {
    var s' := Next(s, e);
    forall key | key in s'.cache ensures Genuine(s', key, s'.cache[key]) {
      StaysGenuine(s, e, key, s'.cache[key]);
    }
  }

  lemma NextKeepsLoads(s: State, e: Event)
    requires SourcedLoads(s) && Enabled(s, e)
    ensures SourcedLoads(Next(s, e))
  {
    var s' := Next(s, e);
    forall t | t in s'.loads && s'.loads[t].Fetched? ensures Genuine(s', s'.loads[t].key, s'.loads[t].snap) {
      if t in s.loads && s.loads[t] == s'.loads[t] {
        StaysGenuine(s, e, s.loads[t].key, s.loads[t].snap);
      }
    }
  }

  lemma NextKeepsHandouts(s: State, e: Event)
    requires SourcedHandouts(s) && SourcedCache(s) && SourcedLoads(s) && Enabled(s, e)
    ensures SourcedHandouts(Next(s, e))
  {
    var s' := Next(s, e);
    NextKeepsCache(s, e);
    forall h | h in s'.handed ensures Genuine(s', h.key, h.snap) {
      if h in s.handed {
        StaysGenuine(s, e, h.key, h.snap);
      } else {
        assert h.key in s'.cache && h.snap == s'.cache[h.key];
      }
    }
  }

  lemma NextKeepsSourced(s: State, e: Event)
    requires Sourced(s) && Enabled(s, e)
    ensures Sourced(Next(s, e))
  {
    NextKeepsTable(s, e);
    NextKeepsCache(s, e);
    NextKeepsLoads(s, e);
    NextKeepsHandouts(s, e);
  }

  lemma NextKeepsAgreed(s: State, e: Event)
    requires Agreed(s) && Enabled(s, e)
    ensures Agreed(Next(s, e))
  {
    var s' := Next(s, e);
    forall h | h in s'.handed
      ensures h in s.handed || (h.epoch == Epoch(s', h.key) && h.key in s'.cache && h.snap == s'.cache[h.key])
    {}
    forall key ensures Epoch(s, key) <= Epoch(s', key) {}
    forall key | Epoch(s', key) == Epoch(s, key) && key in s.cache
      ensures key in s'.cache && s'.cache[key] == s.cache[key]
    {}
  }

  ghost predicate Valid(s: State) {
    Sourced(s) && Agreed(s)
  }

  lemma {:induction false} AfterIsValid(s: State, es: seq<Event>)
    requires Valid(s) && CanRun(s, es)
    ensures Valid(After(s, es))
    decreases |es|
  {
    if es != [] {
      NextKeepsSourced(s, es[0]);
      NextKeepsAgreed(s, es[0]);
      AfterIsValid(Next(s, es[0]), es[1..]);
    }
  }

  /** Between two consecutive invalidations of a key, all requests are handed the same list, and it
      is one that the table did hold, however the loads interleave. */
  lemma OneListPerEpoch(es: seq<Event>, h: Handout, g: Handout)
    requires CanRun(INIT, es)
    requires h in After(INIT, es).handed && g in After(INIT, es).handed
    requires h.key == g.key && h.epoch == g.epoch
    ensures h.snap == g.snap
    ensures Genuine(After(INIT, es), h.key, h.snap)
  {
    AfterIsValid(INIT, es);
  }

  // ---------------------------------------------------------------- when an invalidation works

  /** No cached list and no list on its way to the cache is older than the given version. */
  ghost predicate NoneOlder(s: State, key: Key, version: nat) {
    && version < |Versions(s, key)|
    && (key in s.cache ==> s.cache[key].version >= version)
    && (forall t :: t in s.loads && s.loads[t].Fetched? && s.loads[t].key == key ==> s.loads[t].snap.version >= version)
  }

  /** Every list handed out for the key from now on, whatever happens, has at least the version. */
  ghost predicate FreshForever(s: State, key: Key, version: nat) {
    forall es :: CanRun(s, es) ==> AllFresh(s, After(s, es), key, version)
  }

  ghost predicate AllFresh(s: State, s': State, key: Key, version: nat) {
    forall i :: |s.handed| <= i < |s'.handed| && s'.handed[i].key == key ==> s'.handed[i].snap.version >= version
  }

  lemma {:induction false} NoneOlderIsKept(s: State, es: seq<Event>, key: Key, version: nat)
    requires CanRun(s, es) && NoneOlder(s, key, version)
    ensures |s.handed| <= |After(s, es).handed|
    ensures AllFresh(s, After(s, es), key, version)
    decreases |es|
  {
    if es != [] {
      var n := Next(s, es[0]);
      NoneOlderIsKept(n, es[1..], key, version);
      HandedGrows(n, es[1..]);
    }
  }

  lemma {:induction false} HandedGrows(s: State, es: seq<Event>)
    requires CanRun(s, es)
    ensures s.handed <= After(s, es).handed
    decreases |es|
  {
    if es != [] {
      HandedGrows(Next(s, es[0]), es[1..]);
    }
  }

  /** Requests are safe from lists older than a version exactly when neither the cache nor a load
      between its query and its store holds one. */
  lemma FreshExactlyWhenNoneOlder(s: State, key: Key, version: nat)
    requires version < |Versions(s, key)|
    ensures FreshForever(s, key, version) <==> NoneOlder(s, key, version)
  {
    if NoneOlder(s, key, version) {
      forall es | CanRun(s, es) ensures AllFresh(s, After(s, es), key, version) {
        NoneOlderIsKept(s, es, key, version);
      }
    } else if key in s.cache && s.cache[key].version < version {
      RunOne(s, Hit(key));
      assert Next(s, Hit(key)).handed[|s.handed|].snap == s.cache[key];
      assert !AllFresh(s, After(s, [Hit(key)]), key, version);
    } else {
      var t :| t in s.loads && s.loads[t].Fetched? && s.loads[t].key == key && s.loads[t].snap.version < version;
      var cleared := Next(s, Drop(key));
      RunOne(cleared, Store(t));
      RunCons(s, Drop(key), [Store(t)]);
      assert Next(cleared, Store(t)).handed[|s.handed|].snap == s.loads[t].snap;
      assert !AllFresh(s, After(s, [Drop(key)] + [Store(t)]), key, version);
    }
  }

  lemma RunCons(s: State, e: Event, es: seq<Event>)
    requires Enabled(s, e) && CanRun(Next(s, e), es)
    ensures CanRun(s, [e] + es) && After(s, [e] + es) == After(Next(s, e), es)
  {
    assert ([e] + es)[1..] == es;
  }

  lemma RunOne(s: State, e: Event)
    requires Enabled(s, e)
    ensures CanRun(s, [e]) && After(s, [e]) == Next(s, e)
  {
    RunCons(s, e, []);
    assert [e] + [] == [e];
  }

  /** An invalidation after a change hides every earlier list for good exactly when no load of the
      key is at that moment between a query of an earlier version and its store. */
  lemma InvalidationTakesEffect(s: State, key: Key)
    requires Valid(s)
    ensures FreshForever(Next(s, Drop(key)), key, |Versions(s, key)| - 1)
            <==> forall t :: t in s.loads && s.loads[t].Fetched? && s.loads[t].key == key
                             ==> s.loads[t].snap.version == |Versions(s, key)| - 1
  {
    var s' := Next(s, Drop(key));
    assert Versions(s', key) == Versions(s, key);
    FreshExactlyWhenNoneOlder(s', key, |Versions(s, key)| - 1);
  }

  /** The change has come between the query and the store of a load. */
  function Racing(key: Key, perms: Permissions): State {
    State(map[], map[0 := Fetched(key, Snapshot(Unassigned, 0))], map[key := [Unassigned, perms]], map[], [])
  }

  lemma RaceBegins(key: Key, perms: Permissions, es: seq<Event>)
    requires CanRun(Racing(key, perms), es)
    ensures var all := [Miss(0, key)] + ([Query(0)] + ([Rewrite(key, perms)] + es));
            CanRun(INIT, all) && After(INIT, all) == After(Racing(key, perms), es)
  {
    var s1 := Next(INIT, Miss(0, key));
    var s2 := Next(s1, Query(0));
    assert [Unassigned] + [perms] == [Unassigned, perms];
    assert Next(s2, Rewrite(key, perms)) == Racing(key, perms);
    RunCons(s2, Rewrite(key, perms), es);
    RunCons(s1, Query(0), [Rewrite(key, perms)] + es);
    RunCons(INIT, Miss(0, key), [Query(0)] + ([Rewrite(key, perms)] + es));
  }

  lemma RaceEnds(key: Key, perms: Permissions)
    ensures var es := [Drop(key)] + ([Store(0)] + [Hit(key)]);
            && CanRun(Racing(key, perms), es)
            && After(Racing(key, perms), es).handed
               == [Handout(key, 1, Snapshot(Unassigned, 0)), Handout(key, 1, Snapshot(Unassigned, 0))]
            && Versions(After(Racing(key, perms), es), key) == [Unassigned, perms]
  {
    var s4 := Next(Racing(key, perms), Drop(key));
    var s5 := Next(s4, Store(0));
    RunOne(s5, Hit(key));
    RunCons(s4, Store(0), [Hit(key)]);
    RunCons(Racing(key, perms), Drop(key), [Store(0)] + [Hit(key)]);
  }

  /** The race, step by step: a list read before the change is stored after the invalidation, and
      then served as a hit. */
  lemma StaleListSurvivesInvalidation(key: Key, perms: Permissions)
    requires perms != Unassigned
    ensures var es := [Miss(0, key), Query(0), Rewrite(key, perms), Drop(key), Store(0), Hit(key)];
            CanRun(INIT, es)
            && After(INIT, es).handed
               == [Handout(key, 1, Snapshot(Unassigned, 0)), Handout(key, 1, Snapshot(Unassigned, 0))]
            && Versions(After(INIT, es), key) == [Unassigned, perms]
  {
    var tail := [Drop(key)] + ([Store(0)] + [Hit(key)]);
    RaceEnds(key, perms);
    RaceBegins(key, perms, tail);
    assert tail == [Drop(key), Store(0), Hit(key)];
    assert [Miss(0, key)] + ([Query(0)] + ([Rewrite(key, perms)] + tail))
        == [Miss(0, key), Query(0), Rewrite(key, perms), Drop(key), Store(0), Hit(key)];
  }

  // ---------------------------------------------------------------- a load with nothing in between

  /** The cache as the atomic service has it. */
  function CacheOf(s: State): Cache {
    map key | key in s.cache :: s.cache[key].perms
  }

  /** A request ends in end, and was handed the list. */
  predicate Loads(s: State, end: State, key: Key, perms: Permissions) {
    |end.handed| == |s.handed| + 1 && end.handed[|s.handed|].key == key && end.handed[|s.handed|].snap.perms == perms
  }

  /** The steps of one load, taken without interruption, are the lookup of the atomic service; a load
      that fails leaves the state. */
  lemma UninterruptedLoadIsLookup(s: State, t: ThreadId, key: Key) returns (es: seq<Event>)
    requires t !in s.loads && Versions(s, key) != []
    ensures CanRun(s, es)
    ensures var fetched := Rows(Versions(s, key)[|Versions(s, key)| - 1]);
            var (perms, cache) := Lookup(CacheOf(s), key, fetched);
            Loads(s, After(s, es), key, perms) && CacheOf(After(s, es)) == cache && After(s, es).loads == s.loads
    ensures key !in s.cache ==>
              && CanRun(s, [Miss(t, key), QueryFails(t)])
              && After(s, [Miss(t, key), QueryFails(t)]) == s
              && Lookup(CacheOf(s), key, Failed) == (Unassigned, CacheOf(s))
  {
    if key in s.cache {
      es := [Hit(key)];
      RunOne(s, Hit(key));
    } else {
      es := MissedLoad(s, t, key);
      FailedLoad(s, t, key);
    }
  }

  lemma MissedLoad(s: State, t: ThreadId, key: Key) returns (es: seq<Event>)
    requires t !in s.loads && key !in s.cache && Versions(s, key) != []
    ensures CanRun(s, es)
    ensures var perms := Versions(s, key)[|Versions(s, key)| - 1];
            && Loads(s, After(s, es), key, perms) && After(s, es).loads == s.loads
            && CacheOf(After(s, es)) == CacheOf(s)[key := perms]
  {
    es := [Miss(t, key)] + ([Query(t)] + [Store(t)]);
    var s1 := Next(s, Miss(t, key));
    var s2 := Next(s1, Query(t));
    RunOne(s2, Store(t));
    RunCons(s1, Query(t), [Store(t)]);
    RunCons(s, Miss(t, key), [Query(t)] + [Store(t)]);
    assert s2.loads - {t} == s.loads;
  }

  lemma FailedLoad(s: State, t: ThreadId, key: Key)
    requires t !in s.loads && key !in s.cache
    ensures CanRun(s, [Miss(t, key), QueryFails(t)]) && After(s, [Miss(t, key), QueryFails(t)]) == s
  {
    var s1 := Next(s, Miss(t, key));
    assert s1.loads - {t} == s.loads;
    RunOne(s1, QueryFails(t));
    RunCons(s, Miss(t, key), [QueryFails(t)]);
    assert [Miss(t, key)] + [QueryFails(t)] == [Miss(t, key), QueryFails(t)];
  }
}
