/** The per-key cache of permission lists, with every call atomic. */
module PermissionCache {
  import opened Glob
  import opened Authorization
  import opened Keys

  /** What the permission query returns. */
  datatype Fetch = Rows(perms: Permissions) | Failed

  type Cache = map<Key, Permissions>

  /** The list that a lookup hands out, and the cache it leaves. A failed query is not cached and
      hands out the nil list. */
  function Lookup(cache: Cache, key: Key, fetched: Fetch): (Permissions, Cache) {
    if key in cache then (cache[key], cache)
    else if fetched.Failed? then (Unassigned, cache)
    else (fetched.perms, cache[key := fetched.perms])
  }

  function KeepFirst<V>(cache: map<Key, V>, key: Key, fetched: V): (r: map<Key, V>)
    ensures key in r
  {
    if key in cache then cache else cache[key := fetched]
  }

  class Service {
    var cache: Cache

    constructor ()
      ensures cache == map[]
    {
      cache := map[];
    }

    /** The second critical section of a load: the first list stored stays. */
    method StoreFirst(key: Key, fetched: Permissions) returns (perms: Permissions)
      modifies this
      ensures cache == KeepFirst(old(cache), key, fetched) && perms == cache[key]
    {
      if key in cache {
        return cache[key];
      }
      cache := cache[key := fetched];
      perms := fetched;
    }

    /** fetched is what the query would return; it is looked at only when the key is not cached. */
    method LoadPermissions(key: Key, fetched: Fetch) returns (perms: Permissions)
      modifies this
      ensures (perms, cache) == Lookup(old(cache), key, fetched)
    {
      if key in cache {
        return cache[key];
      }
      if fetched.Failed? {
        return Unassigned;
      }
      perms := StoreFirst(key, fetched.perms);
    }

    method IsAllowed(key: Key, resource: Bytes, action: Bytes, fetched: Fetch) returns (ok: bool)
      modifies this
      ensures cache == Lookup(old(cache), key, fetched).1
      ensures ok <==> Allowed(Lookup(old(cache), key, fetched).0, resource, action)
    {
      var perms := LoadPermissions(key, fetched);
      ok := Decide(perms, resource, action);
    }

    method InvalidateCache(key: Key)
      modifies this
      ensures cache == old(cache) - {key}
    {
      cache := cache - {key};
    }
  }

  // ---------------------------------------------------------------- whole runs of atomic calls

  /** fails says that the permission query would fail at that moment. */
  datatype Op =
    | Ask(key: Key, resource: Bytes, action: Bytes, fails: bool)
    | Change(key: Key, perms: Permissions)
    | Invalidate(key: Key)

  type Table = map<Key, Permissions>

  function Stored(table: Table, key: Key): Permissions {
    if key in table then table[key] else Unassigned
  }

  function Query(table: Table, op: Op): Fetch
    requires op.Ask?
  {
    if op.fails then Failed else Rows(Stored(table, op.key))
  }

  function ChangeTable(table: Table, op: Op): Table {
    if op.Change? then table[op.key := op.perms] else table
  }

  function NextCache(cache: Cache, table: Table, op: Op): Cache {
    match op
    case Ask(key, _, _, _) => Lookup(cache, key, Query(table, op)).1
    case Change(_, _) => cache
    case Invalidate(key) => cache - {key}
  }

  /** The answer to each question of a run. */
  ghost function CachedAnswers(cache: Cache, table: Table, ops: seq<Op>): seq<bool>
    decreases |ops|
  {
    if ops == [] then [] else
      (match ops[0]
       case Ask(key, resource, action, _) =>
         [Allowed(Lookup(cache, key, Query(table, ops[0])).0, resource, action)]
       case _ => [])
      + CachedAnswers(NextCache(cache, table, ops[0]), ChangeTable(table, ops[0]), ops[1..])
  }

  /** The answers of a service that has no cache and whose queries never fail. */
  ghost function DirectAnswers(table: Table, ops: seq<Op>): seq<bool>
    decreases |ops|
  {
    if ops == [] then [] else
      (match ops[0]
       case Ask(key, resource, action, _) => [Allowed(Stored(table, key), resource, action)]
       case _ => [])
      + DirectAnswers(ChangeTable(table, ops[0]), ops[1..])
  }

  function Failures(ops: seq<Op>): seq<bool> {
    if ops == [] then [] else (if ops[0].Ask? then [ops[0].fails] else []) + Failures(ops[1..])
  }

  /** No question about a key comes between a change to it and the next invalidation of it. */
  predicate Invalidated(ops: seq<Op>, dirty: set<Key>) {
    ops == [] ||
    match ops[0]
    case Ask(key, _, _, _) => key !in dirty && Invalidated(ops[1..], dirty)
    case Change(key, _) => Invalidated(ops[1..], dirty + {key})
    case Invalidate(key) => Invalidated(ops[1..], dirty - {key})
  }

  /** Each answer is the direct one, except that a failed query may open what is closed. */
  ghost predicate OpenedByFailureOnly(cached: seq<bool>, direct: seq<bool>, failures: seq<bool>) {
    && |cached| == |direct| == |failures|
    && forall i :: 0 <= i < |cached| ==> cached[i] == direct[i] || (failures[i] && cached[i])
  }

  /** With an invalidation after each change, the cache cannot be told from no cache; and a failed
      query changes an answer, if any, to a permission, and no later answer. */
  lemma {:induction false} CacheIsTransparent(cache: Cache, table: Table, ops: seq<Op>, dirty: set<Key>)
    requires forall key :: key in cache && key !in dirty ==> cache[key] == Stored(table, key)
    requires Invalidated(ops, dirty)
    ensures OpenedByFailureOnly(CachedAnswers(cache, table, ops), DirectAnswers(table, ops), Failures(ops))
    decreases |ops|
  {
    if ops != [] {
      var op := ops[0];
      var dirty' := match op
        case Ask(_, _, _, _) => dirty
        case Change(key, _) => dirty + {key}
        case Invalidate(key) => dirty - {key};
      CacheIsTransparent(NextCache(cache, table, op), ChangeTable(table, op), ops[1..], dirty');
    }
  }

  function TableAfter(table: Table, ops: seq<Op>): Table
    decreases |ops|
  {
    if ops == [] then table else TableAfter(ChangeTable(table, ops[0]), ops[1..])
  }

  predicate NeverInvalidated(ops: seq<Op>, key: Key) {
    forall op :: op in ops ==> op != Invalidate(key)
  }

  lemma CachedListStays(cache: Cache, table: Table, op: Op, key: Key)
    requires key in cache && op != Invalidate(key)
    ensures key in NextCache(cache, table, op) && NextCache(cache, table, op)[key] == cache[key]
  {}

  /** One more question after a run is answered from the list that was cached before it. */
  lemma {:induction false} LastCachedAnswer(cache: Cache, table: Table, ops: seq<Op>, ask: Op)
    requires ask.Ask? && ask.key in cache && NeverInvalidated(ops, ask.key)
    ensures CachedAnswers(cache, table, ops + [ask])
         == CachedAnswers(cache, table, ops) + [Allowed(cache[ask.key], ask.resource, ask.action)]
    decreases |ops|
  {
    if ops == [] {
      assert ops + [ask] == [ask] && [ask][1..] == [];
    } else {
      var op, rest := ops[0], ops[1..];
      assert (ops + [ask])[1..] == rest + [ask];
      assert op in ops && forall o :: o in rest ==> o in ops;
      CachedListStays(cache, table, op, ask.key);
      LastCachedAnswer(NextCache(cache, table, op), ChangeTable(table, op), rest, ask);
    }
  }

  /** The service without cache answers it from the table as the run leaves it. */
  lemma {:induction false} LastDirectAnswer(table: Table, ops: seq<Op>, ask: Op)
    requires ask.Ask?
    ensures DirectAnswers(table, ops + [ask])
         == DirectAnswers(table, ops) + [Allowed(Stored(TableAfter(table, ops), ask.key), ask.resource, ask.action)]
    decreases |ops|
  {
    if ops == [] {
      assert ops + [ask] == [ask] && [ask][1..] == [];
    } else {
      assert (ops + [ask])[1..] == ops[1..] + [ask];
      LastDirectAnswer(ChangeTable(table, ops[0]), ops[1..], ask);
    }
  }

  /** A key whose list is cached, and any run that does not invalidate it: the next question about it
      is answered differently from the direct service exactly when the cached list and the list then in
      the table decide it differently. */
  lemma MissedExactlyWhenItMatters(cache: Cache, table: Table, ops: seq<Op>, key: Key,
                                   resource: Bytes, action: Bytes, fails: bool)
    requires key in cache && NeverInvalidated(ops, key)
    ensures var asked := ops + [Ask(key, resource, action, fails)];
            var cached, direct := CachedAnswers(cache, table, asked), DirectAnswers(table, asked);
            && cached != [] && direct != []
            && (cached[|cached| - 1] != direct[|direct| - 1] <==>
                  Allowed(cache[key], resource, action)
                  != Allowed(Stored(TableAfter(table, ops), key), resource, action))
  {
    LastCachedAnswer(cache, table, ops, Ask(key, resource, action, fails));
    LastDirectAnswer(table, ops, Ask(key, resource, action, fails));
  }

  /** A failed query opens the key for that question, and is not remembered. */
  lemma FailedQuestionIsOpen(cache: Cache, table: Table, ask: Op)
    requires ask.Ask? && ask.fails && ask.key !in cache
    ensures CachedAnswers(cache, table, [ask]) == [true] && NextCache(cache, table, ask) == cache
  {
    assert [ask][1..] == [];
  }

  /** The first question about a key whose query succeeds fixes its list, the nil list included: after
      any run without an invalidation the key is still judged by what the table held then. */
  lemma FirstListStays(cache: Cache, table: Table, ask: Op, ops: seq<Op>, later: Op)
    requires ask.Ask? && !ask.fails && ask.key !in cache
    requires later.Ask? && later.key == ask.key && NeverInvalidated(ops, ask.key)
    ensures var answers := CachedAnswers(cache, table, [ask] + (ops + [later]));
            answers != [] && answers[|answers| - 1] == Allowed(Stored(table, ask.key), later.resource, later.action)
  {
    assert ([ask] + (ops + [later]))[1..] == ops + [later];
    LastCachedAnswer(NextCache(cache, table, ask), table, ops, later);
  }

  /** So a key that has been asked about before it got its first permissions stays open. */
  lemma FirstPermissionsAreMissed(key: Key, rows: seq<Permission>, ask: Op, later: Op)
    requires ask.Ask? && !ask.fails && later.Ask? && ask.key == later.key == key
    ensures var answers := CachedAnswers(map[], map[], [ask] + ([Change(key, Assigned(rows))] + [later]));
            answers != [] && answers[|answers| - 1]
  {
    FirstListStays(map[], map[], ask, [Change(key, Assigned(rows))], later);
  }

  /** A revoked row stays in force: p alone grants the request, and is taken away between two
      questions without an invalidation. */
  lemma UninvalidatedChangeIsMissed(key: Key, p: Permission, q: Permission, resource: Bytes, action: Bytes)
    requires Grants(p, resource, action) && !Grants(q, resource, action)
    ensures var ask := Ask(key, resource, action, false);
            var ops, table := [ask, Change(key, Assigned([q])), ask], map[key := Assigned([p, q])];
            CachedAnswers(map[], table, ops) == [true, true] && DirectAnswers(table, ops) == [true, false]
  {
    var ask, change := Ask(key, resource, action, false), Change(key, Assigned([q]));
    var cache, table := map[key := Assigned([p, q])], map[key := Assigned([p, q])];
    assert p in [p, q] && Allowed(Assigned([p, q]), resource, action);
    assert [change] + [ask] == [change, ask] && [change][1..] == [];
    LastCachedAnswer(cache, table, [change], ask);
    LastDirectAnswer(table, [change], ask);
    assert CachedAnswers(cache, table, [change]) == [] && DirectAnswers(table, [change]) == [];
    assert [ask, change, ask][1..] == [change, ask];
    assert NextCache(map[], table, ask) == cache;
  }
}
