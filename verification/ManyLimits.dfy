/**
 * Policy lists with any number of rate_of_change limits, among any other policies: how many writes
 * can pass in a window no longer than the shortest of them.
 */
module ManyLimits {
  import opened Keys
  import opened Numbers
  import opened WriteTracker
  import opened WriteWindows
  import opened PolicyEngine

  /** The limits of a list that are in force, in their order. */
  function Limits(rules: seq<Rule>): seq<Rule> {
    if rules == [] then [] else (if Active(rules[0]) then [rules[0]] else []) + Limits(rules[1..])
  }

  predicate AllActive(limits: seq<Rule>) {
    forall i :: 0 <= i < |limits| ==> Active(limits[i])
  }

  /** The writes that a limit allows. */
  function Most(limit: Rule): int {
    if limit.RateOfChange? then limit.maxWrites else 0
  }

  /** No window is shorter than h. */
  predicate NoShorter(limits: seq<Rule>, h: int) {
    h >= 0 && forall l :: l in limits && l.RateOfChange? ==> h <= Window(l)
  }

  /** How many writes limit i lets pass, when each passed write takes a place for every limit. */
  function Share(limits: seq<Rule>, i: nat): int
    requires i < |limits|
  {
    (Most(limits[i]) + |limits| - 1 - i) / |limits|
  }

  /** A list with c entries leaves room for one write under every limit in turn. */
  predicate Room(limits: seq<Rule>, c: int) {
    limits == [] || (c < Most(limits[0]) && Room(limits[1..], c + 1))
  }

  lemma {:induction false} RoomIffAll(limits: seq<Rule>, c: int)
    ensures Room(limits, c) <==> forall i :: 0 <= i < |limits| ==> c + i < Most(limits[i])
  {
    if limits != [] {
      var rest := limits[1..];
      RoomIffAll(rest, c + 1);
      if forall i :: 0 <= i < |limits| ==> c + i < Most(limits[i]) {
        assert c + 0 < Most(limits[0]);
        forall i | 0 <= i < |rest| ensures c + 1 + i < Most(rest[i]) {
          assert c + (i + 1) < Most(limits[i + 1]);
        }
      }
      if Room(limits, c) {
        forall i | 0 <= i < |limits| ensures c + i < Most(limits[i]) {
          if i > 0 {
            assert c + 1 + (i - 1) < Most(rest[i - 1]);
          }
        }
      }
    }
  }

  function WriteBy(key: Key, now: int): Request {
    Request(Holder(key), true, now)
  }

  // ---------------------------------------------------------------- one write through the list

  /** A rule that prunes no later than y takes nothing from there on away, and, when it is a limit that
      grants the write, adds it. */
  lemma OneRule(rule: Rule, key: Key, now: int, times: seq<int>, y: int)
    requires Active(rule) ==> now - Window(rule) <= y
    ensures var left := Tracked(rule, WriteBy(key, now), times);
            && |Kept(left, y)| >= |Kept(times, y)|
            && (!Denies(rule, WriteBy(key, now), times) && y <= now ==>
                  |Kept(left, y)| == |Kept(times, y)| + if Active(rule) then 1 else 0)
            && (!Denies(rule, WriteBy(key, now), times) && Active(rule) ==> |Kept(times, y)| < rule.maxWrites)
  {
    if Active(rule) {
      LimitKeeps(times, now, Window(rule), rule.maxWrites, y);
    }
  }

  lemma LimitKeeps(times: seq<int>, now: int, length: int, limit: int, y: int)
    requires now - length <= y
    ensures |Kept(Recorded(times, now, length, limit), y)|
         == |Kept(times, y)| + if !Full(times, now, length, limit) && y <= now then 1 else 0
    ensures !Full(times, now, length, limit) ==> |Kept(times, y)| < limit
  {
    var kept := Kept(times, now - length);
    KeptTwice(times, now - length, y);
    KeptSnoc(kept, now, y);
    KeptShrinks(kept, y);
  }

  lemma {:induction false} WholeList(rules: seq<Rule>, key: Key, now: int, times: seq<int>, y: int)
    requires forall l :: l in Limits(rules) && l.RateOfChange? ==> now - Window(l) <= y
    ensures var left := TrackedAll(rules, WriteBy(key, now), times);
            && |Kept(left, y)| >= |Kept(times, y)|
            && (!Denied(rules, WriteBy(key, now), times) && y <= now ==>
                  && |Kept(left, y)| == |Kept(times, y)| + |Limits(rules)|
                  && Room(Limits(rules), |Kept(times, y)|))
    decreases |rules|
  {
    if rules != [] {
      var rule, rest := rules[0], rules[1..];
      assert forall l :: l in Limits(rest) ==> l in Limits(rules);
      assert Active(rule) ==> Limits(rules)[0] == rule && Limits(rules)[1..] == Limits(rest);
      assert !Active(rule) ==> Limits(rules) == Limits(rest);
      OneRule(rule, key, now, times, y);
      WholeList(rest, key, now, Tracked(rule, WriteBy(key, now), times), y);
    }
  }

  // ---------------------------------------------------------------- a run of writes

  /** A write request of the key, and the policies that it meets. */
  datatype Visit = Visit(rules: seq<Rule>, now: int)

  datatype Trace = Trace(times: seq<int>, passed: seq<int>)

  function Step(key: Key, p: Trace, v: Visit): Trace {
    Trace(TrackedAll(v.rules, WriteBy(key, v.now), p.times),
          if Denied(v.rules, WriteBy(key, v.now), p.times) then p.passed else p.passed + [v.now])
  }

  function Run(key: Key, visits: seq<Visit>): Trace {
    if visits == [] then Trace([], []) else Step(key, Run(key, visits[..|visits| - 1]), visits[|visits| - 1])
  }

  /** The limits stay the same, the readings do not go back, and the other policies are free. */
  predicate Orderly(visits: seq<Visit>, limits: seq<Rule>, clock: int) {
    visits == [] ||
    var v := visits[|visits| - 1];
    Limits(v.rules) == limits && v.now <= clock && Orderly(visits[..|visits| - 1], limits, v.now)
  }

  /** The list still holds the records of the writes that passed in the window y..y + h. */
  ghost predicate Held(k: nat, h: int, p: Trace, y: int) {
    k * InWindow(p.passed, y, h) <= |Kept(p.times, y)|
  }

  ghost predicate Shared(limits: seq<Rule>, passed: int) {
    forall i :: 0 <= i < |limits| ==> passed <= Share(limits, i)
  }

  ghost predicate Sound(limits: seq<Rule>, h: int, p: Trace, clock: int, y: int) {
    && (clock <= y + h ==> Held(|limits|, h, p, y))
    && Shared(limits, InWindow(p.passed, y, h))
  }

  lemma Divided(k: int, m: int, x: int)
    requires k > 0 && k * m <= x
    ensures m <= x / k
  {
    var q := x / k;
    assert x < k * q + k;
    assert k * (q + 1) == k * q + k;
    Scale(k, q + 1, m);
  }

  /** One more write has passed, and every limit had room for it. */
  lemma OneMoreShared(limits: seq<Rule>, passed: nat, held: int)
    requires |limits| * passed <= held && Room(limits, held)
    ensures Shared(limits, passed + 1)
  {
    var k := |limits|;
    assert k * (passed + 1) == k * passed + k;
    RoomIffAll(limits, held);
    forall i | 0 <= i < k ensures passed + 1 <= Share(limits, i) {
      assert held + i < Most(limits[i]);
      Divided(k, passed + 1, Most(limits[i]) + k - 1 - i);
    }
  }

  lemma StepKeepsSound(key: Key, limits: seq<Rule>, h: int, p: Trace, clock: int, v: Visit, y: int)
    requires NoShorter(limits, h) && Limits(v.rules) == limits
    requires Sound(limits, h, p, clock, y) && clock <= v.now
    ensures Sound(limits, h, Step(key, p, v), v.now, y)
  {
    StepWindow(key, p, v, y, h);
    if v.now <= y + h {
      StepList(key, limits, h, p, v, y);
      if PassesInto(key, p, v, y, h) {
        OneMoreShared(limits, InWindow(p.passed, y, h), |Kept(p.times, y)|);
        OneMoreHeld(|limits|, InWindow(p.passed, y, h), |Kept(p.times, y)|);
      }
    }
  }

  /** The write passes, and counts in the window. */
  predicate PassesInto(key: Key, p: Trace, v: Visit, y: int, h: int) {
    y <= v.now <= y + h && !Denied(v.rules, WriteBy(key, v.now), p.times)
  }

  lemma StepWindow(key: Key, p: Trace, v: Visit, y: int, h: int)
    ensures InWindow(Step(key, p, v).passed, y, h)
         == InWindow(p.passed, y, h) + if PassesInto(key, p, v, y, h) then 1 else 0
  {
    OneMoreIn(p.passed, v.now, y, h, Denied(v.rules, WriteBy(key, v.now), p.times));
  }

  lemma OneMoreIn(passed: seq<int>, now: int, y: int, h: int, denied: bool)
    ensures InWindow(if denied then passed else passed + [now], y, h)
         == InWindow(passed, y, h) + if y <= now <= y + h && !denied then 1 else 0
  {
    BetweenSnoc(passed, now, y, y + h);
  }

  lemma StepList(key: Key, limits: seq<Rule>, h: int, p: Trace, v: Visit, y: int)
    requires NoShorter(limits, h) && Limits(v.rules) == limits && v.now <= y + h
    ensures |Kept(Step(key, p, v).times, y)| >= |Kept(p.times, y)|
    ensures PassesInto(key, p, v, y, h) ==>
              |Kept(Step(key, p, v).times, y)| == |Kept(p.times, y)| + |limits| && Room(limits, |Kept(p.times, y)|)
  {
    WholeList(v.rules, key, v.now, p.times, y);
  }

  lemma OneMoreHeld(k: int, passed: int, held: int)
    requires k * passed <= held
    ensures k * (passed + 1) <= held + k
  {
    assert k * (passed + 1) == k * passed + k;
  }

  lemma SharesArePositive(limits: seq<Rule>)
    requires AllActive(limits)
    ensures Shared(limits, 0)
  {
    forall i | 0 <= i < |limits| ensures 0 <= Share(limits, i) {
      Divided(|limits|, 0, Most(limits[i]) + |limits| - 1 - i);
    }
  }

  lemma {:induction false} RunKeepsSound(key: Key, limits: seq<Rule>, h: int, visits: seq<Visit>, clock: int, y: int)
    requires AllActive(limits) && NoShorter(limits, h) && Orderly(visits, limits, clock)
    ensures Sound(limits, h, Run(key, visits), clock, y)
    decreases |visits|
  {
    if visits == [] {
      SharesArePositive(limits);
    } else {
      var before, v := visits[..|visits| - 1], visits[|visits| - 1];
      RunKeepsSound(key, limits, h, before, v.now, y);
      StepKeepsSound(key, limits, h, Run(key, before), v.now, v, y);
    }
  }

  // ---------------------------------------------------------------- writes at one reading

  lemma {:induction false} SamePasses(limits: seq<Rule>, key: Key, c: nat)
    requires AllActive(limits) && Room(limits, c)
    ensures !Denied(limits, WriteBy(key, 0), Same(0, c))
    ensures TrackedAll(limits, WriteBy(key, 0), Same(0, c)) == Same(0, c + |limits|)
    decreases |limits|
  {
    if limits != [] {
      OneSame(limits[0], key, c);
      SamePasses(limits[1..], key, c + 1);
    }
  }

  lemma OneSame(limit: Rule, key: Key, c: nat)
    requires Active(limit) && c < Most(limit)
    ensures !Denies(limit, WriteBy(key, 0), Same(0, c))
    ensures Tracked(limit, WriteBy(key, 0), Same(0, c)) == Same(0, c + 1)
  {
    SameKept(0, c, 0 - Window(limit));
    SameSucc(0, c);
  }

  lemma {:induction false} ActiveLimits(limits: seq<Rule>)
    requires AllActive(limits)
    ensures Limits(limits) == limits
  {
    if limits != [] {
      ActiveLimits(limits[1..]);
    }
  }

  /** Some orderly run at the reading 0 has m passed writes and leaves c entries. */
  ghost predicate Reaches(key: Key, limits: seq<Rule>, c: nat, m: nat) {
    exists visits :: Orderly(visits, limits, 0) && Run(key, visits) == Trace(Same(0, c), Same(0, m))
  }

  /** As many writes as every limit's share all pass at one reading. */
  lemma {:induction false} BurstPasses(key: Key, limits: seq<Rule>, m: nat, c: nat)
    requires limits != [] && AllActive(limits) && Shared(limits, m) && c == |limits| * m
    ensures Reaches(key, limits, c, m)
    decreases m
  {
    if m == 0 {
      assert Orderly([], limits, 0) && Run(key, []) == Trace(Same(0, c), Same(0, m));
    } else {
      BurstRoom(limits, m, c);
      BurstPasses(key, limits, m - 1, c - |limits|);
      OneMorePasses(key, limits, m - 1, c - |limits|);
    }
  }

  lemma OneMorePasses(key: Key, limits: seq<Rule>, m: nat, c: nat)
    requires AllActive(limits) && Room(limits, c) && Reaches(key, limits, c, m)
    ensures Reaches(key, limits, c + |limits|, m + 1)
  {
    var visits :| Orderly(visits, limits, 0) && Run(key, visits) == Trace(Same(0, c), Same(0, m));
    var v := Visit(limits, 0);
    ActiveLimits(limits);
    OrderlySnoc(visits, limits, 0, v);
    RunSnoc(key, visits, v);
    VisitPasses(key, limits, c, m);
  }

  lemma VisitPasses(key: Key, limits: seq<Rule>, c: nat, m: nat)
    requires AllActive(limits) && Room(limits, c)
    ensures Step(key, Trace(Same(0, c), Same(0, m)), Visit(limits, 0)) == Trace(Same(0, c + |limits|), Same(0, m + 1))
  {
    SamePasses(limits, key, c);
    SameSucc(0, m);
  }

  lemma RunSnoc(key: Key, visits: seq<Visit>, v: Visit)
    ensures Run(key, visits + [v]) == Step(key, Run(key, visits), v)
  {
    assert (visits + [v])[..|visits|] == visits;
  }

  lemma OrderlySnoc(visits: seq<Visit>, limits: seq<Rule>, clock: int, v: Visit)
    requires Orderly(visits, limits, v.now) && Limits(v.rules) == limits && v.now <= clock
    ensures Orderly(visits + [v], limits, clock)
  {
    assert (visits + [v])[..|visits|] == visits;
  }

  lemma BurstRoom(limits: seq<Rule>, m: nat, c: nat)
    requires m > 0 && limits != [] && Shared(limits, m) && c == |limits| * m
    ensures Shared(limits, m - 1) && c - |limits| == |limits| * (m - 1) >= 0
    ensures Room(limits, c - |limits|)
  {
    var k := |limits|;
    Scale(k, 0, m - 1);
    assert c == k * (m - 1) + k;
    forall i | 0 <= i < k ensures m - 1 <= Share(limits, i) && c - k + i < Most(limits[i]) {
      assert m <= Share(limits, i);
      RoomFor(k, m, Most(limits[i]) + k - 1 - i);
    }
    RoomIffAll(limits, c - k);
  }

  lemma RoomFor(k: int, m: int, x: int)
    requires k > 0 && m <= x / k
    ensures k * (m - 1) + k <= x
  {
    Scale(k, m, x / k);
    assert k * (m - 1) + k == k * m;
  }

  // ---------------------------------------------------------------- the exact bound

  /** On every orderly run, no closed window of length h holds more than n passed writes. */
  ghost predicate AlwaysWithin(key: Key, limits: seq<Rule>, h: int, n: int) {
    forall visits, clock :: Orderly(visits, limits, clock) ==> Bounded(Run(key, visits).passed, h, n)
  }

  /** With limits a_1 to a_k in force, a window no longer than the shortest of theirs holds at most n
      passed writes on every orderly run exactly when (a_i + k - i) / k is at most n for some i. */
  lemma ShortWindowsExactly(key: Key, limits: seq<Rule>, h: int, n: int)
    requires limits != [] && AllActive(limits) && NoShorter(limits, h)
    ensures AlwaysWithin(key, limits, h, n) <==> exists i :: 0 <= i < |limits| && Share(limits, i) <= n
  {
    if i :| 0 <= i < |limits| && Share(limits, i) <= n {
      forall visits, clock | Orderly(visits, limits, clock) ensures Bounded(Run(key, visits).passed, h, n) {
        forall y ensures InWindow(Run(key, visits).passed, y, h) <= n {
          RunKeepsSound(key, limits, h, visits, clock, y);
        }
      }
    } else {
      var m: nat := Max(n + 1, 0);
      SharesArePositive(limits);
      Scale(|limits|, 0, m);
      BurstPasses(key, limits, m, |limits| * m);
      SameBetween(0, 0, h, m);
      BurstExceeds(key, limits, h, n, m, |limits| * m);
    }
  }

  lemma BurstExceeds(key: Key, limits: seq<Rule>, h: int, n: int, m: nat, c: nat)
    requires Reaches(key, limits, c, m) && Between(Same(0, m), 0, h) > n
    ensures !AlwaysWithin(key, limits, h, n)
  {
    var visits :| Orderly(visits, limits, 0) && Run(key, visits) == Trace(Same(0, c), Same(0, m));
    assert InWindow(Run(key, visits).passed, 0, h) > n;
  }
}
