/**
 * Policy lists with two rate_of_change limits. Both limits use the one list of the key: each prunes
 * it to its own window and each records the write for itself.
 */
module TwoLimits {
  import opened Keys
  import opened Numbers
  import opened WriteTracker
  import opened WriteWindows
  import opened PolicyEngine

  /** At most a writes in wa, then at most b writes in wb; windows in clock ticks. */
  datatype Pair = Pair(a: int, wa: int, b: int, wb: int)

  predicate Proper(q: Pair) {
    q.a > 0 && q.b > 0 && q.wa >= 0 && q.wb >= 0
  }

  function Shorter(q: Pair): int {
    Min(q.wa, q.wb)
  }

  /** How many writes can pass in a window of the shorter length. */
  function Last(q: Pair): int {
    Min((q.a + 1) / 2, q.b / 2)
  }

  /** How many when the first limit is to grant yet another write within its window. */
  function Continued(q: Pair): int {
    Min((q.a - 1) / 2, q.b / 2)
  }

  /** The most writes that can pass in a window of the first limit. */
  function FirstMost(q: Pair): int
    requires Proper(q)
  {
    Continued(q) * (q.wa / (q.wb + 1)) + Last(q)
  }

  /** The most writes that can pass in a window of the second limit. */
  function SecondMost(q: Pair): int
    requires Proper(q)
  {
    Last(q) * (q.wb / (q.wa + 1) + 1)
  }

  // ---------------------------------------------------------------- one write under both limits

  lemma {:induction false} KeptEnough(times: seq<int>, start: int, earlier: int)
    requires earlier <= start
    ensures Kept(Kept(times, start), earlier) == Kept(times, start)
  {
    if times != [] {
      KeptEnough(times[..|times| - 1], start, earlier);
      KeptSnoc(Kept(times[..|times| - 1], start), times[|times| - 1], earlier);
    }
  }

  lemma KeptBoth(times: seq<int>, start: int, start': int)
    ensures Kept(Kept(times, start), start') == Kept(times, Max(start, start'))
  {
    if start < start' {
      KeptTwice(times, start, start');
    } else {
      KeptEnough(times, start, start');
    }
  }

  /** A write that both limits grant leaves what the shorter window keeps, and is recorded twice. */
  lemma BothRecord(q: Pair, times: seq<int>, now: int)
    requires Proper(q) && !Full(times, now, q.wa, q.a)
    requires !Full(Recorded(times, now, q.wa, q.a), now, q.wb, q.b)
    ensures Recorded(Recorded(times, now, q.wa, q.a), now, q.wb, q.b) == Kept(times, now - Shorter(q)) + [now, now]
  {
    var kept := Kept(times, now - q.wa);
    RecordOnTop(kept, now, q.wb, q.b);
    KeptBoth(times, now - q.wa, now - q.wb);
    assert Kept(kept, now - q.wb) + [now] + [now] == Kept(kept, now - q.wb) + [now, now];
  }

  lemma RecordOnTop(kept: seq<int>, now: int, length: int, limit: int)
    requires length >= 0 && !Full(kept + [now], now, length, limit)
    ensures Recorded(kept + [now], now, length, limit) == Kept(kept, now - length) + [now] + [now]
  {
    KeptSnoc(kept, now, now - length);
  }

  // ---------------------------------------------------------------- the windows of the shorter length

  /** The list still holds both records of each write that passed in the window y..y + h. */
  ghost predicate Held(q: Pair, times: seq<int>, passed: seq<int>, y: int) {
    2 * InWindow(passed, y, Shorter(q)) <= |Kept(times, y)|
  }

  /** A later write, while the list held them, was granted by the first limit. */
  ghost predicate Outlived(q: Pair, passed: seq<int>, y: int) {
    2 * InWindow(passed, y, Shorter(q)) < q.a
  }

  ghost predicate Sound(q: Pair, times: seq<int>, passed: seq<int>, clock: int, y: int) {
    && (clock <= y + Shorter(q) ==> Held(q, times, passed, y))
    && (y + Shorter(q) < clock <= y + q.wa ==> Held(q, times, passed, y) || Outlived(q, passed, y))
    && InWindow(passed, y, Shorter(q)) <= Last(q)
  }

  /** The first limit prunes the list, denying the write. */
  lemma FirstDenies(q: Pair, times: seq<int>, passed: seq<int>, clock: int, now: int, y: int)
    requires Proper(q) && Sound(q, times, passed, clock, y) && clock <= now
    ensures Sound(q, Kept(times, now - q.wa), passed, now, y)
  {
    if now - q.wa <= y {
      KeptTwice(times, now - q.wa, y);
    }
  }

  /** The first limit has granted the write at now, and left is the list it leaves. */
  ghost predicate Granting(q: Pair, left: seq<int>, passed: seq<int>, now: int, y: int) {
    && Sound(q, left, passed, now, y)
    && (now <= y + q.wa ==> Outlived(q, passed, y))
    && (y <= now <= y + Shorter(q) ==> 2 * InWindow(passed, y, Shorter(q)) + 1 <= |Kept(left, y)|)
  }

  /** The first limit grants the write, which the list then holds on top. */
  lemma FirstGrants(q: Pair, times: seq<int>, passed: seq<int>, clock: int, now: int, y: int)
    requires Proper(q) && Sound(q, times, passed, clock, y) && clock <= now && !Full(times, now, q.wa, q.a)
    ensures Granting(q, Kept(times, now - q.wa) + [now], passed, now, y)
  {
    var kept := Kept(times, now - q.wa);
    KeptSnoc(kept, now, y);
    if now - q.wa <= y {
      StillHeld(times, now, now - q.wa, y);
      KeptShrinks(kept, y);
    }
  }

  /** The second limit prunes the list, denying the write. */
  lemma SecondPrunes(q: Pair, left: seq<int>, passed: seq<int>, now: int, y: int)
    requires Proper(q) && Granting(q, left, passed, now, y)
    ensures Sound(q, Kept(left, now - q.wb), passed, now, y)
  {
    if now <= y + Shorter(q) {
      KeptTwice(left, now - q.wb, y);
    }
  }

  /** The second limit grants it too. */
  lemma SecondGrants(q: Pair, left: seq<int>, passed: seq<int>, now: int, y: int)
    requires Proper(q) && Granting(q, left, passed, now, y)
    requires !Full(left, now, q.wb, q.b)
    ensures var left' := Kept(left, now - q.wb) + [now];
            Sound(q, left', passed, now, y) && Sound(q, left', passed + [now], now, y)
  {
    BetweenSnoc(passed, now, y, y + Shorter(q));
    if now <= y + Shorter(q) {
      StillHeld(left, now, now - q.wb, y);
      if y <= now {
        KeptShrinks(Kept(left, now - q.wb), y);
        Halves(InWindow(passed, y, Shorter(q)), q.a, q.b);
      }
    }
  }

  lemma StillHeld(left: seq<int>, now: int, start: int, y: int)
    requires start <= y
    ensures |Kept(Kept(left, start) + [now], y)| == |Kept(left, y)| + if now >= y then 1 else 0
    ensures |Kept(Kept(left, start), y)| == |Kept(left, y)|
  {
    KeptSnoc(Kept(left, start), now, y);
    KeptTwice(left, start, y);
  }

  lemma Halves(n: int, a: int, b: int)
    requires 2 * n < a && 2 * n + 1 < b
    ensures n + 1 <= Min((a + 1) / 2, b / 2)
  {}

  // ---------------------------------------------------------------- a run of writes

  /** A write request of the key, with the verdicts of the other policies around the two limits. */
  datatype Attempt = Attempt(before: seq<Rule>, between: seq<Rule>, after: seq<Rule>, now: int)

  datatype Trace = Trace(times: seq<int>, passed: seq<int>)

  function Rules(a: Rule, b: Rule, w: Attempt): seq<Rule> {
    w.before + ([a] + (w.between + ([b] + w.after)))
  }

  function Step(key: Key, a: Rule, b: Rule, p: Trace, w: Attempt): Trace {
    var request := Request(Holder(key), true, w.now);
    Trace(TrackedAll(Rules(a, b, w), request, p.times),
             if Denied(Rules(a, b, w), request, p.times) then p.passed else p.passed + [w.now])
  }

  function Run(key: Key, a: Rule, b: Rule, writes: seq<Attempt>): Trace {
    if writes == [] then Trace([], [])
    else Step(key, a, b, Run(key, a, b, writes[..|writes| - 1]), writes[|writes| - 1])
  }

  predicate FixedAround(w: Attempt) {
    AllFixed(w.before) && AllFixed(w.between) && AllFixed(w.after)
  }

  /** The other policies are verdicts, and the readings do not go back, up to the clock. */
  predicate Orderly(writes: seq<Attempt>, clock: int) {
    writes == [] ||
    var w := writes[|writes| - 1];
    FixedAround(w) && w.now <= clock && Orderly(writes[..|writes| - 1], w.now)
  }

  function PairOf(a: Rule, b: Rule): Pair
    requires a.RateOfChange? && b.RateOfChange?
  {
    Pair(a.maxWrites, Window(a), b.maxWrites, Window(b))
  }

  predicate TwoActive(a: Rule, b: Rule) {
    Active(a) && Active(b)
  }

  /** What a write does to the list and whether it passes: a plain verdict before, between or after
      the limits may deny it, and each limit may. */
  lemma StepCases(key: Key, a: Rule, b: Rule, p: Trace, w: Attempt)
    requires TwoActive(a, b) && FixedAround(w)
    ensures var q := PairOf(a, b);
            var left := Recorded(p.times, w.now, q.wa, q.a);
            var left' := Recorded(left, w.now, q.wb, q.b);
            Step(key, a, b, p, w) ==
            if Fixed(true) in w.before then p
            else if Full(p.times, w.now, q.wa, q.a) || Fixed(true) in w.between then Trace(left, p.passed)
            else if Full(left, w.now, q.wb, q.b) || Fixed(true) in w.after then Trace(left', p.passed)
            else Trace(left', p.passed + [w.now])
  {
    var request := Request(Holder(key), true, w.now);
    var left := Tracked(a, request, p.times);
    FixedFirst(w.before, [a] + (w.between + ([b] + w.after)), request, p.times);
    LimitFirst(a, w.between + ([b] + w.after), request, p.times);
    FixedFirst(w.between, [b] + w.after, request, left);
    LimitFirst(b, w.after, request, left);
    LimitsConcernWritesOnly(w.after, request, Tracked(b, request, left));
  }

  lemma LimitFirst(limit: Rule, rest: seq<Rule>, request: Request, times: seq<int>)
    ensures var left := Tracked(limit, request, times);
            && Denied([limit] + rest, request, times) == (Denies(limit, request, times) || Denied(rest, request, left))
            && TrackedAll([limit] + rest, request, times)
               == if Denies(limit, request, times) then left else TrackedAll(rest, request, left)
  {
    assert ([limit] + rest)[1..] == rest;
  }

  // ---------------------------------------------------------------- upper bounds

  /** Every window of the first limit that contains the last write. */
  ghost predicate Narrow(q: Pair, passed: seq<int>)
    requires Proper(q)
  {
    Bounded(passed, q.wa, FirstMost(q))
  }

  ghost predicate Valid(q: Pair, p: Trace, clock: int)
    requires Proper(q)
  {
    UpTo(p.passed, clock) && Narrow(q, p.passed) && forall y :: Sound(q, p.times, p.passed, clock, y)
  }

  lemma BetweenSplits(times: seq<int>, from: int, mid: int, to: int)
    ensures Between(times, from, to) <= Between(times, from, mid) + Between(times, mid + 1, to)
  {
    if times != [] {
      BetweenSplits(times[..|times| - 1], from, mid, to);
    }
  }

  lemma BetweenWithin(times: seq<int>, now: int, from: int, to: int)
    requires UpTo(times, now)
    ensures Between(times, from, to) <= Between(times, from, now)
    ensures from > to ==> Between(times, from, to) == 0
  {
    if times != [] {
      BetweenWithin(times[..|times| - 1], now, from, to);
    }
  }

  lemma NoneBetween(times: seq<int>, from: int, to: int)
    requires from > to
    ensures Between(times, from, to) == 0
  {
    if times != [] {
      NoneBetween(times[..|times| - 1], from, to);
    }
  }

  /** Windows of h + 1 ticks, each with at most c of the times, side by side below t. */
  lemma {:induction false} Tile(times: seq<int>, h: int, c: int, from: int, t: int)
    requires h >= 0 && c >= 0 && from <= t
    requires forall y :: from <= y && y + h < t ==> InWindow(times, y, h) <= c
    ensures Between(times, from, t - h - 1) <= c * ((t - from) / (h + 1))
    decreases t - from
  {
    if t - h - 1 < from {
      NoneBetween(times, from, t - h - 1);
      NonnegativeQuotient(c, t - from, h + 1);
    } else {
      BetweenSplits(times, from, from + h, t - h - 1);
      assert InWindow(times, from, h) <= c;
      Tile(times, h, c, from + h + 1, t);
      OneTileMore(c, t - from, h + 1);
    }
  }

  lemma NonnegativeQuotient(c: int, n: int, d: int)
    requires c >= 0 && n >= 0 && d > 0
    ensures c * (n / d) >= 0
  {}

  lemma OneTileMore(c: int, n: int, d: int)
    requires d > 0
    ensures c * (n / d) == c + c * ((n - d) / d)
  {
    var k := (n - d) / d;
    assert d * (k + 1) == d * k + d;
    Quotient(n, d, k + 1);
    assert c * (k + 1) == c + c * k;
  }

  lemma TilesMonotone(c: int, n: int, n': int, d: int)
    requires c >= 0 && d > 0 && n <= n'
    ensures c * (n / d) <= c * (n' / d)
  {
    var k, k' := n / d, n' / d;
    Scale(d, k' + 1, k);
    Scale(c, k, k');
  }

  /** The quotients of the two bounds do not care which window is the shorter one. */
  lemma ShorterTiles(q: Pair)
    requires Proper(q)
    ensures q.wa / (Shorter(q) + 1) == q.wa / (q.wb + 1)
    ensures q.wb / (Shorter(q) + 1) == q.wb / (q.wa + 1)
  {
    if q.wa <= q.wb {
      Quotient(q.wa, q.wa + 1, 0);
      Quotient(q.wa, q.wb + 1, 0);
    } else {
      Quotient(q.wb, q.wb + 1, 0);
      Quotient(q.wb, q.wa + 1, 0);
    }
  }

  /** A window of the first limit that ends at or after the new write: its tail of the shorter length,
      and tiles below that were each outlived. */
  lemma PassKeepsNarrow(q: Pair, passed: seq<int>, now: int)
    requires Proper(q) && UpTo(passed, now) && Narrow(q, passed)
    requires Bounded(passed, Shorter(q), Last(q)) && Bounded(passed + [now], Shorter(q), Last(q))
    requires forall y :: now <= y + q.wa ==> Outlived(q, passed, y)
    ensures Narrow(q, passed + [now])
  {
    forall from ensures InWindow(passed + [now], from, q.wa) <= FirstMost(q) {
      assert InWindow(passed, from, q.wa) <= FirstMost(q);
      BetweenSnoc(passed, now, from, from + q.wa);
      if from <= now <= from + q.wa {
        WindowOfPass(q, passed, now, from);
      }
    }
  }

  lemma WindowOfPass(q: Pair, passed: seq<int>, now: int, from: int)
    requires Proper(q) && UpTo(passed, now) && from <= now <= from + q.wa
    requires Bounded(passed, Shorter(q), Last(q)) && Bounded(passed + [now], Shorter(q), Last(q))
    requires forall y :: now <= y + q.wa ==> Outlived(q, passed, y)
    ensures InWindow(passed + [now], from, q.wa) <= FirstMost(q)
  {
    var h, all := Shorter(q), passed + [now];
    UpToSnoc(passed, now, now);
    BetweenWithin(all, now, from, from + q.wa);
    BetweenSplits(all, from, now - h - 1, now);
    BetweenSnoc(passed, now, from, now - h - 1);
    assert InWindow(all, now - h, h) <= Last(q);
    forall y | from <= y && y + h < now ensures InWindow(passed, y, h) <= Continued(q) {
      assert Outlived(q, passed, y) && InWindow(passed, y, h) <= Last(q);
    }
    Tile(passed, h, Continued(q), from, now);
    TilesMonotone(Continued(q), now - from, q.wa, h + 1);
    ShorterTiles(q);
  }

  lemma LaterIsSound(q: Pair, p: Trace, clock: int, now: int)
    requires Proper(q) && Valid(q, p, clock) && clock <= now
    ensures Valid(q, p, now)
  {
    UpToLater(p.passed, clock, now);
    forall y ensures Sound(q, p.times, p.passed, now, y) {
      assert Sound(q, p.times, p.passed, clock, y);
    }
  }

  ghost predicate GrantingAll(q: Pair, left: seq<int>, passed: seq<int>, now: int) {
    forall y :: Granting(q, left, passed, now, y)
  }

  lemma AfterFirst(q: Pair, p: Trace, now: int)
    requires Proper(q) && Valid(q, p, now) && !Full(p.times, now, q.wa, q.a)
    ensures GrantingAll(q, Kept(p.times, now - q.wa) + [now], p.passed, now)
    ensures Valid(q, Trace(Kept(p.times, now - q.wa) + [now], p.passed), now)
  {
    var left := Kept(p.times, now - q.wa) + [now];
    forall y ensures Granting(q, left, p.passed, now, y) && Sound(q, left, p.passed, now, y) {
      assert Sound(q, p.times, p.passed, now, y);
      FirstGrants(q, p.times, p.passed, now, now, y);
    }
  }

  lemma AfterSecondDenies(q: Pair, p: Trace, now: int)
    requires Proper(q) && Valid(q, p, now) && GrantingAll(q, p.times, p.passed, now)
    ensures Valid(q, Trace(Kept(p.times, now - q.wb), p.passed), now)
  {
    var kept := Kept(p.times, now - q.wb);
    forall y ensures Sound(q, kept, p.passed, now, y) {
      assert Granting(q, p.times, p.passed, now, y);
      SecondPrunes(q, p.times, p.passed, now, y);
    }
  }

  /** The write is recorded twice, and passes unless a later policy denies it. */
  lemma AfterSecondGrants(q: Pair, p: Trace, now: int)
    requires Proper(q) && Valid(q, p, now) && GrantingAll(q, p.times, p.passed, now)
    requires !Full(p.times, now, q.wb, q.b)
    ensures Valid(q, Trace(Kept(p.times, now - q.wb) + [now], p.passed), now)
    ensures Valid(q, Trace(Kept(p.times, now - q.wb) + [now], p.passed + [now]), now)
  {
    var left := Kept(p.times, now - q.wb) + [now];
    forall y ensures Sound(q, left, p.passed, now, y) && Sound(q, left, p.passed + [now], now, y) {
      assert Granting(q, p.times, p.passed, now, y);
      SecondGrants(q, p.times, p.passed, now, y);
    }
    ShortWindows(q, left, p.passed, now);
    ShortWindows(q, left, p.passed + [now], now);
    forall y ensures now <= y + q.wa ==> Outlived(q, p.passed, y) {
      assert Granting(q, p.times, p.passed, now, y);
    }
    UpToSnoc(p.passed, now, now);
    PassKeepsNarrow(q, p.passed, now);
  }

  lemma ShortWindows(q: Pair, times: seq<int>, passed: seq<int>, clock: int)
    requires forall y :: Sound(q, times, passed, clock, y)
    ensures Bounded(passed, Shorter(q), Last(q))
  {
    forall y ensures InWindow(passed, y, Shorter(q)) <= Last(q) {
      assert Sound(q, times, passed, clock, y);
    }
  }

  lemma StepKeepsValid(key: Key, a: Rule, b: Rule, q: Pair, p: Trace, w: Attempt)
    requires TwoActive(a, b) && FixedAround(w) && q == PairOf(a, b) && Valid(q, p, w.now)
    ensures Valid(q, Step(key, a, b, p, w), w.now)
  {
    var now := w.now;
    StepCases(key, a, b, p, w);
    if Full(p.times, now, q.wa, q.a) {
      AfterFirstDenies(q, p, now);
    } else {
      AfterFirst(q, p, now);
      AfterBoth(q, Trace(Kept(p.times, now - q.wa) + [now], p.passed), now);
    }
  }

  lemma AfterBoth(q: Pair, p: Trace, now: int)
    requires Proper(q) && Valid(q, p, now) && GrantingAll(q, p.times, p.passed, now)
    ensures Valid(q, Trace(Recorded(p.times, now, q.wb, q.b), p.passed), now)
    ensures !Full(p.times, now, q.wb, q.b) ==> Valid(q, Trace(Recorded(p.times, now, q.wb, q.b), p.passed + [now]), now)
  {
    if Full(p.times, now, q.wb, q.b) {
      AfterSecondDenies(q, p, now);
    } else {
      AfterSecondGrants(q, p, now);
    }
  }

  lemma AfterFirstDenies(q: Pair, p: Trace, now: int)
    requires Proper(q) && Valid(q, p, now)
    ensures Valid(q, Trace(Kept(p.times, now - q.wa), p.passed), now)
  {
    var kept := Kept(p.times, now - q.wa);
    forall y ensures Sound(q, kept, p.passed, now, y) {
      assert Sound(q, p.times, p.passed, now, y);
      FirstDenies(q, p.times, p.passed, now, now, y);
    }
  }

  lemma NothingIsValid(q: Pair, clock: int)
    requires Proper(q)
    ensures Valid(q, Trace([], []), clock)
  {
    NonnegativeQuotient(Continued(q), q.wa, q.wb + 1);
    NoneIsBounded(q.wa, FirstMost(q));
    forall y ensures Sound(q, [], [], clock, y) {}
  }

  lemma {:induction false} RunKeepsValid(key: Key, a: Rule, b: Rule, q: Pair, writes: seq<Attempt>, clock: int)
    requires TwoActive(a, b) && q == PairOf(a, b) && Orderly(writes, clock)
    ensures Valid(q, Run(key, a, b, writes), clock)
    decreases |writes|
  {
    if writes == [] {
      NothingIsValid(q, clock);
    } else {
      var before, w := writes[..|writes| - 1], writes[|writes| - 1];
      RunKeepsValid(key, a, b, q, before, w.now);
      StepKeepsValid(key, a, b, q, Run(key, a, b, before), w);
      LaterIsSound(q, Run(key, a, b, writes), w.now, clock);
    }
  }

  /** Windows of the second limit are covered by tiles of the shorter length. */
  lemma SecondIsBounded(q: Pair, p: Trace, clock: int)
    requires Proper(q) && Valid(q, p, clock)
    ensures Bounded(p.passed, q.wb, SecondMost(q))
  {
    ShortWindows(q, p.times, p.passed, clock);
    ShorterTiles(q);
    forall from ensures InWindow(p.passed, from, q.wb) <= SecondMost(q) {
      TiledWindow(p.passed, Shorter(q), Last(q), from, q.wb);
    }
  }

  lemma TiledWindow(times: seq<int>, h: int, c: int, from: int, length: int)
    requires h >= 0 && c >= 0 && length >= 0 && Bounded(times, h, c)
    ensures InWindow(times, from, length) <= c * (length / (h + 1) + 1)
  {
    var t, k := from + length + h + 1, length / (h + 1);
    Tile(times, h, c, from, t);
    assert t - h - 1 == from + length && t - from - (h + 1) == length;
    OneTileMore(c, t - from, h + 1);
    assert c * (k + 1) == c + c * k;
  }

  // ---------------------------------------------------------------- the bounds are met

  /** Some orderly run up to the clock leaves this list, with n writes passed between 0 and to. */
  ghost predicate Reaches(key: Key, a: Rule, b: Rule, times: seq<int>, clock: int, n: int, to: int) {
    exists writes :: Orderly(writes, clock) && Leaves(Run(key, a, b, writes), times, n, to)
  }

  predicate Leaves(p: Trace, times: seq<int>, n: int, to: int) {
    p.times == times && Between(p.passed, 0, to) == n
  }

  lemma PassOnce(key: Key, a: Rule, b: Rule, q: Pair, p: Trace, now: int, n: int, to: int)
    requires TwoActive(a, b) && q == PairOf(a, b) && 0 <= now <= to && Leaves(p, p.times, n, to)
    requires !Full(p.times, now, q.wa, q.a) && !Full(Recorded(p.times, now, q.wa, q.a), now, q.wb, q.b)
    ensures Leaves(Step(key, a, b, p, Attempt([], [], [], now)),
                   Kept(p.times, now - Shorter(q)) + [now, now], n + 1, to)
  {
    StepCases(key, a, b, p, Attempt([], [], [], now));
    BothRecord(q, p.times, now);
    BetweenSnoc(p.passed, now, 0, to);
  }

  lemma ReachPass(key: Key, a: Rule, b: Rule, q: Pair, times: seq<int>, clock: int, now: int, n: int, to: int)
    requires TwoActive(a, b) && q == PairOf(a, b) && Reaches(key, a, b, times, clock, n, to)
    requires clock <= now && 0 <= now <= to
    requires !Full(times, now, q.wa, q.a) && !Full(Recorded(times, now, q.wa, q.a), now, q.wb, q.b)
    ensures Reaches(key, a, b, Kept(times, now - Shorter(q)) + [now, now], now, n + 1, to)
  {
    var writes :| Orderly(writes, clock) && Leaves(Run(key, a, b, writes), times, n, to);
    OneMoreAttempt(key, a, b, writes, clock, now);
    PassOnce(key, a, b, q, Run(key, a, b, writes), now, n, to);
    assert Orderly(writes + [Attempt([], [], [], now)], now);
  }

  lemma OneMoreAttempt(key: Key, a: Rule, b: Rule, writes: seq<Attempt>, clock: int, now: int)
    requires Orderly(writes, clock) && clock <= now
    ensures Orderly(writes + [Attempt([], [], [], now)], now)
    ensures Run(key, a, b, writes + [Attempt([], [], [], now)])
         == Step(key, a, b, Run(key, a, b, writes), Attempt([], [], [], now))
  {
    assert (writes + [Attempt([], [], [], now)])[..|writes|] == writes;
  }

  /** One write more at the reading of the last one. */
  lemma PassAgain(q: Pair, t: int, n: nat)
    requires Proper(q) && 0 < n < Last(q)
    ensures !Full(Same(t, 2 * n), t, q.wa, q.a)
    ensures !Full(Recorded(Same(t, 2 * n), t, q.wa, q.a), t, q.wb, q.b)
    ensures Kept(Same(t, 2 * n), t - Shorter(q)) + [t, t] == Same(t, 2 * (n + 1))
  {
    RoomForOne(n, q.a, q.b);
    SameSucc(t, 2 * n);
    SameStays(t, 2 * n, t, q.wa, q.a);
    SameStays(t, 2 * n + 1, t, q.wb, q.b);
    SameKept(t, 2 * n, t - Shorter(q));
    assert Same(t, 2 * n) + [t, t] == Same(t, 2 * n + 2);
  }

  lemma RoomForOne(n: int, a: int, b: int)
    requires n < Min((a + 1) / 2, b / 2)
    ensures 2 * n < a && 2 * n + 1 < b
  {}

  /** A write at t that no longer meets the second limit's old entries, and fits the first limit. */
  lemma PassAnew(q: Pair, u: int, k: nat, t: int)
    requires Proper(q) && Last(q) > 0 && u < t - Shorter(q) && (u < t - q.wa || 2 * k < q.a)
    ensures !Full(Same(u, 2 * k), t, q.wa, q.a)
    ensures !Full(Recorded(Same(u, 2 * k), t, q.wa, q.a), t, q.wb, q.b)
    ensures Kept(Same(u, 2 * k), t - Shorter(q)) + [t, t] == Same(t, 2)
  {
    SameDropped(u, 2 * k, t - Shorter(q));
    assert [] + [t, t] == Same(t, 2);
    if u < t - q.wa {
      SameGone(u, 2 * k, t, q.wa, q.a);
      AloneFits([], t, q.wb, q.b);
    } else {
      SameStays(u, 2 * k, t, q.wa, q.a);
      SameDropped(u, 2 * k, t - q.wb);
      AloneFits(Same(u, 2 * k), t, q.wb, q.b);
    }
  }

  lemma AloneFits(kept: seq<int>, now: int, length: int, limit: int)
    requires length >= 0 && limit > 1 && Kept(kept, now - length) == []
    ensures !Full(kept + [now], now, length, limit)
  {
    KeptSnoc(kept, now, now - length);
  }

  lemma SameGone(u: int, n: nat, t: int, length: int, limit: int)
    requires u < t - length && limit > 0
    ensures !Full(Same(u, n), t, length, limit) && Recorded(Same(u, n), t, length, limit) == [] + [t]
  {
    SameDropped(u, n, t - length);
  }

  lemma SameStays(u: int, n: nat, t: int, length: int, limit: int)
    requires u >= t - length && n < limit
    ensures !Full(Same(u, n), t, length, limit) && Recorded(Same(u, n), t, length, limit) == Same(u, n) + [t]
  {
    SameKept(u, n, t - length);
  }

  /** m writes at t. */
  lemma {:induction false} GroupPasses(key: Key, a: Rule, b: Rule, q: Pair, u: int, k: nat, t: int, m: nat,
                                       n: int, to: int)
    requires TwoActive(a, b) && q == PairOf(a, b) && 0 < m <= Last(q) && 0 <= t <= to
    requires u < t - Shorter(q) && (u < t - q.wa || 2 * k < q.a)
    requires Reaches(key, a, b, Same(u, 2 * k), Max(u, 0), n, to)
    ensures Reaches(key, a, b, Same(t, 2 * m), t, n + m, to)
    decreases m
  {
    if m == 1 {
      PassAnew(q, u, k, t);
      ReachPass(key, a, b, q, Same(u, 2 * k), Max(u, 0), t, n, to);
    } else {
      GroupPasses(key, a, b, q, u, k, t, m - 1, n, to);
      PassAgain(q, t, m - 1);
      ReachPass(key, a, b, q, Same(t, 2 * (m - 1)), t, t, n + m - 1, to);
    }
  }

  lemma ReachNothing(key: Key, a: Rule, b: Rule, u: int, to: int)
    ensures Reaches(key, a, b, Same(u, 0), 0, 0, to)
  {
    assert Orderly([], 0) && Leaves(Run(key, a, b, []), Same(u, 0), 0, to);
  }

  /** j groups of m writes, as close as the shorter window lets the list forget, the last at t. */
  lemma {:induction false} GroupsPass(key: Key, a: Rule, b: Rule, q: Pair, gap: int, m: nat, j: nat, t: int,
                                      n: int, to: int)
    requires TwoActive(a, b) && q == PairOf(a, b) && 0 < m <= Last(q) && (q.wa < gap || 2 * m < q.a)
    requires gap == Shorter(q) + 1 && j > 0 && t == (j - 1) * gap && n == j * m && 0 <= t <= to
    ensures Reaches(key, a, b, Same(t, 2 * m), t, n, to)
    decreases j
  {
    if j == 1 {
      ReachNothing(key, a, b, -gap, to);
      GroupPasses(key, a, b, q, -gap, 0, 0, m, 0, to);
    } else {
      OneGroupLess(gap, j, m);
      GroupsPass(key, a, b, q, gap, m, j - 1, t - gap, n - m, to);
      GroupPasses(key, a, b, q, t - gap, m, t, m, n - m, to);
    }
  }

  lemma OneGroupLess(gap: int, j: int, m: int)
    requires gap > 0 && j > 1
    ensures (j - 1) * gap - gap == (j - 2) * gap >= 0 && j * m - m == (j - 1) * m
  {
    Scale(gap, 0, j - 2);
  }

  /** j groups of m writes, and then as many as can pass at once. */
  lemma GroupsAndLast(key: Key, a: Rule, b: Rule, q: Pair, gap: int, m: nat, j: nat, to: int)
    returns (writes: seq<Attempt>, clock: int)
    requires TwoActive(a, b) && q == PairOf(a, b) && m <= Last(q) && (q.wa < gap || 2 * m < q.a)
    requires gap == Shorter(q) + 1 && 0 <= j * gap <= to
    ensures Orderly(writes, clock) && Between(Run(key, a, b, writes).passed, 0, to) == m * j + Last(q)
  {
    if Last(q) == 0 {
      writes, clock := [], 0;
    } else if m == 0 || j == 0 {
      writes := OneGroup(key, a, b, q, to);
      clock := 0;
      assert m * j == 0;
    } else {
      clock := j * gap;
      writes := ManyGroups(key, a, b, q, gap, m, j, to);
      assert m * j == j * m;
    }
  }

  lemma OneGroup(key: Key, a: Rule, b: Rule, q: Pair, to: int) returns (writes: seq<Attempt>)
    requires TwoActive(a, b) && q == PairOf(a, b) && Last(q) > 0 && to >= 0
    ensures Orderly(writes, 0) && Between(Run(key, a, b, writes).passed, 0, to) == Last(q)
  {
    var u := -Shorter(q) - 1;
    ReachNothing(key, a, b, u, to);
    GroupPasses(key, a, b, q, u, 0, 0, Last(q), 0, to);
    writes :| Orderly(writes, 0) && Leaves(Run(key, a, b, writes), Same(0, 2 * Last(q)), 0 + Last(q), to);
  }

  lemma ManyGroups(key: Key, a: Rule, b: Rule, q: Pair, gap: int, m: nat, j: nat, to: int)
    returns (writes: seq<Attempt>)
    requires TwoActive(a, b) && q == PairOf(a, b) && 0 < m <= Last(q) && (q.wa < gap || 2 * m < q.a)
    requires gap == Shorter(q) + 1 && j > 0 && 0 <= j * gap <= to
    ensures Orderly(writes, j * gap) && Between(Run(key, a, b, writes).passed, 0, to) == j * m + Last(q)
  {
    var u, t := (j - 1) * gap, j * gap;
    assert t == u + gap;
    Scale(gap, 0, j - 1);
    GroupsPass(key, a, b, q, gap, m, j, u, j * m, to);
    GroupPasses(key, a, b, q, u, m, t, Last(q), j * m, to);
    writes :| Orderly(writes, t) && Leaves(Run(key, a, b, writes), Same(t, 2 * Last(q)), j * m + Last(q), to);
  }

  // ---------------------------------------------------------------- the exact bounds

  /** On every orderly run, no closed window of the length holds more than n passed writes. */
  ghost predicate AlwaysWithin(key: Key, a: Rule, b: Rule, length: int, n: int) {
    forall writes, clock :: Orderly(writes, clock) ==> Bounded(Run(key, a, b, writes).passed, length, n)
  }

  lemma Breaks(key: Key, a: Rule, b: Rule, length: int, n: int, writes: seq<Attempt>, clock: int)
    requires Orderly(writes, clock) && Between(Run(key, a, b, writes).passed, 0, length) > n
    ensures !AlwaysWithin(key, a, b, length, n)
  {
    assert InWindow(Run(key, a, b, writes).passed, 0, length) > n;
  }

  /** With two limits, the first one's windows hold at most n passed writes on every orderly run
      exactly when n is at least FirstMost. For n == a this decides whether the first limit keeps
      what it says. */
  lemma FirstLimitExactly(key: Key, a: Rule, b: Rule, n: int)
    requires TwoActive(a, b)
    ensures AlwaysWithin(key, a, b, Window(a), n) <==> FirstMost(PairOf(a, b)) <= n
  {
    var q := PairOf(a, b);
    if FirstMost(q) <= n {
      forall writes, clock | Orderly(writes, clock) ensures Bounded(Run(key, a, b, writes).passed, q.wa, n) {
        RunKeepsValid(key, a, b, q, writes, clock);
        BoundedByMore(Run(key, a, b, writes).passed, q.wa, FirstMost(q), n);
      }
    } else {
      var gap := Shorter(q) + 1;
      var j := q.wa / gap;
      Whole(q.wa, gap);
      var writes, clock := GroupsAndLast(key, a, b, q, gap, Continued(q), j, q.wa);
      ShorterTiles(q);
      Breaks(key, a, b, q.wa, n, writes, clock);
    }
  }

  /** The same for the second limit and SecondMost. */
  lemma SecondLimitExactly(key: Key, a: Rule, b: Rule, n: int)
    requires TwoActive(a, b)
    ensures AlwaysWithin(key, a, b, Window(b), n) <==> SecondMost(PairOf(a, b)) <= n
  {
    var q := PairOf(a, b);
    if SecondMost(q) <= n {
      forall writes, clock | Orderly(writes, clock) ensures Bounded(Run(key, a, b, writes).passed, q.wb, n) {
        RunKeepsValid(key, a, b, q, writes, clock);
        SecondIsBounded(q, Run(key, a, b, writes), clock);
        BoundedByMore(Run(key, a, b, writes).passed, q.wb, SecondMost(q), n);
      }
    } else {
      var gap := Shorter(q) + 1;
      var j := q.wb / gap;
      Whole(q.wb, gap);
      ShorterTiles(q);
      var m := if q.wa < gap then Last(q) else 0;
      if q.wb < gap {
        Quotient(q.wb, gap, 0);
      }
      assert Last(q) * (j + 1) == Last(q) * j + Last(q);
      var writes, clock := GroupsAndLast(key, a, b, q, gap, m, j, q.wb);
      Breaks(key, a, b, q.wb, n, writes, clock);
    }
  }

  lemma Whole(n: int, d: int)
    requires n >= 0 && d > 0
    ensures n / d >= 0 && n / d * d <= n
  {}

  lemma BoundedByMore(times: seq<int>, length: int, most: int, more: int)
    requires Bounded(times, length, most) && most <= more
    ensures Bounded(times, length, more)
  {
    forall from ensures InWindow(times, from, length) <= more {
      assert InWindow(times, from, length) <= most;
    }
  }

  // ---------------------------------------------------------------- two examples

  lemma OneRule(a: Rule, request: Request, times: seq<int>)
    ensures Denied([a], request, times) == Denies(a, request, times)
    ensures TrackedAll([a], request, times) == Tracked(a, request, times)
  {
    assert [a][1..] == [];
  }

  lemma TwoRules(a: Rule, b: Rule, request: Request, times: seq<int>)
    requires !Denies(a, request, times)
    ensures Denied([a, b], request, times) == Denies(b, request, Tracked(a, request, times))
    ensures TrackedAll([a, b], request, times) == Tracked(b, request, Tracked(a, request, times))
  {
    assert [a, b][1..] == [b];
    OneRule(b, request, Tracked(a, request, times));
  }

  lemma LongLimit(times: seq<int>, now: int)
    requires |times| <= 2 && forall t :: t in times ==> t >= now - Seconds(100)
    ensures !Full(times, now, Seconds(100), 3) && Recorded(times, now, Seconds(100), 3) == times + [now]
  {
    AllKept(times, now - Seconds(100));
  }

  lemma ShortLimit(times: seq<int>, now: int)
    requires forall t :: t in times ==> t < now - Seconds(1)
    ensures !Full(times + [now], now, Seconds(1), 10) && Recorded(times + [now], now, Seconds(1), 10) == [now, now]
  {
    NoneKept(times, now - Seconds(1));
    KeptSnoc(times, now, now - Seconds(1));
    assert [] + [now] == [now];
  }

  /** One write under a limit of three in 100 seconds and one of ten in a second, when the list holds
      the entries left by a write two seconds before. */
  lemma ErasingStep(key: Key, s: int, times: seq<int>)
    requires |times| <= 2 && forall t :: t in times ==> t == Seconds(s - 2)
    ensures var r := Request(Holder(key), true, Seconds(s));
            && !Denied([RateOfChange(3, 100), RateOfChange(10, 1)], r, times)
            && TrackedAll([RateOfChange(3, 100), RateOfChange(10, 1)], r, times) == [r.now, r.now]
  {
    LongLimit(times, Seconds(s));
    ShortLimit(times, Seconds(s));
    TwoRules(RateOfChange(3, 100), RateOfChange(10, 1), Request(Holder(key), true, Seconds(s)), times);
  }

  /** Two limits share one list per key, and the shorter window prunes what the longer one counts:
      of a limit of three writes in 100 seconds, writes at 0, 2, 4 and 6 seconds all pass. */
  lemma SecondLimitErasesTheFirst(key: Key)
    ensures var rules := [RateOfChange(3, 100), RateOfChange(10, 1)];
            var at := (s: int) => Request(Holder(key), true, Seconds(s));
            var t0 := TrackedAll(rules, at(0), []);
            var t2 := TrackedAll(rules, at(2), t0);
            var t4 := TrackedAll(rules, at(4), t2);
            && !Denied(rules, at(0), []) && !Denied(rules, at(2), t0)
            && !Denied(rules, at(4), t2) && !Denied(rules, at(6), t4)
  {
    ErasingStep(key, 0, []);
    ErasingStep(key, 2, [0, 0]);
    ErasingStep(key, 4, [Seconds(2), Seconds(2)]);
    ErasingStep(key, 6, [Seconds(4), Seconds(4)]);
  }

  lemma LimitOfTwo(r: Request)
    requires r == Request(r.caller, true, 0) && r.caller.Holder?
    ensures var a := RateOfChange(2, 100);
            && !Denies(a, r, []) && Tracked(a, r, []) == [0]
            && !Denies(a, r, [0]) && Denies(a, r, [0, 0])
  {
    var start := -Seconds(100);
    AllKept([], start);
    AllKept([0], start);
    AllKept([0, 0], start);
    assert [] + [0] == [0];
  }

  lemma LimitOfTen(r: Request)
    requires r == Request(r.caller, true, 0) && r.caller.Holder?
    ensures var b := RateOfChange(10, 100);
            !Denies(b, r, [0]) && Tracked(b, r, [0]) == [0, 0]
  {
    AllKept([0], -Seconds(100));
    assert [0] + [0] == [0, 0];
  }

  /** Each limit records the write for itself: a second limit, even a loose one, makes a limit of two
      refuse the second write at once, which it would grant alone. */
  lemma SecondLimitCountsTwice(key: Key)
    ensures var rules := [RateOfChange(2, 100), RateOfChange(10, 100)];
            var r := Request(Holder(key), true, 0);
            && !Denied(rules, r, []) && Denied(rules, r, TrackedAll(rules, r, []))
            && !Denies(rules[0], r, Tracked(rules[0], r, []))
  {
    var r := Request(Holder(key), true, 0);
    LimitOfTwo(r);
    LimitOfTen(r);
    TwoRules(RateOfChange(2, 100), RateOfChange(10, 100), r, []);
  }
}
