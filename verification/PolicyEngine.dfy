/** The evaluation of a list of policies for one request, in order, up to the first denial. */
module PolicyEngine {
  import opened Keys
  import opened Numbers
  import opened WriteTracker
  import W = WriteWindows

  /** Seconds in nanoseconds. */
  function Seconds(n: int): int {
    n * 1_000_000_000
  }

  /** A policy as it meets one request. Time and content policies are a plain verdict; policies that
      cannot be decoded, or of an unknown type, never deny. */
  datatype Rule = Fixed(denies: bool) | RateOfChange(maxWrites: int, windowSeconds: int)

  datatype Request = Request(caller: Caller, isWrite: bool, now: int)

  function Window(rule: Rule): int
    requires rule.RateOfChange?
  {
    Seconds(rule.windowSeconds)
  }

  /** The rule looks at the tracker for this request. */
  predicate Applies(rule: Rule, request: Request) {
    rule.RateOfChange? && request.isWrite && rule.maxWrites > 0 && rule.windowSeconds > 0 && request.caller.Holder?
  }

  predicate Denies(rule: Rule, request: Request, times: seq<int>) {
    if rule.Fixed? then rule.denies
    else Applies(rule, request) && W.Full(times, request.now, Window(rule), rule.maxWrites)
  }

  /** The recorded writes of the request's key after the rule. */
  function Tracked(rule: Rule, request: Request, times: seq<int>): seq<int> {
    if Applies(rule, request) then W.Recorded(times, request.now, Window(rule), rule.maxWrites) else times
  }

  predicate Denied(rules: seq<Rule>, request: Request, times: seq<int>) {
    rules != [] && (Denies(rules[0], request, times) || Denied(rules[1..], request, Tracked(rules[0], request, times)))
  }

  function TrackedAll(rules: seq<Rule>, request: Request, times: seq<int>): seq<int> {
    if rules == [] then times
    else if Denies(rules[0], request, times) then Tracked(rules[0], request, times)
    else TrackedAll(rules[1..], request, Tracked(rules[0], request, times))
  }

  /** Evaluates the rules for the request against the tracker. */
  method Evaluate(tracker: Tracker, rules: seq<Rule>, request: Request) returns (denied: bool)
    requires tracker.Valid()
    modifies tracker, tracker.Arrays()
    ensures tracker.Valid() && fresh(tracker.Arrays() - old(tracker.Arrays()))
    ensures request.caller.Holder? ==>
              && denied == Denied(rules, request, old(tracker.Times(request.caller.key)))
              && tracker.Times(request.caller.key) == TrackedAll(rules, request, old(tracker.Times(request.caller.key)))
    ensures request.caller.Anonymous? ==> denied == Denied(rules, request, [])
    ensures forall k :: request.caller != Holder(k) ==> tracker.Times(k) == old(tracker.Times(k))
  {
    ghost var before := if request.caller.Holder? then tracker.Times(request.caller.key) else [];
    ghost var times := before;
    for i := 0 to |rules|
      invariant tracker.Valid() && fresh(tracker.Arrays() - old(tracker.Arrays()))
      invariant request.caller.Holder? ==> tracker.Times(request.caller.key) == times
      invariant forall k :: request.caller != Holder(k) ==> tracker.Times(k) == old(tracker.Times(k))
      invariant Denied(rules, request, before) == Denied(rules[i..], request, times)
      invariant TrackedAll(rules, request, before) == TrackedAll(rules[i..], request, times)
      invariant request.caller.Anonymous? ==> times == []
    {
      var rule := rules[i];
      assert rules[i..][0] == rule && rules[i..][1..] == rules[i + 1..];
      denied := EvaluateRule(tracker, rule, request);
      times := Tracked(rule, request, times);
      if denied {
        return;
      }
    }
    denied := false;
  }

  /** One policy. */
  method EvaluateRule(tracker: Tracker, rule: Rule, request: Request) returns (denied: bool)
    requires tracker.Valid()
    modifies tracker, tracker.Arrays()
    ensures tracker.Valid() && fresh(tracker.Arrays() - old(tracker.Arrays()))
    ensures request.caller.Holder? ==>
              && denied == Denies(rule, request, old(tracker.Times(request.caller.key)))
              && tracker.Times(request.caller.key) == Tracked(rule, request, old(tracker.Times(request.caller.key)))
    ensures request.caller.Anonymous? ==> denied == Denies(rule, request, [])
    ensures forall k :: request.caller != Holder(k) ==> tracker.Times(k) == old(tracker.Times(k))
  {
    if rule.Fixed? {
      return rule.denies;
    }
    denied := EvaluateRateOfChange(tracker, rule, request);
  }

  lemma InSeconds(rule: Rule, request: Request, times: seq<int>)
    requires Applies(rule, request)
    ensures var kept := Kept(times, request.now - rule.windowSeconds * 1_000_000_000);
            && Denies(rule, request, times) == (|kept| >= rule.maxWrites)
            && Tracked(rule, request, times) == if |kept| >= rule.maxWrites then kept else kept + [request.now]
  {}

  /** Counts the writes of the window and, below the limit, records this one. */
  method EvaluateRateOfChange(tracker: Tracker, rule: Rule, request: Request) returns (denied: bool)
    requires tracker.Valid() && rule.RateOfChange?
    modifies tracker, tracker.Arrays()
    ensures tracker.Valid() && fresh(tracker.Arrays() - old(tracker.Arrays()))
    ensures request.caller.Holder? ==>
              && denied == Denies(rule, request, old(tracker.Times(request.caller.key)))
              && tracker.Times(request.caller.key) == Tracked(rule, request, old(tracker.Times(request.caller.key)))
    ensures request.caller.Anonymous? ==> denied == Denies(rule, request, [])
    ensures request.caller.Holder? ==>
              (denied <==> request.isWrite && rule.maxWrites > 0 && rule.windowSeconds > 0
                           && |Kept(old(tracker.Times(request.caller.key)),
                                    request.now - rule.windowSeconds * 1_000_000_000)| >= rule.maxWrites)
    ensures forall k :: request.caller != Holder(k) ==> tracker.Times(k) == old(tracker.Times(k))
  {
    if !request.isWrite || rule.maxWrites <= 0 || rule.windowSeconds <= 0 || request.caller.Anonymous? {
      return false;
    }
    var key := request.caller.key;
    InSeconds(rule, request, tracker.Times(key));
    var count := tracker.CountInWindow(key, request.now - Window(rule));
    if count >= rule.maxWrites {
      return true;
    }
    tracker.Record(key, request.now);
    denied := false;
  }

  // ---------------------------------------------------------------- lists with one write limit

  predicate AllFixed(rules: seq<Rule>) {
    forall r :: r in rules ==> r.Fixed?
  }

  /** Write limits concern the writes of key holders only, and only when both their numbers are
      positive: otherwise the other policies decide alone and nothing is recorded. */
  lemma {:induction false} LimitsConcernWritesOnly(rules: seq<Rule>, request: Request, times: seq<int>)
    requires !request.isWrite || request.caller.Anonymous?
             || forall r :: r in rules && r.RateOfChange? ==> r.maxWrites <= 0 || r.windowSeconds <= 0
    ensures Denied(rules, request, times) == (Fixed(true) in rules)
    ensures TrackedAll(rules, request, times) == times
    decreases |rules|
  {
    if rules != [] {
      assert forall r :: r in rules <==> r == rules[0] || r in rules[1..];
      LimitsConcernWritesOnly(rules[1..], request, times);
    }
  }

  /** Plain verdicts at the head of a list. */
  lemma {:induction false} FixedFirst(fixed: seq<Rule>, rest: seq<Rule>, request: Request, times: seq<int>)
    requires AllFixed(fixed)
    ensures Denied(fixed + rest, request, times) == (Fixed(true) in fixed || Denied(rest, request, times))
    ensures TrackedAll(fixed + rest, request, times)
         == if Fixed(true) in fixed then times else TrackedAll(rest, request, times)
    decreases |fixed|
  {
    if fixed == [] {
      assert fixed + rest == rest;
    } else {
      var rules := fixed + rest;
      assert rules[0] == fixed[0] && rules[1..] == fixed[1..] + rest;
      assert forall r :: r in fixed <==> r == fixed[0] || r in fixed[1..];
      FixedFirst(fixed[1..], rest, request, times);
    }
  }

  /** A list with a single write limit: the rules before it decide whether it is consulted, those
      after it can still deny a request whose write it has already recorded. */
  lemma OneLimit(before: seq<Rule>, limit: Rule, after: seq<Rule>, request: Request, times: seq<int>)
    requires AllFixed(before) && AllFixed(after) && limit.RateOfChange?
    ensures var rules := before + ([limit] + after);
            && Denied(rules, request, times)
               == (Fixed(true) in before || Denies(limit, request, times) || Fixed(true) in after)
            && TrackedAll(rules, request, times)
               == if Fixed(true) in before then times else Tracked(limit, request, times)
  {
    FixedFirst(before, [limit] + after, request, times);
    assert ([limit] + after)[1..] == after;
    LimitsConcernWritesOnly(after, request, Tracked(limit, request, times));
  }

  /** One write request of a key: the verdicts of the other policies before and after the limit. */
  datatype Write = Write(before: seq<Rule>, after: seq<Rule>, now: int)

  /** The key's tracker list, the readings of the writes that reached the limit, of those that it did
      not deny, and of those that passed all policies. */
  datatype Progress = Progress(times: seq<int>, reached: seq<int>, granted: seq<int>, passed: seq<int>)

  function Step(key: Key, limit: Rule, p: Progress, w: Write): Progress {
    var rules := w.before + ([limit] + w.after);
    var request := Request(Holder(key), true, w.now);
    Progress(
      TrackedAll(rules, request, p.times),
      if Fixed(true) in w.before then p.reached else p.reached + [w.now],
      if Denied(w.before + [limit], request, p.times) then p.granted else p.granted + [w.now],
      if Denied(rules, request, p.times) then p.passed else p.passed + [w.now])
  }

  function Run(key: Key, limit: Rule, p: Progress, writes: seq<Write>): Progress
    decreases |writes|
  {
    if writes == [] then p else Run(key, limit, Step(key, limit, p, writes[0]), writes[1..])
  }

  /** The other policies are verdicts, and the readings do not go back. */
  predicate Orderly(writes: seq<Write>, now: int) {
    writes == [] ||
    (AllFixed(writes[0].before) && AllFixed(writes[0].after)
     && now <= writes[0].now && Orderly(writes[1..], writes[0].now))
  }

  /** Wherever one looks, a has no more times than b. */
  ghost predicate Within(a: seq<int>, b: seq<int>) {
    forall from, to :: W.Between(a, from, to) <= W.Between(b, from, to)
  }

  lemma WithinSnoc(a: seq<int>, b: seq<int>, t: int)
    requires Within(a, b)
    ensures Within(a, b + [t]) && Within(a + [t], b + [t])
  {
    forall from, to
      ensures W.Between(a, from, to) <= W.Between(b + [t], from, to)
      ensures W.Between(a + [t], from, to) <= W.Between(b + [t], from, to)
    {
      assert W.Between(a, from, to) <= W.Between(b, from, to);
      W.BetweenSnoc(a, t, from, to);
      W.BetweenSnoc(b, t, from, to);
    }
  }

  predicate Active(limit: Rule) {
    limit.RateOfChange? && limit.maxWrites > 0 && limit.windowSeconds > 0
  }

  /** The engine's tracker, and what the limit lets through, are those of the limit alone on the writes
      that reach it. */
  ghost predicate TracksLimit(length: int, most: int, p: Progress, now: int) {
    && Sorted(p.reached) && EndsBy(p.reached, now)
    && p.times == W.Stored(p.reached, length, most)
    && p.granted == W.Granted(p.reached, length, most)
  }

  /** Every write that passes all policies was let through by the limit. */
  ghost predicate TracksPassed(p: Progress, now: int) {
    Sorted(p.passed) && EndsBy(p.passed, now) && Within(p.passed, p.granted)
  }

  ghost predicate Tracks(length: int, most: int, p: Progress, now: int) {
    TracksLimit(length, most, p, now) && TracksPassed(p, now)
  }

  /** One write, by what the policies before, the limit, and those after say. */
  lemma StepShape(key: Key, limit: Rule, p: Progress, w: Write)
    requires Active(limit) && AllFixed(w.before) && AllFixed(w.after)
    ensures var full := W.Full(p.times, w.now, Window(limit), limit.maxWrites);
            Step(key, limit, p, w) ==
            if Fixed(true) in w.before then p
            else Progress(W.Recorded(p.times, w.now, Window(limit), limit.maxWrites), p.reached + [w.now],
                          if full then p.granted else p.granted + [w.now],
                          if full || Fixed(true) in w.after then p.passed else p.passed + [w.now])
  {
    var request := Request(Holder(key), true, w.now);
    OneLimit(w.before, limit, w.after, request, p.times);
    UpToLimit(w.before, limit, request, p.times);
  }

  lemma StepKeepsLimit(key: Key, limit: Rule, length: int, most: int, p: Progress, w: Write, now: int)
    requires Active(limit) && length == Window(limit) && most == limit.maxWrites
    requires TracksLimit(length, most, p, now) && now <= w.now && AllFixed(w.before) && AllFixed(w.after)
    ensures TracksLimit(length, most, Step(key, limit, p, w), w.now)
  {
    StepShape(key, limit, p, w);
    if Fixed(true) !in w.before {
      W.DecideNext(p.reached, length, most, w.now);
      SortedSnoc(p.reached, w.now);
    }
  }

  lemma StepKeepsPassed(key: Key, limit: Rule, p: Progress, w: Write, now: int)
    requires Active(limit) && AllFixed(w.before) && AllFixed(w.after)
    requires TracksPassed(p, now) && now <= w.now
    ensures TracksPassed(Step(key, limit, p, w), w.now)
  {
    StepShape(key, limit, p, w);
    SortedSnoc(p.passed, w.now);
    WithinSnoc(p.passed, p.granted, w.now);
  }

  lemma UpToLimit(before: seq<Rule>, limit: Rule, request: Request, times: seq<int>)
    requires AllFixed(before) && limit.RateOfChange?
    ensures Denied(before + [limit], request, times) == (Fixed(true) in before || Denies(limit, request, times))
  {
    OneLimit(before, limit, [], request, times);
    assert [limit] + [] == [limit];
  }

  lemma TracksLater(length: int, most: int, p: Progress, now: int, later: int)
    requires Tracks(length, most, p, now) && now <= later
    ensures Tracks(length, most, p, later)
  {}

  /** A run, seen at the next write. */
  lemma {:induction false} RunKeepsTracks(key: Key, limit: Rule, length: int, most: int, p: Progress,
                                          writes: seq<Write>, next: Write, now: int)
    requires Active(limit) && length == Window(limit) && most == limit.maxWrites
    requires Tracks(length, most, p, now) && Orderly(writes + [next], now)
    ensures Tracks(length, most, Run(key, limit, p, writes), next.now)
    ensures AllFixed(next.before) && AllFixed(next.after)
    decreases |writes|
  {
    var all := writes + [next];
    if writes == [] {
      assert all[0] == next;
      TracksLater(length, most, p, now, next.now);
    } else {
      assert all[0] == writes[0] && all[1..] == writes[1..] + [next];
      StepKeepsLimit(key, limit, length, most, p, writes[0], now);
      StepKeepsPassed(key, limit, p, writes[0], now);
      RunKeepsTracks(key, limit, length, most, Step(key, limit, p, writes[0]), writes[1..], next, writes[0].now);
    }
  }

  /** The key's progress after a run from nothing. */
  function After(key: Key, limit: Rule, writes: seq<Write>): Progress {
    Run(key, limit, Progress([], [], [], []), writes)
  }

  /** With one write limit of most writes in a number of seconds: a write that no earlier policy denies
      is denied by the limit exactly when the most-th last write that the limit let through is at most
      that many seconds old, and passes unless a later policy denies it. */
  lemma LimitInSeconds(key: Key, most: int, seconds: int, writes: seq<Write>, w: Write, now: int)
    requires most > 0 && seconds > 0 && Orderly(writes + [w], now)
    ensures var limit, request := RateOfChange(most, seconds), Request(Holder(key), true, w.now);
            var p := After(key, limit, writes);
            var full := |p.granted| >= most && w.now - p.granted[|p.granted| - most] <= seconds * 1_000_000_000;
            && (Denied(w.before + [limit], request, p.times) <==> Fixed(true) in w.before || full)
            && (Denied(w.before + ([limit] + w.after), request, p.times)
                <==> Fixed(true) in w.before || full || Fixed(true) in w.after)
  {
    var limit := RateOfChange(most, seconds);
    var p, start := After(key, limit, writes), Progress([], [], [], []);
    RunKeepsTracks(key, limit, Window(limit), most, start, writes, w, now);
    DenialOfProgress(p, Window(limit), most, w.now);
    AtLimit(key, limit, p.times, w, W.Lately(p.granted, most, w.now - Window(limit)));
  }

  lemma DenialOfProgress(p: Progress, length: int, most: int, now: int)
    requires TracksLimit(length, most, p, now) && most > 0
    ensures W.Full(p.times, now, length, most) <==> W.Lately(p.granted, most, now - length)
  {
    W.DenialIsRecent(p.reached, length, most, now);
  }

  lemma AtLimit(key: Key, limit: Rule, times: seq<int>, w: Write, full: bool)
    requires Active(limit) && AllFixed(w.before) && AllFixed(w.after)
    requires full == W.Full(times, w.now, Window(limit), limit.maxWrites)
    ensures var request := Request(Holder(key), true, w.now);
            && Denied(w.before + [limit], request, times) == (Fixed(true) in w.before || full)
            && Denied(w.before + ([limit] + w.after), request, times)
               == (Fixed(true) in w.before || full || Fixed(true) in w.after)
  {
    var request := Request(Holder(key), true, w.now);
    OneLimit(w.before, limit, w.after, request, times);
    UpToLimit(w.before, limit, request, times);
  }

  /** An orderly run can go on. */
  lemma {:induction false} OneMoreWrite(writes: seq<Write>, now: int) returns (w: Write)
    requires Orderly(writes, now)
    ensures Orderly(writes + [w], now)
    decreases |writes|
  {
    if writes == [] {
      w := Write([], [], now);
      assert (writes + [w])[0] == w && (writes + [w])[1..] == [];
    } else {
      w := OneMoreWrite(writes[1..], writes[0].now);
      assert (writes + [w])[0] == writes[0] && (writes + [w])[1..] == writes[1..] + [w];
    }
  }

  /** Any most + 1 consecutive writes of those that pass all policies are more than that many seconds
      apart, whatever the other policies say. */
  lemma PassedWritesAreSpread(key: Key, most: int, seconds: int, writes: seq<Write>, now: int, i: nat)
    requires most > 0 && seconds > 0 && Orderly(writes, now)
    ensures var passed := After(key, RateOfChange(most, seconds), writes).passed;
            i + most < |passed| ==> passed[i + most] - passed[i] > seconds * 1_000_000_000
  {
    var limit := RateOfChange(most, seconds);
    var p := After(key, limit, writes);
    var w := OneMoreWrite(writes, now);
    RunKeepsTracks(key, limit, Window(limit), most, Progress([], [], [], []), writes, w, now);
    TracksBounds(Window(limit), most, p, w.now);
    if i + most < |p.passed| {
      W.SpreadOut(p.passed, Window(limit), most, i);
    }
  }

  /** The same for any window: it holds at most most passed writes, and the tracker never holds more. */
  lemma PassedWritesAreBounded(key: Key, most: int, seconds: int, writes: seq<Write>, now: int)
    requires most > 0 && seconds > 0 && Orderly(writes, now)
    ensures var p := After(key, RateOfChange(most, seconds), writes);
            && (forall from :: W.InWindow(p.passed, from, seconds * 1_000_000_000) <= most)
            && |p.times| <= most
  {
    var limit := RateOfChange(most, seconds);
    var w := OneMoreWrite(writes, now);
    RunKeepsTracks(key, limit, Window(limit), most, Progress([], [], [], []), writes, w, now);
    TracksBounds(Window(limit), most, After(key, limit, writes), w.now);
    assert Window(limit) == seconds * 1_000_000_000;
  }

  lemma TracksBounds(length: int, most: int, p: Progress, now: int)
    requires Tracks(length, most, p, now) && most > 0
    ensures W.Bounded(p.passed, length, most) && |p.times| <= most
  {
    W.GrantedIsBounded(p.reached, length, most);
    W.StoredIsSmall(p.reached, length, most);
    var granted := W.Granted(p.reached, length, most);
    forall from ensures W.InWindow(p.passed, from, length) <= most {
      assert W.InWindow(granted, from, length) <= most;
      assert W.Between(p.passed, from, from + length) <= W.Between(granted, from, from + length);
    }
  }
}
