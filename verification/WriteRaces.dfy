/**
 * Concurrent requests of one key under one write limit. A request reads the clock, later counts the
 * recorded writes of its window and, when it is granted, later records its reading. Other requests
 * may come between these steps, so counts need not happen in the order of the readings.
 */
module WriteRaces {
  import opened Numbers
  import opened WriteTracker
  import opened WriteWindows

  /** waiting: readings of requests that have not counted yet; pending: readings of granted requests
      that have not recorded yet; last: the reading of the latest count. */
  datatype State = State(
    clock: int,
    stored: seq<int>,
    waiting: seq<int>,
    pending: seq<int>,
    granted: seq<int>,
    last: int)

  datatype Event = ReadClock(now: int) | Count(i: nat) | Record(i: nat)

  /** How requests of the key overlap. AnyOrder: at most so many at once between their reading and
      their record. InOrder: at most so many at once between their count and their record, and counts
      in the order of the readings. */
  datatype Overlap = AnyOrder(together: nat) | InOrder(together: nat)

  predicate Enabled(s: State, e: Event, o: Overlap) {
    match e
    case ReadClock(now) => s.clock <= now && (o.AnyOrder? ==> |s.waiting| + |s.pending| < o.together)
    case Count(i) => i < |s.waiting| && (o.InOrder? ==> |s.pending| < o.together && s.last <= s.waiting[i])
    case Record(i) => i < |s.pending|
  }

  function Without(times: seq<int>, i: nat): seq<int>
    requires i < |times|
  {
    times[..i] + times[i + 1..]
  }

  function Next(s: State, e: Event, o: Overlap, length: int, limit: int): State
    requires Enabled(s, e, o)
  {
    match e
    case ReadClock(now) => s.(clock := now, waiting := s.waiting + [now])
    case Count(i) =>
      var now := s.waiting[i];
      var counted := s.(stored := Kept(s.stored, now - length), waiting := Without(s.waiting, i), last := now);
      if Full(s.stored, now, length, limit) then counted
      else counted.(pending := s.pending + [now], granted := s.granted + [now])
    case Record(i) => s.(stored := s.stored + [s.pending[i]], pending := Without(s.pending, i))
  }

  predicate CanRun(s: State, es: seq<Event>, o: Overlap, length: int, limit: int)
    decreases |es|
  {
    es == [] || (Enabled(s, es[0], o) && CanRun(Next(s, es[0], o, length, limit), es[1..], o, length, limit))
  }

  function EndOf(s: State, es: seq<Event>, o: Overlap, length: int, limit: int): State
    requires CanRun(s, es, o, length, limit)
    decreases |es|
  {
    if es == [] then s else EndOf(Next(s, es[0], o, length, limit), es[1..], o, length, limit)
  }

  function Start(now: int): State {
    State(now, [], [], [], [], now)
  }

  // ---------------------------------------------------------------- one request more or less

  lemma WithoutSnoc(times: seq<int>, t: int, i: nat)
    requires i < |times|
    ensures Without(times + [t], i) == Without(times, i) + [t]
  {}

  lemma {:induction false} BetweenWithout(times: seq<int>, i: nat, from: int, to: int)
    requires i < |times|
    ensures Between(times, from, to)
         == Between(Without(times, i), from, to) + if from <= times[i] <= to then 1 else 0
  {
    var before, t := times[..|times| - 1], times[|times| - 1];
    assert times == before + [t];
    BetweenSnoc(before, t, from, to);
    if i == |before| {
      assert Without(times, i) == before;
    } else {
      BetweenWithout(before, i, from, to);
      WithoutSnoc(before, t, i);
      BetweenSnoc(Without(before, i), t, from, to);
    }
  }

  lemma {:induction false} KeptWithout(times: seq<int>, i: nat, start: int)
    requires i < |times|
    ensures |Kept(times, start)| == |Kept(Without(times, i), start)| + if times[i] >= start then 1 else 0
  {
    var before, t := times[..|times| - 1], times[|times| - 1];
    assert times == before + [t];
    KeptSnoc(before, t, start);
    if i == |before| {
      assert Without(times, i) == before;
    } else {
      KeptWithout(before, i, start);
      WithoutSnoc(before, t, i);
      KeptSnoc(Without(before, i), t, start);
    }
  }

  lemma {:induction false} BetweenIsFew(times: seq<int>, from: int, to: int)
    ensures Between(times, from, to) <= |times|
  {
    if times != [] {
      BetweenIsFew(times[..|times| - 1], from, to);
    }
  }

  lemma KeptFewer(times: seq<int>, start: int, later: int)
    requires start <= later
    ensures |Kept(times, later)| <= |Kept(times, start)|
  {
    KeptTwice(times, start, later);
    KeptShrinks(Kept(times, start), later);
  }

  lemma {:induction false} UpToWithout(times: seq<int>, i: nat, now: int)
    requires i < |times| && UpTo(times, now)
    ensures UpTo(Without(times, i), now) && times[i] <= now
  {
    var n := |times| - 1;
    if i == n {
      assert Without(times, i) == times[..n];
    } else {
      UpToWithout(times[..n], i, now);
      assert Without(times, i) == Without(times[..n], i) + [times[n]];
      UpToSnoc(Without(times[..n], i), times[n], now);
    }
  }

  // ---------------------------------------------------------------- one window

  /** A closed window from..to, and the length and limit of the policy. */
  datatype Frame = Frame(from: int, to: int, length: int, limit: int)

  ghost predicate Fits(w: Frame) {
    w.to == w.from + w.length && w.limit > 0
  }

  function Inside(times: seq<int>, w: Frame): nat {
    Between(times, w.from, w.to)
  }

  /** What the granted writes of a window can exceed the limit by. */
  function Excess(o: Overlap): int {
    if o.AnyOrder? then 2 * (o.together - 1) else o.together - 1
  }

  /** Before the first count that starts after the window: nothing of the window has been pruned. */
  ghost predicate Early(s: State, o: Overlap, w: Frame) {
    && Inside(s.granted, w) == |Kept(s.stored, w.from)| + |Kept(s.pending, w.from)|
    && Inside(s.granted, w) <= w.limit + o.together - 1
  }

  /** After it: the window can only get the requests that still wait, and gets none in order. */
  ghost predicate Late(s: State, o: Overlap, w: Frame) {
    if o.AnyOrder? then
      s.clock > w.to && Inside(s.granted, w) + Inside(s.waiting, w) <= w.limit + Excess(o)
    else
      s.last > w.to && Inside(s.granted, w) <= w.limit + Excess(o)
  }

  ghost predicate Valid(s: State, o: Overlap, w: Frame) {
    && UpTo(s.waiting, s.clock)
    && |s.pending| <= o.together && (o.AnyOrder? ==> |s.waiting| + |s.pending| <= o.together)
    && (Early(s, o, w) || Late(s, o, w))
  }

  lemma ReadKeepsValid(s: State, now: int, o: Overlap, w: Frame)
    requires Valid(s, o, w) && Enabled(s, ReadClock(now), o)
    ensures Valid(Next(s, ReadClock(now), o, w.length, w.limit), o, w)
  {
    UpToLater(s.waiting, s.clock, now);
    UpToSnoc(s.waiting, now, now);
    BetweenSnoc(s.waiting, now, w.from, w.to);
  }

  lemma RecordKeepsValid(s: State, i: nat, o: Overlap, w: Frame)
    requires Valid(s, o, w) && Enabled(s, Record(i), o)
    ensures Valid(Next(s, Record(i), o, w.length, w.limit), o, w)
  {
    KeptWithout(s.pending, i, w.from);
    KeptSnoc(s.stored, s.pending[i], w.from);
  }

  /** A count of a request whose own window starts inside or before the frame. */
  lemma EarlyCount(s: State, i: nat, o: Overlap, w: Frame)
    requires Fits(w) && Valid(s, o, w) && Enabled(s, Count(i), o)
    requires Early(s, o, w) && s.waiting[i] <= w.to
    ensures Early(Next(s, Count(i), o, w.length, w.limit), o, w)
  {
    var now := s.waiting[i];
    KeptTwice(s.stored, now - w.length, w.from);
    KeptFewer(s.stored, now - w.length, w.from);
    KeptShrinks(s.pending, w.from);
    if !Full(s.stored, now, w.length, w.limit) {
      GrantInside(s, now, w);
    }
  }

  lemma GrantInside(s: State, now: int, w: Frame)
    requires now <= w.to
    ensures var one := if now >= w.from then 1 else 0;
            Inside(s.granted + [now], w) == Inside(s.granted, w) + one
            && |Kept(s.pending + [now], w.from)| == |Kept(s.pending, w.from)| + one
  {
    BetweenSnoc(s.granted, now, w.from, w.to);
    KeptSnoc(s.pending, now, w.from);
  }

  /** The first count that starts after the frame: whatever still waits was in flight with it. */
  lemma FirstLateCount(s: State, i: nat, o: Overlap, w: Frame)
    requires Fits(w) && Valid(s, o, w) && Enabled(s, Count(i), o)
    requires Early(s, o, w) && s.waiting[i] > w.to
    ensures Late(Next(s, Count(i), o, w.length, w.limit), o, w)
  {
    UpToWithout(s.waiting, i, s.clock);
    BetweenIsFew(Without(s.waiting, i), w.from, w.to);
    BetweenSnoc(s.granted, s.waiting[i], w.from, w.to);
  }

  lemma LateCount(s: State, i: nat, o: Overlap, w: Frame)
    requires Valid(s, o, w) && Enabled(s, Count(i), o) && Late(s, o, w)
    ensures Late(Next(s, Count(i), o, w.length, w.limit), o, w)
  {
    BetweenWithout(s.waiting, i, w.from, w.to);
    BetweenSnoc(s.granted, s.waiting[i], w.from, w.to);
  }

  lemma CountKeepsValid(s: State, i: nat, o: Overlap, w: Frame)
    requires Fits(w) && Valid(s, o, w) && Enabled(s, Count(i), o)
    ensures Valid(Next(s, Count(i), o, w.length, w.limit), o, w)
  {
    UpToWithout(s.waiting, i, s.clock);
    if Late(s, o, w) {
      LateCount(s, i, o, w);
    } else if s.waiting[i] <= w.to {
      EarlyCount(s, i, o, w);
    } else {
      FirstLateCount(s, i, o, w);
    }
  }

  lemma {:induction false} RunKeepsValid(s: State, es: seq<Event>, o: Overlap, w: Frame)
    requires Fits(w) && Valid(s, o, w) && CanRun(s, es, o, w.length, w.limit)
    ensures Valid(EndOf(s, es, o, w.length, w.limit), o, w)
    decreases |es|
  {
    if es != [] {
      match es[0] {
        case ReadClock(now) => ReadKeepsValid(s, now, o, w);
        case Count(i) => CountKeepsValid(s, i, o, w);
        case Record(i) => RecordKeepsValid(s, i, o, w);
      }
      RunKeepsValid(Next(s, es[0], o, w.length, w.limit), es[1..], o, w);
    }
  }

  /** However the requests interleave: with at most N of them at once between reading and record, no
      closed window of the policy's length holds more than limit + 2 * (N - 1) granted writes. When
      counts come in the order of the readings, with at most N requests at once between count and
      record, it holds no more than limit + N - 1. */
  lemma InterleavedBound(es: seq<Event>, now: int, o: Overlap, length: int, limit: int)
    requires limit > 0 && o.together > 0
    requires CanRun(Start(now), es, o, length, limit)
    ensures Bounded(EndOf(Start(now), es, o, length, limit).granted, length, limit + Excess(o))
  {
    forall from
      ensures InWindow(EndOf(Start(now), es, o, length, limit).granted, from, length) <= limit + Excess(o)
    {
      RunKeepsValid(Start(now), es, o, Frame(from, from + length, length, limit));
    }
  }

  // ---------------------------------------------------------------- one request at a time

  /** The atomic requests at these readings have led here, up to a record that is still to come. */
  ghost predicate Follows(s: State, nows: seq<int>, length: int, limit: int) {
    && Sorted(nows) && EndsBy(nows, s.clock) && |s.waiting| + |s.pending| <= 1
    && (s.waiting != [] ==> EndsBy(nows, s.waiting[0]) && s.waiting[0] <= s.clock)
    && s.stored + s.pending == Stored(nows, length, limit)
    && s.granted == Granted(nows, length, limit)
  }

  lemma CountFollows(s: State, i: nat, nows: seq<int>, length: int, limit: int)
    requires Follows(s, nows, length, limit) && i < |s.waiting|
    ensures Follows(Next(s, Count(i), AnyOrder(1), length, limit), nows + [s.waiting[0]], length, limit)
  {
    var now := s.waiting[0];
    var s' := Next(s, Count(i), AnyOrder(1), length, limit);
    assert i == 0 && s'.waiting == [] && s.pending == [] && s.stored + [] == s.stored;
    CountIsRecorded(s, i, AnyOrder(1), length, limit);
    SortedSnoc(nows, now);
    DecideNext(nows, length, limit, now);
  }

  /** What a count leaves, recorded and pending together, is what the atomic request records. */
  lemma CountIsRecorded(s: State, i: nat, o: Overlap, length: int, limit: int)
    requires Enabled(s, Count(i), o) && s.pending == []
    ensures var s' := Next(s, Count(i), o, length, limit);
            && s'.stored + s'.pending == Recorded(s.stored, s.waiting[i], length, limit)
            && s'.granted
               == if Full(s.stored, s.waiting[i], length, limit) then s.granted else s.granted + [s.waiting[i]]
  {
    var kept := Kept(s.stored, s.waiting[i] - length);
    assert kept + [] == kept;
  }

  lemma NextFollows(s: State, e: Event, nows: seq<int>, length: int, limit: int) returns (nows': seq<int>)
    requires Follows(s, nows, length, limit) && Enabled(s, e, AnyOrder(1))
    ensures Follows(Next(s, e, AnyOrder(1), length, limit), nows', length, limit)
  {
    nows' := nows;
    if e.Count? {
      nows' := nows + [s.waiting[0]];
      CountFollows(s, e.i, nows, length, limit);
    } else if e.Record? {
      assert s.pending == [s.pending[0]] && Without(s.pending, 0) == [];
      assert s.stored + s.pending + [] == s.stored + s.pending;
    }
  }

  lemma {:induction false} RunFollows(s: State, es: seq<Event>, nows: seq<int>, length: int, limit: int)
    returns (nows': seq<int>)
    requires Follows(s, nows, length, limit) && CanRun(s, es, AnyOrder(1), length, limit)
    ensures Follows(EndOf(s, es, AnyOrder(1), length, limit), nows', length, limit)
    decreases |es|
  {
    nows' := nows;
    if es != [] {
      nows' := NextFollows(s, es[0], nows, length, limit);
      nows' := RunFollows(Next(s, es[0], AnyOrder(1), length, limit), es[1..], nows', length, limit);
    }
  }

  /** When requests of the key never overlap, the steps refine the atomic requests: every run has the
      grants and, between requests, the tracker list of atomic requests at ordered readings. */
  lemma OneAtATimeIsAtomic(es: seq<Event>, now: int, length: int, limit: int) returns (nows: seq<int>)
    requires CanRun(Start(now), es, AnyOrder(1), length, limit)
    ensures var s := EndOf(Start(now), es, AnyOrder(1), length, limit);
            && Sorted(nows) && s.granted == Granted(nows, length, limit)
            && (s.pending == [] ==> s.stored == Stored(nows, length, limit))
  {
    nows := RunFollows(Start(now), es, [], length, limit);
    var s := EndOf(Start(now), es, AnyOrder(1), length, limit);
    assert s.stored + [] == s.stored;
  }

  // ---------------------------------------------------------------- the bounds are met

  lemma SameWithout(t: int, n: nat)
    requires n > 0
    ensures Same(t, n)[0] == t && Without(Same(t, n), 0) == Same(t, n - 1)
  {}

  ghost predicate Leads(s: State, end: State, o: Overlap, length: int, limit: int) {
    exists es :: CanRun(s, es, o, length, limit) && EndOf(s, es, o, length, limit) == end
  }

  lemma LeadsBack(s: State, e: Event, end: State, o: Overlap, length: int, limit: int)
    requires Enabled(s, e, o) && Leads(Next(s, e, o, length, limit), end, o, length, limit)
    ensures Leads(s, end, o, length, limit)
  {
    var n := Next(s, e, o, length, limit);
    var es :| CanRun(n, es, o, length, limit) && EndOf(n, es, o, length, limit) == end;
    assert ([e] + es)[1..] == es;
    assert CanRun(s, [e] + es, o, length, limit) && EndOf(s, [e] + es, o, length, limit) == end;
  }

  lemma LeadsToItself(s: State, o: Overlap, length: int, limit: int)
    ensures Leads(s, s, o, length, limit)
  {
    assert CanRun(s, [], o, length, limit) && EndOf(s, [], o, length, limit) == s;
  }

  /** n writes recorded, w waiting and p pending, all at the same reading. */
  function Crowd(t: int, n: nat, w: nat, p: nat): State {
    State(t, Same(t, n), Same(t, w), Same(t, p), Same(t, n + p), t)
  }

  lemma CrowdReads(t: int, n: nat, w: nat, p: nat, o: Overlap, length: int, limit: int)
    requires o.AnyOrder? ==> w + p < o.together
    ensures Enabled(Crowd(t, n, w, p), ReadClock(t), o)
    ensures Next(Crowd(t, n, w, p), ReadClock(t), o, length, limit) == Crowd(t, n, w + 1, p)
  {
    SameSucc(t, w);
  }

  lemma CrowdCounts(t: int, n: nat, w: nat, p: nat, o: Overlap, length: int, limit: int)
    requires length >= 0 && n < limit && w > 0 && (o.InOrder? ==> p < o.together)
    ensures Enabled(Crowd(t, n, w, p), Count(0), o)
    ensures Next(Crowd(t, n, w, p), Count(0), o, length, limit) == Crowd(t, n, w - 1, p + 1)
  {
    SameWithout(t, w);
    SameKept(t, n, t - length);
    GrantingAll(Crowd(t, n, w, p), 0, o, length, limit, t);
    SameSucc(t, p);
    SameSucc(t, n + p);
  }

  lemma GrantingAll(s: State, i: nat, o: Overlap, length: int, limit: int, now: int)
    requires Enabled(s, Count(i), o) && s.waiting[i] == now
    requires Kept(s.stored, now - length) == s.stored && |s.stored| < limit
    ensures Next(s, Count(i), o, length, limit)
         == s.(waiting := Without(s.waiting, i), pending := s.pending + [now],
               granted := s.granted + [now], last := now)
  {
    Granting(s, i, o, length, limit, now, s.stored);
  }

  lemma Granting(s: State, i: nat, o: Overlap, length: int, limit: int, now: int, kept: seq<int>)
    requires Enabled(s, Count(i), o) && s.waiting[i] == now && Kept(s.stored, now - length) == kept && |kept| < limit
    ensures Next(s, Count(i), o, length, limit)
         == State(s.clock, kept, Without(s.waiting, i), s.pending + [now], s.granted + [now], now)
  {}

  lemma CrowdRecords(t: int, n: nat, w: nat, p: nat, o: Overlap, length: int, limit: int)
    requires p > 0
    ensures Enabled(Crowd(t, n, w, p), Record(0), o)
    ensures Next(Crowd(t, n, w, p), Record(0), o, length, limit) == Crowd(t, n + 1, w, p - 1)
  {
    SameWithout(t, p);
    SameSucc(t, n);
  }

  /** Whole requests, one after the other, up to one less than the limit. */
  lemma {:induction false} CrowdFills(t: int, n: nat, o: Overlap, length: int, limit: nat, end: State)
    requires length >= 0 && n < limit && o.together > 0
    requires Leads(Crowd(t, limit - 1, 0, 0), end, o, length, limit)
    ensures Leads(Crowd(t, n, 0, 0), end, o, length, limit)
    decreases limit - n
  {
    if n < limit - 1 {
      CrowdFills(t, n + 1, o, length, limit, end);
      CrowdRecords(t, n, 0, 1, o, length, limit);
      LeadsBack(Crowd(t, n, 0, 1), Record(0), end, o, length, limit);
      CrowdCounts(t, n, 1, 0, o, length, limit);
      LeadsBack(Crowd(t, n, 1, 0), Count(0), end, o, length, limit);
      CrowdReads(t, n, 0, 0, o, length, limit);
      LeadsBack(Crowd(t, n, 0, 0), ReadClock(t), end, o, length, limit);
    }
  }

  lemma {:induction false} CrowdGathers(t: int, n: nat, w: nat, most: nat, o: Overlap, length: int, limit: int,
                                        end: State)
    requires w <= most && (o.AnyOrder? ==> most <= o.together)
    requires Leads(Crowd(t, n, most, 0), end, o, length, limit)
    ensures Leads(Crowd(t, n, w, 0), end, o, length, limit)
    decreases most - w
  {
    if w < most {
      CrowdGathers(t, n, w + 1, most, o, length, limit, end);
      CrowdReads(t, n, w, 0, o, length, limit);
      LeadsBack(Crowd(t, n, w, 0), ReadClock(t), end, o, length, limit);
    }
  }

  lemma {:induction false} CrowdIsGranted(t: int, n: nat, w: nat, p: nat, o: Overlap, length: int, limit: int,
                                          end: State)
    requires length >= 0 && n < limit && w + p <= o.together
    requires Leads(Crowd(t, n, 0, w + p), end, o, length, limit)
    ensures Leads(Crowd(t, n, w, p), end, o, length, limit)
    decreases w
  {
    if w > 0 {
      CrowdIsGranted(t, n, w - 1, p + 1, o, length, limit, end);
      CrowdCounts(t, n, w, p, o, length, limit);
      LeadsBack(Crowd(t, n, w, p), Count(0), end, o, length, limit);
    }
  }

  lemma {:induction false} CrowdIsRecorded(t: int, n: nat, p: nat, o: Overlap, length: int, limit: int, end: State)
    requires Leads(Crowd(t, n + p, 0, 0), end, o, length, limit)
    ensures Leads(Crowd(t, n, 0, p), end, o, length, limit)
    decreases p
  {
    if p > 0 {
      CrowdIsRecorded(t, n + 1, p - 1, o, length, limit, end);
      CrowdRecords(t, n, 0, p, o, length, limit);
      LeadsBack(Crowd(t, n, 0, p), Record(0), end, o, length, limit);
    }
  }

  /** After limit - 1 whole requests, all that may overlap count before any of them records. */
  lemma CrowdOverruns(t: int, o: Overlap, length: int, limit: nat, end: State)
    requires length >= 0 && limit > 0 && o.together > 0
    requires Leads(Crowd(t, limit - 1, 0, o.together), end, o, length, limit)
    ensures Leads(Start(t), end, o, length, limit)
  {
    CrowdIsGranted(t, limit - 1, o.together, 0, o, length, limit, end);
    CrowdGathers(t, limit - 1, 0, o.together, o, length, limit, end);
    CrowdFills(t, 0, o, length, limit, end);
    assert Crowd(t, 0, 0, 0) == Start(t);
  }

  /** A request with a late reading has counted, and pruned everything, while w requests with the
      reading t still wait; since then m of them have been granted. */
  function Overtaken(t: int, late: int, g: nat, w: nat, m: nat): State {
    State(late, [], Same(t, w), [late] + Same(t, m), Same(t, g) + [late] + Same(t, m), if m == 0 then late else t)
  }

  lemma {:induction false} OvertakenAreGranted(t: int, late: int, g: nat, w: nat, m: nat, o: Overlap,
                                               length: int, limit: int)
    requires o.AnyOrder? && limit > 0
    ensures Leads(Overtaken(t, late, g, w, m), Overtaken(t, late, g, 0, w + m), o, length, limit)
    decreases w
  {
    var s := Overtaken(t, late, g, w, m);
    if w == 0 {
      LeadsToItself(s, o, length, limit);
    } else {
      OvertakenAreGranted(t, late, g, w - 1, m + 1, o, length, limit);
      SameWithout(t, w);
      SameSucc(t, m);
      Granting(s, 0, o, length, limit, t, []);
      assert s.pending + [t] == [late] + Same(t, m + 1);
      assert s.granted + [t] == Same(t, g) + [late] + Same(t, m + 1);
      LeadsBack(s, Count(0), Overtaken(t, late, g, 0, w + m), o, length, limit);
    }
  }

  /** The late request reads the clock and counts. */
  lemma LateRequestPrunes(t: int, g: nat, w: nat, o: Overlap, length: int, limit: int, end: State)
    requires o.AnyOrder? && length >= 0 && limit > 0 && w < o.together
    requires Leads(Overtaken(t, t + length + 1, g, w, 0), end, o, length, limit)
    ensures Leads(Crowd(t, g, w, 0), end, o, length, limit)
  {
    var late := t + length + 1;
    var s := Crowd(t, g, w, 0);
    var s' := Next(s, ReadClock(late), o, length, limit);
    SameDropped(t, g, t + 1);
    Granting(s', w, o, length, limit, late, []);
    assert Without(s'.waiting, w) == Same(t, w);
    assert [] + [late] == [late] + [] && Same(t, g) + [late] == Same(t, g) + [late] + [];
    LeadsBack(s', Count(w), end, o, length, limit);
    LeadsBack(s, ReadClock(late), end, o, length, limit);
  }

  lemma OvertakenBetween(t: int, late: int, g: nat, m: nat, to: int)
    requires t <= to < late
    ensures Between(Overtaken(t, late, g, 0, m).granted, t, to) == g + m
    decreases m
  {
    var before := Same(t, g) + [late];
    if m == 0 {
      assert before + [] == before;
      BetweenSnoc(Same(t, g), late, t, to);
      SameBetween(t, t, to, g);
    } else {
      OvertakenBetween(t, late, g, m - 1, to);
      SameSucc(t, m - 1);
      assert before + Same(t, m) == before + Same(t, m - 1) + [t];
      BetweenSnoc(before + Same(t, m - 1), t, t, to);
    }
  }

  lemma OvertakingIsReached(now: int, o: Overlap, length: int, limit: nat, all: nat, late: int, end: State)
    requires o.AnyOrder? && limit > 0 && o.together > 0 && length >= 0
    requires all == limit - 1 + o.together && late == now + length + 1
    requires end == Overtaken(now, late, all, 0, o.together - 1)
    ensures Leads(Start(now), end, o, length, limit)
  {
    OvertakenAreGranted(now, late, all, o.together - 1, 0, o, length, limit);
    LateRequestPrunes(now, all, o.together - 1, o, length, limit, end);
    CrowdGathers(now, all, 0, o.together - 1, o, length, limit, end);
    CrowdIsRecorded(now, limit - 1, o.together, o, length, limit, end);
    CrowdOverruns(now, o, length, limit, end);
  }

  lemma CrowdBetween(t: int, n: nat, w: nat, p: nat, to: int)
    requires t <= to
    ensures Between(Crowd(t, n, w, p).granted, t, to) == n + p
  {
    SameBetween(t, t, to, n + p);
  }

  lemma OrderedBoundIsMet(now: int, o: Overlap, length: int, limit: nat, most: nat) returns (end: State)
    requires o.InOrder? && limit == most + 1 && o.together > 0 && length >= 0
    ensures Leads(Start(now), end, o, length, limit)
    ensures Between(end.granted, now, now + length) == most + o.together
  {
    end := Crowd(now, most, 0, o.together);
    LeadsToItself(end, o, length, limit);
    CrowdOverruns(now, o, length, limit, end);
    CrowdBetween(now, most, 0, o.together, now + length);
  }

  lemma OvertakingBoundIsMet(now: int, o: Overlap, length: int, limit: nat, all: nat) returns (end: State)
    requires o.AnyOrder? && limit > 0 && o.together > 0 && length >= 0 && all == limit - 1 + o.together
    ensures Leads(Start(now), end, o, length, limit)
    ensures Between(end.granted, now, now + length) == all + o.together - 1
  {
    var late := now + length + 1;
    end := Overtaken(now, late, all, 0, o.together - 1);
    OvertakenBetween(now, late, all, o.together - 1, now + length);
    OvertakingIsReached(now, o, length, limit, all, late, end);
  }

  /** Neither bound can be lowered, for any limit, overlap and length. */
  lemma InterleavedBoundIsMet(now: int, o: Overlap, length: int, limit: nat) returns (end: State)
    requires limit > 0 && o.together > 0 && length >= 0
    ensures Leads(Start(now), end, o, length, limit)
    ensures InWindow(end.granted, now, length) == limit + Excess(o)
  {
    if o.InOrder? {
      end := OrderedBoundIsMet(now, o, length, limit, limit - 1);
    } else {
      end := OvertakingBoundIsMet(now, o, length, limit, limit - 1 + o.together);
    }
  }
}
