/**
 * What the write limit of one rate_of_change policy guarantees for one key when requests come one
 * after the other. A request counts the recorded writes of its window and, when they are fewer than
 * the limit, is granted and records its own time.
 */
module WriteWindows {
  import opened Numbers
  import opened WriteTracker

  function Between(times: seq<int>, from: int, to: int): nat {
    if times == [] then 0 else
      var n := |times| - 1;
      Between(times[..n], from, to) + if from <= times[n] <= to then 1 else 0
  }

  lemma BetweenSnoc(times: seq<int>, t: int, from: int, to: int)
    ensures Between(times + [t], from, to) == Between(times, from, to) + if from <= t <= to then 1 else 0
  {
    assert (times + [t])[..|times|] == times;
  }

  /** How many of the times lie in the closed window of the given length. */
  function InWindow(times: seq<int>, from: int, length: int): nat {
    Between(times, from, from + length)
  }

  /** No closed window of the given length holds more than most of the times. */
  ghost predicate Bounded(times: seq<int>, length: int, most: int) {
    forall from :: InWindow(times, from, length) <= most
  }

  lemma NoneIsBounded(length: int, most: int)
    requires most >= 0
    ensures Bounded([], length, most)
  {
    forall from ensures InWindow([], from, length) == 0 {}
  }

  /** One time more keeps the bound when the times the new one can share a window with are few. */
  lemma BoundedSnoc(times: seq<int>, t: int, length: int, most: int)
    requires Bounded(times, length, most) && |Kept(times, t - length)| < most
    ensures Bounded(times + [t], length, most)
  {
    forall from ensures InWindow(times + [t], from, length) <= most {
      assert InWindow(times, from, length) <= most;
      BetweenSnoc(times, t, from, from + length);
      if from <= t <= from + length {
        BetweenIsAmongKept(times, from, from + length, t - length);
      }
    }
  }

  lemma {:induction false} BetweenIsAmongKept(times: seq<int>, from: int, to: int, start: int)
    requires start <= from
    ensures Between(times, from, to) <= |Kept(times, start)|
    decreases |times|
  {
    if times != [] {
      BetweenIsAmongKept(times[..|times| - 1], from, to, start);
    }
  }

  /** None of the times is later. */
  predicate UpTo(times: seq<int>, now: int) {
    times == [] || (UpTo(times[..|times| - 1], now) && times[|times| - 1] <= now)
  }

  lemma {:induction false} BetweenIsKept(times: seq<int>, start: int, now: int)
    requires UpTo(times, now)
    ensures Between(times, start, now) == |Kept(times, start)|
    decreases |times|
  {
    if times != [] {
      BetweenIsKept(times[..|times| - 1], start, now);
    }
  }

  lemma {:induction false} KeptTwice(times: seq<int>, start: int, later: int)
    requires start <= later
    ensures Kept(Kept(times, start), later) == Kept(times, later)
    decreases |times|
  {
    if times != [] {
      var n := |times| - 1;
      KeptTwice(times[..n], start, later);
      KeptSnoc(Kept(times[..n], start), times[n], later);
    }
  }

  // ---------------------------------------------------------------- one request after the other

  /** The tracker refuses: as many recorded times as the limit are not before the window. */
  predicate Full(times: seq<int>, now: int, length: int, limit: int) {
    |Kept(times, now - length)| >= limit
  }

  /** The tracker's list after one request: pruned, and with the request when it is granted. */
  function Recorded(times: seq<int>, now: int, length: int, limit: int): seq<int> {
    if Full(times, now, length, limit) then Kept(times, now - length) else Kept(times, now - length) + [now]
  }

  /** The recorded times after requests at the given readings. */
  function Stored(nows: seq<int>, length: int, limit: int): seq<int> {
    if nows == [] then [] else Recorded(Stored(nows[..|nows| - 1], length, limit), nows[|nows| - 1], length, limit)
  }

  /** The reference keeps all granted times ever, and grants a request when fewer than limit of them
      lie in the closed window that ends now. */
  function Decided(granted: seq<int>, now: int, length: int, limit: int): seq<int> {
    if Between(granted, now - length, now) < limit then granted + [now] else granted
  }

  function Granted(nows: seq<int>, length: int, limit: int): seq<int> {
    if nows == [] then [] else Decided(Granted(nows[..|nows| - 1], length, limit), nows[|nows| - 1], length, limit)
  }

  lemma StoredSnoc(nows: seq<int>, now: int, length: int, limit: int)
    ensures Stored(nows + [now], length, limit) == Recorded(Stored(nows, length, limit), now, length, limit)
  {
    assert (nows + [now])[..|nows|] == nows;
  }

  lemma GrantedSnoc(nows: seq<int>, now: int, length: int, limit: int)
    ensures Granted(nows + [now], length, limit) == Decided(Granted(nows, length, limit), now, length, limit)
  {
    assert (nows + [now])[..|nows|] == nows;
  }

  lemma {:induction false} GrantedUpTo(nows: seq<int>, length: int, limit: int, now: int)
    requires Sorted(nows) && EndsBy(nows, now)
    ensures UpTo(Granted(nows, length, limit), now)
    decreases |nows|
  {
    if nows != [] {
      var before, last := nows[..|nows| - 1], nows[|nows| - 1];
      GrantedUpTo(before, length, limit, now);
      UpToSnoc(Granted(before, length, limit), last, now);
    }
  }

  lemma {:induction false} UpToLater(times: seq<int>, now: int, later: int)
    requires UpTo(times, now) && now <= later
    ensures UpTo(times, later)
  {
    if times != [] {
      UpToLater(times[..|times| - 1], now, later);
    }
  }

  lemma UpToSnoc(times: seq<int>, t: int, now: int)
    requires UpTo(times, now) && t <= now
    ensures UpTo(times + [t], now)
  {
    assert (times + [t])[..|times|] == times;
  }

  /** One request on the pruned list and on the full history, which agree from its window on. */
  lemma SameStep(stored: seq<int>, granted: seq<int>, now: int, length: int, limit: int, start: int)
    requires UpTo(granted, now)
    requires Kept(stored, now - length) == Kept(granted, now - length) && now - length <= start
    ensures Kept(Recorded(stored, now, length, limit), start) == Kept(Decided(granted, now, length, limit), start)
  {
    BetweenIsKept(granted, now - length, now);
    KeptTwice(granted, now - length, start);
    SameGrant(Kept(stored, now - length), granted, now, start, !Full(stored, now, length, limit));
  }

  lemma SameGrant(kept: seq<int>, granted: seq<int>, now: int, start: int, grant: bool)
    requires Kept(kept, start) == Kept(granted, start)
    ensures Kept(if grant then kept + [now] else kept, start)
         == Kept(if grant then granted + [now] else granted, start)
  {
    if grant {
      SameSnoc(kept, granted, now, start);
    }
  }

  lemma SameSnoc(a: seq<int>, b: seq<int>, t: int, start: int)
    requires Kept(a, start) == Kept(b, start)
    ensures Kept(a + [t], start) == Kept(b + [t], start)
  {
    KeptSnoc(a, t, start);
    KeptSnoc(b, t, start);
  }

  /** The counted part of the pruned list is that of the full history. */
  lemma {:induction false} StoredTracksGranted(nows: seq<int>, length: int, limit: int, start: int)
    requires Sorted(nows) && EndsBy(nows, start + length)
    ensures Kept(Stored(nows, length, limit), start) == Kept(Granted(nows, length, limit), start)
    decreases |nows|
  {
    if nows != [] {
      var before, now := nows[..|nows| - 1], nows[|nows| - 1];
      StoredTracksGranted(before, length, limit, now - length);
      GrantedUpTo(before, length, limit, now);
      SameStep(Stored(before, length, limit), Granted(before, length, limit), now, length, limit, start);
    }
  }

  lemma SameDecision(nows: seq<int>, length: int, limit: int, now: int)
    requires Sorted(nows) && EndsBy(nows, now)
    ensures |Kept(Stored(nows, length, limit), now - length)|
         == Between(Granted(nows, length, limit), now - length, now)
  {
    var start := now - length;
    assert EndsBy(nows, start + length);
    StoredTracksGranted(nows, length, limit, start);
    GrantedUpTo(nows, length, limit, now);
    SameCount(Stored(nows, length, limit), Granted(nows, length, limit), now, start);
  }

  lemma SameCount(stored: seq<int>, granted: seq<int>, now: int, start: int)
    requires UpTo(granted, now) && Kept(stored, start) == Kept(granted, start)
    ensures |Kept(stored, start)| == Between(granted, start, now)
  {
    BetweenIsKept(granted, start, now);
  }

  /** One request more, on the pruned list and on the full history. */
  lemma DecideNext(nows: seq<int>, length: int, limit: int, now: int)
    requires Sorted(nows) && EndsBy(nows, now)
    ensures Stored(nows + [now], length, limit) == Recorded(Stored(nows, length, limit), now, length, limit)
    ensures var granted := Granted(nows, length, limit);
            Granted(nows + [now], length, limit)
            == if Full(Stored(nows, length, limit), now, length, limit) then granted else granted + [now]
  {
    SameDecision(nows, length, limit, now);
    StoredSnoc(nows, now, length, limit);
    GrantedSnoc(nows, now, length, limit);
  }

  /** Pruning never changes a decision: the tracker grants the next request exactly when fewer than
      limit earlier granted requests lie in its closed window. And the tracker never holds more than
      limit times. */
  lemma PruningIsInvisible(nows: seq<int>, length: int, limit: int, now: int)
    requires Sorted(nows) && EndsBy(nows, now) && limit > 0
    ensures !Full(Stored(nows, length, limit), now, length, limit)
            <==> Between(Granted(nows, length, limit), now - length, now) < limit
    ensures |Stored(nows, length, limit)| <= limit
  {
    SameDecision(nows, length, limit, now);
    StoredIsSmall(nows, length, limit);
  }

  lemma {:induction false} StoredIsSmall(nows: seq<int>, length: int, limit: int)
    requires limit > 0
    ensures |Stored(nows, length, limit)| <= limit
    decreases |nows|
  {
    if nows != [] {
      StoredIsSmall(nows[..|nows| - 1], length, limit);
      KeptShrinks(Stored(nows[..|nows| - 1], length, limit), nows[|nows| - 1] - length);
    }
  }

  /** No closed window of the policy's length holds more than limit granted writes. */
  lemma {:induction false} GrantedIsBounded(nows: seq<int>, length: int, limit: int)
    requires Sorted(nows) && limit > 0
    ensures Bounded(Granted(nows, length, limit), length, limit)
    decreases |nows|
  {
    if nows == [] {
      NoneIsBounded(length, limit);
    } else {
      var before, now := nows[..|nows| - 1], nows[|nows| - 1];
      assert nows == before + [now];
      GrantedIsBounded(before, length, limit);
      GrantedUpTo(before, length, limit, now);
      DecidedIsBounded(Granted(before, length, limit), now, length, limit);
      GrantedSnoc(before, now, length, limit);
    }
  }

  /** One decision of the reference. */
  lemma DecidedIsBounded(granted: seq<int>, now: int, length: int, limit: int)
    requires UpTo(granted, now) && Bounded(granted, length, limit)
    ensures Bounded(Decided(granted, now, length, limit), length, limit)
  {
    BetweenIsKept(granted, now - length, now);
    if Between(granted, now - length, now) < limit {
      BoundedSnoc(granted, now, length, limit);
    }
  }

  // ---------------------------------------------------------------- the same by positions

  /** Between counts the positions of the closed interval. */
  lemma {:induction false} BetweenCounts(times: seq<int>, from: int, to: int)
    ensures Between(times, from, to) == |set i | 0 <= i < |times| && from <= times[i] <= to|
    decreases |times|
  {
    var all := set i | 0 <= i < |times| && from <= times[i] <= to;
    if times == [] {
      assert all == {};
    } else {
      var n := |times| - 1;
      var before := set i | 0 <= i < n && from <= times[..n][i] <= to;
      BetweenCounts(times[..n], from, to);
      assert forall i :: 0 <= i < n ==> times[..n][i] == times[i];
      if from <= times[n] <= to {
        assert all == before + {n} && n !in before;
      } else {
        assert all == before;
      }
    }
  }

  lemma {:induction false} SortedAt(times: seq<int>, i: nat, j: nat)
    requires Sorted(times) && i <= j < |times|
    ensures times[i] <= times[j]
    decreases |times|
  {
    if i < j {
      var before := times[..|times| - 1];
      if j < |times| - 1 {
        SortedAt(before, i, j);
      } else {
        SortedAt(before, i, j - 1);
      }
    }
  }

  lemma {:induction false} CountRange(times: seq<int>, i: nat, j: nat, from: int, to: int)
    requires i <= j < |times| && forall k :: i <= k <= j ==> from <= times[k] <= to
    ensures Between(times, from, to) >= j - i + 1
    decreases |times|
  {
    var before := times[..|times| - 1];
    if j < |times| - 1 {
      CountRange(before, i, j, from, to);
    } else if i < j {
      CountRange(before, i, j - 1, from, to);
    }
  }

  /** In a bounded list, times that are most places apart are more than the length apart. */
  lemma SpreadOut(times: seq<int>, length: int, most: nat, i: nat)
    requires Sorted(times) && Bounded(times, length, most) && i + most < |times|
    ensures times[i + most] - times[i] > length
  {
    var seen := InWindow(times, times[i], length);
    assert seen <= most;
    if times[i + most] <= times[i] + length {
      forall k | i <= k <= i + most ensures times[i] <= times[k] <= times[i] + length {
        SortedAt(times, i, k);
        SortedAt(times, k, i + most);
      }
      CountRange(times, i, i + most, times[i], times[i] + length);
    }
  }

  lemma {:induction false} GrantedInOrder(nows: seq<int>, length: int, limit: int, now: int)
    requires Sorted(nows) && EndsBy(nows, now)
    ensures Sorted(Granted(nows, length, limit)) && EndsBy(Granted(nows, length, limit), now)
    decreases |nows|
  {
    if nows != [] {
      var before, last := nows[..|nows| - 1], nows[|nows| - 1];
      GrantedInOrder(before, length, limit, last);
      SortedSnoc(Granted(before, length, limit), last);
    }
  }

  /** The m-th last time is not before start. */
  predicate Lately(times: seq<int>, m: int, start: int)
    requires m > 0
  {
    |times| >= m && times[|times| - m] >= start
  }

  /** That is to say that at least m times are not. */
  lemma {:induction false} MostRecent(times: seq<int>, start: int, m: int)
    requires Sorted(times) && m > 0
    ensures |Kept(times, start)| >= m <==> Lately(times, m, start)
    decreases |times|
  {
    if times != [] {
      var before, last := times[..|times| - 1], times[|times| - 1];
      if last < start {
        forall i: nat | i < |times| ensures times[i] < start {
          SortedAt(times, i, |times| - 1);
        }
        NoneKept(times, start);
      } else if m > 1 {
        MostRecent(before, start, m - 1);
      }
    }
  }

  lemma FullByPosition(stored: seq<int>, granted: seq<int>, now: int, length: int, limit: int)
    requires limit > 0 && Sorted(granted) && |Kept(stored, now - length)| == |Kept(granted, now - length)|
    ensures Full(stored, now, length, limit) <==> Lately(granted, limit, now - length)
  {
    MostRecent(granted, now - length, limit);
  }

  lemma SameLength(nows: seq<int>, length: int, limit: int, now: int)
    requires Sorted(nows) && EndsBy(nows, now)
    ensures |Kept(Stored(nows, length, limit), now - length)| == |Kept(Granted(nows, length, limit), now - length)|
  {
    var start := now - length;
    assert EndsBy(nows, start + length);
    StoredTracksGranted(nows, length, limit, start);
  }

  /** The tracker denies exactly when the limit-th last granted write is not older than the window. */
  lemma DenialIsRecent(nows: seq<int>, length: int, limit: int, now: int)
    requires Sorted(nows) && EndsBy(nows, now) && limit > 0
    ensures Full(Stored(nows, length, limit), now, length, limit)
            <==> Lately(Granted(nows, length, limit), limit, now - length)
  {
    SameLength(nows, length, limit, now);
    GrantedInOrder(nows, length, limit, now);
    FullByPosition(Stored(nows, length, limit), Granted(nows, length, limit), now, length, limit);
  }

  // ---------------------------------------------------------------- equal readings

  function Same(t: int, n: nat): seq<int> {
    seq(n, _ => t)
  }

  lemma SameSucc(t: int, n: nat)
    ensures Same(t, n + 1) == Same(t, n) + [t]
  {}

  lemma {:induction false} SameBetween(t: int, from: int, to: int, n: nat)
    requires from <= t <= to
    ensures Between(Same(t, n), from, to) == n
  {
    if n > 0 {
      SameBetween(t, from, to, n - 1);
      SameSucc(t, n - 1);
      BetweenSnoc(Same(t, n - 1), t, from, to);
    }
  }

  lemma {:induction false} SameKept(t: int, n: nat, start: int)
    requires start <= t
    ensures Kept(Same(t, n), start) == Same(t, n)
  {
    if n > 0 {
      SameKept(t, n - 1, start);
      SameSucc(t, n - 1);
      KeptSnoc(Same(t, n - 1), t, start);
    }
  }

  lemma {:induction false} SameDropped(t: int, n: nat, start: int)
    requires t < start
    ensures Kept(Same(t, n), start) == []
  {
    if n > 0 {
      SameDropped(t, n - 1, start);
      SameSucc(t, n - 1);
      KeptSnoc(Same(t, n - 1), t, start);
    }
  }
}
