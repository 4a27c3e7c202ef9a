/**
 * One token bucket, in exact integers: times are nanoseconds, and tokens are counted in units of
 * 1/ONE token, so that a refill of one nanosecond is the configured number of requests per minute.
 */
module TokenBucket {
  import opened Numbers

  const ONE := 60_000_000_000
  const MILLISECOND := 1_000_000
  const SECOND := 1_000_000_000

  datatype Bucket = Bucket(tokens: int, capacity: int, rate: int, lastFill: int)

  function Fresh(capacity: int, rate: int, created: int): Bucket {
    Bucket(capacity, capacity, rate, created)
  }

  /** Quotient truncated toward zero, as in a conversion from float to integer. */
  function Truncated(a: int, b: int): int
    requires b != 0
  {
    if b > 0 then (if a >= 0 then a / b else -(-a / b))
    else (if a >= 0 then -(a / -b) else -a / -b)
  }

  function Refilled(b: Bucket, now: int): int {
    Min(b.capacity, b.tokens + b.rate * (now - b.lastFill))
  }

  predicate Admits(b: Bucket, now: int) {
    Refilled(b, now) >= ONE
  }

  function Charge(b: Bucket, now: int): Bucket {
    b.(tokens := Refilled(b, now) - (if Admits(b, now) then ONE else 0), lastFill := now)
  }

  /** The wait computed for a refusal that leaves the bucket b. A rate of zero makes the source
      convert an infinite number of milliseconds to an integer; the result is a parameter. */
  function Wait(b: Bucket, infinite: int): (w: int)
    ensures w >= SECOND
  {
    var millis := if b.rate == 0 then infinite else Truncated(ONE - b.tokens, MILLISECOND * b.rate);
    Max(SECOND, millis * MILLISECOND)
  }

  /** The number of seconds in the Retry-After header. */
  function Header(wait: int): int {
    (wait + SECOND - 1) / SECOND
  }

  class Cell {
    var tokens: int
    var lastFill: int
    const capacity: int
    const rate: int

    function Value(): Bucket
      reads this
    {
      Bucket(tokens, capacity, rate, lastFill)
    }

    constructor (capacity: int, rate: int, now: int)
      ensures Value() == Fresh(capacity, rate, now)
    {
      this.tokens := capacity;
      this.capacity := capacity;
      this.rate := rate;
      this.lastFill := now;
    }

    method Allow(now: int, infinite: int) returns (ok: bool, wait: int)
      modifies this
      ensures Value() == Charge(old(Value()), now)
      ensures ok == Admits(old(Value()), now)
      ensures wait == if ok then 0 else Wait(Value(), infinite)
    {
      tokens := Min(capacity, tokens + rate * (now - lastFill));
      lastFill := now;
      if tokens >= ONE {
        tokens := tokens - ONE;
        return true, 0;
      }
      wait := (if rate == 0 then infinite else Truncated(ONE - tokens, MILLISECOND * rate)) * MILLISECOND;
      if wait < SECOND {
        wait := SECOND;
      }
      ok := false;
    }
  }

  // ---------------------------------------------------------------- a run of calls

  /** The bucket created at times[0] and then called at the other readings, in any order. */
  function After(capacity: int, rate: int, times: seq<int>): Bucket
    requires times != []
  {
    var n := |times| - 1;
    if n == 0 then Fresh(capacity, rate, times[0]) else Charge(After(capacity, rate, times[..n]), times[n])
  }

  /** For each reading whether it was admitted. The creation counts as not admitted. */
  function Log(capacity: int, rate: int, times: seq<int>): (log: seq<bool>)
    requires times != []
    ensures |log| == |times|
  {
    var n := |times| - 1;
    if n == 0 then [false]
    else Log(capacity, rate, times[..n]) + [Admits(After(capacity, rate, times[..n]), times[n])]
  }

  function Count(log: seq<bool>): nat {
    if log == [] then 0 else Count(log[..|log| - 1]) + if log[|log| - 1] then 1 else 0
  }

  /** The reference: it remembers every reading and every answer, and admits a call exactly when no
      window that starts at the creation or at a reading and ends with this call gets more
      admissions than its length allows. */
  predicate NoWindowBreaks(capacity: int, rate: int, times: seq<int>, log: seq<bool>)
    requires times != [] && |log| == |times| - 1
  {
    forall j :: 0 <= j < |times| ==>
      ONE * (Count(log[j..]) + 1) <= capacity + rate * (times[|log|] - times[j])
  }

  function HistoryLog(capacity: int, rate: int, times: seq<int>): (log: seq<bool>)
    requires times != []
    ensures |log| == |times|
  {
    var n := |times| - 1;
    if n == 0 then [false]
    else
      var before := HistoryLog(capacity, rate, times[..n]);
      before + [NoWindowBreaks(capacity, rate, times, before)]
  }

  /** What is left, at the reading t, of the allowance of the window that starts at reading j. */
  function Allowance(capacity: int, rate: int, times: seq<int>, log: seq<bool>, j: nat, t: int): int
    requires j < |times| == |log|
  {
    capacity + rate * (t - times[j]) - ONE * Count(log[j..])
  }

  lemma CountSnoc(log: seq<bool>, x: bool, j: nat)
    requires j <= |log|
    ensures Count((log + [x])[j..]) == Count(log[j..]) + if x then 1 else 0
  {
    var s := (log + [x])[j..];
    assert s[..|s| - 1] == log[j..];
  }

  lemma Distribute(rate: int, t: int, x: int, y: int)
    ensures rate * (t - y) == rate * (t - x) + rate * (x - y)
  {}

  /** How the last call of a run changes the allowances. */
  lemma AllowanceStep(capacity: int, rate: int, times: seq<int>, log: seq<bool>, x: bool, j: nat, t: int)
    requires j < |times| == |log| + 1
    ensures var n := |log|;
            Allowance(capacity, rate, times, log + [x], j, t)
            == rate * (t - times[n]) - (if x then ONE else 0)
               + if j == n then capacity else Allowance(capacity, rate, times[..n], log, j, times[n])
  {
    CountSnoc(log, x, j);
    Distribute(rate, t, times[|log|], times[j]);
    assert log[|log|..] == [];
  }

  lemma {:induction false} AfterKeepsShape(capacity: int, rate: int, times: seq<int>)
    requires times != []
    ensures After(capacity, rate, times).(tokens := 0) == Bucket(0, capacity, rate, times[|times| - 1])
    decreases |times|
  {
    if |times| > 1 {
      AfterKeepsShape(capacity, rate, times[..|times| - 1]);
    }
  }

  lemma RefillStep(capacity: int, rate: int, times: seq<int>, t: int)
    requires |times| > 1
    ensures var n := |times| - 1;
            var b' := After(capacity, rate, times[..n]);
            Refilled(After(capacity, rate, times), t)
            == Min(capacity, rate * (t - times[n]) - (if Admits(b', times[n]) then ONE else 0) + Refilled(b', times[n]))
  {
    AfterKeepsShape(capacity, rate, times[..|times| - 1]);
  }

  lemma RunAllowanceStep(capacity: int, rate: int, times: seq<int>, j: nat, t: int)
    requires |times| > 1 && j < |times|
    ensures var n := |times| - 1;
            var log := Log(capacity, rate, times[..n]);
            Allowance(capacity, rate, times, Log(capacity, rate, times), j, t)
            == rate * (t - times[n]) - (if Admits(After(capacity, rate, times[..n]), times[n]) then ONE else 0)
               + if j == n then capacity else Allowance(capacity, rate, times[..n], log, j, times[n])
  {
    var n := |times| - 1;
    AllowanceStep(capacity, rate, times, Log(capacity, rate, times[..n]),
                  Admits(After(capacity, rate, times[..n]), times[n]), j, t);
  }

  lemma NewBucketAllowance(capacity: int, rate: int, times: seq<int>, t: int)
    requires |times| == 1
    ensures Refilled(After(capacity, rate, times), t)
         == Min(capacity, Allowance(capacity, rate, times, Log(capacity, rate, times), 0, t))
  {
    assert [false][0..] == [false] && [false][..0] == [] && Count([false]) == 0;
  }

  /** The tokens never exceed the allowance of any window. */
  lemma {:induction false} TokensWithinAllowance(capacity: int, rate: int, times: seq<int>, j: nat, t: int)
    requires j < |times|
    ensures Refilled(After(capacity, rate, times), t)
         <= Allowance(capacity, rate, times, Log(capacity, rate, times), j, t)
    decreases |times|
  {
    var n := |times| - 1;
    if n == 0 {
      NewBucketAllowance(capacity, rate, times, t);
    } else {
      RefillStep(capacity, rate, times, t);
      RunAllowanceStep(capacity, rate, times, j, t);
      if j < n {
        TokensWithinAllowance(capacity, rate, times[..n], j, times[n]);
      } else {
        RefillUpToCapacity(capacity, rate, times[..n], times[n]);
      }
    }
  }

  lemma RefillUpToCapacity(capacity: int, rate: int, times: seq<int>, t: int)
    requires times != []
    ensures Refilled(After(capacity, rate, times), t) <= capacity
  {
    AfterKeepsShape(capacity, rate, times);
  }

  /** Unless the bucket is full, its tokens are the allowance of some window. */
  lemma {:induction false} TokensMeetAllowance(capacity: int, rate: int, times: seq<int>, t: int) returns (j: nat)
    requires times != [] && Refilled(After(capacity, rate, times), t) != capacity
    ensures j < |times|
    ensures Refilled(After(capacity, rate, times), t)
         == Allowance(capacity, rate, times, Log(capacity, rate, times), j, t)
    decreases |times|
  {
    var n := |times| - 1;
    j := n;
    if n == 0 {
      NewBucketAllowance(capacity, rate, times, t);
    } else {
      RefillStep(capacity, rate, times, t);
      if Refilled(After(capacity, rate, times[..n]), times[n]) != capacity {
        j := TokensMeetAllowance(capacity, rate, times[..n], times[n]);
      }
      RunAllowanceStep(capacity, rate, times, j, t);
    }
  }

  /** The bucket refuses only when admitting the call would break some window, and always then. */
  lemma AdmitsIffNoWindowBreaks(capacity: int, rate: int, times: seq<int>, now: int)
    requires times != []
    ensures Admits(After(capacity, rate, times), now)
            <==> NoWindowBreaks(capacity, rate, times + [now], Log(capacity, rate, times))
  {
    var log := Log(capacity, rate, times);
    AfterKeepsShape(capacity, rate, times);
    forall j: nat | j < |times|
      ensures Refilled(After(capacity, rate, times), now) <= Allowance(capacity, rate, times, log, j, now)
    {
      TokensWithinAllowance(capacity, rate, times, j, now);
    }
    if Refilled(After(capacity, rate, times), now) != capacity {
      var j := TokensMeetAllowance(capacity, rate, times, now);
    }
    assert (times + [now])[..|times|] == times;
    WindowsAgainstAllowances(capacity, rate, times + [now], log);
  }

  /** The constant-space bucket and the full-history reference give the same answers on every run,
      whatever the order of the readings. */
  lemma {:induction false} BucketIsHistoryChecker(capacity: int, rate: int, times: seq<int>)
    requires times != []
    ensures Log(capacity, rate, times) == HistoryLog(capacity, rate, times)
    decreases |times|
  {
    var n := |times| - 1;
    if n > 0 {
      BucketIsHistoryChecker(capacity, rate, times[..n]);
      AdmitsIffNoWindowBreaks(capacity, rate, times[..n], times[n]);
      assert times[..n] + [times[n]] == times;
    }
  }

  /** No window breaks when each earlier window allows one more and the capacity holds one. */
  lemma WindowsAgainstAllowances(capacity: int, rate: int, times: seq<int>, log: seq<bool>)
    requires |times| > 1 && |log| == |times| - 1
    ensures var n := |log|;
            NoWindowBreaks(capacity, rate, times, log) <==>
            capacity >= ONE
            && forall j :: 0 <= j < n ==> Allowance(capacity, rate, times[..n], log, j, times[n]) >= ONE
  {
    var n := |log|;
    forall j | 0 <= j < n
      ensures Allowance(capacity, rate, times[..n], log, j, times[n]) >= ONE
              <==> ONE * (Count(log[j..]) + 1) <= capacity + rate * (times[n] - times[j])
    {}
    assert log[n..] == [];
    assert rate * (times[n] - times[n]) == 0;
  }

  /** Every window from the creation or a reading j to an admitted call i holds at most
      capacity + rate * (its length) admissions, even when readings come out of order. */
  lemma WindowBound(capacity: int, rate: int, times: seq<int>, j: nat, i: nat)
    requires j <= i < |times| && Log(capacity, rate, times)[i]
    ensures ONE * Count(Log(capacity, rate, times)[j..i + 1]) <= capacity + rate * (times[i] - times[j])
  {
    var log := Log(capacity, rate, times);
    LogOfPrefix(capacity, rate, times, i + 1);
    var upTo := times[..i + 1];
    BucketIsHistoryChecker(capacity, rate, upTo);
    var before := HistoryLog(capacity, rate, upTo[..i]);
    assert HistoryLog(capacity, rate, upTo) == before + [log[i]];
    assert log[j..i + 1] == (before + [true])[j..];
    CountSnoc(before, true, j);
  }

  lemma {:induction false} LogOfPrefix(capacity: int, rate: int, times: seq<int>, n: nat)
    requires 0 < n <= |times|
    ensures Log(capacity, rate, times[..n]) == Log(capacity, rate, times)[..n]
    decreases |times|
  {
    if n == |times| {
      assert times[..n] == times;
    } else {
      var m := |times| - 1;
      LogOfPrefix(capacity, rate, times[..m], n);
      assert times[..m][..n] == times[..n];
    }
  }
}
