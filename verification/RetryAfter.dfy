/** What the wait and the Retry-After header of a refusal promise, and what they do not. */
module RetryAfter {
  import opened Numbers
  import opened TokenBucket

  /** A bucket as a refused call leaves it, with a positive rate and room for one token. */
  predicate Refused(b: Bucket) {
    b.tokens < ONE <= b.capacity && b.rate > 0
  }

  /** What is missing for one token. */
  function Shortfall(b: Bucket): int {
    ONE - b.tokens
  }

  lemma DivideBy(s: int, d: int)
    requires s >= 0 && d > 0
    ensures d * (s / d) <= s < d * (s / d) + d && s / d >= 0
    ensures s % d == s - d * (s / d)
  {}

  /** The quotient by the rate in milliseconds: its product with the rate brackets the shortfall. */
  lemma WaitBrackets(b: Bucket, infinite: int) returns (exact: int)
    requires Refused(b)
    ensures exact % MILLISECOND == 0 && exact >= 0
    ensures b.rate * exact == Shortfall(b) - Shortfall(b) % (MILLISECOND * b.rate)
    ensures Wait(b, infinite) == Max(SECOND, exact)
    ensures b.rate * exact <= Shortfall(b) < b.rate * (exact + MILLISECOND)
  {
    var d := MILLISECOND * b.rate;
    var q := Shortfall(b) / d;
    DivideBy(Shortfall(b), d);
    exact := q * MILLISECOND;
    assert d * q == b.rate * exact;
    assert b.rate * (exact + MILLISECOND) == b.rate * exact + d;
  }

  lemma RateMonotone(rate: int, a: int, b: int)
    requires rate > 0 && a <= b
    ensures rate * a <= rate * b
    ensures a < b ==> rate * a < rate * b
  {}

  /** With no call in between: admitted from one millisecond after the wait on, missing less than a
      millisecond of refill at the wait itself, and, unless the one-second floor set the wait,
      refused at every reading before it. */
  lemma WaitIsTwoSided(b: Bucket, infinite: int, t: int)
    requires Refused(b) && b.lastFill <= t
    ensures var wait := Wait(b, infinite);
            && (t >= b.lastFill + wait + MILLISECOND ==> Admits(b, t))
            && Refilled(b, b.lastFill + wait) > ONE - b.rate * MILLISECOND
            && (wait > SECOND && t < b.lastFill + wait ==> !Admits(b, t))
  {
    var wait, r := Wait(b, infinite), b.rate;
    var exact := WaitBrackets(b, infinite);
    RateMonotone(r, exact, wait);
    assert r * (wait + MILLISECOND) == r * wait + r * MILLISECOND;
    assert r * (exact + MILLISECOND) == r * exact + r * MILLISECOND;
    RateMonotone(r, 0, MILLISECOND);
    if t >= b.lastFill + wait + MILLISECOND {
      RateMonotone(r, wait + MILLISECOND, t - b.lastFill);
    }
    if wait > SECOND && t < b.lastFill + wait {
      RateMonotone(r, t - b.lastFill, exact);
    }
    assert b.lastFill + wait - b.lastFill == wait;
  }

  /** A call exactly after the returned wait is refused when the true wait is longer than a second
      and not a whole number of milliseconds, and only then. */
  lemma RetryAtWait(b: Bucket, infinite: int)
    requires Refused(b)
    ensures Admits(b, b.lastFill + Wait(b, infinite))
            <==> Shortfall(b) <= SECOND * b.rate || Shortfall(b) % (MILLISECOND * b.rate) == 0
  {
    var exact := WaitBrackets(b, infinite);
    RemainderRange(Shortfall(b), MILLISECOND * b.rate);
    if exact <= SECOND {
      RateMonotone(b.rate, exact, SECOND);
    } else {
      RateMonotone(b.rate, SECOND, exact);
    }
  }

  lemma RemainderRange(s: int, d: int)
    requires d > 0
    ensures 0 <= s % d < d
  {}

  /** The exact milliseconds of the wait against the number k of whole seconds in the true wait. */
  lemma WaitInSeconds(b: Bucket, infinite: int, k: int) returns (exact: int)
    requires Refused(b) && k == Shortfall(b) / (SECOND * b.rate)
    ensures exact == SECOND * k || SECOND * k + MILLISECOND <= exact < SECOND * k + SECOND
    ensures exact == SECOND * k <==> Shortfall(b) % (SECOND * b.rate) < MILLISECOND * b.rate
    ensures Wait(b, infinite) == Max(SECOND, exact)
  {
    var r, d := b.rate, SECOND * b.rate;
    exact := WaitBrackets(b, infinite);
    DivideBy(Shortfall(b), d);
    assert r * (SECOND * k) == d * k;
    assert r * (SECOND * k + SECOND) == d * k + d;
    assert r * (SECOND * k + MILLISECOND) == d * k + MILLISECOND * r;
    if exact >= SECOND * k + SECOND {
      RateMonotone(r, SECOND * k + SECOND, exact);
    }
    if exact + MILLISECOND <= SECOND * k {
      RateMonotone(r, exact + MILLISECOND, SECOND * k);
    }
    MillisecondGrid(exact, k);
    if exact != SECOND * k {
      RateMonotone(r, SECOND * k + MILLISECOND, exact);
    }
  }

  /** The header rounds the true wait up to whole seconds, except that it loses an excess of less
      than a millisecond; and it is at least one. */
  lemma HeaderRounds(b: Bucket, infinite: int)
    requires Refused(b)
    ensures var k := Shortfall(b) / (SECOND * b.rate);
            Header(Wait(b, infinite))
            == Max(1, if Shortfall(b) % (SECOND * b.rate) < MILLISECOND * b.rate then k else k + 1)
  {
    var k := Shortfall(b) / (SECOND * b.rate);
    DivideBy(Shortfall(b), SECOND * b.rate);
    var exact := WaitInSeconds(b, infinite, k);
  }

  /** Exactly how much may be missing for the header to stay within a minute. */
  lemma HeaderWithinMinute(b: Bucket, infinite: int)
    requires Refused(b)
    ensures Header(Wait(b, infinite)) <= 60 <==> Shortfall(b) < (60 * SECOND + MILLISECOND) * b.rate
  {
    HeaderRounds(b, infinite);
    SixtyUnits(Shortfall(b), SECOND * b.rate, MILLISECOND * b.rate, Header(Wait(b, infinite)));
    assert (60 * SECOND + MILLISECOND) * b.rate == 60 * (SECOND * b.rate) + MILLISECOND * b.rate;
  }

  lemma SixtyUnits(s: int, d: int, m: int, h: int)
    requires s > 0 && 0 < m < d && h == Max(1, if s % d < m then s / d else s / d + 1)
    ensures h <= 60 <==> s < 60 * d + m
  {
    var k := s / d;
    DivideBy(s, d);
    if k <= 59 {
      RateMonotone(d, k, 59);
    } else if k >= 61 {
      RateMonotone(d, 61, k);
    }
  }

  /** A client that obeys the header is refused again exactly when the true wait exceeds some whole
      number of seconds, at least one, by less than a millisecond. */
  lemma RetryAtHeader(b: Bucket, infinite: int)
    requires Refused(b)
    ensures !Admits(b, b.lastFill + SECOND * Header(Wait(b, infinite)))
            <==> Shortfall(b) > SECOND * b.rate && 0 < Shortfall(b) % (SECOND * b.rate) < MILLISECOND * b.rate
  {
    var s, h, d := Shortfall(b), Header(Wait(b, infinite)), SECOND * b.rate;
    HeaderRounds(b, infinite);
    AdmitsAfter(b, h);
    RoundedUp(s, d, MILLISECOND * b.rate, h);
  }

  /** But only once: the refused retry has lost less than a millisecond's refill, its header says one
      second, and the retry after that second is admitted. */
  lemma SecondRetryIsAdmitted(b: Bucket, infinite: int)
    requires Refused(b)
    ensures var t := b.lastFill + SECOND * Header(Wait(b, infinite));
            var b' := Charge(b, t);
            !Admits(b, t) ==> Refused(b') && Header(Wait(b', infinite)) == 1 && Admits(b', t + SECOND)
  {
    var h := Header(Wait(b, infinite));
    var t := b.lastFill + SECOND * h;
    if !Admits(b, t) {
      var b' := Charge(b, t);
      HeaderRounds(b, infinite);
      AdmitsAfter(b, h);
      LessThanMillisecond(Shortfall(b), SECOND * b.rate, MILLISECOND * b.rate, h);
      RefusedAgain(b, h);
      AlmostFull(b', infinite);
    }
  }

  /** A refused call some seconds later takes their refill off the shortfall. */
  lemma RefusedAgain(b: Bucket, seconds: int)
    requires Refused(b) && !Admits(b, b.lastFill + SECOND * seconds)
    ensures var b' := Charge(b, b.lastFill + SECOND * seconds);
            Refused(b') && b'.rate == b.rate && Shortfall(b') == Shortfall(b) - SECOND * b.rate * seconds
  {
    assert b.lastFill + SECOND * seconds - b.lastFill == SECOND * seconds;
    assert b.rate * (SECOND * seconds) == SECOND * b.rate * seconds;
  }

  lemma AlmostFull(b: Bucket, infinite: int)
    requires Refused(b) && Shortfall(b) < MILLISECOND * b.rate
    ensures Header(Wait(b, infinite)) == 1 && Admits(b, b.lastFill + SECOND)
  {
    HeaderRounds(b, infinite);
    LessThanMillisecond(Shortfall(b), SECOND * b.rate, MILLISECOND * b.rate, Header(Wait(b, infinite)));
    AdmitsAfter(b, 1);
  }

  lemma LessThanMillisecond(s: int, d: int, m: int, h: int)
    requires s > 0 && 0 < m < d && h == Max(1, if s % d < m then s / d else s / d + 1)
    ensures s > d * h ==> s - d * h < m
    ensures s < m ==> h == 1
  {
    var k := s / d;
    DivideBy(s, d);
    assert d * (k + 1) == d * k + d;
    if k > 0 {
      RateMonotone(d, 1, k);
    }
  }

  lemma AdmitsAfter(b: Bucket, seconds: int)
    requires Refused(b)
    ensures Admits(b, b.lastFill + SECOND * seconds) <==> Shortfall(b) <= SECOND * b.rate * seconds
  {
    assert b.lastFill + SECOND * seconds - b.lastFill == SECOND * seconds;
    assert b.rate * (SECOND * seconds) == SECOND * b.rate * seconds;
  }

  lemma RoundedUp(s: int, d: int, m: int, h: int)
    requires s > 0 && 0 < m < d && h == Max(1, if s % d < m then s / d else s / d + 1)
    ensures s > d * h <==> s > d && 0 < s % d < m
  {
    var k := s / d;
    DivideBy(s, d);
    assert d * (k + 1) == d * k + d;
    if k > 0 {
      RateMonotone(d, 1, k);
    }
  }

  lemma MillisecondGrid(exact: int, k: int)
    requires exact % MILLISECOND == 0 && SECOND * k - MILLISECOND < exact < SECOND * k + SECOND
    ensures exact == SECOND * k || SECOND * k + MILLISECOND <= exact
  {
    var e := exact / MILLISECOND;
    assert exact == MILLISECOND * e;
    assert SECOND * k == MILLISECOND * (1000 * k);
    assert e >= 1000 * k;
  }

  /** At one request per minute: a call, and a refused one half a microsecond more than two seconds too
      early. The header says two seconds, and a retry after two seconds is refused again. */
  lemma ObedientClientRefused()
    ensures var times := [0, 0, 57_999_999_500];
            var b := After(ONE, 1, times);
            && Log(ONE, 1, times) == [false, true, false] && Refused(b) && b.lastFill == times[2]
            && Header(Wait(b, 0)) == 2 && !Admits(b, times[2] + 2 * SECOND)
  {
    var first, times := [0, 0], [0, 0, 57_999_999_500];
    assert times[..2] == first && first[..1] == [0];
    OneCall(first);
    assert After(ONE, 1, times) == Bucket(57_999_999_500, ONE, 1, 57_999_999_500);
    assert Log(ONE, 1, times) == [false, true] + [false];
  }

  lemma OneCall(times: seq<int>)
    requires times == [0, 0]
    ensures After(ONE, 1, times) == Bucket(0, ONE, 1, 0) && Log(ONE, 1, times) == [false, true]
  {
    assert times[..1] == [0];
    assert After(ONE, 1, [0]) == Fresh(ONE, 1, 0) && Log(ONE, 1, [0]) == [false];
  }

  lemma {:induction false} TokensStayNonnegative(capacity: int, rate: int, times: seq<int>)
    requires times != [] && Sorted(times) && capacity >= 0 && rate >= 0
    ensures 0 <= After(capacity, rate, times).tokens <= capacity
    ensures After(capacity, rate, times).lastFill == times[|times| - 1]
    ensures After(capacity, rate, times).capacity == capacity && After(capacity, rate, times).rate == rate
    decreases |times|
  {
    var n := |times| - 1;
    if n > 0 {
      TokensStayNonnegative(capacity, rate, times[..n]);
      NonnegativeProduct(rate, times[n] - times[n - 1]);
    }
  }

  lemma NonnegativeProduct(a: int, b: int)
    requires a >= 0 && b >= 0
    ensures a * b >= 0
  {}

  /** With a clock that does not go back, every refusal of a run says between 1 and 60 seconds. */
  lemma HeaderRange(capacity: int, rate: int, times: seq<int>, infinite: int)
    requires |times| > 1 && Sorted(times) && capacity >= ONE && rate > 0
    requires !Log(capacity, rate, times)[|times| - 1]
    ensures Refused(After(capacity, rate, times))
    ensures 1 <= Header(Wait(After(capacity, rate, times), infinite)) <= 60
  {
    TokensStayNonnegative(capacity, rate, times);
    TokensStayNonnegative(capacity, rate, times[..|times| - 1]);
    var b := After(capacity, rate, times);
    var exact := WaitBrackets(b, infinite);
    if exact > 60 * SECOND {
      RateMonotone(rate, 60 * SECOND, exact);
      RateMonotone(60 * SECOND, 1, rate);
    }
  }

  /** With readings out of order a header can exceed a minute: the refill of the later reading is
      taken back. */
  lemma LateReadingLengthensWait()
    ensures var b := After(ONE, 1, [0, 30 * SECOND, 0]);
            !Log(ONE, 1, [0, 30 * SECOND, 0])[2] && Refused(b) && Header(Wait(b, 0)) == 90
  {
    var times := [0, 30 * SECOND, 0];
    assert times[..2] == [0, 30 * SECOND] && [0, 30 * SECOND][..1] == [0];
    assert After(ONE, 1, [0]) == Fresh(ONE, 1, 0);
    assert After(ONE, 1, [0, 30 * SECOND]) == Bucket(0, ONE, 1, 30 * SECOND);
  }
}
