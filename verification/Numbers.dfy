/** Small vocabulary shared by the models of clocks and counters. */
module Numbers {

  function Min(a: int, b: int): int {
    if a < b then a else b
  }

  function Max(a: int, b: int): int {
    if a < b then b else a
  }

  /** Clock readings that do not go back. */
  predicate Sorted(times: seq<int>) {
    |times| < 2 || (Sorted(times[..|times| - 1]) && times[|times| - 2] <= times[|times| - 1])
  }

  /** The last reading, if there is one, is not later. */
  predicate EndsBy(times: seq<int>, t: int) {
    times != [] ==> times[|times| - 1] <= t
  }

  lemma SortedSnoc(times: seq<int>, t: int)
    requires Sorted(times) && EndsBy(times, t)
    ensures Sorted(times + [t])
  {
    assert (times + [t])[..|times|] == times;
  }

  /** A number above all that are taken. */
  lemma {:induction false} FreshNumber(taken: set<nat>) returns (n: nat)
    ensures forall k :: k in taken ==> k < n
    decreases |taken|
  {
    n := 0;
    if taken != {} {
      var k :| k in taken;
      var n' := FreshNumber(taken - {k});
      n := if n' > k then n' else k + 1;
      forall j | j in taken ensures j < n {
        assert j == k || j in taken - {k};
      }
    }
  }

  lemma Scale(d: int, x: int, y: int)
    requires d >= 0
    ensures x <= y ==> d * x <= d * y
  {}

  lemma Quotient(n: int, d: int, k: int)
    requires d > 0 && d * k <= n < d * k + d
    ensures n / d == k
  {
    var m := n / d;
    assert d * m <= n < d * m + d;
    Scale(d, m + 1, k);
    Scale(d, k + 1, m);
  }
}
