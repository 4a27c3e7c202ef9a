/** Laws of the matcher: containment of patterns, splitting, reversal, and the exact cost. */
module GlobLaws {
  import opened Glob

  // ---------------------------------------------------------------- a preorder on patterns

  lemma {:induction false} AcceptsItself(p: Bytes)
    ensures Accepts(p, p)
  {
    if p != [] {
      AcceptsItself(p[1..]);
      if p[0] == STAR {
        assert Accepts(p, p[1..]);
      }
    }
  }

  lemma {:induction false} AcceptsComposes(p: Bytes, q: Bytes, v: Bytes)
    requires Accepts(p, q) && Accepts(q, v)
    ensures Accepts(p, v)
    decreases |p| + |q| + |v|
  {
    if p == [] || q == [] {
    } else if p[0] == STAR && Accepts(p[1..], q) {
      AcceptsComposes(p[1..], q, v);
    } else if q[0] == STAR && Accepts(q[1..], v) {
      AcceptsComposes(p, q[1..], v);
    } else if q[0] == STAR {
      AcceptsComposes(p, q, v[1..]);
    } else if p[0] == STAR {
      AcceptsComposes(p, q[1..], v[1..]);
    } else {
      AcceptsComposes(p[1..], q[1..], v[1..]);
    }
  }

  /** Matching one pattern against the text of another decides containment of what they grant. */
  lemma InstanceIsContainment(p: Bytes, q: Bytes)
    ensures Instance(p, q) <==> forall v :: Instance(q, v) ==> Instance(p, v)
  {
    AcceptsIffInstance(p, q);
    if Instance(p, q) {
      forall v | Instance(q, v) ensures Instance(p, v) {
        AcceptsIffInstance(q, v);
        AcceptsIffInstance(p, v);
        AcceptsComposes(p, q, v);
      }
    }
    AcceptsItself(q);
    AcceptsIffInstance(q, q);
  }

  /** The pattern with every star replaced by the one byte z. */
  function Ground(q: Bytes, z: Byte): Bytes {
    if q == [] then [] else [if q[0] == STAR then z else q[0]] + Ground(q[1..], z)
  }

  lemma {:induction false} GroundIsPlainInstance(q: Bytes, z: Byte)
    requires z != STAR
    ensures Accepts(q, Ground(q, z)) && STAR !in Ground(q, z)
  {
    if q != [] {
      GroundIsPlainInstance(q[1..], z);
      var g := Ground(q, z);
      assert g[1..] == Ground(q[1..], z);
      if q[0] == STAR {
        assert Accepts(q, g[1..]);
      }
    }
  }

  lemma {:induction false} FreshByteStandsForStar(p: Bytes, q: Bytes, z: Byte)
    requires z !in p && Accepts(p, Ground(q, z))
    ensures Accepts(p, q)
    decreases |p| + |q|
  {
    var g := Ground(q, z);
    assert q != [] ==> g[1..] == Ground(q[1..], z);
    if p == [] {
    } else if p[0] == STAR && Accepts(p[1..], g) {
      FreshByteStandsForStar(p[1..], q, z);
    } else if p[0] == STAR {
      FreshByteStandsForStar(p, q[1..], z);
    } else {
      FreshByteStandsForStar(p[1..], q[1..], z);
    }
  }

  /** Resource names hold no star. Containment over those alone is decided by the same match, as
      soon as one byte besides the star is unused by the wider pattern. */
  lemma ContainmentOnPlainValues(p: Bytes, q: Bytes, z: Byte)
    requires z != STAR && z !in p
    ensures Instance(p, q) <==> forall v :: STAR !in v && Instance(q, v) ==> Instance(p, v)
  {
    InstanceIsContainment(p, q);
    if forall v :: STAR !in v && Instance(q, v) ==> Instance(p, v) {
      var g := Ground(q, z);
      GroundIsPlainInstance(q, z);
      AcceptsIffInstance(q, g);
      AcceptsIffInstance(p, g);
      FreshByteStandsForStar(p, q, z);
      AcceptsIffInstance(p, q);
    }
  }

  // ---------------------------------------------------------------- splitting, runs, reversal

  lemma {:induction false} Join(p: Bytes, q: Bytes, a: Bytes, b: Bytes)
    requires Accepts(p, a) && Accepts(q, b)
    ensures Accepts(p + q, a + b)
    decreases |p| + |a|
  {
    if p == [] {
      assert p + q == q && a + b == b;
    } else {
      assert (p + q)[1..] == p[1..] + q;
      if p[0] == STAR && Accepts(p[1..], a) {
        Join(p[1..], q, a, b);
      } else {
        assert (a + b)[1..] == a[1..] + b;
        Join(if p[0] == STAR then p else p[1..], q, a[1..], b);
      }
    }
  }

  lemma {:induction false} Cut(p: Bytes, q: Bytes, v: Bytes) returns (i: nat)
    requires Accepts(p + q, v)
    ensures i <= |v| && Accepts(p, v[..i]) && Accepts(q, v[i..])
    decreases |p| + |v|
  {
    if p == [] {
      i := 0;
      assert p + q == q && v[0..] == v;
    } else {
      assert (p + q)[1..] == p[1..] + q;
      if p[0] == STAR && Accepts(p[1..] + q, v) {
        i := Cut(p[1..], q, v);
      } else {
        var rest := v[1..];
        var j := Cut(if p[0] == STAR then p else p[1..], q, rest);
        i := j + 1;
        assert v[..i][1..] == rest[..j] && v[i..] == rest[j..];
      }
    }
  }

  /** A concatenated pattern accepts exactly the concatenations. */
  lemma InstanceSplits(p: Bytes, q: Bytes, v: Bytes)
    ensures Instance(p + q, v) <==> exists i :: 0 <= i <= |v| && Instance(p, v[..i]) && Instance(q, v[i..])
  {
    AcceptsIffInstance(p + q, v);
    if Accepts(p + q, v) {
      var i := Cut(p, q, v);
      AcceptsIffInstance(p, v[..i]);
      AcceptsIffInstance(q, v[i..]);
    }
    if i :| 0 <= i <= |v| && Instance(p, v[..i]) && Instance(q, v[i..]) {
      AcceptsIffInstance(p, v[..i]);
      AcceptsIffInstance(q, v[i..]);
      Join(p, q, v[..i], v[i..]);
      assert v[..i] + v[i..] == v;
    }
  }

  /** A run of stars means one star, wherever it stands. */
  lemma StarRunsCollapse(p: Bytes, q: Bytes, v: Bytes)
    ensures Instance(p + [STAR, STAR] + q, v) <==> Instance(p + [STAR] + q, v)
  {
    var two, one := [STAR, STAR] + q, [STAR] + q;
    assert p + [STAR, STAR] + q == p + two && p + [STAR] + q == p + one;
    AcceptsIffInstance(p + two, v);
    AcceptsIffInstance(p + one, v);
    if Accepts(p + two, v) {
      var i := Cut(p, two, v);
      assert two == [STAR] + one;
      DropStar(one, v[i..]);
      Join(p, one, v[..i], v[i..]);
      assert v[..i] + v[i..] == v;
    }
    if Accepts(p + one, v) {
      var i := Cut(p, one, v);
      assert two[1..] == one;
      Join(p, two, v[..i], v[i..]);
      assert v[..i] + v[i..] == v;
    }
  }

  lemma {:induction false} DropStar(p: Bytes, v: Bytes)
    requires p != [] && p[0] == STAR && Accepts([STAR] + p, v)
    ensures Accepts(p, v)
    decreases |v|
  {
    assert ([STAR] + p)[1..] == p;
    if !Accepts(p, v) {
      DropStar(p, v[1..]);
    }
  }

  function Reverse(s: Bytes): (r: Bytes)
    ensures |r| == |s|
  {
    if s == [] then [] else Reverse(s[1..]) + [s[0]]
  }

  lemma {:induction false} ReverseConcat(a: Bytes, b: Bytes)
    ensures Reverse(a + b) == Reverse(b) + Reverse(a)
  {
    if a == [] {
      assert a + b == b;
    } else {
      assert (a + b)[1..] == a[1..] + b;
      ReverseConcat(a[1..], b);
    }
  }

  lemma {:induction false} ReverseTwice(s: Bytes)
    ensures Reverse(Reverse(s)) == s
  {
    if s != [] {
      ReverseConcat(Reverse(s[1..]), [s[0]]);
      ReverseTwice(s[1..]);
      assert Reverse([s[0]]) == [s[0]];
    }
  }

  lemma {:induction false} AcceptsReversed(p: Bytes, v: Bytes)
    requires Accepts(p, v)
    ensures Accepts(Reverse(p), Reverse(v))
    decreases |p|
  {
    if p != [] {
      var c := [p[0]];
      assert p == c + p[1..];
      var i := Cut(c, p[1..], v);
      AcceptsReversed(p[1..], v[i..]);
      assert v == v[..i] + v[i..];
      ReverseConcat(v[..i], v[i..]);
      if p[0] == STAR {
        LoneStarAcceptsAll(Reverse(v[..i]));
      } else {
        assert v[..i][1..] == [];
        assert Reverse(v[..i]) == v[..i];
      }
      Join(Reverse(p[1..]), c, Reverse(v[i..]), Reverse(v[..i]));
    }
  }

  /** Matching from the right end gives the same answer. */
  lemma InstanceReverses(p: Bytes, v: Bytes)
    ensures Instance(Reverse(p), Reverse(v)) <==> Instance(p, v)
  {
    AcceptsIffInstance(p, v);
    AcceptsIffInstance(Reverse(p), Reverse(v));
    if Accepts(p, v) {
      AcceptsReversed(p, v);
    }
    if Accepts(Reverse(p), Reverse(v)) {
      AcceptsReversed(Reverse(p), Reverse(v));
      ReverseTwice(p);
      ReverseTwice(v);
    }
  }

  // ---------------------------------------------------------------- the meaning, without stars and with

  lemma {:induction false} PlainAccepts(p: Bytes, v: Bytes)
    requires STAR !in p
    ensures Accepts(p, v) <==> v == p
    decreases |p|
  {
    if p != [] {
      assert p[0] in p && forall b :: b in p[1..] ==> b in p;
      if v != [] {
        PlainAccepts(p[1..], v[1..]);
        assert p == [p[0]] + p[1..] && v == [v[0]] + v[1..];
      }
    }
  }

  /** A pattern without stars matches its own text only; a lone star matches everything. */
  lemma PlainOrStar(p: Bytes, v: Bytes)
    ensures STAR !in p ==> (Instance(p, v) <==> v == p)
    ensures Instance(['*' as int as Byte], v)
  {
    if STAR !in p {
      PlainAccepts(p, v);
    }
    AcceptsIffInstance(p, v);
    LoneStarAcceptsAll(v);
    AcceptsIffInstance([STAR], v);
  }

  /** What a matcher should do: a byte matches itself, a star anything, and a concatenation the
      concatenations. */
  ghost predicate Sensible(matches: (Bytes, Bytes) -> bool) {
    && (forall v :: matches([], v) <==> v == [])
    && (forall c: Byte, v :: matches([c], v) <==> c == '*' as int as Byte || v == [c])
    && (forall p, q, v :: matches(p + q, v) <==> Splits(matches, p, q, v))
  }

  ghost predicate Splits(matches: (Bytes, Bytes) -> bool, p: Bytes, q: Bytes, v: Bytes) {
    exists i :: 0 <= i <= |v| && matches(p, v[..i]) && matches(q, v[i..])
  }

  lemma MatcherIsSensible()
    ensures Sensible((p: Bytes, v: Bytes) => Instance(p, v))
  {
    var matches := (p: Bytes, v: Bytes) => Instance(p, v);
    forall v ensures matches([], v) <==> v == [] {
      PlainOrStar([], v);
    }
    forall c: Byte, v ensures matches([c], v) <==> c == '*' as int as Byte || v == [c] {
      PlainOrStar([c], v);
    }
    forall p, q, v ensures matches(p + q, v) <==> Splits(matches, p, q, v) {
      InstanceSplits(p, q, v);
      assert forall i :: 0 <= i <= |v| ==> matches(p, v[..i]) == Instance(p, v[..i]);
    }
  }

  /** The matcher does that, and nothing else does. */
  lemma {:induction false} MeaningIsUnique(matches: (Bytes, Bytes) -> bool, p: Bytes, v: Bytes)
    requires Sensible(matches)
    ensures matches(p, v) <==> Instance(p, v)
    decreases |p|
  {
    if p == [] {
      PlainOrStar(p, v);
    } else {
      var c, rest := [p[0]], p[1..];
      assert p == c + rest;
      assert matches(c + rest, v) <==> Splits(matches, c, rest, v);
      InstanceSplits(c, rest, v);
      forall i | 0 <= i <= |v|
        ensures matches(c, v[..i]) <==> Instance(c, v[..i])
        ensures matches(rest, v[i..]) <==> Instance(rest, v[i..])
      {
        PlainOrStar(c, v[..i]);
        assert matches([p[0]], v[..i]) <==> p[0] == STAR || v[..i] == [p[0]];
        MeaningIsUnique(matches, rest, v[i..]);
      }
    }
  }

  // ---------------------------------------------------------------- cost

  /** n choose k. */
  function Choose(n: nat, k: nat): nat {
    if k == 0 then 1 else if n == 0 then 0 else Choose(n - 1, k - 1) + Choose(n - 1, k)
  }

  function Power(base: nat, e: nat): nat {
    if e == 0 then 1 else base * Power(base, e - 1)
  }

  lemma {:induction false} ChooseAll(k: nat)
    ensures Choose(k, k) == 1 && Choose(k, k + 1) == 0
  {
    if k > 0 {
      ChooseAll(k - 1);
      ChooseTooMany(k - 1, k + 1);
    }
  }

  lemma {:induction false} ChooseTooMany(n: nat, k: nat)
    requires n < k
    ensures Choose(n, k) == 0
  {
    if n > 0 {
      ChooseTooMany(n - 1, k - 1);
      ChooseTooMany(n - 1, k);
    }
  }

  /** On a pattern with k stars and a value of n bytes, at most (n + k + 1 choose k) calls. */
  lemma {:induction false} CallsAreAtMostBinomial(p: Bytes, v: Bytes)
    ensures Calls(p, v) <= Choose(|v| + Stars(p) + 1, Stars(p))
    decreases |p|, 0
  {
    var k := Stars(p);
    if p == [] || p == [STAR] {
      ChoosePositive(|v| + k + 1, k);
    } else if p[0] == STAR {
      LoopCallsBound(p[1..], v);
    } else if v == [] || v[0] != p[0] {
      ChoosePositive(|v| + k + 1, k);
    } else {
      CallsAreAtMostBinomial(p[1..], v[1..]);
      ChooseGrows(|v| + k, k);
    }
  }

  lemma {:induction false} LoopCallsBound(p: Bytes, v: Bytes)
    ensures 1 + LoopCalls(p, v) <= Choose(|v| + Stars(p) + 2, Stars(p) + 1)
    decreases |p|, 1 + |v|
  {
    var k := Stars(p);
    CallsAreAtMostBinomial(p, v);
    ChoosePositive(|v| + k + 1, k + 1);
    if v != [] {
      LoopCallsBound(p, v[1..]);
    }
  }

  lemma {:induction false} ChoosePositive(n: nat, k: nat)
    requires k <= n
    ensures Choose(n, k) >= 1
  {
    if k > 0 {
      ChoosePositive(n - 1, k - 1);
    }
  }

  lemma {:induction false} ChooseGrows(n: nat, k: nat)
    ensures Choose(n, k) <= Choose(n + 1, k)
  {}

  /** The polynomial form of the bound: no exponential blow-up in the value's length. */
  lemma CallsArePolynomial(p: Bytes, v: Bytes)
    ensures Calls(p, v) <= Power(|v| + 2, Stars(p))
  {
    CallsAreAtMostBinomial(p, v);
    ChooseBelowPower(|v|, Stars(p));
  }

  lemma {:induction false} ChooseBelowPower(n: nat, k: nat)
    ensures Choose(n + k + 1, k) <= Power(n + 2, k)
  {
    if k > 0 {
      ChooseBelowPower(n, k - 1);
      ChooseRatio(n, k);
      MulMono(n + 2, Choose(n + k, k - 1), Power(n + 2, k - 1));
    }
  }

  /** One star more multiplies the bound by at most n + 2. */
  lemma {:induction false} ChooseRatio(n: nat, k: nat)
    requires k > 0
    ensures Choose(n + k + 1, k) <= (n + 2) * Choose(n + k, k - 1)
    decreases n
  {
    if n == 0 {
      ChooseAll(k);
      ChoosePositive(k, k - 1);
    } else {
      ChooseRatio(n - 1, k);
      ChooseGrows(n + k - 1, k - 1);
      MulMono(n + 1, Choose(n + k - 1, k - 1), Choose(n + k, k - 1));
    }
  }

  lemma MulMono(a: nat, x: nat, y: nat)
    requires x <= y
    ensures a * x <= a * y
  {}

  function Repeat(b: Byte, n: nat): (s: Bytes)
    ensures |s| == n && forall i :: 0 <= i < n ==> s[i] == b
  {
    if n == 0 then [] else [b] + Repeat(b, n - 1)
  }

  /** The binomial is reached: k stars before a byte that the value does not hold. */
  lemma {:induction false} BinomialIsReached(k: nat, a: Byte, z: Byte, n: nat)
    requires a != z && z != STAR
    ensures Stars(Repeat(STAR, k) + [z]) == k
    ensures Calls(Repeat(STAR, k) + [z], Repeat(a, n)) == Choose(n + k + 1, k)
    ensures !Accepts(Repeat(STAR, k) + [z], Repeat(a, n))
    decreases k, n
  {
    var p, v := Repeat(STAR, k) + [z], Repeat(a, n);
    if k == 0 {
      assert p == [z];
    } else {
      var p' := Repeat(STAR, k - 1) + [z];
      assert p[1..] == p';
      BinomialIsReached(k - 1, a, z, n);
      if n == 0 {
        ChooseAll(k);
      } else {
        BinomialIsReached(k, a, z, n - 1);
        assert v[1..] == Repeat(a, n - 1);
        assert Calls(p, v[1..]) == 1 + LoopCalls(p', v[1..]);
      }
    }
  }
}
