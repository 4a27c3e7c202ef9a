/**
 * The wildcard matcher of the permission checks: patterns and values are Go strings, that is,
 * sequences of bytes, and '*' stands for any run of bytes, the empty run included.
 */
module Glob {

  newtype Byte = b: int | 0 <= b < 256

  type Bytes = seq<Byte>

  const STAR: Byte := '*' as int as Byte

  /** The bytes of an ASCII text. */
  function Text(s: string): Bytes
    requires forall i :: 0 <= i < |s| ==> s[i] < 128 as char
  {
    seq(|s|, i requires 0 <= i < |s| => s[i] as int as Byte)
  }

  // ---------------------------------------------------------------- what a pattern means

  function Stars(pattern: Bytes): nat {
    if pattern == [] then 0 else (if pattern[0] == STAR then 1 else 0) + Stars(pattern[1..])
  }

  /** The pattern with its stars replaced, from left to right, by the given fillers. */
  function Fill(pattern: Bytes, fillers: seq<Bytes>): Bytes
    requires |fillers| == Stars(pattern)
  {
    if pattern == [] then []
    else if pattern[0] == STAR then fillers[0] + Fill(pattern[1..], fillers[1..])
    else [pattern[0]] + Fill(pattern[1..], fillers)
  }

  ghost predicate Instance(pattern: Bytes, value: Bytes) {
    exists fillers: seq<Bytes> :: |fillers| == Stars(pattern) && Fill(pattern, fillers) == value
  }

  /** The same relation, read off one byte at a time. */
  predicate Accepts(pattern: Bytes, value: Bytes)
    decreases |pattern| + |value|
  {
    if pattern == [] then value == []
    else if pattern[0] == STAR then
      Accepts(pattern[1..], value) || (value != [] && Accepts(pattern, value[1..]))
    else value != [] && value[0] == pattern[0] && Accepts(pattern[1..], value[1..])
  }

  lemma {:induction false} FindFillers(pattern: Bytes, value: Bytes) returns (fillers: seq<Bytes>)
    requires Accepts(pattern, value)
    ensures |fillers| == Stars(pattern) && Fill(pattern, fillers) == value
    decreases |pattern| + |value|
  {
    if pattern == [] {
      fillers := [];
    } else if pattern[0] != STAR {
      fillers := FindFillers(pattern[1..], value[1..]);
    } else if Accepts(pattern[1..], value) {
      var rest := FindFillers(pattern[1..], value);
      fillers := [[]] + rest;
      assert fillers[1..] == rest;
    } else {
      var longer := FindFillers(pattern, value[1..]);
      fillers := longer[0 := [value[0]] + longer[0]];
      assert fillers[1..] == longer[1..];
    }
  }

  lemma {:induction false} StarAbsorbs(pattern: Bytes, filler: Bytes, value: Bytes)
    requires pattern != [] && pattern[0] == STAR && Accepts(pattern[1..], value)
    ensures Accepts(pattern, filler + value)
    decreases |filler|
  {
    if filler == [] {
      assert filler + value == value;
    } else {
      StarAbsorbs(pattern, filler[1..], value);
      assert (filler + value)[1..] == filler[1..] + value;
    }
  }

  lemma {:induction false} FillIsAccepted(pattern: Bytes, fillers: seq<Bytes>)
    requires |fillers| == Stars(pattern)
    ensures Accepts(pattern, Fill(pattern, fillers))
    decreases |pattern|
  {
    if pattern == [] {
    } else if pattern[0] == STAR {
      FillIsAccepted(pattern[1..], fillers[1..]);
      StarAbsorbs(pattern, fillers[0], Fill(pattern[1..], fillers[1..]));
    } else {
      FillIsAccepted(pattern[1..], fillers);
      assert Fill(pattern, fillers)[1..] == Fill(pattern[1..], fillers);
    }
  }

  /** A pattern accepts exactly its instances. */
  lemma AcceptsIffInstance(pattern: Bytes, value: Bytes)
    ensures Accepts(pattern, value) <==> Instance(pattern, value)
  {
    if Accepts(pattern, value) {
      var fillers := FindFillers(pattern, value);
    }
    forall fillers: seq<Bytes> | |fillers| == Stars(pattern) && Fill(pattern, fillers) == value
      ensures Accepts(pattern, value)
    {
      FillIsAccepted(pattern, fillers);
    }
  }

  // ---------------------------------------------------------------- the cost of a match

  /** Calls of the matcher made for one match, the first included. */
  function Calls(pattern: Bytes, value: Bytes): nat
    decreases |pattern|, 0
  {
    if pattern == [] || pattern == [STAR] then 1
    else if pattern[0] == STAR then 1 + LoopCalls(pattern[1..], value)
    else if value == [] || value[0] != pattern[0] then 1
    else Calls(pattern[1..], value[1..])
  }

  /** Calls made by the inner loop, which tries the suffixes of value until one is accepted. */
  function LoopCalls(pattern: Bytes, value: Bytes): nat
    decreases |pattern|, 1 + |value|
  {
    Calls(pattern, value)
    + if Accepts(pattern, value) || value == [] then 0 else LoopCalls(pattern, value[1..])
  }

  lemma {:induction false} StarTriesEverySuffix(pattern: Bytes, value: Bytes)
    requires pattern != [] && pattern[0] == STAR
    ensures Accepts(pattern, value) <==> exists i :: 0 <= i <= |value| && Accepts(pattern[1..], value[i..])
    decreases |value|
  {
    assert value[0..] == value;
    if value != [] {
      var rest := value[1..];
      StarTriesEverySuffix(pattern, rest);
      forall i | 0 <= i <= |rest| ensures rest[i..] == value[i + 1..] {}
      if Accepts(pattern, rest) {
        var i :| 0 <= i <= |rest| && Accepts(pattern[1..], rest[i..]);
        assert Accepts(pattern[1..], value[i + 1..]);
      }
      if i :| 0 <= i <= |value| && Accepts(pattern[1..], value[i..]) {
        if i > 0 {
          assert Accepts(pattern[1..], rest[i - 1..]);
        }
      }
    } else {
      forall i | 0 <= i <= |value| ensures value[i..] == value {}
    }
  }

  lemma {:induction false} LoneStarAcceptsAll(value: Bytes)
    ensures Accepts([STAR], value)
  {
    StarAbsorbs([STAR], value, []);
    assert value + [] == value;
  }

  /** The matcher. The ghost result counts the calls. */
  method Match(pattern: Bytes, value: Bytes) returns (ok: bool, ghost calls: nat)
    ensures ok <==> Instance(pattern, value)
    ensures calls == Calls(pattern, value)
    decreases |pattern|
  {
    AcceptsIffInstance(pattern, value);
    var p, v := pattern, value;
    while |p| > 0
      invariant |p| <= |pattern|
      invariant Accepts(p, v) == Accepts(pattern, value)
      invariant Calls(p, v) == Calls(pattern, value)
      decreases |p|
    {
      if p[0] == STAR {
        StarTriesEverySuffix(p, v);
        ghost var whole := p;
        p := p[1..];
        if |p| == 0 {
          assert whole == [STAR];
          LoneStarAcceptsAll(v);
          return true, 1;
        }
        calls := 1;
        assert v[0..] == v;
        for i := 0 to |v| + 1
          invariant forall j :: 0 <= j < i ==> !Accepts(p, v[j..])
          invariant calls + (if i <= |v| then LoopCalls(p, v[i..]) else 0) == Calls(whole, v)
        {
          var found, more := Match(p, v[i..]);
          AcceptsIffInstance(p, v[i..]);
          calls := calls + more;
          if found {
            return true, calls;
          }
          assert i < |v| ==> v[i..][1..] == v[i + 1..];
        }
        return false, calls;
      }
      if |v| == 0 || p[0] != v[0] {
        return false, 1;
      }
      p := p[1..];
      v := v[1..];
    }
    return |v| == 0, 1;
  }
}
