/** The times of the recent writes of each key, compacted in place whenever they are counted. */
module WriteTracker {
  import opened Keys

  /** The recorded times that are not before start, in their order. */
  function Kept(times: seq<int>, start: int): seq<int> {
    if times == [] then [] else
      var n := |times| - 1;
      if times[n] >= start then Kept(times[..n], start) + [times[n]] else Kept(times[..n], start)
  }

  lemma KeptSnoc(times: seq<int>, t: int, start: int)
    ensures Kept(times + [t], start) == if t >= start then Kept(times, start) + [t] else Kept(times, start)
  {
    assert (times + [t])[..|times|] == times;
  }

  lemma {:induction false} KeptShrinks(times: seq<int>, start: int)
    ensures |Kept(times, start)| <= |times|
  {
    if times != [] {
      KeptShrinks(times[..|times| - 1], start);
    }
  }

  lemma {:induction false} AllKept(times: seq<int>, start: int)
    requires forall t :: t in times ==> t >= start
    ensures Kept(times, start) == times
  {
    if times != [] {
      var n := |times| - 1;
      assert times[n] in times && forall t :: t in times[..n] ==> t in times;
      AllKept(times[..n], start);
      assert times == times[..n] + [times[n]];
    }
  }

  lemma {:induction false} NoneKept(times: seq<int>, start: int)
    requires forall t :: t in times ==> t < start
    ensures Kept(times, start) == []
  {
    if times != [] {
      var n := |times| - 1;
      assert times[n] in times && forall t :: t in times[..n] ==> t in times;
      NoneKept(times[..n], start);
    }
  }

  /** A slice of times: the first len elements of an array that may be longer. */
  datatype Slice = Slice(data: array<int>, len: nat)

  class Tracker {
    var windows: map<Key, Slice>

    ghost function Arrays(): set<object>
      reads this
    {
      set key | key in windows :: windows[key].data
    }

    /** Slices fit their arrays, and no two keys share one. */
    ghost predicate Valid()
      reads this
    {
      && (forall key :: key in windows ==> windows[key].len <= windows[key].data.Length)
      && (forall k, l :: k in windows && l in windows && k != l ==> windows[k].data != windows[l].data)
    }

    ghost function Times(key: Key): seq<int>
      requires Valid()
      reads this, Arrays()
    {
      if key in windows then windows[key].data[..windows[key].len] else []
    }

    constructor ()
      ensures Valid() && forall key :: Times(key) == []
    {
      windows := map[];
    }

    method Record(key: Key, now: int)
      requires Valid()
      modifies this, Arrays()
      ensures Valid() && fresh(Arrays() - old(Arrays()))
      ensures Times(key) == old(Times(key)) + [now]
      ensures forall k :: k != key ==> Times(k) == old(Times(k))
    {
      var slice;
      if key in windows {
        slice := Append(windows[key].data, windows[key].len, now);
      } else {
        var none := new int[0];
        slice := Append(none, 0, now);
      }
      windows := windows[key := slice];
    }

    /** Appends to the first n elements, in place while the array has room. */
    static method Append(data: array<int>, n: nat, now: int) returns (slice: Slice)
      requires n <= data.Length
      modifies data
      ensures slice.data == data || fresh(slice.data)
      ensures slice.len <= slice.data.Length && slice.data[..slice.len] == old(data[..n]) + [now]
    {
      if n < data.Length {
        data[n] := now;
        return Slice(data, n + 1);
      }
      var bigger := new int[2 * n + 1];
      forall i | 0 <= i < n {
        bigger[i] := data[i];
      }
      bigger[n] := now;
      slice := Slice(bigger, n + 1);
    }

    /** Drops the times before start, moving the others to the front of the same array. */
    method CountInWindow(key: Key, start: int) returns (count: nat)
      requires Valid()
      modifies this, Arrays()
      ensures Valid() && fresh(Arrays() - old(Arrays()))
      ensures Times(key) == Kept(old(Times(key)), start) && count == |Times(key)|
      ensures forall k :: k != key ==> Times(k) == old(Times(k))
    {
      if key !in windows {
        var none := new int[0];
        windows := windows[key := Slice(none, 0)];
        return 0;
      }
      var data, n := windows[key].data, windows[key].len;
      count := Compact(data, n, start);
      windows := windows[key := Slice(data, count)];
    }

    static method Compact(data: array<int>, n: nat, start: int) returns (count: nat)
      requires n <= data.Length
      modifies data
      ensures count <= n && data[..count] == Kept(old(data[..n]), start)
    {
      count := 0;
      for i := 0 to n
        invariant count <= i
        invariant data[..count] == Kept(old(data[..i]), start)
        invariant forall j :: i <= j < n ==> data[j] == old(data[j])
      {
        KeptSnoc(old(data[..i]), data[i], start);
        assert old(data[..i + 1]) == old(data[..i]) + [data[i]];
        if data[i] >= start {
          ghost var before := data[..count];
          data[count] := data[i];
          count := count + 1;
          assert data[..count] == before + [old(data[i])];
        }
      }
    }
  }
}
