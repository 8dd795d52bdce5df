/**
 * TickTimeStorage: a bounded first-in first-out history of the nanosecond
 * clock readings taken at the start of each server tick.
 */
module TickHistory {

  /** What the history keeps after `s` was appended to: the newest `size`
      readings, dropping the oldest first, as the eviction loop of add does. */
  function Retained(s: seq<int>, size: nat): (r: seq<int>)
    ensures |r| == if |s| <= size then |s| else size
    ensures r == s[|s| - |r|..]
    decreases |s|
  {
    if |s| <= size then s else s[|s| - size..]
  }

  /** What getEntries(k) hands out: the oldest readings up to `k` of them; a
      `k` of zero or less never matches the list size, so everything. */
  function Oldest(s: seq<int>, k: int): (r: seq<int>)
    ensures |r| <= |s| && r == s[..|r|]
    ensures k <= 0 ==> r == s
    ensures k > 0 ==> |r| == if |s| <= k then |s| else k
  {
    if k <= 0 || |s| <= k then s else s[..k]
  }

  /** Below capacity nothing is evicted. */
  lemma AddBelowCapacity(s: seq<int>, t: int, size: nat)
    requires |s| < size
    ensures Retained(s + [t], size) == s + [t]
  {
  }

  /** A full history loses exactly its oldest reading to the new one. */
  lemma AddAtCapacity(s: seq<int>, t: int, size: nat)
    requires |s| == size > 0
    ensures Retained(s + [t], size) == s[1..] + [t]
  {
    assert (s + [t])[1..] == s[1..] + [t];
  }

  /** The newest reading is always kept, in last place, unless nothing is kept. */
  lemma AddKeepsNewest(s: seq<int>, t: int, size: nat)
    requires size > 0
    ensures var r := Retained(s + [t], size); r != [] && r[|r| - 1] == t
  {
  }

  /** Dropping readings once more changes nothing: a retained history is within bounds. */
  lemma RetainedIdempotent(s: seq<int>, size: nat)
    ensures Retained(Retained(s, size), size) == Retained(s, size)
  {
  }

  class TickTimeStorage {
    /** tickTimes: the readings, oldest first. */
    var times: seq<int>
    /** size: how many readings are kept. */
    const size: nat

    ghost predicate Valid()
      reads this
    {
      |times| <= size
    }

    constructor (size: nat)
      ensures this.size == size && times == []
      ensures Valid()
    {
      this.size := size;
      times := [];
    }

    /** add: append the reading, then evict from the front while too long. */
    method Add(time: int)
      modifies this
      ensures times == Retained(old(times) + [time], size)
      ensures Valid()
    {
      times := times + [time];
      while |times| > size
        invariant Retained(times, size) == Retained(old(times) + [time], size)
        decreases |times|
      {
        times := times[1..];
      }
    }

    /** getEntries: copy readings oldest first, stopping once `k` are copied. */
    method GetEntries(k: int) returns (entries: seq<int>)
      ensures entries == Oldest(times, k)
    {
      entries := [];
      var i := 0;
      while i < |times|
        invariant 0 <= i <= |times|
        invariant entries == times[..i]
        invariant k > 0 ==> i < k
        decreases |times| - i
      {
        entries := entries + [times[i]];
        i := i + 1;
        if |entries| == k {
          break;
        }
      }
      if i == |times| {
        assert times[..i] == times;
      }
    }
  }
}
