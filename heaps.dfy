/** The signed-floor priority queues (Python `heapq` lists), represented as
    ascending sequences: the head `s[0]` is the minimum, as with `heap[0]`. */
module Heaps {

  /** Each entry is at most the next one. Stated from the head on, so that
      the verifier unfolds it only as far as a proof asks (`SortedAll` gives
      the pairwise form). */
  predicate Sorted(s: seq<int>)
    decreases |s|
  {
    |s| <= 1 || (s[0] <= s[1] && Sorted(s[1..]))
  }

  lemma {:induction false} SortedAll(s: seq<int>)
    ensures Sorted(s) <==> forall i, j :: 0 <= i < j < |s| ==> s[i] <= s[j]
    decreases |s|
  {
    if |s| > 1 {
      var t := s[1..];
      SortedAll(t);
      if Sorted(s) {
        forall i, j | 0 <= i < j < |s| ensures s[i] <= s[j] {
          assert s[j] == t[j - 1];
          if i > 0 {
            assert s[i] == t[i - 1];
          } else if j > 1 {
            assert s[1] == t[0];
          }
        }
      }
      if forall i, j :: 0 <= i < j < |s| ==> s[i] <= s[j] {
        forall i, j | 0 <= i < j < |t| ensures t[i] <= t[j] {
          assert t[i] == s[i + 1] && t[j] == s[j + 1];
        }
      }
    }
  }

  /** `heappush`: insert `x`, keeping the queue ordered. */
  function Push(s: seq<int>, x: int): (r: seq<int>)
    requires Sorted(s)
    ensures Sorted(r)
    ensures multiset(r) == multiset(s) + multiset{x}
    ensures |r| == |s| + 1
  {
    if s == [] || x <= s[0] then
      ConsSorted(x, s);
      [x] + s
    else
      var t := Push(s[1..], x);
      PushBound(s, x, t);
      ConsSorted(s[0], t);
      assert s == [s[0]] + s[1..];
      [s[0]] + t
  }

  lemma PushBound(s: seq<int>, x: int, t: seq<int>)
    requires Sorted(s) && s != [] && s[0] < x
    requires multiset(t) == multiset(s[1..]) + multiset{x}
    ensures forall k :: 0 <= k < |t| ==> s[0] <= t[k]
  {
    SortedAll(s);
    forall k | 0 <= k < |t| ensures s[0] <= t[k] {
      assert t[k] in multiset(t);
      if t[k] != x {
        assert t[k] in multiset(s[1..]);
        var j :| 0 <= j < |s[1..]| && s[1..][j] == t[k];
        assert s[j + 1] == t[k];
      }
    }
  }

  /** Pushing into an empty queue gives the one-entry queue. */
  lemma PushEmpty(x: int)
    ensures Push([], x) == [x]
  {
  }

  lemma ConsSorted(h: int, t: seq<int>)
    requires Sorted(t)
    requires t == [] || h <= t[0]
    ensures forall k :: 0 <= k < |t| ==> h <= t[k]
    ensures Sorted([h] + t)
  {
    SortedAll(t);
    assert ([h] + t)[1..] == t;
  }

  /** The head of an ordered queue is its minimum, as `heap[0]` is. */
  lemma HeadIsMin(s: seq<int>, k: int)
    requires Sorted(s) && 0 <= k < |s|
    ensures s[0] <= s[k]
  {
    SortedAll(s);
  }

  /** Python's `max(heap)`: the largest entry of a non-empty queue. */
  function Largest(s: seq<int>): (r: int)
    requires |s| > 0
    ensures r in s
    ensures forall k :: 0 <= k < |s| ==> s[k] <= r
  {
    if |s| == 1 then s[0]
    else
      var m := Largest(s[1..]);
      assert forall k :: 1 <= k < |s| ==> s[k] == s[1..][k - 1];
      if s[0] >= m then s[0] else m
  }
}
