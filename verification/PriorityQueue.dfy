/** The kernel's priority queue `sc_ppq`, a binary heap in a growing array, and the
    sorted sequence it stands for.  The comparison is the event queue's: the earlier
    of two times comes first.
 */
module PriorityQueues {
  import opened Basics

  // ----- the sorted sequence ----------------------------------------------

  ghost predicate Sorted(s: seq<nat>) {
    forall i, j :: 0 <= i < j < |s| ==> s[i] <= s[j]
  }

  function Insert(s: seq<nat>, t: nat): seq<nat> {
    if s == [] || t < s[0] then [t] + s else [s[0]] + Insert(s[1..], t)
  }

  /** The new entry goes behind all entries that are not later. */
  lemma {:induction false} InsertAt(s: seq<nat>, t: nat, k: nat)
    requires Sorted(s) && k <= |s| && (forall i :: 0 <= i < k ==> s[i] <= t) && (k < |s| ==> t < s[k])
    ensures Insert(s, t) == s[..k] + [t] + s[k..]
  {
    if k == 0 {
      assert s[..0] + [t] + s[0..] == [t] + s;
    } else {
      InsertAt(s[1..], t, k - 1);
      assert s[..k] + [t] + s[k..] == [s[0]] + (s[1..][..k - 1] + [t] + s[1..][k - 1..]);
    }
  }

  lemma BetweenSorted(s: seq<nat>, t: nat, k: nat)
    requires Sorted(s) && k <= |s| && (forall i :: 0 <= i < k ==> s[i] <= t) && (k < |s| ==> t < s[k])
    ensures Sorted(s[..k] + [t] + s[k..])
  {
    var all := s[..k] + [t] + s[k..];
    forall i, j | 0 <= i < j < |all|
      ensures all[i] <= all[j]
    {
      assert all[i] == if i < k then s[i] else if i == k then t else s[i - 1];
      assert all[j] == if j < k then s[j] else if j == k then t else s[j - 1];
      assert j > k ==> s[k] <= s[j - 1];
    }
  }

  lemma {:induction false} InsertCounts(s: seq<nat>, t: nat, x: nat)
    ensures Times(Insert(s, t), x) == Times(s, x) + (if t == x then 1 else 0)
  {
    if s != [] && t >= s[0] {
      InsertCounts(s[1..], t, x);
      PrependTimes(s[0], Insert(s[1..], t), x);
      PrependTimes(s[0], s[1..], x);
      assert s == [s[0]] + s[1..];
    } else {
      PrependTimes(t, s, x);
    }
  }

  lemma {:induction false} InsertKeepsSorted(s: seq<nat>, t: nat)
    requires Sorted(s)
    ensures Sorted(Insert(s, t)) && |Insert(s, t)| == |s| + 1
    ensures forall x :: x in Insert(s, t) <==> x == t || x in s
    ensures Insert(s, t)[0] == if s == [] || t < s[0] then t else s[0]
  {
    var k := 0;
    while k < |s| && s[k] <= t
      invariant k <= |s| && forall i :: 0 <= i < k ==> s[i] <= t
    {
      k := k + 1;
    }
    InsertAt(s, t, k);
    BetweenSorted(s, t, k);
    assert s == s[..k] + s[k..];
  }

  // ----- counting in place ------------------------------------------------

  lemma {:induction false} UpdateTimes(s: seq<nat>, i: nat, v: nat, x: nat)
    requires i < |s|
    ensures Times(s[i := v], x) + (if s[i] == x then 1 else 0) == Times(s, x) + (if v == x then 1 else 0)
  {
    var n := |s| - 1;
    if i == n {
      assert s[i := v][..n] == s[..n];
    } else {
      UpdateTimes(s[..n], i, v, x);
      assert s[i := v][..n] == s[..n][i := v];
    }
  }

  ghost predicate SameCounts(s: seq<nat>, t: seq<nat>) {
    forall x :: Times(s, x) == Times(t, x)
  }

  lemma Reflexive(s: seq<nat>)
    ensures SameCounts(s, s)
  {
  }

  lemma Transitive(s: seq<nat>, t: seq<nat>, u: seq<nat>)
    requires SameCounts(s, t) && SameCounts(u, t)
    ensures SameCounts(s, u)
  {
  }

  lemma SwapCounts(s: seq<nat>, i: nat, j: nat)
    requires i < |s| && j < |s|
    ensures SameCounts(s[i := s[j]][j := s[i]], s)
  {
    forall x
      ensures Times(s[i := s[j]][j := s[i]], x) == Times(s, x)
    {
      UpdateTimes(s, i, s[j], x);
      UpdateTimes(s[i := s[j]], j, s[i], x);
    }
  }

  // ----- the heap ---------------------------------------------------------

  /** Entry k (from 1) of the heap is `h[k - 1]`; no entry is earlier than its parent,
      except perhaps the one at `hole`. */
  ghost predicate OrderedBut(h: seq<nat>, hole: nat) {
    forall k :: 2 <= k <= |h| && k != hole ==> h[k / 2 - 1] <= h[k - 1]
  }

  /** No entry is earlier than its parent, except perhaps the children of `hole`. */
  ghost predicate OrderedAbove(h: seq<nat>, hole: nat) {
    forall k :: 2 <= k <= |h| && k / 2 != hole ==> h[k / 2 - 1] <= h[k - 1]
  }

  /** The children of `hole` are not earlier than its parent. */
  ghost predicate Bridged(h: seq<nat>, hole: nat) {
    forall k :: 2 <= k <= |h| && k / 2 == hole >= 2 ==> h[hole / 2 - 1] <= h[k - 1]
  }

  lemma RootBridged(h: seq<nat>)
    ensures Bridged(h, 1)
  {
  }

  ghost predicate Heap(h: seq<nat>) { OrderedBut(h, 0) }

  lemma {:induction false} RootIsLeast(h: seq<nat>, k: nat)
    requires Heap(h) && 1 <= k <= |h|
    ensures h[0] <= h[k - 1]
  {
    if k >= 2 {
      RootIsLeast(h, k / 2);
    }
  }

  /** The root of a heap is the first of the sorted sequence with the same entries. */
  lemma RootIsFirst(h: seq<nat>, s: seq<nat>)
    requires Heap(h) && Sorted(s) && SameCounts(s, h) && |s| == |h| > 0
    ensures h[0] == s[0]
  {
    PresentTimes(h, h[0]);
    PresentTimes(s, h[0]);
    PresentTimes(h, s[0]);
    PresentTimes(s, s[0]);
    var k :| 0 <= k < |h| && h[k] == s[0];
    RootIsLeast(h, k + 1);
  }

  /** One step up: the parent moves into the hole. */
  lemma HoleUp(h: seq<nat>, i: nat, all: seq<nat>)
    requires 2 <= i <= |h| && OrderedBut(h, i) && Bridged(h, i) && h[i / 2 - 1] > h[i - 1] && SameCounts(h, all)
    ensures var g := h[i - 1 := h[i / 2 - 1]][i / 2 - 1 := h[i - 1]];
            OrderedBut(g, i / 2) && Bridged(g, i / 2) && SameCounts(g, all)
  {
    SwapCounts(h, i - 1, i / 2 - 1);
  }

  /** The hole is at its place once its parent is not later. */
  lemma HoleStops(h: seq<nat>, i: nat)
    requires 1 <= i <= |h| && OrderedBut(h, i) && (i == 1 || h[i / 2 - 1] <= h[i - 1])
    ensures Heap(h)
  {
  }

  lemma HoleStarts(h: seq<nat>, t: nat)
    requires Heap(h)
    ensures OrderedBut(h + [t], |h| + 1) && Bridged(h + [t], |h| + 1)
  {
  }

  /** One step down: the earlier child `c` moves up. */
  lemma HoleDown(h: seq<nat>, i: nat, c: nat, all: seq<nat>)
    requires 1 <= i && c / 2 == i && 2 <= c <= |h| && OrderedAbove(h, i) && Bridged(h, i) && h[c - 1] < h[i - 1]
    requires forall k :: 2 <= k <= |h| && k / 2 == i ==> h[c - 1] <= h[k - 1]
    requires SameCounts(h, all)
    ensures var g := h[i - 1 := h[c - 1]][c - 1 := h[i - 1]];
            OrderedAbove(g, c) && Bridged(g, c) && SameCounts(g, all)
  {
    SwapCounts(h, i - 1, c - 1);
  }

  /** The hole is at its place once no child is earlier. */
  lemma HoleRests(h: seq<nat>, i: nat)
    requires 1 <= i && OrderedAbove(h, i)
    requires forall k :: 2 <= k <= |h| && k / 2 == i ==> h[i - 1] <= h[k - 1]
    ensures Heap(h)
  {
  }

  lemma AddCounts(s: seq<nat>, h: seq<nat>, t: nat)
    requires SameCounts(s, h)
    ensures SameCounts(Insert(s, t), h + [t])
  {
    forall x
      ensures Times(Insert(s, t), x) == Times(h + [t], x)
    {
      InsertCounts(s, t, x);
      AppendTimes(h, t, x);
    }
  }

  /** Taking the root out and moving the last entry to its place. */
  lemma RemoveCounts(s: seq<nat>, h: seq<nat>)
    requires SameCounts(s, h) && |s| > 0 && |h| > 0 && s[0] == h[0]
    ensures SameCounts(s[1..], h[0 := h[|h| - 1]][..|h| - 1])
  {
    var n := |h| - 1;
    var g := h[0 := h[n]];
    forall x
      ensures Times(s[1..], x) == Times(g[..n], x)
    {
      assert s == [s[0]] + s[1..];
      PrependTimes(s[0], s[1..], x);
      UpdateTimes(h, 0, h[n], x);
      assert g == g[..n] + [g[n]];
      AppendTimes(g[..n], g[n], x);
    }
  }

  class PriorityQueue {
    var heap: array<nat>
    var room: nat
    var size: nat
    ghost var sorted: seq<nat>

    /** Entry 0 of the array is not used. */
    ghost function Entries(): seq<nat>
      requires size < heap.Length
      reads this, heap
    {
      heap[1..size + 1]
    }

    ghost predicate Valid()
      reads this, heap
    {
      && room >= 2 && heap.Length == room + 1 && size <= room
      && Heap(Entries()) && Sorted(sorted) && |sorted| == size && SameCounts(sorted, Entries())
    }

    constructor (capacity: nat)
      ensures Valid() && fresh(heap) && sorted == []
    {
      room := if capacity < 2 then 2 else capacity;
      heap := new nat[(if capacity < 2 then 2 else capacity) + 1];
      size := 0;
      sorted := [];
    }

    method Top() returns (t: nat)
      requires Valid() && size > 0
      ensures t == sorted[0]
    {
      t := heap[1];
      RootIsFirst(Entries(), sorted);
    }

    method Grow()
      requires room >= 2 && heap.Length == room + 1 && size == room + 1
      modifies `heap, `room
      ensures room >= size && heap.Length == room + 1 && fresh(heap)
      ensures heap[1..size] == old(heap[1..size])
    {
      room := room + room / 2;
      var bigger := new nat[room + 1];
      for j := 1 to size
        invariant heap == old(heap) && unchanged(heap) && bigger[1..j] == heap[1..j]
        modifies bigger
      {
        bigger[j] := heap[j];
      }
      heap := bigger;
    }

    /** Entry i is free; the later ancestors of its place move down. */
    method SiftUp(t: nat, ghost before: seq<nat>)
      requires 1 <= size < heap.Length && heap[1..size] == before && Heap(before)
      modifies heap
      ensures Heap(Entries()) && SameCounts(Entries(), before + [t])
    {
      hide OrderedBut, Bridged, SameCounts, Heap;
      var i := size;
      ghost var h := before + [t];
      HoleStarts(before, t);
      assert SameCounts(h, before + [t]) by { Reflexive(h); }
      while i > 1 && heap[i / 2] > t
        invariant 1 <= i <= size && |h| == size && h[i - 1] == t
        invariant forall k :: 1 <= k <= size && k != i ==> heap[k] == h[k - 1]
        invariant OrderedBut(h, i) && Bridged(h, i) && SameCounts(h, before + [t])
      {
        HoleUp(h, i, before + [t]);
        h := h[i - 1 := h[i / 2 - 1]][i / 2 - 1 := h[i - 1]];
        heap[i] := heap[i / 2];
        i := i / 2;
      }
      heap[i] := t;
      HoleStops(h, i);
      assert Entries() == h by {
        forall k | 0 <= k < size
          ensures Entries()[k] == h[k]
        {
          assert heap[k + 1] == h[(k + 1) - 1];
        }
      }
    }

    method Add(t: nat)
      requires Valid()
      modifies this, heap
      ensures Valid() && sorted == Insert(old(sorted), t)
      ensures heap == old(heap) || fresh(heap)
    {
      hide SameCounts, Sorted, Insert, Heap;
      ghost var before := Entries();
      AddCounts(sorted, before, t);
      InsertKeepsSorted(sorted, t);
      size := size + 1;
      if size > room {
        Grow();
      }
      assert heap[1..size] == before;
      SiftUp(t, before);
      sorted := Insert(sorted, t);
      Transitive(sorted, before + [t], Entries());
    }

    method Heapify()
      requires size < heap.Length && OrderedAbove(Entries(), 1)
      modifies heap
      ensures Heap(Entries()) && SameCounts(Entries(), old(Entries()))
    {
      hide OrderedAbove, Bridged, SameCounts, Heap;
      var i := 1;
      ghost var all := Entries();
      Reflexive(all);
      assert Bridged(all, 1) by { RootBridged(all); }
      while 2 * i <= size
        invariant 1 <= i
        invariant OrderedAbove(Entries(), i) && Bridged(Entries(), i) && SameCounts(Entries(), all)
        decreases size - i
      {
        ghost var h := Entries();
        var first := if heap[2 * i] < heap[i] then 2 * i else i;
        if 2 * i + 1 <= size && heap[2 * i + 1] < heap[first] {
          first := 2 * i + 1;
        }
        if first == i {
          break;
        }
        HoleDown(h, i, first, all);
        heap[i], heap[first] := heap[first], heap[i];
        assert Entries() == h[i - 1 := h[first - 1]][first - 1 := h[i - 1]];
        i := first;
      }
      HoleRests(Entries(), i);
    }

    method ExtractTop() returns (t: nat)
      requires Valid() && size > 0
      modifies this, heap
      ensures Valid() && t == old(sorted)[0] && sorted == old(sorted)[1..]
      ensures heap == old(heap)
    {
      ghost var before := Entries();
      RootIsFirst(before, sorted);
      t := heap[1];
      heap[1] := heap[size];
      size := size - 1;
      ghost var h := Entries();
      assert h == before[0 := before[size]][..size];
      RemoveCounts(sorted, before);
      sorted := sorted[1..];
      Heapify();
      Transitive(sorted, h, Entries());
    }
  }
}
