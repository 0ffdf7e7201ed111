/** The payload event queue's time-ordered list: a singly linked list ended by
    the `nill` element, whose removed elements go to a free list and are reused.
 */
module TimeOrderedLists {

  datatype Entry<+P> = Entry(p: P, t: nat)

  /** Insertion before the first entry that is strictly later. */
  function InsertByTime<P>(s: seq<Entry<P>>, e: Entry<P>): (r: seq<Entry<P>>)
    ensures |r| == |s| + 1
  {
    if s == [] || e.t < s[0].t then [e] + s
    else [s[0]] + InsertByTime(s[1..], e)
  }

  lemma {:induction false} InsertPosition<P>(s: seq<Entry<P>>, e: Entry<P>, k: nat)
    requires k <= |s|
    requires forall i :: 0 <= i < k ==> s[i].t <= e.t
    requires k < |s| ==> e.t < s[k].t
    ensures InsertByTime(s, e) == s[..k] + [e] + s[k..]
  {
    if k > 0 {
      var tail := s[1..];
      InsertPosition(tail, e, k - 1);
      assert [s[0]] + tail[..k - 1] == s[..k];
      assert tail[k - 1..] == s[k..];
    }
  }

  lemma {:induction false} InsertSplit<P>(s: seq<Entry<P>>, e: Entry<P>) returns (k: nat)
    ensures k <= |s|
    ensures InsertByTime(s, e) == s[..k] + [e] + s[k..]
    ensures forall i :: 0 <= i < k ==> s[i].t <= e.t
    ensures k < |s| ==> e.t < s[k].t
  {
    if s == [] || e.t < s[0].t {
      k := 0;
    } else {
      var j := InsertSplit(s[1..], e);
      k := j + 1;
      assert forall i :: 0 < i < k ==> s[i] == s[1..][i - 1];
      InsertPosition(s, e, k);
    }
  }

  class Element<P(0)> {
    var next: Element?<P>
    var p: P
    var t: nat

    constructor ()
      ensures next == null
    {
      next := null;
      t := 0;
    }
  }

  ghost predicate Distinct<P(0)>(s: seq<Element<P>>) {
    forall i, j :: 0 <= i < j < |s| ==> s[i] != s[j]
  }

  /** The link that position i of the chain s, ended by `end`, must have. */
  ghost function After<P(0)>(s: seq<Element<P>>, end: Element?<P>, i: nat): Element?<P>
    requires i < |s|
  {
    if i + 1 < |s| then s[i + 1] else end
  }

  ghost predicate Linked<P(0)>(s: seq<Element<P>>, end: Element?<P>)
    reads s
  {
    forall i {:trigger s[i].next} {:trigger After(s, end, i)} :: 0 <= i < |s| ==> s[i].next == After(s, end, i)
  }

  /** The elements of s hold the entries c. */
  ghost predicate Holding<P(0)>(s: seq<Element<P>>, c: seq<Entry<P>>)
    reads s
  {
    |c| == |s| && forall i :: 0 <= i < |s| ==> c[i] == Entry(s[i].p, s[i].t)
  }

  lemma HoldingInsert<P(0)>(s: seq<Element<P>>, c: seq<Entry<P>>, k: nat, e: Element<P>)
    requires Holding(s, c) && k <= |s|
    ensures Holding(s[..k] + [e] + s[k..], c[..k] + [Entry(e.p, e.t)] + c[k..])
  {
  }

  lemma DistinctInsert<P(0)>(s: seq<Element<P>>, k: nat, e: Element<P>)
    requires Distinct(s) && k <= |s| && e !in s
    ensures Distinct(s[..k] + [e] + s[k..])
  {
    var r := s[..k] + [e] + s[k..];
    forall i, j | 0 <= i < j < |r|
      ensures r[i] != r[j]
    {
      assert r[i] == if i < k then s[i] else if i == k then e else s[i - 1];
      assert r[j] == if j < k then s[j] else if j == k then e else s[j - 1];
    }
  }

  /** Redirecting one link through e gives the chain with e inserted. */
  lemma LinkedInsert<P(0)>(s: seq<Element<P>>, end: Element?<P>, k: nat, e: Element<P>)
    requires 0 < k <= |s|
    requires forall i {:trigger s[i].next} :: 0 <= i < |s| && i != k - 1 ==> s[i].next == After(s, end, i)
    requires s[k - 1].next == e && e.next == After(s, end, k - 1)
    ensures Linked(s[..k] + [e] + s[k..], end)
  {
    var r := s[..k] + [e] + s[k..];
    forall i | 0 <= i < |r|
      ensures r[i].next == After(r, end, i)
    {
      if i < k - 1 {
        assert r[i] == s[i] && r[i + 1] == s[i + 1];
      } else if i > k {
        assert r[i] == s[i - 1];
      }
    }
  }

  class TimeOrderedList<P(0)> {
    const nill: Element<P>
    var empties: Element?<P>
    var list: Element<P>
    var size: nat

    ghost var Repr: set<object>
    ghost var spine: seq<Element<P>>  // the elements in use, earliest first
    ghost var contents: seq<Entry<P>> // what the elements in use hold
    ghost var free: seq<Element<P>>   // the elements waiting for reuse

    /** s, holding c, is a list of n elements from `first` on. */
    ghost predicate UsedList(first: Element<P>, n: nat, s: seq<Element<P>>, c: seq<Entry<P>>)
      reads this, s
    {
      && n == |s| && first == (if s == [] then nill else s[0])
      && nill !in s && (forall e :: e in s ==> e in Repr && e !in free)
      && Distinct(s) && Linked(s, nill) && Holding(s, c)
    }

    ghost predicate FreeList()
      reads this, free
    {
      && empties == (if free == [] then null else free[0])
      && nill !in free && (forall e :: e in free ==> e in Repr)
      && Distinct(free) && Linked(free, null)
    }

    ghost predicate Valid()
      reads this, Repr
    {
      && this in Repr && nill in Repr
      && (forall e :: e in spine ==> e in Repr) && (forall e :: e in free ==> e in Repr)
      && UsedList(list, size, spine, contents)
      && FreeList()
    }

    constructor ()
      ensures Valid() && contents == [] && fresh(Repr)
    {
      var n := new Element<P>();
      nill := n;
      empties := null;
      list := n;
      size := 0;
      spine, free, contents := [], [], [];
      Repr := {this, n};
    }

    /** Takes an element from the free list, allocating one if there is none, and fills it. */
    method TakeEmpty(p: P, t: nat) returns (e: Element<P>)
      requires Valid()
      modifies Repr
      ensures Valid() && fresh(Repr - old(Repr)) && e in Repr
      ensures e !in spine && e !in free && e != nill && e.p == p && e.t == t
      ensures contents == old(contents)
    {
      if empties == null {
        e := new Element<P>();
        Repr := Repr + {e};
      } else {
        e := empties;
        assert free[0].next == After(free, null, 0);
        empties := empties.next;
        free := free[1..];
      }
      assert e !in spine;
      e.p, e.t := p, t;
    }

    /** Finds the place for time t: `ancestor` is the last entry not later than t
        (`nill` if there is none) and `cursor` the entry after it. */
    method Locate(t: nat) returns (ancestor: Element<P>, cursor: Element<P>, ghost k: nat)
      requires Valid()
      ensures k <= |spine|
      ensures cursor == if k < |spine| then spine[k] else nill
      ensures ancestor == if k == 0 then nill else spine[k - 1]
      ensures forall i :: 0 <= i < k ==> spine[i].t <= t
      ensures k < |spine| ==> t < spine[k].t
    {
      ancestor, cursor, k := nill, list, 0;
      while cursor != nill && cursor.t <= t
        invariant k <= |spine|
        invariant cursor == if k < |spine| then spine[k] else nill
        invariant ancestor == if k == 0 then nill else spine[k - 1]
        invariant forall i :: 0 <= i < k ==> spine[i].t <= t
        decreases |spine| - k
      {
        assert spine[k].next == After(spine, nill, k);
        ancestor, cursor := cursor, cursor.next;
        k := k + 1;
      }
    }

    method LinkFirst(e: Element<P>)
      requires Valid() && e in Repr && e !in spine && e !in free && e != nill
      modifies this`list, this`size, this`spine, this`contents, e`next
      ensures Valid() && contents == [Entry(e.p, e.t)] + old(contents)
    {
      e.next := list;
      list := e;
      size := size + 1;
      spine, contents := [e] + spine, [Entry(e.p, e.t)] + contents;
    }

    method LinkAfter(e: Element<P>, ancestor: Element<P>, cursor: Element<P>, ghost k: nat)
      requires Valid() && e in Repr && e !in spine && e !in free && e != nill
      requires 0 < k <= |spine| && ancestor == spine[k - 1]
      requires cursor == if k < |spine| then spine[k] else nill
      modifies this`size, this`spine, this`contents, e`next, ancestor`next
      ensures Valid() && contents == old(contents)[..k] + [Entry(e.p, e.t)] + old(contents)[k..]
    {
      Redirect(e, ancestor, cursor, k);
      size := size + 1;
      UsedListInsert(e, k);
      hide UsedList, FreeList;
      contents := contents[..k] + [Entry(e.p, e.t)] + contents[k..];
      spine := spine[..k] + [e] + spine[k..];
    }

    /** Puts e between `ancestor` and `cursor`; the free list does not change. */
    method Redirect(e: Element<P>, ancestor: Element<P>, cursor: Element<P>, ghost k: nat)
      requires Valid() && e in Repr && e !in spine && e !in free && e != nill
      requires 0 < k <= |spine| && ancestor == spine[k - 1]
      requires cursor == if k < |spine| then spine[k] else nill
      modifies e`next, ancestor`next
      ensures FreeList() && Holding(spine, contents)
      ensures forall i {:trigger spine[i].next} :: 0 <= i < |spine| && i != k - 1 ==>
                  spine[i].next == After(spine, nill, i)
      ensures ancestor.next == e && e.next == After(spine, nill, k - 1)
    {
      assert ancestor in spine;
      e.next := cursor;
      ancestor.next := e;
      assert forall x | x in free :: x.next == old(x.next);
    }

    /** With the link before position k redirected through e, the list has e at k. */
    lemma UsedListInsert(e: Element<P>, k: nat)
      requires 0 < k <= |spine| && size == |spine| + 1 && list == spine[0]
      requires e in Repr && e !in spine && e !in free && e != nill && nill !in spine
      requires forall x :: x in spine ==> x in Repr && x !in free
      requires Distinct(spine) && Holding(spine, contents)
      requires forall i {:trigger spine[i].next} :: 0 <= i < |spine| && i != k - 1 ==>
                  spine[i].next == After(spine, nill, i)
      requires spine[k - 1].next == e && e.next == After(spine, nill, k - 1)
      ensures UsedList(list, size, spine[..k] + [e] + spine[k..], contents[..k] + [Entry(e.p, e.t)] + contents[k..])
    {
      DistinctInsert(spine, k, e);
      LinkedInsert(spine, nill, k, e);
      HoldingInsert(spine, contents, k, e);
    }

    method Insert(p: P, t: nat)
      requires Valid()
      modifies Repr
      ensures Valid() && fresh(Repr - old(Repr))
      ensures contents == InsertByTime(old(contents), Entry(p, t))
    {
      var e := TakeEmpty(p, t);
      var ancestor, cursor, k := Locate(t);
      InsertPosition(contents, Entry(p, t), k);
      if ancestor == nill {
        LinkFirst(e);
      } else {
        LinkAfter(e, ancestor, cursor, k);
      }
    }

    method DeleteTop()
      requires Valid()
      modifies Repr
      ensures Valid() && Repr == old(Repr)
      ensures contents == if old(contents) == [] then [] else old(contents)[1..]
    {
      if list != nill {
        var e := list;
        assert e !in spine[1..];
        list := list.next;
        e.next := empties;
        empties := e;
        size := size - 1;
        DistinctInsert(free, 0, e);
        assert free[..0] + [e] + free[0..] == [e] + free;
        spine, free, contents := spine[1..], [e] + free, contents[1..];
      }
    }

    /** Returns every element in use to the free list. */
    method Reset()
      requires Valid()
      modifies Repr
      ensures Valid() && Repr == old(Repr)
      ensures contents == []
    {
      while size != 0
        invariant Valid() && Repr == old(Repr)
        decreases size
      {
        DeleteTop();
      }
    }
  }
}
