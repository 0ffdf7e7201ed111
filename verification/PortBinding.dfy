/** Completion of port binding at the end of elaboration.

    A port is bound to interfaces and to parent ports, in any order.  Completion
    replaces each parent entry, in place, by the parent's own completed entries.
    `Flatten` is the recursive meaning of a binding graph; the methods below are
    proved to compute it.
 */
module PortBinding {
  import opened Basics

  /** An interface is known by a number. */
  datatype BindElem = BindElem(iface: Option<nat>, parent: Port?)

  datatype Bind = ToInterface(iface: nat) | ToParent(parent: Port)

  /** What each port was bound to, in order. */
  type Graph = map<Port, seq<Bind>>

  /** A binding graph without cycles: every parent has a smaller rank. */
  ghost predicate Acyclic(g: Graph, rank: map<Port, nat>) {
    && g.Keys == rank.Keys
    && forall p :: p in g ==> ParentsBelow(g, rank, g[p], rank[p])
  }

  ghost predicate ParentsBelow(g: Graph, rank: map<Port, nat>, bs: seq<Bind>, r: nat)
    requires g.Keys == rank.Keys
  {
    forall b :: b in bs && b.ToParent? ==> b.parent in g && rank[b.parent] < r
  }

  ghost function Below(g: Graph, rank: map<Port, nat>, r: nat): set<Port>
    requires g.Keys == rank.Keys
  {
    set p | p in g && rank[p] <= r
  }

  // ----- the meaning of a graph -------------------------------------------

  ghost function Flatten(g: Graph, rank: map<Port, nat>, p: Port): seq<nat>
    requires Acyclic(g, rank) && p in g
    decreases rank[p], |g[p]| + 2
  {
    FlattenAll(g, rank, g[p], rank[p])
  }

  ghost function FlattenAll(g: Graph, rank: map<Port, nat>, bs: seq<Bind>, r: nat): seq<nat>
    requires Acyclic(g, rank) && ParentsBelow(g, rank, bs, r)
    decreases r, |bs| + 1
  {
    if bs == [] then []
    else
      var last := bs[|bs| - 1];
      FlattenAll(g, rank, bs[..|bs| - 1], r) + FlattenOne(g, rank, last, r)
  }

  ghost function FlattenOne(g: Graph, rank: map<Port, nat>, b: Bind, r: nat): seq<nat>
    requires Acyclic(g, rank) && (b.ToParent? ==> b.parent in g && rank[b.parent] < r)
    decreases r, 0
  {
    match b
    case ToInterface(i) => [i]
    case ToParent(q) => Flatten(g, rank, q)
  }

  /** The result is a property of the graph: the ranking does not matter. */
  lemma {:induction false} FlattenIgnoresRank(g: Graph, rank: map<Port, nat>, rank': map<Port, nat>,
                                              bs: seq<Bind>, r: nat, r': nat)
    requires Acyclic(g, rank) && Acyclic(g, rank')
    requires ParentsBelow(g, rank, bs, r) && ParentsBelow(g, rank', bs, r')
    ensures FlattenAll(g, rank, bs, r) == FlattenAll(g, rank', bs, r')
    decreases r, |bs|
  {
    if bs != [] {
      var last := bs[|bs| - 1];
      FlattenIgnoresRank(g, rank, rank', bs[..|bs| - 1], r, r');
      assert last in bs;
      assert FlattenOne(g, rank, last, r) == FlattenOne(g, rank', last, r') by {
        if last.ToParent? {
          var q := last.parent;
          FlattenIgnoresRank(g, rank, rank', g[q], rank[q], rank'[q]);
        }
      }
    }
  }

  // ----- sequences of bindings and of entries -----------------------------

  function Entry(b: Bind): BindElem {
    match b
    case ToInterface(i) => BindElem(Some(i), null)
    case ToParent(q) => BindElem(None, q)
  }

  function Entries(bs: seq<Bind>): (r: seq<BindElem>)
    ensures |r| == |bs| && forall i :: 0 <= i < |bs| ==> r[i] == Entry(bs[i])
  {
    if bs == [] then [] else Entries(bs[..|bs| - 1]) + [Entry(bs[|bs| - 1])]
  }

  lemma EntriesAppend(bs: seq<Bind>, b: Bind)
    ensures Entries(bs + [b]) == Entries(bs) + [Entry(b)]
  {
    assert (bs + [b])[..|bs|] == bs;
  }

  /** The interfaces held by a sequence of entries, in order. */
  function Interfaces(v: seq<BindElem>): seq<nat> {
    if v == [] then []
    else Interfaces(v[..|v| - 1]) + (if v[|v| - 1].iface.Some? then [v[|v| - 1].iface.value] else [])
  }

  lemma {:induction false} InterfacesConcat(u: seq<BindElem>, v: seq<BindElem>)
    ensures Interfaces(u + v) == Interfaces(u) + Interfaces(v)
  {
    if v == [] {
      assert u + v == u;
    } else {
      InterfacesConcat(u, v[..|v| - 1]);
      assert (u + v)[..|u + v| - 1] == u + v[..|v| - 1];
    }
  }

  lemma InterfacesStep(v: seq<BindElem>, j: nat)
    requires j < |v|
    ensures Interfaces(v[..j + 1]) == Interfaces(v[..j]) + (if v[j].iface.Some? then [v[j].iface.value] else [])
  {
    assert v[..j + 1][..j] == v[..j];
  }

  /** The number of interface bindings before the first parent binding. */
  function Lead(bs: seq<Bind>): (n: nat)
    ensures n <= |bs|
    ensures forall i :: 0 <= i < n ==> bs[i].ToInterface?
    ensures n < |bs| ==> bs[n].ToParent?
  {
    if bs == [] || bs[0].ToParent? then 0 else 1 + Lead(bs[1..])
  }

  lemma {:induction false} LeadAppend(bs: seq<Bind>, b: Bind)
    ensures Lead(bs + [b]) == if Lead(bs) == |bs| && b.ToInterface? then |bs| + 1 else Lead(bs)
  {
    if bs == [] {
      assert bs + [b] == [b];
      assert [b][1..] == [];
    } else if bs[0].ToInterface? {
      LeadAppend(bs[1..], b);
      assert (bs + [b])[1..] == bs[1..] + [b];
    }
  }

  /** Flattening a run of interface bindings. */
  lemma {:induction false} FlattenInterfaces(g: Graph, rank: map<Port, nat>, bs: seq<Bind>, r: nat, k: nat, m: nat)
    requires Acyclic(g, rank) && ParentsBelow(g, rank, bs, r)
    requires k <= m <= |bs| && forall i :: k <= i < m ==> bs[i].ToInterface?
    ensures FlattenAll(g, rank, bs[..m], r)
         == FlattenAll(g, rank, bs[..k], r) + Interfaces(Entries(bs)[k..m])
    decreases m - k
  {
    if k < m {
      hide Entries;
      FlattenInterfaces(g, rank, bs, r, k, m - 1);
      assert bs[..m][..m - 1] == bs[..m - 1];
      var v := Entries(bs)[k..m];
      assert v[..|v| - 1] == Entries(bs)[k..m - 1];
    }
  }

  // ----- ports ------------------------------------------------------------

  class Port {
    var vec: seq<BindElem>
    var hasParent: bool
    var lastAdd: int
    var isLeaf: bool
    var complete: bool
    var interfaces: seq<nat>  // what the port gives its users
    var registered: seq<nat>  // the interfaces this port registered with

    constructor ()
      ensures Bound(this, [])
    {
      vec, hasParent, lastAdd, isLeaf, complete := [], false, -1, true, false;
      interfaces, registered := [], [];
    }

    /** The port as the bind calls leave it: interfaces are cached at once until the
        first parent is bound. */
    ghost predicate Pristine(bs: seq<Bind>)
      reads this
    {
      && !complete
      && vec == Entries(bs)
      && hasParent == (Lead(bs) < |bs|)
      && lastAdd == Lead(bs) - 1
      && interfaces == Interfaces(vec[..Lead(bs)])
      && registered == []
    }

    /** The port once its binding is complete. */
    ghost predicate Done(g: Graph, rank: map<Port, nat>)
      requires Acyclic(g, rank) && this in g
      reads this
    {
      && complete
      && (forall e :: e in vec ==> e.parent == null)
      && Interfaces(vec) == Flatten(g, rank, this)
      && interfaces == Flatten(g, rank, this)
      && registered == (if isLeaf then Flatten(g, rank, this) else [])
    }

    ghost predicate Good(g: Graph, rank: map<Port, nat>)
      requires Acyclic(g, rank) && this in g
      reads this
    {
      Pristine(g[this]) || Done(g, rank)
    }

    method AddInterface(i: nat)
      modifies this`interfaces
      ensures interfaces == old(interfaces) + [i]
    {
      interfaces := interfaces + [i];
    }

    method BindInterface(i: nat, ghost bs: seq<Bind>)
      requires Pristine(bs)
      modifies this
      ensures Pristine(bs + [ToInterface(i)]) && isLeaf == old(isLeaf)
    {
      hide Lead, Entries, Interfaces;
      LeadAppend(bs, ToInterface(i));
      EntriesAppend(bs, ToInterface(i));
      vec := vec + [BindElem(Some(i), null)];
      if !hasParent {
        AddInterface(i);
        lastAdd := lastAdd + 1;
        InterfacesStep(vec, |bs|);
        assert vec[..|bs|] == old(vec)[..Lead(bs)];
        assert vec[..|bs| + 1] == vec;
      } else {
        assert vec[..Lead(bs)] == old(vec)[..Lead(bs)];
      }
    }

    /** Binding a port to itself is reported and ignored. */
    method BindParent(parent: Port, ghost bs: seq<Bind>)
      requires Pristine(bs)
      modifies this, parent`isLeaf
      ensures parent != this ==> Pristine(bs + [ToParent(parent)]) && !parent.isLeaf && isLeaf == old(isLeaf)
      ensures parent == this ==> Pristine(bs) && isLeaf == old(isLeaf)
    {
      if parent == this {
        return;
      }
      hide Lead, Entries, Interfaces;
      LeadAppend(bs, ToParent(parent));
      EntriesAppend(bs, ToParent(parent));
      vec := vec + [BindElem(None, parent)];
      hasParent := true;
      parent.isLeaf := false;
      assert vec[..Lead(bs)] == old(vec)[..Lead(bs)];
    }

    method FirstParent() returns (i: int)
      ensures -1 <= i < |vec|
      ensures i >= 0 ==> vec[i].parent != null && forall j :: 0 <= j < i ==> vec[j].parent == null
      ensures i == -1 ==> forall j :: 0 <= j < |vec| ==> vec[j].parent == null
    {
      i := 0;
      while i < |vec|
        invariant 0 <= i <= |vec|
        invariant forall j :: 0 <= j < i ==> vec[j].parent == null
      {
        if vec[i].parent != null {
          return;
        }
        i := i + 1;
      }
      i := -1;
    }

    /** Makes room for n entries after position i. */
    method OpenGap(i: nat, n: nat)
      requires i < |vec|
      modifies this`vec
      ensures |vec| == |old(vec)| + n
      ensures vec[..i + 1] == old(vec)[..i + 1] && vec[i + 1 + n..] == old(vec)[i + 1..]
    {
      var k := 0;
      while k < n
        invariant 0 <= k <= n
        invariant |vec| == |old(vec)| + k && vec[..|old(vec)|] == old(vec)
      {
        vec := vec + [BindElem(None, null)];
        k := k + 1;
      }
      k := |vec| - n - 1;
      while k > i
        invariant i <= k <= |old(vec)| - 1
        invariant |vec| == |old(vec)| + n
        invariant forall j :: 0 <= j <= k ==> vec[j] == old(vec)[j]
        invariant forall j :: k < j < |old(vec)| ==> vec[j + n] == old(vec)[j]
      {
        vec := vec[k + n := vec[k]];
        k := k - 1;
      }
    }

    /** Replaces the parent entry at position i by the parent's entries. */
    method InsertParent(i: nat)
      requires i < |vec| && vec[i].parent != null && vec[i].parent != this && vec[i].iface == None
      requires forall e :: e in vec[i].parent.vec ==> e.parent == null
      modifies this`vec
      ensures var pv := old(vec[i].parent.vec);
              vec == old(vec)[..i] + (if pv == [] then [BindElem(None, null)] else pv) + old(vec)[i + 1..]
    {
      var parent := vec[i].parent;
      vec := vec[i := vec[i].(parent := null)];
      if |parent.vec| == 0 {
        return;
      }
      vec := vec[i := vec[i].(iface := parent.vec[0].iface)];
      assert parent.vec[0] in parent.vec && vec[i] == parent.vec[0];
      var n := |parent.vec| - 1;
      if n > 0 {
        OpenGap(i, n);
        var k := i + 1;
        while k <= i + n
          invariant i + 1 <= k <= i + n + 1
          invariant |vec| == |old(vec)| + n
          invariant vec[..i] == old(vec)[..i] && vec[i + 1 + n..] == old(vec)[i + 1..]
          invariant vec[i..k] == parent.vec[..k - i]
        {
          ghost var before := vec;
          assert parent.vec[k - i] in parent.vec;
          vec := vec[k := BindElem(parent.vec[k - i].iface, null)];
          assert vec[i..k] == before[i..k];
          k := k + 1;
        }
      }
    }

    /** Completes the parent bound k-th, whose entry is at position i, and replaces the
        entry by the parent's own. */
    method ExpandOne(i: nat, ghost g: Graph, ghost rank: map<Port, nat>, ghost k: nat) returns (ghost n: nat)
      requires Acyclic(g, rank) && this in g && Expanded(g, rank, this, vec, k, i)
      requires i < |vec| && vec[i].parent != null
      requires forall p :: p in Below(g, rank, rank[this]) && p != this ==> p.Good(g, rank)
      modifies Below(g, rank, rank[this])
      ensures k < |g[this]| && Expanded(g, rank, this, vec, k + 1, n)
      ensures forall p :: p in Below(g, rank, rank[this]) && p != this ==> p.Good(g, rank)
      ensures forall p :: p in Below(g, rank, rank[this]) ==>
                p.isLeaf == old(p.isLeaf) && (old(p.complete) ==> p.complete)
      ensures unchanged(this`complete, this`lastAdd, this`interfaces, this`registered)
      decreases rank[this], 0
    {
      hide Lead, Entries, Interfaces, FlattenAll, Flatten;
      ghost var bs := g[this];
      assert vec[i] == vec[i..][0] == Entries(bs)[k..][0] == Entry(bs[k]);
      assert bs[k] in bs;
      ghost var v := vec;
      var parent := vec[i].parent;
      parent.CompleteBinding(g, rank);
      assert this !in Below(g, rank, rank[parent]);
      ghost var pv := parent.vec;
      InsertParent(i);
      ExpandParent(g, rank, this, v, k, i, pv);
      n := i + (if pv == [] then 1 else |pv|);
    }

    /** Completes every parent, in order, and replaces its entry by the parent's own. */
    method ExpandParents(ghost g: Graph, ghost rank: map<Port, nat>)
      requires Acyclic(g, rank) && this in g && Pristine(g[this])
      requires forall p :: p in Below(g, rank, rank[this]) ==> p.Good(g, rank)
      modifies Below(g, rank, rank[this])
      ensures Expanded(g, rank, this, vec, |g[this]|, |vec|)
      ensures forall p :: p in Below(g, rank, rank[this]) && p != this ==> p.Good(g, rank)
      ensures forall p :: p in Below(g, rank, rank[this]) ==>
                p.isLeaf == old(p.isLeaf) && (old(p.complete) ==> p.complete)
      ensures unchanged(this`complete, this`lastAdd, this`interfaces, this`registered)
      decreases rank[this], 1
    {
      hide Lead, Entries, Interfaces, FlattenAll, Flatten, Good;
      ghost var k: nat, n: nat := 0, 0;
      NothingExpanded(g, rank, this);
      var i := FirstParent();
      while i >= 0
        invariant -1 <= i < |vec|
        invariant i >= 0 ==> vec[i].parent != null && forall j :: 0 <= j < i ==> vec[j].parent == null
        invariant i == -1 ==> forall j :: 0 <= j < |vec| ==> vec[j].parent == null
        invariant Expanded(g, rank, this, vec, k, n)
        invariant forall p :: p in Below(g, rank, rank[this]) && p != this ==> p.Good(g, rank)
        invariant forall p :: p in Below(g, rank, rank[this]) ==>
                p.isLeaf == old(p.isLeaf) && (old(p.complete) ==> p.complete)
        invariant unchanged(this`complete, this`lastAdd, this`interfaces, this`registered)
        decreases |g[this]| - k
      {
        assert i >= n;
        ExpandOver(g, rank, this, vec, k, n, i);
        k := k + (i - n);
        n := ExpandOne(i, g, rank, k);
        k := k + 1;
        i := FirstParent();
      }
      ExpandOver(g, rank, this, vec, k, n, |vec|);
    }

    /** Gives the interfaces of the completed entries to the port's users; a leaf port
        also registers with each of them. */
    method Publish(ghost lead: nat)
      requires lead <= |vec| && lastAdd == lead - 1 && registered == []
      requires interfaces == Interfaces(vec[..lead])
      requires forall j :: 0 <= j < lead ==> vec[j].iface.Some?
      modifies this`interfaces, this`registered
      ensures interfaces == Interfaces(vec)
      ensures registered == if isLeaf then Interfaces(vec) else []
    {
      hide Interfaces;
      NoInterfaces(vec);
      var j := 0;
      while j < |vec|
        invariant 0 <= j <= |vec|
        invariant interfaces == Interfaces(vec[..if j <= lead then lead else j])
        invariant registered == if isLeaf then Interfaces(vec[..j]) else []
      {
        InterfacesStep(vec, j);
        if vec[j].iface.Some? {
          var iface := vec[j].iface.value;
          if j > lastAdd {
            AddInterface(iface);
          }
          if isLeaf {
            registered := registered + [iface];
          }
        }
        j := j + 1;
      }
      assert vec[..|vec|] == vec;
    }

    method CompleteBinding(ghost g: Graph, ghost rank: map<Port, nat>)
      requires Acyclic(g, rank) && this in g
      requires forall p :: p in Below(g, rank, rank[this]) ==> p.Good(g, rank)
      modifies Below(g, rank, rank[this])
      ensures Done(g, rank)
      ensures forall p :: p in Below(g, rank, rank[this]) ==> p.Good(g, rank)
      ensures forall p :: p in Below(g, rank, rank[this]) ==>
                p.isLeaf == old(p.isLeaf) && (old(p.complete) ==> p.complete)
      decreases rank[this], 2
    {
      hide Lead, Entries, Interfaces, FlattenAll;
      assert this in Below(g, rank, rank[this]);
      if complete {
        return;
      }
      ghost var bs := g[this];
      ExpandParents(g, rank);
      assert bs[..|bs|] == bs && vec[..|vec|] == vec;
      assert vec[..Lead(bs)] == Entries(bs)[..Lead(bs)];
      assert forall j :: 0 <= j < Lead(bs) ==> vec[j] == vec[..Lead(bs)][j] == Entry(bs[j]);
      Publish(Lead(bs));
      complete := true;
    }
  }

  // ----- expansion --------------------------------------------------------

  /** The entries v of port p when its first k bindings have been expanded: they fill
      the vector up to position n, and the entries cached early have not moved. */
  ghost predicate Expanded(g: Graph, rank: map<Port, nat>, p: Port, v: seq<BindElem>, k: nat, n: nat)
    requires Acyclic(g, rank) && p in g
  {
    var bs := g[p];
    && k <= |bs| && k <= n <= |v| && |v| - n == |bs| - k
    && v[n..] == Entries(bs)[k..]
    && (forall j :: 0 <= j < n ==> v[j].parent == null)
    && ParentsBelow(g, rank, bs[..k], rank[p])
    && Interfaces(v[..n]) == FlattenAll(g, rank, bs[..k], rank[p])
    && Lead(bs) <= |v| && v[..Lead(bs)] == Entries(bs)[..Lead(bs)]
  }

  lemma NothingExpanded(g: Graph, rank: map<Port, nat>, p: Port)
    requires Acyclic(g, rank) && p in g
    ensures Expanded(g, rank, p, Entries(g[p]), 0, 0)
  {
  }

  lemma NoInterfaces(v: seq<BindElem>)
    ensures Interfaces(v[..0]) == []
  {
  }

  /** Entries without a parent extend the expanded part as they are. */
  lemma ExpandOver(g: Graph, rank: map<Port, nat>, p: Port, v: seq<BindElem>, k: nat, n: nat, i: nat)
    requires Acyclic(g, rank) && p in g && Expanded(g, rank, p, v, k, n)
    requires n <= i <= |v| && forall j :: 0 <= j < i ==> v[j].parent == null
    ensures Expanded(g, rank, p, v, k + (i - n), i)
  {
    hide Lead, Entries, Interfaces, FlattenAll;
    var bs := g[p];
    var m := k + (i - n);
    forall j | k <= j < m
      ensures bs[j].ToInterface?
    {
      assert v[n + (j - k)] == v[n..][j - k] == Entries(bs)[k..][j - k];
    }
    FlattenInterfaces(g, rank, bs, rank[p], k, m);
    assert v[n..i] == v[n..][..i - n] == Entries(bs)[k..][..i - n] == Entries(bs)[k..m];
    InterfacesConcat(v[..n], v[n..i]);
    assert v[..n] + v[n..i] == v[..i];
    assert v[i..] == v[n..][i - n..] == Entries(bs)[k..][i - n..] == Entries(bs)[m..];
  }

  /** A parent entry is replaced by the entries of its completed parent. */
  lemma ExpandParent(g: Graph, rank: map<Port, nat>, p: Port, v: seq<BindElem>, k: nat, i: nat, pv: seq<BindElem>)
    requires Acyclic(g, rank) && p in g && Expanded(g, rank, p, v, k, i)
    requires k < |g[p]| && g[p][k].ToParent?
    requires g[p][k] in g[p]
    requires forall e :: e in pv ==> e.parent == null
    requires Interfaces(pv) == Flatten(g, rank, g[p][k].parent)
    ensures var mid := if pv == [] then [BindElem(None, null)] else pv;
            Expanded(g, rank, p, v[..i] + mid + v[i + 1..], k + 1, i + |mid|)
  {
    UnboundIsEmpty();
    ExpandWith(g, rank, p, v, k, i, if pv == [] then [BindElem(None, null)] else pv);
  }

  lemma ExpandWith(g: Graph, rank: map<Port, nat>, p: Port, v: seq<BindElem>, k: nat, i: nat, mid: seq<BindElem>)
    requires Acyclic(g, rank) && p in g && Expanded(g, rank, p, v, k, i)
    requires k < |g[p]| && g[p][k].ToParent? && g[p][k] in g[p]
    requires mid != [] && forall e :: e in mid ==> e.parent == null
    requires Interfaces(mid) == Flatten(g, rank, g[p][k].parent)
    ensures Expanded(g, rank, p, v[..i] + mid + v[i + 1..], k + 1, i + |mid|)
  {
    hide Lead, Entries, FlattenAll, Flatten, Interfaces;
    var bs := g[p];
    Splice(v, i, mid);
    InterfacesConcat(v[..i], mid);
    FlattenStep(g, rank, bs, rank[p], k);
    assert v[i + 1..] == v[i..][1..] == Entries(bs)[k..][1..] == Entries(bs)[k + 1..];
    assert Lead(bs) <= k;
  }

  lemma Splice(v: seq<BindElem>, i: nat, mid: seq<BindElem>)
    requires i < |v|
    ensures var w := v[..i] + mid + v[i + 1..];
            && |w| == |v| + |mid| - 1
            && w[..i + |mid|] == v[..i] + mid && w[i + |mid|..] == v[i + 1..]
            && (forall j :: 0 <= j <= i ==> w[..j] == v[..j])
            && (forall j :: i <= j < i + |mid| ==> w[j] == mid[j - i])
  {
  }

  lemma UnboundIsEmpty()
    ensures Interfaces([]) == [] && Interfaces([BindElem(None, null)]) == []
  {
  }

  lemma FlattenStep(g: Graph, rank: map<Port, nat>, bs: seq<Bind>, r: nat, k: nat)
    requires Acyclic(g, rank) && ParentsBelow(g, rank, bs, r) && k < |bs|
    requires bs[k] in bs
    ensures FlattenAll(g, rank, bs[..k + 1], r) == FlattenAll(g, rank, bs[..k], r) + FlattenOne(g, rank, bs[k], r)
  {
    assert bs[..k + 1][..k] == bs[..k];
  }

  // ----- elaboration ------------------------------------------------------

  /** A bind call made on a port during elaboration. */
  datatype BindCall = BindCall(port: Port, bind: Bind)

  predicate IsSelfBind(c: BindCall) { c.bind.ToParent? && c.bind.parent == c.port }

  /** The bindings of p that a sequence of calls makes, in order; binding a port to
      itself makes none. */
  ghost function BoundBy(p: Port, calls: seq<BindCall>): seq<Bind> {
    if calls == [] then []
    else
      var last := calls[|calls| - 1];
      BoundBy(p, calls[..|calls| - 1]) + (if last.port == p && !IsSelfBind(last) then [last.bind] else [])
  }

  /** Some other port is bound to p. */
  ghost predicate HasChild(p: Port, calls: seq<BindCall>) {
    exists i :: 0 <= i < |calls| && calls[i].bind == ToParent(p) && calls[i].port != p
  }

  ghost predicate Bound(p: Port, calls: seq<BindCall>)
    reads p
  {
    p.Pristine(BoundBy(p, calls)) && (p.isLeaf <==> !HasChild(p, calls))
  }

  method Perform(c: BindCall, ghost before: seq<BindCall>, ghost ports: set<Port>)
    requires forall p :: p in ports ==> Bound(p, before)
    requires c.port in ports && (c.bind.ToParent? ==> c.bind.parent in ports)
    modifies ports
    ensures forall p :: p in ports ==> Bound(p, before + [c])
  {
    hide Lead, Entries, Interfaces, BoundBy, HasChild;
    ghost var bs := BoundBy(c.port, before);
    assert Bound(c.port, before);
    match c.bind {
      case ToInterface(iface) =>
        c.port.BindInterface(iface, bs);
      case ToParent(parent) =>
        assert Bound(parent, before);
        c.port.BindParent(parent, bs);
    }
    forall p | p in ports
      ensures Bound(p, before + [c])
    {
      CallStep(p, before, c);
      assert old(Bound(p, before));
      if p == c.port {
        assert IsSelfBind(c) ==> bs + [] == bs;
      } else {
        assert BoundBy(p, before + [c]) == BoundBy(p, before);
      }
    }
  }

  /** Any interleaving of bind calls leaves every port as its own calls, in order, say,
      and exactly the ports without children are leaves. */
  method BindAll(calls: seq<BindCall>, ghost ports: set<Port>)
    requires forall p :: p in ports ==> Bound(p, [])
    requires forall c :: c in calls ==> c.port in ports && (c.bind.ToParent? ==> c.bind.parent in ports)
    modifies ports
    ensures forall p :: p in ports ==> Bound(p, calls)
  {
    hide Bound;
    var i := 0;
    assert calls[..0] == [];
    while i < |calls|
      invariant 0 <= i <= |calls|
      invariant forall p :: p in ports ==> Bound(p, calls[..i])
    {
      assert calls[i] in calls;
      Perform(calls[i], calls[..i], ports);
      assert calls[..i] + [calls[i]] == calls[..i + 1];
      i := i + 1;
    }
    assert calls[..i] == calls;
  }

  lemma CallStep(p: Port, u: seq<BindCall>, c: BindCall)
    ensures BoundBy(p, u + [c]) == BoundBy(p, u) + (if c.port == p && !IsSelfBind(c) then [c.bind] else [])
    ensures HasChild(p, u + [c]) <==> HasChild(p, u) || (c.bind == ToParent(p) && c.port != p)
  {
    var w := u + [c];
    assert w[..|u|] == u;
    if HasChild(p, u) {
      var j :| 0 <= j < |u| && u[j].bind == ToParent(p) && u[j].port != p;
      assert w[j] == u[j];
    }
    if c.bind == ToParent(p) && c.port != p {
      assert w[|u|] == c;
    }
  }

  // ----- the registry -----------------------------------------------------

  /** Every port of the registry ends with the flattening of its bindings, whatever
      the order of the registry and whichever child completes a parent first. */
  method CompleteAll(ports: seq<Port>, ghost g: Graph, ghost rank: map<Port, nat>)
    requires Acyclic(g, rank)
    requires forall p :: p in g ==> p.Good(g, rank)
    requires forall p :: p in ports ==> p in g
    modifies g.Keys
    ensures forall p :: p in g ==> p.Good(g, rank)
    ensures forall p :: p in ports ==> p.Done(g, rank)
    ensures forall p :: p in g ==> p.isLeaf == old(p.isLeaf)
  {
    hide Lead, Entries, Interfaces, FlattenAll, Flatten, Acyclic;
    var i := |ports| - 1;
    while i >= 0
      invariant -1 <= i < |ports|
      invariant forall p :: p in g ==> p.Good(g, rank)
      invariant forall j :: i < j < |ports| ==> ports[j].complete
      invariant forall p :: p in g && old(p.complete) ==> p.complete
      invariant forall p :: p in g ==> p.isLeaf == old(p.isLeaf)
    {
      ports[i].CompleteBinding(g, rank);
      i := i - 1;
    }
    assert forall p :: p in ports ==> p.complete;
  }

  /** The binding graph that a sequence of calls makes. */
  ghost function GraphOf(ports: seq<Port>, calls: seq<BindCall>): Graph {
    map p | p in ports :: BoundBy(p, calls)
  }

  /** From the bind calls to the completed ports: if the calls make no cycle, every port of
      the registry gives its users the flattening of its own calls, and registers with those
      interfaces exactly if no other port was bound to it. */
  method Elaborate(ports: seq<Port>, calls: seq<BindCall>, ghost rank: map<Port, nat>)
    requires forall p :: p in ports ==> Bound(p, [])
    requires forall c :: c in calls ==> c.port in ports && (c.bind.ToParent? ==> c.bind.parent in ports)
    requires Acyclic(GraphOf(ports, calls), rank)
    modifies ports
    ensures forall p :: p in ports ==>
              && p.interfaces == Flatten(GraphOf(ports, calls), rank, p)
              && p.registered == if HasChild(p, calls) then [] else Flatten(GraphOf(ports, calls), rank, p)
  {
    hide Acyclic, Flatten, BoundBy, HasChild, Port.Pristine;
    ghost var g := GraphOf(ports, calls);
    ghost var all := set p | p in ports;
    BindAll(calls, all);
    assert forall p :: p in g ==> p.Good(g, rank);
    CompleteAll(ports, g, rank);
  }
}
