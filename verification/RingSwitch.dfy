/** The multicast packet switch: four input queues feed a ring of four registers
    that rotates past four outputs.  A packet may have several destinations.
 */
module RingSwitch {
  import opened Basics

  datatype Pkt = Pkt(data: int, id: int, dest0: bool, dest1: bool, dest2: bool, dest3: bool)

  predicate HasDest(p: Pkt, j: nat) {
    (j == 0 && p.dest0) || (j == 1 && p.dest1) || (j == 2 && p.dest2) || (j == 3 && p.dest3)
  }

  function ClearDest(p: Pkt, j: nat): Pkt {
    if j == 0 then p.(dest0 := false) else if j == 1 then p.(dest1 := false)
    else if j == 2 then p.(dest2 := false) else p.(dest3 := false)
  }

  predicate NoDest(p: Pkt) { !(p.dest0 || p.dest1 || p.dest2 || p.dest3) }

  /** A register of the ring.  `src`, `age`, `serial` and `arrived` only observe: the input the
      packet came from, the number of rotations since it was loaded, its number among all
      packets loaded, and the packet as it arrived. */
  datatype Reg = Reg(val: Pkt, free: bool, src: nat, age: nat, serial: nat, arrived: Pkt)

  /** A packet on its way out, with the input it came from. */
  datatype Out = Out(val: Pkt, src: nat)

  /** What identifies a packet of a flow. */
  datatype Label = Label(data: int, id: int)

  const CAPACITY: nat := 4

  /** `accepted`, `delivered` and `loaded` are histories. */
  datatype Switch = Switch(
    regs: seq<Reg>, inq: seq<seq<Pkt>>, outq: seq<seq<Out>>,
    pktCount: nat, dropCount: nat,
    accepted: seq<seq<Pkt>>, delivered: seq<seq<Out>>, loaded: nat)

  predicate Shaped(s: Switch) {
    |s.regs| == 4 && |s.inq| == 4 && |s.outq| == 4 && |s.accepted| == 4 && |s.delivered| == 4
  }

  const NO_PKT := Pkt(0, 0, false, false, false, false)

  const EMPTY_REG := Reg(NO_PKT, true, 0, 0, 0, NO_PKT)

  const INITIAL := Switch([EMPTY_REG, EMPTY_REG, EMPTY_REG, EMPTY_REG],
                          [[], [], [], []], [[], [], [], []], 0, 0,
                          [[], [], [], []], [[], [], [], []], 0)

  // ----- one wake-up of the switch ----------------------------------------

  function Arrive(s: Switch, i: nat, p: Pkt): (r: Switch)
    requires Shaped(s) && i < 4
    ensures Shaped(r)
  {
    if |s.inq[i]| == CAPACITY then s.(pktCount := s.pktCount + 1, dropCount := s.dropCount + 1)
    else s.(pktCount := s.pktCount + 1,
            inq := s.inq[i := s.inq[i] + [p]],
            accepted := s.accepted[i := s.accepted[i] + [p]])
  }

  function Load(s: Switch, i: nat): (r: Switch)
    requires Shaped(s) && i < 4
    ensures Shaped(r)
  {
    if s.inq[i] != [] && s.regs[i].free then
      s.(regs := s.regs[i := Reg(s.inq[i][0], false, i, 0, s.loaded, s.inq[i][0])],
         inq := s.inq[i := s.inq[i][1..]],
         loaded := s.loaded + 1)
    else s
  }

  function Older(r: Reg): Reg { r.(age := r.age + 1) }

  function Rotate(s: Switch): (r: Switch)
    requires Shaped(s)
    ensures Shaped(r)
  {
    s.(regs := [Older(s.regs[1]), Older(s.regs[2]), Older(s.regs[3]), Older(s.regs[0])])
  }

  /** Copies the packet in register k to output queue k if it is addressed there. */
  function Emit(s: Switch, k: nat): (r: Switch)
    requires Shaped(s) && k < 4
    ensures Shaped(r)
  {
    var reg := s.regs[k];
    if !reg.free && HasDest(reg.val, k) && |s.outq[k]| != CAPACITY then
      var val := ClearDest(reg.val, k);
      s.(outq := s.outq[k := s.outq[k] + [Out(reg.val, reg.src)]],
         regs := s.regs[k := reg.(val := val, free := NoDest(val))])
    else s
  }

  function WriteOut(s: Switch, k: nat): (r: Switch)
    requires Shaped(s) && k < 4
    ensures Shaped(r)
  {
    if s.outq[k] != [] then
      s.(outq := s.outq[k := s.outq[k][1..]],
         delivered := s.delivered[k := s.delivered[k] + [s.outq[k][0]]])
    else s
  }

  /** Which inputs have an event, and whether the control signal ticks. */
  datatype Inputs = Inputs(in0: Option<Pkt>, in1: Option<Pkt>, in2: Option<Pkt>, in3: Option<Pkt>, tick: bool)

  function ArriveIf(s: Switch, i: nat, p: Option<Pkt>): (r: Switch)
    requires Shaped(s) && i < 4
    ensures Shaped(r)
  {
    match p
    case None => s
    case Some(x) => Arrive(s, i, x)
  }

  function Tick(s: Switch): (r: Switch)
    requires Shaped(s)
    ensures Shaped(r)
  {
    var t := Emit(Emit(Emit(Emit(Rotate(s), 0), 1), 2), 3);
    WriteOut(WriteOut(WriteOut(WriteOut(t, 0), 1), 2), 3)
  }

  function Cycle(s: Switch, x: Inputs): (r: Switch)
    requires Shaped(s)
    ensures Shaped(r)
  {
    var a := ArriveIf(ArriveIf(ArriveIf(ArriveIf(s, 0, x.in0), 1, x.in1), 2, x.in2), 3, x.in3);
    var b := Load(Load(Load(Load(a, 0), 1), 2), 3);
    if x.tick then Tick(b) else b
  }

  function Execute(s: Switch, xs: seq<Inputs>): (r: Switch)
    requires Shaped(s)
    ensures Shaped(r)
  {
    if xs == [] then s else Cycle(Execute(s, xs[..|xs| - 1]), xs[|xs| - 1])
  }

  // ----- flows ------------------------------------------------------------

  /** The packets of a list addressed to j. */
  function AddressedTo(ps: seq<Pkt>, j: nat): seq<Label> {
    if ps == [] then []
    else AddressedTo(ps[..|ps| - 1], j) +
         (var p := ps[|ps| - 1]; if HasDest(p, j) then [Label(p.data, p.id)] else [])
  }

  /** The packets of a list that came from i. */
  function ComingFrom(os: seq<Out>, i: nat): seq<Label> {
    if os == [] then []
    else ComingFrom(os[..|os| - 1], i) +
         (var o := os[|os| - 1]; if o.src == i then [Label(o.val.data, o.val.id)] else [])
  }

  function InReg(r: Reg, i: nat, j: nat): seq<Label> {
    if !r.free && r.src == i && HasDest(r.val, j) then [Label(r.val.data, r.val.id)] else []
  }

  /** What register k holds of flow (i, j). */
  function At(s: Switch, k: nat, i: nat, j: nat): seq<Label>
    requires Shaped(s) && k < 4
  {
    InReg(s.regs[k], i, j)
  }

  /** The packets of flow (i, j) in the ring, oldest first: a packet of age a from
      input i is in register i - a, counted round the ring. */
  function InRing(s: Switch, i: nat, j: nat): seq<Label>
    requires Shaped(s) && i < 4
  {
    FromOldest(i, At(s, 0, i, j), At(s, 1, i, j), At(s, 2, i, j), At(s, 3, i, j))
  }

  function FromOldest(i: nat, c0: seq<Label>, c1: seq<Label>, c2: seq<Label>, c3: seq<Label>): seq<Label>
    requires i < 4
  {
    if i == 0 then c1 + c2 + c3 + c0
    else if i == 1 then c2 + c3 + c0 + c1
    else if i == 2 then c3 + c0 + c1 + c2
    else c0 + c1 + c2 + c3
  }

  /** Rotations after which a packet from input i first meets output j. */
  function Distance(i: nat, j: nat): int { if i > j then i - j else i + 4 - j }

  ghost predicate GoodReg(r: Reg, k: nat) {
    !r.free ==> r.src < 4 && (k + r.age) % 4 == r.src &&
                forall j :: 0 <= j < 4 && HasDest(r.val, j) ==> r.age < Distance(r.src, j)
  }

  ghost predicate GoodRing(s: Switch)
    requires Shaped(s)
  {
    GoodReg(s.regs[0], 0) && GoodReg(s.regs[1], 1) && GoodReg(s.regs[2], 2) && GoodReg(s.regs[3], 3)
  }

  /** Everything accepted from i for j is delivered, in the ring or queued, in that order. */
  ghost predicate FlowKept(s: Switch, i: nat, j: nat)
    requires Shaped(s) && i < 4 && j < 4
  {
    AddressedTo(s.accepted[i], j) == ComingFrom(s.delivered[j], i) + InRing(s, i, j) + AddressedTo(s.inq[i], j)
  }

  ghost predicate Quiescent(s: Switch)
    requires Shaped(s)
  {
    s.outq == [[], [], [], []]
  }

  ghost predicate Accounted(s: Switch)
    requires Shaped(s)
  {
    s.pktCount == s.dropCount + |s.inq[0]| + |s.inq[1]| + |s.inq[2]| + |s.inq[3]| + s.loaded
  }

  ghost predicate Inv(s: Switch) {
    && Shaped(s) && GoodRing(s) && Quiescent(s) && Accounted(s)
    && (forall i :: 0 <= i < 4 ==> |s.inq[i]| <= CAPACITY)
    && (forall i, j :: 0 <= i < 4 && 0 <= j < 4 ==> FlowKept(s, i, j))
  }

  // ----- arrival and loading ----------------------------------------------

  lemma AddressedAppend(ps: seq<Pkt>, p: Pkt, j: nat)
    ensures AddressedTo(ps + [p], j) == AddressedTo(ps, j) + (if HasDest(p, j) then [Label(p.data, p.id)] else [])
  {
    assert (ps + [p])[..|ps|] == ps;
  }

  lemma {:induction false} AddressedFront(ps: seq<Pkt>, j: nat)
    requires ps != []
    ensures AddressedTo(ps, j)
         == (if HasDest(ps[0], j) then [Label(ps[0].data, ps[0].id)] else []) + AddressedTo(ps[1..], j)
  {
    var last := |ps| - 1;
    if last > 0 {
      AddressedFront(ps[..last], j);
      assert ps[..last][1..] == ps[1..][..last - 1];
    }
  }

  lemma FromAppend(os: seq<Out>, o: Out, i: nat)
    ensures ComingFrom(os + [o], i) == ComingFrom(os, i) + (if o.src == i then [Label(o.val.data, o.val.id)] else [])
  {
    assert (os + [o])[..|os|] == os;
  }

  lemma ArriveKeepsFlow(s: Switch, k: nat, p: Pkt, i: nat, j: nat)
    requires Shaped(s) && k < 4 && i < 4 && j < 4 && FlowKept(s, i, j)
    ensures FlowKept(Arrive(s, k, p), i, j)
  {
    var r := Arrive(s, k, p);
    assert InRing(r, i, j) == InRing(s, i, j);
    if i == k && |s.inq[k]| != CAPACITY {
      hide InRing, AddressedTo, ComingFrom;
      AddressedAppend(s.accepted[k], p, j);
      AddressedAppend(s.inq[k], p, j);
    }
  }

  lemma ArriveKeeps(s: Switch, k: nat, p: Option<Pkt>)
    requires Inv(s) && k < 4
    ensures Inv(ArriveIf(s, k, p))
  {
    if p.Some? {
      var r := Arrive(s, k, p.value);
      hide FlowKept;
      forall i, j | 0 <= i < 4 && 0 <= j < 4
        ensures FlowKept(r, i, j)
      {
        ArriveKeepsFlow(s, k, p.value, i, j);
      }
    }
  }

  lemma LoadKeeps(s: Switch, k: nat)
    requires Inv(s) && k < 4
    ensures Inv(Load(s, k))
  {
    hide FlowKept;
    var r := Load(s, k);
    if s.inq[k] != [] && s.regs[k].free {
      forall i, j | 0 <= i < 4 && 0 <= j < 4
        ensures FlowKept(r, i, j)
      {
        LoadKeepsFlow(s, k, i, j);
      }
    }
  }

  /** A loaded packet becomes the youngest of its flows and leaves the others alone. */
  lemma LoadRing(s: Switch, k: nat, i: nat, j: nat)
    requires Shaped(s) && k < 4 && i < 4 && s.inq[k] != [] && s.regs[k].free
    ensures InRing(Load(s, k), i, j) == InRing(s, i, j) + (if i == k then At(Load(s, k), k, i, j) else [])
  {
    var r := Load(s, k);
    assert At(s, k, i, j) == [];
    assert i != k ==> At(r, k, i, j) == [];
    forall m | 0 <= m < 4 && m != k
      ensures At(r, m, i, j) == At(s, m, i, j)
    {
    }
  }

  lemma LoadKeepsFlow(s: Switch, k: nat, i: nat, j: nat)
    requires Shaped(s) && k < 4 && i < 4 && j < 4 && FlowKept(s, i, j)
    requires s.inq[k] != [] && s.regs[k].free
    ensures FlowKept(Load(s, k), i, j)
  {
    LoadRing(s, k, i, j);
    AddressedFront(s.inq[k], j);
    hide InRing, AddressedTo, ComingFrom;
    if i == k {
      Regroup(ComingFrom(s.delivered[j], i), InRing(s, i, j), At(Load(s, k), k, i, j), AddressedTo(s.inq[k][1..], j));
    }
  }

  lemma Regroup(a: seq<Label>, b: seq<Label>, c: seq<Label>, d: seq<Label>)
    ensures a + b + (c + d) == a + (b + c) + d
  {
  }

  // ----- a tick -----------------------------------------------------------

  /** A register that has just arrived at output k. */
  function AtOutput(r: Reg, k: nat): Reg {
    if !r.free && HasDest(r.val, k) then
      var val := ClearDest(r.val, k); r.(val := val, free := NoDest(val))
    else r
  }

  function Emitted(r: Reg, k: nat): seq<Out> {
    if !r.free && HasDest(r.val, k) then [Out(r.val, r.src)] else []
  }

  /** With empty output queues a tick rotates the ring and hands each output at most
      one packet; the output queues are empty again, so they are never full. */
  lemma TickForm(s: Switch)
    requires Shaped(s) && Quiescent(s)
    ensures var t := Tick(s);
            && Quiescent(t)
            && t.regs == [AtOutput(Older(s.regs[1]), 0), AtOutput(Older(s.regs[2]), 1),
                          AtOutput(Older(s.regs[3]), 2), AtOutput(Older(s.regs[0]), 3)]
            && t.delivered == [s.delivered[0] + Emitted(Older(s.regs[1]), 0),
                               s.delivered[1] + Emitted(Older(s.regs[2]), 1),
                               s.delivered[2] + Emitted(Older(s.regs[3]), 2),
                               s.delivered[3] + Emitted(Older(s.regs[0]), 3)]
            && t.inq == s.inq && t.accepted == s.accepted && t.loaded == s.loaded
            && t.pktCount == s.pktCount && t.dropCount == s.dropCount
  {
    var r := Rotate(s);
    EmitForm(r, 0);
    var e0 := Emit(r, 0);
    EmitForm(e0, 1);
    var e1 := Emit(e0, 1);
    EmitForm(e1, 2);
    var e2 := Emit(e1, 2);
    EmitForm(e2, 3);
    var e3 := Emit(e2, 3);
    WriteOutForm(e3, 0);
    var w0 := WriteOut(e3, 0);
    WriteOutForm(w0, 1);
    var w1 := WriteOut(w0, 1);
    WriteOutForm(w1, 2);
    var w2 := WriteOut(w1, 2);
    WriteOutForm(w2, 3);
    hide Emit, WriteOut, AtOutput, Emitted;
  }

  lemma EmitForm(s: Switch, k: nat)
    requires Shaped(s) && k < 4 && s.outq[k] == []
    ensures Emit(s, k) == s.(outq := s.outq[k := Emitted(s.regs[k], k)], regs := s.regs[k := AtOutput(s.regs[k], k)])
    ensures |Emitted(s.regs[k], k)| <= 1
  {
    var reg := s.regs[k];
    if !reg.free && HasDest(reg.val, k) {
      assert [] + [Out(reg.val, reg.src)] == [Out(reg.val, reg.src)];
    } else {
      assert s.outq[k := []] == s.outq;
      assert s.regs[k := reg] == s.regs;
    }
  }

  lemma WriteOutForm(s: Switch, k: nat)
    requires Shaped(s) && k < 4 && |s.outq[k]| <= 1
    ensures WriteOut(s, k) == s.(outq := s.outq[k := []], delivered := s.delivered[k := s.delivered[k] + s.outq[k]])
  {
    if s.outq[k] == [] {
      assert s.outq[k := []] == s.outq;
      assert s.delivered[k] + s.outq[k] == s.delivered[k];
      assert s.delivered[k := s.delivered[k]] == s.delivered;
    } else {
      assert s.outq[k] == [s.outq[k][0]];
      assert s.outq[k][1..] == [];
    }
  }

  /** Where a packet of flow (i, j) can be: its age is fixed by its place, and below the
      distance to j. */
  lemma PlaceBoundsAge(r: Reg, k: nat, i: nat, j: nat)
    requires GoodReg(r, k) && k < 4 && i < 4 && j < 4 && InReg(r, i, j) != []
    ensures r.age == (i + 4 - k) % 4 < Distance(i, j)
  {
  }

  lemma NotYetThere(r: Reg, k: nat, j: nat)
    requires r.src < 4 && k < 4 && j < 4 && j != k
    requires ((k + 1) % 4 + r.age) % 4 == r.src && r.age < Distance(r.src, j)
    ensures r.age + 1 < Distance(r.src, j)
  {
  }

  /** One step of a register to output k. */
  lemma RegAtOutput(r: Reg, k: nat)
    requires k < 4 && GoodReg(r, (k + 1) % 4)
    ensures GoodReg(AtOutput(Older(r), k), k)
  {
    var q := AtOutput(Older(r), k);
    if !q.free {
      forall j | 0 <= j < 4 && HasDest(q.val, j)
        ensures q.age < Distance(q.src, j)
      {
        assert j != k && HasDest(r.val, j);
        NotYetThere(r, k, j);
      }
    }
  }

  lemma RegAtOutputFlow(r: Reg, k: nat, i: nat, j: nat)
    requires k < 4 && j < 4
    ensures InReg(AtOutput(Older(r), k), i, j) == if k == j then [] else InReg(r, i, j)
  {
  }

  lemma EmittedFlow(os: seq<Out>, r: Reg, i: nat, j: nat)
    ensures ComingFrom(os + Emitted(Older(r), j), i) == ComingFrom(os, i) + InReg(r, i, j)
  {
    if !r.free && HasDest(r.val, j) {
      FromAppend(os, Out(r.val, r.src), i);
    } else {
      assert os + Emitted(Older(r), j) == os;
    }
  }

  /** A flow by age, oldest first, before a tick is what the tick delivers followed by
      the flow after it: the packet that meets its output is the oldest. */
  lemma ShiftByAge(e3: seq<Label>, e2: seq<Label>, e1: seq<Label>, e0: seq<Label>, dist: int)
    requires 1 <= dist <= 4
    requires (e3 != [] ==> dist > 3) && (e2 != [] ==> dist > 2) && (e1 != [] ==> dist > 1)
    ensures e3 + e2 + e1 + e0
         == (if dist == 1 then e0 else if dist == 2 then e1 else if dist == 3 then e2 else e3)
            + ((if dist == 3 then [] else e2) + (if dist == 2 then [] else e1)
               + (if dist == 1 then [] else e0) + (if dist == 4 then [] else e3))
  {
    if dist == 1 {
      assert [] + e0 == e0 && e0 + [] == e0;
    } else if dist == 2 {
      assert [] + e1 + e0 == e1 + ([] + [] + e0 + []);
    } else if dist == 3 {
      assert [] + e2 + e1 + e0 == e2 + ([] + e1 + e0 + []);
    } else {
      assert e3 + e2 + e1 + e0 == e3 + (e2 + e1 + e0 + []);
    }
  }

  /** Where register k of the ring comes from at a tick. */
  lemma TickMoves(s: Switch, k: nat)
    requires Shaped(s) && Quiescent(s) && k < 4
    ensures Tick(s).regs[k] == AtOutput(Older(s.regs[(k + 1) % 4]), k)
    ensures Tick(s).accepted == s.accepted && Tick(s).inq == s.inq && Tick(s).loaded == s.loaded
  {
    hide Tick, AtOutput, Emitted;
    TickForm(s);
  }

  lemma FlowMoves(s: Switch, k: nat, i: nat, j: nat)
    requires Shaped(s) && Quiescent(s) && k < 4 && j < 4
    ensures At(Tick(s), k, i, j) == if k == j then [] else At(s, (k + 1) % 4, i, j)
  {
    hide Tick, AtOutput, InReg;
    TickMoves(s, k);
    RegAtOutputFlow(s.regs[(k + 1) % 4], k, i, j);
  }

  lemma PlaceBounds(s: Switch, k: nat, i: nat, j: nat)
    requires Shaped(s) && GoodRing(s) && k < 4 && i < 4 && j < 4
    ensures At(s, k, i, j) != [] ==> (i + 4 - k) % 4 < Distance(i, j)
  {
    hide GoodReg, InReg, Distance;
    if At(s, k, i, j) != [] {
      PlaceBoundsAge(s.regs[k], k, i, j);
    }
  }

  /** The packet that a tick delivers to j is the oldest of its flow in the ring. */
  lemma RingShift(s: Switch, i: nat, j: nat)
    requires Shaped(s) && Quiescent(s) && GoodRing(s) && i < 4 && j < 4
    ensures InRing(s, i, j) == At(s, (j + 1) % 4, i, j) + InRing(Tick(s), i, j)
  {
    hide Tick, At, GoodRing, FromOldest;
    forall k | 0 <= k < 4
      ensures At(Tick(s), k, i, j) == if k == j then [] else At(s, (k + 1) % 4, i, j)
      ensures At(s, k, i, j) != [] ==> (i + 4 - k) % 4 < Distance(i, j)
    {
      FlowMoves(s, k, i, j);
      PlaceBounds(s, k, i, j);
    }
    ShiftByPlace(i, j, At(s, 0, i, j), At(s, 1, i, j), At(s, 2, i, j), At(s, 3, i, j));
  }

  lemma ShiftByPlace(i: nat, j: nat, c0: seq<Label>, c1: seq<Label>, c2: seq<Label>, c3: seq<Label>)
    requires i < 4 && j < 4
    requires (c0 != [] ==> (i + 4) % 4 < Distance(i, j)) && (c1 != [] ==> (i + 3) % 4 < Distance(i, j))
    requires (c2 != [] ==> (i + 2) % 4 < Distance(i, j)) && (c3 != [] ==> (i + 1) % 4 < Distance(i, j))
    ensures FromOldest(i, c0, c1, c2, c3)
         == (if j == 0 then c1 else if j == 1 then c2 else if j == 2 then c3 else c0)
            + FromOldest(i, if j == 0 then [] else c1, if j == 1 then [] else c2,
                            if j == 2 then [] else c3, if j == 3 then [] else c0)
  {
    if i == 0 {
      ShiftByAge(c1, c2, c3, c0, Distance(0, j));
    } else if i == 1 {
      ShiftByAge(c2, c3, c0, c1, Distance(1, j));
    } else if i == 2 {
      ShiftByAge(c3, c0, c1, c2, Distance(2, j));
    } else {
      ShiftByAge(c0, c1, c2, c3, Distance(3, j));
    }
  }

  lemma TickKeepsFlow(s: Switch, i: nat, j: nat)
    requires Shaped(s) && Quiescent(s) && GoodRing(s) && i < 4 && j < 4 && FlowKept(s, i, j)
    ensures FlowKept(Tick(s), i, j)
  {
    hide Tick, InRing, AddressedTo, ComingFrom, Emitted, AtOutput, GoodRing;
    TickForm(s);
    RingShift(s, i, j);
    var r := s.regs[(j + 1) % 4];
    EmittedFlow(s.delivered[j], r, i, j);
    assert Tick(s).delivered[j] == s.delivered[j] + Emitted(Older(r), j);
    Regroup3(ComingFrom(s.delivered[j], i), InReg(r, i, j), InRing(Tick(s), i, j), AddressedTo(s.inq[i], j));
  }

  lemma Regroup3(a: seq<Label>, b: seq<Label>, c: seq<Label>, d: seq<Label>)
    ensures a + (b + c) + d == (a + b) + c + d
  {
  }

  lemma TickKeeps(s: Switch)
    requires Inv(s)
    ensures Inv(Tick(s))
  {
    hide Tick, FlowKept, GoodReg, AtOutput, Emitted;
    TickForm(s);
    RegAtOutput(s.regs[1], 0);
    RegAtOutput(s.regs[2], 1);
    RegAtOutput(s.regs[3], 2);
    RegAtOutput(s.regs[0], 3);
    forall i, j | 0 <= i < 4 && 0 <= j < 4
      ensures FlowKept(Tick(s), i, j)
    {
      TickKeepsFlow(s, i, j);
    }
  }

  lemma CycleKeeps(s: Switch, x: Inputs)
    requires Inv(s)
    ensures Inv(Cycle(s, x))
  {
    hide ArriveIf, Load, Tick, GoodRing, Quiescent, Accounted, FlowKept;
    ArriveKeeps(s, 0, x.in0);
    var a0 := ArriveIf(s, 0, x.in0);
    ArriveKeeps(a0, 1, x.in1);
    var a1 := ArriveIf(a0, 1, x.in1);
    ArriveKeeps(a1, 2, x.in2);
    var a2 := ArriveIf(a1, 2, x.in2);
    ArriveKeeps(a2, 3, x.in3);
    var a3 := ArriveIf(a2, 3, x.in3);
    LoadKeeps(a3, 0);
    var b0 := Load(a3, 0);
    LoadKeeps(b0, 1);
    var b1 := Load(b0, 1);
    LoadKeeps(b1, 2);
    var b2 := Load(b1, 2);
    LoadKeeps(b2, 3);
    if x.tick {
      TickKeeps(Load(b2, 3));
    }
  }

  lemma {:induction false} RunKeeps(xs: seq<Inputs>)
    ensures Inv(Execute(INITIAL, xs))
  {
    if xs == [] {
      InitialInv();
    } else {
      RunKeeps(xs[..|xs| - 1]);
      CycleKeeps(Execute(INITIAL, xs[..|xs| - 1]), xs[|xs| - 1]);
    }
  }

  lemma InitialInv()
    ensures Inv(INITIAL)
  {
    forall i, j | 0 <= i < 4 && 0 <= j < 4
      ensures FlowKept(INITIAL, i, j)
    {
      assert INITIAL.accepted[i] == [] && INITIAL.inq[i] == [] && INITIAL.delivered[j] == [];
    }
  }

  // ----- results over all runs --------------------------------------------

  /** Per-flow order: what output j has delivered from input i is a prefix of what was
      accepted from i for j; the rest is in the ring and then in the input queue. */
  lemma FlowsKeepOrder(xs: seq<Inputs>, i: nat, j: nat)
    requires i < 4 && j < 4
    ensures var s := Execute(INITIAL, xs);
            && ComingFrom(s.delivered[j], i) <= AddressedTo(s.accepted[i], j)
            && AddressedTo(s.accepted[i], j)
               == ComingFrom(s.delivered[j], i) + InRing(s, i, j) + AddressedTo(s.inq[i], j)
  {
    RunKeeps(xs);
    assert FlowKept(Execute(INITIAL, xs), i, j);
  }

  /** Output queues are empty between ticks, no input queue overflows, and every packet
      counted is dropped, queued or was loaded into the ring. */
  lemma PacketsAccounted(xs: seq<Inputs>)
    ensures var s := Execute(INITIAL, xs);
            && s.outq == [[], [], [], []]
            && (forall i :: 0 <= i < 4 ==> |s.inq[i]| <= CAPACITY)
            && s.pktCount == s.dropCount + |s.inq[0]| + |s.inq[1]| + |s.inq[2]| + |s.inq[3]| + s.loaded
  {
    RunKeeps(xs);
  }

  // ----- arrival and loading, input by input ------------------------------

  function PktAt(x: Inputs, i: nat): Option<Pkt> {
    if i == 0 then x.in0 else if i == 1 then x.in1 else if i == 2 then x.in2 else x.in3
  }

  /** A packet that arrives is accepted exactly if fewer than four are queued at its input. */
  function AcceptedNow(s: Switch, i: nat, p: Option<Pkt>): seq<Pkt>
    requires Shaped(s) && i < 4
  {
    if p.Some? && |s.inq[i]| < 4 then [p.value] else []
  }

  function DroppedNow(s: Switch, i: nat, p: Option<Pkt>): nat
    requires Shaped(s) && i < 4
  {
    if p.Some? && |s.inq[i]| >= 4 then 1 else 0
  }

  function ArrivedNow(p: Option<Pkt>): nat { if p.Some? then 1 else 0 }

  lemma ArriveEffect(s: Switch, k: nat, p: Option<Pkt>, i: nat)
    requires Shaped(s) && k < 4 && i < 4 && |s.inq[k]| <= 4
    ensures var r := ArriveIf(s, k, p);
            && r.regs == s.regs && r.pktCount == s.pktCount + ArrivedNow(p)
            && r.dropCount == s.dropCount + DroppedNow(s, k, p)
            && r.inq[i] == s.inq[i] + (if i == k then AcceptedNow(s, k, p) else [])
            && r.accepted[i] == s.accepted[i] + (if i == k then AcceptedNow(s, k, p) else [])
  {
  }

  lemma LoadEffect(s: Switch, k: nat, i: nat)
    requires Shaped(s) && k < 4 && i < 4
    ensures var r := Load(s, k);
            && r.pktCount == s.pktCount && r.dropCount == s.dropCount && r.accepted == s.accepted
            && if i == k && s.regs[i].free && s.inq[i] != [] then
                 && r.regs[i] == Reg(s.inq[i][0], false, i, 0, s.loaded, s.inq[i][0])
                 && r.inq[i] == s.inq[i][1..]
               else r.regs[i] == s.regs[i] && r.inq[i] == s.inq[i]
  {
  }

  /** The four arrivals, seen at input i. */
  lemma ArriveAll(s: Switch, x: Inputs, i: nat)
    requires Inv(s) && i < 4
    ensures var a := ArriveIf(ArriveIf(ArriveIf(ArriveIf(s, 0, x.in0), 1, x.in1), 2, x.in2), 3, x.in3);
            && a.regs == s.regs
            && a.inq[i] == s.inq[i] + AcceptedNow(s, i, PktAt(x, i))
            && a.accepted[i] == s.accepted[i] + AcceptedNow(s, i, PktAt(x, i))
            && a.pktCount
               == s.pktCount + ArrivedNow(x.in0) + ArrivedNow(x.in1) + ArrivedNow(x.in2) + ArrivedNow(x.in3)
            && a.dropCount == s.dropCount + DroppedNow(s, 0, x.in0) + DroppedNow(s, 1, x.in1)
                              + DroppedNow(s, 2, x.in2) + DroppedNow(s, 3, x.in3)
  {
    hide ArriveIf, FlowKept, GoodRing, Accounted;
    var a0, a1, a2 := ArriveIf(s, 0, x.in0), ArriveIf(ArriveIf(s, 0, x.in0), 1, x.in1),
                      ArriveIf(ArriveIf(ArriveIf(s, 0, x.in0), 1, x.in1), 2, x.in2);
    forall m | 0 <= m < 4
      ensures 1 <= m ==> a0.inq[m] == s.inq[m]
      ensures 2 <= m ==> a1.inq[m] == s.inq[m]
      ensures 3 <= m ==> a2.inq[m] == s.inq[m]
    {
      ArriveEffect(s, 0, x.in0, m);
      if m >= 1 {
        assert s.inq[m] + [] == s.inq[m];
        ArriveKeeps(s, 0, x.in0);
        ArriveEffect(a0, 1, x.in1, m);
        if m >= 2 {
          ArriveKeeps(a0, 1, x.in1);
          ArriveEffect(a1, 2, x.in2, m);
        }
      }
    }
    ArriveKeeps(s, 0, x.in0);
    ArriveKeeps(a0, 1, x.in1);
    ArriveKeeps(a1, 2, x.in2);
    ArriveEffect(s, 0, x.in0, i);
    ArriveEffect(a0, 1, x.in1, i);
    ArriveEffect(a1, 2, x.in2, i);
    ArriveEffect(a2, 3, x.in3, i);
    assert forall q: seq<Pkt> :: q + [] == q;
  }

  lemma LoadAll(a: Switch, i: nat)
    requires Shaped(a) && i < 4
    ensures var b := Load(Load(Load(Load(a, 0), 1), 2), 3);
            && b.pktCount == a.pktCount && b.dropCount == a.dropCount && b.accepted == a.accepted
            && if a.regs[i].free && a.inq[i] != [] then
                 && b.inq[i] == a.inq[i][1..]
                 && exists n :: b.regs[i] == Reg(a.inq[i][0], false, i, 0, n, a.inq[i][0])
               else b.regs[i] == a.regs[i] && b.inq[i] == a.inq[i]
  {
    hide Load;
    LoadEffect(a, 0, i);
    var b0 := Load(a, 0);
    LoadEffect(b0, 1, i);
    var b1 := Load(b0, 1);
    LoadEffect(b1, 2, i);
    var b2 := Load(b1, 2);
    LoadEffect(b2, 3, i);
  }

  /** In every run, before the ring moves in a wake-up: each packet that arrives is counted, and it is
      dropped exactly if four are queued at its input; a free register whose input has a packet
      queued takes the oldest, and no other register or queue changes. */
  lemma WakeUpTakesAll(xs: seq<Inputs>, x: Inputs, i: nat)
    requires i < 4 && !x.tick
    ensures var s := Execute(INITIAL, xs);
            var r := Cycle(s, x);
            var q := s.inq[i] + AcceptedNow(s, i, PktAt(x, i));
            && r.accepted[i] == s.accepted[i] + AcceptedNow(s, i, PktAt(x, i))
            && r.pktCount == s.pktCount + ArrivedNow(x.in0) + ArrivedNow(x.in1) + ArrivedNow(x.in2) + ArrivedNow(x.in3)
            && r.dropCount == s.dropCount + DroppedNow(s, 0, x.in0) + DroppedNow(s, 1, x.in1)
                              + DroppedNow(s, 2, x.in2) + DroppedNow(s, 3, x.in3)
            && if s.regs[i].free && q != [] then
                 r.inq[i] == q[1..] && exists n :: r.regs[i] == Reg(q[0], false, i, 0, n, q[0])
               else r.regs[i] == s.regs[i] && r.inq[i] == q
  {
    hide ArriveIf, Load, Execute, Inv, Tick;
    RunKeeps(xs);
    var s := Execute(INITIAL, xs);
    ArriveAll(s, x, i);
    LoadAll(ArriveIf(ArriveIf(ArriveIf(ArriveIf(s, 0, x.in0), 1, x.in1), 2, x.in2), 3, x.in3), i);
  }

  /** And a tick comes after that. */
  lemma TickComesLast(s: Switch, x: Inputs)
    requires Shaped(s)
    ensures Cycle(s, x.(tick := true)) == Tick(Cycle(s, x.(tick := false)))
  {
  }

  // ----- latency ----------------------------------------------------------

  /** Registers in use hold different packets, each of them accepted; one that arrived with a
      destination has one left. */
  ghost predicate Tagged(s: Switch) {
    && Shaped(s)
    && (forall k :: 0 <= k < 4 ==> GoodTag(s, s.regs[k]))
    && (forall k, m :: 0 <= k < m < 4 && !s.regs[k].free && !s.regs[m].free ==> s.regs[k].serial != s.regs[m].serial)
    && (forall i, p :: 0 <= i < 4 && p in s.inq[i] ==> p in s.accepted[i])
  }

  ghost predicate GoodTag(s: Switch, r: Reg)
    requires Shaped(s)
  {
    !r.free ==>
      && r.serial < s.loaded && r.src < 4 && r.arrived in s.accepted[r.src]
      && (NoDest(r.val) <==> NoDest(r.arrived))
  }

  /** If packet n is in the ring it has made `age` rotations and arrived as p. */
  ghost predicate Tracked(s: Switch, n: nat, age: nat, p: Pkt)
    requires Shaped(s)
  {
    forall k :: 0 <= k < 4 && !s.regs[k].free && s.regs[k].serial == n ==>
                  s.regs[k].age == age && s.regs[k].arrived == p
  }

  /** Packet n is in the ring. */
  ghost predicate Holds(s: Switch, n: nat)
    requires Shaped(s)
  {
    exists k :: 0 <= k < 4 && !s.regs[k].free && s.regs[k].serial == n
  }

  function Ticks(xs: seq<Inputs>): nat {
    if xs == [] then 0 else Ticks(xs[..|xs| - 1]) + (if xs[|xs| - 1].tick then 1 else 0)
  }

  /** A packet to follow, or none: its number, its rotations and how it arrived. */
  datatype Followed = Nobody | Packet(n: nat, age: nat, p: Pkt)

  function Later(f: Followed, ticks: nat): Followed {
    if f.Packet? then f.(age := f.age + ticks) else f
  }

  /** The tags are right, and the followed packet, if in the ring, is as it should be; an idler is. */
  ghost predicate Known(s: Switch, f: Followed) {
    && Tagged(s)
    && (f.Packet? ==> f.n < s.loaded && Tracked(s, f.n, f.age, f.p) && (NoDest(f.p) ==> Holds(s, f.n)))
  }

  lemma ArriveKnown(s: Switch, i: nat, x: Option<Pkt>, f: Followed)
    requires Known(s, f) && i < 4
    ensures Known(ArriveIf(s, i, x), f)
  {
    assert ArriveIf(s, i, x).regs == s.regs;
  }

  lemma LoadTags(s: Switch, i: nat)
    requires Tagged(s) && i < 4 && s.inq[i] != [] && s.regs[i].free
    ensures Tagged(Load(s, i))
  {
    assert s.inq[i][0] in s.inq[i];
  }

  lemma LoadKnown(s: Switch, i: nat, f: Followed)
    requires Known(s, f) && i < 4
    ensures Known(Load(s, i), f)
  {
    if s.inq[i] != [] && s.regs[i].free {
      LoadTags(s, i);
      if f.Packet? && NoDest(f.p) {
        var k :| 0 <= k < 4 && !s.regs[k].free && s.regs[k].serial == f.n;
        assert Load(s, i).regs[k] == s.regs[k];
      }
    }
  }

  lemma TickTags(s: Switch)
    requires Tagged(s) && Quiescent(s)
    ensures Tagged(Tick(s))
  {
    hide Tick;
    forall k | 0 <= k < 4
      ensures GoodTag(Tick(s), Tick(s).regs[k])
    {
      TickMoves(s, k);
    }
    forall k, m | 0 <= k < m < 4 && !Tick(s).regs[k].free && !Tick(s).regs[m].free
      ensures Tick(s).regs[k].serial != Tick(s).regs[m].serial
    {
      TickMoves(s, k);
      TickMoves(s, m);
    }
    TickMoves(s, 0);
  }

  /** A tick moves a packet without destination on and does not free its register. */
  lemma IdlerStays(s: Switch, k: nat)
    requires Tagged(s) && Quiescent(s) && k < 4 && !s.regs[k].free && NoDest(s.regs[k].arrived)
    ensures Tick(s).regs[(k + 3) % 4] == Older(s.regs[k])
  {
    hide Tick;
    TickMoves(s, (k + 3) % 4);
    assert GoodTag(s, s.regs[k]);
  }

  lemma TickTracks(s: Switch, n: nat, age: nat, p: Pkt)
    requires Shaped(s) && Quiescent(s) && Tracked(s, n, age, p)
    ensures Tracked(Tick(s), n, age + 1, p)
  {
    hide Tick;
    forall k | 0 <= k < 4 && !Tick(s).regs[k].free && Tick(s).regs[k].serial == n
      ensures Tick(s).regs[k].age == age + 1 && Tick(s).regs[k].arrived == p
    {
      TickMoves(s, k);
    }
  }

  lemma TickKnown(s: Switch, f: Followed)
    requires Known(s, f) && Quiescent(s)
    ensures Known(Tick(s), Later(f, 1))
  {
    hide Tick;
    TickTags(s);
    TickMoves(s, 0);
    if f.Packet? {
      TickTracks(s, f.n, f.age, f.p);
      if NoDest(f.p) {
        var k :| 0 <= k < 4 && !s.regs[k].free && s.regs[k].serial == f.n;
        IdlerStays(s, k);
        assert Tick(s).regs[(k + 3) % 4].serial == f.n;
      }
    }
  }

  lemma CycleKnown(s: Switch, x: Inputs, f: Followed)
    requires Known(s, f) && Inv(s)
    ensures Known(Cycle(s, x), Later(f, if x.tick then 1 else 0))
  {
    hide ArriveIf, Load, Tick, Known, FlowKept, GoodRing, Accounted;
    ArriveKnown(s, 0, x.in0, f);
    var a0 := ArriveIf(s, 0, x.in0);
    ArriveKnown(a0, 1, x.in1, f);
    var a1 := ArriveIf(a0, 1, x.in1);
    ArriveKnown(a1, 2, x.in2, f);
    var a2 := ArriveIf(a1, 2, x.in2);
    ArriveKnown(a2, 3, x.in3, f);
    var a3 := ArriveIf(a2, 3, x.in3);
    LoadKnown(a3, 0, f);
    var b0 := Load(a3, 0);
    LoadKnown(b0, 1, f);
    var b1 := Load(b0, 1);
    LoadKnown(b1, 2, f);
    var b2 := Load(b1, 2);
    LoadKnown(b2, 3, f);
    if x.tick {
      CycleKeeps(s, x.(tick := false));
      TickKnown(Load(b2, 3), f);
    }
  }

  lemma {:induction false} ContinueKnown(s: Switch, xs: seq<Inputs>, f: Followed)
    requires Shaped(s) && Known(s, f) && Inv(s)
    ensures Known(Execute(s, xs), Later(f, Ticks(xs))) && Inv(Execute(s, xs))
  {
    hide Known, Inv, Cycle;
    if xs != [] {
      var last := |xs| - 1;
      var s' := Execute(s, xs[..last]);
      ContinueKnown(s, xs[..last], f);
      CycleKnown(s', xs[last], Later(f, Ticks(xs[..last])));
      CycleKeeps(s', xs[last]);
    }
  }

  lemma AgeBounded(r: Reg, k: nat)
    requires GoodReg(r, k)
    ensures !r.free && !NoDest(r.val) ==> r.age < 4
  {
    assert HasDest(r.val, 0) || HasDest(r.val, 1) || HasDest(r.val, 2) || HasDest(r.val, 3) || NoDest(r.val);
  }

  lemma StillHeld(s: Switch, f: Followed)
    requires Known(s, f) && Inv(s) && f.Packet? && Holds(s, f.n) && f.age >= 4
    ensures NoDest(f.p)
  {
    var k :| 0 <= k < 4 && !s.regs[k].free && s.regs[k].serial == f.n;
    assert GoodTag(s, s.regs[k]) && GoodReg(s.regs[k], k);
    AgeBounded(s.regs[k], k);
  }

  lemma {:induction false} Continued(s: Switch, xs: seq<Inputs>, more: seq<Inputs>)
    requires Shaped(s)
    ensures Execute(s, xs + more) == Execute(Execute(s, xs), more)
  {
    if more == [] {
      assert xs + more == xs;
    } else {
      var last := |more| - 1;
      Continued(s, xs, more[..last]);
      assert (xs + more)[..|xs + more| - 1] == xs + more[..last];
    }
  }

  lemma RunKnown(xs: seq<Inputs>)
    ensures Inv(Execute(INITIAL, xs)) && Known(Execute(INITIAL, xs), Nobody)
  {
    hide Execute;
    InitialInv();
    assert Known(INITIAL, Nobody);
    hide Known, Inv;
    ContinueKnown(INITIAL, xs, Nobody);
  }

  lemma Follow(s: Switch, k: nat)
    requires Known(s, Nobody) && k < 4 && !s.regs[k].free
    ensures var r := s.regs[k];
            Known(s, Packet(r.serial, r.age, r.arrived)) && r.src < 4 && r.arrived in s.accepted[r.src]
  {
    assert GoodTag(s, s.regs[k]);
  }

  lemma IdlerHeld(s: Switch, f: Followed)
    requires Known(s, f) && f.Packet? && NoDest(f.p)
    ensures exists k :: 0 <= k < 4 && !s.regs[k].free && s.regs[k].serial == f.n && s.regs[k].arrived == f.p
  {
    var k :| 0 <= k < 4 && !s.regs[k].free && s.regs[k].serial == f.n;
    assert s.regs[k].arrived == f.p;
  }

  /** For every packet in the ring, in every run and whatever arrives after: it was accepted
      from its input; four or more rotations after it was loaded it is still in the ring if and
      only if it arrived without a destination; and then it never leaves. */
  lemma LeavesWithinFourTicks(xs: seq<Inputs>, k: nat, more: seq<Inputs>)
    requires k < 4 && !Execute(INITIAL, xs).regs[k].free
    ensures var s := Execute(INITIAL, xs);
            var r := s.regs[k];
            && r.src < 4 && r.arrived in s.accepted[r.src]
            && (NoDest(r.arrived) ==> Holds(Execute(s, more), r.serial))
            && (r.age + Ticks(more) >= 4 ==> (Holds(Execute(s, more), r.serial) <==> NoDest(r.arrived)))
  {
    hide Execute, Known, Inv;
    var s := Execute(INITIAL, xs);
    var r := s.regs[k];
    var f := Packet(r.serial, r.age, r.arrived);
    RunKnown(xs);
    Follow(s, k);
    ContinueKnown(s, more, f);
    var e := Execute(s, more);
    if NoDest(r.arrived) {
      IdlerHeld(e, Later(f, Ticks(more)));
    }
    if Holds(e, r.serial) && r.age + Ticks(more) >= 4 {
      StillHeld(e, Later(f, Ticks(more)));
    }
  }

  lemma FirstLoaded(p: Pkt)
    ensures Execute(INITIAL, [Inputs(Some(p), None, None, None, false)]).regs[0] == Reg(p, false, 0, 0, 0, p)
  {
    var x := Inputs(Some(p), None, None, None, false);
    assert [x][..0] == [] && Execute(INITIAL, []) == INITIAL;
    assert Execute(INITIAL, [x]) == Cycle(INITIAL, x);
    hide Execute, Tick;
    var a := Arrive(INITIAL, 0, p);
    assert [] + [p] == [p];
    assert a.inq == [[p], [], [], []] && a.regs == INITIAL.regs;
    var b := Load(a, 0);
    assert b.regs[0] == Reg(p, false, 0, 0, 0, p);
    assert Load(b, 1) == b && Load(b, 2) == b && Load(b, 3) == b;
  }

  /** A run with such a packet: it arrives at input 0 of the idle switch and stays, whatever
      comes after. */
  lemma IdlerNeverLeaves(p: Pkt, more: seq<Inputs>)
    requires NoDest(p)
    ensures var s := Execute(INITIAL, [Inputs(Some(p), None, None, None, false)] + more);
            exists k :: 0 <= k < 4 && !s.regs[k].free && s.regs[k].arrived == p
  {
    hide Execute, Known, Inv;
    var first := [Inputs(Some(p), None, None, None, false)];
    FirstLoaded(p);
    RunKnown(first);
    Follow(Execute(INITIAL, first), 0);
    ContinueKnown(Execute(INITIAL, first), more, Packet(0, 0, p));
    Continued(INITIAL, first, more);
    IdlerHeld(Execute(INITIAL, first + more), Packet(0, Ticks(more), p));
  }
}
