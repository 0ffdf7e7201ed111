/** The packet switch as a program: shifting four-entry queues and ring registers
    updated in place.  Each method is proved to be the corresponding step of
    `RingSwitch`, so the results about all runs hold of this code.
 */
module RingSwitchObject {
  import opened Basics
  import opened M = RingSwitch

  class Fifo<T(0)> {
    const regs: array<T>
    var full: bool
    var empty: bool
    var pntr: nat

    ghost predicate Valid()
      reads this
    {
      regs.Length == CAPACITY && pntr <= CAPACITY && full == (pntr == CAPACITY) && empty == (pntr == 0)
    }

    ghost function Contents(): seq<T>
      requires Valid()
      reads this, regs
    {
      regs[..pntr]
    }

    constructor ()
      ensures Valid() && fresh(regs) && Contents() == []
    {
      regs := new T[CAPACITY];
      full, empty, pntr := false, true, 0;
    }

    method PktIn(p: T)
      requires Valid() && !full
      modifies this, regs
      ensures Valid() && Contents() == old(Contents()) + [p]
    {
      regs[pntr] := p;
      pntr := pntr + 1;
      empty := false;
      if pntr == CAPACITY {
        full := true;
      }
    }

    method PktOut() returns (p: T)
      requires Valid() && !empty
      modifies this, regs
      ensures Valid() && [p] + Contents() == old(Contents())
    {
      p := regs[0];
      pntr := pntr - 1;
      if pntr == 0 {
        empty := true;
      } else {
        regs[0] := regs[1];
        regs[1] := regs[2];
        regs[2] := regs[3];
        full := false;
      }
    }
  }

  ghost predicate Apart<T(0)>(qs: seq<Fifo<T>>) {
    |qs| == 4 && forall i, j :: 0 <= i < j < 4 ==> qs[i] != qs[j] && qs[i].regs != qs[j].regs
  }

  /** The queues and registers are separate objects. */
  ghost predicate AllSeparate(inq: seq<Fifo<Pkt>>, outq: seq<Fifo<Out>>, regs: array<Reg>) {
    && Apart(inq) && Apart(outq) && regs.Length == 4
    && (forall i, j :: 0 <= i < 4 && 0 <= j < 4 ==>
          (inq[i] as object) != outq[j] && (inq[i].regs as object) != outq[j].regs)
    && (forall i :: 0 <= i < 4 ==> (inq[i].regs as object) != regs && (outq[i].regs as object) != regs)
  }

  ghost predicate AllEmpty<T(0)>(qs: seq<Fifo<T>>)
    reads qs, set q | q in qs :: q.regs
  {
    forall q :: q in qs ==> q.Valid() && q.Contents() == []
  }

  method NewQueues<T(0)>() returns (qs: seq<Fifo<T>>)
    ensures Apart(qs) && AllEmpty(qs)
    ensures forall q :: q in qs ==> fresh(q) && fresh(q.regs)
  {
    var a := new Fifo<T>();
    var b := new Fifo<T>();
    var c := new Fifo<T>();
    var d := new Fifo<T>();
    qs := [a, b, c, d];
  }

  class SwitchObject {
    const regs: array<Reg>
    const inq: seq<Fifo<Pkt>>
    const outq: seq<Fifo<Out>>
    var pktCount: nat
    var dropCount: nat
    var loaded: nat
    ghost var view: Switch  // the abstract state, histories included

    ghost const Repr: set<object>

    ghost predicate Separate() {
      && AllSeparate(inq, outq, regs)
      && this in Repr && regs in Repr
      && (forall i :: 0 <= i < 4 ==> inq[i] in Repr && inq[i].regs in Repr && outq[i] in Repr && outq[i].regs in Repr)
    }

    ghost predicate Valid()
      reads this, Repr
    {
      && Separate() && Shaped(view)
      && (forall i :: 0 <= i < 4 ==> inq[i].Valid() && view.inq[i] == inq[i].Contents())
      && (forall i :: 0 <= i < 4 ==> outq[i].Valid() && view.outq[i] == outq[i].Contents())
      && view.regs == regs[..] && view.pktCount == pktCount && view.dropCount == dropCount && view.loaded == loaded
    }

    constructor (inputs: seq<Fifo<Pkt>>, outputs: seq<Fifo<Out>>, ring: array<Reg>)
      requires AllSeparate(inputs, outputs, ring) && AllEmpty(inputs) && AllEmpty(outputs)
      requires ring[..] == INITIAL.regs
      ensures Valid() && view == INITIAL && inq == inputs && outq == outputs && regs == ring
    {
      inq, outq, regs := inputs, outputs, ring;
      pktCount, dropCount, loaded := 0, 0, 0;
      view := INITIAL;
      Repr := {this, ring, inputs[0], inputs[1], inputs[2], inputs[3], outputs[0], outputs[1], outputs[2], outputs[3],
               inputs[0].regs, inputs[1].regs, inputs[2].regs, inputs[3].regs,
               outputs[0].regs, outputs[1].regs, outputs[2].regs, outputs[3].regs};
      new;
      forall i | 0 <= i < 4
        ensures inq[i].Valid() && inq[i].Contents() == [] && outq[i].Valid() && outq[i].Contents() == []
      {
        assert inputs[i] in inputs && outputs[i] in outputs;
      }
    }

    method ArriveAt(i: nat, p: Pkt)
      requires Valid() && i < 4
      modifies Repr
      ensures Valid() && view == Arrive(old(view), i, p)
    {
      pktCount := pktCount + 1;
      if inq[i].full {
        dropCount := dropCount + 1;
      } else {
        inq[i].PktIn(p);
      }
      view := Arrive(view, i, p);
    }

    method LoadAt(i: nat)
      requires Valid() && i < 4
      modifies Repr
      ensures Valid() && view == Load(old(view), i)
    {
      assert regs[i] == view.regs[i];
      if !inq[i].empty && regs[i].free {
        var p := inq[i].PktOut();
        regs[i] := Reg(p, false, i, 0, loaded, p);
        loaded := loaded + 1;
      }
      view := Load(view, i);
    }

    method RotateRing()
      requires Valid()
      modifies Repr
      ensures Valid() && view == Rotate(old(view))
    {
      assert regs[..] == [regs[0], regs[1], regs[2], regs[3]];
      var temp := regs[0];
      regs[0] := Older(regs[1]);
      regs[1] := Older(regs[2]);
      regs[2] := Older(regs[3]);
      regs[3] := Older(temp);
      view := Rotate(view);
    }

    method EmitAt(k: nat)
      requires Valid() && k < 4
      modifies Repr
      ensures Valid() && view == Emit(old(view), k)
    {
      var reg := regs[k];
      assert reg == view.regs[k];
      if !reg.free && HasDest(reg.val, k) && !outq[k].full {
        outq[k].PktIn(Out(reg.val, reg.src));
        var val := ClearDest(reg.val, k);
        regs[k] := reg.(val := val, free := NoDest(val));
      }
      view := Emit(view, k);
    }

    method WriteOutAt(k: nat) returns (out: Option<Out>)
      requires Valid() && k < 4
      modifies Repr
      ensures Valid() && view == WriteOut(old(view), k)
      ensures out == if old(view).outq[k] == [] then None else Some(old(view).outq[k][0])
    {
      out := None;
      if !outq[k].empty {
        var p := outq[k].PktOut();
        out := Some(p);
      }
      view := WriteOut(view, k);
    }
  }

  /** The process's local variables before its main loop. */
  method NewSwitch() returns (sw: SwitchObject)
    ensures sw.Valid() && sw.view == INITIAL
  {
    var inputs := NewQueues<Pkt>();
    var outputs := NewQueues<Out>();
    var ring := new Reg[4];
    ring[0], ring[1], ring[2], ring[3] := EMPTY_REG, EMPTY_REG, EMPTY_REG, EMPTY_REG;
    forall i | 0 <= i < 4
      ensures inputs[i] in inputs && outputs[i] in outputs
    {
    }
    sw := new SwitchObject(inputs, outputs, ring);
  }

  /** One wake-up of the switch's process. */
  method RunCycle(sw: SwitchObject, x: Inputs)
    requires sw.Valid()
    modifies sw.Repr
    ensures sw.Valid() && sw.view == Cycle(old(sw.view), x)
  {
    hide Arrive, Load, Rotate, Emit, WriteOut, SwitchObject.Valid;
    if x.in0.Some? { sw.ArriveAt(0, x.in0.value); }
    if x.in1.Some? { sw.ArriveAt(1, x.in1.value); }
    if x.in2.Some? { sw.ArriveAt(2, x.in2.value); }
    if x.in3.Some? { sw.ArriveAt(3, x.in3.value); }
    sw.LoadAt(0);
    sw.LoadAt(1);
    sw.LoadAt(2);
    sw.LoadAt(3);
    if x.tick {
      RunTick(sw);
    }
  }

  method RunTick(sw: SwitchObject)
    requires sw.Valid()
    modifies sw.Repr
    ensures sw.Valid() && sw.view == Tick(old(sw.view))
  {
    hide Arrive, Load, Rotate, Emit, WriteOut, SwitchObject.Valid;
    sw.RotateRing();
    sw.EmitAt(0);
    sw.EmitAt(1);
    sw.EmitAt(2);
    sw.EmitAt(3);
    var out0 := sw.WriteOutAt(0);
    var out1 := sw.WriteOutAt(1);
    var out2 := sw.WriteOutAt(2);
    var out3 := sw.WriteOutAt(3);
  }
}
