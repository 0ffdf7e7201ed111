/** The payload event queue as the object it is: lists and event updated in place,
    `fec` a method with loops.  Each method is proved to be the corresponding step
    of `PeqModel`, so the results about all runs hold of this code.

    The kernel's time, delta count and trigger flag are fields here, and the owner's
    callback is given by a script of what it asks for.
 */
module PeqObject {
  import opened Events
  import opened TimeOrderedLists
  import M = PeqModel

  class PayloadEventQueue {
    var now: nat
    var delta: nat
    var event: Notification
    var runnable: bool
    const ppq: TimeOrderedList<M.Item>
    var unevenDelta: seq<M.Item>
    var evenDelta: seq<M.Item>
    var immediateYield: seq<M.Item>
    var sent: seq<M.Item>
    var delivered: seq<M.Delivery>
    ghost var cancelled: seq<M.Item>

    ghost predicate Valid()
      reads this, ppq, ppq.Repr
    {
      ppq.Valid() && this !in ppq.Repr
    }

    ghost function View(): M.Peq
      reads this, ppq
    {
      M.Peq(now, delta, event, runnable, ppq.contents, unevenDelta, evenDelta, immediateYield,
            sent, delivered, cancelled)
    }

    constructor ()
      ensures Valid() && fresh(ppq.Repr) && View() == M.INITIAL
    {
      now, delta, event, runnable := 0, 0, Idle, false;
      ppq := new TimeOrderedList<M.Item>();
      unevenDelta, evenDelta, immediateYield := [], [], [];
      sent, delivered, cancelled := [], [], [];
    }

    method Notify(payload: int, when: nat)
      requires Valid()
      modifies this, ppq.Repr
      ensures Valid() && fresh(ppq.Repr - old(ppq.Repr))
      ensures View() == M.Notify(old(View()), payload, when)
    {
      if when == 0 {
        var item := M.Item(|sent|, payload, M.AtDelta(delta + 1, now));
        if delta % 2 == 1 {
          evenDelta := evenDelta + [item];
        } else {
          unevenDelta := unevenDelta + [item];
        }
        sent := sent + [item];
      } else {
        var item := M.Item(|sent|, payload, M.AtTime(now + when));
        ppq.Insert(item, now + when);
        sent := sent + [item];
      }
      event := NotifyAfter(event, now, when);
    }

    method NotifyNow(payload: int, inside: bool)
      modifies this
      ensures View() == M.NotifyNow(old(View()), payload, inside)
    {
      var item := M.Item(|sent|, payload, M.AtOnce(delta, now));
      immediateYield := immediateYield + [item];
      sent := sent + [item];
      event := Idle;
      runnable := runnable || !inside;
    }

    method CancelAll()
      requires Valid()
      modifies this, ppq.Repr
      ensures Valid() && ppq.Repr == old(ppq.Repr)
      ensures View() == M.CancelAll(old(View()))
    {
      cancelled := cancelled + M.Pending(View());
      ppq.Reset();
      unevenDelta, evenDelta, immediateYield := [], [], [];
      event := Idle;
    }

    method AskOne(r: M.Request)
      requires Valid()
      modifies this, ppq.Repr
      ensures Valid() && fresh(ppq.Repr - old(ppq.Repr))
      ensures View() == M.Ask(old(View()), r, true)
    {
      hide M.Notify, M.NotifyNow;
      match r {
        case After(payload, when) => Notify(payload, when);
        case Now(payload) => NotifyNow(payload, true);
      }
    }

    /** The owner's callback: deliver the payload and carry out the requests. */
    method Callback(item: M.Item, script: M.Script)
      requires Valid()
      modifies this, ppq.Repr
      ensures Valid() && fresh(ppq.Repr - old(ppq.Repr))
      ensures View() == M.Call(old(View()), item, script)
    {
      hide M.Ask;
      var rs := if |delivered| < |script| then script[|delivered|] else [];
      delivered := delivered + [M.Delivery(item, now, delta)];
      ghost var start := View();
      var i := 0;
      while i < |rs|
        invariant 0 <= i <= |rs|
        invariant Valid() && fresh(ppq.Repr - old(ppq.Repr))
        invariant M.AskAll(View(), rs[i..]) == M.AskAll(start, rs)
      {
        assert rs[i..][1..] == rs[i + 1..];
        AskOne(rs[i]);
        i := i + 1;
      }
    }

    method YieldImmediate(script: M.Script)
      requires Valid()
      modifies this, ppq.Repr
      ensures Valid() && fresh(ppq.Repr - old(ppq.Repr))
      ensures View() == M.DrainImmediate(old(View()), 0, script)
    {
      hide M.Ask;
      var out := 0;
      while out < |immediateYield|
        invariant Valid() && fresh(ppq.Repr - old(ppq.Repr))
        invariant M.DrainImmediate(View(), out, script) == M.DrainImmediate(old(View()), 0, script)
        decreases M.CallsLeft(View(), script), |immediateYield| - out
      {
        Callback(immediateYield[out], script);
        out := out + 1;
      }
      immediateYield := [];
    }

    method YieldUneven(script: M.Script)
      requires Valid() && delta % 2 == 1
      modifies this, ppq.Repr
      ensures Valid() && fresh(ppq.Repr - old(ppq.Repr))
      ensures View() == M.RearmDelta(M.DrainDelta(old(View()), 0, script))
    {
      hide M.AskAll;
      var out := 0;
      while out < |unevenDelta|
        invariant Valid() && fresh(ppq.Repr - old(ppq.Repr)) && delta == old(delta)
        invariant M.DrainDelta(View(), out, script) == M.DrainDelta(old(View()), 0, script)
        decreases |unevenDelta| - out
      {
        Callback(unevenDelta[out], script);
        out := out + 1;
      }
      unevenDelta := [];
      if |evenDelta| != 0 {
        event := NotifyAfter(event, now, 0);
      }
    }

    method YieldEven(script: M.Script)
      requires Valid() && delta % 2 != 1
      modifies this, ppq.Repr
      ensures Valid() && fresh(ppq.Repr - old(ppq.Repr))
      ensures View() == M.RearmDelta(M.DrainDelta(old(View()), 0, script))
    {
      hide M.AskAll;
      var out := 0;
      while out < |evenDelta|
        invariant Valid() && fresh(ppq.Repr - old(ppq.Repr)) && delta == old(delta)
        invariant M.DrainDelta(View(), out, script) == M.DrainDelta(old(View()), 0, script)
        decreases |evenDelta| - out
      {
        Callback(evenDelta[out], script);
        out := out + 1;
      }
      evenDelta := [];
      if |unevenDelta| != 0 {
        event := NotifyAfter(event, now, 0);
      }
    }

    /** One turn of the loop over the time ordered list. */
    method DeliverTop(script: M.Script)
      requires Valid() && ppq.size != 0
      modifies this, ppq.Repr
      ensures Valid() && fresh(ppq.Repr - old(ppq.Repr))
      ensures View() == M.DeleteTop(M.Call(old(View()), old(ppq.list.p), script))
    {
      hide M.Call;
      Callback(ppq.list.p, script);
      ppq.DeleteTop();
    }

    method Rearm()
      requires Valid()
      modifies this
      ensures Valid()
      ensures View() == M.RearmTimed(old(View()))
    {
      if ppq.size != 0 && ppq.list.t >= now {
        event := NotifyAfter(event, now, ppq.list.t - now);
      }
    }

    method YieldTimed(script: M.Script)
      requires Valid()
      modifies this, ppq.Repr
      ensures Valid() && fresh(ppq.Repr - old(ppq.Repr))
      ensures View() == M.RearmTimed(M.DrainTimed(old(View()), script))
    {
      hide M.Call, M.CallsLeft, M.DeleteTop, M.RearmTimed;
      while ppq.size != 0 && ppq.list.t == now
        invariant Valid() && fresh(ppq.Repr - old(ppq.Repr))
        invariant M.DrainTimed(View(), script) == M.DrainTimed(old(View()), script)
        decreases M.CallsLeft(View(), script), |ppq.contents|
      {
        M.TopProgress(View(), script);
        DeliverTop(script);
      }
      Rearm();
    }

    method Fec(script: M.Script)
      requires Valid()
      modifies this, ppq.Repr
      ensures Valid() && fresh(ppq.Repr - old(ppq.Repr))
      ensures View() == M.Fec(old(View()), script)
    {
      hide M.DrainImmediate, M.DrainDelta, M.DrainTimed, M.RearmDelta, M.RearmTimed;
      runnable := false;
      YieldImmediate(script);
      if delta % 2 == 1 {
        YieldUneven(script);
      } else {
        YieldEven(script);
      }
      if ppq.size == 0 {
        return;
      }
      YieldTimed(script);
    }
  }
}
