/** The event queue as an object: the pending times are in the heap, and each method
    takes the step of the model on their sorted sequence.
 */
module EventQueueObject {
  import opened Events
  import opened PriorityQueues
  import M = EventQueue

  class TimedEventQueue {
    var now: nat
    var event: Notification
    const ppq: PriorityQueue
    ghost var rest: M.Queue  // the kernel's side of the state and the histories

    ghost predicate Valid()
      reads this, ppq, ppq.heap
    {
      ppq.Valid()
    }

    ghost function View(): M.Queue
      reads this, ppq
    {
      rest.(now := now, event := event, times := ppq.sorted)
    }

    constructor ()
      ensures Valid() && View() == M.INITIAL && fresh(ppq) && fresh(ppq.heap)
    {
      now, event, rest := 0, Idle, M.INITIAL;
      ppq := new PriorityQueue(128);
    }

    method Notify(when: nat)
      requires Valid()
      modifies this, ppq, ppq.heap
      ensures Valid() && View() == M.Notify(old(View()), when)
      ensures ppq.heap == old(ppq.heap) || fresh(ppq.heap)
    {
      var t := now + when;
      var first := ppq.size == 0;
      if !first {
        var top := ppq.Top();
        first := t < top;
      }
      if first {
        event := NotifyAfter(event, now, when);
      }
      ppq.Add(t);
      rest := rest.(asked := rest.asked + [t]);
    }

    method CancelAll()
      requires Valid()
      modifies this, ppq, ppq.heap
      ensures Valid() && View() == M.CancelAll(old(View()))
      ensures ppq.heap == old(ppq.heap)
    {
      ghost var all := ppq.sorted;
      while ppq.size > 0
        invariant Valid() && ppq.heap == old(ppq.heap)
        invariant now == old(now) && event == old(event) && rest == old(rest)
        decreases ppq.size
      {
        var _ := ppq.ExtractTop();
      }
      event := Idle;
      rest := rest.(cancelled := rest.cancelled + all);
    }

    /** `ok` is the assertion; when it fails the simulation ends. */
    method FireEvent() returns (ok: bool)
      requires Valid() && !View().failed
      modifies this, ppq, ppq.heap
      ensures ok <==> !M.FireEvent(old(View())).failed
      ensures ok ==> Valid() && View() == M.FireEvent(old(View()))
      ensures ppq.heap == old(ppq.heap)
    {
      rest := rest.(runnable := false, ran := true);
      if ppq.size == 0 {
        rest := rest.(idle := rest.idle + [now]);
        return true;
      }
      var t := ppq.ExtractTop();
      ok := t == now;
      if ok && ppq.size > 0 {
        var top := ppq.Top();
        event := NotifyAfter(event, now, top - now);
      }
    }
  }
}
