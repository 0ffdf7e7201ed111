/** The event queue: any number of notifications multiplexed onto one event, on the
    sorted sequence of pending times.
 */
module EventQueue {
  import opened Basics
  import opened Events
  import opened PriorityQueues

  /** A trigger of the queue's event: when, and in which delta cycle. */
  datatype Trigger = Trigger(time: nat, delta: nat)

  /** `ran` records that some process ran in this evaluation phase, `failed` that the
      assertion in `fire_event` failed; `asked`, `triggers`, `cancelled` and `idle` (the
      times at which `fire_event` found the queue empty) are histories. */
  datatype Queue = Queue(
    now: nat, delta: nat, ran: bool,
    event: Notification, runnable: bool,
    times: seq<nat>,
    asked: seq<nat>, triggers: seq<Trigger>, cancelled: seq<nat>, idle: seq<nat>, failed: bool)

  const INITIAL := Queue(0, 0, false, Idle, false, [], [], [], [], [], false)

  function Notify(q: Queue, when: nat): Queue {
    var t := q.now + when;
    q.(event := if q.times == [] || t < q.times[0] then NotifyAfter(q.event, q.now, when) else q.event,
       times := Insert(q.times, t),
       asked := q.asked + [t])
  }

  function CancelAll(q: Queue): Queue {
    q.(times := [], cancelled := q.cancelled + q.times, event := Idle)
  }

  function FireEvent(q: Queue): Queue {
    var r := q.(runnable := false, ran := true);
    if q.times == [] then r.(idle := q.idle + [q.now])
    else if q.times[0] != q.now then r.(failed := true)
    else
      var rest := q.times[1..];
      r.(times := rest,
         event := if rest == [] then q.event
                  else NotifyAfter(q.event, q.now, if rest[0] >= q.now then rest[0] - q.now else 0))
  }

  datatype Step = NotifyStep(when: nat) | CancelStep | FireStep | EndDelta(evaluated: bool) | Advance(to: nat)

  /** A failed assertion ends the simulation. */
  predicate Enabled(q: Queue, step: Step) {
    && !q.failed
    && match step
       case NotifyStep(_) => true
       case CancelStep => true
       case FireStep => q.runnable
       case EndDelta(evaluated) => !q.runnable && (q.ran ==> evaluated)
       case Advance(to) =>
         !q.runnable && !q.ran && !q.event.Delta? && to > q.now && (q.event.Timed? ==> to <= q.event.at)
  }

  function TriggerNow(q: Queue): Queue {
    q.(event := Idle, runnable := true, triggers := q.triggers + [Trigger(q.now, q.delta)])
  }

  function Apply(q: Queue, step: Step): Queue
    requires Enabled(q, step)
  {
    match step
    case NotifyStep(when) => Notify(q, when)
    case CancelStep => CancelAll(q)
    case FireStep => FireEvent(q)
    case EndDelta(evaluated) =>
      var r := q.(ran := false, delta := if evaluated then q.delta + 1 else q.delta);
      if q.event.Delta? then TriggerNow(r) else r
    case Advance(to) =>
      var r := q.(now := to);
      if q.event == Timed(to) then TriggerNow(r) else r
  }

  predicate IsRun(q: Queue, steps: seq<Step>)
    decreases |steps|
  {
    steps == [] || (Enabled(q, steps[0]) && IsRun(Apply(q, steps[0]), steps[1..]))
  }

  function Execute(q: Queue, steps: seq<Step>): Queue
    requires IsRun(q, steps)
    decreases |steps|
  {
    if steps == [] then q else Execute(Apply(q, steps[0]), steps[1..])
  }

  // ----- the surplus trigger ----------------------------------------------

  /** What a user can tell from the calls alone.  Cancelling between a trigger and
      `fire_event` leaves a trigger with no entry: `fire_event` will run now (`running`) or
      in the next delta cycle, with `due` zero-delay entries for this moment and, if `later`
      is set, entries for later times. */
  datatype Watch = Calm | Surplus(due: nat, later: bool, running: bool) | Broken

  function Follow(w: Watch, runnable: bool, step: Step): Watch {
    match w
    case Calm => if step.CancelStep? && runnable then Surplus(0, false, true) else Calm
    case Broken => Broken
    case Surplus(due, later, running) =>
      match step
      case NotifyStep(when) =>
        if when > 0 then Surplus(due, true, running)
        else if running then Surplus(due + 1, later, running)
        else Calm
      case CancelStep => if running then Surplus(0, false, true) else Calm
      case FireStep =>
        if due == 0 then (if later then Broken else Calm)
        else if due == 1 then Surplus(0, later, false)
        else Calm
      case EndDelta(_) => Surplus(due, later, true)
      case Advance(_) => w
  }

  function Watched(q: Queue, w: Watch, steps: seq<Step>): Watch
    requires IsRun(q, steps)
    decreases |steps|
  {
    if steps == [] then w else Watched(Apply(q, steps[0]), Follow(w, q.runnable, steps[0]), steps[1..])
  }

  // ----- the invariant ----------------------------------------------------

  ghost function TriggersAt(ts: seq<Trigger>, t: nat): nat {
    if ts == [] then 0 else TriggersAt(ts[..|ts| - 1], t) + (if ts[|ts| - 1].time == t then 1 else 0)
  }

  /** The queue is non-empty exactly when its event is pending for the earliest time,
      or has triggered for it. */
  ghost predicate Armed(q: Queue) {
    if q.times == [] then q.event == Idle && !q.runnable
    else if q.runnable then q.event == Idle && q.times[0] == q.now
    else q.event == (if q.times[0] == q.now then Delta else Timed(q.times[0]))
  }

  /** The first `due` entries are for `now`, and there are others exactly if `later`. */
  ghost predicate Split(s: seq<nat>, now: nat, due: nat, later: bool) {
    && due <= |s| && (forall i :: 0 <= i < due ==> s[i] == now)
    && (later <==> due < |s|) && (due < |s| ==> now < s[due])
  }

  ghost predicate Follows(q: Queue, w: Watch) {
    match w
    case Calm => Armed(q)
    case Broken => false
    case Surplus(due, later, running) =>
      && q.runnable == running && Split(q.times, q.now, due, later)
      && if !running then due == 0 && q.event == Delta
         else if due > 0 then q.event == Delta
         else q.event == Idle || (later && q.event == Timed(q.times[0]))
  }

  /** Every notification is still queued, cancelled, or has its own trigger; while
      `fire_event` is runnable the earliest entry and its trigger are both there, and a
      trigger whose `fire_event` found nothing stays unmatched. */
  ghost predicate Balanced(q: Queue, t: nat) {
    Times(q.asked, t) + (if q.runnable && t == q.now then 1 else 0) + Times(q.idle, t)
    == Times(q.times, t) + Times(q.cancelled, t) + TriggersAt(q.triggers, t)
  }

  ghost predicate SeparateDeltas(q: Queue) {
    && (forall i, j :: 0 <= i < j < |q.triggers| ==> q.triggers[i].delta < q.triggers[j].delta)
    && (forall x :: x in q.triggers ==> x.delta < q.delta || (x.delta == q.delta && (q.runnable || q.ran)))
  }

  ghost predicate Ordered(q: Queue) {
    Sorted(q.times) && (forall t :: t in q.times ==> t >= q.now)
  }

  ghost predicate Inv(q: Queue, w: Watch) {
    && (q.failed <==> w.Broken?)
    && SeparateDeltas(q)
    && (!q.failed ==> Ordered(q) && Follows(q, w) && forall t :: Balanced(q, t))
  }

  // ----- steps ------------------------------------------------------------

  lemma TriggerCounts(q: Queue, t: nat)
    ensures TriggersAt(TriggerNow(q).triggers, t) == TriggersAt(q.triggers, t) + (if q.now == t then 1 else 0)
  {
    var ts := TriggerNow(q).triggers;
    assert ts[..|ts| - 1] == q.triggers;
  }

  lemma NotifyBalances(q: Queue, when: nat, t: nat)
    requires Balanced(q, t)
    ensures Balanced(Notify(q, when), t)
  {
    var due := q.now + when;
    InsertCounts(q.times, due, t);
    AppendTimes(q.asked, due, t);
  }

  lemma FireBalances(q: Queue, t: nat)
    requires Balanced(q, t) && q.runnable && !FireEvent(q).failed
    ensures Balanced(FireEvent(q), t)
  {
    if q.times == [] {
      AppendTimes(q.idle, q.now, t);
    } else {
      assert q.times == [q.times[0]] + q.times[1..];
      PrependTimes(q.times[0], q.times[1..], t);
    }
  }

  /** Every step keeps the balance, unless the assertion fails in it. */
  lemma StepBalances(q: Queue, step: Step, t: nat)
    requires Balanced(q, t) && Enabled(q, step) && !Apply(q, step).failed
    ensures Balanced(Apply(q, step), t)
  {
    match step
    case NotifyStep(when) => NotifyBalances(q, when, t);
    case CancelStep => ConcatTimes(q.cancelled, q.times, t);
    case FireStep => FireBalances(q, t);
    case EndDelta(evaluated) =>
      TriggerCounts(q.(ran := false, delta := if evaluated then q.delta + 1 else q.delta), t);
    case Advance(to) => TriggerCounts(q.(now := to), t);
  }

  lemma StepSeparates(q: Queue, step: Step)
    requires SeparateDeltas(q) && Enabled(q, step)
    ensures SeparateDeltas(Apply(q, step))
  {
  }

  /** Where a new entry lands in a split queue. */
  lemma InsertSplits(s: seq<nat>, now: nat, when: nat, due: nat, later: bool)
    requires Sorted(s) && Split(s, now, due, later)
    ensures Split(Insert(s, now + when), now, if when == 0 then due + 1 else due, later || when > 0)
    ensures due == 0 && when > 0 ==>
              Insert(s, now + when)[0] == if s == [] || now + when < s[0] then now + when else s[0]
  {
    InsertKeepsSorted(s, now + when);
    var k := due;
    while k < |s| && s[k] <= now + when
      invariant due <= k <= |s| && forall i :: 0 <= i < k ==> s[i] <= now + when
      invariant when == 0 ==> k == due
    {
      k := k + 1;
    }
    InsertAt(s, now + when, k);
  }

  lemma NotifyArms(q: Queue, when: nat)
    requires Ordered(q) && Armed(q)
    ensures Armed(Notify(q, when))
  {
    InsertKeepsSorted(q.times, q.now + when);
    assert q.times != [] ==> q.times[0] in q.times;
  }

  lemma NotifySurplus(q: Queue, w: Watch, when: nat)
    requires Sorted(q.times) && Follows(q, w) && w.Surplus?
    ensures Follows(Notify(q, when), Follow(w, q.runnable, NotifyStep(when)))
  {
    hide Insert, Sorted;
    InsertSplits(q.times, q.now, when, w.due, w.later);
  }

  lemma NotifyFollows(q: Queue, w: Watch, when: nat)
    requires Ordered(q) && Follows(q, w)
    ensures Ordered(Notify(q, when)) && Follows(Notify(q, when), Follow(w, q.runnable, NotifyStep(when)))
  {
    InsertKeepsSorted(q.times, q.now + when);
    if w.Calm? {
      NotifyArms(q, when);
    } else {
      NotifySurplus(q, w, when);
    }
  }

  lemma FireFollows(q: Queue, w: Watch)
    requires Ordered(q) && Follows(q, w) && q.runnable && !q.failed
    ensures var r, v := FireEvent(q), Follow(w, true, FireStep);
            (r.failed <==> v.Broken?) && (!r.failed ==> Ordered(r) && Follows(r, v))
  {
    if q.times != [] {
      var rest := q.times[1..];
      assert forall t :: t in rest ==> t in q.times;
      assert rest != [] ==> rest[0] in q.times;
    }
  }

  lemma AdvanceFollows(q: Queue, w: Watch, to: nat)
    requires Ordered(q) && Follows(q, w) && Enabled(q, Advance(to))
    ensures Ordered(Apply(q, Advance(to))) && Follows(Apply(q, Advance(to)), w)
  {
    forall t | t in q.times
      ensures t >= to
    {
      var i :| 0 <= i < |q.times| && q.times[i] == t;
      assert q.times[0] in q.times;
    }
  }

  /** Every step keeps the queue sorted and its event as the watch says, and the
      assertion fails exactly when the watch breaks. */
  lemma StepFollows(q: Queue, w: Watch, step: Step)
    requires Enabled(q, step) && Ordered(q) && Follows(q, w)
    ensures var r, v := Apply(q, step), Follow(w, q.runnable, step);
            (r.failed <==> v.Broken?) && (!r.failed ==> Ordered(r) && Follows(r, v))
  {
    match step
    case NotifyStep(when) => NotifyFollows(q, w, when);
    case CancelStep =>
    case FireStep => FireFollows(q, w);
    case EndDelta(_) =>
    case Advance(to) => AdvanceFollows(q, w, to);
  }

  lemma {:induction false} RunKeeps(q: Queue, w: Watch, steps: seq<Step>)
    requires Inv(q, w) && IsRun(q, steps)
    ensures Inv(Execute(q, steps), Watched(q, w, steps))
    decreases |steps|
  {
    if steps != [] {
      var r := Apply(q, steps[0]);
      StepFollows(q, w, steps[0]);
      StepSeparates(q, steps[0]);
      forall t | !r.failed
        ensures Balanced(r, t)
      {
        assert Balanced(q, t);
        StepBalances(q, steps[0], t);
      }
      RunKeeps(r, Follow(w, q.runnable, steps[0]), steps[1..]);
    }
  }

  lemma WatchDecides(q: Queue, w: Watch)
    requires Ordered(q) && Follows(q, w)
    ensures Armed(q) <==> w.Calm?
  {
  }

  /** Over every run, cancellations at any moment included: the assertion in
      `fire_event` fails exactly if the watch breaks.  Otherwise the event stands for the
      earliest queued time exactly if no surplus trigger is about; a passed time T has had
      one trigger per uncancelled notification due at T and one per `fire_event` that found
      nothing; and no two triggers share a delta cycle. */
  lemma FailsExactlyWhenBroken(steps: seq<Step>)
    requires IsRun(INITIAL, steps)
    ensures var q, w := Execute(INITIAL, steps), Watched(INITIAL, Calm, steps);
            && (q.failed <==> w.Broken?)
            && (forall i, j :: 0 <= i < j < |q.triggers| ==> q.triggers[i].delta < q.triggers[j].delta)
            && (!q.failed ==>
                  && (Armed(q) <==> w.Calm?)
                  && forall t: nat :: t < q.now ==>
                       TriggersAt(q.triggers, t) + Times(q.cancelled, t) == Times(q.asked, t) + Times(q.idle, t))
  {
    assert Inv(INITIAL, Calm);
    RunKeeps(INITIAL, Calm, steps);
    var q, w := Execute(INITIAL, steps), Watched(INITIAL, Calm, steps);
    if !q.failed {
      WatchDecides(q, w);
      forall t: nat | t < q.now
        ensures TriggersAt(q.triggers, t) + Times(q.cancelled, t) == Times(q.asked, t) + Times(q.idle, t)
      {
        assert Balanced(q, t);
        AbsentTimes(q.times, t);
      }
    }
  }

  /** No cancellation between a trigger and `fire_event`. */
  predicate Undisturbed(q: Queue, steps: seq<Step>)
    requires IsRun(q, steps)
    decreases |steps|
  {
    steps == [] || ((steps[0].CancelStep? ==> !q.runnable) && Undisturbed(Apply(q, steps[0]), steps[1..]))
  }

  lemma {:induction false} UndisturbedStaysCalm(q: Queue, steps: seq<Step>)
    requires Inv(q, Calm) && IsRun(q, steps) && Undisturbed(q, steps)
    ensures Watched(q, Calm, steps) == Calm && Execute(q, steps).idle == q.idle
    decreases |steps|
  {
    if steps != [] {
      RunKeeps(q, Calm, [steps[0]]);
      assert Execute(q, [steps[0]]) == Apply(q, steps[0]);
      UndisturbedStaysCalm(Apply(q, steps[0]), steps[1..]);
    }
  }

  /** Over every run without such a cancellation the assertion holds, the event stands
      for the earliest queued time, and once a time T has passed it has had exactly one
      trigger per uncancelled notification due at T, all in different delta cycles. */
  lemma OneTriggerPerNotification(steps: seq<Step>)
    requires IsRun(INITIAL, steps) && Undisturbed(INITIAL, steps)
    ensures var q := Execute(INITIAL, steps);
            && !q.failed && Armed(q)
            && (forall t: nat :: t < q.now ==> TriggersAt(q.triggers, t) + Times(q.cancelled, t) == Times(q.asked, t))
            && (forall i, j :: 0 <= i < j < |q.triggers| ==> q.triggers[i].delta < q.triggers[j].delta)
  {
    FailsExactlyWhenBroken(steps);
    UndisturbedStaysCalm(INITIAL, steps);
  }

  // ----- cancelling a triggered queue -------------------------------------

  function NotifyEach(q: Queue, whens: seq<nat>): Queue
    decreases |whens|
  {
    if whens == [] then q else NotifyEach(Notify(q, whens[0]), whens[1..])
  }

  /** Let `fire_event` run, notify again, and let it run in the next delta cycle if it is triggered. */
  function Settle(q: Queue, more: seq<nat>): Queue {
    var r := FireEvent(q);
    if r.failed then r
    else
      var n := NotifyEach(r, more);
      if n.event.Delta? then FireEvent(TriggerNow(n.(ran := false, delta := n.delta + 1))) else n
  }

  lemma {:induction false} ZerosAmong(whens: seq<nat>)
    ensures Times(whens, 0) <= |whens|
  {
    if whens != [] {
      ZerosAmong(whens[..|whens| - 1]);
    }
  }

  /** While a surplus trigger is about to run, notifications only add up. */
  lemma {:induction false} EachAddsUp(q: Queue, w: Watch, whens: seq<nat>)
    requires Ordered(q) && Follows(q, w) && w.Surplus? && w.running
    ensures var r := NotifyEach(q, whens);
            var v := Surplus(w.due + Times(whens, 0), w.later || Times(whens, 0) < |whens|, true);
            Ordered(r) && Follows(r, v) && r.failed == q.failed
    decreases |whens|
  {
    if whens != [] {
      NotifyFollows(q, w, whens[0]);
      EachAddsUp(Notify(q, whens[0]), Follow(w, true, NotifyStep(whens[0])), whens[1..]);
      assert whens == [whens[0]] + whens[1..];
      PrependTimes(whens[0], whens[1..], 0);
      ZerosAmong(whens[1..]);
    }
  }

  /** While a surplus trigger is pending for the next delta cycle, the first zero delay uses it up. */
  lemma {:induction false} EachUsesUp(q: Queue, w: Watch, more: seq<nat>)
    requires Ordered(q) && Follows(q, w) && !q.runnable && (w.Calm? || w.Surplus?)
    ensures var r := NotifyEach(q, more);
            var v := if w.Calm? || 0 in more then Calm else Surplus(0, w.later || more != [], false);
            Ordered(r) && Follows(r, v) && r.failed == q.failed && !r.runnable
    decreases |more|
  {
    if more != [] {
      NotifyFollows(q, w, more[0]);
      EachUsesUp(Notify(q, more[0]), Follow(w, false, NotifyStep(more[0])), more[1..]);
      assert 0 in more <==> more[0] == 0 || 0 in more[1..];
    }
  }

  /** If the queue is cancelled after its trigger and notified with delays `whens` before
      `fire_event` runs, and with delays `more` before it runs again, the assertion fails exactly
      if `whens` is not empty and all positive, or holds a single zero that `more` does not
      add to while some positive delay is among them. */
  lemma CancelAfterTrigger(q: Queue, whens: seq<nat>, more: seq<nat>)
    requires Ordered(q) && Armed(q) && q.runnable && !q.failed
    ensures var zeros := Times(whens, 0);
            Settle(NotifyEach(CancelAll(q), whens), more).failed
            <==> (zeros == 0 && whens != []) || (zeros == 1 && 0 !in more && |whens| + |more| > 1)
  {
    var r := NotifyEach(CancelAll(q), whens);
    var v := Surplus(Times(whens, 0), Times(whens, 0) < |whens|, true);
    EachAddsUp(CancelAll(q), Surplus(0, false, true), whens);
    ZerosAmong(whens);
    FireFollows(r, v);
    var f := FireEvent(r);
    if !f.failed {
      var u := Follow(v, true, FireStep);
      EachUsesUp(f, u, more);
      var n := NotifyEach(f, more);
      if n.event.Delta? {
        var u' := if u.Calm? || 0 in more then Calm else Surplus(0, u.later || more != [], false);
        var step := EndDelta(true);
        StepFollows(n, u', step);
        FireFollows(Apply(n, step), Follow(u', false, step));
      }
    }
  }

  /** A run that fails: cancelled after its trigger and notified for later. */
  lemma FailingRun()
    ensures var steps := [NotifyStep(5), Advance(5), CancelStep, NotifyStep(3), FireStep];
            IsRun(INITIAL, steps) && Execute(INITIAL, steps).failed
  {
    var steps := [NotifyStep(5), Advance(5), CancelStep, NotifyStep(3), FireStep];
    var q1 := Apply(INITIAL, steps[0]);
    var q2 := Apply(q1, steps[1]);
    var q3 := Apply(q2, steps[2]);
    var q4 := Apply(q3, steps[3]);
    var q5 := Apply(q4, steps[4]);
    assert q5.failed;
    assert IsRun(q5, steps[5..]) && Execute(q5, steps[5..]) == q5;
    assert steps[4..][1..] == steps[5..] && steps[3..][1..] == steps[4..];
    assert steps[2..][1..] == steps[3..] && steps[1..][1..] == steps[2..];
    assert IsRun(q4, steps[4..]) && Execute(q4, steps[4..]) == q5;
    assert IsRun(q3, steps[3..]) && Execute(q3, steps[3..]) == q5;
    assert IsRun(q2, steps[2..]) && Execute(q2, steps[2..]) == q5;
    assert IsRun(q1, steps[1..]) && Execute(q1, steps[1..]) == q5;
  }

  // ----- what was asked for -----------------------------------------------

  /** The times asked for in a run that begins at time `now`, by its steps alone. */
  function AskedFor(now: nat, steps: seq<Step>): seq<nat>
    decreases |steps|
  {
    if steps == [] then []
    else match steps[0]
      case NotifyStep(when) => [now + when] + AskedFor(now, steps[1..])
      case Advance(to) => AskedFor(to, steps[1..])
      case _ => AskedFor(now, steps[1..])
  }

  /** Every notification is recorded for the time at which it was made plus its delay. */
  lemma {:induction false} AskedFollows(q: Queue, steps: seq<Step>)
    requires IsRun(q, steps)
    ensures Execute(q, steps).asked == q.asked + AskedFor(q.now, steps)
    decreases |steps|
  {
    if steps == [] {
      assert q.asked + [] == q.asked;
    } else {
      hide Insert, NotifyAfter;
      AskedFollows(Apply(q, steps[0]), steps[1..]);
      if steps[0].NotifyStep? {
        var t := q.now + steps[0].when;
        assert q.asked + [t] + AskedFor(q.now, steps[1..]) == q.asked + ([t] + AskedFor(q.now, steps[1..]));
      }
    }
  }

  /** In every run without cancellation a passed time has had exactly one trigger per notification
      that the steps asked for at that time. */
  lemma OneTriggerPerRequest(steps: seq<Step>, t: nat)
    requires IsRun(INITIAL, steps) && CancelStep !in steps && t < Execute(INITIAL, steps).now
    ensures TriggersAt(Execute(INITIAL, steps).triggers, t) == Times(AskedFor(0, steps), t)
  {
    NeverCancelled(INITIAL, steps);
    OneTriggerPerNotification(steps);
    AskedFollows(INITIAL, steps);
    assert [] + AskedFor(0, steps) == AskedFor(0, steps);
  }

  lemma {:induction false} NeverCancelled(q: Queue, steps: seq<Step>)
    requires IsRun(q, steps) && CancelStep !in steps
    ensures Undisturbed(q, steps) && Execute(q, steps).cancelled == q.cancelled
    decreases |steps|
  {
    if steps != [] {
      assert steps[0] in steps;
      hide Insert, NotifyAfter;
      NeverCancelled(Apply(q, steps[0]), steps[1..]);
    }
  }

  /** A cancellation cancels all that is queued and the event: nothing is left to trigger. */
  lemma CancelEmpties(q: Queue)
    requires Enabled(q, CancelStep)
    ensures var r := Apply(q, CancelStep);
            && r.times == [] && r.event.Idle? && r.cancelled == q.cancelled + q.times
            && r.asked == q.asked && r.triggers == q.triggers
  {
  }

  /** So that after it, until a new notification, the event does not trigger. */
  lemma {:induction false} SilentAfterCancel(q: Queue, steps: seq<Step>)
    requires q.times == [] && q.event.Idle? && IsRun(q, steps)
    requires forall step :: step in steps ==> !step.NotifyStep?
    ensures Execute(q, steps).triggers == q.triggers
    decreases |steps|
  {
    if steps != [] {
      assert steps[0] in steps;
      SilentAfterCancel(Apply(q, steps[0]), steps[1..]);
    }
  }
}
