/** What the payload event queue owes to those who ask: from the steps of a run alone, which
    payload is due when, and that it is delivered then.
 */
module PeqRequests {
  import opened Basics
  import opened PeqModel

  // ----- the clock --------------------------------------------------------

  /** The time to which a run has advanced, and how often the delta count has moved on. */
  function Clock(time: nat, steps: seq<Step>): nat {
    if steps == [] then time
    else
      var last := steps[|steps| - 1];
      if last.Advance? then last.to else Clock(time, steps[..|steps| - 1])
  }

  function Deltas(steps: seq<Step>): nat {
    if steps == [] then 0 else Deltas(steps[..|steps| - 1]) + (if steps[|steps| - 1] == EndDelta(true) then 1 else 0)
  }

  /** The time and the delta cycle of a run are those of its steps. */
  lemma {:induction false} ClockFollows(s: Peq, steps: seq<Step>)
    requires IsRun(s, steps)
    ensures var r := Execute(s, steps); r.now == Clock(s.now, steps) && r.delta == s.delta + Deltas(steps)
  {
    if steps != [] {
      hide Fec, Ask, CancelAll;
      var init, last := steps[..|steps| - 1], steps[|steps| - 1];
      assert steps == init + [last];
      Append(s, init, last);
      ClockFollows(s, init);
      if last.RunFec? {
        FecCounts(Execute(s, init), last.script, Item(0, 0, AtTime(0)));
      } else if last.Request? {
        AskMoment(Execute(s, init), last.r, false);
      }
      CancelMoment(Execute(s, init));
    }
  }

  lemma AskMoment(s: Peq, r: Request, inside: bool)
    ensures Ask(s, r, inside).now == s.now && Ask(s, r, inside).delta == s.delta
    ensures Ask(s, r, inside).delivered == s.delivered
  {
  }

  lemma CancelMoment(s: Peq)
    ensures CancelAll(s).now == s.now && CancelAll(s).delta == s.delta && CancelAll(s).sent == s.sent
    ensures CancelAll(s).delivered == s.delivered
  {
  }

  lemma {:induction false} Append(s: Peq, steps: seq<Step>, step: Step)
    requires IsRun(s, steps + [step])
    ensures IsRun(s, steps) && Enabled(Execute(s, steps), step)
    ensures Execute(s, steps + [step]) == Apply(Execute(s, steps), step)
    decreases |steps|
  {
    hide Enabled, Apply;
    if steps == [] {
      assert ([] + [step])[1..] == [];
    } else {
      assert (steps + [step])[1..] == steps[1..] + [step];
      Append(Apply(s, steps[0]), steps[1..], step);
    }
  }

  // ----- what is asked for ------------------------------------------------

  /** A payload and the moment for which it was requested. */
  datatype Promise = Promise(payload: int, due: Due)

  /** A request made at a time in a delta cycle: with a delay d > 0 it is for d later, with delay
      zero for the next delta cycle, and an immediate one for this delta cycle. */
  function Promised(time: nat, delta: nat, r: Request): Promise {
    match r
    case After(payload, when) =>
      Promise(payload, if when > 0 then AtTime(time + when) else AtDelta(delta + 1, time))
    case Now(payload) => Promise(payload, AtOnce(delta, time))
  }

  function EachPromised(time: nat, delta: nat, rs: seq<Request>): (ps: seq<Promise>)
    ensures |ps| == |rs| && forall i :: 0 <= i < |rs| ==> ps[i] == Promised(time, delta, rs[i])
  {
    if rs == [] then [] else [Promised(time, delta, rs[0])] + EachPromised(time, delta, rs[1..])
  }

  /** What the callbacks of deliveries number `lo` up to `hi` ask for. */
  function AskedBetween(script: Script, lo: nat, hi: nat): seq<Request>
    decreases hi - lo
  {
    if lo >= hi then []
    else (if lo < |script| then script[lo] else []) + AskedBetween(script, lo + 1, hi)
  }

  /** What a step asks for: a request itself, and the requests of the callbacks in `fec`. */
  function AskedIn(s: Peq, step: Step): seq<Request>
    requires Enabled(s, step)
  {
    match step
    case Request(r) => [r]
    case RunFec(script) => AskedBetween(script, |s.delivered|, |Apply(s, step).delivered|)
    case _ => []
  }

  /** The promises of a run, in order. */
  function Promises(s: Peq, steps: seq<Step>): seq<Promise>
    requires IsRun(s, steps)
    decreases |steps|
  {
    if steps == [] then []
    else
      EachPromised(s.now, s.delta, AskedIn(s, steps[0])) + Promises(Apply(s, steps[0]), steps[1..])
  }

  /** `after` adds to `before` one item per promise, numbered on. */
  ghost predicate Extends(before: seq<Item>, after: seq<Item>, ps: seq<Promise>) {
    && before <= after && |after| == |before| + |ps|
    && forall i :: 0 <= i < |ps| ==> after[|before| + i] == Item(|before| + i, ps[i].payload, ps[i].due)
  }

  lemma ExtendsTwice(a: seq<Item>, b: seq<Item>, c: seq<Item>, ps: seq<Promise>, qs: seq<Promise>)
    requires Extends(a, b, ps) && Extends(b, c, qs)
    ensures Extends(a, c, ps + qs)
  {
    forall i | 0 <= i < |ps + qs|
      ensures c[|a| + i] == Item(|a| + i, (ps + qs)[i].payload, (ps + qs)[i].due)
    {
      if i >= |ps| {
        assert c[|b| + (i - |ps|)] == Item(|b| + (i - |ps|), qs[i - |ps|].payload, qs[i - |ps|].due);
      }
    }
  }

  lemma AskExtends(s: Peq, r: Request, inside: bool)
    ensures Extends(s.sent, Ask(s, r, inside).sent, [Promised(s.now, s.delta, r)])
  {
  }

  lemma {:induction false} AskAllExtends(s: Peq, rs: seq<Request>)
    ensures Extends(s.sent, AskAll(s, rs).sent, EachPromised(s.now, s.delta, rs))
    decreases |rs|
  {
    hide Ask, Extends;
    if rs == [] {
      assert Extends(s.sent, s.sent, []) by { ExtendsNothing(s.sent); }
    } else {
      var t := Ask(s, rs[0], true);
      AskExtends(s, rs[0], true);
      AskMoment(s, rs[0], true);
      AskAllExtends(t, rs[1..]);
      ExtendsTwice(s.sent, t.sent, AskAll(s, rs).sent, [Promised(s.now, s.delta, rs[0])],
                   EachPromised(s.now, s.delta, rs[1..]));
    }
  }

  lemma ExtendsNothing(a: seq<Item>)
    ensures Extends(a, a, [])
  {
  }

  lemma {:induction false} EachConcat(time: nat, delta: nat, rs: seq<Request>, qs: seq<Request>)
    ensures EachPromised(time, delta, rs + qs) == EachPromised(time, delta, rs) + EachPromised(time, delta, qs)
  {
  }

  /** One callback, and the rest of a phase. */
  lemma CallThen(s: Peq, item: Item, script: Script, rest: Peq)
    requires var c := Call(s, item, script);
             && |c.delivered| <= |rest.delivered|
             && Extends(c.sent, rest.sent,
                        EachPromised(s.now, s.delta, AskedBetween(script, |c.delivered|, |rest.delivered|)))
    ensures Extends(s.sent, rest.sent,
                    EachPromised(s.now, s.delta, AskedBetween(script, |s.delivered|, |rest.delivered|)))
  {
    hide AskAll, Extends, EachPromised;
    var rs := Answer(s, script);
    var c := Call(s, item, script);
    AskAllExtends(Deliver(s, item), rs);
    var more := AskedBetween(script, |c.delivered|, |rest.delivered|);
    assert |c.delivered| == |s.delivered| + 1;
    assert AskedBetween(script, |s.delivered|, |rest.delivered|) == rs + more;
    EachConcat(s.now, s.delta, rs, more);
    ExtendsTwice(s.sent, c.sent, rest.sent, EachPromised(s.now, s.delta, rs), EachPromised(s.now, s.delta, more));
  }

  /** The new deliveries of a phase are made at its moment. */
  ghost predicate DeliveredAt(s: Peq, r: Peq) {
    && s.delivered <= r.delivered && r.now == s.now && r.delta == s.delta
    && forall i :: |s.delivered| <= i < |r.delivered| ==>
         r.delivered[i].time == s.now && r.delivered[i].delta == s.delta
  }

  /** A phase of `fec`: what it sends is what its callbacks ask for, and it delivers now. */
  ghost predicate GoodPhase(s: Peq, r: Peq, script: Script) {
    && DeliveredAt(s, r)
    && Extends(s.sent, r.sent, EachPromised(s.now, s.delta, AskedBetween(script, |s.delivered|, |r.delivered|)))
  }

  lemma CallPhase(s: Peq, item: Item, script: Script, rest: Peq)
    requires GoodPhase(Call(s, item, script), rest, script)
    ensures GoodPhase(s, rest, script)
  {
    CallThen(s, item, script, rest);
    hide Extends, AskedBetween, EachPromised, AskAll;
    var c := Call(s, item, script);
    assert c.delivered == s.delivered + [Delivery(item, s.now, s.delta)];
  }

  lemma SamePhase(s: Peq, r: Peq, script: Script)
    requires r.sent == s.sent && r.delivered == s.delivered && r.now == s.now && r.delta == s.delta
    ensures GoodPhase(s, r, script)
  {
  }

  /** Changes to lists, event and trigger do not matter. */
  lemma PhaseIgnores(s: Peq, s': Peq, r: Peq, r': Peq, script: Script)
    requires GoodPhase(s, r, script)
    requires s'.sent == s.sent && s'.delivered == s.delivered && s'.now == s.now && s'.delta == s.delta
    requires r'.sent == r.sent && r'.delivered == r.delivered && r'.now == r.now && r'.delta == r.delta
    ensures GoodPhase(s', r', script)
  {
  }

  lemma {:induction false} AskedSplit(script: Script, lo: nat, mid: nat, hi: nat)
    requires lo <= mid <= hi
    ensures AskedBetween(script, lo, hi) == AskedBetween(script, lo, mid) + AskedBetween(script, mid, hi)
    decreases mid - lo
  {
    if lo < mid {
      AskedSplit(script, lo + 1, mid, hi);
    }
  }

  lemma PhaseTwice(s: Peq, m: Peq, r: Peq, script: Script)
    requires GoodPhase(s, m, script) && GoodPhase(m, r, script)
    ensures GoodPhase(s, r, script)
  {
    hide Extends, EachPromised, AskedBetween;
    var lo, mid, hi := |s.delivered|, |m.delivered|, |r.delivered|;
    AskedSplit(script, lo, mid, hi);
    EachConcat(s.now, s.delta, AskedBetween(script, lo, mid), AskedBetween(script, mid, hi));
    ExtendsTwice(s.sent, m.sent, r.sent, EachPromised(s.now, s.delta, AskedBetween(script, lo, mid)),
                 EachPromised(s.now, s.delta, AskedBetween(script, mid, hi)));
  }

  lemma {:induction false} ImmediatePhase(s: Peq, out: nat, script: Script)
    ensures GoodPhase(s, DrainImmediate(s, out, script), script)
    decreases CallsLeft(s, script), |s.immediate| - out
  {
    hide GoodPhase;
    if out < |s.immediate| {
      var c := Call(s, s.immediate[out], script);
      ImmediatePhase(c, out + 1, script);
      CallPhase(s, s.immediate[out], script, DrainImmediate(s, out, script));
    } else {
      SamePhase(s, DrainImmediate(s, out, script), script);
    }
  }

  lemma {:induction false} DeltaPhase(s: Peq, out: nat, script: Script)
    ensures GoodPhase(s, DrainDelta(s, out, script), script)
    decreases |Current(s)| - out
  {
    hide GoodPhase;
    if out < |Current(s)| {
      var c := Call(s, Current(s)[out], script);
      DeltaPhase(c, out + 1, script);
      CallPhase(s, Current(s)[out], script, DrainDelta(s, out, script));
    } else {
      SamePhase(s, DrainDelta(s, out, script), script);
    }
  }

  lemma {:induction false} TimedPhase(s: Peq, script: Script)
    ensures GoodPhase(s, DrainTimed(s, script), script)
    decreases CallsLeft(s, script), |s.timed|
  {
    hide GoodPhase;
    if s.timed != [] && s.timed[0].t == s.now {
      var c := Call(s, s.timed[0].p, script);
      var d := DeleteTop(c);
      DeleteBeforeAsking(Deliver(s, s.timed[0].p), Answer(s, script));
      TimedPhase(d, script);
      PhaseIgnores(d, c, DrainTimed(d, script), DrainTimed(d, script), script);
      CallPhase(s, s.timed[0].p, script, DrainTimed(s, script));
    } else {
      SamePhase(s, s, script);
    }
  }

  /** `fec` delivers at its own moment, and sends what its callbacks ask for. */
  lemma FecPhase(s: Peq, script: Script)
    ensures GoodPhase(s, Fec(s, script), script)
  {
    hide GoodPhase, DrainImmediate, DrainDelta, DrainTimed;
    var s0 := s.(runnable := false);
    ImmediatePhase(s0, 0, script);
    var s1 := DrainImmediate(s0, 0, script);
    DeltaPhase(s1, 0, script);
    var s2 := DrainDelta(s1, 0, script);
    PhaseTwice(s0, s1, s2, script);
    var s3 := RearmDelta(s2);
    if s3.timed == [] {
      PhaseIgnores(s0, s, s2, s3, script);
    } else {
      TimedPhase(s3, script);
      var s4 := DrainTimed(s3, script);
      PhaseIgnores(s3, s2, s4, s4, script);
      PhaseTwice(s0, s2, s4, script);
      PhaseIgnores(s0, s, s4, RearmTimed(s4), script);
    }
  }

  // ----- over every run ---------------------------------------------------

  lemma StepExtends(s: Peq, step: Step)
    requires Enabled(s, step)
    ensures Extends(s.sent, Apply(s, step).sent, EachPromised(s.now, s.delta, AskedIn(s, step)))
  {
    hide Fec, Extends;
    match step
    case Request(r) =>
      AskExtends(s, r, false);
      assert EachPromised(s.now, s.delta, [r]) == [Promised(s.now, s.delta, r)];
    case RunFec(script) => FecPhase(s, script);
    case _ => ExtendsNothing(s.sent);
  }

  lemma {:induction false} RunExtends(s: Peq, steps: seq<Step>)
    requires IsRun(s, steps)
    ensures Extends(s.sent, Execute(s, steps).sent, Promises(s, steps))
    decreases |steps|
  {
    hide Extends, Enabled, Apply, AskedIn, EachPromised;
    if steps == [] {
      ExtendsNothing(s.sent);
    } else {
      var r := Apply(s, steps[0]);
      StepExtends(s, steps[0]);
      RunExtends(r, steps[1..]);
      ExtendsTwice(s.sent, r.sent, Execute(s, steps).sent, EachPromised(s.now, s.delta, AskedIn(s, steps[0])),
                   Promises(r, steps[1..]));
    }
  }

  /** Over every run: the i-th payload sent is the one of the i-th request, those of callbacks
      included, and it is due at the moment the request was made for. */
  lemma SentAsRequested(steps: seq<Step>, i: nat)
    requires IsRun(INITIAL, steps)
    ensures |Execute(INITIAL, steps).sent| == |Promises(INITIAL, steps)|
    ensures i < |Promises(INITIAL, steps)| ==>
              var p := Promises(INITIAL, steps)[i];
              Execute(INITIAL, steps).sent[i] == Item(i, p.payload, p.due)
  {
    RunExtends(INITIAL, steps);
  }

  /** Only `fec` delivers, at the time and in the delta cycle in which it runs. */
  lemma StepDelivers(s: Peq, step: Step)
    requires Enabled(s, step)
    ensures var r := Apply(s, step);
            && s.delivered <= r.delivered && (!step.RunFec? ==> r.delivered == s.delivered)
            && forall i :: |s.delivered| <= i < |r.delivered| ==>
                 r.delivered[i].time == s.now && r.delivered[i].delta == s.delta
  {
    hide Fec, Extends;
    match step
    case Request(r) => AskMoment(s, r, false);
    case RunFec(script) => FecPhase(s, script);
    case _ =>
  }

  /** The moment of a delivery. */
  ghost predicate MadeAt(d: Delivery, due: Due) {
    match due
    case AtTime(time) => d.time == time
    case AtDelta(delta, at) => d.delta == delta && d.time == at
    case AtOnce(delta, at) => d.delta == delta && d.time == at
  }

  /** Over every punctual run: a payload whose requested moment has passed was delivered exactly
      once and at that moment, unless it was cancelled. */
  lemma DeliveredAsRequested(steps: seq<Step>, i: nat)
    requires IsRun(INITIAL, steps) && Punctual(INITIAL, steps) && i < |Promises(INITIAL, steps)|
    requires var s, p := Execute(INITIAL, steps), Promises(INITIAL, steps)[i];
             Item(i, p.payload, p.due) !in s.cancelled && Passed(s, p.due)
    ensures var s, p := Execute(INITIAL, steps), Promises(INITIAL, steps)[i];
            var item := Item(i, p.payload, p.due);
            && TimesDelivered(s.delivered, item) == 1
            && exists d :: d in s.delivered && d.item == item && MadeAt(d, p.due)
  {
    hide Execute, Promises, IsRun;
    SentAsRequested(steps, i);
    var s, p := Execute(INITIAL, steps), Promises(INITIAL, steps)[i];
    var item := Item(i, p.payload, p.due);
    assert s.sent[i] == item && item in s.sent;
    PassedMeansDelivered(steps, item);
    var d :| d in s.delivered && d.item == item && OnTime(d);
    assert MadeAt(d, p.due);
  }

  lemma {:induction false} PromisesConcat(s: Peq, pre: seq<Step>, post: seq<Step>)
    requires IsRun(s, pre + post)
    ensures IsRun(s, pre) && IsRun(Execute(s, pre), post)
    ensures Execute(s, pre + post) == Execute(Execute(s, pre), post)
    ensures Promises(s, pre + post) == Promises(s, pre) + Promises(Execute(s, pre), post)
    decreases |pre|
  {
    hide Enabled, Apply, AskedIn, EachPromised;
    if pre == [] {
      assert pre + post == post;
    } else {
      assert (pre + post)[1..] == pre[1..] + post;
      PromisesConcat(Apply(s, pre[0]), pre[1..], post);
      var first := EachPromised(s.now, s.delta, AskedIn(s, pre[0]));
      assert Promises(s, pre + post) == first + Promises(Apply(s, pre[0]), pre[1..] + post);
    }
  }

  /** In particular: a process that at time T, after the steps `pre`, requests a payload with a delay
      d > 0 has it delivered at T + d. */
  lemma DelayIsKept(pre: seq<Step>, payload: int, delay: nat, post: seq<Step>)
    requires delay > 0
    requires var steps := pre + ([Request(After(payload, delay))] + post);
             IsRun(INITIAL, steps) && Punctual(INITIAL, steps)
    requires var s := Execute(INITIAL, pre + ([Request(After(payload, delay))] + post));
             var item := Item(RequestsIn(pre, [Request(After(payload, delay))] + post), payload,
                              AtTime(Clock(0, pre) + delay));
             item !in s.cancelled && Clock(0, pre) + delay < s.now
    ensures var s := Execute(INITIAL, pre + ([Request(After(payload, delay))] + post));
            exists d :: d in s.delivered && d.item.payload == payload && d.time == Clock(0, pre) + delay
                        && d.item.id == RequestsIn(pre, [Request(After(payload, delay))] + post)
  {
    hide Execute, IsRun, Promises, Punctual;
    var step := Request(After(payload, delay));
    var steps := pre + ([step] + post);
    var i := RequestsIn(pre, [step] + post);
    FirstPromise(pre, step, post);
    DeliveredAsRequested(steps, i);
  }

  /** The number of requests made before a point of a run. */
  ghost function RequestsIn(pre: seq<Step>, post: seq<Step>): nat {
    if IsRun(INITIAL, pre + post) then
      PromisesConcat(INITIAL, pre, post);
      |Promises(INITIAL, pre)|
    else 0
  }

  lemma FirstPromise(pre: seq<Step>, step: Step, post: seq<Step>)
    requires IsRun(INITIAL, pre + ([step] + post)) && step.Request?
    ensures var steps := pre + ([step] + post);
            var i := RequestsIn(pre, [step] + post);
            && i < |Promises(INITIAL, steps)|
            && Promises(INITIAL, steps)[i] == Promised(Clock(0, pre), Deltas(pre), step.r)
  {
    PromisesConcat(INITIAL, pre, [step] + post);
    ClockFollows(INITIAL, pre);
    var s := Execute(INITIAL, pre);
    assert ([step] + post)[1..] == post;
    assert EachPromised(s.now, s.delta, [step.r])[0] == Promised(s.now, s.delta, step.r);
  }

  // ----- cancellation -----------------------------------------------------

  /** A cancellation empties every list and the event, and all that was pending is cancelled. */
  lemma CancelEmpties(s: Peq)
    ensures var r := Apply(s, Cancel);
            && Pending(r) == [] && r.event.Idle? && r.cancelled == s.cancelled + Pending(s)
            && r.sent == s.sent && r.delivered == s.delivered
  {
  }

  /** In every run what is cancelled is never delivered. */
  lemma CancelledNeverDelivered(steps: seq<Step>, x: Item)
    requires IsRun(INITIAL, steps) && x in Execute(INITIAL, steps).cancelled
    ensures TimesDelivered(Execute(INITIAL, steps).delivered, x) == 0
  {
    hide Execute, IsRun, Promises;
    var s := Execute(INITIAL, steps);
    NothingLost(steps, x);
    PresentTimes(s.cancelled, x);
    PresentTimes(s.sent, x);
    forall i | 0 <= i < |s.sent|
      ensures s.sent[i].id == i
    {
      SentAsRequested(steps, i);
    }
    SentOnce(s.sent, x);
  }
}
