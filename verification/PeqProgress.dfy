/** Progress of the payload event queue: whatever is pending can be delivered. */
module PeqProgress {
  import opened Basics
  import opened Events
  import opened TimeOrderedLists
  import opened PeqModel

  /** The number of pending payloads. */
  function Size(s: Peq): nat { |s.timed| + |s.odd| + |s.even| + |s.immediate| }

  // ----- `fec` with callbacks that ask for nothing ------------------------

  /** Two states differ in their lists, event and deliveries only. */
  ghost predicate SameRest(s: Peq, r: Peq) {
    r.sent == s.sent && r.cancelled == s.cancelled && r.now == s.now && r.delta == s.delta && r.runnable == s.runnable
  }

  lemma CallDelivers(s: Peq, item: Item)
    ensures Call(s, item, []) == Deliver(s, item)
  {
  }

  lemma {:induction false} ImmediateQuietly(s: Peq, out: nat)
    ensures var r := DrainImmediate(s, out, []);
            && SameRest(s, r) && r.event == s.event && r.timed == s.timed && r.odd == s.odd && r.even == s.even
            && r.immediate == []
    decreases |s.immediate| - out
  {
    if out < |s.immediate| {
      CallDelivers(s, s.immediate[out]);
      ImmediateQuietly(Deliver(s, s.immediate[out]), out + 1);
    }
  }

  lemma {:induction false} DeltaQuietly(s: Peq, out: nat)
    ensures var r := DrainDelta(s, out, []);
            && SameRest(s, r) && r.event == s.event && r.timed == s.timed && r.immediate == s.immediate
            && Current(r) == [] && Coming(r) == Coming(s)
    decreases |Current(s)| - out
  {
    if out < |Current(s)| {
      CallDelivers(s, Current(s)[out]);
      DeltaQuietly(Deliver(s, Current(s)[out]), out + 1);
    }
  }

  lemma {:induction false} TimedQuietly(s: Peq)
    ensures var r := DrainTimed(s, []);
            && SameRest(s, r) && r.event == s.event && r.odd == s.odd && r.even == s.even && r.immediate == s.immediate
            && |r.timed| <= |s.timed| && (s.timed != [] && s.timed[0].t == s.now ==> |r.timed| < |s.timed|)
    decreases |s.timed|
  {
    if s.timed != [] && s.timed[0].t == s.now {
      CallDelivers(s, s.timed[0].p);
      TimedQuietly(DeleteTop(Deliver(s, s.timed[0].p)));
    }
  }

  /** The event stands for the very next pending payload. */
  predicate Fresh(s: Peq) {
    if Coming(s) != [] then s.event.Delta?
    else if s.timed != [] then s.event == Timed(s.timed[0].t)
    else s.event.Idle?
  }

  /** The lists and the event after `fec`. */
  lemma ListsQuietly(s: Peq)
    requires TimedArmed(Fec(s, []))
    ensures var r := Fec(s, []);
            && r.sent == s.sent && r.cancelled == s.cancelled
            && |r.timed| <= |s.timed| && (s.timed != [] && s.timed[0].t == s.now ==> |r.timed| < |s.timed|)
            && r.immediate == [] && Current(r) == [] && Coming(r) == Coming(s)
            && (s.event.Idle? ==> Fresh(r))
  {
    hide DrainImmediate, DrainDelta, DrainTimed;
    var s0 := s.(runnable := false);
    ImmediateQuietly(s0, 0);
    var s1 := DrainImmediate(s0, 0, []);
    DeltaQuietly(s1, 0);
    var s2 := DrainDelta(s1, 0, []);
    var s3 := RearmDelta(s2);
    if s3.timed != [] {
      TimedQuietly(s3);
    }
  }

  /** `fec` delivers what is due and keeps the rest, with its event fresh if it had none before. */
  lemma FecQuietly(s: Peq)
    requires Core(s) && Conserved(s)
    ensures var r := Fec(s, []);
            && Inv(r) && !r.runnable && r.sent == s.sent && r.cancelled == s.cancelled
            && |r.timed| <= |s.timed| && (s.timed != [] && s.timed[0].t == s.now ==> |r.timed| < |s.timed|)
            && r.immediate == [] && Current(r) == [] && Coming(r) == Coming(s)
            && (s.event.Idle? ==> Fresh(r))
  {
    assert QuietLate(s, []);
    hide Fec, Core, Conserved, QuietLate;
    FecKeepsIffQuietLate(s, []);
    FecKeeps(s, []);
    FecCounts(s, [], Item(0, 0, AtTime(0)));
    ListsQuietly(s);
  }

  lemma SizeByPhase(s: Peq)
    ensures Size(s) == |s.timed| + |Current(s)| + |Coming(s)| + |s.immediate|
  {
  }

  /** A payload that is no longer pending after `fec` has been delivered by it. */
  lemma GoneMeansDelivered(s: Peq, r: Peq, x: Item)
    requires Conserved(s) && Conserved(r) && r.sent == s.sent && r.cancelled == s.cancelled
    requires x in Pending(s) && x !in Pending(r)
    ensures TimesDelivered(r.delivered, x) > TimesDelivered(s.delivered, x)
  {
    assert Surplus(s, x) == 0 && Surplus(r, x) == 0;
    PendingCounts(s, x);
    PendingCounts(r, x);
    PresentTimes(Pending(s), x);
    PresentTimes(Pending(r), x);
  }

  // ----- one round --------------------------------------------------------

  /** The step that triggers a queue which is armed. */
  function Trigger(s: Peq): Step { if s.event.Timed? then Advance(s.event.at) else EndDelta(true) }

  lemma TriggerTriggers(s: Peq)
    requires Alive(s) && !s.runnable && Armed(s) && Size(s) > 0
    ensures Enabled(s, Trigger(s))
    ensures var t := Apply(s, Trigger(s));
            && Alive(t) && t.runnable && t.event.Idle? && Pending(t) == Pending(s) && t.delivered == s.delivered
            && t.sent == s.sent && t.cancelled == s.cancelled && Size(t) == Size(s)
            && (Fresh(s) ==> Current(t) != [] || (t.timed != [] && t.timed[0].t == t.now))
  {
    SizeByPhase(s);
    StepKeeps(s, Trigger(s));
  }

  /** The state after a round. */
  function AfterRound(s: Peq): Peq
    requires Enabled(s, Trigger(s))
  {
    Fec(Apply(s, Trigger(s)), [])
  }

  /** A round leaves less pending, or an event that was not fresh is. */
  lemma RoundAdvances(s: Peq)
    requires Alive(s) && !s.runnable && Armed(s) && Size(s) > 0
    ensures Enabled(s, Trigger(s))
    ensures var r := AfterRound(s);
            && Alive(r) && !r.runnable && Armed(r) && Fresh(r) && Size(r) <= Size(s)
            && (Fresh(s) ==> Size(r) < Size(s))
            && r.sent == s.sent && r.cancelled == s.cancelled
  {
    hide Core, Conserved, Fec;
    TriggerTriggers(s);
    var t := Apply(s, Trigger(s));
    FecQuietly(t);
    SizeByPhase(t);
    SizeByPhase(AfterRound(s));
  }

  lemma RunTwo(s: Peq, a: Step, b: Step, rest: seq<Step>)
    requires Enabled(s, a) && Enabled(Apply(s, a), b) && IsRun(Apply(Apply(s, a), b), rest)
    requires Punctual(Apply(Apply(s, a), b), rest)
    requires (a == EndDelta(true) || a.Advance? ==> !LeftBehind(s)) && b.RunFec?
    ensures var steps := [a] + ([b] + rest);
            && IsRun(s, steps) && Punctual(s, steps)
            && Execute(s, steps) == Execute(Apply(Apply(s, a), b), rest)
  {
    assert ([a] + ([b] + rest))[1..] == [b] + rest && ([b] + rest)[1..] == rest;
  }

  lemma Stop(s: Peq)
    ensures IsRun(s, []) && Punctual(s, []) && Execute(s, []) == s && NoRequests([])
  {
  }

  predicate NoRequests(steps: seq<Step>) { forall step :: step in steps ==> !step.Request? }

  /** All about one round, for a payload x. */
  lemma Round(s: Peq, x: Item)
    requires Alive(s) && !s.runnable && Armed(s) && x in Pending(s)
    ensures Enabled(s, Trigger(s)) && Enabled(Apply(s, Trigger(s)), RunFec([])) && !LeftBehind(s)
    ensures var r := AfterRound(s);
            && r == Apply(Apply(s, Trigger(s)), RunFec([]))
            && Alive(r) && !r.runnable && Armed(r)
            && (Size(r) < Size(s) || (Size(r) == Size(s) && Fresh(r) && !Fresh(s)))
            && TimesDelivered(r.delivered, x) >= TimesDelivered(s.delivered, x)
            && (x !in Pending(r) ==> TimesDelivered(r.delivered, x) > TimesDelivered(s.delivered, x))
  {
    PendingSize(s, x);
    RoundAdvances(s);
    TriggerTriggers(s);
    hide Alive, Armed, Fec, Pending, Fresh, TimesDelivered;
    RoundKeepsCount(s, x);
    if x !in Pending(AfterRound(s)) {
      RoundDelivers(s, x);
    }
    assert s.immediate == [] by { ArmedEmpty(s); }
  }

  lemma ArmedEmpty(s: Peq)
    requires Armed(s)
    ensures s.immediate == []
  {
  }

  lemma NoRequestsAdded(s: Peq, rest: seq<Step>)
    requires NoRequests(rest)
    ensures NoRequests([Trigger(s)] + ([RunFec([])] + rest))
  {
  }

  /** From an armed state. */
  lemma {:induction false} FromArmed(s: Peq, x: Item) returns (more: seq<Step>)
    requires Alive(s) && !s.runnable && Armed(s) && x in Pending(s)
    ensures IsRun(s, more) && Punctual(s, more) && NoRequests(more)
    ensures TimesDelivered(Execute(s, more).delivered, x) > TimesDelivered(s.delivered, x)
    decreases Size(s), !Fresh(s)
  {
    hide Alive, Armed, Fec, IsRun, Execute, Punctual, Pending, Fresh, Apply, Enabled, TimesDelivered, NoRequests,
         AfterRound, Size;
    Round(s, x);
    var r := AfterRound(s);
    var rest: seq<Step> := [];
    if x in Pending(r) {
      rest := FromArmed(r, x);
    } else {
      Stop(r);
    }
    more := [Trigger(s)] + ([RunFec([])] + rest);
    RunTwo(s, Trigger(s), RunFec([]), rest);
    NoRequestsAdded(s, rest);
  }

  lemma PendingSize(s: Peq, x: Item)
    requires x in Pending(s)
    ensures Size(s) > 0
  {
  }

  lemma RoundDelivers(s: Peq, x: Item)
    requires Alive(s) && !s.runnable && Armed(s) && x in Pending(s) && Size(s) > 0 && Enabled(s, Trigger(s))
    requires x !in Pending(AfterRound(s))
    ensures TimesDelivered(AfterRound(s).delivered, x) > TimesDelivered(s.delivered, x)
  {
    hide Fec, Core, Pending, Surplus;
    RoundAdvances(s);
    GoneMeansDelivered(s, AfterRound(s), x);
  }

  /** A round never takes back a delivery. */
  lemma RoundKeepsCount(s: Peq, x: Item)
    requires Alive(s) && !s.runnable && Armed(s) && Size(s) > 0 && Enabled(s, Trigger(s))
    ensures TimesDelivered(AfterRound(s).delivered, x) >= TimesDelivered(s.delivered, x)
  {
    hide Fec, Core, Conserved, Armed;
    TriggerTriggers(s);
    FecDeliversOn(Apply(s, Trigger(s)), x);
  }

  // ----- deliveries only add up -------------------------------------------

  lemma {:induction false} CountGrows(ds: seq<Delivery>, es: seq<Delivery>, x: Item)
    requires ds <= es
    ensures TimesDelivered(es, x) >= TimesDelivered(ds, x)
    decreases |es|
  {
    if |es| > |ds| {
      CountGrows(ds, es[..|es| - 1], x);
    } else {
      assert ds == es;
    }
  }

  lemma {:induction false} ImmediateGrows(s: Peq, out: nat)
    ensures s.delivered <= DrainImmediate(s, out, []).delivered
    decreases |s.immediate| - out
  {
    if out < |s.immediate| {
      CallDelivers(s, s.immediate[out]);
      ImmediateGrows(Deliver(s, s.immediate[out]), out + 1);
    }
  }

  lemma {:induction false} DeltaGrows(s: Peq, out: nat)
    ensures s.delivered <= DrainDelta(s, out, []).delivered
    decreases |Current(s)| - out
  {
    if out < |Current(s)| {
      CallDelivers(s, Current(s)[out]);
      DeltaGrows(Deliver(s, Current(s)[out]), out + 1);
    }
  }

  lemma {:induction false} TimedGrows(s: Peq)
    ensures s.delivered <= DrainTimed(s, []).delivered
    decreases |s.timed|
  {
    if s.timed != [] && s.timed[0].t == s.now {
      CallDelivers(s, s.timed[0].p);
      TimedGrows(DeleteTop(Deliver(s, s.timed[0].p)));
    }
  }

  lemma FecDeliversOn(s: Peq, x: Item)
    ensures TimesDelivered(Fec(s, []).delivered, x) >= TimesDelivered(s.delivered, x)
  {
    hide DrainImmediate, DrainDelta, DrainTimed, TimesDelivered;
    var s0 := s.(runnable := false);
    ImmediateGrows(s0, 0);
    var s1 := DrainImmediate(s0, 0, []);
    DeltaGrows(s1, 0);
    var s3 := RearmDelta(DrainDelta(s1, 0, []));
    if s3.timed != [] {
      TimedGrows(s3);
    }
    CountGrows(s.delivered, Fec(s, []).delivered, x);
  }

  // ----- results ----------------------------------------------------------

  /** From a state in which `fec` is triggered. */
  lemma FromTriggered(s: Peq, x: Item) returns (more: seq<Step>)
    requires Alive(s) && s.runnable && x in Pending(s)
    ensures IsRun(s, more) && Punctual(s, more) && NoRequests(more)
    ensures TimesDelivered(Execute(s, more).delivered, x) > TimesDelivered(s.delivered, x)
  {
    FecQuietly(s);
    FecDeliversOn(s, x);
    var r := Fec(s, []);
    hide Fec, Core, Surplus;
    if x in Pending(r) {
      var rest := FromArmed(r, x);
      more := [RunFec([])] + rest;
      assert more[1..] == rest;
    } else {
      GoneMeansDelivered(s, r, x);
      more := [RunFec([])];
      assert more[1..] == [];
    }
  }

  /** From every state of a punctual run each pending payload has a punctual continuation in which it
      is delivered; only for a payload left behind does it take another immediate request. */
  lemma EveryPayloadCanBeDelivered(steps: seq<Step>, x: Item) returns (more: seq<Step>)
    requires IsRun(INITIAL, steps) && Punctual(INITIAL, steps) && x in Pending(Execute(INITIAL, steps))
    ensures var s := Execute(INITIAL, steps);
            && IsRun(s, more) && Punctual(s, more)
            && TimesDelivered(Execute(s, more).delivered, x) > TimesDelivered(s.delivered, x)
            && (!LeftBehind(s) ==> NoRequests(more))
  {
    InitiallyAlive();
    RunKeeps(INITIAL, steps);
    var s := Execute(INITIAL, steps);
    hide Execute, IsRun, Punctual, Alive, Pending, TimesDelivered, NoRequests;
    if s.runnable {
      more := FromTriggered(s, x);
    } else if LeftBehind(s) {
      more := FromLeftBehind(s, x);
    } else {
      ArmedThen(s);
      more := FromArmed(s, x);
    }
  }

  lemma ArmedThen(s: Peq)
    requires Alive(s) && !s.runnable && !LeftBehind(s)
    ensures Armed(s)
  {
  }

  lemma FromLeftBehind(s: Peq, x: Item) returns (more: seq<Step>)
    requires Alive(s) && LeftBehind(s) && x in Pending(s)
    ensures IsRun(s, more) && Punctual(s, more)
    ensures TimesDelivered(Execute(s, more).delivered, x) > TimesDelivered(s.delivered, x)
  {
    var step := Request(Now(0));
    StepKeeps(s, step);
    var t := Apply(s, step);
    assert x in Pending(t);
    var rest := FromTriggered(t, x);
    more := [step] + rest;
    assert more[1..] == rest;
  }
}
