/** The wait states of the slow memory, in runs with the bus. */
module SimpleBusSlow {
  import opened Basics
  import opened SimpleBus

  /** While a word of the slow memory is in progress its request keeps the bus, at the same
      address, and the count is what remains of its wait states; else the next call finds
      the count at -1. */
  ghost predicate InStep(c: Config, s: Sys) {
    && Inv(s.bus)
    && if s.first.Some? then
         var a := s.first.value;
         && s.bus.current == Some(a.k)
         && CallsSlow(c, s.bus.requests[a.k]) && s.bus.requests[a.k].address == a.address
         && a.cycle < s.cycle <= a.cycle + c.waitStates
         && s.count == a.cycle + c.waitStates - s.cycle + (if s.rising then 1 else 0)
       else
         && (s.bus.current.Some? ==> !CallsSlow(c, s.bus.requests[s.bus.current.value]))
         && (s.count == -1 || (s.count == 0 && s.rising))
  }

  lemma AskInStep(c: Config, s: Sys, step: Step)
    requires InStep(c, s) && step.Asks? && Enabled(c, s, step)
    ensures InStep(c, Apply(c, s, step))
  {
    hide SlaveOf, GoodRequest;
    AskKeeps(s.bus, step.priority, step.job, |s.writes|);
  }

  lemma ServeInStep(c: Config, s: Sys, k: nat, answer: Status)
    requires InStep(c, s) && Enabled(c, s, Serves(k, answer)) && c.waitStates >= 1
    ensures InStep(c, Apply(c, s, Serves(k, answer)))
  {
    hide Chosen, FirstFit, GoodRequest, ClearLocks;
    ServeKeeps(s.bus, k, c.slaves, answer, Load(s.mem, s.bus.requests[k].address));
  }

  lemma StepInStep(c: Config, s: Sys, step: Step)
    requires InStep(c, s) && Enabled(c, s, step) && c.waitStates >= 1
    ensures InStep(c, Apply(c, s, step))
  {
    match step
    case Asks(_, _) => AskInStep(c, s, step);
    case Serves(k, answer) => ServeInStep(c, s, k, answer);
    case Rests => RestKeeps(s.bus);
    case Rises =>
    case DirectWrite(_, _) =>
  }

  lemma {:induction false} RunInStep(c: Config, s: Sys, steps: seq<Step>)
    requires InStep(c, s) && IsRun(c, s, steps) && c.waitStates >= 1
    ensures InStep(c, Execute(c, s, steps))
    decreases |steps|
  {
    hide InStep, Enabled, Apply;
    if steps != [] {
      StepInStep(c, s, steps[0]);
      RunInStep(c, Apply(c, s, steps[0]), steps[1..]);
    }
  }

  /** With r >= 1 wait states, in every run, whatever is interleaved between words: the first
      call for a word finds the count at -1; from then on every bus cycle is a call for the same
      request and address; and the slow memory answers Okay exactly on the r-th cycle after
      the first. */
  lemma SlowWordTiming(c: Config, steps: seq<Step>, k: nat, answer: Status)
    requires IsRun(c, INITIAL, steps) && c.waitStates >= 1
    requires Enabled(c, Execute(c, INITIAL, steps), Serves(k, answer))
    ensures var s := Execute(c, INITIAL, steps);
            var r := s.bus.requests[k];
            && (s.first.Some? ==> k == s.first.value.k && r.address == s.first.value.address && CallsSlow(c, r))
            && (CallsSlow(c, r) ==>
                  && (s.first.None? ==> s.count == -1)
                  && (answer == Okay <==> s.first.Some? && s.cycle == s.first.value.cycle + c.waitStates))
  {
    RunInStep(c, INITIAL, steps);
  }

  lemma {:induction false} RunNeverZero(c: Config, s: Sys, steps: seq<Step>)
    requires IsRun(c, s, steps) && c.waitStates == 0 && (s.count == -1 || (s.count == 0 && s.rising))
    ensures var e := Execute(c, s, steps); e.count == -1 || (e.count == 0 && e.rising)
    decreases |steps|
  {
    hide Served, Serve, Ask, Rest, Resting, CallsSlow, Idle;
    if steps != [] {
      RunNeverZero(c, Apply(c, s, steps[0]), steps[1..]);
    }
  }

  /** With no wait states the slow memory never answers Okay, in any run. */
  lemma ZeroWaitStatesNeverAnswer(c: Config, steps: seq<Step>, k: nat, answer: Status)
    requires IsRun(c, INITIAL, steps) && c.waitStates == 0
    requires var s := Execute(c, INITIAL, steps); Enabled(c, s, Serves(k, answer)) && CallsSlow(c, s.bus.requests[k])
    ensures answer == Waiting
  {
    RunNeverZero(c, INITIAL, steps);
  }
}
