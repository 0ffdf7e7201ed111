/** Update phases with requests from other threads: the asynchronous requests that a phase
    accepts join the registry's list, and the phase updates what is on it.
 */
module AsyncPhases {
  import opened Basics
  import opened UpdatePhase
  import A = AsyncUpdates

  /** A phase: it accepted the asynchronous requests from number `from` up to `upTo`, found
      `before` on the list and updated `batch`; `mark` requests had been appended when it began. */
  datatype Phase = Phase(from: nat, upTo: nat, mark: nat, before: seq<nat>, batch: seq<nat>)

  /** `pending` is the registry's list; `current` is the phase in progress. */
  datatype System = System(async: A.State, pending: seq<nat>, current: Option<Phase>, phases: seq<Phase>)

  const INITIAL := System(A.INITIAL, [], None, [])

  /** `Other` is a step of an appending thread or of the suspended kernel, `Accept` one of the
      accept loop.  In `Perform(script)` channel c requests `script(c)` while it is updated. */
  datatype Step =
    | Other(step: A.Step)
    | Evaluate(ch: nat)
    | Begin
    | Accept(step: A.Step)
    | Perform(script: nat -> seq<nat>)

  predicate IsAccept(step: A.Step) { step.Swap? || step.RequestNext? || step.TryWait? || step.Clear? }

  predicate IsSuspend(step: A.Step) { step.StartSuspend? || step.Wait? || step.PostBack? || step.ReturnFromSuspend? }

  predicate Enabled(s: System, step: Step) {
    match step
    case Other(a) =>
      !a.CheckPending? && !IsAccept(a) && (IsSuspend(a) ==> s.current.None?) && A.Enabled(s.async, a)
    case Evaluate(_) => s.current.None?
    case Begin => s.current.None? && A.Enabled(s.async, A.CheckPending)
    case Accept(a) => s.current.Some? && IsAccept(a) && A.Enabled(s.async, a)
    case Perform(_) => s.current.Some? && s.async.kernel == A.Free
  }

  function Apply(s: System, step: Step): System
    requires Enabled(s, step)
  {
    match step
    case Other(a) => s.(async := A.Apply(s.async, a))
    case Evaluate(ch) => s.(pending := Request(s.pending, [], ch))
    case Begin =>
      s.(async := A.Apply(s.async, A.CheckPending),
         current := Some(Phase(|s.async.accepted|, 0, |s.async.appended|, s.pending, [])))
    case Accept(a) =>
      s.(async := A.Apply(s.async, a),
         pending := if a.RequestNext? then Request(s.pending, [], s.async.pop[s.async.it]) else s.pending)
    case Perform(script) =>
      s.(pending := NextList(s.pending, script, |s.pending|), current := None,
         phases := s.phases + [s.current.value.(upTo := |s.async.accepted|, batch := s.pending)])
  }

  predicate IsRun(s: System, steps: seq<Step>)
    decreases |steps|
  {
    steps == [] || (Enabled(s, steps[0]) && IsRun(Apply(s, steps[0]), steps[1..]))
  }

  function Execute(s: System, steps: seq<Step>): System
    requires IsRun(s, steps)
    decreases |steps|
  {
    if steps == [] then s else Execute(Apply(s, steps[0]), steps[1..])
  }

  // ----- the invariant ----------------------------------------------------

  /** A finished phase has updated, once each, what was on the list and what it accepted. */
  ghost predicate GoodPhase(accepted: seq<nat>, p: Phase) {
    && p.from <= p.upTo <= |accepted| && p.mark <= p.upTo
    && p.batch == RequestAll(p.before, [], accepted[p.from..p.upTo]) && Distinct(p.before)
  }

  /** The requests accepted so far are those of the finished phases, one after the other. */
  ghost predicate Chained(phases: seq<Phase>, from: nat) {
    && (forall i :: 0 < i < |phases| ==> phases[i].from == phases[i - 1].upTo)
    && from == (if phases == [] then 0 else phases[|phases| - 1].upTo)
    && (phases != [] ==> phases[0].from == 0)
  }

  /** What the phase in progress has put on the list, and that it will not miss what had been
      appended when it began. */
  ghost predicate Ongoing(a: A.State, p: Phase, pending: seq<nat>) {
    && p.from <= |a.accepted| && Distinct(p.before)
    && pending == RequestAll(p.before, [], a.accepted[p.from..])
    && p.mark <= |a.appended|
    && (a.kernel == A.Accepting || a.kernel == A.TakingToken ==> p.mark <= |a.accepted| + |a.pop| - a.it)
    && (a.kernel == A.Free ==> p.mark <= |a.accepted|)
    && (a.kernel == A.Swapping || a.kernel == A.Accepting || a.kernel == A.TakingToken || a.kernel == A.Free)
  }

  ghost predicate Inv(s: System) {
    && A.Inv(s.async) && Distinct(s.pending)
    && (forall p :: p in s.phases ==> GoodPhase(s.async.accepted, p))
    && Chained(s.phases, if s.current.Some? then s.current.value.from else |s.async.accepted|)
    && (s.current.Some? ==> Ongoing(s.async, s.current.value, s.pending))
    && (s.current.None? ==>
          s.async.kernel != A.Swapping && s.async.kernel != A.Accepting && s.async.kernel != A.TakingToken)
  }

  lemma AsyncKeeps(a: A.State, step: A.Step)
    requires A.Inv(a) && A.Enabled(a, step)
    ensures A.Inv(A.Apply(a, step))
  {
    A.RunKeeps(a, [step]);
    assert A.IsRun(a, [step]) && A.Execute(a, [step]) == A.Apply(a, step) by {
      assert [step][1..] == [];
    }
  }

  lemma PhasesStay(s: System, accepted: seq<nat>)
    requires forall p :: p in s.phases ==> GoodPhase(s.async.accepted, p)
    requires s.async.accepted <= accepted
    ensures forall p :: p in s.phases ==> GoodPhase(accepted, p)
  {
    hide RequestAll;
    forall p | p in s.phases
      ensures GoodPhase(accepted, p)
    {
      assert accepted[p.from..p.upTo] == s.async.accepted[p.from..p.upTo];
    }
  }

  lemma RequestDistinct(pending: seq<nat>, ch: nat)
    requires Distinct(pending)
    ensures Distinct(Request(pending, [], ch))
  {
  }

  lemma OtherKeeps(s: System, a: A.Step)
    requires Inv(s) && Enabled(s, Other(a))
    ensures Inv(Apply(s, Other(a)))
  {
    hide RequestAll, GoodPhase, A.Inv;
    AsyncKeeps(s.async, a);
  }

  lemma BeginKeeps(s: System)
    requires Inv(s) && Enabled(s, Begin)
    ensures Inv(Apply(s, Begin))
  {
    AsyncKeeps(s.async, A.CheckPending);
    assert s.async.accepted[|s.async.accepted|..] == [];
  }

  lemma AcceptKeeps(s: System, a: A.Step)
    requires Inv(s) && Enabled(s, Accept(a))
    ensures Inv(Apply(s, Accept(a)))
  {
    AsyncKeeps(s.async, a);
    var r := Apply(s, Accept(a));
    var p := s.current.value;
    PhasesStay(s, r.async.accepted);
    hide RequestAll, GoodPhase;
    if a.RequestNext? {
      var ch := s.async.pop[s.async.it];
      assert r.async.accepted[p.from..] == s.async.accepted[p.from..] + [ch];
      RequestAllAppend(p.before, [], s.async.accepted[p.from..], ch);
      RequestDistinct(s.pending, ch);
    }
  }

  lemma PerformKeeps(s: System, script: nat -> seq<nat>)
    requires Inv(s) && Enabled(s, Perform(script))
    ensures Inv(Apply(s, Perform(script)))
  {
    hide RequestAll, NextList, A.Inv;
    NextListMembers(s.pending, script, |s.pending|);
    var p := s.current.value;
    assert s.async.accepted[p.from..|s.async.accepted|] == s.async.accepted[p.from..];
  }

  lemma StepKeeps(s: System, step: Step)
    requires Inv(s) && Enabled(s, step)
    ensures Inv(Apply(s, step))
  {
    match step
    case Other(a) => OtherKeeps(s, a);
    case Evaluate(ch) => RequestDistinct(s.pending, ch);
    case Begin => BeginKeeps(s);
    case Accept(a) => AcceptKeeps(s, a);
    case Perform(script) => PerformKeeps(s, script);
  }

  lemma {:induction false} RunKeeps(s: System, steps: seq<Step>)
    requires Inv(s) && IsRun(s, steps)
    ensures Inv(Execute(s, steps))
    decreases |steps|
  {
    hide Inv, Enabled, Apply;
    if steps != [] {
      StepKeeps(s, steps[0]);
      RunKeeps(Apply(s, steps[0]), steps[1..]);
    }
  }

  // ----- results over all interleavings -----------------------------------

  /** Under every interleaving: a finished phase has updated, once each, exactly the channels that
      were on the list when it began and those of the asynchronous requests it accepted, and it
      accepted every request appended before it began. */
  lemma AcceptedMeansUpdated(steps: seq<Step>, p: Phase)
    requires IsRun(INITIAL, steps) && p in Execute(INITIAL, steps).phases
    ensures var a := Execute(INITIAL, steps).async;
            && p.mark <= p.upTo <= |a.accepted| <= |a.appended| && p.from <= p.upTo
            && Distinct(p.batch)
            && forall c :: c in p.batch <==> c in p.before || c in a.appended[p.from..p.upTo]
  {
    hide RequestAll;
    StartsWell();
    RunKeeps(INITIAL, steps);
    var a := Execute(INITIAL, steps).async;
    assert a.accepted <= a.appended;
    assert a.appended[p.from..p.upTo] == a.accepted[p.from..p.upTo];
    RequestAllMembers(p.before, [], a.accepted[p.from..p.upTo]);
  }

  lemma StartsWell()
    ensures Inv(INITIAL)
  {
    A.TokensConserved([]);
    assert A.Inv(A.INITIAL);
  }

  /** And every request accepted before the phase in progress belongs to exactly one finished phase. */
  lemma AcceptedInOnePhase(steps: seq<Step>, n: nat)
    requires IsRun(INITIAL, steps)
    requires var s := Execute(INITIAL, steps);
             n < if s.current.Some? then s.current.value.from else |s.async.accepted|
    ensures var ps := Execute(INITIAL, steps).phases;
            && (exists i :: 0 <= i < |ps| && ps[i].from <= n < ps[i].upTo)
            && (forall i, j :: 0 <= i < j < |ps| ==> !(ps[i].from <= n < ps[i].upTo && ps[j].from <= n < ps[j].upTo))
  {
    StartsWell();
    RunKeeps(INITIAL, steps);
    var s := Execute(INITIAL, steps);
    InOnePhase(s.phases, if s.current.Some? then s.current.value.from else |s.async.accepted|, n);
  }

  lemma {:induction false} InOnePhase(ps: seq<Phase>, from: nat, n: nat)
    requires Chained(ps, from) && (forall p :: p in ps ==> p.from <= p.upTo) && n < from
    ensures exists i :: 0 <= i < |ps| && ps[i].from <= n < ps[i].upTo
    ensures forall i, j :: 0 <= i < j < |ps| ==> !(ps[i].from <= n < ps[i].upTo && ps[j].from <= n < ps[j].upTo)
    decreases |ps|
  {
    var last := |ps| - 1;
    assert ps[last] in ps;
    PhasesRise(ps, from);
    if n < ps[last].from {
      assert last > 0;
      assert Chained(ps[..last], ps[last].from);
      InOnePhase(ps[..last], ps[last].from, n);
      var i :| 0 <= i < last && ps[..last][i].from <= n < ps[..last][i].upTo;
      assert ps[i].from <= n < ps[i].upTo;
    }
  }

  /** Later phases accept later requests. */
  lemma {:induction false} PhasesRise(ps: seq<Phase>, from: nat)
    requires Chained(ps, from) && forall p :: p in ps ==> p.from <= p.upTo
    ensures forall i, j :: 0 <= i < j < |ps| ==> ps[i].upTo <= ps[j].from
    decreases |ps|
  {
    if ps != [] {
      var last := |ps| - 1;
      assert Chained(ps[..last], if last == 0 then 0 else ps[last - 1].upTo);
      PhasesRise(ps[..last], if last == 0 then 0 else ps[last - 1].upTo);
      forall i, j | 0 <= i < j < |ps|
        ensures ps[i].upTo <= ps[j].from
      {
        assert ps[last - 1] in ps && ps[i] in ps;
        if j == last && i < last - 1 {
          assert ps[..last][i].upTo <= ps[..last][last - 1].from;
        } else if j < last {
          assert ps[..last][i].upTo <= ps[..last][j].from;
        }
      }
    }
  }

  // ----- requests of the evaluation phase ---------------------------------

  /** A channel on the list stays there until the list is performed. */
  lemma {:induction false} StaysPending(s: System, steps: seq<Step>, ch: nat)
    requires IsRun(s, steps) && ch in s.pending && forall step :: step in steps ==> !step.Perform?
    ensures ch in Execute(s, steps).pending
    decreases |steps|
  {
    if steps != [] {
      assert steps[0] in steps;
      hide A.Apply, A.Enabled, RequestAll, NextList;
      StaysPending(Apply(s, steps[0]), steps[1..], ch);
    }
  }

  /** A channel that a process requests is updated in the next phase to be performed. */
  lemma EvaluatedIsUpdated(s: System, ch: nat, steps: seq<Step>, script: nat -> seq<nat>)
    requires Enabled(s, Evaluate(ch)) && IsRun(Apply(s, Evaluate(ch)), steps)
    requires forall step :: step in steps ==> !step.Perform?
    requires Enabled(Execute(Apply(s, Evaluate(ch)), steps), Perform(script))
    ensures var r := Apply(Execute(Apply(s, Evaluate(ch)), steps), Perform(script));
            r.phases != [] && ch in r.phases[|r.phases| - 1].batch
  {
    StaysPending(Apply(s, Evaluate(ch)), steps, ch);
  }

  /** After a phase the list holds, once each, exactly the channels that updates requested when they
      were not queued or had already been updated; they wait for the next phase. */
  lemma PerformPasses(s: System, script: nat -> seq<nat>)
    requires Enabled(s, Perform(script))
    ensures var r := Apply(s, Perform(script));
            && Distinct(r.pending) && r.phases != [] && r.phases[|r.phases| - 1].batch == s.pending
            && forall c :: c in r.pending <==> RequestedMeanwhile(s.pending, script, |s.pending|, c)
  {
    NextListMembers(s.pending, script, |s.pending|);
  }

  // ----- progress ---------------------------------------------------------

  /** Steps that the accept loop has still to make. */
  function Left(a: A.State): nat {
    if a.kernel == A.Swapping then 2 * |a.push| + 2
    else if a.kernel == A.TakingToken && a.it <= |a.pop| then 2 * (|a.pop| - a.it) + 2
    else if a.kernel == A.Accepting && a.it <= |a.pop| then 2 * (|a.pop| - a.it) + 1
    else 0
  }

  lemma RunCons(s: System, step: Step, rest: seq<Step>)
    requires Enabled(s, step) && IsRun(Apply(s, step), rest)
    ensures IsRun(s, [step] + rest) && Execute(s, [step] + rest) == Execute(Apply(s, step), rest)
  {
    assert ([step] + rest)[1..] == rest;
  }

  /** The next step of the accept loop. */
  function Next(a: A.State): A.Step {
    if a.kernel == A.Swapping then A.Swap
    else if a.kernel == A.TakingToken then A.TryWait
    else if a.it < |a.pop| then A.RequestNext
    else A.Clear
  }

  lemma NextIsNearer(s: System)
    requires Inv(s) && s.current.Some? && s.async.owner == A.Nobody && s.async.kernel != A.Free
    ensures var step := Accept(Next(s.async));
            && Enabled(s, step)
            && var r := Apply(s, step);
               && Inv(r) && Left(r.async) < Left(s.async) && r.async.owner == A.Nobody
               && r.current == s.current && r.phases == s.phases && r.async.appended == s.async.appended
               && (r.async.kernel == A.Free ==> r.async.push == [] || s.async.kernel != A.Swapping)
               && (s.async.kernel == A.Swapping ==> r.async.push == [])
               && (s.async.kernel != A.Swapping ==> r.async.push == s.async.push)
  {
    AcceptKeeps(s, Next(s.async));
  }

  /** While no thread appends, a phase that has begun can be performed. */
  lemma {:induction false} PhaseCompletes(s: System, script: nat -> seq<nat>) returns (steps: seq<Step>)
    requires Inv(s) && s.current.Some? && s.async.owner == A.Nobody
    ensures IsRun(s, steps)
    ensures var r := Execute(s, steps);
            && |r.phases| == |s.phases| + 1 && r.current == None && r.async.appended == s.async.appended
            && r.phases[|s.phases|].mark == s.current.value.mark
    decreases Left(s.async)
  {
    hide Inv, Enabled, Apply, IsRun, Execute;
    if s.async.kernel == A.Free {
      PerformEnds(s, script);
      steps := [Perform(script)] + [];
      RunCons(s, Perform(script), []);
    } else {
      NextIsNearer(s);
      var step := Accept(Next(s.async));
      var rest := PhaseCompletes(Apply(s, step), script);
      steps := [step] + rest;
      RunCons(s, step, rest);
    }
  }

  lemma PerformEnds(s: System, script: nat -> seq<nat>)
    requires s.current.Some? && s.async.kernel == A.Free
    ensures Enabled(s, Perform(script)) && IsRun(Apply(s, Perform(script)), [])
    ensures var r := Execute(Apply(s, Perform(script)), []);
            && |r.phases| == |s.phases| + 1 && r.current == None && r.async == s.async
            && r.phases[|s.phases|].mark == s.current.value.mark
  {
  }

  /** From every idle state of a run, while no thread appends, there is a phase in which all the
      requests appended so far are accepted. */
  lemma AppendedCanBeAccepted(steps: seq<Step>, script: nat -> seq<nat>) returns (more: seq<Step>)
    requires IsRun(INITIAL, steps)
    requires var s := Execute(INITIAL, steps);
             s.current.None? && s.async.kernel == A.Free && s.async.owner == A.Nobody
    ensures var s := Execute(INITIAL, steps);
            && IsRun(s, more)
            && var r := Execute(s, more);
               |r.phases| == |s.phases| + 1 && r.phases[|s.phases|].mark == |s.async.appended| == |r.async.appended|
  {
    StartsWell();
    RunKeeps(INITIAL, steps);
    var s := Execute(INITIAL, steps);
    BeginKeeps(s);
    var b := Apply(s, Begin);
    var rest := PhaseCompletes(b, script);
    more := [Begin] + rest;
    RunCons(s, Begin, rest);
  }
}
