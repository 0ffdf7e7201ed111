/** Update requests from threads outside the simulator: any number of appending
    threads hand channels to the kernel through a mutex-protected queue and a
    semaphore that counts the requests the kernel has not taken.

    Each step below is one action that is atomic in the program; a run is any
    interleaving of such steps.  Channels and threads are numbers.
 */
module AsyncUpdates {

  datatype Owner = Nobody | Appender(thread: nat)

  /** Where an appending thread is inside `append`, which holds the mutex throughout. */
  datatype ThreadPc = Outside | Locked(ch: nat) | Pushed | Posted

  /** Where the kernel is: idle, about to swap, in the accept loop about to request the
      next channel, about to take that channel's token, or in `async_suspend`. */
  datatype KernelPc =
    | Free
    | Swapping
    | Accepting
    | TakingToken
    | Waiting
    | Replacing
    | Resuming(waited: bool)

  /** `it` counts the channels of the pop queue already requested.  `appended` and
      `accepted` are histories; `failed` records a `trywait` that found no token, and
      `resumed` what `async_suspend` returned, with whether it had waited. */
  datatype State = State(
    push: seq<nat>, pop: seq<nat>, it: nat, tokens: int,
    owner: Owner, threads: map<nat, ThreadPc>, kernel: KernelPc, suspending: bool,
    appended: seq<nat>, accepted: seq<nat>, failed: bool, resumed: seq<(bool, bool)>)

  const INITIAL := State([], [], 0, 0, Nobody, map[], Free, false, [], [], false, [])

  function PcOf(s: State, t: nat): ThreadPc {
    if t in s.threads then s.threads[t] else Outside
  }

  datatype Step =
    | Lock(t: nat, ch: nat)
    | Push(t: nat)
    | Post(t: nat)
    | Unlock(t: nat)
    | SetSuspending(on: bool)
    | CheckPending   // the kernel's `pending`, at the start of the update phase
    | Swap
    | RequestNext    // one round of the accept loop: request the update ...
    | TryWait        // ... and take its token
    | Clear
    | StartSuspend
    | Wait
    | PostBack
    | ReturnFromSuspend

  predicate Enabled(s: State, step: Step) {
    match step
    case Lock(t, _) => s.owner == Nobody && PcOf(s, t) == Outside
    case Push(t) => PcOf(s, t).Locked?
    case Post(t) => PcOf(s, t).Pushed?
    case Unlock(t) => PcOf(s, t).Posted?
    case SetSuspending(_) => true
    case CheckPending => s.kernel == Free && s.owner == Nobody
    case Swap => s.kernel == Swapping && s.owner == Nobody
    case RequestNext => s.kernel == Accepting && s.it < |s.pop|
    case TryWait => s.kernel == TakingToken
    case Clear => s.kernel == Accepting && s.it == |s.pop|
    case StartSuspend => s.kernel == Free
    case Wait => s.kernel == Waiting && s.tokens > 0
    case PostBack => s.kernel == Replacing
    case ReturnFromSuspend => s.kernel.Resuming? && s.owner == Nobody
  }

  function Apply(s: State, step: Step): State
    requires Enabled(s, step)
  {
    match step
    case Lock(t, ch) => s.(owner := Appender(t), threads := s.threads[t := Locked(ch)])
    case Push(t) =>
      s.(push := s.push + [PcOf(s, t).ch], threads := s.threads[t := Pushed],
         appended := s.appended + [PcOf(s, t).ch])
    case Post(t) => s.(tokens := s.tokens + 1, threads := s.threads[t := Posted])
    case Unlock(t) => s.(owner := Nobody, threads := s.threads[t := Outside])
    case SetSuspending(on) => s.(suspending := on)
    case CheckPending => if s.push != [] then s.(kernel := Swapping) else s
    case Swap => s.(push := s.pop, pop := s.push, it := 0, kernel := Accepting)
    case RequestNext => s.(accepted := s.accepted + [s.pop[s.it]], it := s.it + 1, kernel := TakingToken)
    case TryWait =>
      if s.tokens > 0 then s.(tokens := s.tokens - 1, kernel := Accepting)
      else s.(failed := true, kernel := Accepting)
    case Clear => s.(pop := [], it := 0, kernel := Free)
    case StartSuspend => if s.suspending then s.(kernel := Waiting) else s.(kernel := Resuming(false))
    case Wait => s.(tokens := s.tokens - 1, kernel := Replacing)
    case PostBack => s.(tokens := s.tokens + 1, kernel := Resuming(true))
    case ReturnFromSuspend =>
      s.(kernel := Free, resumed := s.resumed + [(s.kernel.waited, s.push == [])])
  }

  predicate IsRun(s: State, steps: seq<Step>)
    decreases |steps|
  {
    steps == [] || (Enabled(s, steps[0]) && IsRun(Apply(s, steps[0]), steps[1..]))
  }

  function Execute(s: State, steps: seq<Step>): State
    requires IsRun(s, steps)
    decreases |steps|
  {
    if steps == [] then s else Execute(Apply(s, steps[0]), steps[1..])
  }

  // ----- the invariant ----------------------------------------------------

  /** A thread is between its push and its post. */
  predicate InFlight(s: State) {
    s.owner.Appender? && PcOf(s, s.owner.thread).Pushed?
  }

  /** Requests whose token the kernel has not taken. */
  function Unprocessed(s: State): int {
    |s.push| + |s.pop| - s.it + (if s.kernel == TakingToken then 1 else 0)
  }

  /** Tokens and requests match, but for a thread between push and post and for the
      kernel between wait and post. */
  predicate TokensMatch(s: State) {
    s.tokens == Unprocessed(s) - (if InFlight(s) then 1 else 0) - (if s.kernel == Replacing then 1 else 0)
  }

  predicate MutexHeld(s: State) {
    forall t :: t in s.threads && s.threads[t] != Outside ==> s.owner == Appender(t)
  }

  predicate QueuesConsistent(s: State) {
    && s.it <= |s.pop|
    && (s.kernel == TakingToken ==> s.it > 0)
    && (s.kernel != Accepting && s.kernel != TakingToken ==> s.pop == [] && s.it == 0)
    && (s.kernel == Replacing || s.kernel == Resuming(true) || s.kernel == Swapping ==> s.push != [])
    && (InFlight(s) ==> s.push != [])
  }

  /** Requests are accepted in the order they were appended. */
  predicate InOrder(s: State)
    requires s.it <= |s.pop|
  {
    s.appended == s.accepted + s.pop[s.it..] + s.push
  }

  ghost predicate Inv(s: State) {
    && MutexHeld(s) && (s.owner.Appender? ==> PcOf(s, s.owner.thread) != Outside)
    && QueuesConsistent(s) && TokensMatch(s) && InOrder(s)
    && !s.failed
    && (forall r :: r in s.resumed ==> (r.0 ==> !r.1))
  }

  lemma AppenderKeeps(s: State, step: Step)
    requires Inv(s) && Enabled(s, step)
    requires step.Lock? || step.Push? || step.Post? || step.Unlock?
    ensures Inv(Apply(s, step))
  {
    var r := Apply(s, step);
    if step.Push? {
      var x := PcOf(s, step.t).ch;
      assert s.appended + [x] == s.accepted + s.pop[s.it..] + (s.push + [x]);
    }
  }

  lemma AcceptKeeps(s: State, step: Step)
    requires Inv(s) && Enabled(s, step)
    requires step.CheckPending? || step.Swap? || step.RequestNext? || step.TryWait? || step.Clear?
    ensures Inv(Apply(s, step))
  {
    match step
    case Swap => assert s.push[0..] == s.push;
    case RequestNext => assert s.pop[s.it..] == [s.pop[s.it]] + s.pop[s.it + 1..];
    case Clear => assert s.pop[s.it..] == [];
    case _ =>
  }

  lemma SuspendKeeps(s: State, step: Step)
    requires Inv(s) && Enabled(s, step)
    requires step.SetSuspending? || step.StartSuspend? || step.Wait? || step.PostBack? || step.ReturnFromSuspend?
    ensures Inv(Apply(s, step))
  {
  }

  lemma {:induction false} RunKeeps(s: State, steps: seq<Step>)
    requires Inv(s) && IsRun(s, steps)
    ensures Inv(Execute(s, steps))
    decreases |steps|
  {
    if steps != [] {
      var step := steps[0];
      if step.Lock? || step.Push? || step.Post? || step.Unlock? {
        AppenderKeeps(s, step);
      } else if step.CheckPending? || step.Swap? || step.RequestNext? || step.TryWait? || step.Clear? {
        AcceptKeeps(s, step);
      } else {
        SuspendKeeps(s, step);
      }
      RunKeeps(Apply(s, step), steps[1..]);
    }
  }

  // ----- results over all interleavings -----------------------------------

  /** Under every interleaving: tokens match unprocessed requests, `trywait` never fails,
      every appended request is accepted or queued, in order and once, and an
      `async_suspend` that waited reports pending updates. */
  lemma TokensConserved(steps: seq<Step>)
    requires IsRun(INITIAL, steps)
    ensures var s := Execute(INITIAL, steps);
            && TokensMatch(s)
            && !s.failed
            && s.it <= |s.pop| && s.appended == s.accepted + s.pop[s.it..] + s.push
            && (forall r :: r in s.resumed && r.0 ==> !r.1)
  {
    RunKeeps(INITIAL, steps);
  }

  /** No lost wake-up: a suspended kernel can go on as soon as some request is queued,
      at the latest when the appending thread has posted. */
  lemma SuspendedKernelWakes(steps: seq<Step>)
    requires IsRun(INITIAL, steps)
    requires Execute(INITIAL, steps).kernel == Waiting
    ensures var s := Execute(INITIAL, steps);
            && (Enabled(s, Wait) ==> s.push != [])
            && (s.push != [] && !Enabled(s, Wait) ==> InFlight(s) && |s.push| == 1)
  {
    RunKeeps(INITIAL, steps);
  }

  // ----- suspending -------------------------------------------------------

  /** Whether a suspending channel is attached after a run, by its steps. */
  function SuspendingAfter(steps: seq<Step>): bool {
    if steps == [] then false
    else
      var last := steps[|steps| - 1];
      if last.SetSuspending? then last.on else SuspendingAfter(steps[..|steps| - 1])
  }

  lemma {:induction false} RunConcat(s: State, pre: seq<Step>, post: seq<Step>)
    requires IsRun(s, pre + post)
    ensures IsRun(s, pre) && IsRun(Execute(s, pre), post)
    ensures Execute(s, pre + post) == Execute(Execute(s, pre), post)
    decreases |pre|
  {
    hide Enabled, Apply;
    if pre == [] {
      assert pre + post == post;
    } else {
      assert (pre + post)[1..] == pre[1..] + post;
      RunConcat(Apply(s, pre[0]), pre[1..], post);
    }
  }

  lemma RunOne(s: State, step: Step)
    requires IsRun(s, [step])
    ensures Enabled(s, step) && Execute(s, [step]) == Apply(s, step)
  {
    assert [step][1..] == [];
  }

  lemma {:induction false} SuspendingFollows(steps: seq<Step>)
    requires IsRun(INITIAL, steps)
    ensures Execute(INITIAL, steps).suspending == SuspendingAfter(steps)
  {
    if steps != [] {
      var init, last := steps[..|steps| - 1], steps[|steps| - 1];
      assert steps == init + [last];
      RunConcat(INITIAL, init, [last]);
      RunOne(Execute(INITIAL, init), last);
      SuspendingFollows(init);
    }
  }

  /** A kernel that waits on the semaphore goes on with `Wait` only. */
  lemma {:induction false} WaitsOrGoesOn(s: State, steps: seq<Step>)
    requires IsRun(s, steps) && ReturnFromSuspend !in steps
    requires s.kernel == Waiting || s.kernel == Replacing || s.kernel == Resuming(true)
    ensures var k := Execute(s, steps).kernel;
            && (k == Waiting || k == Replacing || k == Resuming(true))
            && (s.kernel == Waiting && Wait !in steps ==> k == Waiting)
    decreases |steps|
  {
    if steps != [] {
      assert steps[0] in steps;
      WaitsOrGoesOn(Apply(s, steps[0]), steps[1..]);
    }
  }

  lemma {:induction false} GoesOnAtOnce(s: State, steps: seq<Step>)
    requires IsRun(s, steps) && ReturnFromSuspend !in steps && s.kernel == Resuming(false)
    ensures Wait !in steps && Execute(s, steps).kernel == Resuming(false)
    decreases |steps|
  {
    if steps != [] {
      assert steps[0] in steps;
      GoesOnAtOnce(Apply(s, steps[0]), steps[1..]);
    }
  }

  /** Under every interleaving: a suspend that begins with a suspending channel attached waits on the
      semaphore, and when it returns some request is queued, which it reports; a suspend that
      begins without one does not wait. */
  lemma SuspendWaits(pre: seq<Step>, mid: seq<Step>)
    requires IsRun(INITIAL, pre + ([StartSuspend] + (mid + [ReturnFromSuspend]))) && ReturnFromSuspend !in mid
    ensures SuspendingAfter(pre) <==> Wait in mid
    ensures IsRun(INITIAL, pre + ([StartSuspend] + mid))
    ensures var s := Execute(INITIAL, pre + ([StartSuspend] + mid));
            var r := Execute(INITIAL, pre + ([StartSuspend] + (mid + [ReturnFromSuspend])));
            && (SuspendingAfter(pre) ==> s.push != [])
            && r.resumed == s.resumed + [(SuspendingAfter(pre), s.push == [])]
  {
    hide IsRun, Execute;
    var all := pre + ([StartSuspend] + (mid + [ReturnFromSuspend]));
    var before := pre + ([StartSuspend] + mid);
    assert all == before + [ReturnFromSuspend] && before == pre + ([StartSuspend] + mid);
    RunConcat(INITIAL, before, [ReturnFromSuspend]);
    RunConcat(INITIAL, pre, [StartSuspend] + mid);
    RunConcat(Execute(INITIAL, pre), [StartSuspend], mid);
    RunOne(Execute(INITIAL, pre), StartSuspend);
    RunOne(Execute(INITIAL, before), ReturnFromSuspend);
    SuspendingFollows(pre);
    StartsWell();
    RunKeeps(INITIAL, before);
    var s := Apply(Execute(INITIAL, pre), StartSuspend);
    if SuspendingAfter(pre) {
      WaitsOrGoesOn(s, mid);
    } else {
      GoesOnAtOnce(s, mid);
    }
  }

  lemma StartsWell()
    ensures Inv(INITIAL)
  {
  }

  // ----- what was appended ------------------------------------------------

  /** The channel with which a thread last entered `append`, by the steps. */
  function LastLocked(steps: seq<Step>, t: nat): nat {
    if steps == [] then 0
    else
      var last := steps[|steps| - 1];
      if last.Lock? && last.t == t then last.ch else LastLocked(steps[..|steps| - 1], t)
  }

  /** The channels pushed in a run, by its steps. */
  function PushedBy(steps: seq<Step>): seq<nat> {
    if steps == [] then []
    else
      var init, last := steps[..|steps| - 1], steps[|steps| - 1];
      PushedBy(init) + (if last.Push? then [LastLocked(init, last.t)] else [])
  }

  /** Every push appends the channel with which its thread entered. */
  lemma {:induction false} AppendedFollows(steps: seq<Step>)
    requires IsRun(INITIAL, steps)
    ensures var s := Execute(INITIAL, steps);
            && s.appended == PushedBy(steps)
            && forall t :: PcOf(s, t).Locked? ==> PcOf(s, t).ch == LastLocked(steps, t)
  {
    if steps != [] {
      var init, last := steps[..|steps| - 1], steps[|steps| - 1];
      assert steps == init + [last];
      RunConcat(INITIAL, init, [last]);
      RunOne(Execute(INITIAL, init), last);
      AppendedFollows(init);
    }
  }
}
