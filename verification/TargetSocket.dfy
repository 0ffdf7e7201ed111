/** The target socket's conversion from non-blocking to blocking transport: each
    request is carried by a thread that calls the blocking interface and then
    responds, one response at a time.

    A step is what runs without another thread in between.  Transactions are
    numbers; threads are the handles they loop over.
 */
module TargetSocket {
  import opened Basics

  /** Where a handle's thread is: its event is notified, it is in the blocking call, it is
      about to test for a response in progress, it waits for the end of one, it is in the
      backward BEGIN_RESP call, or it is suspended and can be reused. */
  datatype Stage = Scheduled | Calling | AtGate | Blocked | Responding | Suspended

  datatype Handle = Handle(trans: nat, stage: Stage)

  /** `endPending`: a notification of `m_end_response` is pending.  `running`: the handle in
      the backward call.  `ended`: END_RESP came during that call.  `outstanding`: responses
      the initiator has still to end.  `accepted` and `responded` are histories. */
  datatype State = State(
    handles: seq<Handle>, inProgress: bool, endPending: bool, running: Option<nat>, ended: bool,
    outstanding: seq<nat>, accepted: seq<nat>, responded: seq<nat>)

  const INITIAL := State([], false, false, None, false, [], [], [])

  /** The first handle whose thread is suspended, or the length of the list. */
  function FirstSuspended(v: seq<Handle>): (i: nat)
    ensures i <= |v|
    ensures i < |v| ==> v[i].stage == Suspended
    ensures forall j :: 0 <= j < i ==> v[j].stage != Suspended
  {
    if v == [] || v[0].stage == Suspended then 0 else 1 + FirstSuspended(v[1..])
  }

  method GetHandle(v: seq<Handle>) returns (i: nat)
    ensures i == FirstSuspended(v)
  {
    i := 0;
    while i < |v|
      invariant i <= |v|
      invariant FirstSuspended(v) == i + FirstSuspended(v[i..])
    {
      if v[i].stage == Suspended {
        return;
      }
      assert v[i..][1..] == v[i + 1..];
      i := i + 1;
    }
  }

  function BeginReq(s: State, trans: nat): State {
    var i := FirstSuspended(s.handles);
    var h := Handle(trans, Scheduled);
    s.(handles := if i < |s.handles| then s.handles[i := h] else s.handles + [h],
       accepted := s.accepted + [trans])
  }

  function SetStage(s: State, i: nat, stage: Stage): State
    requires i < |s.handles|
  {
    s.(handles := s.handles[i := s.handles[i].(stage := stage)])
  }

  function Wake(v: seq<Handle>): (r: seq<Handle>)
    ensures |r| == |v|
    ensures forall i :: 0 <= i < |v| ==> r[i] == if v[i].stage == Blocked then v[i].(stage := AtGate) else v[i]
  {
    if v == [] then []
    else [if v[0].stage == Blocked then v[0].(stage := AtGate) else v[0]] + Wake(v[1..])
  }

  /** The forward call with END_RESP, which answers the outstanding response if there is
      one; inside a backward call it comes before that call's response is marked. */
  function EndResponse(s: State): State {
    var r := s.(inProgress := false, endPending := true);
    if s.running.Some? then r.(ended := true)
    else if s.outstanding == [] then r
    else r.(outstanding := s.outstanding[1..])
  }

  /** `BwReturn(completed)`: the backward call returns, with or without ending the
      response.  `EndResp` is the initiator's END_RESP, `EarlyEndResp` the same inside the
      backward call, `FireEnd` the event they notify. */
  datatype Step =
    | Request(trans: nat)
    | Start(i: nat)
    | FinishCall(i: nat)
    | Gate(i: nat)
    | BwReturn(completed: bool)
    | EndResp
    | EarlyEndResp
    | FireEnd

  predicate At(s: State, i: nat, stage: Stage) { i < |s.handles| && s.handles[i].stage == stage }

  /** During the backward call only calls back into the socket can come in. */
  predicate Enabled(s: State, step: Step) {
    match step
    case Request(_) => true
    case Start(i) => s.running.None? && At(s, i, Scheduled)
    case FinishCall(i) => s.running.None? && At(s, i, Calling)
    case Gate(i) => s.running.None? && At(s, i, AtGate)
    case BwReturn(_) => s.running.Some? && s.running.value < |s.handles|
    case EndResp => s.running.None? && s.outstanding != []
    case EarlyEndResp => s.running.Some? && !s.ended
    case FireEnd => s.running.None? && s.endPending
  }

  function Apply(s: State, step: Step): State
    requires Enabled(s, step)
  {
    match step
    case Request(trans) => BeginReq(s, trans)
    case Start(i) => SetStage(s, i, Calling)
    case FinishCall(i) => SetStage(s, i, AtGate)
    case Gate(i) =>
      if s.inProgress then SetStage(s, i, Blocked)
      else SetStage(s, i, Responding).(running := Some(i))
    case BwReturn(completed) =>
      var i := s.running.value;
      var trans := s.handles[i].trans;
      SetStage(s, i, Suspended).(
        running := None, ended := false,
        inProgress := s.inProgress || !completed,
        outstanding := if completed || s.ended then s.outstanding else s.outstanding + [trans],
        responded := s.responded + [trans])
    case EndResp => EndResponse(s)
    case EarlyEndResp => EndResponse(s)
    case FireEnd => s.(endPending := false, handles := Wake(s.handles))
  }

  predicate IsRun(s: State, steps: seq<Step>)
    decreases |steps|
  {
    steps == [] || (Enabled(s, steps[0]) && IsRun(Apply(s, steps[0]), steps[1..]))
  }

  function Execute(s: State, steps: seq<Step>): State
    requires IsRun(s, steps)
    decreases |steps|
  {
    if steps == [] then s else Execute(Apply(s, steps[0]), steps[1..])
  }

  /** A BEGIN_RESP call in which END_RESP came returns completed. */
  predicate Orderly(s: State, steps: seq<Step>)
    requires IsRun(s, steps)
    decreases |steps|
  {
    steps == [] || (!(s.ended && steps[0] == BwReturn(false)) && Orderly(Apply(s, steps[0]), steps[1..]))
  }

  // ----- the invariant ----------------------------------------------------

  /** How many handles carry transaction x: each is in exactly one stage short of
      suspended. */
  ghost function Carrying(v: seq<Handle>, x: nat): nat {
    if v == [] then 0 else Carrying(v[..|v| - 1], x) + Carries(v[|v| - 1], x)
  }

  ghost function Carries(h: Handle, x: nat): nat {
    if h.stage != Suspended && h.trans == x then 1 else 0
  }

  ghost predicate OneResponse(s: State) {
    && |s.outstanding| <= 1 && (s.inProgress <==> s.outstanding != [])
    && (s.running.Some? ==> !s.inProgress && At(s, s.running.value, Responding))
    && (forall i :: 0 <= i < |s.handles| && s.handles[i].stage == Responding ==> s.running == Some(i))
  }

  /** If no response is in progress, whoever waits for the end of one will be woken. */
  ghost predicate NoLostWakeUp(s: State) {
    !s.inProgress ==> s.endPending || forall i :: 0 <= i < |s.handles| ==> s.handles[i].stage != Blocked
  }

  ghost predicate Conserved(s: State) {
    forall x :: Times(s.accepted, x) == Carrying(s.handles, x) + Times(s.responded, x)
  }

  ghost predicate Inv(s: State) {
    (s.ended ==> s.running.Some?) && OneResponse(s) && NoLostWakeUp(s) && Conserved(s)
  }

  lemma {:induction false} UpdateCarrying(v: seq<Handle>, i: nat, h: Handle, x: nat)
    requires i < |v|
    ensures Carrying(v[i := h], x) == Carrying(v, x) - Carries(v[i], x) + Carries(h, x)
  {
    var last := |v| - 1;
    if i == last {
      assert v[i := h][..last] == v[..last];
    } else {
      UpdateCarrying(v[..last], i, h, x);
      assert v[i := h][..last] == v[..last][i := h];
    }
  }

  lemma AppendCarrying(v: seq<Handle>, h: Handle, x: nat)
    ensures Carrying(v + [h], x) == Carrying(v, x) + Carries(h, x)
  {
    assert (v + [h])[..|v|] == v;
  }

  lemma {:induction false} WakeCarrying(v: seq<Handle>, x: nat)
    ensures Carrying(Wake(v), x) == Carrying(v, x)
  {
    if v != [] {
      var last := |v| - 1;
      WakeCarrying(v[..last], x);
      assert Wake(v)[..last] == Wake(v[..last]);
    }
  }

  lemma StepConserves(s: State, step: Step, x: nat)
    requires Enabled(s, step) && OneResponse(s)
    requires Times(s.accepted, x) == Carrying(s.handles, x) + Times(s.responded, x)
    ensures var r := Apply(s, step);
            Times(r.accepted, x) == Carrying(r.handles, x) + Times(r.responded, x)
  {
    hide Times, Carrying, FirstSuspended, Wake;
    match step
    case Request(trans) =>
      var i := FirstSuspended(s.handles);
      var h := Handle(trans, Scheduled);
      AppendTimes(s.accepted, trans, x);
      if i < |s.handles| {
        UpdateCarrying(s.handles, i, h, x);
      } else {
        AppendCarrying(s.handles, h, x);
      }
    case Start(i) => UpdateCarrying(s.handles, i, s.handles[i].(stage := Calling), x);
    case FinishCall(i) => UpdateCarrying(s.handles, i, s.handles[i].(stage := AtGate), x);
    case Gate(i) =>
      UpdateCarrying(s.handles, i, s.handles[i].(stage := if s.inProgress then Blocked else Responding), x);
    case BwReturn(_) =>
      var i := s.running.value;
      UpdateCarrying(s.handles, i, s.handles[i].(stage := Suspended), x);
      AppendTimes(s.responded, s.handles[i].trans, x);
    case EndResp =>
    case EarlyEndResp =>
    case FireEnd => WakeCarrying(s.handles, x);
  }

  lemma StepKeeps(s: State, step: Step)
    requires Inv(s) && Enabled(s, step) && !(s.ended && step == BwReturn(false))
    ensures Inv(Apply(s, step))
  {
    forall x
      ensures var r := Apply(s, step);
              Times(r.accepted, x) == Carrying(r.handles, x) + Times(r.responded, x)
    {
      StepConserves(s, step, x);
    }
  }

  lemma {:induction false} RunKeeps(s: State, steps: seq<Step>)
    requires Inv(s) && IsRun(s, steps) && Orderly(s, steps)
    ensures Inv(Execute(s, steps))
    decreases |steps|
  {
    if steps != [] {
      StepKeeps(s, steps[0]);
      RunKeeps(Apply(s, steps[0]), steps[1..]);
    }
  }

  // ----- results over all runs --------------------------------------------

  /** Every accepted transaction is carried by one handle, in one stage, or has been
      responded to; at most one response awaits END_RESP, and a response is sent only
      when none does; no waiting thread is forgotten. */
  lemma TransactionsConserved(steps: seq<Step>)
    requires IsRun(INITIAL, steps) && Orderly(INITIAL, steps)
    ensures var s := Execute(INITIAL, steps);
            && (forall x :: Times(s.accepted, x) == Carrying(s.handles, x) + Times(s.responded, x))
            && |s.outstanding| <= 1 && (s.inProgress <==> s.outstanding != [])
            && NoLostWakeUp(s)
  {
    RunKeeps(INITIAL, steps);
  }

  /** No deadlock: while a transaction is in flight some step is enabled, unless every
      thread that could move waits for the initiator to end the response in progress. */
  lemma InFlightCanMove(steps: seq<Step>, i: nat)
    requires IsRun(INITIAL, steps) && Orderly(INITIAL, steps)
    requires var s := Execute(INITIAL, steps); i < |s.handles| && s.handles[i].stage != Suspended
    ensures var s := Execute(INITIAL, steps);
            || Enabled(s, BwReturn(true))
            || Enabled(s, Start(i)) || Enabled(s, FinishCall(i)) || Enabled(s, Gate(i))
            || Enabled(s, FireEnd)
            || (s.handles[i].stage == Blocked && Enabled(s, EndResp))
  {
    RunKeeps(INITIAL, steps);
  }

  // ----- what the steps add up to -----------------------------------------

  /** The transactions requested in a run. */
  function Requested(steps: seq<Step>): seq<nat> {
    if steps == [] then [] else RequestedIn(steps[0]) + Requested(steps[1..])
  }

  function RequestedIn(step: Step): seq<nat> { if step.Request? then [step.trans] else [] }

  /** Responses returned without completing, less those ended by END_RESP. */
  function Owed(steps: seq<Step>): int {
    if steps == [] then 0
    else OwedBy(steps[0]) + Owed(steps[1..])
  }

  function OwedBy(step: Step): int { if step == BwReturn(false) then 1 else if step == EndResp then -1 else 0 }

  lemma StepAddsUp(s: State, step: Step)
    requires Inv(s) && Enabled(s, step) && !(s.ended && step == BwReturn(false))
    ensures var r := Apply(s, step);
            r.accepted == s.accepted + RequestedIn(step) && |r.outstanding| == |s.outstanding| + OwedBy(step)
  {
    hide FirstSuspended, Wake, Conserved, NoLostWakeUp;
  }

  lemma {:induction false} RunAddsUp(s: State, steps: seq<Step>)
    requires Inv(s) && IsRun(s, steps) && Orderly(s, steps)
    ensures var r := Execute(s, steps);
            r.accepted == s.accepted + Requested(steps) && |r.outstanding| == |s.outstanding| + Owed(steps)
    decreases |steps|
  {
    hide Inv, Apply, Enabled, RequestedIn, OwedBy;
    if steps == [] {
      assert s.accepted + [] == s.accepted;
    } else {
      StepKeeps(s, steps[0]);
      StepAddsUp(s, steps[0]);
      RunAddsUp(Apply(s, steps[0]), steps[1..]);
      Regroup(s.accepted, RequestedIn(steps[0]), Requested(steps[1..]));
    }
  }

  lemma Regroup(a: seq<nat>, b: seq<nat>, c: seq<nat>)
    ensures a + b + c == a + (b + c)
  {
  }

  /** Over every run that does not jam: what was requested is what was accepted, and a response is in
      progress exactly while one that did not complete has not been ended by END_RESP. */
  lemma ResponsesAddUp(steps: seq<Step>)
    requires IsRun(INITIAL, steps) && Orderly(INITIAL, steps)
    ensures var s := Execute(INITIAL, steps);
            && s.accepted == Requested(steps)
            && 0 <= Owed(steps) <= 1 && |s.outstanding| == Owed(steps) && (s.inProgress <==> Owed(steps) == 1)
  {
    StartsWell();
    RunAddsUp(INITIAL, steps);
    RunKeeps(INITIAL, steps);
  }

  lemma StartsWell()
    ensures Inv(INITIAL)
  {
  }

  // ----- progress ---------------------------------------------------------

  function StageRank(stage: Stage): nat {
    match stage
    case Suspended => 0
    case Responding => 1
    case AtGate => 2
    case Blocked => 3
    case Calling => 4
    case Scheduled => 5
  }

  /** A bound on the steps that handle i is away from its response. */
  function Away(s: State, i: nat): nat
    requires i < |s.handles|
  {
    2 * StageRank(s.handles[i].stage) + (if s.inProgress then 1 else 0)
    + (if s.running.Some? && s.running != Some(i) then 1 else 0)
  }

  /** The step that brings handle i nearer to its response. */
  function Nearer(s: State, i: nat): Step
    requires i < |s.handles|
  {
    if s.running.Some? then BwReturn(true)
    else match s.handles[i].stage
      case Scheduled => Start(i)
      case Calling => FinishCall(i)
      case AtGate => if s.inProgress then EndResp else Gate(i)
      case _ => if s.inProgress then EndResp else FireEnd
  }

  lemma NearerComesNearer(s: State, i: nat)
    requires Inv(s) && i < |s.handles| && s.handles[i].stage != Suspended
    ensures var step := Nearer(s, i);
            && Enabled(s, step) && Inv(Apply(s, step)) && (s.running.Some? ==> s.running.value < |s.handles|)
            && var r := Apply(s, step);
               && i < |r.handles| && r.handles[i].trans == s.handles[i].trans && Away(r, i) < Away(s, i)
               && r.responded == s.responded + (if s.running.Some? then [s.handles[s.running.value].trans] else [])
               && (s.handles[i].stage == Responding <==> s.running == Some(i))
               && (r.handles[i].stage == Suspended <==> s.running == Some(i))
  {
    hide Conserved, FirstSuspended;
    assert s.running.None? && s.handles[i].stage == Blocked && !s.inProgress ==> s.endPending;
    StepKeeps(s, Nearer(s, i));
  }

  /** From every good state each transaction in flight has a continuation, no longer than its
      distance, in which it is responded to. */
  lemma {:induction false} CanBeServed(s: State, i: nat) returns (more: seq<Step>)
    requires Inv(s) && i < |s.handles| && s.handles[i].stage != Suspended
    ensures IsRun(s, more) && Orderly(s, more) && |more| <= Away(s, i)
    ensures Times(Execute(s, more).responded, s.handles[i].trans) > Times(s.responded, s.handles[i].trans)
    decreases Away(s, i)
  {
    hide Inv, Apply, Enabled, Times;
    var step := Nearer(s, i);
    var x := s.handles[i].trans;
    NearerComesNearer(s, i);
    var r := Apply(s, step);
    if s.running == Some(i) {
      more := [step];
      AppendTimes(s.responded, x, x);
      assert more[1..] == [];
    } else {
      if s.running.Some? {
        AppendTimes(s.responded, s.handles[s.running.value].trans, x);
      } else {
        assert s.responded + [] == s.responded;
      }
      var rest := CanBeServed(r, i);
      more := [step] + rest;
      assert more[1..] == rest;
    }
  }

  /** From every state of a run that has not jammed, each transaction in flight can be responded to
      within eleven steps. */
  lemma EveryTransactionCanBeServed(steps: seq<Step>, i: nat) returns (more: seq<Step>)
    requires IsRun(INITIAL, steps) && Orderly(INITIAL, steps)
    requires var s := Execute(INITIAL, steps); i < |s.handles| && s.handles[i].stage != Suspended
    ensures var s := Execute(INITIAL, steps);
            && IsRun(s, more) && Orderly(s, more) && |more| <= 11
            && Times(Execute(s, more).responded, s.handles[i].trans) > Times(s.responded, s.handles[i].trans)
  {
    StartsWell();
    RunKeeps(INITIAL, steps);
    var s := Execute(INITIAL, steps);
    more := CanBeServed(s, i);
    AwayBound(s, i);
  }

  lemma AwayBound(s: State, i: nat)
    requires Inv(s) && i < |s.handles|
    ensures Away(s, i) <= 11
  {
  }

  /** END_RESP ends the response in progress and notifies those who wait. */
  lemma EndRespEnds(steps: seq<Step>)
    requires IsRun(INITIAL, steps) && Orderly(INITIAL, steps) && Enabled(Execute(INITIAL, steps), EndResp)
    ensures var r := Apply(Execute(INITIAL, steps), EndResp);
            !r.inProgress && r.outstanding == [] && r.endPending && Enabled(r, FireEnd)
  {
    StartsWell();
    RunKeeps(INITIAL, steps);
  }

  /** The event that END_RESP notifies brings every thread that waited back to the gate, and the
      next one there responds. */
  lemma FireEndOpensGate(s: State, i: nat)
    requires Inv(s) && Enabled(s, FireEnd) && !s.inProgress && i < |s.handles|
    ensures var r := Apply(s, FireEnd);
            && (s.handles[i].stage == Blocked ==> At(r, i, AtGate))
            && (At(r, i, AtGate) ==> Enabled(r, Gate(i)) && Apply(r, Gate(i)).running == Some(i))
  {
  }

  // ----- END_RESP inside the BEGIN_RESP call ------------------------------

  /** A response is marked in progress that nobody will end. */
  predicate Jammed(s: State) { s.inProgress && s.outstanding == [] && s.running.None? }

  /** If END_RESP comes inside the BEGIN_RESP call, the socket jams exactly when that call
      then returns without completing. */
  lemma EarlyEndRespJams(s: State, completed: bool)
    requires Inv(s) && s.running.Some? && !s.ended
    ensures Enabled(s, EarlyEndResp) && Enabled(Apply(s, EarlyEndResp), BwReturn(completed))
    ensures Jammed(Apply(Apply(s, EarlyEndResp), BwReturn(completed))) <==> !completed
  {
  }

  /** A jammed socket never responds again, whatever happens. */
  lemma {:induction false} JammedForEver(s: State, steps: seq<Step>)
    requires Jammed(s) && IsRun(s, steps)
    ensures Jammed(Execute(s, steps)) && Execute(s, steps).responded == s.responded
    decreases |steps|
  {
    if steps != [] {
      JammedForEver(Apply(s, steps[0]), steps[1..]);
    }
  }

  lemma {:induction false} JamsIffDisorderly(s: State, steps: seq<Step>)
    requires Inv(s) && IsRun(s, steps)
    ensures Jammed(Execute(s, steps)) <==> !Orderly(s, steps)
    decreases |steps|
  {
    if steps != [] {
      if s.ended && steps[0] == BwReturn(false) {
        JammedForEver(Apply(s, steps[0]), steps[1..]);
      } else {
        StepKeeps(s, steps[0]);
        JamsIffDisorderly(Apply(s, steps[0]), steps[1..]);
      }
    }
  }

  /** Over every run: the socket is jammed if and only if some BEGIN_RESP call in which
      END_RESP came returned without completing. */
  lemma JammedIffDisorderly(steps: seq<Step>)
    requires IsRun(INITIAL, steps)
    ensures Jammed(Execute(INITIAL, steps)) <==> !Orderly(INITIAL, steps)
  {
    JamsIffDisorderly(INITIAL, steps);
  }

  /** A run that jams: the first transaction's response is ended too early. */
  lemma JammedRun(trans: nat)
    ensures var steps := [Request(trans), Start(0), FinishCall(0), Gate(0), EarlyEndResp, BwReturn(false)];
            IsRun(INITIAL, steps) && Jammed(Execute(INITIAL, steps))
  {
    var s1 := Apply(INITIAL, Request(trans));
    var s2 := Apply(s1, Start(0));
    var s3 := Apply(s2, FinishCall(0));
    var s4 := Apply(s3, Gate(0));
    var s5 := Apply(s4, EarlyEndResp);
    var s6 := Apply(s5, BwReturn(false));
    assert Jammed(s6);
    var steps := [Request(trans), Start(0), FinishCall(0), Gate(0), EarlyEndResp, BwReturn(false)];
    assert IsRun(s6, steps[6..]) && Execute(s6, steps[6..]) == s6;
    assert steps[5..][1..] == steps[6..] && steps[4..][1..] == steps[5..] && steps[3..][1..] == steps[4..];
    assert steps[2..][1..] == steps[3..] && steps[1..][1..] == steps[2..];
    assert IsRun(s5, steps[5..]) && Execute(s5, steps[5..]) == s6;
    assert IsRun(s4, steps[4..]) && Execute(s4, steps[4..]) == s6;
    assert IsRun(s3, steps[3..]) && Execute(s3, steps[3..]) == s6;
    assert IsRun(s2, steps[2..]) && Execute(s2, steps[2..]) == s6;
    assert IsRun(s1, steps[1..]) && Execute(s1, steps[1..]) == s6;
  }

  // ----- the socket object ------------------------------------------------

  datatype Phase = BEGIN_REQ | END_REQ | BEGIN_RESP | END_RESP

  datatype Sync = TLM_ACCEPTED | TLM_COMPLETED

  class FwProcess {
    var handles: seq<Handle>
    var responseInProgress: bool
    var endResponsePending: bool
    ghost var rest: State  // the kernel's side of the state and the histories

    ghost function View(): State
      reads this
    {
      rest.(handles := handles, inProgress := responseInProgress, endPending := endResponsePending)
    }

    constructor ()
      ensures View() == INITIAL
    {
      handles, responseInProgress, endResponsePending, rest := [], false, false, INITIAL;
    }

    /** The forward call of an initiator.  A phase other than BEGIN_REQ and END_RESP is
        reported as an error and changes nothing. */
    method NbTransportFw(trans: nat, phase: Phase) returns (sync: Sync)
      modifies this
      ensures sync == if phase == BEGIN_REQ then TLM_ACCEPTED else TLM_COMPLETED
      ensures View() == match phase
                        case BEGIN_REQ => BeginReq(old(View()), trans)
                        case END_RESP => EndResponse(old(View()))
                        case _ => old(View())
    {
      if phase == BEGIN_REQ {
        var i := GetHandle(handles);
        if i < |handles| {
          handles := handles[i := Handle(trans, Scheduled)];
        } else {
          handles := handles + [Handle(trans, Scheduled)];
        }
        rest := rest.(accepted := rest.accepted + [trans]);
        return TLM_ACCEPTED;
      }
      if phase == END_RESP {
        responseInProgress := false;
        endResponsePending := true;
        rest := EndResponse(rest);
      }
      return TLM_COMPLETED;
    }

    /** A thread tests for a response in progress: it waits, or starts its own. */
    method PassGate(i: nat)
      requires Enabled(View(), Gate(i))
      modifies this
      ensures View() == Apply(old(View()), Gate(i))
    {
      if responseInProgress {
        handles := handles[i := handles[i].(stage := Blocked)];
      } else {
        handles := handles[i := handles[i].(stage := Responding)];
        rest := rest.(running := Some(i));
      }
    }

    /** The backward call has returned; the thread suspends. */
    method FinishResponse(i: nat, completed: bool)
      requires Enabled(View(), BwReturn(completed)) && View().running == Some(i)
      modifies this
      ensures View() == Apply(old(View()), BwReturn(completed))
    {
      var trans := handles[i].trans;
      if !completed {
        responseInProgress := true;
      }
      handles := handles[i := handles[i].(stage := Suspended)];
      rest := rest.(running := None, ended := false,
                    outstanding := if completed || rest.ended then rest.outstanding else rest.outstanding + [trans],
                    responded := rest.responded + [trans]);
    }

    /** A thread's return path after its blocking call: it waits, or responds; `early` says that the
        initiator sends END_RESP inside the backward call, `completed` how that call returns. */
    method ReturnPath(i: nat, early: bool, completed: bool)
      requires Inv(View()) && Enabled(View(), Gate(i))
      modifies this
      ensures var s := old(View());
              var steps := Returning(s, i, early, completed);
              IsRun(s, steps) && View() == Execute(s, steps)
      ensures Inv(View()) || Jammed(View())
      ensures Jammed(View()) <==> !old(View()).inProgress && early && !completed
    {
      ReturningRuns(View(), i, early, completed);
      if responseInProgress {
        PassGate(i);
      } else {
        PassGate(i);
        if early {
          var _ := NbTransportFw(handles[i].trans, END_RESP);
        }
        FinishResponse(i, completed);
      }
    }
  }

  /** The steps of a thread's return path. */
  function Returning(s: State, i: nat, early: bool, completed: bool): seq<Step> {
    if s.inProgress then [Gate(i)]
    else if early then [Gate(i), EarlyEndResp, BwReturn(completed)]
    else [Gate(i), BwReturn(completed)]
  }

  lemma ReturningRuns(s: State, i: nat, early: bool, completed: bool)
    requires Inv(s) && Enabled(s, Gate(i))
    ensures var steps := Returning(s, i, early, completed);
            && IsRun(s, steps)
            && var r := Execute(s, steps);
               && (Inv(r) || Jammed(r)) && (Jammed(r) <==> !s.inProgress && early && !completed)
               && var g := Apply(s, Gate(i));
                  if s.inProgress then r == g
                  else
                    && g.running == Some(i) && i < |g.handles|
                    && r == Apply(if early then Apply(g, EarlyEndResp) else g, BwReturn(completed))
  {
    hide Inv, Apply, Enabled, IsRun, Execute;
    StepKeeps(s, Gate(i));
    var g := Apply(s, Gate(i));
    Nothing(g);
    RunCons(s, Gate(i), []);
    assert [Gate(i)] + [] == [Gate(i)];
    GateOpens(s, i);
    if !s.inProgress {
      EarlyEndRespJams(g, completed);
      StepKeeps(g, EarlyEndResp);
      var e := if early then Apply(g, EarlyEndResp) else g;
      var b := BwReturn(completed);
      Nothing(Apply(e, b));
      RunCons(e, b, []);
      assert [b] + [] == [b];
      if early {
        RunCons(g, EarlyEndResp, [b]);
        RunCons(s, Gate(i), [EarlyEndResp] + [b]);
        assert [Gate(i)] + ([EarlyEndResp] + [b]) == [Gate(i), EarlyEndResp, b];
      } else {
        RunCons(s, Gate(i), [b]);
        assert [Gate(i)] + [b] == [Gate(i), b];
      }
      ReturnKeeps(e, early, completed);
    }
  }

  lemma Nothing(s: State)
    ensures IsRun(s, []) && Execute(s, []) == s
  {
  }

  lemma RunCons(s: State, step: Step, rest: seq<Step>)
    requires Enabled(s, step) && IsRun(Apply(s, step), rest)
    ensures IsRun(s, [step] + rest) && Execute(s, [step] + rest) == Execute(Apply(s, step), rest)
  {
    assert ([step] + rest)[1..] == rest;
  }

  /** A thread that passes the gate is in its backward call; one that does not has jammed nothing. */
  lemma GateOpens(s: State, i: nat)
    requires Inv(s) && Enabled(s, Gate(i))
    ensures var g := Apply(s, Gate(i));
            if s.inProgress then !Jammed(g)
            else
              && g.running == Some(i) && i < |g.handles| && !g.ended
              && Enabled(g, EarlyEndResp) && Apply(g, EarlyEndResp).ended
              && Enabled(g, BwReturn(true)) && Enabled(g, BwReturn(false))
  {
    hide Conserved, NoLostWakeUp;
  }

  lemma ReturnKeeps(e: State, early: bool, completed: bool)
    requires Inv(e) && Enabled(e, BwReturn(completed)) && e.ended == early
    ensures var r := Apply(e, BwReturn(completed));
            (Jammed(r) <==> early && !completed) && (Inv(r) || Jammed(r))
  {
    if !(early && !completed) {
      StepKeeps(e, BwReturn(completed));
    }
  }
}
