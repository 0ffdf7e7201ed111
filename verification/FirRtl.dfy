/** The register-transfer form of the FIR filter: a clocked controller and a datapath
    that runs whenever the controller's output, the sample or the reset changes.
 */
module FirRtl {
  import opened Basics
  import opened Fir

  datatype FsmState = ResetS | FirstS | SecondS | ThirdS | OutputS

  /** `accepted` are the samples the controller took, `results` the values written with the
      ready signal; both are histories. */
  datatype Top = Top(
    state: FsmState, stateOut: nat, reset: bool, sample: int, acc: int, shift: seq<int>,
    accepted: seq<int>, results: seq<int>)

  const ZEROS: seq<int> := [0, 0, 0, 0, 0, 0, 0, 0, 0, 0, 0, 0, 0, 0, 0, 0]

  /** At the start, whatever the sample signal holds. */
  function PowerUp(sample: int): Top { Top(ResetS, 0, false, sample, 0, ZEROS, [], []) }

  // ----- the two processes ------------------------------------------------

  /** The controller: its next state and the state number it outputs. */
  function FsmEntry(state: FsmState, inValid: bool): (FsmState, nat) {
    match state
    case ResetS => (FirstS, 0)
    case FirstS => (if inValid then SecondS else FirstS, 1)
    case SecondS => (ThirdS, 2)
    case ThirdS => (OutputS, 3)
    case OutputS => (FirstS, 4)
  }

  /** Adds the taps from hi down to lo. */
  function AddTaps(acc: int, shift: seq<int>, hi: int, lo: nat): int
    requires |shift| == 16 && hi < 15
    decreases hi
  {
    if hi < lo then acc else AddTaps(Int19(acc + shift[hi] * Coef(hi + 1)), shift, hi - 1, lo)
  }

  function DataEntry(t: Top): (r: Top)
    requires |t.shift| == 16
    ensures |r.shift| == 16 && r.accepted == t.accepted
    ensures r.state == t.state && r.stateOut == t.stateOut && r.reset == t.reset && r.sample == t.sample
  {
    var r := if t.reset then t.(acc := 0, shift := ZEROS) else t;
    match t.stateOut
    case 1 => r.(acc := AddTaps(Int19(Int8(t.sample) * Coef(0)), r.shift, 14, 11))
    case 2 => r.(acc := AddTaps(r.acc, r.shift, 10, 7))
    case 3 => r.(acc := AddTaps(r.acc, r.shift, 6, 3))
    case 4 =>
      var acc := AddTaps(r.acc, r.shift, 2, 0);
      r.(acc := acc, shift := Shifted(r.shift, Int8(t.sample)), results := r.results + [acc])
    case _ => r
  }

  /** Something happens: a clock edge, seen with the valid signal, a new sample, a change of
      reset, or several of them.  The controller sees the reset from before the edge; the
      datapath then sees the controller's new output, the new sample and the new reset together. */
  datatype Event = Event(edge: Option<bool>, sample: int, reset: bool)

  /** Under reset the controller changes its state but not its output. */
  function Controlled(t: Top, e: Event): Top {
    var r := t.(sample := e.sample, reset := e.reset);
    if e.edge.None? then r
    else if t.reset then r.(state := ResetS)
    else
      var (state, stateOut) := FsmEntry(t.state, e.edge.value);
      r.(state := state, stateOut := stateOut,
         accepted := if t.state == FirstS && e.edge.value then t.accepted + [e.sample] else t.accepted)
  }

  /** The datapath runs once if one of its signals changed. */
  function Apply(t: Top, e: Event): (r: Top)
    requires |t.shift| == 16
    ensures |r.shift| == 16
  {
    var c := Controlled(t, e);
    if c.stateOut != t.stateOut || c.sample != t.sample || c.reset != t.reset then DataEntry(c) else c
  }

  function Execute(t: Top, es: seq<Event>): (r: Top)
    requires |t.shift| == 16
    ensures |r.shift| == 16
    decreases |es|
  {
    if es == [] then t else Execute(Apply(t, es[0]), es[1..])
  }

  /** No reset, and the sample changes only while the controller waits for one (and the
      datapath does not output), or with the clock edge at which it is accepted. */
  predicate Held(t: Top, e: Event) {
    var c := Controlled(t, e);
    && !t.reset && !e.reset
    && (|| c.sample == t.sample
        || (c.state == ResetS && c.stateOut != 4)
        || (c.state == FirstS && c.stateOut <= 1)
        || (t.state == FirstS && e.edge.Some?))
  }

  predicate AllHeld(t: Top, es: seq<Event>)
    requires |t.shift| == 16
    decreases |es|
  {
    es == [] || (Held(t, es[0]) && AllHeld(Apply(t, es[0]), es[1..]))
  }

  // ----- the invariant ----------------------------------------------------

  /** A sample is in the pipeline and the taps down to k have been added. */
  ghost predicate Busy(t: Top, k: nat)
    requires DelayLine(t.shift) && k <= 15
  {
    && |t.accepted| == |t.results| + 1 && t.accepted[|t.results|] == t.sample
    && t.acc == Accumulated(Int8(t.sample), t.shift, k)
  }

  /** The filter works as if the samples h had come before the accepted ones. */
  ghost predicate Inv(t: Top, h: seq<int>) {
    && !t.reset && |t.results| <= |t.accepted|
    && Holds(t.shift, h + t.accepted[..|t.results|])
    && t.results == Filtered(h + t.accepted[..|t.results|])[|h|..]
    && match t.state
       case ResetS => |t.accepted| == |t.results|
       case FirstS =>
         && |t.accepted| == |t.results| && (t.stateOut == 0 || t.stateOut == 1 || t.stateOut == 4)
         && (t.stateOut == 1 ==> t.acc == Accumulated(Int8(t.sample), t.shift, 11))
       case SecondS => t.stateOut == 1 && Busy(t, 11)
       case ThirdS => t.stateOut == 2 && Busy(t, 7)
       case OutputS => t.stateOut == 3 && Busy(t, 3)
  }

  lemma {:induction false} AddTapsContinues(s: int, shift: seq<int>, hi: int, lo: nat)
    requires DelayLine(shift) && lo <= hi + 1 && -1 <= hi < 15
    ensures AddTaps(Accumulated(s, shift, hi + 1), shift, hi, lo) == Accumulated(s, shift, lo)
    decreases hi
  {
    hide Int19, Coef, DelayLine;
    if hi >= lo {
      AddTapsContinues(s, shift, hi - 1, lo);
    }
  }

  lemma FirstTaps(s: int, shift: seq<int>)
    requires DelayLine(shift)
    ensures AddTaps(Int19(s * Coef(0)), shift, 14, 11) == Accumulated(s, shift, 11)
  {
    hide AddTaps;
    AddTapsContinues(s, shift, 14, 11);
    AccumulatedStart(s, shift);
  }

  /** The last state completes the sum, moves the delay line and emits the result. */
  lemma OutputKeeps(t: Top, h: seq<int>)
    requires Inv(t, h) && t.state == OutputS
    ensures Inv(DataEntry(t.(state := FirstS, stateOut := 4)), h)
  {
    hide Accumulated, AddTaps, Filtered, Convolve, Tap, Int8, DelayLine;
    var n := |t.results|;
    var xs := h + t.accepted[..n];
    assert h + t.accepted == xs + [t.sample];
    AddTapsContinues(Int8(t.sample), t.shift, 2, 0);
    AccumulatedIsConvolution(t.shift, xs, t.sample);
    FilteredAppend(xs, t.sample);
    ShiftedHolds(t.shift, xs, t.sample);
    assert t.accepted[..n + 1] == t.accepted;
  }

  lemma EventKeeps(t: Top, h: seq<int>, e: Event)
    requires Inv(t, h) && Held(t, e)
    ensures Inv(Apply(t, e), h)
  {
    hide Accumulated, AddTaps, Filtered, Tap, Int8, Int19, Shifted;
    FirstTaps(Int8(e.sample), t.shift);
    AddTapsContinues(Int8(t.sample), t.shift, 10, 7);
    AddTapsContinues(Int8(t.sample), t.shift, 6, 3);
    var c := Controlled(t, e);
    assert c.accepted[..|t.results|] == t.accepted[..|t.results|];
    if e.edge.Some? && t.state == OutputS {
      OutputKeeps(t, h);
    }
  }

  lemma {:induction false} RunKeeps(t: Top, h: seq<int>, es: seq<Event>)
    requires |t.shift| == 16 && Inv(t, h) && AllHeld(t, es)
    ensures Inv(Execute(t, es), h)
    decreases |es|
  {
    hide Inv;
    if es != [] {
      EventKeeps(t, h, es[0]);
      RunKeeps(Apply(t, es[0]), h, es[1..]);
    }
  }

  lemma {:induction false} FilteredPrefix(xs: seq<int>, n: nat)
    requires n <= |xs|
    ensures Filtered(xs[..n]) == Filtered(xs)[..n]
  {
    hide Convolve;
    if n < |xs| {
      var last := |xs| - 1;
      FilteredPrefix(xs[..last], n);
      assert xs[..last][..n] == xs[..n];
    } else {
      assert xs[..n] == xs;
    }
  }

  // ----- results ----------------------------------------------------------

  /** The results are those of the behavioural filter on the accepted samples, preceded by h;
      at most the last sample has no result yet. */
  ghost predicate Refines(t: Top, h: seq<int>) {
    && |t.accepted| - 1 <= |t.results| <= |t.accepted|
    && t.results == Filtered(h + t.accepted)[|h|..][..|t.results|]
  }

  lemma InvRefines(t: Top, h: seq<int>)
    requires Inv(t, h)
    ensures Refines(t, h)
  {
    hide Filtered, Holds, Accumulated;
    var n := |t.results|;
    FilteredPrefix(h + t.accepted, |h| + n);
    assert (h + t.accepted)[..|h| + n] == h + t.accepted[..n];
    assert Filtered(h + t.accepted)[|h|..][..n] == Filtered(h + t.accepted)[..|h| + n][|h|..];
  }

  lemma NoHistory(t: Top)
    ensures Refines(t, []) <==>
              |t.accepted| - 1 <= |t.results| <= |t.accepted| && t.results == Filtered(t.accepted)[..|t.results|]
  {
    hide Filtered;
    assert [] + t.accepted == t.accepted;
    assert Filtered(t.accepted)[0..] == Filtered(t.accepted);
  }

  lemma PowerUpInv(sample: int)
    ensures Inv(PowerUp(sample), [])
  {
    StartsEmpty(ZEROS, []);
    assert [] + PowerUp(sample).accepted[..0] == [];
  }

  /** For every sequence of clock edges and sample changes that holds each sample while it
      is processed, the results are those of the behavioural filter on the accepted
      samples, and at most the last sample has no result yet. */
  lemma RefinesBehavioural(sample: int, es: seq<Event>)
    requires AllHeld(PowerUp(sample), es)
    ensures var t := Execute(PowerUp(sample), es);
            && |t.accepted| - 1 <= |t.results| <= |t.accepted|
            && t.results == Filtered(t.accepted)[..|t.results|]
  {
    hide Inv, Filtered;
    PowerUpInv(sample);
    RunKeeps(PowerUp(sample), [], es);
    InvRefines(Execute(PowerUp(sample), es), []);
    NoHistory(Execute(PowerUp(sample), es));
  }

  /** The samples that a filter takes without reset, by its events alone: after `busy` further clock
      edges it waits, then takes the first valid sample and is busy for three edges. */
  function Taken(busy: nat, es: seq<Event>): seq<int>
    decreases |es|
  {
    if es == [] then []
    else
      var e := es[0];
      if e.edge.None? then Taken(busy, es[1..])
      else if busy > 0 then Taken(busy - 1, es[1..])
      else if e.edge.value then [e.sample] + Taken(3, es[1..])
      else Taken(0, es[1..])
  }

  function BusyFor(state: FsmState): nat {
    match state
    case ResetS => 1
    case FirstS => 0
    case SecondS => 3
    case ThirdS => 2
    case OutputS => 1
  }

  /** What is accepted is what the events offer. */
  lemma {:induction false} AcceptedIsTaken(t: Top, es: seq<Event>)
    requires |t.shift| == 16 && !t.reset && forall e :: e in es ==> !e.reset
    ensures Execute(t, es).accepted == t.accepted + Taken(BusyFor(t.state), es)
    decreases |es|
  {
    hide DataEntry;
    if es == [] {
      assert t.accepted + [] == t.accepted;
    } else {
      var e := es[0];
      assert e in es;
      AcceptedIsTaken(Apply(t, e), es[1..]);
      if e.edge.Some? && t.state == FirstS && e.edge.value {
        assert t.accepted + [e.sample] + Taken(3, es[1..]) == t.accepted + ([e.sample] + Taken(3, es[1..]));
      }
    }
  }

  // ----- what came before -------------------------------------------------

  /** The last 15 samples of h are zero in 8 bits: the taps that a later result can see. */
  ghost predicate Silent(h: seq<int>) {
    forall m :: |h| - 15 <= m < |h| ==> Tap(h, m) == 0
  }

  lemma {:induction false} SilentConvolve(h: seq<int>, xs: seq<int>, n: nat, i: nat)
    requires Silent(h) && n < |xs| && i <= 16
    ensures ConvolveFrom(h + xs, |h| + n, i) == ConvolveFrom(xs, n, i)
    decreases 16 - i
  {
    hide Coef, Int8;
    if i < 16 {
      SilentConvolve(h, xs, n, i + 1);
      assert n < i ==> Tap(h, |h| + n - i) == 0;
    }
  }

  /** Silent samples before the stream change no result. */
  lemma {:induction false} SilentFiltered(h: seq<int>, xs: seq<int>)
    requires Silent(h)
    ensures Filtered(h + xs)[|h|..] == Filtered(xs)
    decreases |xs|
  {
    hide ConvolveFrom, Silent;
    if xs == [] {
      assert h + xs == h;
    } else {
      var last := |xs| - 1;
      SilentFiltered(h, xs[..last]);
      assert (h + xs)[..|h + xs| - 1] == h + xs[..last];
      SilentConvolve(h, xs, last, 0);
    }
  }

  function Nothing(n: nat): (r: seq<int>)
    ensures |r| == n && forall i :: 0 <= i < n ==> r[i] == 0
  {
    if n == 0 then [] else Nothing(n - 1) + [0]
  }

  lemma {:induction false} OnlyLastTap(ys: seq<int>, n: int, i: nat)
    requires i <= 15 && forall m :: n - 15 < m <= n - i ==> Tap(ys, m) == 0
    ensures ConvolveFrom(ys, n, i) == Coef(15) * Tap(ys, n - 15)
    decreases 15 - i
  {
    hide Tap, Coef;
    ConvolveUnfold(ys, n, i);
    if i < 15 {
      OnlyLastTap(ys, n, i + 1);
    }
  }

  /** A sample that is not silent shows: if the last such one is at place m, then zeros bring
      it to the last tap, and the result there is not zero. */
  lemma LoudShows(h: seq<int>, m: int)
    requires |h| - 15 <= m < |h| && Tap(h, m) != 0 && forall k :: m < k < |h| ==> Tap(h, k) == 0
    ensures Convolve(h + Nothing(m + 16 - |h|), m + 15) != 0
    ensures Convolve(Nothing(m + 16 - |h|), m + 15 - |h|) == 0
  {
    var zs := Nothing(m + 16 - |h|);
    forall k | m < k <= m + 15
      ensures Tap(h + zs, k) == 0
    {
      assert k < |h| ==> Tap(h, k) == 0;
    }
    OnlyLastTap(h + zs, m + 15, 0);
    assert Tap(h + zs, m) == Tap(h, m);
    OnlyLastTap(zs, m + 15 - |h|, 0);
  }

  // ----- reset ------------------------------------------------------------

  /** How the controller's state and its output go together. */
  predicate Tied(t: Top) {
    match t.state
    case ResetS => t.stateOut <= 4
    case FirstS => t.stateOut == 0 || t.stateOut == 1 || t.stateOut == 4
    case SecondS => t.stateOut == 1
    case ThirdS => t.stateOut == 2
    case OutputS => t.stateOut == 3
  }

  lemma {:induction false} RunTied(t: Top, es: seq<Event>)
    requires |t.shift| == 16 && Tied(t)
    ensures Tied(Execute(t, es))
    decreases |es|
  {
    if es != [] {
      RunTied(Apply(t, es[0]), es[1..]);
    }
  }

  /** A reset pulse: f events with the reset on, then events without clock edge with the
      reset off.  The controller sees the reset if some event after the first has an edge. */
  predicate IsPulse(es: seq<Event>, f: nat) {
    && 1 <= f < |es| && (forall i :: 0 <= i < f ==> es[i].reset)
    && (forall i :: f <= i < |es| ==> !es[i].reset) && (forall i :: f < i < |es| ==> es[i].edge.None?)
  }

  /** The samples with which the datapath ran since its last run under reset, that one included. */
  function Strays(t: Top, xs: seq<int>, es: seq<Event>): seq<int>
    decreases |es|
  {
    if es == [] then xs
    else
      var e := es[0];
      var xs' := if e.reset then [e.sample] else if t.reset || e.sample != t.sample then xs + [e.sample] else xs;
      Strays(t.(sample := e.sample, reset := e.reset), xs', es[1..])
  }

  /** What a datapath without history has accumulated. */
  ghost predicate FreshAcc(t: Top)
    requires DelayLine(t.shift)
  {
    && (t.stateOut == 1 ==> t.acc == Accumulated(Int8(t.sample), t.shift, 11))
    && (t.stateOut == 2 || t.stateOut == 3 ==> t.acc == 0)
  }

  /** The delay line holds the strays if the controller's output is 4, and nothing else. */
  ghost predicate Strayed(t: Top, xs: seq<int>) {
    && (t.reset ==> xs == [t.sample])
    && Holds(t.shift, if t.stateOut == 4 then xs else []) && FreshAcc(t)
  }

  lemma {:induction false} AddNothing(shift: seq<int>, hi: int, lo: nat)
    requires |shift| == 16 && hi < 15 && forall i :: 0 <= i < 16 ==> shift[i] == 0
    ensures AddTaps(0, shift, hi, lo) == 0
    decreases hi
  {
    if hi >= lo {
      AddNothing(shift, hi - 1, lo);
    }
  }

  lemma EmptyLine(shift: seq<int>)
    ensures Holds(shift, []) <==> shift == ZEROS
    ensures Holds(shift, []) ==> forall i :: 0 <= i < 16 ==> shift[i] == 0
  {
  }

  /** The datapath runs under reset. */
  lemma RunUnderReset(c: Top)
    requires |c.shift| == 16 && c.reset
    ensures Strayed(DataEntry(c), [c.sample])
  {
    hide AddTaps, Accumulated, Int8, Int19, Coef;
    EmptyLine(ZEROS);
    FirstTaps(Int8(c.sample), ZEROS);
    AddNothing(ZEROS, 10, 7);
    AddNothing(ZEROS, 6, 3);
    ShiftedHolds(ZEROS, [], c.sample);
    assert [] + [c.sample] == [c.sample];
  }

  /** The datapath runs again without reset. */
  lemma RunStrays(c: Top, xs: seq<int>)
    requires !c.reset && Holds(c.shift, if c.stateOut == 4 then xs else [])
    requires c.stateOut == 2 || c.stateOut == 3 ==> c.acc == 0
    ensures Strayed(DataEntry(c), xs + [c.sample])
  {
    hide AddTaps, Accumulated, Int8, Int19, Coef;
    EmptyLine(c.shift);
    FirstTaps(Int8(c.sample), c.shift);
    if c.stateOut == 4 {
      ShiftedHolds(c.shift, xs, c.sample);
    } else {
      AddNothing(c.shift, 10, 7);
      AddNothing(c.shift, 6, 3);
    }
  }

  lemma EventStrays(t: Top, xs: seq<int>, e: Event)
    requires |t.shift| == 16 && (Strayed(t, xs) || (!t.reset && e.reset))
    requires e.reset || t.reset || e.edge.None?
    ensures Strayed(Apply(t, e), Strays(t, xs, [e]))
  {
    hide AddTaps, Accumulated, Int8, Int19, Coef, DataEntry;
    var c := Controlled(t, e);
    assert [e][1..] == [];
    if e.reset {
      RunUnderReset(c);
    } else {
      RunStrays(c, xs);
    }
  }

  /** Once the reset has fallen there is no clock edge. */
  predicate Loose(was: bool, es: seq<Event>)
    decreases |es|
  {
    es == [] || ((es[0].reset || was || es[0].edge.None?) && Loose(es[0].reset, es[1..]))
  }

  lemma {:induction false} PulseLoose(es: seq<Event>, f: nat, i: nat)
    requires IsPulse(es, f) && 1 <= i <= |es|
    ensures Loose(es[i - 1].reset, es[i..])
    decreases |es| - i
  {
    if i < |es| {
      PulseLoose(es, f, i + 1);
      assert es[i..][1..] == es[i + 1..];
    }
  }

  lemma {:induction false} TailStrays(t: Top, xs: seq<int>, es: seq<Event>)
    requires |t.shift| == 16 && Strayed(t, xs)
    requires Loose(t.reset, es)
    ensures Strayed(Execute(t, es), Strays(t, xs, es)) && (es != [] ==> Execute(t, es).reset == es[|es| - 1].reset)
    decreases |es|
  {
    hide Strayed, DataEntry;
    if es != [] {
      var t' := Apply(t, es[0]);
      EventStrays(t, xs, es[0]);
      assert [es[0]][1..] == [];
      var xs' := Strays(t, xs, [es[0]]);
      StraysSignals(t', t.(sample := es[0].sample, reset := es[0].reset), xs', es[1..]);
      TailStrays(t', xs', es[1..]);
    }
  }

  /** The strays depend on the sample and the reset alone. */
  lemma {:induction false} StraysSignals(t: Top, t': Top, xs: seq<int>, es: seq<Event>)
    requires t.sample == t'.sample && t.reset == t'.reset
    ensures Strays(t, xs, es) == Strays(t', xs, es)
    decreases |es|
  {
    if es != [] {
      var e := es[0];
      var xs' := if e.reset then [e.sample] else if t.reset || e.sample != t.sample then xs + [e.sample] else xs;
      StraysSignals(t.(sample := e.sample, reset := e.reset), t'.(sample := e.sample, reset := e.reset), xs', es[1..]);
    }
  }

  /** The state of the delay line after a reset pulse, whatever was before. */
  lemma PulseStrays(t: Top, es: seq<Event>, f: nat)
    requires |t.shift| == 16 && !t.reset && IsPulse(es, f)
    ensures var t1 := Execute(t, es); !t1.reset && Strayed(t1, Strays(t, [], es))
  {
    hide Strayed, DataEntry;
    var t' := Apply(t, es[0]);
    EventStrays(t, [], es[0]);
    assert [es[0]][1..] == [];
    StraysSignals(t', t.(sample := es[0].sample, reset := true), [es[0].sample], es[1..]);
    PulseLoose(es, f, 1);
    TailStrays(t', [es[0].sample], es[1..]);
  }

  /** The rest of a pulse: the reset stays on, or falls and stays off without clock edge. */
  predicate Pulsing(was: bool, es: seq<Event>)
    decreases |es|
  {
    es == [] || ((was || (!es[0].reset && es[0].edge.None?)) && Pulsing(es[0].reset, es[1..]))
  }

  lemma {:induction false} PulseIsPulsing(es: seq<Event>, f: nat, i: nat)
    requires IsPulse(es, f) && 1 <= i <= |es|
    ensures Pulsing(es[i - 1].reset, es[i..])
    decreases |es| - i
  {
    if i < |es| {
      PulseIsPulsing(es, f, i + 1);
      assert es[i..][1..] == es[i + 1..];
    }
  }

  /** Some clock edge comes while the reset is on. */
  predicate Seen(was: bool, es: seq<Event>)
    decreases |es|
  {
    es != [] && was && (es[0].edge.Some? || Seen(es[0].reset, es[1..]))
  }

  lemma {:induction false} SeenOrNot(t: Top, es: seq<Event>)
    requires |t.shift| == 16 && Pulsing(t.reset, es)
    ensures Execute(t, es).state == if Seen(t.reset, es) then ResetS else t.state
    decreases |es|
  {
    hide DataEntry;
    if es != [] {
      SeenOrNot(Apply(t, es[0]), es[1..]);
    }
  }

  /** A reset pulse with a clock edge after its first event puts the controller in its reset state;
      one without leaves it where that event put it. */
  lemma PulseResetsIfSeen(t: Top, es: seq<Event>, f: nat)
    requires |t.shift| == 16 && !t.reset && IsPulse(es, f)
    ensures Execute(t, es).state
         == if exists i :: 1 <= i <= f && es[i].edge.Some? then ResetS else Controlled(t, es[0]).state
  {
    hide DataEntry;
    PulseIsPulsing(es, f, 1);
    SeenOrNot(Apply(t, es[0]), es[1..]);
    SeenAt(es, f, 1);
  }

  lemma {:induction false} SeenAt(es: seq<Event>, f: nat, i: nat)
    requires IsPulse(es, f) && 1 <= i <= |es|
    ensures Seen(es[i - 1].reset, es[i..]) <==> exists k :: i <= k <= f && es[k].edge.Some?
    decreases |es| - i
  {
    if i < |es| {
      SeenAt(es, f, i + 1);
      assert es[i..][1..] == es[i + 1..] && es[i..][0] == es[i];
      if i <= f && es[i].edge.None? && Seen(true, es[i..]) {
        var k :| i + 1 <= k <= f && es[k].edge.Some?;
      }
    }
  }

  // ----- after a reset ----------------------------------------------------

  predicate InProcess(t: Top) { t.state == SecondS || t.state == ThirdS || t.state == OutputS }

  /** The histories begin anew; the sample in process, if any, is the one on the signal. */
  function Restarted(t: Top): Top {
    t.(accepted := if InProcess(t) then [t.sample] else [], results := [])
  }

  /** When the filter can go on as if it had just been started: the strays are silent, and no
      sample has lost its first product. */
  ghost predicate Clean(t: Top, xs: seq<int>) {
    if t.state == ThirdS || t.state == OutputS then Int8(t.sample) == 0 else t.stateOut != 4 || Silent(xs)
  }

  lemma {:induction false} AccumulatedNothing(s: int, shift: seq<int>, k: nat)
    requires Holds(shift, []) && k <= 15 && -128 <= s < 128
    ensures Accumulated(s, shift, k) == -6 * s
    decreases 15 - k
  {
    assert Coef(0) == -6;
    EmptyLine(shift);
    hide Coef, Accumulated, Tap;
    if k < 15 {
      AccumulatedNothing(s, shift, k + 1);
      AccumulatedStep(s, shift, k);
      assert shift[k] * Coef(k + 1) == 0;
    } else {
      AccumulatedStart(s, shift);
    }
  }

  lemma StrayedInv(t: Top, xs: seq<int>)
    requires Strayed(t, xs) && !t.reset && Tied(t) && (t.state == ThirdS || t.state == OutputS ==> Int8(t.sample) == 0)
    ensures Inv(Restarted(t), if t.stateOut == 4 then xs else [])
  {
    hide Accumulated, Tap, Int8;
    var h := if t.stateOut == 4 then xs else [];
    var r := Restarted(t);
    assert h + r.accepted[..0] == h;
    if t.state == ThirdS || t.state == OutputS {
      AccumulatedNothing(0, t.shift, 7);
      AccumulatedNothing(0, t.shift, 3);
    }
  }

  lemma SilentRefines(t: Top, h: seq<int>)
    requires Refines(t, h) && Silent(h)
    ensures Refines(t, [])
  {
    hide Filtered, Silent;
    SilentFiltered(h, t.accepted);
    NoHistory(t);
  }

  lemma CleanRefines(t: Top, xs: seq<int>, post: seq<Event>)
    requires |t.shift| == 16 && Strayed(t, xs) && !t.reset && Tied(t) && Clean(t, xs) && AllHeld(Restarted(t), post)
    ensures Refines(Execute(Restarted(t), post), [])
  {
    hide Strayed, Inv, Refines;
    var h := if t.stateOut == 4 then xs else [];
    StrayedInv(t, xs);
    RunKeeps(Restarted(t), h, post);
    InvRefines(Execute(Restarted(t), post), h);
    SilentRefines(Execute(Restarted(t), post), h);
  }

  // ----- a filter that is not clean ---------------------------------------

  lemma Cons(t: Top, e: Event, es: seq<Event>)
    requires |t.shift| == 16
    ensures Execute(t, [e] + es) == Execute(Apply(t, e), es)
    ensures AllHeld(t, [e] + es) <==> Held(t, e) && AllHeld(Apply(t, e), es)
  {
    assert ([e] + es)[1..] == es;
  }

  /** n samples of zero, each accepted at its first clock edge. */
  function Feed(n: nat): seq<Event> {
    if n == 0 then []
    else
      var e := Event(Some(true), 0, false);
      [e] + ([e] + ([e] + ([e] + Feed(n - 1))))
  }

  /** One of them. */
  lemma FeedOne(t: Top, h: seq<int>)
    requires Inv(t, h) && t.state == FirstS
    ensures var e := Event(Some(true), 0, false);
            var t1 := Apply(t, e);
            var t2 := Apply(t1, e);
            var t3 := Apply(t2, e);
            var t4 := Apply(t3, e);
            && Held(t, e) && Held(t1, e) && Held(t2, e) && Held(t3, e)
            && Inv(t4, h) && t4.state == FirstS && t4.accepted == t.accepted + [0]
  {
    InvAlive(t, h);
    hide DataEntry, Filtered, Accumulated, Holds;
    var e := Event(Some(true), 0, false);
    EventKeeps(t, h, e);
    var t1 := Apply(t, e);
    EventKeeps(t1, h, e);
    var t2 := Apply(t1, e);
    EventKeeps(t2, h, e);
    var t3 := Apply(t2, e);
    EventKeeps(t3, h, e);
  }

  lemma FeedUnfold(t: Top, n: nat)
    requires |t.shift| == 16 && n > 0
    ensures var e := Event(Some(true), 0, false);
            var t1 := Apply(t, e);
            var t2 := Apply(t1, e);
            var t3 := Apply(t2, e);
            var t4 := Apply(t3, e);
            && Execute(t, Feed(n)) == Execute(t4, Feed(n - 1))
            && (AllHeld(t, Feed(n)) <==>
                  Held(t, e) && Held(t1, e) && Held(t2, e) && Held(t3, e) && AllHeld(t4, Feed(n - 1)))
  {
    hide Apply, Held, Execute, AllHeld;
    var e := Event(Some(true), 0, false);
    var t1 := Apply(t, e);
    var t2 := Apply(t1, e);
    var t3 := Apply(t2, e);
    Cons(t3, e, Feed(n - 1));
    Cons(t2, e, [e] + Feed(n - 1));
    Cons(t1, e, [e] + ([e] + Feed(n - 1)));
    Cons(t, e, [e] + ([e] + ([e] + Feed(n - 1))));
  }

  lemma FeedNone(t: Top)
    requires |t.shift| == 16
    ensures Execute(t, Feed(0)) == t && AllHeld(t, Feed(0)) && t.accepted + Nothing(0) == t.accepted
  {
  }

  lemma {:induction false} FeedRuns(t: Top, h: seq<int>, n: nat)
    requires |t.shift| == 16 && Inv(t, h) && t.state == FirstS
    ensures AllHeld(t, Feed(n))
    ensures var r := Execute(t, Feed(n)); Inv(r, h) && r.state == FirstS && r.accepted == t.accepted + Nothing(n)
    decreases n
  {
    hide Apply, Held, Inv, Execute, AllHeld, Feed, Nothing;
    if n == 0 {
      FeedNone(t);
    } else {
      var e := Event(Some(true), 0, false);
      FeedOne(t, h);
      FeedUnfold(t, n);
      var t4 := Apply(Apply(Apply(Apply(t, e), e), e), e);
      FeedRuns(t4, h, n - 1);
      NothingFirst(n);
      assert t.accepted + [0] + Nothing(n - 1) == t.accepted + ([0] + Nothing(n - 1));
    }
  }

  lemma {:induction false} NothingFirst(n: nat)
    requires n > 0
    ensures Nothing(n) == [0] + Nothing(n - 1)
  {
  }

  /** After enough zeros a loud sample shows in the last result. */
  lemma FeedShows(t: Top, h: seq<int>, m: int)
    requires |h| - 15 <= m < |h| && Tap(h, m) != 0 && forall k :: m < k < |h| ==> Tap(h, k) == 0
    requires Inv(t, h) && t.state == FirstS && t.accepted == Nothing(m + 16 - |h|)
    ensures !Refines(t, [])
  {
    hide Holds, Tap, Filtered, Convolve;
    var zs := Nothing(m + 16 - |h|);
    var n := |zs| - 1;
    assert t.accepted[..|t.results|] == zs;
    FilteredAt(h + zs, |h| + n);
    assert t.results[n] == Filtered(h + zs)[|h| + n];
    FilteredAt(zs, n);
    LoudShows(h, m);
    NoHistory(t);
  }

  lemma {:induction false} LastLoud(h: seq<int>, m: int) returns (k: int)
    requires |h| - 15 <= m < |h| && Tap(h, m) != 0
    ensures |h| - 15 <= k < |h| && Tap(h, k) != 0 && forall i :: k < i < |h| ==> Tap(h, i) == 0
    decreases |h| - m
  {
    if i :| m < i < |h| && Tap(h, i) != 0 {
      k := LastLoud(h, i);
    } else {
      k := m;
    }
  }

  lemma FeedFails(t: Top, h: seq<int>, m: int)
    requires |h| - 15 <= m < |h| && Tap(h, m) != 0 && forall k :: m < k < |h| ==> Tap(h, k) == 0
    requires |t.shift| == 16 && Inv(t, h) && t.state == FirstS && t.accepted == []
    ensures AllHeld(t, Feed(m + 16 - |h|)) && !Refines(Execute(t, Feed(m + 16 - |h|)), [])
  {
    hide Inv, Refines, Execute, AllHeld, Feed, Nothing, Tap;
    FeedRuns(t, h, m + 16 - |h|);
    assert [] + Nothing(m + 16 - |h|) == Nothing(m + 16 - |h|);
    FeedShows(Execute(t, Feed(m + 16 - |h|)), h, m);
  }

  /** The controller leaves its reset state. */
  lemma FirstEdge(t: Top, h: seq<int>, e: Event)
    requires Inv(t, h) && t.state == ResetS && t.accepted == [] && e == Event(Some(true), 0, false)
    ensures |t.shift| == 16 && Held(t, e)
    ensures var r := Apply(t, e); Inv(r, h) && r.state == FirstS && r.accepted == []
  {
    hide Accumulated, Filtered, Tap;
    EventKeeps(t, h, e);
  }

  /** Strays that are not silent spoil a later result. */
  lemma LoudFails(t: Top, xs: seq<int>) returns (post: seq<Event>)
    requires |t.shift| == 16 && Inv(t, xs) && !Silent(xs)
    requires t.accepted == [] && (t.state == ResetS || t.state == FirstS)
    ensures AllHeld(t, post) && !Refines(Execute(t, post), [])
  {
    hide Inv, Refines, Execute, AllHeld, Feed, Tap, Apply, Held;
    var m :| |xs| - 15 <= m < |xs| && Tap(xs, m) != 0;
    m := LastLoud(xs, m);
    var n := m + 16 - |xs|;
    var e := Event(Some(true), 0, false);
    if t.state == FirstS {
      post := Feed(n);
      FeedFails(t, xs, m);
    } else {
      post := [e] + Feed(n);
      FirstEdge(t, xs, e);
      FeedFails(Apply(t, e), xs, m);
      Cons(t, e, Feed(n));
    }
  }

  lemma InvAlive(t: Top, h: seq<int>)
    requires Inv(t, h)
    ensures !t.reset && |t.shift| == 16
  {
  }

  lemma OneSample(x: int)
    ensures Filtered([x]) == [-6 * Int8(x)]
  {
    hide Filtered, Convolve, Accumulated;
    EmptyLine(ZEROS);
    AccumulatedIsConvolution(ZEROS, [], x);
    AccumulatedNothing(Int8(x), ZEROS, 0);
    FilteredAppend([], x);
    assert [] + [x] == [x];
    assert Filtered([]) == [];
  }

  /** A sample that has lost its first product gives the result zero. */
  lemma LostProduct(t: Top, e: Event)
    requires Holds(t.shift, []) && t.acc == 0 && t.state == OutputS && t.stateOut == 3 && !t.reset
    requires t.accepted == [t.sample] && t.results == [] && Int8(t.sample) != 0
    requires e == Event(Some(false), t.sample, false)
    ensures Held(t, e) && !Refines(Apply(t, e), [])
  {
    hide Int8, Filtered, AddTaps;
    EmptyLine(t.shift);
    AddNothing(t.shift, 2, 0);
    OneSample(t.sample);
    assert Apply(t, e).results == [0] && Apply(t, e).accepted == [t.sample];
    NoHistory(Apply(t, e));
    assert Filtered([t.sample])[..1] == Filtered([t.sample]);
  }

  lemma UncleanFails(t: Top, xs: seq<int>) returns (post: seq<Event>)
    requires Strayed(t, xs) && !t.reset && Tied(t) && !Clean(t, xs)
    ensures AllHeld(Restarted(t), post) && !Refines(Execute(Restarted(t), post), [])
  {
    var r := Restarted(t);
    var e := Event(Some(false), t.sample, false);
    if t.state == OutputS {
      hide Int8, Refines;
      LostProduct(r, e);
      Cons(r, e, []);
      post := [e] + [];
    } else if t.state == ThirdS {
      hide Int8, Refines, AddTaps;
      EmptyLine(t.shift);
      AddNothing(t.shift, 6, 3);
      var r' := Apply(r, e);
      LostProduct(r', e);
      Cons(r', e, []);
      Cons(r, e, [e] + []);
      post := [e] + ([e] + []);
    } else {
      StrayedInv(t, xs);
      post := LoudFails(r, xs);
    }
  }

  /** For every run and every reset pulse after it: the delay line is empty exactly if the
      controller's output is not 4 or the last 16 strays are zero in 8 bits. */
  lemma LineAfterReset(sample: int, pre: seq<Event>, es: seq<Event>, f: nat)
    requires !Execute(PowerUp(sample), pre).reset && IsPulse(es, f)
    ensures var t := Execute(PowerUp(sample), pre);
            var t1 := Execute(t, es);
            var xs := Strays(t, [], es);
            t1.shift == ZEROS <==> t1.stateOut != 4 || forall m :: |xs| - 16 <= m < |xs| ==> Tap(xs, m) == 0
  {
    hide Tap, Execute;
    var t := Execute(PowerUp(sample), pre);
    PulseStrays(t, es, f);
    EmptyLine(Execute(t, es).shift);
    LineOf(Execute(t, es).shift, Strays(t, [], es));
  }

  lemma LineOf(shift: seq<int>, xs: seq<int>)
    ensures Holds(shift, xs) ==> (shift == ZEROS <==> forall m :: |xs| - 16 <= m < |xs| ==> Tap(xs, m) == 0)
  {
    hide Tap;
    if Holds(shift, xs) && shift == ZEROS {
      forall m | |xs| - 16 <= m < |xs|
        ensures Tap(xs, m) == 0
      {
        assert shift[|xs| - 1 - m] == Tap(xs, |xs| - 1 - (|xs| - 1 - m));
      }
    }
  }

  /** For every run and every reset pulse after it, seen by the controller or not: the results
      after the pulse are those of the behavioural filter on the samples accepted since,
      in every continuation without reset that holds its samples, if and only if the
      filter is clean at the end of the pulse. */
  lemma ResumesIffClean(sample: int, pre: seq<Event>, es: seq<Event>, f: nat)
    requires !Execute(PowerUp(sample), pre).reset && IsPulse(es, f)
    ensures var t := Execute(PowerUp(sample), pre);
            var t1 := Execute(t, es);
            (forall post :: AllHeld(Restarted(t1), post) ==> Refines(Execute(Restarted(t1), post), []))
            <==> Clean(t1, Strays(t, [], es))
  {
    hide Refines, Strayed, Clean, Execute;
    var t := Execute(PowerUp(sample), pre);
    var t1 := Execute(t, es);
    var xs := Strays(t, [], es);
    PulseStrays(t, es, f);
    RunTied(PowerUp(sample), pre);
    RunTied(t, es);
    if Clean(t1, xs) {
      forall post | AllHeld(Restarted(t1), post)
        ensures Refines(Execute(Restarted(t1), post), [])
      {
        CleanRefines(t1, xs, post);
      }
    } else {
      var post := UncleanFails(t1, xs);
    }
  }

  lemma Done(t: Top)
    requires |t.shift| == 16
    ensures Execute(t, []) == t
  {
  }

  lemma FiveEdges(e: Event)
    requires e == Event(Some(true), 0, false)
    ensures var t := Execute(PowerUp(0), [e, e, e, e, e]);
            t.state == FirstS && t.stateOut == 4 && t.sample == 0 && !t.reset
  {
    hide DataEntry, Execute;
    var t0 := PowerUp(0);
    var t1 := Apply(t0, e);
    var t2 := Apply(t1, e);
    var t3 := Apply(t2, e);
    var t4 := Apply(t3, e);
    assert [e, e, e, e, e] == [e] + ([e] + ([e] + ([e] + ([e] + []))));
    Cons(t0, e, [e] + ([e] + ([e] + ([e] + []))));
    Cons(t1, e, [e] + ([e] + ([e] + [])));
    Cons(t2, e, [e] + ([e] + []));
    Cons(t3, e, [e] + []);
    Cons(t4, e, []);
    Done(Apply(t4, e));
  }

  /** A run that meets it: while the controller outputs 4 the reset rises with sample 0 and falls
      with sample 5.  The line then holds the 5, and two spurious results have been written. */
  lemma ResetLeavesSample()
    ensures var e := Event(Some(true), 0, false);
            var t := Execute(PowerUp(0), [e, e, e, e, e]);
            var t1 := Execute(t, [Event(None, 0, true), Event(None, 5, false)]);
            t1.shift[0] == 5 && t1.shift[1] == 0 && |t1.results| == |t.results| + 2
  {
    hide AddTaps, Execute;
    var e := Event(Some(true), 0, false);
    FiveEdges(e);
    var t := Execute(PowerUp(0), [e, e, e, e, e]);
    var rise, fall := Event(None, 0, true), Event(None, 5, false);
    assert [rise, fall] == [rise] + ([fall] + []);
    Cons(t, rise, [fall] + []);
    Cons(Apply(t, rise), fall, []);
    Done(Apply(Apply(t, rise), fall));
  }

  // ----- the datapath process, in place -----------------------------------

  class DataPath {
    var acc: int
    const shift: array<int>
    var result: int
    var outputDataReady: bool

    constructor ()
      ensures shift.Length == 16 && fresh(shift)
    {
      shift := new int[16];
      acc, result, outputDataReady := 0, 0, false;
    }

    method Clear()
      requires shift.Length == 16
      modifies this`acc, shift
      ensures acc == 0 && shift[..] == ZEROS
    {
      acc := 0;
      var i := 0;
      while i <= 15
        invariant 0 <= i <= 16 && acc == 0
        invariant forall j :: 0 <= j < i ==> shift[j] == 0
      {
        shift[i] := 0;
        i := i + 1;
      }
    }

    method Entry(reset: bool, stateOut: nat, sample: int, ghost t: Top)
      requires shift.Length == 16 && t.shift == shift[..] && t.acc == acc
      requires t.stateOut == stateOut && t.sample == sample && t.reset == reset
      modifies this, shift
      ensures shift[..] == DataEntry(t).shift && acc == DataEntry(t).acc
      ensures outputDataReady <==> stateOut == 4
      ensures DataEntry(t).results == if outputDataReady then t.results + [result] else t.results
    {
      hide Int19, Int8, Coef, AddTaps;
      if reset {
        Clear();
      }
      result, outputDataReady := 0, false;
      if stateOut == 1 {
        acc := Int19(Int8(sample) * Coef(0));
        AddFour(14);
      } else if stateOut == 2 {
        AddFour(10);
      } else if stateOut == 3 {
        AddFour(6);
      } else if stateOut == 4 {
        AddThree();
        ghost var line := shift[..];
        MoveUp(shift);
        shift[0] := Int8(sample);
        assert shift[..] == Shifted(line, Int8(sample));
        result := acc;
        outputDataReady := true;
      }
    }

    /** The four additions of one controller state. */
    method AddFour(hi: nat)
      requires shift.Length == 16 && 3 <= hi < 15
      modifies this`acc
      ensures acc == AddTaps(old(acc), shift[..], hi, hi - 3)
    {
      hide Int19, Coef, AddTaps;
      FourTaps(acc, shift[..], hi);
      acc := Int19(acc + shift[hi] * Coef(hi + 1));
      acc := Int19(acc + shift[hi - 1] * Coef(hi));
      acc := Int19(acc + shift[hi - 2] * Coef(hi - 1));
      acc := Int19(acc + shift[hi - 3] * Coef(hi - 2));
    }

    method AddThree()
      requires shift.Length == 16
      modifies this`acc
      ensures acc == AddTaps(old(acc), shift[..], 2, 0)
    {
      hide Int19, Coef, AddTaps;
      ThreeTaps(acc, shift[..]);
      acc := Int19(acc + shift[2] * Coef(3));
      acc := Int19(acc + shift[1] * Coef(2));
      acc := Int19(acc + shift[0] * Coef(1));
    }
  }

  lemma TapStep(acc: int, shift: seq<int>, hi: nat, lo: nat)
    requires |shift| == 16 && lo <= hi < 15
    ensures AddTaps(acc, shift, hi, lo) == AddTaps(Int19(acc + shift[hi] * Coef(hi + 1)), shift, hi - 1, lo)
  {
  }

  lemma NoTaps(acc: int, shift: seq<int>, hi: int, lo: nat)
    requires |shift| == 16 && hi < lo && hi < 15
    ensures AddTaps(acc, shift, hi, lo) == acc
  {
  }

  lemma FourTaps(acc: int, shift: seq<int>, hi: nat)
    requires |shift| == 16 && 3 <= hi < 15
    ensures AddTaps(acc, shift, hi, hi - 3)
         == Int19(Int19(Int19(Int19(acc + shift[hi] * Coef(hi + 1)) + shift[hi - 1] * Coef(hi))
                        + shift[hi - 2] * Coef(hi - 1)) + shift[hi - 3] * Coef(hi - 2))
  {
    hide Int19, Coef, AddTaps;
    var a := Int19(acc + shift[hi] * Coef(hi + 1));
    var b := Int19(a + shift[hi - 1] * Coef(hi));
    var c := Int19(b + shift[hi - 2] * Coef(hi - 1));
    TapStep(acc, shift, hi, hi - 3);
    TapStep(a, shift, hi - 1, hi - 3);
    TapStep(b, shift, hi - 2, hi - 3);
    TapStep(c, shift, hi - 3, hi - 3);
    NoTaps(Int19(c + shift[hi - 3] * Coef(hi - 2)), shift, hi - 4, hi - 3);
  }

  lemma ThreeTaps(acc: int, shift: seq<int>)
    requires |shift| == 16
    ensures AddTaps(acc, shift, 2, 0)
         == Int19(Int19(Int19(acc + shift[2] * Coef(3)) + shift[1] * Coef(2)) + shift[0] * Coef(1))
  {
    hide Int19, Coef, AddTaps;
    var a := Int19(acc + shift[2] * Coef(3));
    var b := Int19(a + shift[1] * Coef(2));
    TapStep(acc, shift, 2, 0);
    TapStep(a, shift, 1, 0);
    TapStep(b, shift, 0, 0);
    NoTaps(Int19(b + shift[0] * Coef(1)), shift, -1, 0);
  }
}
