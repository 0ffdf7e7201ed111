/** The payload event queue with callback and phase, as a state machine over the
    steps of the kernel.  Many pending payloads share one event that remembers
    only its earliest notification.

    A payload is tagged with the moment it is due.  The tag, the history of what
    was sent and the history of what was delivered are observations; no branch
    reads them.
 */
module PeqModel {
  import opened Basics
  import opened Events
  import opened TimeOrderedLists

  datatype Due = AtTime(time: nat) | AtDelta(delta: nat, at: nat) | AtOnce(delta: nat, at: nat)

  datatype Item = Item(id: nat, payload: int, due: Due)

  datatype Delivery = Delivery(item: Item, time: nat, delta: nat)

  /** What a process or a callback can ask for. */
  datatype Request = After(payload: int, when: nat) | Now(payload: int)

  /** `script[n]` is what the callback of the n-th delivery asks for. */
  type Script = seq<seq<Request>>

  datatype Peq = Peq(
    now: nat, delta: nat,                // simulation time and delta count
    event: Notification, runnable: bool, // the event and whether `fec` is triggered
    timed: seq<Entry<Item>>, odd: seq<Item>, even: seq<Item>, immediate: seq<Item>,
    sent: seq<Item>, delivered: seq<Delivery>, cancelled: seq<Item>)

  const INITIAL := Peq(0, 0, Idle, false, [], [], [], [], [], [], [])

  // ----- notification -----------------------------------------------------

  function Notify(s: Peq, payload: int, when: nat): Peq {
    if when == 0 then
      var item := Item(|s.sent|, payload, AtDelta(s.delta + 1, s.now));
      var r := if s.delta % 2 == 1 then s.(even := s.even + [item]) else s.(odd := s.odd + [item]);
      r.(sent := s.sent + [item], event := NotifyAfter(s.event, s.now, 0))
    else
      var item := Item(|s.sent|, payload, AtTime(s.now + when));
      s.(timed := InsertByTime(s.timed, Entry(item, s.now + when)),
         sent := s.sent + [item],
         event := NotifyAfter(s.event, s.now, when))
  }

  /** An immediate notification cancels the pending one and triggers `fec`,
      except when `fec` itself is the running process. */
  function NotifyNow(s: Peq, payload: int, inside: bool): Peq {
    var item := Item(|s.sent|, payload, AtOnce(s.delta, s.now));
    s.(immediate := s.immediate + [item],
       sent := s.sent + [item],
       event := Idle,
       runnable := s.runnable || !inside)
  }

  function Ask(s: Peq, r: Request, inside: bool): Peq {
    match r
    case After(payload, when) => Notify(s, payload, when)
    case Now(payload) => NotifyNow(s, payload, inside)
  }

  function AskAll(s: Peq, rs: seq<Request>): (r: Peq)
    ensures r.delivered == s.delivered && r.delta == s.delta && r.now == s.now
    ensures |r.immediate| >= |s.immediate|
    ensures Current(r) == Current(s)
    ensures !s.runnable ==> !r.runnable
    decreases |rs|
  {
    if rs == [] then s else AskAll(Ask(s, rs[0], true), rs[1..])
  }

  function CancelAll(s: Peq): Peq {
    s.(timed := [], odd := [], even := [], immediate := [], event := Idle,
       cancelled := s.cancelled + Pending(s))
  }

  // ----- the queue's process ----------------------------------------------

  /** The zero-delay payloads for this delta cycle and for the next one. */
  function Current(s: Peq): seq<Item> { if s.delta % 2 == 1 then s.odd else s.even }

  function Coming(s: Peq): seq<Item> { if s.delta % 2 == 1 then s.even else s.odd }

  function Answer(s: Peq, script: Script): seq<Request> {
    if |s.delivered| < |script| then script[|s.delivered|] else []
  }

  function Deliver(s: Peq, item: Item): Peq {
    s.(delivered := s.delivered + [Delivery(item, s.now, s.delta)])
  }

  function Call(s: Peq, item: Item, script: Script): (r: Peq) {
    AskAll(Deliver(s, item), Answer(s, script))
  }

  function CallsLeft(s: Peq, script: Script): nat {
    if |s.delivered| < |script| then |script| - |s.delivered| else 0
  }

  function DrainImmediate(s: Peq, out: nat, script: Script): Peq
    decreases CallsLeft(s, script), |s.immediate| - out
  {
    if out < |s.immediate| then DrainImmediate(Call(s, s.immediate[out], script), out + 1, script)
    else s.(immediate := [])
  }

  function EmptyCurrent(s: Peq): Peq {
    if s.delta % 2 == 1 then s.(odd := []) else s.(even := [])
  }

  function DrainDelta(s: Peq, out: nat, script: Script): Peq
    decreases |Current(s)| - out
  {
    if out < |Current(s)| then DrainDelta(Call(s, Current(s)[out], script), out + 1, script)
    else EmptyCurrent(s)
  }

  function RearmDelta(s: Peq): Peq {
    if Coming(s) != [] then s.(event := NotifyAfter(s.event, s.now, 0)) else s
  }

  function DeleteTop(s: Peq): Peq {
    if s.timed == [] then s else s.(timed := s.timed[1..])
  }

  function DrainTimed(s: Peq, script: Script): Peq
    decreases CallsLeft(s, script), |s.timed|
  {
    if s.timed != [] && s.timed[0].t == s.now then
      DrainTimed(DeleteTop(Call(s, s.timed[0].p, script)), script)
    else s
  }

  function RearmTimed(s: Peq): Peq {
    if s.timed != [] && s.timed[0].t >= s.now then
      s.(event := NotifyAfter(s.event, s.now, s.timed[0].t - s.now))
    else s
  }

  function Fec(s: Peq, script: Script): Peq {
    var s1 := DrainImmediate(s.(runnable := false), 0, script);
    var s2 := RearmDelta(DrainDelta(s1, 0, script));
    if s2.timed == [] then s2 else RearmTimed(DrainTimed(s2, script))
  }

  // ----- runs -------------------------------------------------------------

  /** The steps of a run.  `EndDelta` closes a delta cycle: the delta count moves
      on only if some process ran in it.  `Advance` moves time on. */
  datatype Step =
    | Request(r: Request)
    | Cancel
    | RunFec(script: Script)
    | EndDelta(evaluated: bool)
    | Advance(to: nat)

  predicate Enabled(s: Peq, step: Step) {
    match step
    case Request(_) => true
    case Cancel => true
    case RunFec(_) => s.runnable
    case EndDelta(_) => !s.runnable
    case Advance(to) => !s.runnable && !s.event.Delta? && to > s.now && (s.event.Timed? ==> to <= s.event.at)
  }

  function Apply(s: Peq, step: Step): Peq
    requires Enabled(s, step)
  {
    match step
    case Request(r) => Ask(s, r, false)
    case Cancel => CancelAll(s)
    case RunFec(script) => Fec(s, script)
    case EndDelta(evaluated) =>
      var delta := if evaluated then s.delta + 1 else s.delta;
      if s.event.Delta? then s.(delta := delta, event := Idle, runnable := true)
      else s.(delta := delta)
    case Advance(to) =>
      if s.event == Timed(to) then s.(now := to, event := Idle, runnable := true)
      else s.(now := to)
  }

  predicate IsRun(s: Peq, steps: seq<Step>)
    decreases |steps|
  {
    steps == [] || (Enabled(s, steps[0]) && IsRun(Apply(s, steps[0]), steps[1..]))
  }

  function Execute(s: Peq, steps: seq<Step>): Peq
    requires IsRun(s, steps)
    decreases |steps|
  {
    if steps == [] then s else Execute(Apply(s, steps[0]), steps[1..])
  }

  predicate Quiet(rs: seq<Request>) { forall r :: r in rs ==> r.After? }

  /** The callbacks of the deliveries from number `lo` up to `hi` make no immediate notification. */
  predicate QuietBetween(script: Script, lo: nat, hi: nat) {
    forall n :: lo <= n < hi && n < |script| ==> Quiet(script[n])
  }

  /** No callback of a zero-delay or timed delivery makes an immediate notification;
      those of immediate deliveries may. */
  predicate QuietLate(s: Peq, script: Script) {
    QuietBetween(script, |DrainImmediate(s.(runnable := false), 0, script).delivered|, |Fec(s, script).delivered|)
  }

  /** An immediate payload waits and `fec` is not triggered. */
  predicate LeftBehind(s: Peq) { s.immediate != [] && !s.runnable }

  /** Neither the delta count nor time moves on while a payload is left behind. */
  predicate Punctual(s: Peq, steps: seq<Step>)
    requires IsRun(s, steps)
    decreases |steps|
  {
    || steps == []
    || (&& (steps[0] == EndDelta(true) || steps[0].Advance? ==> !LeftBehind(s))
        && Punctual(Apply(s, steps[0]), steps[1..]))
  }

  // ----- the invariant ----------------------------------------------------

  /** How often x occurs among the deliveries, and among the timed entries. */
  ghost function TimesDelivered(ds: seq<Delivery>, x: Item): nat {
    if ds == [] then 0 else TimesDelivered(ds[..|ds| - 1], x) + (if ds[|ds| - 1].item == x then 1 else 0)
  }

  ghost function TimesIn(ts: seq<Entry<Item>>, x: Item): nat {
    if ts == [] then 0 else (if ts[0].p == x then 1 else 0) + TimesIn(ts[1..], x)
  }

  function TimedItems(ts: seq<Entry<Item>>): seq<Item> {
    if ts == [] then [] else [ts[0].p] + TimedItems(ts[1..])
  }

  function Pending(s: Peq): seq<Item> {
    TimedItems(s.timed) + s.odd + s.even + s.immediate
  }

  /** How often x is delivered, pending or cancelled, less how often it was sent. */
  ghost function Surplus(s: Peq, x: Item): int {
    var accounted: int := TimesDelivered(s.delivered, x) + TimesIn(s.timed, x) + Times(s.odd, x)
                          + Times(s.even, x) + Times(s.immediate, x) + Times(s.cancelled, x);
    accounted - Times(s.sent, x)
  }

  /** Nothing is lost or invented. */
  ghost predicate Conserved(s: Peq) {
    forall x :: Surplus(s, x) == 0
  }

  /** a is due earlier than b, or at the same time and was notified earlier. */
  predicate Before(a: Item, b: Item) {
    a.due.AtTime? && b.due.AtTime? ==>
      a.due.time < b.due.time || (a.due.time == b.due.time && a.id < b.id)
  }

  ghost predicate SortedTimed(ts: seq<Entry<Item>>) {
    forall i, j :: 0 <= i < j < |ts| ==> Before(ts[i].p, ts[j].p)
  }

  ghost predicate OnTime(d: Delivery) {
    match d.item.due
    case AtTime(time) => d.time == time
    case AtDelta(delta, at) => d.delta == delta && d.time == at
    case AtOnce(delta, at) => d.delta == delta && d.time == at
  }

  ghost predicate GoodHistory(s: Peq) {
    && (forall i :: 0 <= i < |s.sent| ==> s.sent[i].id == i)
    && (forall d :: d in s.delivered ==> OnTime(d) && d.time <= s.now)
    && (forall i, j :: 0 <= i < j < |s.delivered| ==> Before(s.delivered[i].item, s.delivered[j].item))
  }

  ghost predicate GoodTimed(s: Peq) {
    && SortedTimed(s.timed)
    && (forall e :: e in s.timed ==> e.t >= s.now && e.p.due == AtTime(e.t) && e.p.id < |s.sent|)
    && (forall d, e :: d in s.delivered && e in s.timed ==> Before(d.item, e.p))
  }

  ghost predicate GoodZeroDelay(s: Peq) {
    && (forall x :: x in Current(s) ==> x.due == AtDelta(s.delta, s.now))
    && (forall x :: x in Coming(s) ==> x.due == AtDelta(s.delta + 1, s.now))
    && (forall x :: x in s.immediate ==> x.due == AtOnce(s.delta, s.now))
  }

  ghost predicate Core(s: Peq) {
    GoodHistory(s) && GoodTimed(s) && GoodZeroDelay(s) && (s.event.Timed? ==> s.event.at > s.now)
  }

  ghost predicate Covered(s: Peq) {
    Coming(s) != [] ==> s.event.Delta?
  }

  ghost predicate TimedArmed(s: Peq) {
    s.timed != [] ==> s.timed[0].t > s.now && (s.event.Delta? || (s.event.Timed? && s.event.at <= s.timed[0].t))
  }

  /** The single event covers everything that is pending. */
  ghost predicate Armed(s: Peq) {
    Current(s) == [] && s.immediate == [] && Covered(s) && TimedArmed(s)
  }

  ghost predicate Inv(s: Peq) {
    Core(s) && Conserved(s) && (s.runnable || Armed(s))
  }

  /** The same, but for a payload left behind. */
  ghost predicate Alive(s: Peq) {
    Core(s) && Conserved(s) && (s.runnable || Armed(s) || LeftBehind(s))
  }

  // ----- one request ------------------------------------------------------

  /** Inserting a payload with the largest number so far keeps the list sorted. */
  lemma InsertKeepsSorted(ts: seq<Entry<Item>>, e: Entry<Item>)
    requires SortedTimed(ts)
    requires forall x :: x in ts ==> x.p.due == AtTime(x.t) && x.p.id < e.p.id
    requires e.p.due == AtTime(e.t)
    ensures SortedTimed(InsertByTime(ts, e))
    ensures forall x :: x in InsertByTime(ts, e) ==> x == e || x in ts
    ensures var r := InsertByTime(ts, e); r[0] == e || (ts != [] && r[0] == ts[0] && ts[0].t <= e.t)
  {
    var k := InsertSplit(ts, e);
    SortedAround(ts, e, k);
    forall x | x in ts[..k] + [e] + ts[k..]
      ensures x == e || x in ts
    {
    }
  }

  lemma SortedAround(ts: seq<Entry<Item>>, e: Entry<Item>, k: nat)
    requires SortedTimed(ts) && k <= |ts|
    requires forall x :: x in ts ==> x.p.due == AtTime(x.t) && x.p.id < e.p.id
    requires e.p.due == AtTime(e.t)
    requires forall i :: 0 <= i < k ==> ts[i].t <= e.t
    requires k < |ts| ==> e.t < ts[k].t
    ensures SortedTimed(ts[..k] + [e] + ts[k..])
  {
    var r := ts[..k] + [e] + ts[k..];
    forall i, j | 0 <= i < j < |r|
      ensures Before(r[i].p, r[j].p)
    {
      assert r[i] == if i < k then ts[i] else if i == k then e else ts[i - 1];
      assert r[j] == if j < k then ts[j] else if j == k then e else ts[j - 1];
      if i == k {
        LaterThan(ts, k, j - 1);
        assert ts[j - 1] in ts;
      } else if j == k {
        assert ts[i] in ts;
      }
    }
  }

  lemma LaterThan(ts: seq<Entry<Item>>, k: nat, j: nat)
    requires SortedTimed(ts) && k <= j < |ts|
    requires forall e :: e in ts ==> e.p.due == AtTime(e.t)
    ensures ts[k].t <= ts[j].t
  {
    assert ts[k] in ts && ts[j] in ts;
    assert k < j ==> Before(ts[k].p, ts[j].p);
  }

  lemma NotifyKeepsTimed(s: Peq, payload: int, when: nat)
    requires Core(s) && when > 0
    ensures GoodTimed(Notify(s, payload, when))
    ensures Armed(s) ==> Armed(Notify(s, payload, when))
  {
    var e := Entry(Item(|s.sent|, payload, AtTime(s.now + when)), s.now + when);
    InsertKeepsSorted(s.timed, e);
    var r := Notify(s, payload, when);
    forall d, x | d in r.delivered && x in r.timed
      ensures Before(d.item, x.p)
    {
      assert OnTime(d) && d.time <= s.now;
    }
  }

  lemma NotifyKeepsCore(s: Peq, payload: int, when: nat)
    requires Core(s)
    ensures Core(Notify(s, payload, when))
    ensures Armed(s) ==> Armed(Notify(s, payload, when))
    ensures Covered(s) ==> Covered(Notify(s, payload, when))
  {
    var r := Notify(s, payload, when);
    if when == 0 {
      var item := Item(|s.sent|, payload, AtDelta(s.delta + 1, s.now));
      assert Coming(r) == Coming(s) + [item] && Current(r) == Current(s);
    } else {
      NotifyKeepsTimed(s, payload, when);
    }
  }

  lemma {:induction false} AskAllKeeps(s: Peq, rs: seq<Request>)
    requires Core(s)
    ensures Core(AskAll(s, rs))
    ensures Covered(s) && Quiet(rs) ==> Covered(AskAll(s, rs))
    decreases |rs|
  {
    if rs != [] {
      match rs[0] {
        case After(payload, when) => NotifyKeepsCore(s, payload, when);
        case Now(payload) => NotifyNowKeepsCore(s, payload);
      }
      assert Quiet(rs) ==> rs[0] in rs && Quiet(rs[1..]);
      AskAllKeeps(Ask(s, rs[0], true), rs[1..]);
    }
  }

  lemma NotifyNowKeepsCore(s: Peq, payload: int)
    requires Core(s)
    ensures Core(NotifyNow(s, payload, true))
  {
  }

  /** The immediate list only grows, and it does exactly if there is an immediate request. */
  lemma {:induction false} AskAllImmediate(s: Peq, rs: seq<Request>)
    ensures var r := AskAll(s, rs);
            && s.immediate <= r.immediate && r.runnable == s.runnable
            && (r.immediate == s.immediate <==> Quiet(rs))
    decreases |rs|
  {
    if rs != [] {
      AskAllImmediate(Ask(s, rs[0], true), rs[1..]);
      assert Quiet(rs) <==> rs[0].After? && Quiet(rs[1..]);
    }
  }

  // ----- deliveries -------------------------------------------------------

  lemma DeliverKeeps(s: Peq, item: Item)
    requires Core(s)
    requires item.due == AtDelta(s.delta, s.now) || item.due == AtOnce(s.delta, s.now)
    ensures Core(Deliver(s, item))
  {
  }

  lemma CallKeeps(s: Peq, item: Item, script: Script)
    requires Core(s)
    requires item.due == AtDelta(s.delta, s.now) || item.due == AtOnce(s.delta, s.now)
    ensures Core(Call(s, item, script))
  {
    DeliverKeeps(s, item);
    AskAllKeeps(Deliver(s, item), Answer(s, script));
  }

  lemma QuietFrom(script: Script, lo: nat, hi: nat)
    requires lo < hi
    ensures QuietBetween(script, lo, hi) <==> (lo < |script| ==> Quiet(script[lo])) && QuietBetween(script, lo + 1, hi)
  {
  }

  lemma {:induction false} DrainImmediateKeeps(s: Peq, out: nat, script: Script)
    requires Core(s)
    ensures Core(DrainImmediate(s, out, script)) && DrainImmediate(s, out, script).immediate == []
    decreases CallsLeft(s, script), |s.immediate| - out
  {
    if out < |s.immediate| {
      CallKeeps(s, s.immediate[out], script);
      DrainImmediateKeeps(Call(s, s.immediate[out], script), out + 1, script);
    }
  }

  lemma {:induction false} DrainDeltaKeeps(s: Peq, out: nat, script: Script)
    requires Core(s)
    ensures var r := DrainDelta(s, out, script);
            && Core(r) && |s.delivered| <= |r.delivered| && s.immediate <= r.immediate
            && (r.immediate == s.immediate <==> QuietBetween(script, |s.delivered|, |r.delivered|))
    decreases |Current(s)| - out
  {
    if out < |Current(s)| {
      var item := Current(s)[out];
      CallKeeps(s, item, script);
      AskAllImmediate(Deliver(s, item), Answer(s, script));
      DrainDeltaKeeps(Call(s, item, script), out + 1, script);
      QuietFrom(script, |s.delivered|, |DrainDelta(s, out, script).delivered|);
    }
  }

  /** Delivering the top uses up an answer of the script, or shortens the list. */
  lemma TopProgress(s: Peq, script: Script)
    requires s.timed != []
    ensures var r := DeleteTop(Call(s, s.timed[0].p, script));
            CallsLeft(r, script) < CallsLeft(s, script) ||
            (CallsLeft(r, script) == CallsLeft(s, script) && |r.timed| < |s.timed|)
  {
  }

  /** What a callback asks for is due later, so deleting the delivered payload
      after the callback is the same as deleting it before. */
  lemma {:induction false} DeleteBeforeAsking(s: Peq, rs: seq<Request>)
    requires s.timed != [] && s.timed[0].t == s.now
    ensures DeleteTop(AskAll(s, rs)) == AskAll(DeleteTop(s), rs)
    ensures AskAll(s, rs).timed != []
    decreases |rs|
  {
    if rs != [] {
      if rs[0].After? {
        DeleteBeforeNotify(s, rs[0].payload, rs[0].when);
      }
      DeleteBeforeAsking(Ask(s, rs[0], true), rs[1..]);
    }
  }

  lemma DeleteBeforeNotify(s: Peq, payload: int, when: nat)
    requires s.timed != [] && s.timed[0].t == s.now
    ensures DeleteTop(Notify(s, payload, when)) == Notify(DeleteTop(s), payload, when)
    ensures var ts := Notify(s, payload, when).timed; ts != [] && ts[0] == s.timed[0]
  {
    if when > 0 {
      var e := Entry(Item(|s.sent|, payload, AtTime(s.now + when)), s.now + when);
      assert InsertByTime(s.timed, e)[1..] == InsertByTime(s.timed[1..], e);
    }
  }

  lemma TopIsFirst(s: Peq)
    requires GoodTimed(s) && s.timed != []
    ensures SortedTimed(s.timed[1..])
    ensures forall e :: e in s.timed[1..] ==> e in s.timed && Before(s.timed[0].p, e.p)
  {
    var ts := s.timed;
    forall i, j | 0 <= i < j < |ts[1..]|
      ensures Before(ts[1..][i].p, ts[1..][j].p)
    {
      assert Before(ts[i + 1].p, ts[j + 1].p);
    }
    forall e | e in ts[1..]
      ensures e in ts && Before(ts[0].p, e.p)
    {
      var i :| 0 <= i < |ts[1..]| && ts[1..][i] == e;
      assert e == ts[i + 1];
    }
  }

  lemma DeliverTopKeeps(s: Peq)
    requires Core(s) && s.timed != [] && s.timed[0].t == s.now
    ensures Core(DeleteTop(Deliver(s, s.timed[0].p)))
  {
    var item := s.timed[0].p;
    var r := DeleteTop(Deliver(s, item));
    assert s.timed[0] in s.timed;
    TopIsFirst(s);
    assert GoodHistory(r);
    assert GoodTimed(r);
  }

  lemma NoneDue(s: Peq)
    requires Core(s) && (s.timed != [] ==> s.timed[0].t != s.now)
    ensures s.timed != [] ==> s.timed[0].t > s.now
  {
    assert s.timed != [] ==> s.timed[0] in s.timed;
  }

  lemma {:induction false} DrainTimedKeeps(s: Peq, script: Script)
    requires Core(s)
    ensures var r := DrainTimed(s, script);
            && Core(r) && (r.timed != [] ==> r.timed[0].t > r.now)
            && |s.delivered| <= |r.delivered| && s.immediate <= r.immediate
            && (r.immediate == s.immediate <==> QuietBetween(script, |s.delivered|, |r.delivered|))
            && (Covered(s) && r.immediate == s.immediate ==> Covered(r))
    decreases CallsLeft(s, script), |s.timed|
  {
    hide Core;
    if s.timed != [] && s.timed[0].t == s.now {
      var item := s.timed[0].p;
      var rs := Answer(s, script);
      DeleteBeforeAsking(Deliver(s, item), rs);
      DeliverTopKeeps(s);
      var s1 := DeleteTop(Deliver(s, item));
      AskAllKeeps(s1, rs);
      AskAllImmediate(s1, rs);
      DrainTimedKeeps(AskAll(s1, rs), script);
      QuietFrom(script, |s.delivered|, |DrainTimed(s, script).delivered|);
    } else {
      NoneDue(s);
    }
  }

  // ----- counting ---------------------------------------------------------

  lemma {:induction false} TimedItemsCounts(ts: seq<Entry<Item>>, x: Item)
    ensures Times(TimedItems(ts), x) == TimesIn(ts, x)
  {
    if ts != [] {
      TimedItemsCounts(ts[1..], x);
      PrependTimes(ts[0].p, TimedItems(ts[1..]), x);
    }
  }

  lemma PendingCounts(s: Peq, x: Item)
    ensures Times(Pending(s), x) == TimesIn(s.timed, x) + Times(s.odd, x) + Times(s.even, x) + Times(s.immediate, x)
  {
    TimedItemsCounts(s.timed, x);
    ConcatTimes(TimedItems(s.timed), s.odd, x);
    ConcatTimes(TimedItems(s.timed) + s.odd, s.even, x);
    ConcatTimes(TimedItems(s.timed) + s.odd + s.even, s.immediate, x);
  }

  lemma {:induction false} TimedCounts(ts: seq<Entry<Item>>, e: Entry<Item>, x: Item)
    ensures TimesIn(InsertByTime(ts, e), x) == TimesIn(ts, x) + (if x == e.p then 1 else 0)
  {
    if ts != [] && e.t >= ts[0].t {
      TimedCounts(ts[1..], e, x);
      assert InsertByTime(ts, e)[1..] == InsertByTime(ts[1..], e);
    } else {
      assert ([e] + ts)[1..] == ts;
    }
  }

  lemma NotifyCounts(s: Peq, payload: int, when: nat, x: Item)
    ensures Surplus(Notify(s, payload, when), x) == Surplus(s, x)
  {
    hide Times, TimesIn, InsertByTime, TimesDelivered, NotifyAfter;
    var item := Notify(s, payload, when).sent[|s.sent|];
    AppendTimes(s.sent, item, x);
    if when > 0 {
      TimedCounts(s.timed, Entry(item, s.now + when), x);
    } else if s.delta % 2 == 1 {
      AppendTimes(s.even, item, x);
    } else {
      AppendTimes(s.odd, item, x);
    }
  }

  lemma NotifyNowCounts(s: Peq, payload: int, inside: bool, x: Item)
    ensures Surplus(NotifyNow(s, payload, inside), x) == Surplus(s, x)
  {
    var item := Item(|s.sent|, payload, AtOnce(s.delta, s.now));
    AppendTimes(s.sent, item, x);
    AppendTimes(s.immediate, item, x);
  }

  lemma {:induction false} AskAllCounts(s: Peq, rs: seq<Request>, x: Item)
    ensures Surplus(AskAll(s, rs), x) == Surplus(s, x)
    decreases |rs|
  {
    if rs != [] {
      match rs[0] {
        case After(payload, when) => NotifyCounts(s, payload, when, x);
        case Now(payload) => NotifyNowCounts(s, payload, true, x);
      }
      AskAllCounts(Ask(s, rs[0], true), rs[1..], x);
    }
  }

  lemma DeliverCounts(s: Peq, item: Item, x: Item)
    ensures Surplus(Deliver(s, item), x) == Surplus(s, x) + (if x == item then 1 else 0)
  {
    var ds := Deliver(s, item).delivered;
    assert ds[..|ds| - 1] == s.delivered;
  }

  lemma CallCounts(s: Peq, item: Item, script: Script, x: Item)
    ensures Surplus(Call(s, item, script), x) == Surplus(s, x) + (if x == item then 1 else 0)
  {
    DeliverCounts(s, item, x);
    AskAllCounts(Deliver(s, item), Answer(s, script), x);
  }

  lemma EmptyImmediateCounts(s: Peq, x: Item)
    ensures Surplus(s.(immediate := []), x) == Surplus(s, x) - Times(s.immediate, x)
  {
  }

  lemma {:induction false} DrainImmediateCounts(s: Peq, out: nat, script: Script, x: Item)
    requires out <= |s.immediate|
    ensures var r := DrainImmediate(s, out, script);
            && Surplus(r, x) == Surplus(s, x) - Times(s.immediate[..out], x)
            && r.now == s.now && r.delta == s.delta && r.runnable == s.runnable
    decreases CallsLeft(s, script), |s.immediate| - out
  {
    hide Surplus, AskAll, Times;
    if out < |s.immediate| {
      var item := s.immediate[out];
      var c := Call(s, item, script);
      CallCounts(s, item, script, x);
      AskAllImmediate(Deliver(s, item), Answer(s, script));
      assert c.immediate[..out + 1] == s.immediate[..out] + [item];
      AppendTimes(s.immediate[..out], item, x);
      DrainImmediateCounts(c, out + 1, script, x);
    } else {
      assert s.immediate[..out] == s.immediate;
      EmptyImmediateCounts(s, x);
    }
  }

  lemma EmptyCurrentCounts(s: Peq, x: Item)
    ensures Surplus(EmptyCurrent(s), x) == Surplus(s, x) - Times(Current(s), x)
  {
  }

  lemma {:induction false} DrainDeltaCounts(s: Peq, out: nat, script: Script, x: Item)
    requires out <= |Current(s)|
    ensures var r := DrainDelta(s, out, script);
            && Surplus(r, x) == Surplus(s, x) - Times(Current(s)[..out], x)
            && Current(r) == []
            && r.now == s.now && r.delta == s.delta && r.runnable == s.runnable
    decreases |Current(s)| - out
  {
    hide Surplus, AskAll, Times;
    if out < |Current(s)| {
      var item := Current(s)[out];
      var c := Call(s, item, script);
      CallCounts(s, item, script, x);
      AskAllImmediate(Deliver(s, item), Answer(s, script));
      assert Current(c)[..out + 1] == Current(s)[..out] + [item];
      AppendTimes(Current(s)[..out], item, x);
      DrainDeltaCounts(c, out + 1, script, x);
    } else {
      assert Current(s)[..out] == Current(s);
      EmptyCurrentCounts(s, x);
    }
  }

  lemma DeleteTopCounts(s: Peq, x: Item)
    requires s.timed != []
    ensures Surplus(DeleteTop(s), x) == Surplus(s, x) - (if x == s.timed[0].p then 1 else 0)
  {
  }

  lemma {:induction false} DrainTimedCounts(s: Peq, script: Script, x: Item)
    ensures var r := DrainTimed(s, script);
            && Surplus(r, x) == Surplus(s, x)
            && Current(r) == Current(s) && r.runnable == s.runnable && r.now == s.now && r.delta == s.delta
    decreases CallsLeft(s, script), |s.timed|
  {
    if s.timed != [] && s.timed[0].t == s.now {
      var item := s.timed[0].p;
      var rs := Answer(s, script);
      DeleteBeforeAsking(Deliver(s, item), rs);
      DeliverCounts(s, item, x);
      DeleteTopCounts(Deliver(s, item), x);
      AskAllCounts(DeleteTop(Deliver(s, item)), rs, x);
      AskAllImmediate(DeleteTop(Deliver(s, item)), rs);
      DrainTimedCounts(AskAll(DeleteTop(Deliver(s, item)), rs), script, x);
    }
  }

  /** `fec` loses and duplicates no payload, whatever its callbacks ask for. */
  lemma FecCounts(s: Peq, script: Script, x: Item)
    ensures var r := Fec(s, script);
            && Surplus(r, x) == Surplus(s, x) && !r.runnable && Current(r) == []
            && r.now == s.now && r.delta == s.delta
  {
    hide DrainImmediate, DrainDelta, DrainTimed;
    var s0 := s.(runnable := false);
    assert s0.immediate[..0] == [];
    DrainImmediateCounts(s0, 0, script, x);
    var s1 := DrainImmediate(s0, 0, script);
    assert Current(s1)[..0] == [];
    DrainDeltaCounts(s1, 0, script, x);
    var s2 := RearmDelta(DrainDelta(s1, 0, script));
    DrainTimedCounts(s2, script, x);
  }

  /** `fec` delivers what is due, and its event covers the rest exactly if the late
      callbacks are quiet. */
  lemma FecKeeps(s: Peq, script: Script)
    requires Core(s)
    ensures var r := Fec(s, script);
            && Core(r) && TimedArmed(r)
            && (r.immediate == [] <==> QuietLate(s, script))
            && (QuietLate(s, script) ==> Covered(r))
  {
    hide DrainImmediate, DrainDelta, DrainTimed, RearmDelta, RearmTimed, GoodHistory, GoodTimed, GoodZeroDelay,
         QuietBetween, Covered, TimedArmed;
    var s0 := s.(runnable := false);
    UntriggeredKeeps(s);
    DrainImmediateKeeps(s0, 0, script);
    var s1 := DrainImmediate(s0, 0, script);
    DrainDeltaKeeps(s1, 0, script);
    var s2 := DrainDelta(s1, 0, script);
    RearmDeltaKeeps(s2);
    var s3 := RearmDelta(s2);
    if s3.timed != [] {
      DrainTimedKeeps(s3, script);
      var s4 := DrainTimed(s3, script);
      RearmTimedKeeps(s4);
      QuietSplit(script, |s1.delivered|, |s2.delivered|, |s4.delivered|);
    } else {
      NothingTimed(s3);
    }
  }

  lemma QuietSplit(script: Script, lo: nat, mid: nat, hi: nat)
    requires lo <= mid <= hi
    ensures QuietBetween(script, lo, hi) <==> QuietBetween(script, lo, mid) && QuietBetween(script, mid, hi)
  {
  }

  lemma NothingTimed(s: Peq)
    requires s.timed == []
    ensures TimedArmed(s)
  {
  }

  /** `fec` keeps the invariant if and only if no callback of a zero-delay or timed
      delivery makes an immediate notification. */
  lemma FecKeepsIffQuietLate(s: Peq, script: Script)
    requires Core(s) && Conserved(s)
    ensures Inv(Fec(s, script)) <==> QuietLate(s, script)
  {
    hide Fec, QuietLate, Core;
    FecKeeps(s, script);
    forall x
      ensures Surplus(Fec(s, script), x) == 0
    {
      FecCounts(s, script, x);
    }
    FecCounts(s, script, Item(0, 0, AtTime(0)));
  }

  lemma UntriggeredKeeps(s: Peq)
    requires Core(s)
    ensures Core(s.(runnable := false))
  {
  }

  lemma RearmDeltaKeeps(s: Peq)
    requires Core(s)
    ensures var r := RearmDelta(s);
            Core(r) && Covered(r) && r.immediate == s.immediate && r.delivered == s.delivered && r.timed == s.timed
  {
  }

  lemma RearmTimedKeeps(s: Peq)
    requires Core(s) && (s.timed != [] ==> s.timed[0].t > s.now)
    ensures var r := RearmTimed(s);
            && Core(r) && TimedArmed(r) && (Covered(s) ==> Covered(r))
            && r.immediate == s.immediate && r.delivered == s.delivered
  {
  }

  // ----- all runs ---------------------------------------------------------

  lemma StepCounts(s: Peq, step: Step, x: Item)
    requires Enabled(s, step)
    ensures Surplus(Apply(s, step), x) == Surplus(s, x)
  {
    match step
    case Request(After(payload, when)) => NotifyCounts(s, payload, when, x);
    case Request(Now(payload)) => NotifyNowCounts(s, payload, false, x);
    case Cancel =>
      PendingCounts(s, x);
      ConcatTimes(s.cancelled, Pending(s), x);
    case RunFec(script) => FecCounts(s, script, x);
    case EndDelta(evaluated) =>
    case Advance(to) =>
  }

  lemma AdvanceKeeps(s: Peq, to: nat)
    requires Core(s) && Armed(s) && Enabled(s, Advance(to))
    ensures var r := Apply(s, Advance(to)); Core(r) && (r.runnable || Armed(r))
  {
    var r := Apply(s, Advance(to));
    forall e | e in s.timed
      ensures e.t >= to && (!r.runnable ==> e.t > to)
    {
      var i :| 0 <= i < |s.timed| && s.timed[i] == e;
      LaterThan(s.timed, 0, i);
    }
    assert Coming(r) == [] == Current(r);
  }

  lemma EndDeltaKeeps(s: Peq, evaluated: bool)
    requires Core(s) && Armed(s)
    requires Enabled(s, EndDelta(evaluated))
    ensures var r := Apply(s, EndDelta(evaluated)); Core(r) && (r.runnable || Armed(r))
  {
    var r := Apply(s, EndDelta(evaluated));
    if evaluated {
      assert Current(r) == Coming(s) && Coming(r) == Current(s);
    } else {
      assert Current(r) == Current(s) && Coming(r) == Coming(s);
    }
  }

  lemma StepConserves(s: Peq, step: Step)
    requires Conserved(s) && Enabled(s, step)
    ensures Conserved(Apply(s, step))
  {
    hide Surplus;
    forall x
      ensures Surplus(Apply(s, step), x) == 0
    {
      StepCounts(s, step, x);
    }
  }

  /** Every step keeps the queue alive, unless it moves on while a payload is left behind. */
  lemma StepKeeps(s: Peq, step: Step)
    requires Alive(s) && Enabled(s, step)
    requires step == EndDelta(true) || step.Advance? ==> !LeftBehind(s)
    ensures Alive(Apply(s, step))
  {
    hide Surplus;
    StepConserves(s, step);
    match step
    case Request(After(payload, when)) => NotifyKeepsCore(s, payload, when);
    case Request(Now(payload)) =>
    case Cancel =>
    case RunFec(script) =>
      FecKeeps(s, script);
      FecCounts(s, script, Item(0, 0, AtTime(0)));
    case EndDelta(evaluated) =>
      if !LeftBehind(s) {
        EndDeltaKeeps(s, evaluated);
      }
    case Advance(to) => AdvanceKeeps(s, to);
  }

  lemma {:induction false} RunKeeps(s: Peq, steps: seq<Step>)
    requires Alive(s) && IsRun(s, steps) && Punctual(s, steps)
    ensures Alive(Execute(s, steps))
    decreases |steps|
  {
    hide Alive, Enabled, Apply;
    if steps != [] {
      StepKeeps(s, steps[0]);
      RunKeeps(Apply(s, steps[0]), steps[1..]);
    }
  }

  lemma InitiallyAlive()
    ensures Alive(INITIAL)
  {
  }

  lemma {:induction false} RunCounts(s: Peq, steps: seq<Step>, x: Item)
    requires IsRun(s, steps)
    ensures Surplus(Execute(s, steps), x) == Surplus(s, x)
    decreases |steps|
  {
    hide Surplus;
    if steps != [] {
      StepCounts(s, steps[0], x);
      RunCounts(Apply(s, steps[0]), steps[1..], x);
    }
  }

  /** Over every run, whatever the callbacks ask for: everything sent is delivered,
      pending or cancelled, exactly once. */
  lemma NothingLost(steps: seq<Step>, x: Item)
    requires IsRun(INITIAL, steps)
    ensures var s := Execute(INITIAL, steps);
            Times(s.sent, x) == TimesDelivered(s.delivered, x) + Times(Pending(s), x) + Times(s.cancelled, x)
  {
    RunCounts(INITIAL, steps, x);
    PendingCounts(Execute(INITIAL, steps), x);
  }

  /** Over every run that does not move on while a payload is left behind: deliveries happen when
      they are due; timed payloads come out by due time, ties in the order they were notified;
      time never passes a pending payload; and while `fec` is not triggered and no payload
      is left behind the event covers all that is pending. */
  lemma ExactlyOnceAndOnTime(steps: seq<Step>)
    requires IsRun(INITIAL, steps) && Punctual(INITIAL, steps)
    ensures var s := Execute(INITIAL, steps);
            && (forall x ::
                  Times(s.sent, x) == TimesDelivered(s.delivered, x) + Times(Pending(s), x) + Times(s.cancelled, x))
            && (forall d :: d in s.delivered ==> OnTime(d))
            && (forall i, j :: 0 <= i < j < |s.delivered| ==> Before(s.delivered[i].item, s.delivered[j].item))
            && (forall e :: e in s.timed ==> e.t >= s.now)
            && (s.runnable || Armed(s) || LeftBehind(s))
  {
    InitiallyAlive();
    RunKeeps(INITIAL, steps);
    forall x
      ensures var s := Execute(INITIAL, steps);
              Times(s.sent, x) == TimesDelivered(s.delivered, x) + Times(Pending(s), x) + Times(s.cancelled, x)
    {
      NothingLost(steps, x);
    }
  }

  /** The moment of a payload has passed. */
  predicate Passed(s: Peq, due: Due) {
    match due
    case AtTime(time) => time < s.now
    case AtDelta(delta, at) => delta < s.delta || at < s.now
    case AtOnce(delta, at) => delta < s.delta || at < s.now
  }

  /** A payload is still pending after its moment. */
  ghost predicate Late(s: Peq) { exists x :: x in Pending(s) && Passed(s, x.due) }

  /** No state of the run is late. */
  ghost predicate NeverLate(s: Peq, steps: seq<Step>)
    requires IsRun(s, steps)
    decreases |steps|
  {
    !Late(s) && (steps == [] || NeverLate(Apply(s, steps[0]), steps[1..]))
  }

  lemma {:induction false} TimedItemsIn(ts: seq<Entry<Item>>, x: Item)
    requires x in TimedItems(ts)
    ensures exists e :: e in ts && e.p == x
  {
    if ts[0].p == x {
      assert ts[0] in ts;
    } else {
      TimedItemsIn(ts[1..], x);
      var e :| e in ts[1..] && e.p == x;
      assert e in ts;
    }
  }

  lemma CoreIsNotLate(s: Peq)
    requires Core(s)
    ensures !Late(s)
  {
    forall x | x in Pending(s)
      ensures !Passed(s, x.due)
    {
      if x in TimedItems(s.timed) {
        TimedItemsIn(s.timed, x);
      } else {
        assert x in Current(s) || x in Coming(s) || x in s.immediate;
      }
    }
  }

  lemma MovedOnIsLate(s: Peq, step: Step)
    requires Core(s) && LeftBehind(s) && Enabled(s, step) && (step == EndDelta(true) || step.Advance?)
    ensures Late(Apply(s, step))
  {
    var r := Apply(s, step);
    var x := s.immediate[0];
    assert x in s.immediate && r.immediate == s.immediate;
    assert x in Pending(r);
    assert Passed(r, x.due);
  }

  /** Over every run: no payload is ever pending after its moment if and only if the run never
      moves on while a payload is left behind. */
  lemma {:induction false} LateIffMovedOn(s: Peq, steps: seq<Step>)
    requires Alive(s) && IsRun(s, steps)
    ensures Punctual(s, steps) <==> NeverLate(s, steps)
    decreases |steps|
  {
    hide Core, Conserved, Late, Enabled, Apply;
    CoreIsNotLate(s);
    if steps != [] {
      var step := steps[0];
      if (step == EndDelta(true) || step.Advance?) && LeftBehind(s) {
        MovedOnIsLate(s, step);
      } else {
        StepKeeps(s, step);
        LateIffMovedOn(Apply(s, step), steps[1..]);
      }
    }
  }

  lemma PunctualIffNeverLate(steps: seq<Step>)
    requires IsRun(INITIAL, steps)
    ensures Punctual(INITIAL, steps) <==> NeverLate(INITIAL, steps)
  {
    InitiallyAlive();
    LateIffMovedOn(INITIAL, steps);
  }

  lemma {:induction false} CountedMeansDelivered(ds: seq<Delivery>, item: Item)
    requires TimesDelivered(ds, item) > 0
    ensures exists d :: d in ds && d.item == item
  {
    var last := ds[|ds| - 1];
    if last.item == item {
      assert last in ds;
    } else {
      CountedMeansDelivered(ds[..|ds| - 1], item);
      var d :| d in ds[..|ds| - 1] && d.item == item;
      assert d in ds;
    }
  }

  lemma {:induction false} AbsentTimedCounts(ts: seq<Entry<Item>>, item: Item)
    requires forall e :: e in ts ==> e.p != item
    ensures TimesIn(ts, item) == 0
  {
    if ts != [] {
      assert ts[0] in ts;
      AbsentTimedCounts(ts[1..], item);
    }
  }

  lemma {:induction false} SentOnce(sent: seq<Item>, item: Item)
    requires forall i :: 0 <= i < |sent| ==> sent[i].id == i
    requires item in sent
    ensures Times(sent, item) == 1
  {
    var last := |sent| - 1;
    assert sent == sent[..last] + [sent[last]];
    if sent[last] == item {
      AbsentTimes(sent[..last], item);
    } else {
      SentOnce(sent[..last], item);
    }
  }

  /** Once its moment has passed a payload has been delivered, exactly once and at that moment,
      unless it was cancelled. */
  lemma PassedMeansDelivered(steps: seq<Step>, item: Item)
    requires IsRun(INITIAL, steps) && Punctual(INITIAL, steps)
    requires var s := Execute(INITIAL, steps); item in s.sent && item !in s.cancelled && Passed(s, item.due)
    ensures var s := Execute(INITIAL, steps);
            TimesDelivered(s.delivered, item) == 1 && exists d :: d in s.delivered && d.item == item && OnTime(d)
  {
    InitiallyAlive();
    RunKeeps(INITIAL, steps);
    NotListedMeansDelivered(Execute(INITIAL, steps), item);
  }

  lemma NotListedMeansDelivered(s: Peq, item: Item)
    requires Core(s) && Conserved(s) && item in s.sent && item !in s.cancelled && Passed(s, item.due)
    ensures TimesDelivered(s.delivered, item) == 1 && exists d :: d in s.delivered && d.item == item && OnTime(d)
  {
    AbsentTimedCounts(s.timed, item);
    assert item !in Current(s) && item !in Coming(s);
    AbsentTimes(s.odd, item);
    AbsentTimes(s.even, item);
    AbsentTimes(s.immediate, item);
    AbsentTimes(s.cancelled, item);
    SentOnce(s.sent, item);
    assert Surplus(s, item) == 0;
    CountedMeansDelivered(s.delivered, item);
  }

  /** The restriction on callbacks is needed in every state: after a `fec` with another
      immediate notification, a payload is overdue at the end of the delta cycle, sent and
      not delivered, and nothing has triggered the queue for it. */
  lemma LateImmediateIsOverdue(s: Peq, script: Script)
    requires Inv(s) && s.runnable && !QuietLate(s, script)
    ensures var r := Fec(s, script);
            && !r.runnable
            && exists x :: x in r.immediate && x in r.sent && x.due == AtOnce(s.delta, s.now)
                           && TimesDelivered(r.delivered, x) == 0
                           && x in Apply(r, EndDelta(true)).immediate && Apply(r, EndDelta(true)).delta > s.delta
  {
    hide Fec, QuietLate;
    var r := Fec(s, script);
    FecKeeps(s, script);
    var x := r.immediate[0];
    FecCounts(s, script, x);
    ListedMeansUndelivered(r, x);
  }

  lemma ListedMeansUndelivered(s: Peq, x: Item)
    requires Surplus(s, x) == 0 && GoodHistory(s) && x in s.immediate
    ensures x in s.sent && TimesDelivered(s.delivered, x) == 0
  {
    PresentTimes(s.immediate, x);
    PresentTimes(s.sent, x);
    SentOnce(s.sent, x);
  }

  /** A run that meets it: a callback that notifies immediately also cancels the delta
      notification of another payload, which is then overdue with nothing left to trigger
      the queue. */
  lemma ImmediateInCallbackStrandsPayload()
    ensures var s := Apply(Apply(Apply(INITIAL, Request(After(1, 5))), Advance(5)), Request(After(2, 0)));
            && s.runnable
            && var r := Fec(s, [[Now(3)]]);
               && !r.runnable && r.event == Idle
               && r.odd == [Item(1, 2, AtDelta(1, 5))]
               && Apply(Apply(r, EndDelta(true)), EndDelta(true)) == r.(delta := 2)
  {
    var first := Item(0, 1, AtTime(5));
    var s1 := Apply(INITIAL, Request(After(1, 5)));
    assert s1.timed == [Entry(first, 5)];
    var s := Apply(Apply(s1, Advance(5)), Request(After(2, 0)));
    var script: Script := [[Now(3)]];
    var s4 := s.(runnable := false);
    assert DrainImmediate(s4, 0, script) == s4;
    assert RearmDelta(DrainDelta(s4, 0, script)) == s4;
    StrandingCallback(s4, first, script);
  }

  lemma StrandingCallback(s: Peq, first: Item, script: Script)
    requires s.timed == [Entry(first, s.now)] && s.delivered == [] && script == [[Now(3)]]
    ensures DrainTimed(s, script) == NotifyNow(Deliver(s, first), 3, true).(timed := [])
  {
    var s5 := Deliver(s, first);
    assert Answer(s, script) == [Now(3)];
    assert AskAll(s5, [Now(3)]) == AskAll(NotifyNow(s5, 3, true), []) == NotifyNow(s5, 3, true);
    var s6 := DeleteTop(NotifyNow(s5, 3, true));
    assert s6.timed == [];
    assert DrainTimed(s6, script) == s6;
  }
}
