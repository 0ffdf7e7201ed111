/** What a lock does for a burst, in all runs of the bus. */
module SimpleBusLocks {
  import opened Basics
  import opened SimpleBus

  // ----- who holds a lock -------------------------------------------------

  /** Of the bursts under way at most the last one served holds a lock, and between words it
      is not granted. */
  ghost predicate LockInv(b: Bus) {
    var rs := b.requests;
    if b.current.Some? then
      forall i :: 0 <= i < |rs| && i != b.current.value && rs[i].status == Waiting ==> rs[i].lock == LockNo
    else
      && (forall i :: 0 <= i < |rs| && rs[i].status == Waiting ==> rs[i].lock != LockGranted)
      && (forall i, j :: 0 <= i < j < |rs| && rs[i].status == rs[j].status == Waiting ==>
                           rs[i].lock == LockNo || rs[j].lock == LockNo)
  }

  lemma AskLocks(b: Bus, priority: nat, job: Job, since: nat)
    requires LockInv(b)
    ensures LockInv(Ask(b, priority, job, since))
  {
  }

  /** Once a request is chosen no other burst under way holds a lock. */
  lemma ChosenLocks(rs: seq<Request>, k: nat, i: nat)
    requires LockInv(Bus(rs, None)) && k < |rs| && Chosen(rs, k) && i < |rs| && i != k && rs[i].status == Waiting
    ensures rs[i].lock == LockNo
  {
    if rs[i].lock != LockNo {
      assert FitsRule(rs[i], 1);
    }
  }

  /** In any cycle no burst under way but the one served holds a lock. */
  lemma ServedLocks(b: Bus, k: nat, i: nat)
    requires LockInv(b) && Served(b, k) && i < |b.requests| && i != k && b.requests[i].status == Waiting
    ensures b.requests[i].lock == LockNo
  {
    hide Chosen;
    if b.current.None? {
      assert b == Bus(b.requests, None);
      ChosenLocks(b.requests, k, i);
    }
  }

  lemma ServeLocks(b: Bus, k: nat, slaves: seq<Slave>, answer: Status, value: int)
    requires LockInv(b) && Served(b, k)
    ensures LockInv(Serve(b, k, slaves, answer, value))
  {
    hide Chosen, FirstFit, SlaveOf;
    forall i | 0 <= i < |b.requests| && i != k && b.requests[i].status == Waiting
      ensures b.requests[i].lock == LockNo
    {
      ServedLocks(b, k, i);
    }
  }

  // ----- the life of a lock -----------------------------------------------

  /** How many ends of other requests' cycles a lock outlives, less one. */
  function Strength(lock: Lock): nat {
    match lock
    case LockNo => 0
    case LockSet => 1
    case LockGranted => 2
  }

  /** The lock of a request that has outlived its wait is granted for its first word and
      set until its second; otherwise, and afterwards, it has none. */
  ghost predicate Living(b: Bus, i: nat)
    requires i < |b.requests|
  {
    var r := b.requests[i];
    var outlived := r.endings < Strength(r.grade);
    && (r.status == Requested ==> r.moved == [] && Strength(r.lock) == Max(0, Strength(r.grade) - r.endings))
    && (r.status == Waiting && r.moved == [] ==>
          b.current == Some(i) && r.lock == if outlived then LockGranted else LockNo)
    && (r.status == Waiting && |r.moved| == 1 ==> r.lock == if outlived then LockSet else LockNo)
    && (r.status == Waiting && |r.moved| >= 2 ==> r.lock == LockNo)
  }

  ghost predicate LifeInv(b: Bus) {
    LockInv(b) && forall i :: 0 <= i < |b.requests| ==> Living(b, i)
  }

  /** The lock with which a request is served. */
  lemma LockInService(b: Bus, k: nat)
    requires Inv(b) && LifeInv(b) && Served(b, k)
    ensures var r, r' := b.requests[k], Table(b, k)[k];
            var outlived := r.endings < Strength(r.grade);
            && r' == r.(lock := r'.lock) && IsPending(r)
            && (r.moved == [] ==> r'.lock == if outlived then LockGranted else LockNo)
            && (|r.moved| == 1 ==> r'.lock == if outlived then LockSet else LockNo)
            && (|r.moved| >= 2 ==> r'.lock == LockNo)
  {
    hide GoodRequest;
    ServedIsPending(b, k);
    assert Living(b, k);
    var rs := b.requests;
    if b.current.None? && rs[k].status == Waiting && rs[k].lock == LockSet {
      assert FitsRule(rs[k], 1);
    }
  }

  lemma HandledLives(b: Bus, k: nat, slaves: seq<Slave>, answer: Status, value: int)
    requires Inv(b) && LifeInv(b) && Served(b, k)
    ensures Living(Serve(b, k, slaves, answer, value), k)
  {
    hide GoodRequest, SlaveOf, Granted, Chosen;
    LockInService(b, k);
  }

  lemma OthersLive(b: Bus, k: nat, slaves: seq<Slave>, answer: Status, value: int, i: nat)
    requires Inv(b) && LifeInv(b) && Served(b, k) && i < |b.requests| && i != k
    ensures Living(Serve(b, k, slaves, answer, value), i)
  {
    hide GoodRequest, SlaveOf, Granted, Chosen, Handled;
    assert Living(b, i);
    assert Table(b, k)[i] == b.requests[i];
    if b.requests[i].status == Waiting {
      ServedLocks(b, k, i);
    }
  }

  lemma StepLives(c: Config, s: Sys, step: Step)
    requires Inv(s.bus) && LifeInv(s.bus) && Enabled(c, s, step)
    ensures LifeInv(Apply(c, s, step).bus)
  {
    match step
    case Asks(priority, job) => AskLives(s.bus, priority, job, |s.writes|);
    case Serves(k, answer) => ServeLives(s.bus, k, c.slaves, answer, Load(s.mem, s.bus.requests[k].address));
    case Rests =>
    case Rises =>
    case DirectWrite(_, _) =>
  }

  lemma AskLives(b: Bus, priority: nat, job: Job, since: nat)
    requires Inv(b) && LifeInv(b) && Idle(b, priority)
    ensures LifeInv(Ask(b, priority, job, since))
  {
    hide GoodRequest;
    AskLocks(b, priority, job, since);
    var b' := Ask(b, priority, job, since);
    forall i | 0 <= i < |b'.requests|
      ensures Living(b', i)
    {
      if i < |b.requests| {
        assert Living(b, i);
      }
    }
  }

  lemma ServeLives(b: Bus, k: nat, slaves: seq<Slave>, answer: Status, value: int)
    requires Inv(b) && LifeInv(b) && Served(b, k)
    ensures LifeInv(Serve(b, k, slaves, answer, value))
  {
    hide Living, Chosen, Handled, Inv;
    ServeLocks(b, k, slaves, answer, value);
    var b' := Serve(b, k, slaves, answer, value);
    forall i | 0 <= i < |b'.requests|
      ensures Living(b', i)
    {
      if i == k {
        HandledLives(b, k, slaves, answer, value);
      } else {
        OthersLive(b, k, slaves, answer, value, i);
      }
    }
  }

  lemma {:induction false} RunLives(c: Config, s: Sys, steps: seq<Step>)
    requires Inv(s.bus) && LifeInv(s.bus) && IsRun(c, s, steps)
    ensures LifeInv(Execute(c, s, steps).bus) && Inv(Execute(c, s, steps).bus)
    decreases |steps|
  {
    hide Inv, LifeInv, Enabled, Apply;
    if steps != [] {
      StepKeeps(c, s, steps[0]);
      StepLives(c, s, steps[0]);
      RunLives(c, Apply(c, s, steps[0]), steps[1..]);
    }
  }

  /** In every run, for a burst under way: after its first word its lock is set exactly if fewer
      cycles of other requests ended between its request and its first service than its lock
      could outlive, which is one if the lock had been set before and was asked for again,
      and none otherwise; after its second word it has no lock. */
  lemma LockedAfterFirstWordIff(c: Config, steps: seq<Step>, i: nat)
    requires IsRun(c, INITIAL, steps)
    requires var b := Execute(c, INITIAL, steps).bus; i < |b.requests| && b.requests[i].status == Waiting
    ensures var r := Execute(c, INITIAL, steps).bus.requests[i];
            && (|r.moved| == 1 ==> (r.lock == LockSet <==> r.endings < Strength(r.grade)) && r.lock != LockGranted)
            && (|r.moved| >= 2 ==> r.lock == LockNo)
  {
    RunLives(c, INITIAL, steps);
    assert Living(Execute(c, INITIAL, steps).bus, i);
  }

  // ----- what `endings` counts --------------------------------------------

  /** The bus cycles of a run that end, so that the bus is free afterwards. */
  function Ends(c: Config, s: Sys, steps: seq<Step>): nat
    requires IsRun(c, s, steps)
    decreases |steps|
  {
    if steps == [] then 0
    else
      var s' := Apply(c, s, steps[0]);
      (if steps[0].Serves? && s'.bus.current.None? then 1 else 0) + Ends(c, s', steps[1..])
  }

  lemma StepCounts(c: Config, s: Sys, step: Step, i: nat)
    requires Inv(s.bus) && Enabled(c, s, step) && i < |s.bus.requests| && s.bus.requests[i].status == Requested
    requires step.Serves? ==> step.k != i
    ensures var s' := Apply(c, s, step);
            && i < |s'.bus.requests|
            && var r, r' := s.bus.requests[i], s'.bus.requests[i];
               && r'.status == Requested && r'.grade == r.grade
               && r'.endings == r.endings + (if step.Serves? && s'.bus.current.None? then 1 else 0)
  {
    hide GoodRequest, Handled, Chosen;
    assert IsPending(s.bus.requests[i]);
  }

  /** From its request until its first service, `endings` counts the cycles that end. */
  lemma {:induction false} EndingsCount(c: Config, s: Sys, steps: seq<Step>, i: nat)
    requires Inv(s.bus) && IsRun(c, s, steps) && i < |s.bus.requests| && s.bus.requests[i].status == Requested
    requires forall step :: step in steps && step.Serves? ==> step.k != i
    ensures var e := Execute(c, s, steps);
            && i < |e.bus.requests|
            && var r, r' := s.bus.requests[i], e.bus.requests[i];
               r'.status == Requested && r'.grade == r.grade && r'.endings == r.endings + Ends(c, s, steps)
    decreases |steps|
  {
    hide Inv, Enabled, Apply;
    if steps != [] {
      assert steps[0] in steps;
      StepKeeps(c, s, steps[0]);
      StepCounts(c, s, steps[0], i);
      EndingsCount(c, Apply(c, s, steps[0]), steps[1..], i);
    }
  }

  // ----- break-ins --------------------------------------------------------

  /** In every run a burst under way whose lock is still set cannot be broken into: the next
      cycle serves it and no other, whatever has been asked meanwhile. */
  lemma LockedWordIsNext(c: Config, steps: seq<Step>, k: nat, j: nat)
    requires IsRun(c, INITIAL, steps)
    requires var b := Execute(c, INITIAL, steps).bus;
             b.current.None? && k < |b.requests| && b.requests[k].status == Waiting && b.requests[k].lock == LockSet
    ensures Served(Execute(c, INITIAL, steps).bus, j) <==> j == k
  {
    RunLives(c, INITIAL, steps);
    hide Living, Inv;
    var rs := Execute(c, INITIAL, steps).bus.requests;
    assert FitsRule(rs[k], 1);
    assert FitsRule(rs[FirstFit(rs, 1, 0)], 1);
    assert IsPending(rs[k]);
  }

  /** And one whose lock is gone can be: once a master of higher priority asks, the next cycle
      does not serve it. */
  lemma UnlockedCanBeBrokenInto(b: Bus, k: nat, priority: nat, job: Job, since: nat)
    requires b.current.None? && k < |b.requests| && b.requests[k].lock == LockNo
    requires priority < b.requests[k].priority && Idle(b, priority)
    ensures !Served(Ask(b, priority, job, since), k)
  {
    var rs := Ask(b, priority, job, since).requests;
    var i := PlaceOf(b.requests, priority);
    assert rs[k] == b.requests[k];
    assert IsPending(rs[i]) && rs[i].priority == priority;
  }

  /** A master that asks again with a lock right after its locked transfer has the lock granted and goes
      first: with no burst under way holding a lock, the next cycle serves a request whose lock
      is granted, whatever its priority, and no other. */
  lemma RelockedGoesFirst(b: Bus, k: nat, j: nat)
    requires b.current.None? && k < |b.requests| && IsPending(b.requests[k]) && b.requests[k].lock == LockGranted
    requires forall i :: 0 <= i < |b.requests| && b.requests[i].status == Waiting ==> b.requests[i].lock == LockNo
    ensures Served(b, j) ==> IsPending(b.requests[j]) && b.requests[j].lock == LockGranted
    ensures (forall i :: 0 <= i < |b.requests| && i != k && IsPending(b.requests[i]) ==>
                           b.requests[i].lock != LockGranted) ==>
              (Served(b, j) <==> j == k)
  {
    var rs := b.requests;
    assert FitsRule(rs[k], 2) && SomePending(rs);
    var k2 := FirstFit(rs, 2, 0);
    assert k2 < |rs| && FitsRule(rs[k2], 2);
  }

  /** A burst under way, other than k, whose lock is granted. */
  predicate OtherGranted(rs: seq<Request>, k: nat, i: nat) {
    i < |rs| && i != k && rs[i].status == Waiting && rs[i].lock == LockGranted
  }

  /** The table after rule 1 has served request k. */
  lemma AfterRuleOne(rs: seq<Request>, k: nat, slaves: seq<Slave>, value: int)
    requires k < |rs| && FirstFit(rs, 1, 0) == k
    requires rs[k].address % WORD == 0 && Mapped(slaves, rs[k].address)
    ensures Served(Bus(rs, None), k)
    ensures var b := Serve(Bus(rs, None), k, slaves, Okay, value);
            && b.current == None && |b.requests| == |rs| && b.requests[k].lock == LockNo
            && (forall i :: 0 <= i < |rs| && i != k ==> b.requests[i] == Unlocked(rs[i]))
  {
    hide SlaveOf, ClearLocks;
  }

  lemma NextFits(rs: seq<Request>, k: nat, rs': seq<Request>)
    requires k < |rs| == |rs'| && rs'[k].lock == LockNo
    requires forall i :: 0 <= i < |rs| && i != k ==> rs'[i] == Unlocked(rs[i])
    ensures forall i :: 0 <= i < |rs| ==> (FitsRule(rs'[i], 1) <==> OtherGranted(rs, k, i))
    ensures forall i :: 0 <= i < |rs| ==> !FitsRule(rs'[i], 2)
  {
  }

  /** Rule 1 picks the locked burst without granting again, so that after this word its lock is
      gone.  On any table the next choice is then the first other burst under way whose lock
      was granted, if there is one, and else the pending request of highest priority,
      whichever it is. */
  lemma LockProtectsOneMoreWord(rs: seq<Request>, k: nat, slaves: seq<Slave>, value: int, j: nat)
    requires k < |rs| && FirstFit(rs, 1, 0) == k
    requires rs[k].address % WORD == 0 && Mapped(slaves, rs[k].address)
    ensures Served(Bus(rs, None), k)
    ensures var b := Serve(Bus(rs, None), k, slaves, Okay, value);
            && b.current == None && b.requests[k].lock == LockNo
            && (Chosen(b.requests, j) <==>
                  if exists i :: OtherGranted(rs, k, i) then
                    OtherGranted(rs, k, j) && forall i :: 0 <= i < j ==> !OtherGranted(rs, k, i)
                  else IsBest(b.requests, j))
  {
    hide Serve, Served, FitsRule;
    AfterRuleOne(rs, k, slaves, value);
    var rs' := Serve(Bus(rs, None), k, slaves, Okay, value).requests;
    NextFits(rs, k, rs');
    assert FirstFit(rs', 2, 0) == |rs|;
    var k1 := FirstFit(rs', 1, 0);
    assert k1 < |rs| ==> OtherGranted(rs, k, k1);
  }

  // ----- two runs ---------------------------------------------------------

  /** A locked burst of three words from address 0, and a single read at 100. */
  const LOCKED := Job(false, 0, 3, true, [])

  const SINGLE := Job(false, 100, 1, false, [])

  function Burst(status: Status, lock: Lock, moved: seq<Transfer>, endings: nat): Request {
    Request(5, false, |moved| * WORD, 8, |moved|, [], lock, status, true, 0, 3, moved, LockSet, endings, 0)
  }

  function Single(status: Status, moved: seq<Transfer>, endings: nat): Request {
    Request(1, false, 100 + |moved| * WORD, 100, |moved|, [], LockNo, status, true, 100, 1, moved, LockNo, endings, 0)
  }

  const WORD0 := Transfer(0, 0, false)

  const WORD1 := Transfer(1, 4, false)

  const WORD100 := Transfer(0, 100, false)

  lemma Asking(b: Bus)
    ensures Ask(Bus([], None), 5, LOCKED, 0) == Bus([Burst(Requested, LockSet, [], 0)], None)
    ensures |b.requests| == 1 && b.requests[0].priority == 5 && b.current == None ==>
              Idle(b, 1) && Ask(b, 1, SINGLE, 0) == Bus([b.requests[0], Single(Requested, [], 0)], None)
  {
    if |b.requests| == 1 && b.requests[0].priority == 5 {
      assert b.requests == [b.requests[0]];
      assert PlaceOf(b.requests, 1) == 1;
    }
  }

  lemma AskingAgain(r: Request, moved: seq<Transfer>)
    requires r.priority == 5
    ensures var b := Bus([r, Single(Okay, moved, 0)], None);
            Idle(b, 1) && Ask(b, 1, SINGLE, 0) == Bus([r, Single(Requested, [], 0)], None)
  {
    var b := Bus([r, Single(Okay, moved, 0)], None);
    assert b.requests[1..] == [Single(Okay, moved, 0)];
    assert PlaceOf(b.requests, 1) == 1;
  }

  /** The burst alone: its first word is granted. */
  lemma GrantedFirstWord(slaves: seq<Slave>, v: int)
    requires Mapped(slaves, 0)
    ensures var b := Bus([Burst(Requested, LockSet, [], 0)], None);
            Served(b, 0) && Serve(b, 0, slaves, Okay, v) == Bus([Burst(Waiting, LockSet, [WORD0], 0)], None)
  {
    hide SlaveOf, ClearLocks;
    var b := Bus([Burst(Requested, LockSet, [], 0)], None);
    assert IsPending(b.requests[0]);
    assert FirstFit(b.requests, 1, 0) == 1 && FirstFit(b.requests, 2, 0) == 1;
    assert Chosen(b.requests, 0);
    assert Granted(b.requests, 0) == [Burst(Requested, LockGranted, [], 0)];
    assert [] + [WORD0] == [WORD0];
    assert Serve(b, 0, slaves, Okay, v).requests == [Burst(Waiting, LockSet, [WORD0], 0)];
  }

  lemma ProtectedSecondWord(slaves: seq<Slave>, v: int)
    requires Mapped(slaves, 4)
    ensures var b := Bus([Burst(Waiting, LockSet, [WORD0], 0), Single(Requested, [], 0)], None);
            && Served(b, 0)
            && Serve(b, 0, slaves, Okay, v)
               == Bus([Burst(Waiting, LockNo, [WORD0, WORD1], 0), Single(Requested, [], 1)], None)
  {
    hide SlaveOf, ClearLocks;
    var b := Bus([Burst(Waiting, LockSet, [WORD0], 0), Single(Requested, [], 0)], None);
    assert FitsRule(b.requests[0], 1);
    assert FirstFit(b.requests, 1, 0) == 0;
    assert Chosen(b.requests, 0);
    assert [WORD0] + [WORD1] == [WORD0, WORD1];
    assert Serve(b, 0, slaves, Okay, v).requests
        == [Burst(Waiting, LockNo, [WORD0, WORD1], 0), Single(Requested, [], 1)];
  }

  /** The single read goes first; a burst still waiting for its first word loses its lock. */
  lemma SingleFirst(slaves: seq<Slave>, v: int, r: Request, n: nat)
    requires Mapped(slaves, 100) && r.priority == 5
    requires IsPending(r)
    requires (r.status == Requested ==> r.lock != LockGranted) && (r.status == Waiting ==> r.lock == LockNo)
    ensures var b := Bus([r, Single(Requested, [], n)], None);
            && Served(b, 1)
            && Serve(b, 1, slaves, Okay, v) == Bus([Unlocked(r), Single(Okay, [WORD100], n)], None)
  {
    hide SlaveOf, ClearLocks;
    var b := Bus([r, Single(Requested, [], n)], None);
    assert IsPending(b.requests[1]);
    assert FirstFit(b.requests, 1, 0) == 2 && FirstFit(b.requests, 2, 0) == 2;
    assert Chosen(b.requests, 1);
    assert [] + [WORD100] == [WORD100];
    assert Serve(b, 1, slaves, Okay, v).requests == [Unlocked(r), Single(Okay, [WORD100], n)];
  }

  /** The burst without its lock moves its first word. */
  lemma UnlockedFirstWord(slaves: seq<Slave>, v: int)
    requires Mapped(slaves, 0)
    ensures var b := Bus([Burst(Requested, LockNo, [], 1), Single(Okay, [WORD100], 0)], None);
            && Served(b, 0)
            && Serve(b, 0, slaves, Okay, v)
               == Bus([Burst(Waiting, LockNo, [WORD0], 1), Single(Okay, [WORD100], 0)], None)
  {
    hide SlaveOf, ClearLocks;
    var b := Bus([Burst(Requested, LockNo, [], 1), Single(Okay, [WORD100], 0)], None);
    assert IsPending(b.requests[0]);
    assert FirstFit(b.requests, 1, 0) == 2 && FirstFit(b.requests, 2, 0) == 2;
    assert Chosen(b.requests, 0);
    assert [] + [WORD0] == [WORD0];
    assert Serve(b, 0, slaves, Okay, v).requests
        == [Burst(Waiting, LockNo, [WORD0], 1), Single(Okay, [WORD100], 0)];
  }

  /** The state of the system between cycles. */
  ghost predicate Between(c: Config, steps: seq<Step>, b: Bus, rising: bool) {
    && IsRun(c, INITIAL, steps)
    && var s := Execute(c, INITIAL, steps); s.bus == b && s.rising == rising && s.writes == []
  }

  ghost predicate Plain(c: Config) {
    c.slow >= |c.slaves| && Mapped(c.slaves, 0) && Mapped(c.slaves, 4) && Mapped(c.slaves, 100)
  }

  lemma Starts(c: Config)
    ensures Between(c, [], Bus([], None), false)
  {
  }

  lemma Asked(c: Config, steps: seq<Step>, b: Bus, priority: nat, job: Job)
    requires Between(c, steps, b, false) && Idle(b, priority) && job.start < SPACE && job.length < SPACE
    ensures Between(c, steps + [Asks(priority, job)], Ask(b, priority, job, 0), false)
  {
    hide IsRun, Execute, Ask;
    Extend(c, INITIAL, steps, Asks(priority, job));
  }

  /** A bus cycle on a bus of reads, and the clock edge after it. */
  lemma Moved(c: Config, steps: seq<Step>, b: Bus, k: nat)
    requires Plain(c) && Between(c, steps, b, false) && Served(b, k) && !b.requests[k].doWrite
    ensures exists v :: Between(c, steps + [Serves(k, Okay)] + [Rises], Serve(b, k, c.slaves, Okay, v), false)
    ensures exists v :: Between(c, steps + [Serves(k, Okay)], Serve(b, k, c.slaves, Okay, v), true)
  {
    hide IsRun, Execute, Serve, Chosen, SlaveOf;
    var v := Load(Execute(c, INITIAL, steps).mem, b.requests[k].address);
    Extend(c, INITIAL, steps, Serves(k, Okay));
    assert Between(c, steps + [Serves(k, Okay)], Serve(b, k, c.slaves, Okay, v), true);
    Extend(c, INITIAL, steps + [Serves(k, Okay)], Rises);
    assert Between(c, steps + [Serves(k, Okay)] + [Rises], Serve(b, k, c.slaves, Okay, v), false);
  }

  /** A run in which a locked burst of three words is broken into: a request of higher priority
      made after its first word waits for the second and is served before the third. */
  lemma LockedBurstBrokenInto(c: Config)
    requires Plain(c)
    ensures var steps := [Asks(5, LOCKED), Serves(0, Okay), Rises, Asks(1, SINGLE), Serves(0, Okay), Rises,
                          Serves(1, Okay)];
            && IsRun(c, INITIAL, steps)
            && var rs := Execute(c, INITIAL, steps).bus.requests;
               |rs| == 2 && rs[0].status == Waiting && |rs[0].moved| == 2 && rs[0].length == 3 && rs[1].status == Okay
  {
    hide IsRun, Execute, Ask, Serve, Served, SlaveOf;
    Starts(c);
    Asking(Bus([Burst(Waiting, LockSet, [WORD0], 0)], None));
    Asked(c, [], Bus([], None), 5, LOCKED);
    var steps := [] + [Asks(5, LOCKED)];
    GrantedFirst(c, steps);
    steps := steps + [Serves(0, Okay)] + [Rises];
    Asked(c, steps, Bus([Burst(Waiting, LockSet, [WORD0], 0)], None), 1, SINGLE);
    steps := steps + [Asks(1, SINGLE)];
    ProtectedSecond(c, steps);
    steps := steps + [Serves(0, Okay)] + [Rises];
    SingleNext(c, steps, Burst(Waiting, LockNo, [WORD0, WORD1], 0), 1);
    assert steps + [Serves(1, Okay)]
        == [Asks(5, LOCKED), Serves(0, Okay), Rises, Asks(1, SINGLE), Serves(0, Okay), Rises, Serves(1, Okay)];
  }

  lemma GrantedFirst(c: Config, steps: seq<Step>)
    requires Plain(c) && Between(c, steps, Bus([Burst(Requested, LockSet, [], 0)], None), false)
    ensures Between(c, steps + [Serves(0, Okay)] + [Rises], Bus([Burst(Waiting, LockSet, [WORD0], 0)], None), false)
  {
    hide Between, Serve, Served, SlaveOf;
    var b := Bus([Burst(Requested, LockSet, [], 0)], None);
    GrantedFirstWord(c.slaves, 0);
    Moved(c, steps, b, 0);
    var v :| Between(c, steps + [Serves(0, Okay)] + [Rises], Serve(b, 0, c.slaves, Okay, v), false);
    GrantedFirstWord(c.slaves, v);
  }

  lemma ProtectedSecond(c: Config, steps: seq<Step>)
    requires Plain(c)
    requires Between(c, steps, Bus([Burst(Waiting, LockSet, [WORD0], 0), Single(Requested, [], 0)], None), false)
    ensures Between(c, steps + [Serves(0, Okay)] + [Rises],
                    Bus([Burst(Waiting, LockNo, [WORD0, WORD1], 0), Single(Requested, [], 1)], None), false)
  {
    hide Between, Serve, Served, SlaveOf;
    var b := Bus([Burst(Waiting, LockSet, [WORD0], 0), Single(Requested, [], 0)], None);
    ProtectedSecondWord(c.slaves, 0);
    Moved(c, steps, b, 0);
    var v :| Between(c, steps + [Serves(0, Okay)] + [Rises], Serve(b, 0, c.slaves, Okay, v), false);
    ProtectedSecondWord(c.slaves, v);
  }

  lemma SingleNext(c: Config, steps: seq<Step>, r: Request, n: nat)
    requires Plain(c) && Between(c, steps, Bus([r, Single(Requested, [], n)], None), false)
    requires r.priority == 5 && IsPending(r)
    requires (r.status == Requested ==> r.lock != LockGranted) && (r.status == Waiting ==> r.lock == LockNo)
    ensures Between(c, steps + [Serves(1, Okay)], Bus([Unlocked(r), Single(Okay, [WORD100], n)], None), true)
    ensures Between(c, steps + [Serves(1, Okay)] + [Rises], Bus([Unlocked(r), Single(Okay, [WORD100], n)], None), false)
  {
    hide Between, Serve, Served, SlaveOf;
    var b := Bus([r, Single(Requested, [], n)], None);
    SingleFirst(c.slaves, 0, r, n);
    Moved(c, steps, b, 1);
    var v :| Between(c, steps + [Serves(1, Okay)], Serve(b, 1, c.slaves, Okay, v), true);
    SingleFirst(c.slaves, v, r, n);
    var w :| Between(c, steps + [Serves(1, Okay)] + [Rises], Serve(b, 1, c.slaves, Okay, w), false);
    SingleFirst(c.slaves, w, r, n);
  }

  lemma UnlockedFirst(c: Config, steps: seq<Step>)
    requires Plain(c)
    requires Between(c, steps, Bus([Burst(Requested, LockNo, [], 1), Single(Okay, [WORD100], 0)], None), false)
    ensures Between(c, steps + [Serves(0, Okay)] + [Rises],
                    Bus([Burst(Waiting, LockNo, [WORD0], 1), Single(Okay, [WORD100], 0)], None), false)
  {
    hide Between, Serve, Served, SlaveOf;
    var b := Bus([Burst(Requested, LockNo, [], 1), Single(Okay, [WORD100], 0)], None);
    UnlockedFirstWord(c.slaves, 0);
    Moved(c, steps, b, 0);
    var v :| Between(c, steps + [Serves(0, Okay)] + [Rises], Serve(b, 0, c.slaves, Okay, v), false);
    UnlockedFirstWord(c.slaves, v);
  }

  /** A run in which a burst asked with a lock is broken into before its second word: another
      request was served before its first. */
  lemma LockLostWhileWaiting(c: Config)
    requires Plain(c)
    ensures var steps := [Asks(5, LOCKED), Asks(1, SINGLE), Serves(1, Okay), Rises, Serves(0, Okay), Rises,
                          Asks(1, SINGLE), Serves(1, Okay)];
            && IsRun(c, INITIAL, steps)
            && var rs := Execute(c, INITIAL, steps).bus.requests;
               |rs| == 2 && rs[0].status == Waiting && |rs[0].moved| == 1 && rs[0].length == 3 && rs[1].status == Okay
  {
    hide IsRun, Execute, Ask, Serve, Served, SlaveOf;
    Starts(c);
    Asking(Bus([Burst(Requested, LockSet, [], 0)], None));
    Asked(c, [], Bus([], None), 5, LOCKED);
    var steps := [] + [Asks(5, LOCKED)];
    Asked(c, steps, Bus([Burst(Requested, LockSet, [], 0)], None), 1, SINGLE);
    steps := steps + [Asks(1, SINGLE)];
    SingleNext(c, steps, Burst(Requested, LockSet, [], 0), 0);
    steps := steps + [Serves(1, Okay)] + [Rises];
    UnlockedFirst(c, steps);
    steps := steps + [Serves(0, Okay)] + [Rises];
    AskingAgain(Burst(Waiting, LockNo, [WORD0], 1), [WORD100]);
    Asked(c, steps, Bus([Burst(Waiting, LockNo, [WORD0], 1), Single(Okay, [WORD100], 0)], None), 1, SINGLE);
    steps := steps + [Asks(1, SINGLE)];
    SingleNext(c, steps, Burst(Waiting, LockNo, [WORD0], 1), 0);
    assert steps + [Serves(1, Okay)]
        == [Asks(5, LOCKED), Asks(1, SINGLE), Serves(1, Okay), Rises, Serves(0, Okay), Rises,
            Asks(1, SINGLE), Serves(1, Okay)];
  }
}
