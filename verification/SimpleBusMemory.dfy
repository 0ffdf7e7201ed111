/** What bursts do to memory, in all runs of the bus. */
module SimpleBusMemory {
  import opened Basics
  import opened SimpleBus

  /** Since a request was made, address a has been written by request i only. */
  ghost predicate OnlyBy(s: Sys, since: nat, a: nat, i: nat) {
    forall j :: since <= j < |s.writes| && s.writes[j].address == a ==> s.writes[j].writer == Some(i)
  }

  /** Since a request was made, address a has not been written. */
  ghost predicate Untouched(s: Sys, since: nat, a: nat) {
    forall j :: since <= j < |s.writes| ==> s.writes[j].address != a
  }

  /** Word n of request i, once moved, is the same in the master's buffer and in memory, as long
      as nobody else writes there. */
  ghost predicate WordKept(s: Sys, i: nat, n: nat)
    requires i < |s.bus.requests|
  {
    var r := s.bus.requests[i];
    var a := r.start + n * WORD;
    n < |r.moved| && n < |r.buffer| ==>
      if r.doWrite then OnlyBy(s, r.since, a, i) ==> Load(s.mem, a) == r.buffer[n]
      else Untouched(s, r.since, a) ==> Load(s.mem, a) == r.buffer[n]
  }

  ghost predicate MemInv(s: Sys) {
    forall i :: 0 <= i < |s.bus.requests| && s.bus.requests[i].asked ==>
      && s.bus.requests[i].since <= |s.writes|
      && (Fits(s.bus.requests[i].start, s.bus.requests[i].length) ==> forall n :: WordKept(s, i, n))
  }

  /** A request that keeps its words keeps them across a write to another address, or to one of
      them by somebody else. */
  lemma WriteKeeps(s: Sys, s': Sys, i: nat, n: nat, w: Write, value: int)
    requires i < |s.bus.requests| && i < |s'.bus.requests| && WordKept(s, i, n)
    requires var r, r' := s.bus.requests[i], s'.bus.requests[i];
             && r.since <= |s.writes| && r'.start == r.start && r'.doWrite == r.doWrite && r'.since == r.since
             && (n < |r'.moved| && n < |r'.buffer| ==> n < |r.moved| && n < |r.buffer| && r'.buffer[n] == r.buffer[n])
             && (w.address == r.start + n * WORD ==> w.writer != Some(i) || !r.doWrite)
    requires s'.mem == s.mem[w.address := value] && s'.writes == s.writes + [w]
    ensures WordKept(s', i, n)
  {
    var r := s.bus.requests[i];
    var a := r.start + n * WORD;
    assert s'.writes[|s.writes|] == w;
    assert forall j :: 0 <= j < |s.writes| ==> s'.writes[j] == s.writes[j];
  }

  lemma SameKeeps(s: Sys, s': Sys, i: nat, n: nat)
    requires i < |s.bus.requests| && i < |s'.bus.requests| && WordKept(s, i, n)
    requires var r, r' := s.bus.requests[i], s'.bus.requests[i];
             && r'.start == r.start && r'.doWrite == r.doWrite && r'.since == r.since
             && (n < |r'.moved| && n < |r'.buffer| ==> n < |r.moved| && n < |r.buffer| && r'.buffer[n] == r.buffer[n])
    requires s'.mem == s.mem && s'.writes == s.writes
    ensures WordKept(s', i, n)
  {
  }

  // ----- a served request -------------------------------------------------

  /** What a cycle does to the request it serves, but for its lock and status. */
  lemma ServedChanges(c: Config, s: Sys, k: nat, answer: Status)
    requires Inv(s.bus) && Enabled(c, s, Serves(k, answer))
    ensures var s' := Apply(c, s, Serves(k, answer));
            && |s'.bus.requests| == |s.bus.requests|
            && var r, r' := s.bus.requests[k], s'.bus.requests[k];
               && r.asked && r'.asked && r'.start == r.start && r'.length == r.length && r'.doWrite == r.doWrite
               && r'.priority == r.priority
               && r'.since == r.since && |r'.buffer| == |r.buffer|
               && (if answer == Okay && r.address % WORD == 0 && Mapped(c.slaves, r.address) then
                     && |r'.moved| == |r.moved| + 1 && r'.buffer == Filled(r, Load(s.mem, r.address))
                   else r'.moved == r.moved && r'.buffer == r.buffer)
  {
    hide GoodRequest, SlaveOf, Chosen;
    ServedIsPending(s.bus, k);
  }

  lemma OthersSame(c: Config, s: Sys, k: nat, answer: Status, i: nat)
    requires Inv(s.bus) && Enabled(c, s, Serves(k, answer)) && i < |s.bus.requests| && i != k
    ensures var s' := Apply(c, s, Serves(k, answer));
            && |s'.bus.requests| == |s.bus.requests|
            && var r, r' := s.bus.requests[i], s'.bus.requests[i];
               && r'.asked == r.asked && r'.start == r.start && r'.length == r.length && r'.doWrite == r.doWrite
               && r'.priority == r.priority
               && r'.since == r.since && r'.buffer == r.buffer && r'.moved == r.moved
  {
    hide GoodRequest, SlaveOf, Chosen, Handled;
  }

  /** The next word of a request that fits is at its place, and no other word is there. */
  lemma NextWord(r: Request)
    requires GoodRequest(r) && IsPending(r) && r.asked && Fits(r.start, r.length)
    ensures r.data == |r.moved| < r.length && r.address == r.start + |r.moved| * WORD
  {
    FittingBurst(r);
    NoWrap(r.start, |r.moved|);
  }

  lemma ServedWords(c: Config, s: Sys, k: nat, answer: Status, n: nat)
    requires Inv(s.bus) && MemInv(s) && Enabled(c, s, Serves(k, answer))
    requires Fits(s.bus.requests[k].start, s.bus.requests[k].length)
    ensures WordKept(Apply(c, s, Serves(k, answer)), k, n)
  {
    hide GoodRequest, SlaveOf, Chosen, Serve;
    var s' := Apply(c, s, Serves(k, answer));
    var r := s.bus.requests[k];
    ServedIsPending(s.bus, k);
    ServedChanges(c, s, k, answer);
    NextWord(r);
    assert WordKept(s, k, n);
    if n != |r.moved| {
      if Stores(c, r, answer) {
        WriteKeeps(s, s', k, n, Write(r.address, Some(k)), Word(r));
      } else {
        SameKeeps(s, s', k, n);
      }
    }
  }

  lemma OtherWords(c: Config, s: Sys, k: nat, answer: Status, i: nat, n: nat)
    requires Inv(s.bus) && MemInv(s) && Enabled(c, s, Serves(k, answer)) && i < |s.bus.requests| && i != k
    requires s.bus.requests[i].asked && WordKept(s, i, n)
    ensures i < |Apply(c, s, Serves(k, answer)).bus.requests| && WordKept(Apply(c, s, Serves(k, answer)), i, n)
  {
    hide GoodRequest, SlaveOf, Chosen, Serve;
    var s' := Apply(c, s, Serves(k, answer));
    var r := s.bus.requests[k];
    OthersSame(c, s, k, answer, i);
    if Stores(c, r, answer) {
      WriteKeeps(s, s', i, n, Write(r.address, Some(k)), Word(r));
    } else {
      SameKeeps(s, s', i, n);
    }
  }

  lemma ServeRemembers(c: Config, s: Sys, k: nat, answer: Status)
    requires Inv(s.bus) && MemInv(s) && Enabled(c, s, Serves(k, answer))
    ensures MemInv(Apply(c, s, Serves(k, answer)))
  {
    hide Inv, WordKept, Serve, Fits;
    var s' := Apply(c, s, Serves(k, answer));
    ServedChanges(c, s, k, answer);
    forall i | 0 <= i < |s'.bus.requests| && s'.bus.requests[i].asked
      ensures s'.bus.requests[i].since <= |s'.writes|
      ensures Fits(s'.bus.requests[i].start, s'.bus.requests[i].length) ==> forall n :: WordKept(s', i, n)
    {
      if i != k {
        OthersSame(c, s, k, answer, i);
      }
      if Fits(s'.bus.requests[i].start, s'.bus.requests[i].length) {
        forall n
          ensures WordKept(s', i, n)
        {
          if i == k {
            ServedWords(c, s, k, answer, n);
          } else {
            assert WordKept(s, i, n);
            OtherWords(c, s, k, answer, i, n);
          }
        }
      }
    }
  }

  // ----- the other steps --------------------------------------------------

  lemma AskRemembers(c: Config, s: Sys, priority: nat, job: Job)
    requires MemInv(s) && Enabled(c, s, Asks(priority, job))
    ensures MemInv(Apply(c, s, Asks(priority, job)))
  {
    hide WordKept;
    var s' := Apply(c, s, Asks(priority, job));
    var p := PlaceOf(s.bus.requests, priority);
    forall i | 0 <= i < |s'.bus.requests| && s'.bus.requests[i].asked
      ensures s'.bus.requests[i].since <= |s'.writes|
      ensures Fits(s'.bus.requests[i].start, s'.bus.requests[i].length) ==> forall n :: WordKept(s', i, n)
    {
      if i != p {
        assert s'.bus.requests[i] == s.bus.requests[i];
        if Fits(s.bus.requests[i].start, s.bus.requests[i].length) {
          forall n
            ensures WordKept(s', i, n)
          {
            assert WordKept(s, i, n);
            SameKeeps(s, s', i, n);
          }
        }
      } else {
        forall n
          ensures WordKept(s', i, n)
        {
          NothingMoved(s', i, n);
        }
      }
    }
  }

  lemma NothingMoved(s: Sys, i: nat, n: nat)
    requires i < |s.bus.requests| && s.bus.requests[i].moved == []
    ensures WordKept(s, i, n)
  {
  }

  /** Resting, a rising edge and a direct write leave the bursts alone. */
  lemma QuietRemembers(c: Config, s: Sys, step: Step)
    requires MemInv(s) && Enabled(c, s, step) && (step.Rests? || step.Rises? || step.DirectWrite?)
    ensures MemInv(Apply(c, s, step))
  {
    hide WordKept, Fits;
    var s' := Apply(c, s, step);
    assert |s'.bus.requests| == |s.bus.requests|;
    forall i | 0 <= i < |s'.bus.requests| && s'.bus.requests[i].asked
      ensures s'.bus.requests[i].since <= |s'.writes|
      ensures Fits(s'.bus.requests[i].start, s'.bus.requests[i].length) ==> forall n :: WordKept(s', i, n)
    {
      var r, r' := s.bus.requests[i], s'.bus.requests[i];
      assert r' == r.(lock := r'.lock, endings := r'.endings);
      if Fits(r.start, r.length) {
        forall n
          ensures WordKept(s', i, n)
        {
          assert WordKept(s, i, n);
          if step.DirectWrite? {
            WriteKeeps(s, s', i, n, Write(step.address, None), step.value);
          } else {
            SameKeeps(s, s', i, n);
          }
        }
      }
    }
  }

  lemma {:induction false} RunRemembers(c: Config, s: Sys, steps: seq<Step>)
    requires Inv(s.bus) && MemInv(s) && IsRun(c, s, steps)
    ensures MemInv(Execute(c, s, steps)) && Inv(Execute(c, s, steps).bus)
    decreases |steps|
  {
    hide Inv, MemInv, Enabled, Apply;
    if steps != [] {
      StepKeeps(c, s, steps[0]);
      match steps[0] {
        case Asks(priority, job) => AskRemembers(c, s, priority, job);
        case Serves(k, answer) => ServeRemembers(c, s, k, answer);
        case _ => QuietRemembers(c, s, steps[0]);
      }
      RunRemembers(c, Apply(c, s, steps[0]), steps[1..]);
    }
  }

  // ----- results over all runs --------------------------------------------

  /** A write burst that has ended well has put its buffer in memory, word for word, wherever
      nobody else has written since it was asked for. */
  lemma BufferLands(c: Config, steps: seq<Step>, i: nat, n: nat)
    requires IsRun(c, INITIAL, steps)
    requires var s := Execute(c, INITIAL, steps);
             && i < |s.bus.requests|
             && var r := s.bus.requests[i];
                && r.asked && r.doWrite && r.status == Okay && Fits(r.start, r.length)
                && n < r.length && n < |r.buffer| && OnlyBy(s, r.since, r.start + n * WORD, i)
    ensures var s := Execute(c, INITIAL, steps);
            var r := s.bus.requests[i];
            Load(s.mem, r.start + n * WORD) == r.buffer[n]
  {
    hide Execute, IsRun;
    RunRemembers(c, INITIAL, steps);
    var s := Execute(c, INITIAL, steps);
    FittingBurst(s.bus.requests[i]);
    assert WordKept(s, i, n);
  }

  /** And a read burst that has ended well has the memory's data in the master's buffer, wherever
      nobody has written since it was asked for. */
  lemma ReadsFetch(c: Config, steps: seq<Step>, i: nat, n: nat)
    requires IsRun(c, INITIAL, steps)
    requires var s := Execute(c, INITIAL, steps);
             && i < |s.bus.requests|
             && var r := s.bus.requests[i];
                && r.asked && !r.doWrite && r.status == Okay && Fits(r.start, r.length)
                && n < r.length && n < |r.buffer| && Untouched(s, r.since, r.start + n * WORD)
    ensures var s := Execute(c, INITIAL, steps);
            var r := s.bus.requests[i];
            Load(s.mem, r.start + n * WORD) == r.buffer[n]
  {
    hide Execute, IsRun;
    RunRemembers(c, INITIAL, steps);
    var s := Execute(c, INITIAL, steps);
    FittingBurst(s.bus.requests[i]);
    assert WordKept(s, i, n);
  }

  /** The round trip: what one master has written another reads, whatever else the bus did. */
  lemma WrittenIsRead(c: Config, steps: seq<Step>, i: nat, j: nat)
    requires IsRun(c, INITIAL, steps)
    requires var s := Execute(c, INITIAL, steps);
             && i < |s.bus.requests| && j < |s.bus.requests|
             && var w, r := s.bus.requests[i], s.bus.requests[j];
                && w.asked && w.doWrite && w.status == Okay && Fits(w.start, w.length) && |w.buffer| == w.length
                && r.asked && !r.doWrite && r.status == Okay && r.start == w.start && r.length == w.length
                && |r.buffer| == r.length
                && forall n :: 0 <= n < w.length ==>
                     OnlyBy(s, w.since, w.start + n * WORD, i) && Untouched(s, r.since, w.start + n * WORD)
    ensures var s := Execute(c, INITIAL, steps);
            s.bus.requests[j].buffer == s.bus.requests[i].buffer
  {
    hide Execute, IsRun, Fits, OnlyBy, Untouched;
    var s := Execute(c, INITIAL, steps);
    var w, r := s.bus.requests[i], s.bus.requests[j];
    forall n | 0 <= n < w.length
      ensures r.buffer[n] == w.buffer[n]
    {
      BufferLands(c, steps, i, n);
      ReadsFetch(c, steps, j, n);
    }
  }

  // ----- what was asked for -----------------------------------------------

  /** The last job that the master of a priority asked for, by the steps of a run. */
  function LastJob(steps: seq<Step>, priority: nat): Option<Job> {
    if steps == [] then None
    else
      var last := steps[|steps| - 1];
      if last.Asks? && last.priority == priority then Some(last.job) else LastJob(steps[..|steps| - 1], priority)
  }

  /** A request is for its master's job; a write keeps the master's data. */
  ghost predicate IsFor(r: Request, job: Option<Job>) {
    && job.Some? && r.start == job.value.start && r.length == job.value.length && r.doWrite == job.value.write
    && |r.buffer| == |job.value.buffer| && (r.doWrite ==> r.buffer == job.value.buffer)
  }

  ghost predicate AllFor(b: Bus, steps: seq<Step>) {
    forall i :: 0 <= i < |b.requests| && b.requests[i].asked ==>
                  IsFor(b.requests[i], LastJob(steps, b.requests[i].priority))
  }

  lemma {:induction false} Unextend(c: Config, s: Sys, steps: seq<Step>, step: Step)
    requires IsRun(c, s, steps + [step])
    ensures IsRun(c, s, steps) && Enabled(c, Execute(c, s, steps), step)
    ensures Execute(c, s, steps + [step]) == Apply(c, Execute(c, s, steps), step)
    decreases |steps|
  {
    hide Enabled, Apply;
    if steps == [] {
      assert ([] + [step])[1..] == [];
    } else {
      assert (steps + [step])[1..] == steps[1..] + [step];
      Unextend(c, Apply(c, s, steps[0]), steps[1..], step);
    }
  }

  lemma LastJobStep(steps: seq<Step>, step: Step, priority: nat)
    ensures LastJob(steps + [step], priority)
         == if step.Asks? && step.priority == priority then Some(step.job) else LastJob(steps, priority)
  {
    assert (steps + [step])[..|steps|] == steps;
  }

  lemma AskFor(c: Config, s: Sys, steps: seq<Step>, priority: nat, job: Job)
    requires Inv(s.bus) && AllFor(s.bus, steps) && Enabled(c, s, Asks(priority, job))
    ensures AllFor(Apply(c, s, Asks(priority, job)).bus, steps + [Asks(priority, job)])
  {
    hide GoodRequest, LastJob;
    var b, b' := s.bus, Apply(c, s, Asks(priority, job)).bus;
    var p := PlaceOf(b.requests, priority);
    forall i | 0 <= i < |b'.requests| && b'.requests[i].asked
      ensures IsFor(b'.requests[i], LastJob(steps + [Asks(priority, job)], b'.requests[i].priority))
    {
      LastJobStep(steps, Asks(priority, job), b'.requests[i].priority);
      if i != p {
        assert b'.requests[i] == b.requests[i];
        assert b.requests[i].priority != priority;
      }
    }
  }

  lemma ServeFor(c: Config, s: Sys, steps: seq<Step>, k: nat, answer: Status)
    requires Inv(s.bus) && AllFor(s.bus, steps) && Enabled(c, s, Serves(k, answer))
    ensures AllFor(Apply(c, s, Serves(k, answer)).bus, steps + [Serves(k, answer)])
  {
    hide GoodRequest, LastJob, Serve, Inv;
    var b' := Apply(c, s, Serves(k, answer)).bus;
    ServedChanges(c, s, k, answer);
    forall i | 0 <= i < |b'.requests| && b'.requests[i].asked
      ensures IsFor(b'.requests[i], LastJob(steps + [Serves(k, answer)], b'.requests[i].priority))
    {
      LastJobStep(steps, Serves(k, answer), b'.requests[i].priority);
      if i != k {
        OthersSame(c, s, k, answer, i);
      }
    }
  }

  lemma QuietFor(c: Config, s: Sys, steps: seq<Step>, step: Step)
    requires AllFor(s.bus, steps) && Enabled(c, s, step) && (step.Rests? || step.Rises? || step.DirectWrite?)
    ensures AllFor(Apply(c, s, step).bus, steps + [step])
  {
    hide LastJob;
    var b' := Apply(c, s, step).bus;
    assert |b'.requests| == |s.bus.requests|;
    forall i | 0 <= i < |b'.requests| && b'.requests[i].asked
      ensures IsFor(b'.requests[i], LastJob(steps + [step], b'.requests[i].priority))
    {
      var r, r' := s.bus.requests[i], b'.requests[i];
      assert r' == r.(lock := r'.lock, endings := r'.endings);
      LastJobStep(steps, step, r.priority);
    }
  }

  lemma {:induction false} RunFor(c: Config, steps: seq<Step>)
    requires IsRun(c, INITIAL, steps)
    ensures AllFor(Execute(c, INITIAL, steps).bus, steps)
  {
    if steps != [] {
      hide AllFor, Enabled, Apply, IsRun, Execute;
      var init, last := steps[..|steps| - 1], steps[|steps| - 1];
      assert steps == init + [last];
      Unextend(c, INITIAL, init, last);
      RunFor(c, init);
      RunKeeps(c, INITIAL, init);
      var s := Execute(c, INITIAL, init);
      match last {
        case Asks(priority, job) => AskFor(c, s, init, priority, job);
        case Serves(k, answer) => ServeFor(c, s, init, k, answer);
        case _ => QuietFor(c, s, init, last);
      }
    }
  }

  /** In every run a request carries the last job its master asked for. */
  lemma RequestsAreForJobs(c: Config, steps: seq<Step>, i: nat)
    requires IsRun(c, INITIAL, steps)
    requires var b := Execute(c, INITIAL, steps).bus; i < |b.requests| && b.requests[i].asked
    ensures var r := Execute(c, INITIAL, steps).bus.requests[i];
            var job := LastJob(steps, r.priority);
            && job.Some? && r.start == job.value.start && r.length == job.value.length
            && r.doWrite == job.value.write && (r.doWrite ==> r.buffer == job.value.buffer)
  {
    hide LastJob, Execute, IsRun;
    RunFor(c, steps);
  }

  /** In every run a write burst that has ended well has put the data that its master asked to
      write in memory, word for word, wherever nobody else has written since. */
  lemma WritesLand(c: Config, steps: seq<Step>, i: nat, job: Job, n: nat)
    requires IsRun(c, INITIAL, steps)
    requires var s := Execute(c, INITIAL, steps);
             && i < |s.bus.requests|
             && var r := s.bus.requests[i];
                && r.asked && r.status == Okay && LastJob(steps, r.priority) == Some(job)
                && OnlyBy(s, r.since, job.start + n * WORD, i)
    requires job.write && Fits(job.start, job.length) && n < job.length && n < |job.buffer|
    ensures Load(Execute(c, INITIAL, steps).mem, job.start + n * WORD) == job.buffer[n]
  {
    hide LastJob, Execute, IsRun, Fits;
    RequestsAreForJobs(c, steps, i);
    BufferLands(c, steps, i, n);
  }

  // ----- memory between writes --------------------------------------------

  /** Memory changes only where a write is recorded. */
  lemma {:induction false} UnwrittenStays(c: Config, s: Sys, steps: seq<Step>, a: nat)
    requires IsRun(c, s, steps)
    ensures var r := Execute(c, s, steps);
            && s.writes <= r.writes
            && (Untouched(r, |s.writes|, a) ==> Load(r.mem, a) == Load(s.mem, a))
    decreases |steps|
  {
    hide Served, Serve, Ask, Rest, Idle, Mapped, CallsSlow;
    if steps != [] {
      var t := Apply(c, s, steps[0]);
      UnwrittenStays(c, t, steps[1..], a);
      var r := Execute(c, s, steps);
      assert |t.writes| > |s.writes| ==> t.writes[|s.writes|] == r.writes[|s.writes|];
    }
  }

  /** What the direct interface writes is in memory until the address is written again. */
  lemma DirectWriteLands(c: Config, s: Sys, a: nat, value: int, steps: seq<Step>)
    requires Enabled(c, s, DirectWrite(a, value)) && IsRun(c, Apply(c, s, DirectWrite(a, value)), steps)
    requires Untouched(Execute(c, Apply(c, s, DirectWrite(a, value)), steps), |s.writes| + 1, a)
    ensures Load(Execute(c, Apply(c, s, DirectWrite(a, value)), steps).mem, a) == value
  {
    UnwrittenStays(c, Apply(c, s, DirectWrite(a, value)), steps, a);
  }
}
