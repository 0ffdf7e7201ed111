/** The simple bus as objects: the bus process with its table of requests and the slow
    memory it calls, proved to take the steps of the model.
 */
module SimpleBusObject {
  import opened Basics
  import opened SimpleBus

  class SlowMemory {
    const startAddress: nat
    const waitStates: nat
    const mem: array<int>
    var waitCount: int

    constructor (start: nat, words: nat, states: nat)
      ensures startAddress == start && waitStates == states && mem.Length == words && fresh(mem)
      ensures waitCount == -1 && forall i :: 0 <= i < words ==> mem[i] == 0
    {
      startAddress, waitStates, waitCount := start, states, -1;
      mem := new int[words](i => 0);
    }

    predicate Contains(address: nat) {
      startAddress <= address && (address - startAddress) / WORD < mem.Length
    }

    method WaitLoop()
      modifies this`waitCount
      ensures waitCount == CountAfterEdge(old(waitCount))
    {
      if waitCount >= 0 {
        waitCount := waitCount - 1;
      }
    }

    method Read(address: nat) returns (status: Status, data: int)
      requires Contains(address)
      modifies this`waitCount
      ensures status == CallAnswer(old(waitCount)) && waitCount == CountAfterCall(old(waitCount), waitStates)
      ensures status == Okay ==> data == mem[(address - startAddress) / WORD]
    {
      data := 0;
      if waitCount < 0 {
        waitCount := waitStates;
        return Waiting, data;
      }
      if waitCount == 0 {
        data := mem[(address - startAddress) / WORD];
        return Okay, data;
      }
      return Waiting, data;
    }

    method Write(data: int, address: nat) returns (status: Status)
      requires Contains(address)
      modifies this`waitCount, mem
      ensures status == CallAnswer(old(waitCount)) && waitCount == CountAfterCall(old(waitCount), waitStates)
      ensures mem[..] == if status == Okay then old(mem[..])[(address - startAddress) / WORD := data] else old(mem[..])
    {
      if waitCount < 0 {
        waitCount := waitStates;
        return Waiting;
      }
      if waitCount == 0 {
        mem[(address - startAddress) / WORD] := data;
        return Okay;
      }
      return Waiting;
    }

    /** The debug access, which knows no wait states. */
    method DirectWrite(data: int, address: nat)
      requires Contains(address)
      modifies mem
      ensures mem[..] == old(mem[..])[(address - startAddress) / WORD := data]
    {
      mem[(address - startAddress) / WORD] := data;
    }
  }

  // ----- the bus process --------------------------------------------------

  /** Two word addresses with the same place in a memory are the same. */
  lemma SamePlace(a: nat, b: nat, start: nat)
    requires a % WORD == 0 == b % WORD && start <= a && start <= b && (a - start) / WORD == (b - start) / WORD
    ensures a == b
  {
  }

  /** What the slaves hold: the slow memory's words, and a map for the other slaves. */
  datatype Store = Store(slaves: seq<Slave>, place: nat, start: nat, words: seq<int>, others: map<nat, int>)

  predicate Attached(st: Store) {
    && st.place < |st.slaves| && st.words != []
    && st.slaves[st.place] == Slave(st.start, st.start + |st.words| * WORD - 1)
  }

  function Cell(st: Store, a: nat): int
    requires Attached(st)
  {
    if SlaveOf(st.slaves, a) == st.place then st.words[(a - st.start) / WORD] else Load(st.others, a)
  }

  function Put(st: Store, a: nat, value: int): (r: Store)
    requires Attached(st)
    ensures Attached(r)
  {
    if SlaveOf(st.slaves, a) == st.place then st.(words := st.words[(a - st.start) / WORD := value])
    else st.(others := st.others[a := value])
  }

  /** The model's memory is what the slaves hold at the word addresses. */
  ghost predicate Mirrors(mem: map<nat, int>, st: Store)
    requires Attached(st)
  {
    forall a: nat :: a % WORD == 0 ==> Load(mem, a) == Cell(st, a)
  }

  lemma PutMirrors(mem: map<nat, int>, st: Store, a: nat, value: int)
    requires Attached(st) && Mirrors(mem, st) && a % WORD == 0
    ensures Mirrors(mem[a := value], Put(st, a, value))
  {
    hide SlaveOf;
    forall b: nat | b % WORD == 0
      ensures Load(mem[a := value], b) == Cell(Put(st, a, value), b)
    {
      assert Load(mem, b) == Cell(st, b);
      var here := SlaveOf(st.slaves, a) == st.place && SlaveOf(st.slaves, b) == st.place;
      if here && (a - st.start) / WORD == (b - st.start) / WORD {
        SamePlace(a, b, st.start);
      }
    }
  }

  /** The bus with one slow memory; the memory behind the other slaves is a map, and their
      answers are given.  `stamp` counts the writes. */
  class BusObject {
    const config: Config
    const slow: SlowMemory
    var requests: seq<Request>
    var current: Option<nat>
    var others: map<nat, int>
    var stamp: nat
    ghost var view: Sys

    ghost function Slaves(): Store
      reads `others, slow.mem
    {
      Store(config.slaves, config.slow, slow.startAddress, slow.mem[..], others)
    }

    ghost predicate Valid()
      reads this, slow, slow.mem
    {
      && view.bus == Bus(requests, current) && view.count == slow.waitCount && config.waitStates == slow.waitStates
      && stamp == |view.writes| && (current.Some? ==> current.value < |requests|)
      && Attached(Slaves()) && Mirrors(view.mem, Slaves())
    }

    constructor (slaves: seq<Slave>, place: nat, memory: SlowMemory)
      requires place < |slaves| && memory.mem.Length > 0 && memory.waitCount == -1
      requires slaves[place] == Slave(memory.startAddress, memory.startAddress + memory.mem.Length * WORD - 1)
      requires forall i :: 0 <= i < memory.mem.Length ==> memory.mem[i] == 0
      ensures Valid() && view == INITIAL && slow == memory && config == Config(slaves, place, memory.waitStates)
    {
      config, slow := Config(slaves, place, memory.waitStates), memory;
      requests, current, others, stamp := [], None, map[], 0;
      view := INITIAL;
    }

    method GetRequest(priority: nat) returns (i: nat)
      modifies this`requests
      ensures requests == WithRequest(old(requests), priority)
      ensures i == PlaceOf(old(requests), priority) < |requests|
    {
      i := 0;
      while i < |requests|
        invariant i <= |requests|
        invariant PlaceOf(requests, priority) == i + PlaceOf(requests[i..], priority)
      {
        if requests[i].priority == priority {
          return;
        }
        assert requests[i..][1..] == requests[i + 1..];
        i := i + 1;
      }
      requests := requests + [NewRequest(priority)];
    }

    method AskMethod(priority: nat, job: Job)
      requires Valid() && Idle(view.bus, priority) && job.start < SPACE && job.length < SPACE
      modifies this
      ensures Valid() && view == Apply(config, old(view), Asks(priority, job))
    {
      var i := GetRequest(priority);
      var r := requests[i];
      r := r.(doWrite := job.write, address := job.start, endAddress := EndAddress(job.start, job.length),
              data := 0, buffer := job.buffer);
      if job.lock {
        r := r.(lock := if r.lock == LockSet then LockGranted else LockSet);
      }
      r := r.(status := Requested, asked := true, start := job.start, length := job.length, moved := [],
              grade := r.lock, endings := 0, since := stamp);
      requests := requests[i := r];
      view := Apply(config, view, Asks(priority, job));
    }

    method FindFit(rule: nat) returns (k: nat)
      ensures k == FirstFit(requests, rule, 0)
    {
      k := 0;
      while k < |requests|
        invariant k <= |requests|
        invariant FirstFit(requests, rule, 0) == FirstFit(requests, rule, k)
      {
        if FitsRule(requests[k], rule) {
          return;
        }
        k := k + 1;
      }
    }

    /** The pending request of smallest priority number, if any is pending. */
    method FindBest() returns (best: Option<nat>)
      ensures best.None? <==> !SomePending(requests)
      ensures best.Some? ==> IsBest(requests, best.value)
    {
      best := None;
      var i := 0;
      while i < |requests|
        invariant 0 <= i <= |requests|
        invariant best.None? ==> forall j :: 0 <= j < i ==> !IsPending(requests[j])
        invariant best.Some? ==> best.value < i && IsPending(requests[best.value])
        invariant best.Some? ==> forall j :: 0 <= j < i && IsPending(requests[j]) ==>
                                   requests[best.value].priority <= requests[j].priority
      {
        if IsPending(requests[i]) && (best.None? || requests[i].priority < requests[best.value].priority) {
          best := Some(i);
        }
        i := i + 1;
      }
    }

    method Arbitrate() returns (k: nat)
      requires SomePending(requests)
      modifies this`requests
      ensures k < |old(requests)| && Chosen(old(requests), k) && requests == Granted(old(requests), k)
    {
      k := FindFit(1);
      if k < |requests| {
        return;
      }
      k := FindFit(2);
      if k < |requests| {
        return;
      }
      var best := FindBest();
      k := best.value;
      if requests[k].lock != LockNo {
        requests := requests[k := requests[k].(lock := LockGranted)];
      }
    }

    method GetSlave(address: nat) returns (i: nat)
      ensures i == SlaveOf(config.slaves, address)
    {
      var slaves := config.slaves;
      i := 0;
      while i < |slaves|
        invariant i <= |slaves|
        invariant SlaveOf(slaves, address) == i + SlaveOf(slaves[i..], address)
      {
        if slaves[i].startAddress <= address <= slaves[i].endAddress {
          return;
        }
        assert slaves[i..][1..] == slaves[i + 1..];
        i := i + 1;
      }
    }

    /** The call of the slave that covers the request's address.  The answer of a slave other
        than the slow memory is given. */
    method CallSlave(r: Request, slave: nat, answer: Status) returns (status: Status, value: int)
      requires Attached(Slaves()) && slave == SlaveOf(config.slaves, r.address) < |config.slaves|
      modifies slow`waitCount, slow.mem, this`others
      ensures status == if slave == config.slow then CallAnswer(old(slow.waitCount)) else answer
      ensures slow.waitCount == if slave == config.slow then CountAfterCall(old(slow.waitCount), slow.waitStates)
                                else old(slow.waitCount)
      ensures status == Okay && !r.doWrite ==> value == Cell(old(Slaves()), r.address)
      ensures Slaves() == if r.doWrite && status == Okay then Put(old(Slaves()), r.address, Word(r)) else old(Slaves())
    {
      hide SlaveOf;
      status, value := answer, 0;
      var word := if r.data < |r.buffer| then r.buffer[r.data] else 0;
      if slave == config.slow {
        if r.doWrite {
          status := slow.Write(word, r.address);
        } else {
          status, value := slow.Read(r.address);
        }
      } else if r.doWrite {
        if answer == Okay {
          others := others[r.address := word];
        }
      } else {
        value := Load(others, r.address);
      }
    }

    method HandleRequest(answer: Status) returns (status: Status)
      requires Attached(Slaves()) && current.Some? && current.value < |requests|
      modifies this, slow`waitCount, slow.mem
      ensures view == old(view)
      ensures var k := old(current).value;
              var r := old(requests)[k];
              var (r', keeps) := Handled(r, config.slaves, status, Cell(old(Slaves()), r.address));
              requests == old(requests)[k := r'] && current == if keeps then Some(k) else None
      ensures var r := old(requests)[old(current).value];
              && (CallsSlow(config, r) ==> status == CallAnswer(old(slow.waitCount)))
              && slow.waitCount == if CallsSlow(config, r) then CountAfterCall(old(slow.waitCount), slow.waitStates)
                                   else old(slow.waitCount)
      ensures var r := old(requests)[old(current).value];
              && stamp == old(stamp) + (if Stores(config, r, status) then 1 else 0)
              && Slaves() == if Stores(config, r, status) then Put(old(Slaves()), r.address, Word(r)) else old(Slaves())
    {
      hide SlaveOf, Put, Cell;
      var k := current.value;
      var was := requests[k];
      var r := was.(status := Waiting);
      var slave := GetSlave(r.address);
      status := answer;
      if r.address % WORD != 0 || slave == |config.slaves| {
        r := r.(status := Error);
        current := None;
      } else {
        var value: int;
        status, value := CallSlave(was, slave, answer);
        if was.doWrite && status == Okay {
          stamp := stamp + 1;
        }
        if status == Error {
          r := r.(status := Error);
          current := None;
        } else if status == Okay {
          r := r.(moved := r.moved + [Transfer(r.data, r.address, r.doWrite)], buffer := Filled(r, value),
                  address := (r.address + WORD) % SPACE, data := r.data + 1);
          if r.address > r.endAddress {
            r := r.(status := Okay);
          }
          current := None;
        }
      }
      requests := requests[k := r];
    }

    method ClearAllLocks()
      modifies this`requests
      ensures requests == ClearLocks(old(requests))
    {
      var i := 0;
      while i < |requests|
        invariant 0 <= i <= |requests| == |old(requests)|
        invariant forall j :: 0 <= j < i ==> requests[j] == ClearLocks(old(requests))[j]
        invariant forall j :: i <= j < |requests| ==> requests[j] == old(requests)[j]
      {
        requests := requests[i := Unlocked(requests[i])];
        i := i + 1;
      }
    }

    /** A free bus takes the arbiter's choice, if anything is pending. */
    method NextRequest()
      requires current.Some? ==> current.value < |requests|
      modifies `requests, `current
      ensures current.Some? ==> current.value < |requests| == |old(requests)|
      ensures var b := old(Bus(requests, current));
              if Resting(b) then requests == b.requests && current == None
              else current.Some? && Served(b, current.value) && requests == Table(b, current.value)
    {
      hide Granted, Chosen;
      if current.None? {
        var best := FindBest();
        if best.Some? {
          var k := Arbitrate();
          current := Some(k);
        }
      }
    }

    /** The bus process at a falling clock edge. */
    method MainAction(answer: Status) returns (ghost step: Step)
      requires Valid() && !view.rising
      modifies this, slow`waitCount, slow.mem
      ensures step.Serves? || step.Rests?
      ensures Enabled(config, old(view), step) && Valid() && view == Apply(config, old(view), step)
    {
      hide Handled, Table, Served, ClearLocks, SlaveOf, Put, Cell, Mirrors;
      ghost var was := view;
      NextRequest();
      ghost var served := current;
      step := Rests;
      if current.Some? {
        ghost var r, st := requests[current.value], Slaves();
        var status := HandleRequest(answer);
        step := Serves(served.value, status);
        Mirrored(r, config.slaves, status, was.mem, st);
      }
      if current.None? {
        ClearAllLocks();
      }
      view := Apply(config, was, step);
    }

    /** The slow memory's process at a rising clock edge. */
    method RisingEdge()
      requires Valid() && view.rising
      modifies this`view, slow`waitCount
      ensures Valid() && view == Apply(config, old(view), Rises)
    {
      slow.WaitLoop();
      view := Apply(config, view, Rises);
    }

    /** The direct interface writes without a bus cycle. */
    method DirectWrite(data: int, address: nat) returns (ok: bool)
      requires Valid()
      modifies this`view, this`others, this`stamp, slow.mem
      ensures ok <==> Enabled(config, old(view), SimpleBus.DirectWrite(address, data))
      ensures Valid()
      ensures view == if ok then Apply(config, old(view), SimpleBus.DirectWrite(address, data)) else old(view)
    {
      if address % WORD != 0 {
        return false;
      }
      var slave := GetSlave(address);
      if slave == |config.slaves| {
        return false;
      }
      hide SlaveOf, Mirrors;
      PutMirrors(view.mem, Slaves(), address, data);
      if slave == config.slow {
        slow.DirectWrite(data, address);
      } else {
        others := others[address := data];
      }
      assert Slaves() == Put(old(Slaves()), address, data);
      stamp := stamp + 1;
      view := Apply(config, view, SimpleBus.DirectWrite(address, data));
      return true;
    }
  }

  /** The answer to a request in terms of the model's memory. */
  lemma Mirrored(r: Request, slaves: seq<Slave>, status: Status, mem: map<nat, int>, st: Store)
    requires Attached(st) && Mirrors(mem, st) && st.slaves == slaves
    ensures Handled(r, slaves, status, Load(mem, r.address)) == Handled(r, slaves, status, Cell(st, r.address))
    ensures r.address % WORD == 0 ==> Mirrors(mem[r.address := Word(r)], Put(st, r.address, Word(r)))
  {
    hide SlaveOf, Cell, Put;
    if r.address % WORD == 0 {
      PutMirrors(mem, st, r.address, Word(r));
    }
  }
}
