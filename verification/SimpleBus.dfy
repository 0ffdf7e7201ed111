/** The simple bus: masters leave requests, one per priority; each bus cycle moves at most
    one word of the request that the arbiter picks.  A burst can be pre-empted between
    words.  Addresses are 32-bit and wrap.  One slave may be a slow memory; the answers of
    the others are given, cycle by cycle.
 */
module SimpleBus {
  import opened Basics

  datatype Status = Okay | Requested | Waiting | Error

  datatype Lock = LockNo | LockSet | LockGranted

  /** A word moved between place `word` of the master's buffer and an address. */
  datatype Transfer = Transfer(word: nat, address: nat, write: bool)

  /** `data` is the place in the master's buffer.  The last fields only observe: the burst as it
      was requested, the words a slave has accepted for it, its lock right after the request, the
      cycles of other requests that have ended before it was first served, and the number of
      memory writes before the request. */
  datatype Request = Request(
    priority: nat, doWrite: bool, address: nat, endAddress: nat, data: nat, buffer: seq<int>,
    lock: Lock, status: Status,
    asked: bool, start: nat, length: nat, moved: seq<Transfer>, grade: Lock, endings: nat, since: nat)

  datatype Slave = Slave(startAddress: nat, endAddress: nat)

  datatype Bus = Bus(requests: seq<Request>, current: Option<nat>)

  const WORD: nat := 4

  const SPACE: nat := 0x1_0000_0000

  function NewRequest(priority: nat): Request {
    Request(priority, false, 0, 0, 0, [], LockNo, Okay, false, 0, 0, [], LockNo, 0, 0)
  }

  // ----- the masters' side ------------------------------------------------

  /** The place of the request with this priority, or the length of the table. */
  function PlaceOf(rs: seq<Request>, priority: nat): (i: nat)
    ensures i <= |rs|
    ensures i < |rs| ==> rs[i].priority == priority
    ensures forall j :: 0 <= j < i ==> rs[j].priority != priority
  {
    if rs == [] || rs[0].priority == priority then 0 else 1 + PlaceOf(rs[1..], priority)
  }

  function WithRequest(rs: seq<Request>, priority: nat): (r: seq<Request>)
    ensures PlaceOf(rs, priority) < |r|
    ensures |rs| <= |r|
  {
    if PlaceOf(rs, priority) < |rs| then rs else rs + [NewRequest(priority)]
  }

  /** The 32-bit end address of a burst; a length of zero wraps below the start. */
  function EndAddress(start: nat, length: nat): nat { (start + (length - 1) * WORD) % SPACE }

  function LockAsked(lock: Lock, wanted: bool): (r: Lock)
    ensures wanted ==> r != LockNo && (r == LockGranted <==> lock == LockSet)
    ensures !wanted ==> r == lock
  {
    if !wanted then lock else if lock == LockSet then LockGranted else LockSet
  }

  /** What a master asks for: a burst of `length` words from or to its buffer; a single read or
      write is a burst of one. */
  datatype Job = Job(write: bool, start: nat, length: nat, lock: bool, buffer: seq<int>)

  function Ask(b: Bus, priority: nat, job: Job, since: nat): Bus {
    var rs := WithRequest(b.requests, priority);
    var i := PlaceOf(b.requests, priority);
    var r := rs[i];
    var lock := LockAsked(r.lock, job.lock);
    b.(requests := rs[i := r.(
      doWrite := job.write, address := job.start, endAddress := EndAddress(job.start, job.length),
      data := 0, buffer := job.buffer, lock := lock, status := Requested,
      asked := true, start := job.start, length := job.length, moved := [],
      grade := lock, endings := 0, since := since)])
  }

  predicate Idle(b: Bus, priority: nat) {
    var i := PlaceOf(b.requests, priority);
    i < |b.requests| ==> b.requests[i].status == Okay || b.requests[i].status == Error
  }

  // ----- arbitration ------------------------------------------------------

  predicate IsPending(r: Request) { r.status == Requested || r.status == Waiting }

  /** Rule 1: a burst that is under way with its lock set; rule 2: a granted lock. */
  predicate FitsRule(r: Request, rule: nat) {
    IsPending(r) && (if rule == 1 then r.status == Waiting && r.lock == LockSet else r.lock == LockGranted)
  }

  /** The first place from i on that fits a rule, or the length of the table. */
  function FirstFit(rs: seq<Request>, rule: nat, i: nat): (k: nat)
    requires i <= |rs|
    ensures i <= k <= |rs|
    ensures k < |rs| ==> FitsRule(rs[k], rule)
    ensures forall j :: i <= j < k ==> !FitsRule(rs[j], rule)
    decreases |rs| - i
  {
    if i == |rs| || FitsRule(rs[i], rule) then i else FirstFit(rs, rule, i + 1)
  }

  /** Rule 3: the pending request of highest priority, that is, of smallest number. */
  predicate IsBest(rs: seq<Request>, k: nat) {
    k < |rs| && IsPending(rs[k]) &&
    forall j :: 0 <= j < |rs| && IsPending(rs[j]) ==> rs[k].priority <= rs[j].priority
  }

  /** The arbiter's choice, as a relation: the three rules in turn. */
  predicate Chosen(rs: seq<Request>, k: nat) {
    var k1 := FirstFit(rs, 1, 0);
    var k2 := FirstFit(rs, 2, 0);
    if k1 < |rs| then k == k1 else if k2 < |rs| then k == k2 else IsBest(rs, k)
  }

  /** The table after the choice: rule 3 grants the lock that was asked for. */
  function Granted(rs: seq<Request>, k: nat): (r: seq<Request>)
    requires k < |rs|
    ensures |r| == |rs|
  {
    if FirstFit(rs, 1, 0) < |rs| || FirstFit(rs, 2, 0) < |rs| || rs[k].lock == LockNo then rs
    else rs[k := rs[k].(lock := LockGranted)]
  }

  /** With one request per priority the rules pick exactly one pending request. */
  lemma ChoiceIsUnique(rs: seq<Request>, k: nat, k': nat)
    requires forall i, j :: 0 <= i < j < |rs| ==> rs[i].priority != rs[j].priority
    requires Chosen(rs, k) && Chosen(rs, k')
    ensures k == k' < |rs| && IsPending(rs[k])
  {
    if FirstFit(rs, 1, 0) == |rs| && FirstFit(rs, 2, 0) == |rs| {
      assert rs[k].priority == rs[k'].priority;
    }
  }

  // ----- a bus cycle ------------------------------------------------------

  /** The first slave that covers an address, or the number of slaves. */
  function SlaveOf(slaves: seq<Slave>, address: nat): (i: nat)
    ensures i <= |slaves|
    ensures i < |slaves| ==> slaves[i].startAddress <= address <= slaves[i].endAddress
    ensures forall j :: 0 <= j < i ==> !(slaves[j].startAddress <= address <= slaves[j].endAddress)
  {
    if slaves == [] || slaves[0].startAddress <= address <= slaves[0].endAddress then 0
    else 1 + SlaveOf(slaves[1..], address)
  }

  predicate Mapped(slaves: seq<Slave>, address: nat) { SlaveOf(slaves, address) < |slaves| }

  /** The buffer after a word is moved; a read puts the slave's value there. */
  function Filled(r: Request, value: int): seq<int> {
    if !r.doWrite && r.data < |r.buffer| then r.buffer[r.data := value] else r.buffer
  }

  /** The current request after its slave answered, to a read with `value`; the flag says whether it
      keeps the bus. */
  function Handled(r: Request, slaves: seq<Slave>, answer: Status, value: int): (Request, bool) {
    if r.address % WORD != 0 || !Mapped(slaves, r.address) then (r.(status := Error), false)
    else match answer
      case Error => (r.(status := Error), false)
      case Okay =>
        var address := (r.address + WORD) % SPACE;
        (r.(address := address, data := r.data + 1, buffer := Filled(r, value),
            status := if address > r.endAddress then Okay else Waiting,
            moved := r.moved + [Transfer(r.data, r.address, r.doWrite)]), false)
      case _ => (r.(status := Waiting), true)
  }

  function LockAfter(lock: Lock): Lock { if lock == LockGranted then LockSet else LockNo }

  /** A request at the end of a bus cycle. */
  function Unlocked(r: Request): Request {
    r.(lock := LockAfter(r.lock), endings := if r.status == Requested then r.endings + 1 else r.endings)
  }

  function ClearLocks(rs: seq<Request>): (r: seq<Request>)
    ensures |r| == |rs|
    ensures forall i :: 0 <= i < |rs| ==> r[i] == Unlocked(rs[i])
  {
    if rs == [] then [] else [Unlocked(rs[0])] + ClearLocks(rs[1..])
  }

  predicate SomePending(rs: seq<Request>) { exists i :: 0 <= i < |rs| && IsPending(rs[i]) }

  /** The request of a cycle: the current one, or the one chosen. */
  predicate Served(b: Bus, k: nat) {
    && k < |b.requests|
    && if b.current.Some? then k == b.current.value else SomePending(b.requests) && Chosen(b.requests, k)
  }

  /** The table in which request k is served. */
  function Table(b: Bus, k: nat): (rs: seq<Request>)
    requires k < |b.requests|
    ensures |rs| == |b.requests| && rs[k] == b.requests[k].(lock := rs[k].lock)
    ensures forall i :: 0 <= i < |rs| && i != k ==> rs[i] == b.requests[i]
  {
    if b.current.Some? then b.requests else Granted(b.requests, k)
  }

  /** The cycle that serves request k. */
  function Serve(b: Bus, k: nat, slaves: seq<Slave>, answer: Status, value: int): Bus
    requires Served(b, k)
  {
    var rs := Table(b, k);
    var (r, keeps) := Handled(rs[k], slaves, answer, value);
    var rs' := rs[k := r];
    if keeps then Bus(rs', Some(k)) else Bus(ClearLocks(rs'), None)
  }

  /** A cycle with nothing to serve. */
  predicate Resting(b: Bus) { b.current.None? && !SomePending(b.requests) }

  function Rest(b: Bus): Bus { Bus(ClearLocks(b.requests), None) }

  // ----- the slow memory --------------------------------------------------

  /** A slave call with wait count w: it answers Okay only at zero, and a negative count
      starts a new access. */
  function CallAnswer(w: int): Status { if w == 0 then Okay else Waiting }

  function CountAfterCall(w: int, waitStates: nat): int { if w < 0 then waitStates else w }

  /** The count after a rising clock edge. */
  function CountAfterEdge(w: int): int { if w >= 0 then w - 1 else w }

  // ----- runs -------------------------------------------------------------

  /** The slaves, which of them is a slow memory (if any), and its wait states. */
  datatype Config = Config(slaves: seq<Slave>, slow: nat, waitStates: nat)

  /** An access to the slow memory: the bus cycle of its first call, and for what. */
  datatype Access = Access(cycle: nat, k: nat, address: nat)

  /** A write to memory, by a request or by the direct interface. */
  datatype Write = Write(address: nat, writer: Option<nat>)

  /** The bus with its memory and the slow memory's wait count.  Bus cycles are on falling clock
      edges and the count goes down on rising ones, so `rising` says which comes next.
      `cycle` counts bus cycles, `first` is the slow memory's access in progress, and
      `writes` are the writes so far; these only observe. */
  datatype Sys = Sys(
    bus: Bus, mem: map<nat, int>, count: int, rising: bool,
    cycle: nat, first: Option<Access>, writes: seq<Write>)

  const INITIAL := Sys(Bus([], None), map[], -1, false, 0, None, [])

  /** Memory is zero where nothing was written. */
  function Load(mem: map<nat, int>, address: nat): int { if address in mem then mem[address] else 0 }

  /** The word that a write burst moves next. */
  function Word(r: Request): int { if r.data < |r.buffer| then r.buffer[r.data] else 0 }

  datatype Step =
    | Asks(priority: nat, job: Job)
    | Serves(k: nat, answer: Status)
    | Rests
    | Rises
    | DirectWrite(address: nat, value: int)

  /** Serving this request calls the slow memory. */
  predicate CallsSlow(c: Config, r: Request) {
    r.address % WORD == 0 && c.slow < |c.slaves| && SlaveOf(c.slaves, r.address) == c.slow
  }

  /** A master asks only when its last request has ended. */
  predicate Enabled(c: Config, s: Sys, step: Step) {
    match step
    case Asks(priority, job) => Idle(s.bus, priority) && job.start < SPACE && job.length < SPACE
    case Serves(k, answer) =>
      !s.rising && Served(s.bus, k) && (CallsSlow(c, s.bus.requests[k]) ==> answer == CallAnswer(s.count))
    case Rests => !s.rising && Resting(s.bus)
    case Rises => s.rising
    case DirectWrite(address, _) => address % WORD == 0 && Mapped(c.slaves, address)
  }

  /** The slave has accepted a word to write. */
  predicate Stores(c: Config, r: Request, answer: Status) {
    r.doWrite && answer == Okay && r.address % WORD == 0 && Mapped(c.slaves, r.address)
  }

  function Stored(c: Config, s: Sys, k: nat, answer: Status): Sys
    requires k < |s.bus.requests|
  {
    var r := s.bus.requests[k];
    if Stores(c, r, answer) then
      s.(mem := s.mem[r.address := Word(r)], writes := s.writes + [Write(r.address, Some(k))])
    else s
  }

  function Counted(c: Config, s: Sys, k: nat, answer: Status): Sys
    requires k < |s.bus.requests|
  {
    var r := s.bus.requests[k];
    if CallsSlow(c, r) then
      s.(count := CountAfterCall(s.count, c.waitStates),
         first := if answer == Okay then None
                  else if s.first.None? then Some(Access(s.cycle, k, r.address)) else s.first)
    else s
  }

  function Apply(c: Config, s: Sys, step: Step): Sys
    requires Enabled(c, s, step)
  {
    match step
    case Asks(priority, job) => s.(bus := Ask(s.bus, priority, job, |s.writes|))
    case Serves(k, answer) =>
      var value := Load(s.mem, s.bus.requests[k].address);
      Counted(c, Stored(c, s, k, answer), k, answer)
        .(bus := Serve(s.bus, k, c.slaves, answer, value), rising := true, cycle := s.cycle + 1)
    case Rests => s.(bus := Rest(s.bus), rising := true, cycle := s.cycle + 1)
    case Rises => s.(count := CountAfterEdge(s.count), rising := false)
    case DirectWrite(address, value) =>
      s.(mem := s.mem[address := value], writes := s.writes + [Write(address, None)])
  }

  predicate IsRun(c: Config, s: Sys, steps: seq<Step>)
    decreases |steps|
  {
    steps == [] || (Enabled(c, s, steps[0]) && IsRun(c, Apply(c, s, steps[0]), steps[1..]))
  }

  function Execute(c: Config, s: Sys, steps: seq<Step>): Sys
    requires IsRun(c, s, steps)
    decreases |steps|
  {
    if steps == [] then s else Execute(c, Apply(c, s, steps[0]), steps[1..])
  }

  // ----- the invariant ----------------------------------------------------

  function AddressAt(start: nat, k: nat): nat { (start + k * WORD) % SPACE }

  /** The words of a burst: word k at four times k past the start, in 32 bits. */
  function Words(start: nat, write: bool, n: nat): (r: seq<Transfer>)
    ensures |r| == n
    ensures forall k :: 0 <= k < n ==> r[k] == Transfer(k, AddressAt(start, k), write)
  {
    if n == 0 then [] else Words(start, write, n - 1) + [Transfer(n - 1, AddressAt(start, n - 1), write)]
  }

  /** The address after n words is past the end. */
  predicate Past(start: nat, endAddress: nat, n: nat) { AddressAt(start, n) > endAddress }

  /** A request has moved the words of its burst up to the first address past the end. */
  ghost predicate GoodRequest(r: Request) {
    r.asked ==>
      && r.start < SPACE && r.endAddress == EndAddress(r.start, r.length)
      && r.moved == Words(r.start, r.doWrite, |r.moved|)
      && r.data == |r.moved| && r.address == AddressAt(r.start, |r.moved|)
      && (r.moved != [] ==> r.start % WORD == 0)
      && (forall n :: 1 <= n < |r.moved| ==> !Past(r.start, r.endAddress, n))
      && (r.status == Okay <==> r.moved != [] && Past(r.start, r.endAddress, |r.moved|))
  }

  ghost predicate Inv(b: Bus) {
    && (forall i :: 0 <= i < |b.requests| ==>
                      GoodRequest(b.requests[i]) && (IsPending(b.requests[i]) ==> b.requests[i].asked))
    && (forall i, j :: 0 <= i < j < |b.requests| ==> b.requests[i].priority != b.requests[j].priority)
    && (b.current.Some? ==> b.current.value < |b.requests| && b.requests[b.current.value].status == Waiting)
  }

  lemma AskKeeps(b: Bus, priority: nat, job: Job, since: nat)
    requires Inv(b) && Idle(b, priority) && job.start < SPACE
    ensures Inv(Ask(b, priority, job, since))
  {
    hide EndAddress;
  }

  lemma NextAddress(start: nat, n: nat)
    ensures (AddressAt(start, n) + WORD) % SPACE == AddressAt(start, n + 1)
    ensures start < SPACE ==> AddressAt(start, 0) == start
  {
    var x := start + n * WORD;
    Remainder(x, x / SPACE, x % SPACE);
    if x % SPACE + WORD < SPACE {
      Remainder(x + WORD, x / SPACE, x % SPACE + WORD);
    } else {
      Remainder(x + WORD, x / SPACE + 1, x % SPACE + WORD - SPACE);
      Remainder(x % SPACE + WORD, 1, x % SPACE + WORD - SPACE);
    }
  }

  lemma Remainder(x: int, q: int, r: int)
    requires x == q * SPACE + r && 0 <= r < SPACE
    ensures x % SPACE == r
  {
  }

  lemma NextWords(start: nat, write: bool, n: nat)
    ensures Words(start, write, n) + [Transfer(n, AddressAt(start, n), write)] == Words(start, write, n + 1)
  {
  }

  /** A slave's answer moves the next word of the burst or none. */
  lemma HandledKeeps(r: Request, slaves: seq<Slave>, answer: Status, value: int)
    requires GoodRequest(r) && IsPending(r) && r.asked
    ensures var (r', keeps) := Handled(r, slaves, answer, value);
            GoodRequest(r') && r'.asked && r'.priority == r.priority && (keeps ==> r'.status == Waiting)
  {
    hide EndAddress, SlaveOf, AddressAt, Words;
    NextAddress(r.start, |r.moved|);
    NextWords(r.start, r.doWrite, |r.moved|);
  }

  lemma UpdateKeeps(rs: seq<Request>, k: nat, r: Request)
    requires k < |rs| && Inv(Bus(rs, None)) && GoodRequest(r) && r.asked && r.priority == rs[k].priority
    ensures Inv(Bus(rs[k := r], None))
  {
    hide GoodRequest;
  }

  lemma GrantedKeeps(rs: seq<Request>, k: nat)
    requires k < |rs| && Inv(Bus(rs, None)) && IsPending(rs[k])
    ensures Inv(Bus(Granted(rs, k), None)) && IsPending(Granted(rs, k)[k])
  {
    hide FirstFit, Words, Past, EndAddress, AddressAt;
  }

  lemma ServedIsPending(b: Bus, k: nat)
    requires Inv(b) && Served(b, k)
    ensures IsPending(b.requests[k])
  {
  }

  lemma ClearKeeps(rs: seq<Request>)
    requires Inv(Bus(rs, None))
    ensures Inv(Bus(ClearLocks(rs), None))
  {
    hide Words, Past, EndAddress, AddressAt;
  }

  /** A bus cycle keeps every burst as it should be, whichever request is served. */
  lemma ServeKeeps(b: Bus, k: nat, slaves: seq<Slave>, answer: Status, value: int)
    requires Inv(b) && Served(b, k)
    ensures Inv(Serve(b, k, slaves, answer, value))
  {
    hide Handled, GoodRequest, ClearLocks, Granted, Chosen;
    ServedIsPending(b, k);
    assert Inv(Bus(b.requests, None));
    GrantedKeeps(b.requests, k);
    var rs := Table(b, k);
    var (r, keeps) := Handled(rs[k], slaves, answer, value);
    HandledKeeps(rs[k], slaves, answer, value);
    UpdateKeeps(rs, k, r);
    ClearKeeps(rs[k := r]);
  }

  lemma StepKeeps(c: Config, s: Sys, step: Step)
    requires Inv(s.bus) && Enabled(c, s, step)
    ensures Inv(Apply(c, s, step).bus)
  {
    hide Chosen, Serve, Ask, GoodRequest, Resting, Stored, Counted;
    match step
    case Asks(priority, job) => AskKeeps(s.bus, priority, job, |s.writes|);
    case Serves(k, answer) => ServeKeeps(s.bus, k, c.slaves, answer, Load(s.mem, s.bus.requests[k].address));
    case Rests => RestKeeps(s.bus);
    case Rises =>
    case DirectWrite(_, _) =>
  }

  lemma RestKeeps(b: Bus)
    requires Inv(b) && Resting(b)
    ensures Inv(Rest(b))
  {
    hide GoodRequest, ClearLocks;
    assert Inv(Bus(b.requests, None));
    ClearKeeps(b.requests);
  }

  lemma {:induction false} RunKeeps(c: Config, s: Sys, steps: seq<Step>)
    requires Inv(s.bus) && IsRun(c, s, steps)
    ensures Inv(Execute(c, s, steps).bus)
    decreases |steps|
  {
    hide Inv, Enabled, Apply;
    if steps != [] {
      StepKeeps(c, s, steps[0]);
      RunKeeps(c, Apply(c, s, steps[0]), steps[1..]);
    }
  }

  /** A request fails exactly if its address is no word address, no slave covers it, or the slave
      says so; and then, as while the slave lets it wait, it moves nothing. */
  lemma ErrorExactly(r: Request, slaves: seq<Slave>, answer: Status, value: int)
    ensures var r' := Handled(r, slaves, answer, value).0;
            var reached :=
              && r.address % WORD == 0
              && exists i :: 0 <= i < |slaves| && slaves[i].startAddress <= r.address <= slaves[i].endAddress;
            && (r'.status == Error <==> !reached || answer == Error)
            && |r'.moved| == |r.moved| + (if reached && answer == Okay then 1 else 0)
  {
  }

  // ----- exact bursts -----------------------------------------------------

  /** A burst that the address space can hold with an address to spare. */
  predicate Fits(start: nat, length: nat) { length >= 1 && start + length * WORD < SPACE }

  /** All words of the burst and no other, at four bytes' distance from the start on. */
  ghost predicate Exact(r: Request) {
    |r.moved| == r.length && forall k :: 0 <= k < r.length ==> r.moved[k] == Transfer(k, r.start + k * WORD, r.doWrite)
  }

  lemma NoWrap(start: nat, k: nat)
    requires start + k * WORD < SPACE
    ensures AddressAt(start, k) == start + k * WORD
  {
  }

  lemma FitsEnd(start: nat, length: nat)
    requires Fits(start, length)
    ensures EndAddress(start, length) == start + (length - 1) * WORD
  {
  }

  /** A burst that fits passes its end with its last word and not before. */
  lemma FitsPast(r: Request, n: nat)
    requires Fits(r.start, r.length) && r.endAddress == EndAddress(r.start, r.length) && n <= r.length
    ensures Past(r.start, r.endAddress, n) <==> n == r.length
  {
    FitsEnd(r.start, r.length);
    NoWrap(r.start, n);
  }

  lemma FittingBurst(r: Request)
    requires GoodRequest(r) && r.asked && Fits(r.start, r.length)
    ensures |r.moved| <= r.length && (r.status == Okay <==> |r.moved| == r.length)
    ensures forall k :: 0 <= k < |r.moved| ==> r.moved[k] == Transfer(k, r.start + k * WORD, r.doWrite)
  {
    FitsPast(r, r.length);
    if |r.moved| <= r.length {
      FitsPast(r, |r.moved|);
    }
    forall k | 0 <= k < |r.moved|
      ensures r.moved[k] == Transfer(k, r.start + k * WORD, r.doWrite)
    {
      NoWrap(r.start, k);
    }
  }

  lemma ExactFits(r: Request)
    requires GoodRequest(r) && r.asked && r.status == Okay && Exact(r)
    ensures Fits(r.start, r.length)
  {
    var last := r.length - 1;
    assert r.moved[last].address == AddressAt(r.start, last) == r.start + last * WORD;
    assert Past(r.start, r.endAddress, r.length);
  }

  /** In every run, whatever was asked for and interleaved: a request's transfers are words of
      its burst in order, once each; a burst that has ended well has moved exactly its words
      if and only if it fits the address space; and one that fits ends well exactly when all
      of them are moved. */
  lemma BurstsAreExact(c: Config, steps: seq<Step>, i: nat)
    requires IsRun(c, INITIAL, steps)
    requires var b := Execute(c, INITIAL, steps).bus; i < |b.requests| && b.requests[i].asked
    ensures var r := Execute(c, INITIAL, steps).bus.requests[i];
            && (forall k :: 0 <= k < |r.moved| ==> r.moved[k] == Transfer(k, AddressAt(r.start, k), r.doWrite))
            && (r.status == Okay ==> (Exact(r) <==> Fits(r.start, r.length)))
            && (Fits(r.start, r.length) ==>
                  && |r.moved| <= r.length && (r.status == Okay <==> |r.moved| == r.length)
                  && forall k :: 0 <= k < |r.moved| ==> r.moved[k].address == r.start + k * WORD)
  {
    RunKeeps(c, INITIAL, steps);
    var r := Execute(c, INITIAL, steps).bus.requests[i];
    if Fits(r.start, r.length) {
      FittingBurst(r);
    } else if r.status == Okay && Exact(r) {
      ExactFits(r);
    }
  }

  /** Where an aligned burst ends: never, if its end is the last word of the address space;
      with the word at its end, if that is not below the start; else after its first word,
      except that a burst from the last word goes on from address zero. */
  lemma WhereBurstsEnd(c: Config, steps: seq<Step>, i: nat)
    requires IsRun(c, INITIAL, steps)
    requires var b := Execute(c, INITIAL, steps).bus;
             i < |b.requests| && b.requests[i].asked && b.requests[i].start % WORD == 0
    ensures var r := Execute(c, INITIAL, steps).bus.requests[i];
            && (r.endAddress == SPACE - WORD ==> r.status != Okay)
            && (r.status == Okay ==>
                  |r.moved| == if r.start <= r.endAddress then (r.endAddress - r.start) / WORD + 1
                               else if r.start < SPACE - WORD then 1
                               else r.endAddress / WORD + 2)
  {
    RunKeeps(c, INITIAL, steps);
    EndedAt(Execute(c, INITIAL, steps).bus.requests[i]);
  }

  lemma WordWraps(x: int, y: int)
    requires x == y * WORD
    ensures (x % SPACE) % WORD == 0
  {
    var q := x / SPACE;
    assert x % SPACE == (y - q * 0x4000_0000) * WORD;
  }

  lemma Aligned(start: nat, length: nat, n: nat)
    requires start % WORD == 0
    ensures EndAddress(start, length) % WORD == 0 && EndAddress(start, length) < SPACE
    ensures AddressAt(start, n) % WORD == 0 && AddressAt(start, n) < SPACE
  {
    var m := start / WORD;
    WordWraps(start + (length - 1) * WORD, m + length - 1);
    WordWraps(start + n * WORD, m + n);
  }

  lemma EndedAt(r: Request)
    requires GoodRequest(r) && r.asked && r.start % WORD == 0
    ensures r.endAddress == SPACE - WORD ==> r.status != Okay
    ensures r.status == Okay ==>
              |r.moved| == if r.start <= r.endAddress then (r.endAddress - r.start) / WORD + 1
                           else if r.start < SPACE - WORD then 1
                           else r.endAddress / WORD + 2
  {
    hide EndAddress, AddressAt, Words;
    var n := |r.moved|;
    Aligned(r.start, r.length, n);
    if r.status == Okay {
      if r.start <= r.endAddress {
        FirstPastAbove(r, n, (r.endAddress - r.start) / WORD + 1);
      } else if r.start < SPACE - WORD {
        NoWrap(r.start, 1);
        assert Past(r.start, r.endAddress, 1);
      } else {
        FirstPastBelow(r, n, r.endAddress / WORD + 2);
      }
    }
  }

  lemma FirstPastAbove(r: Request, n: nat, m: nat)
    requires r.start % WORD == 0 == r.endAddress % WORD && r.start <= r.endAddress < SPACE
    requires m == (r.endAddress - r.start) / WORD + 1
    requires n >= 1 && Past(r.start, r.endAddress, n) && forall k :: 1 <= k < n ==> !Past(r.start, r.endAddress, k)
    ensures n == m
  {
    assert r.endAddress < SPACE - WORD;
    NoWrap(r.start, m);
    assert Past(r.start, r.endAddress, m);
    forall k | 1 <= k < m
      ensures !Past(r.start, r.endAddress, k)
    {
      NoWrap(r.start, k);
    }
  }

  lemma FirstPastBelow(r: Request, n: nat, m: nat)
    requires r.start == SPACE - WORD && r.endAddress % WORD == 0 && r.endAddress < r.start
    requires m == r.endAddress / WORD + 2
    requires n >= 1 && Past(r.start, r.endAddress, n) && forall k :: 1 <= k < n ==> !Past(r.start, r.endAddress, k)
    ensures n == m
  {
    assert AddressAt(r.start, m) == (m - 1) * WORD;
    assert Past(r.start, r.endAddress, m);
    assert forall k :: 1 <= k < m ==> AddressAt(r.start, k) == (k - 1) * WORD;
  }

  /** The request after up to n further answers, all of them Okay. */
  function Answered(r: Request, slaves: seq<Slave>, n: nat): Request
    decreases n
  {
    if n == 0 || !IsPending(r) then r else Answered(Handled(r, slaves, Okay, 0).0, slaves, n - 1)
  }

  lemma {:induction false} AnsweredKeeps(r: Request, slaves: seq<Slave>, n: nat)
    requires GoodRequest(r) && r.asked
    ensures var e := Answered(r, slaves, n);
            GoodRequest(e) && e.asked && e.start == r.start && e.length == r.length && e.doWrite == r.doWrite
    decreases n
  {
    hide GoodRequest;
    if n > 0 && IsPending(r) {
      HandledKeeps(r, slaves, Okay, 0);
      AnsweredKeeps(Handled(r, slaves, Okay, 0).0, slaves, n - 1);
    }
  }

  lemma {:induction false} FittingBurstEnds(r: Request, slaves: seq<Slave>, n: nat)
    requires GoodRequest(r) && IsPending(r) && r.asked && Fits(r.start, r.length) && r.start % WORD == 0
    requires forall k :: 0 <= k < r.length ==> Mapped(slaves, AddressAt(r.start, k))
    requires |r.moved| + n == r.length
    ensures |Answered(r, slaves, n).moved| == r.length
    decreases n
  {
    hide GoodRequest, Mapped;
    FittingBurst(r);
    MappedNext(r, slaves);
    var r' := Handled(r, slaves, Okay, 0).0;
    HandledKeeps(r, slaves, Okay, 0);
    FittingBurst(r');
    if n > 1 {
      FittingBurstEnds(r', slaves, n - 1);
    }
  }

  lemma MappedNext(r: Request, slaves: seq<Slave>)
    requires GoodRequest(r) && r.asked && Fits(r.start, r.length) && r.start % WORD == 0 && |r.moved| < r.length
    requires forall k :: 0 <= k < r.length ==> Mapped(slaves, AddressAt(r.start, k))
    ensures r.address % WORD == 0 && Mapped(slaves, r.address)
  {
    NoWrap(r.start, |r.moved|);
  }

  /** An aligned burst on mapped addresses whose slave always answers Okay ends well after
      exactly its words if and only if it fits the address space. */
  lemma ExactIffFits(r: Request, slaves: seq<Slave>)
    requires GoodRequest(r) && r.asked && r.status == Requested && r.moved == [] && r.start % WORD == 0
    requires forall k :: 0 <= k < r.length ==> Mapped(slaves, AddressAt(r.start, k))
    ensures var e := Answered(r, slaves, r.length);
            e.status == Okay && Exact(e) <==> Fits(r.start, r.length)
  {
    hide GoodRequest;
    var e := Answered(r, slaves, r.length);
    AnsweredKeeps(r, slaves, r.length);
    if Fits(r.start, r.length) {
      FittingBurstEnds(r, slaves, r.length);
      FittingBurst(e);
    } else if e.status == Okay && Exact(e) {
      ExactFits(e);
    }
  }

  lemma {:induction false} Extend(c: Config, s: Sys, steps: seq<Step>, step: Step)
    requires IsRun(c, s, steps) && Enabled(c, Execute(c, s, steps), step)
    ensures IsRun(c, s, steps + [step])
    ensures Execute(c, s, steps + [step]) == Apply(c, Execute(c, s, steps), step)
    decreases |steps|
  {
    hide Enabled, Apply;
    if steps == [] {
      assert ([] + [step])[1..] == [];
    } else {
      Extend(c, Apply(c, s, steps[0]), steps[1..], step);
      assert (steps + [step])[1..] == steps[1..] + [step];
    }
  }

  /** A run with a burst of one at the last word of the address space: the word is moved and
      the burst goes on. */
  lemma LastWordRun()
    ensures var c := Config([Slave(0, SPACE - 1)], 1, 0);
            var steps := [Asks(1, Job(false, SPACE - WORD, 1, false, [])), Serves(0, Okay)];
            && IsRun(c, INITIAL, steps)
            && var rs := Execute(c, INITIAL, steps).bus.requests;
               && |rs| == 1
               && var r := rs[0];
                  r.status == Waiting && r.moved == [Transfer(0, SPACE - WORD, false)] && r.address == 0
  {
    var c := Config([Slave(0, SPACE - 1)], 1, 0);
    OneBurst(c, [Asks(1, Job(false, SPACE - WORD, 1, false, [])), Serves(0, Okay)]);
  }

  /** A run with a burst of three from the last but one: its end address wraps, and it ends
      well after one word. */
  lemma WrappedEndRun()
    ensures var c := Config([Slave(0, SPACE - 1)], 1, 0);
            var steps := [Asks(1, Job(false, SPACE - 2 * WORD, 3, false, [])), Serves(0, Okay)];
            && IsRun(c, INITIAL, steps)
            && var rs := Execute(c, INITIAL, steps).bus.requests;
               && |rs| == 1
               && var r := rs[0];
                  r.status == Okay && r.moved == [Transfer(0, SPACE - 2 * WORD, false)] && r.length == 3
  {
    var c := Config([Slave(0, SPACE - 1)], 1, 0);
    OneBurst(c, [Asks(1, Job(false, SPACE - 2 * WORD, 3, false, [])), Serves(0, Okay)]);
  }

  /** The first word of the only burst. */
  lemma OneBurst(c: Config, steps: seq<Step>)
    requires |steps| == 2 && steps[0].Asks? && steps[1] == Serves(0, Okay)
    requires var j := steps[0].job;
             !j.lock && j.start < SPACE && j.length < SPACE && j.start % WORD == 0 && Mapped(c.slaves, j.start)
    requires c.slow >= |c.slaves|
    ensures IsRun(c, INITIAL, steps) && |Execute(c, INITIAL, steps).bus.requests| == 1
    ensures var r, j := Execute(c, INITIAL, steps).bus.requests[0], steps[0].job;
            && r.start == j.start && r.length == j.length
            && r.moved == [Transfer(0, r.start, j.write)] && r.address == (r.start + WORD) % SPACE
            && r.status == if r.address > EndAddress(r.start, r.length) then Okay else Waiting
  {
    var s1 := Apply(c, INITIAL, steps[0]);
    assert |s1.bus.requests| == 1 && IsPending(s1.bus.requests[0]) && s1.bus.requests[0].lock == LockNo;
    assert FirstFit(s1.bus.requests, 1, 0) == 1 && FirstFit(s1.bus.requests, 2, 0) == 1;
    assert Chosen(s1.bus.requests, 0);
    var s2 := Apply(c, s1, steps[1]);
    assert steps[1..] == [steps[1]] && steps[1..][1..] == [];
    assert IsRun(c, s1, steps[1..]);
    assert Execute(c, s1, steps[1..]) == s2;
  }
}
