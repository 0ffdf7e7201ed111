/** The primitive FIFO channel.  Reads and writes take effect on the buffer at once but
    become visible to the other side only in the update phase: a value cannot be read
    in the delta cycle that writes it, nor its place reused in the one that reads it.
 */
module ScFifo {
  import opened Basics

  // ----- the delta-delayed queue ------------------------------------------

  /** `visible` can be read now; `taken` values were read and `staged` ones written in this
      delta cycle.  `readers` and `writers` count processes blocked in `read` and `write`;
      `readLog` and `writeLog` are histories. */
  datatype Queue<T> = Queue(
    capacity: nat, visible: seq<T>, taken: nat, staged: seq<T>,
    readers: nat, writers: nat, readLog: seq<T>, writeLog: seq<T>)

  function NumAvailable<T>(q: Queue<T>): nat { |q.visible| }

  function NumFree<T>(q: Queue<T>): int { q.capacity - (|q.visible| + q.taken) - |q.staged| }

  function Take<T>(q: Queue<T>): Queue<T>
    requires q.visible != []
  {
    q.(visible := q.visible[1..], taken := q.taken + 1, readLog := q.readLog + [q.visible[0]])
  }

  function Stage<T>(q: Queue<T>, v: T): Queue<T> {
    q.(staged := q.staged + [v], writeLog := q.writeLog + [v])
  }

  /** The update phase followed by the delta notifications it made: a read wakes the
      blocked writers and a write wakes the blocked readers. */
  function Commit<T>(q: Queue<T>): Queue<T> {
    q.(visible := q.visible + q.staged, taken := 0, staged := [],
       writers := if q.taken > 0 then 0 else q.writers,
       readers := if |q.staged| > 0 then 0 else q.readers)
  }

  /** A blocking call that cannot proceed adds a blocked process; a woken process makes
      its call again, as a new step. */
  datatype Step<T> = NbRead | NbWrite(v: T) | Read | Write(v: T) | EndDelta

  function Apply<T>(q: Queue<T>, step: Step<T>): Queue<T> {
    match step
    case NbRead => if NumAvailable(q) == 0 then q else Take(q)
    case NbWrite(v) => if NumFree(q) == 0 then q else Stage(q, v)
    case Read => if NumAvailable(q) == 0 then q.(readers := q.readers + 1) else Take(q)
    case Write(v) => if NumFree(q) == 0 then q.(writers := q.writers + 1) else Stage(q, v)
    case EndDelta => Commit(q)
  }

  function Execute<T>(q: Queue<T>, steps: seq<Step<T>>): Queue<T>
    decreases |steps|
  {
    if steps == [] then q else Execute(Apply(q, steps[0]), steps[1..])
  }

  function Empty<T>(capacity: nat): Queue<T> { Queue(capacity, [], 0, [], 0, 0, [], []) }

  ghost predicate Inv<T>(q: Queue<T>) {
    && q.writeLog == q.readLog + q.visible + q.staged
    && NumFree(q) >= 0
    && (q.readers > 0 ==> NumAvailable(q) == 0)
    && (q.writers > 0 ==> NumFree(q) == 0)
  }

  lemma StepKeeps<T>(q: Queue<T>, step: Step<T>)
    requires Inv(q)
    ensures Inv(Apply(q, step))
  {
    match step
    case EndDelta => assert q.readLog + (q.visible + q.staged) + [] == q.readLog + q.visible + q.staged;
    case NbRead =>
      if q.visible != [] {
        assert q.readLog + [q.visible[0]] + q.visible[1..] == q.readLog + q.visible;
      }
    case Read =>
      if q.visible != [] {
        assert q.readLog + [q.visible[0]] + q.visible[1..] == q.readLog + q.visible;
      }
    case NbWrite(v) => assert q.readLog + q.visible + (q.staged + [v]) == q.readLog + q.visible + q.staged + [v];
    case Write(v) => assert q.readLog + q.visible + (q.staged + [v]) == q.readLog + q.visible + q.staged + [v];
  }

  lemma {:induction false} RunKeeps<T>(q: Queue<T>, steps: seq<Step<T>>)
    requires Inv(q)
    ensures Inv(Execute(q, steps)) && Execute(q, steps).capacity == q.capacity
    decreases |steps|
  {
    if steps != [] {
      StepKeeps(q, steps[0]);
      RunKeeps(Apply(q, steps[0]), steps[1..]);
    }
  }

  /** Over every run: reads are a prefix of writes and what lies between is in the buffer,
      never more than its capacity; values written in this delta cycle have not been read;
      and no process stays blocked once there is data, or space, for it. */
  lemma ReadsFollowWrites<T>(capacity: nat, steps: seq<Step<T>>)
    ensures var q := Execute(Empty(capacity), steps);
            && q.writeLog == q.readLog + q.visible + q.staged
            && q.readLog <= q.writeLog[..|q.writeLog| - |q.staged|]
            && |q.writeLog| - |q.readLog| + q.taken <= capacity
            && (q.readers > 0 ==> NumAvailable(q) == 0)
            && (q.writers > 0 ==> NumFree(q) == 0)
  {
    var empty := Empty<T>(capacity);
    assert Inv(empty);
    RunKeeps(empty, steps);
    var q := Execute(empty, steps);
    assert q.writeLog[..|q.writeLog| - |q.staged|] == q.readLog + q.visible;
  }

  // ----- the channel as a ledger ------------------------------------------

  /** An account of a run by counting alone: all values written, how many were read, how many were
      written and read before this delta cycle, and who is blocked. */
  datatype Ledger<T> = Ledger(
    written: seq<T>, read: nat, settled: nat, released: nat, readers: nat, writers: nat)

  /** A read takes the next value written in an earlier delta cycle; a write needs a place that was
      free, or freed, in an earlier one; a delta cycle with a write ends with the blocked
      readers woken, and one with a read with the blocked writers. */
  function Enter<T>(capacity: nat, l: Ledger<T>, step: Step<T>): Ledger<T> {
    match step
    case NbRead => if l.read < l.settled then l.(read := l.read + 1) else l
    case Read => if l.read < l.settled then l.(read := l.read + 1) else l.(readers := l.readers + 1)
    case NbWrite(v) => if |l.written| - l.released < capacity then l.(written := l.written + [v]) else l
    case Write(v) =>
      if |l.written| - l.released < capacity then l.(written := l.written + [v]) else l.(writers := l.writers + 1)
    case EndDelta =>
      l.(settled := |l.written|, released := l.read,
         readers := if |l.written| > l.settled then 0 else l.readers,
         writers := if l.read > l.released then 0 else l.writers)
  }

  function Account<T>(capacity: nat, l: Ledger<T>, steps: seq<Step<T>>): Ledger<T>
    decreases |steps|
  {
    if steps == [] then l else Account(capacity, Enter(capacity, l, steps[0]), steps[1..])
  }

  function Blank<T>(): Ledger<T> { Ledger([], 0, 0, 0, 0, 0) }

  ghost predicate Tells<T>(l: Ledger<T>, q: Queue<T>) {
    && l.released <= l.read <= l.settled <= |l.written|
    && q.writeLog == l.written && q.readLog == l.written[..l.read]
    && q.visible == l.written[l.read..l.settled] && q.staged == l.written[l.settled..]
    && q.taken == l.read - l.released && q.readers == l.readers && q.writers == l.writers
    && |l.written| - l.released <= q.capacity
  }

  lemma EnterTells<T>(l: Ledger<T>, q: Queue<T>, step: Step<T>)
    requires Tells(l, q)
    ensures Tells(Enter(q.capacity, l, step), Apply(q, step)) && Apply(q, step).capacity == q.capacity
  {
    var l' := Enter(q.capacity, l, step);
    match step
    case EndDelta => assert l.written[l.read..] == l.written[l.read..l.settled] + l.written[l.settled..];
    case NbRead => TakeTells(l, q);
    case Read => TakeTells(l, q);
    case NbWrite(v) => StageTells(l, q, v);
    case Write(v) => StageTells(l, q, v);
  }

  lemma TakeTells<T>(l: Ledger<T>, q: Queue<T>)
    requires Tells(l, q)
    ensures q.visible != [] <==> l.read < l.settled
    ensures q.visible != [] ==> Tells(l.(read := l.read + 1), Take(q))
  {
    if q.visible != [] {
      assert l.written[..l.read] + [l.written[l.read]] == l.written[..l.read + 1];
      assert l.written[l.read..l.settled][1..] == l.written[l.read + 1..l.settled];
    }
  }

  lemma StageTells<T>(l: Ledger<T>, q: Queue<T>, v: T)
    requires Tells(l, q)
    ensures NumFree(q) == q.capacity - (|l.written| - l.released)
    ensures NumFree(q) != 0 ==> Tells(l.(written := l.written + [v]), Stage(q, v))
  {
    var w := l.written + [v];
    assert w[..l.read] == l.written[..l.read] && w[l.read..l.settled] == l.written[l.read..l.settled];
    assert w[l.settled..] == l.written[l.settled..] + [v];
  }

  lemma {:induction false} RunTells<T>(l: Ledger<T>, q: Queue<T>, steps: seq<Step<T>>)
    requires Tells(l, q)
    ensures Tells(Account(q.capacity, l, steps), Execute(q, steps)) && Execute(q, steps).capacity == q.capacity
    decreases |steps|
  {
    hide Tells, Enter, Apply;
    if steps != [] {
      EnterTells(l, q, steps[0]);
      RunTells(Enter(q.capacity, l, steps[0]), Apply(q, steps[0]), steps[1..]);
    }
  }

  /** Over every run the channel is what its ledger says: what was written and read, what can be
      read now, how much space there is, and who is blocked. */
  lemma LedgerTells<T>(capacity: nat, steps: seq<Step<T>>)
    ensures var q, l := Execute(Empty(capacity), steps), Account(capacity, Blank(), steps);
            && l.read <= l.settled <= |l.written|
            && q.writeLog == l.written && q.readLog == l.written[..l.read]
            && q.visible == l.written[l.read..l.settled]
            && NumFree(q) == capacity - (|l.written| - l.released)
            && q.readers == l.readers && q.writers == l.writers
  {
    var empty := Empty<T>(capacity);
    assert Tells(Blank(), empty);
    RunTells(Blank(), empty, steps);
    var q, l := Execute(empty, steps), Account(capacity, Blank(), steps);
    assert |q.visible| + q.taken + |q.staged| == |l.written| - l.released;
  }

  lemma {:induction false} ExecuteConcat<T>(q: Queue<T>, steps: seq<Step<T>>, more: seq<Step<T>>)
    ensures Execute(q, steps + more) == Execute(Execute(q, steps), more)
    decreases |steps|
  {
    hide Apply;
    if steps == [] {
      assert steps + more == more;
    } else {
      assert (steps + more)[1..] == steps[1..] + more;
      ExecuteConcat(Apply(q, steps[0]), steps[1..], more);
    }
  }

  function Reads<T>(n: nat): seq<Step<T>> {
    if n == 0 then [] else [NbRead] + Reads(n - 1)
  }

  lemma {:induction false} ReadOn<T>(q: Queue<T>, n: nat)
    requires n <= |q.visible|
    ensures Execute(q, Reads(n)).readLog == q.readLog + q.visible[..n]
    decreases n
  {
    if n == 0 {
      assert q.readLog + q.visible[..0] == q.readLog;
    } else {
      assert Reads<T>(n)[1..] == Reads(n - 1);
      ReadOn(Take(q), n - 1);
      assert [q.visible[0]] + q.visible[1..][..n - 1] == q.visible[..n];
    }
  }

  /** After every run that ends a delta cycle: all that was written and not read can be read, in
      order, in the next one; and all places but theirs are free. */
  lemma WrittenIsReadable<T>(capacity: nat, steps: seq<Step<T>>, n: nat)
    ensures var q := Execute(Empty(capacity), steps + [EndDelta]);
            && q.writeLog == q.readLog + q.visible && NumFree(q) == capacity - |q.visible|
            && q.writeLog == Execute(Empty(capacity), steps).writeLog
            && (n <= |q.visible| ==> Execute(q, Reads(n)).readLog == q.writeLog[..|q.readLog| + n])
  {
    var empty := Empty<T>(capacity);
    var q0 := Execute(empty, steps);
    var q := Execute(empty, steps + [EndDelta]);
    var end: seq<Step<T>> := [EndDelta];
    ExecuteConcat(empty, steps, end);
    assert end[1..] == [] && q == Apply(q0, EndDelta);
    assert Inv(empty);
    RunKeeps(empty, steps);
    assert q0.readLog + (q0.visible + q0.staged) == q0.readLog + q0.visible + q0.staged;
    if n <= |q.visible| {
      ReadOn(q, n);
      assert q.readLog + q.visible[..n] == (q.readLog + q.visible)[..|q.readLog| + n];
    }
  }

  // ----- the circular buffer ----------------------------------------------

  /** x modulo n for an index that has run past the end at most once. */
  lemma Wrapped(x: nat, n: nat)
    requires n > 0 && x < 2 * n
    ensures x % n == if x < n then x else x - n
  {
  }

  class FifoChannel<T(0)> {
    const size: nat
    const buf: array<T>
    var free: nat
    var ri: nat
    var wi: nat
    var numReadable: nat
    var numRead: nat
    var numWritten: nat
    ghost var view: Queue<T>

    /** The k-th buffered value, oldest first, is at this index. */
    function Slot(k: nat): nat
      reads this
    {
      if ri + k < size then ri + k else ri + k - size
    }

    ghost predicate Valid()
      reads this, buf
    {
      && 0 < size == buf.Length == view.capacity
      && free <= size && ri < size && wi == (if free == 0 then ri else Slot(size - free))
      && size - free == |view.visible| + |view.staged|
      && numRead == view.taken && numWritten == |view.staged|
      && numReadable == |view.visible| + view.taken
      && NumFree(view) >= 0
      && (forall k :: 0 <= k < size - free ==> Slot(k) < size && buf[Slot(k)] == (view.visible + view.staged)[k])
    }

    constructor (n: nat)
      requires n > 0
      ensures Valid() && fresh(buf) && view == Empty(n)
    {
      size := n;
      buf := new T[n];
      free, ri, wi := n, 0, 0;
      numReadable, numRead, numWritten := 0, 0, 0;
      view := Empty(n);
    }

    function Available(): int
      reads this
    {
      numReadable - numRead
    }

    function Free(): int
      reads this
    {
      size - numReadable - numWritten
    }

    method BufWrite(v: T) returns (ok: bool)
      requires Valid()
      modifies this`wi, this`free, buf
      ensures ok <==> old(free) > 0
      ensures ok ==> free == old(free) - 1 && wi == (old(wi) + 1) % size && buf[..] == old(buf[..])[old(wi) := v]
      ensures !ok ==> unchanged(this) && buf[..] == old(buf[..])
    {
      if free == 0 {
        return false;
      }
      buf[wi] := v;
      wi := (wi + 1) % size;
      free := free - 1;
      return true;
    }

    /** The entry that is read is overwritten by a default value. */
    method BufRead(blank: T) returns (ok: bool, v: T)
      requires Valid()
      modifies this`ri, this`free, buf
      ensures ok <==> old(free) < size
      ensures ok ==> v == old(buf[ri]) && free == old(free) + 1 && ri == (old(ri) + 1) % size &&
                     buf[..] == old(buf[..])[old(ri) := blank]
      ensures !ok ==> unchanged(this) && buf[..] == old(buf[..])
    {
      if free == size {
        return false, blank;
      }
      v := buf[ri];
      buf[ri] := blank;
      ri := (ri + 1) % size;
      free := free + 1;
      ok := true;
    }

    method NbWrite(v: T) returns (ok: bool)
      requires Valid()
      modifies this, buf
      ensures Valid() && ok == (NumFree(old(view)) != 0)
      ensures view == if ok then Stage(old(view), v) else old(view)
    {
      if Free() == 0 {
        return false;
      }
      ok := BufWrite(v);
      assert ok;
      numWritten := numWritten + 1;
      view := Stage(view, v);
      Wrapped(old(wi) + 1, size);
      forall k | 0 <= k < size - free
        ensures Slot(k) < size && buf[..][Slot(k)] == (view.visible + view.staged)[k]
      {
        if k < size - old(free) {
          assert Slot(k) != old(wi);
          assert (view.visible + view.staged)[k] == (old(view).visible + old(view).staged)[k];
        }
      }
    }

    method NbRead(blank: T) returns (ok: bool, v: T)
      requires Valid()
      modifies this, buf
      ensures Valid() && ok == (NumAvailable(old(view)) != 0)
      ensures ok ==> v == old(view).visible[0]
      ensures view == if ok then Take(old(view)) else old(view)
    {
      if Available() == 0 {
        return false, blank;
      }
      assert Slot(0) == ri && (view.visible + view.staged)[0] == view.visible[0];
      ok, v := BufRead(blank);
      assert ok;
      numRead := numRead + 1;
      view := Take(view);
      Wrapped(old(ri) + 1, size);
      forall k | 0 <= k < size - free
        ensures Slot(k) < size && buf[..][Slot(k)] == (view.visible + view.staged)[k]
      {
        assert Slot(k) == old(Slot(k + 1));
        assert (view.visible + view.staged)[k] == (old(view).visible + old(view).staged)[k + 1];
      }
    }

    /** One turn of the blocking calls: block, or do what the loop exit promises. */
    method ReadOrBlock(blank: T) returns (v: Option<T>)
      requires Valid()
      modifies this, buf
      ensures Valid() && view == Apply(old(view), Read)
      ensures v == if NumAvailable(old(view)) == 0 then None else Some(old(view).visible[0])
    {
      if Available() == 0 {
        view := view.(readers := view.readers + 1);
        return None;
      }
      var ok, x := NbRead(blank);
      assert ok;
      return Some(x);
    }

    method WriteOrBlock(x: T) returns (written: bool)
      requires Valid()
      modifies this, buf
      ensures Valid() && view == Apply(old(view), Write(x))
      ensures written == (NumFree(old(view)) != 0)
    {
      if Free() == 0 {
        view := view.(writers := view.writers + 1);
        return false;
      }
      var ok := NbWrite(x);
      assert ok;
      return true;
    }

    /** `notifyRead` and `notifyWritten` are the events that the update notifies. */
    method Update() returns (notifyRead: bool, notifyWritten: bool)
      requires Valid()
      modifies this
      ensures Valid() && view == Commit(old(view))
      ensures notifyRead == (old(view).taken > 0) && notifyWritten == (|old(view).staged| > 0)
    {
      notifyRead := numRead > 0;
      notifyWritten := numWritten > 0;
      numReadable := size - free;
      numRead := 0;
      numWritten := 0;
      assert (view.visible + view.staged) + [] == view.visible + view.staged;
      view := Commit(view);
    }
  }
}
