/** The update phase: channels that requested an update sit on an intrusive list,
    linked through the very field that marks them as requested.  Updates may
    request further updates while the list is being processed.
 */
module UpdatePhase {

  /** A channel's link: not requested, last on the list, or followed by a channel. */
  datatype Link = Null | ListEnd | To(ch: Channel)

  class Channel {
    var next: Link

    constructor ()
      ensures next == Null
    {
      next := Null;
    }
  }

  // ----- what the update phase means --------------------------------------

  /** A request is dropped if the channel is already listed, or still to be updated. */
  function Request<T(==)>(pending: seq<T>, busy: seq<T>, ch: T): seq<T> {
    if ch in pending || ch in busy then pending else [ch] + pending
  }

  function RequestAll<T(==)>(pending: seq<T>, busy: seq<T>, chs: seq<T>): seq<T>
    decreases |chs|
  {
    if chs == [] then pending else RequestAll(Request(pending, busy, chs[0]), busy, chs[1..])
  }

  /** The next list once the first k channels of the batch are updated; channel c
      requests `script(c)` in its update and stays busy until that is over. */
  function NextList<T(==)>(batch: seq<T>, script: T -> seq<T>, k: nat): seq<T>
    requires k <= |batch|
  {
    if k == 0 then []
    else RequestAll(NextList(batch, script, k - 1), batch[k - 1..], script(batch[k - 1]))
  }

  ghost predicate Distinct<T>(s: seq<T>) {
    forall i, j :: 0 <= i < j < |s| ==> s[i] != s[j]
  }

  lemma {:induction false} RequestAllMembers<T>(pending: seq<T>, busy: seq<T>, chs: seq<T>)
    ensures forall c :: c in RequestAll(pending, busy, chs) <==> c in pending || (c in chs && c !in busy)
    ensures Distinct(pending) ==> Distinct(RequestAll(pending, busy, chs))
    decreases |chs|
  {
    if chs != [] {
      RequestAllMembers(Request(pending, busy, chs[0]), busy, chs[1..]);
      assert forall c :: c in chs <==> c == chs[0] || c in chs[1..];
    }
  }

  lemma NextListStep<T>(batch: seq<T>, script: T -> seq<T>, k: nat)
    requires k < |batch|
    ensures NextList(batch, script, 0) == []
    ensures NextList(batch, script, k + 1) == RequestAll(NextList(batch, script, k), batch[k..], script(batch[k]))
  {
  }

  lemma {:induction false} RequestAllAppend<T>(pending: seq<T>, busy: seq<T>, chs: seq<T>, ch: T)
    ensures RequestAll(pending, busy, chs + [ch]) == Request(RequestAll(pending, busy, chs), busy, ch)
    decreases |chs|
  {
    if chs == [] {
      assert [] + [ch] == [ch] && [ch][1..] == [];
    } else {
      assert (chs + [ch])[1..] == chs[1..] + [ch];
      RequestAllAppend(Request(pending, busy, chs[0]), busy, chs[1..], ch);
    }
  }

  ghost predicate RequestedMeanwhile<T>(batch: seq<T>, script: T -> seq<T>, k: nat, c: T) {
    exists i :: 0 <= i < k && i < |batch| && c in script(batch[i]) && c !in batch[i..]
  }

  /** The next list holds, once each, exactly the channels that some update requested
      when they were not queued or had already been updated. */
  lemma {:induction false} NextListMembers<T>(batch: seq<T>, script: T -> seq<T>, k: nat)
    requires k <= |batch|
    ensures Distinct(NextList(batch, script, k))
    ensures forall c :: c in NextList(batch, script, k) <==> RequestedMeanwhile(batch, script, k, c)
  {
    if k > 0 {
      NextListMembers(batch, script, k - 1);
      RequestAllMembers(NextList(batch, script, k - 1), batch[k - 1..], script(batch[k - 1]));
      forall c
        ensures RequestedMeanwhile(batch, script, k, c)
            <==> RequestedMeanwhile(batch, script, k - 1, c) || (c in script(batch[k - 1]) && c !in batch[k - 1..])
      {
        if RequestedMeanwhile(batch, script, k, c) {
          var i :| 0 <= i < k && c in script(batch[i]) && c !in batch[i..];
          assert i == k - 1 || i < k - 1;
        }
      }
    }
  }

  // ----- the registry -----------------------------------------------------

  ghost predicate Linked(first: Link, s: seq<Channel>)
    reads s
  {
    && first == (if s == [] then ListEnd else To(s[0]))
    && forall i {:trigger s[i].next} :: 0 <= i < |s| ==> s[i].next == if i + 1 < |s| then To(s[i + 1]) else ListEnd
  }

  class Registry {
    var updateList: Link
    var updated: seq<Channel>           // the updates performed so far, in order
    ghost var channels: set<Channel>
    ghost var pending: seq<Channel>     // the channels on the list

    /** The list is well formed, and a channel's link is set exactly if it is on the
        list or in `busy`, the unprocessed part of a batch. */
    ghost predicate Valid(busy: seq<Channel>)
      reads this, channels
    {
      && (forall c :: c in pending ==> c in channels && c !in busy)
      && (forall c :: c in busy ==> c in channels)
      && Distinct(pending) && Distinct(busy)
      && Linked(updateList, pending)
      && (forall c :: c in channels ==> (c.next != Null <==> c in pending || c in busy))
    }

    constructor (ghost chs: set<Channel>)
      requires forall c :: c in chs ==> c.next == Null
      ensures Valid([]) && channels == chs && pending == [] && updated == []
    {
      updateList := ListEnd;
      updated := [];
      channels, pending := chs, [];
    }

    method RequestUpdate(ch: Channel, ghost busy: seq<Channel>)
      requires Valid(busy) && ch in channels
      modifies this`updateList, this`pending, ch
      ensures Valid(busy) && pending == Request(old(pending), busy, ch)
      ensures ch in busy ==> ch.next == old(ch.next)
    {
      if ch.next == Null {
        ch.next := updateList;
        updateList := To(ch);
        pending := [ch] + pending;
      }
    }

    method RequestEach(chs: seq<Channel>, ghost busy: seq<Channel>)
      requires Valid(busy) && forall c :: c in chs ==> c in channels
      modifies this`updateList, this`pending, channels
      ensures Valid(busy) && pending == RequestAll(old(pending), busy, chs)
      ensures forall c :: c in busy ==> c.next == old(c.next)
    {
      var i := 0;
      while i < |chs|
        invariant 0 <= i <= |chs|
        invariant Valid(busy)
        invariant RequestAll(pending, busy, chs[i..]) == RequestAll(old(pending), busy, chs)
        invariant forall c :: c in busy ==> c.next == old(c.next)
      {
        assert chs[i..][1..] == chs[i + 1..] && chs[i] in chs;
        RequestUpdate(chs[i], busy);
        i := i + 1;
      }
      assert chs[i..] == [];
    }

    /** Updates the first channel of the unprocessed batch; it stays marked as requested
        until its update is over.  Returns the link to the next channel. */
    method UpdateFirst(ch: Channel, script: Channel -> seq<Channel>, ghost rest: seq<Channel>) returns (next: Link)
      requires rest != [] && Linked(To(ch), rest) && Valid(rest)
      requires forall d :: d in script(ch) ==> d in channels
      modifies this`updateList, this`pending, this`updated, channels
      ensures Linked(next, rest[1..]) && Valid(rest[1..])
      ensures pending == RequestAll(old(pending), rest, script(ch))
      ensures updated == old(updated) + [ch]
    {
      hide RequestAll;
      assert ch in rest && ch !in rest[1..];
      next := ch.next;
      RequestEach(script(ch), rest);
      ch.next := Null;
      updated := updated + [ch];
      assert forall c :: c in rest <==> c == ch || c in rest[1..];
      assert Linked(updateList, pending);
      forall i | 0 <= i < |rest[1..]|
        ensures rest[1..][i].next == if i + 1 < |rest[1..]| then To(rest[1..][i + 1]) else ListEnd
      {
        assert rest[1..][i] == rest[i + 1] && rest[i + 1] in rest;
        assert rest[i + 1].next == old(rest[i + 1].next);
      }
    }

    /** Updates a batch, first to last, from an empty list. */
    method UpdateBatch(first: Link, script: Channel -> seq<Channel>, ghost batch: seq<Channel>)
      requires Linked(first, batch) && Valid(batch) && pending == []
      requires forall c, d :: c in channels && d in script(c) ==> d in channels
      modifies this`updateList, this`pending, this`updated, channels
      ensures Valid([]) && updated == old(updated) + batch && pending == NextList(batch, script, |batch|)
    {
      assert NextList(batch, script, 0) == [];
      hide RequestAll, NextList;
      ghost var k := 0;
      var now := first;
      assert batch[0..] == batch;
      while now != ListEnd
        invariant 0 <= k <= |batch|
        invariant Linked(now, batch[k..]) && Valid(batch[k..])
        invariant pending == NextList(batch, script, k)
        invariant updated == old(updated) + batch[..k]
        decreases |batch| - k
      {
        hide Linked, Valid;
        BatchStep(now, batch, k);
        NextListStep(batch, script, k);
        now := UpdateFirst(now.ch, script, batch[k..]);
        k := k + 1;
      }
      assert batch[k..] == [] && batch[..k] == batch;
    }

    lemma BatchStep(now: Link, batch: seq<Channel>, k: nat)
      requires k <= |batch| && Linked(now, batch[k..]) && Valid(batch[k..]) && now != ListEnd
      ensures k < |batch| && now == To(batch[k]) && batch[k] in channels && batch[k..] != []
      ensures batch[k..][1..] == batch[k + 1..] && batch[..k] + [batch[k]] == batch[..k + 1]
    {
      assert batch[k..] != [] ==> batch[k..][0] in batch[k..];
    }

    /** `asyncs` are the requests accepted from outside the simulator; `script(c)` are
        the channels that c requests while it is updated. */
    method PerformUpdate(asyncs: seq<Channel>, script: Channel -> seq<Channel>)
      requires Valid([])
      requires forall c :: c in asyncs ==> c in channels
      requires forall c, d :: c in channels && d in script(c) ==> d in channels
      modifies this`updateList, this`pending, this`updated, channels
      ensures Valid([])
      ensures var batch := RequestAll(old(pending), [], asyncs);
              && updated == old(updated) + batch
              && pending == NextList(batch, script, |batch|)
    {
      hide RequestAll, NextList;
      RequestEach(asyncs, []);
      ghost var batch := pending;
      var now := updateList;
      updateList := ListEnd;
      pending := [];
      UpdateBatch(now, script, batch);
    }
  }
}
