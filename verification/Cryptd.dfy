/**
  The crypto queue with its backlog cursor, and the cryptd thread that serves it. Requests are
  numbered; a queue holds up to max_qlen of them, and beyond that only those that may backlog,
  which are told so and told again when they move up.

  The locked section of the thread, its two callbacks and every enqueueing are separate steps, so
  requests may arrive between them.
*/
module Cryptd {
  import opened Options

  const EINPROGRESS := 115
  const EBUSY := 16

  // ---------------------------------------------------------------------------
  // The queue
  // ---------------------------------------------------------------------------

  ghost predicate Distinct(s: seq<nat>) {
    forall i, j :: 0 <= i < j < |s| ==> s[i] != s[j]
  }

  /** The request behind `r` in the list, or the head. */
  method After(list: seq<nat>, r: nat, ghost i: nat) returns (n: Option<nat>)
    requires i < |list| && list[i] == r && Distinct(list)
    ensures n == if i + 1 < |list| then Some(list[i + 1]) else None
  {
    var k := 0;
    while list[k] != r
      invariant k <= i
      decreases i - k
    {
      k := k + 1;
    }
    n := if k + 1 < |list| then Some(list[k + 1]) else None;
  }

  class Queue {
    const maxQlen: nat
    var list: seq<nat>
    var qlen: nat
    var backlog: Option<nat>   // None is the list head

    constructor (maxQlen: nat)
      ensures Valid() && this.maxQlen == maxQlen && list == []
    {
      this.maxQlen := maxQlen;
      list, qlen, backlog := [], 0, None;
    }

    /** The cursor is the first request beyond the limit. */
    ghost predicate Valid()
      reads this
    {
      && qlen == |list| && Distinct(list)
      && backlog == if |list| > maxQlen then Some(list[maxQlen]) else None
    }

    /** crypto_enqueue_request. */
    method Enqueue(r: nat, mayBacklog: bool) returns (err: int)
      requires Valid() && r !in list
      modifies this`list, this`qlen, this`backlog
      ensures Valid() && err == if old(|list|) >= maxQlen then -EBUSY else -EINPROGRESS
      ensures list == if err == -EBUSY && !mayBacklog then old(list) else old(list) + [r]
    {
      err := -EINPROGRESS;
      if qlen >= maxQlen {
        err := -EBUSY;
        if !mayBacklog {
          return;
        }
        if backlog.None? {
          backlog := Some(r);
        }
      }
      qlen := qlen + 1;
      list := list + [r];
    }

    /** crypto_dequeue_request. */
    method Dequeue() returns (r: Option<nat>)
      requires Valid()
      modifies this`list, this`qlen, this`backlog
      ensures Valid() && (r.None? <==> old(list) == []) && (r.None? ==> list == [])
      ensures r.Some? ==> old(list) == [r.value] + list
    {
      if qlen == 0 {
        return None;
      }
      qlen := qlen - 1;
      if backlog.Some? {
        backlog := After(list, backlog.value, maxQlen);
      }
      r := Some(list[0]);
      list := list[1..];
    }
  }

  // ---------------------------------------------------------------------------
  // What the callers see
  // ---------------------------------------------------------------------------

  /** An accepted request and whether it was told -EBUSY. */
  datatype Accepted = Accepted(id: nat, busy: bool)

  /** A call of the caller's completion function. */
  datatype Event = Progress(id: nat) | Complete(id: nat, err: int)

  function Ids(s: seq<Accepted>): (r: seq<nat>)
    ensures |r| == |s|
  {
    seq(|s|, i requires 0 <= i < |s| => s[i].id)
  }

  /** The backlogged ones, in order. */
  function BusyIds(s: seq<Accepted>): seq<nat> {
    if s == [] then []
    else
      var x := s[|s| - 1];
      BusyIds(s[..|s| - 1]) + if x.busy then [x.id] else []
  }

  /** The completed requests, in order. */
  function Completed(e: seq<Event>): seq<nat> {
    if e == [] then []
    else
      var x := e[|e| - 1];
      Completed(e[..|e| - 1]) + if x.Complete? then [x.id] else []
  }

  /** The requests that were told they are in progress, in order. */
  function Told(e: seq<Event>): seq<nat> {
    if e == [] then []
    else
      var x := e[|e| - 1];
      Told(e[..|e| - 1]) + if x.Progress? then [x.id] else []
  }

  lemma {:induction false} EventExtend(e: seq<Event>, x: Event)
    ensures Completed(e + [x]) == Completed(e) + if x.Complete? then [x.id] else []
    ensures Told(e + [x]) == Told(e) + if x.Progress? then [x.id] else []
  {
    assert (e + [x])[..|e|] == e;
  }

  lemma {:induction false} BusyExtend(s: seq<Accepted>, x: Accepted)
    ensures BusyIds(s + [x]) == BusyIds(s) + if x.busy then [x.id] else []
  {
    assert (s + [x])[..|s|] == s;
  }

  lemma {:induction false} BusyMember(s: seq<Accepted>, i: nat)
    requires i < |s| && s[i].busy
    ensures s[i].id in BusyIds(s)
  {
    var n := |s| - 1;
    if i < n {
      BusyMember(s[..n], i);
    }
  }

  lemma {:induction false} ToldMember(e: seq<Event>, id: nat)
    requires id in Told(e)
    ensures Progress(id) in e
  {
    var n := |e| - 1;
    if e[n] != Progress(id) {
      ToldMember(e[..n], id);
    }
  }

  /** A backlogged request is told before it is completed. */
  ghost predicate ToldFirst(acc: seq<Accepted>, e: seq<Event>) {
    forall i, k :: 0 <= i < |acc| && 0 <= k < |e| && acc[i].busy && e[k].Complete? && e[k].id == acc[i].id ==>
      Progress(acc[i].id) in e[..k]
  }

  function Min(a: nat, b: nat): nat {
    if a < b then a else b
  }

  // ---------------------------------------------------------------------------
  // The thread
  // ---------------------------------------------------------------------------

  /** Where cryptd_thread is: before the locked section, or holding what it took out there. */
  datatype Thread = Idle | Took(backlog: Option<nat>, req: nat)

  /** The queue is what has been accepted and has not left; all beyond the limit are backlogged. */
  ghost predicate QueueOk(max: nat, list: seq<nat>, acc: seq<Accepted>, served: nat) {
    && served <= |acc| && Distinct(Ids(acc)) && list == Ids(acc)[served..]
    && (forall j :: served + max <= j < |acc| ==> acc[j].busy)
  }

  /** What has left is completed, in order, but for the one in hand. */
  ghost predicate DoneOk(acc: seq<Accepted>, served: nat, thread: Thread, events: seq<Event>) {
    && served <= |acc| && Completed(events) + (if thread.Took? then [thread.req] else []) == Ids(acc)[..served]
    && ToldFirst(acc, events)
  }

  /** The backlogged requests that have come within the limit have been told so, in order, but
      for the one in hand. */
  ghost predicate ToldOk(max: nat, acc: seq<Accepted>, served: nat, thread: Thread, events: seq<Event>) {
    Told(events) + (if thread.Took? && thread.backlog.Some? then [thread.backlog.value] else [])
      == BusyIds(acc[..Min(served + max, |acc|)])
  }

  lemma {:induction false} CompletedMember(e: seq<Event>, k: nat)
    requires k < |e| && e[k].Complete?
    ensures e[k].id in Completed(e)
  {
    var n := |e| - 1;
    if k < n {
      CompletedMember(e[..n], k);
    }
  }

  lemma {:induction false} EnqueueOk(max: nat, list: seq<nat>, acc: seq<Accepted>, served: nat, thread: Thread,
                                     events: seq<Event>, x: Accepted)
    requires QueueOk(max, list, acc, served) && DoneOk(acc, served, thread, events)
    requires ToldOk(max, acc, served, thread, events)
    requires x.id !in Ids(acc) && (x.busy <==> |list| >= max)
    ensures var acc' := acc + [x];
      && QueueOk(max, list + [x.id], acc', served) && DoneOk(acc', served, thread, events)
      && ToldOk(max, acc', served, thread, events)
  {
    hide Completed, Told, BusyIds;
    var acc' := acc + [x];
    assert Ids(acc') == Ids(acc) + [x.id];
    AcceptBusy(acc, x, served + max);
    forall i, k | 0 <= i < |acc'| && 0 <= k < |events| && acc'[i].busy
        && events[k].Complete? && events[k].id == acc'[i].id
      ensures Progress(acc'[i].id) in events[..k]
    {
      CompletedMember(events, k);
      var all := Completed(events) + if thread.Took? then [thread.req] else [];
      assert events[k].id in all && all == Ids(acc)[..served];
      assert events[k].id in Ids(acc);
      assert i < |acc|;
    }
  }

  lemma {:induction false} AcceptBusy(acc: seq<Accepted>, x: Accepted, limit: nat)
    requires x.busy <==> |acc| >= limit
    ensures BusyIds((acc + [x])[..Min(limit, |acc| + 1)]) == BusyIds(acc[..Min(limit, |acc|)])
  {
    var acc' := acc + [x];
    if limit <= |acc| {
      assert acc'[..limit] == acc[..limit];
    } else {
      assert acc'[..|acc| + 1] == acc' && acc[..|acc|] == acc;
      BusyExtend(acc, x);
    }
  }

  /** The first request leaves: the window moves on by one, over the request under the cursor. */
  lemma {:induction false} FetchOk(max: nat, list: seq<nat>, acc: seq<Accepted>, served: nat, events: seq<Event>)
    requires QueueOk(max, list, acc, served) && DoneOk(acc, served, Idle, events)
    requires ToldOk(max, acc, served, Idle, events)
    requires list != []
    ensures var thread := Took(if |list| > max then Some(list[max]) else None, list[0]);
      && QueueOk(max, list[1..], acc, served + 1) && DoneOk(acc, served + 1, thread, events)
      && ToldOk(max, acc, served + 1, thread, events)
  {
    hide Completed, Told, ToldFirst, BusyIds, Distinct;
    assert Ids(acc)[..served + 1] == Ids(acc)[..served] + [list[0]];
    assert list[1..] == Ids(acc)[served + 1..];
    var w := served + max;
    if w < |acc| {
      assert acc[..w + 1] == acc[..w] + [acc[w]];
      BusyExtend(acc[..w], acc[w]);
      assert list[max] == acc[w].id;
    }
  }

  lemma {:induction false} NotifyOk(max: nat, acc: seq<Accepted>, served: nat, b: nat, r: nat, events: seq<Event>)
    requires DoneOk(acc, served, Took(Some(b), r), events) && ToldOk(max, acc, served, Took(Some(b), r), events)
    ensures var e := events + [Progress(b)];
      DoneOk(acc, served, Took(None, r), e) && ToldOk(max, acc, served, Took(None, r), e)
  {
    hide Completed, Told, BusyIds, Ids;
    EventExtend(events, Progress(b));
    var e := events + [Progress(b)];
    assert forall k :: 0 <= k <= |events| ==> e[..k] == events[..k];
    assert Completed(e) == Completed(events) + [];
    assert Told(e) + [] == Told(e);
  }

  lemma {:induction false} FinishOk(max: nat, acc: seq<Accepted>, served: nat, r: nat, events: seq<Event>, err: int)
    requires Distinct(Ids(acc)) && DoneOk(acc, served, Took(None, r), events)
    requires ToldOk(max, acc, served, Took(None, r), events)
    ensures var e := events + [Complete(r, err)];
      DoneOk(acc, served, Idle, e) && ToldOk(max, acc, served, Idle, e)
  {
    hide Completed, Told, BusyIds;
    EventExtend(events, Complete(r, err));
    var e := events + [Complete(r, err)];
    assert Told(e) == Told(events) + [] && Completed(e) + [] == Completed(e);
    var all := Completed(events) + [r];
    assert all[|all| - 1] == Ids(acc)[served - 1];
    forall i, k | 0 <= i < |acc| && 0 <= k < |e| && acc[i].busy && e[k].Complete? && e[k].id == acc[i].id
      ensures Progress(acc[i].id) in e[..k]
    {
      if k < |events| {
        assert e[..k] == events[..k];
      } else {
        assert e[..k] == events && Ids(acc)[i] == r;
        assert i == served - 1;
        BusyMember(acc[..Min(served + max, |acc|)], i);
        assert Told(events) == Told(events) + [];
        ToldMember(events, r);
      }
    }
  }

  class Daemon {
    const queue: Queue
    var thread: Thread
    ghost var acc: seq<Accepted>   // all requests accepted so far
    ghost var served: nat          // how many of them have left the queue
    ghost var events: seq<Event>   // calls of the callers' completion functions

    constructor (maxQlen: nat)
      ensures Valid() && fresh(queue) && queue.maxQlen == maxQlen && acc == [] && events == []
    {
      queue := new Queue(maxQlen);
      thread, acc, served, events := Idle, [], 0, [];
    }

    ghost predicate Valid()
      reads this, queue
    {
      && queue.Valid() && QueueOk(queue.maxQlen, queue.list, acc, served)
      && DoneOk(acc, served, thread, events) && ToldOk(queue.maxQlen, acc, served, thread, events)
    }

    /** cryptd_blkcipher_enqueue. Requests are numbered as they are submitted: one that is submitted again
        after its completion has a new number. */
    method Enqueue(r: nat, mayBacklog: bool) returns (err: int)
      requires Valid() && r !in Ids(acc)
      modifies this, queue
      ensures Valid() && events == old(events) && thread == old(thread)
      ensures err == if |old(queue.list)| >= queue.maxQlen then -EBUSY else -EINPROGRESS
      ensures acc == if err == -EBUSY && !mayBacklog then old(acc) else old(acc) + [Accepted(r, err == -EBUSY)]
    {
      hide DoneOk, ToldOk;
      ghost var list := queue.list;
      err := queue.Enqueue(r, mayBacklog);
      if err == -EBUSY && !mayBacklog {
        return;
      }
      ghost var x := Accepted(r, err == -EBUSY);
      EnqueueOk(queue.maxQlen, list, acc, served, thread, events, x);
      acc := acc + [x];
    }

    /** The locked section of cryptd_thread. */
    method Fetch()
      requires Valid() && thread.Idle?
      modifies this, queue
      ensures Valid() && events == old(events) && acc == old(acc)
      ensures thread.Idle? <==> old(queue.list) == []
    {
      hide DoneOk, ToldOk, QueueOk;
      var backlog := queue.backlog;
      ghost var list := queue.list;
      var req := queue.Dequeue();
      if req.Some? {
        FetchOk(queue.maxQlen, list, acc, served, events);
        thread := Took(backlog, req.value);
        served := served + 1;
      }
    }

    /** backlog->complete(backlog, -EINPROGRESS), which cryptd_blkcipher_crypt hands on. */
    method Notify()
      requires Valid() && thread.Took? && thread.backlog.Some?
      modifies this
      ensures Valid() && acc == old(acc) && thread == Took(None, old(thread.req))
      ensures events == old(events) + [Progress(old(thread.backlog.value))]
    {
      hide DoneOk, ToldOk, QueueOk;
      NotifyOk(queue.maxQlen, acc, served, thread.backlog.value, thread.req, events);
      events := events + [Progress(thread.backlog.value)];
      thread := Took(None, thread.req);
    }

    /** req->complete(req, 0): the request is processed, with result `err`, and completed. */
    method Finish(err: int)
      requires Valid() && thread.Took? && thread.backlog.None?
      modifies this
      ensures Valid() && acc == old(acc) && thread == Idle && events == old(events) + [Complete(old(thread.req), err)]
    {
      hide DoneOk, ToldOk;
      FinishOk(queue.maxQlen, acc, served, thread.req, events, err);
      events := events + [Complete(thread.req, err)];
      thread := Idle;
    }
  }

  // ---------------------------------------------------------------------------
  // What holds over every run
  // ---------------------------------------------------------------------------

  /** Completions are a prefix of the acceptances: once each, in the order of arrival. */
  lemma {:induction false} CompletedInOrder(d: Daemon)
    requires d.Valid()
    ensures Completed(d.events) <= Ids(d.acc)
    ensures d.thread.Idle? && d.queue.list == [] ==> Completed(d.events) == Ids(d.acc)
  {
    var c, ids := Completed(d.events), Ids(d.acc);
    var all := c + if d.thread.Took? then [d.thread.req] else [];
    assert c == all[..|c|];
    assert d.thread.Idle? ==> c == all;
    assert ids[..d.served][..|c|] == ids[..|c|];
  }

  /** The requests told -EINPROGRESS are a prefix of those told -EBUSY: once each and no others. */
  lemma {:induction false} ToldInOrder(d: Daemon)
    requires d.Valid()
    ensures Told(d.events) <= BusyIds(d.acc)
    ensures d.thread.Idle? && d.queue.list == [] ==> Told(d.events) == BusyIds(d.acc)
  {
    hide Told, Completed;
    var w := Min(d.served + d.queue.maxQlen, |d.acc|);
    BusyPrefix(d.acc, w);
    assert d.thread.Idle? ==> Told(d.events) + [] == Told(d.events);
    assert d.acc[..|d.acc|] == d.acc;
  }

  lemma {:induction false} BusyPrefix(s: seq<Accepted>, w: nat)
    requires w <= |s|
    ensures BusyIds(s[..w]) <= BusyIds(s)
  {
    if w < |s| {
      var n := |s| - 1;
      BusyPrefix(s[..n], w);
      assert s[..n][..w] == s[..w];
    } else {
      assert s[..w] == s;
    }
  }
}
