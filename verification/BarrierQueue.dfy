/**
  The request queue as the C code has it: one object whose fields are updated in place.
  Every method is proved against the corresponding function of module Barrier, so the
  theorems about runs are theorems about sequences of these calls.
*/
module BarrierQueue {
  import opened Options
  import opened Barrier
  import opened BarrierInv
  import opened BarrierRuns

  class RequestQueue {
    const mode: Mode
    var ordseq: OrdSeq
    var orderr: int
    var ordcolor: bool
    var origBar: nat
    var queueHead: seq<Rq>
    var sorted: set<nat>
    var driver: set<Rq>
    var inFlight: int
    var started: set<Rq>
    var soft: set<Rq>
    var attrs: seq<Attr>
    var done: set<nat>
    var bug: bool

    /** The queue as a value. */
    ghost function State(): Queue
      reads this
    {
      Queue(mode, ordseq, orderr, ordcolor, origBar, queueHead, sorted, driver, inFlight,
            started, soft, attrs, done, bug)
    }

    constructor (m: Mode)
      ensures State() == Init(m)
    {
      mode := m;
      ordseq, orderr, ordcolor, origBar := NO_SEQ, 0, false, 0;
      queueHead, sorted, driver, inFlight := [], {}, {}, 0;
      started, soft, attrs, done, bug := {}, {}, [], {}, false;
    }

    /** blk_ordered_complete_seq */
    method OrderedCompleteSeq(s: nat, error: int) returns (ev: seq<Event>)
      modifies this
      ensures Out(State(), ev) == CompleteSeq(old(State()), s, error)
    {
      if error != 0 && orderr == 0 {
        orderr := error;
      }
      if Bit(ordseq, s) {
        bug := true;
      }
      ordseq := WithBit(ordseq, s);
      if CurSeq(ordseq) != SEQ_DONE {
        return [];
      }
      ordseq := NO_SEQ;
      done := done + {origBar};
      ev := [Ended(origBar, orderr)];
    }

    /** elv_completed_request */
    method ElvCompletedRequest(r: Rq) returns (ev: seq<Event>)
      requires WellTyped(State())
      modifies this
      ensures Out(State(), ev) == ElvCompleted(old(State()), r)
    {
      if r in started && IsFs(r) {
        inFlight := inFlight - 1;
      }
      ev := [];
      if ordseq != NO_SEQ && inFlight == 0 && CurSeq(ordseq) == SEQ_DRAIN {
        if queueHead == [] {
          bug := true;
        } else {
          var first := OrderedReqSeq(queueHead[0]);
          if first > SEQ_DRAIN {
            ev := OrderedCompleteSeq(SEQ_DRAIN, 0);
          }
        }
      }
    }

    /** blk_ordered_req_seq */
    method OrderedReqSeq(r: Rq) returns (s: nat)
      requires HasAttr(State(), r) && origBar < |attrs|
      ensures s == ReqSeq(State(), r)
    {
      match r
      case PreFlush => s := SEQ_PREFLUSH;
      case BarProxy => s := SEQ_BAR;
      case PostFlush => s := SEQ_POSTFLUSH;
      case Fs(id) =>
        s := if attrs[id].colour == attrs[origBar].colour then SEQ_DRAIN else SEQ_DONE;
    }

    /** elv_dequeue_request, for the request at position p */
    method ElvDequeueRequest(p: nat)
      requires WellTyped(State()) && p < |queueHead|
      modifies this`queueHead, this`inFlight
      ensures State() == Dequeued(old(State()), p)
    {
      var r := queueHead[p];
      queueHead := queueHead[..p] + queueHead[p + 1..];
      if r in started && IsFs(r) {
        inFlight := inFlight + 1;
      }
    }

    /** blk_rq_init and elv_insert(ELEVATOR_INSERT_FRONT) for a proxy */
    method QueueProxy(r: Rq)
      requires !r.Fs?
      modifies this`queueHead, this`started, this`soft, this`bug
      ensures queueHead == [r] + old(queueHead)
      ensures started == old(started) - {r} && soft == old(soft) + {r}
      ensures bug <==> old(bug) || r in old(queueHead) || r in driver
    {
      if r in queueHead || r in driver {
        bug := true;
      }
      started := started - {r};
      soft := soft + {r};
      queueHead := [r] + queueHead;
    }

    /** The part of start_ordered that stacks the sequence at the head, last stage first */
    method StackProxies(bar: nat)
      requires bar < |attrs|
      modifies this`queueHead, this`started, this`soft, this`bug, this`ordseq
      ensures queueHead == ProxiesOf(mode, attrs[bar]) + old(queueHead)
      ensures started == old(started) - ProxySet(mode, attrs[bar])
      ensures soft == old(soft) + ProxySet(mode, attrs[bar])
      ensures bug <==> old(bug) || old(InUse(State(), BarProxy))
                       || (mode.preflush && old(InUse(State(), PreFlush)))
                       || (NeedsPost(mode, attrs[bar]) && old(InUse(State(), PostFlush)))
      ensures ordseq == old(ordseq).(pre := old(ordseq.pre) || !mode.preflush,
                                     post := old(ordseq.post) || !NeedsPost(mode, attrs[bar]))
    {
      hide ProxiesOf, ProxySet;
      Stacked(mode, attrs[bar], queueHead, started, soft);
      if mode.postflush && !attrs[bar].empty {
        QueueProxy(PostFlush);
      } else {
        ordseq := ordseq.(post := true);
      }
      QueueProxy(BarProxy);
      if mode.preflush {
        QueueProxy(PreFlush);
      } else {
        ordseq := ordseq.(pre := true);
      }
    }

    /** start_ordered */
    method StartOrdered() returns (ready: bool)
      requires WellTyped(State()) && queueHead != [] && queueHead[0].Fs? && ordseq == NO_SEQ
      modifies this
      ensures (State(), ready) == Barrier.StartOrdered(old(State()))
    {
      hide ProxiesOf, ProxySet, NeedsPost, WellTyped, InUse;
      var bar := queueHead[0].id;
      Unlink();
      StackProxies(bar);
      ready := mode.tag || inFlight == 0;
      if ready {
        ordseq := ordseq.(drain := true);
      }
    }

    /** The first lines of start_ordered: the barrier leaves the list for orig_bar_rq */
    method Unlink()
      requires WellTyped(State()) && queueHead != [] && queueHead[0].Fs?
      modifies this`queueHead, this`inFlight, this`orderr, this`ordseq, this`origBar
      ensures queueHead == old(queueHead)[1..]
      ensures forall p: Rq :: !p.Fs? ==> (InUse(State(), p) <==> old(InUse(State(), p)))
      ensures inFlight == if old(queueHead)[0] in started then old(inFlight) + 1 else old(inFlight)
      ensures orderr == 0 && ordseq == old(ordseq).(started := true) && origBar == old(queueHead)[0].id < |attrs|
    {
      orderr := 0;
      origBar := queueHead[0].id;
      ElvDequeueRequest(0);
      ordseq := ordseq.(started := true);
      assert queueHead == old(queueHead)[1..];
    }

    /** blk_do_ordered on the first request; false means the driver gets nothing */
    method DoOrdered() returns (ok: bool)
      requires WellTyped(State()) && queueHead != []
      modifies this
      ensures (State(), ok) == Barrier.DoOrdered(old(State()))
    {
      var r := queueHead[0];
      var isBarrier := r.BarProxy? || (r.Fs? && attrs[r.id].barrier);
      if ordseq == NO_SEQ {
        if !isBarrier {
          return true;
        }
        if r.Fs? {
          ok := StartOrdered();
          return;
        }
        bug := true;
        return false;
      }
      if mode.tag {
        return !(isBarrier && !r.BarProxy?);
      }
      var s := OrderedReqSeq(r);
      if s < CurSeq(ordseq) {
        bug := true;
      }
      return s <= CurSeq(ordseq);
    }

    /** The walk of elv_insert(ELEVATOR_INSERT_REQUEUE) to the first request that is not earlier */
    method FindRequeuePos(s: nat) returns (p: nat)
      requires WellTyped(State()) && ordseq != NO_SEQ
      ensures p == RequeuePos(State(), s, 0)
    {
      p := 0;
      while p < |queueHead|
        invariant p <= |queueHead| && RequeuePos(State(), s, p) == RequeuePos(State(), s, 0)
      {
        var t := OrderedReqSeq(queueHead[p]);
        if s <= t {
          break;
        }
        p := p + 1;
      }
    }

    /** The place on the list of a request that comes back: by its stage in a sequence, else in front */
    method RequeuePlace(r: Rq) returns (p: nat)
      requires WellTyped(State()) && r in driver
      ensures p == if !Active(State()) then 0 else RequeuePos(State(), ReqSeq(State(), r), 0)
    {
      p := 0;
      if ordseq != NO_SEQ {
        var s := OrderedReqSeq(r);
        p := FindRequeuePos(s);
      }
    }

    /** elv_requeue_request, for a request the driver gives back */
    method ElvRequeueRequest(r: Rq)
      requires WellTyped(State()) && r in driver
      modifies this
      ensures State() == Requeue(old(State()), r)
    {
      hide WellTyped, ReqSeq, Active;
      var p := RequeuePlace(r);
      if r in started && IsFs(r) {
        inFlight := inFlight - 1;
      }
      started := started - {r};
      driver := driver - {r};
      soft := soft + {r};
      queueHead := queueHead[..p] + [r] + queueHead[p..];
    }

    /** The backward walk of elv_dispatch_sort to the place for a request */
    method FindSortPos(id: nat, boundary: nat) returns (p: nat)
      requires WellTyped(State()) && id < |attrs|
      ensures p == SortPos(State(), id, boundary, |queueHead|)
    {
      var rq := attrs[id];
      p := |queueHead|;
      while p > 0
        invariant 0 <= p <= |queueHead|
        invariant SortPos(State(), id, boundary, p) == SortPos(State(), id, boundary, |queueHead|)
      {
        var pos := queueHead[p - 1];
        if !pos.Fs? {
          break;
        }
        var a := attrs[pos.id];
        if rq.write != a.write || a.barrier || pos in soft || pos in started {
          break;
        }
        if rq.sector >= boundary {
          if a.sector < boundary {
            p := p - 1;
            continue;
          }
        } else if a.sector >= boundary {
          break;
        }
        if rq.sector >= a.sector {
          break;
        }
        p := p - 1;
      }
    }

    /** elv_dispatch_sort */
    method ElvDispatchSort(id: nat, boundary: nat)
      requires WellTyped(State()) && id in sorted
      modifies this`sorted, this`queueHead
      ensures State() == Dispatch(old(State()), id, Sort(boundary))
    {
      var p := FindSortPos(id, boundary);
      sorted := sorted - {id};
      queueHead := queueHead[..p] + [Fs(id)] + queueHead[p..];
    }

    /** elv_dispatch_add_tail */
    method ElvDispatchAddTail(id: nat)
      requires WellTyped(State()) && id in sorted
      modifies this`sorted, this`queueHead
      ensures State() == Dispatch(old(State()), id, Tail)
    {
      sorted := sorted - {id};
      queueHead := queueHead + [Fs(id)];
      assert queueHead == InsertAt(old(queueHead), |old(queueHead)|, Fs(id));
    }

    /** The two ways in which a scheduler hands a request over */
    method ElvDispatch(id: nat, how: How)
      requires WellTyped(State()) && id in sorted
      modifies this`sorted, this`queueHead
      ensures State() == Dispatch(old(State()), id, how) && sorted == old(sorted) - {id}
    {
      hide WellTyped;
      match how
      case Sort(boundary) => ElvDispatchSort(id, boundary);
      case Tail => ElvDispatchAddTail(id);
    }

    /** elv_drain_elevator: ask the scheduler for requests until it has none; it picks them and sorts them
        in or adds them at the end as it likes */
    method ElvDrainElevator() returns (ghost order: seq<(nat, How)>)
      requires WellTyped(State())
      modifies this`sorted, this`queueHead
      ensures WellTyped(State()) && sorted == {}
      ensures DrainOrder(old(State()), order) && State() == MoveAll(old(State()), order)
    {
      ghost var q0 := State();
      order := [];
      while sorted != {}
        invariant WellTyped(State()) && CanMove(q0, order) && MoveAll(q0, order) == State()
        decreases sorted
      {
        var id :| id in sorted;
        var how: How := *;
        MoveSnoc(q0, order, id, how);
        hide WellTyped, Barrier.Dispatch;
        ElvDispatch(id, how);
        order := order + [(id, how)];
      }
    }

    /** __elv_add_request with ELEVATOR_INSERT_SORT; a barrier, and a request that carries no
        scheduler data (`back`), goes to the back of the dispatch list */
    method ElvAddRequest(a: Attr, back: bool) returns (ghost order: seq<(nat, How)>)
      requires WellTyped(State())
      modifies this
      ensures old(Enabled(State(), Add(a, back, order)))
      ensures Out(State(), []) == Apply(old(State()), Add(a, back, order))
    {
      hide NextRequest, Finish, Requeue, Dequeued, MoveAll, CanMove, WellTyped, Barrier.Dispatch;
      order := [];
      var id := |attrs|;
      if a.barrier || back {
        order := ElvDrainElevator();
      }
      attrs := attrs + [a.(colour := ordcolor)];
      if a.barrier {
        ordcolor := !ordcolor;
      }
      if a.barrier || back {
        soft := soft + {Fs(id)};
        queueHead := queueHead + [Fs(id)];
      } else {
        sorted := sorted + {id};
      }
    }

    /** A request leaves the driver for good: __blk_put_request, or a proxy's end_io */
    method EndRequest(r: Rq, error: int) returns (ev: seq<Event>)
      requires WellTyped(State())
      modifies this
      ensures Out(State(), ev) == Finish(old(State()), r, error)
    {
      var bar := origBar;
      var drained := ElvCompletedRequest(r);
      match r
      case Fs(id) =>
        done := done + {id};
        ev := [Completed(r, bar, error)] + drained;
      case _ =>
        var ended := OrderedCompleteSeq(StageOf(r), error);
        ev := [Completed(r, bar, error)] + drained + ended;
    }

    /** One turn of the loop in elv_next_request: a request for the driver, nothing, or an
        empty barrier that was dealt with here, after which the loop goes round again */
    method NextTurn() returns (r: Option<Rq>, again: bool, ev: seq<Event>)
      requires WellTyped(State()) && queueHead != []
      modifies this
      ensures Out(State(), ev) == NextRequest(old(State()))
      ensures again ==> r.None? && |queueHead| < |old(queueHead)| && sorted == old(sorted)
      ensures r.Some? ==> queueHead != [] && queueHead[0] == r.value && r.value in started
      ensures r.Some? <==> exists e :: e in ev && e.Issued?
    {
      hide Finish, WellTyped, ProxiesOf;
      var idle := ordseq == NO_SEQ;
      var ok := DoOrdered();
      ev := if idle && ordseq != NO_SEQ then [Begun(origBar)] else [];
      r, again := None, false;
      if ok {
        if queueHead[0].BarProxy? && origBar < |attrs| && attrs[origBar].empty {
          EmptyIsShort(old(State()));
          ElvDequeueRequest(0);
          ghost var q0 := State();
          var e := EndRequest(BarProxy, 0);
          FinishFrame(q0, BarProxy, 0);
          ev, again := ev + e, true;
        } else {
          started := started + {queueHead[0]};
          ev, r := ev + [Issued(queueHead[0], origBar)], Some(queueHead[0]);
          assert ev[|ev| - 1].Issued?;
        }
      }
    }

    /** elv_next_request. When the dispatch list runs empty the I/O scheduler may or may not
        move a request to it. The steps taken are returned for the specification. */
    method ElvNextRequest() returns (r: Option<Rq>, ev: seq<Event>, ghost steps: seq<Step>)
      requires Inv(State())
      modifies this
      ensures Inv(State())
      ensures LegalFrom(old(State()), steps) && ExecFrom(old(State()), steps) == Run(State(), ev)
      ensures r.Some? ==> queueHead != [] && queueHead[0] == r.value && r.value in started
      ensures r.Some? <==> exists e :: e in ev && e.Issued?
    {
      hide Inv, NextRequest, WellTyped, Barrier.Dispatch, LegalFrom, ExecFrom;
      ghost var q0 := State();
      r, ev, steps := None, [], [];
      NoSteps(q0);
      var again := true;
      while again
        invariant Inv(State())
        invariant LegalFrom(q0, steps) && ExecFrom(q0, steps) == Run(State(), ev)
        invariant r.Some? ==> queueHead != [] && queueHead[0] == r.value && r.value in started
        invariant r.Some? <==> exists e :: e in ev && e.Issued?
        invariant again ==> r.None?
        decreases again, |sorted|, |queueHead|
      {
        ghost var q := State();
        InvTyped(q);
        if queueHead == [] {
          var moves: bool := *;
          if moves && sorted != {} {
            var id :| id in sorted;
            var how: How := *;
            OneMore(q0, steps, DispatchOne(id, how));
            DispatchKeeps(q, id, how);
            ElvDispatch(id, how);
            steps := steps + [DispatchOne(id, how)];
            assert ev + [] == ev;
          } else {
            again := false;
          }
        } else {
          OneMore(q0, steps, Next);
          NextInv(q);
          ghost var before := ev;
          var e;
          r, again, e := NextTurn();
          steps, ev := steps + [Next], ev + e;
          assert forall x :: x in ev <==> x in before || x in e;
        }
      }
    }
  }

  lemma CompleteSeqFrame(q: Queue, s: nat, error: int)
    ensures var o := CompleteSeq(q, s, error);
      && o.q.head == q.head && o.q.sorted == q.sorted
      && forall e :: e in o.ev ==> !e.Issued?
  {
  }

  /** Completing a request does not touch the list or the scheduler. */
  lemma FinishFrame(q: Queue, r: Rq, error: int)
    requires WellTyped(q)
    ensures var o := Finish(q, r, error);
      && o.q.head == q.head && o.q.sorted == q.sorted
      && forall e :: e in o.ev ==> !e.Issued?
  {
    hide WellTyped, CompleteSeq;
    var q1 := if r in q.started && IsFs(r) then q.(inFlight := q.inFlight - 1) else q;
    CompleteSeqFrame(q1, SEQ_DRAIN, 0);
    if !r.Fs? {
      CompleteSeqFrame(ElvCompleted(q, r).q, StageOf(r), error);
    }
  }

  /** An empty barrier that may go at once left nothing but its place holder on the list. */
  lemma EmptyIsShort(q: Queue)
    requires WellTyped(q) && q.head != []
    requires var (q1, ok) := Barrier.DoOrdered(q); ok && EmptyBarrier(q1, q1.head[0])
    ensures |Barrier.DoOrdered(q).0.head| == |q.head| && Barrier.DoOrdered(q).0.sorted == q.sorted
  {
    hide WellTyped;
    if !Active(q) && IsBarrier(q, q.head[0]) && q.head[0].Fs? {
      var ps := ProxiesOf(q.mode, q.attrs[q.head[0].id]);
      assert Barrier.StartOrdered(q).0.head[0] == ps[0];
      assert |ps| == 1;
    }
  }

  /** The proxies put in front one after the other. */
  lemma {:induction false} Stacked(mode: Mode, a: Attr, head: seq<Rq>, started: set<Rq>, soft: set<Rq>)
    ensures var post := if NeedsPost(mode, a) then [PostFlush] + head else head;
      var bar := [BarProxy] + post;
      (if mode.preflush then [PreFlush] + bar else bar) == ProxiesOf(mode, a) + head
    ensures var post := if NeedsPost(mode, a) then started - {PostFlush} else started;
      var bar := post - {BarProxy};
      (if mode.preflush then bar - {PreFlush} else bar) == started - ProxySet(mode, a)
    ensures var post := if NeedsPost(mode, a) then soft + {PostFlush} else soft;
      var bar := post + {BarProxy};
      (if mode.preflush then bar + {PreFlush} else bar) == soft + ProxySet(mode, a)
  {
  }

  lemma {:induction false} InvTyped(q: Queue)
    requires Inv(q)
    ensures WellTyped(q)
  {
  }

  lemma {:induction false} NoSteps(q: Queue)
    ensures LegalFrom(q, []) && ExecFrom(q, []) == Run(q, [])
  {
  }

  lemma {:induction false} DispatchTyped(q: Queue, id: nat, how: How)
    requires WellTyped(q) && id in q.sorted
    ensures WellTyped(Dispatch(q, id, how))
  {
    hide SortPos;
  }

  lemma {:induction false} MoveSnoc(q: Queue, order: seq<(nat, How)>, id: nat, how: How)
    requires WellTyped(q) && CanMove(q, order) && WellTyped(MoveAll(q, order)) && id in MoveAll(q, order).sorted
    ensures CanMove(q, order + [(id, how)])
    ensures MoveAll(q, order + [(id, how)]) == Dispatch(MoveAll(q, order), id, how)
    ensures WellTyped(MoveAll(q, order + [(id, how)]))
    decreases |order|
  {
    hide WellTyped, Barrier.Dispatch;
    DispatchTyped(MoveAll(q, order), id, how);
    if order != [] {
      DispatchTyped(q, order[0].0, order[0].1);
      MoveSnoc(Dispatch(q, order[0].0, order[0].1), order[1..], id, how);
      assert (order + [(id, how)])[1..] == order[1..] + [(id, how)];
    }
  }
}
