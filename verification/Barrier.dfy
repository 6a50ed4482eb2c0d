/**
  The ordered-write ("barrier") protocol of the block layer: the dispatch queue of a
  request queue, the three proxy requests embedded in it (pre-flush, barrier write,
  post-flush) and the progress bits of an ordered sequence, as a state machine whose
  steps are the operations a submitter, the I/O scheduler and the driver perform under
  the queue lock.

  Requests are numbered in submission order: `Fs(n)` is the n-th file-system request
  handed to the queue. Every `BUG_ON` and `WARN_ON` of the modelled code, the access to the first
  element of an empty list and the re-initialisation of a proxy that is still in use set
  the flag `bug`; that the flag is never set is a theorem, not an assumption.
*/
module Barrier {

  /** A request: an ordinary one, or one of the three proxies embedded in the queue. */
  datatype Rq = Fs(id: nat) | PreFlush | BarProxy | PostFlush

  /** What the submitter fixes about a request, plus the colour it gets when it is added. */
  datatype Attr = Attr(colour: bool, barrier: bool, empty: bool, write: bool, sector: nat)

  /** The ordering mode of the queue: by tag or by draining, and which flushes it needs. */
  datatype Mode = Mode(tag: bool, preflush: bool, postflush: bool)

  /** The progress bits STARTED, DRAIN, PREFLUSH, BAR and POSTFLUSH of `ordseq`. */
  datatype OrdSeq = OrdSeq(started: bool, drain: bool, pre: bool, bar: bool, post: bool)

  const SEQ_STARTED := 1
  const SEQ_DRAIN := 2
  const SEQ_PREFLUSH := 4
  const SEQ_BAR := 8
  const SEQ_POSTFLUSH := 16
  const SEQ_DONE := 32

  const NO_SEQ := OrdSeq(false, false, false, false, false)

  datatype Queue = Queue(
    mode: Mode,
    ordseq: OrdSeq,
    orderr: int,
    colour: bool,        // colour for the next request added
    orig: nat,           // the barrier request being executed, while ordseq is non-zero
    head: seq<Rq>,       // the dispatch list
    sorted: set<nat>,    // requests held by the I/O scheduler
    driver: set<Rq>,     // requests taken off the list by the driver and not completed
    inFlight: int,       // the counter q->in_flight
    started: set<Rq>,    // REQ_STARTED
    soft: set<Rq>,       // REQ_SOFTBARRIER
    attrs: seq<Attr>,
    done: set<nat>,      // requests that were completed, barriers that were ended
    bug: bool)

  /** What an observer of the queue sees. */
  datatype Event =
    | Begun(bar: nat)                          // a barrier's sequence starts
    | Issued(rq: Rq, bar: nat)                 // a request is handed to the driver
    | Completed(rq: Rq, bar: nat, error: int)  // the driver completes a request
    | Ended(bar: nat, error: int)              // the original barrier request is ended

  /** State after an operation together with the events it caused. */
  datatype Out = Out(q: Queue, ev: seq<Event>)

  function Init(mode: Mode): Queue {
    Queue(mode, NO_SEQ, 0, false, 0, [], {}, {}, 0, {}, {}, [], {}, false)
  }

  // ---------------------------------------------------------------------------
  // Read-only queries (blk_ordered_cur_seq, blk_ordered_req_seq)
  // ---------------------------------------------------------------------------

  predicate Active(q: Queue) { q.ordseq != NO_SEQ }

  function CurSeq(o: OrdSeq): nat {
    if o == NO_SEQ then 0
    else if !o.started then SEQ_STARTED
    else if !o.drain then SEQ_DRAIN
    else if !o.pre then SEQ_PREFLUSH
    else if !o.bar then SEQ_BAR
    else if !o.post then SEQ_POSTFLUSH
    else SEQ_DONE
  }

  /** The word `ordseq` as the C code stores it. */
  function Word(o: OrdSeq): bv8 {
    (if o.started then 1 else 0) | (if o.drain then 2 else 0) | (if o.pre then 4 else 0)
      | (if o.bar then 8 else 0) | (if o.post then 16 else 0)
  }

  /** The current stage is `1 << ffz(ordseq)`: the lowest bit that is clear in the word. */
  lemma CurSeqIsLowestClearBit(o: OrdSeq)
    ensures (o == NO_SEQ) <==> Word(o) == 0
    ensures o != NO_SEQ ==>
      var c := CurSeq(o) as bv8;
      && c != 0 && c & (c - 1) == 0          // a single bit,
      && Word(o) & c == 0                    // which is clear,
      && Word(o) & (c - 1) == c - 1          // and all lower ones are set
  {
    if !o.started {
    } else if !o.drain {
      assert CurSeq(o) as bv8 == 2;
    } else if !o.pre {
      assert CurSeq(o) as bv8 == 4;
    } else if !o.bar {
      assert CurSeq(o) as bv8 == 8;
    } else if !o.post {
      assert CurSeq(o) as bv8 == 16;
    } else {
      assert CurSeq(o) as bv8 == 32;
    }
  }

  predicate HasAttr(q: Queue, r: Rq) { r.Fs? ==> r.id < |q.attrs| }

  function ReqSeq(q: Queue, r: Rq): nat
    requires HasAttr(q, r) && q.orig < |q.attrs|
  {
    match r
    case PreFlush => SEQ_PREFLUSH
    case BarProxy => SEQ_BAR
    case PostFlush => SEQ_POSTFLUSH
    case Fs(id) => if q.attrs[id].colour == q.attrs[q.orig].colour then SEQ_DRAIN else SEQ_DONE
  }

  /** Flush proxies are not file-system requests, so they are never counted in in_flight. */
  predicate IsFs(r: Rq) { r.Fs? || r.BarProxy? }

  predicate Bit(o: OrdSeq, s: nat) {
    if s == SEQ_DRAIN then o.drain
    else if s == SEQ_PREFLUSH then o.pre
    else if s == SEQ_BAR then o.bar
    else o.post
  }

  function WithBit(o: OrdSeq, s: nat): OrdSeq {
    if s == SEQ_DRAIN then o.(drain := true)
    else if s == SEQ_PREFLUSH then o.(pre := true)
    else if s == SEQ_BAR then o.(bar := true)
    else o.(post := true)
  }

  // ---------------------------------------------------------------------------
  // Operations
  // ---------------------------------------------------------------------------

  /** blk_ordered_complete_seq: record a finished stage; end the barrier after the last. */
  function CompleteSeq(q: Queue, s: nat, error: int): Out {
    var q1 := q.(orderr := if error != 0 && q.orderr == 0 then error else q.orderr,
                 bug := q.bug || Bit(q.ordseq, s),
                 ordseq := WithBit(q.ordseq, s));
    if CurSeq(q1.ordseq) != SEQ_DONE then Out(q1, [])
    else Out(q1.(ordseq := NO_SEQ, done := q1.done + {q1.orig}), [Ended(q1.orig, q1.orderr)])
  }

  /** elv_completed_request: accounting, then the check whether draining is over. */
  function ElvCompleted(q: Queue, r: Rq): Out
    requires WellTyped(q)
  {
    var q1 := if r in q.started && IsFs(r) then q.(inFlight := q.inFlight - 1) else q;
    if Active(q1) && q1.inFlight == 0 && CurSeq(q1.ordseq) == SEQ_DRAIN then
      if q1.head == [] then Out(q1.(bug := true), [])
      else if ReqSeq(q1, q1.head[0]) > SEQ_DRAIN then CompleteSeq(q1, SEQ_DRAIN, 0)
      else Out(q1, [])
    else Out(q1, [])
  }

  /** Every request mentioned has attributes; the least needed to evaluate the queries. */
  predicate WellTyped(q: Queue) {
    && (Active(q) ==> q.orig < |q.attrs|)
    && (forall i :: 0 <= i < |q.head| ==> HasAttr(q, q.head[i]))
    && (forall id :: id in q.sorted ==> id < |q.attrs|)
    && (forall r :: r in q.driver ==> HasAttr(q, r))
  }

  /** elv_dequeue_request: take a request off the list, count it if the driver has it. */
  function Dequeued(q: Queue, p: nat): (r: Queue)
    requires WellTyped(q) && p < |q.head|
    ensures WellTyped(r)
  {
    q.(head := q.head[..p] + q.head[p + 1..],
       inFlight := if q.head[p] in q.started && IsFs(q.head[p]) then q.inFlight + 1 else q.inFlight)
  }

  function StageOf(r: Rq): nat
    requires !r.Fs?
  {
    match r case PreFlush => SEQ_PREFLUSH case BarProxy => SEQ_BAR case PostFlush => SEQ_POSTFLUSH
  }

  /** An empty barrier writes nothing, so flushing before it is enough. */
  predicate NeedsPost(mode: Mode, a: Attr) { mode.postflush && !a.empty }

  /** The proxies a barrier needs, in the order they go on the list. */
  function ProxiesOf(mode: Mode, a: Attr): (ps: seq<Rq>)
    ensures ps != [] && forall i :: 0 <= i < |ps| ==> !ps[i].Fs?
    ensures forall i, j :: 0 <= i < j < |ps| ==> StageOf(ps[i]) < StageOf(ps[j])
    ensures forall p :: p in ps <==>
      p == BarProxy || (p == PreFlush && mode.preflush) || (p == PostFlush && NeedsPost(mode, a))
  {
    (if mode.preflush then [PreFlush] else []) + [BarProxy]
      + (if NeedsPost(mode, a) then [PostFlush] else [])
  }

  /** The same proxies as a set. */
  function ProxySet(mode: Mode, a: Attr): (ps: set<Rq>)
    ensures forall p :: p in ps <==> p in ProxiesOf(mode, a)
  {
    (if mode.preflush then {PreFlush} else {}) + {BarProxy}
      + (if NeedsPost(mode, a) then {PostFlush} else {})
  }

  /** A proxy that must not be initialised again. */
  predicate InUse(q: Queue, p: Rq) { p in q.head || p in q.driver }

  /** start_ordered, on a barrier at the front of the list: the barrier leaves the list, its
      proxies are initialised and stacked in its place, the stages it does not need count as
      done, and so does draining when nothing is in flight. */
  function StartOrdered(q: Queue): (r: (Queue, bool))
    requires WellTyped(q) && q.head != [] && q.head[0].Fs?
    ensures WellTyped(r.0) && r.0.head != []
  {
    var b := q.head[0];
    var ps := ProxiesOf(q.mode, q.attrs[b.id]);
    var inFlight := if b in q.started then q.inFlight + 1 else q.inFlight;
    var drained := q.mode.tag || inFlight == 0;
    (q.(orderr := 0,
        orig := b.id,
        ordseq := OrdSeq(true, drained, !q.mode.preflush, false, !NeedsPost(q.mode, q.attrs[b.id])),
        head := ps + q.head[1..],
        inFlight := inFlight,
        started := q.started - ProxySet(q.mode, q.attrs[b.id]),
        soft := q.soft + ProxySet(q.mode, q.attrs[b.id]),
        bug := || q.bug || InUse(q, BarProxy)
               || (q.mode.preflush && InUse(q, PreFlush))
               || (NeedsPost(q.mode, q.attrs[b.id]) && InUse(q, PostFlush))),
     drained)
  }

  predicate IsBarrier(q: Queue, r: Rq)
    requires HasAttr(q, r)
  {
    r.BarProxy? || (r.Fs? && q.attrs[r.id].barrier)
  }

  /** blk_do_ordered on the first request: the new state, and whether that state's first
      request may be handed out (the C code's *rqp is that request, or NULL). */
  function DoOrdered(q: Queue): (r: (Queue, bool))
    requires WellTyped(q) && q.head != []
    ensures WellTyped(r.0) && r.0.head != []
  {
    var r := q.head[0];
    if !Active(q) then
      if !IsBarrier(q, r) then (q, true)
      else if r.Fs? then StartOrdered(q)
      else (q.(bug := true), false)
    else if q.mode.tag then (q, !(IsBarrier(q, r) && !r.BarProxy?))
    else (q.(bug := q.bug || ReqSeq(q, r) < CurSeq(q.ordseq)), ReqSeq(q, r) <= CurSeq(q.ordseq))
  }

  /** blk_empty_barrier on the barrier proxy, which stands for the original request. */
  predicate EmptyBarrier(q: Queue, r: Rq) {
    r.BarProxy? && q.orig < |q.attrs| && q.attrs[q.orig].empty
  }

  /** A request leaves the driver for good: __blk_put_request, or a proxy's end_io. */
  function Finish(q: Queue, r: Rq, error: int): Out
    requires WellTyped(q)
  {
    var o := ElvCompleted(q, r);
    match r
    case Fs(id) =>
      Out(o.q.(done := o.q.done + {id}), [Completed(r, q.orig, error)] + o.ev)
    case _ =>
      var p := CompleteSeq(o.q, StageOf(r), error);
      Out(p.q, [Completed(r, q.orig, error)] + o.ev + p.ev)
  }

  /** What elv_next_request does with the first request once it may go: complete the place
      holder of an empty barrier, which no driver may see, or mark the request started. */
  function HandOut(q: Queue): Out
    requires WellTyped(q) && q.head != []
  {
    if EmptyBarrier(q, q.head[0]) then Finish(Dequeued(q, 0), q.head[0], 0)
    else Out(q.(started := q.started + {q.head[0]}), [Issued(q.head[0], q.orig)])
  }

  /** One turn of the loops in elv_next_request and __elv_next_request on a non-empty list. */
  function NextRequest(q: Queue): Out
    requires WellTyped(q) && q.head != []
  {
    var (q1, ok) := DoOrdered(q);
    var o := if ok then HandOut(q1) else Out(q1, []);
    Out(o.q, (if !Active(q) && Active(q1) then [Begun(q1.orig)] else []) + o.ev)
  }

  /** Where elv_insert(ELEVATOR_INSERT_REQUEUE) puts a request while a sequence runs. */
  function RequeuePos(q: Queue, seq_: nat, p: nat): (r: nat)
    requires WellTyped(q) && Active(q) && p <= |q.head|
    ensures p <= r <= |q.head|
    ensures forall i :: p <= i < r ==> ReqSeq(q, q.head[i]) < seq_
    ensures r < |q.head| ==> seq_ <= ReqSeq(q, q.head[r])
    decreases |q.head| - p
  {
    if p < |q.head| && ReqSeq(q, q.head[p]) < seq_ then RequeuePos(q, seq_, p + 1) else p
  }

  function InsertAt<T>(s: seq<T>, p: nat, x: T): seq<T>
    requires p <= |s|
  {
    s[..p] + [x] + s[p..]
  }

  /** elv_requeue_request: undo the accounting and put the request back in order. */
  function Requeue(q: Queue, r: Rq): Queue
    requires WellTyped(q) && r in q.driver
  {
    var q1 := q.(inFlight := if r in q.started && IsFs(r) then q.inFlight - 1 else q.inFlight,
                 started := q.started - {r},
                 soft := q.soft + {r},
                 driver := q.driver - {r});
    var p := if !Active(q) then 0 else RequeuePos(q, ReqSeq(q, r), 0);
    q1.(head := InsertAt(q.head, p, r))
  }

  /** The test that ends elv_dispatch_sort's walk from the tail at `pos`. */
  predicate SortStops(q: Queue, id: nat, boundary: nat, pos: Rq)
    requires id < |q.attrs| && HasAttr(q, pos)
  {
    pos.Fs? ==>
      var a, b := q.attrs[id], q.attrs[pos.id];
      || a.write != b.write
      || b.barrier || pos in q.soft || pos in q.started
      || (a.sector >= boundary && b.sector >= boundary && a.sector >= b.sector)
      || (a.sector < boundary && b.sector >= boundary)
      || (a.sector < boundary && b.sector < boundary && a.sector >= b.sector)
  }

  /** Where elv_dispatch_sort puts a request, having already walked back to position n. */
  function SortPos(q: Queue, id: nat, boundary: nat, n: nat): (p: nat)
    requires WellTyped(q) && id < |q.attrs| && n <= |q.head|
    ensures p <= n
    ensures forall i :: p <= i < n ==> !SortStops(q, id, boundary, q.head[i])
    ensures p > 0 ==> SortStops(q, id, boundary, q.head[p - 1])
  {
    if n > 0 && !SortStops(q, id, boundary, q.head[n - 1]) then SortPos(q, id, boundary, n - 1) else n
  }

  /** How a scheduler hands a request to the dispatch list. */
  datatype How = Sort(boundary: nat) | Tail

  /** elv_dispatch_sort and elv_dispatch_add_tail. */
  function Dispatch(q: Queue, id: nat, how: How): (r: Queue)
    requires WellTyped(q) && id in q.sorted
    ensures WellTyped(r)
  {
    var p := match how case Sort(b) => SortPos(q, id, b, |q.head|) case Tail => |q.head|;
    q.(sorted := q.sorted - {id}, head := InsertAt(q.head, p, Fs(id)))
  }

  /** A sequence of dispatches, the scheduler choosing the requests and their places. */
  predicate CanMove(q: Queue, order: seq<(nat, How)>)
    requires WellTyped(q)
    decreases |order|
  {
    order == [] ||
    (order[0].0 in q.sorted && CanMove(Dispatch(q, order[0].0, order[0].1), order[1..]))
  }

  function MoveAll(q: Queue, order: seq<(nat, How)>): Queue
    requires WellTyped(q) && CanMove(q, order)
    decreases |order|
  {
    if order == [] then q else MoveAll(Dispatch(q, order[0].0, order[0].1), order[1..])
  }

  /** elv_drain_elevator: dispatch until the scheduler holds nothing. */
  predicate DrainOrder(q: Queue, order: seq<(nat, How)>)
    requires WellTyped(q)
  {
    CanMove(q, order) && MoveAll(q, order).sorted == {}
  }

  /** __elv_add_request: give the request its colour, flip the colour after a barrier. */
  function Coloured(q: Queue, a: Attr): Queue {
    q.(attrs := q.attrs + [a.(colour := q.colour)],
       colour := if a.barrier then !q.colour else q.colour)
  }

  /** The steps. `back` is set for a request that carries no scheduler data. */
  datatype Step =
    | Add(attr: Attr, back: bool, order: seq<(nat, How)>)
    | DispatchOne(id: nat, how: How)
    | Next
    | Dequeue(pos: nat)
    | Complete(rq: Rq, error: int)
    | PutBack(rq: Rq)

  predicate Enabled(q: Queue, s: Step)
    requires WellTyped(q)
  {
    match s
    case Add(a, back, order) => a.barrier || back ==> DrainOrder(q, order)
    case DispatchOne(id, how) => id in q.sorted
    case Next => q.head != []
    case Dequeue(p) => p < |q.head| && q.head[p] in q.started
    case Complete(r, error) => r in q.driver
    case PutBack(r) => r in q.driver
  }

  function Apply(q: Queue, s: Step): Out
    requires WellTyped(q) && Enabled(q, s)
  {
    match s
    case Add(a, back, order) =>
      if a.barrier || back then
        var q1 := Coloured(MoveAll(q, order), a);
        Out(q1.(head := q1.head + [Fs(|q.attrs|)], soft := q1.soft + {Fs(|q.attrs|)}), [])
      else
        var q1 := Coloured(q, a);
        Out(q1.(sorted := q1.sorted + {|q.attrs|}), [])
    case DispatchOne(id, how) => Out(Dispatch(q, id, how), [])
    case Next => NextRequest(q)
    case Dequeue(p) => Out(Dequeued(q, p).(driver := q.driver + {q.head[p]}), [])
    case Complete(r, error) => Finish(q.(driver := q.driver - {r}), r, error)
    case PutBack(r) => Out(Requeue(q, r), [])
  }
}
