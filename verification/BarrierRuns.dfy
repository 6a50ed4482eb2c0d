/**
  The barrier protocol over whole runs. A run is any sequence of enabled steps from the
  empty queue; its trace is the sequence of events the steps cause. The theorems at the end
  speak about traces only: what was finished before an event happens.
*/
module BarrierRuns {
  import opened Barrier
  import opened BarrierInv

  datatype Run = Run(q: Queue, trace: seq<Event>)

  /** Every step is enabled when it is taken. (That the state is well typed is no
      restriction on runs from the empty queue: RunGood shows that it always is.) */
  ghost predicate LegalFrom(q0: Queue, steps: seq<Step>)
    decreases |steps|, 0
  {
    steps == [] ||
    (var n := |steps| - 1;
     && LegalFrom(q0, steps[..n])
     && var q := ExecFrom(q0, steps[..n]).q;
        WellTyped(q) && Enabled(q, steps[n]))
  }

  ghost function ExecFrom(q0: Queue, steps: seq<Step>): Run
    requires LegalFrom(q0, steps)
    decreases |steps|, 1
  {
    if steps == [] then Run(q0, [])
    else
      var n := |steps| - 1;
      var r := ExecFrom(q0, steps[..n]);
      var o := Apply(r.q, steps[n]);
      Run(o.q, r.trace + o.ev)
  }

  ghost predicate Legal(mode: Mode, steps: seq<Step>) { LegalFrom(Init(mode), steps) }

  ghost function Exec(mode: Mode, steps: seq<Step>): Run
    requires Legal(mode, steps)
  {
    ExecFrom(Init(mode), steps)
  }

  lemma OneMore(q0: Queue, steps: seq<Step>, s: Step)
    requires LegalFrom(q0, steps)
    requires var q := ExecFrom(q0, steps).q; WellTyped(q) && Enabled(q, s)
    ensures LegalFrom(q0, steps + [s])
    ensures var r := ExecFrom(q0, steps); var o := Apply(r.q, s);
      ExecFrom(q0, steps + [s]) == Run(o.q, r.trace + o.ev)
  {
    assert (steps + [s])[..|steps|] == steps;
  }

  // ---------------------------------------------------------------------------
  // What a trace says about the past
  // ---------------------------------------------------------------------------

  datatype History = History(finished: set<nat>, begun: set<nat>, stages: set<(Rq, nat)>)

  ghost function Record(h: History, e: Event): History {
    match e
    case Begun(b) => h.(begun := h.begun + {b})
    case Issued(_, _) => h
    case Completed(r, b, _) =>
      if r.Fs? then h.(finished := h.finished + {r.id}) else h.(stages := h.stages + {(r, b)})
    case Ended(b, _) => h.(finished := h.finished + {b})
  }

  ghost function Past(trace: seq<Event>): History {
    if trace == [] then History({}, {}, {})
    else Record(Past(trace[..|trace| - 1]), trace[|trace| - 1])
  }

  /** The first error a proxy of barrier b met. */
  ghost function ErrorOf(trace: seq<Event>, b: nat): int {
    if trace == [] then 0
    else
      var before, e := ErrorOf(trace[..|trace| - 1], b), trace[|trace| - 1];
      if e.Completed? && !e.rq.Fs? && e.bar == b then FirstError(before, e.error) else before
  }

  /** What must have happened before an event. */
  ghost predicate EventOk(mode: Mode, attrs: seq<Attr>, past: seq<Event>, e: Event) {
    var h := Past(past);
    match e
    case Begun(b) =>
      IsBar(attrs, b) && b !in h.begun && h.begun <= h.finished
    case Issued(r, b) =>
      if r.Fs? then
        && r.id < |attrs| && !IsBar(attrs, r.id) && r.id !in h.finished
        && (!mode.tag ==> forall c: nat :: IsBar(attrs, c) && c < r.id ==> c in h.finished)
      else
        ProxyTurn(mode, attrs, h, r, b)
    case Completed(r, b, error) =>
      if r.Fs? then r.id < |attrs| && !IsBar(attrs, r.id) && r.id !in h.finished
      else ProxyTurn(mode, attrs, h, r, b)
    case Ended(b, error) =>
      && b in h.begun && b !in h.finished
      && IsBar(attrs, b)
      && (forall p :: p in ProxiesOf(mode, attrs[b]) ==> (p, b) in h.stages)
      && error == ErrorOf(past, b)
      && (!mode.tag ==> forall x: nat :: x < b ==> x in h.finished)
  }

  /** Barrier b is under way and needs r; when draining, everything before it is over. */
  ghost predicate ProxyTurn(mode: Mode, attrs: seq<Attr>, h: History, r: Rq, b: nat)
    requires !r.Fs?
  {
    && b in h.begun && b !in h.finished && IsBar(attrs, b)
    && r in ProxiesOf(mode, attrs[b]) && (r, b) !in h.stages
    && (!mode.tag ==> forall x: nat :: x < b ==> x in h.finished)
    && (!mode.tag ==>
          forall p: Rq :: p in ProxiesOf(mode, attrs[b]) && StageOf(p) < StageOf(r) ==> (p, b) in h.stages)
  }

  ghost predicate TraceOk(mode: Mode, attrs: seq<Attr>, trace: seq<Event>) {
    forall j :: 0 <= j < |trace| ==> EventOk(mode, attrs, trace[..j], trace[j])
  }

  // ---------------------------------------------------------------------------
  // The queue remembers what the trace says
  // ---------------------------------------------------------------------------

  ghost predicate Link(q: Queue, trace: seq<Event>) {
    var h := Past(trace);
    && h.finished == q.done
    && (forall b: nat :: b in h.begun <==> (IsBar(q.attrs, b) && b in q.done) || (Active(q) && b == q.orig))
    && (forall s :: s in h.stages ==> s.1 in h.begun)
    && (forall b: nat :: b !in h.begun ==> ErrorOf(trace, b) == 0)
    && (Active(q) && q.orig < |q.attrs| ==>
          var ps := ProxiesOf(q.mode, q.attrs[q.orig]);
          && (forall p: Rq :: p in ps ==> ((p, q.orig) in h.stages <==> Bit(q.ordseq, StageOf(p))))
          && (forall p: Rq :: !p.Fs? && p !in ps ==> Bit(q.ordseq, StageOf(p)))
          && q.orderr == ErrorOf(trace, q.orig))
  }

  lemma PastExtend(trace: seq<Event>, e: Event)
    ensures Past(trace + [e]) == Record(Past(trace), e)
    ensures forall b: nat :: ErrorOf(trace + [e], b) ==
              (if e.Completed? && !e.rq.Fs? && e.bar == b
               then FirstError(ErrorOf(trace, b), e.error) else ErrorOf(trace, b))
  {
    assert (trace + [e])[..|trace|] == trace;
  }

  lemma TraceExtend(mode: Mode, attrs: seq<Attr>, trace: seq<Event>, e: Event)
    requires TraceOk(mode, attrs, trace) && EventOk(mode, attrs, trace, e)
    ensures TraceOk(mode, attrs, trace + [e])
  {
    var t := trace + [e];
    forall j | 0 <= j < |t| ensures EventOk(mode, attrs, t[..j], t[j]) {
      assert j < |trace| ==> t[..j] == trace[..j];
      assert j == |trace| ==> t[..j] == trace;
    }
  }

  /** Link depends on these parts of the queue only. */
  ghost predicate SameBut(q: Queue, q': Queue) {
    q'.mode == q.mode && q'.attrs == q.attrs
  }

  lemma LinkBegin(q: Queue, q': Queue, trace: seq<Event>, b: nat)
    requires Link(q, trace) && !Active(q) && SameBut(q, q') && IsBar(q.attrs, b) && b !in q.done
    requires Active(q') && q'.orig == b && q'.orderr == 0 && q'.done == q.done
    requires q'.ordseq.pre == (PreFlush !in ProxiesOf(q.mode, q.attrs[b]))
    requires q'.ordseq.post == (PostFlush !in ProxiesOf(q.mode, q.attrs[b])) && !q'.ordseq.bar
    ensures Link(q', trace + [Begun(b)])
    ensures EventOk(q.mode, q.attrs, trace, Begun(b))
  {
    PastExtend(trace, Begun(b));
    hide Past, ErrorOf;
  }

  lemma LinkStage(q: Queue, q': Queue, trace: seq<Event>, r: Rq, error: int)
    requires Link(q, trace) && Active(q) && SameBut(q, q') && q.orig < |q.attrs|
    requires !r.Fs? && r in ProxiesOf(q.mode, q.attrs[q.orig]) && !Bit(q.ordseq, StageOf(r))
    requires Active(q') && q'.orig == q.orig && q'.done == q.done
    requires q'.ordseq == WithBit(q.ordseq, StageOf(r)) && q'.orderr == FirstError(q.orderr, error)
    ensures Link(q', trace + [Completed(r, q.orig, error)])
  {
    PastExtend(trace, Completed(r, q.orig, error));
  }

  lemma LinkEnd(q: Queue, q': Queue, trace: seq<Event>)
    requires Link(q, trace) && Active(q) && SameBut(q, q') && IsBar(q.attrs, q.orig)
    requires !Active(q') && q'.done == q.done + {q.orig}
    ensures Link(q', trace + [Ended(q.orig, q.orderr)])
  {
    PastExtend(trace, Ended(q.orig, q.orderr));
  }

  lemma LinkFs(q: Queue, q': Queue, trace: seq<Event>, id: nat, error: int)
    requires Link(q, trace) && SameBut(q, q') && !IsBar(q.attrs, id) && q'.done == q.done + {id}
    requires Active(q') == Active(q) && q'.orig == q.orig && q'.orderr == q.orderr
    requires q'.ordseq.(drain := true) == q.ordseq.(drain := true)
    ensures Link(q', trace + [Completed(Fs(id), q.orig, error)])
  {
    PastExtend(trace, Completed(Fs(id), q.orig, error));
  }

  lemma BeginFacts(q: Queue)
    requires Inv(q) && MayBegin(q)
    ensures var q', b := Begin(q), q.head[0].id;
      && SameBut(q, q') && b !in q.done && Active(q') && q'.orig == b && q'.orderr == 0 && q'.done == q.done
      && q'.ordseq.pre == (PreFlush !in ProxiesOf(q.mode, q.attrs[b]))
      && q'.ordseq.post == (PostFlush !in ProxiesOf(q.mode, q.attrs[b])) && !q'.ordseq.bar
  {
    assert Places(q, q.head[0].id) == 1;
  }

  lemma BeginLink(q: Queue, trace: seq<Event>)
    requires Inv(q) && MayBegin(q) && Link(q, trace) && TraceOk(q.mode, q.attrs, trace)
    ensures var q', t := Begin(q), trace + [Begun(q.head[0].id)];
      Link(q', t) && TraceOk(q.mode, q.attrs, t)
  {
    hide Link, TraceOk, Begin, EventOk, Inv;
    var b := q.head[0].id;
    BeginFacts(q);
    LinkBegin(q, Begin(q), trace, b);
    TraceExtend(q.mode, q.attrs, trace, Begun(b));
  }

  lemma IssueLink(q: Queue, trace: seq<Event>)
    requires Inv(q) && q.head != [] && MayIssue(q) && Link(q, trace) && TraceOk(q.mode, q.attrs, trace)
    requires !q.head[0].Fs? ==> FrontInTurn(q)
    ensures var t := trace + [Issued(q.head[0], q.orig)];
      Link(MarkStarted(q), t) && TraceOk(q.mode, q.attrs, t)
  {
    var r := q.head[0];
    PastExtend(trace, Issued(r, q.orig));
    if r.Fs? {
      assert Places(q, r.id) == 1;
    } else {
      assert ProxyOk(q, r);
      InTurnOk(q, trace, r);
    }
    TraceExtend(q.mode, q.attrs, trace, Issued(r, q.orig));
  }

  lemma InTurnOk(q: Queue, trace: seq<Event>, r: Rq)
    requires !r.Fs? && WellTyped(q) && PlacesOk(q) && Active(q) && q.ordseq.drain && IsBar(q.attrs, q.orig)
    requires !Bit(q.ordseq, StageOf(r)) && Link(q, trace) && InTurn(q, r) && DriverOk(q)
    ensures ProxyTurn(q.mode, q.attrs, Past(trace), r, q.orig)
  {
    assert Places(q, q.orig) == 1;
    if !q.mode.tag {
      forall x: nat | x < q.orig ensures x in q.done {
        assert Places(q, x) == 1;
      }
    }
  }

  lemma FsFinishLink(q: Queue, id: nat, error: int, trace: seq<Event>)
    requires Inv(q) && Fs(id) in q.driver && Link(q, trace) && TraceOk(q.mode, q.attrs, trace)
    ensures var o := Apply(q, Complete(Fs(id), error));
      Link(o.q, trace + o.ev) && TraceOk(o.q.mode, o.q.attrs, trace + o.ev)
  {
    var e := Completed(Fs(id), q.orig, error);
    FsFinishKeeps(q, id, error);
    assert Places(q, id) == 1 && !IsBar(q.attrs, id) && id !in Past(trace).finished;
    hide Link, TraceOk;
    LinkFs(q, Apply(q, Complete(Fs(id), error)).q, trace, id, error);
    TraceExtend(q.mode, q.attrs, trace, e);
  }

  /** The trace of a proxy's completion, given what the operation did. */
  lemma ProxyLink(q: Queue, q': Queue, r: Rq, error: int, trace: seq<Event>)
    requires !r.Fs? && Active(q) && IsBar(q.attrs, q.orig) && !Bit(q.ordseq, StageOf(r))
    requires Link(q, trace) && TraceOk(q.mode, q.attrs, trace)
    requires ProxyTurn(q.mode, q.attrs, Past(trace), r, q.orig)
    requires SameBut(q, q') && q'.orig == q.orig
    requires Active(q') == (CurSeq(WithBit(q.ordseq, StageOf(r))) != SEQ_DONE)
    requires q'.done == if Active(q') then q.done else q.done + {q.orig}
    requires Active(q') ==> q'.ordseq == WithBit(q.ordseq, StageOf(r)) && q'.orderr == FirstError(q.orderr, error)
    ensures var e := FirstError(q.orderr, error);
      var t := trace + [Completed(r, q.orig, error)] + (if Active(q') then [] else [Ended(q.orig, e)]);
      Link(q', t) && TraceOk(q.mode, q.attrs, t)
  {
    var e, e1 := FirstError(q.orderr, error), Completed(r, q.orig, error);
    var q1 := q.(ordseq := WithBit(q.ordseq, StageOf(r)), orderr := e);
    LinkStage(q, q1, trace, r, error);
    TraceExtend(q.mode, q.attrs, trace, e1);
    if Active(q') {
      assert trace + [e1] + [] == trace + [e1];
    } else {
      assert q.orig !in q.done;
      assert !q.mode.tag ==> forall x: nat :: x < q.orig ==> x in Past(trace).finished;
      EndOk(q1, trace + [e1]);
      hide Link, TraceOk;
      LinkEnd(q1, q', trace + [e1]);
      TraceExtend(q.mode, q.attrs, trace + [e1], Ended(q.orig, e));
    }
  }

  lemma GoneTurn(q: Queue, r: Rq, trace: seq<Event>)
    requires Gone(q, r) && InTurn(q, r) && Link(q, trace)
    ensures !r.Fs? && Active(q) && IsBar(q.attrs, q.orig) && !Bit(q.ordseq, StageOf(r))
    ensures ProxyTurn(q.mode, q.attrs, Past(trace), r, q.orig)
  {
    InTurnOk(q, trace, r);
  }

  /** Completing a proxy completes its stage; completing the last one ends the barrier. */
  lemma ProxyFinishLink(q: Queue, r: Rq, error: int, trace: seq<Event>)
    requires !r.Fs? && WellTyped(q)
    requires q.inFlight == |FsOf(q.driver)| + B2N(r in q.started && IsFs(r))
    requires Gone(q.(inFlight := |FsOf(q.driver)|), r) && InTurn(q.(inFlight := |FsOf(q.driver)|), r)
    requires Link(q, trace) && TraceOk(q.mode, q.attrs, trace)
    ensures var o := Finish(q, r, error);
      Link(o.q, trace + o.ev) && TraceOk(q.mode, q.attrs, trace + o.ev)
  {
    hide Link, TraceOk, Inv, ProxyTurn, InTurn, Gone, Finish, WellTyped, FsOf;
    var o, q1 := Finish(q, r, error), q.(inFlight := |FsOf(q.driver)|);
    ProxyFinishKeeps(q, r, error);
    LinkFrame(q, q1, trace);
    GoneTurn(q1, r, trace);
    ProxyLink(q, o.q, r, error, trace);
    var e1, e := Completed(r, q.orig, error), FirstError(q.orderr, error);
    assert trace + o.ev == trace + [e1] + (if Active(o.q) then [] else [Ended(q.orig, e)]);
  }

  lemma EndOk(q: Queue, trace: seq<Event>)
    requires Link(q, trace) && Active(q) && IsBar(q.attrs, q.orig) && CurSeq(q.ordseq) == SEQ_DONE
    requires q.orig !in q.done && (!q.mode.tag ==> forall x: nat :: x < q.orig ==> x in q.done)
    ensures EventOk(q.mode, q.attrs, trace, Ended(q.orig, q.orderr))
  {
  }

  // ---------------------------------------------------------------------------
  // Every step
  // ---------------------------------------------------------------------------

  /** The invariant of a run: the queue is in order and the trace is. */
  ghost predicate Good(q: Queue, trace: seq<Event>) {
    Inv(q) && Link(q, trace) && TraceOk(q.mode, q.attrs, trace)
  }

  lemma GoodTyped(q: Queue, trace: seq<Event>)
    requires Good(q, trace)
    ensures WellTyped(q)
  {
  }

  lemma LinkFrame(q: Queue, q': Queue, trace: seq<Event>)
    requires Link(q, trace) && SameBut(q, q') && q'.orig == q.orig && q'.ordseq == q.ordseq
    requires q'.orderr == q.orderr && q'.done == q.done
    ensures Link(q', trace)
  {
  }

  lemma EmptyKeeps(q: Queue, trace: seq<Event>)
    requires Good(q, trace) && q.head != [] && FrontInTurn(q) && EmptyBarrier(q, q.head[0])
    ensures var o := Finish(Dequeued(q, 0), BarProxy, 0); Good(o.q, trace + o.ev) && o.q.mode == q.mode
  {
    var q0 := Dequeued(q, 0);
    EmptyLeaves(q);
    LinkFrame(q, q0, trace);
    assert q0.(inFlight := |FsOf(q0.driver)|) == q0;
    hide Inv, Link, TraceOk, Gone, InTurn, Finish;
    ProxyFinishKeeps(q0, BarProxy, 0);
    ProxyFinishLink(q0, BarProxy, 0, trace);
  }

  lemma ShowKeeps(q: Queue, trace: seq<Event>)
    requires Good(q, trace) && q.head != [] && !EmptyBarrier(q, q.head[0])
    requires q.head[0].Fs? ==> MayIssue(q)
    requires !q.head[0].Fs? ==> FrontInTurn(q)
    ensures Good(MarkStarted(q), trace + [Issued(q.head[0], q.orig)])
  {
    assert WellTyped(q);
    hide Inv, Link, TraceOk;
    if !q.head[0].Fs? {
      FrontMayIssue(q);
    }
    IssueKeeps(q);
    IssueLink(q, trace);
  }

  lemma HandOutKeeps(q: Queue, trace: seq<Event>)
    requires Good(q, trace) && q.head != []
    requires q.head[0].Fs? ==> MayIssue(q)
    requires !q.head[0].Fs? ==> FrontInTurn(q)
    ensures var o := HandOut(q); Good(o.q, trace + o.ev) && o.q.mode == q.mode
  {
    if EmptyBarrier(q, q.head[0]) {
      EmptyKeeps(q, trace);
    } else {
      ShowKeeps(q, trace);
    }
    hide Good;
  }

  ghost function BegunBy(q: Queue, q1: Queue): seq<Event> {
    if !Active(q) && Active(q1) then [Begun(q1.orig)] else []
  }

  lemma DoOrderedKeeps(q: Queue, trace: seq<Event>)
    requires Good(q, trace) && q.head != []
    ensures var (q1, ok) := DoOrdered(q);
      && Good(q1, trace + BegunBy(q, q1)) && q1.mode == q.mode
      && (ok && q1.head[0].Fs? ==> MayIssue(q1))
      && (ok && !q1.head[0].Fs? ==> FrontInTurn(q1))
  {
    var q1 := DoOrdered(q).0;
    DoOrderedOk(q);
    if q1 == q {
      assert trace + BegunBy(q, q1) == trace;
    } else {
      BeginLink(q, trace);
    }
    hide Inv, Link, TraceOk, DoOrdered, MayIssue, FrontInTurn;
  }

  lemma NextKeeps(q: Queue, trace: seq<Event>)
    requires Good(q, trace) && q.head != []
    ensures var o := NextRequest(q); Good(o.q, trace + o.ev) && o.q.mode == q.mode
  {
    hide Good, HandOut, DoOrdered, MayIssue, FrontInTurn, WellTyped;
    GoodTyped(q, trace);
    DoOrderedKeeps(q, trace);
    var (q1, ok) := DoOrdered(q);
    var begun := BegunBy(q, q1);
    if ok {
      HandOutKeeps(q1, trace + begun);
      assert trace + (begun + HandOut(q1).ev) == trace + begun + HandOut(q1).ev;
    } else {
      assert begun + [] == begun;
    }
  }

  lemma NextInv(q: Queue)
    requires Inv(q) && q.head != []
    ensures Inv(NextRequest(q).q)
  {
    var (q1, ok) := DoOrdered(q);
    DoOrderedOk(q);
    if ok {
      HandOutInv(q1);
    }
    hide Inv, HandOut, DoOrdered;
  }

  lemma HandOutInv(q: Queue)
    requires Inv(q) && q.head != []
    requires q.head[0].Fs? ==> MayIssue(q)
    requires !q.head[0].Fs? ==> FrontInTurn(q)
    ensures Inv(HandOut(q).q)
  {
    if EmptyBarrier(q, q.head[0]) {
      var q0 := Dequeued(q, 0);
      EmptyLeaves(q);
      assert q0.(inFlight := |FsOf(q0.driver)|) == q0;
      ProxyFinishKeeps(q0, BarProxy, 0);
    } else {
      if !q.head[0].Fs? {
        FrontMayIssue(q);
      }
      IssueKeeps(q);
    }
    hide Inv, Finish;
  }

  lemma GrowTrace(mode: Mode, attrs: seq<Attr>, a: Attr, trace: seq<Event>)
    requires TraceOk(mode, attrs, trace)
    ensures TraceOk(mode, attrs + [a], trace)
  {
    forall j | 0 <= j < |trace| ensures EventOk(mode, attrs + [a], trace[..j], trace[j]) {
      assert EventOk(mode, attrs, trace[..j], trace[j]);
    }
  }

  lemma AddLink(q: Queue, a: Attr, back: bool, order: seq<(nat, How)>, trace: seq<Event>)
    requires Good(q, trace) && Enabled(q, Add(a, back, order))
    ensures var o := Apply(q, Add(a, back, order)); Good(o.q, trace + o.ev) && o.q.mode == q.mode
  {
    var q', a' := Apply(q, Add(a, back, order)).q, a.(colour := q.colour);
    AddKeeps(q, a, back, order);
    if a.barrier || back {
      MoveFrame(q, order);
    }
    assert q'.attrs == q.attrs + [a'];
    assert |q.attrs| !in q.done;
    GrowTrace(q.mode, q.attrs, a', trace);
    GrowLink(q, q', trace);
    assert trace + [] == trace;
  }

  lemma {:induction false} MoveFrame(q: Queue, order: seq<(nat, How)>)
    requires WellTyped(q) && CanMove(q, order)
    ensures MoveAll(q, order) == q.(head := MoveAll(q, order).head, sorted := MoveAll(q, order).sorted)
    decreases |order|
  {
    if order != [] {
      MoveFrame(Dispatch(q, order[0].0, order[0].1), order[1..]);
    }
  }

  lemma GrowLink(q: Queue, q': Queue, trace: seq<Event>)
    requires Link(q, trace) && q'.mode == q.mode && |q'.attrs| == |q.attrs| + 1 && q.attrs <= q'.attrs
    requires |q.attrs| !in q.done && (Active(q) ==> q.orig < |q.attrs|)
    requires q'.orig == q.orig && q'.ordseq == q.ordseq && q'.orderr == q.orderr && q'.done == q.done
    ensures Link(q', trace)
  {
  }

  lemma DispatchGood(q: Queue, id: nat, how: How, trace: seq<Event>)
    requires Good(q, trace) && id in q.sorted
    ensures Good(Dispatch(q, id, how), trace)
  {
    DispatchKeeps(q, id, how);
    LinkFrame(q, Dispatch(q, id, how), trace);
    hide Inv, Link, TraceOk;
  }

  lemma DequeueGood(q: Queue, p: nat, trace: seq<Event>)
    requires Good(q, trace) && Enabled(q, Dequeue(p))
    ensures Good(Apply(q, Dequeue(p)).q, trace)
  {
    DequeueKeeps(q, p);
    LinkFrame(q, Apply(q, Dequeue(p)).q, trace);
    hide Inv, Link, TraceOk;
  }

  lemma RequeueGood(q: Queue, r: Rq, trace: seq<Event>)
    requires Good(q, trace) && r in q.driver
    ensures Good(Requeue(q, r), trace)
  {
    RequeueKeeps(q, r);
    LinkFrame(q, Requeue(q, r), trace);
    hide Inv, Link, TraceOk;
  }

  /** Every step keeps the queue and the trace in order. */
  lemma StepKeeps(q: Queue, s: Step, trace: seq<Event>)
    requires Good(q, trace) && Enabled(q, s)
    ensures var o := Apply(q, s); Good(o.q, trace + o.ev) && o.q.mode == q.mode
  {
    hide Good, NextRequest, Finish;
    GoodTyped(q, trace);
    assert trace + [] == trace;
    match s
    case Add(a, back, order) => AddLink(q, a, back, order, trace);
    case DispatchOne(id, how) => DispatchGood(q, id, how, trace);
    case Next => NextKeeps(q, trace);
    case Dequeue(p) => DequeueGood(q, p, trace);
    case Complete(r, error) => CompleteKeeps(q, r, error, trace);
    case PutBack(r) => RequeueGood(q, r, trace);
  }

  lemma CompleteKeeps(q: Queue, r: Rq, error: int, trace: seq<Event>)
    requires Good(q, trace) && r in q.driver
    ensures var o := Apply(q, Complete(r, error)); Good(o.q, trace + o.ev) && o.q.mode == q.mode
  {
    hide Good, Finish;
    GoodTyped(q, trace);
    if r.Fs? {
      FsCompleteKeeps(q, r.id, error, trace);
    } else {
      ProxyDriverKeeps(q, r, error, trace);
    }
  }

  lemma ProxyDriverKeeps(q: Queue, r: Rq, error: int, trace: seq<Event>)
    requires Good(q, trace) && !r.Fs? && r in q.driver
    ensures var o := Finish(q.(driver := q.driver - {r}), r, error);
      Good(o.q, trace + o.ev) && o.q.mode == q.mode
  {
    hide Inv, Link, TraceOk, Finish, Gone, InTurn, FsOf;
    var q0 := q.(driver := q.driver - {r});
    ProxyLeaves(q, r);
    DriverCounts(q, r);
    LinkFrame(q, q0, trace);
    assert q0.(inFlight := |FsOf(q0.driver)|) == q.(driver := q.driver - {r}, inFlight := |FsOf(q.driver - {r})|);
    ProxyCompleteKeeps(q0, r, error, trace);
  }

  lemma DriverCounts(q: Queue, r: Rq)
    requires Inv(q) && r in q.driver
    ensures var q0 := q.(driver := q.driver - {r});
      WellTyped(q0) && q0.inFlight == |FsOf(q0.driver)| + B2N(r in q0.started && IsFs(r))
  {
    CountRemove(q.driver, r);
  }

  lemma FsCompleteKeeps(q: Queue, id: nat, error: int, trace: seq<Event>)
    requires Good(q, trace) && Fs(id) in q.driver
    ensures var o := Apply(q, Complete(Fs(id), error)); Good(o.q, trace + o.ev) && o.q.mode == q.mode
  {
    FsFinishKeeps(q, id, error);
    FsFinishLink(q, id, error, trace);
    hide Inv, Link, TraceOk, Apply;
  }

  lemma ProxyCompleteKeeps(q: Queue, r: Rq, error: int, trace: seq<Event>)
    requires !r.Fs? && WellTyped(q)
    requires q.inFlight == |FsOf(q.driver)| + B2N(r in q.started && IsFs(r))
    requires Gone(q.(inFlight := |FsOf(q.driver)|), r) && InTurn(q.(inFlight := |FsOf(q.driver)|), r)
    requires Link(q, trace) && TraceOk(q.mode, q.attrs, trace)
    ensures var o := Finish(q, r, error); Good(o.q, trace + o.ev) && o.q.mode == q.mode
  {
    ProxyFinishKeeps(q, r, error);
    ProxyFinishLink(q, r, error, trace);
    hide Inv, Link, TraceOk, Gone, InTurn, Finish;
  }

  // ---------------------------------------------------------------------------
  // Theorems about runs
  // ---------------------------------------------------------------------------

  lemma {:induction false} RunGood(mode: Mode, steps: seq<Step>)
    requires Legal(mode, steps)
    ensures var r := Exec(mode, steps); Good(r.q, r.trace) && r.q.mode == mode
    decreases |steps|
  {
    if steps == [] {
      InitInv(mode);
    } else {
      var n := |steps| - 1;
      RunGood(mode, steps[..n]);
      var r := Exec(mode, steps[..n]);
      StepKeeps(r.q, steps[n], r.trace);
    }
  }

  /** No BUG_ON or WARN_ON fires, no proxy is initialised while it is in use, in_flight counts
      the driver's file-system requests, and no request is lost or in two places. */
  lemma RunSafe(mode: Mode, steps: seq<Step>)
    requires Legal(mode, steps)
    ensures var q := Exec(mode, steps).q;
      && WellTyped(q) && !q.bug
      && q.inFlight == |FsOf(q.driver)|
      && (forall id: nat :: id < |q.attrs| ==> Places(q, id) == 1)
  {
    RunGood(mode, steps);
  }

  /** An event that finishes request x. */
  predicate Finishes(e: Event, x: nat) {
    (e.Completed? && e.rq == Fs(x)) || (e.Ended? && e.bar == x)
  }

  predicate StageEnds(e: Event, p: Rq, b: nat) {
    e.Completed? && e.rq == p && e.bar == b
  }

  ghost predicate FinishedBefore(trace: seq<Event>, j: int, x: nat)
    requires j <= |trace|
  {
    exists k :: 0 <= k < j && Finishes(trace[k], x)
  }

  ghost predicate StageBefore(trace: seq<Event>, j: int, p: Rq, b: nat)
    requires j <= |trace|
  {
    exists k :: 0 <= k < j && StageEnds(trace[k], p, b)
  }

  lemma {:induction false} PastMeans(trace: seq<Event>, x: nat, p: Rq, b: nat)
    requires !p.Fs?
    ensures x in Past(trace).finished <==> FinishedBefore(trace, |trace|, x)
    ensures (p, b) in Past(trace).stages <==> StageBefore(trace, |trace|, p, b)
  {
    if trace != [] {
      var n := |trace| - 1;
      var t := trace[..n];
      PastMeans(t, x, p, b);
      assert forall k :: 0 <= k < n ==> t[k] == trace[k];
      assert FinishedBefore(trace, |trace|, x) <==> FinishedBefore(t, n, x) || Finishes(trace[n], x) by {
        if FinishedBefore(t, n, x) {
          var k :| 0 <= k < n && Finishes(t[k], x);
          assert Finishes(trace[k], x);
        }
        assert Finishes(trace[n], x) ==> FinishedBefore(trace, |trace|, x);
      }
      assert StageBefore(trace, |trace|, p, b) <==> StageBefore(t, n, p, b) || StageEnds(trace[n], p, b) by {
        if StageBefore(t, n, p, b) {
          var k :| 0 <= k < n && StageEnds(t[k], p, b);
          assert StageEnds(trace[k], p, b);
        }
        assert StageEnds(trace[n], p, b) ==> StageBefore(trace, |trace|, p, b);
      }
    }
  }

  /** PastMeans for the events before position j. */
  lemma PastBefore(trace: seq<Event>, j: nat, x: nat, p: Rq, b: nat)
    requires j <= |trace| && !p.Fs?
    ensures x in Past(trace[..j]).finished <==> FinishedBefore(trace, j, x)
    ensures (p, b) in Past(trace[..j]).stages <==> StageBefore(trace, j, p, b)
  {
    PastMeans(trace[..j], x, p, b);
    assert forall k :: 0 <= k < j ==> trace[..j][k] == trace[k];
  }

  /** The ordering theorem. In every run of a draining queue, when a pre-flush, barrier write
      or post-flush of barrier b is handed to the driver, every request submitted before b is
      finished; and when an ordinary request is handed to the driver, every barrier submitted
      before it has run its whole sequence. */
  lemma BarrierOrdering(mode: Mode, steps: seq<Step>, j: nat)
    requires Legal(mode, steps) && !mode.tag && j < |Exec(mode, steps).trace|
    ensures var r := Exec(mode, steps); var e := r.trace[j];
      && (e.Issued? && !e.rq.Fs? ==>
            forall x: nat :: x < e.bar ==> FinishedBefore(r.trace, j, x))
      && (e.Issued? && e.rq.Fs? ==>
            forall b: nat :: IsBar(r.q.attrs, b) && b < e.rq.id ==> FinishedBefore(r.trace, j, b))
  {
    RunGood(mode, steps);
    var r := Exec(mode, steps);
    var e := r.trace[j];
    assert EventOk(mode, r.q.attrs, r.trace[..j], e);
    forall x: nat ensures x in Past(r.trace[..j]).finished <==> FinishedBefore(r.trace, j, x) {
      PastBefore(r.trace, j, x, BarProxy, 0);
    }
  }

  /** Within one barrier's sequence a draining queue hands out a stage only after the stages
      before it were completed. */
  lemma StageOrdering(mode: Mode, steps: seq<Step>, j: nat, p: Rq)
    requires Legal(mode, steps) && !mode.tag && j < |Exec(mode, steps).trace| && !p.Fs?
    ensures var r := Exec(mode, steps); var e := r.trace[j];
      e.Issued? && !e.rq.Fs? ==>
        && IsBar(r.q.attrs, e.bar) && e.rq in ProxiesOf(mode, r.q.attrs[e.bar])
        && (p in ProxiesOf(mode, r.q.attrs[e.bar]) && StageOf(p) < StageOf(e.rq) ==>
              StageBefore(r.trace, j, p, e.bar))
  {
    RunGood(mode, steps);
    var r := Exec(mode, steps);
    assert EventOk(mode, r.q.attrs, r.trace[..j], r.trace[j]);
    PastBefore(r.trace, j, 0, p, r.trace[j].bar);
  }

  /** In both modes and for any order of completions, a request is finished at most once, and
      is not handed out after that; a barrier's stage is completed at most once. */
  lemma OnceOnly(mode: Mode, steps: seq<Step>, j: nat, k: nat)
    requires Legal(mode, steps) && k < j < |Exec(mode, steps).trace|
    ensures var t := Exec(mode, steps).trace;
      && (forall x: nat :: Finishes(t[k], x) ==> !Finishes(t[j], x) && !(t[j].Issued? && t[j].rq == Fs(x)))
      && (t[k].Completed? && !t[k].rq.Fs? ==> !StageEnds(t[j], t[k].rq, t[k].bar))
  {
    RunGood(mode, steps);
    var r := Exec(mode, steps);
    var t := r.trace;
    assert EventOk(mode, r.q.attrs, t[..j], t[j]);
    forall x: nat | Finishes(t[k], x) ensures !Finishes(t[j], x) && !(t[j].Issued? && t[j].rq == Fs(x)) {
      PastBefore(t, j, x, BarProxy, 0);
      assert FinishedBefore(t, j, x);
    }
    if t[k].Completed? && !t[k].rq.Fs? {
      PastBefore(t, j, 0, t[k].rq, t[k].bar);
      assert StageBefore(t, j, t[k].rq, t[k].bar) by { assert StageEnds(t[k], t[k].rq, t[k].bar); }
    }
  }

  /** In both modes a barrier is ended only after all the proxies it needs were completed, and
      with the first error any of them met. */
  lemma EndedAfterAllStages(mode: Mode, steps: seq<Step>, j: nat, p: Rq)
    requires Legal(mode, steps) && j < |Exec(mode, steps).trace| && !p.Fs?
    ensures var r := Exec(mode, steps); var e := r.trace[j];
      e.Ended? ==>
        && IsBar(r.q.attrs, e.bar)
        && (p in ProxiesOf(mode, r.q.attrs[e.bar]) ==> StageBefore(r.trace, j, p, e.bar))
        && e.error == ErrorOf(r.trace[..j], e.bar)
  {
    RunGood(mode, steps);
    var r := Exec(mode, steps);
    assert EventOk(mode, r.q.attrs, r.trace[..j], r.trace[j]);
    if r.trace[j].Ended? {
      PastBefore(r.trace, j, 0, p, r.trace[j].bar);
    }
  }

  /** ... and it is ended as soon as they all are. */
  lemma EndedWhenAllStages(mode: Mode, steps: seq<Step>, b: nat)
    requires Legal(mode, steps) && IsBar(Exec(mode, steps).q.attrs, b)
    requires var r := Exec(mode, steps);
      forall p: Rq :: p in ProxiesOf(mode, r.q.attrs[b]) ==> StageBefore(r.trace, |r.trace|, p, b)
    ensures var t := Exec(mode, steps).trace; exists k :: 0 <= k < |t| && Finishes(t[k], b)
  {
    RunGood(mode, steps);
    var r := Exec(mode, steps);
    forall p: Rq | p in ProxiesOf(mode, r.q.attrs[b]) ensures (p, b) in Past(r.trace).stages {
      PastMeans(r.trace, 0, p, b);
    }
    assert BarProxy in ProxiesOf(mode, r.q.attrs[b]);
    PastMeans(r.trace, b, BarProxy, b);
    AllStagesDone(r.q, r.trace, b);
  }

  lemma AllStagesDone(q: Queue, trace: seq<Event>, b: nat)
    requires Good(q, trace) && IsBar(q.attrs, b)
    requires forall p: Rq :: p in ProxiesOf(q.mode, q.attrs[b]) ==> (p, b) in Past(trace).stages
    ensures b in Past(trace).finished
  {
    assert (BarProxy, b) in Past(trace).stages;
  }

  /** A draining queue never waits for nothing: while a sequence runs and the driver holds no
      request, looking at the queue hands out or completes a request. */
  lemma NeverStalls(mode: Mode, steps: seq<Step>)
    requires Legal(mode, steps) && !mode.tag
    ensures var q := Exec(mode, steps).q;
      Active(q) && q.driver == {} ==> WellTyped(q) && q.head != [] && NextRequest(q).ev != []
  {
    RunGood(mode, steps);
    var q := Exec(mode, steps).q;
    if Active(q) && q.driver == {} {
      FrontReady(q);
    }
  }

  lemma FrontReady(q: Queue)
    requires Inv(q) && !q.mode.tag && Active(q) && q.driver == {}
    ensures q.head != [] && NextRequest(q).ev != []
  {
    assert FsOf(q.driver) == {};
    if q.ordseq.drain {
      var p := if !q.ordseq.pre then PreFlush else if !q.ordseq.bar then BarProxy else PostFlush;
      assert ProxyOk(q, p) && p in q.head;
      var k :| 0 <= k < |q.head| && q.head[k] == p;
      assert Class(q.orig, q.head[0]) <= Class(q.orig, q.head[k]);
      assert !q.head[0].Fs?;
      assert ProxyOk(q, q.head[0]);
    } else {
      OldColour(q, q.head[0].id);
    }
  }
}
