/**
  The asynchronous chain-IV generator. Callers and work items share one context: the INUSE
  bit, the chaining value, the function pointer that selects the first-call variant, an error
  slot, a bounded request queue and a work item. Every access to that shared state is one
  step of one thread, and the steps of all threads interleave freely.

  A thread is created by a call (it handles the request with its own number) or by the work
  queue running the pending item. `BUG_ON(!queued)` sets `bug`.
*/
module ChainIv {
  import opened Options

  type Iv = nat

  /** The point a thread has reached: the routine it is in, and the access it makes next. */
  datatype Pc =
    | First(f: FirstPc)   // async_chainiv_givencrypt_first
    | Giv(g: GivPc)       // async_chainiv_givencrypt
    | Post(p: PostPc)     // async_chainiv_postpone_request
    | Tail(a: TailPc)     // async_chainiv_givencrypt_tail
    | Sched(s: SchedPc)   // async_chainiv_schedule_work
    | Work                // async_chainiv_do_postponed: dequeue under the lock
    | Done

  datatype FirstPc = FirstTest | ComparePointer | SwitchPointer | DrawRandom | FirstClear
  datatype GivPc = GivTest | GivQlen | GivClear
  datatype PostPc = Enqueue | PostTest | PostError
  datatype TailPc = CopyIv | Encrypt | StoreIv
  datatype SchedPc = ReadError | SchedQlen | SchedClear | RereadQlen | SchedTest | Schedule

  /** Between a successful test-and-set and the clearing or handing over of INUSE. */
  predicate Holds(pc: Pc) {
    match pc
    case First(f) => f != FirstTest
    case Giv(g) => g != GivTest
    case Post(p) => p == PostError
    case Tail(_) => true
    case Sched(s) => s != RereadQlen && s != SchedTest
    case Work => true
    case Done => false
  }

  /** Not holding INUSE, but certain to look at the queue or to try for INUSE again. */
  predicate Committed(pc: Pc) {
    !Holds(pc) && pc != Done
  }

  /** A thread: the request it works on, and its local variables. For the specification, `own`
      remembers the result of its own request, and `ahead` the number of requests that had
      been queued when it decided to go ahead without queueing. */
  datatype Thread = Thread(pc: Pc, worker: bool, req: nat, own: int, err: int, giv: Iv, info: Iv, ahead: nat)

  /** One call of the underlying cipher: who, with which IV, and the chaining value it left. */
  datatype Enc = Enc(req: nat, giv: Iv, error: int, out: Iv, direct: bool, ahead: nat)

  datatype Ctx = Ctx(
    inuse: bool,
    switched: bool,          // the function pointer no longer selects the first-call variant
    iv: Iv,
    err: int,
    queue: seq<nat>,
    maxQlen: nat,
    pending: bool,           // the work item is scheduled and not yet running
    bug: bool,
    seed: Option<Iv>,        // the random bytes, once drawn
    accepted: seq<nat>,      // requests put on the queue, in order
    log: seq<Enc>)           // calls of the cipher, in order

  datatype System = System(ctx: Ctx, threads: map<nat, Thread>)

  const EINPROGRESS := -115
  const EBUSY := -16

  function Init(maxQlen: nat, iv: Iv): System {
    System(Ctx(false, false, iv, 0, [], maxQlen, false, false, None, [], []), map[])
  }

  /** What the environment decides in a step. */
  datatype Choice = Choice(random: Iv, error: int, info: Iv, mayBacklog: bool)

  datatype Step =
    | Call(t: nat)               // a caller reads the function pointer and enters
    | RunWork(t: nat)            // the work queue runs the pending item
    | Go(t: nat, c: Choice)      // thread t takes its next step

  predicate Enabled(s: System, step: Step) {
    match step
    case Call(t) => t !in s.threads
    case RunWork(t) => t !in s.threads && s.ctx.pending
    case Go(t, _) => t in s.threads && s.threads[t].pc != Done
  }

  /** What one thread does to the shared context and to itself. */
  datatype Move = Move(ctx: Ctx, th: Thread)

  /** Test-and-set of INUSE: continue at `yes` if the bit was clear, at `no` if it was set. */
  function TestAndSet(c: Ctx, th: Thread, yes: Pc, no: Pc): Move {
    if c.inuse then Move(c, th.(pc := no)) else Move(c.(inuse := true), th.(pc := yes))
  }

  function Clear(c: Ctx, th: Thread, next: Pc): Move {
    Move(c.(inuse := false), th.(pc := next))
  }

  function FirstStep(c: Ctx, th: Thread, f: FirstPc, e: Choice): Move {
    match f
    case FirstTest => TestAndSet(c, th, First(ComparePointer), Giv(GivTest))
    case ComparePointer => Move(c, th.(pc := First(if c.switched then FirstClear else SwitchPointer)))
    case SwitchPointer => Move(c.(switched := true), th.(pc := First(DrawRandom)))
    case DrawRandom => Move(c.(iv := e.random, seed := Some(e.random)), th.(pc := First(FirstClear)))
    case FirstClear => Clear(c, th, Giv(GivTest))
  }

  function GivStep(c: Ctx, th: Thread, g: GivPc): Move {
    match g
    case GivTest => TestAndSet(c, th, Giv(GivQlen), Post(Enqueue))
    case GivQlen =>
      if c.queue != [] then Move(c, th.(pc := Giv(GivClear)))
      else Move(c, th.(pc := Tail(CopyIv), ahead := |c.accepted|))
    case GivClear => Clear(c, th, Post(Enqueue))
  }

  /** The first case is crypto_enqueue_request: a full queue takes only a request that may be
      put on the backlog, and says so. */
  function PostStep(c: Ctx, th: Thread, p: PostPc, e: Choice): Move {
    match p
    case Enqueue =>
      var full := |c.queue| >= c.maxQlen;
      var err := if full then EBUSY else EINPROGRESS;
      Move(if full && !e.mayBacklog then c
           else c.(queue := c.queue + [th.req], accepted := c.accepted + [th.req]),
           th.(pc := Post(PostTest), err := err, own := err))
    case PostTest => TestAndSet(c, th, Post(PostError), Done)
    case PostError => Move(c.(err := th.err), th.(pc := Sched(ReadError)))
  }

  /** The cipher may fail, and may leave any chaining value in the request. */
  function TailStep(c: Ctx, th: Thread, a: TailPc, e: Choice): Move {
    match a
    case CopyIv => Move(c, th.(pc := Tail(Encrypt), giv := c.iv))
    case Encrypt =>
      Move(c.(err := e.error,
              log := c.log + [Enc(th.req, th.giv, e.error, e.info, !th.worker, th.ahead)]),
           th.(pc := if e.error != 0 then Sched(ReadError) else Tail(StoreIv),
               info := e.info, own := e.error))
    case StoreIv => Move(c.(iv := th.info), th.(pc := Sched(ReadError)))
  }

  function SchedStep(c: Ctx, th: Thread, s: SchedPc): Move {
    match s
    case ReadError => Move(c, th.(pc := Sched(SchedQlen), err := c.err))
    case SchedQlen => Move(c, th.(pc := Sched(if c.queue == [] then SchedClear else Schedule)))
    case SchedClear => Clear(c, th, Sched(RereadQlen))
    case RereadQlen => Move(c, th.(pc := if c.queue == [] then Done else Sched(SchedTest)))
    case SchedTest => TestAndSet(c, th, Sched(Schedule), Done)
    case Schedule => Move(c.(bug := c.bug || c.pending, pending := true), th.(pc := Done))
  }

  function WorkStep(c: Ctx, th: Thread): Move {
    if c.queue == [] then Move(c, th.(pc := Sched(ReadError), own := c.err))
    else Move(c.(queue := c.queue[1..]), th.(pc := Tail(CopyIv), req := c.queue[0]))
  }

  function Advance(c: Ctx, th: Thread, e: Choice): Move
    requires th.pc != Done
  {
    match th.pc
    case First(f) => FirstStep(c, th, f, e)
    case Giv(g) => GivStep(c, th, g)
    case Post(p) => PostStep(c, th, p, e)
    case Tail(a) => TailStep(c, th, a, e)
    case Sched(s) => SchedStep(c, th, s)
    case Work => WorkStep(c, th)
  }

  function MoveOf(s: System, step: Step): Move
    requires Enabled(s, step)
  {
    match step
    case Call(t) =>
      Move(s.ctx, Thread(if s.ctx.switched then Giv(GivTest) else First(FirstTest), false, t, 0, 0, 0, 0, 0))
    case RunWork(t) =>
      Move(s.ctx.(pending := false), Thread(Work, true, t, 0, 0, 0, 0, 0))
    case Go(t, e) => Advance(s.ctx, s.threads[t], e)
  }

  function Apply(s: System, step: Step): System
    requires Enabled(s, step)
  {
    var m := MoveOf(s, step);
    System(m.ctx, s.threads[step.t := m.th])
  }

  // ---------------------------------------------------------------------------
  // The invariant
  // ---------------------------------------------------------------------------

  ghost predicate Holder(s: System, t: nat) {
    t in s.threads && Holds(s.threads[t].pc)
  }

  /** INUSE has exactly one owner while it is set - a thread or the scheduled work item - and
      none while it is clear. */
  ghost predicate TokenOk(s: System) {
    && (forall t, u :: Holder(s, t) && Holder(s, u) ==> t == u)
    && (forall t :: Holder(s, t) ==> s.ctx.inuse && !s.ctx.pending)
    && (s.ctx.pending ==> s.ctx.inuse)
    && (s.ctx.inuse && !s.ctx.pending ==> exists t :: Holder(s, t))
    && !s.ctx.bug
  }

  /** A request on the queue is never forgotten. */
  ghost predicate WakeupOk(s: System) {
    s.ctx.queue != [] && !s.ctx.inuse ==> exists t :: t in s.threads && Committed(s.threads[t].pc)
  }

  /** Until the random bytes are drawn, only the drawing thread gets anywhere. */
  ghost predicate SeedOk(s: System) {
    && (s.ctx.seed.None? ==>
          && !s.ctx.pending && s.ctx.log == []
          && (!s.ctx.inuse ==> !s.ctx.switched && forall t :: t in s.threads ==> s.threads[t].pc == First(FirstTest)))
    && (s.ctx.seed.Some? ==> s.ctx.switched)
    && (forall t :: t in s.threads ==> SeedLocal(s.ctx, s.threads[t]))
  }

  ghost predicate SeedLocal(c: Ctx, th: Thread) {
    && (Holds(th.pc) && c.seed.None? ==> th.pc in {First(ComparePointer), First(SwitchPointer), First(DrawRandom)})
    && (th.pc in {First(ComparePointer), First(SwitchPointer)} && c.seed.None? ==> !c.switched)
    && (th.pc == First(SwitchPointer) ==> c.seed.None?)
    && (th.pc == First(DrawRandom) ==> c.switched && c.seed.None?)
  }

  /** The chaining value left by the last successful call, starting from iv. */
  ghost function Chained(iv: Iv, log: seq<Enc>): Iv {
    if log == [] then iv
    else
      var e := log[|log| - 1];
      if e.error == 0 then e.out else Chained(iv, log[..|log| - 1])
  }

  /** Every call used the value the last successful call before it left. */
  ghost predicate ChainOk(s: System) {
    s.ctx.seed.Some? ==>
      && LogChained(s.ctx.seed.value, s.ctx.log)
      && ((forall t :: t in s.threads ==> s.threads[t].pc != Tail(StoreIv)) ==>
            s.ctx.iv == Chained(s.ctx.seed.value, s.ctx.log))
      && (forall t :: t in s.threads ==> ChainLocal(s.ctx, s.threads[t]))
  }

  ghost predicate LogChained(seed: Iv, log: seq<Enc>) {
    forall i :: 0 <= i < |log| ==> log[i].giv == Chained(seed, log[..i])
  }

  ghost predicate ChainLocal(c: Ctx, th: Thread)
    requires c.seed.Some?
  {
    && (th.pc == Tail(Encrypt) ==> th.giv == c.iv)
    && (th.pc == Tail(StoreIv) ==> th.info == Chained(c.seed.value, c.log))
  }

  /** The requests that went through the queue, in the order they were encrypted. */
  ghost function Queued(log: seq<Enc>): seq<nat> {
    if log == [] then []
    else
      var e, before := log[|log| - 1], Queued(log[..|log| - 1]);
      if e.direct then before else before + [e.req]
  }

  /** The thread is a work item with a request it has not yet encrypted. */
  predicate InHand(th: Thread) {
    th.worker && th.pc in {Tail(CopyIv), Tail(Encrypt)}
  }

  ghost predicate OrderOk(s: System) {
    && ((forall t :: t in s.threads ==> !InHand(s.threads[t])) ==>
          s.ctx.accepted == Queued(s.ctx.log) + s.ctx.queue)
    && (forall t :: t in s.threads ==> OrderLocal(s.ctx, s.threads[t]))
    && LogFair(s.ctx.log)
  }

  /** A direct call came after every request that had been queued when it was decided on. */
  ghost predicate LogFair(log: seq<Enc>) {
    forall i :: 0 <= i < |log| && log[i].direct ==> log[i].ahead == |Queued(log[..i])|
  }

  ghost predicate OrderLocal(c: Ctx, th: Thread) {
    && (InHand(th) ==> c.accepted == Queued(c.log) + [th.req] + c.queue)
    && (!th.worker && th.pc in {Tail(CopyIv), Tail(Encrypt)} ==> th.ahead == |Queued(c.log)|)
    && (th.pc == Work ==> th.worker)
    && (th.worker ==> !Calling(th.pc))
  }

  /** The error slot still holds the thread's own result when it reads it. */
  ghost predicate ErrorOk(s: System) {
    forall t :: t in s.threads ==> ErrorLocal(s.ctx, s.threads[t])
  }

  ghost predicate ErrorLocal(c: Ctx, th: Thread) {
    && (th.pc in {Sched(ReadError), Tail(StoreIv)} ==> c.err == th.own)
    && (th.pc == Done || th.pc in {Post(PostTest), Post(PostError)} ==> th.err == th.own)
    && (th.pc.Sched? && th.pc.s != ReadError ==> th.err == th.own)
  }

  ghost predicate Inv(s: System) {
    TokenOk(s) && WakeupOk(s) && SeedOk(s) && ChainOk(s) && OrderOk(s) && ErrorOk(s)
  }

  lemma {:induction false} InitInv(maxQlen: nat, iv: Iv)
    ensures Inv(Init(maxQlen, iv))
  {
  }

  // ---------------------------------------------------------------------------
  // Every step keeps it
  // ---------------------------------------------------------------------------

  /** INUSE is taken only when clear. */
  ghost predicate Takes(c: Ctx, th: Thread, m: Move) {
    var before, after := Holds(th.pc), Holds(m.th.pc);
    && (!before && after ==> !c.inuse && m.ctx.inuse && m.ctx.pending == c.pending)
    && (before == after ==> m.ctx.inuse == c.inuse && m.ctx.pending == c.pending)
  }

  lemma {:induction false} CallTakes(c: Ctx, th: Thread, e: Choice)
    ensures th.pc.First? ==> Takes(c, th, FirstStep(c, th, th.pc.f, e))
    ensures th.pc.Giv? ==> Takes(c, th, GivStep(c, th, th.pc.g))
  {
  }

  lemma {:induction false} QueueTakes(c: Ctx, th: Thread, e: Choice)
    ensures th.pc.Post? ==> Takes(c, th, PostStep(c, th, th.pc.p, e))
    ensures th.pc.Work? ==> Takes(c, th, WorkStep(c, th))
  {
  }

  lemma {:induction false} TailTakes(c: Ctx, th: Thread, e: Choice)
    ensures th.pc.Tail? ==> Takes(c, th, TailStep(c, th, th.pc.a, e))
    ensures th.pc.Sched? ==> Takes(c, th, SchedStep(c, th, th.pc.s))
  {
  }

  lemma {:induction false} TakeEffect(c: Ctx, th: Thread, e: Choice)
    requires th.pc != Done
    ensures Takes(c, th, Advance(c, th, e))
  {
    hide FirstStep, GivStep, PostStep, TailStep, SchedStep, WorkStep, Takes;
    CallTakes(c, th, e);
    QueueTakes(c, th, e);
    TailTakes(c, th, e);
  }

  /** INUSE is given up by its owner, or handed over to the work item. */
  lemma {:induction false} GiveEffect(c: Ctx, th: Thread, e: Choice)
    requires th.pc != Done
    ensures var m := Advance(c, th, e); var before, after := Holds(th.pc), Holds(m.th.pc);
      && (before && !after ==>
            (!m.ctx.inuse && m.ctx.pending == c.pending && Committed(m.th.pc))
            || (m.ctx.inuse == c.inuse && m.ctx.pending))
      && (m.ctx.bug ==> c.bug || (before && c.pending))
  {
  }

  /** Who does not hold INUSE changes nothing but INUSE and the tail of the queue. */
  lemma {:induction false} OthersEffect(c: Ctx, th: Thread, e: Choice)
    requires th.pc != Done && !Holds(th.pc)
    ensures var m := Advance(c, th, e);
      && m.ctx == c.(inuse := m.ctx.inuse, queue := m.ctx.queue, accepted := m.ctx.accepted)
      && ((m.ctx.queue == c.queue && m.ctx.accepted == c.accepted)
          || (m.ctx.queue == c.queue + [th.req] && m.ctx.accepted == c.accepted + [th.req]))
  {
  }

  lemma {:induction false} CommitEffect(c: Ctx, th: Thread, e: Choice)
    requires th.pc != Done && !Holds(th.pc)
    ensures var m := Advance(c, th, e);
      && (Committed(m.th.pc) || m.ctx.inuse || m.ctx.queue == [])
      && (m.ctx.queue != c.queue ==> Committed(m.th.pc))
  {
  }

  ghost predicate Before(s: System, step: Step)
    requires Enabled(s, step)
  {
    step.Go? && Holds(s.threads[step.t].pc)
  }

  lemma {:induction false} TokenStep(s: System, step: Step)
    requires TokenOk(s) && Enabled(s, step)
    ensures TokenOk(Apply(s, step))
  {
    var s', t := Apply(s, step), step.t;
    if step.Go? {
      TakeEffect(s.ctx, s.threads[t], step.c);
      GiveEffect(s.ctx, s.threads[t], step.c);
    }
    assert Before(s, step) ==> Holder(s, t);
    hide Advance;
    assert forall u :: u != t ==> (Holder(s', u) <==> Holder(s, u));
    if s'.ctx.inuse && !s'.ctx.pending && !Holder(s', t) {
      var u :| Holder(s, u);
      assert Holder(s', u);
    }
  }

  /** The thread that leaves INUSE clear, or adds to the queue, will itself look again. */
  lemma {:induction false} WakeupStep(s: System, step: Step)
    requires TokenOk(s) && Enabled(s, step)
    ensures WakeupOk(Apply(s, step))
  {
    var s', t := Apply(s, step), step.t;
    if step.Go? {
      TakeEffect(s.ctx, s.threads[t], step.c);
      GiveEffect(s.ctx, s.threads[t], step.c);
      if !Holds(s.threads[t].pc) {
        CommitEffect(s.ctx, s.threads[t], step.c);
      }
    }
    assert Before(s, step) ==> Holder(s, t);
    hide Advance;
    assert s'.ctx.queue != [] && !s'.ctx.inuse ==> Committed(s'.threads[t].pc);
  }

  lemma {:induction false} SeedEffect(c: Ctx, th: Thread, e: Choice)
    requires th.pc != Done && SeedLocal(c, th) && (c.seed.Some? ==> c.switched)
    requires c.seed.None? && !c.inuse ==> th.pc == First(FirstTest) && !c.switched
    requires Holds(th.pc) ==> c.inuse
    ensures var m := Advance(c, th, e);
      && SeedLocal(m.ctx, m.th) && (m.ctx.seed.Some? ==> m.ctx.switched)
      && (m.ctx.seed.None? ==> c.seed.None? && m.ctx.inuse && m.ctx.pending == c.pending && m.ctx.log == c.log)
      && (!Holds(th.pc) ==> m.ctx.seed == c.seed && m.ctx.switched == c.switched)
  {
  }

  lemma {:induction false} SeedStep(s: System, step: Step)
    requires TokenOk(s) && SeedOk(s) && Enabled(s, step)
    ensures SeedOk(Apply(s, step))
  {
    var s', t := Apply(s, step), step.t;
    assert Before(s, step) ==> Holder(s, t);
    if step.Go? {
      SeedEffect(s.ctx, s.threads[t], step.c);
    }
    hide Advance;
    forall u | u in s'.threads && u != t ensures SeedLocal(s'.ctx, s'.threads[u]) {
      assert SeedLocal(s.ctx, s.threads[u]);
      assert Holds(s.threads[u].pc) ==> Holder(s, u);
    }
  }

  lemma {:induction false} ErrorEffect(c: Ctx, th: Thread, e: Choice)
    requires th.pc != Done && ErrorLocal(c, th)
    ensures var m := Advance(c, th, e); ErrorLocal(m.ctx, m.th)
  {
  }

  lemma {:induction false} ErrorStep(s: System, step: Step)
    requires TokenOk(s) && ErrorOk(s) && Enabled(s, step)
    ensures ErrorOk(Apply(s, step))
  {
    var s', t := Apply(s, step), step.t;
    assert Before(s, step) ==> Holder(s, t);
    if step.Go? {
      ErrorEffect(s.ctx, s.threads[t], step.c);
      if !Holds(s.threads[t].pc) {
        OthersEffect(s.ctx, s.threads[t], step.c);
      }
    }
    hide Advance;
    forall u | u in s'.threads && u != t ensures ErrorLocal(s'.ctx, s'.threads[u]) {
      assert ErrorLocal(s.ctx, s.threads[u]);
      assert Holds(s.threads[u].pc) ==> Holder(s, u);
    }
  }

  lemma {:induction false} LogExtend(iv: Iv, log: seq<Enc>, e: Enc)
    ensures Chained(iv, log + [e]) == if e.error == 0 then e.out else Chained(iv, log)
    ensures Queued(log + [e]) == if e.direct then Queued(log) else Queued(log) + [e.req]
    ensures LogChained(iv, log) && e.giv == Chained(iv, log) ==> LogChained(iv, log + [e])
    ensures LogFair(log) && (e.direct ==> e.ahead == |Queued(log)|) ==> LogFair(log + [e])
  {
    var log' := log + [e];
    assert log'[..|log|] == log;
    assert forall i :: 0 <= i < |log| ==> log'[..i] == log[..i];
  }

  /** The part of ChainOk that speaks of the context and of the thread holding INUSE. */
  ghost predicate ChainHolder(c: Ctx, th: Thread)
    requires c.seed.Some?
  {
    && LogChained(c.seed.value, c.log) && ChainLocal(c, th)
    && (th.pc != Tail(StoreIv) ==> c.iv == Chained(c.seed.value, c.log))
  }

  /** Only these three points of the code touch the chaining value or call the cipher. */
  lemma {:induction false} IvEffect(c: Ctx, th: Thread, e: Choice)
    requires th.pc != Done && th.pc !in {Tail(Encrypt), Tail(StoreIv), First(DrawRandom)}
    ensures var m := Advance(c, th, e); m.ctx.iv == c.iv && m.ctx.log == c.log && m.ctx.seed == c.seed
  {
  }

  lemma {:induction false} GivEffect(c: Ctx, th: Thread, e: Choice)
    requires th.pc != Done && th.pc != Tail(Encrypt)
    ensures var m := Advance(c, th, e);
      m.th.pc != Tail(StoreIv) && (m.th.pc == Tail(Encrypt) ==> m.th.giv == c.iv)
  {
  }

  lemma {:induction false} ChainEffect(c: Ctx, th: Thread, e: Choice)
    requires th.pc != Done && SeedLocal(c, th)
    requires c.seed.Some? ==> ChainHolder(c, th)
    requires c.seed.None? ==> c.log == []
    ensures var m := Advance(c, th, e); m.ctx.seed.Some? ==> ChainHolder(m.ctx, m.th)
  {
    if th.pc == Tail(Encrypt) {
      if c.seed.Some? {
        LogExtend(c.seed.value, c.log, Enc(th.req, th.giv, e.error, e.info, !th.worker, th.ahead));
      }
    } else if th.pc != Tail(StoreIv) && th.pc != First(DrawRandom) {
      hide Advance;
      IvEffect(c, th, e);
      GivEffect(c, th, e);
    }
  }

  lemma {:induction false} ChainHolderOf(s: System, t: nat)
    requires TokenOk(s) && ChainOk(s) && Holder(s, t) && s.ctx.seed.Some?
    ensures ChainHolder(s.ctx, s.threads[t])
  {
    hide Chained, LogChained;
    forall u | u in s.threads && u != t ensures s.threads[u].pc != Tail(StoreIv) {
      assert s.threads[u].pc == Tail(StoreIv) ==> Holder(s, u);
    }
  }

  lemma {:induction false} ChainHolderMoves(s: System, t: nat, m: Move)
    requires TokenOk(s) && Holder(s, t) && (m.ctx.seed.Some? ==> ChainHolder(m.ctx, m.th))
    ensures ChainOk(System(m.ctx, s.threads[t := m.th]))
  {
    hide Chained, LogChained;
    var s' := System(m.ctx, s.threads[t := m.th]);
    assert s'.threads[t] == m.th;
    forall u | u in s.threads && u != t ensures !s.threads[u].pc.Tail? {
      assert s.threads[u].pc.Tail? ==> Holder(s, u);
    }
  }

  lemma {:induction false} ChainOtherMoves(s: System, t: nat, m: Move)
    requires ChainOk(s) && (t in s.threads ==> s.threads[t].pc != Tail(StoreIv))
    requires m.ctx.seed == s.ctx.seed && m.ctx.iv == s.ctx.iv && m.ctx.log == s.ctx.log
    requires m.th.pc != Tail(StoreIv) && (m.th.pc == Tail(Encrypt) ==> m.th.giv == m.ctx.iv)
    ensures ChainOk(System(m.ctx, s.threads[t := m.th]))
  {
    hide Chained, LogChained;
    var s' := System(m.ctx, s.threads[t := m.th]);
    if forall u :: u in s'.threads ==> s'.threads[u].pc != Tail(StoreIv) {
      forall u | u in s.threads ensures s.threads[u].pc != Tail(StoreIv) {
        assert u != t ==> s'.threads[u] == s.threads[u];
      }
    }
  }

  lemma {:induction false} ChainStep(s: System, step: Step)
    requires TokenOk(s) && SeedOk(s) && ChainOk(s) && Enabled(s, step)
    ensures ChainOk(Apply(s, step))
  {
    hide Chained, LogChained, ChainOk, TokenOk, Advance;
    var m, t := MoveOf(s, step), step.t;
    if Before(s, step) {
      if s.ctx.seed.Some? {
        ChainHolderOf(s, t);
      }
      ChainEffect(s.ctx, s.threads[t], step.c);
      ChainHolderMoves(s, t, m);
    } else {
      if step.Go? {
        OthersEffect(s.ctx, s.threads[t], step.c);
        GivEffect(s.ctx, s.threads[t], step.c);
      }
      ChainOtherMoves(s, t, m);
    }
  }

  /** The part of OrderOk that speaks of the context and of the thread holding INUSE. */
  ghost predicate OrderHolder(c: Ctx, th: Thread) {
    && LogFair(c.log) && OrderLocal(c, th)
    && (!InHand(th) ==> c.accepted == Queued(c.log) + c.queue)
  }

  /** Only these four points of the code touch the queue, call the cipher or decide to. */
  lemma {:induction false} QueueEffect(c: Ctx, th: Thread, e: Choice)
    requires th.pc != Done && th.pc !in {Giv(GivQlen), Post(Enqueue), Tail(Encrypt), Work}
    ensures var m := Advance(c, th, e);
      m.ctx.queue == c.queue && m.ctx.accepted == c.accepted && m.ctx.log == c.log
  {
    match th.pc
    case First(_) =>
    case Giv(_) =>
    case Post(_) =>
    case Tail(_) =>
    case Sched(_) =>
  }

  predicate Calling(pc: Pc) { pc.First? || pc.Giv? || pc.Post? }

  lemma {:induction false} ThreadEffect(c: Ctx, th: Thread, e: Choice)
    requires th.pc != Done && th.pc !in {Giv(GivQlen), Post(Enqueue), Tail(Encrypt), Work}
    ensures var m := Advance(c, th, e);
      && m.th.ahead == th.ahead && m.th.req == th.req && m.th.worker == th.worker && m.th.pc != Work
      && (m.th.pc in {Tail(CopyIv), Tail(Encrypt)} <==> th.pc == Tail(CopyIv))
      && (!Calling(th.pc) ==> !Calling(m.th.pc))
  {
  }

  lemma {:induction false} OrderEffect(c: Ctx, th: Thread, e: Choice)
    requires th.pc != Done && Holds(th.pc) && OrderHolder(c, th)
    ensures var m := Advance(c, th, e); OrderHolder(m.ctx, m.th)
  {
    if th.pc == Tail(Encrypt) {
      LogExtend(0, c.log, Enc(th.req, th.giv, e.error, e.info, !th.worker, th.ahead));
    } else if th.pc == Giv(GivQlen) {
      assert Queued(c.log) + [] == Queued(c.log);
    } else if th.pc == Work {
      if c.queue != [] {
        assert c.accepted == Queued(c.log) + [c.queue[0]] + c.queue[1..];
      }
    } else {
      hide Advance, Queued;
      QueueEffect(c, th, e);
      ThreadEffect(c, th, e);
    }
  }

  lemma {:induction false} OrderHolderOf(s: System, t: nat)
    requires TokenOk(s) && OrderOk(s) && Holder(s, t)
    ensures OrderHolder(s.ctx, s.threads[t])
  {
    hide Queued, LogFair;
    forall u | u in s.threads && u != t ensures !InHand(s.threads[u]) {
      assert s.threads[u].pc.Tail? ==> Holder(s, u);
    }
  }

  lemma {:induction false} OrderHolderMoves(s: System, t: nat, m: Move)
    requires TokenOk(s) && OrderOk(s) && Holder(s, t) && OrderHolder(m.ctx, m.th)
    ensures OrderOk(System(m.ctx, s.threads[t := m.th]))
  {
    hide Queued, LogFair;
    var s' := System(m.ctx, s.threads[t := m.th]);
    assert s'.threads[t] == m.th;
    forall u | u in s.threads && u != t ensures OrderLocal(m.ctx, s.threads[u]) {
      assert s.threads[u].pc.Tail? ==> Holder(s, u);
      assert OrderLocal(s.ctx, s.threads[u]);
    }
  }

  /** A request more at the end of the queue. */
  lemma {:induction false} OneMoreQueued(c: Ctx, c': Ctx, th: Thread, r: nat)
    requires OrderLocal(c, th) && c'.log == c.log && c'.queue == c.queue + [r] && c'.accepted == c.accepted + [r]
    ensures OrderLocal(c', th)
    ensures c.accepted == Queued(c.log) + c.queue ==> c'.accepted == Queued(c'.log) + c'.queue
  {
    hide Queued;
    var done, q := Queued(c.log), c.queue;
    assert (done + q) + [r] == done + (q + [r]);
    assert (done + [th.req] + q) + [r] == done + [th.req] + (q + [r]);
  }

  lemma {:induction false} OrderOtherMoves(s: System, t: nat, m: Move, r: nat)
    requires OrderOk(s) && (t in s.threads ==> !InHand(s.threads[t])) && OrderLocal(s.ctx, m.th) && !InHand(m.th)
    requires m.ctx.log == s.ctx.log
    requires (m.ctx.queue == s.ctx.queue && m.ctx.accepted == s.ctx.accepted)
      || (m.ctx.queue == s.ctx.queue + [r] && m.ctx.accepted == s.ctx.accepted + [r])
    ensures OrderOk(System(m.ctx, s.threads[t := m.th]))
  {
    hide Queued, LogFair;
    var s' := System(m.ctx, s.threads[t := m.th]);
    forall u | u in s'.threads ensures OrderLocal(m.ctx, s'.threads[u]) {
      assert OrderLocal(s.ctx, s'.threads[u]) by {
        assert u != t ==> OrderLocal(s.ctx, s.threads[u]);
      }
      if m.ctx.queue != s.ctx.queue {
        OneMoreQueued(s.ctx, m.ctx, s'.threads[u], r);
      }
    }
    if forall u :: u in s'.threads ==> !InHand(s'.threads[u]) {
      forall u | u in s.threads ensures !InHand(s.threads[u]) {
        assert u != t ==> s'.threads[u] == s.threads[u];
      }
      if m.ctx.queue != s.ctx.queue {
        OneMoreQueued(s.ctx, m.ctx, m.th, r);
      }
    }
  }

  lemma {:induction false} OrderStep(s: System, step: Step)
    requires TokenOk(s) && OrderOk(s) && Enabled(s, step)
    ensures OrderOk(Apply(s, step))
  {
    hide Queued, LogFair, OrderOk, TokenOk, Advance;
    var m, t := MoveOf(s, step), step.t;
    if Before(s, step) {
      OrderHolderOf(s, t);
      OrderEffect(s.ctx, s.threads[t], step.c);
      OrderHolderMoves(s, t, m);
    } else {
      if step.Go? {
        OthersEffect(s.ctx, s.threads[t], step.c);
        OthersPc(s.ctx, s.threads[t], step.c);
        OrderLocalOf(s, t);
      }
      OrderOtherMoves(s, t, m, if step.Go? then s.threads[t].req else 0);
    }
  }

  lemma {:induction false} OrderLocalOf(s: System, t: nat)
    requires OrderOk(s) && t in s.threads
    ensures OrderLocal(s.ctx, s.threads[t])
  {
  }

  lemma {:induction false} OthersPc(c: Ctx, th: Thread, e: Choice)
    requires th.pc != Done && !Holds(th.pc)
    ensures var m := Advance(c, th, e);
      && !m.th.pc.Tail? && m.th.pc != Work && m.th.worker == th.worker
      && (th.pc.Sched? ==> !Calling(m.th.pc))
  {
  }

  lemma {:induction false} StepKeeps(s: System, step: Step)
    requires Inv(s) && Enabled(s, step)
    ensures Inv(Apply(s, step))
  {
    hide TokenOk, WakeupOk, SeedOk, ChainOk, OrderOk, ErrorOk, Apply;
    TokenStep(s, step);
    WakeupStep(s, step);
    SeedStep(s, step);
    ChainStep(s, step);
    OrderStep(s, step);
    ErrorStep(s, step);
  }

  // ---------------------------------------------------------------------------
  // Theorems about runs
  // ---------------------------------------------------------------------------

  ghost predicate Legal(s0: System, steps: seq<Step>)
    decreases |steps|, 0
  {
    steps == [] ||
    (var n := |steps| - 1; Legal(s0, steps[..n]) && Enabled(Exec(s0, steps[..n]), steps[n]))
  }

  ghost function Exec(s0: System, steps: seq<Step>): System
    requires Legal(s0, steps)
    decreases |steps|, 1
  {
    if steps == [] then s0 else Apply(Exec(s0, steps[..|steps| - 1]), steps[|steps| - 1])
  }

  lemma {:induction false} RunInv(maxQlen: nat, iv: Iv, steps: seq<Step>)
    requires Legal(Init(maxQlen, iv), steps)
    ensures Inv(Exec(Init(maxQlen, iv), steps))
    decreases |steps|
  {
    hide Inv, Apply;
    if steps == [] {
      InitInv(maxQlen, iv);
    } else {
      RunInv(maxQlen, iv, steps[..|steps| - 1]);
      StepKeeps(Exec(Init(maxQlen, iv), steps[..|steps| - 1]), steps[|steps| - 1]);
    }
  }

  /** Mutual exclusion: in every interleaving INUSE has at most one owner, and the work item
      is never scheduled twice. */
  lemma {:induction false} OneOwner(maxQlen: nat, iv: Iv, steps: seq<Step>, t: nat, u: nat)
    requires Legal(Init(maxQlen, iv), steps)
    ensures var s := Exec(Init(maxQlen, iv), steps);
      && !s.ctx.bug
      && (Holder(s, t) && Holder(s, u) ==> t == u)
      && (Holder(s, t) ==> s.ctx.inuse && !s.ctx.pending)
  {
    RunInv(maxQlen, iv, steps);
  }

  /** No lost wakeup: a queued request with INUSE clear always has a thread that will look at
      the queue again; so once all calls have returned and no work is pending, nothing is
      queued and INUSE is clear, which is what async_chainiv_exit insists on. */
  lemma {:induction false} NoLostWakeup(maxQlen: nat, iv: Iv, steps: seq<Step>)
    requires Legal(Init(maxQlen, iv), steps)
    ensures var s := Exec(Init(maxQlen, iv), steps);
      && (s.ctx.queue != [] && !s.ctx.inuse ==> exists t :: t in s.threads && Committed(s.threads[t].pc))
      && ((forall t :: t in s.threads ==> s.threads[t].pc == Done) && !s.ctx.pending ==>
            s.ctx.queue == [] && !s.ctx.inuse)
  {
    RunInv(maxQlen, iv, steps);
  }

  /** First come, first served: queued requests are encrypted in the order they were queued,
      and a request encrypted directly comes after all that had been queued when its thread
      found the queue empty. */
  lemma {:induction false} NoOvertaking(maxQlen: nat, iv: Iv, steps: seq<Step>, k: nat)
    requires Legal(Init(maxQlen, iv), steps) && k < |Exec(Init(maxQlen, iv), steps).ctx.log|
    ensures var c := Exec(Init(maxQlen, iv), steps).ctx;
      && Queued(c.log) <= c.accepted
      && (c.log[k].direct ==>
            c.log[k].ahead <= |c.accepted| && Queued(c.log[..k]) == c.accepted[..c.log[k].ahead])
  {
    RunInv(maxQlen, iv, steps);
    var s := Exec(Init(maxQlen, iv), steps);
    AcceptedPrefix(s);
    QueuedPrefix(s.ctx.log, k);
  }

  lemma {:induction false} AcceptedPrefix(s: System)
    requires OrderOk(s)
    ensures Queued(s.ctx.log) <= s.ctx.accepted
  {
    if t :| t in s.threads && InHand(s.threads[t]) {
      assert OrderLocal(s.ctx, s.threads[t]);
    }
  }

  lemma {:induction false} QueuedPrefix(log: seq<Enc>, k: nat)
    requires k <= |log|
    ensures Queued(log[..k]) <= Queued(log)
    decreases |log|
  {
    if k == |log| {
      assert log[..k] == log;
    } else {
      var n := |log| - 1;
      QueuedPrefix(log[..n], k);
      assert log[..n][..k] == log[..k];
    }
  }

  /** At the very step at which a caller decides to encrypt directly, every request queued so
      far has been encrypted. */
  lemma {:induction false} DirectOnlyWhenDrained(maxQlen: nat, iv: Iv, steps: seq<Step>, t: nat, c: Choice)
    requires Legal(Init(maxQlen, iv), steps)
    requires var s := Exec(Init(maxQlen, iv), steps);
      && t in s.threads && s.threads[t].pc == Giv(GivQlen)
      && Advance(s.ctx, s.threads[t], c).th.pc.Tail?
    ensures var s := Exec(Init(maxQlen, iv), steps); s.ctx.accepted == Queued(s.ctx.log)
  {
    RunInv(maxQlen, iv, steps);
    var s := Exec(Init(maxQlen, iv), steps);
    assert Holder(s, t);
    forall u | u in s.threads ensures !InHand(s.threads[u]) {
      assert s.threads[u].pc.Tail? ==> Holder(s, u);
    }
  }

  /** The chain is unbroken: every call of the cipher used as IV the value left by the last
      successful call before it, the first one the random bytes; none happens before the
      random bytes were drawn; and a call that fails leaves the chain where it was. */
  lemma {:induction false} UnbrokenChain(maxQlen: nat, iv: Iv, steps: seq<Step>, k: nat)
    requires Legal(Init(maxQlen, iv), steps) && k < |Exec(Init(maxQlen, iv), steps).ctx.log|
    ensures var c := Exec(Init(maxQlen, iv), steps).ctx;
      && c.seed.Some?
      && c.log[k].giv == Chained(c.seed.value, c.log[..k])
      && (k > 0 && c.log[k - 1].error == 0 ==> c.log[k].giv == c.log[k - 1].out)
      && (k > 0 && c.log[k - 1].error != 0 ==> c.log[k].giv == c.log[k - 1].giv)
  {
    RunInv(maxQlen, iv, steps);
    var c := Exec(Init(maxQlen, iv), steps).ctx;
    if k > 0 {
      assert c.log[..k][..k - 1] == c.log[..k - 1];
      assert c.log[k - 1].giv == Chained(c.seed.value, c.log[..k - 1]);
    }
  }

  /** A call returns the result of its own request, from the cipher or from queueing it, whatever other
      threads did. */
  lemma {:induction false} OwnResult(maxQlen: nat, iv: Iv, steps: seq<Step>, t: nat)
    requires Legal(Init(maxQlen, iv), steps)
    ensures var s := Exec(Init(maxQlen, iv), steps);
      t in s.threads && s.threads[t].pc == Done ==> s.threads[t].err == s.threads[t].own
  {
    RunInv(maxQlen, iv, steps);
    var s := Exec(Init(maxQlen, iv), steps);
    assert t in s.threads ==> ErrorLocal(s.ctx, s.threads[t]);
  }
}
