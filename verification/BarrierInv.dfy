/**
  What every step of the barrier protocol keeps. `Common` holds in both ordering modes:
  requests are conserved, a proxy is on the list or with the driver exactly while its stage
  is open, in_flight counts what the driver holds, and no BUG_ON fires. `Drained` holds in
  the draining modes: it ties submission order to queue position, colour and progress bits.
*/
module BarrierInv {
  import opened Barrier

  // ---------------------------------------------------------------------------
  // The invariant
  // ---------------------------------------------------------------------------

  ghost predicate NoDup(s: seq<Rq>) {
    forall i, j :: 0 <= i < j < |s| ==> s[i] != s[j]
  }

  ghost function FsOf(s: set<Rq>): set<Rq> {
    set r | r in s && IsFs(r)
  }

  function B2N(b: bool): nat { if b then 1 else 0 }

  /** In how many places a submitted request is. */
  ghost function Places(q: Queue, id: nat): nat {
    B2N(Fs(id) in q.head) + B2N(Fs(id) in q.driver) + B2N(id in q.sorted)
      + B2N(id in q.done) + B2N(Active(q) && id == q.orig)
  }

  predicate IsBar(attrs: seq<Attr>, id: nat) {
    id < |attrs| && attrs[id].barrier
  }

  /** A stage is open exactly while its proxy is on the list or with the driver. */
  ghost predicate ProxyOk(q: Queue, p: Rq)
    requires !p.Fs?
  {
    p in q.head || p in q.driver <==> Active(q) && !Bit(q.ordseq, StageOf(p))
  }

  ghost predicate BitsOk(q: Queue) {
    && (Active(q) ==> q.ordseq.started && CurSeq(q.ordseq) != SEQ_DONE && IsBar(q.attrs, q.orig))
    && (Active(q) && q.mode.tag ==> q.ordseq.drain)
    && ProxyOk(q, PreFlush) && ProxyOk(q, BarProxy) && ProxyOk(q, PostFlush)
  }

  ghost predicate PlacesOk(q: Queue) {
    && NoDup(q.head)
    && (forall r :: r in q.head ==> r !in q.driver)
    && (forall id: nat :: id < |q.attrs| ==> Places(q, id) == 1)
    && (forall id :: id in q.done ==> id < |q.attrs|)
    && (forall r :: r in q.started ==> HasAttr(q, r))
  }

  ghost predicate DriverOk(q: Queue) {
    && q.inFlight == |FsOf(q.driver)|
    && q.driver <= q.started
    && (forall id: nat :: IsBar(q.attrs, id) ==> id !in q.sorted && Fs(id) !in q.started)
    && (forall id :: id in q.sorted ==> Fs(id) !in q.started)
    && (Active(q) && IsBar(q.attrs, q.orig) && q.attrs[q.orig].empty ==> BarProxy !in q.started)
  }

  ghost predicate Common(q: Queue) {
    && !q.bug
    && WellTyped(q)
    && BitsOk(q)
    && PlacesOk(q)
    && DriverOk(q)
  }

  /** The stage a request really belongs to while barrier `orig` executes. */
  ghost function Class(orig: nat, r: Rq): nat {
    match r
    case PreFlush => SEQ_PREFLUSH
    case BarProxy => SEQ_BAR
    case PostFlush => SEQ_POSTFLUSH
    case Fs(id) => if id < orig then SEQ_DRAIN else SEQ_DONE
  }

  /** x may stand before y on the dispatch list (`active`: while barrier `orig` executes). */
  ghost predicate Before(attrs: seq<Attr>, active: bool, orig: nat, x: Rq, y: Rq) {
    && (x.Fs? && y.Fs? && (IsBar(attrs, x.id) || IsBar(attrs, y.id)) ==> x.id < y.id)
    && (active ==> Class(orig, x) <= Class(orig, y))
  }

  ghost predicate ListOk(attrs: seq<Attr>, active: bool, orig: nat, s: seq<Rq>) {
    forall i, j :: 0 <= i < j < |s| ==> Before(attrs, active, orig, s[i], s[j])
  }

  /** The colour changes exactly after each barrier. */
  ghost predicate ColourOk(attrs: seq<Attr>, colour: bool) {
    && (forall i :: 0 <= i < |attrs| - 1 ==>
          attrs[i + 1].colour == (attrs[i].colour != attrs[i].barrier))
    && (attrs != [] ==> colour == (attrs[|attrs| - 1].colour != attrs[|attrs| - 1].barrier))
  }

  /** The driver holds it, or was shown it. */
  ghost predicate Handed(q: Queue, r: Rq) {
    r in q.driver || (r in q.head && r in q.started)
  }

  ghost predicate HistoryOk(q: Queue) {
    && (forall y: nat, b: nat :: y in q.sorted && IsBar(q.attrs, b) ==> b < y)
    && (forall y: nat, b: nat :: Handed(q, Fs(y)) && IsBar(q.attrs, b) && b < y ==> b in q.done)
    && (forall b: nat, x: nat :: b in q.done && IsBar(q.attrs, b) && x < b ==> x in q.done)
  }

  ghost predicate SequenceOk(q: Queue) {
    Active(q) ==>
      && (q.ordseq.bar ==> q.ordseq.drain && q.ordseq.pre)
      && (forall b: nat :: IsBar(q.attrs, b) && b < q.orig ==> b in q.done)
      && (forall x: nat :: Fs(x) in q.driver ==> x < q.orig)
      && (q.ordseq.drain ==> forall x: nat :: !Handed(q, Fs(x)) && (Fs(x) in q.head ==> q.orig < x))
      && (forall p: Rq :: !p.Fs? && Handed(q, p) ==> StageOf(p) <= CurSeq(q.ordseq))
  }

  /** A sequence that waits for draining has something to wait for or to hand out. */
  ghost predicate NoStall(q: Queue) {
    Active(q) && !q.ordseq.drain ==>
      q.inFlight > 0 || (q.head != [] && Class(q.orig, q.head[0]) == SEQ_DRAIN)
  }

  ghost predicate Ordered(q: Queue) {
    && ColourOk(q.attrs, q.colour)
    && ListOk(q.attrs, Active(q), q.orig, q.head)
    && HistoryOk(q)
    && SequenceOk(q)
  }

  ghost predicate Drained(q: Queue) {
    Ordered(q) && NoStall(q)
  }

  ghost predicate Inv(q: Queue) {
    Common(q) && (!q.mode.tag ==> Drained(q))
  }

  lemma InitInv(mode: Mode)
    ensures Inv(Init(mode))
  {
    assert FsOf({}) == {};
  }

  // ---------------------------------------------------------------------------
  // Lists and counting
  // ---------------------------------------------------------------------------

  lemma InsertMembers(s: seq<Rq>, p: nat, x: Rq)
    requires p <= |s|
    ensures forall r :: r in InsertAt(s, p, x) <==> r in s || r == x
  {
    var t := InsertAt(s, p, x);
    forall r | r in s ensures r in t {
      var i :| 0 <= i < |s| && s[i] == r;
      assert t[if i < p then i else i + 1] == r;
    }
    assert t[p] == x;
  }

  lemma InsertNoDup(s: seq<Rq>, p: nat, x: Rq)
    requires p <= |s| && NoDup(s) && x !in s
    ensures NoDup(InsertAt(s, p, x))
  {
  }

  lemma RemoveMembers(s: seq<Rq>, p: nat)
    requires p < |s| && NoDup(s)
    ensures NoDup(s[..p] + s[p + 1..])
    ensures forall r :: r in s[..p] + s[p + 1..] <==> r in s && r != s[p]
  {
    var t := s[..p] + s[p + 1..];
    forall r | r in s && r != s[p] ensures r in t {
      var i :| 0 <= i < |s| && s[i] == r;
      assert t[if i < p then i else i - 1] == r;
    }
  }

  lemma CountAdd(s: set<Rq>, r: Rq)
    requires r !in s
    ensures |FsOf(s + {r})| == |FsOf(s)| + B2N(IsFs(r))
  {
    if IsFs(r) {
      assert FsOf(s + {r}) == FsOf(s) + {r};
    } else {
      assert FsOf(s + {r}) == FsOf(s);
    }
  }

  lemma CountRemove(s: set<Rq>, r: Rq)
    requires r in s
    ensures |FsOf(s - {r})| == |FsOf(s)| - B2N(IsFs(r))
  {
    CountAdd(s - {r}, r);
    assert s - {r} + {r} == s;
  }

  // ---------------------------------------------------------------------------
  // Preservation, step by step
  // ---------------------------------------------------------------------------

  lemma InsertList(attrs: seq<Attr>, active: bool, orig: nat, s: seq<Rq>, p: nat, x: Rq)
    requires p <= |s| && ListOk(attrs, active, orig, s)
    requires forall i :: 0 <= i < p ==> Before(attrs, active, orig, s[i], x)
    requires forall i :: p <= i < |s| ==> Before(attrs, active, orig, x, s[i])
    ensures ListOk(attrs, active, orig, InsertAt(s, p, x))
  {
  }

  /** Where Dispatch puts the request. */
  function DispatchPos(q: Queue, id: nat, how: How): (p: nat)
    requires WellTyped(q) && id in q.sorted
    ensures p <= |q.head|
    ensures Dispatch(q, id, how).head == InsertAt(q.head, p, Fs(id))
    ensures forall i :: p <= i < |q.head| ==> q.head[i].Fs? && !IsBar(q.attrs, q.head[i].id)
  {
    match how case Sort(b) => SortPos(q, id, b, |q.head|) case Tail => |q.head|
  }

  lemma DispatchPlaces(q: Queue, id: nat, how: How)
    requires WellTyped(q) && PlacesOk(q) && id in q.sorted
    ensures PlacesOk(Dispatch(q, id, how))
    ensures forall r :: r in Dispatch(q, id, how).head <==> r in q.head || r == Fs(id)
  {
    var q' := Dispatch(q, id, how);
    var p := DispatchPos(q, id, how);
    assert Places(q, id) == 1;
    InsertMembers(q.head, p, Fs(id));
    InsertNoDup(q.head, p, Fs(id));
    forall i: nat | i < |q'.attrs| ensures Places(q', i) == 1 {
      assert Places(q, i) == 1;
    }
  }

  /** While older requests wait on the list, the barrier proxy waits behind them. */
  lemma OldBeforeProxy(q: Queue, i: nat) returns (k: nat)
    requires Common(q) && Ordered(q) && Active(q)
    requires i < |q.head| && Class(q.orig, q.head[i]) == SEQ_DRAIN
    ensures !q.ordseq.drain && i < k < |q.head| && q.head[k] == BarProxy
  {
    assert !Handed(q, BarProxy);
    k :| 0 <= k < |q.head| && q.head[k] == BarProxy;
    assert !Before(q.attrs, true, q.orig, q.head[k], q.head[i]);
  }

  lemma DispatchList(q: Queue, id: nat, how: How)
    requires Common(q) && !q.mode.tag && Drained(q) && id in q.sorted
    ensures ListOk(q.attrs, Active(q), q.orig, Dispatch(q, id, how).head)
  {
    var p := DispatchPos(q, id, how);
    forall i | p <= i < |q.head| ensures Before(q.attrs, Active(q), q.orig, Fs(id), q.head[i]) {
      if Active(q) && Class(q.orig, q.head[i]) == SEQ_DRAIN {
        var k := OldBeforeProxy(q, i);
        assert false;
      }
    }
    InsertList(q.attrs, Active(q), q.orig, q.head, p, Fs(id));
  }

  lemma DispatchHistory(q: Queue, id: nat, how: How)
    requires Common(q) && !q.mode.tag && Drained(q) && id in q.sorted
    ensures HistoryOk(Dispatch(q, id, how)) && SequenceOk(Dispatch(q, id, how)) && NoStall(Dispatch(q, id, how))
  {
    var q' := Dispatch(q, id, how);
    DispatchPlaces(q, id, how);
    assert forall r :: Handed(q', r) <==> Handed(q, r);
    if Active(q) {
      assert IsBar(q.attrs, q.orig) && q.orig < id;
      if q.head != [] && Class(q.orig, q.head[0]) == SEQ_DRAIN {
        var k := OldBeforeProxy(q, 0);
        assert q'.head[0] == q.head[0];
      }
    }
  }

  lemma DispatchKeeps(q: Queue, id: nat, how: How)
    requires Inv(q) && id in q.sorted
    ensures Inv(Dispatch(q, id, how))
  {
    DispatchPlaces(q, id, how);
    assert Common(Dispatch(q, id, how));
    if !q.mode.tag {
      DispatchList(q, id, how);
      DispatchHistory(q, id, how);
    }
  }

  lemma {:induction false} MoveKeeps(q: Queue, order: seq<(nat, How)>)
    requires Inv(q) && CanMove(q, order)
    ensures Inv(MoveAll(q, order))
    ensures MoveAll(q, order).attrs == q.attrs && MoveAll(q, order).done == q.done
    decreases |order|
  {
    if order != [] {
      DispatchKeeps(q, order[0].0, order[0].1);
      MoveKeeps(Dispatch(q, order[0].0, order[0].1), order[1..]);
    }
  }

  /** The state after Add, the scheduler having been drained if need be. */
  function Appended(q: Queue, a: Attr, back: bool): Queue {
    var q1 := Coloured(q, a);
    if a.barrier || back then
      q1.(head := q1.head + [Fs(|q.attrs|)], soft := q1.soft + {Fs(|q.attrs|)})
    else q1.(sorted := q1.sorted + {|q.attrs|})
  }

  lemma AppendMembers(q: Queue, a: Attr, back: bool)
    ensures var q', n := Appended(q, a, back), |q.attrs|;
      && (forall r :: r in q'.head ==> r in q.head || r == Fs(n))
      && (forall r :: r in q.head ==> r in q'.head)
      && (Fs(n) in q'.head ==> a.barrier || back || Fs(n) in q.head)
      && (a.barrier || back ==> Fs(n) in q'.head)
      && (Fs(n) !in q.head && NoDup(q.head) ==> NoDup(q'.head))
  {
    var n := |q.attrs|;
    assert q.head + [Fs(n)] == InsertAt(q.head, |q.head|, Fs(n));
    InsertMembers(q.head, |q.head|, Fs(n));
    if Fs(n) !in q.head && NoDup(q.head) {
      InsertNoDup(q.head, |q.head|, Fs(n));
    }
  }

  /** A request that is not submitted is nowhere. */
  lemma NotThere(q: Queue)
    requires WellTyped(q) && PlacesOk(q)
    ensures var r := Fs(|q.attrs|);
      r !in q.head && r !in q.driver && r !in q.started && |q.attrs| !in q.sorted && |q.attrs| !in q.done
  {
  }

  lemma AppendTyped(q: Queue, a: Attr, back: bool)
    requires WellTyped(q)
    ensures WellTyped(Appended(q, a, back))
  {
  }

  lemma AppendPlaces(q: Queue, a: Attr, back: bool)
    requires WellTyped(q) && PlacesOk(q)
    ensures var q', n := Appended(q, a, back), |q.attrs|;
      && PlacesOk(q') && WellTyped(q')
      && (forall r :: r in q'.head ==> r in q.head || r == Fs(n))
      && (forall r :: r in q.head ==> r in q'.head)
      && Fs(n) !in q.driver && Fs(n) !in q.started
  {
    AppendTyped(q, a, back);
    AppendMembers(q, a, back);
    NotThere(q);
    var q', n := Appended(q, a, back), |q.attrs|;
    assert Active(q) ==> q.orig < n;
    hide WellTyped, NoDup;
    forall id: nat | id < |q'.attrs| ensures Places(q', id) == 1 {
      assert id < n ==> Places(q, id) == 1;
    }
  }

  lemma AppendCommon(q: Queue, a: Attr, back: bool)
    requires Common(q)
    ensures Common(Appended(q, a, back))
  {
    AppendPlaces(q, a, back);
    assert BitsOk(Appended(q, a, back));
  }

  lemma AppendList(q: Queue, a: Attr, back: bool)
    requires WellTyped(q) && ColourOk(q.attrs, q.colour) && ListOk(q.attrs, Active(q), q.orig, q.head)
    ensures var q' := Appended(q, a, back);
      ColourOk(q'.attrs, q'.colour) && ListOk(q'.attrs, Active(q'), q'.orig, q'.head)
  {
    var q', n := Appended(q, a, back), |q.attrs|;
    forall i, j | 0 <= i < j < |q'.head|
      ensures Before(q'.attrs, Active(q'), q'.orig, q'.head[i], q'.head[j])
    {
      assert j < |q.head| ==> Before(q.attrs, Active(q), q.orig, q.head[i], q.head[j]);
    }
  }

  lemma AppendHistory(q: Queue, a: Attr, back: bool)
    requires WellTyped(q) && PlacesOk(q) && HistoryOk(q) && SequenceOk(q) && NoStall(q)
    requires a.barrier || back ==> q.sorted == {}
    ensures HistoryOk(Appended(q, a, back)) && SequenceOk(Appended(q, a, back)) && NoStall(Appended(q, a, back))
  {
    var q', n := Appended(q, a, back), |q.attrs|;
    AppendPlaces(q, a, back);
    assert forall b: nat :: b < n ==> IsBar(q'.attrs, b) == IsBar(q.attrs, b);
    assert forall r :: Handed(q', r) <==> Handed(q, r);
  }

  lemma AddKeeps(q: Queue, a: Attr, back: bool, order: seq<(nat, How)>)
    requires Inv(q) && Enabled(q, Add(a, back, order))
    ensures Inv(Apply(q, Add(a, back, order)).q)
  {
    hide BitsOk, PlacesOk, DriverOk, ColourOk, ListOk, HistoryOk, SequenceOk, NoStall;
    var q1 := q;
    if a.barrier || back {
      MoveKeeps(q, order);
      q1 := MoveAll(q, order);
    }
    AppendCommon(q1, a, back);
    if !q1.mode.tag {
      AppendList(q1, a, back);
      AppendHistory(q1, a, back);
    }
    assert Apply(q, Add(a, back, order)).q == Appended(q1, a, back);
  }

  lemma DequeuePlaces(q: Queue, p: nat)
    requires WellTyped(q) && PlacesOk(q) && Enabled(q, Dequeue(p))
    ensures var q' := Apply(q, Dequeue(p)).q;
      && PlacesOk(q') && WellTyped(q')
      && (forall r :: r in q'.head || r in q'.driver <==> r in q.head || r in q.driver)
      && (forall r :: Handed(q', r) <==> Handed(q, r))
  {
    var q' := Apply(q, Dequeue(p)).q;
    RemoveMembers(q.head, p);
    forall id: nat | id < |q.attrs| ensures Places(q', id) == 1 {
      assert Places(q, id) == 1;
    }
  }

  lemma DequeueCommon(q: Queue, p: nat)
    requires Common(q) && Enabled(q, Dequeue(p))
    ensures Common(Apply(q, Dequeue(p)).q)
  {
    assert q.head[p] !in q.driver;
    hide PlacesOk;
    DequeuePlaces(q, p);
    CountAdd(q.driver, q.head[p]);
  }

  lemma DequeueSequence(q: Queue, p: nat)
    requires Common(q) && Drained(q) && Enabled(q, Dequeue(p))
    ensures var q' := Apply(q, Dequeue(p)).q; HistoryOk(q') && SequenceOk(q') && NoStall(q')
  {
    hide ColourOk, ListOk;
    DequeuePlaces(q, p);
    CountAdd(q.driver, q.head[p]);
    assert Handed(q, q.head[p]);
    assert Active(q) ==> Places(q, q.orig) == 1;
  }

  lemma DequeueKeeps(q: Queue, p: nat)
    requires Inv(q) && Enabled(q, Dequeue(p))
    ensures Inv(Apply(q, Dequeue(p)).q)
  {
    hide BitsOk, PlacesOk, DriverOk, HistoryOk, SequenceOk, NoStall;
    DequeueCommon(q, p);
    if !q.mode.tag {
      DequeueSequence(q, p);
    }
  }

  // Colours tell the requests before the running barrier from those behind it.

  lemma {:induction false} SameColour(q: Queue, x: nat, y: nat)
    requires ColourOk(q.attrs, q.colour) && x <= y < |q.attrs|
    requires forall b: nat :: x <= b < y ==> !IsBar(q.attrs, b)
    ensures q.attrs[x].colour == q.attrs[y].colour
    decreases y - x
  {
    if x < y {
      assert !IsBar(q.attrs, x);
      SameColour(q, x + 1, y);
    }
  }

  lemma OldColour(q: Queue, x: nat)
    requires Common(q) && Ordered(q) && Active(q)
    requires (Fs(x) in q.head || Fs(x) in q.driver) && x < q.orig
    ensures ReqSeq(q, Fs(x)) == SEQ_DRAIN
  {
    assert Places(q, x) == 1;
    SameColour(q, x, q.orig);
  }

  /** No barrier lies between the running one and the first request behind it. */
  lemma NoBarrierBetween(q: Queue, i: nat, c: nat)
    requires PlacesOk(q) && DriverOk(q) && HistoryOk(q) && Active(q)
    requires ListOk(q.attrs, true, q.orig, q.head) && IsBar(q.attrs, q.orig)
    requires i < |q.head| && q.head[i].Fs? && q.orig < c < q.head[i].id < |q.attrs|
    requires i > 0 ==> Class(q.orig, q.head[i - 1]) < SEQ_DONE
    ensures !IsBar(q.attrs, c)
  {
    assert Places(q, c) == 1 && Places(q, q.orig) == 1;
    forall k | 0 <= k < |q.head| ensures IsBar(q.attrs, c) ==> q.head[k] != Fs(c) {
      if i < k {
        assert Before(q.attrs, true, q.orig, q.head[i], q.head[k]);
      } else if k < i - 1 {
        assert Before(q.attrs, true, q.orig, q.head[k], q.head[i - 1]);
      }
    }
  }

  lemma NewColour(q: Queue, i: nat)
    requires Common(q) && Ordered(q) && Active(q)
    requires i < |q.head| && Class(q.orig, q.head[i]) == SEQ_DONE
    requires i > 0 ==> Class(q.orig, q.head[i - 1]) < SEQ_DONE
    ensures ReqSeq(q, q.head[i]) == SEQ_DONE
  {
    assert IsBar(q.attrs, q.orig);
    hide BitsOk;
    var y := q.head[i].id;
    assert Places(q, q.orig) == 1 && Places(q, y) == 1;
    forall c: nat | q.orig + 1 <= c < y ensures !IsBar(q.attrs, c) {
      NoBarrierBetween(q, i, c);
    }
    SameColour(q, q.orig + 1, y);
  }

  /** The first request on the list that belongs behind the running barrier. */
  lemma {:induction false} FirstNew(q: Queue, i: nat) returns (f: nat)
    requires i < |q.head| && Class(q.orig, q.head[i]) == SEQ_DONE
    ensures f <= i && Class(q.orig, q.head[f]) == SEQ_DONE
    ensures f > 0 ==> Class(q.orig, q.head[f - 1]) < SEQ_DONE
  {
    if i == 0 || Class(q.orig, q.head[i - 1]) < SEQ_DONE {
      f := i;
    } else {
      f := FirstNew(q, i - 1);
    }
  }

  /** Comparing colours finds the place that submission order asks for. */
  lemma RequeueClass(q: Queue, s: nat)
    requires Common(q) && Ordered(q) && Active(q) && s < SEQ_DONE
    ensures var p := RequeuePos(q, s, 0);
      && (forall i :: 0 <= i < p ==> Class(q.orig, q.head[i]) < s)
      && (forall i :: p <= i < |q.head| ==> s <= Class(q.orig, q.head[i]))
  {
    var p := RequeuePos(q, s, 0);
    forall i | 0 <= i < p ensures Class(q.orig, q.head[i]) < s {
      if Class(q.orig, q.head[i]) == SEQ_DONE {
        var f := FirstNew(q, i);
        NewColour(q, f);
      } else if q.head[i].Fs? {
        OldColour(q, q.head[i].id);
      }
    }
    if p < |q.head| {
      if q.head[p].Fs? && Class(q.orig, q.head[p]) < SEQ_DONE {
        OldColour(q, q.head[p].id);
      }
      forall i | p <= i < |q.head| ensures s <= Class(q.orig, q.head[i]) {
        assert p < i ==> Before(q.attrs, true, q.orig, q.head[p], q.head[i]);
      }
    }
  }

  lemma RequeuePlaces(q: Queue, r: Rq)
    requires WellTyped(q) && PlacesOk(q) && r in q.driver
    ensures var q' := Requeue(q, r);
      && PlacesOk(q') && WellTyped(q')
      && (forall x :: x in q'.head <==> x in q.head || x == r)
  {
    var q' := Requeue(q, r);
    var p := if !Active(q) then 0 else RequeuePos(q, ReqSeq(q, r), 0);
    InsertMembers(q.head, p, r);
    InsertNoDup(q.head, p, r);
    forall i | 0 <= i < |q'.head| ensures HasAttr(q', q'.head[i]) {
      assert q'.head[i] in q'.head;
    }
    forall id: nat | id < |q.attrs| ensures Places(q', id) == 1 {
      assert Places(q, id) == 1;
    }
  }

  lemma RequeueCommon(q: Queue, r: Rq)
    requires Common(q) && r in q.driver
    ensures Common(Requeue(q, r))
  {
    hide PlacesOk;
    RequeuePlaces(q, r) by { assert PlacesOk(q); }
    CountRemove(q.driver, r);
  }

  /** What the driver holds was submitted before every barrier still on the list. */
  lemma DriverBeforeBarriers(q: Queue, x: nat)
    requires PlacesOk(q) && DriverOk(q) && HistoryOk(q) && WellTyped(q) && Fs(x) in q.driver
    ensures !IsBar(q.attrs, x)
    ensures forall i :: 0 <= i < |q.head| && q.head[i].Fs? && IsBar(q.attrs, q.head[i].id) ==> x < q.head[i].id
  {
    assert Handed(q, Fs(x));
    forall i | 0 <= i < |q.head| && q.head[i].Fs? && IsBar(q.attrs, q.head[i].id) ensures x < q.head[i].id {
      assert Places(q, q.head[i].id) == 1 && Places(q, x) == 1;
    }
  }

  lemma RequeueList(q: Queue, r: Rq)
    requires Common(q) && Drained(q) && r in q.driver
    ensures ListOk(q.attrs, Active(q), q.orig, Requeue(q, r).head)
    ensures Active(q) && r.Fs? ==> Requeue(q, r).head[0] == r
  {
    var p := if !Active(q) then 0 else RequeuePos(q, ReqSeq(q, r), 0);
    if Active(q) {
      if r.Fs? {
        OldColour(q, r.id);
      }
      RequeueClass(q, ReqSeq(q, r));
    }
    if r.Fs? {
      DriverBeforeBarriers(q, r.id);
    }
    assert p > 0 ==> !r.Fs?;
    hide BitsOk, PlacesOk, DriverOk, HistoryOk, SequenceOk, WellTyped;
    InsertList(q.attrs, Active(q), q.orig, q.head, p, r);
  }

  lemma RequeueSequence(q: Queue, r: Rq)
    requires Common(q) && Drained(q) && r in q.driver
    ensures HistoryOk(Requeue(q, r)) && SequenceOk(Requeue(q, r)) && NoStall(Requeue(q, r))
  {
    RequeuePlaces(q, r);
    RequeueList(q, r);
    CountRemove(q.driver, r);
    assert Handed(q, r);
    assert forall x :: Handed(Requeue(q, r), x) ==> Handed(q, x);
  }

  lemma RequeueKeeps(q: Queue, r: Rq)
    requires Inv(q) && r in q.driver
    ensures Inv(Requeue(q, r))
  {
    hide BitsOk, PlacesOk, DriverOk, HistoryOk, SequenceOk, ListOk, NoStall;
    RequeueCommon(q, r);
    if !q.mode.tag {
      RequeueList(q, r);
      RequeueSequence(q, r);
    }
  }

  // Handing out a request.

  function MarkStarted(q: Queue): Queue
    requires q.head != []
  {
    q.(started := q.started + {q.head[0]})
  }

  /** The driver may be shown the first request. */
  ghost predicate MayIssue(q: Queue)
    requires q.head != [] && WellTyped(q)
  {
    var r := q.head[0];
    && (r.Fs? ==> !IsBar(q.attrs, r.id))
    && !EmptyBarrier(q, r)
    && (!q.mode.tag && r.Fs? ==> forall b: nat :: IsBar(q.attrs, b) && b < r.id ==> b in q.done)
    && (!q.mode.tag && r.Fs? && Active(q) ==> !q.ordseq.drain)
    && (!q.mode.tag && !r.Fs? && Active(q) ==> StageOf(r) <= CurSeq(q.ordseq))
  }

  lemma IssueCommon(q: Queue)
    requires Common(q) && q.head != [] && MayIssue(q)
    ensures Common(MarkStarted(q))
  {
    var q' := MarkStarted(q);
    assert forall id: nat :: Places(q', id) == Places(q, id);
    assert q.head[0].Fs? ==> Places(q, q.head[0].id) == 1;
    assert DriverOk(q');
  }

  lemma IssueDrained(q: Queue)
    requires Common(q) && !q.mode.tag && Drained(q) && q.head != [] && MayIssue(q)
    ensures Drained(MarkStarted(q))
  {
    hide ColourOk, ListOk;
    assert forall x :: Handed(MarkStarted(q), x) ==> Handed(q, x) || x == q.head[0];
  }

  lemma IssueKeeps(q: Queue)
    requires Inv(q) && q.head != [] && MayIssue(q)
    ensures Inv(MarkStarted(q))
  {
    hide BitsOk, PlacesOk, DriverOk, Drained;
    IssueCommon(q);
    if !q.mode.tag {
      IssueDrained(q);
    }
  }

  // Completion of a file-system request.

  /** The request has left the driver; draining has not been looked at yet. */
  function FsLeft(q: Queue, id: nat): Queue {
    q.(driver := q.driver - {Fs(id)}, done := q.done + {id}, inFlight := q.inFlight - 1)
  }

  lemma FsLeftPlaces(q: Queue, id: nat)
    requires WellTyped(q) && PlacesOk(q) && Fs(id) in q.driver
    ensures PlacesOk(FsLeft(q, id)) && WellTyped(FsLeft(q, id))
  {
    forall i: nat | i < |q.attrs| ensures Places(FsLeft(q, id), i) == 1 {
      assert Places(q, i) == 1;
    }
  }

  lemma FsLeftCommon(q: Queue, id: nat)
    requires Common(q) && Fs(id) in q.driver
    ensures Common(FsLeft(q, id))
  {
    hide PlacesOk;
    FsLeftPlaces(q, id) by { assert PlacesOk(q); }
    CountRemove(q.driver, Fs(id));
  }

  lemma FsLeftOrdered(q: Queue, id: nat)
    requires Common(q) && Ordered(q) && Fs(id) in q.driver
    ensures Ordered(FsLeft(q, id))
  {
    hide ColourOk, ListOk;
    assert Handed(q, Fs(id));
    assert forall x :: Handed(FsLeft(q, id), x) ==> Handed(q, x);
  }

  lemma DrainBit(q: Queue)
    requires Common(q) && Active(q) && !q.ordseq.drain
    requires CurSeq(q.ordseq.(drain := true)) != SEQ_DONE
    ensures Common(q.(ordseq := q.ordseq.(drain := true)))
  {
    var q' := q.(ordseq := q.ordseq.(drain := true));
    assert forall i: nat :: Places(q', i) == Places(q, i);
  }

  lemma DrainBitOrdered(q: Queue)
    requires Common(q) && Ordered(q) && Active(q) && !q.ordseq.drain && q.inFlight == 0
    requires q.head != [] && Class(q.orig, q.head[0]) > SEQ_DRAIN
    ensures Ordered(q.(ordseq := q.ordseq.(drain := true)))
  {
    var q' := q.(ordseq := q.ordseq.(drain := true));
    assert FsOf(q.driver) == {};
    assert forall x :: Handed(q', x) <==> Handed(q, x);
    forall x: nat ensures !Handed(q', Fs(x)) && (Fs(x) in q.head ==> q.orig < x) {
      assert Fs(x) in q.driver ==> Fs(x) in FsOf(q.driver);
      assert Places(q, q.orig) == 1;
      if Fs(x) in q.head {
        var k :| 0 <= k < |q.head| && q.head[k] == Fs(x);
        assert k > 0 ==> Before(q.attrs, true, q.orig, q.head[0], q.head[k]);
      }
    }
  }

  /** What the drain check in elv_completed_request does after the last request left. */
  lemma DrainCheck(q: Queue)
    requires Common(q) && (!q.mode.tag ==> Ordered(q))
    requires Active(q) && q.inFlight == 0 && CurSeq(q.ordseq) == SEQ_DRAIN
    ensures q.head != []
    ensures ReqSeq(q, q.head[0]) > SEQ_DRAIN ==> Inv(q.(ordseq := q.ordseq.(drain := true)))
    ensures CurSeq(q.ordseq.(drain := true)) != SEQ_DONE
    ensures ReqSeq(q, q.head[0]) <= SEQ_DRAIN ==> Inv(q)
  {
    assert !Handed(q, BarProxy) && BarProxy in q.head;
    if Class(q.orig, q.head[0]) == SEQ_DRAIN {
      OldColour(q, q.head[0].id);
    } else {
      if Class(q.orig, q.head[0]) == SEQ_DONE {
        NewColour(q, 0);
      }
      hide Common, Ordered;
      DrainBit(q);
      DrainBitOrdered(q);
    }
  }

  /** The check fires exactly when all requests submitted before the barrier are done. */
  lemma DrainFires(q: Queue)
    requires Common(q) && (!q.mode.tag ==> Ordered(q))
    requires Active(q) && q.inFlight == 0 && CurSeq(q.ordseq) == SEQ_DRAIN
    ensures q.head != []
    ensures ReqSeq(q, q.head[0]) > SEQ_DRAIN <==> forall x: nat :: x < q.orig ==> x in q.done
  {
    assert !Handed(q, BarProxy) && BarProxy in q.head;
    var r := q.head[0];
    var k :| 0 <= k < |q.head| && q.head[k] == BarProxy;
    assert k > 0 ==> Before(q.attrs, true, q.orig, r, q.head[k]);
    if Class(q.orig, r) == SEQ_DRAIN {
      OldColour(q, r.id);
      assert Places(q, r.id) == 1 && r.id !in q.done;
    } else {
      forall x: nat | x < q.orig
        ensures x in q.done
      {
        OlderDone(q, x);
      }
    }
  }

  lemma OlderDone(q: Queue, x: nat)
    requires Common(q) && Ordered(q) && Active(q) && q.inFlight == 0 && x < q.orig
    requires q.head != [] && Class(q.orig, q.head[0]) > SEQ_DRAIN
    ensures x in q.done
  {
    assert Places(q, x) == 1;
    assert Fs(x) in q.driver ==> Fs(x) in FsOf(q.driver);
    assert IsBar(q.attrs, q.orig);
    forall k | 0 <= k < |q.head|
      ensures q.head[k] != Fs(x)
    {
      assert k > 0 ==> Before(q.attrs, true, q.orig, q.head[0], q.head[k]);
    }
  }

  /** Completion of a file-system request while the check finds nothing to do. */
  lemma NoDrainCheck(q: Queue)
    requires Common(q) && (!q.mode.tag ==> Ordered(q))
    requires !(Active(q) && q.inFlight == 0 && CurSeq(q.ordseq) == SEQ_DRAIN)
    ensures Inv(q)
  {
    hide Ordered, PlacesOk;
  }

  ghost predicate ChecksDrain(q: Queue) {
    Active(q) && q.inFlight == 0 && CurSeq(q.ordseq) == SEQ_DRAIN
  }

  /** The whole effect of completing a file-system request. */
  lemma FsFinishShape(q: Queue, id: nat, error: int)
    requires WellTyped(q) && Fs(id) in q.driver && Fs(id) in q.started
    requires WellTyped(FsLeft(q, id))
    requires ChecksDrain(FsLeft(q, id)) ==> q.head != [] && CurSeq(q.ordseq.(drain := true)) != SEQ_DONE
    ensures var q1 := FsLeft(q, id);
      var q2 := if ChecksDrain(q1) && ReqSeq(q1, q1.head[0]) > SEQ_DRAIN
                then q1.(ordseq := q1.ordseq.(drain := true)) else q1;
      Apply(q, Complete(Fs(id), error)) == Out(q2, [Completed(Fs(id), q.orig, error)])
  {
    hide WellTyped;
  }

  lemma FsFinishKeeps(q: Queue, id: nat, error: int)
    requires Inv(q) && Fs(id) in q.driver
    ensures var o := Apply(q, Complete(Fs(id), error));
      && Inv(o.q) && o.ev == [Completed(Fs(id), q.orig, error)]
      && o.q.done == q.done + {id} && o.q.mode == q.mode && o.q.attrs == q.attrs
      && o.q.orig == q.orig && o.q.orderr == q.orderr && Active(o.q) == Active(q)
      && o.q.ordseq.(drain := true) == q.ordseq.(drain := true)
  {
    var q1 := FsLeft(q, id);
    FsLeftCommon(q, id);
    if !q.mode.tag {
      FsLeftOrdered(q, id);
    }
    assert Fs(id) in q.started && WellTyped(q) && WellTyped(q1);
    hide Common, Ordered, Apply, Inv, WellTyped;
    if ChecksDrain(q1) {
      DrainCheck(q1);
    } else {
      NoDrainCheck(q1);
    }
    FsFinishShape(q, id, error);
  }

  // Completion of a proxy.

  /** Everything is in order, but proxy r has left and its stage has not been recorded. */
  ghost predicate Gone(q: Queue, r: Rq) {
    && !r.Fs? && r !in q.head && r !in q.driver
    && !q.bug && WellTyped(q) && PlacesOk(q) && DriverOk(q)
    && Active(q) && q.ordseq.started && q.ordseq.drain && !Bit(q.ordseq, StageOf(r))
    && IsBar(q.attrs, q.orig)
    && (forall p: Rq :: !p.Fs? && p != r ==> ProxyOk(q, p))
  }

  /** ... and, when draining, it was r's turn. */
  ghost predicate InTurn(q: Queue, r: Rq) {
    !r.Fs? && (!q.mode.tag ==> Ordered(q) && StageOf(r) == CurSeq(q.ordseq))
  }

  function StageDone(q: Queue, r: Rq, orderr: int): Queue
    requires !r.Fs?
  {
    q.(ordseq := WithBit(q.ordseq, StageOf(r)), orderr := orderr)
  }

  function SequenceDone(q: Queue, orderr: int): Queue {
    q.(ordseq := NO_SEQ, done := q.done + {q.orig}, orderr := orderr)
  }

  lemma StageDoneKeeps(q: Queue, r: Rq, orderr: int)
    requires Gone(q, r) && InTurn(q, r)
    requires CurSeq(WithBit(q.ordseq, StageOf(r))) != SEQ_DONE
    ensures Inv(StageDone(q, r, orderr))
  {
    var q' := StageDone(q, r, orderr);
    assert Common(q') by {
      assert forall i: nat :: Places(q', i) == Places(q, i);
      assert r == PreFlush || ProxyOk(q, PreFlush);
      assert r == BarProxy || ProxyOk(q, BarProxy);
      assert r == PostFlush || ProxyOk(q, PostFlush);
    }
    if !q.mode.tag {
      assert Ordered(q') by {
        hide ColourOk, ListOk;
        assert forall x :: Handed(q', x) <==> Handed(q, x);
      }
    }
  }

  lemma SequenceDoneCommon(q: Queue, r: Rq, orderr: int)
    requires Gone(q, r)
    requires CurSeq(WithBit(q.ordseq, StageOf(r))) == SEQ_DONE
    ensures Common(SequenceDone(q, orderr))
  {
    var q' := SequenceDone(q, orderr);
    forall i: nat | i < |q.attrs| ensures Places(q', i) == 1 {
      assert Places(q, i) == 1;
    }
    assert ProxyOk(q, PreFlush) || r == PreFlush;
    assert ProxyOk(q, BarProxy) || r == BarProxy;
    assert ProxyOk(q, PostFlush) || r == PostFlush;
  }

  lemma SequenceDoneOrdered(q: Queue, r: Rq, orderr: int)
    requires Gone(q, r) && !q.mode.tag && Ordered(q)
    ensures Ordered(SequenceDone(q, orderr))
  {
    var q' := SequenceDone(q, orderr);
    hide ColourOk;
    assert ListOk(q'.attrs, Active(q'), q'.orig, q'.head) by {
      forall i, j | 0 <= i < j < |q.head| ensures Before(q.attrs, false, q.orig, q.head[i], q.head[j]) {
        assert Before(q.attrs, true, q.orig, q.head[i], q.head[j]);
      }
    }
    assert forall x :: Handed(q', x) <==> Handed(q, x);
    forall x: nat | x < q.orig ensures x in q.done {
      assert Places(q, x) == 1;
    }
  }

  /** The error a sequence reports is the first one any of its proxies met. */
  function FirstError(orderr: int, error: int): int {
    if error != 0 && orderr == 0 then error else orderr
  }

  /** A proxy's end_io: its stage is recorded once, and the last stage ends the barrier. */
  lemma ProxyFinishKeeps(q: Queue, r: Rq, error: int)
    requires !r.Fs? && WellTyped(q)
    requires q.inFlight == |FsOf(q.driver)| + B2N(r in q.started && IsFs(r))
    requires Gone(q.(inFlight := |FsOf(q.driver)|), r) && InTurn(q.(inFlight := |FsOf(q.driver)|), r)
    ensures var o := Finish(q, r, error);
      var last := CurSeq(WithBit(q.ordseq, StageOf(r))) == SEQ_DONE;
      var e := FirstError(q.orderr, error);
      && Inv(o.q)
      && o.ev == [Completed(r, q.orig, error)] + (if last then [Ended(q.orig, e)] else [])
      && o.q.done == (if last then q.done + {q.orig} else q.done)
      && Active(o.q) == !last
      && o.q.mode == q.mode && o.q.attrs == q.attrs && o.q.orig == q.orig
      && (!last ==> o.q.ordseq == WithBit(q.ordseq, StageOf(r)) && o.q.orderr == e)
  {
    var q1 := q.(inFlight := |FsOf(q.driver)|);
    var e := FirstError(q.orderr, error);
    assert ElvCompleted(q, r) == Out(q1, []);
    if CurSeq(WithBit(q.ordseq, StageOf(r))) == SEQ_DONE {
      assert CompleteSeq(q1, StageOf(r), error).q == SequenceDone(q1, e);
      hide Common, Ordered;
      SequenceDoneCommon(q1, r, e);
      if !q.mode.tag {
        SequenceDoneOrdered(q1, r, e);
      }
    } else {
      assert CompleteSeq(q1, StageOf(r), error).q == StageDone(q1, r, e);
      hide Common, Ordered;
      StageDoneKeeps(q1, r, e);
    }
  }

  lemma ProxyLeaves(q: Queue, r: Rq)
    requires Inv(q) && !r.Fs? && r in q.driver
    ensures var q0 := q.(driver := q.driver - {r}, inFlight := |FsOf(q.driver - {r})|);
      Gone(q0, r) && InTurn(q0, r)
  {
    var q0 := q.(driver := q.driver - {r}, inFlight := |FsOf(q.driver - {r})|);
    assert ProxyOk(q, r);
    assert Handed(q, r);
    assert forall i: nat :: Places(q0, i) == Places(q, i);
    assert ProxyOk(q, PreFlush) && ProxyOk(q, BarProxy) && ProxyOk(q, PostFlush);
    if !q.mode.tag {
      FewerKeeps(q, q0);
    }
  }

  // Starting a sequence.

  ghost function Begin(q: Queue): Queue
    requires MayBegin(q)
  {
    StartOrdered(q).0
  }

  ghost predicate NoProxies(q: Queue) {
    forall p: Rq :: !p.Fs? ==> p !in q.head && p !in q.driver
  }

  /** A barrier is first on the list and no sequence is running. */
  ghost predicate MayBegin(q: Queue) {
    && WellTyped(q) && !Active(q) && NoProxies(q)
    && q.head != [] && q.head[0].Fs? && IsBar(q.attrs, q.head[0].id) && q.head[0] !in q.started
  }

  lemma BarrierFirst(q: Queue)
    requires Common(q) && !Active(q) && q.head != [] && q.head[0].Fs? && IsBar(q.attrs, q.head[0].id)
    ensures MayBegin(q)
  {
    assert ProxyOk(q, PreFlush) && ProxyOk(q, BarProxy) && ProxyOk(q, PostFlush);
  }

  lemma ConcatNoDup(s: seq<Rq>, t: seq<Rq>)
    requires NoDup(s) && NoDup(t) && forall r :: r in s ==> r !in t
    ensures NoDup(s + t)
    ensures forall r :: r in s + t <==> r in s || r in t
  {
    var u := s + t;
    forall i, j | 0 <= i < j < |u| ensures u[i] != u[j] {
      if i < |s| <= j {
        assert u[i] in s && u[j] in t;
      }
    }
  }

  lemma BeginNoDup(q: Queue)
    requires MayBegin(q) && NoDup(q.head)
    ensures NoDup(Begin(q).head)
    ensures forall r :: r in Begin(q).head <==>
      (r in q.head && r != q.head[0]) || r in ProxiesOf(q.mode, q.attrs[q.head[0].id])
  {
    var ps := ProxiesOf(q.mode, q.attrs[q.head[0].id]);
    RemoveMembers(q.head, 0);
    assert q.head[..0] + q.head[1..] == q.head[1..];
    hide WellTyped;
    ConcatNoDup(ps, q.head[1..]);
  }

  lemma BeginPlaces(q: Queue)
    requires MayBegin(q) && PlacesOk(q)
    ensures PlacesOk(Begin(q)) && WellTyped(Begin(q))
  {
    var q' := Begin(q);
    BeginNoDup(q);
    hide NoDup;
    forall i: nat | i < |q.attrs| ensures Places(q', i) == 1 {
      assert Places(q, i) == 1;
    }
  }

  lemma BeginBits(q: Queue)
    requires MayBegin(q) && NoDup(q.head) && !q.bug
    ensures BitsOk(Begin(q)) && !Begin(q).bug
  {
    BeginNoDup(q);
    hide NoDup, WellTyped;
  }

  lemma BeginDriver(q: Queue)
    requires MayBegin(q) && DriverOk(q)
    ensures DriverOk(Begin(q))
  {
    hide WellTyped;
  }

  lemma BeginCommon(q: Queue)
    requires Common(q) && MayBegin(q)
    ensures Common(Begin(q))
  {
    hide DriverOk, BitsOk, Begin, MayBegin, NoDup, WellTyped;
    BeginPlaces(q);
    BeginBits(q);
    BeginDriver(q);
  }

  lemma BeginList(q: Queue)
    requires MayBegin(q) && ListOk(q.attrs, false, q.orig, q.head)
    ensures ListOk(q.attrs, true, q.head[0].id, Begin(q).head)
    ensures forall i :: 1 <= i < |q.head| && q.head[i].Fs? ==> q.head[0].id < q.head[i].id
  {
    hide WellTyped;
    var q', ps, b := Begin(q), ProxiesOf(q.mode, q.attrs[q.head[0].id]), q.head[0].id;
    forall i | 1 <= i < |q.head| ensures q.head[i].Fs? && b < q.head[i].id {
      assert Before(q.attrs, false, q.orig, q.head[0], q.head[i]);
    }
    forall i, j | 0 <= i < j < |q'.head| ensures Before(q.attrs, true, b, q'.head[i], q'.head[j]) {
      assert i >= |ps| ==> Before(q.attrs, false, q.orig, q.head[i - |ps| + 1], q.head[j - |ps| + 1]);
    }
  }

  /** When a barrier reaches the front, the barriers before it are over. */
  lemma FrontBarriersDone(q: Queue, x: nat)
    requires Common(q) && Ordered(q) && !Active(q)
    requires q.head != [] && q.head[0] == Fs(x)
    ensures forall b: nat :: IsBar(q.attrs, b) && b < x ==> b in q.done
  {
    forall b: nat | IsBar(q.attrs, b) && b < x ensures b in q.done {
      assert Places(q, b) == 1;
      assert Fs(b) !in q.head;
    }
  }

  lemma BeginHanded(q: Queue)
    requires MayBegin(q) && NoDup(q.head)
    ensures forall x: nat :: Handed(Begin(q), Fs(x)) ==> Handed(q, Fs(x))
    ensures forall p: Rq :: !p.Fs? ==> !Handed(Begin(q), p)
  {
    BeginNoDup(q);
    hide NoDup, WellTyped;
  }

  lemma BeginHistory(q: Queue)
    requires MayBegin(q) && PlacesOk(q) && DriverOk(q) && HistoryOk(q)
    ensures HistoryOk(Begin(q))
    ensures forall x: nat :: Handed(Begin(q), Fs(x)) ==> Handed(q, Fs(x)) && x < q.head[0].id
    ensures forall p: Rq :: !p.Fs? ==> !Handed(Begin(q), p)
    ensures q.inFlight == 0 ==> forall x: nat :: Fs(x) !in q.driver
  {
    hide NoDup, WellTyped;
    BeginHanded(q);
    BeginNoDup(q);
    assert Places(q, q.head[0].id) == 1;
    assert forall x: nat :: Fs(x) in q.driver ==> Fs(x) in FsOf(q.driver);
  }

  lemma BeginSequence(q: Queue)
    requires MayBegin(q) && PlacesOk(q) && DriverOk(q) && HistoryOk(q) && !q.mode.tag
    requires ListOk(q.attrs, false, q.orig, q.head)
    requires forall b: nat :: IsBar(q.attrs, b) && b < q.head[0].id ==> b in q.done
    ensures SequenceOk(Begin(q)) && NoStall(Begin(q))
  {
    BeginHistory(q);
    BeginNoDup(q);
    BeginList(q);
    hide HistoryOk, PlacesOk, ListOk, NoDup, WellTyped;
    var q', b := Begin(q), q.head[0].id;
    forall x: nat | Handed(q', Fs(x)) ensures q.inFlight > 0 {
      assert Fs(x) in q'.driver || (Fs(x) in q'.head && b < x);
    }
  }

  lemma BeginOrdered(q: Queue)
    requires Common(q) && MayBegin(q) && !q.mode.tag && Ordered(q)
    ensures Ordered(Begin(q)) && NoStall(Begin(q))
  {
    FrontBarriersDone(q, q.head[0].id);
    hide PlacesOk, DriverOk, BitsOk, HistoryOk, SequenceOk, ListOk, ColourOk, WellTyped;
    BeginHistory(q);
    BeginList(q);
    BeginSequence(q);
  }

  // Looking at the first request.

  /** If the first request is a proxy it is that proxy's turn (draining) or any turn will do. */
  ghost predicate FrontInTurn(q: Queue)
    requires q.head != []
  {
    var r := q.head[0];
    !r.Fs? && Active(q) && q.ordseq.drain && (!q.mode.tag ==> StageOf(r) == CurSeq(q.ordseq))
  }

  lemma BeginFront(q: Queue)
    requires MayBegin(q)
    ensures Begin(q).head != [] && Active(Begin(q)) && Begin(q).orig == q.head[0].id
    ensures Begin(q).mode == q.mode
    ensures StartOrdered(q).1 ==> FrontInTurn(Begin(q))
  {
    hide NoProxies, InUse, ProxySet;
  }

  lemma BeginKeeps(q: Queue)
    requires Inv(q) && MayBegin(q)
    ensures Inv(Begin(q))
  {
    BeginFront(q);
    BeginCommon(q);
    if !q.mode.tag {
      BeginOrdered(q);
    }
    hide Common, Ordered, NoStall, Begin;
  }

  lemma FrontStage(q: Queue)
    requires Common(q) && Ordered(q) && Active(q) && q.head != []
    ensures ReqSeq(q, q.head[0]) >= CurSeq(q.ordseq)
    ensures ReqSeq(q, q.head[0]) <= CurSeq(q.ordseq) && q.head[0].Fs? ==> q.head[0].id < q.orig && !q.ordseq.drain
  {
    var r := q.head[0];
    if r.Fs? {
      if r.id < q.orig {
        OldColour(q, r.id);
      } else {
        NewColour(q, 0);
      }
    } else {
      assert ProxyOk(q, PreFlush) && ProxyOk(q, BarProxy) && ProxyOk(q, PostFlush);
    }
  }

  /** blk_do_ordered hands out only what may be handed out, and starts only what may start. */
  lemma DoOrderedOk(q: Queue)
    requires Inv(q) && q.head != []
    ensures var (q1, ok) := DoOrdered(q);
      && (if !Active(q) && q.head[0].Fs? && IsBar(q.attrs, q.head[0].id)
          then MayBegin(q) && q1 == Begin(q) && q1.orig == q.head[0].id && Active(q1) else q1 == q)
      && Inv(q1)
      && (ok && q1.head[0].Fs? ==> MayIssue(q1))
      && (ok && !q1.head[0].Fs? ==> FrontInTurn(q1))
  {
    var r := q.head[0];
    if !Active(q) {
      assert ProxyOk(q, PreFlush) && ProxyOk(q, BarProxy) && ProxyOk(q, PostFlush);
      assert r.Fs?;
      if IsBar(q.attrs, r.id) {
        BarrierFirst(q);
        BeginKeeps(q);
        BeginFront(q);
        assert Begin(q).head[0] == ProxiesOf(q.mode, q.attrs[r.id])[0];
      } else if !q.mode.tag {
        FrontBarriersDone(q, r.id);
      }
    } else if !q.mode.tag {
      FrontStage(q);
      assert r.Fs? ==> Places(q, r.id) == 1;
    }
  }

  lemma FrontMayIssue(q: Queue)
    requires q.head != [] && WellTyped(q) && FrontInTurn(q) && !EmptyBarrier(q, q.head[0])
    ensures MayIssue(q)
  {
  }

  /** The empty barrier's place holder is completed without the driver seeing it. */
  lemma EmptyLeaves(q: Queue)
    requires Inv(q) && q.head != [] && FrontInTurn(q) && EmptyBarrier(q, q.head[0])
    ensures var q0 := Dequeued(q, 0);
      && q0.inFlight == |FsOf(q0.driver)| && BarProxy !in q0.started
      && Gone(q0, BarProxy) && InTurn(q0, BarProxy)
  {
    var q0 := Dequeued(q, 0);
    RemoveMembers(q.head, 0);
    assert ProxyOk(q, PreFlush) && ProxyOk(q, BarProxy) && ProxyOk(q, PostFlush);
    forall i: nat | i < |q.attrs| ensures Places(q0, i) == 1 {
      assert Places(q, i) == 1;
    }
    if !q.mode.tag {
      EmptyLeavesOrdered(q);
    }
  }

  lemma TailList(attrs: seq<Attr>, active: bool, orig: nat, s: seq<Rq>)
    requires s != [] && ListOk(attrs, active, orig, s)
    ensures ListOk(attrs, active, orig, s[1..])
  {
  }

  /** Taking requests away does not disturb the order. */
  lemma FewerKeeps(q: Queue, q0: Queue)
    requires HistoryOk(q) && SequenceOk(q)
    requires q0 == q.(head := q0.head, driver := q0.driver, inFlight := q0.inFlight)
    requires forall r :: r in q0.head ==> r in q.head
    requires q0.driver <= q.driver
    ensures HistoryOk(q0) && SequenceOk(q0)
  {
    assert forall x :: Handed(q0, x) ==> Handed(q, x);
  }

  lemma EmptyLeavesOrdered(q: Queue)
    requires Common(q) && Ordered(q) && q.head != [] && Active(q) && q.head[0] == BarProxy
    ensures Ordered(Dequeued(q, 0))
  {
    hide ColourOk, ListOk, NoDup, WellTyped, DriverOk, BitsOk, HistoryOk, SequenceOk;
    var q0 := Dequeued(q, 0);
    TailList(q.attrs, true, q.orig, q.head);
    assert q0.head == q.head[1..];
    FewerKeeps(q, q0);
  }
}
