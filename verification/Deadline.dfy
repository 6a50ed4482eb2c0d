/**
  The deadline scheduler: per direction a sort list, a FIFO and a cached next request, with
  batches of reads or of writes. Reads are preferred, but only so often while writes wait.
*/
module Deadline {
  import opened Options
  import opened SortList

  datatype Dir = Read | Write

  function Other(d: Dir): Dir {
    if d.Read? then Write else Read
  }

  /** The queue of one direction; `out` is what has gone to the dispatch queue, in order. */
  datatype Side = Side(sort: seq<Rq>, fifo: seq<Rq>, next: Option<Rq>, out: seq<Rq>)

  /** The sort list and the FIFO hold the same requests, and the cache holds one of them. */
  ghost predicate SideOk(s: Side) {
    Sorted(s.sort) && multiset(s.fifo) == multiset(s.sort) && (s.next.Some? ==> s.next.value in s.sort)
  }

  /** deadline_latter_request. */
  function Latter(s: seq<Rq>, i: nat): Option<Rq>
    requires i < |s|
  {
    if i + 1 < |s| then Some(s[i + 1]) else None
  }

  lemma {:induction false} LatterStays(s: seq<Rq>, i: nat)
    requires i < |s|
    ensures Latter(s, i).Some? ==> Latter(s, i).value in Without(s, i)
  {
    assert i + 1 < |s| ==> Without(s, i)[i] == s[i + 1];
  }

  // ---------------------------------------------------------------------------
  // Starvation
  // ---------------------------------------------------------------------------

  /** A dispatch call: the direction it served and whether a write was waiting. */
  datatype Served = Served(dir: Dir, writeWaiting: bool)

  /** How many of the last calls in a row served a read while a write was waiting. */
  function ReadRun(log: seq<Served>): nat {
    if log == [] then 0
    else
      var e := log[|log| - 1];
      if e.dir.Read? && e.writeWaiting then 1 + ReadRun(log[..|log| - 1]) else 0
  }

  function BatchMax(fifoBatch: nat): nat {
    if fifoBatch == 0 then 1 else fifoBatch
  }

  function Bound(writesStarved: nat, fifoBatch: nat): nat {
    (writesStarved + 1) * BatchMax(fifoBatch)
  }

  /** How many more reads may be served while a write waits. */
  function Rank(writesStarved: nat, fifoBatch: nat, starved: nat, batching: nat): nat
    requires starved <= writesStarved
  {
    (writesStarved - starved) * BatchMax(fifoBatch) + if batching < fifoBatch then fifoBatch - batching else 0
  }

  lemma {:induction false} RankBounded(ws: nat, fb: nat, starved: nat, batching: nat)
    requires starved <= ws
    ensures Rank(ws, fb, starved, batching) <= Bound(ws, fb)
  {
    Times(ws - starved, ws, BatchMax(fb));
    Distribute(ws, BatchMax(fb));
  }

  lemma {:induction false} Times(a: nat, b: nat, m: nat)
    requires a <= b
    ensures a * m <= b * m
  {
  }

  lemma {:induction false} Distribute(a: nat, m: nat)
    ensures (a + 1) * m == a * m + m
  {
  }

  /** A read beyond the batch, while a write waits, costs a turn. */
  lemma {:induction false} RankTurn(ws: nat, fb: nat, starved: nat, batching: nat)
    requires starved < ws
    ensures Rank(ws, fb, starved + 1, 1) < Rank(ws, fb, starved, batching)
  {
    Distribute(ws - starved - 1, BatchMax(fb));
    assert (ws - starved - 1 + 1) * BatchMax(fb) == (ws - starved) * BatchMax(fb);
  }

  /** Every run of reads past a waiting write has kept to the bound, and what may follow fits too. */
  ghost predicate Fair(ws: nat, fb: nat, starved: nat, batching: nat, log: seq<Served>) {
    && starved <= ws && ReadRun(log) + Rank(ws, fb, starved, batching) <= Bound(ws, fb)
    && (forall k :: 0 <= k <= |log| ==> ReadRun(log[..k]) <= Bound(ws, fb))
  }

  lemma {:induction false} WindowRun(log: seq<Served>, i: nat, j: nat)
    requires i <= j <= |log| && forall k :: i <= k < j ==> log[k].dir.Read? && log[k].writeWaiting
    ensures ReadRun(log[..j]) >= j - i
    decreases j
  {
    if i < j {
      WindowRun(log, i, j - 1);
      assert log[..j][..j - 1] == log[..j - 1];
    }
  }

  lemma {:induction false} FairStep(ws: nat, fb: nat, starved: nat, batching: nat, log: seq<Served>, starved': nat,
                                    batching': nat, e: Served)
    requires Fair(ws, fb, starved, batching, log) && starved' <= ws
    requires e.dir.Read? && e.writeWaiting ==>
      Rank(ws, fb, starved', batching') < Rank(ws, fb, starved, batching)
    ensures Fair(ws, fb, starved', batching', log + [e])
  {
    hide Rank, Bound;
    RankBounded(ws, fb, starved', batching');
    var log' := log + [e];
    assert log'[..|log|] == log;
    forall k | 0 <= k <= |log'|
      ensures ReadRun(log'[..k]) <= Bound(ws, fb)
    {
      if k <= |log| {
        assert log'[..k] == log[..k];
      } else {
        assert log'[..k] == log';
      }
    }
  }

  /** From `s` to `t` requests have only been dispatched. */
  ghost predicate Kept(s: Side, t: Side) {
    multiset(t.sort) + multiset(t.out) == multiset(s.sort) + multiset(s.out) && s.out <= t.out
  }

  lemma {:induction false} KeptMoved(s: Side, t: Side, i: nat)
    requires i < |s.sort| && t.sort == Without(s.sort, i) && t.out == s.out + [s.sort[i]]
    ensures Kept(s, t) && |t.sort| == |s.sort| - 1 && multiset(t.sort) == multiset(s.sort) - multiset{s.sort[i]}
    ensures forall x :: x in s.sort ==> x in t.sort || x == s.sort[i]
  {
    hide Without;
    WithoutMultiset(s.sort, i);
    WithoutMembers(s.sort, i);
    WithoutLength(s.sort, i);
  }

  lemma {:induction false} KeptSelf(s: Side)
    ensures Kept(s, s)
  {
  }

  /** A step that dispatches from the side or changes only its cache. */
  lemma {:induction false} KeptStep(s: Side, t: Side, u: Side)
    requires Kept(s, t) && (Kept(t, u) || u.(next := None) == t.(next := None))
    ensures Kept(s, u)
  {
  }

  /** A side with one more request. */
  lemma {:induction false} SideAdded(s: Side, k: nat, r: Rq)
    requires SideOk(s) && Between(s.sort, k, r)
    ensures k <= |s.sort| && SideOk(s.(sort := Insert(s.sort, k, r), fifo := s.fifo + [r]))
    ensures |Insert(s.sort, k, r)| == |s.sort| + 1 && r in Insert(s.sort, k, r)
    ensures multiset(Insert(s.sort, k, r)) == multiset(s.sort) + multiset{r}
  {
    hide Sorted, Between, Insert;
    InsertPlace(s.sort, k, r);
  }

  lemma {:induction false} AddedOne(s: Side, t: Side, k: nat, r: Rq)
    requires k <= |t.sort|
    ensures (t.fifo + [r])[..|t.fifo|] == t.fifo
    ensures OneLess(s, t, r.sector) ==> OneLess(s, t.(sort := Insert(t.sort, k, r)), r.sector) && t.out != s.out
  {
    hide Removed, Insert;
  }

  lemma {:induction false} KeptAdded(s: Side, t: Side, k: nat, r: Rq)
    requires Kept(s, t) && k <= |t.sort| && multiset(Insert(t.sort, k, r)) == multiset(t.sort) + multiset{r}
    ensures multiset(Insert(t.sort, k, r)) + multiset(t.out) == multiset(s.sort) + multiset(s.out) + multiset{r}
    ensures s.out <= t.out
  {
  }

  lemma {:induction false} FifoEmpty(s: Side)
    requires SideOk(s)
    ensures s.fifo == [] <==> s.sort == []
    ensures s.fifo != [] ==> s.fifo[0] in s.sort
  {
    assert |multiset(s.fifo)| == |multiset(s.sort)|;
    assert s.fifo != [] ==> s.fifo[0] in multiset(s.fifo);
  }

  lemma {:induction false} RankBatch(ws: nat, fb: nat, starved: nat, batching: nat)
    requires starved <= ws && batching < fb
    ensures Rank(ws, fb, starved, batching + 1) < Rank(ws, fb, starved, batching)
  {
  }

  lemma {:induction false} FairMeans(ws: nat, fb: nat, starved: nat, batching: nat, log: seq<Served>)
    requires Fair(ws, fb, starved, batching, log)
    ensures starved <= ws
  {
  }

  // ---------------------------------------------------------------------------
  // The choice
  // ---------------------------------------------------------------------------

  datatype Picked = Picked(rq: Option<Rq>, dir: Dir, batching: nat, starved: nat)

  /** What deadline_dispatch_requests serves: the next request of the batch as long as the batch may
      go on; otherwise writes when their turn has come or there is nothing else, from the head of
      the FIFO when that has expired or the batch has no next request. */
  function Pick(rd: Side, wr: Side, last: nat, batching: nat, starved: nat, fb: nat, ws: nat,
                expired: Dir -> bool): Picked {
    var dir := if wr.next.Some? then Write else Read;
    var next := if wr.next.Some? then wr.next else rd.next;
    var sequential := next.Some? && next.value.sector == last;
    if sequential && batching < fb then Picked(next, dir, batching + 1, starved)
    else if rd.fifo == [] && wr.fifo == [] then
      Picked(next, dir, if next.Some? && !sequential then batching + fb else batching, starved)
    else
      var turn := wr.fifo != [] && (rd.fifo == [] || starved >= ws);
      var s := if turn then wr else rd;
      Picked(
        if expired(if turn then Write else Read) || s.next.None? then Some(s.fifo[0]) else s.next,
        if turn then Write else Read, 1,
        if turn then 0 else if wr.fifo != [] then starved + 1 else starved)
  }

  // ---------------------------------------------------------------------------
  // The scheduler
  // ---------------------------------------------------------------------------

  class Scheduler {
    var rd: Side
    var wr: Side
    var batching: nat
    var lastSector: nat
    var starved: nat
    var nrSorted: nat                    // q->nr_sorted
    const fifoBatch: nat
    const writesStarved: nat
    ghost var lastMoved: Option<Dir>
    ghost var log: seq<Served>

    constructor (fifoBatch: nat, writesStarved: nat)
      ensures Valid() && this.fifoBatch == fifoBatch && this.writesStarved == writesStarved
      ensures rd.sort == wr.sort == [] && rd.out == wr.out == [] && log == []
    {
      rd, wr := Side([], [], None, []), Side([], [], None, []);
      batching, lastSector, starved, nrSorted := 0, 0, 0, 0;
      this.fifoBatch, this.writesStarved := fifoBatch, writesStarved;
      lastMoved, log := None, [];
      new;
      RankBounded(writesStarved, fifoBatch, 0, 0);
    }

    function Of(d: Dir): Side
      reads this
    {
      if d.Read? then rd else wr
    }

    ghost predicate Consistent()
      reads this
    {
      && SideOk(rd) && SideOk(wr) && nrSorted == |rd.sort| + |wr.sort|
      && (lastMoved != Some(Read) ==> rd.next.None?) && (lastMoved != Some(Write) ==> wr.next.None?)
    }

    ghost predicate Valid()
      reads this
    {
      Consistent() && Fair(writesStarved, fifoBatch, starved, batching, log)
    }

    method Put(d: Dir, s: Side)
      modifies this`rd, this`wr
      ensures Of(d) == s && Of(Other(d)) == old(Of(Other(d)))
    {
      if d.Read? {
        rd := s;
      } else {
        wr := s;
      }
    }

    /** deadline_remove_request: off the FIFO and the sort list; the cache moves on. */
    method Remove(d: Dir, i: nat)
      requires SideOk(Of(d)) && i < |Of(d).sort|
      modifies this`rd, this`wr
      ensures SideOk(Of(d)) && Of(d).sort == Without(old(Of(d)).sort, i) && Of(d).out == old(Of(d)).out
      ensures Of(Other(d)) == old(Of(Other(d)))
      ensures Of(d).next ==
        if old(Of(d)).next == Some(old(Of(d)).sort[i]) then Latter(old(Of(d)).sort, i) else old(Of(d)).next
      ensures Of(d).fifo == Removed(old(Of(d)).fifo, old(Of(d)).sort[i])
    {
      hide Without, Sorted, Removed;
      var s := Of(d);
      var r := s.sort[i];
      assert r in multiset(s.sort);
      var k := Find(s.fifo, r);
      RemovedIs(s.fifo, k);
      WithoutMultiset(s.fifo, k);
      WithoutMultiset(s.sort, i);
      WithoutOrder(s.sort, i);
      WithoutMembers(s.sort, i);
      LatterStays(s.sort, i);
      var next := if s.next == Some(r) then Latter(s.sort, i) else s.next;
      Put(d, s.(sort := Without(s.sort, i), fifo := Without(s.fifo, k), next := next));
    }

    /** deadline_move_request. */
    method MoveRequest(d: Dir, i: nat)
      requires Consistent() && i < |Of(d).sort|
      modifies this`rd, this`wr, this`lastSector, this`nrSorted, this`lastMoved
      ensures Consistent() && lastMoved == Some(d) && nrSorted == old(nrSorted) - 1
      ensures var r := old(Of(d)).sort[i];
        && lastSector == r.sector + r.nr && Of(d).out == old(Of(d)).out + [r]
        && Of(d).sort == Without(old(Of(d)).sort, i) && Of(d).next == Latter(old(Of(d)).sort, i)
        && Of(d).fifo == Removed(old(Of(d)).fifo, r)
        && Of(Other(d)) == old(Of(Other(d))).(next := None)
    {
      hide Without, Sorted, Removed;
      var s := Of(d);
      var r := s.sort[i];
      LatterStays(s.sort, i);
      LatterOther(s.sort, i);
      Put(Other(d), Of(Other(d)).(next := None));
      Put(d, s.(next := Latter(s.sort, i)));
      lastSector := r.sector + r.nr;
      WithoutMembers(s.sort, i);
      WithoutLength(s.sort, i);
      Remove(d, i);
      nrSorted := nrSorted - 1;
      Put(d, Of(d).(out := Of(d).out + [r]));
      lastMoved := Some(d);
    }

    /** deadline_add_rq_rb, up to the insertion: a request at the same sector is dispatched. */
    method MakeRoom(d: Dir, r: Rq) returns (k: nat, moved: bool)
      requires Consistent()
      modifies this`rd, this`wr, this`lastSector, this`nrSorted, this`lastMoved
      ensures Consistent() && Between(Of(d).sort, k, r) && Kept(old(Of(d)), Of(d))
      ensures Of(Other(d)).(next := None) == old(Of(Other(d))).(next := None)
      ensures moved <==> exists x :: x in old(Of(d)).sort && x.sector == r.sector
      ensures !moved ==> Of(d) == old(Of(d)) && Of(Other(d)) == old(Of(Other(d))) && nrSorted == old(nrSorted)
      ensures !moved ==> lastMoved == old(lastMoved) && lastSector == old(lastSector)
      ensures moved ==> nrSorted == old(nrSorted) - 1 && OneLess(old(Of(d)), Of(d), r.sector)
    {
      hide SideOk, Sorted, Between, Without, Kept, Removed, Latter;
      KeptSelf(Of(d));
      SideSorted(Of(d));
      k, moved := Place(Of(d).sort, r);
      var alias := moved;
      ghost var s := Of(d);
      while alias
        invariant Consistent() && Kept(s, Of(d))
        invariant Of(Other(d)).(next := None) == old(Of(Other(d))).(next := None)
        invariant if alias then Of(d) == s && nrSorted == old(nrSorted) && k < |s.sort| && s.sort[k].sector == r.sector
          else Between(Of(d).sort, k, r)
        invariant moved && !alias ==> nrSorted == old(nrSorted) - 1 && OneLess(s, Of(d), r.sector)
        invariant !moved ==> !alias && Of(d) == s && Of(Other(d)) == old(Of(Other(d))) && nrSorted == old(nrSorted)
        invariant !moved ==> lastMoved == old(lastMoved) && lastSector == old(lastSector)
        decreases |Of(d).sort|
      {
        MoveRequest(d, k);
        KeptMoved(s, Of(d), k);
        OneAlias(s.sort, k, r);
        SideSorted(Of(d));
        k, alias := Place(Of(d).sort, r);
      }
    }

    /** deadline_add_request. */
    method Add(d: Dir, r: Rq)
      requires Valid()
      modifies this`rd, this`wr, this`lastSector, this`nrSorted, this`lastMoved
      ensures Valid() && r in Of(d).sort && Of(d).fifo != [] && Of(d).fifo[|Of(d).fifo| - 1] == r
      ensures var s := old(Of(d));
        multiset(Of(d).sort) + multiset(Of(d).out) == multiset(s.sort) + multiset(s.out) + multiset{r}
      ensures old(Of(d)).out <= Of(d).out && Of(Other(d)).(next := None) == old(Of(Other(d))).(next := None)
      ensures Of(d).out == old(Of(d)).out ==> Of(d).fifo == old(Of(d)).fifo + [r] && Of(d).next == old(Of(d)).next
      ensures Of(d).out != old(Of(d)).out ==>
        OneLess(old(Of(d)), Of(d).(fifo := Of(d).fifo[..|Of(d).fifo| - 1]), r.sector)
    {
      hide Sorted, Between, Insert, Fair, Kept, Removed, SideOk, OneLess;
      ghost var before := Of(d);
      var k, moved := MakeRoom(d, r);
      var s := Of(d);
      SideAdded(s, k, r);
      KeptAdded(before, s, k, r);
      AddedOne(before, s, k, r);
      Put(d, s.(sort := Insert(s.sort, k, r), fifo := s.fifo + [r]));
      nrSorted := nrSorted + 1;
    }

    /** deadline_merged_requests: the request at `gone` has been merged into the one at `keep`, which
        takes its place in the FIFO when it expires earlier. */
    method MergedRequests(d: Dir, keep: nat, gone: nat, earlier: bool)
      requires Valid() && keep < |Of(d).sort| && gone < |Of(d).sort| && keep != gone
      modifies this`rd, this`wr, this`nrSorted
      ensures Valid() && Of(d).sort == Without(old(Of(d)).sort, gone) && Of(Other(d)) == old(Of(Other(d)))
      ensures Of(d).next ==
        if old(Of(d)).next == Some(old(Of(d)).sort[gone]) then Latter(old(Of(d)).sort, gone) else old(Of(d)).next
      ensures var s := old(Of(d)); var r, x := s.sort[keep], s.sort[gone];
        Of(d).fifo == if earlier then Replaced(Removed(s.fifo, r), x, r) else Removed(s.fifo, x)
    {
      hide Fair, Without, Sorted, Latter, Removed, Replaced;
      var s := Of(d);
      if earlier {
        assert s.sort[keep] in multiset(s.sort);
        MergeOther(s, keep, gone);
        var f := MoveBehind(s.fifo, s.sort[keep], s.sort[gone]);
        Put(d, s.(fifo := f));
      }
      WithoutLength(s.sort, gone);
      Remove(d, gone);
      nrSorted := nrSorted - 1;
    }

    /** elv_rb_del for a front merge. For the time being the FIFO is looked at without the request. */
    method TakeFromTree(d: Dir, i: nat) returns (k: nat)
      requires Consistent() && i < |Of(d).sort|
      modifies this`rd, this`wr, this`nrSorted
      ensures Consistent() && nrSorted == old(nrSorted) - 1 && Of(Other(d)) == old(Of(Other(d)))
      ensures var s := old(Of(d));
        k < |s.fifo| && s.fifo[k] == s.sort[i] && s.sort[i] !in s.fifo[..k] && Of(d) == TakenOut(s, i, k)
    {
      hide Without, Sorted;
      var s := Of(d);
      assert s.sort[i] in multiset(s.sort);
      k := Find(s.fifo, s.sort[i]);
      WithoutMultiset(s.fifo, k);
      WithoutMultiset(s.sort, i);
      WithoutOrder(s.sort, i);
      WithoutMembers(s.sort, i);
      WithoutLength(s.sort, i);
      Put(d, TakenOut(s, i, k));
      nrSorted := nrSorted - 1;
    }

    /** deadline_merged_request after a front merge: the request at `i` starts earlier now and moves in
        the sort list; a request that starts there already is dispatched. In the FIFO it stays. */
    method FrontMerged(d: Dir, i: nat, sector: nat, nr: nat)
      requires Valid() && i < |Of(d).sort| && Of(d).sort[i].sector != sector
      modifies this`rd, this`wr, this`lastSector, this`nrSorted, this`lastMoved
      ensures Valid() && Of(Other(d)).(next := None) == old(Of(Other(d))).(next := None)
      ensures FrontMergedTo(old(Of(d)), Of(d), i, sector, nr)
    {
      hide Fair, SideOk, Without, Sorted, Between, Kept, Removed, Insert, FrontMergedTo;
      var s := Of(d);
      var r, r' := s.sort[i], s.sort[i].(sector := sector, nr := nr);
      var k0 := TakeFromTree(d, i);
      var k, moved := MakeRoom(d, r');
      var t := Of(d);
      var f := s.fifo[k0 := r'];
      if moved {
        AliasInFifo(s, i, k0, r', t.out[|t.out| - 1]);
        var j := Find(f, t.out[|t.out| - 1]);
        RemovedIs(f, j);
        f := Without(f, j);
      }
      FrontDone(s, t, i, k0, k, r', f, moved);
      Put(d, FrontPut(s, t, i, k, r', f, moved));
      nrSorted := nrSorted + 1;
    }

    /** The choice in deadline_dispatch_requests; `expired` is what deadline_check_fifo finds. */
    method Select(expired: Dir -> bool) returns (rq: Option<Rq>, d: Dir)
      requires Consistent() && starved <= writesStarved
      modifies this`batching, this`starved
      ensures Picked(rq, d, batching, starved) ==
        Pick(rd, wr, lastSector, old(batching), old(starved), fifoBatch, writesStarved, expired)
      ensures starved <= writesStarved && (rq.None? <==> rd.sort == [] && wr.sort == [])
      ensures rq.Some? ==> rq.value in Of(d).sort
      ensures rq.None? ==> batching == old(batching) && starved == old(starved)
      ensures rq.Some? && d.Read? && wr.fifo != [] ==>
        Rank(writesStarved, fifoBatch, starved, batching) < Rank(writesStarved, fifoBatch, old(starved), old(batching))
      ensures rq.Some? && d.Write? && lastMoved == Some(Read) ==> rq.value == wr.fifo[0]
    {
      hide Sorted, Rank;
      FifoEmpty(rd);
      FifoEmpty(wr);
      var anyReads, anyWrites := rd.fifo != [], wr.fifo != [];
      d := if wr.next.Some? then Write else Read;
      rq := Of(d).next;
      if rq.Some? {
        if lastSector != rq.value.sector {
          batching := batching + fifoBatch;
        }
        if batching < fifoBatch {
          RankBatch(writesStarved, fifoBatch, starved, batching);
          batching := batching + 1;
          return;
        }
      }
      if anyReads {
        d := Read;
        if anyWrites {
          if starved >= writesStarved {
            d, starved := Write, 0;
          } else {
            RankTurn(writesStarved, fifoBatch, starved, old(batching));
            starved := starved + 1;
          }
        }
      } else if anyWrites {
        d, starved := Write, 0;
      } else {
        return;
      }
      rq := if expired(d) || Of(d).next.None? then Some(Of(d).fifo[0]) else Of(d).next;
      batching := 1;
    }

    /** deadline_dispatch_requests. */
    method Dispatch(expired: Dir -> bool) returns (served: bool)
      requires Valid()
      modifies this
      ensures Valid() && served == (old(rd).sort != [] || old(wr).sort != [])
      ensures !served ==> rd == old(rd) && wr == old(wr) && nrSorted == old(nrSorted)
      ensures served ==> |log| > 0 && ServedOne(old(rd), old(wr), log[|log| - 1].dir)
      ensures served ==> log == old(log) + [Served(log[|log| - 1].dir, old(wr).fifo != [])]
      ensures served && log[|log| - 1].dir.Write? && old(lastMoved) == Some(Read) ==>
        old(wr).fifo != [] && wr.out == old(wr).out + [old(wr).fifo[0]]
      ensures served ==> nrSorted == old(nrSorted) - 1
      ensures var p := Pick(old(rd), old(wr), old(lastSector), old(batching), old(starved), fifoBatch, writesStarved,
                            expired);
        served ==> p.rq.Some? && log[|log| - 1].dir == p.dir && Of(p.dir).out == old(Of(p.dir)).out + [p.rq.value]
    {
      hide SideOk, Kept, Fair, Without, Rank, Latter, Removed, Pick;
      FairMeans(writesStarved, fifoBatch, starved, batching, log);
      ghost var starved0, batching0, waiting := starved, batching, wr.fifo != [];
      FifoEmpty(wr);
      var rq, d := Select(expired);
      served := rq.Some?;
      if served {
        FairStep(writesStarved, fifoBatch, starved0, batching0, log, starved, batching, Served(d, waiting));
        log := log + [Served(d, waiting)];
        var i := Find(Of(d).sort, rq.value);
        ghost var s := Of(d);
        MoveRequest(d, i);
        KeptMoved(s, Of(d), i);
      }
    }

    /** One request of direction `d` has been dispatched. */
    ghost predicate ServedOne(rd0: Side, wr0: Side, d: Dir)
      reads this
    {
      var s := if d.Read? then rd0 else wr0;
      var o := if d.Read? then wr0 else rd0;
      && Kept(s, Of(d)) && |Of(d).out| == |s.out| + 1 && Of(Other(d)).(next := None) == o.(next := None)
      && Of(d).fifo == Removed(s.fifo, Of(d).out[|s.out|])
    }

    /** elv_drain_elevator: nothing is left, and everything was dispatched once, whatever has expired at each
        call. */
    method Drain(expired: (nat, Dir) -> bool)
      requires Valid()
      modifies this
      ensures Valid() && rd.sort == wr.sort == [] && rd.fifo == wr.fifo == [] && nrSorted == 0
      ensures Kept(old(rd), rd) && Kept(old(wr), wr)
    {
      hide Sorted, Fair, Without, Kept;
      var more, turn := true, 0;
      KeptSelf(rd);
      KeptSelf(wr);
      while more
        invariant Valid() && (!more ==> rd.sort == wr.sort == [])
        invariant Kept(old(rd), rd) && Kept(old(wr), wr)
        decreases nrSorted, more
      {
        ghost var r, w := rd, wr;
        more := Dispatch(dir => expired(turn, dir));
        turn := turn + 1;
        if more {
          KeptStep(old(rd), r, rd);
          KeptStep(old(wr), w, wr);
        }
      }
      FifoEmpty(rd);
      FifoEmpty(wr);
    }
  }

  /** From `s` to `t` the request at `i` has got another start and size, and nothing else has changed,
      except that a request that started there has been dispatched. */
  ghost predicate FrontMergedTo(s: Side, t: Side, i: nat, sector: nat, nr: nat)
    requires i < |s.sort|
  {
    var r := s.sort[i];
    var r' := r.(sector := sector, nr := nr);
    && r' in t.sort && s.out <= t.out
    && multiset(t.sort) + multiset(t.out) == multiset(s.sort) + multiset(s.out) - multiset{r} + multiset{r'}
    && (if t.out == s.out then
          t.fifo == Replaced(s.fifo, r, r') && t.next == (if s.next == Some(r) then Some(r') else s.next)
        else
          && |t.out| == |s.out| + 1 && t.out[|s.out|].sector == sector
          && t.fifo == Removed(Replaced(s.fifo, r, r'), t.out[|s.out|]))
  }

  /** A side with the request at `i` of the sort list and `k` of the FIFO taken out. */
  function TakenOut(s: Side, i: nat, k: nat): Side
    requires i < |s.sort| && k < |s.fifo|
  {
    var next := if s.next == Some(s.sort[i]) then None else s.next;
    s.(sort := Without(s.sort, i), fifo := Without(s.fifo, k), next := next)
  }

  /** The dispatched alias is another request, so the FIFO has it. */
  lemma {:induction false} AliasInFifo(s: Side, i: nat, k: nat, r: Rq, x: Rq)
    requires SideOk(s) && i < |s.sort| && k < |s.fifo| && s.fifo[k] == s.sort[i] && x in Without(s.sort, i)
    ensures x in s.fifo[k := r]
  {
    hide Without, Sorted;
    WithoutMultiset(s.sort, i);
    WithoutMultiset(s.fifo, k);
    assert x in multiset(Without(s.sort, i));
    assert x in multiset(Without(s.fifo, k));
    StillThere(s.fifo, k, r, x);
  }

  lemma {:induction false} StillThere(s: seq<Rq>, k: nat, r: Rq, x: Rq)
    requires k < |s| && x in Without(s, k)
    ensures x in s[k := r]
  {
    var w, f := Without(s, k), s[k := r];
    var j :| 0 <= j < |w| && w[j] == x;
    assert f[if j < k then j else j + 1] == x;
  }

  lemma {:induction false} SideSorted(s: Side)
    requires SideOk(s)
    ensures Sorted(s.sort)
  {
  }

  lemma {:induction false} FrontLists(s: Side, t: Side, i: nat, k0: nat, k: nat, r: Rq, f: seq<Rq>)
    requires SideOk(s) && SideOk(t) && i < |s.sort| && k0 < |s.fifo| && s.fifo[k0] == s.sort[i]
    requires s.sort[i] !in s.fifo[..k0]
    requires Kept(TakenOut(s, i, k0), t) && Between(t.sort, k, r)
    requires |t.out| <= |s.out| + 1
    requires f == if |t.out| == |s.out| then s.fifo[k0 := r] else Removed(s.fifo[k0 := r], t.out[|s.out|])
    requires |t.out| > |s.out| ==> t.out[|s.out|] in s.fifo[k0 := r]
    ensures k <= |t.sort| && Sorted(Insert(t.sort, k, r)) && |Insert(t.sort, k, r)| == |t.sort| + 1
    ensures multiset(f) == multiset(Insert(t.sort, k, r)) && r in Insert(t.sort, k, r)
    ensures forall x :: x in t.sort ==> x in Insert(t.sort, k, r)
    ensures multiset(Insert(t.sort, k, r)) + multiset(t.out) ==
      multiset(s.sort) + multiset(s.out) - multiset{s.sort[i]} + multiset{r}
  {
    hide Sorted, Between, Insert, Without, Removed;
    InsertPlace(t.sort, k, r);
    WithoutMultiset(s.sort, i);
    FrontFifo(s, t, k0, r, f);
    var x := if |t.out| == |s.out| then multiset{} else multiset{t.out[|s.out|]};
    assert s.sort[i] in multiset(s.sort);
    FrontCount(multiset(s.sort), s.sort[i], r, multiset(t.sort), multiset(s.out), x, multiset(f));
  }

  /** What left the FIFO is what was dispatched. */
  lemma {:induction false} FrontFifo(s: Side, t: Side, k0: nat, r: Rq, f: seq<Rq>)
    requires k0 < |s.fifo| && s.fifo[k0] !in s.fifo[..k0] && s.out <= t.out && |t.out| <= |s.out| + 1
    requires f == if |t.out| == |s.out| then s.fifo[k0 := r] else Removed(s.fifo[k0 := r], t.out[|s.out|])
    requires |t.out| > |s.out| ==> t.out[|s.out|] in s.fifo[k0 := r]
    ensures var x := if |t.out| == |s.out| then multiset{} else multiset{t.out[|s.out|]};
      && multiset(t.out) == multiset(s.out) + x
      && multiset(f) == multiset(s.fifo) - multiset{s.fifo[k0]} + multiset{r} - x
  {
    hide Removed;
    OutGrows(s.out, t.out);
    FifoChanges(s.fifo, k0, r);
    if |t.out| > |s.out| {
      RemovedMultiset(s.fifo[k0 := r], t.out[|s.out|]);
    }
  }

  lemma {:induction false} OutGrows(out: seq<Rq>, out': seq<Rq>)
    requires out <= out' && |out'| <= |out| + 1
    ensures multiset(out') == multiset(out) + if |out'| == |out| then multiset{} else multiset{out'[|out|]}
  {
    if |out'| == |out| {
      assert out' == out;
    } else {
      assert out' == out + [out'[|out|]];
    }
  }

  lemma {:induction false} FifoChanges(fifo: seq<Rq>, k: nat, r: Rq)
    requires k < |fifo| && fifo[k] !in fifo[..k]
    ensures multiset(fifo[k := r]) == multiset(fifo) - multiset{fifo[k]} + multiset{r}
  {
    hide Replaced;
    ReplacedIs(fifo, k, r);
  }

  function FrontPut(s: Side, t: Side, i: nat, k: nat, r: Rq, f: seq<Rq>, moved: bool): Side
    requires i < |s.sort| && k <= |t.sort|
  {
    t.(sort := Insert(t.sort, k, r), fifo := f, next := if s.next == Some(s.sort[i]) && !moved then Some(r) else t.next)
  }

  /** After a front merge the side is in order again. */
  lemma {:induction false} FrontDone(s: Side, t: Side, i: nat, k0: nat, k: nat, r: Rq, f: seq<Rq>, moved: bool)
    requires SideOk(s) && SideOk(t) && i < |s.sort| && k0 < |s.fifo| && s.fifo[k0] == s.sort[i]
    requires s.sort[i] !in s.fifo[..k0]
    requires r == s.sort[i].(sector := r.sector, nr := r.nr) && Between(t.sort, k, r) && Kept(TakenOut(s, i, k0), t)
    requires if moved then OneLess(TakenOut(s, i, k0), t, r.sector) else t == TakenOut(s, i, k0)
    requires moved ==> t.out[|s.out|] in s.fifo[k0 := r]
    requires f == if moved then Removed(s.fifo[k0 := r], t.out[|s.out|]) else s.fifo[k0 := r]
    ensures k <= |t.sort|
    ensures var t' := FrontPut(s, t, i, k, r, f, moved);
      SideOk(t') && FrontMergedTo(s, t', i, r.sector, r.nr) && |t'.sort| == |t.sort| + 1
  {
    hide Sorted, Between, Insert, Without, Removed, Replaced;
    FrontLists(s, t, i, k0, k, r, f);
    ReplacedIs(s.fifo, k0, r);
    assert moved <==> t.out != s.out;
  }

  /** The same on multisets; `x` is what has been dispatched. */
  lemma {:induction false} FrontCount(s: multiset<Rq>, r0: Rq, r: Rq, t: multiset<Rq>, out: multiset<Rq>,
                                      x: multiset<Rq>, f: multiset<Rq>)
    requires r0 in s && t + (out + x) == (s - multiset{r0}) + out && f == s - multiset{r0} + multiset{r} - x
    ensures f == t + multiset{r} && t + multiset{r} + (out + x) == s + out - multiset{r0} + multiset{r}
  {
    forall y
      ensures f[y] == (t + multiset{r})[y]
      ensures (t + multiset{r} + (out + x))[y] == (s + out - multiset{r0} + multiset{r})[y]
    {
      assert (t + (out + x))[y] == ((s - multiset{r0}) + out)[y];
    }
  }

  /** One request at the sector has been dispatched. */
  ghost predicate OneLess(s: Side, t: Side, sector: nat) {
    && |t.out| == |s.out| + 1 && t.out[|s.out|] in s.sort && t.out[|s.out|].sector == sector
    && t.fifo == Removed(s.fifo, t.out[|s.out|])
  }

  /** No two requests of a sort list have the same sector. */
  lemma {:induction false} OneAlias(s: seq<Rq>, k: nat, r: Rq)
    requires Sorted(s) && k < |s| && s[k].sector == r.sector
    ensures forall x :: x in Without(s, k) ==> x.sector != r.sector
  {
    var w := Without(s, k);
    assert forall j :: 0 <= j < |w| ==> w[j] == s[if j < k then j else j + 1];
  }

  lemma {:induction false} MergeOther(s: Side, keep: nat, gone: nat)
    requires SideOk(s) && keep < |s.sort| && gone < |s.sort| && keep != gone
    ensures s.sort[gone] in multiset(s.fifo) - multiset{s.sort[keep]}
  {
    assert s.sort[gone] in multiset(s.sort);
    assert s.sort[keep] != s.sort[gone];
  }

  lemma {:induction false} LatterOther(s: seq<Rq>, i: nat)
    requires Sorted(s) && i < |s|
    ensures Latter(s, i) != Some(s[i])
    ensures Latter(s, i).Some? ==> Latter(s, i).value in s
  {
  }

  /** Bounded starvation, in every state that a run reaches: no stretch of calls in a row that served reads
      past a waiting write is longer than the bound. */
  lemma {:induction false} StarvationBounded(d: Scheduler, i: nat, j: nat)
    requires d.Valid() && i <= j <= |d.log|
    requires forall k :: i <= k < j ==> d.log[k].dir.Read? && d.log[k].writeWaiting
    ensures j - i <= (d.writesStarved + 1) * (if d.fifoBatch == 0 then 1 else d.fifoBatch)
  {
    hide Rank;
    WindowRun(d.log, i, j);
    assert ReadRun(d.log[..j]) <= Bound(d.writesStarved, d.fifoBatch);
  }
}
