/**
  The next-request cache of the anticipatory scheduler, for one data direction; the directions
  share none of this state. The red-black tree is a sequence sorted by sector.

  as_choose_req prefers what is near in front of the head, allows short seeks back at twice
  their cost, and comes last to what is far behind. The cache is to be the request that a scan of the
  whole tree with as_choose_req would find, although removals look only at the two neighbours. It is
  where no request starts inside another; elsewhere FindNextExact says when.
*/
module Anticipatory {
  import opened Options
  import opened SortList

  const MAXBACK: nat := 1024 * 1024
  const BACK_PENALTY: nat := 2

  // ---------------------------------------------------------------------------
  // The order
  // ---------------------------------------------------------------------------

  /** The request is too far behind the head to seek back to. */
  predicate Wraps(last: nat, s: nat) {
    s < last && s + MAXBACK < last
  }

  function Distance(last: nat, s: nat): nat
    requires !Wraps(last, s)
  {
    if s >= last then s - last else (last - s) * BACK_PENALTY
  }

  /** as_choose_req picks the first of two sectors. */
  predicate Prefers(last: nat, s1: nat, s2: nat) {
    if !Wraps(last, s1) && Wraps(last, s2) then true
    else if !Wraps(last, s2) && Wraps(last, s1) then false
    else if Wraps(last, s1) then s1 <= s2
    else if Distance(last, s1) < Distance(last, s2) then true
    else if Distance(last, s2) < Distance(last, s1) then false
    else s1 >= s2
  }

  /** as_choose_req. */
  function Choose(last: nat, r1: Option<Rq>, r2: Option<Rq>): (r: Option<Rq>)
    ensures r == r1 || r == r2
  {
    if r1.None? || r1 == r2 then r2
    else if r2.None? then r1
    else if Prefers(last, r1.value.sector, r2.value.sector) then r1 else r2
  }

  /** A total order on sectors. */
  lemma PrefersOrder(last: nat, a: nat, b: nat, c: nat)
    ensures Prefers(last, a, a)
    ensures Prefers(last, a, b) || Prefers(last, b, a)
    ensures Prefers(last, a, b) && Prefers(last, b, a) ==> a == b
    ensures Prefers(last, a, b) && Prefers(last, b, c) ==> Prefers(last, a, c)
  {
  }

  // ---------------------------------------------------------------------------
  // The scan
  // ---------------------------------------------------------------------------

  /** A linear scan of the tree. */
  function Scan(last: nat, s: seq<Rq>): Option<Rq> {
    if s == [] then None else Choose(last, Scan(last, s[..|s| - 1]), Some(s[|s| - 1]))
  }

  ghost predicate Best(last: nat, s: seq<Rq>, r: Rq) {
    r in s && forall x :: x in s ==> Prefers(last, r.sector, x.sector)
  }

  lemma {:induction false} ScanIsBest(last: nat, s: seq<Rq>)
    requires s != []
    ensures Scan(last, s).Some? && Best(last, s, Scan(last, s).value)
  {
    hide Prefers;
    var n := |s| - 1;
    var x := s[n];
    PrefersOrder(last, x.sector, x.sector, x.sector);
    if n > 0 {
      ScanIsBest(last, s[..n]);
      var b := Scan(last, s[..n]).value;
      PrefersOrder(last, b.sector, x.sector, x.sector);
      PrefersOrder(last, b.sector, b.sector, b.sector);
      forall y | y in s
        ensures Prefers(last, Scan(last, s).value.sector, y.sector)
      {
        PrefersOrder(last, x.sector, b.sector, y.sector);
        assert y == x || y in s[..n];
      }
    }
  }

  lemma BestUnique(last: nat, s: seq<Rq>, a: Rq, b: Rq)
    requires Sorted(s) && Best(last, s, a) && Best(last, s, b)
    ensures a == b
  {
    hide Prefers;
    PrefersOrder(last, a.sector, b.sector, b.sector);
    var i :| 0 <= i < |s| && s[i] == a;
    var j :| 0 <= j < |s| && s[j] == b;
  }

  /** Being best is what it takes to be found by the scan. */
  lemma ScanIs(last: nat, s: seq<Rq>, r: Rq)
    requires Sorted(s)
    ensures Best(last, s, r) <==> Scan(last, s) == Some(r)
  {
    if s != [] {
      ScanIsBest(last, s);
      if Best(last, s, r) {
        BestUnique(last, s, r, Scan(last, s).value);
      }
    }
  }

  // ---------------------------------------------------------------------------
  // The neighbours
  // ---------------------------------------------------------------------------

  /** as_find_next_rq for the request at `i`: the next one, or the first when there is none,
      against the one before. */
  function FindNext(last: nat, s: seq<Rq>, i: nat): Option<Rq>
    requires i < |s|
  {
    var prev := if i > 0 then Some(s[i - 1]) else None;
    var next := if i + 1 < |s| then Some(s[i + 1]) else if i > 0 then Some(s[0]) else None;
    Choose(last, next, prev)
  }

  /** The head is between the request's neighbours. */
  ghost predicate HeadHere(last: nat, s: seq<Rq>, i: nat)
    requires i < |s|
  {
    && (forall j :: i < j < |s| ==> last <= s[j].sector)
    && (forall j :: 0 <= j < i ==> s[j].sector < last)
  }

  lemma InFront(last: nat, a: nat, b: nat)
    requires last <= a <= b
    ensures Prefers(last, a, b)
  {
  }

  lemma Behind(last: nat, a: nat, b: nat)
    requires b <= a < last && !Wraps(last, a)
    ensures Prefers(last, a, b)
  {
  }

  lemma FarBehind(last: nat, a: nat, b: nat)
    requires Wraps(last, b) && (last <= a || (Wraps(last, a) && a <= b))
    ensures Prefers(last, a, b)
  {
  }

  /** With the head at the request, the best of the others is a neighbour, or the first one when
      everything else is far behind. */
  lemma {:induction false} NeighbourIsBest(last: nat, s: seq<Rq>, i: nat, x: Rq)
    requires Sorted(s) && i < |s| && HeadHere(last, s, i) && x in Without(s, i)
    ensures FindNext(last, s, i).Some? && Prefers(last, FindNext(last, s, i).value.sector, x.sector)
  {
    hide Prefers, Wraps;
    var j :| 0 <= j < |s| && j != i && s[j] == x;
    var n := if i + 1 < |s| then s[i + 1] else s[0];
    PrefersOrder(last, n.sector, if i > 0 then s[i - 1].sector else n.sector, x.sector);
    PrefersOrder(last, if i > 0 then s[i - 1].sector else n.sector, n.sector, x.sector);
    if j > i {
      InFront(last, n.sector, x.sector);
    } else if !Wraps(last, s[i - 1].sector) {
      Behind(last, s[i - 1].sector, x.sector);
    } else {
      WrapsMore(last, x.sector, s[i - 1].sector);
      WrapsMore(last, s[0].sector, s[i - 1].sector);
      FarBehind(last, n.sector, x.sector);
    }
  }

  lemma WrapsMore(last: nat, a: nat, b: nat)
    requires a <= b && Wraps(last, b)
    ensures Wraps(last, a)
  {
  }

  /** Where everything is far behind the head, the best is the first. */
  lemma {:induction false} FirstIsBest(last: nat, s: seq<Rq>, x: Rq)
    requires Sorted(s) && 1 < |s| && Wraps(last, s[|s| - 1].sector) && x in Without(s, 0)
    ensures FindNext(last, s, 0) == Some(s[1]) && Prefers(last, s[1].sector, x.sector)
  {
    var j :| 0 < j < |s| && s[j] == x;
    WrapsMore(last, s[1].sector, s[|s| - 1].sector);
    WrapsMore(last, x.sector, s[|s| - 1].sector);
    FarBehind(last, s[1].sector, x.sector);
  }

  /** The best request has the head beside it, or all are far behind and it is the first. */
  lemma {:induction false} BestPlace(last: nat, s: seq<Rq>, i: nat)
    requires Sorted(s) && i < |s| && Best(last, s, s[i])
    ensures HeadHere(last, s, i) || (i == 0 && Wraps(last, s[|s| - 1].sector))
  {
    forall j | 0 <= j < |s|
      ensures Prefers(last, s[i].sector, s[j].sector)
    {
      assert s[j] in s;
    }
    if Wraps(last, s[i].sector) {
      assert Prefers(last, s[i].sector, s[0].sector) && Prefers(last, s[i].sector, s[|s| - 1].sector);
      assert i == 0 && Wraps(last, s[|s| - 1].sector);
    } else {
      forall j | 0 <= j < |s| && j != i
        ensures if j > i then last <= s[j].sector else s[j].sector < last
      {
        assert Prefers(last, s[i].sector, s[j].sector);
      }
    }
  }

  lemma {:induction false} FindNextMember(last: nat, s: seq<Rq>, i: nat)
    requires i < |s|
    ensures |s| > 1 ==> FindNext(last, s, i).Some? && FindNext(last, s, i).value in Without(s, i)
    ensures |s| == 1 ==> FindNext(last, s, i).None?
  {
    hide Prefers;
    var w := Without(s, i);
    assert i + 1 < |s| ==> w[i] == s[i + 1];
    assert i > 0 ==> w[i - 1] == s[i - 1] && w[0] == s[0];
  }

  lemma {:induction false} WithoutSorted(s: seq<Rq>, i: nat)
    requires Sorted(s) && i < |s|
    ensures Sorted(Without(s, i)) && (Clear(s) ==> Clear(Without(s, i)))
  {
  }

  /** With the head at the request, or the request the best one, looking at the neighbours finds what a
      scan of the rest would find. */
  lemma {:induction false} FindNextIsScan(last: nat, s: seq<Rq>, i: nat)
    requires Sorted(s) && i < |s| && (HeadHere(last, s, i) || Best(last, s, s[i]))
    ensures FindNext(last, s, i) == Scan(last, Without(s, i))
  {
    hide Prefers, Wraps, FindNext, Scan, Best, HeadHere, Without, Sorted;
    FindNextMember(last, s, i);
    WithoutSorted(s, i);
    if |s| == 1 {
      ScanNothing(last, s, i);
    } else {
      FindNextBest(last, s, i);
      ScanIs(last, Without(s, i), FindNext(last, s, i).value);
    }
  }

  lemma {:induction false} ScanNothing(last: nat, s: seq<Rq>, i: nat)
    requires |s| == 1 && i == 0
    ensures Scan(last, Without(s, i)) == None
  {
  }

  lemma {:induction false} FindNextBest(last: nat, s: seq<Rq>, i: nat)
    requires Sorted(s) && i < |s| && 1 < |s| && (HeadHere(last, s, i) || Best(last, s, s[i]))
    ensures FindNext(last, s, i).Some? && Best(last, Without(s, i), FindNext(last, s, i).value)
  {
    hide Prefers, Wraps, FindNext, HeadHere, Without, Sorted;
    FindNextMember(last, s, i);
    if Best(last, s, s[i]) {
      BestPlace(last, s, i);
    }
    forall x | x in Without(s, i)
      ensures Prefers(last, FindNext(last, s, i).value.sector, x.sector)
    {
      if HeadHere(last, s, i) {
        NeighbourIsBest(last, s, i, x);
      } else {
        FirstIsBest(last, s, x);
      }
    }
  }

  /** When the neighbours of the request at `i` are enough, for a head at or behind its start: nothing
      in front of the head was skipped; or the one after it, behind the head but near, is better than
      the one after that; or all others are far behind and one of the first two is dispatched. */
  predicate NeighboursEnough(last: nat, s: seq<Rq>, i: nat)
    requires i < |s|
  {
    || i + 1 == |s| || last <= s[i + 1].sector
    || (!Wraps(last, s[i + 1].sector) && (i + 2 == |s| || Prefers(last, s[i + 1].sector, s[i + 2].sector)))
    || (Wraps(last, s[i + 1].sector) && i <= 1 && Wraps(last, s[|s| - 1].sector))
  }

  /** Looking at the neighbours finds what a scan would find, exactly then. */
  lemma {:induction false} FindNextExact(last: nat, s: seq<Rq>, i: nat)
    requires Sorted(s) && i < |s| && s[i].sector <= last
    ensures FindNext(last, s, i) == Scan(last, Without(s, i)) <==> NeighboursEnough(last, s, i)
  {
    hide Prefers, Wraps, FindNext, Scan, Without;
    if i + 1 == |s| || last <= s[i + 1].sector {
      FindNextIsScan(last, s, i);
    } else if Wraps(last, s[i + 1].sector) {
      FarNeighbours(last, s, i);
    } else {
      NearNeighbour(last, s, i);
    }
  }

  /** The next request is behind the head, but near. */
  lemma {:induction false} NearNeighbour(last: nat, s: seq<Rq>, i: nat)
    requires Sorted(s) && i + 1 < |s| && s[i + 1].sector < last && !Wraps(last, s[i + 1].sector)
    ensures FindNext(last, s, i) == Scan(last, Without(s, i)) <==>
      i + 2 == |s| || Prefers(last, s[i + 1].sector, s[i + 2].sector)
  {
    hide Prefers, Wraps, Scan, Without;
    var t, w := s[i + 1], Without(s, i);
    if i > 0 {
      Behind(last, t.sector, s[i - 1].sector);
    }
    assert FindNext(last, s, i) == Some(t);
    WithoutOrder(s, i);
    ScanIs(last, w, t);
    WithoutMember(s, i, i + 1);
    if i + 2 < |s| {
      WithoutMember(s, i, i + 2);
    }
    if i + 2 == |s| || Prefers(last, t.sector, s[i + 2].sector) {
      forall x | x in w
        ensures Prefers(last, t.sector, x.sector)
      {
        NearIsBest(last, s, i, x);
      }
    }
  }

  lemma {:induction false} NearIsBest(last: nat, s: seq<Rq>, i: nat, x: Rq)
    requires Sorted(s) && i + 1 < |s| && s[i + 1].sector < last && !Wraps(last, s[i + 1].sector)
    requires i + 2 == |s| || Prefers(last, s[i + 1].sector, s[i + 2].sector)
    requires x in Without(s, i)
    ensures Prefers(last, s[i + 1].sector, x.sector)
  {
    hide Prefers;
    var t := s[i + 1].sector;
    var j :| 0 <= j < |s| && j != i && s[j] == x;
    if j <= i + 1 {
      Behind(last, t, x.sector);
    } else {
      var u := s[i + 2].sector;
      PrefersOrder(last, t, u, x.sector);
      if u < last {
        Behind(last, u, t);
        assert false;
      }
      InFront(last, u, x.sector);
    }
  }

  /** The next request is far behind the head. */
  lemma {:induction false} FarNeighbours(last: nat, s: seq<Rq>, i: nat)
    requires Sorted(s) && i + 1 < |s| && Wraps(last, s[i + 1].sector)
    ensures FindNext(last, s, i) == Scan(last, Without(s, i)) <==> i <= 1 && Wraps(last, s[|s| - 1].sector)
  {
    hide Prefers, Wraps, Scan, Without;
    var w, z := Without(s, i), s[|s| - 1];
    var f := if i > 0 then s[i - 1] else s[1];
    if i > 0 {
      WrapsMore(last, f.sector, s[i + 1].sector);
      FarBehind(last, f.sector, s[i + 1].sector);
      PrefersOrder(last, f.sector, s[i + 1].sector, 0);
    }
    assert FindNext(last, s, i) == Some(f);
    WithoutOrder(s, i);
    ScanIs(last, w, f);
    if Wraps(last, z.sector) {
      var first := if i > 0 then s[0] else s[1];
      WithoutMember(s, i, if i > 0 then 0 else 1);
      forall x | x in w
        ensures Prefers(last, first.sector, x.sector)
      {
        FirstOfFar(last, s, i, x);
      }
      ScanIs(last, w, first);
    } else {
      WithoutMember(s, i, |s| - 1);
      FarIsWorse(last, f.sector, z.sector);
    }
  }

  lemma {:induction false} FirstOfFar(last: nat, s: seq<Rq>, i: nat, x: Rq)
    requires Sorted(s) && i + 1 < |s| && Wraps(last, s[|s| - 1].sector) && x in Without(s, i)
    ensures Prefers(last, (if i > 0 then s[0] else s[1]).sector, x.sector)
  {
    hide Prefers;
    var first := if i > 0 then s[0] else s[1];
    var j :| 0 <= j < |s| && j != i && s[j] == x;
    assert first.sector <= x.sector <= s[|s| - 1].sector;
    WrapsMore(last, x.sector, s[|s| - 1].sector);
    WrapsMore(last, first.sector, s[|s| - 1].sector);
    FarBehind(last, first.sector, x.sector);
  }

  lemma FarIsWorse(last: nat, a: nat, b: nat)
    requires Wraps(last, a) && !Wraps(last, b)
    ensures !Prefers(last, a, b)
  {
  }

  /** A request that starts inside the one dispatched can defeat the cache: behind the head, it hides
      the nearer request in front of it. */
  lemma InsideDefeatsCache()
    ensures var s := [Rq(0, 0, 100), Rq(1, 10, 1), Rq(2, 100, 1)];
      Sorted(s) && FindNext(100, s, 0) != Scan(100, Without(s, 0))
  {
    FindNextExact(100, [Rq(0, 0, 100), Rq(1, 10, 1), Rq(2, 100, 1)], 0);
  }

  // ---------------------------------------------------------------------------
  // The queue
  // ---------------------------------------------------------------------------

  /** No request starts inside another. */
  ghost predicate Clear(s: seq<Rq>) {
    forall i, j :: 0 <= i < j < |s| ==> s[i].sector + s[i].nr <= s[j].sector
  }

  lemma {:induction false} ClearHead(s: seq<Rq>, i: nat)
    requires Sorted(s) && Clear(s) && i < |s|
    ensures HeadHere(s[i].sector + s[i].nr, s, i)
  {
  }

  /** The scan after one more request. */
  lemma {:induction false} ScanAdd(last: nat, s: seq<Rq>, k: nat, r: Rq)
    requires k <= |s| && Sorted(Insert(s, k, r))
    ensures Scan(last, Insert(s, k, r)) == Choose(last, Some(r), Scan(last, s))
  {
    hide Prefers;
    var t := Insert(s, k, r);
    assert r == t[k];
    PrefersOrder(last, r.sector, r.sector, r.sector);
    if s == [] {
      assert t == [r] && t[..0] == [];
    } else {
      ScanIsBest(last, s);
      var b := Scan(last, s).value;
      var c := Choose(last, Some(r), Some(b)).value;
      PrefersOrder(last, r.sector, b.sector, b.sector);
      forall x | x in t
        ensures Prefers(last, c.sector, x.sector)
      {
        assert x == r || x in s;
        PrefersOrder(last, r.sector, b.sector, x.sector);
      }
      assert c in t;
      ScanIs(last, t, c);
    }
  }

  /** The request starts inside no other and no other inside it; one at its sector will be gone. */
  ghost predicate Fits(s: seq<Rq>, r: Rq) {
    r !in s && forall x :: x in s && x.sector != r.sector ==>
      if x.sector < r.sector then x.sector + x.nr <= r.sector else r.sector + r.nr <= x.sector
  }

  lemma {:induction false} StillFits(before: seq<Rq>, s: seq<Rq>, x: Rq, r: Rq)
    requires Fits(before, r) && multiset(s) == multiset(before) - multiset{x} && x in before
    ensures Fits(s, r)
  {
    OneGone(before, s, x);
  }

  lemma {:induction false} InsertOrder(s: seq<Rq>, k: nat, r: Rq)
    requires Sorted(s) && Clear(s) && Fits(s, r) && Between(s, k, r)
    ensures Sorted(Insert(s, k, r)) && Clear(Insert(s, k, r))
  {
    var t := Insert(s, k, r);
    assert forall j :: 0 <= j < |s| ==> s[j] in s;
    forall i, j | 0 <= i < j < |t|
      ensures t[i].sector < t[j].sector && t[i].sector + t[i].nr <= t[j].sector
    {
      var x := if i < k then s[i] else if i == k then r else s[i - 1];
      var y := if j < k then s[j] else if j == k then r else s[j - 1];
      assert t[i] == x && t[j] == y;
    }
  }

  lemma {:induction false} InsertFacts(s: seq<Rq>, k: nat, r: Rq, last: nat)
    requires Sorted(s) && Between(s, k, r)
    ensures k <= |s| && var t := Insert(s, k, r);
      && Sorted(t) && r in t && multiset(t) == multiset(s) + multiset{r}
      && Scan(last, t) == Choose(last, Some(r), Scan(last, s))
      && forall x :: x in s ==> x in t
  {
    hide Scan, Choose, Sorted;
    InsertPlace(s, k, r);
    ScanAdd(last, s, k, r);
  }

  lemma {:induction false} GrownClear(s: seq<Rq>, i: nat, r: Rq)
    requires Sorted(s) && Clear(s) && i < |s| && r.sector == s[i].sector
    requires i + 1 < |s| ==> r.sector + r.nr <= s[i + 1].sector
    ensures Clear(s[i := r])
  {
    forall j | i < j < |s|
      ensures r.sector + r.nr <= s[j].sector
    {
      assert j == i + 1 || s[i + 1].sector < s[j].sector;
    }
  }

  lemma {:induction false} NextNone(last: nat, s: seq<Rq>)
    ensures s == [] <==> Scan(last, s).None?
    ensures s != [] ==> Scan(last, s).value in s && Best(last, s, Scan(last, s).value)
  {
    if s != [] {
      ScanIsBest(last, s);
    }
  }

  /** Taking a request out of both lists. */
  lemma {:induction false} RemovedSame(f: seq<Rq>, s: seq<Rq>, i: nat)
    requires i < |s| && multiset(f) == multiset(s)
    ensures multiset(Removed(f, s[i])) == multiset(Without(s, i))
  {
    hide Removed, Without;
    assert s[i] in multiset(f);
    RemovedMultiset(f, s[i]);
    WithoutMultiset(s, i);
  }

  class Queue {
    var sort: seq<Rq>          // sort_list
    var fifo: seq<Rq>          // fifo_list
    var next: Option<Rq>       // next_rq
    var last: nat              // last_sector
    var dispatched: seq<Rq>    // moved to the dispatch queue, in order

    constructor ()
      ensures Good() && sort == [] && dispatched == []
    {
      sort, fifo, next, last, dispatched := [], [], None, 0, [];
    }

    /** The tree and the FIFO hold the same requests, and the cache one of them. */
    ghost predicate Valid()
      reads this
    {
      Sorted(sort) && multiset(fifo) == multiset(sort) && (next.Some? ==> next.value in sort)
    }

    /** The cache is what a scan would find. */
    ghost predicate Right()
      reads this
    {
      next == Scan(last, sort)
    }

    /** Where no request starts inside another, the cache is right. */
    ghost predicate Good()
      reads this
    {
      Valid() && Right() && Clear(sort)
    }

    /** rq_fifo_clear and as_del_rq_rb. */
    method Unlink(i: nat)
      requires i < |sort| && sort[i] in fifo
      modifies this`sort, this`fifo
      ensures sort == Without(old(sort), i) && fifo == Removed(old(fifo), old(sort)[i])
    {
      hide Without, Removed;
      var k := Find(fifo, sort[i]);
      RemovedIs(fifo, k);
      fifo, sort := Without(fifo, k), Without(sort, i);
    }

    /** as_remove_queued_request, as a merge of requests calls it. */
    method RemoveAt(i: nat)
      requires Valid() && i < |sort|
      modifies this`sort, this`fifo, this`next
      ensures Valid() && sort == Without(old(sort), i) && fifo == Removed(old(fifo), old(sort)[i])
      ensures old(Right()) ==> Right()
      ensures old(Clear(sort)) ==> Clear(sort)
      ensures old(next) != None && sort != [] ==> next != None
    {
      hide Sorted, Clear, Scan, FindNext, Without, HeadHere, Best, Removed;
      var r := sort[i];
      assert r in multiset(fifo);
      WithoutMembers(sort, i);
      WithoutLength(sort, i);
      if next == Some(r) {
        ScanIs(last, sort, r);
        FindNextMember(last, sort, i);
        if Right() {
          FindNextIsScan(last, sort, i);
        }
        next := FindNext(last, sort, i);
      } else if Right() {
        ScanKeeps(last, sort, i);
      }
      WithoutSorted(sort, i);
      RemovedSame(fifo, sort, i);
      Unlink(i);
    }

    /** as_move_to_dispatch, for the request at `i`. */
    method Depart(i: nat)
      requires i < |sort| && sort[i] in fifo
      modifies this
      ensures last == old(sort)[i].sector + old(sort)[i].nr && next == FindNext(last, old(sort), i)
      ensures sort == Without(old(sort), i) && fifo == Removed(old(fifo), old(sort)[i])
      ensures dispatched == old(dispatched) + [old(sort)[i]]
    {
      hide FindNext, Without, Removed;
      var r := sort[i];
      last := r.sector + r.nr;
      next := FindNext(last, sort, i);
      Unlink(i);
      dispatched := dispatched + [r];
    }

    /** as_move_to_dispatch on a queue in order. The cache is right again exactly when the neighbours
        are enough; they are where no request starts inside another. */
    method MoveToDispatch(i: nat)
      requires Valid() && i < |sort|
      modifies this
      ensures Valid() && (next == None <==> sort == [])
      ensures var r := old(sort)[i];
        && last == r.sector + r.nr && dispatched == old(dispatched) + [r]
        && multiset(sort) == multiset(old(sort)) - multiset{r} && fifo == Removed(old(fifo), r)
      ensures Right() <==> NeighboursEnough(last, old(sort), i)
      ensures old(Clear(sort)) ==> Good()
    {
      hide Sorted, Clear, Scan, FindNext, Without, HeadHere, Best, Removed, NeighboursEnough;
      assert sort[i] in multiset(fifo);
      var end := sort[i].sector + sort[i].nr;
      FindNextExact(end, sort, i);
      if Clear(sort) {
        ClearHead(sort, i);
        FindNextIsScan(end, sort, i);
      }
      FindNextMember(end, sort, i);
      WithoutMultiset(sort, i);
      WithoutSorted(sort, i);
      WithoutLength(sort, i);
      RemovedSame(fifo, sort, i);
      Depart(i);
    }

    /** as_add_rq_rb: requests at the same sector go to the dispatch queue first. */
    method MakeRoom(r: Rq) returns (k: nat)
      requires Valid() && r !in sort
      modifies this
      ensures Valid() && r !in sort && Between(sort, k, r) && old(dispatched) <= dispatched
      ensures multiset(sort) + multiset(dispatched) == multiset(old(sort)) + multiset(old(dispatched))
      ensures forall x :: x in old(sort) ==> x in sort || x.sector == r.sector
      ensures old(Good() && Fits(sort, r)) ==> Good() && Fits(sort, r)
      ensures (forall x :: x in old(sort) ==> x.sector != r.sector) ==> old(Right()) ==> Right()
    {
      hide Scan, Clear, Sorted, Prefers, Fits, Between, NeighboursEnough, Removed;
      ghost var fine := Good() && Fits(sort, r);
      var alias;
      k, alias := Place(sort, r);
      while alias
        invariant Valid() && r !in sort && old(dispatched) <= dispatched && (fine ==> Good() && Fits(sort, r))
        invariant multiset(sort) + multiset(dispatched) == multiset(old(sort)) + multiset(old(dispatched))
        invariant forall x :: x in old(sort) ==> x in sort || x.sector == r.sector
        invariant (forall x :: x in old(sort) ==> x.sector != r.sector) ==> !alias && (old(Right()) ==> Right())
        invariant if alias then k < |sort| && sort[k].sector == r.sector else Between(sort, k, r)
        decreases |sort|
      {
        ghost var before, x := sort, sort[k];
        assert x in before;
        MoveToDispatch(k);
        OneGone(before, sort, x);
        if fine {
          StillFits(before, sort, x, r);
        }
        k, alias := Place(sort, r);
      }
    }

    /** as_add_request. */
    method Add(r: Rq)
      requires Valid() && r !in sort
      modifies this
      ensures Valid() && r in sort && fifo != [] && fifo[|fifo| - 1] == r && old(dispatched) <= dispatched
      ensures next != None
      ensures multiset(sort) + multiset(dispatched) == multiset(old(sort)) + multiset(old(dispatched)) + multiset{r}
      ensures forall x :: x in old(sort) ==> x in sort || x.sector == r.sector
      ensures old(Good() && Fits(sort, r)) ==> Good()
      ensures (forall x :: x in old(sort) ==> x.sector != r.sector) ==> old(Right()) ==> Right()
    {
      hide Scan, Clear, Sorted, Prefers, Fits, Between;
      var k := MakeRoom(r);
      InsertFacts(sort, k, r, last);
      if Clear(sort) && Fits(sort, r) {
        InsertOrder(sort, k, r);
      }
      fifo := fifo + [r];
      next := Choose(last, Some(r), next);
      sort := Insert(sort, k, r);
    }

    /** A back merge: the request at `i` of the tree grows behind its end. */
    method Grow(i: nat, more: nat)
      requires Valid() && i < |sort|
      modifies this`sort, this`fifo, this`next
      ensures Valid() && sort == old(sort)[i := old(sort)[i].(nr := old(sort)[i].nr + more)]
      ensures fifo == Replaced(old(fifo), old(sort)[i], sort[i])
      ensures next == if old(next) == Some(old(sort)[i]) then Some(sort[i]) else old(next)
      ensures old(Right()) ==> Right()
      ensures old(Clear(sort)) && (i + 1 < |sort| ==> sort[i].sector + sort[i].nr <= sort[i + 1].sector) ==> Clear(sort)
    {
      hide Scan, Prefers, Clear, Replaced;
      var r, r' := sort[i], sort[i].(nr := sort[i].nr + more);
      assert r in multiset(fifo);
      var k := Find(fifo, r);
      ReplacedIs(fifo, k, r');
      ScanGrown(last, sort, i, r');
      if Clear(sort) && (i + 1 < |sort| ==> r'.sector + r'.nr <= sort[i + 1].sector) {
        GrownClear(sort, i, r');
      }
      GrownMembers(sort, i, r');
      if next == Some(r) {
        next := Some(r');
      }
      sort, fifo := sort[i := r'], fifo[k := r'];
    }

    /** list_move in as_merged_requests: the request at `keep` goes behind the one at `gone`. */
    method TakePlace(keep: nat, gone: nat)
      requires Valid() && keep < |sort| && gone < |sort| && sort[gone] in multiset(sort) - multiset{sort[keep]}
      modifies this`fifo
      ensures Valid()
      ensures Removed(fifo, sort[gone]) == Replaced(Removed(old(fifo), sort[keep]), sort[gone], sort[keep])
    {
      hide Replaced, Removed, Sorted;
      assert sort[keep] in multiset(sort);
      fifo := MoveBehind(fifo, sort[keep], sort[gone]);
    }

    /** as_merged_requests: the request at `gone` has been merged into the one at `keep` that it
        follows, which takes its place in the FIFO when it expires earlier. The tree is the same whether
        the first request grows before or after the other is removed. */
    method Merge(keep: nat, gone: nat, earlier: bool)
      requires Valid() && keep < |sort| && gone < |sort| && keep != gone
      requires sort[keep].sector + sort[keep].nr == sort[gone].sector
      modifies this`sort, this`fifo, this`next
      ensures Valid() && keep < gone
      ensures var s := old(sort); var r, x := s[keep], s[gone];
        var r' := r.(nr := r.nr + x.nr);
        && sort == Without(s, gone)[keep := r']
        && fifo == Replaced(if earlier then Replaced(Removed(old(fifo), r), x, r) else Removed(old(fifo), x), r, r')
      ensures old(Right()) ==> Right()
      ensures old(Good()) ==> Good()
    {
      hide Scan, Clear, Replaced, Removed, Without, Sorted;
      ghost var s := sort;
      var x := sort[gone];
      MergePair(sort, keep, gone);
      if earlier {
        TakePlace(keep, gone);
      }
      RemoveAt(gone);
      if Clear(s) {
        ClearMerge(s, keep, gone);
      }
      Grow(keep, x.nr);
    }

    /** as_del_rq_rb for a front merge, which has made the request `r`. */
    method TakeFromTree(i: nat, r: Rq)
      requires Valid() && i < |sort|
      modifies this`sort, this`fifo, this`next
      ensures Sorted(sort) && sort == Without(old(sort), i)
      ensures multiset(sort) == multiset(old(sort)) - multiset{old(sort)[i]}
      ensures fifo == Replaced(old(fifo), old(sort)[i], r) && multiset(fifo) == multiset(sort) + multiset{r}
      ensures next == if old(next) == Some(old(sort)[i]) then Some(r) else old(next)
      ensures next.Some? ==> next.value in sort || next.value == r
    {
      hide Sorted, Without, Replaced;
      assert sort[i] in multiset(fifo) by { assert sort[i] in multiset(sort); }
      var k := Find(fifo, sort[i]);
      ReplacedIs(fifo, k, r);
      WithoutOrder(sort, i);
      WithoutMultiset(sort, i);
      WithoutMembers(sort, i);
      if next == Some(sort[i]) {
        next := Some(r);
      }
      sort, fifo := Without(sort, i), fifo[k := r];
    }

    /** as_add_rq_rb while `r` is off the tree: what is in its place is dispatched. No second one can be
        there. */
    method ClearPlace(r: Rq) returns (k: nat, alias: bool)
      requires Sorted(sort) && multiset(fifo) == multiset(sort) + multiset{r}
      modifies this
      ensures Sorted(sort) && multiset(fifo) == multiset(sort) + multiset{r} && Between(sort, k, r)
      ensures alias <==> exists x :: x in old(sort) && x.sector == r.sector
      ensures multiset(sort) + multiset(dispatched) == multiset(old(sort)) + multiset(old(dispatched))
      ensures if alias then
          && |dispatched| == |old(dispatched)| + 1 && dispatched[|old(dispatched)|].sector == r.sector
          && old(dispatched) <= dispatched && (next == None <==> |old(sort)| == 1)
          && (next.Some? ==> next.value in sort)
        else
          sort == old(sort) && fifo == old(fifo) && next == old(next) && last == old(last)
          && dispatched == old(dispatched)
    {
      hide Sorted, FindNext, Without, Between, Removed;
      k, alias := Place(sort, r);
      if alias {
        Parted(fifo, sort, k, r, dispatched);
        Depart(k);
        var more;
        k, more := Place(sort, r);
      }
    }

    /** as_merged_request for a front merge: the request at `i` now begins at `sector`. It is taken out of
        the tree and put in again; a request in its new place is dispatched while it is out. The source
        says that the cache may then not be the best; it may also be lost. */
    method FrontMerged(i: nat, sector: nat, nr: nat)
      requires Valid() && i < |sort|
      modifies this
      ensures Valid() && var r := old(sort)[i]; var r' := r.(sector := sector, nr := nr);
        && r' in sort && old(dispatched) <= dispatched
        && multiset(sort) + multiset(dispatched) ==
           multiset(old(sort)) + multiset(old(dispatched)) - multiset{r} + multiset{r'}
      ensures var r := old(sort)[i]; var r' := r.(sector := sector, nr := nr);
        if Aliased(old(sort), i, sector) then
          && |dispatched| == |old(dispatched)| + 1 && dispatched[|old(dispatched)|].sector == sector
          && (next == None <==> |old(sort)| == 2)
        else
          dispatched == old(dispatched) && last == old(last) && fifo == Replaced(old(fifo), r, r')
          && next == if old(next) == Some(r) then Some(r') else old(next)
    {
      hide Sorted, Without, Between, Insert, Removed, Replaced;
      ghost var s := sort;
      var r := sort[i].(sector := sector, nr := nr);
      AliasedIs(s, i, sector);
      WithoutLength(s, i);
      TakeFromTree(i, r);
      var k, alias := ClearPlace(r);
      InsertPlace(sort, k, r);
      sort := Insert(sort, k, r);
      FrontCount(multiset(s), s[i], r, multiset(old(dispatched)));
    }

    /** as_dispatch_request with force: it goes on while there is a cached request, each time the best for
        the head when the cache is right. It empties the queue exactly when something is cached to begin
        with. */
    method ForcedDispatch()
      requires Valid()
      modifies this
      ensures Valid() && old(dispatched) <= dispatched
      ensures sort == [] <==> old(next) != None || old(sort) == []
      ensures old(next) == None ==> sort == old(sort) && dispatched == old(dispatched)
      ensures multiset(dispatched) + multiset(sort) == multiset(old(dispatched)) + multiset(old(sort))
      ensures fifo == [] <==> sort == []
    {
      hide Scan, Clear, Prefers, Sorted, NeighboursEnough, Removed;
      while next.Some?
        invariant Valid() && old(dispatched) <= dispatched && (old(next) == None ==> next == None && sort == old(sort))
        invariant old(next) == None ==> dispatched == old(dispatched)
        invariant old(next) != None && next == None ==> sort == []
        invariant multiset(dispatched) + multiset(sort) == multiset(old(dispatched)) + multiset(old(sort))
        decreases |sort|
      {
        ghost var before := sort;
        var i := Find(sort, next.value);
        MoveToDispatch(i);
        assert |multiset(sort)| < |multiset(before)|;
      }
      assert |multiset(fifo)| == |multiset(sort)|;
    }

    /** The choice of as_dispatch_request: the head of the FIFO when it has expired, or the cached
        request. */
    method Dispatch(expired: bool) returns (found: bool)
      requires Valid()
      modifies this
      ensures Valid() && found == (old(sort) != [] && (expired || old(next) != None))
      ensures if !found then sort == old(sort) && dispatched == old(dispatched)
        else |dispatched| > 0 && var r := dispatched[|dispatched| - 1];
          && dispatched == old(dispatched) + [r] && r in old(sort)
          && multiset(sort) == multiset(old(sort)) - multiset{r}
          && (if expired then old(fifo) != [] && r == old(fifo)[0] else Some(r) == old(next))
          && (!expired && old(Right()) ==> Best(old(last), old(sort), r))
      ensures old(Good()) ==> Good() && (found <==> old(sort) != [])
    {
      hide Scan, Clear, Prefers, Sorted, NeighboursEnough, Removed, Best;
      NextNone(last, sort);
      assert |multiset(fifo)| == |multiset(sort)|;
      found := fifo != [] && (expired || next.Some?);
      if found {
        assert fifo[0] in multiset(fifo);
        var i := Find(sort, if expired then fifo[0] else next.value);
        MoveToDispatch(i);
      }
    }
  }

  lemma {:induction false} Parted(f: seq<Rq>, s: seq<Rq>, k: nat, r: Rq, out: seq<Rq>)
    requires Sorted(s) && k < |s| && s[k].sector == r.sector && multiset(f) == multiset(s) + multiset{r}
    ensures var x, w := s[k], Without(s, k);
      && x in f && Sorted(w) && multiset(Removed(f, x)) == multiset(w) + multiset{r}
      && multiset(w) + multiset(out + [x]) == multiset(s) + multiset(out)
      && (forall y :: y in w ==> y.sector != r.sector)
      && var n := FindNext(x.sector + x.nr, s, k);
        (n == None <==> |s| == 1) && (n.Some? ==> n.value in w)
  {
    hide Sorted, FindNext, Without, Removed;
    PartedLists(f, s, k, r, out);
    FindNextMember(s[k].sector + s[k].nr, s, k);
    WithoutOrder(s, k);
    AliasGone(s, k, r.sector);
  }

  /** A request that begins where another one ends comes after it. */
  lemma {:induction false} MergePair(s: seq<Rq>, keep: nat, gone: nat)
    requires Sorted(s) && keep < |s| && gone < |s| && keep != gone
    requires s[keep].sector + s[keep].nr == s[gone].sector
    ensures keep < gone && keep < |Without(s, gone)| && Without(s, gone)[keep] == s[keep]
    ensures s[gone] in multiset(s) - multiset{s[keep]}
  {
    assert s[gone] in multiset(s) && s[gone] != s[keep];
  }

  lemma {:induction false} OneGone(before: seq<Rq>, s: seq<Rq>, x: Rq)
    requires multiset(s) == multiset(before) - multiset{x} && x in before
    ensures |s| < |before| && (forall y :: y in s ==> y in before) && forall y :: y in before ==> y in s || y == x
  {
    assert |multiset(s)| < |multiset(before)|;
    forall y | y in s
      ensures y in before
    {
      assert y in multiset(s);
    }
    forall y | y in before && y != x
      ensures y in s
    {
      assert y in multiset(before);
      assert y in multiset(s);
    }
  }

  lemma {:induction false} GrownMembers(s: seq<Rq>, i: nat, r: Rq)
    requires Sorted(s) && i < |s|
    ensures r in s[i := r] && multiset(s[i := r]) == multiset(s) - multiset{s[i]} + multiset{r}
    ensures forall x :: x in s && x != s[i] ==> x in s[i := r]
  {
    var t := s[i := r];
    assert t[i] == r;
    forall x | x in s && x != s[i]
      ensures x in t
    {
      var j :| 0 <= j < |s| && s[j] == x;
      assert t[j] == x;
    }
  }

  /** Between two requests of which one begins where the other ends there is no third. */
  lemma {:induction false} ClearMerge(s: seq<Rq>, keep: nat, gone: nat)
    requires Sorted(s) && Clear(s) && keep < |s| && gone < |s| && keep != gone
    requires s[keep].sector + s[keep].nr == s[gone].sector
    ensures gone == keep + 1
    ensures var w := Without(s, gone);
      keep + 1 < |w| ==> s[keep].sector + (s[keep].nr + s[gone].nr) <= w[keep + 1].sector
  {
    assert keep < gone;
    assert s[keep + 1].sector <= s[gone].sector;
    var w := Without(s, gone);
    assert keep + 1 < |w| ==> w[keep + 1] == s[keep + 2];
  }

  /** Removing another request leaves the best one. */
  lemma {:induction false} ScanKeeps(last: nat, s: seq<Rq>, i: nat)
    requires Sorted(s) && i < |s| && Scan(last, s) != Some(s[i])
    ensures Scan(last, Without(s, i)) == Scan(last, s)
  {
    hide Prefers, Scan, Without, Sorted;
    ScanIsBest(last, s);
    var b := Scan(last, s).value;
    WithoutSorted(s, i);
    WithoutMembers(s, i);
    ScanIs(last, Without(s, i), b);
  }

  /** The scan sees only where requests start. */
  lemma {:induction false} ScanGrown(last: nat, s: seq<Rq>, i: nat, r: Rq)
    requires Sorted(s) && i < |s| && r.sector == s[i].sector
    ensures Sorted(s[i := r])
    ensures Scan(last, s[i := r]) == if Scan(last, s) == Some(s[i]) then Some(r) else Scan(last, s)
  {
    hide Prefers, Scan;
    ScanIsBest(last, s);
    var b := Scan(last, s).value;
    var t, c := s[i := r], if b == s[i] then r else b;
    var j :| 0 <= j < |s| && s[j] == b;
    assert t[j] == c;
    forall x | x in t
      ensures Prefers(last, c.sector, x.sector)
    {
      var k :| 0 <= k < |t| && t[k] == x;
      assert s[k] in s;
    }
    ScanIs(last, t, c);
  }
}
