/**
  Counting and mapping the physical segments of a request. Two loops walk the same bvecs and
  cluster neighbours greedily: blk_recalc_rq_segments, which also splits at high pages and
  where the virtual-merge size overflows, and blk_rq_map_sg, which does not. Because both are
  limited by max_segment_size they split at different places.

  A clustering is the sequence of flags that says which bvecs start a segment.
*/
module Segments {

  /** A bvec; `pfn` is the page frame number of its page. */
  datatype Bvec = Bvec(pfn: nat, offset: nat, len: nat)

  /** The queue limits. The mergeability macros depend on the architecture and are arbitrary. */
  datatype Limits = Limits(
    cluster: bool,
    maxSegment: nat,
    bouncePfn: nat,
    physMergeable: (Bvec, Bvec) -> bool,   // BIOVEC_PHYS_MERGEABLE
    segBoundary: (Bvec, Bvec) -> bool,     // BIOVEC_SEG_BOUNDARY
    virtMergeable: (Bvec, Bvec) -> bool,   // BIOVEC_VIRT_MERGEABLE
    virtOversize: nat -> bool,             // BIOVEC_VIRT_OVERSIZE
    virtStart: Bvec -> nat)                // BIOVEC_VIRT_START_SIZE

  /** A scatterlist entry. */
  datatype Sg = Sg(pfn: nat, offset: nat, length: nat)

  // ---------------------------------------------------------------------------
  // Clusterings
  // ---------------------------------------------------------------------------

  function Count(starts: seq<bool>): nat {
    if starts == [] then 0
    else Count(starts[..|starts| - 1]) + if starts[|starts| - 1] then 1 else 0
  }

  function Bytes(bvs: seq<Bvec>): nat {
    if bvs == [] then 0 else Bytes(bvs[..|bvs| - 1]) + bvs[|bvs| - 1].len
  }

  /** The length of the segment that the last bvec belongs to. */
  function LastLen(bvs: seq<Bvec>, starts: seq<bool>): nat
    requires |bvs| == |starts|
  {
    if bvs == [] then 0
    else
      var n := |bvs| - 1;
      bvs[n].len + if starts[n] then 0 else LastLen(bvs[..n], starts[..n])
  }

  /** Two neighbours may share a segment. */
  predicate Joinable(q: Limits, a: Bvec, b: Bvec) {
    q.cluster && q.physMergeable(a, b) && q.segBoundary(a, b)
  }

  /** Every bvec that does not start a segment may join the one before it, and the segment
      stays within the limit. */
  ghost predicate Legal(q: Limits, bvs: seq<Bvec>, starts: seq<bool>) {
    && |starts| == |bvs|
    && (forall i :: 0 <= i < |bvs| && !starts[i] ==>
          && i > 0 && Joinable(q, bvs[i - 1], bvs[i])
          && LastLen(bvs[..i + 1], starts[..i + 1]) <= q.maxSegment)
  }

  lemma CountExtend(starts: seq<bool>, b: bool)
    ensures Count(starts + [b]) == Count(starts) + if b then 1 else 0
  {
    assert (starts + [b])[..|starts|] == starts;
  }

  lemma LastLenExtend(bvs: seq<Bvec>, v: Bvec, starts: seq<bool>, b: bool)
    requires |bvs| == |starts|
    ensures LastLen(bvs + [v], starts + [b]) == v.len + if b then 0 else LastLen(bvs, starts)
  {
    assert (bvs + [v])[..|bvs|] == bvs && (starts + [b])[..|bvs|] == starts;
  }

  lemma LegalExtend(q: Limits, bvs: seq<Bvec>, v: Bvec, starts: seq<bool>, b: bool)
    requires Legal(q, bvs, starts)
    requires b || (bvs != [] && Joinable(q, bvs[|bvs| - 1], v) && LastLen(bvs, starts) + v.len <= q.maxSegment)
    ensures Legal(q, bvs + [v], starts + [b])
  {
    LastLenExtend(bvs, v, starts, b);
    var bvs', starts' := bvs + [v], starts + [b];
    forall i | 0 <= i < |bvs'| && !starts'[i]
      ensures i > 0 && Joinable(q, bvs'[i - 1], bvs'[i]) && LastLen(bvs'[..i + 1], starts'[..i + 1]) <= q.maxSegment
    {
      if i < |bvs| {
        assert bvs'[..i + 1] == bvs[..i + 1] && starts'[..i + 1] == starts[..i + 1];
      } else {
        assert bvs'[..i + 1] == bvs' && starts'[..i + 1] == starts';
      }
    }
  }

  lemma LegalNothing(q: Limits)
    ensures Legal(q, [], []) && Count([]) == 0
  {
  }

  lemma LegalPrefix(q: Limits, bvs: seq<Bvec>, starts: seq<bool>, n: nat)
    requires Legal(q, bvs, starts) && n <= |bvs|
    ensures Legal(q, bvs[..n], starts[..n])
  {
    forall i | 0 <= i < n && !starts[i]
      ensures i > 0 && Joinable(q, bvs[..n][i - 1], bvs[..n][i])
      ensures LastLen(bvs[..n][..i + 1], starts[..n][..i + 1]) <= q.maxSegment
    {
      assert bvs[..n][..i + 1] == bvs[..i + 1] && starts[..n][..i + 1] == starts[..i + 1];
    }
  }

  // ---------------------------------------------------------------------------
  // The clustering of blk_rq_map_sg
  // ---------------------------------------------------------------------------

  /** Start a segment only when the bvec cannot be added to the last one. */
  function Greedy(q: Limits, bvs: seq<Bvec>): (starts: seq<bool>)
    ensures |starts| == |bvs|
  {
    if bvs == [] then []
    else
      var n := |bvs| - 1;
      var before := Greedy(q, bvs[..n]);
      before + [n == 0 || !Joinable(q, bvs[n - 1], bvs[n]) || LastLen(bvs[..n], before) + bvs[n].len > q.maxSegment]
  }

  lemma {:induction false} GreedyLegal(q: Limits, bvs: seq<Bvec>)
    ensures Legal(q, bvs, Greedy(q, bvs))
  {
    if bvs != [] {
      var n := |bvs| - 1;
      GreedyLegal(q, bvs[..n]);
      LegalExtend(q, bvs[..n], bvs[n], Greedy(q, bvs[..n]), Greedy(q, bvs)[n]);
      assert bvs[..n] + [bvs[n]] == bvs;
    }
  }

  /** The greedy clustering stays ahead of every legal one: it has fewer segments, or as many
      and the last one is no longer. */
  lemma {:induction false} GreedyAhead(q: Limits, bvs: seq<Bvec>, starts: seq<bool>)
    requires Legal(q, bvs, starts)
    ensures var g := Greedy(q, bvs);
      Count(g) < Count(starts) || (Count(g) == Count(starts) && LastLen(bvs, g) <= LastLen(bvs, starts))
  {
    if bvs != [] {
      var n := |bvs| - 1;
      var v, b, s := bvs[..n], bvs[n], starts[..n];
      assert v + [b] == bvs && s + [starts[n]] == starts;
      assert bvs[..n + 1] == bvs && starts[..n + 1] == starts;
      LegalPrefix(q, bvs, starts, n);
      GreedyAhead(q, v, s);
      var g := Greedy(q, v);
      CountExtend(g, Greedy(q, bvs)[n]);
      CountExtend(s, starts[n]);
      LastLenExtend(v, b, g, Greedy(q, bvs)[n]);
      LastLenExtend(v, b, s, starts[n]);
      assert n > 0 || starts[n];
    }
  }

  // ---------------------------------------------------------------------------
  // The scatterlist of a clustering
  // ---------------------------------------------------------------------------

  function Entries(bvs: seq<Bvec>, starts: seq<bool>): seq<Sg>
    requires |bvs| == |starts|
  {
    if bvs == [] then []
    else
      var n := |bvs| - 1;
      var e, b := Entries(bvs[..n], starts[..n]), bvs[n];
      if starts[n] || e == [] then e + [Sg(b.pfn, b.offset, b.len)]
      else e[|e| - 1 := e[|e| - 1].(length := e[|e| - 1].length + b.len)]
  }

  function TotalLength(sg: seq<Sg>): nat {
    if sg == [] then 0 else TotalLength(sg[..|sg| - 1]) + sg[|sg| - 1].length
  }

  /** One entry per segment; the entries hold all bytes. */
  lemma {:induction false} EntriesFaithful(q: Limits, bvs: seq<Bvec>, starts: seq<bool>)
    requires Legal(q, bvs, starts)
    ensures var e := Entries(bvs, starts);
      && |e| == Count(starts)
      && TotalLength(e) == Bytes(bvs)
      && (bvs != [] ==> e != [] && e[|e| - 1].length == LastLen(bvs, starts))
  {
    if bvs != [] {
      var n := |bvs| - 1;
      LegalPrefix(q, bvs, starts, n);
      EntriesFaithful(q, bvs[..n], starts[..n]);
      assert bvs[..n + 1] == bvs && starts[..n + 1] == starts;
      var e, e' := Entries(bvs[..n], starts[..n]), Entries(bvs, starts);
      assert starts[n] ==> e'[..|e|] == e;
      assert !starts[n] ==> e'[..|e'| - 1] == e[..|e| - 1];
    }
  }

  /** No entry is longer than the limit unless a single bvec is. */
  lemma {:induction false} EntriesBounded(q: Limits, bvs: seq<Bvec>, starts: seq<bool>)
    requires Legal(q, bvs, starts)
    ensures forall e :: e in Entries(bvs, starts) ==>
      e.length <= q.maxSegment || exists b :: b in bvs && e.length == b.len
  {
    if bvs != [] {
      var n := |bvs| - 1;
      LegalPrefix(q, bvs, starts, n);
      EntriesBounded(q, bvs[..n], starts[..n]);
      EntriesFaithful(q, bvs[..n], starts[..n]);
      assert bvs[..n + 1] == bvs && starts[..n + 1] == starts;
      forall e | e in Entries(bvs, starts)
        ensures e.length <= q.maxSegment || exists b :: b in bvs && e.length == b.len
      {
        if e !in Entries(bvs[..n], starts[..n]) {
          assert e.length == LastLen(bvs, starts);
          assert bvs[n] in bvs;
        }
      }
    }
  }

  /** blk_rq_map_sg makes the fewest entries any legal clustering could. */
  lemma GreedyOptimal(q: Limits, bvs: seq<Bvec>, starts: seq<bool>)
    requires Legal(q, bvs, starts)
    ensures |Entries(bvs, Greedy(q, bvs))| <= |Entries(bvs, starts)|
  {
    GreedyLegal(q, bvs);
    EntriesFaithful(q, bvs, starts);
    EntriesFaithful(q, bvs, Greedy(q, bvs));
    GreedyAhead(q, bvs, starts);
  }

  // ---------------------------------------------------------------------------
  // The two loops
  // ---------------------------------------------------------------------------

  /** What blk_recalc_rq_segments knows after some bvecs: its clustering, the hardware segments
      and the size of the current one, and whether the last segment began in high memory. */
  datatype Scan = Scan(starts: seq<bool>, hwSegs: nat, hwSize: nat, highprv: bool)

  /** The bvec joins the segment that is `size` bytes long. */
  predicate Merges(q: Limits, s: Scan, size: nat, prev: Bvec, bv: Bvec) {
    && bv.pfn <= q.bouncePfn && !s.highprv
    && Joinable(q, prev, bv) && size + bv.len <= q.maxSegment && !q.virtOversize(s.hwSize + bv.len)
  }

  /** A new physical segment continues the hardware segment. */
  predicate Continues(q: Limits, s: Scan, size: nat, prev: Bvec, bv: Bvec) {
    && bv.pfn <= q.bouncePfn && !s.highprv
    && !(Joinable(q, prev, bv) && size + bv.len <= q.maxSegment)
    && q.virtMergeable(prev, bv) && !q.virtOversize(s.hwSize + bv.len)
  }

  function Recalc(q: Limits, bvs: seq<Bvec>): (s: Scan)
    ensures |s.starts| == |bvs|
  {
    if bvs == [] then Scan([], 0, 0, true)
    else
      var n := |bvs| - 1;
      var s, bv := Recalc(q, bvs[..n]), bvs[n];
      var size := LastLen(bvs[..n], s.starts);
      if n > 0 && Merges(q, s, size, bvs[n - 1], bv) then
        s.(starts := s.starts + [false], hwSize := s.hwSize + bv.len)
      else if n > 0 && Continues(q, s, size, bvs[n - 1], bv) then
        s.(starts := s.starts + [true], hwSize := s.hwSize + bv.len, highprv := false)
      else
        Scan(s.starts + [true], s.hwSegs + 1, q.virtStart(bv) + bv.len, bv.pfn > q.bouncePfn)
  }

  lemma {:induction false} RecalcLegal(q: Limits, bvs: seq<Bvec>)
    ensures Legal(q, bvs, Recalc(q, bvs).starts)
    ensures Recalc(q, bvs).hwSegs <= Count(Recalc(q, bvs).starts)
    ensures bvs == [] ==> Recalc(q, bvs).highprv
  {
    hide Legal, Count, LastLen;
    LegalNothing(q);
    if bvs != [] {
      var n := |bvs| - 1;
      var v := bvs[..n];
      RecalcLegal(q, v);
      var s, s' := Recalc(q, v), Recalc(q, bvs);
      var b := s'.starts[n];
      assert s'.starts == s.starts + [b] && v + [bvs[n]] == bvs && (n == 0 ==> v == []);
      assert !b ==> n > 0 && Merges(q, s, LastLen(v, s.starts), bvs[n - 1], bvs[n]);
      hide Recalc;
      LegalExtend(q, v, bvs[n], s.starts, b);
      CountExtend(s.starts, b);
    }
  }

  /** Without high pages and without a limit on hardware segments the two loops agree. */
  lemma {:induction false} RecalcExact(q: Limits, bvs: seq<Bvec>)
    requires forall i :: 0 <= i < |bvs| ==> bvs[i].pfn <= q.bouncePfn
    requires forall n :: !q.virtOversize(n)
    ensures Recalc(q, bvs).starts == Greedy(q, bvs)
    ensures Recalc(q, bvs).highprv <==> bvs == []
  {
    if bvs != [] {
      RecalcExact(q, bvs[..|bvs| - 1]);
    }
  }

  /** blk_recalc_rq_segments. */
  method RecalcSegments(q: Limits, bvs: seq<Bvec>) returns (physSegs: nat, hwSegs: nat)
    ensures physSegs == Count(Recalc(q, bvs).starts)
    ensures hwSegs == Recalc(q, bvs).hwSegs
  {
    RecalcNothing(q, bvs);
    hide Recalc, Count, LastLen;
    physSegs, hwSegs := 0, 0;
    var segSize: nat, hwSegSize: nat, highprv := 0, 0, true;
    for i := 0 to |bvs|
      invariant physSegs == Count(Recalc(q, bvs[..i]).starts)
      invariant segSize == LastLen(bvs[..i], Recalc(q, bvs[..i]).starts)
      invariant Recalc(q, bvs[..i]).(starts := []) == Scan([], hwSegs, hwSegSize, highprv)
      invariant i == 0 ==> highprv
    {
      var bv := bvs[i];
      RecalcStep(q, bvs, i);
      var high := bv.pfn > q.bouncePfn;
      var merge, newHw := false, high || highprv;
      if !newHw && q.cluster {
        if segSize + bv.len <= q.maxSegment && q.physMergeable(bvs[i - 1], bv) && q.segBoundary(bvs[i - 1], bv) {
          newHw := q.virtOversize(hwSegSize + bv.len);
          merge := !newHw;
        }
      }
      if merge {
        segSize := segSize + bv.len;
        hwSegSize := hwSegSize + bv.len;
      } else {
        if !newHw && q.virtMergeable(bvs[i - 1], bv) && !q.virtOversize(hwSegSize + bv.len) {
          hwSegSize := hwSegSize + bv.len;
        } else {
          hwSegSize := q.virtStart(bv) + bv.len;
          hwSegs := hwSegs + 1;
        }
        physSegs := physSegs + 1;
        segSize := bv.len;
        highprv := high;
      }
    }
    assert bvs[..|bvs|] == bvs;
  }

  lemma RecalcNothing(q: Limits, bvs: seq<Bvec>)
    ensures Recalc(q, bvs[..0]) == Scan([], 0, 0, true) && Count([]) == 0 && LastLen(bvs[..0], []) == 0
  {
    assert bvs[..0] == [];
  }

  /** One round of the scan, in the counters the loop keeps. */
  lemma RecalcStep(q: Limits, bvs: seq<Bvec>, i: nat)
    requires i < |bvs|
    ensures var s, s', bv := Recalc(q, bvs[..i]), Recalc(q, bvs[..i + 1]), bvs[i];
      var size := LastLen(bvs[..i], s.starts);
      var merge := i > 0 && Merges(q, s, size, bvs[i - 1], bv);
      var extend := i > 0 && Continues(q, s, size, bvs[i - 1], bv);
      && Count(s'.starts) == Count(s.starts) + (if merge then 0 else 1)
      && LastLen(bvs[..i + 1], s'.starts) == bv.len + (if merge then size else 0)
      && s'.hwSegs == s.hwSegs + (if merge || extend then 0 else 1)
      && s'.hwSize == bv.len + (if merge || extend then s.hwSize else q.virtStart(bv))
      && s'.highprv == if merge then s.highprv else bv.pfn > q.bouncePfn
  {
    var s, s' := Recalc(q, bvs[..i]), Recalc(q, bvs[..i + 1]);
    assert bvs[..i + 1][..i] == bvs[..i] && bvs[..i] + [bvs[i]] == bvs[..i + 1];
    assert s'.starts == s.starts + [s'.starts[i]];
    CountExtend(s.starts, s'.starts[i]);
    LastLenExtend(bvs[..i], bvs[i], s.starts, s'.starts[i]);
  }

  /** The list blk_rq_map_sg builds. */
  function SgList(q: Limits, bvs: seq<Bvec>): seq<Sg> {
    Entries(bvs, Greedy(q, bvs))
  }

  lemma LastEntry(q: Limits, bvs: seq<Bvec>)
    ensures var e := SgList(q, bvs);
      bvs != [] ==> e != [] && e[|e| - 1].length == LastLen(bvs, Greedy(q, bvs))
  {
    GreedyLegal(q, bvs);
    EntriesFaithful(q, bvs, Greedy(q, bvs));
  }

  lemma GreedyStep(q: Limits, bvs: seq<Bvec>, i: nat)
    requires i < |bvs|
    ensures var g, v, e := Greedy(q, bvs[..i]), bvs[i], SgList(q, bvs[..i]);
      SgList(q, bvs[..i + 1]) ==
        if i == 0 || !Joinable(q, bvs[i - 1], v) || LastLen(bvs[..i], g) + v.len > q.maxSegment || e == []
        then e + [Sg(v.pfn, v.offset, v.len)]
        else e[|e| - 1 := e[|e| - 1].(length := e[|e| - 1].length + v.len)]
  {
    var v := bvs[..i + 1];
    assert v[..i] == bvs[..i];
    assert Greedy(q, v)[..i] == Greedy(q, bvs[..i]);
  }

  /** The list after `i` bvecs. */
  function Built(q: Limits, bvs: seq<Bvec>, i: nat): seq<Sg>
    requires i <= |bvs|
  {
    SgList(q, bvs[..i])
  }

  /** One round of blk_rq_map_sg: the test that it makes on the last entry is the greedy one. */
  lemma BuiltStep(q: Limits, bvs: seq<Bvec>, i: nat)
    requires i < |bvs|
    ensures var e, e', v := Built(q, bvs, i), Built(q, bvs, i + 1), bvs[i];
      && (i > 0 ==> e != [])
      && e' == if i > 0 && Joinable(q, bvs[i - 1], v) && e[|e| - 1].length + v.len <= q.maxSegment
               then e[|e| - 1 := e[|e| - 1].(length := e[|e| - 1].length + v.len)]
               else e + [Sg(v.pfn, v.offset, v.len)]
  {
    hide Greedy, Entries, LastLen;
    GreedyStep(q, bvs, i);
    LastEntry(q, bvs[..i]);
  }

  /** The list only grows, so its final length bounds every intermediate one. */
  lemma {:induction false} BuiltGrows(q: Limits, bvs: seq<Bvec>, i: nat)
    requires i <= |bvs|
    ensures |Built(q, bvs, i)| <= |Built(q, bvs, |bvs|)|
    decreases |bvs| - i
  {
    hide Built;
    if i < |bvs| {
      BuiltStep(q, bvs, i);
      BuiltGrows(q, bvs, i + 1);
    }
  }

  lemma BuiltEnds(q: Limits, bvs: seq<Bvec>)
    ensures Built(q, bvs, 0) == [] && Built(q, bvs, |bvs|) == SgList(q, bvs)
  {
    assert bvs[..|bvs|] == bvs;
  }

  /** blk_rq_map_sg, up to the padding and drain entries. The list must be able to hold the
      entries, which is what its caller promises. */
  method MapSg(q: Limits, bvs: seq<Bvec>, sglist: array<Sg>) returns (nsegs: nat)
    requires |SgList(q, bvs)| <= sglist.Length
    modifies sglist
    ensures nsegs <= sglist.Length && sglist[..nsegs] == SgList(q, bvs)
  {
    hide Built, SgList;
    BuiltEnds(q, bvs);
    nsegs := 0;
    ghost var list: seq<Sg> := [];
    for i := 0 to |bvs|
      invariant nsegs == |list| <= sglist.Length
      invariant forall k :: 0 <= k < nsegs ==> sglist[k] == list[k]
      invariant list == Built(q, bvs, i)
    {
      var bvec := bvs[i];
      BuiltStep(q, bvs, i);
      BuiltGrows(q, bvs, i + 1);
      list := Built(q, bvs, i + 1);
      if i > 0 && q.cluster && sglist[nsegs - 1].length + bvec.len <= q.maxSegment
         && q.physMergeable(bvs[i - 1], bvec) && q.segBoundary(bvs[i - 1], bvec) {
        sglist[nsegs - 1] := sglist[nsegs - 1].(length := sglist[nsegs - 1].length + bvec.len);
      } else {
        sglist[nsegs] := Sg(bvec.pfn, bvec.offset, bvec.len);
        nsegs := nsegs + 1;
      }
    }
    assert sglist[..nsegs] == list;
  }

  /** Counting and mapping together: a list with room for the counted segments is enough,
      although the two loops split the request at different places. */
  method MapRequest(q: Limits, bvs: seq<Bvec>) returns (sglist: array<Sg>, nsegs: nat, physSegs: nat)
    ensures fresh(sglist) && sglist.Length == physSegs && nsegs <= physSegs
    ensures sglist[..nsegs] == SgList(q, bvs)
    ensures TotalLength(sglist[..nsegs]) == Bytes(bvs)
  {
    var hwSegs;
    physSegs, hwSegs := RecalcSegments(q, bvs);
    ghost var starts := Recalc(q, bvs).starts;
    RecalcLegal(q, bvs);
    EntriesFaithful(q, bvs, starts);
    GreedyOptimal(q, bvs, starts);
    sglist := new Sg[physSegs](_ => Sg(0, 0, 0));
    nsegs := MapSg(q, bvs, sglist);
    GreedyLegal(q, bvs);
    EntriesFaithful(q, bvs, Greedy(q, bvs));
  }
}
