/**
  The segment counts of requests that grow by merging. They are not counted anew: a bio adds its own
  count, and joining two requests subtracts one when the bios that meet are contiguous and small enough
  together, whatever the segments that meet there have already taken in.
*/
module Merging {
  import opened Segments

  // ---------------------------------------------------------------------------
  // Clusterings side by side
  // ---------------------------------------------------------------------------

  /** Two clusterings one behind the other; `joined` makes one of the two segments that meet. */
  function Both(s: seq<bool>, t: seq<bool>, joined: bool): (r: seq<bool>)
    requires t != []
    ensures |r| == |s| + |t|
  {
    s + t[0 := !joined]
  }

  /** The length of the first segment. */
  function FirstLen(bvs: seq<Bvec>, starts: seq<bool>): nat
    requires |bvs| == |starts|
  {
    if bvs == [] then 0
    else if Count(starts) <= 1 then LastLen(bvs, starts)
    else FirstLen(bvs[..|bvs| - 1], starts[..|bvs| - 1])
  }

  lemma {:induction false} LegalLast(q: Limits, bvs: seq<Bvec>, starts: seq<bool>, i: nat)
    requires Legal(q, bvs, starts) && i < |bvs| && !starts[i]
    ensures i > 0 && Joinable(q, bvs[i - 1], bvs[i]) && LastLen(bvs[..i + 1], starts[..i + 1]) <= q.maxSegment
  {
  }

  /** Legality of one bvec more. */
  lemma {:induction false} LegalSnoc(q: Limits, bvs: seq<Bvec>, v: Bvec, starts: seq<bool>, b: bool)
    requires |bvs| == |starts|
    ensures Legal(q, bvs + [v], starts + [b]) <==>
      && Legal(q, bvs, starts)
      && (b || (bvs != [] && Joinable(q, bvs[|bvs| - 1], v) && LastLen(bvs, starts) + v.len <= q.maxSegment))
  {
    hide LastLen, Joinable;
    var w, s, n := bvs + [v], starts + [b], |bvs|;
    assert w[..n] == bvs && s[..n] == starts && w[..n + 1] == w && s[..n + 1] == s;
    LastLenExtend(bvs, v, starts, b);
    if Legal(q, w, s) {
      LegalPrefix(q, w, s, n);
      if !b {
        LegalLast(q, w, s, n);
      }
    } else if Legal(q, bvs, starts) &&
              (b || (bvs != [] && Joinable(q, bvs[n - 1], v) && LastLen(bvs, starts) + v.len <= q.maxSegment)) {
      LegalExtend(q, bvs, v, starts, b);
    }
  }

  /** What two clusterings side by side have. */
  ghost predicate Beside(q: Limits, v: seq<Bvec>, s: seq<bool>, w: seq<Bvec>, t: seq<bool>, joined: bool)
    requires v != [] && |v| == |s| && |w| == |t| && w != []
  {
    var r := Both(s, t, joined);
    && Count(r) == Count(s) + Count(t) - (if joined then 1 else 0)
    && LastLen(v + w, r) == LastLen(w, t) + (if joined && Count(t) == 1 then LastLen(v, s) else 0)
    && (Legal(q, v + w, r) <==>
          && Legal(q, v, s) && Legal(q, w, t)
          && (joined ==> Joinable(q, v[|v| - 1], w[0]) && LastLen(v, s) + FirstLen(w, t) <= q.maxSegment))
  }

  lemma {:induction false} CountSome(t: seq<bool>)
    requires t != [] && t[0]
    ensures Count(t) >= 1
  {
    if |t| > 1 {
      CountSome(t[..|t| - 1]);
    }
  }

  lemma {:induction false} One(q: Limits, x: Bvec)
    ensures Legal(q, [x], [true]) && Count([true]) == 1 && LastLen([x], [true]) == FirstLen([x], [true]) == x.len
  {
    assert [true][..0] == [];
  }

  lemma {:induction false} BesideOne(q: Limits, v: seq<Bvec>, s: seq<bool>, x: Bvec, joined: bool)
    requires v != [] && |v| == |s|
    ensures Beside(q, v, s, [x], [true], joined)
  {
    hide Legal, Count, LastLen, FirstLen;
    One(q, x);
    assert Both(s, [true], joined) == s + [!joined];
    CountExtend(s, !joined);
    LastLenExtend(v, x, s, !joined);
    LegalSnoc(q, v, x, s, !joined);
  }

  lemma {:induction false} FirstLenExtend(w: seq<Bvec>, x: Bvec, t: seq<bool>, b: bool)
    requires |w| == |t| && t != [] && t[0]
    ensures FirstLen(w + [x], t + [b]) == if !b && Count(t) == 1 then LastLen(w, t) + x.len else FirstLen(w, t)
    ensures Count(t) == 1 ==> FirstLen(w, t) == LastLen(w, t)
  {
    hide LastLen;
    assert (w + [x])[..|w|] == w && (t + [b])[..|w|] == t;
    CountExtend(t, b);
    CountSome(t);
    LastLenExtend(w, x, t, b);
  }

  /** One bvec more in the second. */
  lemma {:induction false} BesideMore(q: Limits, v: seq<Bvec>, s: seq<bool>, w: seq<Bvec>, t: seq<bool>, joined: bool,
                                      x: Bvec, b: bool)
    requires v != [] && |v| == |s| && |w| == |t| && w != [] && t[0] && Beside(q, v, s, w, t, joined)
    ensures Beside(q, v, s, w + [x], t + [b], joined)
  {
    hide Legal, Count, LastLen, FirstLen, Joinable;
    var r := Both(s, t, joined);
    assert Both(s, t + [b], joined) == r + [b] && v + (w + [x]) == v + w + [x];
    CountExtend(r, b);
    CountExtend(t, b);
    CountSome(t);
    LastLenExtend(v + w, x, r, b);
    LastLenExtend(w, x, t, b);
    FirstLenExtend(w, x, t, b);
    LegalSnoc(q, v + w, x, r, b);
    LegalSnoc(q, w, x, t, b);
    assert (v + w)[|v + w| - 1] == w[|w| - 1];
  }

  /** Two clusterings side by side are legal exactly when each is; made to share a segment, exactly when
      also the bvecs that meet are joinable and the two segments together are within the limit. */
  lemma {:induction false} JoinLegal(q: Limits, v: seq<Bvec>, s: seq<bool>, w: seq<Bvec>, t: seq<bool>, joined: bool)
    requires v != [] && |v| == |s| && |w| == |t| && w != [] && t[0]
    ensures Beside(q, v, s, w, t, joined)
    decreases |w|
  {
    var n := |w| - 1;
    if n == 0 {
      assert w == [w[0]] && t == [true];
      BesideOne(q, v, s, w[0], joined);
    } else {
      JoinLegal(q, v, s, w[..n], t[..n], joined);
      BesideMore(q, v, s, w[..n], t[..n], joined, w[n], t[n]);
      assert w[..n] + [w[n]] == w && t[..n] + [t[n]] == t;
    }
  }

  // ---------------------------------------------------------------------------
  // Requests and how they came about
  // ---------------------------------------------------------------------------

  /** A request: made for a bio, grown by a bio behind or in front, or joined of two. */
  datatype Request =
    | Single(bio: seq<Bvec>)
    | Back(req: Request, bio: seq<Bvec>)
    | Front(bio: seq<Bvec>, req: Request)
    | Join(left: Request, right: Request)

  /** No bio is empty. */
  predicate WellFormed(r: Request) {
    match r
    case Single(b) => b != []
    case Back(q, b) => WellFormed(q) && b != []
    case Front(b, q) => WellFormed(q) && b != []
    case Join(l, m) => WellFormed(l) && WellFormed(m)
  }

  function Bvecs(r: Request): seq<Bvec> {
    match r
    case Single(b) => b
    case Back(q, b) => Bvecs(q) + b
    case Front(b, q) => b + Bvecs(q)
    case Join(l, m) => Bvecs(l) + Bvecs(m)
  }

  /** rq->bio. */
  function FirstBio(r: Request): (b: seq<Bvec>)
    requires WellFormed(r)
    ensures b != [] && b <= Bvecs(r)
  {
    match r
    case Single(b) => b
    case Back(q, _) => FirstBio(q)
    case Front(b, _) => b
    case Join(l, _) => FirstBio(l)
  }

  /** rq->biotail. */
  function LastBio(r: Request): (b: seq<Bvec>)
    requires WellFormed(r)
    ensures b != [] && |b| <= |Bvecs(r)| && b == Bvecs(r)[|Bvecs(r)| - |b|..]
  {
    match r
    case Single(b) => b
    case Back(_, b) => b
    case Front(_, q) => LastBio(q)
    case Join(_, m) => LastBio(m)
  }

  /** blk_phys_contig_segment: only the two bios that meet are looked at. */
  predicate Contiguous(q: Limits, a: seq<Bvec>, b: seq<Bvec>)
    requires a != [] && b != []
  {
    Joinable(q, a[|a| - 1], b[0]) && Bytes(a) + Bytes(b) <= q.maxSegment
  }

  predicate Joins(q: Limits, l: Request, r: Request)
    requires WellFormed(l) && WellFormed(r)
  {
    Contiguous(q, LastBio(l), FirstBio(r))
  }

  function BioCount(q: Limits, b: seq<Bvec>): nat {
    Count(Recalc(q, b).starts)
  }

  /** nr_phys_segments: a bio's own count, sums, and one less where two requests are joined. */
  function PhysSegments(q: Limits, r: Request): int
    requires WellFormed(r)
  {
    match r
    case Single(b) => BioCount(q, b)
    case Back(m, b) => PhysSegments(q, m) + BioCount(q, b)
    case Front(b, m) => PhysSegments(q, m) + BioCount(q, b)
    case Join(l, m) => PhysSegments(q, l) + PhysSegments(q, m) - if Joins(q, l, m) then 1 else 0
  }

  /** The clustering that the count stands for. */
  function Clustering(q: Limits, r: Request): (s: seq<bool>)
    requires WellFormed(r)
    ensures |s| == |Bvecs(r)| > 0 && s[0]
  {
    match r
    case Single(b) => RecalcStarts(q, b); Recalc(q, b).starts
    case Back(m, b) => RecalcStarts(q, b); Both(Clustering(q, m), Recalc(q, b).starts, false)
    case Front(b, m) => RecalcStarts(q, b); Both(Recalc(q, b).starts, Clustering(q, m), false)
    case Join(l, m) => Both(Clustering(q, l), Clustering(q, m), Joins(q, l, m))
  }

  lemma {:induction false} RecalcStarts(q: Limits, b: seq<Bvec>)
    requires b != []
    ensures |Recalc(q, b).starts| == |b| && Recalc(q, b).starts[0] && Legal(q, b, Recalc(q, b).starts)
  {
    hide Recalc;
    RecalcLegal(q, b);
  }

  /** At every join that subtracts one, the two segments that meet are together within the limit. */
  ghost predicate JoinsFit(q: Limits, r: Request)
    requires WellFormed(r)
  {
    match r
    case Single(_) => true
    case Back(m, _) => JoinsFit(q, m)
    case Front(_, m) => JoinsFit(q, m)
    case Join(l, m) =>
      && JoinsFit(q, l) && JoinsFit(q, m)
      && (Joins(q, l, m) ==>
            LastLen(Bvecs(l), Clustering(q, l)) + FirstLen(Bvecs(m), Clustering(q, m)) <= q.maxSegment)
  }

  /** The bvecs that meet are those of the bios that meet. */
  lemma {:induction false} Meet(q: Limits, l: Request, r: Request)
    requires WellFormed(l) && WellFormed(r)
    ensures Bvecs(l) != [] && Bvecs(r) != []
    ensures Joins(q, l, r) ==> Joinable(q, Bvecs(l)[|Bvecs(l)| - 1], Bvecs(r)[0])
  {
    hide Joinable, Bytes, LastBio, FirstBio, Bvecs;
    var a, b := LastBio(l), FirstBio(r);
    assert a[|a| - 1] == Bvecs(l)[|Bvecs(l)| - 1] && b[0] == Bvecs(r)[0];
  }

  /** The count is that of the clustering, and this is legal exactly when all joins fit. */
  lemma {:induction false} MergedLegal(q: Limits, r: Request)
    requires WellFormed(r)
    ensures PhysSegments(q, r) == Count(Clustering(q, r))
    ensures Legal(q, Bvecs(r), Clustering(q, r)) <==> JoinsFit(q, r)
  {
    hide Legal, Recalc, Count, LastLen, FirstLen, Joins, Both;
    match r
    case Single(b) =>
      RecalcStarts(q, b);
    case Back(m, b) =>
      MergedLegal(q, m);
      RecalcStarts(q, b);
      JoinLegal(q, Bvecs(m), Clustering(q, m), b, Recalc(q, b).starts, false);
    case Front(b, m) =>
      MergedLegal(q, m);
      RecalcStarts(q, b);
      JoinLegal(q, b, Recalc(q, b).starts, Bvecs(m), Clustering(q, m), false);
    case Join(l, m) =>
      MergedLegal(q, l);
      MergedLegal(q, m);
      Meet(q, l, m);
      JoinLegal(q, Bvecs(l), Clustering(q, l), Bvecs(m), Clustering(q, m), Joins(q, l, m));
  }

  /** Then a list with room for the count is enough for blk_rq_map_sg. */
  lemma {:induction false} MergedCount(q: Limits, r: Request)
    requires WellFormed(r) && JoinsFit(q, r)
    ensures |SgList(q, Bvecs(r))| <= PhysSegments(q, r)
  {
    hide Legal, Greedy, Entries, Count, LastLen, FirstLen;
    MergedLegal(q, r);
    GreedyOptimal(q, Bvecs(r), Clustering(q, r));
    EntriesFaithful(q, Bvecs(r), Clustering(q, r));
  }

  /** Requests that grew by single bios only. */
  predicate OnlyBios(r: Request) {
    match r
    case Single(_) => true
    case Back(m, _) => OnlyBios(m)
    case Front(_, m) => OnlyBios(m)
    case Join(_, _) => false
  }

  /** They always fit. */
  lemma {:induction false} BiosFit(q: Limits, r: Request)
    requires WellFormed(r) && OnlyBios(r)
    ensures JoinsFit(q, r)
  {
    match r
    case Single(_) =>
    case Back(m, _) => BiosFit(q, m);
    case Front(_, m) => BiosFit(q, m);
  }

  /** Two bios that are contiguous, joined: they fit too. */
  lemma {:induction false} PairFits(q: Limits, a: seq<Bvec>, b: seq<Bvec>)
    requires a != [] && b != []
    ensures JoinsFit(q, Join(Single(a), Single(b)))
  {
    hide Recalc, LastLen, FirstLen;
    RecalcStarts(q, a);
    RecalcStarts(q, b);
    LastLenAtMost(a, Recalc(q, a).starts);
    FirstLenAtMost(b, Recalc(q, b).starts);
  }

  lemma {:induction false} LastLenAtMost(bvs: seq<Bvec>, starts: seq<bool>)
    requires |bvs| == |starts|
    ensures LastLen(bvs, starts) <= Bytes(bvs)
  {
    if bvs != [] {
      LastLenAtMost(bvs[..|bvs| - 1], starts[..|bvs| - 1]);
    }
  }

  lemma {:induction false} FirstLenAtMost(bvs: seq<Bvec>, starts: seq<bool>)
    requires |bvs| == |starts|
    ensures FirstLen(bvs, starts) <= Bytes(bvs)
  {
    LastLenAtMost(bvs, starts);
    if bvs != [] {
      FirstLenAtMost(bvs[..|bvs| - 1], starts[..|bvs| - 1]);
    }
  }

  // ---------------------------------------------------------------------------
  // Where it fails
  // ---------------------------------------------------------------------------

  lemma {:induction false} SingleCount(q: Limits, a: Bvec)
    ensures Recalc(q, [a]).starts == [true] && Count([true]) == 1 && Bytes([a]) == a.len
    ensures PhysSegments(q, Single([a])) == 1
  {
    assert [a][..0] == [] && [true][..0] == [];
  }

  /** Three bios of one bvec each, of which any two neighbours fit a segment but not all three, joined one
      after the other: they count as one segment, and are mapped to two. */
  lemma {:induction false} ThreeJoined(q: Limits, a: Bvec, b: Bvec, c: Bvec)
    requires Joinable(q, a, b) && Joinable(q, b, c)
    requires a.len + b.len <= q.maxSegment && b.len + c.len <= q.maxSegment < a.len + b.len + c.len
    ensures var r := Join(Join(Single([a]), Single([b])), Single([c]));
      WellFormed(r) && PhysSegments(q, r) == 1 && |SgList(q, Bvecs(r))| == 2
  {
    hide PhysSegments, Joinable, SgList;
    SingleCount(q, a);
    var l := Join(Single([a]), Single([b]));
    JoinOne(q, Single([a]), a, b);
    JoinOne(q, l, b, c);
    ThreeMapped(q, a, b, c);
    assert [a] + [b] + [c] == [a, b, c];
  }

  /** Joining a bio of one bvec to a request that counts as one segment. */
  lemma {:induction false} JoinOne(q: Limits, l: Request, b: Bvec, c: Bvec)
    requires WellFormed(l) && PhysSegments(q, l) == 1 && LastBio(l) == [b]
    requires Joinable(q, b, c) && b.len + c.len <= q.maxSegment
    ensures var r := Join(l, Single([c]));
      WellFormed(r) && PhysSegments(q, r) == 1 && LastBio(r) == [c] && Bvecs(r) == Bvecs(l) + [c]
  {
    hide PhysSegments, Joinable, Bytes, LastBio, FirstBio, Bvecs;
    SingleCount(q, b);
    SingleCount(q, c);
    JoinIs(q, l, Single([c]));
    SingleBio(c);
  }

  lemma {:induction false} SingleBio(c: Bvec)
    ensures FirstBio(Single([c])) == LastBio(Single([c])) == Bvecs(Single([c])) == [c]
  {
  }

  lemma {:induction false} JoinIs(q: Limits, l: Request, m: Request)
    requires WellFormed(l) && WellFormed(m)
    ensures var r := Join(l, m);
      && WellFormed(r) && LastBio(r) == LastBio(m) && Bvecs(r) == Bvecs(l) + Bvecs(m)
      && PhysSegments(q, r) == PhysSegments(q, l) + PhysSegments(q, m) - if Joins(q, l, m) then 1 else 0
  {
    hide Joinable, Bytes, Recalc;
  }

  lemma {:induction false} ThreeMapped(q: Limits, a: Bvec, b: Bvec, c: Bvec)
    requires Joinable(q, a, b) && Joinable(q, b, c)
    requires a.len + b.len <= q.maxSegment < a.len + b.len + c.len
    ensures |SgList(q, [a, b, c])| == 2
  {
    hide Joinable;
    var v := [a, b, c];
    assert v[..2] == [a, b] && [a, b][..1] == [a] && [a][..0] == [];
    assert Greedy(q, [a]) == [true];
    assert LastLen([a], [true]) == a.len;
    assert Greedy(q, [a, b]) == [true, false];
    assert [true, false][..1] == [true];
    assert LastLen([a, b], [true, false]) == a.len + b.len;
    assert Greedy(q, v) == [true, false, true];
    GreedyLegal(q, v);
    EntriesFaithful(q, v, Greedy(q, v));
    CountExtend([], true);
    CountExtend([true], false);
    CountExtend([true, false], true);
    assert [] + [true] == [true] && [true] + [false] == [true, false] && [true, false] + [true] == Greedy(q, v);
  }
}
