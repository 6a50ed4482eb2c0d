/**
  The scratch buffer of the slow path: spots for one destination block, one source block and the
  chaining value, aligned and none across a page boundary, in one allocation.
*/
module Scratch {

  /** ALIGN. */
  function AlignUp(x: nat, a: nat): nat
    requires a > 0
  {
    (x + a - 1) / a * a
  }

  function PageOf(x: nat, page: nat): nat
    requires page > 0
  {
    x / page
  }

  /** blkcipher_get_spot: where `len` bytes do not straddle a page. */
  function GetSpot(start: nat, len: nat, page: nat): nat
    requires page > 0 && len > 0
  {
    var endPage := PageOf(start + len - 1, page) * page;
    if start >= endPage then start else endPage
  }

  predicate Multiple(x: nat, a: nat)
    requires a > 0
  {
    x % a == 0
  }

  // ---------------------------------------------------------------------------
  // Arithmetic
  // ---------------------------------------------------------------------------

  lemma {:induction false} MultipleIs(x: nat, a: nat)
    requires a > 0
    ensures Multiple(x, a) <==> x == a * (x / a)
  {
  }

  lemma {:induction false} TimesMultiple(q: nat, a: nat)
    requires a > 0
    ensures Multiple(q * a, a)
  {
    Unique(q * a, a, q, 0);
  }

  lemma {:induction false} Unique(x: nat, a: nat, q: nat, r: nat)
    requires r < a && x == q * a + r
    ensures x / a == q && x % a == r
  {
    var d := x / a - q;
    assert x == a * (x / a) + x % a;
    assert a * d == r - x % a;
    assert d >= 1 ==> a * d >= a;
    assert d <= -1 ==> a * d + a <= 0;
  }

  /** Sums and differences of multiples. */
  lemma {:induction false} MultipleSum(x: nat, y: nat, a: nat)
    requires a > 0 && Multiple(x, a) && Multiple(y, a)
    ensures Multiple(x + y, a) && (x >= y ==> Multiple(x - y, a))
  {
    var p, q := x / a, y / a;
    assert x == a * p && y == a * q;
    assert (p + q) * a == x + y;
    TimesMultiple(p + q, a);
    if x >= y {
      Order(p, q, a);
      assert (p - q) * a == x - y;
      TimesMultiple(p - q, a);
    }
  }

  lemma {:induction false} Order(p: nat, q: nat, a: nat)
    requires a > 0 && a * p >= a * q
    ensures p >= q
  {
    assert q - p >= 1 ==> a * (q - p) >= a;
    assert a * (q - p) == a * q - a * p;
  }

  lemma {:induction false} MultipleTransitive(x: nat, p: nat, a: nat)
    requires a > 0 && p > 0 && Multiple(x, p) && Multiple(p, a)
    ensures Multiple(x, a)
  {
    var k, m := x / p, p / a;
    assert x == p * k && p == a * m;
    assert (m * k) * a == x;
    TimesMultiple(m * k, a);
  }

  /** Between multiples there is room for at least one step. */
  lemma {:induction false} MultipleGap(x: nat, y: nat, a: nat)
    requires a > 0 && Multiple(x, a) && Multiple(y, a) && x < y
    ensures x + a <= y
  {
    MultipleSum(y, x, a);
    MultipleIs(y - x, a);
    var q := (y - x) / a;
    assert q >= 1;
    assert a * q >= a;
  }

  /** The last multiple that is not behind `x`. */
  function Floor(x: nat, a: nat): nat
    requires a > 0
  {
    x / a * a
  }

  lemma {:induction false} FloorFacts(x: nat, a: nat)
    requires a > 0
    ensures Multiple(Floor(x, a), a) && Floor(x, a) <= x < Floor(x, a) + a
  {
    var p := x / a;
    assert x == a * p + x % a;
    TimesMultiple(p, a);
  }

  lemma {:induction false} AlignFacts(x: nat, a: nat)
    requires a > 0
    ensures Multiple(AlignUp(x, a), a) && x <= AlignUp(x, a) < x + a
    ensures Multiple(x, a) ==> AlignUp(x, a) == x
  {
    var q, r := (x + a - 1) / a, (x + a - 1) % a;
    assert x + a - 1 == a * q + r;
    TimesMultiple(q, a);
    if Multiple(x, a) {
      MultipleIs(x, a);
      Unique(x + a - 1, a, x / a, a - 1);
    }
  }

  // ---------------------------------------------------------------------------
  // Spots
  // ---------------------------------------------------------------------------

  predicate OnOnePage(start: nat, len: nat, page: nat)
    requires page > 0 && len > 0
  {
    PageOf(start, page) == PageOf(start + len - 1, page)
  }

  /** A spot is at the start, or at the next page boundary when the bytes would straddle it. */
  lemma {:induction false} SpotFacts(start: nat, len: nat, page: nat)
    requires 0 < len <= page
    ensures var r := GetSpot(start, len, page);
      && start <= r < start + len && OnOnePage(r, len, page)
      && (r == start <==> OnOnePage(start, len, page)) && (r != start ==> Multiple(r, page))
  {
    var q := PageOf(start + len - 1, page);
    var e := q * page;
    assert start + len - 1 == page * q + (start + len - 1) % page;
    assert e <= start + len - 1 < e + page;
    TimesMultiple(q, page);
    if start >= e {
      Unique(start, page, q, start - e);
    } else {
      assert start + page >= e;
      InPage(e, len, page, q);
      var p := q - 1;
      assert p * page == e - page;
      Unique(start, page, p, start - (e - page));
    }
  }

  lemma {:induction false} InPage(e: nat, len: nat, page: nat, q: nat)
    requires 0 < len <= page && e == q * page
    ensures OnOnePage(e, len, page)
  {
    Unique(e, page, q, 0);
    Unique(e + len - 1, page, q, len - 1);
  }

  /** With an aligned start the spot is aligned, and moves by less than the aligned length. */
  lemma {:induction false} SpotAligned(start: nat, len: nat, page: nat, a: nat)
    requires 0 < len <= page && a > 0 && Multiple(page, a) && Multiple(start, a)
    ensures var r := GetSpot(start, len, page); Multiple(r, a) && r + a <= start + AlignUp(len, a)
  {
    SpotFacts(start, len, page);
    AlignFacts(len, a);
    var r := GetSpot(start, len, page);
    if r != start {
      MultipleTransitive(r, page, a);
    }
    MultipleSum(start, AlignUp(len, a), a);
    MultipleGap(r, start + AlignUp(len, a), a);
  }

  /** A block no longer than the alignment never straddles a page. */
  lemma {:induction false} ShortBlock(start: nat, len: nat, page: nat, a: nat)
    requires 0 < len <= a <= page && Multiple(page, a) && Multiple(start, a)
    ensures OnOnePage(start, len, page)
  {
    hide Multiple, OnOnePage, Floor;
    var e := Floor(start, page);
    FloorFacts(start, page);
    MultipleTransitive(e, page, a);
    MultipleSum(e, page, a);
    MultipleGap(start, e + page, a);
    SamePage(start, len, page, e);
  }

  lemma {:induction false} SamePage(start: nat, len: nat, page: nat, e: nat)
    requires 0 < len && 0 < page && Multiple(e, page) && e <= start && start + len <= e + page
    ensures OnOnePage(start, len, page)
  {
    MultipleIs(e, page);
    var p := e / page;
    assert e == p * page;
    Unique(start, page, p, start - e);
    Unique(start + len - 1, page, p, start + len - 1 - e);
  }

  /** Behind a page boundary there is room. */
  lemma {:induction false} Behind(boundary: nat, off: nat, len: nat, page: nat)
    requires page > 0 && len > 0 && Multiple(boundary, page) && off + len <= page
    ensures OnOnePage(boundary + off, len, page)
  {
    MultipleIs(boundary, page);
    var p := boundary / page;
    assert boundary == p * page;
    Unique(boundary + off, page, p, off);
    Unique(boundary + off + len - 1, page, p, off + len - 1);
  }

  /** The spots of blkcipher_next_slow and blkcipher_copy_iv. */
  datatype Spots = Spots(start: nat, dst: nat, src: nat, iv: nat)

  /** Where blkcipher_next_slow has the mode write a block of `bs` bytes, and where
      blkcipher_done_slow looks for it. */
  function DstSpot(buffer: nat, bs: nat, a: nat, page: nat): nat
    requires a > 0 && page > 0 && bs > 0
  {
    GetSpot(AlignUp(buffer, a), bs, page)
  }

  /** Where blkcipher_next_slow has the mode read it. */
  function SrcSpot(buffer: nat, bs: nat, a: nat, page: nat): nat
    requires a > 0 && page > 0 && bs > 0
  {
    GetSpot(DstSpot(buffer, bs, a, page) + AlignUp(bs, a), bs, page)
  }

  function Layout(buffer: nat, bs: nat, ivs: nat, a: nat, page: nat): Spots
    requires a > 0 && page > 0 && bs > 0 && ivs > 0
  {
    var src := SrcSpot(buffer, bs, a, page);
    Spots(AlignUp(buffer, a), DstSpot(buffer, bs, a, page), src, GetSpot(src + AlignUp(bs, a), ivs, page))
  }

  /** How far each spot is moved to a page boundary. */
  function Shift(l: Spots, ab: nat): (int, int, int) {
    (l.dst - l.start, l.src - l.dst - ab, l.iv - l.src - ab)
  }

  /** What the callers of blkcipher_walk_first bring. */
  predicate SizesOk(bs: nat, ivs: nat, a: nat, page: nat) {
    && 0 < bs && 0 < ivs && 8 * bs <= page && 8 * ivs <= page && 0 < a && Multiple(page, a)
    && (ivs <= AlignUp(bs, a) || Multiple(ivs, a))
  }

  /** The aligned block size is small, or no block can straddle a page at all. */
  lemma {:induction false} AlignedSize(bs: nat, a: nat, page: nat)
    requires 0 < bs && 8 * bs <= page && 0 < a && Multiple(page, a)
    ensures bs <= AlignUp(bs, a) && (bs <= a ==> AlignUp(bs, a) == a) && (bs > a ==> 4 * AlignUp(bs, a) < page)
    ensures a <= page
  {
    AlignFacts(bs, a);
    MultipleIs(page, a);
    TimesMultiple(0, a);
    MultipleGap(0, page, a);
    if bs <= a {
      Unique(bs + a - 1, a, 1, bs - 1);
    }
  }

  /** Every spot is aligned and on one page. */
  lemma {:induction false} SpotsAligned(buffer: nat, bs: nat, ivs: nat, a: nat, page: nat)
    requires SizesOk(bs, ivs, a, page)
    ensures var l := Layout(buffer, bs, ivs, a, page);
      && Multiple(l.start, a) && Multiple(l.dst, a) && Multiple(l.src, a) && Multiple(l.iv, a)
      && OnOnePage(l.dst, bs, page) && OnOnePage(l.src, bs, page) && OnOnePage(l.iv, ivs, page)
  {
    hide GetSpot, AlignUp, Multiple, OnOnePage;
    var l, ab := Layout(buffer, bs, ivs, a, page), AlignUp(bs, a);
    AlignFacts(buffer, a);
    AlignFacts(bs, a);
    SpotAligned(l.start, bs, page, a);
    SpotFacts(l.start, bs, page);
    MultipleSum(l.dst, ab, a);
    SpotAligned(l.dst + ab, bs, page, a);
    SpotFacts(l.dst + ab, bs, page);
    MultipleSum(l.src, ab, a);
    SpotAligned(l.src + ab, ivs, page, a);
    SpotFacts(l.src + ab, ivs, page);
  }

  /** At most one spot is moved, and by less than the room kept for that. */
  lemma {:induction false} OneShift(buffer: nat, bs: nat, ivs: nat, a: nat, page: nat)
    requires SizesOk(bs, ivs, a, page)
    ensures var ab := AlignUp(bs, a); var s := Shift(Layout(buffer, bs, ivs, a, page), ab);
      && 0 <= s.0 && 0 <= s.1 && 0 <= s.2 && (s.0 == 0 || s.1 == 0) && (s.0 == 0 || s.2 == 0) && (s.1 == 0 || s.2 == 0)
      && s.0 + s.1 <= ab - a && s.0 + s.1 + s.2 <= (if ab >= ivs then ab else ivs) - a
  {
    hide GetSpot, AlignUp, Multiple, OnOnePage;
    var l, ab := Layout(buffer, bs, ivs, a, page), AlignUp(bs, a);
    AlignedSize(bs, a, page);
    AlignFacts(buffer, a);
    AlignFacts(bs, a);
    SpotsAligned(buffer, bs, ivs, a, page);
    SpotAligned(l.start, bs, page, a);
    SpotFacts(l.start, bs, page);
    MultipleSum(l.dst, ab, a);
    SpotAligned(l.dst + ab, bs, page, a);
    SpotFacts(l.dst + ab, bs, page);
    MultipleSum(l.src, ab, a);
    SpotAligned(l.src + ab, ivs, page, a);
    SpotFacts(l.src + ab, ivs, page);
    AlignIv(bs, ivs, a);
    if bs <= a {
      ShortBlock(l.start, bs, page, a);
      ShortBlock(l.dst + ab, bs, page, a);
    } else {
      if l.dst != l.start {
        Behind(l.dst, ab, bs, page);
        Behind(l.dst, 2 * ab, ivs, page);
        assert l.dst + 2 * ab == l.dst + ab + ab;
      }
      if l.src != l.dst + ab {
        Behind(l.src, ab, ivs, page);
      }
    }
  }

  lemma {:induction false} AlignIv(bs: nat, ivs: nat, a: nat)
    requires bs > 0 && ivs > 0 && a > 0 && (ivs <= AlignUp(bs, a) || Multiple(ivs, a))
    ensures var ab := AlignUp(bs, a); AlignUp(ivs, a) <= if ab >= ivs then ab else ivs
  {
    AlignFacts(bs, a);
    AlignFacts(ivs, a);
    var ab, x := AlignUp(bs, a), AlignUp(ivs, a);
    if ivs <= ab && ab < x {
      MultipleGap(ab, x, a);
    }
  }

  /** alignmask & ~(ctx alignment - 1), for two powers of two. */
  function Slack(a: nat, ca: nat): nat {
    if a <= ca then 0 else a - ca
  }

  lemma {:induction false} StartFits(buffer: nat, a: nat, ca: nat)
    requires a > 0 && ca > 0 && Multiple(buffer, ca) && (if a <= ca then Multiple(ca, a) else Multiple(a, ca))
    ensures AlignUp(buffer, a) <= buffer + Slack(a, ca)
  {
    AlignFacts(buffer, a);
    if a <= ca {
      MultipleTransitive(buffer, ca, a);
    } else {
      var s := AlignUp(buffer, a);
      MultipleTransitive(s, a, ca);
      MultipleSum(buffer, a, ca);
      MultipleGap(s, buffer + a, ca);
    }
  }

  /** The spots lie one behind the other in the allocation: the source and destination in that of
      blkcipher_next_slow, all three in that of blkcipher_copy_iv. */
  lemma {:induction false} SpotsFit(buffer: nat, bs: nat, ivs: nat, a: nat, ca: nat, page: nat)
    requires SizesOk(bs, ivs, a, page) && ca > 0 && Multiple(buffer, ca)
    requires (if a <= ca then Multiple(ca, a) else Multiple(a, ca))
    ensures var l := Layout(buffer, bs, ivs, a, page); var ab := AlignUp(bs, a);
      && buffer <= l.dst && l.dst + bs <= l.src && l.src + bs <= l.iv
      && l.src + bs <= buffer + 3 * ab - a + Slack(a, ca)
      && l.iv + ivs <= buffer + 2 * ab + ivs + (if ab >= ivs then ab else ivs) - a + Slack(a, ca)
  {
    hide GetSpot, AlignUp, Multiple, Slack;
    AlignFacts(buffer, a);
    AlignFacts(bs, a);
    StartFits(buffer, a, ca);
    OneShift(buffer, bs, ivs, a, page);
  }

  lemma {:induction false} FloorMonotone(x: nat, y: nat, a: nat)
    requires a > 0 && x <= y
    ensures Floor(x, a) <= Floor(y, a)
  {
    hide Floor, Multiple;
    FloorFacts(x, a);
    FloorFacts(y, a);
    if Floor(y, a) < Floor(x, a) {
      MultipleGap(Floor(y, a), Floor(x, a), a);
    }
  }

  lemma {:induction false} SpotMonotone(start': nat, len': nat, start: nat, len: nat, page: nat)
    requires page > 0 && 0 < len' <= len && start' <= start
    ensures GetSpot(start', len', page) <= GetSpot(start, len, page)
  {
    FloorMonotone(start' + len' - 1, start + len - 1, page);
  }

  /** A last block may be shorter than the block the buffer was laid out for. Its spots then lie
      elsewhere, but still one behind the other, aligned, each on one page, in the allocation and clear
      of the chaining value that was copied there for whole blocks. */
  lemma {:induction false} ShorterBlock(buffer: nat, bs': nat, bs: nat, ivs: nat, a: nat, ca: nat, page: nat)
    requires SizesOk(bs, ivs, a, page) && 0 < bs' <= bs
    requires ca > 0 && Multiple(buffer, ca) && (if a <= ca then Multiple(ca, a) else Multiple(a, ca))
    ensures var l, l' := Layout(buffer, bs, ivs, a, page), Layout(buffer, bs', ivs, a, page);
      && buffer <= l'.dst <= l.dst && l'.src <= l.src
      && l'.dst + bs' <= l'.src && l'.src + bs' <= l.src + bs <= l.iv
      && l'.src + bs' <= buffer + 3 * AlignUp(bs, a) - a + Slack(a, ca)
      && Multiple(l'.dst, a) && Multiple(l'.src, a)
      && OnOnePage(l'.dst, bs', page) && OnOnePage(l'.src, bs', page)
  {
    hide GetSpot, AlignUp, Multiple, OnOnePage, Slack;
    var l, l' := Layout(buffer, bs, ivs, a, page), Layout(buffer, bs', ivs, a, page);
    SpotsFit(buffer, bs, ivs, a, ca, page);
    AlignFacts(buffer, a);
    AlignFacts(bs', a);
    ShorterSource(buffer, bs', bs, a, page);
    SpotAligned(l.start, bs', page, a);
    SpotFacts(l.start, bs', page);
    MultipleSum(l'.dst, AlignUp(bs', a), a);
    SpotAligned(l'.dst + AlignUp(bs', a), bs', page, a);
    SpotFacts(l'.dst + AlignUp(bs', a), bs', page);
  }

  lemma {:induction false} AlignMonotone(x: nat, y: nat, a: nat)
    requires a > 0 && x <= y
    ensures AlignUp(x, a) <= AlignUp(y, a)
  {
    FloorMonotone(x + a - 1, y + a - 1, a);
  }

  /** The bounce page serves as the buffer too: the two blocks fit, as long as the alignment is
      less than a page, and so does a shorter last one. */
  lemma {:induction false} PageFits(buffer: nat, bs: nat, ivs: nat, a: nat, page: nat)
    requires SizesOk(bs, ivs, a, page) && Multiple(buffer, page)
    ensures var l := Layout(buffer, bs, ivs, a, page);
      l.dst == buffer && l.src == buffer + AlignUp(bs, a) && (l.src + bs <= buffer + page <==> a < page)
    ensures forall bs' :: 0 < bs' <= bs ==> SrcSpot(buffer, bs', a, page) + bs' <= SrcSpot(buffer, bs, a, page) + bs
  {
    hide GetSpot, AlignUp, Multiple, OnOnePage;
    var ab := AlignUp(bs, a);
    AlignedSize(bs, a, page);
    AlignFacts(bs, a);
    MultipleTransitive(buffer, page, a);
    AlignFacts(buffer, a);
    Behind(buffer, 0, bs, page);
    SpotFacts(buffer, bs, page);
    MultipleSum(buffer, ab, a);
    if a < page {
      HalfPage(a, page);
    }
    if bs <= a {
      ShortBlock(buffer + ab, bs, page, a);
    } else {
      Behind(buffer, ab, bs, page);
    }
    SpotFacts(buffer + ab, bs, page);
    forall bs' | 0 < bs' <= bs
      ensures SrcSpot(buffer, bs', a, page) + bs' <= SrcSpot(buffer, bs, a, page) + bs
    {
      ShorterSource(buffer, bs', bs, a, page);
    }
  }

  lemma {:induction false} ShorterSource(buffer: nat, bs': nat, bs: nat, a: nat, page: nat)
    requires a > 0 && page > 0 && 0 < bs' <= bs
    ensures DstSpot(buffer, bs', a, page) <= DstSpot(buffer, bs, a, page)
    ensures SrcSpot(buffer, bs', a, page) <= SrcSpot(buffer, bs, a, page)
  {
    hide GetSpot, AlignUp;
    AlignMonotone(bs', bs, a);
    SpotMonotone(AlignUp(buffer, a), bs', AlignUp(buffer, a), bs, page);
    var start', start := DstSpot(buffer, bs', a, page) + AlignUp(bs', a), DstSpot(buffer, bs, a, page) + AlignUp(bs, a);
    SpotMonotone(start', bs', start, bs, page);
  }

  lemma {:induction false} HalfPage(a: nat, page: nat)
    requires 0 < a < page && Multiple(page, a)
    ensures 2 * a <= page
  {
    TimesMultiple(1, a);
    MultipleGap(a, page, a);
  }
}
