/**
  The scatterlist walk of the block cipher layer. Memory is one array. A scatterlist is the
  sequence of the addresses of its bytes, cut into runs that lie in one page; the cuts and the
  alignment of every position are arbitrary. The two lists are the same bytes or share none.
  The scratch buffers exist up front, so allocation cannot fail.
*/
module ModeWalk {
  import opened ModeSpec
  import opened ModeBlocks
  import opened Scratch

  const EINVAL := 22

  /** `m` is `m0` with `out` written to the first bytes of `dst`. */
  ghost predicate WrittenTo(m: seq<Byte>, m0: seq<Byte>, dst: seq<nat>, out: seq<Byte>) {
    && |m| == |m0| && |out| <= |dst|
    && (forall i :: 0 <= i < |dst| ==> dst[i] < |m0|)
    && (forall i :: 0 <= i < |out| ==> m[dst[i]] == out[i])
    && (forall a :: 0 <= a < |m0| && a !in dst[..|out|] ==> m[a] == m0[a])
  }

  ghost predicate Distinct(dst: seq<nat>) {
    forall i, j :: 0 <= i < j < |dst| ==> dst[i] != dst[j]
  }

  ghost predicate Disjoint(src: seq<nat>, dst: seq<nat>) {
    forall i, j :: 0 <= i < |src| && 0 <= j < |dst| ==> src[i] != dst[j]
  }

  /** The bytes at the addresses. */
  ghost function Gather(m: seq<Byte>, src: seq<nat>): (p: seq<Byte>)
    requires forall i :: 0 <= i < |src| ==> src[i] < |m|
    ensures |p| == |src|
  {
    seq(|src|, i requires 0 <= i < |src| => m[src[i]])
  }

  lemma {:induction false} WrittenMore(m: seq<Byte>, m': seq<Byte>, m0: seq<Byte>, dst: seq<nat>, done: seq<Byte>,
                                       out: seq<Byte>)
    requires WrittenTo(m, m0, dst, done) && |done| + |out| <= |dst| && |m'| == |m| && Distinct(dst)
    requires forall i :: |done| <= i < |done| + |out| ==> m'[dst[i]] == out[i - |done|]
    requires forall a :: 0 <= a < |m| && a !in dst[|done|..|done| + |out|] ==> m'[a] == m[a]
    ensures WrittenTo(m', m0, dst, done + out)
  {
    var k, n := |done|, |done| + |out|;
    var next := dst[k..n];
    assert dst[..n] == dst[..k] + next;
    forall i | 0 <= i < n
      ensures m'[dst[i]] == (done + out)[i]
    {
      if i < k {
        assert dst[i] !in next;
      }
    }
  }

  lemma {:induction false} SourceIntact(m: seq<Byte>, m0: seq<Byte>, src: seq<nat>, dst: seq<nat>, done: seq<Byte>,
                                        i: nat)
    requires WrittenTo(m, m0, dst, done) && Distinct(dst) && (src == dst || Disjoint(src, dst))
    requires |done| <= i < |src| && src[i] < |m0|
    ensures m[src[i]] == m0[src[i]]
  {
    assert src[i] !in dst[..|done|];
  }

  /** A run covers the addresses from its first on. */
  lemma {:induction false} RunCovers(list: seq<nat>, k: nat, n: nat, a: nat)
    requires 0 < n && k + n <= |list| && forall j :: k <= j < k + n ==> list[j] == list[k] + (j - k)
    ensures list[k] <= a < list[k] + n ==> a in list[k..k + n] && a in list
  {
    var x := list[k..k + n];
    assert list[k] <= a < list[k] + n ==> x[a - list[k]] == list[k + (a - list[k])] == a;
  }

  /** The source and destination lists. */
  datatype Lists = Lists(
    src: seq<nat>,
    dst: seq<nat>,
    inRun: nat -> nat,           // bytes up to the end of the page or the entry
    outRun: nat -> nat,
    inAligned: nat -> bool,
    outAligned: nat -> bool)

  /** What the caller hands over: lists of one length in memory, equal or disjoint, that do not
      name a byte of the destination twice, and runs that do not leave a page. */
  ghost predicate ListsOk(l: Lists, size: nat, pageSize: nat) {
    && |l.src| == |l.dst| && Distinct(l.dst) && (l.src == l.dst || Disjoint(l.src, l.dst))
    && (forall i :: 0 <= i < |l.src| ==> l.src[i] < size)
    && (forall i :: 0 <= i < |l.dst| ==> l.dst[i] < size)
    && RunsOk(l.src, l.inRun, pageSize) && RunsOk(l.dst, l.outRun, pageSize)
  }

  ghost predicate RunsOk(list: seq<nat>, run: nat -> nat, pageSize: nat) {
    && (forall i: nat :: i < |list| ==> 1 <= run(i) <= pageSize && i + run(i) <= |list|)
    && (forall i: nat, j: nat :: i < |list| && i <= j < i + run(i) ==> list[j] == list[i] + (j - i))
  }

  /** The scalars of the walk. The mode reads at `so` and writes at `dOff` of its buffer. */
  datatype Pos = Pos(total: nat, nbytes: nat, inPos: nat, outPos: nat, slow: bool, copy: bool, so: nat, dOff: nat)

  /** The buffer given to the mode: one place in it, or two that share nothing. */
  ghost predicate Placed(l: Lists, bs: Size, length: nat, p: Pos) {
    && p.outPos + p.total == |l.src| == |l.dst|
    && 0 < p.nbytes <= p.total && (p.nbytes >= bs || p.nbytes == p.total)
    && p.so + p.nbytes <= length && p.dOff + p.nbytes <= length
    && (p.so == p.dOff || p.so + p.nbytes <= p.dOff || p.dOff + p.nbytes <= p.so)
    && (if p.slow then p.nbytes <= bs && p.inPos == p.outPos + p.nbytes
        else p.inPos == p.outPos && p.nbytes <= l.outRun(p.outPos) && (!p.copy ==> p.dOff == l.dst[p.outPos]))
  }

  /** The mapped bytes of the source from the current position on. */
  lemma {:induction false} SourceRun(m: seq<Byte>, m0: seq<Byte>, l: Lists, pageSize: nat, done: seq<Byte>, n: nat)
    requires ListsOk(l, |m0|, pageSize) && WrittenTo(m, m0, l.dst, done)
    requires |done| < |l.src| && n <= l.inRun(|done|)
    ensures var k := |done|;
      k + n <= |l.src| && l.src[k] + n <= |m| && m[l.src[k]..l.src[k] + n] == Gather(m0, l.src)[k..k + n]
  {
    hide WrittenTo, Distinct, Disjoint;
    var k := |done|;
    var x, a := Gather(m0, l.src)[k..k + n], l.src[k];
    assert |m| == |m0| by { SameSize(m, m0, l.dst, done); }
    if n > 0 {
      assert l.src[k + n - 1] == a + (n - 1);
    }
    forall j | a <= j < a + n
      ensures m[j] == x[j - a]
    {
      var i := k + (j - a);
      assert l.src[i] == j;
      SourceIntact(m, m0, l.src, l.dst, done, i);
    }
  }

  lemma {:induction false} SameSize(m: seq<Byte>, m0: seq<Byte>, dst: seq<nat>, done: seq<Byte>)
    requires WrittenTo(m, m0, dst, done)
    ensures |m| == |m0| && |done| <= |dst|
  {
  }

  lemma {:induction false} TargetRun(l: Lists, size: nat, pageSize: nat, k: nat, n: nat)
    requires ListsOk(l, size, pageSize) && k < |l.src| && 0 < n <= l.outRun(k)
    ensures k + n <= |l.dst| && l.dst[k] + n <= size
    ensures n <= l.inRun(k) ==> l.src[k] == l.dst[k] || l.src[k] + n <= l.dst[k] || l.dst[k] + n <= l.src[k]
  {
    assert l.dst[k + n - 1] == l.dst[k] + (n - 1);
    if l.src != l.dst && n <= l.inRun(k) {
      RunCovers(l.dst, k, n, l.src[k]);
      RunCovers(l.src, k, n, l.dst[k]);
      assert l.src[k] !in l.dst && l.dst[k] !in l.src;
    }
  }

  /** Writing a run of the destination. */
  lemma {:induction false} RunWritten(m: seq<Byte>, m': seq<Byte>, m0: seq<Byte>, l: Lists, pageSize: nat,
                                      done: seq<Byte>, out: seq<Byte>)
    requires ListsOk(l, |m0|, pageSize) && WrittenTo(m, m0, l.dst, done) && |m'| == |m|
    requires |done| < |l.dst| && |out| <= l.outRun(|done|)
    requires var o := l.dst[|done|];
      && o + |out| <= |m| && (forall a :: o <= a < o + |out| ==> m'[a] == out[a - o])
      && forall a :: 0 <= a < |m| && !(o <= a < o + |out|) ==> m'[a] == m[a]
    ensures |done| + |out| <= |l.dst| && WrittenTo(m', m0, l.dst, done + out)
  {
    hide WrittenTo, Disjoint, Distinct;
    var k, n := |done|, |done| + |out|;
    forall a | 0 <= a < |m| && a !in l.dst[k..n]
      ensures m'[a] == m[a]
    {
      if |out| > 0 {
        RunCovers(l.dst, k, |out|, a);
      }
    }
    WrittenMore(m, m', m0, l.dst, done, out);
  }

  /** The two spots of the slow path lie apart in the buffer, for a whole block and for a shorter last
      one. */
  ghost predicate SpotsOk(base: nat, bs: nat, align: nat, pageSize: nat, length: nat) {
    && 0 < align && 0 < pageSize
    && forall n :: 0 < n <= bs ==>
      var d, s := DstSpot(base, n, align, pageSize), SrcSpot(base, n, align, pageSize);
      base <= d && d + n <= s && s + n <= base + length
  }

  /** They do in what blkcipher_next_slow allocates. */
  lemma {:induction false} SpotsInside(base: nat, bs: nat, align: nat, ctxAlign: nat, pageSize: nat)
    requires SizesOk(bs, bs, align, pageSize) && ctxAlign > 0 && Multiple(base, ctxAlign)
    requires if align <= ctxAlign then Multiple(ctxAlign, align) else Multiple(align, ctxAlign)
    ensures var length := 3 * AlignUp(bs, align) - align + Slack(align, ctxAlign);
      length >= 0 && SpotsOk(base, bs, align, pageSize, length)
  {
    hide AlignUp, Multiple, DstSpot, SrcSpot, Slack, OnOnePage;
    forall n | 0 < n <= bs
      ensures var d, s := DstSpot(base, n, align, pageSize), SrcSpot(base, n, align, pageSize);
        base <= d && d + n <= s && s + n <= base + 3 * AlignUp(bs, align) - align + Slack(align, ctxAlign)
    {
      ShorterBlock(base, n, bs, bs, align, ctxAlign, pageSize);
    }
    ShorterBlock(base, bs, bs, bs, align, ctxAlign, pageSize);
  }

  class Walk {
    const mem: array<Byte>
    const info: array<Byte>      // desc->info
    const ivCopy: array<Byte>    // where an unaligned chaining value is kept
    const page: array<Byte>      // bounce page
    const buffer: array<Byte>    // room for a destination spot and a source spot
    const base: nat              // the address of the buffer
    const align: nat             // alignmask + 1
    const l: Lists
    const infoAligned: bool
    const algBlock: nat          // crypto_blkcipher_blocksize
    const blocksize: Size        // walk->blocksize
    var p: Pos
    var ivCopied: bool
    ghost var snap: seq<Byte>    // memory when the mode was given its buffer

    constructor (mem: array<Byte>, l: Lists, info: array<Byte>, infoAligned: bool, algBlock: nat, blocksize: Size,
                 pageSize: nat, base: nat, align: nat, ctxAlign: nat)
      requires SizesOk(blocksize, blocksize, align, pageSize) && ctxAlign > 0 && Multiple(base, ctxAlign)
      requires if align <= ctxAlign then Multiple(ctxAlign, align) else Multiple(align, ctxAlign)
      ensures this.mem == mem && this.l == l && this.info == info && this.infoAligned == infoAligned
      ensures this.algBlock == algBlock && this.blocksize == blocksize
      ensures p == Pos(|l.src|, 0, 0, 0, false, false, 0, 0) && !ivCopied
      ensures fresh(ivCopy) && fresh(page) && fresh(buffer) && page.Length == pageSize
      ensures mem != info ==> Separate()
    {
      this.mem, this.l, this.info, this.infoAligned := mem, l, info, infoAligned;
      this.algBlock, this.blocksize := algBlock, blocksize;
      ivCopy := new Byte[info.Length];
      page := new Byte[pageSize];
      this.base, this.align := base, align;
      SpotsInside(base, blocksize, align, ctxAlign, pageSize);
      buffer := new Byte[3 * AlignUp(blocksize, align) - align + Slack(align, ctxAlign)];
      p, ivCopied, snap := Pos(|l.src|, 0, 0, 0, false, false, 0, 0), false, [];
    }

    /** The buffers are different objects. */
    ghost predicate Separate() {
      && mem != info && mem != ivCopy && mem != page && mem != buffer
      && info != ivCopy && info != page && info != buffer
      && ivCopy != page && ivCopy != buffer && page != buffer
      && ivCopy.Length == info.Length && SpotsOk(base, blocksize, align, page.Length, buffer.Length)
    }

    /** The destination spot in the buffer, for a block of `n` bytes. */
    function DstOff(n: nat): nat
      requires Separate() && 0 < n <= blocksize
    {
      DstSpot(base, n, align, page.Length) - base
    }

    function SrcOff(n: nat): nat
      requires Separate() && 0 < n <= blocksize
    {
      SrcSpot(base, n, align, page.Length) - base
    }

    /** The buffer of the mode. */
    function Buf(): array<Byte>
      reads this
    {
      if p.slow then buffer else if p.copy then page else mem
    }

    /** The chaining value. */
    function Iv(): array<Byte>
      reads this
    {
      if ivCopied then ivCopy else info
    }

    /** `done` is written; the buffer holds the next bytes of the source. */
    ghost predicate Ready(m0: seq<Byte>, done: seq<Byte>)
      reads this, mem, page, buffer
    {
      && Separate() && ListsOk(l, |m0|, page.Length) && Placed(l, blocksize, Buf().Length, p) && p.outPos == |done|
      && (p.slow ==> p.dOff == DstOff(p.nbytes))
      && WrittenTo(snap, m0, l.dst, done) && mem[..] == snap
      && Holds(Buf(), p.so, Gather(m0, l.src)[p.outPos..p.outPos + p.nbytes])
    }

    /** The mode has put `out` at the front of its destination and written nothing else. */
    ghost predicate Cooked(m0: seq<Byte>, done: seq<Byte>, out: seq<Byte>, left: nat)
      reads this, mem, page, buffer
    {
      && Separate() && ListsOk(l, |m0|, page.Length) && Placed(l, blocksize, Buf().Length, p) && p.outPos == |done|
      && (p.slow ==> p.dOff == DstOff(p.nbytes))
      && WrittenTo(snap, m0, l.dst, done)
      && |out| + left == p.nbytes && (p.slow ==> left == 0) && Holds(Buf(), p.dOff, out)
      && |snap| == mem.Length
      && (forall a :: 0 <= a < mem.Length && !(Buf() == mem && p.dOff <= a < p.dOff + |out|) ==> mem[a] == snap[a])
    }

    /** Between two buffers. */
    ghost predicate Resting(m0: seq<Byte>, done: seq<Byte>)
      reads this, mem
    {
      && Separate() && ListsOk(l, |m0|, page.Length) && p.outPos + p.total == |l.src| == |l.dst|
      && p.inPos == p.outPos == |done|
      && WrittenTo(mem[..], m0, l.dst, done)
    }

    // -------------------------------------------------------------------------
    // Taking the next bytes
    // -------------------------------------------------------------------------

    /** The end of blkcipher_walk_done: hand the chaining value back. */
    method Finish(ghost v: seq<Byte>)
      requires Separate() && |v| == info.Length && Holds(Iv(), 0, v)
      modifies this`p, info
      ensures p == old(p).(total := 0, nbytes := 0) && Holds(Iv(), 0, v) && Holds(info, 0, v)
    {
      p := p.(total := 0, nbytes := 0);
      if ivCopied {
        Memcpy(info, 0, ivCopy, 0, info.Length, v);
      }
    }

    /** scatterwalk_copychunks from the source list. */
    method GatherBytes(o: nat, n: nat, ghost m0: seq<Byte>, ghost done: seq<Byte>)
      requires Resting(m0, done) && n <= p.total && Within(buffer, o, n)
      modifies buffer
      ensures Holds(buffer, o, Gather(m0, l.src)[|done|..|done| + n])
    {
      hide WrittenTo, Distinct, Disjoint, RunsOk;
      ghost var x := Gather(m0, l.src)[|done|..|done| + n];
      MemorySize(m0, done);
      for i := 0 to n
        invariant forall j :: o <= j < o + i ==> buffer[j] == x[j - o]
      {
        SourceIntact(mem[..], m0, l.src, l.dst, done, p.inPos + i);
        buffer[o + i] := mem[l.src[p.inPos + i]];
      }
    }

    lemma {:induction false} MemorySize(m0: seq<Byte>, done: seq<Byte>)
      requires Resting(m0, done)
      ensures mem.Length == |m0|
    {
    }

    /** blkcipher_next_slow: one block through the scratch spots. */
    method NextSlow(n: nat, ghost m0: seq<Byte>, ghost done: seq<Byte>)
      requires Resting(m0, done) && 0 < n <= p.total && n <= blocksize && (n == blocksize || n == p.total)
      modifies this`p, this`snap, buffer
      ensures p == old(p).(slow := true, nbytes := n, inPos := old(p).inPos + n, so := SrcOff(n), dOff := DstOff(n))
      ensures Ready(m0, done)
    {
      hide ListsOk, WrittenTo, Holds;
      GatherFits(m0);
      GatherBytes(SrcOff(n), n, m0, done);
      p := p.(slow := true, nbytes := n, inPos := p.inPos + n, so := SrcOff(n), dOff := DstOff(n));
      snap := mem[..];
    }

    lemma {:induction false} GatherFits(m0: seq<Byte>)
      requires ListsOk(l, |m0|, page.Length)
      ensures forall i :: 0 <= i < |l.src| ==> l.src[i] < |m0|
    {
    }

    /** blkcipher_next_copy: through the bounce page. */
    method NextCopy(n: nat, ghost m0: seq<Byte>, ghost done: seq<Byte>)
      requires Resting(m0, done) && 0 < n <= p.total && (n >= blocksize || n == p.total)
      requires n <= l.inRun(p.inPos) && n <= l.outRun(p.outPos) && n <= page.Length && !p.slow && p.copy
      modifies this`p, this`snap, page
      ensures p == old(p).(nbytes := n, so := 0, dOff := 0) && Ready(m0, done)
    {
      hide ListsOk, WrittenTo;
      GatherFits(m0);
      SourceRun(mem[..], m0, l, page.Length, done, n);
      ghost var x := Gather(m0, l.src)[|done|..|done| + n];
      assert Holds(mem, l.src[p.inPos], x);
      Memcpy(page, 0, mem, l.src[p.inPos], n, x);
      p := p.(nbytes := n, so := 0, dOff := 0);
      snap := mem[..];
    }

    /** blkcipher_next_fast: in the lists themselves, at one place when both are at the same bytes. */
    method NextFast(n: nat, ghost m0: seq<Byte>, ghost done: seq<Byte>)
      requires Resting(m0, done) && 0 < n <= p.total && (n >= blocksize || n == p.total)
      requires n <= l.inRun(p.inPos) && n <= l.outRun(p.outPos) && !p.slow && !p.copy
      modifies this`p, this`snap
      ensures p == old(p).(nbytes := n, so := l.src[old(p).inPos], dOff := l.dst[old(p).outPos]) && Ready(m0, done)
    {
      hide ListsOk, WrittenTo;
      GatherFits(m0);
      MemorySize(m0, done);
      SourceRun(mem[..], m0, l, page.Length, done, n);
      TargetRun(l, mem.Length, page.Length, p.outPos, n);
      p := p.(nbytes := n, so := l.src[p.inPos], dOff := l.dst[p.outPos]);
      snap := mem[..];
    }

    lemma {:induction false} Runs(m0: seq<Byte>, k: nat)
      requires ListsOk(l, |m0|, page.Length) && k < |l.src|
      ensures 1 <= l.inRun(k) <= page.Length && 1 <= l.outRun(k)
    {
    }

    /** blkcipher_walk_next. */
    method Next(ghost m0: seq<Byte>, ghost done: seq<Byte>, ghost v: seq<Byte>) returns (err: int)
      requires Resting(m0, done) && p.total > 0 && |v| == info.Length && Holds(Iv(), 0, v)
      modifies this`p, this`snap, page, buffer, info
      ensures Holds(Iv(), 0, v)
      ensures if old(p).total < algBlock
        then err == -EINVAL && p.total == p.nbytes == 0 && Holds(info, 0, v)
        else err == 0 && p.total == old(p).total && Ready(m0, done)
    {
      hide ListsOk, WrittenTo, Placed;
      err := 0;
      var n := p.total;
      if n < algBlock {
        Finish(v);
        return -EINVAL;
      }
      p := p.(slow := false, copy := !l.inAligned(p.inPos) || !l.outAligned(p.outPos));
      Runs(m0, p.inPos);
      var bsize := if blocksize < n then blocksize else n;
      n := if n > l.inRun(p.inPos) then l.inRun(p.inPos) else n;
      n := if n > l.outRun(p.outPos) then l.outRun(p.outPos) else n;
      if n < bsize {
        NextSlow(bsize, m0, done);
      } else if p.copy {
        NextCopy(n, m0, done);
      } else {
        NextFast(n, m0, done);
      }
    }

    // -------------------------------------------------------------------------
    // Putting the result away
    // -------------------------------------------------------------------------

    /** scatterwalk_copychunks to the destination list. */
    method ScatterBytes(o: nat, k: nat, n: nat, ghost out: seq<Byte>)
      requires n == |out| && k + n <= |l.dst| && Distinct(l.dst)
      requires forall i :: 0 <= i < |l.dst| ==> l.dst[i] < mem.Length
      requires buffer != mem && Holds(buffer, o, out)
      modifies mem
      ensures forall j :: k <= j < k + n ==> mem[l.dst[j]] == out[j - k]
      ensures forall a :: 0 <= a < mem.Length && a !in l.dst[k..k + n] ==> mem[a] == old(mem[a])
    {
      for i := 0 to n
        invariant forall j :: k <= j < k + i ==> mem[l.dst[j]] == out[j - k]
        invariant forall a :: 0 <= a < mem.Length && a !in l.dst[k..k + i] ==> mem[a] == old(mem[a])
      {
        assert l.dst[k..k + i + 1] == l.dst[k..k + i] + [l.dst[k + i]];
        mem[l.dst[k + i]] := buffer[o + i];
      }
    }

    /** blkcipher_done_slow. It works out again where the mode has written. */
    method DoneSlow(ghost m0: seq<Byte>, ghost done: seq<Byte>, ghost out: seq<Byte>)
      requires Cooked(m0, done, out, 0) && p.slow
      modifies this`p, mem
      ensures p == old(p).(outPos := old(p).outPos + old(p).nbytes) && WrittenTo(mem[..], m0, l.dst, done + out)
    {
      hide WrittenTo, Disjoint, Distinct, RunsOk, Holds;
      TargetSize(m0, done);
      ScatterBytes(DstOff(p.nbytes), p.outPos, p.nbytes, out);
      WrittenMore(snap, mem[..], m0, l.dst, done, out);
      p := p.(outPos := p.outPos + p.nbytes);
    }

    lemma {:induction false} TargetSize(m0: seq<Byte>, done: seq<Byte>)
      requires WrittenTo(snap, m0, l.dst, done) && |snap| == mem.Length
      ensures |m0| == mem.Length
    {
    }

    /** blkcipher_done_fast. */
    method DoneFast(left: nat, ghost m0: seq<Byte>, ghost done: seq<Byte>, ghost out: seq<Byte>)
      requires Cooked(m0, done, out, left) && !p.slow
      modifies this`p, mem
      ensures p == old(p).(inPos := old(p).inPos + |out|, outPos := old(p).outPos + |out|)
      ensures WrittenTo(mem[..], m0, l.dst, done + out)
    {
      hide WrittenTo, ListsOk;
      var n := p.nbytes - left;
      TargetSize(m0, done);
      TargetRun(l, mem.Length, page.Length, p.outPos, p.nbytes);
      if p.copy {
        Memcpy(mem, l.dst[p.outPos], page, p.dOff, n, out);
      }
      RunWritten(snap, mem[..], m0, l, page.Length, done, out);
      p := p.(inPos := p.inPos + n, outPos := p.outPos + n);
    }

    /** blkcipher_walk_done without an error from the mode. */
    method Done(left: nat, ghost m0: seq<Byte>, ghost done: seq<Byte>, ghost out: seq<Byte>,
                ghost v: seq<Byte>) returns (err: int)
      requires Cooked(m0, done, out, left) && |v| == info.Length && Holds(Iv(), 0, v)
      modifies this`p, this`snap, mem, page, buffer, info
      ensures Holds(Iv(), 0, v) && WrittenTo(mem[..], m0, l.dst, done + out)
      ensures var rest := old(p).total - |out|;
        && err == (if 0 < rest < algBlock then -EINVAL else 0)
        && if 0 < rest && algBlock <= rest then p.total == rest && Ready(m0, done + out)
           else p.total == p.nbytes == 0 && Holds(info, 0, v)
    {
      hide WrittenTo, ListsOk;
      var n := p.nbytes - left;
      if !p.slow {
        DoneFast(left, m0, done, out);
      } else {
        DoneSlow(m0, done, out);
      }
      p := p.(total := p.total - n, nbytes := p.total - n);
      if p.total > 0 {
        err := Next(m0, done + out, v);
      } else {
        err := 0;
        Finish(v);
      }
    }

    /** blkcipher_walk_first. */
    method First(ghost m0: seq<Byte>, ghost v: seq<Byte>) returns (err: int)
      requires Separate() && ListsOk(l, mem.Length, page.Length) && m0 == mem[..] && v == info[..]
      requires p.total == |l.src| && p.inPos == p.outPos == 0 && !ivCopied
      modifies this, page, buffer, info, ivCopy
      ensures Holds(Iv(), 0, v)
      ensures var n := |l.src|;
        && err == (if 0 < n < algBlock then -EINVAL else 0)
        && if 0 < n && algBlock <= n then p.total == n && Ready(m0, [])
           else p.total == p.nbytes == 0 && Holds(info, 0, v)
    {
      hide ListsOk;
      err := 0;
      p := p.(nbytes := p.total);
      if p.total == 0 {
        return;
      }
      if !infoAligned {
        Memcpy(ivCopy, 0, info, 0, info.Length, v);
        ivCopied := true;
      }
      NothingWritten(m0);
      err := Next(m0, [], v);
    }

    lemma {:induction false} NothingWritten(m0: seq<Byte>)
      requires ListsOk(l, |m0|, page.Length)
      ensures WrittenTo(m0, m0, l.dst, []) && |l.src| == |l.dst|
    {
    }
  }
}
