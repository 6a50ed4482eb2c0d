/**
  Partial completion of a request: the first bytes of its bios are done. Whole bios are ended;
  in the first that is not, the index moves over whole bvecs and the next one is shortened.
  The request is not the barrier proxy, whose bios are left alone, and no bio is empty.
*/
module Completion {

  datatype Bvec = Bvec(offset: nat, len: nat)

  /** A bio: bytes `size` from `sector` on are to do, in the bvecs from `idx` on. */
  datatype Bio = Bio(id: nat, sector: nat, size: nat, idx: nat, vecs: seq<Bvec>)

  function Sum(v: seq<Bvec>): nat {
    if v == [] then 0 else v[0].len + Sum(v[1..])
  }

  ghost predicate BioOk(b: Bio) {
    b.idx <= |b.vecs| && b.size == Sum(b.vecs[b.idx..]) && b.size > 0
  }

  ghost predicate BiosOk(bs: seq<Bio>) {
    forall i :: 0 <= i < |bs| ==> BioOk(bs[i])
  }

  // ---------------------------------------------------------------------------
  // What is left
  // ---------------------------------------------------------------------------

  /** What counts of a bio: the bvecs before the index are done with, and their contents do not
      matter any more. */
  datatype Live = Live(id: nat, sector: nat, size: nat, idx: nat, vecs: seq<Bvec>)

  function View(b: Bio): Live
    requires b.idx <= |b.vecs|
  {
    Live(b.id, b.sector, b.size, b.idx, b.vecs[b.idx..])
  }

  ghost predicate LiveOk(l: Live) {
    l.size == Sum(l.vecs) && l.size > 0
  }

  function DropVecs(v: seq<Bvec>, n: nat): (r: seq<Bvec>)
    requires n <= Sum(v)
    ensures Sum(r) == Sum(v) - n && |r| <= |v|
  {
    if n == 0 then v
    else if v[0].len > n then
      var r := [Bvec(v[0].offset + n, v[0].len - n)] + v[1..];
      assert r[1..] == v[1..];
      r
    else DropVecs(v[1..], n - v[0].len)
  }

  function DropBio(l: Live, n: nat): Live
    requires l.size == Sum(l.vecs) && n <= l.size
  {
    var r := DropVecs(l.vecs, n);
    Live(l.id, l.sector + n / 512, l.size - n, l.idx + (|l.vecs| - |r|), r)
  }

  ghost predicate AllOk(ls: seq<Live>) {
    forall i :: 0 <= i < |ls| ==> LiveOk(ls[i])
  }

  /** The bios after `n` bytes are done. */
  function Drop(ls: seq<Live>, n: nat): seq<Live>
    requires AllOk(ls)
  {
    if ls == [] then []
    else if n >= ls[0].size then Drop(ls[1..], n - ls[0].size)
    else [DropBio(ls[0], n)] + ls[1..]
  }

  /** The bios that are ended by them, in order. */
  function Ended(ls: seq<Live>, n: nat): seq<nat> {
    if ls == [] || n < ls[0].size then [] else [ls[0].id] + Ended(ls[1..], n - ls[0].size)
  }

  function LiveTotal(ls: seq<Live>): nat {
    if ls == [] then 0 else ls[0].size + LiveTotal(ls[1..])
  }

  // ---------------------------------------------------------------------------
  // Completions compose
  // ---------------------------------------------------------------------------

  lemma {:induction false} DropVecsAgain(v: seq<Bvec>, n1: nat, n2: nat)
    requires n1 + n2 <= Sum(v)
    ensures DropVecs(DropVecs(v, n1), n2) == DropVecs(v, n1 + n2)
    decreases |v|
  {
    if n1 > 0 && n2 > 0 {
      if v[0].len <= n1 {
        DropVecsAgain(v[1..], n1 - v[0].len, n2);
      } else {
        var r := DropVecs(v, n1);
        assert r == [Bvec(v[0].offset + n1, v[0].len - n1)] + v[1..];
        assert r[1..] == v[1..];
      }
    }
  }

  lemma {:induction false} DropBioAgain(l: Live, n1: nat, n2: nat)
    requires l.size == Sum(l.vecs) && n1 + n2 <= l.size && n2 % 512 == 0
    ensures DropBio(DropBio(l, n1), n2) == DropBio(l, n1 + n2)
  {
    DropVecsAgain(l.vecs, n1, n2);
    assert (n1 + n2) / 512 == n1 / 512 + n2 / 512;
  }

  lemma {:induction false} DropOk(ls: seq<Live>, n: nat)
    requires AllOk(ls)
    ensures AllOk(Drop(ls, n))
    ensures LiveTotal(Drop(ls, n)) == if n <= LiveTotal(ls) then LiveTotal(ls) - n else 0
  {
    if ls != [] {
      if n >= ls[0].size {
        DropOk(ls[1..], n - ls[0].size);
      } else {
        var r := Drop(ls, n);
        assert r[1..] == ls[1..];
        assert forall i :: 1 <= i < |r| ==> r[i] == ls[i];
      }
    }
  }

  /** Completing `n1` and then `n2` bytes leaves what completing their sum leaves, and ends the
      same bios in the same order. Only the sector counts ask for whole sectors. */
  lemma {:induction false} Compose(ls: seq<Live>, n1: nat, n2: nat)
    requires AllOk(ls) && n2 % 512 == 0
    ensures AllOk(Drop(ls, n1)) && Drop(Drop(ls, n1), n2) == Drop(ls, n1 + n2)
    ensures Ended(ls, n1) + Ended(Drop(ls, n1), n2) == Ended(ls, n1 + n2)
  {
    hide Drop, Ended, DropBio, LiveOk;
    DropOk(ls, n1);
    if ls == [] {
      DropNone(n1);
      DropNone(n2);
      DropNone(n1 + n2);
    } else if n1 >= ls[0].size {
      DropFirst(ls, n1);
      DropFirst(ls, n1 + n2);
      Compose(ls[1..], n1 - ls[0].size, n2);
      var e, e' := Ended(ls[1..], n1 - ls[0].size), Ended(Drop(ls, n1), n2);
      assert [ls[0].id] + e + e' == [ls[0].id] + (e + e');
    } else {
      var r := Drop(ls, n1);
      DropInside(ls, n1);
      assert r[1..] == ls[1..];
      if n1 + n2 < ls[0].size {
        DropInside(r, n2);
        DropInside(ls, n1 + n2);
        SizeIsSum(ls);
        DropBioAgain(ls[0], n1, n2);
      } else {
        DropFirst(r, n2);
        DropFirst(ls, n1 + n2);
      }
      assert [] + Ended(r, n2) == Ended(r, n2);
    }
  }

  lemma {:induction false} DropNone(n: nat)
    ensures Drop([], n) == [] && Ended([], n) == []
  {
  }

  lemma {:induction false} SizeIsSum(ls: seq<Live>)
    requires AllOk(ls) && ls != []
    ensures ls[0].size == Sum(ls[0].vecs)
  {
  }

  /** The first bio is ended. */
  lemma {:induction false} DropFirst(ls: seq<Live>, n: nat)
    requires AllOk(ls) && ls != [] && n >= ls[0].size
    ensures AllOk(ls[1..]) && Drop(ls, n) == Drop(ls[1..], n - ls[0].size)
    ensures Ended(ls, n) == [ls[0].id] + Ended(ls[1..], n - ls[0].size)
  {
    hide LiveOk, DropBio;
  }

  /** The first bio is not ended. */
  lemma {:induction false} DropInside(ls: seq<Live>, n: nat)
    requires AllOk(ls) && ls != [] && n < ls[0].size
    ensures ls[0].size == Sum(ls[0].vecs) && Drop(ls, n) == [DropBio(ls[0], n)] + ls[1..] && Ended(ls, n) == []
    ensures DropBio(ls[0], n).size == ls[0].size - n && DropBio(ls[0], n).id == ls[0].id
  {
    hide Sum, DropVecs;
  }

  /** Every bio is ended once, in order: those ended and those left are all of them. */
  lemma {:induction false} EndedOnce(ls: seq<Live>, n: nat)
    requires AllOk(ls)
    ensures Ended(ls, n) + Names(Drop(ls, n)) == Names(ls)
  {
    hide DropVecs, Sum;
    if ls != [] {
      var r := Drop(ls, n);
      if n >= ls[0].size {
        var e := Ended(ls[1..], n - ls[0].size);
        EndedOnce(ls[1..], n - ls[0].size);
        assert [ls[0].id] + e + Names(r) == [ls[0].id] + (e + Names(r));
      } else {
        assert r[0].id == ls[0].id && r[1..] == ls[1..];
        assert [] + Names(r) == Names(r);
      }
    }
  }

  function Names(ls: seq<Live>): seq<nat> {
    if ls == [] then [] else [ls[0].id] + Names(ls[1..])
  }

  // ---------------------------------------------------------------------------
  // Bios and what counts of them
  // ---------------------------------------------------------------------------

  function Views(bs: seq<Bio>): (ls: seq<Live>)
    requires forall i :: 0 <= i < |bs| ==> bs[i].idx <= |bs[i].vecs|
    ensures |ls| == |bs|
  {
    seq(|bs|, i requires 0 <= i < |bs| => View(bs[i]))
  }

  lemma {:induction false} ViewsOk(bs: seq<Bio>)
    requires BiosOk(bs)
    ensures AllOk(Views(bs))
    ensures bs != [] ==> Views(bs)[1..] == Views(bs[1..]) && BiosOk(bs[1..]) && Views(bs)[0] == View(bs[0])
  {
  }

  // ---------------------------------------------------------------------------
  // The bvecs before the index
  // ---------------------------------------------------------------------------

  /** Where `n` bytes end: how many bvecs they finish, and how far they go into the next. */
  function Stop(v: seq<Bvec>, n: nat): (r: (nat, nat))
    requires n < Sum(v)
    ensures r.0 < |v| && (if r.1 > 0 then r.1 < v[r.0].len else r.1 <= v[r.0].len)
  {
    if n == 0 then (0, 0)
    else if v[0].len > n then (0, n)
    else
      var r := Stop(v[1..], n - v[0].len);
      (r.0 + 1, r.1)
  }

  /** A bio with `n` bytes done, as the code leaves it. */
  function Cut(b: Bio, n: nat): Bio
    requires b.idx <= |b.vecs| && n < Sum(b.vecs[b.idx..]) && n <= b.size
  {
    var (next, nr) := Stop(b.vecs[b.idx..], n);
    var k := b.idx + next;
    Bio(b.id, b.sector + n / 512, b.size - n, k, b.vecs[k := Bvec(b.vecs[k].offset + nr, b.vecs[k].len - nr)])
  }

  /** The bios with `n` bytes done. */
  function Remaining(bs: seq<Bio>, n: nat): seq<Bio>
    requires BiosOk(bs)
  {
    if bs == [] then []
    else if n >= bs[0].size then Remaining(bs[1..], n - bs[0].size)
    else [Cut(bs[0], n)] + bs[1..]
  }

  lemma {:induction false} StopIsDrop(v: seq<Bvec>, n: nat)
    requires n < Sum(v)
    ensures var (k, r) := Stop(v, n); DropVecs(v, n) == [Bvec(v[k].offset + r, v[k].len - r)] + v[k + 1..]
  {
    if n == 0 {
      assert v == [v[0]] + v[1..];
    } else if v[0].len <= n {
      StopIsDrop(v[1..], n - v[0].len);
      var (k, r) := Stop(v[1..], n - v[0].len);
      assert Stop(v, n) == (k + 1, r) && v[1..][k] == v[k + 1] && v[1..][k + 1..] == v[k + 2..];
    } else {
      assert Stop(v, n) == (0, n);
    }
  }

  /** What counts of it is what is left. */
  lemma {:induction false} CutView(b: Bio, n: nat)
    requires BioOk(b) && n < b.size
    ensures BioOk(Cut(b, n)) && View(Cut(b, n)) == DropBio(View(b), n)
  {
    hide DropVecs, Sum, Stop;
    var v := b.vecs[b.idx..];
    var (k, r) := Stop(v, n);
    StopIsDrop(v, n);
    assert Cut(b, n).vecs[b.idx + k..] == [Bvec(v[k].offset + r, v[k].len - r)] + v[k + 1..];
  }

  lemma {:induction false} RemainingViews(bs: seq<Bio>, n: nat)
    requires BiosOk(bs)
    ensures BiosOk(Remaining(bs, n)) && AllOk(Views(bs)) && Views(Remaining(bs, n)) == Drop(Views(bs), n)
  {
    hide Sum, Cut, View, Views, DropBio, LiveOk, Drop, Remaining;
    ViewsOk(bs);
    if bs == [] {
      DropNone(n);
      RemainingNone(n);
    } else if n >= bs[0].size {
      SizeSame(bs);
      RemainingFirst(bs, n);
      DropFirst(Views(bs), n);
      RemainingViews(bs[1..], n - bs[0].size);
    } else {
      SizeSame(bs);
      CutOk(bs, n);
      RemainingInside(bs, n);
      DropInside(Views(bs), n);
      var c := Remaining(bs, n);
      assert c[1..] == bs[1..];
      ViewsOk(c);
      assert Views(c) == [Views(c)[0]] + Views(c)[1..];
    }
  }

  lemma {:induction false} RemainingNone(n: nat)
    ensures Remaining([], n) == [] && Views([]) == []
  {
  }

  lemma {:induction false} RemainingFirst(bs: seq<Bio>, n: nat)
    requires BiosOk(bs) && bs != [] && n >= bs[0].size
    ensures BiosOk(bs[1..]) && Remaining(bs, n) == Remaining(bs[1..], n - bs[0].size)
  {
    hide Sum, Cut;
  }

  lemma {:induction false} RemainingInside(bs: seq<Bio>, n: nat)
    requires BiosOk(bs) && bs != [] && n < bs[0].size
    ensures BioOk(bs[0]) && Remaining(bs, n) == [Cut(bs[0], n)] + bs[1..]
  {
    hide Sum, Cut;
  }

  lemma {:induction false} SizeSame(bs: seq<Bio>)
    requires BiosOk(bs) && bs != []
    ensures BioOk(bs[0]) && Views(bs)[0] == View(bs[0]) && View(bs[0]).size == bs[0].size
  {
  }

  lemma {:induction false} CutOk(bs: seq<Bio>, n: nat)
    requires BiosOk(bs) && bs != [] && n < bs[0].size
    ensures BioOk(bs[0]) && View(Cut(bs[0], n)) == DropBio(View(bs[0]), n) && BiosOk([Cut(bs[0], n)] + bs[1..])
  {
    hide Sum, Cut, View, DropBio;
    CutView(bs[0], n);
  }

  lemma {:induction false} StopAgain(v: seq<Bvec>, n1: nat, n2: nat)
    requires n1 + n2 < Sum(v)
    ensures var (k1, r1) := Stop(v, n1); var (k2, r2) := Stop(DropVecs(v, n1), n2);
      && Stop(v, n1 + n2) == (if k2 == 0 then (k1, r1 + r2) else (k1 + k2, r2))
      && (r1 > 0 ==> (k2 == 0 <==> n2 < v[k1].len - r1))
    decreases |v|
  {
    hide Sum, Stop, DropVecs;
    StopStep(v, n1);
    if n1 == 0 {
      StopStep(DropVecs(v, 0), n2);
    } else if v[0].len <= n1 {
      StopStep(v, n1 + n2);
      StopAgain(v[1..], n1 - v[0].len, n2);
    } else {
      var r := DropVecs(v, n1);
      assert r[1..] == v[1..];
      StopStep(v, n1 + n2);
      StopStep(r, n2);
    }
  }

  lemma {:induction false} StopStep(v: seq<Bvec>, n: nat)
    requires n < Sum(v)
    ensures v != [] && Sum(v) == v[0].len + Sum(v[1..])
    ensures n == 0 ==> Stop(v, n) == (0, 0) && DropVecs(v, n) == v
    ensures 0 < n < v[0].len ==>
      Stop(v, n) == (0, n) && DropVecs(v, n) == [Bvec(v[0].offset + n, v[0].len - n)] + v[1..]
    ensures n > 0 && v[0].len <= n ==>
      var r := Stop(v[1..], n - v[0].len);
      Stop(v, n) == (r.0 + 1, r.1) && DropVecs(v, n) == DropVecs(v[1..], n - v[0].len)
  {
  }

  /** The first completion stops strictly inside a bvec that the second one finishes. */
  predicate SplitsBvec(v: seq<Bvec>, n1: nat, n2: nat)
    requires n1 < Sum(v)
  {
    var (k, r) := Stop(v, n1);
    r > 0 && n2 >= v[k].len - r
  }

  /** Two completions leave the very bio that one leaves, its finished bvecs included, exactly when no
      bvec is split. */
  lemma {:induction false} CutAgain(b: Bio, n1: nat, n2: nat)
    requires BioOk(b) && n1 + n2 < b.size && n2 % 512 == 0
    ensures BioOk(Cut(b, n1))
    ensures Cut(Cut(b, n1), n2) == Cut(b, n1 + n2) <==> !SplitsBvec(b.vecs[b.idx..], n1, n2)
  {
    hide DropVecs, Sum, Stop;
    var v, c := b.vecs[b.idx..], Cut(b, n1);
    CutView(b, n1);
    StopAgain(v, n1, n2);
    var (k1, r1) := Stop(v, n1);
    var (k2, r2) := Stop(DropVecs(v, n1), n2);
    assert c.vecs[c.idx..] == DropVecs(v, n1);
    assert (n1 + n2) / 512 == n1 / 512 + n2 / 512;
    var k := b.idx + k1;
    var d, e := Cut(c, n2), Cut(b, n1 + n2);
    if k2 == 0 {
      assert d.vecs == e.vecs;
    } else {
      assert d.vecs[k] == Bvec(b.vecs[k].offset + r1, b.vecs[k].len - r1) && e.vecs[k] == b.vecs[k];
      if r1 == 0 {
        assert c.vecs == b.vecs;
      }
    }
  }

  /** The same for a list of bios: only the bio in which the first completion stops can differ, and only
      if the second one does not end it. */
  ghost predicate SplitsIn(bs: seq<Bio>, n1: nat, n2: nat)
    requires BiosOk(bs)
  {
    if bs == [] then false
    else if n1 >= bs[0].size then SplitsIn(bs[1..], n1 - bs[0].size, n2)
    else n1 + n2 < bs[0].size && SplitsBvec(bs[0].vecs[bs[0].idx..], n1, n2)
  }

  lemma {:induction false} RemainingAgain(bs: seq<Bio>, n1: nat, n2: nat)
    requires BiosOk(bs) && n2 % 512 == 0
    ensures BiosOk(Remaining(bs, n1))
    ensures Remaining(Remaining(bs, n1), n2) == Remaining(bs, n1 + n2) <==> !SplitsIn(bs, n1, n2)
  {
    hide Cut, SplitsBvec, Sum, Remaining;
    RemainingViews(bs, n1);
    if bs == [] {
      RemainingNone(n1);
      RemainingNone(n2);
      RemainingNone(n1 + n2);
    } else if n1 >= bs[0].size {
      RemainingFirst(bs, n1);
      RemainingFirst(bs, n1 + n2);
      RemainingAgain(bs[1..], n1 - bs[0].size, n2);
    } else {
      var c := Remaining(bs, n1);
      RemainingInside(bs, n1);
      CutSize(bs[0], n1);
      assert c[1..] == bs[1..];
      if n1 + n2 < bs[0].size {
        RemainingInside(c, n2);
        RemainingInside(bs, n1 + n2);
        CutAgain(bs[0], n1, n2);
        assert Remaining(c, n2)[0] == Cut(c[0], n2) && Remaining(bs, n1 + n2)[0] == Cut(bs[0], n1 + n2);
      } else {
        RemainingFirst(c, n2);
        RemainingFirst(bs, n1 + n2);
      }
    }
  }

  lemma {:induction false} CutSize(b: Bio, n: nat)
    requires BioOk(b) && n < b.size
    ensures Cut(b, n).size == b.size - n
  {
  }

  /** A bvec of 1024 bytes with another one behind it: completed by halves it is left split. */
  lemma {:induction false} HalvesDiffer()
    ensures var b := Bio(0, 0, 1536, 0, [Bvec(0, 1024), Bvec(0, 512)]);
      BioOk(b) && BioOk(Cut(b, 512)) && Cut(Cut(b, 512), 512) != Cut(b, 1024)
  {
    var b := Bio(0, 0, 1536, 0, [Bvec(0, 1024), Bvec(0, 512)]);
    var v := b.vecs;
    assert v[0..] == v && v[1..] == [Bvec(0, 512)] && v[1..][1..] == [];
    assert Sum(v[1..]) == 512;
    assert Stop(v, 512) == (0, 512);
    CutAgain(b, 512, 512);
  }

  // ---------------------------------------------------------------------------
  // The loop
  // ---------------------------------------------------------------------------

  /** In the middle of the first bio: `next` of its bvecs are done, which hold `done` bytes. */
  ghost predicate Inside(v: seq<Bvec>, next: nat, done: nat, nr: nat) {
    && next <= |v| && nr < Sum(v[next..]) && Sum(v[next..]) == Sum(v) - done
    && var r := Stop(v[next..], nr); Stop(v, done + nr) == (next + r.0, r.1)
  }

  lemma {:induction false} InsideStart(v: seq<Bvec>, nr: nat)
    requires nr < Sum(v)
    ensures Inside(v, 0, 0, nr)
  {
    assert v[0..] == v;
  }

  /** Over one more whole bvec, or at the end. */
  lemma {:induction false} InsideStep(v: seq<Bvec>, next: nat, done: nat, nr: nat)
    requires Inside(v, next, done, nr)
    ensures next < |v|
    ensures nr > 0 && v[next].len <= nr ==> Inside(v, next + 1, done + v[next].len, nr - v[next].len)
    ensures nr == 0 || v[next].len > nr ==> Stop(v, done + nr) == (next, nr)
  {
    var w := v[next..];
    assert w != [] && w[1..] == v[next + 1..] && w[0] == v[next];
  }

  class Request {
    var bios: seq<Bio>        // req->bio and its successors
    var sector: nat           // hard_sector
    var ended: seq<nat>       // the bios for which bio_endio was called

    ghost predicate Valid()
      reads this
    {
      BiosOk(bios)
    }

    /** The end of __end_that_request_first: what is done of the first bio is taken off it. */
    method Shorten(done: nat, next: nat, nr: nat)
      requires Valid() && bios != [] && done < bios[0].size && Stop(bios[0].vecs[bios[0].idx..], done) == (next, nr)
      modifies this`bios
      ensures Valid() && bios == old(bios)[0 := Cut(old(bios)[0], done)]
    {
      hide Stop, Sum;
      var b := bios[0];
      var k := b.idx + next;
      CutView(b, done);
      var vecs := b.vecs[k := Bvec(b.vecs[k].offset + nr, b.vecs[k].len - nr)];
      bios := bios[0 := Bio(b.id, b.sector + done / 512, b.size - done, k, vecs)];
    }

    /** The rounds of the loop that end whole bios. */
    method EndWhole(n: nat) returns (nr: nat)
      requires Valid() && n > 0
      modifies this`bios, this`ended
      ensures Valid() && nr <= n && (nr > 0 ==> bios == [] || nr < bios[0].size)
      ensures Remaining(old(bios), n) == Remaining(bios, nr)
      ensures ended + Ended(Views(bios), nr) == old(ended) + Ended(Views(old(bios)), n)
    {
      hide Ended, Views, Cut, Sum;
      nr := n;
      while bios != [] && nr > 0 && nr >= bios[0].size
        invariant Valid() && nr <= n
        invariant Remaining(old(bios), n) == Remaining(bios, nr)
        invariant ended + Ended(Views(bios), nr) == old(ended) + Ended(Views(old(bios)), n)
        decreases |bios|
      {
        var b := bios[0];
        EndedFirst(bios, nr);
        ghost var later := Ended(Views(bios[1..]), nr - b.size);
        assert ended + ([b.id] + later) == ended + [b.id] + later;
        bios, ended, nr := bios[1..], ended + [b.id], nr - b.size;
      }
    }

    /** The rounds that go over whole bvecs of the first bio, and the shortening. */
    method EndPart(n: nat)
      requires Valid() && bios != [] && 0 < n < bios[0].size
      modifies this`bios
      ensures Valid() && bios == old(bios)[0 := Cut(old(bios)[0], n)]
    {
      hide Inside, Stop, Sum, Cut;
      var b := bios[0];
      ghost var v := b.vecs[b.idx..];
      var nr: nat, next: nat, done: nat := n, 0, 0;
      InsideStart(v, nr);
      InsideStep(v, next, done, nr);
      while nr > 0 && b.vecs[b.idx + next].len <= nr
        modifies {}
        invariant Inside(v, next, done, nr) && done + nr == n && next < |v|
        decreases |v| - next
      {
        InsideStep(v, next, done, nr);
        done, nr, next := done + b.vecs[b.idx + next].len, nr - b.vecs[b.idx + next].len, next + 1;
        InsideStep(v, next, done, nr);
      }
      InsideStep(v, next, done, nr);
      Shorten(n, next, nr);
    }

    /** __end_that_request_first. */
    method EndFirst(n: nat) returns (more: bool)
      requires Valid() && n > 0
      modifies this
      ensures Valid() && bios == Remaining(old(bios), n) && ended == old(ended) + Ended(Views(old(bios)), n)
      ensures more == (bios != []) && sector == old(sector) + if more then n / 512 else 0
    {
      hide Views, Cut, Sum;
      var nr := EndWhole(n);
      RestIs(bios, nr);
      if nr > 0 && bios != [] {
        EndPart(nr);
      }
      more := bios != [];
      if more {
        sector := sector + n / 512;
      }
    }
  }

  lemma {:induction false} EndedFirst(bs: seq<Bio>, n: nat)
    requires BiosOk(bs) && bs != [] && n >= bs[0].size
    ensures BiosOk(bs[1..]) && Ended(Views(bs), n) == [bs[0].id] + Ended(Views(bs[1..]), n - bs[0].size)
  {
    ViewsOk(bs);
  }

  /** What is left to do in the first bio. */
  lemma {:induction false} RestIs(bs: seq<Bio>, n: nat)
    requires BiosOk(bs) && (n > 0 ==> bs == [] || n < bs[0].size)
    ensures Ended(Views(bs), n) == []
    ensures Remaining(bs, n) == if n > 0 && bs != [] then bs[0 := Cut(bs[0], n)] else bs
  {
    hide Sum;
    ViewsOk(bs);
    if bs != [] {
      SizeSame(bs);
      if n == 0 {
        CutNothing(bs[0]);
        assert bs == [bs[0]] + bs[1..];
      } else {
        assert bs[0 := Cut(bs[0], n)] == [Cut(bs[0], n)] + bs[1..];
      }
    }
  }

  lemma {:induction false} CutNothing(b: Bio)
    requires BioOk(b)
    ensures Cut(b, 0) == b
  {
  }
}
