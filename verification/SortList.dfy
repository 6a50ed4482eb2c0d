/** The sort list of an I/O scheduler: requests sorted by sector, in place of a red-black tree. */
module SortList {
  datatype Rq = Rq(id: nat, sector: nat, nr: nat)

  ghost predicate Sorted(s: seq<Rq>) {
    forall i, j :: 0 <= i < j < |s| ==> s[i].sector < s[j].sector
  }

  function Without(s: seq<Rq>, i: nat): seq<Rq>
    requires i < |s|
  {
    s[..i] + s[i + 1..]
  }

  function Insert(s: seq<Rq>, k: nat, r: Rq): seq<Rq>
    requires k <= |s|
  {
    s[..k] + [r] + s[k..]
  }

  lemma {:induction false} WithoutMultiset(s: seq<Rq>, i: nat)
    requires i < |s|
    ensures multiset(Without(s, i)) == multiset(s) - multiset{s[i]}
  {
    assert s == s[..i] + [s[i]] + s[i + 1..];
  }

  /** The place of a request in the tree. */
  ghost predicate Between(s: seq<Rq>, k: nat, r: Rq) {
    && k <= |s| && (forall j :: 0 <= j < k ==> s[j].sector < r.sector)
    && (forall j :: k <= j < |s| ==> r.sector < s[j].sector)
  }

  lemma {:induction false} InsertSorted(s: seq<Rq>, k: nat, r: Rq)
    requires Sorted(s) && Between(s, k, r)
    ensures Sorted(Insert(s, k, r)) && Insert(s, k, r)[k] == r && multiset(Insert(s, k, r)) == multiset(s) + multiset{r}
  {
    assert s == s[..k] + s[k..];
  }

  lemma {:induction false} WithoutOrder(s: seq<Rq>, i: nat)
    requires Sorted(s) && i < |s|
    ensures Sorted(Without(s, i))
  {
  }

  lemma {:induction false} WithoutMembers(s: seq<Rq>, i: nat)
    requires i < |s|
    ensures forall x :: x in Without(s, i) ==> x in s
    ensures forall x :: x in s && x != s[i] ==> x in Without(s, i)
  {
    forall x | x in s && x != s[i]
      ensures x in Without(s, i)
    {
      var j :| 0 <= j < |s| && s[j] == x;
      assert Without(s, i)[if j < i then j else j - 1] == x;
    }
  }

  /** elv_rb_add: where the request goes, or the request that is in its way. */
  method Place(s: seq<Rq>, r: Rq) returns (k: nat, alias: bool)
    requires Sorted(s)
    ensures if alias then k < |s| && s[k].sector == r.sector else Between(s, k, r)
    ensures alias <==> exists x :: x in s && x.sector == r.sector
  {
    k := 0;
    while k < |s| && s[k].sector < r.sector
      invariant k <= |s| && forall j :: 0 <= j < k ==> s[j].sector < r.sector
    {
      k := k + 1;
    }
    alias := k < |s| && s[k].sector == r.sector;
    assert alias ==> s[k] in s;
  }

  /** A list without the first occurrence of a request. */
  function Removed(s: seq<Rq>, r: Rq): seq<Rq> {
    if s == [] then [] else if s[0] == r then s[1..] else [s[0]] + Removed(s[1..], r)
  }

  lemma {:induction false} RemovedIs(s: seq<Rq>, i: nat)
    requires i < |s| && s[i] !in s[..i]
    ensures Removed(s, s[i]) == Without(s, i)
  {
    if i > 0 {
      assert s[0] in s[..i];
      assert forall x :: x in s[1..][..i - 1] ==> x in s[..i];
      RemovedIs(s[1..], i - 1);
    }
  }

  /** The first place of a request in a list. */
  method Find(s: seq<Rq>, r: Rq) returns (i: nat)
    requires r in s
    ensures i < |s| && s[i] == r && r !in s[..i]
  {
    i := 0;
    while s[i] != r
      invariant i < |s| && r !in s[..i]
      decreases |s| - i
    {
      i := i + 1;
    }
  }

  lemma {:induction false} InsertMultiset(s: seq<Rq>, k: nat, r: Rq)
    requires k <= |s|
    ensures multiset(Insert(s, k, r)) == multiset(s) + multiset{r}
  {
    assert s == s[..k] + s[k..];
  }

  /** A list with another request in the first place of `x`. */
  function Replaced(s: seq<Rq>, x: Rq, r: Rq): seq<Rq> {
    if s == [] then [] else if s[0] == x then [r] + s[1..] else [s[0]] + Replaced(s[1..], x, r)
  }

  /** Put behind a request that is then removed is put in its place. */
  lemma {:induction false} TakesPlace(s: seq<Rq>, j: nat, r: Rq)
    requires j < |s| && s[j] !in s[..j]
    ensures Removed(Insert(s, j + 1, r), s[j]) == Replaced(s, s[j], r)
  {
    var f := Insert(s, j + 1, r);
    assert f[0] == s[0];
    if j == 0 {
      assert f[1..] == [r] + s[1..];
    } else {
      assert s[0] in s[..j];
      assert forall x :: x in s[1..][..j - 1] ==> x in s[..j];
      TakesPlace(s[1..], j - 1, r);
      assert f[1..] == Insert(s[1..], j, r);
    }
  }

  lemma {:induction false} ReplacedIs(s: seq<Rq>, k: nat, r: Rq)
    requires k < |s| && s[k] !in s[..k]
    ensures Replaced(s, s[k], r) == s[k := r] && multiset(s[k := r]) == multiset(s) - multiset{s[k]} + multiset{r}
  {
    var t := s[k := r];
    if k > 0 {
      assert s[0] in s[..k];
      assert forall x :: x in s[1..][..k - 1] ==> x in s[..k];
      ReplacedIs(s[1..], k - 1, r);
      assert t[1..] == s[1..][k - 1 := r];
    }
  }

  /** list_move of `r` behind `x`. */
  method MoveBehind(s: seq<Rq>, r: Rq, x: Rq) returns (f: seq<Rq>)
    requires r in multiset(s) && x in multiset(s) - multiset{r}
    ensures multiset(f) == multiset(s)
    ensures Removed(f, x) == Replaced(Removed(s, r), x, r)
  {
    hide Without, Removed;
    var k := Find(s, r);
    RemovedIs(s, k);
    WithoutMultiset(s, k);
    var rest := Without(s, k);
    assert x in multiset(rest);
    var j := Find(rest, x);
    InsertMultiset(rest, j + 1, r);
    f := Insert(rest, j + 1, r);
    TakesPlace(rest, j, r);
  }

  lemma {:induction false} InsertPlace(s: seq<Rq>, k: nat, r: Rq)
    requires Sorted(s) && Between(s, k, r)
    ensures k <= |s| && Sorted(Insert(s, k, r)) && multiset(Insert(s, k, r)) == multiset(s) + multiset{r}
    ensures |Insert(s, k, r)| == |s| + 1 && r in Insert(s, k, r) && forall x :: x in s ==> x in Insert(s, k, r)
  {
    InsertSorted(s, k, r);
    assert s == s[..k] + s[k..];
    assert Insert(s, k, r)[k] == r;
  }

  lemma {:induction false} RemovedMultiset(s: seq<Rq>, x: Rq)
    requires x in s
    ensures multiset(Removed(s, x)) == multiset(s) - multiset{x}
  {
    assert s == [s[0]] + s[1..];
    if s[0] != x {
      RemovedMultiset(s[1..], x);
    }
  }

  lemma {:induction false} WithoutLength(s: seq<Rq>, i: nat)
    requires i < |s|
    ensures |Without(s, i)| == |s| - 1
  {
  }

  lemma {:induction false} WithoutMember(s: seq<Rq>, i: nat, j: nat)
    requires i < |s| && j < |s| && i != j
    ensures s[j] in Without(s, i)
  {
    assert Without(s, i)[if j < i then j else j - 1] == s[j];
  }

  /** Only one request can begin at a sector. */
  lemma {:induction false} AliasGone(s: seq<Rq>, k: nat, sector: nat)
    requires Sorted(s) && k < |s| && s[k].sector == sector
    ensures forall x :: x in Without(s, k) ==> x.sector != sector
  {
  }

  /** Another request than the one at `i` begins at the sector. */
  ghost predicate Aliased(s: seq<Rq>, i: nat, sector: nat) {
    exists j :: 0 <= j < |s| && j != i && s[j].sector == sector
  }

  lemma {:induction false} AliasedIs(s: seq<Rq>, i: nat, sector: nat)
    requires i < |s|
    ensures Aliased(s, i, sector) <==> exists x :: x in Without(s, i) && x.sector == sector
  {
    var w := Without(s, i);
    if Aliased(s, i, sector) {
      var j :| 0 <= j < |s| && j != i && s[j].sector == sector;
      WithoutMember(s, i, j);
    }
    if x :| x in w && x.sector == sector {
      var k :| 0 <= k < |w| && w[k] == x;
      assert s[if k < i then k else k + 1] == x;
    }
  }

  /** Taking a request out of both lists while `r` is off the tree. */
  lemma {:induction false} PartedLists(f: seq<Rq>, s: seq<Rq>, k: nat, r: Rq, out: seq<Rq>)
    requires k < |s| && multiset(f) == multiset(s) + multiset{r}
    ensures s[k] in f && multiset(Removed(f, s[k])) == multiset(Without(s, k)) + multiset{r}
    ensures multiset(Without(s, k)) + multiset(out + [s[k]]) == multiset(s) + multiset(out)
  {
    hide Without, Removed;
    var x := s[k];
    assert x in multiset(s);
    assert x in multiset(f);
    RemovedMultiset(f, x);
    WithoutMultiset(s, k);
    PartedCount(multiset(s), x, r, multiset(out));
  }

  lemma {:induction false} PartedCount(s: multiset<Rq>, x: Rq, r: Rq, out: multiset<Rq>)
    requires x in s
    ensures s + multiset{r} - multiset{x} == s - multiset{x} + multiset{r}
    ensures s - multiset{x} + (out + multiset{x}) == s + out
  {
  }

  lemma {:induction false} FrontCount(s: multiset<Rq>, r: Rq, r': Rq, out: multiset<Rq>)
    requires r in s
    ensures s - multiset{r} + out + multiset{r'} == s + out - multiset{r} + multiset{r'}
  {
  }
}
