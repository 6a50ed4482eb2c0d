/**
  The queues of the completely fair scheduler: one per process group, each with a sort list, a
  FIFO and a next request, and a service tree of the queues that have requests, with its first
  one cached. Times and slices only make the keys, which are arbitrary here.
*/
module Cfq {
  import opened Options
  import opened SortList

  datatype Class = Rt | Be | Idle

  /** A cfq_queue. */
  datatype Cfqq = Cfqq(cls: Class, key: nat, onRr: bool, sort: seq<Rq>, fifo: seq<Rq>, next: Option<Rq>, out: seq<Rq>)

  /** The queue is served before the other, as the descent in cfq_service_tree_add compares. */
  predicate Less(c1: Class, k1: nat, c2: Class, k2: nat) {
    if c1.Rt? != c2.Rt? then c1.Rt?
    else if c1.Idle? != c2.Idle? then c2.Idle?
    else k1 < k2
  }

  lemma LessOrder(c1: Class, k1: nat, c2: Class, k2: nat, c3: Class, k3: nat)
    ensures !Less(c1, k1, c1, k1)
    ensures Less(c1, k1, c2, k2) ==> !Less(c2, k2, c1, k1)
    ensures !Less(c2, k2, c1, k1) && !Less(c3, k3, c2, k2) ==> !Less(c3, k3, c1, k1)
  {
  }

  // ---------------------------------------------------------------------------
  // The service tree
  // ---------------------------------------------------------------------------

  ghost predicate Distinct(s: seq<nat>) {
    forall i, j :: 0 <= i < j < |s| ==> s[i] != s[j]
  }

  predicate Ahead(qs: map<nat, Cfqq>, a: nat, b: nat)
    requires a in qs && b in qs
  {
    Less(qs[a].cls, qs[a].key, qs[b].cls, qs[b].key)
  }

  /** The tree holds the queues on the round robin, sorted; the cached first one is right or absent. */
  ghost predicate TreeOk(qs: map<nat, Cfqq>, tree: seq<nat>, left: Option<nat>) {
    && Distinct(tree) && (forall c :: c in tree ==> c in qs && qs[c].onRr)
    && (forall c :: c in qs && qs[c].onRr ==> c in tree)
    && (left.Some? ==> tree != [] && left.value == tree[0])
    && (forall i, j :: 0 <= i < j < |tree| ==> !Ahead(qs, tree[j], tree[i]))
  }

  /** Where a queue goes: behind those that it is not served before. */
  method Descend(qs: map<nat, Cfqq>, tree: seq<nat>, cls: Class, key: nat) returns (k: nat)
    requires forall c :: c in tree ==> c in qs
    requires forall i, j :: 0 <= i < j < |tree| ==> !Ahead(qs, tree[j], tree[i])
    ensures k <= |tree|
    ensures forall i :: 0 <= i < k ==> !Less(cls, key, qs[tree[i]].cls, qs[tree[i]].key)
    ensures forall i :: k <= i < |tree| ==> Less(cls, key, qs[tree[i]].cls, qs[tree[i]].key)
  {
    k := |tree|;
    while k > 0 && Less(cls, key, qs[tree[k - 1]].cls, qs[tree[k - 1]].key)
      invariant k <= |tree| && forall i :: k <= i < |tree| ==> Less(cls, key, qs[tree[i]].cls, qs[tree[i]].key)
    {
      k := k - 1;
    }
    forall i | 0 <= i < k
      ensures !Less(cls, key, qs[tree[i]].cls, qs[tree[i]].key)
    {
      var a, b := qs[tree[i]], qs[tree[k - 1]];
      LessOrder(a.cls, a.key, b.cls, b.key, cls, key);
      assert i < k - 1 ==> !Ahead(qs, tree[k - 1], tree[i]);
    }
  }

  function Cut(s: seq<nat>, i: nat): seq<nat>
    requires i < |s|
  {
    s[..i] + s[i + 1..]
  }

  /** cfq_rb_erase keeps the rest of the tree. */
  lemma {:induction false} EraseOk(qs: map<nat, Cfqq>, tree: seq<nat>, left: Option<nat>, i: nat, q: Cfqq)
    requires TreeOk(qs, tree, left) && i < |tree| && !q.onRr
    ensures TreeOk(qs[tree[i] := q], Cut(tree, i), if left == Some(tree[i]) then None else left)
  {
    var t, c := Cut(tree, i), tree[i];
    var qs' := qs[c := q];
    assert forall j :: 0 <= j < |t| ==> t[j] == tree[if j < i then j else j + 1];
    forall x | x in qs' && qs'[x].onRr
      ensures x in t
    {
      var j :| 0 <= j < |tree| && tree[j] == x;
      assert t[if j < i then j else j - 1] == x;
    }
  }

  /** Inserting a queue at the place where the descent ends. */
  lemma {:induction false} InsertOk(qs: map<nat, Cfqq>, tree: seq<nat>, left: Option<nat>, k: nat, c: nat, q: Cfqq)
    requires TreeOk(qs, tree, left) && c !in tree && q.onRr && k <= |tree|
    requires forall i :: 0 <= i < k ==> !Less(q.cls, q.key, qs[tree[i]].cls, qs[tree[i]].key)
    requires forall i :: k <= i < |tree| ==> Less(q.cls, q.key, qs[tree[i]].cls, qs[tree[i]].key)
    ensures TreeOk(qs[c := q], tree[..k] + [c] + tree[k..], if k == 0 then Some(c) else left)
  {
    var t := tree[..k] + [c] + tree[k..];
    var qs' := qs[c := q];
    assert t[k] == c;
    assert forall j :: 0 <= j < |t| && j != k ==> t[j] == tree[if j < k then j else j - 1];
    forall x | x in qs' && qs'[x].onRr
      ensures x in t
    {
      if x != c {
        var j :| 0 <= j < |tree| && tree[j] == x;
        assert t[if j < k then j else j + 1] == x;
      }
    }
    InsertSortedTree(qs, tree, k, c, q);
  }

  lemma {:induction false} InsertSortedTree(qs: map<nat, Cfqq>, tree: seq<nat>, k: nat, c: nat, q: Cfqq)
    requires k <= |tree| && c !in tree && forall x :: x in tree ==> x in qs
    requires forall i, j :: 0 <= i < j < |tree| ==> !Ahead(qs, tree[j], tree[i])
    requires forall i :: 0 <= i < k ==> !Less(q.cls, q.key, qs[tree[i]].cls, qs[tree[i]].key)
    requires forall i :: k <= i < |tree| ==> Less(q.cls, q.key, qs[tree[i]].cls, qs[tree[i]].key)
    ensures var t, qs' := tree[..k] + [c] + tree[k..], qs[c := q];
      (forall x :: x in t ==> x in qs') && forall i, j :: 0 <= i < j < |t| ==> !Ahead(qs', t[j], t[i])
  {
    hide Less;
    var t, qs' := tree[..k] + [c] + tree[k..], qs[c := q];
    forall i, j | 0 <= i < j < |t|
      ensures !Ahead(qs', t[j], t[i])
    {
      if j == k {
        assert t[i] == tree[i] && !Less(q.cls, q.key, qs[tree[i]].cls, qs[tree[i]].key);
      } else if i == k {
        var b := qs[tree[j - 1]];
        assert t[j] == tree[j - 1];
        LessOrder(q.cls, q.key, b.cls, b.key, b.cls, b.key);
      } else {
        var x, y := tree[if i < k then i else i - 1], tree[if j < k then j else j - 1];
        assert t[i] == x && t[j] == y && !Ahead(qs, y, x);
      }
    }
  }

  /** A new queue is not on the tree. */
  lemma {:induction false} NewOk(qs: map<nat, Cfqq>, tree: seq<nat>, left: Option<nat>, c: nat, q: Cfqq)
    requires TreeOk(qs, tree, left) && c !in qs && !q.onRr
    ensures TreeOk(qs[c := q], tree, left)
  {
    var qs' := qs[c := q];
    forall i, j | 0 <= i < j < |tree|
      ensures !Ahead(qs', tree[j], tree[i])
    {
      assert !Ahead(qs, tree[j], tree[i]);
    }
  }

  /** Only the class, the key and the membership of a queue matter to the tree. */
  lemma {:induction false} SameOk(qs: map<nat, Cfqq>, tree: seq<nat>, left: Option<nat>, c: nat, q: Cfqq)
    requires TreeOk(qs, tree, left) && c in qs && q.cls == qs[c].cls && q.key == qs[c].key && q.onRr == qs[c].onRr
    ensures TreeOk(qs[c := q], tree, left)
  {
    var qs' := qs[c := q];
    forall i, j | 0 <= i < j < |tree|
      ensures !Ahead(qs', tree[j], tree[i])
    {
      assert !Ahead(qs, tree[j], tree[i]);
    }
  }

  // ---------------------------------------------------------------------------
  // One queue
  // ---------------------------------------------------------------------------

  /** The sort list and the FIFO hold the same requests, and there is a next one exactly when there
      are any. */
  ghost predicate QueueOk(q: Cfqq) {
    && Sorted(q.sort) && multiset(q.fifo) == multiset(q.sort)
    && (q.next.None? <==> q.sort == []) && (q.next.Some? ==> q.next.value in q.sort)
  }

  /** cfq_choose_req; `prefer` decides between two different requests. */
  function Choose(prefer: (Rq, Rq) -> bool, r1: Option<Rq>, r2: Option<Rq>): (r: Option<Rq>)
    ensures (r == r1 || r == r2) && (r.None? <==> r1.None? && r2.None?)
  {
    if r1.None? || r1 == r2 then r2 else if r2.None? then r1 else if prefer(r1.value, r2.value) then r1 else r2
  }

  /** cfq_find_next_rq. */
  function FindNext(prefer: (Rq, Rq) -> bool, s: seq<Rq>, i: nat): Option<Rq>
    requires i < |s|
  {
    var prev := if i > 0 then Some(s[i - 1]) else None;
    var next := if i + 1 < |s| then Some(s[i + 1]) else if i > 0 then Some(s[0]) else None;
    Choose(prefer, next, prev)
  }

  lemma {:induction false} FindNextStays(prefer: (Rq, Rq) -> bool, s: seq<Rq>, i: nat)
    requires i < |s|
    ensures FindNext(prefer, s, i).None? <==> Without(s, i) == []
    ensures FindNext(prefer, s, i).Some? ==> FindNext(prefer, s, i).value in Without(s, i)
  {
    var w := Without(s, i);
    assert i + 1 < |s| ==> w[i] == s[i + 1];
    assert i > 0 ==> w[i - 1] == s[i - 1] && w[0] == s[0];
  }

  /** The queue part of cfq_remove_request. */
  method TakeOut(q: Cfqq, i: nat, prefer: (Rq, Rq) -> bool) returns (q': Cfqq)
    requires QueueOk(q) && i < |q.sort|
    ensures QueueOk(q') && q'.sort == Without(q.sort, i) && q'.fifo == Removed(q.fifo, q.sort[i])
    ensures q'.next == if q.next == Some(q.sort[i]) then FindNext(prefer, q.sort, i) else q.next
    ensures q' == q.(sort := q'.sort, fifo := q'.fifo, next := q'.next)
  {
    hide Without, Sorted, FindNext, Removed;
    var r := q.sort[i];
    assert r in multiset(q.sort);
    var k := Find(q.fifo, r);
    RemovedIs(q.fifo, k);
    WithoutMultiset(q.fifo, k);
    WithoutMultiset(q.sort, i);
    WithoutOrder(q.sort, i);
    WithoutMembers(q.sort, i);
    FindNextStays(prefer, q.sort, i);
    var next := if q.next == Some(r) then FindNext(prefer, q.sort, i) else q.next;
    q' := q.(sort := Without(q.sort, i), fifo := Without(q.fifo, k), next := next);
  }

  /** The queue in the middle of cfq_reposition_rq_rb: `r` is in the FIFO but not in the tree. */
  ghost predicate OffTree(q: Cfqq, r: Rq) {
    && Sorted(q.sort) && multiset(q.fifo) == multiset(q.sort) + multiset{r}
    && (q.next.Some? ==> q.next.value in q.sort || q.next.value == r)
  }

  /** elv_rb_del for a front merge, which has made the request at `i` into `r`. */
  method TakeFromTree(q: Cfqq, i: nat, r: Rq) returns (q': Cfqq)
    requires QueueOk(q) && i < |q.sort|
    ensures OffTree(q', r) && q'.sort == Without(q.sort, i)
    ensures multiset(q'.sort) == multiset(q.sort) - multiset{q.sort[i]}
    ensures q'.fifo == Replaced(q.fifo, q.sort[i], r)
    ensures q'.next == if q.next == Some(q.sort[i]) then Some(r) else q.next
    ensures q' == q.(sort := q'.sort, fifo := q'.fifo, next := q'.next)
  {
    hide Sorted, Without, Replaced;
    assert q.sort[i] in multiset(q.fifo) by { assert q.sort[i] in multiset(q.sort); }
    var k := Find(q.fifo, q.sort[i]);
    ReplacedIs(q.fifo, k, r);
    WithoutOrder(q.sort, i);
    WithoutMultiset(q.sort, i);
    WithoutMembers(q.sort, i);
    var next := if q.next == Some(q.sort[i]) then Some(r) else q.next;
    q' := q.(sort := Without(q.sort, i), fifo := q.fifo[k := r], next := next);
  }

  /** The queue part of cfq_dispatch_insert meanwhile, of the request at `k`. */
  method PartAlias(q: Cfqq, k: nat, r: Rq, prefer: (Rq, Rq) -> bool) returns (q': Cfqq)
    requires OffTree(q, r) && k < |q.sort| && q.sort[k].sector == r.sector
    ensures OffTree(q', r) && q'.sort == Without(q.sort, k) && q'.fifo == Removed(q.fifo, q.sort[k])
    ensures q'.out == q.out + [q.sort[k]]
    ensures multiset(q'.sort) + multiset(q'.out) == multiset(q.sort) + multiset(q.out)
    ensures forall x :: x in q'.sort ==> x.sector != r.sector
    ensures q' == q.(sort := q'.sort, fifo := q'.fifo, next := q'.next, out := q'.out)
  {
    hide Sorted, Without, Removed, FindNext;
    var x := q.sort[k];
    PartedLists(q.fifo, q.sort, k, r, q.out);
    WithoutOrder(q.sort, k);
    WithoutMembers(q.sort, k);
    AliasGone(q.sort, k, r.sector);
    FindNextStays(prefer, q.sort, k);
    var next := if q.next == Some(x) then FindNext(prefer, q.sort, k) else q.next;
    var j := Find(q.fifo, x);
    RemovedIs(q.fifo, j);
    q' := q.(sort := Without(q.sort, k), fifo := Without(q.fifo, j), next := next, out := q.out + [x]);
  }

  /** The end of cfq_add_rq_rb puts the queue in order again. */
  lemma {:induction false} BackOnTree(q: Cfqq, k: nat, r: Rq, prefer: (Rq, Rq) -> bool)
    requires OffTree(q, r) && Between(q.sort, k, r)
    ensures k <= |q.sort|
    ensures var q' := q.(sort := Insert(q.sort, k, r), next := Choose(prefer, q.next, Some(r)));
      && QueueOk(q') && r in q'.sort && q'.sort != [] && |q'.sort| == |q.sort| + 1
      && multiset(q'.sort) == multiset(q.sort) + multiset{r}
  {
    hide Sorted, Insert, Between;
    InsertPlace(q.sort, k, r);
  }

  /** A front merge made the request at `i` begin at `sector`. */
  ghost predicate FrontMergedTo(q: Cfqq, q': Cfqq, i: nat, sector: nat, nr: nat)
    requires i < |q.sort|
  {
    var r := q.sort[i];
    var r' := r.(sector := sector, nr := nr);
    && r' in q'.sort && q.out <= q'.out
    && multiset(q'.sort) + multiset(q'.out) == multiset(q.sort) + multiset(q.out) - multiset{r} + multiset{r'}
    && if Aliased(q.sort, i, sector) then
         && |q'.out| == |q.out| + 1 && q'.out[|q.out|].sector == sector
         && q'.fifo == Removed(Replaced(q.fifo, r, r'), q'.out[|q.out|])
       else
         q'.out == q.out && q'.fifo == Replaced(q.fifo, r, r')
  }

  /** From the queue without the request, through the dispatch of an alias, to the queue with it. */
  lemma {:induction false} FrontIs(q: Cfqq, q1: Cfqq, q': Cfqq, i: nat, r: Rq)
    requires i < |q.sort| && r == q.sort[i].(sector := r.sector, nr := r.nr) && r in q'.sort
    requires multiset(q1.sort) == multiset(q.sort) - multiset{q.sort[i]} && q1.out == q.out
    requires q1.fifo == Replaced(q.fifo, q.sort[i], r)
    requires multiset(q'.sort) + multiset(q'.out) == multiset(q1.sort) + multiset(q1.out) + multiset{r}
    requires if Aliased(q.sort, i, r.sector) then
        && |q'.out| == |q1.out| + 1 && q1.out <= q'.out && q'.out[|q1.out|].sector == r.sector
        && q'.fifo == Removed(q1.fifo, q'.out[|q1.out|])
      else q'.out == q1.out && q'.fifo == q1.fifo
    ensures FrontMergedTo(q, q', i, r.sector, r.nr)
  {
    hide Removed, Replaced, Aliased;
    FrontCount(multiset(q.sort), q.sort[i], r, multiset(q.out));
  }

  // ---------------------------------------------------------------------------
  // The scheduler
  // ---------------------------------------------------------------------------

  /** Every queue is in order, and on the round robin exactly when it has requests. */
  ghost predicate AllOk(qs: map<nat, Cfqq>) {
    forall c :: c in qs ==> QueueOk(qs[c]) && (qs[c].onRr <==> qs[c].sort != [])
  }

  lemma {:induction false} AllOkUpdate(qs: map<nat, Cfqq>, c: nat, q: Cfqq)
    requires AllOk(qs) && QueueOk(q) && (q.onRr <==> q.sort != [])
    ensures AllOk(qs[c := q])
  {
  }

  lemma {:induction false} AllOkMeans(qs: map<nat, Cfqq>, c: nat)
    requires AllOk(qs) && c in qs
    ensures QueueOk(qs[c]) && (qs[c].onRr <==> qs[c].sort != [])
  {
  }

  function Requests(qs: map<nat, Cfqq>, ids: seq<nat>): nat
    requires forall c :: c in ids ==> c in qs
  {
    if ids == [] then 0 else Requests(qs, ids[..|ids| - 1]) + |qs[ids[|ids| - 1]].sort|
  }

  lemma {:induction false} RequestsSame(qs: map<nat, Cfqq>, qs': map<nat, Cfqq>, ids: seq<nat>)
    requires forall c :: c in ids ==> c in qs && c in qs' && |qs[c].sort| == |qs'[c].sort|
    ensures Requests(qs, ids) == Requests(qs', ids)
  {
    if ids != [] {
      RequestsSame(qs, qs', ids[..|ids| - 1]);
    }
  }

  /** Only one queue changes. */
  lemma {:induction false} RequestsChange(qs: map<nat, Cfqq>, qs': map<nat, Cfqq>, ids: seq<nat>, c: nat)
    requires Distinct(ids) && c in ids && (forall x :: x in ids ==> x in qs && x in qs')
    requires forall x :: x in ids && x != c ==> |qs'[x].sort| == |qs[x].sort|
    ensures Requests(qs', ids) == Requests(qs, ids) - |qs[c].sort| + |qs'[c].sort|
  {
    var n := |ids| - 1;
    if ids[n] == c {
      assert c !in ids[..n];
      RequestsSame(qs, qs', ids[..n]);
    } else {
      RequestsChange(qs, qs', ids[..n], c);
    }
  }

  lemma {:induction false} RequestsNew(qs: map<nat, Cfqq>, ids: seq<nat>, c: nat, q: Cfqq)
    requires Distinct(ids) && (forall x :: x in ids <==> x in qs) && c !in qs && q.sort == []
    ensures var qs', ids' := qs[c := q], ids + [c];
      && Distinct(ids') && (forall x :: x in ids' <==> x in qs') && Requests(qs', ids') == Requests(qs, ids)
  {
    var qs', ids' := qs[c := q], ids + [c];
    assert ids'[..|ids|] == ids;
    RequestsSame(qs, qs', ids);
    assert forall x :: x in ids' <==> x in ids || x == c;
  }

  lemma {:induction false} RequestsNone(qs: map<nat, Cfqq>, ids: seq<nat>)
    requires forall c :: c in ids ==> c in qs && qs[c].sort == []
    ensures Requests(qs, ids) == 0
  {
    if ids != [] {
      RequestsNone(qs, ids[..|ids| - 1]);
    }
  }

  class Scheduler {
    var qs: map<nat, Cfqq>
    var tree: seq<nat>         // service_tree
    var left: Option<nat>      // its cached first node
    var busy: nat              // busy_queues
    var nrSorted: nat          // q->nr_sorted
    ghost var ids: seq<nat>    // the queues, in the order they were made
    const prefer: (Rq, Rq) -> bool

    constructor (prefer: (Rq, Rq) -> bool)
      ensures Valid() && qs == map[] && tree == []
    {
      qs, tree, left, busy, nrSorted, ids := map[], [], None, 0, 0, [];
      this.prefer := prefer;
    }

    ghost predicate Shape()
      reads this
    {
      TreeOk(qs, tree, left) && busy == |tree|
    }

    /** On the round robin exactly when there are requests. */
    ghost predicate Valid()
      reads this
    {
      Shape() && AllOk(qs) && Counted()
    }

    /** nr_sorted is the number of requests in the queues. */
    ghost predicate Counted()
      reads this
    {
      Distinct(ids) && (forall c :: c in ids <==> c in qs) && nrSorted == Requests(qs, ids)
    }

    /** A new queue, without requests. */
    method NewQueue(c: nat, cls: Class)
      requires Valid() && c !in qs
      modifies this`qs, this`ids
      ensures Valid() && qs == old(qs)[c := Cfqq(cls, 0, false, [], [], None, [])]
    {
      hide TreeOk, AllOk, Requests, Distinct;
      var q := Cfqq(cls, 0, false, [], [], None, []);
      RequestsNew(qs, ids, c, q);
      AllOkUpdate(qs, c, q);
      NewOk(qs, tree, left, c, q);
      ids := ids + [c];
      qs := qs[c := q];
    }

    /** cfq_rb_first. */
    method First() returns (c: Option<nat>)
      requires Shape()
      modifies this`left
      ensures Shape() && c == if tree == [] then None else Some(tree[0])
    {
      if left.None? {
        left := if tree == [] then None else Some(tree[0]);
      }
      c := left;
    }

    method FindInTree(c: nat) returns (i: nat)
      requires c in tree
      ensures i < |tree| && tree[i] == c
    {
      i := 0;
      while tree[i] != c
        invariant i < |tree| && c !in tree[..i]
        decreases |tree| - i
      {
        i := i + 1;
      }
    }

    /** cfq_add_cfqq_rr and cfq_service_tree_add of a queue that is not on the tree. */
    method AddRr(c: nat, key: nat)
      requires Shape() && c in qs && !qs[c].onRr
      modifies this`qs, this`tree, this`left, this`busy
      ensures Shape() && qs == old(qs)[c := old(qs)[c].(onRr := true, key := key)] && busy == old(busy) + 1
      ensures c in tree && forall x :: x in old(tree) ==> x in tree
    {
      hide TreeOk;
      TreeMeans(qs, tree, left);
      var q := qs[c].(onRr := true, key := key);
      var k := Descend(qs, tree, q.cls, key);
      InsertOk(qs, tree, left, k, c, q);
      if k == 0 {
        left := Some(c);
      }
      tree := tree[..k] + [c] + tree[k..];
      assert tree[k] == c;
      qs := qs[c := q];
      busy := busy + 1;
      TreeMeans(qs, tree, left);
    }

    /** cfq_service_tree_add of a queue on the tree: it is moved to its new place. */
    method Resort(c: nat, key: nat)
      requires Shape() && c in qs && qs[c].onRr
      modifies this`qs, this`tree, this`left, this`busy
      ensures Shape() && qs == old(qs)[c := old(qs)[c].(key := key)] && busy == old(busy)
    {
      if key == qs[c].key {
        return;
      }
      DelRr(c);
      AddRr(c, key);
    }

    /** cfq_del_cfqq_rr, with cfq_rb_erase. */
    method DelRr(c: nat)
      requires Shape() && c in qs && qs[c].onRr
      modifies this`qs, this`tree, this`left, this`busy
      ensures Shape() && qs == old(qs)[c := old(qs)[c].(onRr := false)] && busy == old(busy) - 1
      ensures |tree| == |old(tree)| - 1
    {
      hide TreeOk;
      TreeMeans(qs, tree, left);
      var i := FindInTree(c);
      var q := qs[c].(onRr := false);
      EraseOk(qs, tree, left, i, q);
      if left == Some(c) {
        left := None;
      }
      tree := Cut(tree, i);
      qs := qs[c := q];
      busy := busy - 1;
    }

    /** cfq_remove_request of the request at `i` of a queue's sort list. */
    method RemoveRequest(c: nat, i: nat)
      requires Valid() && c in qs && i < |qs[c].sort|
      modifies this`qs, this`tree, this`left, this`busy, this`nrSorted
      ensures Valid() && c in qs && qs[c].sort == Without(old(qs)[c].sort, i) && qs[c].out == old(qs)[c].out
      ensures qs[c].fifo == Removed(old(qs)[c].fifo, old(qs)[c].sort[i])
      ensures qs[c].next ==
        if old(qs)[c].next == Some(old(qs)[c].sort[i]) then FindNext(prefer, old(qs)[c].sort, i) else old(qs)[c].next
      ensures forall x :: x != c && x in old(qs) ==> x in qs && qs[x] == old(qs)[x]
      ensures qs.Keys == old(qs).Keys && (qs[c].sort == [] ==> |tree| == |old(tree)| - 1)
      ensures qs[c].sort != [] ==> tree == old(tree)
    {
      hide TreeOk, QueueOk, AllOk, Without, Removed, FindNext, Requests, Distinct;
      ghost var before := qs;
      AllOkMeans(qs, c);
      WithoutShorter(qs[c].sort, i);
      SortedSome(qs, ids, c);
      var q := TakeOut(qs[c], i, prefer);
      SameOk(qs, tree, left, c, q);
      qs := qs[c := q];
      if q.onRr && q.sort == [] {
        DelRr(c);
        QueueSame(q, qs[c]);
      }
      AllOkUpdate(before, c, qs[c]);
      assert qs == before[c := qs[c]];
      RequestsChange(before, qs, ids, c);
      nrSorted := nrSorted - 1;
    }

    /** cfq_merged_requests: the request at `gone` has been merged into the one at `keep`, which takes its
        place in the FIFO when it was there earlier. */
    method MergedRequests(c: nat, keep: nat, gone: nat, earlier: bool)
      requires Valid() && c in qs && keep < |qs[c].sort| && gone < |qs[c].sort| && keep != gone
      modifies this`qs, this`tree, this`left, this`busy, this`nrSorted
      ensures Valid() && c in qs && qs[c].sort == Without(old(qs)[c].sort, gone) && qs[c].out == old(qs)[c].out
      ensures var q := old(qs)[c]; var r, x := q.sort[keep], q.sort[gone];
        qs[c].fifo == if earlier then Replaced(Removed(q.fifo, r), x, r) else Removed(q.fifo, x)
      ensures qs.Keys == old(qs).Keys && forall x :: x != c && x in old(qs) ==> qs[x] == old(qs)[x]
    {
      hide TreeOk, AllOk, Without, Removed, Replaced, FindNext, Requests, Distinct;
      AllOkMeans(qs, c);
      if earlier {
        var q := qs[c];
        MergeOther(q, keep, gone);
        var f := MoveBehind(q.fifo, q.sort[keep], q.sort[gone]);
        var q' := q.(fifo := f);
        SameOk(qs, tree, left, c, q');
        AllOkUpdate(qs, c, q');
        RequestsSame(qs, qs[c := q'], ids);
        qs := qs[c := q'];
      }
      RemoveRequest(c, gone);
    }

    /** cfq_dispatch_insert. */
    method DispatchInsert(c: nat, i: nat)
      requires Valid() && c in qs && i < |qs[c].sort|
      modifies this`qs, this`tree, this`left, this`busy, this`nrSorted
      ensures Valid() && c in qs && qs[c].sort == Without(old(qs)[c].sort, i)
      ensures qs[c].out == old(qs)[c].out + [old(qs)[c].sort[i]]
      ensures qs[c].fifo == Removed(old(qs)[c].fifo, old(qs)[c].sort[i])
      ensures forall x :: x != c && x in old(qs) ==> x in qs && qs[x] == old(qs)[x]
      ensures qs.Keys == old(qs).Keys && (qs[c].sort == [] ==> |tree| == |old(tree)| - 1)
      ensures qs[c].sort != [] ==> tree == old(tree)
    {
      hide TreeOk, QueueOk, AllOk, Without, Removed, FindNext, Requests, Distinct;
      var r := qs[c].sort[i];
      RemoveRequest(c, i);
      AllOkMeans(qs, c);
      var q := qs[c].(out := qs[c].out + [r]);
      SameOk(qs, tree, left, c, q);
      QueueSame(qs[c], q);
      AllOkUpdate(qs, c, q);
      RequestsSame(qs, qs[c := q], ids);
      qs := qs[c := q];
    }

    /** Every queue has only dispatched since `before`. */
    ghost predicate OnlyDispatched(before: map<nat, Cfqq>)
      reads this
    {
      qs.Keys == before.Keys && forall c :: c in qs ==> Kept(before[c], qs[c])
    }

    /** The alias loop of cfq_add_rq_rb: a request at the same sector is dispatched. */
    method MakeRoom(c: nat, r: Rq) returns (k: nat)
      requires Valid() && c in qs
      modifies this`qs, this`tree, this`left, this`busy, this`nrSorted
      ensures Valid() && c in qs && Between(qs[c].sort, k, r) && Kept(old(qs)[c], qs[c]) && qs.Keys == old(qs).Keys
      ensures forall x :: x != c && x in old(qs) ==> x in qs && qs[x] == old(qs)[x]
    {
      hide TreeOk, QueueOk, AllOk, Kept, Between, Without, Requests, Distinct;
      KeptSelf(qs[c]);
      AllOkMeans(qs, c);
      QueueMeans(qs[c]);
      var alias;
      k, alias := Place(qs[c].sort, r);
      while alias
        invariant Valid() && c in qs && Kept(old(qs)[c], qs[c]) && qs.Keys == old(qs).Keys
        invariant forall x :: x != c && x in old(qs) ==> x in qs && qs[x] == old(qs)[x]
        invariant if alias then k < |qs[c].sort| else Between(qs[c].sort, k, r)
        decreases |qs[c].sort|
      {
        ghost var q := qs[c];
        DispatchInsert(c, k);
        KeptMoved(old(qs)[c], q, qs[c], k);
        AllOkMeans(qs, c);
        QueueMeans(qs[c]);
        k, alias := Place(qs[c].sort, r);
      }
    }

    /** cfq_insert_request. */
    method AddRequest(c: nat, r: Rq, key: nat)
      requires Valid() && c in qs
      modifies this`qs, this`tree, this`left, this`busy, this`nrSorted
      ensures Valid() && c in qs && qs.Keys == old(qs).Keys && r in qs[c].sort
      ensures qs[c].fifo != [] && qs[c].fifo[|qs[c].fifo| - 1] == r
      ensures var q := old(qs)[c];
        multiset(qs[c].sort) + multiset(qs[c].out) == multiset(q.sort) + multiset(q.out) + multiset{r}
      ensures forall x :: x != c && x in old(qs) ==> x in qs && qs[x] == old(qs)[x]
    {
      hide TreeOk, QueueOk, AllOk, Kept, Between, Insert, Requests, Distinct;
      var k := MakeRoom(c, r);
      ghost var q1, before := qs[c], qs;
      AllOkMeans(qs, c);
      QueueAdded(old(qs)[c], q1, k, r, prefer);
      if !qs[c].onRr {
        AddRr(c, key);
      }
      var q := qs[c];
      var q' := q.(sort := Insert(q.sort, k, r), fifo := q.fifo + [r], next := Choose(prefer, q.next, Some(r)));
      SameOk(qs, tree, left, c, q');
      QueueSame(q1.(sort := q'.sort, fifo := q'.fifo, next := q'.next), q');
      qs := qs[c := q'];
      AllOkUpdate(before, c, q');
      assert qs == before[c := q'];
      InsertLonger(q.sort, k, r);
      RequestsChange(before, qs, ids, c);
      nrSorted := nrSorted + 1;
    }

    /** The alias loop of cfq_add_rq_rb while `r` is off the tree; no second request can be in its place.
        Dispatching the last other request takes the queue off the round robin. */
    method ClearPlace(c: nat, r: Rq) returns (k: nat, alias: bool)
      requires Shape() && c in qs && OffTree(qs[c], r) && qs[c].onRr && nrSorted > 0
      modifies this`qs, this`tree, this`left, this`busy, this`nrSorted
      ensures Shape() && c in qs && OffTree(qs[c], r) && Between(qs[c].sort, k, r) && qs == old(qs)[c := qs[c]]
      ensures alias <==> exists x :: x in old(qs)[c].sort && x.sector == r.sector
      ensures multiset(qs[c].sort) + multiset(qs[c].out) == multiset(old(qs)[c].sort) + multiset(old(qs)[c].out)
      ensures if alias then
          && |qs[c].sort| == |old(qs)[c].sort| - 1 && nrSorted == old(nrSorted) - 1
          && |qs[c].out| == |old(qs)[c].out| + 1 && old(qs)[c].out <= qs[c].out
          && qs[c].out[|old(qs)[c].out|].sector == r.sector
          && qs[c].fifo == Removed(old(qs)[c].fifo, qs[c].out[|old(qs)[c].out|])
        else qs == old(qs) && nrSorted == old(nrSorted)
    {
      hide TreeOk, Sorted, Between, Without, Removed;
      k, alias := Place(qs[c].sort, r);
      if alias {
        WithoutLength(qs[c].sort, k);
        var q := PartAlias(qs[c], k, r, prefer);
        SameOk(qs, tree, left, c, q);
        qs := qs[c := q];
        nrSorted := nrSorted - 1;
        if q.sort == [] {
          DelRr(c);
        }
        var more;
        k, more := Place(qs[c].sort, r);
      } else {
        assert qs == qs[c := qs[c]];
      }
    }

    /** The end of cfq_add_rq_rb, for a request that is in the FIFO already. */
    method PutBack(c: nat, k: nat, r: Rq, key: nat)
      requires Shape() && c in qs && OffTree(qs[c], r) && Between(qs[c].sort, k, r)
      modifies this`qs, this`tree, this`left, this`busy
      ensures Shape() && c in qs && qs == old(qs)[c := qs[c]] && QueueOk(qs[c]) && qs[c].onRr
      ensures r in qs[c].sort && |qs[c].sort| == |old(qs)[c].sort| + 1
      ensures multiset(qs[c].sort) == multiset(old(qs)[c].sort) + multiset{r}
      ensures qs[c].fifo == old(qs)[c].fifo && qs[c].out == old(qs)[c].out
    {
      hide TreeOk, QueueOk, OffTree, Between, Insert;
      ghost var q0 := qs[c];
      BackOnTree(qs[c], k, r, prefer);
      if !qs[c].onRr {
        AddRr(c, key);
      }
      var q := qs[c];
      var q' := q.(sort := Insert(q.sort, k, r), next := Choose(prefer, q.next, Some(r)));
      SameOk(qs, tree, left, c, q');
      QueueSame(q0.(sort := q'.sort, next := q'.next), q');
      qs := qs[c := q'];
    }

    /** cfq_merged_request for a front merge: cfq_reposition_rq_rb. */
    method FrontMerged(c: nat, i: nat, sector: nat, nr: nat, key: nat)
      requires Valid() && c in qs && i < |qs[c].sort|
      modifies this`qs, this`tree, this`left, this`busy, this`nrSorted
      ensures Valid() && c in qs && qs.Keys == old(qs).Keys && FrontMergedTo(old(qs)[c], qs[c], i, sector, nr)
      ensures forall x :: x != c && x in old(qs) ==> x in qs && qs[x] == old(qs)[x]
    {
      hide TreeOk, QueueOk, AllOk, OffTree, Between, Without, Removed, Replaced, Requests, Distinct, FrontMergedTo;
      ghost var before, q0 := qs, qs[c];
      AllOkMeans(qs, c);
      var r := qs[c].sort[i].(sector := sector, nr := nr);
      SortedSome(qs, ids, c);
      AliasedIs(q0.sort, i, sector);
      WithoutLength(q0.sort, i);
      var q1 := TakeFromTree(qs[c], i, r);
      SameOk(qs, tree, left, c, q1);
      qs := qs[c := q1];
      var k, alias := ClearPlace(c, r);
      PutBack(c, k, r, key);
      assert qs == before[c := qs[c]];
      AllOkUpdate(before, c, qs[c]);
      RequestsChange(before, qs, ids, c);
      FrontIs(q0, q1, qs[c], i, r);
    }

    /** __cfq_forced_dispatch_cfqq. */
    method ForcedQueue(c: nat)
      requires Valid() && c in qs && qs[c].onRr
      modifies this`qs, this`tree, this`left, this`busy, this`nrSorted
      ensures Valid() && c in qs && qs[c].sort == [] && qs[c].fifo == [] && |tree| < |old(tree)|
      ensures OnlyDispatched(old(qs))
    {
      hide TreeOk, QueueOk, AllOk, Kept, Without, Requests, Distinct;
      KeptAll(qs);
      AllOkMeans(qs, c);
      QueueMeans(qs[c]);
      while qs[c].next.Some?
        invariant Valid() && c in qs && OnlyDispatched(old(qs))
        invariant qs[c].next.Some? <==> qs[c].sort != []
        invariant qs[c].next.Some? ==> qs[c].next.value in qs[c].sort
        invariant if qs[c].next.Some? then tree == old(tree) else |tree| < |old(tree)|
        decreases |qs[c].sort|
      {
        ghost var q := qs[c];
        var i := Find(qs[c].sort, qs[c].next.value);
        DispatchInsert(c, i);
        KeptMoved(old(qs)[c], q, qs[c], i);
        AllOkMeans(qs, c);
        QueueMeans(qs[c]);
      }
      AllOkMeans(qs, c);
      QueueMeans(qs[c]);
    }

    /** cfq_forced_dispatch: afterwards no queue is busy and every request has been dispatched once. */
    method ForcedDispatch()
      requires Valid()
      modifies this`qs, this`tree, this`left, this`busy, this`nrSorted
      ensures Valid() && busy == 0 && nrSorted == 0 && tree == [] && OnlyDispatched(old(qs))
      ensures forall c :: c in qs ==> qs[c].sort == [] && qs[c].fifo == []
    {
      hide TreeOk, QueueOk, AllOk, Kept, Requests, Distinct;
      KeptAll(qs);
      var c := First();
      while c.Some?
        invariant Valid() && OnlyDispatched(old(qs)) && c == if tree == [] then None else Some(tree[0])
        decreases |tree|
      {
        TreeMeans(qs, tree, left);
        ghost var before := qs;
        ForcedQueue(c.value);
        KeptAgain(old(qs), before, qs);
        c := First();
      }
      TreeMeans(qs, tree, left);
      forall x | x in qs
        ensures qs[x].sort == [] && qs[x].fifo == []
      {
        AllOkMeans(qs, x);
        QueueMeans(qs[x]);
      }
      RequestsNone(qs, ids);
    }
  }

  lemma {:induction false} MergeOther(q: Cfqq, keep: nat, gone: nat)
    requires QueueOk(q) && keep < |q.sort| && gone < |q.sort| && keep != gone
    ensures q.sort[keep] in multiset(q.fifo) && q.sort[gone] in multiset(q.fifo) - multiset{q.sort[keep]}
  {
    assert q.sort[gone] in multiset(q.sort) && q.sort[keep] in multiset(q.sort);
    assert q.sort[keep] != q.sort[gone];
  }

  lemma {:induction false} WithoutShorter(s: seq<Rq>, i: nat)
    requires i < |s|
    ensures |Without(s, i)| == |s| - 1
  {
  }

  lemma {:induction false} InsertLonger(s: seq<Rq>, k: nat, r: Rq)
    requires k <= |s|
    ensures |Insert(s, k, r)| == |s| + 1
  {
  }

  lemma {:induction false} SortedSome(qs: map<nat, Cfqq>, ids: seq<nat>, c: nat)
    requires (forall x :: x in ids ==> x in qs) && c in ids && qs[c].sort != []
    ensures Requests(qs, ids) > 0
  {
    var n := |ids| - 1;
    if ids[n] != c {
      SortedSome(qs, ids[..n], c);
    }
  }

  lemma {:induction false} TreeMeans(qs: map<nat, Cfqq>, tree: seq<nat>, left: Option<nat>)
    requires TreeOk(qs, tree, left)
    ensures forall c :: c in tree ==> c in qs && qs[c].onRr
    ensures forall c :: c in qs && qs[c].onRr ==> c in tree
    ensures forall i, j :: 0 <= i < j < |tree| ==> !Ahead(qs, tree[j], tree[i])
  {
  }

  lemma {:induction false} QueueSame(q: Cfqq, q': Cfqq)
    requires QueueOk(q) && q'.sort == q.sort && q'.fifo == q.fifo && q'.next == q.next
    ensures QueueOk(q')
  {
  }

  /** From `q` to `q'` requests have only been dispatched. */
  ghost predicate Kept(q: Cfqq, q': Cfqq) {
    multiset(q'.sort) + multiset(q'.out) == multiset(q.sort) + multiset(q.out) && q.out <= q'.out
  }

  lemma {:induction false} KeptSelf(q: Cfqq)
    ensures Kept(q, q)
  {
  }

  lemma {:induction false} KeptAll(qs: map<nat, Cfqq>)
    ensures forall c :: c in qs ==> Kept(qs[c], qs[c])
  {
  }

  lemma {:induction false} KeptMoved(q0: Cfqq, q: Cfqq, q': Cfqq, i: nat)
    requires Kept(q0, q) && i < |q.sort| && q'.sort == Without(q.sort, i) && q'.out == q.out + [q.sort[i]]
    ensures Kept(q0, q') && |q'.sort| < |q.sort|
  {
    WithoutMultiset(q.sort, i);
  }

  lemma {:induction false} KeptAgain(a: map<nat, Cfqq>, b: map<nat, Cfqq>, c: map<nat, Cfqq>)
    requires a.Keys == b.Keys == c.Keys
    requires (forall x :: x in b ==> Kept(a[x], b[x])) && (forall x :: x in c ==> Kept(b[x], c[x]))
    ensures forall x :: x in c ==> Kept(a[x], c[x])
  {
    forall x | x in c
      ensures Kept(a[x], c[x])
    {
      assert Kept(a[x], b[x]) && Kept(b[x], c[x]);
    }
  }

  lemma {:induction false} QueueMeans(q: Cfqq)
    requires QueueOk(q)
    ensures Sorted(q.sort) && (q.next.None? <==> q.sort == []) && (q.next.Some? ==> q.next.value in q.sort)
    ensures q.sort == [] ==> q.fifo == []
  {
    assert |multiset(q.fifo)| == |multiset(q.sort)|;
  }

  lemma {:induction false} QueueAdded(q0: Cfqq, q: Cfqq, k: nat, r: Rq, prefer: (Rq, Rq) -> bool)
    requires QueueOk(q) && Kept(q0, q) && Between(q.sort, k, r)
    ensures k <= |q.sort|
    ensures var q' := q.(sort := Insert(q.sort, k, r), fifo := q.fifo + [r], next := Choose(prefer, q.next, Some(r)));
      && QueueOk(q') && r in q'.sort && q'.sort != []
      && multiset(q'.sort) + multiset(q'.out) == multiset(q0.sort) + multiset(q0.out) + multiset{r}
  {
    InsertSorted(q.sort, k, r);
    var s := Insert(q.sort, k, r);
    assert s[k] == r;
    forall x | x in q.sort
      ensures x in s
    {
      assert x in multiset(q.sort);
      assert x in multiset(s);
    }
  }
}
