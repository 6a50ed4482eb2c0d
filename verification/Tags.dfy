/**
  Tagged command queueing: a bitmap of tags, the index from tags to requests, and the list of busy
  requests, newest first. The map belongs to one queue.
*/
module Tags {
  import opened Options

  /** How many tags are in use. */
  const MIN_REQUESTS: nat := 4   // BLKDEV_MIN_RQ

  function CountSet(bits: seq<bool>): nat {
    if bits == [] then 0 else CountSet(bits[..|bits| - 1]) + if bits[|bits| - 1] then 1 else 0
  }

  lemma {:induction false} CountFlip(bits: seq<bool>, t: nat)
    requires t < |bits|
    ensures bits[t] ==> CountSet(bits[t := false]) == CountSet(bits) - 1
    ensures !bits[t] ==> CountSet(bits[t := true]) == CountSet(bits) + 1
  {
    var n := |bits| - 1;
    var b := bits[t := !bits[t]];
    if t < n {
      CountFlip(bits[..n], t);
      assert b[..n] == bits[..n][t := !bits[t]];
    } else {
      assert b[..n] == bits[..n];
    }
  }

  lemma {:induction false} CountPad(bits: seq<bool>, n: nat)
    ensures CountSet(bits + seq(n, _ => false)) == CountSet(bits)
  {
    var b := bits + seq(n, _ => false);
    if n == 0 {
      assert b == bits;
    } else {
      CountPad(bits, n - 1);
      assert b[..|b| - 1] == bits + seq(n - 1, _ => false);
    }
  }

  function Reverse(s: seq<nat>): seq<nat> {
    if s == [] then [] else Reverse(s[1..]) + [s[0]]
  }

  lemma {:induction false} ReverseStep(s: seq<nat>, moved: seq<nat>)
    requires s != []
    ensures Reverse(s) + moved == Reverse(s[1..]) + ([s[0]] + moved)
  {
  }

  lemma {:induction false} ReverseNothing()
    ensures Reverse([]) == []
  {
  }

  ghost predicate Distinct(s: seq<nat>) {
    forall i, j :: 0 <= i < j < |s| ==> s[i] != s[j]
  }

  /** find_first_zero_bit. */
  method FindFirstZero(bits: seq<bool>, n: nat) returns (t: nat)
    requires n <= |bits|
    ensures t <= n && (forall i :: 0 <= i < t ==> bits[i]) && (t < n ==> !bits[t])
  {
    t := 0;
    while t < n && bits[t]
      invariant t <= n && forall i :: 0 <= i < t ==> bits[i]
    {
      t := t + 1;
    }
  }

  /** The map of tags: a bit is set exactly when the index names a request, which carries the tag,
      and the busy requests are those that carry one. */
  ghost predicate MapOk(bits: seq<bool>, index: seq<Option<nat>>, tagOf: map<nat, nat>, list: seq<nat>) {
    && |bits| == |index| && Distinct(list)
    && (forall t :: 0 <= t < |bits| ==> (bits[t] <==> index[t].Some?))
    && (forall t :: 0 <= t < |bits| && index[t].Some? ==> index[t].value in tagOf && tagOf[index[t].value] == t)
    && (forall r :: r in tagOf ==> tagOf[r] < |bits| && index[tagOf[r]] == Some(r))
    && (forall r :: r in tagOf <==> r in list)
  }

  lemma {:induction false} MapSet(bits: seq<bool>, index: seq<Option<nat>>, tagOf: map<nat, nat>, list: seq<nat>,
                                  t: nat, r: nat)
    requires MapOk(bits, index, tagOf, list) && t < |bits| && !bits[t] && r !in list
    ensures MapOk(bits[t := true], index[t := Some(r)], tagOf[r := t], [r] + list)
  {
    var bits', index', tagOf', list' := bits[t := true], index[t := Some(r)], tagOf[r := t], [r] + list;
    assert forall i :: 0 <= i < |list| ==> list'[i + 1] == list[i];
    forall x
      ensures x in tagOf' <==> x in list'
    {
      assert x in list' <==> x == r || x in list;
    }
  }

  lemma {:induction false} MapClear(bits: seq<bool>, index: seq<Option<nat>>, tagOf: map<nat, nat>, list: seq<nat>,
                                    i: nat)
    requires MapOk(bits, index, tagOf, list) && i < |list|
    ensures list[i] in tagOf && tagOf[list[i]] < |bits| && bits[tagOf[list[i]]]
    ensures var t := tagOf[list[i]];
      MapOk(bits[t := false], index[t := None], tagOf - {list[i]}, list[..i] + list[i + 1..])
  {
    var r := list[i];
    var t := tagOf[r];
    var list' := list[..i] + list[i + 1..];
    forall x
      ensures x in tagOf - {r} <==> x in list'
    {
      if x in list && x != r {
        var j :| 0 <= j < |list| && list[j] == x;
        assert list'[if j < i then j else j - 1] == x;
      }
    }
  }

  lemma {:induction false} MapGrow(bits: seq<bool>, index: seq<Option<nat>>, tagOf: map<nat, nat>, list: seq<nat>,
                                   n: nat)
    requires MapOk(bits, index, tagOf, list)
    ensures MapOk(bits + seq(n, _ => false), index + seq(n, _ => None), tagOf, list)
  {
  }

  /** A map without tags. */
  lemma {:induction false} NoTags(n: nat)
    ensures MapOk(seq(n, _ => false), seq(n, _ => None), map[], []) && CountSet(seq(n, _ => false)) == 0
  {
    hide CountSet;
    CountNone(n);
  }

  lemma {:induction false} CountNone(n: nat)
    ensures CountSet(seq(n, _ => false)) == 0
  {
    CountPad([], n);
    assert [] + seq(n, _ => false) == seq(n, _ => false);
  }

  // ---------------------------------------------------------------------------
  // The queue
  // ---------------------------------------------------------------------------

  class TagQueue {
    var nrRequests: nat             // nr_requests of the queue
    var bits: seq<bool>             // tag_map
    var index: seq<Option<nat>>     // tag_index
    var realDepth: nat
    var maxDepth: nat
    var busy: nat
    var tagOf: map<nat, nat>        // rq->tag of the requests that have one
    var busyList: seq<nat>          // tag_busy_list, newest first
    var queue: seq<nat>             // queue_head

    /** blk_queue_init_tags of a queue without tags. */
    constructor (nrRequests: nat, depth: nat, queue: seq<nat>)
      requires Distinct(queue)
      ensures Valid() && this.nrRequests == nrRequests && this.queue == queue && busyList == []
      ensures realDepth == maxDepth == Clamp(depth, nrRequests)
    {
      this.nrRequests, this.queue := nrRequests, queue;
      var d := Clamp(depth, nrRequests);
      bits, index, realDepth, maxDepth := seq(d, _ => false), seq(d, _ => None), d, d;
      busy, tagOf, busyList := 0, map[], [];
      new;
      hide CountSet, MapOk;
      NoTags(d);
    }

    ghost predicate Valid()
      reads this
    {
      && MapOk(bits, index, tagOf, busyList) && |bits| == realDepth && maxDepth <= realDepth
      && busy == CountSet(bits) == |busyList|
      && Distinct(queue) && (forall r :: r in queue ==> r !in busyList)
    }

    /** blk_queue_start_tag; the request leaves the queue for the busy list. */
    method StartTag(r: nat) returns (full: bool)
      requires Valid() && r in queue
      modifies this`bits, this`index, this`tagOf, this`busyList, this`busy, this`queue
      ensures Valid() && realDepth == old(realDepth) && maxDepth == old(maxDepth)
      ensures full <==> forall t :: 0 <= t < maxDepth ==> old(bits)[t]
      ensures full ==> busyList == old(busyList) && queue == old(queue) && tagOf == old(tagOf)
      ensures !full ==>
        busyList == [r] + old(busyList) && r !in queue && r in tagOf && tagOf == old(tagOf)[r := tagOf[r]]
      ensures !full ==> tagOf[r] < maxDepth && !old(bits)[tagOf[r]] && (forall t :: 0 <= t < tagOf[r] ==> old(bits)[t])
      ensures !full ==> forall x :: x in old(queue) && x != r ==> x in queue
    {
      hide CountSet, MapOk;
      MapShape(bits, index, tagOf, busyList);
      var t := FindFirstZero(bits, maxDepth);
      if t >= maxDepth {
        return true;
      }
      CountFlip(bits, t);
      MapSet(bits, index, tagOf, busyList, t, r);
      bits := bits[t := true];
      tagOf := tagOf[r := t];
      index := index[t := Some(r)];
      Dequeue(r);
      busyList := [r] + busyList;
      busy := busy + 1;
      return false;
    }

    method Dequeue(r: nat)
      requires Distinct(queue) && r in queue
      modifies this`queue
      ensures Distinct(queue) && r !in queue
      ensures forall x :: x in queue <==> x in old(queue) && x != r
    {
      var i := 0;
      while queue[i] != r
        invariant i < |queue| && r !in queue[..i]
        decreases |queue| - i
      {
        i := i + 1;
      }
      ghost var before := queue;
      queue := queue[..i] + queue[i + 1..];
      forall x | x in before && x != r
        ensures x in queue
      {
        var j :| 0 <= j < |before| && before[j] == x;
        assert queue[if j < i then j else j - 1] == x;
      }
    }

    /** blk_queue_end_tag of the request at `i` of the busy list. */
    method EndTag(i: nat)
      requires Valid() && i < |busyList|
      modifies this`bits, this`index, this`tagOf, this`busyList, this`busy
      ensures Valid() && busyList == old(busyList)[..i] + old(busyList)[i + 1..]
      ensures tagOf == old(tagOf) - {old(busyList)[i]}
      ensures old(busyList)[i] in old(tagOf) && old(tagOf)[old(busyList)[i]] < |bits|
      ensures !bits[old(tagOf)[old(busyList)[i]]]
    {
      hide CountSet, MapOk;
      var r := busyList[i];
      MapShape(bits, index, tagOf, busyList);
      MapClear(bits, index, tagOf, busyList, i);
      var tag := tagOf[r];
      CountFlip(bits, tag);
      busyList := busyList[..i] + busyList[i + 1..];
      tagOf := tagOf - {r};
      index := index[tag := None];
      bits := bits[tag := false];
      busy := busy - 1;
    }

    /** blk_requeue_request of the request started last: without its tag, to the front of the queue. */
    method RequeueFirst()
      requires Valid() && busyList != []
      modifies this`bits, this`index, this`tagOf, this`busyList, this`busy, this`queue
      ensures Valid() && busyList == old(busyList)[1..] && queue == [old(busyList)[0]] + old(queue)
    {
      hide CountSet, MapOk, Distinct;
      var r := busyList[0];
      MapShape(bits, index, tagOf, busyList);
      FrontOk(queue, busyList);
      assert busyList[..0] + busyList[1..] == busyList[1..];
      EndTag(0);
      queue := [r] + queue;
    }

    /** blk_queue_invalidate_tags with no barrier in progress: every request goes back to the front
        of the queue, and there they are in the order they were started in. */
    method InvalidateTags()
      requires Valid()
      modifies this`bits, this`index, this`tagOf, this`busyList, this`busy, this`queue
      ensures Valid() && busyList == [] && busy == 0 && tagOf == map[]
      ensures forall t :: 0 <= t < realDepth ==> !bits[t] && index[t] == None
      ensures queue == Reverse(old(busyList)) + old(queue)
      ensures realDepth == old(realDepth) && maxDepth == old(maxDepth)
    {
      hide CountSet, MapOk, Reverse;
      ghost var moved: seq<nat> := [];
      assert Reverse(old(busyList)) == Reverse(busyList) + moved;
      while busyList != []
        invariant Valid() && realDepth == old(realDepth) && maxDepth == old(maxDepth)
        invariant Reverse(old(busyList)) == Reverse(busyList) + moved && queue == moved + old(queue)
        decreases |busyList|
      {
        ghost var r := busyList[0];
        ReverseStep(busyList, moved);
        RequeueFirst();
        moved := [r] + moved;
      }
      assert Reverse([]) + moved == moved by { ReverseNothing(); }
      MapEmpty(bits, index, tagOf);
    }

    /** queue_requests_store: the tags stay as they are. */
    method SetRequests(nr: nat)
      requires Valid()
      modifies this`nrRequests
      ensures Valid() && nrRequests == if nr < MIN_REQUESTS then MIN_REQUESTS else nr
    {
      nrRequests := if nr < MIN_REQUESTS then MIN_REQUESTS else nr;
    }

    /** blk_queue_resize_tags. A larger map is copied from the old one whole. When the clamped depth is
        below the old one the copy runs over the end of the new map; what is in the map is then the part
        that fits. */
    method Resize(depth: nat) returns (overrun: bool)
      requires Valid()
      modifies this`bits, this`index, this`realDepth, this`maxDepth
      ensures overrun <==> !CopyFits(depth, old(realDepth), nrRequests)
      ensures !overrun ==> Valid()
      ensures tagOf == old(tagOf) && busyList == old(busyList)
      ensures maxDepth == if depth <= old(realDepth) then depth else Clamp(depth, nrRequests)
      ensures realDepth == if depth <= old(realDepth) then old(realDepth) else Clamp(depth, nrRequests)
      ensures |bits| == |index| == realDepth
      ensures var n := Min(realDepth, old(realDepth));
        && bits[..n] == old(bits)[..n] && index[..n] == old(index)[..n]
        && forall i :: n <= i < realDepth ==> !bits[i] && index[i] == None
      ensures !overrun ==> realDepth >= old(realDepth)
      ensures overrun ==> realDepth < old(realDepth)
    {
      hide CountSet, MapOk;
      MapShape(bits, index, tagOf, busyList);
      overrun := false;
      if depth <= realDepth {
        maxDepth := depth;
        return;
      }
      var d := Clamp(depth, nrRequests);
      if d < realDepth {
        bits, index, overrun := bits[..d], index[..d], true;
      } else {
        MapGrow(bits, index, tagOf, busyList, d - realDepth);
        CountPad(bits, d - realDepth);
        bits := bits + seq(d - realDepth, _ => false);
        index := index + seq(d - realDepth, _ => None);
      }
      realDepth, maxDepth := d, d;
    }
  }

  function Min(a: nat, b: nat): nat {
    if a < b then a else b
  }

  /** Lowering the number of requests and then asking for more tags overruns the new map. */
  method LowerThenGrow() returns (overrun: bool)
    ensures overrun
  {
    var q := new TagQueue(32, 64, []);
    q.SetRequests(31);
    overrun := q.Resize(65);
  }

  /** init_tag_map limits the depth by the number of requests. */
  function Clamp(depth: nat, nrRequests: nat): nat {
    if depth > nrRequests * 2 then nrRequests * 2 else depth
  }

  /** The old map, which is copied whole, fits into the new one. */
  predicate CopyFits(depth: nat, realDepth: nat, nrRequests: nat) {
    depth <= realDepth || realDepth <= Clamp(depth, nrRequests)
  }

  /** It does exactly when the map need not grow or the queue's limit is not below the old depth,
      which is not so after the number of requests has been lowered. */
  lemma CopyFitsWhen(depth: nat, realDepth: nat, nrRequests: nat)
    ensures CopyFits(depth, realDepth, nrRequests) <==> depth <= realDepth || realDepth <= nrRequests * 2
    ensures !CopyFits(65, 64, 31)
  {
  }

  lemma {:induction false} MapShape(bits: seq<bool>, index: seq<Option<nat>>, tagOf: map<nat, nat>, list: seq<nat>)
    requires MapOk(bits, index, tagOf, list)
    ensures |bits| == |index| && Distinct(list) && (forall r :: r in tagOf <==> r in list)
  {
  }

  lemma {:induction false} MapEmpty(bits: seq<bool>, index: seq<Option<nat>>, tagOf: map<nat, nat>)
    requires MapOk(bits, index, tagOf, [])
    ensures tagOf == map[] && forall t :: 0 <= t < |bits| ==> !bits[t] && index[t] == None
  {
    assert forall r :: r in tagOf ==> r in [];
  }

  /** The first of one list goes to the front of another that shares nothing with it. */
  lemma {:induction false} FrontOk(queue: seq<nat>, list: seq<nat>)
    requires Distinct(queue) && Distinct(list) && list != [] && forall r :: r in queue ==> r !in list
    ensures Distinct([list[0]] + queue) && forall r :: r in [list[0]] + queue ==> r !in list[1..]
  {
    assert list[0] in list;
    assert forall r :: r in list[1..] ==> r in list && r != list[0];
  }
}
