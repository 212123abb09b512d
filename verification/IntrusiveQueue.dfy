/** `Queue<T>`: an intrusive circular doubly linked list with a sentinel.  A node is kept alive
    by the handles its users hold and, while it is queued, by one more count of the queue. */
module IntrusiveQueue {
  import opened Basics
  import StableSort

  class Counter {
    var n: int

    constructor ()
      ensures n == 0
    {
      n := 0;
    }
  }

  /** `handles` is the number of user handles alive; `freed` is whether the memory was given
      back. */
  class Node<T> {
    const data: Option<T>
    var prev: Node<T>
    var next: Node<T>
    var refCnt: int
    var inQueue: bool
    var len: Counter?
    ghost var handles: nat
    ghost var freed: bool

    constructor (data: T)
      ensures Detached() && handles == 1 && this.data == Some(data)
    {
      this.data := Some(data);
      prev, next := this, this;
      refCnt, inQueue, len := 1, false, null;
      handles, freed := 1, false;
    }

    constructor Sentinel(len: Counter)
      ensures prev == this && next == this && inQueue && this.len == len
      ensures refCnt == 1 && handles == 1 && !freed && data.None?
    {
      data := None;
      prev, next := this, this;
      refCnt, inQueue, this.len := 1, true, len;
      handles, freed := 1, false;
    }

    /** A data node's count: its handles, and one more if queued.  Nobody can reach it at zero,
        and then it is free. */
    ghost predicate Counted()
      reads this
    {
      && data.Some?
      && refCnt == handles + (if inQueue then 1 else 0)
      && (freed <==> refCnt == 0)
    }

    ghost predicate Detached()
      reads this
    {
      !inQueue && prev == this && next == this && len == null && Counted()
    }

    /** `from_raw` and `clone`: one more handle. */
    method Acquire()
      requires !freed
      modifies this`refCnt, this`handles
      ensures refCnt == old(refCnt) + 1 && handles == old(handles) + 1
    {
      refCnt := refCnt + 1;
      handles := handles + 1;
    }

    /** `drop` of a handle: the last one frees the node. */
    method Release()
      requires !freed && handles > 0 && refCnt > 0
      modifies this`refCnt, this`handles, this`freed
      ensures refCnt == old(refCnt) - 1 && handles == old(handles) - 1
      ensures freed <==> refCnt == 0
    {
      refCnt := refCnt - 1;
      handles := handles - 1;
      if refCnt == 0 {
        freed := true;
      }
    }

    /** The queue lets go of a node whose neighbours are already cut off; `last` tells that nobody
        holds it any more. */
    method Abandon() returns (last: bool)
      requires inQueue && Counted()
      modifies this
      ensures Detached() && handles == old(handles) && last == freed
    {
      prev := this;
      next := this;
      len := null;
      inQueue := false;
      refCnt := refCnt - 1;
      last := refCnt == 0;
      if last {
        freed := true;
      }
    }
  }

  /** Where a sweep ends and what it leaves. */
  lemma LeftBehind<T>(chain: seq<Node<T>>, panics: Node<T> -> bool, ok: bool, k: nat)
    requires k <= |chain| && (ok ==> k == |chain|) && (!ok ==> k > 0 && DropPanics(chain[k - 1], panics))
    requires forall j :: 0 <= j < (if ok then k else k - 1) ==> !DropPanics(chain[j], panics)
    requires forall j :: 0 <= j < k ==> !chain[j].inQueue
    requires forall j :: k <= j < |chain| ==> chain[j].inQueue
    ensures ok <==> forall n <- chain :: !DropPanics(n, panics)
    ensures (forall n <- chain :: !n.inQueue) <==> forall j :: 0 <= j < |chain| - 1 ==> !DropPanics(chain[j], panics)
  {
    if k < |chain| {
      assert chain[k] in chain && chain[k - 1] in chain;
    }
  }

  /** Letting go of the node drops its element, and that panics. */
  ghost predicate DropPanics<T>(n: Node<T>, panics: Node<T> -> bool)
    reads n
  {
    n.handles == 0 && panics(n)
  }

  ghost function One(b: bool): nat {
    if b then 1 else 0
  }

  // ----- rings -----

  ghost predicate Linked<T>(ring: seq<Node<T>>)
    reads ring`next, ring`prev
  {
    && (forall i {:trigger ring[i].next} :: 0 <= i < |ring| - 1 ==> ring[i].next == ring[i + 1])
    && (forall i {:trigger ring[i].prev} :: 1 <= i < |ring| ==> ring[i].prev == ring[i - 1])
  }

  ghost predicate Distinct<T>(s: seq<Node<T>>) {
    forall i, j :: 0 <= i < j < |s| ==> s[i] != s[j]
  }

  /** Splicing a node in behind position `k` of a ring. */
  lemma SplicedIn<T>(ring: seq<Node<T>>, k: nat, node: Node<T>, ring': seq<Node<T>>)
    requires k + 1 < |ring| && ring' == ring[..k + 1] + [node] + ring[k + 1..]
    requires forall i :: 0 <= i < |ring| - 1 && i != k ==> ring[i].next == ring[i + 1]
    requires forall i :: 1 <= i < |ring| && i != k + 1 ==> ring[i].prev == ring[i - 1]
    requires ring[k].next == node && node.next == ring[k + 1]
    requires ring[k + 1].prev == node && node.prev == ring[k]
    ensures Linked(ring')
  {
    forall i | 0 <= i < |ring'| - 1
      ensures ring'[i].next == ring'[i + 1]
    {
      if i > k + 1 {
        assert ring'[i] == ring[i - 1];
      }
    }
    forall i | 1 <= i < |ring'|
      ensures ring'[i].prev == ring'[i - 1]
    {
      if i > k + 2 {
        assert ring'[i] == ring[i - 1];
      }
    }
  }

  /** Taking the element at position `k + 1` out of a ring. */
  lemma SplicedOut<T>(ring: seq<Node<T>>, k: nat, ring': seq<Node<T>>)
    requires k + 2 < |ring| && ring' == ring[..k + 1] + ring[k + 2..]
    requires forall i :: 0 <= i < |ring| - 1 && i != k && i != k + 1 ==> ring[i].next == ring[i + 1]
    requires forall i :: 1 <= i < |ring| && i != k + 1 && i != k + 2 ==> ring[i].prev == ring[i - 1]
    requires ring[k].next == ring[k + 2] && ring[k + 2].prev == ring[k]
    ensures Linked(ring')
  {
    forall i | 0 <= i < |ring'| - 1
      ensures ring'[i].next == ring'[i + 1]
    {
      if i > k {
        assert ring'[i] == ring[i + 1];
      }
    }
    forall i | 1 <= i < |ring'|
      ensures ring'[i].prev == ring'[i - 1]
    {
      if i > k + 1 {
        assert ring'[i] == ring[i + 1];
      }
    }
  }

  lemma MovedBack<T>(was: seq<T>, i: nat, j: nat, q: T)
    requires j <= i < |was|
    ensures var rest := was[..i] + was[i + 1..];
            rest[..j] + [q] + rest[j..] == was[..i][..j] + [q] + was[..i][j..] + was[i + 1..]
  {
    var rest := was[..i] + was[i + 1..];
    assert rest[..j] == was[..i][..j];
    assert rest[j..] == was[..i][j..] + was[i + 1..];
  }

  class Queue<T> {
    const sentinel: Node<T>
    const len: Counter
    ghost var nodes: seq<Node<T>>

    constructor ()
      ensures Valid() && nodes == [] && sentinel.handles == 1 && fresh(sentinel) && fresh(len)
    {
      var counter := new Counter();
      len := counter;
      sentinel := new Node<T>.Sentinel(counter);
      nodes := [];
    }

    /** The ring, opened at the sentinel. */
    ghost function Ring(): seq<Node<T>>
      reads this
    {
      [sentinel] + nodes + [sentinel]
    }

    ghost predicate Valid()
      reads this, sentinel, len, nodes
    {
      && Linked(Ring())
      && Distinct(nodes) && sentinel !in nodes
      && (forall n <- nodes :: n.inQueue && n.len == len && n.Counted())
      && sentinel.inQueue && sentinel.len == len && sentinel.data.None?
      && sentinel.refCnt == sentinel.handles > 0 && !sentinel.freed
      && len.n == |nodes|
    }

    /** The four pointer writes of an insertion behind the `k`-th element of the ring. */
    method Link(at: Node<T>, node: Node<T>, ghost k: nat)
      requires Linked(Ring()) && Distinct(nodes) && sentinel !in nodes
      requires k <= |nodes| && at == Ring()[k] && node !in nodes && node != sentinel
      modifies this`nodes, node`prev, node`next, at`next, at.next`prev
      ensures Linked(Ring()) && Distinct(nodes) && sentinel !in nodes
      ensures nodes == old(nodes[..k]) + [node] + old(nodes[k..])
    {
      ghost var ring := Ring();
      var selfNext := at.next;
      assert selfNext == ring[k + 1];
      node.prev := at;
      node.next := selfNext;
      selfNext.prev := node;
      at.next := node;
      nodes := nodes[..k] + [node] + nodes[k..];
      assert Ring() == ring[..k + 1] + [node] + ring[k + 1..];
      SplicedIn(ring, k, node, Ring());
    }

    /** The four pointer writes of a removal. */
    method Unlink(node: Node<T>, ghost k: nat)
      requires Linked(Ring()) && Distinct(nodes) && sentinel !in nodes
      requires k < |nodes| && node == nodes[k]
      modifies this`nodes, node`prev, node`next, node.prev`next, node.next`prev
      ensures Linked(Ring()) && Distinct(nodes) && sentinel !in nodes && node !in nodes
      ensures nodes == old(nodes[..k]) + old(nodes[k + 1..])
      ensures node.prev == node && node.next == node
    {
      ghost var ring := Ring();
      assert ring[k + 1] == node;
      var next, prev := node.next, node.prev;
      assert next == ring[k + 2] && prev == ring[k];
      next.prev := prev;
      prev.next := next;
      node.prev := node;
      node.next := node;
      nodes := nodes[..k] + nodes[k + 1..];
      assert Ring() == ring[..k + 1] + ring[k + 2..];
      SplicedOut(ring, k, Ring());
    }

    /** Links `node` in behind the `k`-th element of the ring. */
    method InsertAfter(at: Node<T>, node: Node<T>, ghost k: nat)
      requires Valid() && k <= |nodes| && at == Ring()[k]
      requires node.Detached() && !node.freed
      modifies this`nodes, node, at`next, at.next`prev, len
      ensures Valid()
      ensures nodes == old(nodes[..k]) + [node] + old(nodes[k..])
      ensures node.handles == old(node.handles)
    {
      hide Linked, Distinct;
      assert node !in nodes && node != sentinel;
      node.refCnt := node.refCnt + 1;
      node.len := at.len;
      Link(at, node, k);
      assert forall n <- nodes :: n in old(nodes) || n == node;
      node.inQueue := true;
      node.len.n := node.len.n + 1;
    }

    /** Takes a node out; a node that is in no queue is left alone. */
    method Remove(node: Node<T>, ghost k: nat)
      requires Valid()
      requires node.inQueue ==> k < |nodes| && node == nodes[k]
      modifies this`nodes, node, node.prev`next, node.next`prev, len
      ensures Valid()
      ensures old(node.inQueue) ==> nodes == old(nodes[..k]) + old(nodes[k + 1..]) && node.Detached()
      ensures !old(node.inQueue) ==> nodes == old(nodes) && unchanged(node)
      ensures node.handles == old(node.handles)
    {
      hide Linked, Distinct;
      if !node.inQueue {
        return;
      }
      assert node in nodes;
      Unlink(node, k);
      assert forall n <- nodes :: n in old(nodes) && n != node;
      node.inQueue := false;
      node.len.n := node.len.n - 1;
      node.len := null;
      node.refCnt := node.refCnt - 1;
      if node.refCnt == 0 {
        node.freed := true;
      }
    }

    ghost predicate InRing(n: Node<T>)
      reads this
    {
      n == sentinel || n in nodes
    }

    /** A handle on a node of the ring, as `next()`, `prev()` and `sentinel()` return. */
    method Hold(n: Node<T>)
      requires Valid() && InRing(n)
      modifies n`refCnt, n`handles
      ensures Valid() && n.handles == old(n.handles) + 1
    {
      n.Acquire();
    }

    /** Gives such a handle back; the queue's own count keeps the node. */
    method Unhold(n: Node<T>)
      requires Valid() && InRing(n) && n.handles > (if n == sentinel then 1 else 0)
      modifies n`refCnt, n`handles, n`freed
      ensures Valid() && n.handles == old(n.handles) - 1 && !n.freed
    {
      n.Release();
    }

    method InsertHead(node: Node<T>)
      requires Valid() && node.Detached() && !node.freed
      modifies this`nodes, node, sentinel, sentinel.next`prev, len
      ensures Valid() && nodes == [node] + old(nodes)
      ensures node.handles == old(node.handles) && sentinel.handles == old(sentinel.handles)
    {
      InsertAfter(sentinel, node, 0);
    }

    method InsertTail(node: Node<T>)
      requires Valid() && node.Detached() && !node.freed
      modifies this`nodes, node, sentinel`prev, sentinel.prev`next, len
      ensures Valid() && nodes == old(nodes) + [node]
      ensures node.handles == old(node.handles)
    {
      assert Ring()[|nodes|] == sentinel.prev by {
        assert Ring()[|nodes| + 1] == sentinel;
      }
      InsertAfter(sentinel.prev, node, |nodes|);
    }

    /** Takes the first node out and hands it to the caller. */
    method PopHead() returns (r: Option<Node<T>>)
      requires Valid()
      modifies this`nodes, sentinel, nodes, len
      ensures Valid() && sentinel.handles == old(sentinel.handles)
      ensures r.None? <==> old(nodes) == []
      ensures r.None? ==> nodes == []
      ensures r.Some? ==>
                && r.value == old(nodes)[0] && nodes == old(nodes)[1..]
                && r.value.Detached() && !r.value.freed && r.value.handles == old(nodes[0].handles) + 1
      ensures forall n <- nodes :: n.handles == old(n.handles)
    {
      if len.n == 0 {
        return None;
      }
      var node := sentinel.next;
      assert Ring()[0] == sentinel && Ring()[1] == nodes[0];
      Hold(node);
      Remove(node, 0);
      r := Some(node);
    }

    method PopTail() returns (r: Option<Node<T>>)
      requires Valid()
      modifies this`nodes, sentinel, nodes, len
      ensures Valid() && sentinel.handles == old(sentinel.handles)
      ensures r.None? <==> old(nodes) == []
      ensures r.None? ==> nodes == []
      ensures r.Some? ==>
                var k := |old(nodes)| - 1;
                && r.value == old(nodes)[k] && nodes == old(nodes)[..k]
                && r.value.Detached() && !r.value.freed && r.value.handles == old(nodes[|nodes| - 1].handles) + 1
      ensures forall n <- nodes :: n.handles == old(n.handles)
    {
      if len.n == 0 {
        return None;
      }
      var node := sentinel.prev;
      assert node == nodes[|nodes| - 1] by {
        assert Ring()[|nodes| + 1] == sentinel && Ring()[|nodes|] == nodes[|nodes| - 1];
      }
      Hold(node);
      Remove(node, |nodes| - 1);
      r := Some(node);
    }

    /** Handles on all nodes, in order. */
    method Collect() returns (result: seq<Node<T>>)
      requires Valid()
      modifies nodes
      ensures Valid() && result == nodes
      ensures forall n <- nodes :: n.handles == old(n.handles) + 1
    {
      result := [];
      var q := sentinel.next;
      ghost var i := 0;
      assert Ring()[0] == sentinel;
      while q != sentinel
        invariant Valid() && 0 <= i <= |nodes|
        invariant q == Ring()[i + 1]
        invariant result == nodes[..i]
        invariant forall j :: 0 <= j < |nodes| ==> nodes[j].handles == old(nodes[j].handles) + if j < i then 1 else 0
        decreases |nodes| - i
      {
        assert q == nodes[i];
        Hold(q);
        result := result + [q];
        q := q.next;
        i := i + 1;
      }
    }

    ghost function EndOf(chain: seq<Node<T>>, i: nat): Node<T> {
      if i < |chain| then chain[i] else sentinel
    }

    /** The sweep of `Clear` over a chain that ends at the sentinel.  `panics` says which elements
        panic when dropped; the first that is dropped ends the sweep, `k` nodes on. */
    method Sweep(head: Node<T>, panics: Node<T> -> bool, ghost chain: seq<Node<T>>) returns (ok: bool, ghost k: nat)
      requires Distinct(chain) && sentinel !in chain
      requires head == EndOf(chain, 0)
      requires forall j {:trigger chain[j].next} :: 0 <= j < |chain| ==> chain[j].next == EndOf(chain, j + 1)
      requires forall n <- chain :: n.inQueue && n.Counted()
      modifies chain
      ensures k <= |chain| && (ok ==> k == |chain|) && (!ok ==> k > 0 && DropPanics(chain[k - 1], panics))
      ensures forall j :: 0 <= j < (if ok then k else k - 1) ==> !DropPanics(chain[j], panics)
      ensures forall j :: 0 <= j < k ==> chain[j].Detached()
      ensures forall j :: k <= j < |chain| ==> chain[j].inQueue && chain[j].Counted()
      ensures forall j :: 0 <= j < |chain| ==> chain[j].handles == old(chain[j].handles)
    {
      var cur := head;
      k := 0;
      ok := true;
      while cur != sentinel && ok
        invariant 0 <= k <= |chain| && (ok ==> cur == EndOf(chain, k))
        invariant !ok ==> k > 0 && DropPanics(chain[k - 1], panics)
        invariant forall j :: 0 <= j < (if ok then k else k - 1) ==> !DropPanics(chain[j], panics)
        invariant forall j {:trigger chain[j].next} :: k <= j < |chain| ==> chain[j].next == EndOf(chain, j + 1)
        invariant forall j :: k <= j < |chain| ==> chain[j].inQueue && chain[j].Counted()
        invariant forall j :: 0 <= j < k ==> chain[j].Detached()
        invariant forall j :: 0 <= j < |chain| ==> chain[j].handles == old(chain[j].handles)
        decreases |chain| - k, ok
      {
        assert cur == chain[k];
        var next := cur.next;
        var last := cur.Abandon();
        ok := !(last && panics(cur));
        cur := next;
        k := k + 1;
      }
    }

    /** Empties the queue: the sentinel is cut off first, and then one sweep over the old chain
        makes every node its own ring and gives the queue's count back.  A node is freed in the
        sweep exactly when nobody holds a handle on it.

        The queue is empty and well linked in any case.  If the drop of an element panics, the
        sweep ends there: the nodes behind it keep the mark of a queue and its count, so that
        dropping their handles never frees them.  None is left like that if and only if no
        element before the last one panics when dropped. */
    method Clear(panics: Node<T> -> bool) returns (ok: bool, ghost k: nat)
      requires Valid()
      modifies this`nodes, sentinel`next, sentinel`prev, nodes, len
      ensures Valid() && nodes == [] && k <= |old(nodes)|
      ensures forall n <- old(nodes) :: n.handles == old(n.handles)
      ensures ok <==> forall n <- old(nodes) :: !DropPanics(n, panics)
      ensures ok ==> k == |old(nodes)|
      ensures !ok ==> k > 0 && DropPanics(old(nodes)[k - 1], panics)
      ensures forall j :: 0 <= j < k ==> old(nodes)[j].Detached() && (old(nodes)[j].freed <==> old(nodes)[j].handles == 0)
      ensures forall j :: k <= j < |old(nodes)| ==> old(nodes)[j].inQueue && old(nodes)[j].Counted() && !old(nodes)[j].freed
      ensures (forall n <- old(nodes) :: !n.inQueue)
              <==> forall j :: 0 <= j < |old(nodes)| - 1 ==> !DropPanics(old(nodes)[j], panics)
    {
      hide DropPanics;
      if len.n == 0 {
        return true, 0;
      }
      ghost var chain := nodes;
      var head := CutOff();
      ok, k := Sweep(head, panics, chain);
      LeftBehind(chain, panics, ok, k);
    }

    /** Makes the sentinel a ring of its own and leaves the chain that hung on it. */
    method CutOff() returns (head: Node<T>)
      requires Valid()
      modifies this`nodes, sentinel`next, sentinel`prev, len
      ensures Valid() && nodes == [] && head == EndOf(old(nodes), 0)
      ensures forall j {:trigger old(nodes)[j].next} ::
                0 <= j < |old(nodes)| ==> old(nodes)[j].next == EndOf(old(nodes), j + 1)
    {
      ghost var ring, chain := Ring(), nodes;
      assert ring[0] == sentinel;
      forall j | 0 <= j < |chain|
        ensures chain[j].next == EndOf(chain, j + 1)
      {
        assert chain[j] == ring[j + 1] && EndOf(chain, j + 1) == ring[j + 2];
      }
      head := sentinel.next;
      assert head == ring[1];
      sentinel.next := sentinel;
      sentinel.prev := sentinel;
      len.n := 0;
      nodes := [];
    }

    /** The inner loop of `Sort`: walks back from `start`, the `k`-th element of the ring, to the
        first element that does not compare greater than `q`, or to the sentinel.  The handle on
        `start` is traded for one on the result. */
    method FindPlace(start: Node<T>, q: Node<T>, leq: (Node<T>, Node<T>) -> bool, ghost k: nat)
      returns (prev: Node<T>, ghost j: nat)
      requires Valid() && k <= |nodes| && start == Ring()[k]
      requires start.handles > (if start == sentinel then 1 else 0)
      modifies sentinel, nodes
      ensures Valid() && j <= k && prev == Ring()[j]
      ensures j == 0 || leq(nodes[j - 1], q)
      ensures forall m :: j <= m < k ==> !leq(nodes[m], q)
      ensures forall n :: InRing(n) ==> n.handles == old(n.handles) - One(n == start) + One(n == prev)
    {
      prev, j := start, k;
      while prev != sentinel && !leq(prev, q)
        invariant Valid() && j <= k && prev == Ring()[j]
        invariant forall m :: j <= m < k ==> !leq(nodes[m], q)
        invariant forall n :: InRing(n) ==> n.handles == old(n.handles) - One(n == start) + One(n == prev)
        decreases j
      {
        assert prev == nodes[j - 1];
        var before := prev.prev;
        assert before == Ring()[j - 1];
        Hold(before);
        Unhold(prev);
        prev, j := before, j - 1;
      }
    }

    /** The first half of a turn of `Sort`: handles on both neighbours, then the removal. */
    method Extract(q: Node<T>, ghost i: nat) returns (prev: Node<T>, next: Node<T>)
      requires Valid() && i < |nodes| && q == nodes[i] && q.handles > 0
      modifies this`nodes, sentinel, nodes, len
      ensures Valid() && nodes == old(nodes)[..i] + old(nodes)[i + 1..]
      ensures prev == Ring()[i] && next == EndOf(old(nodes), i + 1)
      ensures q.Detached() && !q.freed && q !in nodes && q != sentinel
      ensures q.handles == old(q.handles)
      ensures forall n :: InRing(n) ==> n.handles == old(n.handles) + One(n == prev) + One(n == next)
    {
      ghost var ring := Ring();
      next := q.next;
      prev := q.prev;
      assert ring[i + 1] == q && next == ring[i + 2] && prev == ring[i];
      Hold(next);
      Hold(prev);
      Remove(q, i);
    }

    /** The last part of a turn of `Sort`: links `q` in behind `prev` and drops both handles. */
    method PutBack(prev: Node<T>, q: Node<T>, ghost j: nat)
      requires Valid() && j <= |nodes| && prev == Ring()[j]
      requires prev.handles > (if prev == sentinel then 1 else 0)
      requires q.Detached() && q.handles > 0
      modifies this`nodes, sentinel, nodes, q, len
      ensures Valid() && nodes == old(nodes)[..j] + [q] + old(nodes)[j..]
      ensures q.handles == old(q.handles) - 1
      ensures forall n :: n == sentinel || n in old(nodes) ==> n.handles == old(n.handles) - One(n == prev)
    {
      hide Distinct;
      assert prev.next == Ring()[j + 1];
      InsertAfter(prev, q, j);
      Unhold(prev);
      Unhold(q);
    }

    /** The body of `Sort`'s outer loop: takes the `i`-th node out and puts it back behind the
        last of the first `i` that does not compare greater.  The handle on `q` is traded for
        one on its old successor. */
    method MoveBack(q: Node<T>, leq: (Node<T>, Node<T>) -> bool, ghost i: nat) returns (next: Node<T>)
      requires Valid() && i < |nodes| && q == nodes[i] && q.handles > 0
      modifies this`nodes, sentinel, nodes, len
      ensures Valid() && next == EndOf(old(nodes), i + 1)
      ensures nodes == StableSort.Insert(old(nodes)[..i], q, leq) + old(nodes)[i + 1..]
      ensures forall n :: n == sentinel || n in old(nodes) ==>
                            n.handles == old(n.handles) - One(n == q) + One(n == next)
    {
      hide Linked, Distinct, StableSort.Insert;
      ghost var was, j := nodes, 0;
      var prev;
      prev, next := Extract(q, i);
      ghost var rest := nodes;
      assert forall n :: n in was <==> n in rest || n == q;
      prev, j := FindPlace(prev, q, leq, i);
      PutBack(prev, q, j);
      assert nodes == StableSort.Insert(was[..i], q, leq) + was[i + 1..] by {
        assert forall m :: 0 <= m < i ==> rest[m] == was[..i][m];
        StableSort.InsertSplits(was[..i], q, leq, j);
        MovedBack(was, i, j, q);
      }
    }

    /** The state of `Sort` after `i` nodes are in place: `was` is the list it started from, `held`
        the handle counts it started from, `q` the next node to move. */
    ghost predicate SortedUpTo(was: seq<Node<T>>, held: map<Node<T>, nat>, i: nat, q: Node<T>,
                               leq: (Node<T>, Node<T>) -> bool)
      reads this, sentinel, was
    {
      && 1 <= i <= |was| && q == EndOf(was, i) && sentinel !in was
      && nodes == StableSort.Sort(was[..i], leq) + was[i..]
      && (forall n <- nodes :: n in was) && (forall n <- was :: n in nodes)
      && sentinel in held && sentinel.handles == held[sentinel] + 1 + One(q == sentinel)
      && (forall n <- was :: n in held && n.handles == held[n] + One(n == q))
    }

    method StartSort(leq: (Node<T>, Node<T>) -> bool, ghost held: map<Node<T>, nat>) returns (q: Node<T>)
      requires Valid() && |nodes| > 1
      requires sentinel in held && held[sentinel] == sentinel.handles
      requires forall n <- nodes :: n in held && held[n] == n.handles
      modifies sentinel, nodes
      ensures Valid() && SortedUpTo(nodes, held, 1, q, leq)
    {
      hide StableSort.Sort, Distinct;
      assert Ring()[0] == sentinel && Ring()[1] == nodes[0] && Ring()[2] == EndOf(nodes, 1);
      Hold(sentinel);
      q := sentinel.next.next;
      assert q == nodes[1];
      Hold(q);
      StableSort.SortShort(nodes[..1], leq);
      assert nodes[..1] + nodes[1..] == nodes;
    }

    method SortTurn(q: Node<T>, leq: (Node<T>, Node<T>) -> bool, ghost was: seq<Node<T>>,
                    ghost held: map<Node<T>, nat>, ghost i: nat) returns (next: Node<T>)
      requires Valid() && SortedUpTo(was, held, i, q, leq) && q != sentinel
      modifies this`nodes, sentinel, was, len
      ensures Valid() && SortedUpTo(was, held, i + 1, next, leq)
    {
      hide Linked, Distinct, StableSort.Sort, StableSort.Insert;
      ghost var mix := nodes;
      assert mix[i] == q && mix[i..] == was[i..] && mix[..i] == StableSort.Sort(was[..i], leq);
      forall k | 0 <= k < |nodes|
        ensures nodes[k] in was
      {
        assert nodes[k] in nodes;
      }
      next := MoveBack(q, leq, i);
      assert mix[i + 1..] == was[i + 1..];
      assert EndOf(mix, i + 1) == EndOf(was, i + 1);
      StableSort.SortNext(was, i, leq);
      StableSort.SortedPrefixMembers(was, i + 1, leq);
    }

    /** Stable insertion sort in place. */
    method Sort(leq: (Node<T>, Node<T>) -> bool)
      requires Valid()
      modifies this`nodes, sentinel, nodes, len
      ensures Valid() && nodes == StableSort.Sort(old(nodes), leq)
      ensures sentinel.handles == old(sentinel.handles)
      ensures forall n <- old(nodes) :: n in nodes && n.handles == old(n.handles)
    {
      hide StableSort.Sort, Linked, Distinct;
      ghost var was := nodes;
      if len.n <= 1 {
        StableSort.SortShort(was, leq);
        return;
      }
      ghost var held: map<Node<T>, nat> := map n | n in was || n == sentinel :: n.handles;
      var q := StartSort(leq, held);
      ghost var i := 1;
      while q != sentinel
        invariant Valid() && SortedUpTo(was, held, i, q, leq)
        decreases |was| - i
      {
        q := SortTurn(q, leq, was, held, i);
        i := i + 1;
      }
      assert was[..i] == was && was[i..] == [];
      Unhold(q);
      Unhold(sentinel);
    }
  }

  /** A queue of two elements that nobody else holds. */
  method PairOf<T>(first: T, second: T) returns (q: Queue<T>, a: Node<T>, b: Node<T>)
    ensures fresh(q) && fresh(q.sentinel) && fresh(q.len) && fresh(a) && fresh(b)
    ensures q.Valid() && q.nodes == [a, b] && a.handles == 0 && b.handles == 0 && b.data == Some(second)
  {
    q := new Queue();
    a := new Node(first);
    b := new Node(second);
    assert q.Ring()[1].prev == q.sentinel;
    q.InsertTail(a);
    assert q.Ring()[2].prev == a;
    q.InsertTail(b);
    assert q.nodes == [a, b];
    q.Unhold(a);
    q.Unhold(b);
  }

  /** The input: of two elements that only the queue holds, the first panics when dropped.  The
      queue is empty afterwards, and the second is neither in it nor free. */
  method ClearLeaks<T>(first: T, second: T) returns (q: Queue<T>, b: Node<T>)
    ensures q.Valid() && q.nodes == []
    ensures b.data == Some(second) && b.handles == 0 && b.inQueue && !b.freed
  {
    var a;
    q, a, b := PairOf(first, second);
    ghost var was := q.nodes;
    var panics := (n: Node<T>) => n == a;
    var ok, k := q.Clear(panics);
    assert was[0] == a && was[1] == b && a != b;
    assert DropPanics(was[0], panics);
  }
}
