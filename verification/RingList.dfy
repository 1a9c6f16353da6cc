/** The intrusive circular list of r2, on the heap.

    `add` links a node behind the tail without touching the header's `prev`, so
    that one pointer is only right by accident; `leave_one` is correct for every
    other node all the same. */
module RingList {
  import opened Collections

  class Node {
    const id: nat
    var prev: Node?
    var next: Node?
    var active: bool
    var failed: bool

    constructor (id: nat)
      ensures this.id == id && prev == null && next == null && !active && !failed
    {
      this.id := id;
      prev, next, active, failed := null, null, false, false;
    }
  }

  /** The node behind position i, going around. */
  ghost function Following(ring: seq<Node>, i: nat): Node
    requires i < |ring|
  {
    if i + 1 == |ring| then ring[0] else ring[i + 1]
  }

  /** Following `next` from the header visits the ring once and returns to it;
      `prev` is right everywhere but at the header. */
  ghost predicate Linked(ring: seq<Node>)
    reads ring
  {
    && NoDup(ring)
    && (forall i :: 0 <= i < |ring| - 1 ==> ring[i].next == ring[i + 1])
    && (ring != [] ==> ring[|ring| - 1].next == ring[0])
    && (forall i :: 1 <= i < |ring| ==> ring[i].prev == ring[i - 1])
  }

  /** The node reached from n by k hops along `next`. */
  ghost function Follow(n: Node, k: nat, ring: seq<Node>): Node?
    reads ring
  {
    if k == 0 then n
    else
      var m := Follow(n, k - 1, ring);
      if m == null || m !in ring then null else m.next
  }

  /** Walking `next` from the header visits the ring in order and returns. */
  lemma {:induction false} FollowRing(ring: seq<Node>, k: nat)
    requires Linked(ring) && ring != [] && k <= |ring|
    ensures Follow(ring[0], k, ring) == if k == |ring| then ring[0] else ring[k]
  {
    if k > 0 {
      FollowRing(ring, k - 1);
      assert ring[k - 1].next == if k == |ring| then ring[0] else ring[k];
    }
  }

  /** A ring with one node bypassed, in terms of the ring it was. */
  lemma Bypassed(was: seq<Node>, k: nat)
    requires NoDup(was) && 0 < k < |was|
    requires was[k - 1].next == Following(was, k)
    requires forall i :: 0 <= i < |was| - 1 && i != k - 1 && i != k ==> was[i].next == was[i + 1]
    requires k + 1 < |was| ==> was[|was| - 1].next == was[0]
    requires forall i :: 1 <= i < |was| && i != k && i != k + 1 ==> was[i].prev == was[i - 1]
    requires k + 1 < |was| ==> was[k + 1].prev == was[k - 1]
    ensures Linked(was[..k] + was[k + 1..])
  {
    NoDupWithout(was, k);
    var ring := was[..k] + was[k + 1..];
    forall i | 0 <= i < |ring|
      ensures ring[i].next == Following(ring, i)
      ensures i > 0 ==> ring[i].prev == ring[i - 1]
    {
      assert ring[i] == was[if i < k then i else i + 1];
    }
  }

  class LinkedList {
    var header: Node?
    var tailer: Node?
    ghost var ring: seq<Node>

    ghost predicate Valid()
      reads this, ring
    {
      && Linked(ring)
      && (if ring == [] then header == null && tailer == null
          else header == ring[0] && tailer == ring[|ring| - 1])
    }

    constructor ()
      ensures Valid() && ring == []
    {
      header, tailer, ring := null, null, [];
    }

    method Add(n: Node)
      requires Valid() && n !in ring
      modifies this, n`prev, n`next
      modifies if tailer == null then {} else {tailer}`next
      ensures Valid() && ring == old(ring) + [n]
    {
      var prev := tailer;
      if header == null {
        header := n;
        tailer := n;
        prev := n;
      } else {
        assert tailer.next == header;
      }
      tailer.next := n;
      tailer := n;
      n.prev := prev;
      n.next := header;
      ring := ring + [n];
    }

    /** Unlinks a node other than the header and returns its successor. */
    method LeaveOne(n: Node, ghost k: nat) returns (next: Node)
      requires Valid() && 0 < k < |ring| && ring[k] == n
      modifies this, n`prev, n`next, {ring[k - 1]}`next, {Following(ring, k)}`prev
      ensures Valid() && ring == old(ring[..k] + ring[k + 1..])
      ensures next == old(Following(ring, k))
      ensures n.prev == null && n.next == null
    {
      ghost var was := ring;
      NoDupAt(was, k);
      NoDupAt(was, k - 1);
      NoDupAt(was, if k + 1 == |was| then 0 else k + 1);
      hide NoDup;
      assert was[k - 1] in was && Following(was, k) in was;
      next := n.next;
      n.prev.next := next;
      n.next.prev := n.prev;
      if tailer == n {
        tailer := n.prev;
      }
      n.prev := null;
      n.next := null;
      ring := ring[..k] + ring[k + 1..];
      Bypassed(was, k);
      hide Linked;
    }
  }
}
