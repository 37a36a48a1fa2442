/** The reorder stage's cache: a search tree over first-level numbers whose elements are heaps
    ordered by second-level number. It stands for a bag of chunks. */
module ChunkCache {
  import opened Wrappers
  import opened Chunks
  import BinHeap
  import Tree = SearchTree

  const INITIAL_SEARCH_TREE_SIZE := 4096

  // The heap of key k; its array belongs to no other key.
  ghost predicate HeapFor(k: int, h: BinHeap.PriorityQueue)
    reads h, h.elements
  {
    h.Valid() && h.Level1 == k
  }

  ghost predicate Owned(k: int, h: BinHeap.PriorityQueue, owner: map<object, int>)
    reads h
  {
    h.elements in owner && owner[h.elements] == k
  }

  method NewHeap(c: Chunk) returns (queue: BinHeap.PriorityQueue)
    ensures fresh(queue) && fresh(queue.elements) && HeapFor(c.sequence.l1, queue) && queue.size > 0
    ensures forall d :: queue.Count(d) == if d == c then 1 else 0
  {
    queue := new BinHeap.PriorityQueue.Initialize(INITIAL_SEARCH_TREE_SIZE, c.sequence.l1);
    queue.Insert(c);
  }

  class ChunkCache {
    var root: Tree.TreeNode?<BinHeap.PriorityQueue>
    ghost var Heaps: map<int, BinHeap.PriorityQueue>
    ghost var Owner: map<object, int>
    ghost var Repr: set<object>

    ghost predicate Consistent()
      reads this, Repr
      ensures Consistent() ==> this in Repr
    {
      && this in Repr && Owner.Keys <= Repr
      && (root != null ==> root in Repr && root.Repr <= Repr)
      && Tree.ValidTree(root) && Tree.MapOf(root) == Heaps
      && (forall k :: k in Heaps ==> Heaps[k] in Repr && Heaps[k].elements in Repr && Owned(k, Heaps[k], Owner))
      && (forall k :: k in Heaps ==> HeapFor(k, Heaps[k]))
    }

    // A heap that becomes empty is dropped with its node.
    ghost predicate Valid()
      reads this, Repr
      ensures Valid() ==> this in Repr
    {
      Consistent() && forall k :: k in Heaps ==> Heaps[k].size > 0
    }

    /** How often a chunk is cached. */
    ghost function Count(c: Chunk): (n: nat)
      reads this, Repr
      requires Consistent()
    {
      if c.sequence.l1 in Heaps then Heaps[c.sequence.l1].Count(c) else 0
    }

    constructor ()
      ensures Valid() && fresh(Repr)
      ensures forall c :: Count(c) == 0
    {
      root := null;
      Heaps := map[];
      Owner := map[];
      Repr := {this};
    }

    method Add(c: Chunk)
      requires Valid()
      modifies Repr
      ensures Valid() && fresh(Repr - old(Repr))
      ensures forall d :: Count(d) == old(Count(d)) + if d == c then 1 else 0
    {
      var pos := Tree.Find(c.sequence.l1, root);
      if pos == null {
        AddFirst(c);
      } else {
        AddTo(pos.value, c);
      }
    }

    // No chunk of this first-level number is cached yet: a new heap goes into the tree.
    method AddFirst(c: Chunk)
      requires Valid() && c.sequence.l1 !in Heaps
      modifies Repr
      ensures Valid() && fresh(Repr - old(Repr))
      ensures forall d :: Count(d) == old(Count(d)) + if d == c then 1 else 0
    {
      var l1 := c.sequence.l1;
      var queue := NewHeap(c);
      Link(queue, l1);
    }

    method Link(queue: BinHeap.PriorityQueue, l1: nat)
      requires Valid() && l1 !in Heaps && HeapFor(l1, queue) && queue.size > 0
      requires queue !in Repr && queue.elements !in Repr
      modifies this, Tree.ReprOf(root)
      ensures Valid() && fresh(Repr - old(Repr) - {queue, queue.elements})
      ensures Heaps == old(Heaps)[l1 := queue]
    {
      hide BinHeap.PriorityQueue.Valid;
      ghost var before, tree := Repr, Tree.ReprOf(root);
      root := Tree.Insert(l1, queue, root);
      Record(queue, l1);
      assert Repr - before - {queue, queue.elements} <= root.Repr - tree;
    }

    ghost method Record(queue: BinHeap.PriorityQueue, l1: nat)
      requires root != null && Tree.ValidTree(root) && Tree.MapOf(root) == Heaps[l1 := queue]
      requires this in Repr && Owner.Keys <= Repr
      requires l1 !in Heaps && HeapFor(l1, queue) && queue.elements !in Owner
      requires forall k :: k in Heaps ==> Heaps[k] in Repr && Heaps[k].elements in Repr && Owned(k, Heaps[k], Owner)
      requires forall k :: k in Heaps ==> HeapFor(k, Heaps[k]) && Heaps[k].size > 0
      requires queue.size > 0
      modifies this`Heaps, this`Owner, this`Repr
      ensures Valid() && Repr == old(Repr) + root.Repr + {queue, queue.elements}
      ensures Heaps == old(Heaps)[l1 := queue]
    {
      hide BinHeap.PriorityQueue.Valid, Tree.MapOf;
      Heaps := Heaps[l1 := queue];
      Owner := Owner[queue.elements := l1];
      Repr := Repr + root.Repr + {queue, queue.elements};
      forall k | k in Heaps ensures HeapFor(k, Heaps[k]) && Owned(k, Heaps[k], Owner) && Heaps[k] in Repr {
        assert k != l1 ==> old(HeapFor(k, Heaps[k]) && Owned(k, Heaps[k], Owner));
      }
    }

    // The heap of this first-level number grows in place; the tree is not touched.
    method AddTo(queue: BinHeap.PriorityQueue, c: Chunk)
      requires Valid() && c.sequence.l1 in Heaps && queue == Heaps[c.sequence.l1]
      modifies Repr
      ensures Valid() && fresh(Repr - old(Repr))
      ensures forall d :: Count(d) == old(Count(d)) + if d == c then 1 else 0
    {
      var l1 := c.sequence.l1;
      assert HeapFor(l1, queue);
      queue.Insert(c);
      Rehouse(queue, l1);
    }

    // The heap of a number may have moved to a new array.
    ghost method Rehouse(queue: BinHeap.PriorityQueue, l1: nat)
      requires this in Repr && Owner.Keys <= Repr && (root != null ==> root in Repr && root.Repr <= Repr)
      requires Tree.ValidTree(root) && Tree.MapOf(root) == Heaps
      requires l1 in Heaps && Heaps[l1] == queue && queue in Repr && HeapFor(l1, queue) && queue.size > 0
      requires queue.elements in Owner ==> Owner[queue.elements] == l1
      requires forall k :: k in Heaps && k != l1 ==>
                             Heaps[k] in Repr && Heaps[k].elements in Repr && Owned(k, Heaps[k], Owner)
      requires forall k :: k in Heaps && k != l1 ==> HeapFor(k, Heaps[k]) && Heaps[k].size > 0
      modifies this`Owner, this`Repr
      ensures Valid() && Repr == old(Repr) + {queue.elements}
    {
      hide BinHeap.PriorityQueue.Valid, Tree.MapOf;
      Owner := Owner[queue.elements := l1];
      Repr := Repr + {queue.elements};
      forall k | k in Heaps ensures HeapFor(k, Heaps[k]) && Owned(k, Heaps[k], Owner) {
        assert k != l1 ==> old(HeapFor(k, Heaps[k]) && Owned(k, Heaps[k], Owner));
      }
    }

    method IsEmpty() returns (b: bool)
      requires Valid()
      ensures b ==> forall d :: Count(d) == 0
      ensures !b ==> exists d :: Count(d) > 0
    {
      var pos := Tree.FindMin(root);
      b := pos == null;
      if !b {
        assert HeapFor(pos.key, pos.value);
        var c := pos.value.FindMin();
        assert Count(c.value) > 0;
      }
    }

    /** Take the chunk numbered `next` out of the cache if it is the least one cached: the least
        node must carry its first-level number and the root of that heap its second-level number. */
    method TakeIfNext(next: Seqno) returns (c: Option<Chunk>)
      requires Valid()
      modifies Repr
      ensures Valid() && fresh(Repr - old(Repr))
      ensures c.Some? ==> c.value.sequence == next
                          && forall d :: old(Count(d)) == Count(d) + if d == c.value then 1 else 0
      ensures c.None? ==> forall d :: Count(d) == old(Count(d))
      ensures c.None? && (forall d :: Count(d) > 0 ==> !d.sequence.Less(next)) ==>
                forall d :: Count(d) > 0 ==> d.sequence != next
    {
      hide BinHeap.PriorityQueue.Valid, Tree.ValidTree;
      var pos := Tree.FindMin(root);
      if pos == null {
        return None;
      }
      assert HeapFor(pos.key, pos.value);
      c := pos.value.FindMin();
      assert Count(c.value) > 0;
      if pos.key != next.l1 || c.value.sequence != next {
        return None;
      }
      var taken := TakeFrom(pos.key, pos.value);
    }

    // Remove the root of the least heap, and the heap with its node when that empties it.
    method TakeFrom(key: nat, queue: BinHeap.PriorityQueue) returns (p: BinHeap.Pointer)
      requires Valid() && key in Heaps && queue == Heaps[key]
      modifies Repr
      ensures Valid() && Repr == old(Repr)
      ensures p == old(queue.Cells[1]) && p.Some?
      ensures forall d :: old(Count(d)) == Count(d) + if d == p.value then 1 else 0
    {
      hide BinHeap.PriorityQueue.Valid, Tree.ValidTree;
      p := PopHeap(key, queue);
      if queue.IsEmpty() {
        Unlink(key);
      }
    }

    method PopHeap(key: nat, queue: BinHeap.PriorityQueue) returns (p: BinHeap.Pointer)
      requires Valid() && key in Heaps && queue == Heaps[key]
      modifies queue, queue.elements
      ensures Consistent() && HeapFor(key, queue) && forall k :: k in Heaps && k != key ==> Heaps[k].size > 0
      ensures p == old(queue.Cells[1]) && p.Some?
      ensures queue.size == 0 ==> forall d :: queue.Count(d) == 0
      ensures forall d :: old(Count(d)) == Count(d) + if d == p.value then 1 else 0
    {
      assert HeapFor(key, queue);
      p := queue.DeleteMin();
      assert HeapFor(key, queue);
      forall k | k in Heaps && k != key ensures HeapFor(k, Heaps[k]) {
        assert old(HeapFor(k, Heaps[k]) && Owned(k, Heaps[k], Owner));
      }
    }

    method Unlink(key: nat)
      requires Consistent() && key in Heaps && Heaps[key].size == 0
      requires forall k :: k in Heaps && k != key ==> Heaps[k].size > 0
      requires forall d :: Heaps[key].Count(d) == 0
      modifies this`root, this`Heaps, Tree.ReprOf(root)
      ensures Valid() && Repr == old(Repr)
      ensures Heaps == old(Heaps) - {key}
    {
      hide BinHeap.PriorityQueue.Valid;
      root := Tree.Delete(key, root);
      Forget(key);
    }

    ghost method Forget(key: int)
      requires this in Repr && Owner.Keys <= Repr
      requires root != null ==> root in Repr && root.Repr <= Repr
      requires Tree.ValidTree(root) && Tree.MapOf(root) == Heaps - {key}
      requires forall k :: k in Heaps ==> Heaps[k] in Repr && Heaps[k].elements in Repr && Owned(k, Heaps[k], Owner)
      requires forall k :: k in Heaps ==> HeapFor(k, Heaps[k]) && (k != key ==> Heaps[k].size > 0)
      modifies this`Heaps
      ensures Valid() && Heaps == old(Heaps) - {key}
    {
      Heaps := Heaps - {key};
    }
  }
}
