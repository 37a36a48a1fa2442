/** The binary heap of chunk pointers ordered by second-level number. Cell 0 holds a null
    sentinel that stops the upward sift; the array doubles when it is full. */
module BinHeap {
  import opened Wrappers
  import opened Chunks

  const MIN_CAPACITY := 16

  type Pointer = Option<Chunk>

  // ---------- heap order on sequences; cell 0 is the sentinel ----------

  predicate Slots(s: seq<Pointer>) {
    |s| >= 1 && s[0] == None && forall j :: 1 <= j < |s| ==> s[j].Some?
  }

  function Key(p: Pointer): (k: nat)
    requires p.Some?
  {
    p.value.sequence.l2
  }

  predicate Edge(s: seq<Pointer>, j: nat)
    requires Slots(s) && 2 <= j < |s|
  {
    Key(s[j / 2]) <= Key(s[j])
  }

  ghost predicate Heap(s: seq<Pointer>) {
    Slots(s) && forall j :: 2 <= j < |s| ==> Edge(s, j)
  }

  // Every order between parent and child holds except the one above cell i, and the children
  // of cell i are not below its parent.
  ghost predicate HeapExceptAbove(s: seq<Pointer>, i: nat) {
    && Slots(s)
    && (forall j :: 2 <= j < |s| && j != i ==> Edge(s, j))
    && (forall j :: 2 <= j < |s| && j / 2 == i && i >= 2 ==> Key(s[i / 2]) <= Key(s[j]))
  }

  // The same with the orders between cell i and its children missing.
  ghost predicate HeapExceptBelow(s: seq<Pointer>, i: nat) {
    && Slots(s)
    && (forall j :: 2 <= j < |s| && j / 2 != i ==> Edge(s, j))
    && (forall j :: 2 <= j < |s| && j / 2 == i && i >= 2 ==> Key(s[i / 2]) <= Key(s[j]))
  }

  function Swap(s: seq<Pointer>, i: nat, j: nat): (r: seq<Pointer>)
    requires i < |s| && j < |s|
    ensures |r| == |s|
  {
    s[i := s[j]][j := s[i]]
  }

  lemma SiftUpStep(s: seq<Pointer>, i: nat)
    requires HeapExceptAbove(s, i) && 2 <= i < |s| && Key(s[i / 2]) > Key(s[i])
    ensures HeapExceptAbove(Swap(s, i, i / 2), i / 2)
  {
    var t := Swap(s, i, i / 2);
    forall j | 2 <= j < |t| && j != i / 2 ensures Edge(t, j) {
      assert j != i ==> Edge(s, j);
      if j / 2 == i / 2 {
        assert i / 2 >= 2 ==> Edge(s, i / 2);
      }
    }
    forall j | 2 <= j < |t| && j / 2 == i / 2 && i / 2 >= 2 ensures Key(t[i / 2 / 2]) <= Key(t[j]) {
      assert Edge(s, i / 2);
      assert j != i ==> Edge(s, j);
    }
  }

  lemma SiftDownStep(s: seq<Pointer>, i: nat, c: nat)
    requires HeapExceptBelow(s, i) && 1 <= i && c / 2 == i && 2 <= c < |s|
    requires Key(s[c]) < Key(s[i])
    requires forall j :: 2 <= j < |s| && j / 2 == i ==> Key(s[c]) <= Key(s[j])
    ensures HeapExceptBelow(Swap(s, i, c), c)
  {
    var t := Swap(s, i, c);
    forall j | 2 <= j < |t| && j / 2 != c ensures Edge(t, j) {
      assert j / 2 != i ==> Edge(s, j);
    }
    forall j | 2 <= j < |t| && j / 2 == c ensures Key(t[c / 2]) <= Key(t[j]) {
      assert Edge(s, j);
    }
  }

  /** The first cell of a heap holds the least second-level number. */
  lemma {:induction false} RootIsLeast(s: seq<Pointer>, k: nat)
    requires Heap(s) && 1 <= k < |s|
    ensures Key(s[1]) <= Key(s[k])
  {
    if k >= 2 {
      assert Edge(s, k);
      RootIsLeast(s, k / 2);
    }
  }

  // ---------- how often a chunk occurs ----------

  function Occurrences(s: seq<Pointer>, c: Chunk): (n: nat) {
    if s == [] then 0
    else Occurrences(s[..|s| - 1], c) + if s[|s| - 1] == Some(c) then 1 else 0
  }

  lemma {:induction false} OccurrencesCount(s: seq<Pointer>, c: Chunk)
    ensures Occurrences(s, c) == multiset(s)[Some(c)]
  {
    if s != [] {
      OccurrencesCount(s[..|s| - 1], c);
      assert s == s[..|s| - 1] + [s[|s| - 1]];
    }
  }

  // The same chunks, each as often.
  ghost predicate SameChunks(s: seq<Pointer>, t: seq<Pointer>) {
    forall c :: Occurrences(s, c) == Occurrences(t, c)
  }

  lemma SwapKeepsChunks(s: seq<Pointer>, i: nat, j: nat)
    requires i < |s| && j < |s|
    ensures SameChunks(Swap(s, i, j), s)
  {
    assert multiset(Swap(s, i, j)) == multiset(s);
    forall c ensures Occurrences(Swap(s, i, j), c) == Occurrences(s, c) {
      OccurrencesCount(Swap(s, i, j), c);
      OccurrencesCount(s, c);
    }
  }

  lemma OneMore(s: seq<Pointer>, x: Chunk, t: seq<Pointer>, c: Chunk)
    requires SameChunks(t, s + [Some(x)])
    ensures Occurrences(t, c) == Occurrences(s, c) + if c == x then 1 else 0
  {
    assert (s + [Some(x)])[..|s|] == s;
  }

  lemma {:induction false} OccurrencesAppend(s: seq<Pointer>, t: seq<Pointer>, c: Chunk)
    ensures Occurrences(s + t, c) == Occurrences(s, c) + Occurrences(t, c)
  {
    if t == [] {
      assert s + t == s;
    } else {
      assert (s + t)[..|s + t| - 1] == s + t[..|t| - 1];
      OccurrencesAppend(s, t[..|t| - 1], c);
    }
  }

  /** A permutation of the cells after the last one replaced the root. */
  lemma RootGone(s: seq<Pointer>, t: seq<Pointer>, c: Chunk)
    requires Slots(s) && |s| >= 3 && SameChunks(t, s[..|s| - 1][1 := s[|s| - 1]])
    ensures Occurrences(s, c) == Occurrences(t, c) + if s[1] == Some(c) then 1 else 0
  {
    var n := |s| - 1;
    var replaced := s[..n][1 := s[n]];
    Split(s, c);
    Split(replaced, c);
    assert replaced[2..] == s[2..n] && s[2..] == s[2..n] + [s[n]];
    OccurrencesAppend(s[2..n], [s[n]], c);
  }

  lemma SentinelOnly(c: Chunk)
    ensures Occurrences([None], c) == 0
  {
    var s: seq<Pointer> := [None];
    assert s[..0] == [];
  }

  lemma Split(s: seq<Pointer>, c: Chunk)
    requires |s| >= 2 && s[0] == None
    ensures Occurrences(s, c) == Occurrences(s[2..], c) + if s[1] == Some(c) then 1 else 0
  {
    SentinelOnly(c);
    assert s == s[..2] + s[2..];
    OccurrencesAppend(s[..2], s[2..], c);
    assert s[..2][..1] == [None];
  }

  lemma {:induction false} Occurs(s: seq<Pointer>, c: Chunk) returns (k: nat)
    requires Occurrences(s, c) > 0
    ensures k < |s| && s[k] == Some(c)
  {
    if s[|s| - 1] == Some(c) {
      k := |s| - 1;
    } else {
      k := Occurs(s[..|s| - 1], c);
    }
  }

  lemma RootOccurs(s: seq<Pointer>)
    requires Heap(s) && |s| >= 2
    ensures Occurrences(s, s[1].value) > 0
  {
    OccurrencesCount(s, s[1].value);
    assert s[1] in multiset(s);
  }

  /** No chunk of the heap has a lower number than the root. */
  lemma OccursAboveRoot(s: seq<Pointer>, c: Chunk)
    requires Heap(s) && Occurrences(s, c) > 0
    ensures |s| >= 2 && s[1].value.sequence.l2 <= c.sequence.l2
  {
    var k := Occurs(s, c);
    RootIsLeast(s, k);
  }

  // All chunks of a heap share their first-level number.
  ghost predicate AllOf(s: seq<Pointer>, l1: nat) {
    forall j :: 0 <= j < |s| && s[j].Some? ==> s[j].value.sequence.l1 == l1
  }

  lemma AllOfSame(s: seq<Pointer>, t: seq<Pointer>, l1: nat)
    requires AllOf(s, l1) && SameChunks(t, s)
    ensures AllOf(t, l1)
  {
    forall j | 0 <= j < |t| && t[j].Some? ensures t[j].value.sequence.l1 == l1 {
      OccurrencesCount(t, t[j].value);
      assert t[j] in multiset(t);
      var k := Occurs(s, t[j].value);
    }
  }

  // ---------- the heap object ----------

  class PriorityQueue {
    var elements: array<Pointer>
    var capacity: nat
    var size: nat
    ghost var Cells: seq<Pointer>  // the cells in use, sentinel included
    ghost const Level1: nat  // the first-level number all chunks in this heap share

    ghost predicate Valid()
      reads this, elements
    {
      && MIN_CAPACITY <= capacity && elements.Length == capacity + 1
      && size <= capacity && |Cells| == size + 1
      && elements[..size + 1] == Cells
      && Heap(Cells)
      && AllOf(Cells, Level1)
    }

    /** How often a chunk is in the heap. */
    ghost function Count(c: Chunk): (n: nat)
      reads this
    {
      Occurrences(Cells, c)
    }

    constructor Initialize(initCapacity: nat, ghost level1: nat)
      requires initCapacity >= MIN_CAPACITY
      ensures Valid() && fresh(elements) && size == 0 && Level1 == level1 && forall c :: Count(c) == 0
    {
      Level1 := level1;
      elements := new Pointer[initCapacity + 1](_ => None);
      capacity := initCapacity;
      size := 0;
      Cells := [None];
      new;
      assert elements[..1] == [None];
      forall c {
        SentinelOnly(c);
      }
    }

    predicate IsEmpty()
      reads this
    {
      size == 0
    }

    method Grow()
      requires Valid()
      modifies this`capacity, this`elements
      ensures Valid() && capacity == 2 * old(capacity) && fresh(elements)
    {
      capacity := 2 * capacity;
      var bigger := new Pointer[capacity + 1](i requires 0 <= i reads this, elements =>
        if i < elements.Length then elements[i] else None);
      assert bigger[..size + 1] == elements[..size + 1];
      elements := bigger;
    }

    method Insert(x: Chunk)
      requires Valid() && x.sequence.l1 == Level1
      modifies this, elements
      ensures Valid() && size == old(size) + 1
      ensures forall c :: Count(c) == old(Count(c)) + if c == x then 1 else 0
      ensures elements == old(elements) || fresh(elements)
    {
      if size == capacity {
        Grow();
      }
      LastAdded(Cells, Some(x));
      ghost var t := Cells + [Some(x)];
      if size == 0 {
        elements[1] := Some(x);
      } else {
        t := SiftUp(size + 1, Some(x), t);
      }
      AllOfSame(Cells + [Some(x)], t, Level1);
      forall c {
        OneMore(Cells, x, t, c);
      }
      size := size + 1;
      Cells := t;
    }

    /** Move the parents of the hole at `last` down until `x` fits. */
    method SiftUp(last: nat, x: Pointer, ghost before: seq<Pointer>) returns (ghost after: seq<Pointer>)
      requires 1 <= last < elements.Length && x.Some? && |before| == last + 1
      requires elements[..last] == before[..last] && before[last] == x && HeapExceptAbove(before, last)
      modifies elements
      ensures after == elements[..last + 1] && Heap(after) && SameChunks(after, before)
    {
      var i := last;
      after := before;
      while elements[i / 2] != None && elements[i / 2].value.sequence.l2 > x.value.sequence.l2
        invariant 1 <= i <= last
        invariant after == elements[..last + 1][i := x]
        invariant HeapExceptAbove(after, i) && SameChunks(after, before)
        decreases i
      {
        SiftUpStep(after, i);
        SwapKeepsChunks(after, i, i / 2);
        ghost var e := elements[..last + 1];
        HoleMoves(e, i, i / 2, x);
        after := Swap(after, i, i / 2);
        elements[i] := elements[i / 2];
        assert elements[..last + 1] == e[i := e[i / 2]];
        i := i / 2;
      }
      elements[i] := x;
      assert elements[..last + 1] == after;
      assert i >= 2 ==> Edge(after, i);
    }

    method FindMin() returns (p: Pointer)
      requires Valid()
      ensures p == None <==> size == 0
      ensures p != None ==> p == Cells[1] && p.value.sequence.l1 == Level1 && Count(p.value) > 0
      ensures forall c :: Count(c) > 0 ==> p.Some? && p.value.sequence.l2 <= c.sequence.l2
    {
      forall c | Count(c) > 0 ensures size > 0 && Cells[1].value.sequence.l2 <= c.sequence.l2 {
        OccursAboveRoot(Cells, c);
      }
      if IsEmpty() {
        p := None;
      } else {
        p := elements[1];
        RootOccurs(Cells);
      }
    }

    method DeleteMin() returns (p: Pointer)
      requires Valid() && size > 0
      modifies this`size, this`Cells, elements
      ensures Valid() && size == old(size) - 1
      ensures p == old(Cells[1]) && p.Some?
      ensures size == 0 ==> forall c :: Count(c) == 0
      ensures forall c :: old(Count(c)) == Count(c) + if c == p.value then 1 else 0
    {
      p := elements[1];
      var lastElement := elements[size];
      ghost var n := size;
      size := size - 1;
      ghost var t := Cells[..n];
      if size == 0 {
        elements[1] := lastElement;
        assert t == [None];
        forall c ensures Occurrences(t, c) == 0 && Occurrences(Cells, c) == if c == p.value then 1 else 0 {
          SentinelOnly(c);
          Split(Cells, c);
        }
      } else {
        RootReplaced(Cells);
        ghost var s := t[1 := lastElement];
        t := SiftDown(size, lastElement, s);
        AllOfSame(s, t, Level1);
        forall c {
          RootGone(Cells, t, c);
        }
      }
      Cells := t;
    }

    method SmallerChild(i: nat, last: nat, ghost s: seq<Pointer>) returns (child: nat)
      requires 1 <= i && i * 2 <= last < elements.Length
      requires |s| == last + 1 && HeapExceptBelow(s, i)
      requires forall j :: i < j <= last ==> elements[j] == s[j]
      ensures child / 2 == i && 2 <= child <= last && child > i
      ensures forall j :: 2 <= j <= last && j / 2 == i ==> Key(s[child]) <= Key(s[j])
    {
      child := i * 2;
      if child != last && elements[child + 1].value.sequence.l2 < elements[child].value.sequence.l2 {
        child := child + 1;
      }
      assert forall j :: 2 <= j <= last && j / 2 == i ==> j == i * 2 || j == i * 2 + 1;
    }

    /** Move the smaller child of the hole at the root up until `x` fits. */
    method SiftDown(last: nat, x: Pointer, ghost before: seq<Pointer>) returns (ghost after: seq<Pointer>)
      requires 1 <= last < elements.Length && x.Some?
      requires before == elements[..last + 1][1 := x] && HeapExceptBelow(before, 1)
      modifies elements
      ensures after == elements[..last + 1] && Heap(after) && SameChunks(after, before)
    {
      var i := 1;
      after := before;
      while i * 2 <= last
        invariant 1 <= i <= last
        invariant after == elements[..last + 1][i := x]
        invariant HeapExceptBelow(after, i) && SameChunks(after, before)
        decreases last - i
      {
        var child := SmallerChild(i, last, after);
        if x.value.sequence.l2 > elements[child].value.sequence.l2 {
          SiftDownStep(after, i, child);
          SwapKeepsChunks(after, i, child);
          ghost var e := elements[..last + 1];
          HoleMoves(e, i, child, x);
          after := Swap(after, i, child);
          elements[i] := elements[child];
          assert elements[..last + 1] == e[i := e[child]];
          i := child;
        } else {
          break;
        }
      }
      elements[i] := x;
      assert elements[..last + 1] == after;
    }
  }

  /** Copying cell j into the hole at i and moving the hole to j swaps i and j. */
  lemma HoleMoves(e: seq<Pointer>, i: nat, j: nat, x: Pointer)
    requires i < |e| && j < |e| && i != j
    ensures Swap(e[i := x], i, j) == e[i := e[j]][j := x]
  {
  }

  lemma LastAdded(s: seq<Pointer>, x: Pointer)
    requires Heap(s) && x.Some?
    ensures HeapExceptAbove(s + [x], |s|)
  {
    forall j | 2 <= j < |s + [x]| && j != |s| ensures Edge(s + [x], j) {
      assert Edge(s, j);
    }
  }

  /** Putting the last element at the root breaks the order only between the root and its children. */
  lemma RootReplaced(s: seq<Pointer>)
    requires Heap(s) && |s| >= 3
    ensures HeapExceptBelow(s[..|s| - 1][1 := s[|s| - 1]], 1)
  {
    var n := |s| - 1;
    var v := s[..n][1 := s[n]];
    forall j | 2 <= j < |v| && j / 2 != 1 ensures Edge(v, j) {
      assert Edge(s, j);
    }
  }
}
