/** The chunk database: a fixed table of bucket chains, new entries at the head of their chain.
    Each bucket has its own lock; the index of the lock is the index of the bucket. */
module HashTables {
  import opened Wrappers
  import opened Chunks

  const PRIMES: seq<nat> := [
    53, 97, 193, 389, 769, 1543, 3079, 6151, 12289, 24593, 49157, 98317, 196613, 393241, 786433, 1572869,
    3145739, 6291469, 12582917, 25165843, 50331653, 100663319, 201326611, 402653189, 805306457, 1610612741
  ]

  /** A key is a SHA-1 sum. */
  const SHA1_LEN := 20
  type Key = k: Bytes | |k| == SHA1_LEN witness seq(SHA1_LEN, _ => 0)

  datatype Entry<V> = Entry(k: Key, h: bv32, v: V)
  datatype Chain<V> = Nil | Cons(e: Entry<V>, next: Chain<V>)

  // The first word of the key.
  function HashFromKey(k: Key): (h: bv32) {
    (k[0] as bv32) | ((k[1] as bv32) << 8) | ((k[2] as bv32) << 16) | ((k[3] as bv32) << 24)
  }

  function Hash(k: Key): (h: bv32) {
    var i := HashFromKey(k);
    var i := i + !(i << 9);
    var i := i ^ ((i >> 14) | (i << 18));
    var i := i + (i << 4);
    i ^ ((i >> 10) | (i << 22))
  }

  function Remainder(n: nat, length: nat): (i: nat)
    requires length > 0
    ensures i < length
  {
    n % length
  }

  function IndexFor(length: nat, h: bv32): (i: nat)
    requires length > 0
    ensures i < length
  {
    Remainder(h as nat, length)
  }

  /** What a chain stands for: the newest entry with the key. */
  function Lookup<V>(c: Chain<V>, k: Key): (r: Option<V>) {
    match c
    case Nil => None
    case Cons(e, next) => if e.k == k then Some(e.v) else Lookup(next, k)
  }

  // Entries remember the hash of their key and sit in the bucket of that hash.
  ghost predicate Filed<V>(c: Chain<V>, length: nat, i: nat)
    requires length > 0
  {
    match c
    case Nil => true
    case Cons(e, next) => e.h == Hash(e.k) && IndexFor(length, e.h) == i && Filed(next, length, i)
  }

  /** The size of a new table: the least listed prime above the request. */
  method TableSize(minsize: nat) returns (size: Option<nat>)
    ensures size.None? <==> minsize > 0x4000_0000
    ensures size.Some? ==> size.value > minsize && exists i :: 0 <= i < |PRIMES| && size.value == PRIMES[i]
    ensures size.Some? ==> forall i :: 0 <= i < |PRIMES| && PRIMES[i] > minsize ==> size.value <= PRIMES[i]
  {
    if minsize > 0x4000_0000 {
      return None;
    }
    PrimesGrow();
    assert PRIMES[25] > minsize;
    var s, pindex := PRIMES[0], 0;
    while pindex < |PRIMES|
      invariant pindex <= |PRIMES| && forall i :: 0 <= i < pindex ==> PRIMES[i] <= minsize
    {
      if PRIMES[pindex] > minsize {
        s := PRIMES[pindex];
        break;
      }
      pindex := pindex + 1;
    }
    return Some(s);
  }

  lemma PrimesGrow()
    ensures forall i, j :: 0 <= i < j < |PRIMES| ==> PRIMES[i] < PRIMES[j]
  {
    assert forall i :: 0 <= i < |PRIMES| - 1 ==> PRIMES[i] < PRIMES[i + 1];
    Ascending(PRIMES);
  }

  lemma {:induction false} Ascending(s: seq<nat>)
    requires forall i :: 0 <= i < |s| - 1 ==> s[i] < s[i + 1]
    ensures forall i, j :: 0 <= i < j < |s| ==> s[i] < s[j]
  {
    if |s| > 0 {
      var n := |s| - 1;
      Ascending(s[..n]);
      forall i, j | 0 <= i < j < |s| ensures s[i] < s[j] {
        assert forall a :: 0 <= a < n ==> s[..n][a] == s[a];
        if j == n && i < n - 1 {
          assert s[i] < s[n - 1];
        }
      }
    }
  }

  class HashTable<V> {
    var table: array<Chain<V>>
    ghost var Contents: map<Key, V>

    ghost predicate Valid()
      reads this, table
    {
      && table.Length > 0
      && (forall i :: 0 <= i < table.Length ==> Filed(table[i], table.Length, i))
      && (forall k: Key :: Lookup(table[LockOf(k)], k) == if k in Contents then Some(Contents[k]) else None)
    }

    /** The lock, and the bucket, of a key. */
    function LockOf(k: Key): (index: nat)
      reads this
      requires table.Length > 0
      ensures index < table.Length
    {
      IndexFor(table.Length, Hash(k))
    }

    constructor (size: nat)
      requires size > 0
      ensures Valid() && fresh(table) && table.Length == size && Contents == map[]
    {
      table := new Chain<V>[size](_ => Nil);
      Contents := map[];
    }

    /** The entry goes to the head of its chain; no other bucket is touched. */
    method Insert(k: Key, v: V)
      requires Valid()
      modifies this`Contents, table
      ensures Valid() && Contents == old(Contents)[k := v]
      ensures forall i :: 0 <= i < table.Length && i != LockOf(k) ==> table[i] == old(table[i])
    {
      var h := Hash(k);
      var index := IndexFor(table.Length, h);
      table[index] := Cons(Entry(k, h, v), table[index]);
      Contents := Contents[k := v];
    }

    /** The search compares stored hashes first; it finds the newest value of the key and reads one
        bucket only. */
    method Search(k: Key) returns (r: Option<V>)
      requires Valid()
      ensures r == if k in Contents then Some(Contents[k]) else None
      ensures r == Lookup(table[LockOf(k)], k)
    {
      var hashvalue := Hash(k);
      var index := IndexFor(table.Length, hashvalue);
      var e := table[index];
      while e.Cons?
        invariant Filed(e, table.Length, index) && Lookup(e, k) == Lookup(table[index], k)
        decreases e
      {
        if hashvalue == e.e.h && k == e.e.k {
          return Some(e.e.v);
        }
        e := e.next;
      }
      return None;
    }
  }
}
