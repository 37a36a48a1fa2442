/** Two-level sequence numbers, the chunks that carry them through the pipeline, and bytes as numbers. */
module Chunks {
  type Bytes = seq<bv8>

  /** First level: the coarse piece; second level: the chunk inside it. */
  datatype Seqno = Seqno(l1: nat, l2: nat) {
    predicate Less(other: Seqno) {
      if l1 < other.l1 then true else l1 == other.l1 && l2 < other.l2
    }

    function IncL1(): Seqno {
      Seqno(l1 + 1, 0)
    }

    function IncL2(): Seqno {
      Seqno(l1, l2 + 1)
    }
  }

  datatype Chunk = Chunk(sequence: Seqno, isLast: bool, data: Bytes)

  // ---------- numbers as bytes ----------

  function ByteOf(n: nat): (b: bv8)
    requires n < 256
  {
    n as bv8
  }

  function ValueOf(b: bv8): (n: nat)
    ensures n < 256
  {
    b as nat
  }

  lemma ValueRoundTrip(b: bv8)
    ensures ByteOf(ValueOf(b)) == b
  {
  }

  lemma ValueOfNext(b: bv8)
    requires ValueOf(b) < 255
    ensures ValueOf(b + 1) == ValueOf(b) + 1
  {
  }

  // Every value is that of a byte.
  lemma {:induction false} ByteWith(n: nat) returns (b: bv8)
    requires n < 256
    ensures ValueOf(b) == n
  {
    if n == 0 {
      b := 0;
    } else {
      var c := ByteWith(n - 1);
      ValueOfNext(c);
      b := c + 1;
    }
  }

  lemma ByteRoundTrip(n: nat)
    requires n < 256
    ensures ValueOf(ByteOf(n)) == n
  {
    hide ByteOf, ValueOf;
    var b := ByteWith(n);
    ValueRoundTrip(b);
  }

  function Power256(k: nat): (p: nat)
    ensures p > 0
  {
    if k == 0 then 1 else 256 * Power256(k - 1)
  }

  lemma Widths()
    ensures Power256(4) == 0x1_0000_0000 && Power256(8) == 0x1_0000_0000_0000_0000
  {
    assert Power256(4) == 256 * Power256(3) && Power256(3) == 256 * Power256(2) && Power256(2) == 256 * Power256(1);
    assert Power256(8) == 256 * Power256(7) && Power256(7) == 256 * Power256(6) && Power256(6) == 256 * Power256(5);
  }
}
