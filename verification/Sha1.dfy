/** The streaming digest: a context that takes the message in pieces of any size. */
module Sha1 {
  import opened Chunks
  import opened Sequences
  import opened Sha1Block
  import HashTables

  const WORD := 0x1_0000_0000

  // ---------- the digest of a whole message (section 5.1.1 of FIPS 180-4) ----------

  function IV(): (h: Five) {
    Five(0x67452301, 0xefcdab89, 0x98badcfe, 0x10325476, 0xc3d2e1f0)
  }

  /** The k lowest bytes of a number, most significant first. */
  function BigEndian(n: nat, k: nat): (b: Bytes)
    ensures |b| == k
  {
    if k == 0 then [] else BigEndian(n / 256, k - 1) + [ByteOf(n % 256)]
  }

  function Zeros(n: nat): (b: Bytes)
    ensures |b| == n
  {
    seq(n, _ => 0)
  }

  // How many zero bytes make a message with its end mark a whole number of blocks, less 8 bytes.
  function Gap(n: nat): (g: nat)
    ensures (n + 1 + g + 8) % BLOCK == 0 && g < BLOCK
  {
    (BLOCK + 55 - n % BLOCK) % BLOCK
  }

  function Padded(m: Bytes): (p: Bytes)
    ensures |p| % BLOCK == 0
  {
    m + [0x80] + Zeros(Gap(|m|)) + BigEndian(8 * |m|, 8)
  }

  function Bytes20(h: Five): (d: Bytes)
    ensures |d| == 20
  {
    BytesOf(h.a) + BytesOf(h.b) + BytesOf(h.c) + BytesOf(h.d) + BytesOf(h.e)
  }

  function Digest(m: Bytes): (d: HashTables.Key) {
    Bytes20(Hash(IV(), Padded(m)))
  }

  // ---------- arithmetic of the length ----------

  function Shl3(len: nat): (r: nat) { (8 * len) % WORD }

  /** Two 32-bit words with a carry count bits modulo 2^64. */
  lemma CountBits(nl: nat, nh: nat, len: nat, total: nat)
    requires nl < WORD && nh < WORD && nh * WORD + nl == total % (WORD * WORD)
    ensures var l := (nl + Shl3(len)) % WORD;
            var carry := if l < nl then 1 else 0;
            var h := (nh + carry + len / 0x2000_0000) % WORD;
            h * WORD + l == (total + 8 * len) % (WORD * WORD)
  {
    var a, q := Shl3(len), len / 0x2000_0000;
    assert 8 * len == q * WORD + a by { EightTimes(len); }
    var l := (nl + a) % WORD;
    var carry := if l < nl then 1 else 0;
    assert nl + a == carry * WORD + l;
    var s := nh + carry + q;
    var k := total / (WORD * WORD);
    assert total + 8 * len == k * (WORD * WORD) + s * WORD + l;
    assert s == (s / WORD) * WORD + s % WORD;
    assert total + 8 * len == (k + s / WORD) * (WORD * WORD) + ((s % WORD) * WORD + l);
    ModOf(k + s / WORD, (s % WORD) * WORD + l);
  }

  lemma EightTimes(len: nat)
    ensures 8 * len == (len / 0x2000_0000) * WORD + (8 * len) % WORD
  {
  }

  lemma ModOf(k: nat, r: nat)
    requires r < WORD * WORD
    ensures (k * (WORD * WORD) + r) % (WORD * WORD) == r
  {
  }

  lemma {:induction false} BigEndianParts(high: nat, low: nat, k: nat, j: nat)
    requires low < Power256(k)
    ensures BigEndian(high * Power256(k) + low, j + k) == BigEndian(high, j) + BigEndian(low, k)
  {
    hide ByteOf;
    if k > 0 {
      var p := Power256(k - 1);
      assert high * Power256(k) == 256 * (high * p);
      Digits(high * p, low);
      BigEndianParts(high, low / 256, k - 1, j);
    }
  }

  lemma Digits(q: nat, low: nat)
    ensures (256 * q + low) / 256 == q + low / 256 && (256 * q + low) % 256 == low % 256
  {
  }

  // ---------- hashing in parts ----------

  lemma HashStep(h: Five, data: Bytes, block: Bytes)
    requires |data| % BLOCK == 0 && |block| == BLOCK
    ensures |data + block| % BLOCK == 0 && Hash(h, data + block) == Compress(Hash(h, data), block)
  {
    hide Compress;
    var p := data + block;
    assert p[..|p| - BLOCK] == data && p[|p| - BLOCK..] == block;
  }

  // ---------- the context ----------

  class Context {
    var h: Five
    var nl: nat
    var nh: nat
    var data: array<bv8>
    var num: nat
    // What has gone through the block function.
    ghost var Done: Bytes

    ghost predicate Valid()
      reads this, data
    {
      && data.Length == BLOCK && num < BLOCK && |Done| % BLOCK == 0 && h == Hash(IV(), Done)
      && nl < WORD && nh < WORD
    }

    // The two length words hold the number of bits modulo 2^64.
    ghost predicate Counts(n: nat)
      reads this`nl, this`nh
    {
      nh * WORD + nl == (8 * n) % (WORD * WORD)
    }

    /** Everything taken so far. */
    ghost function Message(): (m: Bytes)
      reads this, data
      requires Valid()
    {
      Done + data[..num]
    }

    constructor ()
      ensures Valid() && Message() == [] && Counts(0) && fresh(data)
    {
      h, nl, nh, num, Done := IV(), 0, 0, 0, [];
      data := new bv8[BLOCK](_ => 0);
    }

    // Copy into the buffer.
    method Copy(at: nat, p: Bytes)
      requires data.Length == BLOCK && at + |p| <= BLOCK
      modifies data
      ensures data[..at + |p|] == old(data[..at]) + p && data[at + |p|..] == old(data[at + |p|..])
    {
      forall i | 0 <= i < |p| {
        data[at + i] := p[i];
      }
    }

    // Run the block function over n blocks, at least one.
    method BlockDataOrder(p: Bytes, n: nat)
      requires n > 0 && |p| == n * BLOCK && |Done| % BLOCK == 0 && h == Hash(IV(), Done)
      modifies this`h, this`Done
      ensures Done == old(Done) + p && |Done| % BLOCK == 0 && h == Hash(IV(), Done)
    {
      hide Compress, Hash;
      ghost var start := Done;
      var i := 0;
      while i < n
        invariant i <= n && |p| == n * BLOCK && Done == start + p[..i * BLOCK]
        invariant |Done| % BLOCK == 0 && h == Hash(IV(), Done)
      {
        var block := p[i * BLOCK..(i + 1) * BLOCK];
        HashStep(IV(), Done, block);
        h := BlockUnrolled(h, block);
        assert p[..(i + 1) * BLOCK] == p[..i * BLOCK] + block;
        Done := Done + block;
        i := i + 1;
      }
      assert p[..n * BLOCK] == p;
    }

    method CountLength(len: nat, ghost total: nat)
      requires nl < WORD && nh < WORD && Counts(total)
      modifies this`nl, this`nh
      ensures nl < WORD && nh < WORD && Counts(total + len)
    {
      CountBits(nl, nh, len, 8 * total);
      var l := (nl + Shl3(len)) % WORD;
      var carry := if l < nl then 1 else 0;
      nh := (nh + carry + len / 0x2000_0000) % WORD;
      nl := l;
    }

    /** Take the next piece of the message. */
    method Update(p: Bytes)
      requires Valid() && Counts(|Message()|)
      modifies this, data
      ensures Valid() && data == old(data) && Message() == old(Message()) + p && Counts(|Message()|)
    {
      hide Counts, Hash;
      if |p| == 0 {
        assert Message() + p == Message();
        return;
      }
      CountLength(|p|, |Message()|);
      TakeIn(p);
    }

    method TakeIn(p: Bytes)
      requires Valid() && p != []
      modifies this`h, this`num, this`Done, data
      ensures Valid() && data == old(data) && Message() == old(Message()) + p
    {
      hide Hash;
      var rest := p;
      var n := num;
      if n != 0 {
        if |p| >= BLOCK || |p| + n >= BLOCK {
          FillUp(p[..BLOCK - n]);
          rest := p[BLOCK - n..];
        } else {
          Copy(n, p);
          num := num + |p|;
          return;
        }
      }
      WholeBlocks(rest);
      assert p[..|p| - |rest|] + rest == p;
    }

    // Complete the buffered block, run it and clear the buffer.
    method FillUp(p: Bytes)
      requires Valid() && num + |p| == BLOCK
      modifies this`h, this`num, this`Done, data
      ensures Valid() && num == 0 && Message() == old(Message()) + p
    {
      hide Hash;
      Copy(num, p);
      BlockDataOrder(data[..], 1);
      num := 0;
      forall i | 0 <= i < BLOCK {
        data[i] := 0;
      }
    }

    // With an empty buffer: run the whole blocks and keep the rest.
    method WholeBlocks(p: Bytes)
      requires Valid() && num == 0
      modifies this`h, this`num, this`Done, data
      ensures Valid() && Message() == old(Message()) + p
    {
      hide Hash;
      var n := |p| / BLOCK;
      var rest := p;
      if n > 0 {
        BlockDataOrder(p[..n * BLOCK], n);
        rest := p[n * BLOCK..];
        assert p == p[..n * BLOCK] + rest;
      }
      if |rest| != 0 {
        num := |rest|;
        Copy(0, rest);
      }
    }

    /** Pad, run the last one or two blocks and give the digest of everything taken. */
    method Final() returns (md: Bytes)
      requires Valid() && Counts(|Message()|)
      modifies this, data
      ensures md == Digest(old(Message()))
    {
      hide Hash, BigEndian, Bytes20, Padded, Zeros;
      ghost var done, tail := Done, data[..num];
      LengthField(nh, nl, |done + tail|);
      if num + 1 > BLOCK - 8 {
        PaddedInTwo(done, tail);
      } else {
        PaddedInOne(done, tail);
      }
      var n := num;
      Copy(n, [0x80]);
      n := n + 1;
      if n > BLOCK - 8 {
        Copy(n, Zeros(BLOCK - n));
        assert data[..] == tail + [0x80] + Zeros(BLOCK - n);
        n := 0;
        BlockDataOrder(data[..], 1);
      }
      LastBlock(n);
      num := 0;
      forall i | 0 <= i < BLOCK {
        data[i] := 0;
      }
      md := Bytes20(h);
    }

    // Zeros up to the length field, the length, and the block function.
    method LastBlock(n: nat)
      requires data.Length == BLOCK && n <= BLOCK - 8 && |Done| % BLOCK == 0 && h == Hash(IV(), Done)
      modifies this`h, this`Done, data
      ensures Done == old(Done) + (old(data[..n]) + Zeros(BLOCK - 8 - n) + (BigEndian(nh, 4) + BigEndian(nl, 4)))
      ensures |Done| % BLOCK == 0 && h == Hash(IV(), Done)
    {
      hide Hash, BigEndian, Zeros;
      Copy(n, Zeros(BLOCK - 8 - n));
      Copy(BLOCK - 8, BigEndian(nh, 4) + BigEndian(nl, 4));
      assert data[..] == old(data[..n]) + Zeros(BLOCK - 8 - n) + (BigEndian(nh, 4) + BigEndian(nl, 4));
      BlockDataOrder(data[..], 1);
    }
  }

  lemma ZerosAdd(a: nat, b: nat)
    ensures Zeros(a) + Zeros(b) == Zeros(a + b)
  {
  }

  // The padding fits into the block of the message's rest, or takes one block more.
  lemma PaddedInOne(done: Bytes, tail: Bytes)
    requires |done| % BLOCK == 0 && |tail| + 1 <= BLOCK - 8
    ensures Padded(done + tail) ==
            done + ((tail + [0x80]) + Zeros(BLOCK - 9 - |tail|) + BigEndian(8 * |done + tail|, 8))
  {
    hide *;
    GapAfterBlocks(|done|, |tail|);
    PaddedWith(done + tail, BLOCK - 9 - |tail|);
    JoinOne(done, tail, [0x80], Zeros(BLOCK - 9 - |tail|), BigEndian(8 * |done + tail|, 8));
  }

  lemma PaddedInTwo(done: Bytes, tail: Bytes)
    requires |done| % BLOCK == 0 && BLOCK - 8 < |tail| + 1 <= BLOCK
    ensures Padded(done + tail) ==
            done + (tail + [0x80] + Zeros(BLOCK - 1 - |tail|))
            + ([] + Zeros(BLOCK - 8) + BigEndian(8 * |done + tail|, 8))
  {
    hide Padded, Zeros, BigEndian, Gap;
    GapAfterBlocks(|done|, |tail|);
    PaddedApart(done, tail, BLOCK - 1 - |tail|, BLOCK - 8);
  }

  lemma PaddedApart(done: Bytes, tail: Bytes, a: nat, b: nat)
    requires Gap(|done + tail|) == a + b
    ensures Padded(done + tail) == done + (tail + [0x80] + Zeros(a)) + ([] + Zeros(b) + BigEndian(8 * |done + tail|, 8))
  {
    hide *;
    PaddedWithTwo(done + tail, a, b);
    JoinTwo(done, tail, [0x80], Zeros(a), Zeros(b), BigEndian(8 * |done + tail|, 8));
  }

  lemma PaddedWithTwo(m: Bytes, a: nat, b: nat)
    requires Gap(|m|) == a + b
    ensures Padded(m) == m + [0x80] + (Zeros(a) + Zeros(b)) + BigEndian(8 * |m|, 8)
  {
    hide *;
    PaddedWith(m, a + b);
    ZerosAdd(a, b);
  }

  lemma PaddedWith(m: Bytes, g: nat)
    requires Gap(|m|) == g
    ensures Padded(m) == m + [0x80] + Zeros(g) + BigEndian(8 * |m|, 8)
  {
    hide Gap, Zeros, BigEndian;
  }

  lemma JoinOne(a: Bytes, b: Bytes, c: Bytes, d: Bytes, e: Bytes)
    ensures a + b + c + d + e == a + (b + c + d + e)
  {
  }

  lemma JoinTwo(a: Bytes, b: Bytes, c: Bytes, d: Bytes, e: Bytes, f: Bytes)
    ensures a + b + c + (d + e) + f == a + (b + c + d) + ([] + e + f)
  {
  }

  lemma GapAfterBlocks(d: nat, n: nat)
    requires d % BLOCK == 0 && n < BLOCK
    ensures Gap(d + n) == if n + 1 > BLOCK - 8 then BLOCK - 1 - n + (BLOCK - 8) else BLOCK - 9 - n
  {
    assert (d + n) % BLOCK == n;
  }

  lemma LengthField(nh: nat, nl: nat, n: nat)
    requires nl < WORD && nh * WORD + nl == (8 * n) % (WORD * WORD)
    ensures BigEndian(nh, 4) + BigEndian(nl, 4) == BigEndian(8 * n, 8)
  {
    hide BigEndian;
    var r, k := (8 * n) % (WORD * WORD), 8 * n / (WORD * WORD);
    Widths();
    BigEndianParts(nh, nl, 4, 4);
    BigEndianParts(k, r, 8, 0);
    NoBytes(k);
    assert 8 * n == k * (WORD * WORD) + r;
  }

  lemma NoBytes(k: nat)
    ensures BigEndian(k, 0) == []
  {
  }

  // ---------- pieces do not matter ----------

  /** A message taken in any pieces has the digest of the whole. */
  method DigestOfParts(parts: seq<Bytes>) returns (md: Bytes)
    ensures md == Digest(Flat(parts))
  {
    hide Digest, Hash;
    var sha := new Context();
    for i := 0 to |parts|
      invariant sha.Valid() && fresh(sha) && fresh(sha.data)
      invariant sha.Message() == Flat(parts[..i]) && sha.Counts(|sha.Message()|)
    {
      assert parts[..i + 1][..i] == parts[..i];
      sha.Update(parts[i]);
    }
    assert parts[..|parts|] == parts;
    md := sha.Final();
  }

  /** The digest the encoder and the decoder use as a key. */
  method SHA1Digest(data: Bytes) returns (md: HashTables.Key)
    ensures md == Digest(data)
  {
    hide Digest, Hash;
    var sha := new Context();
    sha.Update(data);
    assert [] + data == data;
    md := sha.Final();
  }
}
