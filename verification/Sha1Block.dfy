/** The compression function of SHA-1, by its schedule of 80 words (sections 4.1.1 and 6.1.2 of FIPS
    180-4), and the two block functions that keep the last 16 words only. */
module Sha1Block {
  import opened Chunks

  const BLOCK := 64
  const ROUNDS := 80

  /** A 32-bit word. Sums wrap around. */
  type Word = bv32

  /** The working variables, and the state between blocks. */
  datatype Five = Five(a: Word, b: Word, c: Word, d: Word, e: Word)

  // ---------- words ----------

  function Add(x: Word, y: Word): (r: Word) { x + y }

  function Rotate(x: Word, n: nat): (r: Word)
    requires 0 < n < 32
  {
    (x << n) | (x >> (32 - n))
  }

  /** A word from four bytes, most significant first. */
  function WordAt(p: Bytes, at: nat): (w: Word)
    requires at + 4 <= |p|
  {
    FromBytes(p[at], p[at + 1], p[at + 2], p[at + 3])
  }

  function FromBytes(b0: bv8, b1: bv8, b2: bv8, b3: bv8): (w: Word) {
    (b0 as bv32 << 24) | (b1 as bv32 << 16) | (b2 as bv32 << 8) | b3 as bv32
  }

  /** And back. */
  function BytesOf(w: Word): (p: Bytes)
    ensures |p| == 4
  {
    [(w >> 24) as bv8, ((w >> 16) & 0xff) as bv8, ((w >> 8) & 0xff) as bv8, (w & 0xff) as bv8]
  }

  // ---------- the reference ----------

  function Ch(b: Word, c: Word, d: Word): (f: Word) { (b & c) ^ (!b & d) }
  function Parity(b: Word, c: Word, d: Word): (f: Word) { b ^ c ^ d }
  function Maj(b: Word, c: Word, d: Word): (f: Word) { (b & c) ^ (b & d) ^ (c & d) }

  function F(t: nat, b: Word, c: Word, d: Word): (f: Word) {
    if t < 20 then Ch(b, c, d) else if 40 <= t < 60 then Maj(b, c, d) else Parity(b, c, d)
  }

  function Xor(x: Word, y: Word): (r: Word) { x ^ y }

  function XorFour(x: Word, y: Word, z: Word, u: Word): (r: Word) {
    Xor(Xor(Xor(x, y), z), u)
  }

  function K(t: nat): (k: Word) {
    if t < 20 then 0x5a827999 else if t < 40 then 0x6ed9eba1 else if t < 60 then 0x8f1bbcdc else 0xca62c1d6
  }

  /** The first n words of the schedule of a block. */
  function Schedule(block: Bytes, n: nat): (w: seq<Word>)
    requires |block| == BLOCK
    ensures |w| == n
  {
    if n == 0 then [] else
      var w := Schedule(block, n - 1);
      w + [if n <= 16 then WordAt(block, 4 * (n - 1))
           else Rotate(XorFour(w[n - 4], w[n - 9], w[n - 15], w[n - 17]), 1)]
  }

  function Round(t: nat, s: Five, w: Word): (r: Five) {
    var T := Add(Add(Add(Add(Rotate(s.a, 5), F(t, s.b, s.c, s.d)), s.e), K(t)), w);
    Five(T, s.a, Rotate(s.b, 30), s.c, s.d)
  }

  function Rounds(s: Five, w: seq<Word>, n: nat): (r: Five)
    requires n <= |w|
  {
    if n == 0 then s else Round(n - 1, Rounds(s, w, n - 1), w[n - 1])
  }

  function Sum(h: Five, r: Five): (s: Five) {
    Five(Add(h.a, r.a), Add(h.b, r.b), Add(h.c, r.c), Add(h.d, r.d), Add(h.e, r.e))
  }

  function Compress(h: Five, block: Bytes): (r: Five)
    requires |block| == BLOCK
  {
    Sum(h, Rounds(h, Schedule(block, ROUNDS), ROUNDS))
  }

  /** Whole blocks, one after another. */
  function Hash(h: Five, data: Bytes): (r: Five)
    requires |data| % BLOCK == 0
    decreases |data|
  {
    if data == [] then h else
      var k := |data| - BLOCK;
      Compress(Hash(h, data[..k]), data[k..])
  }

  // ---------- the program's word functions ----------

  function F_00_19(b: Word, c: Word, d: Word): (f: Word) { ((c ^ d) & b) ^ d }
  function F_20_39(b: Word, c: Word, d: Word): (f: Word) { b ^ c ^ d }
  function F_40_59(b: Word, c: Word, d: Word): (f: Word) { (b & c) | ((b | c) & d) }

  function FOf(t: nat, b: Word, c: Word, d: Word): (f: Word) {
    if t < 20 then F_00_19(b, c, d) else if 40 <= t < 60 then F_40_59(b, c, d) else F_20_39(b, c, d)
  }

  lemma ChoiceBits(b: Word, c: Word, d: Word)
    ensures ((c ^ d) & b) ^ d == (b & c) ^ (!b & d)
  {
  }

  lemma Choice(b: Word, c: Word, d: Word)
    ensures F_00_19(b, c, d) == Ch(b, c, d)
  {
    ChoiceBits(b, c, d);
  }

  lemma MajorityBits(b: Word, c: Word, d: Word)
    ensures (b & c) | ((b | c) & d) == (b & c) ^ (b & d) ^ (c & d)
  {
  }

  lemma Majority(b: Word, c: Word, d: Word)
    ensures F_40_59(b, c, d) == Maj(b, c, d)
  {
    MajorityBits(b, c, d);
  }

  /** The shortcuts for the choice and majority functions are right. */
  lemma ShortcutsAreRight(t: nat, b: Word, c: Word, d: Word)
    ensures FOf(t, b, c, d) == F(t, b, c, d)
  {
    hide F_00_19, F_40_59, Ch, Maj;
    Choice(b, c, d);
    Majority(b, c, d);
  }

  lemma XorAssociates(x: Word, y: Word, z: Word)
    ensures Xor(Xor(x, y), z) == Xor(x, Xor(y, z))
  {
  }

  lemma XorCommutes(x: Word, y: Word)
    ensures Xor(x, y) == Xor(y, x)
  {
  }

  lemma XorLaws(x: Word, y: Word, z: Word)
    ensures Xor(Xor(x, y), z) == Xor(x, Xor(y, z)) && Xor(x, y) == Xor(y, x)
  {
    hide Xor;
    XorAssociates(x, y, z);
    XorCommutes(x, y);
  }

  lemma XorOrder(x: Word, y: Word, z: Word, u: Word)
    ensures XorFour(x, y, z, u) == XorFour(u, z, y, x)
  {
    hide Xor;
    var yz := Xor(y, z);
    XorLaws(x, y, z);
    XorLaws(Xor(x, yz), u, u);
    XorLaws(u, x, yz);
    XorLaws(x, u, yz);
    XorLaws(y, z, u);
    XorLaws(u, z, y);
    XorLaws(Xor(Xor(u, z), y), x, x);
  }

  lemma AddIsSum(x: Word, y: Word)
    ensures Add(x, y) == x + y
  {
  }

  lemma SumsAssociate(x: Word, y: Word, z: Word)
    ensures Add(x + y, z) == Add(x, y + z)
  {
  }

  lemma AddCommutes(x: Word, y: Word)
    ensures Add(x, y) == Add(y, x)
  {
  }

  lemma AddLaws(x: Word, y: Word, z: Word)
    ensures Add(x, y) == Add(y, x) && Add(Add(x, y), z) == Add(x, Add(y, z))
  {
    hide Add;
    AddCommutes(x, y);
    AddIsSum(x, y);
    AddIsSum(y, z);
    SumsAssociate(x, y, z);
  }

  // ---------- bytes of a word ----------

  lemma Shifted(b0: bv8, b1: bv8, b2: bv8, b3: bv8)
    ensures var w := (b0 as bv32 << 24) | (b1 as bv32 << 16) | (b2 as bv32 << 8) | b3 as bv32;
            && (w >> 24) as bv8 == b0 && ((w >> 16) & 0xff) as bv8 == b1
            && ((w >> 8) & 0xff) as bv8 == b2 && (w & 0xff) as bv8 == b3
  {
  }

  lemma Combined(w: bv32)
    ensures ((w >> 24) as bv8 as bv32 << 24) | (((w >> 16) & 0xff) as bv8 as bv32 << 16)
            | (((w >> 8) & 0xff) as bv8 as bv32 << 8) | (w & 0xff) as bv8 as bv32 == w
  {
  }

  /** Writing a word that was read gives the bytes back, and the other way round. */
  lemma BytesOfWordAt(p: Bytes, at: nat)
    requires at + 4 <= |p|
    ensures BytesOf(WordAt(p, at)) == p[at..at + 4]
  {
    Shifted(p[at], p[at + 1], p[at + 2], p[at + 3]);
  }

  lemma WordAtOfBytes(w: Word)
    ensures WordAt(BytesOf(w), 0) == w
  {
    Combined(w);
  }

  // ---------- the circular schedule ----------

  // The cells hold the latest of the first n words.
  ghost predicate Circular(x: seq<Word>, w: seq<Word>, n: nat) {
    |x| == 16 && n <= |w| && forall j :: 0 <= j < n && n - 16 <= j ==> x[j % 16] == w[j]
  }

  ghost function Words(block: Bytes): (w: seq<Word>)
    requires |block| == BLOCK
    ensures |w| == ROUNDS
  {
    Schedule(block, ROUNDS)
  }

  lemma {:induction false} ScheduleAt(block: Bytes, n: nat, t: nat)
    requires |block| == BLOCK && t < n
    ensures var w := Schedule(block, n);
            w[t] == if t < 16 then WordAt(block, 4 * t)
                    else Rotate(XorFour(w[t - 3], w[t - 8], w[t - 14], w[t - 16]), 1)
  {
    hide WordAt, Rotate, XorFour;
    if t < n - 1 {
      ScheduleAt(block, n - 1, t);
    }
  }

  // One more word in its cell: the cell of the word 16 rounds earlier.
  lemma CircularNext(x: seq<Word>, w: seq<Word>, t: nat, v: Word)
    requires Circular(x, w, t) && t < |w| && v == w[t]
    ensures Circular(x[t % 16 := v], w, t + 1)
  {
    forall j | 0 <= j < t && t - 15 <= j ensures j % 16 != t % 16 {
      Apart(j, t);
    }
  }

  lemma Apart(j: nat, t: nat)
    requires j < t < j + 16
    ensures j % 16 != t % 16
  {
  }

  /** The update from the four cells gives the next word of the schedule. */
  lemma UpdateIsSchedule(block: Bytes, x: seq<Word>, t: nat)
    requires |block| == BLOCK && 16 <= t < ROUNDS && Circular(x, Words(block), t)
    ensures Rotate(XorFour(x[t % 16], x[(t + 2) % 16], x[(t + 8) % 16], x[(t + 13) % 16]), 1) == Words(block)[t]
  {
    hide Rotate, XorFour;
    var w := Words(block);
    ScheduleAt(block, ROUNDS, t);
    assert (t - 16) % 16 == t % 16 && (t - 14) % 16 == (t + 2) % 16;
    assert (t - 8) % 16 == (t + 8) % 16 && (t - 3) % 16 == (t + 13) % 16;
    assert x[t % 16] == w[t - 16] && x[(t + 2) % 16] == w[t - 14];
    assert x[(t + 8) % 16] == w[t - 8] && x[(t + 13) % 16] == w[t - 3];
    XorOrder(w[t - 16], w[t - 14], w[t - 8], w[t - 3]);
  }

  // ---------- what one line of either block function does ----------

  // The orders in which the program adds up a round.
  lemma SumOrder(x: Word, e: Word, k: Word, r: Word, f: Word)
    ensures var sum := Add(Add(Add(Add(r, f), e), k), x);
            Add(Add(Add(Add(x, e), k), r), f) == sum && Add(Add(r, Add(Add(e, k), f)), x) == sum
            && Add(r, Add(x, Add(Add(e, k), f))) == sum
  {
    hide Add;
    var g := Add(Add(e, k), f);
    AddLaws(r, f, e);
    AddLaws(Add(r, f), e, k);
    AddLaws(r, f, Add(e, k));
    AddLaws(f, Add(e, k), x);
    AddLaws(r, g, x);
    AddLaws(g, x, r);
    AddLaws(x, e, k);
    AddLaws(x, Add(e, k), r);
    AddLaws(x, Add(e, k), f);
    AddLaws(Add(x, Add(e, k)), r, f);
    AddLaws(r, Add(x, Add(e, k)), f);
  }

  // Read the next word of the block into its cell.
  method Load(x: array<Word>, block: Bytes, t: nat)
    requires |block| == BLOCK && x.Length == 16 && t < 16 && Circular(x[..], Words(block), t)
    modifies x
    ensures Circular(x[..], Words(block), t + 1)
  {
    hide WordAt, Schedule, Rotate, Circular;
    ScheduleAt(block, ROUNDS, t);
    CircularNext(x[..], Words(block), t, WordAt(block, 4 * t));
    ghost var was := x[..];
    x[t] := WordAt(block, 4 * t);
    assert x[..] == was[t % 16 := WordAt(block, 4 * t)];
  }

  method Update(x: array<Word>, ghost block: Bytes, t: nat) returns (xi: Word)
    requires |block| == BLOCK && x.Length == 16 && 16 <= t < ROUNDS && Circular(x[..], Words(block), t)
    modifies x
    ensures Circular(x[..], Words(block), t + 1) && xi == Words(block)[t]
  {
    hide XorFour, Rotate, Circular;
    UpdateIsSchedule(block, x[..], t);
    xi := Rotate(XorFour(x[t % 16], x[(t + 2) % 16], x[(t + 8) % 16], x[(t + 13) % 16]), 1);
    CircularNext(x[..], Words(block), t, xi);
    ghost var was := x[..];
    x[t % 16] := xi;
    assert x[..] == was[t % 16 := xi];
  }

  // One line of the unrolled function: the registers trade places instead of their values.
  method Body(t: nat, ghost h: Five, ghost block: Bytes, a: Word, b: Word, c: Word, d: Word, e: Word, xi: Word)
    returns (f: Word, b': Word)
    requires |block| == BLOCK && t < ROUNDS && xi == Words(block)[t]
    requires Five(a, b, c, d, e) == Rounds(h, Words(block), t)
    ensures Five(f, a, b', c, d) == Rounds(h, Words(block), t + 1)
  {
    hide Rotate, F, FOf, Add, Schedule;
    ShortcutsAreRight(t, b, c, d);
    SumOrder(xi, e, K(t), Rotate(a, 5), FOf(t, b, c, d));
    f := Add(Add(Add(Add(xi, e), K(t)), Rotate(a, 5)), FOf(t, b, c, d));
    b' := Rotate(b, 30);
  }

  method BodyLoaded(x: array<Word>, t: nat, n: nat, ghost h: Five, ghost block: Bytes,
                    a: Word, b: Word, c: Word, d: Word, e: Word)
    returns (f: Word, b': Word)
    requires |block| == BLOCK && x.Length == 16 && t < n <= 16 && Circular(x[..], Words(block), n)
    requires Five(a, b, c, d, e) == Rounds(h, Words(block), t)
    ensures Five(f, a, b', c, d) == Rounds(h, Words(block), t + 1)
  {
    hide Rounds, Schedule;
    assert x[..][t % 16] == Words(block)[t];
    f, b' := Body(t, h, block, a, b, c, d, e, x[t]);
  }

  method BodyUpdated(x: array<Word>, t: nat, ghost h: Five, ghost block: Bytes,
                     a: Word, b: Word, c: Word, d: Word, e: Word)
    returns (f: Word, b': Word)
    requires |block| == BLOCK && x.Length == 16 && 16 <= t < ROUNDS && Circular(x[..], Words(block), t)
    requires Five(a, b, c, d, e) == Rounds(h, Words(block), t)
    modifies x
    ensures Circular(x[..], Words(block), t + 1)
    ensures Five(f, a, b', c, d) == Rounds(h, Words(block), t + 1)
  {
    hide Rounds, Schedule, Circular;
    var xi := Update(x, block, t);
    f, b' := Body(t, h, block, a, b, c, d, e, xi);
  }

  lemma NothingLoaded(x: seq<Word>, block: Bytes)
    requires |x| == 16 && |block| == BLOCK
    ensures Circular(x, Words(block), 0)
  {
  }

  // The lines of rounds 0 to 19; the words are read one line ahead.
  method Lines00To19(x: array<Word>, ghost h: Five, block: Bytes,
                     A0: Word, B0: Word, C0: Word, D0: Word, E0: Word)
    returns (E: Word, T: Word, A: Word, B: Word, C: Word)
    requires |block| == BLOCK && x.Length == 16
    requires Five(A0, B0, C0, D0, E0) == Rounds(h, Words(block), 0)
    modifies x
    ensures Circular(x[..], Words(block), 20) && Five(E, T, A, B, C) == Rounds(h, Words(block), 20)
  {
    hide Rounds, Schedule, Circular;
    var D: Word := 0;
    A, B, C, D, E := A0, B0, C0, D0, E0;
    NothingLoaded(x[..], block);
    Load(x, block, 0);
    Load(x, block, 1);
    T, B := BodyLoaded(x, 0, 2, h, block, A, B, C, D, E);
    Load(x, block, 2);
    E, A := BodyLoaded(x, 1, 3, h, block, T, A, B, C, D);
    Load(x, block, 3);
    D, T := BodyLoaded(x, 2, 4, h, block, E, T, A, B, C);
    Load(x, block, 4);
    C, E := BodyLoaded(x, 3, 5, h, block, D, E, T, A, B);
    Load(x, block, 5);
    B, D := BodyLoaded(x, 4, 6, h, block, C, D, E, T, A);
    Load(x, block, 6);
    A, C := BodyLoaded(x, 5, 7, h, block, B, C, D, E, T);
    Load(x, block, 7);
    T, B := BodyLoaded(x, 6, 8, h, block, A, B, C, D, E);
    Load(x, block, 8);
    E, A := BodyLoaded(x, 7, 9, h, block, T, A, B, C, D);
    Load(x, block, 9);
    D, T := BodyLoaded(x, 8, 10, h, block, E, T, A, B, C);
    Load(x, block, 10);
    C, E := BodyLoaded(x, 9, 11, h, block, D, E, T, A, B);
    Load(x, block, 11);
    B, D := BodyLoaded(x, 10, 12, h, block, C, D, E, T, A);
    Load(x, block, 12);
    A, C := BodyLoaded(x, 11, 13, h, block, B, C, D, E, T);
    Load(x, block, 13);
    T, B := BodyLoaded(x, 12, 14, h, block, A, B, C, D, E);
    Load(x, block, 14);
    E, A := BodyLoaded(x, 13, 15, h, block, T, A, B, C, D);
    Load(x, block, 15);
    D, T := BodyLoaded(x, 14, 16, h, block, E, T, A, B, C);
    C, E := BodyLoaded(x, 15, 16, h, block, D, E, T, A, B);
    B, D := BodyUpdated(x, 16, h, block, C, D, E, T, A);
    A, C := BodyUpdated(x, 17, h, block, B, C, D, E, T);
    T, B := BodyUpdated(x, 18, h, block, A, B, C, D, E);
    E, A := BodyUpdated(x, 19, h, block, T, A, B, C, D);
  }

  // The lines of rounds 20 to 39.
  method Lines20To39(x: array<Word>, ghost h: Five, ghost block: Bytes,
                     E0: Word, T0: Word, A0: Word, B0: Word, C0: Word)
    returns (C: Word, D: Word, E: Word, T: Word, A: Word)
    requires |block| == BLOCK && x.Length == 16 && Circular(x[..], Words(block), 20)
    requires Five(E0, T0, A0, B0, C0) == Rounds(h, Words(block), 20)
    modifies x
    ensures Circular(x[..], Words(block), 40) && Five(C, D, E, T, A) == Rounds(h, Words(block), 40)
  {
    hide Rounds, Schedule, Circular;
    var B: Word := 0;
    E, T, A, B, C := E0, T0, A0, B0, C0;
    D, T := BodyUpdated(x, 20, h, block, E, T, A, B, C);
    C, E := BodyUpdated(x, 21, h, block, D, E, T, A, B);
    B, D := BodyUpdated(x, 22, h, block, C, D, E, T, A);
    A, C := BodyUpdated(x, 23, h, block, B, C, D, E, T);
    T, B := BodyUpdated(x, 24, h, block, A, B, C, D, E);
    E, A := BodyUpdated(x, 25, h, block, T, A, B, C, D);
    D, T := BodyUpdated(x, 26, h, block, E, T, A, B, C);
    C, E := BodyUpdated(x, 27, h, block, D, E, T, A, B);
    B, D := BodyUpdated(x, 28, h, block, C, D, E, T, A);
    A, C := BodyUpdated(x, 29, h, block, B, C, D, E, T);
    T, B := BodyUpdated(x, 30, h, block, A, B, C, D, E);
    E, A := BodyUpdated(x, 31, h, block, T, A, B, C, D);
    D, T := BodyUpdated(x, 32, h, block, E, T, A, B, C);
    C, E := BodyUpdated(x, 33, h, block, D, E, T, A, B);
    B, D := BodyUpdated(x, 34, h, block, C, D, E, T, A);
    A, C := BodyUpdated(x, 35, h, block, B, C, D, E, T);
    T, B := BodyUpdated(x, 36, h, block, A, B, C, D, E);
    E, A := BodyUpdated(x, 37, h, block, T, A, B, C, D);
    D, T := BodyUpdated(x, 38, h, block, E, T, A, B, C);
    C, E := BodyUpdated(x, 39, h, block, D, E, T, A, B);
  }

  // The lines of rounds 40 to 59.
  method Lines40To59(x: array<Word>, ghost h: Five, ghost block: Bytes,
                     C0: Word, D0: Word, E0: Word, T0: Word, A0: Word)
    returns (A: Word, B: Word, C: Word, D: Word, E: Word)
    requires |block| == BLOCK && x.Length == 16 && Circular(x[..], Words(block), 40)
    requires Five(C0, D0, E0, T0, A0) == Rounds(h, Words(block), 40)
    modifies x
    ensures Circular(x[..], Words(block), 60) && Five(A, B, C, D, E) == Rounds(h, Words(block), 60)
  {
    hide Rounds, Schedule, Circular;
    var T: Word := 0;
    C, D, E, T, A := C0, D0, E0, T0, A0;
    B, D := BodyUpdated(x, 40, h, block, C, D, E, T, A);
    A, C := BodyUpdated(x, 41, h, block, B, C, D, E, T);
    T, B := BodyUpdated(x, 42, h, block, A, B, C, D, E);
    E, A := BodyUpdated(x, 43, h, block, T, A, B, C, D);
    D, T := BodyUpdated(x, 44, h, block, E, T, A, B, C);
    C, E := BodyUpdated(x, 45, h, block, D, E, T, A, B);
    B, D := BodyUpdated(x, 46, h, block, C, D, E, T, A);
    A, C := BodyUpdated(x, 47, h, block, B, C, D, E, T);
    T, B := BodyUpdated(x, 48, h, block, A, B, C, D, E);
    E, A := BodyUpdated(x, 49, h, block, T, A, B, C, D);
    D, T := BodyUpdated(x, 50, h, block, E, T, A, B, C);
    C, E := BodyUpdated(x, 51, h, block, D, E, T, A, B);
    B, D := BodyUpdated(x, 52, h, block, C, D, E, T, A);
    A, C := BodyUpdated(x, 53, h, block, B, C, D, E, T);
    T, B := BodyUpdated(x, 54, h, block, A, B, C, D, E);
    E, A := BodyUpdated(x, 55, h, block, T, A, B, C, D);
    D, T := BodyUpdated(x, 56, h, block, E, T, A, B, C);
    C, E := BodyUpdated(x, 57, h, block, D, E, T, A, B);
    B, D := BodyUpdated(x, 58, h, block, C, D, E, T, A);
    A, C := BodyUpdated(x, 59, h, block, B, C, D, E, T);
  }

  // The lines of rounds 60 to 79.
  method Lines60To79(x: array<Word>, ghost h: Five, ghost block: Bytes,
                     A0: Word, B0: Word, C0: Word, D0: Word, E0: Word)
    returns (E: Word, T: Word, A: Word, B: Word, C: Word)
    requires |block| == BLOCK && x.Length == 16 && Circular(x[..], Words(block), 60)
    requires Five(A0, B0, C0, D0, E0) == Rounds(h, Words(block), 60)
    modifies x
    ensures Circular(x[..], Words(block), 80) && Five(E, T, A, B, C) == Rounds(h, Words(block), 80)
  {
    hide Rounds, Schedule, Circular;
    var D: Word := 0;
    A, B, C, D, E := A0, B0, C0, D0, E0;
    T, B := BodyUpdated(x, 60, h, block, A, B, C, D, E);
    E, A := BodyUpdated(x, 61, h, block, T, A, B, C, D);
    D, T := BodyUpdated(x, 62, h, block, E, T, A, B, C);
    C, E := BodyUpdated(x, 63, h, block, D, E, T, A, B);
    B, D := BodyUpdated(x, 64, h, block, C, D, E, T, A);
    A, C := BodyUpdated(x, 65, h, block, B, C, D, E, T);
    T, B := BodyUpdated(x, 66, h, block, A, B, C, D, E);
    E, A := BodyUpdated(x, 67, h, block, T, A, B, C, D);
    D, T := BodyUpdated(x, 68, h, block, E, T, A, B, C);
    C, E := BodyUpdated(x, 69, h, block, D, E, T, A, B);
    B, D := BodyUpdated(x, 70, h, block, C, D, E, T, A);
    A, C := BodyUpdated(x, 71, h, block, B, C, D, E, T);
    T, B := BodyUpdated(x, 72, h, block, A, B, C, D, E);
    E, A := BodyUpdated(x, 73, h, block, T, A, B, C, D);
    D, T := BodyUpdated(x, 74, h, block, E, T, A, B, C);
    C, E := BodyUpdated(x, 75, h, block, D, E, T, A, B);
    B, D := BodyUpdated(x, 76, h, block, C, D, E, T, A);
    A, C := BodyUpdated(x, 77, h, block, B, C, D, E, T);
    T, B := BodyUpdated(x, 78, h, block, A, B, C, D, E);
    E, A := BodyUpdated(x, 79, h, block, T, A, B, C, D);
  }

  /** The unrolled block function. */
  method BlockUnrolled(h: Five, block: Bytes) returns (r: Five)
    requires |block| == BLOCK
    ensures r == Compress(h, block)
  {
    hide Rounds, Schedule, Circular;
    var x := new Word[16](_ => 0);
    NoRounds(h, Words(block));
    var A, B, C, D, E := h.a, h.b, h.c, h.d, h.e;
    var T: Word;
    E, T, A, B, C := Lines00To19(x, h, block, A, B, C, D, E);
    C, D, E, T, A := Lines20To39(x, h, block, E, T, A, B, C);
    A, B, C, D, E := Lines40To59(x, h, block, C, D, E, T, A);
    E, T, A, B, C := Lines60To79(x, h, block, A, B, C, D, E);
    r := Five(Add(h.a, E), Add(h.b, T), Add(h.c, A), Add(h.d, B), Add(h.e, C));
  }

  lemma NoRounds(h: Five, w: seq<Word>)
    ensures Rounds(h, w, 0) == h
  {
  }

  // One line of the small block function: the values move along.
  method SmallBody(t: nat, ghost h: Five, ghost block: Bytes, s: Five, xi: Word) returns (r: Five)
    requires |block| == BLOCK && t < ROUNDS && xi == Words(block)[t] && s == Rounds(h, Words(block), t)
    ensures r == Rounds(h, Words(block), t + 1)
  {
    hide Rotate, F, FOf, Add, Schedule;
    ShortcutsAreRight(t, s.b, s.c, s.d);
    SumOrder(xi, s.e, K(t), Rotate(s.a, 5), FOf(t, s.b, s.c, s.d));
    var T := Add(Add(s.e, K(t)), FOf(t, s.b, s.c, s.d));
    if 16 <= t < 60 {
      T := Add(xi, T);
      r := Five(Add(Rotate(s.a, 5), T), s.a, Rotate(s.b, 30), s.c, s.d);
    } else {
      r := Five(Add(Add(Rotate(s.a, 5), T), xi), s.a, Rotate(s.b, 30), s.c, s.d);
    }
  }

  /** The small block function: five loops over the rounds. */
  method BlockSmall(h: Five, block: Bytes) returns (r: Five)
    requires |block| == BLOCK
    ensures r == Compress(h, block)
  {
    hide Rounds, Schedule, Circular;
    var x := new Word[16](_ => 0);
    NoRounds(h, Words(block));
    NothingLoaded(x[..], block);
    var s := h;
    for i := 0 to 16
      invariant Circular(x[..], Words(block), i) && s == Rounds(h, Words(block), i)
    {
      Load(x, block, i);
      LatestWord(x[..], block, i);
      s := SmallBody(i, h, block, s, x[i]);
    }
    for i := 0 to 4
      invariant Circular(x[..], Words(block), 16 + i) && s == Rounds(h, Words(block), 16 + i)
    {
      var xi := Update(x, block, 16 + i);
      s := SmallBody(16 + i, h, block, s, xi);
    }
    for i := 4 to 24
      invariant Circular(x[..], Words(block), 16 + i) && s == Rounds(h, Words(block), 16 + i)
    {
      var xi := Update(x, block, 16 + i);
      s := SmallBody(16 + i, h, block, s, xi);
    }
    for i := 0 to 20
      invariant Circular(x[..], Words(block), 40 + i) && s == Rounds(h, Words(block), 40 + i)
    {
      var xi := Update(x, block, 40 + i);
      s := SmallBody(40 + i, h, block, s, xi);
    }
    for i := 4 to 24
      invariant Circular(x[..], Words(block), 56 + i) && s == Rounds(h, Words(block), 56 + i)
    {
      var xi := Update(x, block, 56 + i);
      s := SmallBody(56 + i, h, block, s, xi);
    }
    r := Five(Add(h.a, s.a), Add(h.b, s.b), Add(h.c, s.c), Add(h.d, s.d), Add(h.e, s.e));
  }

  lemma LatestWord(x: seq<Word>, block: Bytes, t: nat)
    requires |block| == BLOCK && t < 16 && Circular(x, Words(block), t + 1)
    ensures x[t] == Words(block)[t]
  {
    hide Words;
    assert x[t % 16] == Words(block)[t];
  }
}
