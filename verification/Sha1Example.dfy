/** A known digest, worked out: "abc", the first example of the secure hash standard. It fixes what no
    equation between the program and the reference does, the constants, rotations and byte orders. */
module Sha1Example {
  import opened Chunks
  import opened Sha1Block
  import Sha1

  /** The working variables, and the 16 words of the schedule from the next round on. */
  datatype Registers = Registers(
    a: Word, b: Word, c: Word, d: Word, e: Word,
    w0: Word, w1: Word, w2: Word, w3: Word, w4: Word, w5: Word, w6: Word, w7: Word,
    w8: Word, w9: Word, w10: Word, w11: Word, w12: Word, w13: Word, w14: Word, w15: Word)

  // Sums, rotations and mixtures without names inside.
  function Summed(r: Word, f: Word, e: Word, k: Word, w: Word): (T: Word) { r + f + e + k + w }
  function Turned5(x: Word): (r: Word) { (x << 5) | (x >> 27) }
  function Turned30(x: Word): (r: Word) { (x << 30) | (x >> 2) }
  function Turned1(x: Word): (r: Word) { (x << 1) | (x >> 31) }
  function Mixed(x: Word, y: Word, z: Word, u: Word): (w: Word) { x ^ y ^ z ^ u }

  /** n rounds from round t on, on registers alone and with all operations written out, so that on known
      registers they can be evaluated. */
  function Run(n: nat, t: nat, a: Word, b: Word, c: Word, d: Word, e: Word,
               w0: Word, w1: Word, w2: Word, w3: Word, w4: Word, w5: Word, w6: Word, w7: Word,
               w8: Word, w9: Word, w10: Word, w11: Word, w12: Word, w13: Word, w14: Word, w15: Word): (r: Registers)
    decreases n
  {
    if n == 0 then Registers(a, b, c, d, e, w0, w1, w2, w3, w4, w5, w6, w7, w8, w9, w10, w11, w12, w13, w14, w15)
    else
      Run(n - 1, t + 1, Summed(Turned5(a), F(t, b, c, d), e, K(t), w0), a, Turned30(b), c, d,
          w1, w2, w3, w4, w5, w6, w7, w8, w9, w10, w11, w12, w13, w14, w15, Turned1(Mixed(w13, w8, w2, w0)))
  }

  // ---------- the rounds of the example, eight at a time ----------

  lemma Rounds00To07()
    ensures Run(8, 0, 0x67452301, 0xefcdab89, 0x98badcfe, 0x10325476, 0xc3d2e1f0, 0x61626380, 0x00000000, 0x00000000,
                0x00000000, 0x00000000, 0x00000000, 0x00000000, 0x00000000, 0x00000000, 0x00000000, 0x00000000,
                0x00000000, 0x00000000, 0x00000000, 0x00000000, 0x00000018)
            == Registers(0x9e8c07d4, 0x993e30c1, 0x0ff1f290, 0xb3f52677, 0xf3763846, 0x00000000, 0x00000000,
                         0x00000000, 0x00000000, 0x00000000, 0x00000000, 0x00000000, 0x00000018, 0xc2c4c700,
                         0x00000000, 0x00000030, 0x85898e01, 0x00000000, 0x00000060, 0x0b131c03, 0x00000030)
  {
  }

  lemma Rounds08To15()
    ensures Run(8, 8, 0x9e8c07d4, 0x993e30c1, 0x0ff1f290, 0xb3f52677, 0xf3763846, 0x00000000, 0x00000000, 0x00000000,
                0x00000000, 0x00000000, 0x00000000, 0x00000000, 0x00000018, 0xc2c4c700, 0x00000000, 0x00000030,
                0x85898e01, 0x00000000, 0x00000060, 0x0b131c03, 0x00000030)
            == Registers(0x20bdd62f, 0x196bee77, 0x644a3da5, 0x1181ed99, 0x18c623f9, 0xc2c4c700, 0x00000000,
                         0x00000030, 0x85898e01, 0x00000000, 0x00000060, 0x0b131c03, 0x00000030, 0x85898ec1,
                         0x16263806, 0x00000000, 0x00000180, 0x2c4c700c, 0x000000f0, 0x93afb507, 0x5898e048)
  {
  }

  lemma Rounds16To23()
    ensures Run(8, 16, 0x20bdd62f, 0x196bee77, 0x644a3da5, 0x1181ed99, 0x18c623f9, 0xc2c4c700, 0x00000000, 0x00000030,
                0x85898e01, 0x00000000, 0x00000060, 0x0b131c03, 0x00000030, 0x85898ec1, 0x16263806, 0x00000000,
                0x00000180, 0x2c4c700c, 0x000000f0, 0x93afb507, 0x5898e048)
            == Registers(0xd541f12d, 0x21283486, 0x0ce88eff, 0x868dec32, 0x7f67875f, 0x85898ec1, 0x16263806,
                         0x00000000, 0x00000180, 0x2c4c700c, 0x000000f0, 0x93afb507, 0x5898e048, 0x8e9a9202,
                         0x00000600, 0xb131c0f0, 0x16263bc6, 0x4ebed41e, 0x626380a1, 0x16263806, 0x000018c0)
  {
  }

  lemma Rounds24To31()
    ensures Run(8, 24, 0xd541f12d, 0x21283486, 0x0ce88eff, 0x868dec32, 0x7f67875f, 0x85898ec1, 0x16263806, 0x00000000,
                0x00000180, 0x2c4c700c, 0x000000f0, 0x93afb507, 0x5898e048, 0x8e9a9202, 0x00000600, 0xb131c0f0,
                0x16263bc6, 0x4ebed41e, 0x626380a1, 0x16263806, 0x000018c0)
            == Registers(0x3b845d33, 0x1267b407, 0x717eebd7, 0xa0dc2d4b, 0xd2aa1365, 0x8e9a9202, 0x00000600,
                         0xb131c0f0, 0x16263bc6, 0x4ebed41e, 0x626380a1, 0x16263806, 0x000018c0, 0xd2e138c4,
                         0x00000f00, 0x3afb5079, 0x898e04e5, 0xe2ba3c2b, 0x000060c0, 0x053a37cd, 0x74458547)
  {
  }

  lemma Rounds32To39()
    ensures Run(8, 32, 0x3b845d33, 0x1267b407, 0x717eebd7, 0xa0dc2d4b, 0xd2aa1365, 0x8e9a9202, 0x00000600, 0xb131c0f0,
                0x16263bc6, 0x4ebed41e, 0x626380a1, 0x16263806, 0x000018c0, 0xd2e138c4, 0x00000f00, 0x3afb5079,
                0x898e04e5, 0xe2ba3c2b, 0x000060c0, 0x053a37cd, 0x74458547)
            == Registers(0x32de1cba, 0x4c986405, 0xf718e5cf, 0x03d447f6, 0xf72eec32, 0xd2e138c4, 0x00000f00,
                         0x3afb5079, 0x898e04e5, 0xe2ba3c2b, 0x000060c0, 0x053a37cd, 0x74458547, 0xda9415ed,
                         0x26380a16, 0x626383a1, 0x4ebf54de, 0x3835b44b, 0x0000f600, 0x1e84c7a3, 0x98e04d98)
  {
  }

  lemma Rounds40To47()
    ensures Run(8, 40, 0x32de1cba, 0x4c986405, 0xf718e5cf, 0x03d447f6, 0xf72eec32, 0xd2e138c4, 0x00000f00, 0x3afb5079,
                0x898e04e5, 0xe2ba3c2b, 0x000060c0, 0x053a37cd, 0x74458547, 0xda9415ed, 0x26380a16, 0x626383a1,
                0x4ebf54de, 0x3835b44b, 0x0000f600, 0x1e84c7a3, 0x98e04d98)
            == Registers(0xbead02ca, 0xa01b846c, 0x8714787c, 0x503ca382, 0xfb86c6ab, 0xda9415ed, 0x26380a16,
                         0x626383a1, 0x4ebf54de, 0x3835b44b, 0x0000f600, 0x1e84c7a3, 0x98e04d98, 0x651d16a0,
                         0x62658ca1, 0x458544d6, 0x44584cb7, 0x7ba06619, 0x6380aea2, 0x0ae55269, 0x627b49a1)
  {
  }

  lemma Rounds48To55()
    ensures Run(8, 48, 0xbead02ca, 0xa01b846c, 0x8714787c, 0x503ca382, 0xfb86c6ab, 0xda9415ed, 0x26380a16, 0x626383a1,
                0x4ebf54de, 0x3835b44b, 0x0000f600, 0x1e84c7a3, 0x98e04d98, 0x651d16a0, 0x62658ca1, 0x458544d6,
                0x44584cb7, 0x7ba06619, 0x6380aea2, 0x0ae55269, 0x627b49a1)
            == Registers(0x5e6456af, 0x7b71f76d, 0x09fa7c76, 0x792410db, 0x8e11eb59, 0x651d16a0, 0x62658ca1,
                         0x458544d6, 0x44584cb7, 0x7ba06619, 0x6380aea2, 0x0ae55269, 0x627b49a1, 0x7cd45c9d,
                         0x000f0000, 0xfb50753a, 0xec6765e8, 0xba3c2be2, 0x0060c000, 0x3a37cd05, 0x458546f4)
  {
  }

  lemma Rounds56To63()
    ensures Run(8, 56, 0x5e6456af, 0x7b71f76d, 0x09fa7c76, 0x792410db, 0x8e11eb59, 0x651d16a0, 0x62658ca1, 0x458544d6,
                0x44584cb7, 0x7ba06619, 0x6380aea2, 0x0ae55269, 0x627b49a1, 0x7cd45c9d, 0x000f0000, 0xfb50753a,
                0xec6765e8, 0xba3c2be2, 0x0060c000, 0x3a37cd05, 0x458546f4)
            == Registers(0x6b61c9e1, 0xb66c020b, 0x9523272c, 0xf5d5b051, 0x8fd4b796, 0x7cd45c9d, 0x000f0000,
                         0xfb50753a, 0xec6765e8, 0xba3c2be2, 0x0060c000, 0x3a37cd05, 0x458546f4, 0xb8599dd6,
                         0x380a1a26, 0x01e02203, 0xe7cc3456, 0xe6e60b69, 0x00f60a00, 0x5795ef4f, 0x822e0879)
  {
  }

  lemma Rounds64To71()
    ensures Run(8, 64, 0x6b61c9e1, 0xb66c020b, 0x9523272c, 0xf5d5b051, 0x8fd4b796, 0x7cd45c9d, 0x000f0000, 0xfb50753a,
                0xec6765e8, 0xba3c2be2, 0x0060c000, 0x3a37cd05, 0x458546f4, 0xb8599dd6, 0x380a1a26, 0x01e02203,
                0xe7cc3456, 0xe6e60b69, 0x00f60a00, 0x5795ef4f, 0x822e0879)
            == Registers(0x39859de7, 0xc199f8c7, 0x8fc96230, 0x125c24f0, 0xde37534a, 0xb8599dd6, 0x380a1a26,
                         0x01e02203, 0xe7cc3456, 0xe6e60b69, 0x00f60a00, 0x5795ef4f, 0x822e0879, 0x7e577ce2,
                         0x07ef2103, 0x8544e945, 0xeb39dab8, 0xc205991a, 0x80aecb63, 0x7d84ca48, 0x7b499b62)
  {
  }

  lemma Rounds72To79()
    ensures Run(8, 72, 0x39859de7, 0xc199f8c7, 0x8fc96230, 0x125c24f0, 0xde37534a, 0xb8599dd6, 0x380a1a26, 0x01e02203,
                0xe7cc3456, 0xe6e60b69, 0x00f60a00, 0x5795ef4f, 0x822e0879, 0x7e577ce2, 0x07ef2103, 0x8544e945,
                0xeb39dab8, 0xc205991a, 0x80aecb63, 0x7d84ca48, 0x7b499b62)
            == Registers(0x42541b35, 0x5738d5e1, 0x21834873, 0x681e6df6, 0xd8fdf6ad, 0x7e577ce2, 0x07ef2103,
                         0x8544e945, 0xeb39dab8, 0xc205991a, 0x80aecb63, 0x7d84ca48, 0x7b499b62, 0x8e8010a8,
                         0x4b5b8a77, 0x3216b69a, 0x0507e88d, 0x705bee96, 0x60c0ff00, 0xa28362d0, 0x1da6b91d)
  {
  }

  // ---------- the rounds of the reference on registers ----------

  lemma SumOfThree(r: Word, f: Word, e: Word)
    ensures Add(r + f, e) == r + f + e
  {
  }

  lemma SumOfFour(r: Word, f: Word, e: Word, k: Word)
    ensures Add(r + f + e, k) == r + f + e + k
  {
  }

  lemma SumOfFive(r: Word, f: Word, e: Word, k: Word, w: Word)
    ensures Add(r + f + e + k, w) == r + f + e + k + w
  {
  }

  lemma SumWritten(r: Word, f: Word, e: Word, k: Word, w: Word)
    ensures Add(Add(Add(Add(r, f), e), k), w) == r + f + e + k + w
  {
    hide Add;
    AddIsSum(r, f);
    SumOfThree(r, f, e);
    SumOfFour(r, f, e, k);
    SumOfFive(r, f, e, k, w);
  }

  lemma SummedIsAdded(r: Word, f: Word, e: Word, k: Word, w: Word)
    ensures Summed(r, f, e, k, w) == Add(Add(Add(Add(r, f), e), k), w)
  {
    hide Add;
    SumWritten(r, f, e, k, w);
  }

  lemma TurnedIsRotated(x: Word)
    ensures Turned5(x) == Rotate(x, 5) && Turned30(x) == Rotate(x, 30) && Turned1(x) == Rotate(x, 1)
  {
  }

  lemma MixedIsXor(x: Word, y: Word, z: Word, u: Word)
    ensures Mixed(x, y, z, u) == XorFour(x, y, z, u)
  {
    hide Xor;
    XorOfTwo(x, y);
    XorOfThree(x, y, z);
    XorOfFour(x, y, z, u);
  }

  lemma XorOfTwo(x: Word, y: Word)
    ensures Xor(x, y) == x ^ y
  {
  }

  lemma XorOfThree(x: Word, y: Word, z: Word)
    ensures Xor(x ^ y, z) == x ^ y ^ z
  {
  }

  lemma XorOfFour(x: Word, y: Word, z: Word, u: Word)
    ensures Xor(x ^ y ^ z, u) == x ^ y ^ z ^ u
  {
  }

  // The schedule, taken on beyond the last round.
  function Longer(block: Bytes): (w: seq<Word>)
    requires |block| == BLOCK
    ensures |w| == ROUNDS + 16
  {
    Schedule(block, ROUNDS + 16)
  }

  function RegistersAt(h: Five, w: seq<Word>, t: nat): (r: Registers)
    requires t + 16 <= |w|
  {
    var s := Rounds(h, w, t);
    Registers(s.a, s.b, s.c, s.d, s.e, w[t], w[t + 1], w[t + 2], w[t + 3], w[t + 4], w[t + 5], w[t + 6], w[t + 7],
              w[t + 8], w[t + 9], w[t + 10], w[t + 11], w[t + 12], w[t + 13], w[t + 14], w[t + 15])
  }

  function RunFrom(n: nat, t: nat, r: Registers): (q: Registers) {
    Run(n, t, r.a, r.b, r.c, r.d, r.e, r.w0, r.w1, r.w2, r.w3, r.w4, r.w5, r.w6, r.w7,
        r.w8, r.w9, r.w10, r.w11, r.w12, r.w13, r.w14, r.w15)
  }

  lemma OneRound(n: nat, h: Five, block: Bytes, t: nat)
    requires |block| == BLOCK && n > 0 && t < ROUNDS
    ensures RunFrom(n, t, RegistersAt(h, Longer(block), t)) ==
            RunFrom(n - 1, t + 1, RegistersAt(h, Longer(block), t + 1))
  {
    hide Longer, F, K, Add, Rotate, XorFour, Summed, Mixed, Turned5, Turned30, Turned1;
    var w := Longer(block);
    var s := Rounds(h, w, t);
    SummedIsAdded(Rotate(s.a, 5), F(t, s.b, s.c, s.d), s.e, K(t), w[t]);
    TurnedIsRotated(s.a);
    TurnedIsRotated(s.b);
    NextWord(block, t);
  }

  lemma NextWord(block: Bytes, t: nat)
    requires |block| == BLOCK && t < ROUNDS
    ensures var w := Longer(block); w[t + 16] == Turned1(Mixed(w[t + 13], w[t + 8], w[t + 2], w[t]))
  {
    hide Schedule, Rotate, XorFour, Mixed, Turned1;
    ScheduleAt(block, ROUNDS + 16, t + 16);
    var w := Longer(block);
    MixedIsXor(w[t + 13], w[t + 8], w[t + 2], w[t]);
    TurnedIsRotated(XorFour(w[t + 13], w[t + 8], w[t + 2], w[t]));
  }

  /** Running the registers is taking the rounds. */
  lemma {:induction false} RunIsRounds(n: nat, h: Five, block: Bytes, t: nat)
    requires |block| == BLOCK && t + n <= ROUNDS
    ensures RunFrom(n, t, RegistersAt(h, Longer(block), t)) == RegistersAt(h, Longer(block), t + n)
  {
    hide Rounds, Schedule, Longer, RegistersAt;
    if n == 0 {
    } else {
      OneRound(n, h, block, t);
      RunIsRounds(n - 1, h, block, t + 1);
    }
  }

  // ---------- the example ----------

  const MESSAGE: Bytes := [0x61, 0x62, 0x63]

  // The message, its end mark, zeros, and its length in bits.
  lemma PaddedMessage()
    ensures Sha1.Padded(MESSAGE) == [0x61, 0x62, 0x63, 0x80] + Sha1.Zeros(52) + [0, 0, 0, 0, 0, 0, 0, 24]
  {
    hide Sha1.Zeros, Sha1.BigEndian;
    LengthBytes();
    assert MESSAGE + [0x80] == [0x61, 0x62, 0x63, 0x80];
  }

  lemma LengthBytes()
    ensures Sha1.BigEndian(24, 8) == [0, 0, 0, 0, 0, 0, 0, 24]
  {
    hide ByteOf;
    SmallBytes();
    LowBytes(7);
    assert Sha1.BigEndian(24, 8) == Sha1.BigEndian(0, 7) + [ByteOf(24)];
  }

  lemma SmallBytes()
    ensures ByteOf(0) == 0 && ByteOf(24) == 24
  {
  }

  lemma {:induction false} LowBytes(k: nat)
    ensures Sha1.BigEndian(0, k) == Sha1.Zeros(k)
  {
    if k > 0 {
      LowBytes(k - 1);
    }
  }

  lemma FirstWord()
    ensures FromBytes(0x61, 0x62, 0x63, 0x80) == 0x61626380
    ensures FromBytes(0, 0, 0, 24) == 24 && FromBytes(0, 0, 0, 0) == 0
  {
  }

  // The words of the block are those of the message.
  lemma BlockWords(block: Bytes, t: nat)
    requires block == Sha1.Padded(MESSAGE) && |block| == BLOCK && t < 16
    ensures WordAt(block, 4 * t) == if t == 0 then 0x61626380 else if t == 15 then 24 else 0
  {
    hide FromBytes, Sha1.Padded;
    PaddedMessage();
    FirstWord();
  }

  lemma InitialRegisters(block: Bytes)
    requires block == Sha1.Padded(MESSAGE) && |block| == BLOCK
    ensures RegistersAt(Sha1.IV(), Longer(block), 0) ==
            Registers(0x67452301, 0xefcdab89, 0x98badcfe, 0x10325476, 0xc3d2e1f0, 0x61626380,
                      0, 0, 0, 0, 0, 0, 0,
                      0, 0, 0, 0, 0, 0, 0, 24)
  {
    hide WordAt, Schedule, Sha1.Padded;
    forall t | 0 <= t < 16
      ensures Longer(block)[t] == if t == 0 then 0x61626380 else if t == 15 then 24 else 0
    {
      ScheduleAt(block, ROUNDS + 16, t);
      BlockWords(block, t);
    }
  }

  lemma LastRegisters(block: Bytes)
    requires block == Sha1.Padded(MESSAGE) && |block| == BLOCK
    ensures Rounds(Sha1.IV(), Longer(block), ROUNDS) ==
            Five(0x42541b35, 0x5738d5e1, 0x21834873, 0x681e6df6, 0xd8fdf6ad)
  {
    hide Rounds, Longer, Sha1.IV, Sha1.Padded, Run;
    var h := Sha1.IV();
    InitialRegisters(block);
    RunIsRounds(8, h, block, 0);
    Rounds00To07();
    RunIsRounds(8, h, block, 8);
    Rounds08To15();
    RunIsRounds(8, h, block, 16);
    Rounds16To23();
    RunIsRounds(8, h, block, 24);
    Rounds24To31();
    RunIsRounds(8, h, block, 32);
    Rounds32To39();
    RunIsRounds(8, h, block, 40);
    Rounds40To47();
    RunIsRounds(8, h, block, 48);
    Rounds48To55();
    RunIsRounds(8, h, block, 56);
    Rounds56To63();
    RunIsRounds(8, h, block, 64);
    Rounds64To71();
    RunIsRounds(8, h, block, 72);
    Rounds72To79();
    ShowsRounds(h, Longer(block), ROUNDS);
  }

  lemma ShowsRounds(h: Five, w: seq<Word>, t: nat)
    requires t + 16 <= |w|
    ensures var r := RegistersAt(h, w, t); Rounds(h, w, t) == Five(r.a, r.b, r.c, r.d, r.e)
  {
  }

  // The rounds see the first words only.
  lemma {:induction false} RoundsOfPrefix(h: Five, w: seq<Word>, v: seq<Word>, n: nat)
    requires n <= |w| <= |v| && w == v[..|w|]
    ensures Rounds(h, w, n) == Rounds(h, v, n)
  {
    hide Round;
    if n > 0 {
      RoundsOfPrefix(h, w, v, n - 1);
    }
  }

  lemma {:induction false} ScheduleOfPrefix(block: Bytes, n: nat, m: nat)
    requires |block| == BLOCK && n <= m
    ensures Schedule(block, n) == Schedule(block, m)[..n]
    decreases m
  {
    hide WordAt, Rotate, XorFour;
    if n < m {
      ScheduleOfPrefix(block, n, m - 1);
    }
  }

  /** The digest of "abc" is the one the standard's example gives. */
  lemma DigestOfMessage()
    ensures Sha1.Digest(MESSAGE) == [
              0xa9, 0x99, 0x3e, 0x36, 0x47, 0x06, 0x81, 0x6a, 0xba, 0x3e,
              0x25, 0x71, 0x78, 0x50, 0xc2, 0x6c, 0x9c, 0xd0, 0xd8, 0x9d
            ]
  {
    hide Rounds, Schedule, Run, Sha1.Padded;
    var block := Sha1.Padded(MESSAGE);
    PaddedMessage();
    LastRegisters(block);
    ScheduleOfPrefix(block, ROUNDS, ROUNDS + 16);
    RoundsOfPrefix(Sha1.IV(), Schedule(block, ROUNDS), Longer(block), ROUNDS);
    Sha1.HashStep(Sha1.IV(), [], block);
    assert [] + block == block;
    LastSum();
    LastBytes();
  }

  lemma LastSum()
    ensures Sum(Sha1.IV(), Five(0x42541b35, 0x5738d5e1, 0x21834873, 0x681e6df6, 0xd8fdf6ad)) ==
            Five(0xa9993e36, 0x4706816a, 0xba3e2571, 0x7850c26c, 0x9cd0d89d)
  {
  }

  lemma LastBytes()
    ensures Sha1.Bytes20(Five(0xa9993e36, 0x4706816a, 0xba3e2571, 0x7850c26c, 0x9cd0d89d)) == [
              0xa9, 0x99, 0x3e, 0x36, 0x47, 0x06, 0x81, 0x6a, 0xba, 0x3e,
              0x25, 0x71, 0x78, 0x50, 0xc2, 0x6c, 0x9c, 0xd0, 0xd8, 0x9d
            ]
  {
  }
}
