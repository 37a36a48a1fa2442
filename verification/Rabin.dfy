/** The Rabin fingerprint used to cut the input: arithmetic of polynomials over GF(2) modulo
    t^32 + IRREDUCIBLE, first bit by bit and then with tables of 256 entries.
    Facts about single machine words are decided by the solver's bit-vector theory; the lemmas that
    combine them hide the word operations and reason about them by name only. */
module Rabin {
  import opened Chunks

  const IRREDUCIBLE: bv32 := 0x45c2b6a1
  const NWINDOW := 32

  // ---------- word operations by name ----------

  function Xor(x: bv32, y: bv32): bv32 { x ^ y }
  function Shl1(x: bv32): bv32 { x << 1 }
  predicate TopSet(x: bv32) { x >> 31 != 0 }
  function Shl8(x: bv32): bv32 { x << 8 }
  function ToTop(x: bv32): bv32 { x << 24 }
  function TopByteOf(x: bv32): bv32 { x >> 24 }
  function LowBytesOf(x: bv32): bv32 { x & 0xff_ffff }
  predicate NoTopByte(x: bv32) { x >> 24 == 0 }
  predicate IsByte(x: bv32) { x < 256 }
  // The anchor test: the twelve low bits are zero.
  predicate IsAnchor(h: bv32) { h & 0xfff == 0 }

  lemma XorAssociates(x: bv32, y: bv32, z: bv32)
    ensures Xor(Xor(x, y), z) == Xor(x, Xor(y, z))
  {
  }

  lemma XorCommutes(x: bv32, y: bv32)
    ensures Xor(x, y) == Xor(y, x)
  {
  }

  lemma XorSelf(x: bv32)
    ensures Xor(x, x) == 0
  {
  }

  lemma XorZero(x: bv32)
    ensures Xor(x, 0) == x
  {
  }

  lemma XorLaws(x: bv32, y: bv32, z: bv32)
    ensures Xor(Xor(x, y), z) == Xor(x, Xor(y, z)) && Xor(x, y) == Xor(y, x) && Xor(x, x) == 0 && Xor(x, 0) == x
  {
    hide Xor;
    XorAssociates(x, y, z);
    XorCommutes(x, y);
    XorSelf(x);
    XorZero(x);
  }

  // ---------- the bit-serial reference ----------

  /** Multiplication by t. */
  function Shift(x: bv32, irr: bv32): (r: bv32) {
    if TopSet(x) then Xor(Shl1(x), irr) else Shl1(x)
  }

  /** Multiplication by t^n. */
  function ShiftBy(x: bv32, n: nat, irr: bv32): (r: bv32)
    decreases n
  {
    if n == 0 then x else Shift(ShiftBy(x, n - 1, irr), irr)
  }

  /** The fingerprint of one more byte: multiply by t^8 and add the byte. */
  function Append(h: bv32, b: bv8, irr: bv32): (r: bv32) {
    Xor(ShiftBy(h, 8, irr), Word(b))
  }

  function Extend(h: bv32, p: Bytes, irr: bv32): (r: bv32) {
    if p == [] then h else Append(Extend(h, p[..|p| - 1], irr), p[|p| - 1], irr)
  }

  /** The fingerprint of a byte string, from scratch. */
  function Fingerprint(p: Bytes, irr: bv32): (r: bv32) {
    Extend(0, p, irr)
  }

  // ---------- linearity ----------

  function Reduction(x: bv32, irr: bv32): bv32 { if TopSet(x) then irr else 0 }

  lemma ShiftAsXor(x: bv32, irr: bv32)
    ensures Shift(x, irr) == Xor(Shl1(x), Reduction(x, irr))
  {
    hide Xor, TopSet, Shl1;
    XorLaws(Shl1(x), 0, 0);
  }

  lemma Shl1Xor(x: bv32, y: bv32)
    ensures Shl1(Xor(x, y)) == Xor(Shl1(x), Shl1(y))
  {
  }

  lemma TopSetXor(x: bv32, y: bv32)
    ensures TopSet(Xor(x, y)) <==> TopSet(x) != TopSet(y)
  {
  }

  lemma ReductionXor(x: bv32, y: bv32, irr: bv32)
    ensures Reduction(Xor(x, y), irr) == Xor(Reduction(x, irr), Reduction(y, irr))
  {
    hide Xor, TopSet;
    TopSetXor(x, y);
    XorLaws(irr, 0, 0);
    XorLaws(0, 0, 0);
  }

  lemma Regroup(a: bv32, b: bv32, c: bv32, d: bv32)
    ensures Xor(Xor(a, b), Xor(c, d)) == Xor(Xor(a, c), Xor(b, d))
  {
    hide *;
    XorLaws(a, b, Xor(c, d));
    XorLaws(b, c, d);
    XorLaws(c, b, d);
    XorLaws(a, c, Xor(b, d));
  }

  lemma ShiftXor(x: bv32, y: bv32, irr: bv32)
    ensures Shift(Xor(x, y), irr) == Xor(Shift(x, irr), Shift(y, irr))
  {
    hide *;
    ShiftAsXor(x, irr);
    ShiftAsXor(y, irr);
    ShiftAsXor(Xor(x, y), irr);
    Shl1Xor(x, y);
    ReductionXor(x, y, irr);
    Regroup(Shl1(x), Reduction(x, irr), Shl1(y), Reduction(y, irr));
  }

  lemma {:induction false} ShiftByXor(x: bv32, y: bv32, n: nat, irr: bv32)
    ensures ShiftBy(Xor(x, y), n, irr) == Xor(ShiftBy(x, n, irr), ShiftBy(y, n, irr))
    decreases n
  {
    hide Xor, Shift;
    if n > 0 {
      ShiftByXor(x, y, n - 1, irr);
      ShiftXor(ShiftBy(x, n - 1, irr), ShiftBy(y, n - 1, irr), irr);
    }
  }

  lemma {:induction false} ShiftByAdd(x: bv32, m: nat, n: nat, irr: bv32)
    ensures ShiftBy(x, m + n, irr) == ShiftBy(ShiftBy(x, m, irr), n, irr)
    decreases n
  {
    hide Shift;
    if n > 0 {
      ShiftByAdd(x, m, n - 1, irr);
    }
  }

  // ---------- eight shifts at a time ----------

  // Eight shifts do not reduce when the top byte is zero.
  lemma Low(x: bv32, irr: bv32)
    requires NoTopByte(x)
    ensures ShiftBy(x, 8, irr) == Shl8(x)
  {
    LowBits(x);
    assert Shift(x, irr) == x << 1 && Shift(x << 1, irr) == x << 2;
    assert Shift(x << 2, irr) == x << 3 && Shift(x << 3, irr) == x << 4;
    assert Shift(x << 4, irr) == x << 5 && Shift(x << 5, irr) == x << 6;
    assert Shift(x << 6, irr) == x << 7 && Shift(x << 7, irr) == x << 8;
    assert ShiftBy(x, 2, irr) == x << 2;
    assert ShiftBy(x, 4, irr) == x << 4;
    assert ShiftBy(x, 6, irr) == x << 6;
  }

  lemma LowBits(x: bv32)
    requires x >> 24 == 0
    ensures x >> 31 == 0 && (x << 1) >> 31 == 0 && (x << 2) >> 31 == 0 && (x << 3) >> 31 == 0
    ensures (x << 4) >> 31 == 0 && (x << 5) >> 31 == 0 && (x << 6) >> 31 == 0 && (x << 7) >> 31 == 0
    ensures (x << 1) << 1 == x << 2 && (x << 2) << 1 == x << 3 && (x << 3) << 1 == x << 4 && (x << 4) << 1 == x << 5
    ensures (x << 5) << 1 == x << 6 && (x << 6) << 1 == x << 7 && (x << 7) << 1 == x << 8
  {
  }

  lemma ByteBits(x: bv32)
    requires IsByte(x)
    ensures NoTopByte(x) && NoTopByte(Shl8(x)) && NoTopByte(Shl8(Shl8(x)))
    ensures Shl8(Shl8(Shl8(x))) == ToTop(x)
  {
  }

  lemma ByteToTop(x: bv32, irr: bv32)
    requires IsByte(x)
    ensures ShiftBy(x, 24, irr) == ToTop(x)
  {
    hide *;
    ByteBits(x);
    Low(x, irr);
    Low(Shl8(x), irr);
    Low(Shl8(Shl8(x)), irr);
    ShiftByAdd(x, 8, 16, irr);
    ShiftByAdd(Shl8(x), 8, 8, irr);
  }

  lemma SplitTop(h: bv32)
    ensures h == Xor(LowBytesOf(h), ToTop(TopByteOf(h)))
    ensures NoTopByte(LowBytesOf(h)) && Shl8(LowBytesOf(h)) == Shl8(h) && IsByte(TopByteOf(h))
  {
  }

  /** Multiplication by t^8 needs the reduction of the top byte only. */
  lemma ReduceTopByte(h: bv32, irr: bv32)
    ensures ShiftBy(h, 8, irr) == Xor(Shl8(h), ShiftBy(TopByteOf(h), 32, irr))
  {
    hide *;
    SplitTop(h);
    var low, top := LowBytesOf(h), TopByteOf(h);
    ShiftByXor(low, ToTop(top), 8, irr);
    Low(low, irr);
    ByteToTop(top, irr);
    ShiftByAdd(top, 24, 8, irr);
  }

  // ---------- tables ----------

  /** Tables are indexed by a byte. */
  function Index(b: bv32): (i: nat)
    requires IsByte(b)
    ensures i < 256
  {
    b as int
  }

  function Word(b: bv8): (w: bv32)
    ensures IsByte(w)
  {
    b as bv32
  }

  lemma IndexInjective(a: bv32, b: bv32)
    requires IsByte(a) && IsByte(b) && a != b
    ensures Index(a) != Index(b)
  {
  }

  // The exponent of the oldest byte in a window of this length; lengths below 1 count as 1.
  function Weight(winlen: int): (n: nat) {
    if winlen <= 1 then 0 else 8 * (winlen - 1)
  }

  // The table of the multiples of t^n.
  ghost predicate TableOf(tab: seq<bv32>, n: nat, irr: bv32) {
    |tab| == 256 && forall b: bv32 {:trigger Index(b)} :: IsByte(b) ==> tab[Index(b)] == ShiftBy(b, n, irr)
  }

  /** The table-driven step. */
  function Step(h: bv32, b: bv8, tab: seq<bv32>): (r: bv32)
    requires |tab| == 256
  {
    SplitTop(h);
    Xor(Or(Shl8(h), Word(b)), tab[Index(TopByteOf(h))])
  }

  function Or(x: bv32, y: bv32): bv32 { x | y }

  lemma OrIsXor(h: bv32, b: bv32)
    requires IsByte(b)
    ensures Or(Shl8(h), b) == Xor(Shl8(h), b)
  {
  }

  /** It equals the bit-serial one for every state and byte. */
  lemma StepIsAppend(h: bv32, b: bv8, tab: seq<bv32>, irr: bv32)
    requires TableOf(tab, 32, irr)
    ensures Step(h, b, tab) == Append(h, b, irr)
  {
    hide Xor, Or, Shl8, TopByteOf, ShiftBy, Index, IsByte, Word;
    SplitTop(h);
    ReduceTopByte(h, irr);
    OrIsXor(h, Word(b));
    var top := ShiftBy(TopByteOf(h), 32, irr);
    XorLaws(Shl8(h), Word(b), top);
    XorLaws(Shl8(h), top, Word(b));
    XorLaws(Word(b), top, 0);
    assert tab[Index(TopByteOf(h))] == top;
  }

  /** 32 shifts of a byte, one bit at a time. */
  method FpReduce(b: bv32, irr: bv32) returns (x: bv32)
    ensures x == ShiftBy(b, 32, irr)
  {
    hide TopSet, Shl1, Xor;
    x := b;
    var i := 32;
    while i != 0
      invariant 0 <= i <= 32 && x == ShiftBy(b, 32 - i, irr)
    {
      if TopSet(x) {
        x := Shl1(x);
        x := Xor(x, irr);
      } else {
        x := Shl1(x);
      }
      i := i - 1;
    }
  }

  // The first entries of the table of the multiples of t^n.
  ghost predicate TableUpTo(tab: seq<bv32>, i: bv32, n: nat, irr: bv32) {
    |tab| == 256 && forall b: bv32 {:trigger Index(b)} :: IsByte(b) && b < i ==> tab[Index(b)] == ShiftBy(b, n, irr)
  }

  lemma OneMoreEntry(tab: seq<bv32>, i: bv32, n: nat, irr: bv32)
    requires IsByte(i) && TableUpTo(tab, i, n, irr)
    ensures TableUpTo(tab[Index(i) := ShiftBy(i, n, irr)], i + 1, n, irr)
  {
    hide Index;
    forall b: bv32 | IsByte(b) && b < i + 1
      ensures tab[Index(i) := ShiftBy(i, n, irr)][Index(b)] == ShiftBy(b, n, irr)
    {
      if b != i {
        IndexInjective(b, i);
      }
    }
  }

  method MakeReductionTable(irr: bv32, tab: array<bv32>)
    requires tab.Length == 256
    modifies tab
    ensures TableOf(tab[..], 32, irr)
  {
    var i: bv32 := 0;
    while i < 256
      invariant i <= 256
      invariant TableUpTo(tab[..], i, 32, irr)
      decreases 256 - i
    {
      var x := FpReduce(i, irr);
      OneMoreEntry(tab[..], i, 32, irr);
      tab[Index(i)] := x;
      i := i + 1;
    }
  }

  lemma {:induction false} ZeroStaysZero(n: nat, irr: bv32)
    ensures ShiftBy(0, n, irr) == 0
  {
    if n > 0 {
      ZeroStaysZero(n - 1, irr);
    }
  }

  /** The weight a byte has once `winlen` bytes have been scanned since. */
  method FpWinReduce(winlen: int, x: bv32, tab: array<bv32>, ghost irr: bv32) returns (winval: bv32)
    requires IsByte(x) && TableOf(tab[..], 32, irr)
    ensures winval == ShiftBy(x, Weight(winlen), irr)
  {
    winval := 0;
    SplitTop(winval);
    ZeroStaysZero(32, irr);
    winval := Xor(Or(Shl8(winval), x), tab[Index(TopByteOf(winval))]);
    FirstByte(x);
    var i := 1;
    while i < winlen
      invariant 1 <= i && (i <= winlen || i == 1)
      invariant winval == ShiftBy(x, 8 * (i - 1), irr)
    {
      SplitTop(winval);
      ReduceTopByte(winval, irr);
      ShiftByAdd(x, 8 * (i - 1), 8, irr);
      winval := Xor(Shl8(winval), tab[Index(TopByteOf(winval))]);
      i := i + 1;
    }
  }

  lemma FirstByte(x: bv32)
    ensures Xor(Or(Shl8(0), x), 0) == x && TopByteOf(0) == 0
  {
  }

  method MakeWindowTable(winlen: int, tab: array<bv32>, win: array<bv32>, ghost irr: bv32)
    requires tab.Length == 256 && win.Length == 256 && tab != win && TableOf(tab[..], 32, irr)
    modifies win
    ensures TableOf(win[..], Weight(winlen), irr)
  {
    var i: bv32 := 0;
    while i < 256
      invariant i <= 256
      invariant TableOf(tab[..], 32, irr)
      invariant TableUpTo(win[..], i, Weight(winlen), irr)
      decreases 256 - i
    {
      var x := FpWinReduce(winlen, i, tab, irr);
      OneMoreEntry(win[..], i, Weight(winlen), irr);
      win[Index(i)] := x;
      i := i + 1;
    }
  }

  method RabinInit(winlen: int, tab: array<bv32>, win: array<bv32>)
    requires tab.Length == 256 && win.Length == 256 && tab != win
    modifies tab, win
    ensures TableOf(tab[..], 32, IRREDUCIBLE) && TableOf(win[..], Weight(winlen), IRREDUCIBLE)
    ensures forall b: bv8 {:trigger Word(b)} ::
              win[Index(Word(b))] == if winlen <= 1 then Word(b)
                                     else Fingerprint([b] + Zeros(winlen - 1), IRREDUCIBLE)
  {
    hide Index, Word, TableOf;
    MakeReductionTable(IRREDUCIBLE, tab);
    MakeWindowTable(winlen, tab, win, IRREDUCIBLE);
    forall b: bv8 {:trigger Word(b)}
      ensures win[Index(Word(b))] == if winlen <= 1 then Word(b)
                                     else Fingerprint([b] + Zeros(winlen - 1), IRREDUCIBLE)
    {
      WindowEntry(winlen, win[..], b, IRREDUCIBLE);
    }
  }

  /** An entry of the window table is the hash of its byte and as many zero bytes as follow the oldest
      byte in a window of that length; for window lengths below 2 it is the byte. */
  lemma WindowEntry(winlen: int, win: seq<bv32>, b: bv8, irr: bv32)
    requires TableOf(win, Weight(winlen), irr)
    ensures win[Index(Word(b))] ==
            if winlen <= 1 then Word(b) else Fingerprint([b] + Zeros(winlen - 1), irr)
  {
    hide ShiftBy, Index, Append, Extend, Xor, Word;
    assert win[Index(Word(b))] == ShiftBy(Word(b), Weight(winlen), irr);
    if winlen <= 1 {
      ShiftByNothing(Word(b), irr);
    } else {
      var z := Zeros(winlen - 1);
      FirstByteContribution([b] + z, irr);
      assert ([b] + z)[1..] == z;
      ZerosHashToZero(winlen - 1, irr);
      XorLaws(ShiftBy(Word(b), Weight(winlen), irr), 0, 0);
    }
  }

  // ---------- cutting ----------

  /** The hash of the first bytes, by table steps. */
  function Scan(p: Bytes, tab: seq<bv32>): (h: bv32)
    requires |tab| == 256
  {
    if p == [] then 0 else Step(Scan(p[..|p| - 1], tab), p[|p| - 1], tab)
  }

  /** The hash the cutter holds after k bytes: the first NWINDOW bytes are scanned, afterwards the
      entry of the byte that left the window is taken off before the next byte is appended. */
  function Rolling(p: Bytes, k: nat, tab: seq<bv32>, win: seq<bv32>): (h: bv32)
    requires |tab| == 256 && |win| == 256 && NWINDOW <= k <= |p|
  {
    if k == NWINDOW then Scan(p[..NWINDOW], tab)
    else Step(Xor(Rolling(p, k - 1, tab, win), win[Index(Word(p[k - 1 - NWINDOW]))]), p[k - 1], tab)
  }

  function FirstAnchor(p: Bytes, k: nat, tab: seq<bv32>, win: seq<bv32>): (r: nat)
    requires |tab| == 256 && |win| == 256 && NWINDOW <= k <= |p|
    ensures k <= r <= |p|
    decreases |p| - k
  {
    if k == |p| || IsAnchor(Rolling(p, k, tab, win)) then k else FirstAnchor(p, k + 1, tab, win)
  }

  /** Where the cutter cuts a buffer: at the first anchor, or not at all (the length). */
  function Segment(p: Bytes, tab: seq<bv32>, win: seq<bv32>): (r: nat)
    requires |tab| == 256 && |win| == 256
    ensures r <= |p| && (r < NWINDOW ==> r == |p|)
  {
    if |p| < NWINDOW then |p| else FirstAnchor(p, NWINDOW, tab, win)
  }

  /** A cut below the length is an anchor, and no position from the window's length up to the cut is
      one. There is one such position. */
  ghost predicate CutsAtFirstAnchor(p: Bytes, r: nat, tab: seq<bv32>, win: seq<bv32>)
    requires |tab| == 256 && |win| == 256
  {
    && r <= |p| && (r < |p| ==> NWINDOW <= r && IsAnchor(Rolling(p, r, tab, win)))
    && forall k :: NWINDOW <= k < r ==> !IsAnchor(Rolling(p, k, tab, win))
  }

  lemma {:induction false} FirstAnchorIsFirst(p: Bytes, k: nat, tab: seq<bv32>, win: seq<bv32>)
    requires |tab| == 256 && |win| == 256 && NWINDOW <= k <= |p|
    ensures var r := FirstAnchor(p, k, tab, win);
            && (r < |p| ==> IsAnchor(Rolling(p, r, tab, win)))
            && (forall i :: k <= i < r ==> !IsAnchor(Rolling(p, i, tab, win)))
    decreases |p| - k
  {
    hide IsAnchor, Rolling;
    if k < |p| && !IsAnchor(Rolling(p, k, tab, win)) {
      FirstAnchorIsFirst(p, k + 1, tab, win);
    }
  }

  lemma SegmentIsFirstAnchor(p: Bytes, r: nat, tab: seq<bv32>, win: seq<bv32>)
    requires |tab| == 256 && |win| == 256
    ensures r == Segment(p, tab, win) <==> CutsAtFirstAnchor(p, r, tab, win)
  {
    hide IsAnchor, Rolling;
    if |p| >= NWINDOW {
      FirstAnchorIsFirst(p, NWINDOW, tab, win);
    }
  }

  method RabinSeg(p: Bytes, tab: array<bv32>, win: array<bv32>) returns (cut: nat)
    requires tab.Length == 256 && win.Length == 256
    ensures cut == Segment(p, tab[..], win[..]) && CutsAtFirstAnchor(p, cut, tab[..], win[..])
  {
    cut := Search(p, tab, win);
    SegmentIsFirstAnchor(p, cut, tab[..], win[..]);
  }

  method Search(p: Bytes, tab: array<bv32>, win: array<bv32>) returns (cut: nat)
    requires tab.Length == 256 && win.Length == 256
    ensures cut == Segment(p, tab[..], win[..])
  {
    var n := |p|;
    if n < NWINDOW {
      return n;
    }
    var h: bv32 := 0;
    var i := 0;
    while i < NWINDOW
      invariant 0 <= i <= NWINDOW && h == Scan(p[..i], tab[..])
    {
      SplitTop(h);
      var x := TopByteOf(h);
      assert p[..i + 1][..i] == p[..i];
      h := Or(Shl8(h), Word(p[i]));
      h := Xor(h, tab[Index(x)]);
      i := i + 1;
    }
    if IsAnchor(h) {
      return i;
    }
    while i < n
      invariant NWINDOW <= i <= n && h == Rolling(p, i, tab[..], win[..])
      invariant i == n || !IsAnchor(h)
      invariant FirstAnchor(p, NWINDOW, tab[..], win[..]) == FirstAnchor(p, i, tab[..], win[..])
    {
      h := Xor(h, win[Index(Word(p[i - NWINDOW]))]);
      SplitTop(h);
      var x := TopByteOf(h);
      h := Or(Shl8(h), Word(p[i]));
      i := i + 1;
      h := Xor(h, tab[Index(x)]);
      if IsAnchor(h) {
        return i;
      }
    }
    return n;
  }

  // ---------- a cut is decided by the bytes before it ----------

  lemma {:induction false} RollingOfPrefix(p: Bytes, m: nat, k: nat, tab: seq<bv32>, win: seq<bv32>)
    requires |tab| == 256 && |win| == 256 && NWINDOW <= k <= m <= |p|
    ensures Rolling(p[..m], k, tab, win) == Rolling(p, k, tab, win)
  {
    hide Xor, Step, Index, Word;
    if k == NWINDOW {
      assert p[..m][..NWINDOW] == p[..NWINDOW];
    } else {
      RollingOfPrefix(p, m, k - 1, tab, win);
    }
  }

  lemma {:induction false} FirstAnchorOfPrefix(p: Bytes, m: nat, k: nat, tab: seq<bv32>, win: seq<bv32>)
    requires |tab| == 256 && |win| == 256 && NWINDOW <= k <= m <= |p|
    ensures var r := FirstAnchor(p[..m], k, tab, win);
            if r < m then FirstAnchor(p, k, tab, win) == r else FirstAnchor(p, k, tab, win) >= m
    decreases m - k
  {
    hide IsAnchor, Rolling;
    if k < m {
      RollingOfPrefix(p, m, k, tab, win);
      if !IsAnchor(Rolling(p, k, tab, win)) {
        FirstAnchorOfPrefix(p, m, k + 1, tab, win);
      }
    }
  }

  /** Seeing only a prefix, the cutter finds a proper cut exactly where it finds it in the whole,
      and finds none only if the whole has none inside the prefix. */
  lemma SegmentOfPrefix(p: Bytes, m: nat, tab: seq<bv32>, win: seq<bv32>)
    requires |tab| == 256 && |win| == 256 && m <= |p|
    ensures var r := Segment(p[..m], tab, win);
            if r < m then Segment(p, tab, win) == r else Segment(p, tab, win) >= m
  {
    if m >= NWINDOW {
      FirstAnchorOfPrefix(p, m, NWINDOW, tab, win);
    }
  }

  // ---------- data without anchors ----------

  ghost predicate Quiet(p: Bytes, tab: seq<bv32>, win: seq<bv32>)
    requires |tab| == 256 && |win| == 256
  {
    forall k :: NWINDOW <= k <= |p| ==> !IsAnchor(Rolling(p, k, tab, win))
  }

  lemma QuietIsUncut(p: Bytes, tab: seq<bv32>, win: seq<bv32>)
    requires |tab| == 256 && |win| == 256 && Quiet(p, tab, win)
    ensures Segment(p, tab, win) == |p|
  {
    hide IsAnchor, Rolling;
    SegmentIsFirstAnchor(p, |p|, tab, win);
  }

  // What the cutter holds when it takes the next byte.
  function Held(p: Bytes, tab: seq<bv32>, win: seq<bv32>): (h: bv32)
    requires |tab| == 256 && |win| == 256 && NWINDOW <= |p| + 1
  {
    if |p| + 1 == NWINDOW then Scan(p, tab)
    else Xor(Rolling(p, |p|, tab, win), win[Index(Word(p[|p| - NWINDOW]))])
  }

  lemma RollingOfMore(p: Bytes, b: bv8, tab: seq<bv32>, win: seq<bv32>)
    requires |tab| == 256 && |win| == 256 && NWINDOW <= |p| + 1
    ensures Rolling(p + [b], |p| + 1, tab, win) == Step(Held(p, tab, win), b, tab)
  {
    hide Step, Xor, Index, Word;
    var q := p + [b];
    assert q[..|p|] == p;
    if |q| == NWINDOW {
      assert q[..NWINDOW] == q && q[..|q| - 1] == p;
    } else {
      RollingOfPrefix(q, |p|, |p|, tab, win);
    }
  }

  lemma QuietMore(p: Bytes, b: bv8, tab: seq<bv32>, win: seq<bv32>)
    requires |tab| == 256 && |win| == 256 && Quiet(p, tab, win)
    requires NWINDOW <= |p| + 1 ==> !IsAnchor(Step(Held(p, tab, win), b, tab))
    ensures Quiet(p + [b], tab, win)
  {
    hide IsAnchor, Rolling, Held, Step;
    var q := p + [b];
    assert q[..|p|] == p;
    forall k | NWINDOW <= k <= |q| ensures !IsAnchor(Rolling(q, k, tab, win)) {
      if k <= |p| {
        RollingOfPrefix(q, |p|, k, tab, win);
      } else {
        RollingOfMore(p, b, tab, win);
      }
    }
  }

  lemma SameLowByte(h: bv32, t: bv32, v: bv32, w: bv32)
    requires IsByte(v) && IsByte(w)
    requires IsAnchor(Xor(Or(Shl8(h), v), t)) && IsAnchor(Xor(Or(Shl8(h), w), t))
    ensures v == w
  {
  }

  lemma WordInjective(b: bv8, c: bv8)
    requires Word(b) == Word(c)
    ensures b == c
  {
  }

  /** From one state at most one byte leads to an anchor. */
  lemma OneAnchorByte(h: bv32, b: bv8, c: bv8, tab: seq<bv32>)
    requires |tab| == 256 && IsAnchor(Step(h, b, tab)) && IsAnchor(Step(h, c, tab))
    ensures b == c
  {
    hide IsAnchor, Xor, Or, Shl8, Word, Index, TopByteOf, IsByte;
    SplitTop(h);
    SameLowByte(h, tab[Index(TopByteOf(h))], Word(b), Word(c));
    WordInjective(b, c);
  }

  /** So of three bytes one leads to no anchor from either of two states. */
  lemma ByteWithoutAnchor(h: bv32, g: bv32, tab: seq<bv32>) returns (b: bv8)
    requires |tab| == 256
    ensures !IsAnchor(Step(h, b, tab)) && !IsAnchor(Step(g, b, tab))
  {
    hide IsAnchor, Step;
    b := 0;
    if IsAnchor(Step(h, 0, tab)) || IsAnchor(Step(g, 0, tab)) {
      b := 1;
      if IsAnchor(Step(h, 1, tab)) || IsAnchor(Step(g, 1, tab)) {
        b := 2;
        DistinctBytes();
        forall x: bv8, y: bv8 | IsAnchor(Step(h, x, tab)) && IsAnchor(Step(h, y, tab)) ensures x == y {
          OneAnchorByte(h, x, y, tab);
        }
        forall x: bv8, y: bv8 | IsAnchor(Step(g, x, tab)) && IsAnchor(Step(g, y, tab)) ensures x == y {
          OneAnchorByte(g, x, y, tab);
        }
      }
    }
  }

  lemma DistinctBytes()
    ensures 0 as bv8 != 1 && 1 as bv8 != 2 && 0 as bv8 != 2
  {
  }

  // ---------- the window ----------

  lemma {:induction false} ScanIsFingerprint(p: Bytes, tab: seq<bv32>, irr: bv32)
    requires TableOf(tab, 32, irr)
    ensures Scan(p, tab) == Fingerprint(p, irr)
  {
    hide Step, Append;
    if p != [] {
      ScanIsFingerprint(p[..|p| - 1], tab, irr);
      StepIsAppend(Scan(p[..|p| - 1], tab), p[|p| - 1], tab, irr);
    }
  }

  /** Starting from h instead of 0 adds h times the power the bytes shift it by. */
  lemma {:induction false} ExtendIsLinear(h: bv32, p: Bytes, irr: bv32)
    ensures Extend(h, p, irr) == Xor(ShiftBy(h, 8 * |p|, irr), Fingerprint(p, irr))
  {
    hide Xor, ShiftBy, Word;
    if p == [] {
      XorLaws(h, 0, 0);
      ShiftByNothing(h, irr);
    } else {
      var q, b := p[..|p| - 1], Word(p[|p| - 1]);
      ExtendIsLinear(h, q, irr);
      var a, c := ShiftBy(h, 8 * |q|, irr), Fingerprint(q, irr);
      ShiftByXor(a, c, 8, irr);
      ShiftByAdd(h, 8 * |q|, 8, irr);
      XorLaws(ShiftBy(a, 8, irr), ShiftBy(c, 8, irr), b);
    }
  }

  lemma ShiftByNothing(h: bv32, irr: bv32)
    ensures ShiftBy(h, 0, irr) == h
  {
  }

  lemma {:induction false} ExtendAppend(h: bv32, p: Bytes, q: Bytes, irr: bv32)
    ensures Extend(h, p + q, irr) == Extend(Extend(h, p, irr), q, irr)
  {
    hide Append;
    if q == [] {
      assert p + q == p;
    } else {
      assert (p + q)[..|p + q| - 1] == p + q[..|q| - 1];
      ExtendAppend(h, p, q[..|q| - 1], irr);
    }
  }

  lemma AppendToZero(b: bv8, irr: bv32)
    ensures Append(0, b, irr) == Word(b)
  {
    hide Xor, ShiftBy, Word;
    ZeroStaysZero(8, irr);
    XorLaws(Word(b), 0, 0);
    XorLaws(0, Word(b), 0);
  }

  /** The first byte of a string contributes its multiple of a power of t. */
  lemma FirstByteContribution(p: Bytes, irr: bv32)
    requires p != []
    ensures Fingerprint(p, irr) == Xor(ShiftBy(Word(p[0]), 8 * (|p| - 1), irr), Fingerprint(p[1..], irr))
  {
    hide Xor, ShiftBy, Append, Word;
    assert p == p[..1] + p[1..];
    ExtendAppend(0, p[..1], p[1..], irr);
    assert p[..1][..0] == [];
    AppendToZero(p[0], irr);
    ExtendIsLinear(Word(p[0]), p[1..], irr);
  }

  /** With the window table for NWINDOW bytes the rolling hash is at every position the hash from
      scratch of the last NWINDOW bytes. */
  lemma {:induction false} RollingIsWindow(p: Bytes, k: nat, tab: seq<bv32>, win: seq<bv32>, irr: bv32)
    requires TableOf(tab, 32, irr) && TableOf(win, Weight(NWINDOW), irr) && NWINDOW <= k <= |p|
    ensures Rolling(p, k, tab, win) == Fingerprint(p[k - NWINDOW..k], irr)
  {
    hide Xor, ShiftBy, Append, Step, Word, Index, Scan;
    if k == NWINDOW {
      ScanIsFingerprint(p[..NWINDOW], tab, irr);
      assert p[0..NWINDOW] == p[..NWINDOW];
    } else {
      RollingIsWindow(p, k - 1, tab, win, irr);
      var w, v := p[k - 1 - NWINDOW..k - 1], p[k - NWINDOW..k];
      FirstByteContribution(w, irr);
      var old' := ShiftBy(Word(w[0]), 8 * (NWINDOW - 1), irr);
      var rest := Fingerprint(w[1..], irr);
      XorLaws(old', rest, old');
      XorLaws(rest, old', old');
      XorLaws(rest, 0, 0);
      XorLaws(old', old', 0);
      assert win[Index(Word(w[0]))] == old';
      StepIsAppend(rest, p[k - 1], tab, irr);
      assert v[..|v| - 1] == w[1..];
    }
  }

  /** What the hash is for every window table, that of the callers included: the hash of all the bytes so
      far, from which the bytes that left the window have been taken with the weight the table gives
      them, t^n, and not with the weight they have. */
  lemma {:induction false} RollingOfTables(p: Bytes, k: nat, n: nat, tab: seq<bv32>, win: seq<bv32>, irr: bv32)
    requires TableOf(tab, 32, irr) && TableOf(win, n, irr) && NWINDOW <= k <= |p|
    ensures Rolling(p, k, tab, win) ==
            Xor(Fingerprint(p[..k], irr), ShiftBy(Fingerprint(p[..k - NWINDOW], irr), n + 8, irr))
  {
    hide Xor, ShiftBy, Step, Word, Index, Scan;
    if k == NWINDOW {
      ScanIsFingerprint(p[..NWINDOW], tab, irr);
      assert p[..0] == [];
      ShiftByZero(n + 8, irr);
      XorLaws(Fingerprint(p[..NWINDOW], irr), 0, 0);
    } else {
      RollingOfTables(p, k - 1, n, tab, win, irr);
      var x, w := p[k - 1], Word(p[k - 1 - NWINDOW]);
      var all, left := Fingerprint(p[..k - 1], irr), Fingerprint(p[..k - 1 - NWINDOW], irr);
      assert p[..k][..k - 1] == p[..k - 1] && p[..k - NWINDOW][..k - 1 - NWINDOW] == p[..k - 1 - NWINDOW];
      assert win[Index(w)] == ShiftBy(w, n, irr);
      var h := Xor(all, ShiftBy(left, n + 8, irr));
      StepIsAppend(Xor(h, ShiftBy(w, n, irr)), x, tab, irr);
      TakenOff(all, left, w, n, irr);
      RegroupLast(ShiftBy(all, 8, irr), ShiftBy(Xor(ShiftBy(left, 8, irr), w), n + 8, irr), Word(x));
    }
  }

  // Eight more shifts of what is there and of what is taken off.
  lemma TakenOff(all: bv32, left: bv32, w: bv32, n: nat, irr: bv32)
    ensures ShiftBy(Xor(Xor(all, ShiftBy(left, n + 8, irr)), ShiftBy(w, n, irr)), 8, irr) ==
            Xor(ShiftBy(all, 8, irr), ShiftBy(Xor(ShiftBy(left, 8, irr), w), n + 8, irr))
  {
    hide Xor, ShiftBy;
    var a := ShiftBy(left, n + 8, irr);
    XorLaws(all, a, ShiftBy(w, n, irr));
    ShiftByXor(all, Xor(a, ShiftBy(w, n, irr)), 8, irr);
    ShiftByXor(a, ShiftBy(w, n, irr), 8, irr);
    ShiftByXor(ShiftBy(left, 8, irr), w, n + 8, irr);
    ShiftByAdd(w, n, 8, irr);
    ShiftByAdd(left, n + 8, 8, irr);
    ShiftByAdd(left, 8, n + 8, irr);
  }

  lemma RegroupLast(a: bv32, b: bv32, c: bv32)
    ensures Xor(Xor(a, b), c) == Xor(Xor(a, c), b)
  {
    hide Xor;
    XorLaws(a, b, c);
    XorLaws(b, c, 0);
    XorLaws(a, c, b);
  }

  ghost predicate RollsRight(tab: seq<bv32>, win: seq<bv32>, irr: bv32)
    requires |tab| == 256 && |win| == 256
  {
    forall p, k {:trigger Rolling(p, k, tab, win)} :: NWINDOW <= k <= |p| ==>
      Rolling(p, k, tab, win) == Fingerprint(p[k - NWINDOW..k], irr)
  }

  function Zeros(n: nat): (p: Bytes)
    ensures |p| == n
  {
    if n == 0 then [] else Zeros(n - 1) + [0]
  }

  lemma {:induction false} ZerosHashToZero(n: nat, irr: bv32)
    ensures Fingerprint(Zeros(n), irr) == 0
  {
    hide Append, Word;
    if n > 0 {
      ZerosHashToZero(n - 1, irr);
      assert Zeros(n)[..n - 1] == Zeros(n - 1);
      AppendToZero(0, irr);
      WordOfZero();
    }
  }

  lemma WordOfZero()
    ensures Word(0) == 0
  {
  }

  // Multiplication by t loses nothing when the modulus has a constant term.
  predicate Odd(x: bv32) { x & 1 == 1 }

  lemma ShiftToZero(x: bv32, irr: bv32)
    requires Odd(irr) && Shift(x, irr) == 0
    ensures x == 0
  {
  }

  lemma {:induction false} ShiftByToZero(x: bv32, n: nat, irr: bv32)
    requires Odd(irr) && ShiftBy(x, n, irr) == 0
    ensures x == 0
  {
    hide Odd, Shift;
    if n > 0 {
      ShiftToZero(ShiftBy(x, n - 1, irr), irr);
      ShiftByToZero(x, n - 1, irr);
    }
  }

  lemma EqualIfXorZero(x: bv32, y: bv32)
    requires Xor(x, y) == 0
    ensures x == y
  {
  }

  lemma ThenZeros(b: bv8, n: nat)
    requires n > 0
    ensures var p := [b] + Zeros(n);
            p[1..n + 1] == Zeros(n) && p[..n][1..] == Zeros(n - 1) && p[n] == 0
  {
    assert Zeros(n)[..n - 1] == Zeros(n - 1);
  }

  // The byte b followed by zeros only, seen when it leaves the window.
  lemma NecessaryEntry(b: bv8, tab: seq<bv32>, win: seq<bv32>, irr: bv32)
    requires TableOf(tab, 32, irr) && |win| == 256 && Odd(irr) && RollsRight(tab, win, irr)
    ensures win[Index(Word(b))] == ShiftBy(Word(b), Weight(NWINDOW), irr)
  {
    hide Xor, ShiftBy, Append, Step, Word, Index, Scan, Odd;
    var p := [b] + Zeros(NWINDOW);
    var w := p[..NWINDOW];
    ThenZeros(b, NWINDOW);
    ZerosHashToZero(NWINDOW, irr);
    ZerosHashToZero(NWINDOW - 1, irr);
    var weight, entry := ShiftBy(Word(b), Weight(NWINDOW), irr), win[Index(Word(b))];
    FirstByteContribution(w, irr);
    XorLaws(weight, 0, 0);
    ScanIsFingerprint(w, tab, irr);
    assert Rolling(p, NWINDOW, tab, win) == weight;
    var h := Xor(weight, entry);
    StepIsAppend(h, p[NWINDOW], tab, irr);
    assert Rolling(p, NWINDOW + 1, tab, win) == Append(h, 0, irr);
    assert Append(h, 0, irr) == 0;
    AppendedZero(h, irr);
    ShiftByToZero(h, 8, irr);
    EqualIfXorZero(weight, entry);
  }

  lemma AppendedZero(h: bv32, irr: bv32)
    requires Append(h, 0, irr) == 0
    ensures ShiftBy(h, 8, irr) == 0
  {
    hide Xor, ShiftBy, Word;
    WordOfZero();
    XorLaws(ShiftBy(h, 8, irr), 0, 0);
  }

  lemma EveryByteIsAWord(x: bv32) returns (b: bv8)
    requires IsByte(x)
    ensures Word(b) == x
  {
    b := x as bv8;
  }

  /** The rolling hash is the hash of the window for all inputs if and only if the window table
      holds the multiples of the power of t that the byte leaving the window has. */
  lemma RollsRightIff(tab: seq<bv32>, win: seq<bv32>, irr: bv32)
    requires TableOf(tab, 32, irr) && |win| == 256 && Odd(irr)
    ensures RollsRight(tab, win, irr) <==> TableOf(win, Weight(NWINDOW), irr)
  {
    hide Index, ShiftBy, Rolling, Fingerprint;
    if TableOf(win, Weight(NWINDOW), irr) {
      forall p, k {:trigger Rolling(p, k, tab, win)} | NWINDOW <= k <= |p|
        ensures Rolling(p, k, tab, win) == Fingerprint(p[k - NWINDOW..k], irr)
      {
        RollingIsWindow(p, k, tab, win, irr);
      }
    }
    if RollsRight(tab, win, irr) {
      forall x: bv32 {:trigger Index(x)} | IsByte(x) ensures win[Index(x)] == ShiftBy(x, Weight(NWINDOW), irr) {
        var b := EveryByteIsAWord(x);
        NecessaryEntry(b, tab, win, irr);
      }
    }
  }

  function Half(x: bv32): (h: bv32) { x >> 1 }
  function LowBit(x: bv32): (b: bv32) { x & 1 }

  lemma BitSplit(x: bv32)
    requires IsByte(x)
    ensures Xor(Shl1(Half(x)), LowBit(x)) == x && (LowBit(x) == 0 || LowBit(x) == 1)
    ensures !TopSet(Half(x)) && IsByte(Half(x)) && (x != 0 ==> Half(x) < x)
  {
  }

  lemma {:induction false} ShiftByZero(n: nat, irr: bv32)
    ensures ShiftBy(0, n, irr) == 0
  {
    hide Shift;
    if n > 0 {
      ShiftByZero(n - 1, irr);
      ShiftOfZero(irr);
    }
  }

  lemma ShiftOfZero(irr: bv32)
    ensures Shift(0, irr) == 0
  {
  }

  // Multiplication by t^n and by t commute.
  lemma ShiftFirst(x: bv32, n: nat, irr: bv32)
    ensures ShiftBy(Shift(x, irr), n, irr) == Shift(ShiftBy(x, n, irr), irr)
  {
    hide Shift;
    ShiftByAdd(x, 1, n, irr);
    assert ShiftBy(x, 1, irr) == Shift(ShiftBy(x, 0, irr), irr) && ShiftBy(x, 0, irr) == x;
  }

  // Two powers of t that are equal have equal multiples.
  lemma {:induction false} EqualMultiples(x: bv32, n: nat, m: nat, irr: bv32)
    requires IsByte(x) && ShiftBy(1, n, irr) == ShiftBy(1, m, irr)
    ensures ShiftBy(x, n, irr) == ShiftBy(x, m, irr)
    decreases x
  {
    hide Xor, Shl1, Half, LowBit, TopSet, ShiftBy, IsByte;
    if x == 0 {
      ShiftByZero(n, irr);
      ShiftByZero(m, irr);
    } else {
      BitSplit(x);
      var y, b := Half(x), LowBit(x);
      assert Shift(y, irr) == Shl1(y);
      EqualMultiples(y, n, m, irr);
      ShiftByXor(Shl1(y), b, n, irr);
      ShiftByXor(Shl1(y), b, m, irr);
      ShiftFirst(y, n, irr);
      ShiftFirst(y, m, irr);
      ShiftByZero(n, irr);
      ShiftByZero(m, irr);
    }
  }

  /** For a caller of the initialisation: with the tables for a window length the rolling hash is the
      hash of the window for all inputs if and only if that length stands for the same power of t as
      the window's own, t^248. */
  lemma RollsRightForLength(winlen: int, tab: seq<bv32>, win: seq<bv32>)
    requires TableOf(tab, 32, IRREDUCIBLE) && TableOf(win, Weight(winlen), IRREDUCIBLE)
    ensures RollsRight(tab, win, IRREDUCIBLE) <==>
            ShiftBy(1, Weight(winlen), IRREDUCIBLE) == ShiftBy(1, 248, IRREDUCIBLE)
  {
    hide Index, ShiftBy, RollsRight;
    RollsRightIff(tab, win, IRREDUCIBLE);
    var n := Weight(winlen);
    if ShiftBy(1, n, IRREDUCIBLE) == ShiftBy(1, 248, IRREDUCIBLE) {
      forall x: bv32 {:trigger Index(x)} | IsByte(x) ensures win[Index(x)] == ShiftBy(x, 248, IRREDUCIBLE) {
        EqualMultiples(x, n, 248, IRREDUCIBLE);
      }
    } else {
      assert win[Index(1)] == ShiftBy(1, n, IRREDUCIBLE);
    }
  }

  /** The callers build the tables for window length 0, and with those the rolling hash is not the
      hash of the window. */
  lemma CallersDoNotRollRight(tab: seq<bv32>, win: seq<bv32>)
    requires TableOf(tab, 32, IRREDUCIBLE) && TableOf(win, Weight(0), IRREDUCIBLE)
    ensures !RollsRight(tab, win, IRREDUCIBLE)
  {
    RollsRightIff(tab, win, IRREDUCIBLE);
    PowerOf248();
    assert win[Index(1)] == ShiftBy(1, 0, IRREDUCIBLE) == 1;
    EntryOfOne(win, Weight(NWINDOW));
  }

  lemma EntryOfOne(win: seq<bv32>, n: nat)
    requires |win| == 256 && win[Index(1)] != ShiftBy(1, n, IRREDUCIBLE)
    ensures !TableOf(win, n, IRREDUCIBLE)
  {
  }

  // t^n = x and x * t^8 = y give t^(n + 8) = y.
  lemma Jump(n: nat, x: bv32, y: bv32)
    requires ShiftBy(1, n, IRREDUCIBLE) == x && ShiftBy(x, 8, IRREDUCIBLE) == y
    ensures ShiftBy(1, n + 8, IRREDUCIBLE) == y
  {
    ShiftByAdd(1, n, 8, IRREDUCIBLE);
  }

  lemma PowerOf64()
    ensures ShiftBy(1, 64, IRREDUCIBLE) == 0xe050e5e1
  {
    Jump(0, 0x1, 0x100);
    Jump(8, 0x100, 0x10000);
    Jump(16, 0x10000, 0x1000000);
    Jump(24, 0x1000000, 0x45c2b6a1);
    Jump(32, 0x45c2b6a1, 0xee306350);
    Jump(40, 0xee306350, 0x1decac3b);
    Jump(48, 0x1decac3b, 0x50d53ffb);
    Jump(56, 0x50d53ffb, 0xe050e5e1);
  }

  lemma PowerOf128()
    ensures ShiftBy(1, 128, IRREDUCIBLE) == 0x505123d5
  {
    PowerOf64();
    Jump(64, 0xe050e5e1, 0x1b7c416);
    Jump(72, 0x1b7c416, 0xf206a0a1);
    Jump(80, 0xf206a0a1, 0xd294ef61);
    Jump(88, 0xd294ef61, 0x5d1d230b);
    Jump(96, 0x5d1d230b, 0x9ad6172f);
    Jump(104, 0x9ad6172f, 0x81f9ad95);
    Jump(112, 0x81f9ad95, 0xcb771209);
    Jump(120, 0xcb771209, 0x505123d5);
  }

  lemma PowerOf192()
    ensures ShiftBy(1, 192, IRREDUCIBLE) == 0xb154b1b6
  {
    PowerOf128();
    Jump(128, 0x505123d5, 0x644ccbe1);
    Jump(136, 0x644ccbe1, 0x3849999b);
    Jump(144, 0x3849999b, 0xff2c4915);
    Jump(152, 0xff2c4915, 0x4ae759af);
    Jump(160, 0x4ae759af, 0xf2c002dc);
    Jump(168, 0xf2c002dc, 0x14369261);
    Jump(176, 0x14369261, 0x6ab90b10);
    Jump(184, 0x6ab90b10, 0xb154b1b6);
  }

  lemma PowerOf248()
    ensures ShiftBy(1, 248, IRREDUCIBLE) == 0x538188b7
  {
    PowerOf192();
    Jump(192, 0xb154b1b6, 0x754e3b56);
    Jump(200, 0x754e3b56, 0x71989e0f);
    Jump(208, 0x71989e0f, 0xf5f5ab2a);
    Jump(216, 0xf5f5ab2a, 0xbd10d3a7);
    Jump(224, 0xbd10d3a7, 0xc6749e39);
    Jump(232, 0xc6749e39, 0xe147111b);
    Jump(240, 0xe147111b, 0x538188b7);
  }
}
