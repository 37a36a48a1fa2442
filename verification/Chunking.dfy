/** Cutting the input: coarse pieces from a buffered reader that carries leftovers between reads,
    each then refined into chunks. Both cut where one pass over the whole data would. */
module Chunking {
  import opened Chunks
  import opened Wrappers
  import opened Sequences
  import Rabin
  import Reorder

  const ANCHOR_JUMP := 2 * 1024 * 1024

  datatype Piece = Piece(l1num: nat, data: Bytes)

  ghost predicate Tables(tab: seq<bv32>, win: seq<bv32>) {
    |tab| == 256 && |win| == 256
  }

  // ---------- one pass over the whole data ----------

  /** The end of the first coarse piece: the first anchor more than ANCHOR_JUMP bytes in. */
  function CoarseCut(p: Bytes, tab: seq<bv32>, win: seq<bv32>): (k: nat)
    requires |tab| == 256 && |win| == 256
    ensures k <= |p| && (p != [] ==> k > 0)
  {
    if ANCHOR_JUMP < |p| then Rabin.Segment(p[ANCHOR_JUMP..], tab, win) + ANCHOR_JUMP else |p|
  }

  function Coarse(p: Bytes, tab: seq<bv32>, win: seq<bv32>): (ps: seq<Bytes>)
    requires |tab| == 256 && |win| == 256
    ensures forall i :: 0 <= i < |ps| ==> ps[i] != []
    decreases |p|
  {
    if p == [] then [] else
      var k := CoarseCut(p, tab, win);
      [p[..k]] + Coarse(p[k..], tab, win)
  }

  function Fine(p: Bytes, tab: seq<bv32>, win: seq<bv32>): (cs: seq<Bytes>)
    requires |tab| == 256 && |win| == 256
    ensures |cs| > 0
    ensures p != [] ==> forall i :: 0 <= i < |cs| ==> cs[i] != []
    decreases |p|
  {
    var k := Rabin.Segment(p, tab, win);
    if k < |p| then [p[..k]] + Fine(p[k..], tab, win) else [p]
  }

  /** A proper cut found in the part of the data that is in the buffer is the cut of the whole, and
      when the buffer shows none the whole has none before the end of the buffer. */
  lemma CoarseCutOfPrefix(p: Bytes, m: nat, tab: seq<bv32>, win: seq<bv32>)
    requires Tables(tab, win) && m <= |p|
    ensures var k := CoarseCut(p[..m], tab, win);
            if k < m then CoarseCut(p, tab, win) == k else CoarseCut(p, tab, win) >= m
  {
    hide Rabin.Segment;
    if ANCHOR_JUMP < m {
      Rabin.SegmentOfPrefix(p[ANCHOR_JUMP..], m - ANCHOR_JUMP, tab, win);
      assert p[..m][ANCHOR_JUMP..] == p[ANCHOR_JUMP..][..m - ANCHOR_JUMP];
    }
  }

  // ---------- where cuts are to fall ----------

  /** Where the first piece of some data ends: after ANCHOR_JUMP bytes at the first anchor of what
      follows, and at the end of the data when it is not longer than that or holds no anchor there. */
  ghost predicate PieceEnds(rest: Bytes, k: nat, tab: seq<bv32>, win: seq<bv32>)
    requires Tables(tab, win)
  {
    if |rest| > ANCHOR_JUMP
    then k > ANCHOR_JUMP && Rabin.CutsAtFirstAnchor(rest[ANCHOR_JUMP..], k - ANCHOR_JUMP, tab, win)
    else k == |rest|
  }

  // Each piece ends where the first piece of everything from its start on is to end.
  ghost predicate PiecesEnd(ps: seq<Bytes>, tab: seq<bv32>, win: seq<bv32>)
    requires Tables(tab, win)
  {
    forall i :: 0 <= i < |ps| ==> PieceEnds(Flat(ps[i..]), |ps[i]|, tab, win)
  }

  // Each chunk ends at the first anchor of everything from its start on.
  ghost predicate ChunksEnd(cs: seq<Bytes>, tab: seq<bv32>, win: seq<bv32>)
    requires Tables(tab, win)
  {
    forall j :: 0 <= j < |cs| ==> Rabin.CutsAtFirstAnchor(Flat(cs[j..]), |cs[j]|, tab, win)
  }

  lemma CoarseCutIsEnd(p: Bytes, k: nat, tab: seq<bv32>, win: seq<bv32>)
    requires Tables(tab, win) && p != []
    ensures k == CoarseCut(p, tab, win) <==> PieceEnds(p, k, tab, win)
  {
    hide Rabin.Segment, Rabin.CutsAtFirstAnchor;
    if |p| > ANCHOR_JUMP && k > ANCHOR_JUMP {
      Rabin.SegmentIsFirstAnchor(p[ANCHOR_JUMP..], k - ANCHOR_JUMP, tab, win);
    }
  }

  lemma {:induction false} CoarseEnds(p: Bytes, tab: seq<bv32>, win: seq<bv32>)
    requires Tables(tab, win)
    ensures PiecesEnd(Coarse(p, tab, win), tab, win)
    decreases |p|
  {
    hide PieceEnds, CoarseCut, Flat;
    var ps := Coarse(p, tab, win);
    if p != [] {
      var k := CoarseCut(p, tab, win);
      CoarseEnds(p[k..], tab, win);
      CoarseKeepsTheData(p, tab, win);
      CoarseCutIsEnd(p, k, tab, win);
      forall i | 0 <= i < |ps| ensures PieceEnds(Flat(ps[i..]), |ps[i]|, tab, win) {
        if i == 0 {
          assert ps[0..] == ps;
        } else {
          assert ps[i..] == ps[1..][i - 1..];
        }
      }
    }
  }

  lemma CoarseIsAsPromised(file: Bytes, tab: seq<bv32>, win: seq<bv32>)
    requires Tables(tab, win)
    ensures var ps := Coarse(file, tab, win); Flat(ps) == file && PiecesEnd(ps, tab, win) && [] !in ps
  {
    hide Coarse, PiecesEnd, Flat;
    CoarseKeepsTheData(file, tab, win);
    CoarseEnds(file, tab, win);
  }

  lemma HoldsSomething(ps: seq<Bytes>)
    requires [] !in ps
    ensures ps == [] <==> Flat(ps) == []
  {
  }

  /** There is one way to cut some data into pieces that end where they are to end. */
  lemma {:induction false} PiecesAreDetermined(ps: seq<Bytes>, qs: seq<Bytes>, tab: seq<bv32>, win: seq<bv32>)
    requires Tables(tab, win) && PiecesEnd(ps, tab, win) && PiecesEnd(qs, tab, win) && Flat(ps) == Flat(qs)
    requires [] !in ps && [] !in qs
    ensures ps == qs
  {
    hide PieceEnds, Flat, CoarseCut;
    HoldsSomething(ps);
    HoldsSomething(qs);
    if ps != [] && qs != [] {
      var p := Flat(ps);
      FlatFirst(ps[0], ps[1..]);
      FlatFirst(qs[0], qs[1..]);
      assert ps == [ps[0]] + ps[1..] && qs == [qs[0]] + qs[1..] && ps[0..] == ps && qs[0..] == qs;
      CoarseCutIsEnd(p, |ps[0]|, tab, win);
      CoarseCutIsEnd(p, |qs[0]|, tab, win);
      assert ps[0] == p[..|ps[0]|] && qs[0] == p[..|qs[0]|];
      assert Flat(ps[1..]) == p[|ps[0]|..] && Flat(qs[1..]) == p[|qs[0]|..];
      assert forall i :: 0 <= i < |ps[1..]| ==> ps[1..][i..] == ps[i + 1..];
      assert forall i :: 0 <= i < |qs[1..]| ==> qs[1..][i..] == qs[i + 1..];
      PiecesAreDetermined(ps[1..], qs[1..], tab, win);
    }
  }

  lemma {:induction false} FineEnds(p: Bytes, tab: seq<bv32>, win: seq<bv32>)
    requires Tables(tab, win)
    ensures ChunksEnd(Fine(p, tab, win), tab, win)
    decreases |p|
  {
    hide Rabin.CutsAtFirstAnchor, Rabin.Segment, Flat;
    var cs, k := Fine(p, tab, win), Rabin.Segment(p, tab, win);
    FineKeepsTheData(p, tab, win);
    Rabin.SegmentIsFirstAnchor(p, k, tab, win);
    if k < |p| {
      FineEnds(p[k..], tab, win);
    }
    forall j | 0 <= j < |cs| ensures Rabin.CutsAtFirstAnchor(Flat(cs[j..]), |cs[j]|, tab, win) {
      if j == 0 {
        assert cs[0..] == cs;
      } else {
        assert cs[j..] == cs[1..][j - 1..];
      }
    }
  }

  // ---------- the buffered fragmenter ----------

  // The pieces sent so far carry the numbers 0, 1, 2, ...
  ghost predicate Numbered(sent: seq<Piece>) {
    forall i :: 0 <= i < |sent| ==> sent[i].l1num == i
  }

  function DataOf(sent: seq<Piece>): (ps: seq<Bytes>)
    ensures |ps| == |sent|
  {
    seq(|sent|, i requires 0 <= i < |sent| => sent[i].data)
  }

  // What is sent plus the cuts still to come in the rest is the one-pass result.
  ghost predicate OnCourse(file: Bytes, sent: seq<Piece>, rest: Bytes, tab: seq<bv32>, win: seq<bv32>)
    requires Tables(tab, win)
  {
    Numbered(sent) && Coarse(file, tab, win) == DataOf(sent) + Coarse(rest, tab, win)
  }

  lemma SendOne(file: Bytes, sent: seq<Piece>, rest: Bytes, k: nat, tab: seq<bv32>, win: seq<bv32>)
    requires Tables(tab, win) && OnCourse(file, sent, rest, tab, win) && rest != [] && k == CoarseCut(rest, tab, win)
    ensures OnCourse(file, sent + [Piece(|sent|, rest[..k])], rest[k..], tab, win)
  {
    hide CoarseCut;
    assert DataOf(sent + [Piece(|sent|, rest[..k])]) == DataOf(sent) + [rest[..k]];
  }

  lemma CoarseOfNothing(tab: seq<bv32>, win: seq<bv32>)
    requires Tables(tab, win)
    ensures Coarse([], tab, win) == []
  {
  }

  /** Cut the chunk in hand as often as the buffered data decides it; what is left over has no
      proper cut and is carried to the next read. */
  method CutBuffer(ghost file: Bytes, sent0: seq<Piece>, chunk0: Piece, anchors0: nat, ghost ahead: Bytes,
                   tab: array<bv32>, win: array<bv32>)
    returns (sent: seq<Piece>, temp: Piece, anchorcount: nat)
    requires tab.Length == 256 && win.Length == 256
    requires chunk0.data != [] && chunk0.l1num == |sent0| && anchors0 == |sent0| + 1
    requires OnCourse(file, sent0, chunk0.data + ahead, tab[..], win[..])
    ensures temp.data != [] && temp.l1num == |sent| && anchorcount == |sent| + 1
    ensures OnCourse(file, sent, temp.data + ahead, tab[..], win[..])
    ensures CoarseCut(temp.data, tab[..], win[..]) == |temp.data|
    ensures PieceEnds(temp.data, |temp.data|, tab[..], win[..])
  {
    hide Coarse, Rabin.Segment, Rabin.CutsAtFirstAnchor, DataOf, Numbered;
    var chunk := chunk0;
    sent, anchorcount := sent0, anchors0;
    var split := true;
    while split
      invariant chunk.data != [] && chunk.l1num == |sent| && anchorcount == |sent| + 1
      invariant OnCourse(file, sent, chunk.data + ahead, tab[..], win[..])
      invariant !split ==> CoarseCut(chunk.data, tab[..], win[..]) == |chunk.data|
      decreases split, |chunk.data|
    {
      split := false;
      if ANCHOR_JUMP < |chunk.data| {
        var offset := Rabin.RabinSeg(chunk.data[ANCHOR_JUMP..], tab, win);
        assert offset != 0;
        if offset + ANCHOR_JUMP < |chunk.data| {
          ghost var rest, k := chunk.data + ahead, offset + ANCHOR_JUMP;
          assert rest[..|chunk.data|] == chunk.data;
          CoarseCutOfPrefix(rest, |chunk.data|, tab[..], win[..]);
          SendOne(file, sent, rest, k, tab[..], win[..]);
          var next := Piece(anchorcount, chunk.data[offset + ANCHOR_JUMP..]);
          anchorcount := anchorcount + 1;
          sent := sent + [chunk.(data := chunk.data[..offset + ANCHOR_JUMP])];
          assert rest[k..] == next.data + ahead && rest[..k] == chunk.data[..k];
          chunk := next;
          split := true;
        }
      }
    }
    temp := chunk;
    CoarseCutIsEnd(temp.data, |temp.data|, tab[..], win[..]);
  }

  /** Read the file in buffers of any size and cut it. */
  method Fragment(file: Bytes, maxbuf: nat, tab: array<bv32>, win: array<bv32>) returns (sent: seq<Piece>)
    requires maxbuf > 0 && tab.Length == 256 && win.Length == 256
    ensures Numbered(sent) && DataOf(sent) == Coarse(file, tab[..], win[..])
    ensures Flat(DataOf(sent)) == file && PiecesEnd(DataOf(sent), tab[..], win[..]) && [] !in DataOf(sent)
  {
    hide CoarseCut, Coarse, PiecesEnd, PieceEnds, Flat;
    CoarseIsAsPromised(file, tab[..], win[..]);
    sent := [];
    var anchorcount := 0;
    var temp: Option<Piece> := None;
    var seek := 0;
    assert DataOf([]) == [] && [] + file[seek..] == file;
    while true
      invariant seek <= |file|
      invariant anchorcount == if temp.Some? then |sent| + 1 else |sent|
      invariant temp.Some? ==> temp.value.data != [] && temp.value.l1num == |sent|
                               && CoarseCut(temp.value.data, tab[..], win[..]) == |temp.value.data|
      invariant OnCourse(file, sent, (if temp.Some? then temp.value.data else []) + file[seek..], tab[..], win[..])
      decreases |file| - seek
    {
      var chunk: Piece;
      if temp.Some? {
        chunk := temp.value;
        temp := None;
      } else {
        chunk := Piece(anchorcount, []);
        anchorcount := anchorcount + 1;
      }
      var bytesRead := if maxbuf < |file| - seek then maxbuf else |file| - seek;
      ghost var left := chunk.data;
      chunk := chunk.(data := chunk.data + file[seek..seek + bytesRead]);
      assert left + file[seek..] == chunk.data + file[seek + bytesRead..];
      seek := seek + bytesRead;
      if |chunk.data| == 0 {
        CoarseOfNothing(tab[..], win[..]);
        break;
      }
      if bytesRead == 0 {
        assert chunk.data == left && left + file[seek..] == left;
        SendOne(file, sent, left, |left|, tab[..], win[..]);
        CoarseOfNothing(tab[..], win[..]);
        sent := sent + [chunk];
        break;
      }
      var carried: Piece;
      sent, carried, anchorcount := CutBuffer(file, sent, chunk, anchorcount, file[seek..], tab, win);
      temp := Some(carried);
    }
  }

  // ---------- the refiner ----------

  function ChunkData(sent: seq<Chunk>): (cs: seq<Bytes>)
    ensures |cs| == |sent|
  {
    seq(|sent|, j requires 0 <= j < |sent| => sent[j].data)
  }

  /** Cut one piece into chunks numbered from 0, the last one marked. */
  method Refine(piece: Piece, tab: array<bv32>, win: array<bv32>) returns (sent: seq<Chunk>)
    requires tab.Length == 256 && win.Length == 256
    ensures var cs := Fine(piece.data, tab[..], win[..]);
            |sent| == |cs| && forall j :: 0 <= j < |cs| ==>
              sent[j] == Chunk(Seqno(piece.l1num, j), j == |cs| - 1, cs[j])
    ensures ChunksEnd(ChunkData(sent), tab[..], win[..]) && Flat(ChunkData(sent)) == piece.data
  {
    hide ChunksEnd;
    ghost var cs := Fine(piece.data, tab[..], win[..]);
    FineEnds(piece.data, tab[..], win[..]);
    FineKeepsTheData(piece.data, tab[..], win[..]);
    sent := [];
    var chunk := piece;
    var chcount := 0;
    var split := true;
    while split
      invariant chcount == |sent| && chunk.l1num == piece.l1num
      invariant |sent| <= |cs| && forall j :: 0 <= j < |sent| ==>
                  sent[j] == Chunk(Seqno(piece.l1num, j), j == |cs| - 1, cs[j])
      invariant split ==> |sent| < |cs| && cs[|sent|..] == Fine(chunk.data, tab[..], win[..])
      invariant !split ==> |sent| == |cs|
      decreases split, |chunk.data|
    {
      var offset := Rabin.RabinSeg(chunk.data, tab, win);
      FineHead(cs[|sent|..], chunk.data, tab[..], win[..]);
      if offset < |chunk.data| {
        var temp := Piece(chunk.l1num, chunk.data[offset..]);
        sent := sent + [Chunk(Seqno(chunk.l1num, chcount), false, chunk.data[..offset])];
        chunk := temp;
      } else {
        sent := sent + [Chunk(Seqno(chunk.l1num, chcount), true, chunk.data)];
        split := false;
      }
      chcount := chcount + 1;
    }
    assert ChunkData(sent) == cs;
  }

  lemma FineHead(cs: seq<Bytes>, p: Bytes, tab: seq<bv32>, win: seq<bv32>)
    requires Tables(tab, win) && cs == Fine(p, tab, win)
    ensures var k := Rabin.Segment(p, tab, win);
            if k < |p| then |cs| > 1 && cs[0] == p[..k] && cs[1..] == Fine(p[k..], tab, win) else cs == [p]
  {
  }

  // ---------- what the cuts mean ----------

  /** Both cuts keep every byte in its place. */
  lemma {:induction false} CoarseKeepsTheData(p: Bytes, tab: seq<bv32>, win: seq<bv32>)
    requires Tables(tab, win)
    ensures Flat(Coarse(p, tab, win)) == p
    decreases |p|
  {
    hide CoarseCut;
    if p != [] {
      var k := CoarseCut(p, tab, win);
      CoarseKeepsTheData(p[k..], tab, win);
      FlatFirst(p[..k], Coarse(p[k..], tab, win));
    }
  }

  lemma {:induction false} FineKeepsTheData(p: Bytes, tab: seq<bv32>, win: seq<bv32>)
    requires Tables(tab, win)
    ensures Flat(Fine(p, tab, win)) == p
    decreases |p|
  {
    hide Rabin.Segment;
    var k := Rabin.Segment(p, tab, win);
    if k < |p| {
      FineKeepsTheData(p[k..], tab, win);
      FlatFirst(p[..k], Fine(p[k..], tab, win));
    } else {
      assert [p][..0] == [];
    }
  }

  /** The chunks the rest of the pipeline is to put back in order. */
  function PlanOf(file: Bytes, tab: seq<bv32>, win: seq<bv32>): (plan: Reorder.Plan)
    requires |tab| == 256 && |win| == 256
  {
    Refined(Coarse(file, tab, win), tab, win)
  }

  function Refined(ps: seq<Bytes>, tab: seq<bv32>, win: seq<bv32>): (plan: Reorder.Plan)
    requires |tab| == 256 && |win| == 256
    ensures |plan| == |ps| && forall i :: 0 <= i < |ps| ==> plan[i] == Fine(ps[i], tab, win)
  {
    seq(|ps|, i requires 0 <= i < |ps| => Fine(ps[i], tab, win))
  }

  lemma {:induction false} RefinedKeepsTheData(ps: seq<Bytes>, tab: seq<bv32>, win: seq<bv32>)
    requires Tables(tab, win)
    ensures Reorder.Input(Refined(ps, tab, win)) == Flat(ps)
  {
    if ps != [] {
      var n := |ps| - 1;
      RefinedKeepsTheData(ps[..n], tab, win);
      FineKeepsTheData(ps[n], tab, win);
      assert Refined(ps, tab, win)[..n] == Refined(ps[..n], tab, win);
    }
  }

  /** Reading the chunks of a file in the order of their numbers gives the file back, each piece has
      exactly one chunk marked as its last, and no chunk is empty. */
  lemma CutsRestoreTheFile(file: Bytes, tab: seq<bv32>, win: seq<bv32>)
    requires Tables(tab, win)
    ensures var plan := PlanOf(file, tab, win);
            && Reorder.DataOf(Reorder.InOrder(plan)) == file
            && (forall s :: Reorder.InRange(plan, s) ==>
                  plan[s.l1][s.l2] != [] && (Reorder.ChunkAt(plan, s).isLast <==> s.l2 == |plan[s.l1]| - 1))
  {
    var plan := PlanOf(file, tab, win);
    RefinedKeepsTheData(Coarse(file, tab, win), tab, win);
    CoarseKeepsTheData(file, tab, win);
    Reorder.BeforeIsInput(plan, Reorder.End(plan));
    assert plan[..|plan|] == plan;
  }

  // ---------- files that are not cut ----------

  // Neither the scan of the whole data nor the one that starts after the jump finds an anchor.
  ghost predicate Quiet(p: Bytes, tab: seq<bv32>, win: seq<bv32>)
    requires Tables(tab, win)
  {
    Rabin.Quiet(p, tab, win) && (ANCHOR_JUMP <= |p| ==> Rabin.Quiet(p[ANCHOR_JUMP..], tab, win))
  }

  lemma {:induction false} QuietFile(n: nat, tab: seq<bv32>, win: seq<bv32>) returns (p: Bytes)
    requires Tables(tab, win)
    ensures |p| == n && Quiet(p, tab, win)
  {
    hide Rabin.Step, Rabin.IsAnchor, Rabin.Rolling, Rabin.Held;
    if n == 0 {
      p := [];
    } else {
      var q := QuietFile(n - 1, tab, win);
      var h := if Rabin.NWINDOW <= |q| + 1 then Rabin.Held(q, tab, win) else 0;
      var late := |q| - ANCHOR_JUMP;
      var g := if Rabin.NWINDOW <= late + 1 then Rabin.Held(q[ANCHOR_JUMP..], tab, win) else 0;
      var b := Rabin.ByteWithoutAnchor(h, g, tab);
      p := q + [b];
      Rabin.QuietMore(q, b, tab, win);
      if late >= 0 {
        Rabin.QuietMore(q[ANCHOR_JUMP..], b, tab, win);
        assert p[ANCHOR_JUMP..] == q[ANCHOR_JUMP..] + [b];
      } else if late == -1 {
        assert p[ANCHOR_JUMP..] == [];
      }
    }
  }

  /** Pieces have no largest size: whatever the tables, there are files of every size that are one
      piece and one chunk. */
  lemma FileWithoutAnchors(n: nat, tab: seq<bv32>, win: seq<bv32>) returns (p: Bytes)
    requires Tables(tab, win) && n > 0
    ensures |p| == n && PlanOf(p, tab, win) == [[p]]
  {
    hide Rabin.Segment, Rabin.Quiet;
    p := QuietFile(n, tab, win);
    Rabin.QuietIsUncut(p, tab, win);
    if ANCHOR_JUMP < n {
      Rabin.QuietIsUncut(p[ANCHOR_JUMP..], tab, win);
    }
    assert CoarseCut(p, tab, win) == n && p[..n] == p && p[n..] == [];
    CoarseOfNothing(tab, win);
    assert Coarse(p, tab, win) == [p] && Fine(p, tab, win) == [p];
  }

  // ---------- both together ----------

  /** Cutting a file with any read buffer and refining its pieces, one after another. */
  method CutFile(file: Bytes, maxbuf: nat, tab: array<bv32>, win: array<bv32>) returns (chunks: seq<Chunk>)
    requires maxbuf > 0 && tab.Length == 256 && win.Length == 256
    ensures chunks == Reorder.InOrder(PlanOf(file, tab[..], win[..]))
    ensures Reorder.DataOf(chunks) == file
  {
    hide Fine, Coarse, Reorder.DataOf;
    var pieces := Fragment(file, maxbuf, tab, win);
    ghost var plan: Reorder.Plan := PlanOf(file, tab[..], win[..]);
    chunks := [];
    for i := 0 to |pieces|
      invariant |pieces| == |plan| && chunks == Reorder.Before(plan, Seqno(i, 0))
    {
      var part := Refine(pieces[i], tab, win);
      assert pieces[i].data == DataOf(pieces)[i];
      BeforePiece(plan, i, part);
      chunks := chunks + part;
    }
    CutsRestoreTheFile(file, tab[..], win[..]);
  }

  lemma {:induction false} BeforePart(plan: Reorder.Plan, l1: nat, part: seq<Chunk>, k: nat)
    requires l1 < |plan| && |part| == |plan[l1]| && k <= |part|
    requires forall j :: 0 <= j < |part| ==> part[j] == Reorder.ChunkAt(plan, Seqno(l1, j))
    ensures Reorder.Before(plan, Seqno(l1, k)) == Reorder.Before(plan, Seqno(l1, 0)) + part[..k]
  {
    if k > 0 {
      BeforePart(plan, l1, part, k - 1);
      assert part[..k] == part[..k - 1] + [part[k - 1]];
    }
  }

  lemma BeforePiece(plan: Reorder.Plan, l1: nat, part: seq<Chunk>)
    requires l1 < |plan| && |part| == |plan[l1]|
    requires forall j :: 0 <= j < |part| ==> part[j] == Reorder.ChunkAt(plan, Seqno(l1, j))
    ensures Reorder.Before(plan, Seqno(l1 + 1, 0)) == Reorder.Before(plan, Seqno(l1, 0)) + part
  {
    BeforePart(plan, l1, part, |part|);
    assert part[..|part|] == part;
  }
}
