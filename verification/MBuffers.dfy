/** Memory buffers: handles on parts of shared regions, with a reference count per region. */
module MBuffers {

  /** The control block of a region: how many handles there are, and what to release. */
  class ControlBlock {
    var i: nat
    var region: array?<bv8>

    constructor (region: array<bv8>)
      ensures i == 1 && this.region == region
    {
      i := 1;
      this.region := region;
    }
  }

  /** A handle: a part of a region. The pointer is the region and an offset into it. */
  class MBuffer {
    var region: array?<bv8>
    var offset: nat
    var n: nat
    var mcb: ControlBlock?

    constructor ()
    {
      region, offset, n, mcb := null, 0, 0, null;
    }

    method Fill(ptr: array<bv8>, mcb: ControlBlock)
      modifies this
      ensures region == ptr && offset == 0 && n == ptr.Length && this.mcb == mcb
    {
      region, offset, n, this.mcb := ptr, 0, ptr.Length, mcb;
    }

    method Share(temp: MBuffer)
      requires mcb != null && temp != this
      modifies temp, mcb`i
      ensures mcb.i == old(mcb.i) + 1
      ensures temp.region == region && temp.offset == offset && temp.n == n && temp.mcb == mcb
    {
      mcb.i := mcb.i + 1;
      temp.region, temp.offset, temp.n, temp.mcb := region, offset, n, mcb;
    }

    method GiveRest(m2: MBuffer, split: nat)
      requires mcb != null && m2 != this && split <= n
      modifies this`n, m2, mcb`i
      ensures mcb.i == old(mcb.i) + 1 && n == split
      ensures m2.region == region && m2.offset == offset + split && m2.n == old(n) - split && m2.mcb == mcb
    {
      mcb.i := mcb.i + 1;
      m2.region, m2.offset, m2.n, m2.mcb := region, offset + split, n - split, mcb;
      n := split;
    }

    method Drop() returns (ref: nat)
      requires mcb != null && mcb.i > 0
      modifies this`mcb, mcb
      ensures ref == old(mcb.i) - 1 == old(mcb).i
      ensures if ref == 0 then mcb == null && old(mcb).region == null
              else mcb == old(mcb) && mcb.region == old(mcb.region)
    {
      mcb.i := mcb.i - 1;
      ref := mcb.i;
      if ref == 0 {
        mcb.region := null;
        mcb := null;
      }
    }

    method Move(r: array<bv8>)
      requires mcb != null
      modifies this`region, this`n, mcb`region
      ensures region == r && n == r.Length && mcb.region == r
    {
      mcb.region := r;
      region, n := r, r.Length;
    }
  }

  // ---------- handles and their parts ----------

  /** What a live handle stands for. Handles that come from one another by splitting alone are of one
      line; a clone starts a new one. */
  datatype Part = Part(block: ControlBlock, line: nat, from: nat, end: nat)

  ghost function Holders(parts: map<MBuffer, Part>, m: ControlBlock): (hs: set<MBuffer>) {
    set h | h in parts && parts[h].block == m
  }

  ghost function Refs(parts: map<MBuffer, Part>, m: ControlBlock): (n: nat) {
    |Holders(parts, m)|
  }

  // Two handles of one line never share a byte.
  ghost predicate Apart(parts: map<MBuffer, Part>) {
    forall g, h ::
      g in parts && h in parts && g != h && parts[g].block == parts[h].block && parts[g].line == parts[h].line ==>
      parts[g].end <= parts[h].from || parts[h].end <= parts[g].from
  }

  ghost predicate LinesBelow(parts: map<MBuffer, Part>, lines: nat) {
    forall h :: h in parts ==> parts[h].line < lines
  }

  lemma OneMore(parts: map<MBuffer, Part>, h: MBuffer, p: Part)
    requires h !in parts
    ensures forall m :: Refs(parts[h := p], m) == Refs(parts, m) + if m == p.block then 1 else 0
    ensures Apart(parts) && LinesBelow(parts, p.line) ==> Apart(parts[h := p]) && LinesBelow(parts[h := p], p.line + 1)
  {
    forall m ensures Refs(parts[h := p], m) == Refs(parts, m) + if m == p.block then 1 else 0 {
      var hs := if m == p.block then Holders(parts, m) + {h} else Holders(parts, m);
      assert forall g :: g in Holders(parts[h := p], m) <==> g in hs;
      assert Holders(parts[h := p], m) == hs;
    }
  }

  lemma DividedApart(parts: map<MBuffer, Part>, g: MBuffer, h: MBuffer, at: nat)
    requires g in parts && h !in parts && Apart(parts) && parts[g].from <= at <= parts[g].end
    ensures var r := DividedAt(parts, g, h, at);
            Apart(r) && forall lines :: LinesBelow(parts, lines) ==> LinesBelow(r, lines)
  {
    var r := DividedAt(parts, g, h, at);
    forall a, b | a in r && b in r && a != b && r[a].block == r[b].block && r[a].line == r[b].line
      ensures r[a].end <= r[b].from || r[b].end <= r[a].from
    {
      var a': MBuffer, b': MBuffer := if a == h then g else a, if b == h then g else b;
      assert a' in parts && b' in parts;
      assert a' != b' ==> parts[a'].end <= parts[b'].from || parts[b'].end <= parts[a'].from;
    }
  }

  /** Splitting one part in two keeps handles of a line apart, and adds one handle to its region. */
  lemma Divided(parts: map<MBuffer, Part>, g: MBuffer, h: MBuffer, at: nat)
    requires g in parts && h !in parts && Apart(parts) && parts[g].from <= at <= parts[g].end
    ensures var r := DividedAt(parts, g, h, at);
            && Apart(r) && (forall lines :: LinesBelow(parts, lines) ==> LinesBelow(r, lines))
            && forall m :: Refs(r, m) == Refs(parts, m) + if m == parts[g].block then 1 else 0
  {
    hide Apart, LinesBelow;
    DividedApart(parts, g, h, at);
    var s := EndingAt(parts, g, at);
    forall m ensures Refs(s, m) == Refs(parts, m) {
      assert Holders(s, m) == Holders(parts, m);
    }
    OneMore(s, h, parts[g].(from := at));
  }

  lemma OneLess(parts: map<MBuffer, Part>, h: MBuffer)
    requires h in parts
    ensures forall m :: Refs(parts - {h}, m) == Refs(parts, m) - if m == parts[h].block then 1 else 0
    ensures Apart(parts) ==> Apart(parts - {h})
    ensures forall lines :: LinesBelow(parts, lines) ==> LinesBelow(parts - {h}, lines)
  {
    forall m ensures Refs(parts - {h}, m) == Refs(parts, m) - if m == parts[h].block then 1 else 0 {
      assert Holders(parts - {h}, m) == if m == parts[h].block then Holders(parts, m) - {h} else Holders(parts, m);
    }
  }

  ghost function DividedAt(parts: map<MBuffer, Part>, g: MBuffer, h: MBuffer, at: nat): (r: map<MBuffer, Part>)
    requires g in parts
  {
    parts[g := parts[g].(end := at)][h := parts[g].(from := at)]
  }

  ghost function EndingAt(parts: map<MBuffer, Part>, h: MBuffer, end: nat): (r: map<MBuffer, Part>)
    requires h in parts
  {
    parts[h := parts[h].(end := end)]
  }

  // The count is zero when nobody holds the region, and one when a single handle does.
  lemma FewRefs(parts: map<MBuffer, Part>, m: ControlBlock)
    ensures Refs(parts, m) == 0 <==> forall h :: h in parts ==> parts[h].block != m
    ensures Refs(parts, m) == 1 ==>
              forall g, h :: g in parts && h in parts && parts[g].block == m == parts[h].block ==> g == h
  {
    if h :| h in parts && parts[h].block == m {
      assert h in Holders(parts, m);
      if Refs(parts, m) == 1 {
        forall g | g in parts && parts[g].block == m ensures g == h {
          assert Holders(parts, m) == {g, h} + (Holders(parts, m) - {g, h});
        }
      }
    } else {
      assert Holders(parts, m) == {};
    }
  }

  lemma LoneResized(parts: map<MBuffer, Part>, h: MBuffer, size: nat)
    requires h in parts && Refs(parts, parts[h].block) == 1 && Apart(parts)
    ensures var r := EndingAt(parts, h, size);
            && Apart(r) && (forall m :: Refs(r, m) == Refs(parts, m))
            && (forall lines :: LinesBelow(parts, lines) ==> LinesBelow(r, lines))
  {
    var r := EndingAt(parts, h, size);
    FewRefs(parts, parts[h].block);
    forall m ensures Refs(r, m) == Refs(parts, m) {
      assert Holders(r, m) == Holders(parts, m);
    }
  }

  // ---------- the books ----------

  // Parts are not empty and lie inside their regions; a region not yet released has a handle; no
  // region has two control blocks; handles of one line are apart.
  ghost predicate BooksOk(parts: map<MBuffer, Part>, regions: map<ControlBlock, array<bv8>>,
                          released: set<array<bv8>>, lines: nat)
  {
    && (forall h :: h in parts ==> PartOk(parts[h], regions))
    && (forall m :: m in regions ==> Refs(parts, m) > 0 && regions[m] !in released)
    && (forall l, m :: l in regions && m in regions && l != m ==> regions[l] != regions[m])
    && Apart(parts) && LinesBelow(parts, lines)
  }

  ghost predicate PartOk(p: Part, regions: map<ControlBlock, array<bv8>>) {
    p.block in regions && p.from < p.end <= regions[p.block].Length
  }

  lemma RegisteredBooks(parts: map<MBuffer, Part>, regions: map<ControlBlock, array<bv8>>, released: set<array<bv8>>,
                        lines: nat, h: MBuffer, m: ControlBlock, ptr: array<bv8>)
    requires BooksOk(parts, regions, released, lines) && h !in parts && m !in regions && ptr.Length > 0
    requires ptr !in released && forall b :: b in regions ==> regions[b] != ptr
    ensures var r := parts[h := Part(m, lines, 0, ptr.Length)];
            && BooksOk(r, regions[m := ptr], released, lines + 1)
            && (forall b :: Refs(r, b) == Refs(parts, b) + if b == m then 1 else 0) && Refs(parts, m) == 0
  {
    hide Refs, Apart, LinesBelow;
    OneMore(parts, h, Part(m, lines, 0, ptr.Length));
    FewRefs(parts, m);
  }

  lemma ClonedBooks(parts: map<MBuffer, Part>, regions: map<ControlBlock, array<bv8>>, released: set<array<bv8>>,
                    lines: nat, g: MBuffer, h: MBuffer)
    requires BooksOk(parts, regions, released, lines) && g in parts && h !in parts
    ensures var r := parts[h := parts[g].(line := lines)];
            && BooksOk(r, regions, released, lines + 1)
            && (forall b :: Refs(r, b) == Refs(parts, b) + if b == parts[g].block then 1 else 0)
  {
    hide Refs, Apart, LinesBelow;
    OneMore(parts, h, parts[g].(line := lines));
  }

  lemma SplitBooks(parts: map<MBuffer, Part>, regions: map<ControlBlock, array<bv8>>, released: set<array<bv8>>,
                   lines: nat, g: MBuffer, h: MBuffer, at: nat)
    requires BooksOk(parts, regions, released, lines) && g in parts && h !in parts
    requires parts[g].from < at < parts[g].end
    ensures var r := DividedAt(parts, g, h, at);
            && BooksOk(r, regions, released, lines)
            && (forall b :: Refs(r, b) == Refs(parts, b) + if b == parts[g].block then 1 else 0)
  {
    hide Refs, Apart, LinesBelow;
    Divided(parts, g, h, at);
  }

  lemma ResizedBooks(parts: map<MBuffer, Part>, regions: map<ControlBlock, array<bv8>>, released: set<array<bv8>>,
                     lines: nat, h: MBuffer, ptr: array<bv8>)
    requires BooksOk(parts, regions, released, lines) && h in parts
    requires parts[h].from == 0 && Refs(parts, parts[h].block) == 1
    requires ptr.Length > 0 && ptr !in released && forall b :: b in regions ==> regions[b] != ptr
    ensures var block := parts[h].block;
            var r := EndingAt(parts, h, ptr.Length);
            && block in regions && BooksOk(r, regions[block := ptr], released + {regions[block]}, lines)
            && (forall b :: Refs(r, b) == Refs(parts, b))
            && forall g :: g in parts && g != h ==> parts[g].block != block
  {
    hide Refs, Apart, LinesBelow;
    FewRefs(parts, parts[h].block);
    LoneResized(parts, h, ptr.Length);
  }

  lemma FreedBooks(parts: map<MBuffer, Part>, regions: map<ControlBlock, array<bv8>>, released: set<array<bv8>>,
                   lines: nat, h: MBuffer)
    requires BooksOk(parts, regions, released, lines) && h in parts
    ensures var block := parts[h].block;
            && block in regions && Refs(parts, block) > 0
            && (forall b :: Refs(parts - {h}, b) == Refs(parts, b) - if b == block then 1 else 0)
            && (Refs(parts, block) > 1 ==> BooksOk(parts - {h}, regions, released, lines))
            && (Refs(parts, block) == 1 ==>
                  BooksOk(parts - {h}, regions - {block}, released + {regions[block]}, lines)
                  && forall g :: g in parts && g != h ==> parts[g].block != block)
  {
    hide Refs, Apart, LinesBelow;
    OneLess(parts, h);
    FewRefs(parts, parts[h].block);
  }

  // What realloc makes of a region: a new one that starts with as much of the old as fits.
  method Moved(region: array<bv8>, size: nat) returns (p: array<bv8>)
    ensures fresh(p) && p.Length == size
    ensures forall k :: 0 <= k < region.Length && k < size ==> p[k] == region[k]
  {
    p := new bv8[size];
    for k := 0 to if region.Length < size then region.Length else size
      invariant forall l :: 0 <= l < k ==> p[l] == region[l]
    {
      p[k] := region[k];
    }
  }

  // ---------- the system ----------

  // A handle shows its part, and a control block its count and region.
  ghost predicate HandleShows(h: MBuffer, p: Part, regions: map<ControlBlock, array<bv8>>)
    reads h
  {
    && p.block in regions && h.mcb == p.block && h.region == regions[p.block]
    && h.offset == p.from && h.offset + h.n == p.end
  }

  ghost predicate BlockShows(m: ControlBlock, refs: nat, region: array<bv8>)
    reads m
  {
    m.i == refs && m.region == region
  }

  class Pool {
    // The live handles, the regions not yet released, and those released.
    ghost var Parts: map<MBuffer, Part>
    ghost var Regions: map<ControlBlock, array<bv8>>
    ghost var Released: set<array<bv8>>
    ghost var Lines: nat

    ghost predicate Valid()
      reads this, Parts.Keys, Regions.Keys
    {
      && BooksOk(Parts, Regions, Released, Lines)
      && (forall h :: h in Parts ==> HandleShows(h, Parts[h], Regions))
      && (forall m :: m in Regions ==> BlockShows(m, Refs(Parts, m), Regions[m]))
    }

    constructor ()
      ensures Valid() && Parts == map[] && Released == {}
    {
      Parts, Regions, Released, Lines := map[], map[], {}, 0;
    }

    /** A new region with one handle on all of it. */
    method Create(m: MBuffer, size: nat)
      requires Valid() && m !in Parts && size > 0
      modifies this, m
      ensures Valid() && Released == old(Released)
      ensures m.mcb != null && fresh(m.mcb) && m.region != null && fresh(m.region) && m.mcb.i == 1
      ensures Parts == old(Parts)[m := Part(m.mcb, old(Lines), 0, size)] && Regions == old(Regions)[m.mcb := m.region]
    {
      var ptr := new bv8[size];
      var mcb := new ControlBlock(ptr);
      Register(m, mcb, ptr);
    }

    method Register(m: MBuffer, mcb: ControlBlock, ptr: array<bv8>)
      requires Valid() && m !in Parts && mcb !in Regions && mcb.i == 1 && mcb.region == ptr && ptr.Length > 0
      requires ptr !in Released && forall b :: b in Regions ==> Regions[b] != ptr
      modifies this, m
      ensures Valid() && Released == old(Released) && m.mcb == mcb && m.region == ptr
      ensures Parts == old(Parts)[m := Part(mcb, old(Lines), 0, ptr.Length)] && Regions == old(Regions)[mcb := ptr]
    {
      hide Refs, BooksOk;
      RegisteredBooks(Parts, Regions, Released, Lines, m, mcb, ptr);
      m.Fill(ptr, mcb);
      Parts, Regions, Lines := Parts[m := Part(mcb, Lines, 0, ptr.Length)], Regions[mcb := ptr], Lines + 1;
    }

    /** A second handle on the same part. */
    method Clone(m: MBuffer) returns (temp: MBuffer)
      requires Valid() && m in Parts
      modifies this, m.mcb
      ensures Valid() && Released == old(Released) && Regions == old(Regions)
      ensures fresh(temp) && Parts == old(Parts)[temp := old(Parts)[m].(line := old(Lines))]
    {
      hide Refs, BooksOk;
      temp := new MBuffer();
      ClonedBooks(Parts, Regions, Released, Lines, m, temp);
      m.Share(temp);
      Parts, Lines := Parts[temp := Parts[m].(line := Lines)], Lines + 1;
    }

    /** Divide the part of m1: m1 keeps the front, m2 gets the rest, and no byte is moved. */
    method Split(m1: MBuffer, m2: MBuffer, split: nat)
      requires Valid() && m1 in Parts && m2 !in Parts && 0 < split < m1.n
      modifies this, m1, m2, m1.mcb
      ensures Valid() && Released == old(Released) && Regions == old(Regions)
      ensures var p := old(Parts)[m1];
              Parts == old(Parts)[m1 := p.(end := p.from + split)][m2 := p.(from := p.from + split)]
    {
      hide Refs, BooksOk;
      ghost var at := Parts[m1].from + split;
      SplitBooks(Parts, Regions, Released, Lines, m1, m2, at);
      Parts := DividedAt(Parts, m1, m2, at);
      m1.GiveRest(m2, split);
    }

    /** Resize the region of a lone handle that starts where the region does; refused otherwise. */
    method Realloc(m: MBuffer, size: nat) returns (r: int)
      requires Valid() && m in Parts && size > 0
      modifies this, m, m.mcb
      ensures Valid()
      ensures r == 0 <==> old(Refs(Parts, Parts[m].block) == 1 && Parts[m].from == 0)
      ensures r != 0 ==> r == -1 && Parts == old(Parts) && Regions == old(Regions) && Released == old(Released)
      ensures r == 0 ==> var block, was := old(Parts)[m].block, old(Regions[Parts[m].block]);
                         && block in Regions && fresh(Regions[block])
                         && Regions == old(Regions)[block := Regions[block]]
                         && Released == old(Released) + {was} && Parts == old(Parts)[m := old(Parts)[m].(end := size)]
                         && forall k :: 0 <= k < was.Length && k < size ==> Regions[block][k] == old(was[k])
    {
      hide Refs, Apart, LinesBelow;
      if m.mcb.i > 1 {
        return -1;
      }
      if m.offset != 0 {
        return -1;
      }
      var region := Moved(m.region, size);
      Replace(m, region);
      return 0;
    }

    method Replace(m: MBuffer, region: array<bv8>)
      requires Valid() && m in Parts && Parts[m].from == 0 && Refs(Parts, Parts[m].block) == 1
      requires region.Length > 0 && region !in Released && forall b :: b in Regions ==> Regions[b] != region
      modifies this, m, m.mcb
      ensures Valid() && Parts == old(Parts)[m := old(Parts)[m].(end := region.Length)]
      ensures var block := old(Parts)[m].block;
              Regions == old(Regions)[block := region] && Released == old(Released) + {old(Regions)[block]}
    {
      hide Refs, BooksOk;
      ghost var block := Parts[m].block;
      ResizedBooks(Parts, Regions, Released, Lines, m, region);
      Parts := EndingAt(Parts, m, region.Length);
      Regions, Released := Regions[block := region], Released + {Regions[block]};
      m.Move(region);
    }

    /** Give a handle up. The region is released with the last one. */
    method Free(m: MBuffer)
      requires Valid() && m in Parts
      modifies this, m, m.mcb
      ensures Valid() && Parts == old(Parts) - {m}
      ensures var block := old(Parts)[m].block;
              if old(Refs(Parts, Parts[m].block)) == 1
              then Regions == old(Regions) - {block} && Released == old(Released) + {old(Regions)[block]}
              else Regions == old(Regions) && Released == old(Released)
    {
      hide Refs, BooksOk;
      ghost var block := Parts[m].block;
      ghost var parts := Parts - {m};
      FreedBooks(Parts, Regions, Released, Lines, m);
      Parts := parts;
      var ref := m.Drop();
      if ref == 0 {
        Released := Released + {Regions[block]};
        Regions := Regions - {block};
      }
    }
  }
}
