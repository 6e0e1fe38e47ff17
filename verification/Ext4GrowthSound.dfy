/** A grown image keeps the accounting invariant exactly when its last group has room for its own metadata. */
module Ext4GrowthSound {
  import opened Bitmaps
  import opened Ext4Format
  import opened Ext4Layout
  import opened Ext4Growth

  /** The blocks the table grows into, from d blocks to d', are all free in the first group's bitmap. */
  ghost predicate FreeForTable(bs: seq<Block>, ds: Descriptors, d: nat, d': nat)
    requires Mapped(bs, ds) && |ds| >= 1
  {
    d' <= 1024 && forall j | 1 + d <= j < 1 + d' :: !BlockMap(bs, ds, 0)[j]
  }

  /** The descriptor blocks a growth to N needs lie before the first bitmap and are all free. */
  ghost predicate Claimable(bs: seq<Block>, ipg: nat, N: nat)
    requires SoundBlocks(bs, ipg) && |bs| <= N <= MAX_BLOCKS
  {
    var d, d', ds := DescriptorBlocks(Groups(|bs|)), DescriptorBlocks(Groups(N)), DescsOf(bs);
    d' < ds[0].blockBitmap && FreeForTable(bs, ds, d, d')
  }

  /** A disk of N blocks ends on a whole group or on one that holds its metadata. */
  predicate Fits(ipg: nat, N: nat) {
    N % 32768 == 0 || Meta(ipg) <= N % 32768
  }

  lemma TableBound(N: nat)
    requires 1 <= N <= MAX_BLOCKS
    ensures Groups(N) < 0x2_0000 && DescriptorBlocks(Groups(N)) <= 1024
  {
  }

  /** A used block past the table is past what the table grows into. */
  lemma NotClaimed(bs: seq<Block>, ds: Descriptors, d: nat, d': nat, i: nat)
    requires Mapped(bs, ds) && |ds| >= 1 && FreeForTable(bs, ds, d, d')
    requires d < i && InUse(bs, ds, i)
    ensures d' < i
  {
  }

  /** No metadata lies in the free blocks the table grows into. */
  lemma ClaimApart(bs: seq<Block>, ds: Descriptors, d: nat, d': nat, table: nat)
    requires Mapped(bs, ds) && |ds| >= 1 && FreeForTable(bs, ds, d, d') && table >= 1
    requires Apart(ds, |bs|, d) && TablesApart(ds, |bs|, d, table) && MetaInUse(bs, ds, d, table)
    ensures Apart(ds, |bs|, d') && TablesApart(ds, |bs|, d', table)
  {
    forall g | 0 <= g < |ds|
      ensures d' < ds[g].blockBitmap && d' < ds[g].inodeBitmap && d' < ds[g].inodeTable
    {
      NotClaimed(bs, ds, d, d', ds[g].blockBitmap);
      NotClaimed(bs, ds, d, d', ds[g].inodeBitmap);
      assert InUse(bs, ds, ds[g].inodeTable);
      NotClaimed(bs, ds, d, d', ds[g].inodeTable);
    }
  }

  /** Every new group has its bitmaps and its table on a disk of n blocks. */
  predicate NewGroupsFit(first: nat, groups: nat, ipg: nat, n: nat) {
    forall g | first <= g < groups :: g * 32768 + Meta(ipg) <= n
  }

  /** At least the bitmaps of the last group do, which the size check sees to. */
  predicate BitmapsFit(first: nat, groups: nat, n: nat) {
    first < groups ==> (groups - 1) * 32768 + 1 < n
  }

  lemma MetaFits(first: nat, groups: nat, ipg: nat, n: nat)
    requires NewGroupsFit(first, groups, ipg, n)
    ensures BitmapsFit(first, groups, n)
  {
    if first < groups {
      var g := groups - 1;
      assert first <= g < groups;
    }
  }

  /** Group g of the grown image: its descriptor and the bitmaps it points at. */
  lemma GrownGroup(bs: seq<Block>, ds: Descriptors, d: nat, ipg: nat, d': nat, maps: seq<Bits>, r: seq<Block>, g: nat)
    requires TableAt(bs, d) && |ds| <= |maps| <= 0x2_0000 && |ds| <= 128 * d && ipg <= 32768
    requires Grows(bs, ds, d, ipg, d', maps, r) && g < |maps|
    requires Apart(ds, |bs|, d') && Mapped(bs, ds) && d' < |bs| <= |ds| * 32768
    requires BitmapsFit(|ds|, |maps|, |r|)
    ensures HasDesc(r, g)
    ensures var e := ReadDesc(r, g);
            && e == (if g < |ds| then ds[g].(freeBlocks := Clear(maps[g])) else StartDesc(g, ipg, Clear(maps[g])))
            && e.blockBitmap < |r| && r[e.blockBitmap] == Raw(maps[g])
            && e.inodeBitmap < |r|
            && r[e.inodeBitmap] == if g < |ds| then bs[ds[g].inodeBitmap] else Raw(StartInodeMap(ipg))
  {
    hide Clear, StartInodeMap;
    GrowsPointer(bs, ds, d, ipg, d', maps, r, g);
    assert ReadDesc(r, g) == SlotOf(bs, ds, d, ipg, maps, g);
    if g < |ds| {
      assert forall h | 0 <= h < |ds| :: ds[h].blockBitmap != ds[g].inodeBitmap;
    } else {
      var i := g * 32768 + 1;
      assert i / 32768 == g && i % 32768 == 1;
      assert r[i] == TailBlock(ipg, |ds|, maps, i);
    }
  }

  /** The bitmaps of the grown image are where its descriptors say. */
  lemma GrownDescs(bs: seq<Block>, ds: Descriptors, d: nat, ipg: nat, d': nat, maps: seq<Bits>, r: seq<Block>,
                   ds': Descriptors)
    requires TableAt(bs, d) && |ds| <= |maps| <= 0x2_0000 && |ds| <= 128 * d && ipg <= 32768
    requires Grows(bs, ds, d, ipg, d', maps, r) && ds' == Descs(r, |maps|, d')
    requires Apart(ds, |bs|, d') && Mapped(bs, ds) && d' < |bs| <= |ds| * 32768
    requires BitmapsFit(|ds|, |maps|, |r|)
    ensures forall g | 0 <= g < |ds| :: ds'[g] == ds[g].(freeBlocks := Clear(maps[g]))
    ensures forall g | |ds| <= g < |ds'| :: ds'[g] == StartDesc(g, ipg, Clear(maps[g]))
    ensures Mapped(r, ds') && Maps(r, ds') == maps
    ensures forall g | 0 <= g < |ds'| :: BlockMap(r, ds', g) == maps[g]
    ensures forall g | 0 <= g < |ds| :: InodeMap(r, ds', g) == InodeMap(bs, ds, g)
    ensures forall g | |ds| <= g < |ds'| :: InodeMap(r, ds', g) == StartInodeMap(ipg)
  {
    forall g | 0 <= g < |maps|
      ensures ds'[g] == if g < |ds| then ds[g].(freeBlocks := Clear(maps[g])) else StartDesc(g, ipg, Clear(maps[g]))
      ensures ds'[g].blockBitmap < |r| && r[ds'[g].blockBitmap] == Raw(maps[g])
      ensures ds'[g].inodeBitmap < |r|
              && r[ds'[g].inodeBitmap] == if g < |ds| then bs[ds[g].inodeBitmap] else Raw(StartInodeMap(ipg))
    {
      GrownGroup(bs, ds, d, ipg, d', maps, r, g);
    }
  }

  /** The pointers of a grown descriptor list: the old groups' as they were, the new ones' at the head of their group.
      */
  ghost predicate GrownPointers(ds: Descriptors, ds': Descriptors, ipg: nat) {
    && |ds| <= |ds'|
    && (forall g | 0 <= g < |ds| ::
          ds'[g].blockBitmap == ds[g].blockBitmap && ds'[g].inodeBitmap == ds[g].inodeBitmap
          && ds'[g].inodeTable == ds[g].inodeTable)
    && (forall g | |ds| <= g < |ds'| ::
          ds'[g].blockBitmap == g * 32768 && ds'[g].inodeBitmap == g * 32768 + 1 && ds'[g].inodeTable == g * 32768 + 2)
  }

  /** The new groups' metadata lies past the old end, so nothing overlaps. */
  lemma GrownApart(ds: Descriptors, ds': Descriptors, n: nat, ipg: nat, d': nat, N: nat)
    requires Apart(ds, n, d') && d' < n <= |ds| * 32768 && n <= N
    requires GrownPointers(ds, ds', ipg) && BitmapsFit(|ds|, |ds'|, N)
    ensures Apart(ds', N, d')
  {
    assert forall g | |ds| <= g < |ds'| :: n <= ds'[g].blockBitmap;
  }

  lemma GrownTablesApart(ds: Descriptors, ds': Descriptors, n: nat, ipg: nat, d': nat, N: nat)
    requires Apart(ds, n, d') && TablesApart(ds, n, d', TableBlocks(ipg)) && d' < n <= |ds| * 32768 && n <= N
    requires GrownPointers(ds, ds', ipg) && NewGroupsFit(|ds|, |ds'|, ipg, N) && ipg <= 32768
    ensures TablesApart(ds', N, d', TableBlocks(ipg))
  {
    var table := TableBlocks(ipg);
    forall g, h | 0 <= g < |ds'| && 0 <= h < |ds'|
      ensures !(ds'[h].inodeTable <= ds'[g].blockBitmap < ds'[h].inodeTable + table)
      ensures !(ds'[h].inodeTable <= ds'[g].inodeBitmap < ds'[h].inodeTable + table)
      ensures g != h ==>
                ds'[g].inodeTable + table <= ds'[h].inodeTable || ds'[h].inodeTable + table <= ds'[g].inodeTable
    {
      assert g >= |ds| ==> n <= g * 32768;
      assert h >= |ds| ==> n <= h * 32768;
    }
  }

  /** A block used before is used after. */
  lemma StillInUse(bs: seq<Block>, ds: Descriptors, r: seq<Block>, ds': Descriptors, n: nat, N: nat, i: nat)
    requires Mapped(bs, ds) && Mapped(r, ds') && 1 <= n <= N && |ds| <= |ds'|
    requires forall g | 0 <= g < |ds| :: BlockMap(r, ds', g) == GrownMap(BlockMap(bs, ds, g), g, n, N)
    requires i < n && InUse(bs, ds, i)
    ensures InUse(r, ds', i)
  {
    assert i == i / 32768 * 32768 + i % 32768;
  }

  /** A new group's metadata is used. */
  lemma FreshInUse(r: seq<Block>, ds': Descriptors, N: nat, meta: nat, g: nat, j: nat)
    requires Mapped(r, ds') && g < |ds'| && BlockMap(r, ds', g) == FreshMap(g, N, meta)
    requires j < meta <= 32768
    ensures InUse(r, ds', g * 32768 + j)
  {
    assert (g * 32768 + j) / 32768 == g && (g * 32768 + j) % 32768 == j;
  }

  /** Each group's bitmap is what growing it makes. */
  ghost predicate GrownBitmaps(bs: seq<Block>, ds: Descriptors, r: seq<Block>, ds': Descriptors, ipg: nat, N: nat)
    requires Mapped(bs, ds) && Mapped(r, ds') && 1 <= |bs| <= N
  {
    && |ds| <= |ds'|
    && (forall g | 0 <= g < |ds| :: BlockMap(r, ds', g) == GrownMap(BlockMap(bs, ds, g), g, |bs|, N))
    && (forall g | |ds| <= g < |ds'| :: BlockMap(r, ds', g) == FreshMap(g, N, Meta(ipg)))
  }

  lemma GrownTableInUse(bs: seq<Block>, ds: Descriptors, ipg: nat, N: nat, r: seq<Block>, ds': Descriptors, i: nat)
    requires Mapped(bs, ds) && Mapped(r, ds') && 1 <= |bs| <= N && |ds| >= 1 && GrownBitmaps(bs, ds, r, ds', ipg, N)
    requires i <= DescriptorBlocks(Groups(N)) <= 1024 && DescriptorBlocks(Groups(N)) < |bs|
    requires i <= DescriptorBlocks(Groups(|bs|)) ==> InUse(bs, ds, i)
    ensures InUse(r, ds', i)
  {
    assert i / 32768 == 0 && i % 32768 == i;
  }

  lemma GrownBitmapsInUse(bs: seq<Block>, ds: Descriptors, d: nat, ipg: nat, N: nat, r: seq<Block>, ds': Descriptors,
                          g: nat)
    requires Mapped(bs, ds) && Mapped(r, ds') && 1 <= |bs| <= N && ipg <= 32768
    requires MetaInUse(bs, ds, d, TableBlocks(ipg))
    requires GrownBitmaps(bs, ds, r, ds', ipg, N) && GrownPointers(ds, ds', ipg) && g < |ds'|
    ensures InUse(r, ds', ds'[g].blockBitmap) && InUse(r, ds', ds'[g].inodeBitmap)
  {
    if g < |ds| {
      StillInUse(bs, ds, r, ds', |bs|, N, ds[g].blockBitmap);
      StillInUse(bs, ds, r, ds', |bs|, N, ds[g].inodeBitmap);
    } else {
      FreshInUse(r, ds', N, Meta(ipg), g, 0);
      FreshInUse(r, ds', N, Meta(ipg), g, 1);
    }
  }

  lemma GrownInodeTableInUse(bs: seq<Block>, ds: Descriptors, d: nat, ipg: nat, N: nat, r: seq<Block>,
                             ds': Descriptors, g: nat, i: nat)
    requires Mapped(bs, ds) && Mapped(r, ds') && 1 <= |bs| <= N && ipg <= 32768
    requires MetaInUse(bs, ds, d, TableBlocks(ipg)) && TablesApart(ds, |bs|, d, TableBlocks(ipg))
    requires GrownBitmaps(bs, ds, r, ds', ipg, N) && GrownPointers(ds, ds', ipg)
    requires g < |ds'| && ds'[g].inodeTable <= i < ds'[g].inodeTable + TableBlocks(ipg)
    ensures InUse(r, ds', i)
  {
    if g < |ds| {
      assert InUse(bs, ds, i);
      StillInUse(bs, ds, r, ds', |bs|, N, i);
    } else {
      FreshInUse(r, ds', N, Meta(ipg), g, i - g * 32768);
    }
  }

  lemma GrownInUse(bs: seq<Block>, ds: Descriptors, d: nat, ipg: nat, d': nat, N: nat, r: seq<Block>, ds': Descriptors)
    requires 1 <= |bs| <= N && |ds| >= 1 && d == DescriptorBlocks(Groups(|bs|))
             && d' == DescriptorBlocks(Groups(N)) <= 1024 && d' < |bs|
    requires Mapped(bs, ds) && Mapped(r, ds') && MetaInUse(bs, ds, d, TableBlocks(ipg)) && ipg <= 32768
    requires TablesApart(ds, |bs|, d, TableBlocks(ipg))
    requires GrownBitmaps(bs, ds, r, ds', ipg, N) && GrownPointers(ds, ds', ipg)
    ensures MetaInUse(r, ds', d', TableBlocks(ipg))
  {
    forall i | 0 <= i <= d'
      ensures InUse(r, ds', i)
    {
      GrownTableInUse(bs, ds, ipg, N, r, ds', i);
    }
    forall g | 0 <= g < |ds'|
      ensures InUse(r, ds', ds'[g].blockBitmap) && InUse(r, ds', ds'[g].inodeBitmap)
    {
      GrownBitmapsInUse(bs, ds, d, ipg, N, r, ds', g);
    }
    forall g, i | 0 <= g < |ds'| && ds'[g].inodeTable <= i < ds'[g].inodeTable + TableBlocks(ipg)
      ensures InUse(r, ds', i)
    {
      GrownInodeTableInUse(bs, ds, d, ipg, N, r, ds', g, i);
    }
  }

  lemma FitsEveryGroup(n: nat, N: nat, ipg: nat)
    requires 1 <= n <= N && ipg <= 32768
    requires Fits(ipg, N) || Groups(N) == Groups(n)
    ensures NewGroupsFit(Groups(n), Groups(N), ipg, N)
  {
    forall g | Groups(n) <= g < Groups(N)
      ensures g * 32768 + Meta(ipg) <= N
    {
      if g == Groups(N) - 1 {
        assert N == g * 32768 + if N % 32768 == 0 then 32768 else N % 32768;
      }
    }
  }

  lemma GrownTails(bs: seq<Block>, ds: Descriptors, ipg: nat, N: nat, r: seq<Block>, ds': Descriptors)
    requires Mapped(bs, ds) && Mapped(r, ds') && TailsSet(bs, ds, ipg) && 1 <= |bs| <= N == |r|
    requires GrownBitmaps(bs, ds, r, ds', ipg, N)
    requires forall g | 0 <= g < |ds| :: InodeMap(r, ds', g) == InodeMap(bs, ds, g)
    requires forall g | |ds| <= g < |ds'| :: InodeMap(r, ds', g) == StartInodeMap(ipg)
    ensures TailsSet(r, ds', ipg)
  {
  }

  /** A new group's table is a hole of zeros, and no old table is touched. */
  lemma GrownTablesRaw(bs: seq<Block>, ds: Descriptors, d: nat, ipg: nat, d': nat, maps: seq<Bits>, r: seq<Block>,
                       ds': Descriptors)
    requires TableAt(bs, d) && |ds| <= |maps| <= 0x2_0000 && |ds| <= 128 * d && ipg <= 32768
    requires Grows(bs, ds, d, ipg, d', maps, r) && |ds'| == |maps|
    requires TablesRaw(bs, ds, TableBlocks(ipg)) && TablesApart(ds, |bs|, d', TableBlocks(ipg)) && |bs| <= |ds| * 32768
    requires NewGroupsFit(|ds|, |maps|, ipg, |r|) && GrownPointers(ds, ds', ipg)
    ensures TablesRaw(r, ds', TableBlocks(ipg))
  {
    forall g, i | 0 <= g < |ds'| && ds'[g].inodeTable <= i < ds'[g].inodeTable + TableBlocks(ipg)
      ensures i < |r| && r[i].Raw?
    {
      if g < |ds| {
        assert i < |bs| && bs[i].Raw?;
        assert forall h | 0 <= h < |ds| :: ds[h].blockBitmap != i;
      } else {
        assert r[i] == TailBlock(ipg, |ds|, maps, i);
      }
    }
  }

  /** Grown blocks keep the invariant, in terms of the descriptor lists before and after. */
  lemma GrownSoundWith(bs: seq<Block>, ds: Descriptors, d: nat, ipg: nat, N: nat, d': nat, maps: seq<Bits>,
                       r: seq<Block>, ds': Descriptors)
    requires TableAt(bs, d) && |ds| <= |maps| <= 0x2_0000 && |ds| <= 128 * d && 16 <= ipg <= 32768
             && SoundWith(bs, ds, d, ipg)
    requires 1 <= |bs| <= N == |r| && |ds| == Groups(|bs|) && |maps| == Groups(N)
    requires d == DescriptorBlocks(Groups(|bs|)) && d' == DescriptorBlocks(Groups(N)) <= 1024 && d' < |bs|
    requires FreeForTable(bs, ds, d, d') && NewGroupsFit(|ds|, |maps|, ipg, N)
    requires Grows(bs, ds, d, ipg, d', maps, r) && ds' == Descs(r, |maps|, d')
    requires forall g | 0 <= g < |ds| :: maps[g] == GrownMap(BlockMap(bs, ds, g), g, |bs|, N)
    requires forall g | |ds| <= g < |maps| :: maps[g] == FreshMap(g, N, Meta(ipg))
    ensures SoundWith(r, ds', d', ipg)
  {
    ClaimApart(bs, ds, d, d', TableBlocks(ipg));
    MetaFits(|ds|, |maps|, ipg, N);
    GrownDescs(bs, ds, d, ipg, d', maps, r, ds');
    GrownApart(ds, ds', |bs|, ipg, d', N);
    GrownTablesApart(ds, ds', |bs|, ipg, d', N);
    GrownInUse(bs, ds, d, ipg, d', N, r, ds');
    GrownTails(bs, ds, ipg, N, r, ds');
    GrownTablesRaw(bs, ds, d, ipg, d', maps, r, ds');
    StartInodeMapClear(ipg);
  }

  /** Grown blocks keep the invariant. */
  lemma GrownSound(bs: seq<Block>, ipg: nat, N: nat, r: seq<Block>)
    requires SoundBlocks(bs, ipg) && |bs| <= N <= MAX_BLOCKS && Claimable(bs, ipg, N) && GrownTo(bs, ipg, N, r)
    requires Fits(ipg, N) || Groups(N) == Groups(|bs|)
    ensures SoundBlocks(r, ipg)
  {
    TableBound(N);
    FitsEveryGroup(|bs|, N, ipg);
    var ds, d, d', maps := DescsOf(bs), DescriptorBlocks(Groups(|bs|)), DescriptorBlocks(Groups(N)),
                           GrownMaps(bs, ipg, N);
    assert ds[0].blockBitmap < |bs|;
    GrownSoundWith(bs, ds, d, ipg, N, d', maps, r, DescsOf(r));
  }
}
