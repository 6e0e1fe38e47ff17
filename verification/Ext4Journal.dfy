/** Giving an image the journal it lacks: where it goes, and that nothing else moves. */
module Ext4Journal {
  import opened Bitmaps
  import opened Ext4Format
  import opened Ext4Layout
  import opened Ext4Growth
  import opened Ext4JournalFile

  // Where the journal goes.

  /** The journal length for a disk of total blocks, so that one extent fits one group. */
  function JournalBlocks(total: nat): (n: nat)
    ensures 1024 <= n <= 16384
    ensures n == 1024 <==> total * 4096 < 0x800_0000
    ensures n == 4096 <==> 0x800_0000 <= total * 4096 < 0x4000_0000
    ensures n == 8192 <==> 0x4000_0000 <= total * 4096 < 0x8000_0000
    ensures n == 16384 <==> 0x8000_0000 <= total * 4096
  {
    if total < 32768 then 1024
    else if total < 256 * 1024 then 4096
    else if total < 512 * 1024 then 8192
    else 16384
  }

  /** Blocks [s, s + n) of a group are all free. */
  predicate RunAt(m: Bits, s: nat, n: nat) {
    s + n <= 32768 && forall i | s <= i < s + n :: !m[i]
  }

  predicate HasRun(m: Bits, n: nat) {
    exists s | 0 <= s <= 32768 :: RunAt(m, s, n)
  }

  /** Some group has n free blocks in a row. */
  ghost predicate HasPlace(maps: seq<Bits>, n: nat) {
    exists g | 0 <= g < |maps| :: HasRun(maps[g], n)
  }

  /** What a plain scan of every bitmap finds: the lowest group with a run, and the lowest run in it. */
  ghost predicate FirstFit(maps: seq<Bits>, n: nat, g: nat, s: nat) {
    && g < |maps| && RunAt(maps[g], s, n)
    && (forall h | 0 <= h < g :: !HasRun(maps[h], n))
    && (forall t | 0 <= t < s :: !RunAt(maps[g], t, n))
  }

  /** There is one first fit. */
  lemma FirstFitUnique(maps: seq<Bits>, n: nat, g: nat, s: nat, g': nat, s': nat)
    requires FirstFit(maps, n, g, s) && FirstFit(maps, n, g', s')
    ensures g == g' && s == s'
  {
    assert HasRun(maps[g], n) && HasRun(maps[g'], n);
  }

  datatype Run = Run(group: U32, start: U32) | NoRun

  /** The offset of the first run of n free blocks in a bitmap, by one pass with a running count. */
  method FreeRun(bitmap: Bits, n: nat) returns (start: nat, ok: bool)
    requires n >= 1
    ensures ok ==> RunAt(bitmap, start, n) && forall t | 0 <= t < start :: !RunAt(bitmap, t, n)
    ensures !ok ==> !HasRun(bitmap, n)
  {
    var run := 0;
    for j := 0 to 32768
      invariant run <= j && run < n
      invariant forall i | j - run <= i < j :: !bitmap[i]
      invariant run < j ==> bitmap[j - run - 1]
      invariant forall t | 0 <= t && t + n <= j :: !RunAt(bitmap, t, n)
    {
      if bitmap[j] {
        run := 0;
      } else {
        run := run + 1;
        if run == n {
          return j - n + 1, true;
        }
      }
    }
    return 0, false;
  }

  /** The first group and offset with n free blocks in a row; a group whose free count is under n is not even read. */
  method FindRun(f: File, groups: U32, n: nat, ghost d: nat) returns (r: Run)
    requires n >= 1 && TableAt(f.blocks, d) && groups <= 128 * d
    requires var ds := Descs(f.blocks, groups, d); Mapped(f.blocks, ds) && Counted(f.blocks, ds)
    ensures var maps := Maps(f.blocks, Descs(f.blocks, groups, d));
            match r
            case Run(g, s) => FirstFit(maps, n, g, s)
            case NoRun => !HasPlace(maps, n)
  {
    ghost var ds := Descs(f.blocks, groups, d);
    ghost var maps := Maps(f.blocks, ds);
    var g := 0;
    while g < groups
      invariant g <= groups
      invariant forall h | 0 <= h < g :: !HasRun(maps[h], n)
    {
      var gd := ReadDesc(f.blocks, g);
      assert gd == ds[g];
      if gd.freeBlocks < n {
        SkipSafe(maps[g], n);
      } else {
        var bitmap := f.blocks[gd.blockBitmap].bits;
        var start, ok := FreeRun(bitmap, n);
        if ok {
          return Run(g, start);
        }
      }
      g := g + 1;
    }
    return NoRun;
  }

  /** A group with fewer free blocks than the run is long has no run. */
  lemma {:induction false} SkipSafe(m: Bits, n: nat)
    requires Clear(m) < n
    ensures !HasRun(m, n)
  {
    forall s | 0 <= s <= 32768 && RunAt(m, s, n)
      ensures false
    {
      RunNeedsFree(m, s, s + n);
    }
  }

  // Laying it down.

  /** Mark blocks [start, start + n) of a group used, its descriptor's free count dropping to match. */
  method ClaimRun(f: File, group: U32, start: U32, n: U32, ghost e: GroupDescriptor, ghost m: Bits)
    requires HasDesc(f.blocks, group) && ReadDesc(f.blocks, group) == e && e.blockBitmap < |f.blocks|
             && e.blockBitmap != 1 + group / 128
    requires f.blocks[e.blockBitmap] == Raw(m) && e.freeBlocks == Clear(m) && RunAt(m, start, n) && n < 0x1_0000
    modifies f`blocks
    ensures f.blocks == EditMap(old(f.blocks), group, Fill(m, start, start + n, true))
  {
    var gd := ReadDesc(f.blocks, group);
    var bits := f.blocks[gd.blockBitmap].bits;
    var bitmap := new bool[32768](i requires 0 <= i < 32768 => bits[i]);
    FillNone(bits, start, true);
    var j := start;
    while j < start + n
      invariant start <= j <= start + n
      invariant bitmap[..] == Fill(bits, start, j, true)
      invariant f.blocks == old(f.blocks)
    {
      bitmap[j] := true;
      FillStep(bits, start, j, true);
      j := j + 1;
    }
    ClearClaim(m, start, start + n);
    ghost var bs, m' := f.blocks, Fill(m, start, start + n, true);
    f.blocks := f.blocks[gd.blockBitmap := Raw(bitmap[..])];
    assert f.blocks == bs[e.blockBitmap := Raw(m')];
    gd := gd.(freeBlocks := Sub16(gd.freeBlocks, n));
    assert gd == e.(freeBlocks := Clear(m'));
    f.blocks := WriteDesc(f.blocks, group, gd);
  }

  /** A free block is none of the image's metadata, and lies on the disk. */
  lemma FreeBlockApart(bs: seq<Block>, ds: Descriptors, d: nat, ipg: nat, g: nat, j: nat)
    requires SoundWith(bs, ds, d, ipg) && g < |ds| && j < 32768 && !BlockMap(bs, ds, g)[j]
    ensures var i := g * 32768 + j;
            && d < i < |bs|
            && (forall h | 0 <= h < |ds| ::
                  i != ds[h].blockBitmap && i != ds[h].inodeBitmap
                  && !(ds[h].inodeTable <= i < ds[h].inodeTable + TableBlocks(ipg)))
  {
    var i := g * 32768 + j;
    assert i / 32768 == g && i % 32768 == j;
    assert !InUse(bs, ds, i);
    forall h | 0 <= h < |ds|
      ensures i != ds[h].blockBitmap && i != ds[h].inodeBitmap
    {
      assert InUse(bs, ds, ds[h].blockBitmap) && InUse(bs, ds, ds[h].inodeBitmap);
    }
  }

  /** What placing a journal asks of an image, which is less than the whole invariant: every bitmap in a block of its
      own, counted, with the bitmaps, the descriptors and all past the end in use, and the first block of the first
      table. */
  ghost predicate Placeable(bs: seq<Block>, ds: Descriptors, d: nat) {
    && Apart(ds, |bs|, d) && Mapped(bs, ds) && Counted(bs, ds) && |ds| >= 1
    && (forall i {:trigger InUse(bs, ds, i)} | 0 <= i <= d :: InUse(bs, ds, i))
    && (forall g {:trigger InUse(bs, ds, ds[g].blockBitmap)} | 0 <= g < |ds| :: InUse(bs, ds, ds[g].blockBitmap))
    && (forall g {:trigger InUse(bs, ds, ds[g].inodeBitmap)} | 0 <= g < |ds| :: InUse(bs, ds, ds[g].inodeBitmap))
    && (forall g, j | 0 <= g < |ds| && 0 <= j < 32768 && g * 32768 + j >= |bs| :: BlockMap(bs, ds, g)[j])
    && FirstTableOk(bs, ds, d)
  }

  ghost predicate FirstTableOk(bs: seq<Block>, ds: Descriptors, d: nat)
    requires Mapped(bs, ds) && |ds| >= 1
  {
    var table := ds[0].inodeTable;
    && d < table < |bs| && bs[table].Raw? && InUse(bs, ds, table)
    && forall h | 0 <= h < |ds| :: ds[h].blockBitmap != table && ds[h].inodeBitmap != table
  }

  ghost predicate PlaceableBlocks(bs: seq<Block>) {
    && 1 <= |bs| <= MAX_BLOCKS && TableAt(bs, DescriptorBlocks(Groups(|bs|)))
    && Placeable(bs, DescsOf(bs), DescriptorBlocks(Groups(|bs|)))
  }

  lemma BitmapsElsewhere(bs: seq<Block>, ds: Descriptors, d: nat)
    requires Placeable(bs, ds, d)
    ensures Apart(ds, |bs|, d) && Mapped(bs, ds)
    ensures forall h | 0 <= h < |ds| ::
              ds[h].blockBitmap != ds[0].inodeTable && ds[h].inodeBitmap != ds[0].inodeTable
  {
    hide Apart, Counted, InUse;
  }

  lemma SoundIsPlaceable(bs: seq<Block>, ds: Descriptors, d: nat, ipg: nat)
    requires SoundWith(bs, ds, d, ipg) && ipg >= 16 && |ds| >= 1
    ensures Placeable(bs, ds, d)
  {
    var table := ds[0].inodeTable;
    assert bs[table].Raw? && InUse(bs, ds, table);
    assert forall h | 0 <= h < |ds| :: ds[h].blockBitmap != table && ds[h].inodeBitmap != table;
    hide Counted, InUse, Mapped;
  }

  lemma SoundBlocksPlaceable(bs: seq<Block>, ipg: nat)
    requires SoundBlocks(bs, ipg)
    ensures PlaceableBlocks(bs)
  {
    hide SoundWith, Placeable;
    SoundIsPlaceable(bs, DescsOf(bs), DescriptorBlocks(Groups(|bs|)), ipg);
  }

  /** A free block of such an image is on the disk, and is no bitmap, no descriptor block and not the first table's. */
  lemma FreeBlockPlaceable(bs: seq<Block>, ds: Descriptors, d: nat, g: nat, j: nat)
    requires Placeable(bs, ds, d) && g < |ds| && j < 32768 && !BlockMap(bs, ds, g)[j]
    ensures var i := g * 32768 + j;
            && d < i < |bs| && i != ds[0].inodeTable
            && (forall h | 0 <= h < |ds| :: i != ds[h].blockBitmap && i != ds[h].inodeBitmap)
  {
    var i := g * 32768 + j;
    assert i / 32768 == g && i % 32768 == j;
    assert !InUse(bs, ds, i);
    forall h | 0 <= h < |ds|
      ensures i != ds[h].blockBitmap && i != ds[h].inodeBitmap
    {
      assert InUse(bs, ds, ds[h].blockBitmap) && InUse(bs, ds, ds[h].inodeBitmap);
    }
  }

  /** r is bs with a journal of n blocks at offset s of group g: that run used, its first block the journal's
      superblock, inode 8 its extent, and not one other bit different. */
  ghost predicate Journaled(bs: seq<Block>, ds: Descriptors, d: nat, uuid: Uuid, g: nat, s: nat, n: nat, r: seq<Block>)
    requires TableAt(bs, d) && 1 <= |ds| <= 128 * d && Mapped(bs, ds)
  {
    && |r| == |bs| && TableAt(r, d)
    && g < |ds| && s + n <= 32768 && n <= 16384
    && var phys, table := g * 32768 + s, ds[0].inodeTable;
    && phys < 0x1_0000_0000 && table < |bs| && bs[table].Raw? && phys != table
    && var m' := Fill(BlockMap(bs, ds, g), s, s + n, true);
    && r[0] == bs[0]
    && (forall k | 0 <= k < 128 * d ::
          ReadDesc(r, k) == if k == g then ds[g].(freeBlocks := Clear(m')) else ReadDesc(bs, k))
    && (forall i | d < i < |bs| ::
          r[i] == if i == ds[g].blockBitmap then Raw(m')
                  else if i == phys then Raw(JournalSuper(n, uuid))
                  else if i == table
                       then Raw(PutInode(bs[table].bits, 7,
                                         JournalInode(n, phys, ExtraSize(InodeSlot(bs[table].bits, 1)))))
                  else bs[i])
  }

  /** The descriptors after the journal took its run. */
  ghost function JournaledDescs(bs: seq<Block>, ds: Descriptors, g: nat, s: nat, n: nat): Descriptors
    requires Mapped(bs, ds) && g < |ds|
  {
    ds[g := ds[g].(freeBlocks := Clear(Fill(BlockMap(bs, ds, g), s, s + n, true)))]
  }

  /** The same pointers, no bit cleared. */
  ghost predicate OnlySets(bs: seq<Block>, ds: Descriptors, r: seq<Block>, ds': Descriptors)
    requires Mapped(bs, ds) && Mapped(r, ds')
  {
    && |r| == |bs| && |ds'| == |ds|
    && (forall h | 0 <= h < |ds| ::
          ds'[h].inodeTable == ds[h].inodeTable && ds'[h].blockBitmap == ds[h].blockBitmap
          && ds'[h].inodeBitmap == ds[h].inodeBitmap)
    && (forall h, j | 0 <= h < |ds| && 0 <= j < 32768 && BlockMap(bs, ds, h)[j] :: BlockMap(r, ds', h)[j])
    && (forall h | 0 <= h < |ds| :: InodeMap(r, ds', h) == InodeMap(bs, ds, h))
  }

  /** A block past the descriptors is one of the three the journal writes, or as it was. */
  lemma JournaledBlock(bs: seq<Block>, ds: Descriptors, d: nat, uuid: Uuid, g: nat, s: nat, n: nat, r: seq<Block>,
                       i: nat)
    requires TableAt(bs, d) && 1 <= |ds| <= 128 * d && Mapped(bs, ds)
    requires Journaled(bs, ds, d, uuid, g, s, n, r) && d < i < |bs|
    ensures |r| == |bs| && (r[i].Raw? || r[i] == bs[i])
    ensures i != ds[g].blockBitmap && i != g * 32768 + s && i != ds[0].inodeTable ==> r[i] == bs[i]
    ensures i == ds[g].blockBitmap ==> r[i] == Raw(Fill(BlockMap(bs, ds, g), s, s + n, true))
  {
    hide JournalSuper, JournalInode, PutInode, InodeSlot, ExtraSize, Fill, BlockMap, Clear;
  }

  lemma JournaledTable(bs: seq<Block>, ds: Descriptors, d: nat, uuid: Uuid, g: nat, s: nat, n: nat, r: seq<Block>,
                       ds': Descriptors)
    requires TableAt(bs, d) && 1 <= |ds| <= 128 * d && ds == Descs(bs, |ds|, d) && Mapped(bs, ds)
    requires Journaled(bs, ds, d, uuid, g, s, n, r) && ds' == JournaledDescs(bs, ds, g, s, n)
    ensures |r| == |bs| && TableAt(r, d) && Descs(r, |ds|, d) == ds' && |ds'| == |ds| && g < |ds|
    ensures forall h | 0 <= h < |ds| ::
              ds'[h].blockBitmap == ds[h].blockBitmap && ds'[h].inodeBitmap == ds[h].inodeBitmap
  {
    hide JournalSuper, JournalInode, PutInode, InodeSlot, ExtraSize, Clear, Fill, BlockMap;
  }

  /** Where the descriptors and bitmaps are once the journal is in. */
  lemma JournaledDescsRead(bs: seq<Block>, ds: Descriptors, d: nat, uuid: Uuid, g: nat, s: nat, n: nat,
                           r: seq<Block>, ds': Descriptors)
    requires TableAt(bs, d) && 1 <= |ds| <= 128 * d && ds == Descs(bs, |ds|, d) && Placeable(bs, ds, d)
    requires Journaled(bs, ds, d, uuid, g, s, n, r) && RunAt(BlockMap(bs, ds, g), s, n) && n >= 1
    requires ds' == JournaledDescs(bs, ds, g, s, n)
    ensures Descs(r, |ds|, d) == ds' && Mapped(r, ds')
    ensures forall h | 0 <= h < |ds| ::
              BlockMap(r, ds', h) == (if h == g then Fill(BlockMap(bs, ds, g), s, s + n, true) else BlockMap(bs, ds, h))
    ensures forall h | 0 <= h < |ds| :: InodeMap(r, ds', h) == InodeMap(bs, ds, h)
  {
    hide Journaled, TableAt, Clear, Fill, JournaledDescs, Placeable;
    BitmapsElsewhere(bs, ds, d);
    JournaledTable(bs, ds, d, uuid, g, s, n, r, ds');
    FreeBlockPlaceable(bs, ds, d, g, s);
    forall h | 0 <= h < |ds|
      ensures r[ds[h].inodeBitmap] == bs[ds[h].inodeBitmap]
      ensures r[ds[h].blockBitmap] ==
              if h == g then Raw(Fill(BlockMap(bs, ds, g), s, s + n, true)) else bs[ds[h].blockBitmap]
    {
      JournaledBlock(bs, ds, d, uuid, g, s, n, r, ds[h].inodeBitmap);
      JournaledBlock(bs, ds, d, uuid, g, s, n, r, ds[h].blockBitmap);
    }
  }

  lemma StillUsed(bs: seq<Block>, ds: Descriptors, r: seq<Block>, ds': Descriptors, i: nat)
    requires Mapped(bs, ds) && Mapped(r, ds') && OnlySets(bs, ds, r, ds') && InUse(bs, ds, i)
    ensures InUse(r, ds', i)
  {
  }

  /** Metadata in use stays in use where no bit is cleared. */
  lemma MoreInUse(bs: seq<Block>, ds: Descriptors, d: nat, table: nat, r: seq<Block>, ds': Descriptors)
    requires Mapped(bs, ds) && Mapped(r, ds') && MetaInUse(bs, ds, d, table) && OnlySets(bs, ds, r, ds')
    ensures MetaInUse(r, ds', d, table)
  {
    forall g | 0 <= g < |ds'|
      ensures InUse(r, ds', ds'[g].blockBitmap) && InUse(r, ds', ds'[g].inodeBitmap)
    {
      StillUsed(bs, ds, r, ds', ds[g].blockBitmap);
      StillUsed(bs, ds, r, ds', ds[g].inodeBitmap);
    }
    forall i | 0 <= i <= d
      ensures InUse(r, ds', i)
    {
      StillUsed(bs, ds, r, ds', i);
    }
    forall g, i | 0 <= g < |ds'| && ds'[g].inodeTable <= i < ds'[g].inodeTable + table
      ensures InUse(r, ds', i)
    {
      assert ds[g].inodeTable <= i < ds[g].inodeTable + table && InUse(bs, ds, i);
      StillUsed(bs, ds, r, ds', i);
    }
  }

  lemma SamePointersApart(ds: Descriptors, ds': Descriptors, n: nat, d: nat, table: nat)
    requires |ds'| == |ds| && Apart(ds, n, d) && TablesApart(ds, n, d, table)
    requires forall h | 0 <= h < |ds| ::
               ds'[h].inodeTable == ds[h].inodeTable && ds'[h].blockBitmap == ds[h].blockBitmap
               && ds'[h].inodeBitmap == ds[h].inodeBitmap
    ensures Apart(ds', n, d) && TablesApart(ds', n, d, table)
  {
  }

  /** Setting bits, with the counts following, keeps the accounting invariant. */
  lemma OnlySetsSound(bs: seq<Block>, ds: Descriptors, d: nat, ipg: nat, r: seq<Block>, ds': Descriptors)
    requires SoundWith(bs, ds, d, ipg) && Mapped(r, ds') && OnlySets(bs, ds, r, ds') && Counted(r, ds')
    requires TablesRaw(r, ds', TableBlocks(ipg))
    ensures SoundWith(r, ds', d, ipg)
  {
    SamePointersApart(ds, ds', |bs|, d, TableBlocks(ipg));
    MoreInUse(bs, ds, d, TableBlocks(ipg), r, ds');
    forall g, j | 0 <= g < |ds'| && 0 <= j < 32768 && g * 32768 + j >= |r|
      ensures BlockMap(r, ds', g)[j]
    {
      assert BlockMap(bs, ds, g)[j];
    }
  }

  /** The tables hold what they held but for inode 8. */
  lemma JournaledTablesRaw(bs: seq<Block>, ds: Descriptors, d: nat, ipg: nat, uuid: Uuid, g: nat, s: nat, n: nat,
                           r: seq<Block>, ds': Descriptors)
    requires TableAt(bs, d) && 1 <= |ds| <= 128 * d && Mapped(bs, ds)
    requires TablesRaw(bs, ds, TableBlocks(ipg)) && TablesApart(ds, |bs|, d, TableBlocks(ipg))
    requires Journaled(bs, ds, d, uuid, g, s, n, r) && ds' == JournaledDescs(bs, ds, g, s, n)
    ensures TablesRaw(r, ds', TableBlocks(ipg))
  {
    assert g < |ds|;
    hide Journaled, TableAt, Mapped, Clear, Fill, BlockMap;
    forall h, i | 0 <= h < |ds'| && ds'[h].inodeTable <= i < ds'[h].inodeTable + TableBlocks(ipg)
      ensures i < |r| && r[i].Raw?
    {
      assert ds[h].inodeTable <= i < ds[h].inodeTable + TableBlocks(ipg);
      assert bs[i].Raw?;
      JournaledBlock(bs, ds, d, uuid, g, s, n, r, i);
    }
  }

  lemma RunOnlySets(bs: seq<Block>, ds: Descriptors, g: nat, s: nat, n: nat, r: seq<Block>, ds': Descriptors)
    requires Mapped(bs, ds) && Mapped(r, ds') && Counted(bs, ds) && g < |ds| && |r| == |bs|
    requires ds' == JournaledDescs(bs, ds, g, s, n)
    requires forall h | 0 <= h < |ds| ::
               BlockMap(r, ds', h) ==
                 (if h == g then Fill(BlockMap(bs, ds, g), s, s + n, true) else BlockMap(bs, ds, h))
    requires forall h | 0 <= h < |ds| :: InodeMap(r, ds', h) == InodeMap(bs, ds, h)
    ensures OnlySets(bs, ds, r, ds') && Counted(r, ds')
  {
  }

  /** Laying the journal keeps the accounting invariant. */
  lemma JournaledSoundWith(bs: seq<Block>, ds: Descriptors, d: nat, ipg: nat, uuid: Uuid, g: nat, s: nat, n: nat,
                           r: seq<Block>, ds': Descriptors)
    requires TableAt(bs, d) && 1 <= |ds| <= 128 * d && ds == Descs(bs, |ds|, d) && SoundWith(bs, ds, d, ipg)
             && ipg >= 16
    requires Journaled(bs, ds, d, uuid, g, s, n, r) && RunAt(BlockMap(bs, ds, g), s, n) && n >= 1
    requires ds' == JournaledDescs(bs, ds, g, s, n)
    ensures SoundWith(r, ds', d, ipg)
  {
    SoundIsPlaceable(bs, ds, d, ipg);
    JournaledDescsRead(bs, ds, d, uuid, g, s, n, r, ds');
    JournaledTablesRaw(bs, ds, d, ipg, uuid, g, s, n, r, ds');
    RunOnlySets(bs, ds, g, s, n, r, ds');
    hide Journaled, JournaledDescs, OnlySets, Placeable;
    OnlySetsSound(bs, ds, d, ipg, r, ds');
  }

  /** What the free run and the tables give the writes below. */
  ghost predicate RoomForJournal(bs: seq<Block>, ds: Descriptors, d: nat, g: nat, s: nat, n: nat) {
    && TableAt(bs, d) && 1 <= |ds| <= 128 * d && ds == Descs(bs, |ds|, d) && Mapped(bs, ds) && Apart(ds, |bs|, d)
    && g < |ds| && 1 <= n <= 16384 && RunAt(BlockMap(bs, ds, g), s, n) && ds[g].freeBlocks == Clear(BlockMap(bs, ds, g))
    && var phys, table := g * 32768 + s, ds[0].inodeTable;
    && d < phys < |bs| <= 0x1_0000_0000 && d < table < |bs| && bs[table].Raw? && phys != table
    && phys != ds[g].blockBitmap && table != ds[g].blockBitmap
  }

  lemma FreeRunHasRoom(bs: seq<Block>, ds: Descriptors, d: nat, g: nat, s: nat, n: nat)
    requires TableAt(bs, d) && 1 <= |ds| <= 128 * d && ds == Descs(bs, |ds|, d) && Placeable(bs, ds, d)
    requires g < |ds| && 1 <= n <= 16384 && RunAt(BlockMap(bs, ds, g), s, n) && |bs| <= 0x1_0000_0000
    ensures RoomForJournal(bs, ds, d, g, s, n)
  {
    FreeBlockPlaceable(bs, ds, d, g, s);
  }

  /** The two content writes leave every descriptor and bitmap as it was. */
  lemma ContentWrites(bs: seq<Block>, ds: Descriptors, d: nat, g: nat, s: nat, n: nat, b2: seq<Block>, x: Bits, y: Bits)
    requires RoomForJournal(bs, ds, d, g, s, n)
    requires b2 == bs[g * 32768 + s := Raw(x)][ds[0].inodeTable := Raw(y)]
    ensures TableAt(b2, d) && HasDesc(b2, g) && HasDesc(b2, 0) && ReadDesc(b2, 0) == ds[0] && ReadDesc(b2, g) == ds[g]
    ensures b2[ds[g].blockBitmap] == Raw(BlockMap(bs, ds, g)) && ds[g].blockBitmap != 1 + g / 128
    ensures forall k | 0 <= k < 128 * d :: ReadDesc(b2, k) == ReadDesc(bs, k)
  {
    hide JournalSuper, JournalInode, PutInode, InodeSlot, ExtraSize;
    forall k | 0 <= k < 128 * d
      ensures HasDesc(b2, k) && ReadDesc(b2, k) == ReadDesc(bs, k)
    {
      assert 1 + k / 128 <= d;
    }
    assert ds[0] == ReadDesc(bs, 0) && ds[g] == ReadDesc(bs, g);
  }

  /** The blocks with the journal's superblock at phys and its inode in the table block. */
  function WithContents(bs: seq<Block>, phys: U32, table: U32, n: U32, uuid: Uuid): (r: seq<Block>)
    requires phys < |bs| && table < |bs| && bs[table].Raw? && n <= 16384
  {
    bs[phys := Raw(JournalSuper(n, uuid))]
      [table := Raw(PutInode(bs[table].bits, 7, JournalInode(n, phys, ExtraSize(InodeSlot(bs[table].bits, 1)))))]
  }

  lemma ContentsApart(bs: seq<Block>, ds: Descriptors, d: nat, g: nat, s: nat, n: nat, uuid: Uuid, b2: seq<Block>)
    requires RoomForJournal(bs, ds, d, g, s, n) && b2 == WithContents(bs, g * 32768 + s, ds[0].inodeTable, n, uuid)
    ensures TableAt(b2, d) && HasDesc(b2, g) && ReadDesc(b2, g) == ds[g] && ds[g].blockBitmap < |b2|
    ensures b2[ds[g].blockBitmap] == Raw(BlockMap(bs, ds, g)) && ds[g].blockBitmap != 1 + g / 128
  {
    hide JournalSuper, JournalInode, PutInode, InodeSlot, ExtraSize;
    ContentWrites(bs, ds, d, g, s, n, b2, JournalSuper(n, uuid), b2[ds[0].inodeTable].bits);
  }

  lemma WritesJournal(bs: seq<Block>, ds: Descriptors, d: nat, uuid: Uuid, g: nat, s: nat, n: nat, b2: seq<Block>,
                      r: seq<Block>)
    requires RoomForJournal(bs, ds, d, g, s, n) && b2 == WithContents(bs, g * 32768 + s, ds[0].inodeTable, n, uuid)
    requires HasDesc(b2, g) && ReadDesc(b2, g).blockBitmap < |b2| && ReadDesc(b2, g).blockBitmap != 1 + g / 128
    requires r == EditMap(b2, g, Fill(BlockMap(bs, ds, g), s, s + n, true))
    ensures Journaled(bs, ds, d, uuid, g, s, n, r)
  {
    hide JournalSuper, JournalInode, PutInode, InodeSlot, ExtraSize;
    ContentWrites(bs, ds, d, g, s, n, b2, JournalSuper(n, uuid), b2[ds[0].inodeTable].bits);
    EditMapEffect(b2, g, Fill(BlockMap(bs, ds, g), s, s + n, true), d);
  }

  /** Write the journal's superblock at its first block, then its inode, through the first group's descriptor. */
  method WriteContents(f: File, phys: U32, n: U32, uuid: Uuid, ghost e: GroupDescriptor)
    requires HasDesc(f.blocks, 0) && ReadDesc(f.blocks, 0) == e && 1 < phys < |f.blocks| && n <= 16384
    requires e.inodeTable < |f.blocks| && f.blocks[e.inodeTable].Raw? && phys != e.inodeTable
    modifies f`blocks
    ensures f.blocks == WithContents(old(f.blocks), phys, e.inodeTable, n, uuid)
  {
    hide JournalSuper, JournalInode, PutInode, InodeSlot, ExtraSize;
    f.blocks := f.blocks[phys := Raw(JournalSuper(n, uuid))];
    var gd := ReadDesc(f.blocks, 0);
    var inodes := f.blocks[gd.inodeTable].bits;
    f.blocks :=
      f.blocks[gd.inodeTable := Raw(PutInode(inodes, 7, JournalInode(n, phys, ExtraSize(InodeSlot(inodes, 1)))))];
  }

  /** The writes, taken together, are the journal laid down. */
  lemma JournalWrites(bs: seq<Block>, ds: Descriptors, d: nat, g: nat, s: nat, n: nat, uuid: Uuid)
    requires RoomForJournal(bs, ds, d, g, s, n)
    ensures HasDesc(bs, 0) && ReadDesc(bs, 0) == ds[0]
    ensures var b2, m := WithContents(bs, g * 32768 + s, ds[0].inodeTable, n, uuid), BlockMap(bs, ds, g);
            && HasDesc(b2, g) && ReadDesc(b2, g) == ds[g] && ds[g].blockBitmap < |b2|
            && ds[g].blockBitmap != 1 + g / 128
            && b2[ds[g].blockBitmap] == Raw(m)
            && Journaled(bs, ds, d, uuid, g, s, n, EditMap(b2, g, Fill(m, s, s + n, true)))
  {
    hide JournalSuper, JournalInode, PutInode, InodeSlot, ExtraSize;
    var b2 := WithContents(bs, g * 32768 + s, ds[0].inodeTable, n, uuid);
    assert ds[0] == ReadDesc(bs, 0);
    ContentsApart(bs, ds, d, g, s, n, uuid, b2);
    WritesJournal(bs, ds, d, uuid, g, s, n, b2, EditMap(b2, g, Fill(BlockMap(bs, ds, g), s, s + n, true)));
  }

  /** A table block with the journal's inode put in its eighth slot. */
  lemma InodeInTable(was: Bits, now: Bits, n: U32, phys: U32, extra: U16)
    requires n <= 16384 && now == PutInode(was, 7, JournalInode(n, phys, extra))
    ensures ReadFile(InodeSlot(now, 7)) == JournalFile(n, phys, extra)
    ensures forall j | 0 <= j < 16 && j != 7 :: InodeSlot(now, j) == InodeSlot(was, j)
  {
    hide JournalInode, PutInode, InodeSlot, ReadFile, JournalFile;
    var s := JournalInode(n, phys, extra);
    JournalInodeReads(n, phys, extra);
    forall j | 0 <= j < 16
      ensures InodeSlot(now, j) == if j == 7 then s else InodeSlot(was, j)
    {
      PutInodeEffect(was, 7, s, j);
    }
  }

  /** The blocks of the journal read back: its first as the superblock of an empty journal, and inode 8 as its file, the
      other inodes of that block as they were. */
  ghost predicate ReadsBack(bs: seq<Block>, table: nat, phys: nat, n: nat, uuid: Uuid, r: seq<Block>) {
    && phys < |r| && table < |bs| == |r| && r[phys].Raw? && r[table].Raw? && bs[table].Raw?
    && EmptyJournal(r[phys].bits, n, uuid)
    && var was, now := bs[table].bits, r[table].bits;
       && n <= 16384 && phys < 0x1_0000_0000
       && ReadFile(InodeSlot(now, JOURNAL_INODE - 1)) == JournalFile(n, phys, ExtraSize(InodeSlot(was, 1)))
       && forall j | 0 <= j < 16 && j != JOURNAL_INODE - 1 :: InodeSlot(now, j) == InodeSlot(was, j)
  }

  lemma JournaledReads(bs: seq<Block>, ds: Descriptors, d: nat, uuid: Uuid, g: nat, s: nat, n: nat, r: seq<Block>)
    requires RoomForJournal(bs, ds, d, g, s, n) && Journaled(bs, ds, d, uuid, g, s, n, r)
    ensures ReadsBack(bs, ds[0].inodeTable, g * 32768 + s, n, uuid, r)
  {
    hide JournalSuper, JournalInode, PutInode, InodeSlot, ExtraSize, ReadFile, JournalFile, EmptyJournal, Clear, Fill;
    var phys, table := g * 32768 + s, ds[0].inodeTable;
    JournalSuperReads(n, uuid);
    InodeInTable(bs[table].bits, r[table].bits, n, phys, ExtraSize(InodeSlot(bs[table].bits, 1)));
  }

  /** Write the journal's superblock and inode, then claim its run. */
  method LayJournal(f: File, group: U32, start: U32, n: U32, uuid: Uuid, ghost ds: Descriptors, ghost d: nat)
    requires RoomForJournal(f.blocks, ds, d, group, start, n)
    modifies f`blocks
    ensures Journaled(old(f.blocks), ds, d, uuid, group, start, n, f.blocks)
    ensures ReadsBack(old(f.blocks), ds[0].inodeTable, group * 32768 + start, n, uuid, f.blocks)
  {
    hide JournalSuper, JournalInode, PutInode, InodeSlot, ExtraSize, ReadsBack;
    ghost var bs := f.blocks;
    JournalWrites(f.blocks, ds, d, group, start, n, uuid);
    ghost var m := BlockMap(f.blocks, ds, group);
    WriteContents(f, group * 32768 + start, n, uuid, ds[0]);
    ClaimRun(f, group, start, n, ds[group], m);
    JournaledReads(bs, ds, d, uuid, group, start, n, f.blocks);
  }

  // The whole of it.

  datatype JournalOutcome = Placed(sb: SuperBlock, group: U32, start: U32) | MetadataCsum | HalfBuilt | TooSmall

  /** Inode 8 already holds a file. */
  ghost predicate Populated(bs: seq<Block>)
    requires PlaceableBlocks(bs)
  {
    Mode(InodeSlot(FirstTable(bs), 7)) != 0
  }

  ghost function FirstTable(bs: seq<Block>): Bits
    requires PlaceableBlocks(bs)
  {
    bs[DescsOf(bs)[0].inodeTable].bits
  }

  /** The superblock of an image with a journal of n blocks from phys. */
  function JournalSuperBlock(sb: SuperBlock, n: U32, phys: U32): SuperBlock
    requires n <= 16384
  {
    sb.(freeBlocks := Sub32(sb.freeBlocks, n), journalInum := JOURNAL_INODE, journalBackupType := 1,
        journalBlocks := ExtentWords(n, phys) + [0, n * 4096])
  }

  /** The free blocks drop by the journal's length. */
  lemma {:induction false} JournaledSum(bs: seq<Block>, ds: Descriptors, g: nat, s: nat, n: nat)
    requires Mapped(bs, ds) && g < |ds| && ds[g].freeBlocks == Clear(BlockMap(bs, ds, g))
             && RunAt(BlockMap(bs, ds, g), s, n)
    ensures n <= SumFree(ds)
    ensures SumFree(JournaledDescs(bs, ds, g, s, n)) == SumFree(ds) - n
    ensures SumFreeInodes(JournaledDescs(bs, ds, g, s, n)) == SumFreeInodes(ds)
  {
    ClearClaim(BlockMap(bs, ds, g), s, s + n);
    SumFreeEdit(ds, g, Clear(Fill(BlockMap(bs, ds, g), s, s + n, true)));
  }

  lemma JournaledBlocksSound(bs: seq<Block>, ipg: nat, uuid: Uuid, g: nat, s: nat, n: nat, r: seq<Block>)
    requires SoundBlocks(bs, ipg) && 1 <= n <= 16384 && g < Groups(|bs|) && RunAt(BlockMap(bs, DescsOf(bs), g), s, n)
    requires Journaled(bs, DescsOf(bs), DescriptorBlocks(Groups(|bs|)), uuid, g, s, n, r)
    ensures |r| == |bs| && SoundBlocks(r, ipg) && DescsOf(r) == JournaledDescs(bs, DescsOf(bs), g, s, n)
  {
    hide Journaled, SoundWith, JournaledDescs, Placeable;
    var ds, d := DescsOf(bs), DescriptorBlocks(Groups(|bs|));
    SoundIsPlaceable(bs, ds, d, ipg);
    BitmapsElsewhere(bs, ds, d);
    var ds' := JournaledDescs(bs, ds, g, s, n);
    JournaledDescsRead(bs, ds, d, uuid, g, s, n, r, ds');
    JournaledSoundWith(bs, ds, d, ipg, uuid, g, s, n, r, ds');
    JournaledTable(bs, ds, d, uuid, g, s, n, r, ds');
  }

  lemma SameBitmapsApart(ds: Descriptors, ds': Descriptors, n: nat, d: nat)
    requires |ds'| == |ds| && Apart(ds, n, d)
    requires forall h | 0 <= h < |ds| ::
               ds'[h].blockBitmap == ds[h].blockBitmap && ds'[h].inodeBitmap == ds[h].inodeBitmap
    ensures Apart(ds', n, d)
  {
  }

  lemma MorePlaceable(bs: seq<Block>, ds: Descriptors, d: nat, r: seq<Block>, ds': Descriptors)
    requires Placeable(bs, ds, d) && Mapped(r, ds') && OnlySets(bs, ds, r, ds') && Counted(r, ds')
    requires r[ds[0].inodeTable].Raw?
    ensures Placeable(r, ds', d)
  {
    hide Counted, InUse, Mapped, Apart;
    SameBitmapsApart(ds, ds', |bs|, d);
    forall i | 0 <= i <= d ensures InUse(r, ds', i) {
      StillUsed(bs, ds, r, ds', i);
    }
    forall g | 0 <= g < |ds'| ensures InUse(r, ds', ds'[g].blockBitmap) && InUse(r, ds', ds'[g].inodeBitmap) {
      StillUsed(bs, ds, r, ds', ds[g].blockBitmap);
      StillUsed(bs, ds, r, ds', ds[g].inodeBitmap);
    }
    StillUsed(bs, ds, r, ds', ds[0].inodeTable);
    forall g, j | 0 <= g < |ds'| && 0 <= j < 32768 && g * 32768 + j >= |r| ensures BlockMap(r, ds', g)[j] {
      assert BlockMap(bs, ds, g)[j];
    }
  }

  /** Laying the journal leaves an image of that kind, with the pointers it had. */
  lemma JournaledPlaceable(bs: seq<Block>, uuid: Uuid, g: nat, s: nat, n: nat, r: seq<Block>)
    requires PlaceableBlocks(bs) && 1 <= n <= 16384 && g < Groups(|bs|) && RunAt(BlockMap(bs, DescsOf(bs), g), s, n)
    requires Journaled(bs, DescsOf(bs), DescriptorBlocks(Groups(|bs|)), uuid, g, s, n, r)
    ensures |r| == |bs| && PlaceableBlocks(r) && DescsOf(r) == JournaledDescs(bs, DescsOf(bs), g, s, n)
  {
    var ds, d := DescsOf(bs), DescriptorBlocks(Groups(|bs|));
    var ds' := JournaledDescs(bs, ds, g, s, n);
    JournaledTable(bs, ds, d, uuid, g, s, n, r, ds');
    JournaledDescsRead(bs, ds, d, uuid, g, s, n, r, ds');
    RunOnlySets(bs, ds, g, s, n, r, ds');
    JournaledBlock(bs, ds, d, uuid, g, s, n, r, ds[0].inodeTable);
    MorePlaceable(bs, ds, d, r, ds');
    hide Journaled, JournaledDescs, OnlySets, Placeable;
  }

  /** The image with its journal, the superblock's total included, keeps the accounting invariant. */
  lemma JournaledSound(sb: SuperBlock, bs: seq<Block>, g: nat, s: nat, n: U32, r: seq<Block>)
    requires Sound(Image(sb, bs)) && 1 <= n <= 16384 && g < Groups(|bs|)
    requires RunAt(BlockMap(bs, DescsOf(bs), g), s, n) && g * 32768 + s < 0x1_0000_0000
    requires Journaled(bs, DescsOf(bs), DescriptorBlocks(Groups(|bs|)), sb.uuid, g, s, n, r)
    ensures Sound(Image(JournalSuperBlock(sb, n, g * 32768 + s), r))
  {
    JournaledSum(bs, DescsOf(bs), g, s, n);
    JournaledBlocksSound(bs, sb.inodesPerGroup, sb.uuid, g, s, n, r);
    hide SoundBlocks, Journaled, ExtentWords, JournaledDescs;
  }

  /** Where the journal goes in an image, and the image with it there. */
  ghost predicate PlacedIn(sb: SuperBlock, bs: seq<Block>, o: JournalOutcome, r: seq<Block>)
    requires PlaceableBlocks(bs) && sb.blocksCount == |bs| && o.Placed?
  {
    var n, ds := JournalBlocks(sb.blocksCount), DescsOf(bs);
    && o.group * 32768 + o.start < 0x1_0000_0000
    && FirstFit(Maps(bs, ds), n, o.group, o.start)
    && Journaled(bs, ds, DescriptorBlocks(Groups(sb.blocksCount)), sb.uuid, o.group, o.start, n, r)
    && o.sb == JournalSuperBlock(sb, n, o.group * 32768 + o.start)
  }

  lemma PlacedSound(sb: SuperBlock, bs: seq<Block>, o: JournalOutcome, r: seq<Block>)
    requires Sound(Image(sb, bs)) && PlaceableBlocks(bs) && o.Placed? && PlacedIn(sb, bs, o, r)
    ensures Sound(Image(o.sb, r))
  {
    hide PlaceableBlocks;
    JournaledSound(sb, bs, o.group, o.start, JournalBlocks(sb.blocksCount), r);
  }

  /** The journal moves no pointer, so what was wrong with a table's place still is. */
  lemma PlacedPointers(sb: SuperBlock, bs: seq<Block>, o: JournalOutcome, r: seq<Block>, g: nat)
    requires PlaceableBlocks(bs) && sb.blocksCount == |bs| && o.Placed? && PlacedIn(sb, bs, o, r) && g < Groups(|bs|)
    ensures |r| == |bs| && PlaceableBlocks(r) && DescsOf(r)[g].inodeTable == DescsOf(bs)[g].inodeTable
  {
    hide Journaled, PlaceableBlocks, JournalSuperBlock, Mapped, Counted;
    SearchMay(bs);
    assert RunAt(Maps(bs, DescsOf(bs))[o.group], o.start, JournalBlocks(sb.blocksCount));
    JournaledPlaceable(bs, sb.uuid, o.group, o.start, JournalBlocks(sb.blocksCount), r);
  }

  /** What the inode table of the first group holds once the journal is placed: inode 8 is the journal's file, read
      through the descriptors left on the disk, and the other inodes of its block are as they were. */
  ghost predicate InodePlaced(sb: SuperBlock, bs: seq<Block>, o: JournalOutcome, r: seq<Block>)
    requires PlaceableBlocks(bs) && o.Placed?
  {
    var was := FirstTable(bs);
    && |r| == |bs| && PlaceableBlocks(r)
    && var now := FirstTable(r);
    && ReadFile(InodeSlot(now, JOURNAL_INODE - 1)) ==
       JournalFile(JournalBlocks(sb.blocksCount), o.group * 32768 + o.start, ExtraSize(InodeSlot(was, 1)))
    && forall j | 0 <= j < 16 && j != JOURNAL_INODE - 1 :: InodeSlot(now, j) == InodeSlot(was, j)
  }

  /** The journal's first block, at its place on the disk, is the superblock of an empty journal of that length. */
  ghost predicate BlockPlaced(sb: SuperBlock, o: JournalOutcome, r: seq<Block>)
    requires o.Placed?
  {
    var phys := o.group * 32768 + o.start;
    phys < |r| && r[phys].Raw? && EmptyJournal(r[phys].bits, JournalBlocks(sb.blocksCount), sb.uuid)
  }

  /** What the file system's superblock says of the journal: inode 8, the kind of backup, and the file's extent and size
      again; its free blocks fall by the length and nothing else of it changes. */
  ghost predicate Recorded(sb: SuperBlock, o: JournalOutcome)
    requires o.Placed?
  {
    var n, phys, words := JournalBlocks(sb.blocksCount), o.group * 32768 + o.start, o.sb.journalBlocks;
    && o.sb == sb.(freeBlocks := o.sb.freeBlocks, journalInum := 8, journalBackupType := 1, journalBlocks := words)
    && (o.sb.freeBlocks + n) % 0x1_0000_0000 == sb.freeBlocks
    && |words| == 17 && words[0] == 0x1_f30a && words[1] == 4 && words[4] == n && words[5] == phys
    && words[16] == n * 4096 && forall k | 0 <= k < 17 && k !in {0, 1, 4, 5, 16} :: words[k] == 0
  }

  lemma PlacedRecord(sb: SuperBlock, bs: seq<Block>, o: JournalOutcome, r: seq<Block>)
    requires PlaceableBlocks(bs) && sb.blocksCount == |bs| && o.Placed? && PlacedIn(sb, bs, o, r)
    ensures Recorded(sb, o)
  {
    hide PlaceableBlocks, Journaled, FirstFit;
  }

  lemma PlacedBlock(sb: SuperBlock, bs: seq<Block>, o: JournalOutcome, r: seq<Block>)
    requires PlaceableBlocks(bs) && sb.blocksCount == |bs| && o.Placed? && PlacedIn(sb, bs, o, r)
    ensures BlockPlaced(sb, o, r)
  {
    hide JournalSuper, JournalInode, PutInode, InodeSlot, ExtraSize, JournalSuperBlock, EmptyJournal, Placeable, Clear,
         Fill;
    var ds, d, n := DescsOf(bs), DescriptorBlocks(Groups(|bs|)), JournalBlocks(sb.blocksCount);
    BitmapsElsewhere(bs, ds, d);
    assert RunAt(Maps(bs, ds)[o.group], o.start, n);
    FreeBlockPlaceable(bs, ds, d, o.group, o.start);
    JournalSuperReads(n, sb.uuid);
  }

  lemma PlacedTable(sb: SuperBlock, bs: seq<Block>, o: JournalOutcome, r: seq<Block>)
    requires PlaceableBlocks(bs) && sb.blocksCount == |bs| && o.Placed? && PlacedIn(sb, bs, o, r)
    ensures |r| == |bs| && PlaceableBlocks(r)
    ensures var was := FirstTable(bs);
            FirstTable(r) ==
            PutInode(was, 7,
                     JournalInode(JournalBlocks(sb.blocksCount), o.group * 32768 + o.start,
                                  ExtraSize(InodeSlot(was, 1))))
  {
    hide JournalSuper, JournalInode, PutInode, InodeSlot, ExtraSize, JournalSuperBlock;
    var ds, n := DescsOf(bs), JournalBlocks(sb.blocksCount);
    JournaledPlaceable(bs, sb.uuid, o.group, o.start, n, r);
    assert DescsOf(r)[0].inodeTable == ds[0].inodeTable;
    assert ds[o.group].blockBitmap != ds[0].inodeTable;
  }

  lemma PlacedInode(sb: SuperBlock, bs: seq<Block>, o: JournalOutcome, r: seq<Block>)
    requires PlaceableBlocks(bs) && sb.blocksCount == |bs| && o.Placed? && PlacedIn(sb, bs, o, r)
    ensures InodePlaced(sb, bs, o, r)
  {
    hide PlaceableBlocks, JournalInode, PutInode, InodeSlot, ExtraSize, FirstTable, ReadFile, JournalFile, Journaled,
         FirstFit;
    PlacedTable(sb, bs, o, r);
    var was, now := FirstTable(bs), FirstTable(r);
    InodeInTable(was, now, JournalBlocks(sb.blocksCount), o.group * 32768 + o.start, ExtraSize(InodeSlot(was, 1)));
  }

  lemma FitHasPlace(maps: seq<Bits>, n: nat, g: nat, s: nat)
    requires FirstFit(maps, n, g, s)
    ensures HasPlace(maps, n)
  {
    assert HasRun(maps[g], n);
  }

  lemma RunHasRoom(sb: SuperBlock, bs: seq<Block>, g: nat, s: nat)
    requires PlaceableBlocks(bs) && sb.blocksCount == |bs|
    requires FirstFit(Maps(bs, DescsOf(bs)), JournalBlocks(sb.blocksCount), g, s)
    ensures RoomForJournal(bs, DescsOf(bs), DescriptorBlocks(Groups(|bs|)), g, s, JournalBlocks(sb.blocksCount))
    ensures g * 32768 + s < 0x1_0000_0000
  {
    FreeRunHasRoom(bs, DescsOf(bs), DescriptorBlocks(Groups(|bs|)), g, s, JournalBlocks(sb.blocksCount));
  }

  /** What the search for a run needs of the image. */
  lemma SearchMay(bs: seq<Block>)
    requires PlaceableBlocks(bs)
    ensures 1 <= |bs| <= MAX_BLOCKS
    ensures TableAt(bs, DescriptorBlocks(Groups(|bs|))) && Groups(|bs|) <= 128 * DescriptorBlocks(Groups(|bs|))
    ensures Mapped(bs, DescsOf(bs)) && Counted(bs, DescsOf(bs))
  {
    hide TableAt, Counted, Mapped, Apart;
  }

  /** Find the first run long enough and lay the journal in it. */
  method PlaceJournal(f: File, sb: SuperBlock) returns (r: JournalOutcome)
    requires PlaceableBlocks(f.blocks) && sb.blocksCount == |f.blocks|
    modifies f`blocks
    ensures r.TooSmall? || r.Placed?
    ensures r.TooSmall? ==> f.blocks == old(f.blocks)
    ensures r.Placed? <==> HasPlace(Maps(old(f.blocks), DescsOf(old(f.blocks))), JournalBlocks(sb.blocksCount))
    ensures r.Placed? ==> PlacedIn(sb, old(f.blocks), r, f.blocks)
  {
    hide Journaled, RoomForJournal, FirstFit, HasPlace, JournalSuperBlock, PlaceableBlocks, Maps, Mapped, Counted;
    SearchMay(f.blocks);
    ghost var bs, ds, d := f.blocks, DescsOf(f.blocks), DescriptorBlocks(Groups(|f.blocks|));
    var n := JournalBlocks(sb.blocksCount);
    var run := FindRun(f, Groups(sb.blocksCount), n, d);
    if run.NoRun? {
      return TooSmall;
    }
    FitHasPlace(Maps(bs, ds), n, run.group, run.start);
    RunHasRoom(sb, bs, run.group, run.start);
    LayJournal(f, run.group, run.start, n, sb.uuid, ds, d);
    r := Placed(JournalSuperBlock(sb, n, run.group * 32768 + run.start), run.group, run.start);
  }

  /** Give an image that has none a journal in the first run of free blocks long enough, or say why it cannot have one,
      the file untouched. */
  method EnsureJournal(f: File, sb: SuperBlock) returns (r: JournalOutcome)
    requires PlaceableBlocks(f.blocks) && sb.blocksCount == |f.blocks|
    modifies f`blocks
    ensures !r.Placed? ==> f.blocks == old(f.blocks)
    ensures r.MetadataCsum? <==> sb.metadataCsum
    ensures r.HalfBuilt? <==> !sb.metadataCsum && Populated(old(f.blocks))
    ensures r.Placed? <==> (&& !sb.metadataCsum && !Populated(old(f.blocks))
                            && HasPlace(Maps(old(f.blocks), DescsOf(old(f.blocks))), JournalBlocks(sb.blocksCount)))
    ensures r.Placed? ==> PlacedIn(sb, old(f.blocks), r, f.blocks)
    ensures r.Placed? && Sound(Image(sb, old(f.blocks))) ==> Sound(Image(r.sb, f.blocks))
    ensures r.Placed? ==> InodePlaced(sb, old(f.blocks), r, f.blocks)
    ensures r.Placed? ==> BlockPlaced(sb, r, f.blocks) && Recorded(sb, r)
  {
    hide PlacedIn, HasPlace, InodePlaced, Sound, BlockPlaced, Recorded;
    if sb.metadataCsum {
      return MetadataCsum;
    }
    var gd := ReadDesc(f.blocks, 0);
    assert gd == DescsOf(f.blocks)[0];
    if Mode(InodeSlot(f.blocks[gd.inodeTable].bits, 7)) != 0 {
      return HalfBuilt;
    }
    ghost var bs := f.blocks;
    r := PlaceJournal(f, sb);
    if r.Placed? {
      if Sound(Image(sb, bs)) {
        PlacedSound(sb, bs, r, f.blocks);
      }
      PlacedInode(sb, bs, r, f.blocks);
      PlacedBlock(sb, bs, r, f.blocks);
      PlacedRecord(sb, bs, r, f.blocks);
    }
  }
}
