/** What widening a fresh image keeps, and that the image it leaves, made writable, is one Grow takes. */
module Ext4Write {
  import opened Bitmaps
  import opened Ext4Format
  import opened Ext4Layout
  import opened Ext4Growth
  import opened Ext4GrowthSound
  import opened Ext4Grow
  import opened Ext4Journal
  import opened Ext4JournalFile
  import opened Ext4Inodes

  // Reading an inode and a block through the descriptors.

  /** The descriptors lead to a table block and a bitmap for the number. */
  ghost predicate Named(bs: seq<Block>, ipg: nat, ino: nat) {
    && 16 <= ipg <= 32768 && HasDesc(bs, GroupOf(ino, ipg))
    && var e := ReadDesc(bs, GroupOf(ino, ipg));
       var i := e.inodeTable + IndexIn(ino, ipg) / 16;
       i < |bs| && bs[i].Raw? && e.inodeBitmap < |bs| && bs[e.inodeBitmap].Raw?
  }

  /** The 256 bytes of inode ino, read through its group's descriptor where groups have ipg inodes. */
  ghost function InodeThrough(bs: seq<Block>, ipg: nat, ino: nat): (s: seq<bool>)
    requires Named(bs, ipg, ino)
  {
    InodeSlot(bs[ReadDesc(bs, GroupOf(ino, ipg)).inodeTable + IndexIn(ino, ipg) / 16].bits, IndexIn(ino, ipg) % 16)
  }

  /** Inode ino's bit in its group's bitmap. */
  ghost predicate UsedThrough(bs: seq<Block>, ipg: nat, ino: nat)
    requires Named(bs, ipg, ino)
  {
    bs[ReadDesc(bs, GroupOf(ino, ipg)).inodeBitmap].bits[IndexIn(ino, ipg)]
  }

  /** Block b's bit in its group's bitmap. */
  ghost predicate BlockUsed(bs: seq<Block>, b: nat)
    requires HasDesc(bs, b / 32768)
    requires var i := ReadDesc(bs, b / 32768).blockBitmap; i < |bs| && bs[i].Raw?
  {
    bs[ReadDesc(bs, b / 32768).blockBitmap].bits[b % 32768]
  }

  /** Where group g's bitmaps and table are in the widened image. */
  lemma WideGroup(bs: seq<Block>, p: Plan, r: seq<Block>, g: nat)
    requires Fresh(bs, p) && WidenedTo(bs, p, p.groups, r) && g < p.groups
    ensures HasDesc(r, g) && |r| == p.blocks && p.NewBitmaps() + 2 * g + 1 < |r|
    ensures ReadDesc(r, g).blockBitmap == p.NewBitmaps() + 2 * g && r[p.NewBitmaps() + 2 * g] == Raw(WideMap(bs, p, g))
    ensures ReadDesc(r, g).inodeBitmap == p.NewBitmaps() + 2 * g + 1
            && r[p.NewBitmaps() + 2 * g + 1] == Raw(WideInodeMap(bs, p, g))
    ensures ReadDesc(r, g).inodeTable == p.tableStart + 512 * g
  {
    FreshNumbers(bs, p);
    hide WideMap, WideInodeMap, WideDirs, Clear, Span;
    assert ReadDesc(r, g) == WideDesc(bs, p, g);
  }

  /** A block of the new tables, and one below them. */
  lemma WideContent(bs: seq<Block>, p: Plan, r: seq<Block>, i: nat)
    requires Fresh(bs, p) && WidenedTo(bs, p, p.groups, r) && i < p.NewBitmaps() && (i == 0 || i > 1024)
    ensures i < |r| && |r| == p.blocks && r[i] == WideBlock(bs, p, i)
  {
    FreshNumbers(bs, p);
  }

  /** Where group g's bitmaps are in the fresh image. */
  lemma OldGroup(bs: seq<Block>, p: Plan, g: nat)
    requires Fresh(bs, p) && WriterLayout(bs, p.oldGroups, p.table) && p.tableStart == ReadDesc(bs, 0).inodeTable
             && g < p.oldGroups
    ensures HasDesc(bs, g) && ReadDesc(bs, g).blockBitmap == p.OldBitmaps() + 2 * g < |bs|
            && bs[p.OldBitmaps() + 2 * g].Raw?
  {
    hide Span;
  }

  /** An old inode, read the old way. */
  lemma OldInodeRead(bs: seq<Block>, p: Plan, ino: nat)
    requires Fresh(bs, p) && WriterLayout(bs, p.oldGroups, p.table) && p.tableStart == ReadDesc(bs, 0).inodeTable
             && IsInode(p, ino)
    ensures Named(bs, p.Share(), ino) && InodeThrough(bs, p.Share(), ino) == OldInode(bs, p, ino)
    ensures UsedThrough(bs, p.Share(), ino) <==> OldUsed(bs, p, ino)
  {
    InodePlace(ino, p.oldGroups, p.table, p.Share());
    var g := GroupOf(ino, p.Share());
    hide Span, GroupOf, IndexIn;
    assert g < p.oldGroups && ReadDesc(bs, g).inodeTable == p.tableStart + Span(g, p.table);
  }

  lemma ZeroInode(k: nat)
    requires k < 16
    ensures InodeSlot(ZeroBits(), k) == Zeros(2048)
  {
  }

  /** An inode's place in the new tables. */
  lemma WidePlace(ino: nat, groups: nat)
    requires ino < 8192 * groups
    ensures GroupOf(ino, 8192) < groups && IndexIn(ino, 8192) % 16 == ino % 16
    ensures 512 * GroupOf(ino, 8192) + IndexIn(ino, 8192) / 16 == ino / 16 < 512 * groups
    ensures 8192 * GroupOf(ino, 8192) + IndexIn(ino, 8192) == ino
  {
  }

  /** The table block an inode number of the widened image lies in, and the inode there. */
  lemma WideInodeBytes(bs: seq<Block>, p: Plan, r: seq<Block>, ino: nat)
    requires Fresh(bs, p) && WidenedTo(bs, p, p.groups, r) && ino < 8192 * p.groups
    ensures p.tableStart + ino / 16 < |r| && r[p.tableStart + ino / 16].Raw?
    ensures InodeSlot(r[p.tableStart + ino / 16].bits, ino % 16) ==
              if IsInode(p, ino) then OldInode(bs, p, ino) else Zeros(2048)
  {
    WidePlace(ino, p.groups);
    WideContent(bs, p, r, p.tableStart + ino / 16);
    SpanFits(p);
    ZeroInode(ino % 16);
    hide Span, WidenedTo, InodeSlot, ZeroBits;
  }

  /** An inode of the widened image, read the new way: the old bytes and bit of an old number, zeros and a clear bit of
      a new one. */
  lemma WideInodeRead(bs: seq<Block>, p: Plan, r: seq<Block>, ino: nat)
    requires Fresh(bs, p) && WidenedTo(bs, p, p.groups, r) && ino < 8192 * p.groups
    ensures Named(r, 8192, ino)
    ensures InodeThrough(r, 8192, ino) == if IsInode(p, ino) then OldInode(bs, p, ino) else Zeros(2048)
    ensures UsedThrough(r, 8192, ino) <==> OldUsed(bs, p, ino)
  {
    hide WidenedTo, Fresh, InodeSlot, GroupOf, IndexIn, OldUsed, OldInode, WideMap, WideBlock;
    WidePlace(ino, p.groups);
    WideGroup(bs, p, r, GroupOf(ino, 8192));
    WideInodeBytes(bs, p, r, ino);
  }

  /** Widening preserves what every inode number means: the same bytes and the same used bit through the new descriptors
      as through the old, and nothing but free, zeroed inodes past the old ones. */
  lemma InodesKeepMeaning(img: Image, p: Plan, r: seq<Block>, ino: nat)
    requires Written(img) && Planned(img, p) && WriterLayout(img.blocks, p.oldGroups, p.table)
             && WidenedTo(img.blocks, p, p.groups, r)
    requires ino < 8192 * p.groups
    ensures IsInode(p, ino) <==> ino < InodesIn(p.oldGroups, img.super.inodesPerGroup)
    ensures Named(r, 8192, ino)
    ensures !IsInode(p, ino) ==> InodeThrough(r, 8192, ino) == Zeros(2048) && !UsedThrough(r, 8192, ino)
    ensures IsInode(p, ino) ==>
              var bs, ipg := img.blocks, img.super.inodesPerGroup;
              && Named(bs, ipg, ino) && InodeThrough(r, 8192, ino) == InodeThrough(bs, ipg, ino)
              && (UsedThrough(r, 8192, ino) <==> UsedThrough(bs, ipg, ino))
  {
    hide WidenedTo, Span, OldBit, WriterLayout, InodeThrough, UsedThrough, OldInode, InodesIn, GroupOf, IndexIn, Named;
    PlannedFresh(img, p);
    InodePlace(ino, p.oldGroups, p.table, p.Share());
    WideInodeRead(img.blocks, p, r, ino);
    if IsInode(p, ino) {
      OldInodeRead(img.blocks, p, ino);
    }
  }

  /** Widening preserves what every block below the tables means, its content and its used bit; above them exactly the
      metadata is used, and everything past the end of the disk. */
  lemma BlocksKeepMeaning(bs: seq<Block>, p: Plan, r: seq<Block>, b: nat)
    requires Fresh(bs, p) && WriterLayout(bs, p.oldGroups, p.table) && p.tableStart == ReadDesc(bs, 0).inodeTable
    requires WidenedTo(bs, p, p.groups, r) && b < 32768 * p.groups
    ensures HasDesc(r, b / 32768) && ReadDesc(r, b / 32768).blockBitmap < |r|
            && r[ReadDesc(r, b / 32768).blockBitmap].Raw?
    ensures b < p.tableStart ==>
              && HasDesc(bs, b / 32768) && ReadDesc(bs, b / 32768).blockBitmap < |bs|
              && bs[ReadDesc(bs, b / 32768).blockBitmap].Raw?
              && (BlockUsed(r, b) <==> BlockUsed(bs, b))
              && (b == 0 || b > 1024 ==> r[b] == bs[b])
    ensures b >= p.tableStart ==> (BlockUsed(r, b) <==> b < p.valid || b >= p.blocks)
  {
    hide Span, WidenedTo, WideInodeMap, WriterLayout, Fresh;
    var g, j := b / 32768, b % 32768;
    assert b == g * 32768 + j && g < p.groups;
    WideGroup(bs, p, r, g);
    assert WideMap(bs, p, g)[j] == WideBit(bs, p, g, j);
    if b < p.tableStart {
      BelowTable(bs, p, b);
      OldGroup(bs, p, g);
      if b == 0 || b > 1024 {
        WideContent(bs, p, r, b);
      }
    }
  }

  lemma BelowTable(bs: seq<Block>, p: Plan, b: nat)
    requires Fresh(bs, p) && b < p.tableStart
    ensures b / 32768 < p.oldGroups && b < |bs|
  {
  }

  // Making the image writable.

  /** r is bs with the first done inode bitmaps' bits past ipg set. */
  ghost predicate Padded(bs: seq<Block>, ds: Descriptors, ipg: nat, done: nat, r: seq<Block>)
    requires Mapped(bs, ds) && done <= |ds|
  {
    && |r| == |bs|
    && (forall g | 0 <= g < done :: r[ds[g].inodeBitmap] == Raw(Fill(InodeMap(bs, ds, g), ipg, 32768, true)))
    && (forall i | 0 <= i < |bs| && (forall g | 0 <= g < done :: ds[g].inodeBitmap != i) :: r[i] == bs[i])
  }

  /** Padding one more bitmap. */
  lemma PaddedStep(bs: seq<Block>, ds: Descriptors, n: nat, d: nat, ipg: nat, g: nat, r: seq<Block>)
    requires Mapped(bs, ds) && g < |ds| && Apart(ds, n, d) && Padded(bs, ds, ipg, g, r)
    ensures r[ds[g].inodeBitmap] == bs[ds[g].inodeBitmap]
    ensures Padded(bs, ds, ipg, g + 1, r[ds[g].inodeBitmap := Raw(Fill(InodeMap(bs, ds, g), ipg, 32768, true))])
  {
    assert forall h | 0 <= h < g :: ds[h].inodeBitmap != ds[g].inodeBitmap;
    var r' := r[ds[g].inodeBitmap := Raw(Fill(InodeMap(bs, ds, g), ipg, 32768, true))];
    forall i | 0 <= i < |bs| && (forall h | 0 <= h < g + 1 :: ds[h].inodeBitmap != i)
      ensures r'[i] == bs[i]
    {
      assert ds[g].inodeBitmap != i;
    }
  }

  lemma PaddedDescs(bs: seq<Block>, ds: Descriptors, d: nat, ipg: nat, done: nat, r: seq<Block>)
    requires TableAt(bs, d) && |ds| <= 128 * d && ds == Descs(bs, |ds|, d)
    requires Mapped(bs, ds) && done <= |ds| && Apart(ds, |bs|, d) && Padded(bs, ds, ipg, done, r)
    ensures TableAt(r, d) && Descs(r, |ds|, d) == ds
    ensures Mapped(r, ds)
    ensures forall g | 0 <= g < |ds| :: BlockMap(r, ds, g) == BlockMap(bs, ds, g)
    ensures done == |ds| ==>
              forall g | 0 <= g < |ds| :: InodeMap(r, ds, g) == Fill(InodeMap(bs, ds, g), ipg, 32768, true)
  {
    forall i | 1 <= i <= d
      ensures r[i] == bs[i]
    {
    }
    forall g | 0 <= g < |ds|
      ensures HasDesc(r, g) && ReadDesc(r, g) == ds[g] && r[ds[g].blockBitmap] == bs[ds[g].blockBitmap]
              && r[ds[g].inodeBitmap].Raw?
    {
      assert 1 + g / 128 <= d;
      assert ds[g] == ReadDesc(bs, g);
      assert forall h | 0 <= h < done :: ds[h].inodeBitmap != ds[g].blockBitmap;
      if g >= done {
        assert forall h | 0 <= h < done :: ds[h].inodeBitmap != ds[g].inodeBitmap;
      }
    }
  }

  /** Undo what a read-only image is written with: the flag, and the inode bitmaps' clear tails. */
  method Writable(f: File, ghost ds: Descriptors, ghost d: nat) returns (ok: bool)
    requires 1 <= f.super.blocksCount && f.super.inodesPerGroup <= 32768
    requires |ds| == Groups(f.super.blocksCount) <= 128 * d && TableAt(f.blocks, d) && ds == Descs(f.blocks, |ds|, d)
    requires Mapped(f.blocks, ds) && Apart(ds, |f.blocks|, d)
    modifies f
    ensures ok <==> old(f.super).magic == 0xef53
    ensures !ok ==> f.Contents() == old(f.Contents())
    ensures ok ==>
              f.super == old(f.super).(readOnly := false)
              && Padded(old(f.blocks), ds, f.super.inodesPerGroup, |ds|, f.blocks)
  {
    if f.super.magic != 0xef53 {
      return false;
    }
    hide Apart, Descs;
    f.super := f.super.(readOnly := false);
    var groups := Groups(f.super.blocksCount);
    ghost var bs, ipg := f.blocks, f.super.inodesPerGroup;
    var g := 0;
    while g < groups
      invariant g <= groups && ipg == f.super.inodesPerGroup && f.super == old(f.super).(readOnly := false)
      invariant Padded(bs, ds, ipg, g, f.blocks)
    {
      PaddedDescs(bs, ds, d, ipg, g, f.blocks);
      PaddedStep(bs, ds, |bs|, d, ipg, g, f.blocks);
      PadOne(f, g, f.super.inodesPerGroup, ds[g]);
      g := g + 1;
    }
    return true;
  }

  /** Pad one group's inode bitmap. */
  method PadOne(f: File, g: nat, ipg: nat, ghost e: GroupDescriptor)
    requires HasDesc(f.blocks, g) && ReadDesc(f.blocks, g) == e && e.inodeBitmap < |f.blocks|
             && f.blocks[e.inodeBitmap].Raw?
    modifies f`blocks
    ensures f.blocks == old(f.blocks)[e.inodeBitmap := Raw(Fill(old(f.blocks)[e.inodeBitmap].bits, ipg, 32768, true))]
  {
    var gd := ReadDesc(f.blocks, g);
    var bits := f.blocks[gd.inodeBitmap].bits;
    var bitmap := new bool[32768](i requires 0 <= i < 32768 => bits[i]);
    assert bitmap[..] == bits;
    SetInodePadding(bitmap, ipg);
    f.blocks := f.blocks[gd.inodeBitmap := Raw(bitmap[..])];
  }

  // The image Write leaves.

  /** The descriptors of the widened image. */
  lemma WideDescsRead(bs: seq<Block>, p: Plan, r: seq<Block>, ds: Descriptors)
    requires Fresh(bs, p) && WidenedTo(bs, p, p.groups, r) && ds == WideDescs(bs, p, p.groups)
    ensures |r| == p.blocks && TableAt(r, 1024) && Descs(r, p.groups, 1024) == ds && Mapped(r, ds)
    ensures forall g | 0 <= g < p.groups ::
              BlockMap(r, ds, g) == WideMap(bs, p, g) && InodeMap(r, ds, g) == WideInodeMap(bs, p, g)
  {
    FreshNumbers(bs, p);
    forall g | 0 <= g < p.groups
      ensures HasDesc(r, g) && ReadDesc(r, g) == ds[g] == WideDesc(bs, p, g)
      ensures ds[g].blockBitmap < |r| && r[ds[g].blockBitmap] == Raw(WideMap(bs, p, g))
      ensures ds[g].inodeBitmap < |r| && r[ds[g].inodeBitmap] == Raw(WideInodeMap(bs, p, g))
    {
      WideGroup(bs, p, r, g);
      assert g < 128 * 1024 && ReadDesc(r, g) == WideDesc(bs, p, g);
    }
    hide WidenedTo, WideMap, WideInodeMap;
  }

  /** The widened layout: tables end to end, then the bitmaps in pairs. */
  ghost predicate WidePointers(p: Plan, ds: Descriptors) {
    |ds| == p.groups && forall g | 0 <= g < |ds| ::
      ds[g].blockBitmap == p.NewBitmaps() + 2 * g && ds[g].inodeBitmap == p.NewBitmaps() + 2 * g + 1
      && ds[g].inodeTable == p.tableStart + 512 * g
  }

  lemma WidePointersRead(bs: seq<Block>, p: Plan)
    requires Fresh(bs, p)
    ensures WidePointers(p, WideDescs(bs, p, p.groups))
  {
    hide Fresh, WideMap, WideInodeMap, WideDirs, Clear, Count;
  }

  lemma WideApart(p: Plan, ds: Descriptors, d: nat)
    requires WidePointers(p, ds) && d <= 1024 < p.tableStart && p.NewBitmaps() + 2 * p.groups <= p.blocks
    ensures Apart(ds, p.blocks, d) && TablesApart(ds, p.blocks, d, 512)
  {
  }

  /** A count of set bits below ipg, once the rest are set, is what the padded bitmap has clear. */
  lemma PaddedClear(m: Bits, ipg: nat)
    requires ipg <= 32768
    ensures Clear(Fill(m, ipg, 32768, true)) == ipg - Count(m[..ipg])
  {
    var f := Fill(m, ipg, 32768, true);
    assert f == m[..ipg] + f[ipg..];
    ClearConcat(m[..ipg], f[ipg..]);
    ClearAll(f[ipg..], true);
  }

  /** Counts and tails of the widened, padded image. */
  lemma WideCounted(bs: seq<Block>, p: Plan, r: seq<Block>, ds: Descriptors)
    requires Fresh(bs, p) && ds == WideDescs(bs, p, p.groups) && |r| == p.blocks && Mapped(r, ds)
    requires forall g | 0 <= g < p.groups ::
               BlockMap(r, ds, g) == WideMap(bs, p, g)
               && InodeMap(r, ds, g) == Fill(WideInodeMap(bs, p, g), 8192, 32768, true)
    ensures Counted(r, ds) && TailsSet(r, ds, 8192)
  {
    forall g | 0 <= g < |ds|
      ensures ds[g].freeBlocks == Clear(BlockMap(r, ds, g)) && ds[g].freeInodes == Clear(InodeMap(r, ds, g))
    {
      PaddedClear(WideInodeMap(bs, p, g), 8192);
    }
    forall g, j | 0 <= g < |ds| && 0 <= j < 32768 && g * 32768 + j >= |r|
      ensures BlockMap(r, ds, g)[j]
    {
      FreshNumbers(bs, p);
      assert WideBit(bs, p, g, j);
    }
  }

  /** A block of the widened image is in use as its group's rebuilt bitmap says. */
  lemma WideInUse(bs: seq<Block>, p: Plan, r: seq<Block>, ds: Descriptors, i: nat)
    requires Fresh(bs, p) && |ds| == p.groups && Mapped(r, ds)
    requires forall g | 0 <= g < p.groups :: BlockMap(r, ds, g) == WideMap(bs, p, g)
    ensures i < p.blocks ==> (InUse(r, ds, i) <==> WideBit(bs, p, i / 32768, i % 32768))
    ensures p.tableStart <= i < p.valid ==> InUse(r, ds, i)
  {
    if i < p.blocks {
      assert i == i / 32768 * 32768 + i % 32768 && i / 32768 < p.groups;
      assert WideMap(bs, p, i / 32768)[i % 32768] == WideBit(bs, p, i / 32768, i % 32768);
    }
  }

  /** Blocks 0 to d are marked used in the fresh image's first bitmap. */
  ghost predicate TableMarked(bs: seq<Block>, p: Plan, d: nat)
    requires Fresh(bs, p) && d <= 1024
  {
    forall i | 0 <= i <= d :: bs[p.OldBitmaps()].bits[i]
  }

  lemma LowInUse(bs: seq<Block>, p: Plan, r: seq<Block>, ds: Descriptors, i: nat)
    requires Fresh(bs, p) && |ds| == p.groups && Mapped(r, ds) && i <= 1024
    requires forall g | 0 <= g < p.groups :: BlockMap(r, ds, g) == WideMap(bs, p, g)
    ensures InUse(r, ds, i) <==> bs[p.OldBitmaps()].bits[i]
  {
    WideInUse(bs, p, r, ds, i);
    hide InUse;
    assert i / 32768 == 0 && i % 32768 == i;
  }

  lemma WideMetaInUse(bs: seq<Block>, p: Plan, r: seq<Block>, ds: Descriptors, d: nat)
    requires Fresh(bs, p) && ds == WideDescs(bs, p, p.groups) && Mapped(r, ds) && d <= 1024
    requires forall g | 0 <= g < p.groups :: BlockMap(r, ds, g) == WideMap(bs, p, g)
    ensures MetaInUse(r, ds, d, 512) <==> TableMarked(bs, p, d)
  {
    assert p.OldBitmaps() < |bs| && bs[p.OldBitmaps()].Raw?;
    hide Fresh, WideMap, InUse, WideDescs, Mapped;
    FreshNumbers(bs, p);
    WidePointersRead(bs, p);
    forall i | 0 <= i <= d
      ensures InUse(r, ds, i) <==> bs[p.OldBitmaps()].bits[i]
    {
      LowInUse(bs, p, r, ds, i);
    }
    forall g | 0 <= g < |ds|
      ensures InUse(r, ds, ds[g].blockBitmap) && InUse(r, ds, ds[g].inodeBitmap)
    {
      WideInUse(bs, p, r, ds, ds[g].blockBitmap);
      WideInUse(bs, p, r, ds, ds[g].inodeBitmap);
    }
    forall g, i | 0 <= g < |ds| && ds[g].inodeTable <= i < ds[g].inodeTable + 512
      ensures InUse(r, ds, i)
    {
      WideInUse(bs, p, r, ds, i);
    }
  }

  lemma WideTablesRaw(bs: seq<Block>, p: Plan, r: seq<Block>, ds: Descriptors, r': seq<Block>)
    requires Fresh(bs, p) && WidenedTo(bs, p, p.groups, r) && WidePointers(p, ds)
    requires Mapped(r, ds) && Padded(r, ds, 8192, p.groups, r')
    ensures TablesRaw(r', ds, 512)
  {
    forall g, i | 0 <= g < |ds| && ds[g].inodeTable <= i < ds[g].inodeTable + 512
      ensures i < |r'| && r'[i].Raw?
    {
      TableBlockRaw(bs, p, r, i);
      assert forall h | 0 <= h < |ds| :: ds[h].inodeBitmap != i;
    }
    hide Fresh, WidenedTo;
  }

  lemma TableBlockRaw(bs: seq<Block>, p: Plan, r: seq<Block>, i: nat)
    requires Fresh(bs, p) && WidenedTo(bs, p, p.groups, r) && p.tableStart <= i < p.NewBitmaps()
    ensures i < |r| && r[i].Raw?
  {
    WideContent(bs, p, r, i);
    hide Span, WidenedTo;
  }

  /** A widened image made writable keeps the accounting invariant exactly when its descriptor blocks were marked used.
      */
  lemma WriteLeavesSound(bs: seq<Block>, p: Plan, r: seq<Block>, r': seq<Block>)
    requires Fresh(bs, p) && WidenedTo(bs, p, p.groups, r)
    requires Mapped(r, WideDescs(bs, p, p.groups)) && Padded(r, WideDescs(bs, p, p.groups), 8192, p.groups, r')
    ensures |r'| == p.blocks && TableAt(r', 1024) && DescriptorBlocks(p.groups) <= 1024
            && DescsOf(r') == WideDescs(bs, p, p.groups)
    ensures SoundBlocks(r', 8192) <==> TableMarked(bs, p, DescriptorBlocks(p.groups))
  {
    hide Fresh, WidenedTo, WideDescs, WideMap, WideInodeMap, Padded, Counted, MetaInUse, TailsSet, TablesRaw, Apart,
         TablesApart, Mapped, TableMarked;
    FreshNumbers(bs, p);
    FreshGroups(bs, p);
    var ds, d := WideDescs(bs, p, p.groups), DescriptorBlocks(p.groups);
    TableBound(p.blocks);
    WideDescsRead(bs, p, r, ds);
    WidePointersRead(bs, p);
    WideApart(p, ds, 1024);
    WideApart(p, ds, d);
    PaddedDescs(r, ds, 1024, 8192, p.groups, r');
    PaddedLength(r, ds, r');
    WideCounted(bs, p, r', ds);
    WideMetaInUse(bs, p, r', ds, d);
    WideTablesRaw(bs, p, r, ds, r');
    SameDescs(r', p.groups, d, ds);
  }

  lemma PaddedLength(bs: seq<Block>, ds: Descriptors, r: seq<Block>)
    requires Mapped(bs, ds) && Padded(bs, ds, 8192, |ds|, r)
    ensures |r| == |bs|
  {
  }

  lemma SameDescs(bs: seq<Block>, groups: nat, d: nat, ds: Descriptors)
    requires TableAt(bs, 1024) && 1 <= groups <= 128 * d && d <= 1024 && ds == Descs(bs, groups, 1024)
    ensures TableAt(bs, d) && Descs(bs, groups, d) == ds
  {
  }

  lemma FreshGroups(bs: seq<Block>, p: Plan)
    requires Fresh(bs, p)
    ensures p.groups == Groups(p.blocks) && 1 <= p.blocks <= MAX_BLOCKS
  {
  }

  // Directories.

  /** Which of group g's inodes are directories in use. */
  ghost function DirsOf(bs: seq<Block>, p: Plan, g: nat): (m: seq<bool>)
    requires Fresh(bs, p)
    ensures |m| == 8192
    ensures forall j | 0 <= j < 8192 ::
              m[j] == (OldUsed(bs, p, g * 8192 + j) && IsDir(OldInode(bs, p, g * 8192 + j)))
  {
    seq(8192, j requires 0 <= j < 8192 => OldUsed(bs, p, g * 8192 + j) && IsDir(OldInode(bs, p, g * 8192 + j)))
  }

  /** With at most 2^24 old inodes the directories counted are the directories there are. */
  lemma DirsCounted(bs: seq<Block>, p: Plan, g: nat)
    requires Fresh(bs, p) && Span(p.oldGroups, p.table) <= 0x10_0000
    ensures WideDirs(bs, p, g) == DirsOf(bs, p, g)
  {
    hide Fresh, OldBit, IsDir, OldInode, Span;
    var a, b := WideDirs(bs, p, g), DirsOf(bs, p, g);
    forall j | 0 <= j < 8192 ensures a[j] == b[j] {
      var ino := g * 8192 + j;
      if IsInode(p, ino) {
        assert ino < 0x100_0000;
      }
    }
  }

  /** A block whose first inode has this mode. */
  function ModeBlock(mode: nat): Bits {
    ToBits(mode, 16) + ZeroBits()[16..]
  }

  lemma ModeBlockReads(mode: nat)
    requires mode < 0x1_0000
    ensures Mode(InodeSlot(ModeBlock(mode), 0)) == mode
  {
    Widths();
    FromTo(mode, 16);
    assert InodeSlot(ModeBlock(mode), 0)[..16] == ToBits(mode, 16);
  }

  /** The image with inode 2^24 in use and a directory, and the first 8192 inodes empty. */
  function Misread(bs: seq<Block>, p: Plan, dir: nat, maps: nat): (r: seq<Block>)
    ensures |r| == |bs|
  {
    seq(|bs|, i requires 0 <= i < |bs| => MisreadBlock(bs, p, dir, maps, i))
  }

  function MisreadBlock(bs: seq<Block>, p: Plan, dir: nat, maps: nat, i: nat): Block
    requires i < |bs|
  {
    if p.tableStart <= i < p.tableStart + 512 then Raw(ZeroBits())
    else if i == p.tableStart + 0x10_0000 then Raw(ModeBlock(dir))
    else if i == maps then Raw(seq(32768, _ => true))
    else bs[i]
  }

  /** The same size and the same descriptors. */
  ghost predicate SameHead(bs: seq<Block>, r: seq<Block>) {
    |r| == |bs| && forall i | 0 <= i <= 1024 && i < |bs| :: r[i] == bs[i]
  }

  lemma MisreadHolds(bs: seq<Block>, p: Plan, dir: nat, ino: nat) returns (r: seq<Block>)
    requires Fresh(bs, p) && Span(p.oldGroups, p.table) > 0x10_0000 && ino == 0x100_0000
    ensures Fresh(r, p) && SameHead(bs, r) && IsInode(p, ino) && OldUsed(r, p, ino)
    ensures r[p.tableStart + ino / 16] == Raw(ModeBlock(dir))
    ensures forall i | p.tableStart <= i < p.tableStart + 512 :: r[i] == Raw(ZeroBits())
  {
    hide ModeBlock, ZeroBits;
    InodePlace(ino, p.oldGroups, p.table, p.Share());
    r := Misread(bs, p, dir, p.OldBitmaps() + 2 * GroupOf(ino, p.Share()) + 1);
  }

  /** An empty inode is no directory. */
  lemma EmptyInode(k: nat)
    requires k < 16
    ensures !IsDir(InodeSlot(ZeroBits(), k))
  {
    FromZeros(InodeSlot(ZeroBits(), k)[..16]);
  }

  lemma {:induction false} CountSome(b: seq<bool>, j: nat)
    requires j < |b| && b[j]
    ensures Count(b) > 0
  {
    ClearUpdate(b, j, false);
  }

  lemma {:induction false} CountNone(b: seq<bool>)
    requires forall j | 0 <= j < |b| :: !b[j]
    ensures Count(b) == 0
  {
    ClearAll(b, false);
  }

  /** With the first 8192 inodes empty, nothing of group 2048 is read as a directory. */
  lemma NoneReadsAsDir(r: seq<Block>, p: Plan)
    requires Fresh(r, p) && Span(p.oldGroups, p.table) > 0x10_0000
    requires forall i | p.tableStart <= i < p.tableStart + 512 :: r[i] == Raw(ZeroBits())
    ensures Count(WideDirs(r, p, 2048)) == 0
  {
    hide OldUsed, Fresh, IsDir, InodeSlot, ZeroBits, Count, Span;
    var m := WideDirs(r, p, 2048);
    forall j | 0 <= j < |m| ensures !m[j] {
      assert ModeAt(2048 * 8192 + j) == j;
      EmptyInode(j % 16);
      assert IsInode(p, j) ==> OldInode(r, p, j) == InodeSlot(ZeroBits(), j % 16);
    }
    CountNone(m);
  }

  /** The modes read for the inodes from 2^24 on are those of the first ones, so a directory there is not counted. */
  lemma DirMisread(bs: seq<Block>, p: Plan, dir: nat, ino: nat) returns (r: seq<Block>)
    requires Fresh(bs, p) && Span(p.oldGroups, p.table) > 0x10_0000 && dir == 0x4000 && ino == 0x100_0000
    ensures Fresh(r, p) && SameHead(bs, r)
    ensures Count(WideDirs(r, p, 2048)) == 0 < Count(DirsOf(r, p, 2048))
  {
    hide InodeSlot, ModeBlock, Mode, Fresh, OldUsed, IsInode, Count, WideDirs, SameHead;
    ModeBlockReads(dir);
    r := MisreadHolds(bs, p, dir, ino);
    NoneReadsAsDir(r, p);
    assert ino == 2048 * 8192 + 0 && OldInode(r, p, ino) == InodeSlot(ModeBlock(dir), 0);
    CountSome(DirsOf(r, p, 2048), 0);
  }

  /** An image with the same size and descriptors is widened by the same plan. */
  lemma SameHeadPlanned(img: Image, p: Plan, r: seq<Block>)
    requires Written(img) && Planned(img, p) && WriterLayout(img.blocks, p.oldGroups, p.table)
    requires Fresh(r, p) && SameHead(img.blocks, r)
    ensures Written(Image(img.super, r)) && Planned(Image(img.super, r), p) && WriterLayout(r, p.oldGroups, p.table)
  {
    hide Span, Covers, BlocksFor;
    forall g | 0 <= g < 128 * 1024 ensures HasDesc(r, g) && ReadDesc(r, g) == ReadDesc(img.blocks, g) {
      assert r[1 + g / 128] == img.blocks[1 + g / 128];
    }
  }

  /** The counts the widening writes are those of the directories in use, in every group of every image of this size and
      these descriptors, if and only if the old tables take at most 2^20 blocks: 2^24 inodes. */
  lemma DirsCountedIff(img: Image, p: Plan)
    requires Written(img) && Planned(img, p)
    ensures (forall r: seq<Block>, g: nat | Fresh(r, p) && SameHead(img.blocks, r) ::
               Count(WideDirs(r, p, g)) == Count(DirsOf(r, p, g))) <==>
            Span(Groups(|img.blocks|), img.super.inodesPerGroup / 16) <= 0x10_0000
  {
    PlannedFresh(img, p);
    hide Fresh, WideDirs, DirsOf, Count, SameHead, Span, Planned;
    if Span(p.oldGroups, p.table) <= 0x10_0000 {
      forall r: seq<Block>, g: nat | Fresh(r, p) && SameHead(img.blocks, r)
        ensures Count(WideDirs(r, p, g)) == Count(DirsOf(r, p, g))
      {
        DirsCounted(r, p, g);
      }
    } else {
      var r := DirMisread(img.blocks, p, 0x4000, 0x100_0000);
      assert Count(WideDirs(r, p, 2048)) != Count(DirsOf(r, p, 2048));
    }
  }

  /** The writer marks the descriptor blocks it filled and leaves the rest of the 1024 free. */
  ghost predicate WriterMarks(bs: seq<Block>) {
    && |bs| >= 1 && HasDesc(bs, 0)
    && var first := ReadDesc(bs, 0).blockBitmap;
       && first < |bs| && bs[first].Raw?
       && forall i | 0 <= i <= 1024 :: bs[first].bits[i] <==> i <= DescriptorBlocks(Groups(|bs|))
  }

  /** What the tar converter leaves: everything it laid down is marked used, the descriptor blocks it did not fill are
      free, the root is a directory and the first eleven inodes are taken, and every count matches its bitmap. */
  ghost predicate Converted(img: Image) {
    && Written(img) && img.super.inodesPerGroup <= 32768
    && var bs, ipg, groups := img.blocks, img.super.inodesPerGroup, Groups(|img.blocks|);
       var ds := Descs(bs, groups, 1024);
       var end := ds[0].blockBitmap + 2 * groups;
       && WriterLayout(bs, groups, ipg / 16) && end <= |bs| && ds[0].blockBitmap > 1024
       && Mapped(bs, ds)
       && (forall g, j | 0 <= g < groups && 0 <= j < 32768 ::
             var b := g * 32768 + j;
             BlockMap(bs, ds, g)[j] <==> b <= DescriptorBlocks(groups) || 1024 < b < end || b >= |bs|)
       && (forall g | 0 <= g < groups ::
             ds[g].freeBlocks == Clear(BlockMap(bs, ds, g))
             && ds[g].freeInodes == ipg - Count(InodeMap(bs, ds, g)[..ipg]))
       && (forall k | 0 <= k < 11 :: InodeMap(bs, ds, 0)[k])
       && ds[0].inodeTable < |bs| && IsDir(InodeSlot(bs[ds[0].inodeTable].bits, 1))
       && img.super.inodesCount == InodesIn(groups, ipg)
       && img.super.freeBlocks == SumFree(ds) && img.super.freeInodes == SumFreeInodes(ds)
  }

  lemma ConvertedMarks(img: Image)
    requires Converted(img)
    ensures WriterMarks(img.blocks)
  {
    hide Clear, Count, SumFree, SumFreeInodes, IsDir, InodeSlot, InodesIn, WriterLayout;
    var bs, groups := img.blocks, Groups(|img.blocks|);
    var ds := Descs(bs, groups, 1024);
    assert ReadDesc(bs, 0) == ds[0];
    TableBound(|bs|);
    forall i | 0 <= i <= 1024 ensures BlockMap(bs, ds, 0)[i] <==> i <= DescriptorBlocks(groups) {
      assert 0 * 32768 + i == i;
    }
  }

  /** The image's tables start low enough for the widened groups to fit the descriptor blocks it has filled: 128 groups
      a block, each with 32768 blocks less the 514 of its metadata. */
  predicate StaysInTable(bs: seq<Block>)
    requires |bs| >= 1 && HasDesc(bs, 0)
  {
    ReadDesc(bs, 0).inodeTable <= 128 * (32768 - 514) * DescriptorBlocks(Groups(|bs|))
  }

  /** Whether the widening opens a descriptor block is settled by where the tables start. */
  lemma OpensNoneIff(tableStart: nat, size: nat, groups: nat)
    requires size >= 1 && Groups(size) <= groups && Covers(tableStart, size, groups)
    requires forall h | Groups(size) <= h < groups :: !Covers(tableStart, size, h)
    ensures DescriptorBlocks(groups) == DescriptorBlocks(Groups(size)) <==>
            tableStart <= 128 * (32768 - 514) * DescriptorBlocks(Groups(size))
  {
    var full := 128 * DescriptorBlocks(Groups(size));
    assert Covers(tableStart, size, full) <==> tableStart <= (32768 - 514) * full;
    assert groups <= full ==> Covers(tableStart, size, full);
  }

  /** The widening the package settles on, seen from its input. */
  lemma PlannedOpensNoneIff(img: Image, p: Plan)
    requires Written(img) && Planned(img, p)
    ensures DescriptorBlocks(p.groups) == DescriptorBlocks(p.oldGroups) <==> StaysInTable(img.blocks)
  {
    assert Covers(p.tableStart, |img.blocks|, p.groups);
    OpensNoneIff(p.tableStart, |img.blocks|, p.groups);
  }

  /** A widening that opens a descriptor block leaves it unmarked, so the invariant holds exactly when the image's
      tables start low enough for none to be opened. */
  lemma WriteLeavesSoundIff(img: Image, p: Plan, r: seq<Block>, r': seq<Block>)
    requires Written(img) && Planned(img, p) && WriterLayout(img.blocks, p.oldGroups, p.table)
             && WriterMarks(img.blocks)
    requires WidenedTo(img.blocks, p, p.groups, r) && Mapped(r, WideDescs(img.blocks, p, p.groups))
    requires Padded(r, WideDescs(img.blocks, p, p.groups), 8192, p.groups, r')
    ensures SoundBlocks(r', 8192) <==> StaysInTable(img.blocks)
  {
    hide SoundBlocks, WidenedTo, WideDescs, Padded, Mapped, StaysInTable;
    PlannedOpensNoneIff(img, p);
    var bs := img.blocks;
    WriteLeavesSound(bs, p, r, r');
    FreshNumbers(bs, p);
    var d, d' := DescriptorBlocks(p.oldGroups), DescriptorBlocks(p.groups);
    assert d <= d' <= 1024;
    assert p.OldBitmaps() == ReadDesc(bs, 0).blockBitmap;
    if TableMarked(bs, p, d') {
      assert bs[p.OldBitmaps()].bits[d'];
    }
  }

  lemma WideTotals(sb: SuperBlock, p: Plan, r': seq<Block>, free: U32, freeInodes: U32, bs: seq<Block>)
    requires p.groups < 0x2_0000 && p.blocks < 0x1_0000_0000 && |r'| == p.blocks && p.blocks >= 1
             && p.groups == Groups(p.blocks)
    requires SoundBlocks(r', 8192) && free == SumFree(DescsOf(r')) && freeInodes == SumFreeInodes(DescsOf(r'))
    ensures Sound(Image(WideSuper(sb, bs, p, free, freeInodes).(readOnly := false), r'))
  {
    hide SoundBlocks, SumFree, SumFreeInodes;
  }

  // An image that is wide enough as it comes.

  /** The tables lie end to end from start, then the bitmaps in pairs, within n blocks. */
  ghost predicate LaidOut(ds: Descriptors, start: nat, q: nat, n: nat) {
    var maps := start + Span(|ds|, q);
    && maps + 2 * |ds| <= n
    && forall g | 0 <= g < |ds| ::
         ds[g].inodeTable == start + Span(g, q) && ds[g].blockBitmap == maps + 2 * g
         && ds[g].inodeBitmap == maps + 2 * g + 1
  }

  lemma TableInSpan(g: nat, groups: nat, q: nat)
    requires g < groups
    ensures Span(g, q) + q <= Span(groups, q)
  {
    MulMono(g + 1, groups, q);
  }

  lemma LaidOutApart(ds: Descriptors, start: nat, q: nat, n: nat, d: nat)
    requires LaidOut(ds, start, q, n) && d < start
    ensures Apart(ds, n, d) && TablesApart(ds, n, d, q)
  {
    hide Span;
    forall g, h | 0 <= g < |ds| && 0 <= h < |ds|
      ensures Span(g, q) + q <= Span(|ds|, q) && (g < h ==> Span(g, q) + q <= Span(h, q))
    {
      TableInSpan(g, |ds|, q);
      if g < h {
        TableInSpan(g, h, q);
      }
    }
  }

  /** Bits as the converter sets them: what it filled, the tables and the bitmaps, and all past the end. */
  ghost predicate MarksOut(bs: seq<Block>, ds: Descriptors, d: nat, end: nat)
    requires Mapped(bs, ds)
  {
    forall g, j | 0 <= g < |ds| && 0 <= j < 32768 ::
      var b := g * 32768 + j;
      BlockMap(bs, ds, g)[j] <==> b <= d || 1024 < b < end || b >= |bs|
  }

  lemma MarkedInUse(bs: seq<Block>, ds: Descriptors, d: nat, end: nat, i: nat)
    requires Mapped(bs, ds) && MarksOut(bs, ds, d, end) && i < |bs| <= 32768 * |ds| && (i <= d || 1024 < i < end)
    ensures InUse(bs, ds, i)
  {
    assert i == i / 32768 * 32768 + i % 32768;
  }

  lemma MarksMeta(bs: seq<Block>, ds: Descriptors, start: nat, q: nat, d: nat)
    requires Mapped(bs, ds) && LaidOut(ds, start, q, |bs|) && d <= 1024 < start && |bs| <= 32768 * |ds|
    requires MarksOut(bs, ds, d, start + Span(|ds|, q) + 2 * |ds|)
    ensures MetaInUse(bs, ds, d, q)
  {
    hide MarksOut, Mapped, InUse, Span;
    var end := start + Span(|ds|, q) + 2 * |ds|;
    forall i | 0 <= i <= d ensures InUse(bs, ds, i) {
      MarkedInUse(bs, ds, d, end, i);
    }
    forall g | 0 <= g < |ds| ensures InUse(bs, ds, ds[g].blockBitmap) && InUse(bs, ds, ds[g].inodeBitmap) {
      MarkedInUse(bs, ds, d, end, ds[g].blockBitmap);
      MarkedInUse(bs, ds, d, end, ds[g].inodeBitmap);
    }
    forall g, i | 0 <= g < |ds| && ds[g].inodeTable <= i < ds[g].inodeTable + q ensures InUse(bs, ds, i) {
      TableInSpan(g, |ds|, q);
      MarkedInUse(bs, ds, d, end, i);
    }
  }

  lemma PaddedCounted(bs: seq<Block>, r: seq<Block>, ds: Descriptors, ipg: nat)
    requires Mapped(bs, ds) && Mapped(r, ds) && ipg <= 32768
    requires forall g | 0 <= g < |ds| :: BlockMap(r, ds, g) == BlockMap(bs, ds, g)
    requires forall g | 0 <= g < |ds| :: InodeMap(r, ds, g) == Fill(InodeMap(bs, ds, g), ipg, 32768, true)
    requires forall g | 0 <= g < |ds| ::
               ds[g].freeBlocks == Clear(BlockMap(bs, ds, g))
               && ds[g].freeInodes == ipg - Count(InodeMap(bs, ds, g)[..ipg])
    ensures Counted(r, ds)
  {
    hide Clear, Count, BlockMap, InodeMap, Mapped;
    forall g | 0 <= g < |ds| ensures ds[g].freeInodes == Clear(InodeMap(r, ds, g)) {
      PaddedClear(InodeMap(bs, ds, g), ipg);
    }
  }

  /** What Converted says of the descriptors, in parts. */
  lemma ConvertedParts(img: Image, ds: Descriptors, start: nat, q: nat)
    requires Converted(img) && ds == Descs(img.blocks, Groups(|img.blocks|), 1024)
    requires start == ds[0].inodeTable && q == img.super.inodesPerGroup / 16
    ensures LaidOut(ds, start, q, |img.blocks|) && 1024 < start && Mapped(img.blocks, ds)
    ensures MarksOut(img.blocks, ds, DescriptorBlocks(|ds|), start + Span(|ds|, q) + 2 * |ds|)
  {
    hide Clear, Count, SumFree, SumFreeInodes, IsDir, InodeSlot, InodesIn, Span;
    var bs := img.blocks;
    assert forall g | 0 <= g < |ds| :: ds[g] == ReadDesc(bs, g);
  }

  lemma PaddedRaw(bs: seq<Block>, ds: Descriptors, ipg: nat, r: seq<Block>)
    requires Mapped(bs, ds) && Padded(bs, ds, ipg, |ds|, r) && forall i | 1024 < i < |bs| :: bs[i].Raw?
    ensures |r| == |bs| && forall i | 1024 < i < |r| :: r[i].Raw?
  {
    forall i | 1024 < i < |r| ensures r[i].Raw? {
      if g :| 0 <= g < |ds| && ds[g].inodeBitmap == i {
        assert r[ds[g].inodeBitmap] == Raw(Fill(InodeMap(bs, ds, g), ipg, 32768, true));
      }
    }
  }

  /** The descriptors a prefix of the table holds. */
  lemma FewerBlocks(bs: seq<Block>, groups: nat, d: nat)
    requires TableAt(bs, 1024) && d <= 1024 && groups <= 128 * d
    ensures TableAt(bs, d) && Descs(bs, groups, d) == Descs(bs, groups, 1024)
  {
  }

  lemma RawTables(bs: seq<Block>, ds: Descriptors, start: nat, q: nat)
    requires LaidOut(ds, start, q, |bs|) && 1024 < start && forall i | 1024 < i < |bs| :: bs[i].Raw?
    ensures TablesRaw(bs, ds, q)
  {
    hide Span;
    forall g, i | 0 <= g < |ds| && ds[g].inodeTable <= i < ds[g].inodeTable + q ensures i < |bs| && bs[i].Raw? {
      TableInSpan(g, |ds|, q);
    }
  }

  lemma PaddedSoundWith(bs: seq<Block>, ds: Descriptors, start: nat, q: nat, d: nat, ipg: nat, r: seq<Block>)
    requires Mapped(bs, ds) && Mapped(r, ds) && |r| == |bs| <= 32768 * |ds| && d <= 1024 < start && q == ipg / 16
    requires LaidOut(ds, start, q, |r|) && ipg <= 32768 && Counted(r, ds)
    requires MarksOut(bs, ds, d, start + Span(|ds|, q) + 2 * |ds|)
    requires forall g | 0 <= g < |ds| :: BlockMap(r, ds, g) == BlockMap(bs, ds, g)
    requires forall g | 0 <= g < |ds| :: InodeMap(r, ds, g) == Fill(InodeMap(bs, ds, g), ipg, 32768, true)
    requires forall i | 1024 < i < |r| :: r[i].Raw?
    ensures SoundWith(r, ds, d, ipg)
  {
    hide Span, Counted, Apart, TablesApart, MetaInUse;
    LaidOutApart(ds, start, q, |r|, d);
    assert MarksOut(r, ds, d, start + Span(|ds|, q) + 2 * |ds|);
    MarksMeta(r, ds, start, q, d);
    RawTables(r, ds, start, q);
    hide LaidOut, Mapped;
  }

  /** A converted image made writable as it comes is one Grow takes. */
  lemma WritableIsSound(img: Image, ds: Descriptors, r: seq<Block>)
    requires Converted(img) && ds == Descs(img.blocks, Groups(|img.blocks|), 1024) && Mapped(img.blocks, ds)
    requires Padded(img.blocks, ds, img.super.inodesPerGroup, |ds|, r)
    ensures Sound(Image(img.super.(readOnly := false), r))
  {
    hide Clear, Count, SumFree, SumFreeInodes, InodesIn, IsDir, InodeSlot, MarksOut, LaidOut, WriterLayout, Apart,
         TablesApart, SoundWith, Counted, Padded, Span;
    var bs, ipg, d := img.blocks, img.super.inodesPerGroup, DescriptorBlocks(Groups(|img.blocks|));
    var start, q := ds[0].inodeTable, ipg / 16;
    ConvertedParts(img, ds, start, q);
    LaidOutApart(ds, start, q, |bs|, 1024);
    PaddedDescs(bs, ds, 1024, ipg, |ds|, r);
    PaddedRaw(bs, ds, ipg, r);
    PaddedCounted(bs, r, ds, ipg);
    TableBound(|bs|);
    FewerBlocks(r, |ds|, d);
    PaddedSoundWith(bs, ds, start, q, d, ipg, r);
  }

  /** A wide image, whose layout nothing checks, is laid out as the writer lays it. */
  ghost predicate WideLaid(img: Image)
    requires Written(img)
  {
    var bs, ipg, groups := img.blocks, img.super.inodesPerGroup, Groups(|img.blocks|);
    ipg >= 8192 ==>
      ipg <= 32768 && WriterLayout(bs, groups, ipg / 16) && ReadDesc(bs, 0).blockBitmap + 2 * groups <= |bs|
  }

  /** What Writable needs of such an image. */
  lemma WideMapped(img: Image, ds: Descriptors)
    requires Written(img) && WideLaid(img) && img.super.inodesPerGroup >= 8192
    requires ds == Descs(img.blocks, Groups(|img.blocks|), 1024)
    ensures Mapped(img.blocks, ds) && Apart(ds, |img.blocks|, 1024)
  {
    hide Span;
    var start, q := ds[0].inodeTable, img.super.inodesPerGroup / 16;
    assert forall g | 0 <= g < |ds| :: ds[g] == ReadDesc(img.blocks, g);
    LaidOutApart(ds, start, q, |img.blocks|, 1024);
  }

  /** Make an image writable that is wide enough as it comes. */
  method KeepWide(f: File) returns (ok: bool)
    requires Written(f.Contents()) && WideLaid(f.Contents()) && f.super.inodesPerGroup >= 8192
    modifies f
    ensures ok <==> old(f.super).magic == 0xef53
    ensures !ok ==> f.Contents() == old(f.Contents())
    ensures ok ==> f.super == old(f.super).(readOnly := false)
    ensures ok && Converted(old(f.Contents())) ==> Sound(f.Contents())
  {
    hide Padded, Apart, Mapped, Converted, Sound;
    ghost var img := f.Contents();
    ghost var ds := Descs(f.blocks, Groups(|f.blocks|), 1024);
    WideMapped(img, ds);
    ok := Writable(f, ds, 1024);
    if ok && Converted(img) {
      WritableIsSound(img, ds, f.blocks);
    }
  }

  /** The rest of Write once the tree is laid down: widen, then make writable. What it leaves is an image Grow takes
      exactly when the tables it was given start low enough. */
  method FinishWrite(f: File) returns (r: Reservation, ok: bool)
    requires Written(f.Contents()) && WideLaid(f.Contents())
    modifies f
    ensures ok <==> old(f.super).magic == 0xef53 && ObstacleOf(old(f.Contents())) in {NoObstacle, Wide}
    ensures !ok && !r.Reserved? ==> f.Contents() == old(f.Contents())
    ensures ok ==> !f.super.readOnly && f.super.inodesPerGroup >= 8192
    ensures r.Reserved? ==> Planned(old(f.Contents()), r.plan) && f.super.inodesPerGroup == 8192
    ensures ok && r.Reserved? && WriterMarks(old(f.blocks)) ==> (Sound(f.Contents()) <==> StaysInTable(old(f.blocks)))
    ensures ok && !r.Reserved? ==> r.AlreadyWide? && (Converted(old(f.Contents())) ==> Sound(f.Contents()))
  {
    hide WidenedTo, Planned, Written, WriterLayout, SumFree, SumFreeInodes, SoundBlocks, WriterMarks, WideDescs,
         StaysInTable;
    ghost var bs, img := f.blocks, f.Contents();
    r := ReserveInodes(f);
    if r.AlreadyWide? {
      ok := KeepWide(f);
      return;
    }
    if !r.Reserved? {
      return r, false;
    }
    ghost var wide, p := f.blocks, r.plan;
    ghost var sb := f.super;
    hide Fresh;
    PlannedFresh(img, p);
    FreshNumbers(bs, p);
    FreshGroups(bs, p);
    ghost var ds := WideDescs(bs, p, p.groups);
    WideDescsRead(bs, p, wide, ds);
    WidePointersRead(bs, p);
    WideApart(p, ds, 1024);
    hide Apart, Mapped, Padded, WidePointers;
    ok := Writable(f, ds, 1024);
    if ok {
      WriteLeavesSound(bs, p, wide, f.blocks);
      if WriterMarks(bs) {
        WriteLeavesSoundIff(img, p, wide, f.blocks);
        if SoundBlocks(f.blocks, 8192) {
          WideTotals(old(f.super), p, f.blocks, sb.freeBlocks, sb.freeInodes, bs);
        }
      }
    }
  }

  lemma PlannedFresh(img: Image, p: Plan)
    requires Written(img) && Planned(img, p)
    ensures Fresh(img.blocks, p) && p.oldGroups == Groups(|img.blocks|) && p.table == img.super.inodesPerGroup / 16
  {
  }
}
