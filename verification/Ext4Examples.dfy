/** Images that show where the package's checks fall short, and that the invariant is one an image can meet. */
module Ext4Examples {

  import opened Bitmaps
  import opened Ext4Format
  import opened Ext4Layout
  import opened Ext4Growth
  import opened Ext4GrowthSound
  import opened Ext4Grow
  import opened Ext4Journal
  import opened Ext4JournalFile
  import opened Ext4Inodes
  import opened Ext4Write
  import opened Ext4

  function AllBits(): (b: Bits)
    ensures forall i | 0 <= i < 32768 :: b[i]
  {
    seq(32768, _ => true)
  }

  function Repeat(b: Block, n: nat): (s: seq<Block>)
    ensures |s| == n && forall i | 0 <= i < n :: s[i] == b
  {
    if n == 0 then [] else Repeat(b, n - 1) + [b]
  }

  // One full group.

  const SMALL_DESCRIPTOR := GroupDescriptor(2, 3, 4, 0, 0, 0, 0, 0, 0, 0, 0, 0)

  /** The smallest image of one group of ipg inodes: nothing in it is free. */
  function SmallBlocks(ipg: nat): (bs: seq<Block>)
    ensures |bs| == 4 + ipg / 16
    ensures bs[1].Table? && bs[1].descs[0] == SMALL_DESCRIPTOR && bs[2] == bs[3] == Raw(AllBits())
    ensures forall i | 0 <= i < |bs| && i != 1 :: bs[i].Raw?
  {
    var table: Block := Table(ZeroTable().descs[0 := SMALL_DESCRIPTOR]);
    [Raw(ZeroBits()), table, Raw(AllBits()), Raw(AllBits())] + Repeat(Raw(ZeroBits()), ipg / 16)
  }

  function SmallSuper(ipg: U32): SuperBlock
    requires ipg <= 32768
  {
    SuperBlock(0xef53, 2, 32768, ipg, 4 + ipg / 16, ipg, 0, 0, true, false, false, false, seq(128, _ => false), 8, 1,
               [])
  }

  lemma SmallNumbers(ipg: nat)
    requires 16 <= ipg <= 32768
    ensures Groups(4 + ipg / 16) == 1 && DescriptorBlocks(1) == 1 && InodesIn(1, ipg) == ipg
  {
  }

  lemma SmallDescs(ipg: nat)
    requires 16 <= ipg <= 32768
    ensures var bs := SmallBlocks(ipg);
            |bs| >= 1 && TableAt(bs, 1) && DescriptorBlocks(Groups(|bs|)) == 1 && Groups(|bs|) == 1
            && DescsOf(bs) == [SMALL_DESCRIPTOR]
  {
    hide SmallBlocks;
    SmallNumbers(ipg);
    var bs := SmallBlocks(ipg);
    assert ReadDesc(bs, 0) == SMALL_DESCRIPTOR;
  }

  lemma SmallMaps(bs: seq<Block>, ipg: nat)
    requires 16 <= ipg <= 32768 && bs == SmallBlocks(ipg)
    ensures var ds := [SMALL_DESCRIPTOR];
            Mapped(bs, ds) && BlockMap(bs, ds, 0) == AllBits() && InodeMap(bs, ds, 0) == AllBits() && Counted(bs, ds)
  {
    hide SmallBlocks, Clear;
    ClearAll(AllBits(), true);
  }

  /** With every bit set, everything is in use. */
  lemma SmallInUse(bs: seq<Block>, ipg: nat)
    requires 16 <= ipg <= 32768
    requires var ds := [SMALL_DESCRIPTOR];
             Mapped(bs, ds) && BlockMap(bs, ds, 0) == AllBits() && InodeMap(bs, ds, 0) == AllBits()
    ensures MetaInUse(bs, [SMALL_DESCRIPTOR], 1, TableBlocks(ipg)) && TailsSet(bs, [SMALL_DESCRIPTOR], ipg)
  {
    hide Mapped;
    var ds := [SMALL_DESCRIPTOR];
    forall i | 0 <= i < 32768 ensures InUse(bs, ds, i) {
      assert i / 32768 == 0 && i % 32768 == i;
    }
  }

  lemma SmallApart(bs: seq<Block>, ipg: nat)
    requires 16 <= ipg <= 32768 && ipg % 16 == 0 && bs == SmallBlocks(ipg)
    ensures Apart([SMALL_DESCRIPTOR], |bs|, 1) && TablesApart([SMALL_DESCRIPTOR], |bs|, 1, TableBlocks(ipg))
    ensures TablesRaw(bs, [SMALL_DESCRIPTOR], TableBlocks(ipg))
  {
    hide SmallBlocks;
  }

  lemma SmallSoundWith(bs: seq<Block>, ipg: nat)
    requires 16 <= ipg <= 32768 && ipg % 16 == 0 && bs == SmallBlocks(ipg)
    ensures SoundWith(bs, [SMALL_DESCRIPTOR], 1, ipg)
  {
    hide SmallBlocks, Mapped, Counted, MetaInUse, TailsSet, BlockMap, InodeMap, Apart, TablesApart, TablesRaw;
    SmallMaps(bs, ipg);
    SmallInUse(bs, ipg);
    SmallApart(bs, ipg);
  }

  /** The invariant can be met, for every share of inodes: the smallest image meets it. */
  lemma SmallIsSound(ipg: U32)
    requires 16 <= ipg <= 32768 && ipg % 16 == 0
    ensures Sound(Image(SmallSuper(ipg), SmallBlocks(ipg)))
  {
    hide SmallBlocks, SoundWith;
    SmallNumbers(ipg);
    SmallDescs(ipg);
    SmallSoundWith(SmallBlocks(ipg), ipg);
    assert SumFree([SMALL_DESCRIPTOR]) == 0 && SumFreeInodes([SMALL_DESCRIPTOR]) == 0 by {
      assert [SMALL_DESCRIPTOR][..0] == [];
    }
  }

  lemma SmallAccepts(ipg: U32)
    requires 8224 <= ipg <= 32768 && ipg % 16 == 0
    ensures var bs := SmallBlocks(ipg); SoundBlocks(bs, ipg) && |bs| <= 2052 && Accepts(bs, ipg, 32768 + 515)
  {
    hide SmallBlocks, SoundWith;
    var bs := SmallBlocks(ipg);
    SmallDescs(ipg);
    SmallSoundWith(bs, ipg);
    assert Groups(32768 + 515) == 2 && DescriptorBlocks(2) == 1 && LastGroupFits((32768 + 515) * 4096);
    assert Mapped(bs, [SMALL_DESCRIPTOR]) by { SmallMapped(bs, ipg); }
  }

  lemma SmallMapped(bs: seq<Block>, ipg: nat)
    requires SoundWith(bs, [SMALL_DESCRIPTOR], 1, ipg)
    ensures Mapped(bs, [SMALL_DESCRIPTOR])
  {
  }

  /** With any share past 8208 inodes the size check lets a growth through that breaks the invariant: to one group and
      515 blocks. */
  lemma ShortLastGroupBreaks(ipg: U32, img: Image, img': Image)
    requires 8224 <= ipg <= 32768 && ipg % 16 == 0 && img == Image(SmallSuper(ipg), SmallBlocks(ipg))
    ensures Sound(img) && |img.blocks| <= 2052 && Accepts(img.blocks, ipg, 32768 + 515)
    ensures GrewTo(img, 32768 + 515, img') ==> !Sound(img')
  {
    hide SmallBlocks, Sound, GrewTo, SoundBlocks, Accepts;
    SmallIsSound(ipg);
    SmallAccepts(ipg);
    assert Groups(32768 + 515) == 2 && !Fits(ipg, 32768 + 515) && Groups(|img.blocks|) == 1;
    if GrewTo(img, 32768 + 515, img') {
      GrewSoundIff(img, 32768 + 515, img');
    }
  }

  // Images as the converter lays them: every block in use, the tables end to end, then the bitmaps, up to the end.

  /** How an image is laid: its groups, the blocks of a group's table, where the tables start, the descriptor blocks it
      fills, and a group past the first whose first inode is a directory in use, if any. */
  datatype Shape = Shape(groups: nat, table: nat, start: nat, filled: nat, far: nat)

  function MapsAt(x: Shape): nat { x.start + Span(x.groups, x.table) }

  ghost predicate Lays(x: Shape) {
    && 1 <= x.table < 512 && 1 <= x.groups && x.groups * 32768 <= MAX_BLOCKS && x.far < x.groups
    && x.filled == DescriptorBlocks(x.groups) <= 1024 < x.start
    && MapsAt(x) + 2 * x.groups == x.groups * 32768
  }

  /** The inodes a group has in use: the reserved ones, the far directory, or none. */
  function UsedIn(x: Shape, g: nat): (n: nat)
    ensures n <= 11
  {
    if g == 0 then 11 else if g == x.far then 1 else 0
  }

  lemma TableBelow(x: Shape, g: nat)
    requires g < x.groups
    ensures Span(g, x.table) + x.table <= Span(x.groups, x.table)
  {
    MulMono(g + 1, x.groups, x.table);
  }

  ghost function LaidDesc(x: Shape, g: nat): (e: GroupDescriptor)
    requires Lays(x) && g < x.groups
  {
    TableBelow(x, g);
    GroupDescriptor(MapsAt(x) + 2 * g, MapsAt(x) + 2 * g + 1, x.start + Span(g, x.table),
                    if g == 0 then 1024 - x.filled else 0, 16 * x.table - UsedIn(x, g),
                    if g == 0 || g == x.far then 1 else 0, 0, 0, 0, 0, 0, 0)
  }

  /** Block i of the descriptor table, which the writer fills as far as there are groups. */
  ghost function LaidTable(x: Shape, i: nat): (b: Block)
    requires Lays(x) && i >= 1
    ensures b.Table?
  {
    Table(LaidSlots(x, 128 * (i - 1)))
  }

  ghost function LaidSlots(x: Shape, first: nat): (es: seq<GroupDescriptor>)
    requires Lays(x)
    ensures |es| == 128 && forall k | 0 <= k < 128 :: es[k] == LaidSlot(x, first + k)
  {
    hide Lays, LaidSlot;
    seq(128, k requires 0 <= k < 128 => LaidSlot(x, first + k))
  }

  ghost function LaidSlot(x: Shape, g: nat): (e: GroupDescriptor)
    requires Lays(x)
  {
    if g < x.groups then LaidDesc(x, g) else ZERO_DESCRIPTOR
  }

  /** The first group's bitmap: only the descriptor blocks past those filled are free. */
  function FirstMap(filled: nat): (m: Bits)
    ensures forall i | 0 <= i < 32768 :: m[i] == (i <= filled || i > 1024)
  {
    Fill(AllBits(), filled + 1, 1025, false)
  }

  /** The first n bits set. */
  function FirstBits(n: nat): (m: Bits)
    ensures forall i | 0 <= i < 32768 :: m[i] == (i < n)
  {
    Fill(ZeroBits(), 0, n, true)
  }

  /** A table block whose second inode, the root, has this mode. */
  function RootBlock(mode: nat): Bits {
    ZeroBits()[..2048] + ToBits(mode, 16) + ZeroBits()[2064..]
  }

  lemma RootIsDir(mode: nat)
    requires mode == 0x41ed
    ensures IsDir(InodeSlot(RootBlock(mode), 1))
  {
    hide ToBits, FromBits;
    Widths();
    FromTo(mode, 16);
    var b := RootBlock(mode);
    assert InodeSlot(b, 1)[..16] == b[2048..2064] == ToBits(mode, 16);
  }

  ghost function LaidBlock(x: Shape, mode: nat, i: nat): Block
    requires Lays(x)
  {
    if 1 <= i <= 1024 then LaidTable(x, i)
    else if i == x.start then Raw(RootBlock(mode))
    else if x.far > 0 && i == x.start + Span(x.far, x.table) then Raw(ModeBlock(mode))
    else if i < MapsAt(x) then Raw(ZeroBits())
    else
      var g := (i - MapsAt(x)) / 2;
      if (i - MapsAt(x)) % 2 == 1 then Raw(FirstBits(UsedIn(x, g)))
      else Raw(if g == 0 then FirstMap(x.filled) else AllBits())
  }

  ghost function LaidBlocks(x: Shape, mode: nat): (bs: seq<Block>)
    requires Lays(x)
    ensures |bs| == x.groups * 32768 && forall i | 0 <= i < |bs| :: bs[i] == LaidBlock(x, mode, i)
  {
    seq(x.groups * 32768, i requires 0 <= i < x.groups * 32768 => LaidBlock(x, mode, i))
  }

  ghost function LaidDescs(x: Shape): (ds: Descriptors)
    requires Lays(x)
    ensures |ds| == x.groups && forall g | 0 <= g < x.groups :: ds[g] == LaidDesc(x, g)
  {
    seq(x.groups, g requires 0 <= g < x.groups => LaidDesc(x, g))
  }

  /** The inodes in use, all groups together. */
  function AllUsed(x: Shape, groups: nat): nat {
    11 + if 0 < x.far < groups then 1 else 0
  }

  ghost function LaidSuper(x: Shape): SuperBlock
    requires Lays(x)
  {
    InodesBound(x.groups, 16 * x.table);
    LaidSums(x, x.groups);
    SuperBlock(0xef53, 2, 32768, 16 * x.table, x.groups * 32768, InodesIn(x.groups, 16 * x.table), 1024 - x.filled,
               InodesIn(x.groups, 16 * x.table) - AllUsed(x, x.groups), false, false, false, true,
               seq(128, _ => false), 0, 0, [])
  }

  ghost function LaidImage(x: Shape, mode: nat): Image
    requires Lays(x)
  {
    Image(LaidSuper(x), LaidBlocks(x, mode))
  }

  lemma {:induction false} LaidSums(x: Shape, n: nat)
    requires Lays(x) && 1 <= n <= x.groups
    ensures SumFree(LaidDescs(x)[..n]) == 1024 - x.filled
    ensures SumFreeInodes(LaidDescs(x)[..n]) + AllUsed(x, n) == InodesIn(n, 16 * x.table)
  {
    hide Lays, InodesIn, MapsAt;
    var ds := LaidDescs(x)[..n];
    assert ds[..n - 1] == LaidDescs(x)[..n - 1];
    InodesAdd(n - 1, 1, 16 * x.table);
    assert ds[n - 1] == LaidDesc(x, n - 1);
    if n == 1 {
      assert ds[..0] == [];
    } else {
      LaidSums(x, n - 1);
    }
  }

  /** The blocks past the descriptors hold bits. */
  lemma LaidRaw(x: Shape, mode: nat, i: nat)
    requires Lays(x) && 1024 < i
    ensures LaidBlock(x, mode, i).Raw?
  {
  }

  /** The bitmaps of group g. */
  lemma LaidMaps(x: Shape, mode: nat, g: nat)
    requires Lays(x) && g < x.groups
    ensures LaidBlock(x, mode, MapsAt(x) + 2 * g) == Raw(if g == 0 then FirstMap(x.filled) else AllBits())
    ensures LaidBlock(x, mode, MapsAt(x) + 2 * g + 1) == Raw(FirstBits(UsedIn(x, g)))
  {
    hide FirstMap, FirstBits, AllBits, RootBlock, ModeBlock, Span;
    TableBelow(x, x.far);
    TableBelow(x, 0);
    assert (2 * g) / 2 == g && (2 * g) % 2 == 0 && (2 * g + 1) / 2 == g && (2 * g + 1) % 2 == 1;
  }

  lemma LaidReads(x: Shape, mode: nat, bs: seq<Block>, g: nat)
    requires Lays(x) && bs == LaidBlocks(x, mode) && g < x.groups
    ensures HasDesc(bs, g) && ReadDesc(bs, g) == LaidDesc(x, g)
  {
    hide LaidDesc, MapsAt;
    var i := 1 + g / 128;
    assert 1 <= i <= 1024 && i < |bs|;
    assert bs[i] == LaidTable(x, i);
    assert 128 * (i - 1) + g % 128 == g;
    assert LaidTable(x, i).descs[g % 128] == LaidSlot(x, g);
  }

  lemma LaidTableAt(x: Shape, mode: nat, bs: seq<Block>)
    requires Lays(x) && bs == LaidBlocks(x, mode)
    ensures TableAt(bs, 1024) && x.groups <= 128 * 1024 && Descs(bs, x.groups, 1024) == LaidDescs(x)
    ensures forall i | 1024 < i < |bs| :: bs[i].Raw?
  {
    hide LaidDesc, LaidBlocks;
    forall i | 1 <= i <= 1024 ensures i < |bs| && bs[i].Table? {
      assert LaidBlock(x, mode, i) == LaidTable(x, i);
    }
    forall i | 1024 < i < |bs| ensures bs[i].Raw? {
      LaidRaw(x, mode, i);
    }
    forall g | 0 <= g < x.groups ensures Descs(bs, x.groups, 1024)[g] == LaidDescs(x)[g] {
      LaidReads(x, mode, bs, g);
    }
  }

  lemma LaidMapped(x: Shape, mode: nat, bs: seq<Block>, ds: Descriptors)
    requires Lays(x) && bs == LaidBlocks(x, mode) && ds == LaidDescs(x)
    ensures Mapped(bs, ds)
    ensures forall g | 0 <= g < x.groups ::
              BlockMap(bs, ds, g) == (if g == 0 then FirstMap(x.filled) else AllBits())
              && InodeMap(bs, ds, g) == FirstBits(UsedIn(x, g))
  {
    hide LaidBlocks, FirstMap, FirstBits, AllBits, LaidBlock, MapsAt;
    forall g | 0 <= g < x.groups
      ensures ds[g].blockBitmap < |bs| && ds[g].inodeBitmap < |bs|
      ensures bs[ds[g].blockBitmap] == Raw(if g == 0 then FirstMap(x.filled) else AllBits())
      ensures bs[ds[g].inodeBitmap] == Raw(FirstBits(UsedIn(x, g)))
    {
      LaidMaps(x, mode, g);
    }
  }

  lemma LaidLayout(x: Shape, mode: nat, bs: seq<Block>)
    requires Lays(x) && bs == LaidBlocks(x, mode)
    ensures TableAt(bs, 1024) && x.groups <= 128 * 1024 && WriterLayout(bs, x.groups, x.table)
  {
    LaidTableAt(x, mode, bs);
    hide LaidBlocks, LaidTable, TableAt, Span;
    forall g | 0 <= g < x.groups ensures ReadDesc(bs, g) == LaidDesc(x, g) {
      LaidReads(x, mode, bs, g);
    }
    assert Span(0, x.table) == 0 by { NoSpan(x.table); }
  }

  lemma NoSpan(q: nat)
    ensures Span(0, q) == 0
  {
  }

  lemma {:induction false} FirstMapCounts(m: Bits, all: Bits, filled: nat)
    requires filled <= 1024 && m == FirstMap(filled) && all == AllBits()
    ensures Clear(m) == 1024 - filled && Clear(all) == 0
  {
    ClearAll(all, true);
    assert Fill(m, filled + 1, 1025, true) == all;
    ClearClaim(m, filled + 1, 1025);
  }

  /** Of the first w bits those below n are set. */
  lemma {:induction false} FirstBitsCount(m: Bits, n: nat, w: nat, zero: Bits)
    requires n <= w <= 32768 && (forall i | 0 <= i < 32768 :: m[i] == (i < n))
             && (forall i | 0 <= i < 32768 :: !zero[i])
    ensures Count(m[..w]) == n
  {
    ClearAll(zero, false);
    ClearClaim(zero, 0, n);
    assert m == Fill(zero, 0, n, true);
    ClearClaim(m, w, 32768);
    PaddedClear(m, w);
  }

  lemma {:induction false} LaidCounts(x: Shape, g: nat, blockMap: Bits, inodeMap: Bits)
    requires Lays(x) && g < x.groups && blockMap == (if g == 0 then FirstMap(x.filled) else AllBits())
    requires inodeMap == FirstBits(UsedIn(x, g))
    ensures LaidDesc(x, g).freeBlocks == Clear(blockMap)
    ensures LaidDesc(x, g).freeInodes == 16 * x.table - Count(inodeMap[..16 * x.table])
  {
    hide Clear, Count, MapsAt, Span;
    FirstMapCounts(FirstMap(x.filled), AllBits(), x.filled);
    FirstBitsCount(inodeMap, UsedIn(x, g), 16 * x.table, ZeroBits());
  }

  lemma LaidEntries(x: Shape, mode: nat, bs: seq<Block>, ds: Descriptors)
    requires Lays(x) && bs == LaidBlocks(x, mode) && ds == LaidDescs(x) && Mapped(bs, ds)
    ensures forall g | 0 <= g < x.groups ::
              ds[g].freeBlocks == Clear(BlockMap(bs, ds, g))
              && ds[g].freeInodes == 16 * x.table - Count(InodeMap(bs, ds, g)[..16 * x.table])
    ensures forall k | 0 <= k < 11 :: InodeMap(bs, ds, 0)[k]
  {
    hide LaidBlocks, Clear, Count, BlockMap, InodeMap, Mapped, FirstMap, AllBits, FirstBits, LaidDesc, MapsAt;
    LaidMapped(x, mode, bs, ds);
    forall g | 0 <= g < x.groups
      ensures ds[g].freeBlocks == Clear(BlockMap(bs, ds, g))
      ensures ds[g].freeInodes == 16 * x.table - Count(InodeMap(bs, ds, g)[..16 * x.table])
    {
      LaidCounts(x, g, BlockMap(bs, ds, g), InodeMap(bs, ds, g));
    }
  }

  /** Everything is in use but the descriptor blocks not filled. */
  lemma LaidMarked(x: Shape, mode: nat, bs: seq<Block>, ds: Descriptors)
    requires Lays(x) && bs == LaidBlocks(x, mode) && ds == LaidDescs(x) && Mapped(bs, ds)
    ensures forall g, j | 0 <= g < x.groups && 0 <= j < 32768 ::
              var b := g * 32768 + j;
              BlockMap(bs, ds, g)[j] <==> b <= x.filled || 1024 < b < x.groups * 32768 || b >= |bs|
  {
    hide LaidBlocks, BlockMap, InodeMap, Mapped, LaidDesc, MapsAt;
    LaidMapped(x, mode, bs, ds);
  }

  lemma LaidNumbers(x: Shape)
    requires Lays(x)
    ensures Groups(x.groups * 32768) == x.groups && 16 * x.table / 16 == x.table
    ensures LaidDesc(x, 0).inodeTable == x.start && LaidDesc(x, 0).blockBitmap + 2 * x.groups == x.groups * 32768
  {
    NoSpan(x.table);
    hide Span;
  }

  /** Such an image is one the converter could leave. */
  lemma LaidIsConverted(x: Shape, mode: nat)
    requires Lays(x) && mode == 0x41ed
    ensures Converted(LaidImage(x, mode))
  {
    hide LaidBlocks, Clear, Count, SumFree, SumFreeInodes, IsDir, InodeSlot, BlockMap, InodeMap, Mapped, RootBlock,
         WriterLayout, LaidDescs, LaidDesc, Groups, DescriptorBlocks, InodesIn, Descs, TableAt;
    var img, ds := LaidImage(x, mode), LaidDescs(x);
    var bs := img.blocks;
    LaidTableAt(x, mode, bs);
    LaidMapped(x, mode, bs, ds);
    LaidLayout(x, mode, bs);
    LaidMarked(x, mode, bs, ds);
    LaidEntries(x, mode, bs, ds);
    LaidNumbers(x);
    LaidSums(x, x.groups);
    LaidReads(x, mode, bs, 0);
    LaidRoot(x, mode, bs);
    RootIsDir(mode);
    assert ds[..x.groups] == ds;
  }

  lemma LaidRoot(x: Shape, mode: nat, bs: seq<Block>)
    requires Lays(x) && bs == LaidBlocks(x, mode)
    ensures x.start < |bs| && bs[x.start] == Raw(RootBlock(mode))
  {
    hide RootBlock;
  }

  /** The plan's numbers are those of a widening of the shape. */
  ghost predicate Widens(x: Shape, p: Plan)
    requires Lays(x)
  {
    && p == Plan(x.start, x.table, x.groups, p.groups, MetaEnd(x.start, p.groups), MetaEnd(x.start, p.groups))
    && x.groups <= p.groups == Groups(p.blocks) && x.groups * 32768 <= p.blocks <= MAX_BLOCKS
    && forall h | x.groups <= h < p.groups :: !Covers(x.start, x.groups * 32768, h)
  }

  lemma LaidPlanned(x: Shape, mode: nat, p: Plan)
    requires Lays(x) && p.blocks >= 1 && Widens(x, p)
    ensures Written(LaidImage(x, mode)) && Planned(LaidImage(x, mode), p)
  {
    hide LaidBlocks, LaidDesc, Covers, Span, InodesIn;
    var bs := LaidBlocks(x, mode);
    LaidTableAt(x, mode, bs);
    LaidReads(x, mode, bs, 0);
    LaidNumbers(x);
  }

  // A widening that opens a descriptor block.

  /** Tables that start too high for the descriptor blocks filled. */
  predicate TooHigh(x: Shape) {
    x.start > 128 * (32768 - 514) * x.filled
  }

  lemma TooHighLeavesTable(x: Shape, mode: nat, bs: seq<Block>)
    requires Lays(x) && bs == LaidBlocks(x, mode)
    ensures |bs| >= 1 && HasDesc(bs, 0) && (StaysInTable(bs) <==> !TooHigh(x))
  {
    hide LaidBlocks, LaidDesc;
    LaidReads(x, mode, bs, 0);
    LaidNumbers(x);
  }

  /** Of every image so laid whose tables start too high for the descriptor blocks it fills, the widening opens one that
      nothing marks: what Write leaves of it is not sound. */
  lemma WideningLeavesBlockUnmarked(x: Shape, p: Plan, mode: nat, img: Image, r: seq<Block>, r': seq<Block>)
    requires Lays(x) && p.blocks >= 1 && Widens(x, p) && TooHigh(x) && mode == 0x41ed && img == LaidImage(x, mode)
    ensures Written(img) && Planned(img, p) && Converted(img)
    ensures WidenedTo(img.blocks, p, p.groups, r) ==> Mapped(r, WideDescs(img.blocks, p, p.groups)) ==>
              Padded(r, WideDescs(img.blocks, p, p.groups), 8192, p.groups, r') ==> !SoundBlocks(r', 8192)
  {
    hide LaidBlocks, WidenedTo, WideDescs, Padded, Mapped, SoundBlocks, Converted, WriterMarks, WriterLayout, Lays,
         Widens, Planned, Written, StaysInTable;
    LaidIsConverted(x, mode);
    LaidPlanned(x, mode, p);
    ConvertedMarks(img);
    LaidLayout(x, mode, img.blocks);
    TooHighLeavesTable(x, mode, img.blocks);
    PlannedFresh(img, p);
    LaidNumbers(x);
    if WidenedTo(img.blocks, p, p.groups, r) && Mapped(r, WideDescs(img.blocks, p, p.groups)) {
      if Padded(r, WideDescs(img.blocks, p, p.groups), 8192, p.groups, r') {
        WriteLeavesSoundIff(img, p, r, r');
      }
    }
  }

  /** There is such an image: a hundred and twenty-eight groups with one block of inodes each. */
  const BIG := Shape(128, 1, 4193920, 1, 0)
  const BIG_PLAN := Plan(4193920, 1, 128, 131, 4261254, 4261254)

  lemma BigIsTooHigh()
    ensures Lays(BIG) && Widens(BIG, BIG_PLAN) && TooHigh(BIG)
  {
    assert Groups(4194304) == 128 && DescriptorBlocks(128) == 1 && Groups(4261254) == 131;
  }

  // A directory past inode 2^24.

  /** Four thousand and ninety-seven groups with 256 blocks of inodes each, and a directory that is inode 2^24. */
  const FAR := Shape(4097, 256, 133193470, 33, 4096)
  const FAR_PLAN := Plan(133193470, 256, 4097, 4130, 135316290, 135316290)

  lemma FarNumbers()
    ensures Lays(FAR) && Widens(FAR, FAR_PLAN) && Span(4096, 256) == 0x10_0000 && Span(4097, 256) == 0x10_0100
  {
    assert Groups(135316290) == 4130 && DescriptorBlocks(4097) == 33;
  }

  lemma FarIsConverted(x: Shape, p: Plan, mode: nat)
    requires x == FAR && p == FAR_PLAN && mode == 0x41ed
    ensures Lays(x) && Converted(LaidImage(x, mode))
    ensures Written(LaidImage(x, mode)) && Planned(LaidImage(x, mode), p)
  {
    hide Lays, Widens, LaidImage, Converted;
    FarNumbers();
    LaidIsConverted(x, mode);
    LaidPlanned(x, mode, p);
  }

  /** Of the inodes from 2^24 on only the first is in use. */
  lemma FarUsed(x: Shape, p: Plan, mode: nat, bs: seq<Block>, j: nat)
    requires x == FAR && p == FAR_PLAN && Lays(x) && bs == LaidBlocks(x, mode) && Fresh(bs, p) && j < 8192
    ensures OldUsed(bs, p, 0x100_0000 + j) <==> j == 0
  {
    hide LaidBlocks, LaidBlock, FirstBits, Lays;
    var ino := 0x100_0000 + j;
    FarNumbers();
    if ino / 16 < 0x10_0100 {
      assert GroupOf(ino, 4096) == 4096 && IndexIn(ino, 4096) == j;
      LaidMaps(x, mode, 4096);
    }
  }

  lemma FarModes(x: Shape, p: Plan, mode: nat, bs: seq<Block>)
    requires x == FAR && p == FAR_PLAN && Lays(x) && bs == LaidBlocks(x, mode) && Fresh(bs, p) && mode == 0x41ed
    ensures IsInode(p, 0) && !IsDir(OldInode(bs, p, 0))
    ensures IsInode(p, 0x100_0000) && IsDir(OldInode(bs, p, 0x100_0000))
  {
    hide RootBlock, ModeBlock, IsDir, InodeSlot, Lays, Fresh;
    FarNumbers();
    LaidRoot(x, mode, bs);
    FirstIsEmpty(mode);
    assert bs[133193470 + 0x10_0000] == Raw(ModeBlock(mode)) by { FarBlock(x, mode, bs); }
    assert IsDir(InodeSlot(ModeBlock(mode), 0)) by { ModeBlockReads(mode); ModeIsDir(mode); }
  }

  lemma FarBlock(x: Shape, mode: nat, bs: seq<Block>)
    requires x == FAR && Lays(x) && bs == LaidBlocks(x, mode)
    ensures 133193470 + 0x10_0000 < |bs| && bs[133193470 + 0x10_0000] == Raw(ModeBlock(mode))
  {
    hide ModeBlock, RootBlock;
    FarNumbers();
  }

  lemma ModeIsDir(mode: nat)
    requires mode == 0x41ed && Mode(InodeSlot(ModeBlock(mode), 0)) == mode
    ensures IsDir(InodeSlot(ModeBlock(mode), 0))
  {
    hide ModeBlock, InodeSlot, Mode;
  }

  /** The block of the root has nothing in its first slot. */
  lemma FirstIsEmpty(mode: nat)
    ensures !IsDir(InodeSlot(RootBlock(mode), 0))
  {
    var s := InodeSlot(RootBlock(mode), 0)[..16];
    assert s == ZeroBits()[..16];
    FromZeros(s);
  }

  /** Widening this image leaves a group descriptor that counts no directory where there is one. */
  lemma DirectoryGoesUncounted(x: Shape, p: Plan, mode: nat, img: Image)
    requires x == FAR && p == FAR_PLAN && mode == 0x41ed && Lays(x) && img == LaidImage(x, mode)
    ensures Converted(img) && Planned(img, p) && Fresh(img.blocks, p)
    ensures WideDesc(img.blocks, p, 2048).usedDirs == 0 < Count(DirsOf(img.blocks, p, 2048))
  {
    hide LaidBlocks, Fresh, Lays, OldUsed, IsInode, OldInode, IsDir, Count, Converted, Planned, Written;
    var bs := img.blocks;
    FarIsConverted(x, p, mode);
    PlannedFresh(img, p);
    FarModes(x, p, mode, bs);
    var wide, dirs := WideDirs(bs, p, 2048), DirsOf(bs, p, 2048);
    forall j | 0 <= j < 8192 ensures !wide[j] {
      FarUsed(x, p, mode, bs, j);
    }
    CountNone(wide);
    FarUsed(x, p, mode, bs, 0);
    CountSome(dirs, 0);
  }
}
