/** Growing an image as a whole: what it refuses, what it keeps, and that the way there does not matter. */
module Ext4 {
  import opened Bitmaps
  import opened Ext4Format
  import opened Ext4Layout
  import opened Ext4Growth
  import opened Ext4GrowthSound
  import opened Ext4Grow
  import opened Ext4Journal
  import opened Ext4JournalFile
  import opened Ext4PathIndependence

  const MAX_DISK_SIZE: nat := 0x1000_0000_0000 - 32768 * 4096

  datatype Refusal =
    | NotWholeBlocks
    | PastMaximum
    | NotOurs
    | Smaller
    | NeedsRecovery
    | NoGroups(why: Added)
    | NoJournal(cause: JournalOutcome)

  datatype Growth = Done | Refused(why: Refusal)

  /** An image this package wrote. */
  predicate Ours(sb: SuperBlock) {
    sb.magic == 0xef53 && sb.logBlockSize == 2 && sb.blocksPerGroup == 32768
  }

  /** img' is img grown to N blocks by adding groups alone. */
  ghost predicate GrewTo(img: Image, N: nat, img': Image)
    requires SoundBlocks(img.blocks, img.super.inodesPerGroup) && |img.blocks| <= N <= MAX_BLOCKS
  {
    if N == |img.blocks| then img' == img
    else
      var ipg, free := img.super.inodesPerGroup, img'.super.freeBlocks;
      && GrownTo(img.blocks, ipg, N, img'.blocks)
      && free == SumClear(GrownMaps(img.blocks, ipg, N))
      && img'.super == GrownSuper(img.super, N, Groups(|img.blocks|), Groups(N), free)
  }

  /** The last group of an image grown from n blocks to N is an old one, or has room for its metadata. */
  predicate Roomy(ipg: nat, n: nat, N: nat)
    requires n >= 1 && N >= 1
  {
    Fits(ipg, N) || Groups(N) == Groups(n)
  }

  /** With at most 8192 inodes a group, the checks accept no size without that room. */
  lemma SmallGroupsRoomy(ipg: nat, n: nat, N: nat)
    requires ipg <= 8192 && 1 <= n <= N && (Groups(N) > Groups(n) ==> LastGroupFits(N * 4096))
    ensures Roomy(ipg, n, N)
  {
    assert N * 4096 / 4096 == N;
  }

  /** The totals of a grown descriptor list, which 32 bits hold. */
  lemma {:induction false} GrownSums(ds: Descriptors, ds': Descriptors, maps: seq<Bits>, ipg: nat)
    requires |ds| <= |ds'| == |maps| < 0x2_0000 && ipg <= 32768
    requires forall g | 0 <= g < |ds| :: ds[g].freeBlocks <= 32768 && ds[g].freeInodes <= 32768
    requires forall g | 0 <= g < |ds'| :: ds'[g].freeBlocks == Clear(maps[g])
    requires forall g | 0 <= g < |ds'| :: ds'[g].freeInodes == if g < |ds| then ds[g].freeInodes else ipg
    ensures SumFree(ds') == SumClear(maps) < 0x1_0000_0000
    ensures SumFreeInodes(ds') == SumFreeInodes(ds) + InodesIn(|maps| - |ds|, ipg) < 0x1_0000_0000
    ensures InodesIn(|maps|, ipg) < 0x1_0000_0000 && InodesIn(|maps| - |ds|, ipg) < 0x1_0000_0000
  {
    hide InodesIn, SumFree, SumFreeInodes, SumClear, Clear;
    SumFreeMaps(ds', maps);
    SumClearBound(maps);
    SumFreeInodesGrown(ds, ds', ipg);
    SumFreeBound(ds);
    InodesBound(|maps| - |ds|, ipg);
    InodesBound(|maps|, ipg);
  }

  /** The totals of a grown superblock are those of the grown descriptors. */
  lemma {:induction false} GrownTotals(bs: seq<Block>, ds: Descriptors, d: nat, ipg: nat, d': nat, maps: seq<Bits>,
                                       r: seq<Block>, ds': Descriptors)
    requires TableAt(bs, d) && |ds| <= |maps| < 0x2_0000 && |ds| <= 128 * d && ipg <= 32768
    requires Grows(bs, ds, d, ipg, d', maps, r) && ds' == Descs(r, |maps|, d')
    requires Mapped(bs, ds) && Counted(bs, ds)
    ensures SumFree(ds') == SumClear(maps) < 0x1_0000_0000
    ensures SumFreeInodes(ds') == SumFreeInodes(ds) + InodesIn(|maps| - |ds|, ipg) < 0x1_0000_0000
    ensures InodesIn(|maps|, ipg) < 0x1_0000_0000 && InodesIn(|maps| - |ds|, ipg) < 0x1_0000_0000
  {
    forall g | 0 <= g < |maps|
      ensures ds'[g].freeBlocks == Clear(maps[g]) && ds'[g].freeInodes == if g < |ds| then ds[g].freeInodes else ipg
    {
      assert ds'[g] == ReadDesc(r, g) == SlotOf(bs, ds, d, ipg, maps, g);
    }
    hide Grows;
    GrownSums(ds, ds', maps, ipg);
  }

  /** Growing by groups keeps the accounting invariant whenever the last group has room for its metadata. */
  lemma GrewSound(img: Image, N: nat, img': Image)
    requires Sound(img) && |img.blocks| <= N <= MAX_BLOCKS && Claimable(img.blocks, img.super.inodesPerGroup, N)
             && GrewTo(img, N, img')
    requires Roomy(img.super.inodesPerGroup, |img.blocks|, N)
    ensures Sound(img')
  {
    hide SoundBlocks, GrownTo, GrownMaps, Add32, InodesIn, InodesIn32, SumFree, SumFreeInodes, SumClear, Claimable;
    if N == |img.blocks| {
      return;
    }
    GrownSound(img.blocks, img.super.inodesPerGroup, N, img'.blocks);
    TotalsOf(img.blocks, img.super.inodesPerGroup, N, img'.blocks);
  }

  lemma TotalsOf(bs: seq<Block>, ipg: nat, N: nat, r: seq<Block>)
    requires SoundBlocks(bs, ipg) && |bs| <= N <= MAX_BLOCKS && GrownTo(bs, ipg, N, r)
    ensures |r| == N && TableAt(r, DescriptorBlocks(Groups(|r|)))
    ensures SumFree(DescsOf(r)) == SumClear(GrownMaps(bs, ipg, N)) < 0x1_0000_0000
    ensures SumFreeInodes(DescsOf(r)) == SumFreeInodes(DescsOf(bs)) + InodesIn(Groups(N) - Groups(|bs|), ipg) <
              0x1_0000_0000
    ensures InodesIn(Groups(N), ipg) < 0x1_0000_0000 && InodesIn(Groups(N) - Groups(|bs|), ipg) < 0x1_0000_0000
  {
    TableBound(N);
    GrownTotals(bs, DescsOf(bs), DescriptorBlocks(Groups(|bs|)), ipg, DescriptorBlocks(Groups(N)),
                GrownMaps(bs, ipg, N), r, DescsOf(r));
  }

  /** And only then: a last group too short for its table breaks the layout, so the room is exactly what the invariant
      needs. */
  lemma GrewSoundIff(img: Image, N: nat, img': Image)
    requires Sound(img) && Accepts(img.blocks, img.super.inodesPerGroup, N) && GrewTo(img, N, img')
    ensures Sound(img') <==> Roomy(img.super.inodesPerGroup, |img.blocks|, N)
  {
    if Roomy(img.super.inodesPerGroup, |img.blocks|, N) {
      GrewSound(img, N, img');
    } else if Sound(img') {
      ShortTable(img.blocks, img.super.inodesPerGroup, N, img'.blocks);
    }
  }

  lemma ShortTable(bs: seq<Block>, ipg: nat, N: nat, r: seq<Block>)
    requires SoundBlocks(bs, ipg) && |bs| < N <= MAX_BLOCKS && GrownTo(bs, ipg, N, r)
    requires !Fits(ipg, N) && Groups(N) > Groups(|bs|)
    ensures !SoundBlocks(r, ipg)
  {
    hide SoundBlocks, GrownTo, Descs, TableAt;
    var g := Groups(N) - 1;
    NewTableAt(bs, ipg, N, r, g);
    TableOutside(r, ipg, g);
  }

  /** A new group's inode table is behind its two bitmaps. */
  lemma NewTableAt(bs: seq<Block>, ipg: nat, N: nat, r: seq<Block>, g: nat)
    requires SoundBlocks(bs, ipg) && |bs| < N <= MAX_BLOCKS && GrownTo(bs, ipg, N, r) && Groups(|bs|) <= g < Groups(N)
    ensures |r| == N && TableAt(r, DescriptorBlocks(Groups(|r|))) && DescsOf(r)[g].inodeTable == g * 32768 + 2
  {
    hide SoundWith, GrowMaps;
    TableBound(N);
    assert ReadDesc(r, g) == SlotOf(bs, DescsOf(bs), DescriptorBlocks(Groups(|bs|)), ipg, GrownMaps(bs, ipg, N), g);
  }

  lemma TableInside(bs: seq<Block>, ipg: nat, g: nat)
    requires SoundBlocks(bs, ipg) && g < Groups(|bs|)
    ensures DescsOf(bs)[g].inodeTable + TableBlocks(ipg) <= |bs|
  {
    hide Counted, MetaInUse, TailsSet, TablesRaw, Mapped, Apart;
  }

  /** The size check is enough for exactly the shares whose table takes at most 513 blocks. */
  lemma LastGroupCheckIff(ipg: nat)
    ensures (forall N: nat | N > 32768 && LastGroupFits(N * 4096) :: Fits(ipg, N)) <==> TableBlocks(ipg) <= 513
  {
    if TableBlocks(ipg) <= 513 {
      forall N: nat | N > 32768 && LastGroupFits(N * 4096) ensures Fits(ipg, N) {
        assert N * 4096 / 4096 == N;
      }
    } else {
      assert LastGroupFits((32768 + 515) * 4096) && !Fits(ipg, 32768 + 515);
    }
  }

  // Two growths in a row.

  /** A size the checks accept of the image grown to a, they accept of the image itself. */
  lemma AcceptsTwice(n: nat, a: nat, b: nat)
    requires 1 <= n <= a <= b
    requires Groups(a) > Groups(n) ==> LastGroupFits(a * 4096)
    requires Groups(b) > Groups(a) ==> LastGroupFits(b * 4096)
    ensures Groups(b) > Groups(n) ==> LastGroupFits(b * 4096)
  {
    FitsBySize(a);
    FitsBySize(b);
    hide LastGroupFits;
  }

  /** The size check looks at how much of the last group the disk has. */
  lemma FitsBySize(n: nat)
    requires n >= 1
    ensures LastGroupFits(n * 4096) <==> n <= 32768 || n - (Groups(n) - 1) * 32768 > 514
  {
    assert n * 4096 / 4096 == n;
    var g, t := n / 32768, n % 32768;
    assert n == g * 32768 + t;
    assert Groups(n) == if t == 0 then g else g + 1;
  }

  /** The superblock of two growths is the superblock of one. */
  lemma SuperTwice(sb: SuperBlock, a: U32, b: U32, groups: U32, groupsA: U32, groupsB: U32, freeA: U32, free: U32)
    requires groups <= groupsA <= groupsB < 0x2_0000 && sb.inodesPerGroup <= 32768 && sb.freeInodes <= 32768 * groups
    ensures GrownSuper(GrownSuper(sb, a, groups, groupsA, freeA), b, groupsA, groupsB, free) ==
              GrownSuper(sb, b, groups, groupsB, free)
  {
    var ipg := sb.inodesPerGroup;
    InodesAdd(groupsA - groups, groupsB - groupsA, ipg);
    InodesBound(groupsB - groups, ipg);
    InodesBound(groupsA - groups, ipg);
    InodesBound(groupsB - groupsA, ipg);
    hide InodesIn;
  }

  lemma FreeInodesBound(img: Image)
    requires Sound(img)
    ensures img.super.freeInodes <= 32768 * Groups(|img.blocks|)
  {
    SumFreeBound(DescsOf(img.blocks));
  }

  /** The description of a growth has one image that meets it. */
  lemma GrewToUnique(img: Image, N: nat, x: Image, y: Image)
    requires Sound(img) && |img.blocks| <= N <= MAX_BLOCKS && GrewTo(img, N, x) && GrewTo(img, N, y)
    ensures x == y
  {
    hide SoundBlocks, GrownTo, GrownMaps, SumClear;
    if N > |img.blocks| {
      SameBlocks(img.blocks, img.super.inodesPerGroup, N, x.blocks, y.blocks);
    }
  }

  /** Two growths in a row are one. */
  lemma GrewTwice(img: Image, a: nat, b: nat, mid: Image, end: Image)
    requires Sound(img)
    requires Accepts(img.blocks, img.super.inodesPerGroup, a) && GrewTo(img, a, mid)
    requires Sound(mid) && Accepts(mid.blocks, mid.super.inodesPerGroup, b) && GrewTo(mid, b, end)
    ensures Accepts(img.blocks, img.super.inodesPerGroup, b) && GrewTo(img, b, end)
  {
    hide SoundBlocks, GrownTo, GrownMaps, SumClear, Claimable, InodesIn32, Add32;
    if a == |img.blocks| {
      return;
    }
    var ipg := img.super.inodesPerGroup;
    GrownLength(img.blocks, ipg, a, mid.blocks);
    if b == a {
      return;
    }
    AcceptsTwice(|img.blocks|, a, b);
    GrewSoundIff(img, a, mid);
    GrownTwice(img.blocks, ipg, a, b, mid.blocks, end.blocks);
    SameMaps(img.blocks, ipg, a, b, mid.blocks);
    SuperGrewTwice(img, a, b, mid.super, end.super);
  }

  /** Growth is path-independent: whenever growing to a and then to b both go through, growing straight to b does too,
      and leaves the same image, every bitmap, descriptor, block and superblock field of it. */
  lemma GrowthIsPathIndependent(img: Image, a: nat, b: nat, mid: Image, end: Image, direct: Image)
    requires Sound(img)
    requires Accepts(img.blocks, img.super.inodesPerGroup, a) && GrewTo(img, a, mid)
    requires Sound(mid) && Accepts(mid.blocks, mid.super.inodesPerGroup, b) && GrewTo(mid, b, end)
    ensures Accepts(img.blocks, img.super.inodesPerGroup, b)
    ensures GrewTo(img, b, direct) <==> direct == end
  {
    GrewTwice(img, a, b, mid, end);
    if GrewTo(img, b, direct) {
      GrewToUnique(img, b, direct, end);
    }
  }

  lemma SuperGrewTwice(img: Image, a: U32, b: U32, mid: SuperBlock, end: SuperBlock)
    requires Sound(img) && |img.blocks| <= a <= b <= MAX_BLOCKS
    requires mid == GrownSuper(img.super, a, Groups(|img.blocks|), Groups(a), mid.freeBlocks)
    requires end == GrownSuper(mid, b, Groups(a), Groups(b), end.freeBlocks)
    ensures end == GrownSuper(img.super, b, Groups(|img.blocks|), Groups(b), end.freeBlocks)
  {
    FreeInodesBound(img);
    TableBound(b);
    assert img.super.inodesPerGroup <= 32768;
    hide SoundBlocks, GrownSuper;
    SuperTwice(img.super, a, b, Groups(|img.blocks|), Groups(a), Groups(b), mid.freeBlocks, end.freeBlocks);
  }

  lemma GrownLength(bs: seq<Block>, ipg: nat, N: nat, r: seq<Block>)
    requires SoundBlocks(bs, ipg) && |bs| <= N <= MAX_BLOCKS && GrownTo(bs, ipg, N, r)
    ensures |r| == N && |bs| >= 1
  {
  }

  lemma SameMaps(bs: seq<Block>, ipg: nat, a: nat, b: nat, r1: seq<Block>)
    requires SoundBlocks(bs, ipg) && |bs| <= a <= b <= MAX_BLOCKS
    requires Fits(ipg, a) || Groups(a) == Groups(|bs|)
    requires Claimable(bs, ipg, a) && GrownTo(bs, ipg, a, r1) && SoundBlocks(r1, ipg) && Claimable(r1, ipg, b)
    ensures GrownMaps(r1, ipg, b) == GrownMaps(bs, ipg, b)
  {
    FirstStep(bs, ipg, a, r1);
    FitsEveryGroup(|bs|, a, ipg);
    TableBound(b);
    assert DescriptorBlocks(Groups(b)) < DescsOf(bs)[0].blockBitmap < |bs|;
    hide SoundWith, Claimable, Grows;
    MapsTwice(Maps(bs, DescsOf(bs)), ipg, |bs|, a, b);
  }

  lemma SameBlocks(bs: seq<Block>, ipg: nat, N: nat, r: seq<Block>, s: seq<Block>)
    requires SoundBlocks(bs, ipg) && |bs| <= N <= MAX_BLOCKS && GrownTo(bs, ipg, N, r) && GrownTo(bs, ipg, N, s)
    ensures r == s
  {
    TableBound(N);
    hide Grows, SoundWith;
    GrowsUnique(bs, DescsOf(bs), DescriptorBlocks(Groups(|bs|)), ipg, DescriptorBlocks(Groups(N)),
                GrownMaps(bs, ipg, N), r, s);
  }

  // Grow itself.

  /** The image, grown to N blocks, can be given a journal: nothing is in inode 8, and some group has a run long enough.
      */
  ghost predicate Journalable(img: Image, N: nat)
    requires SoundBlocks(img.blocks, img.super.inodesPerGroup) && |img.blocks| <= N
  {
    SoundBlocksPlaceable(img.blocks, img.super.inodesPerGroup);
    && !img.super.metadataCsum && !Populated(img.blocks)
    && HasPlace(GrownMaps(img.blocks, img.super.inodesPerGroup, N), JournalBlocks(N))
  }

  /** The sizes Grow takes an image to. */
  ghost predicate Growable(img: Image, size: nat) {
    && size % 4096 == 0 && size <= MAX_DISK_SIZE && Ours(img.super) && |img.blocks| <= size / 4096
    && SoundBlocks(img.blocks, img.super.inodesPerGroup)
    && ((img.super.hasJournal && size / 4096 == |img.blocks|) ||
        (&& !img.super.needsRecovery && Accepts(img.blocks, img.super.inodesPerGroup, size / 4096)
         && (img.super.hasJournal || Journalable(img, size / 4096))))
  }

  /** Why Grow refused a size, each answer only when: what is asked before was in order, and this was not. */
  ghost predicate RefusedFor(img: Image, size: nat, why: Refusal)
    requires Ours(img.super) ==> Sound(img)
  {
    var N := size / 4096;
    match why
    case NotWholeBlocks => size % 4096 != 0
    case PastMaximum => size % 4096 == 0 && size > 0x1000_0000_0000 - 32768 * 4096
    case NotOurs =>
      InRange(size) && !(img.super.magic == 0xef53 && img.super.logBlockSize == 2 && img.super.blocksPerGroup == 32768)
    case Smaller => InRange(size) && Ours(img.super) && N < |img.blocks|
    case NeedsRecovery => HasWork(img, size) && img.super.needsRecovery
    case NoGroups(added) =>
      && HasWork(img, size) && !img.super.needsRecovery
      && !added.Grown? && AddAnswered(img.blocks, img.super.inodesPerGroup, N, added)
    case NoJournal(cause) =>
      && HasWork(img, size) && !img.super.needsRecovery && !img.super.hasJournal
      && Accepts(img.blocks, img.super.inodesPerGroup, N) && NoJournalFor(img, N, cause)
  }

  predicate InRange(size: nat) {
    size % 4096 == 0 && size <= 0x1000_0000_0000 - 32768 * 4096
  }

  /** The size is one to grow to, or a journal is missing. */
  ghost predicate HasWork(img: Image, size: nat) {
    && InRange(size) && Ours(img.super) && |img.blocks| <= size / 4096
    && (|img.blocks| < size / 4096 || !img.super.hasJournal)
  }

  /** Why the grown image gets no journal: it keeps checksums, inode 8 is taken, or no group has a run long enough. */
  ghost predicate NoJournalFor(img: Image, N: nat, cause: JournalOutcome)
    requires SoundBlocks(img.blocks, img.super.inodesPerGroup) && |img.blocks| <= N
  {
    SoundBlocksPlaceable(img.blocks, img.super.inodesPerGroup);
    && (cause.MetadataCsum? <==> img.super.metadataCsum)
    && (cause.HalfBuilt? <==> !img.super.metadataCsum && Populated(img.blocks))
    && (cause.TooSmall? <==>
          && !img.super.metadataCsum && !Populated(img.blocks)
          && !HasPlace(GrownMaps(img.blocks, img.super.inodesPerGroup, N), JournalBlocks(N)))
    && !cause.Placed?
  }

  /** What Grow left: the image grown, then given its journal if it had none; sound exactly where the last group has
      room. */
  ghost predicate GrownWithJournal(img: Image, N: nat, mid: Image, img': Image)
    requires Sound(img)
  {
    && |img.blocks| <= N <= MAX_BLOCKS && Accepts(img.blocks, img.super.inodesPerGroup, N) && GrewTo(img, N, mid)
    && (Sound(img') <==> Roomy(img.super.inodesPerGroup, |img.blocks|, N))
    && img'.super.hasJournal && img'.super.blocksCount == N
    && (img.super.hasJournal ==> img' == mid)
    && (!img.super.hasJournal ==> PlaceableBlocks(mid.blocks) && exists o: JournalOutcome | o.Placed? ::
          PlacedIn(mid.super, mid.blocks, o, img'.blocks) && img'.super == o.sb.(hasJournal := true))
  }

  lemma AcceptsItself(bs: seq<Block>, ipg: nat)
    requires SoundBlocks(bs, ipg)
    ensures Accepts(bs, ipg, |bs|)
  {
    TableBound(|bs|);
    assert DescriptorBlocks(Groups(|bs|)) < DescsOf(bs)[0].blockBitmap;
  }

  /** A bitmap kept at its length is the bitmap. */
  lemma GrownToSelf(bs: seq<Block>, ipg: nat)
    requires SoundBlocks(bs, ipg)
    ensures GrownMaps(bs, ipg, |bs|) == Maps(bs, DescsOf(bs))
  {
    forall g | 0 <= g < Groups(|bs|)
      ensures GrownMaps(bs, ipg, |bs|)[g] == BlockMap(bs, DescsOf(bs), g)
    {
      assert forall j | 0 <= j < 32768 && g * 32768 + j >= |bs| :: BlockMap(bs, DescsOf(bs), g)[j];
    }
  }

  /** The first block of the first table is where it was, with what it held, and still in use. */
  lemma GrownFirstTable(bs: seq<Block>, ds: Descriptors, d: nat, ipg: nat, N: nat, d': nat, maps: seq<Bits>,
                        r: seq<Block>, ds': Descriptors)
    requires TableAt(bs, d) && 1 <= |ds| <= |maps| <= 0x2_0000 && |ds| <= 128 * d && 16 <= ipg <= 32768
    requires SoundWith(bs, ds, d, ipg) && 1 <= |bs| <= N == |r| && |bs| <= |ds| * 32768
    requires Apart(ds, |bs|, d') && TablesApart(ds, |bs|, d', TableBlocks(ipg))
    requires Grows(bs, ds, d, ipg, d', maps, r) && Mapped(r, ds') && GrownPointers(ds, ds', ipg)
    requires GrownBitmaps(bs, ds, r, ds', ipg, N)
    ensures FirstTableOk(r, ds', d') && ds'[0].inodeTable == ds[0].inodeTable < |bs|
    ensures r[ds[0].inodeTable] == bs[ds[0].inodeTable]
  {
    var i := ds[0].inodeTable;
    assert bs[i].Raw? && InUse(bs, ds, i);
    StillInUse(bs, ds, r, ds', |bs|, N, i);
    assert forall g | 0 <= g < |ds| :: ds[g].blockBitmap != i && ds[g].inodeBitmap != i;
    assert r[i] == bs[i];
  }

  lemma PointersGrow(ds: Descriptors, ds': Descriptors, maps: seq<Bits>, ipg: nat)
    requires |ds| <= |ds'| == |maps| <= 0x2_0000 && ipg <= 32768
    requires forall g | 0 <= g < |ds| :: ds'[g] == ds[g].(freeBlocks := Clear(maps[g]))
    requires forall g | |ds| <= g < |ds'| :: ds'[g] == StartDesc(g, ipg, Clear(maps[g]))
    ensures GrownPointers(ds, ds', ipg)
  {
    hide Clear;
  }

  lemma CountsGrow(bs: seq<Block>, ds: Descriptors, r: seq<Block>, ds': Descriptors, maps: seq<Bits>, ipg: nat)
    requires |ds| <= |ds'| == |maps| <= 0x2_0000 && ipg <= 32768 && Mapped(bs, ds) && Counted(bs, ds) && Mapped(r, ds')
    requires forall g | 0 <= g < |ds| :: ds'[g] == ds[g].(freeBlocks := Clear(maps[g]))
    requires forall g | |ds| <= g < |ds'| :: ds'[g] == StartDesc(g, ipg, Clear(maps[g]))
    requires forall g | 0 <= g < |ds'| :: BlockMap(r, ds', g) == maps[g]
    requires forall g | 0 <= g < |ds| :: InodeMap(r, ds', g) == InodeMap(bs, ds, g)
    requires forall g | |ds| <= g < |ds'| :: InodeMap(r, ds', g) == StartInodeMap(ipg)
    ensures Counted(r, ds')
  {
    hide Clear, StartInodeMap, BlockMap, InodeMap, Mapped;
    StartInodeMapClear(ipg);
  }

  /** What the descriptors and bitmaps of a grown image are, whatever the room of its last group. */
  lemma GrownShape(bs: seq<Block>, ds: Descriptors, d: nat, ipg: nat, N: nat, d': nat, maps: seq<Bits>,
                   r: seq<Block>, ds': Descriptors)
    requires TableAt(bs, d) && 1 <= |ds| <= |maps| <= 0x2_0000 && |ds| <= 128 * d && 16 <= ipg <= 32768
    requires SoundWith(bs, ds, d, ipg) && 1 <= |bs| <= N == |r| && |ds| == Groups(|bs|) && |maps| == Groups(N)
    requires d' < |bs| && Apart(ds, |bs|, d') && BitmapsFit(|ds|, |maps|, N)
    requires Grows(bs, ds, d, ipg, d', maps, r) && ds' == Descs(r, |maps|, d')
    requires forall g | 0 <= g < |ds| :: maps[g] == GrownMap(BlockMap(bs, ds, g), g, |bs|, N)
    requires forall g | |ds| <= g < |maps| :: maps[g] == FreshMap(g, N, Meta(ipg))
    ensures Mapped(r, ds') && Maps(r, ds') == maps && GrownPointers(ds, ds', ipg)
            && GrownBitmaps(bs, ds, r, ds', ipg, N)
    ensures Apart(ds', N, d') && Counted(r, ds') && TailsSet(r, ds', ipg)
  {
    hide Grows, TablesApart, MetaInUse, TablesRaw, TailsSet, GrownMap, FreshMap, Apart, Counted, GrownPointers, Clear,
         StartDesc, StartInodeMap;
    GrownDescs(bs, ds, d, ipg, d', maps, r, ds');
    PointersGrow(ds, ds', maps, ipg);
    CountsGrow(bs, ds, r, ds', maps, ipg);
    GrownApart(ds, ds', |bs|, ipg, d', N);
    GrownTails(bs, ds, ipg, N, r, ds');
  }

  /** A grown image is one a journal can be placed in, whatever the room of its last group. */
  lemma GrownPlaceableWith(bs: seq<Block>, ds: Descriptors, d: nat, ipg: nat, N: nat, d': nat, maps: seq<Bits>,
                           r: seq<Block>, ds': Descriptors)
    requires TableAt(bs, d) && 1 <= |ds| <= |maps| <= 0x2_0000 && |ds| <= 128 * d && 16 <= ipg <= 32768
    requires SoundWith(bs, ds, d, ipg) && 1 <= |bs| <= N == |r| && |ds| == Groups(|bs|) && |maps| == Groups(N)
    requires d == DescriptorBlocks(Groups(|bs|)) && d' == DescriptorBlocks(Groups(N)) <= 1024 && d' < |bs|
    requires FreeForTable(bs, ds, d, d') && BitmapsFit(|ds|, |maps|, N)
    requires Grows(bs, ds, d, ipg, d', maps, r) && ds' == Descs(r, |maps|, d')
    requires forall g | 0 <= g < |ds| :: maps[g] == GrownMap(BlockMap(bs, ds, g), g, |bs|, N)
    requires forall g | |ds| <= g < |maps| :: maps[g] == FreshMap(g, N, Meta(ipg))
    ensures Placeable(r, ds', d') && Maps(r, ds') == maps
    ensures ds'[0].inodeTable == ds[0].inodeTable < |bs| && r[ds[0].inodeTable] == bs[ds[0].inodeTable]
  {
    hide Grows, TablesApart, TablesRaw, GrownMap, FreshMap, Apart, Counted, Clear, FreeForTable, InUse, GrownPointers,
         GrownBitmaps, FirstTableOk, Mapped;
    ClaimApart(bs, ds, d, d', TableBlocks(ipg));
    GrownShape(bs, ds, d, ipg, N, d', maps, r, ds');
    GrownFirstTable(bs, ds, d, ipg, N, d', maps, r, ds');
    forall i | 0 <= i <= d' ensures InUse(r, ds', i) {
      GrownTableInUse(bs, ds, ipg, N, r, ds', i);
    }
    forall g | 0 <= g < |ds'| ensures InUse(r, ds', ds'[g].blockBitmap) && InUse(r, ds', ds'[g].inodeBitmap) {
      GrownBitmapsInUse(bs, ds, d, ipg, N, r, ds', g);
    }
  }

  lemma GrownPlaceable(bs: seq<Block>, ipg: nat, N: nat, r: seq<Block>)
    requires SoundBlocks(bs, ipg) && Accepts(bs, ipg, N) && GrownTo(bs, ipg, N, r)
    ensures PlaceableBlocks(r) && Maps(r, DescsOf(r)) == GrownMaps(bs, ipg, N)
    ensures PlaceableBlocks(bs) && FirstTable(r) == FirstTable(bs)
  {
    SoundBlocksPlaceable(bs, ipg);
    TableBound(N);
    BitmapsHaveRoom(|bs|, N);
    var ds, d, d' := DescsOf(bs), DescriptorBlocks(Groups(|bs|)), DescriptorBlocks(Groups(N));
    assert ds[0].blockBitmap < |bs|;
    hide Placeable;
    GrownPlaceableWith(bs, ds, d, ipg, N, d', GrownMaps(bs, ipg, N), r, DescsOf(r));
  }

  lemma BitmapsHaveRoom(n: nat, N: nat)
    requires 1 <= n <= N && (Groups(N) > Groups(n) ==> LastGroupFits(N * 4096))
    ensures BitmapsFit(Groups(n), Groups(N), N)
  {
    FitsBySize(N);
  }

  /** What the journal's placing looks at in the grown image, read off the image before it grew. */
  lemma GrewJournalable(img: Image, N: nat, mid: Image)
    requires Sound(img) && Accepts(img.blocks, img.super.inodesPerGroup, N) && GrewTo(img, N, mid)
    ensures mid.super.blocksCount == N == |mid.blocks| && mid.super.metadataCsum == img.super.metadataCsum
    ensures PlaceableBlocks(mid.blocks) && PlaceableBlocks(img.blocks)
    ensures Populated(mid.blocks) <==> Populated(img.blocks)
    ensures Maps(mid.blocks, DescsOf(mid.blocks)) == GrownMaps(img.blocks, img.super.inodesPerGroup, N)
  {
    hide SoundBlocks, GrownTo, GrownMaps, Claimable, SumClear, FirstTable, InodeSlot, Mode, Maps, PlaceableBlocks;
    var ipg := img.super.inodesPerGroup;
    SoundBlocksPlaceable(img.blocks, ipg);
    if N == |img.blocks| {
      GrownToSelf(img.blocks, ipg);
    } else {
      GrownLength(img.blocks, ipg, N, mid.blocks);
      GrownPlaceable(img.blocks, ipg, N, mid.blocks);
    }
  }

  lemma PlaceableTable(bs: seq<Block>)
    requires PlaceableBlocks(bs)
    ensures |bs| >= 1 && TableAt(bs, DescriptorBlocks(Groups(|bs|)))
  {
  }

  lemma TableOutside(bs: seq<Block>, ipg: nat, g: nat)
    requires |bs| >= 1 && TableAt(bs, DescriptorBlocks(Groups(|bs|))) && g < Groups(|bs|)
    requires DescsOf(bs)[g].inodeTable + TableBlocks(ipg) > |bs|
    ensures !SoundBlocks(bs, ipg)
  {
    if SoundBlocks(bs, ipg) {
      TableInside(bs, ipg, g);
    }
  }

  /** Which blocks of a grown image are in use: those that were, the descriptor blocks it took, and the bitmaps and
      tables of its new groups; every other block of the disk is free. */
  lemma GrewBits(img: Image, N: nat, mid: Image, b: nat)
    requires Sound(img) && Accepts(img.blocks, img.super.inodesPerGroup, N) && GrewTo(img, N, mid) && b < N
    ensures PlaceableBlocks(mid.blocks) && PlaceableBlocks(img.blocks)
    ensures InUse(mid.blocks, DescsOf(mid.blocks), b) <==>
            || (b < |img.blocks| && InUse(img.blocks, DescsOf(img.blocks), b))
            || DescriptorBlocks(Groups(|img.blocks|)) < b <= DescriptorBlocks(Groups(N))
            || (b / 32768 >= Groups(|img.blocks|) && b % 32768 < 2 + img.super.inodesPerGroup / 16)
  {
    hide SoundBlocks, GrewTo, Claimable, PlaceableBlocks, Mapped, Counted, LastGroupFits, InUse, Maps, GrownMaps,
         Groups,
         DescriptorBlocks;
    GrewJournalable(img, N, mid);
    SearchMay(mid.blocks);
    SearchMay(img.blocks);
    MapsTell(mid.blocks, b);
    GrownBit(img.blocks, img.super.inodesPerGroup, N, b);
  }

  lemma MapsTell(bs: seq<Block>, b: nat)
    requires 1 <= |bs| && TableAt(bs, DescriptorBlocks(Groups(|bs|))) && Mapped(bs, DescsOf(bs)) && b < |bs|
    ensures b / 32768 < Groups(|bs|)
    ensures InUse(bs, DescsOf(bs), b) <==> Maps(bs, DescsOf(bs))[b / 32768][b % 32768]
  {
    hide Mapped, TableAt, BlockMap, Descs;
    assert b == b / 32768 * 32768 + b % 32768;
    assert Maps(bs, DescsOf(bs))[b / 32768] == BlockMap(bs, DescsOf(bs), b / 32768);
  }

  lemma GrownBit(bs: seq<Block>, ipg: nat, N: nat, b: nat)
    requires SoundBlocks(bs, ipg) && Accepts(bs, ipg, N) && b < N && Mapped(bs, DescsOf(bs))
    ensures b / 32768 < Groups(N)
    ensures GrownMaps(bs, ipg, N)[b / 32768][b % 32768] <==>
            || (b < |bs| && InUse(bs, DescsOf(bs), b))
            || DescriptorBlocks(Groups(|bs|)) < b <= DescriptorBlocks(Groups(N))
            || (b / 32768 >= Groups(|bs|) && b % 32768 < 2 + ipg / 16)
  {
    TableBelowEnd(bs, ipg, N);
    hide SoundBlocks, Claimable, Mapped, LastGroupFits;
    var g, j := b / 32768, b % 32768;
    assert b == g * 32768 + j;
    if g < Groups(|bs|) {
      assert GrownMaps(bs, ipg, N)[g] == GrownMap(BlockMap(bs, DescsOf(bs), g), g, |bs|, N);
    } else {
      assert GrownMaps(bs, ipg, N)[g] == FreshMap(g, N, Meta(ipg));
    }
  }

  lemma TableBelowEnd(bs: seq<Block>, ipg: nat, N: nat)
    requires SoundBlocks(bs, ipg) && Accepts(bs, ipg, N)
    ensures DescriptorBlocks(Groups(N)) < |bs|
  {
  }

  /** What a grown image holds: every block as it was but the descriptors and the block bitmaps, and past the old end
      zeros but for the bitmaps of the new groups. */
  lemma GrewBlocks(img: Image, N: nat, mid: Image, b: nat)
    requires Sound(img) && Accepts(img.blocks, img.super.inodesPerGroup, N) && GrewTo(img, N, mid) && b < N
    ensures |mid.blocks| == N
    ensures b == 0 || (DescriptorBlocks(Groups(N)) < b < |img.blocks| &&
                       forall g | 0 <= g < Groups(|img.blocks|) :: DescsOf(img.blocks)[g].blockBitmap != b) ==>
              mid.blocks[b] == img.blocks[b]
    ensures b >= |img.blocks| && (b % 32768 > 1 || b / 32768 < Groups(|img.blocks|)) ==>
              mid.blocks[b] == Raw(ZeroBits())
  {
    if N > |img.blocks| {
      hide SoundWith, GrownMaps, Claimable, SlotOf, Accepts;
      if b >= |img.blocks| {
        assert mid.blocks[b] ==
               TailBlock(img.super.inodesPerGroup, Groups(|img.blocks|),
                         GrownMaps(img.blocks, img.super.inodesPerGroup, N), b);
      }
    }
  }

  lemma ShareBound(bs: seq<Block>, ipg: nat)
    requires SoundBlocks(bs, ipg)
    ensures ipg <= 32768 && 1 <= |bs| <= MAX_BLOCKS
  {
  }

  /** And of its superblock only the totals change: the blocks there are, a share of inodes for each group, all of a new
      group's free. */
  lemma GrewSuper(img: Image, N: nat, mid: Image)
    requires Sound(img) && Accepts(img.blocks, img.super.inodesPerGroup, N) && GrewTo(img, N, mid)
    ensures TotalsMoved(img.super, N, Groups(|img.blocks|), Groups(N), mid.super)
  {
    hide SoundBlocks, GrownTo, GrownMaps, SumClear, SumFree, SumFreeInodes, Claimable, InodesIn, LastGroupFits, Groups,
         GrownSuper, TotalsMoved;
    ShareBound(img.blocks, img.super.inodesPerGroup);
    if N == |img.blocks| {
      SameTotals(img);
    } else {
      FreeInodesBound(img);
      TableBound(N);
      SuperMoves(img.super, N, Groups(|img.blocks|), Groups(N), mid.super.freeBlocks);
    }
  }

  ghost predicate TotalsMoved(a: SuperBlock, N: nat, groups: nat, groups': nat, b: SuperBlock)
    requires groups <= groups'
  {
    && b == a.(blocksCount := b.blocksCount, inodesCount := b.inodesCount, freeBlocks := b.freeBlocks,
               freeInodes := b.freeInodes)
    && b.blocksCount == N && b.inodesCount == InodesIn(groups', a.inodesPerGroup)
    && b.freeInodes == a.freeInodes + InodesIn(groups' - groups, a.inodesPerGroup)
  }

  lemma SameTotals(img: Image)
    requires Sound(img)
    ensures TotalsMoved(img.super, |img.blocks|, Groups(|img.blocks|), Groups(|img.blocks|), img.super)
  {
    hide SoundBlocks, SumFree, SumFreeInodes, InodesIn;
    InodesAdd(0, 0, img.super.inodesPerGroup);
  }

  lemma SuperMoves(a: SuperBlock, N: U32, groups: U32, groups': U32, free: U32)
    requires groups <= groups' < 0x2_0000 && a.inodesPerGroup <= 32768 && a.freeInodes <= 32768 * groups
    ensures TotalsMoved(a, N, groups, groups', GrownSuper(a, N, groups, groups', free))
  {
    hide InodesIn;
    InodesBound(groups', a.inodesPerGroup);
    InodesBound(groups' - groups, a.inodesPerGroup);
  }

  /** A journal does not make room for a table that has none. */
  lemma PlacedShortTable(img: Image, N: nat, mid: Image, o: JournalOutcome, r: seq<Block>)
    requires Sound(img) && Accepts(img.blocks, img.super.inodesPerGroup, N) && GrewTo(img, N, mid)
    requires !Roomy(img.super.inodesPerGroup, |img.blocks|, N)
    requires PlaceableBlocks(mid.blocks) && mid.super.blocksCount == |mid.blocks| && o.Placed?
    requires PlacedIn(mid.super, mid.blocks, o, r)
    ensures !SoundBlocks(r, img.super.inodesPerGroup)
  {
    hide SoundBlocks, GrownTo, PlaceableBlocks, PlacedIn, GrownMaps, Claimable, GrownSuper, SumClear, Descs, TableAt,
         SumFree, SumFreeInodes, InodesIn;
    var g, ipg := Groups(N) - 1, img.super.inodesPerGroup;
    NewTableAt(img.blocks, ipg, N, mid.blocks, g);
    PlacedPointers(mid.super, mid.blocks, o, r, g);
    PlaceableTable(r);
    TableOutside(r, ipg, g);
  }

  /** Add the groups a grow needs, if any. */
  method GrowGroups(f: File, sb: SuperBlock, size: nat) returns (r: Added)
    requires Sound(Image(sb, f.blocks)) && size % 4096 == 0 && |f.blocks| <= size / 4096 <= MAX_BLOCKS
    modifies f`blocks
    ensures r.Grown? <==> Accepts(old(f.blocks), sb.inodesPerGroup, size / 4096)
    ensures !r.Grown? ==> f.blocks == old(f.blocks)
    ensures r.DescriptorTaken? ==> MaxExact(old(f.blocks), sb.inodesPerGroup, r.max) && r.max < size
    ensures !r.Grown? ==> AddAnswered(old(f.blocks), sb.inodesPerGroup, size / 4096, r)
    ensures r.Grown? ==> GrewTo(Image(sb, old(f.blocks)), size / 4096, Image(r.sb, f.blocks))
    ensures r.Grown? ==> (Sound(Image(r.sb, f.blocks)) <==> Roomy(sb.inodesPerGroup, |old(f.blocks)|, size / 4096))
  {
    hide SoundBlocks, GrownTo, GrownMaps, SumClear, Claimable, MaxExact, GrownSuper, Fits, AddAnswered;
    ghost var bs := f.blocks;
    if size / 4096 == sb.blocksCount {
      AcceptsItself(bs, sb.inodesPerGroup);
      return Grown(sb);
    }
    r := AddGroups(f, sb, size);
    if r.Grown? {
      GrewSoundIff(Image(sb, bs), size / 4096, Image(r.sb, f.blocks));
    }
  }

  lemma CountsBlocks(img: Image)
    requires Sound(img)
    ensures img.super.blocksCount == |img.blocks| && 1 <= |img.blocks| <= MAX_BLOCKS
            && SoundBlocks(img.blocks, img.super.inodesPerGroup)
  {
  }

  lemma SameSize(img: Image)
    requires Sound(img) && img.super.hasJournal
    ensures GrownWithJournal(img, |img.blocks|, img, img)
  {
    AcceptsItself(img.blocks, img.super.inodesPerGroup);
  }

  /** With at most 8192 inodes a group, the share Write lays, an accepted growth always has the room. */
  lemma SmallSharesHaveRoom(img: Image, N: nat)
    requires Sound(img) && img.super.inodesPerGroup <= 8192 && Accepts(img.blocks, img.super.inodesPerGroup, N)
    ensures Roomy(img.super.inodesPerGroup, |img.blocks|, N)
  {
    hide SoundBlocks, Claimable, LastGroupFits, Roomy, SumFree, SumFreeInodes, InodesIn;
    CountsBlocks(img);
    SmallGroupsRoomy(img.super.inodesPerGroup, |img.blocks|, N);
  }

  /** Grow an image whose size and journal leave something to do. */
  method GrowOurs(f: File, size: nat) returns (r: Growth, ghost mid: Image)
    requires Sound(f.Contents()) && size % 4096 == 0 && |f.blocks| <= size / 4096 <= MAX_BLOCKS
    modifies f
    ensures r.Done? ==> GrownWithJournal(old(f.Contents()), size / 4096, mid, f.Contents())
    ensures r.Done? <==> (&& Accepts(old(f.blocks), old(f.super).inodesPerGroup, size / 4096)
                          && (old(f.super).hasJournal || Journalable(old(f.Contents()), size / 4096)))
    ensures r.Refused? && !r.why.NoJournal? ==> f.Contents() == old(f.Contents())
    ensures r.Refused? && r.why.NoJournal? ==> f.super == old(f.super) && !f.super.hasJournal && f.blocks == mid.blocks
    ensures r.Refused? ==> r.why.NoGroups? || r.why.NoJournal?
    ensures r.Refused? && r.why.NoGroups? ==>
              !r.why.why.Grown? && AddAnswered(old(f.blocks), old(f.super).inodesPerGroup, size / 4096, r.why.why)
    ensures r.Refused? && r.why.NoJournal? ==>
              && !old(f.super).hasJournal && Accepts(old(f.blocks), old(f.super).inodesPerGroup, size / 4096)
              && NoJournalFor(old(f.Contents()), size / 4096, r.why.cause)
    ensures r.Refused? && r.why.NoGroups? && r.why.why.DescriptorTaken? ==>
              MaxExact(f.blocks, f.super.inodesPerGroup, r.why.why.max) && r.why.why.max < size
  {
    hide SoundBlocks, GrewTo, GrownMaps, SumClear, Claimable, MaxExact, PlacedIn, Accepts, Roomy, Populated, HasPlace,
         InodePlaced, Sound, PlaceableBlocks, AddAnswered;
    var sb := f.super;
    ghost var img := f.Contents();
    mid := img;
    CountsBlocks(img);
    var added := GrowGroups(f, sb, size);
    if !added.Grown? {
      return Refused(NoGroups(added)), mid;
    }
    sb := added.sb;
    mid := Image(sb, f.blocks);
    GrewKeepsFlags(img, size / 4096, mid);
    if !sb.hasJournal {
      GrewJournalable(img, size / 4096, mid);
      var placed := EnsureJournal(f, sb);
      if !placed.Placed? {
        return Refused(NoJournal(placed)), mid;
      }
      PlacedSoundIff(img, size / 4096, mid, placed, f.blocks);
      sb := placed.sb.(hasJournal := true);
    }
    f.super := sb;
    r := Done;
  }

  /** The journal flag is no part of the accounting. */
  lemma FlagKeepsSound(sb: SuperBlock, bs: seq<Block>)
    requires Sound(Image(sb, bs))
    ensures Sound(Image(sb.(hasJournal := true), bs))
  {
    hide SoundBlocks, SumFree, SumFreeInodes, InodesIn;
  }

  lemma GrewKeepsFlags(img: Image, N: nat, img': Image)
    requires Sound(img) && |img.blocks| <= N <= MAX_BLOCKS && GrewTo(img, N, img')
    ensures img'.super.hasJournal == img.super.hasJournal && img'.super.blocksCount == N
  {
  }

  lemma PlacedKeepsSize(img: Image, o: JournalOutcome, r: seq<Block>)
    requires PlaceableBlocks(img.blocks) && img.super.blocksCount == |img.blocks|
    requires o.Placed? && PlacedIn(img.super, img.blocks, o, r)
    ensures o.sb.blocksCount == img.super.blocksCount && o.sb.inodesPerGroup == img.super.inodesPerGroup
  {
    hide PlaceableBlocks, FirstFit, Journaled;
  }

  /** The grown image with its journal is sound exactly where its last group has room. */
  lemma PlacedSoundIff(img: Image, N: nat, mid: Image, o: JournalOutcome, r: seq<Block>)
    requires Sound(img) && Accepts(img.blocks, img.super.inodesPerGroup, N) && GrewTo(img, N, mid)
    requires Sound(mid) <==> Roomy(img.super.inodesPerGroup, |img.blocks|, N)
    requires PlaceableBlocks(mid.blocks) && mid.super.blocksCount == |mid.blocks| && o.Placed?
    requires PlacedIn(mid.super, mid.blocks, o, r) && (Sound(mid) ==> Sound(Image(o.sb, r)))
    ensures Sound(Image(o.sb.(hasJournal := true), r)) <==> Roomy(img.super.inodesPerGroup, |img.blocks|, N)
    ensures o.sb.blocksCount == mid.super.blocksCount
  {
    hide GrewTo, PlaceableBlocks, PlacedIn, Claimable, Roomy, SoundBlocks;
    PlacedKeepsSize(mid, o, r);
    if Roomy(img.super.inodesPerGroup, |img.blocks|, N) {
      FlagKeepsSound(o.sb, r);
    } else {
      GrewKeepsShare(img, N, mid);
      PlacedShortTable(img, N, mid, o, r);
    }
  }

  lemma GrewKeepsShare(img: Image, N: nat, mid: Image)
    requires Sound(img) && |img.blocks| <= N <= MAX_BLOCKS && GrewTo(img, N, mid)
    ensures mid.super.inodesPerGroup == img.super.inodesPerGroup
  {
    hide SoundBlocks, GrownTo, GrownMaps;
  }

  /** Extend an image to size bytes and give it a journal if it has none. A refusal before the journal leaves the file
      as it was; one at the journal leaves the superblock, which nothing reads the new groups without. */
  method Grow(f: File, size: nat) returns (r: Growth, ghost mid: Image)
    requires Ours(f.super) ==> Sound(f.Contents())
    modifies f
    ensures r.Done? ==> Ours(old(f.super)) && GrownWithJournal(old(f.Contents()), size / 4096, mid, f.Contents())
    ensures r.Done? <==> Growable(old(f.Contents()), size)
    ensures r.Refused? ==> RefusedFor(old(f.Contents()), size, r.why)
    ensures r.Refused? && !r.why.NoJournal? ==> f.Contents() == old(f.Contents())
    ensures r.Refused? && r.why.NoJournal? ==> f.super == old(f.super) && !f.super.hasJournal && f.blocks == mid.blocks
    ensures r.Refused? && r.why.NoGroups? && r.why.why.DescriptorTaken? ==>
              Ours(f.super) && MaxExact(f.blocks, f.super.inodesPerGroup, r.why.why.max) && r.why.why.max < size
  {
    hide SoundBlocks, GrewTo, Claimable, Accepts, MaxExact, PlacedIn, GrownWithJournal, Sound, Journalable, AddAnswered,
         NoJournalFor;
    mid := f.Contents();
    if size % 4096 != 0 {
      return Refused(NotWholeBlocks), mid;
    }
    if size > MAX_DISK_SIZE {
      return Refused(PastMaximum), mid;
    }
    var sb := f.super;
    if !Ours(sb) {
      return Refused(NotOurs), mid;
    }
    CountsBlocks(f.Contents());
    if size / 4096 < sb.blocksCount {
      return Refused(Smaller), mid;
    }
    if size / 4096 == sb.blocksCount && sb.hasJournal {
      SameSize(f.Contents());
      return Done, mid;
    }
    if sb.needsRecovery {
      return Refused(NeedsRecovery), mid;
    }
    r, mid := GrowOurs(f, size);
  }
}
