/** The in-place growth of an image file. */
module Ext4Grow {
  import opened Bitmaps
  import opened Ext4Format
  import opened Ext4Layout
  import opened Ext4Growth
  import opened Ext4GrowthSound

  datatype Claim = Claimed(count: U16) | Taken(block: U32, max: nat)

  datatype Added = Grown(sb: SuperBlock) | TableExceeded | ShortLastGroup | DescriptorTaken(block: U32, max: nat)

  /** A disk ends on a block group big enough for the metadata of a group of 8192 inodes. */
  predicate LastGroupFits(size: nat) {
    var blocks := size / 4096;
    var tail := blocks % 32768;
    blocks <= 32768 || tail == 0 || tail > 2 + 512
  }

  /** Every check a growth to N blocks makes before it changes anything passes. */
  ghost predicate Accepts(bs: seq<Block>, ipg: nat, N: nat)
    requires SoundBlocks(bs, ipg)
  {
    |bs| <= N <= MAX_BLOCKS && Claimable(bs, ipg, N) && (Groups(N) > Groups(|bs|) ==> LastGroupFits(N * 4096))
  }

  /** Set or clear every bit from first to the end of a group's block bitmap, and count what changed. */
  method SetTail(f: File, bitmapBlock: U32, first: U32, used: bool) returns (changed: U16)
    requires bitmapBlock < |f.blocks| && f.blocks[bitmapBlock].Raw? && first < 32768
    modifies f`blocks
    ensures first == 0 ==> changed == 0 && f.blocks == old(f.blocks)
    ensures first > 0 ==>
              var m := old(f.blocks)[bitmapBlock].bits;
              var m' := Fill(m, first, 32768, used);
              f.blocks == old(f.blocks)[bitmapBlock := Raw(m')]
              && changed == if used then Clear(m) - Clear(m') else Clear(m') - Clear(m)
  {
    if first == 0 {
      return 0;
    }
    var bits := f.blocks[bitmapBlock].bits;
    var bitmap := new bool[32768](i requires 0 <= i < 32768 => bits[i]);
    changed := 0;
    var j := first;
    FillNone(bits, first, used);
    while j < 32768
      invariant first <= j <= 32768
      invariant bitmap[..] == Fill(bits, first, j, used)
      invariant changed == if used then Clear(bits) - Clear(bitmap[..]) else Clear(bitmap[..]) - Clear(bits)
      invariant changed <= j - first && f.blocks == old(f.blocks)
    {
      ghost var before := bitmap[..];
      if bitmap[j] != used {
        bitmap[j] := !bitmap[j];
        changed := Add16(changed, 1);
      }
      FillStep(bits, first, j, used);
      assert bitmap[..] == before[j := used];
      ClearUpdate(before, j, used);
      j := j + 1;
    }
    f.blocks := f.blocks[bitmapBlock := Raw(bitmap[..])];
  }

  /** Mark blocks [first, end) of group 0 used and zero them; the first one already used stops it with nothing changed.
      */
  method ClaimBlocks(f: File, bitmapBlock: U32, first: U32, end: U32) returns (r: Claim)
    requires bitmapBlock < |f.blocks| && f.blocks[bitmapBlock].Raw?
    requires 1 <= first <= end <= bitmapBlock && end <= 32768
    modifies f`blocks
    ensures var m := old(f.blocks)[bitmapBlock].bits;
            match r
            case Claimed(count) =>
              && (forall j | first <= j < end :: !m[j])
              && count == end - first
              && f.blocks == Zeroed(old(f.blocks), first, end)[bitmapBlock := Raw(Fill(m, first, end, true))]
            case Taken(block, max) =>
              && first <= block < end && m[block]
              && (forall j | first <= j < block :: !m[j])
              && max == (block - 1) * 128 * 32768 * 4096
              && f.blocks == old(f.blocks)
  {
    var bits := f.blocks[bitmapBlock].bits;
    var bitmap := new bool[32768](i requires 0 <= i < 32768 => bits[i]);
    var j := first;
    FillNone(bits, first, true);
    while j < end
      invariant first <= j <= end
      invariant bitmap[..] == Fill(bits, first, j, true)
      invariant forall i | first <= i < j :: !bits[i]
      invariant f.blocks == old(f.blocks)
    {
      if bitmap[j] {
        return Taken(j, (j - 1) * 128 * 32768 * 4096);
      }
      bitmap[j] := true;
      FillStep(bits, first, j, true);
      j := j + 1;
    }
    f.blocks := Zeroed(f.blocks, first, end);
    f.blocks := f.blocks[bitmapBlock := Raw(bitmap[..])];
    r := Claimed(end - first);
  }

  /** The bits from first on set or cleared; first 0 is a whole group, which has no tail. */
  function Tail(m: Bits, first: nat, used: bool): Bits {
    if first == 0 then m else Fill(m, first, 32768, used)
  }

  /** Set or clear group g's bits from first on, its free count following without a wrap; says what the count moved by.
      */
  method MoveTail(f: File, g: U32, first: U32, used: bool, ghost e: GroupDescriptor, ghost m: Bits)
    returns (changed: U16)
    requires HasDesc(f.blocks, g) && ReadDesc(f.blocks, g) == e && e.blockBitmap < |f.blocks|
             && e.blockBitmap != 1 + g / 128 && first < 32768
    requires f.blocks[e.blockBitmap] == Raw(m) && e.freeBlocks == Clear(m)
    modifies f`blocks
    ensures f.blocks == EditMap(old(f.blocks), g, Tail(m, first, used))
    ensures changed == if used then Clear(m) - Clear(Tail(m, first, used)) else Clear(Tail(m, first, used)) - Clear(m)
  {
    var gd := ReadDesc(f.blocks, g);
    ghost var bs, m' := f.blocks, Tail(m, first, used);
    changed := SetTail(f, gd.blockBitmap, first, used);
    assert f.blocks == bs[gd.blockBitmap := Raw(m')];
    gd := gd.(freeBlocks := if used then Sub16(gd.freeBlocks, changed) else Add16(gd.freeBlocks, changed));
    assert gd.freeBlocks == Clear(m');
    f.blocks := WriteDesc(f.blocks, g, gd);
  }

  /** Set the bits past the group's share of inodes. */
  method SetInodePadding(bitmap: array<bool>, inodesPerGroup: nat)
    requires bitmap.Length == 32768
    modifies bitmap
    ensures bitmap[..] == Fill(old(bitmap[..]), inodesPerGroup, 32768, true)
  {
    var j := inodesPerGroup;
    ghost var bits := bitmap[..];
    FillNone(bits, inodesPerGroup, true);
    while j < 32768
      invariant j <= 32768 || j == inodesPerGroup
      invariant inodesPerGroup <= j
      invariant bitmap[..] == Fill(bits, inodesPerGroup, j, true)
    {
      bitmap[j] := true;
      FillStep(bits, inodesPerGroup, j, true);
      j := j + 1;
    }
  }

  /** The block bitmap of a new group: its metadata used, the rest free. */
  method MetaBits(meta: nat) returns (bits: Bits)
    requires meta <= 32768
    ensures bits == StartMap(meta)
  {
    var bitmap := new bool[32768](_ => false);
    FillNone(ZeroBits(), 0, true);
    assert bitmap[..] == ZeroBits();
    for j := 0 to meta
      invariant bitmap[..] == Fill(ZeroBits(), 0, j, true)
    {
      bitmap[j] := true;
      FillStep(ZeroBits(), 0, j, true);
    }
    bits := bitmap[..];
  }

  /** The inode bitmap of a new group: its inodes free, the padding used. */
  method PaddingBits(inodesPerGroup: nat) returns (bits: Bits)
    requires inodesPerGroup <= 32768
    ensures bits == StartInodeMap(inodesPerGroup)
  {
    var bitmap := new bool[32768](_ => false);
    assert bitmap[..] == ZeroBits();
    SetInodePadding(bitmap, inodesPerGroup);
    bits := bitmap[..];
  }

  /** Lay a new group's bitmaps at its start, its table left a hole, and write its descriptor. */
  method LayGroup(f: File, g: U32, inodesPerGroup: U32)
    requires HasDesc(f.blocks, g) && 1 <= g < 0x2_0000 && g * 32768 + 1 < |f.blocks| && inodesPerGroup <= 32768
             && g / 128 < 1025
    modifies f`blocks
    ensures f.blocks == WithGroup(old(f.blocks), g, inodesPerGroup)
  {
    hide StartMap, StartInodeMap, Clear;
    var start := g * 32768;
    var meta := 2 + inodesPerGroup * 256 / 4096;
    assert meta == Meta(inodesPerGroup) <= 32768;
    var blockBits := MetaBits(meta);
    var inodeBits := PaddingBits(inodesPerGroup);
    StartMapClear(meta);
    f.blocks := f.blocks[start := Raw(blockBits)][start + 1 := Raw(inodeBits)];
    var gd := GroupDescriptor(start, start + 1, start + 2, Low16(32768 - meta), Low16(inodesPerGroup), 0, 0, 0, 0, 0,
                              0, 0);
    f.blocks := WriteDesc(f.blocks, g, gd);
  }

  /** The superblock of an image grown to N blocks, from groups to groups', with free blocks free. */
  function GrownSuper(sb: SuperBlock, N: U32, groups: U32, groups': U32, free: U32): SuperBlock
    requires groups <= groups'
  {
    sb.(blocksCount := N, inodesCount := InodesIn32(groups', sb.inodesPerGroup), freeBlocks := free,
        freeInodes := Add32(sb.freeInodes, InodesIn32(groups' - groups, sb.inodesPerGroup)))
  }

  lemma ClaimClear(maps: seq<Bits>, lo: nat, hi: nat)
    requires |maps| >= 1 && lo <= hi <= 32768 && forall j | lo <= j < hi :: !maps[0][j]
    ensures Clear(Fill(maps[0], lo, hi, true)) == Clear(maps[0]) - (hi - lo)
    ensures SumClear(maps[0 := Fill(maps[0], lo, hi, true)]) == SumClear(maps) - (hi - lo)
  {
    ClearClaim(maps[0], lo, hi);
    SumClearEdit(maps, 0, Fill(maps[0], lo, hi, true));
  }

  /** What claiming the table's blocks leaves is the first stage of a growth. */
  lemma {:induction false} OpenedGrows(bs: seq<Block>, ds: Descriptors, d: nat, ipg: nat, d': nat, maps: seq<Bits>,
                                       m': Bits, r: seq<Block>)
    requires 1 <= d <= d' < |bs| <= |ds| * 32768 && ipg <= 32768
    requires TableAt(bs, d) && 1 <= |ds| <= 128 * d && ds == Descs(bs, |ds|, d) && |ds| <= 0x2_0000
    requires Mapped(bs, ds) && Counted(bs, ds) && Apart(ds, |bs|, d') && maps == Maps(bs, ds)
    requires r == WriteDesc(Zeroed(bs, 1 + d, 1 + d')[ds[0].blockBitmap := Raw(m')], 0, ds[0].(freeBlocks := Clear(m')))
    ensures Grows(bs, ds, d, ipg, d', maps[0 := m'], r)
  {
    var z := Zeroed(bs, 1 + d, 1 + d');
    GrowsZeroed(bs, ds, d, ipg, d');
    GrowsEdit(bs, ds, d, ipg, d', maps, z, 0, m');
    assert z[1] == bs[1];
    assert ReadDesc(z, 0) == ReadDesc(bs, 0) == ds[0];
    assert r == EditMap(z, 0, m');
  }

  /** The blocks after the table's blocks [lo, hi) are claimed in the first group, whose descriptor is e and bitmap m.
      */
  ghost predicate TableClaim(bs: seq<Block>, e: GroupDescriptor, m: Bits, lo: nat, hi: nat, c: Claim, r: seq<Block>)
    requires HasDesc(bs, 0) && 2 <= lo <= hi <= e.blockBitmap < |bs| && hi <= 32768
  {
    match c
    case Taken(block, max) =>
      && r == bs
      && lo <= block < hi && m[block] && (forall j | lo <= j < block :: !m[j])
      && max == (block - 1) * 128 * 32768 * 4096
    case Claimed(count) =>
      && (forall j | lo <= j < hi :: !m[j]) && count == hi - lo
      && var z := Zeroed(bs, lo, hi)[e.blockBitmap := Raw(Fill(m, lo, hi, true))];
      && HasDesc(z, 0)
      && r == WriteDesc(z, 0, e.(freeBlocks := Clear(Fill(m, lo, hi, true))))
  }

  /** Claim the descriptor blocks the new groups need, and take them off the first group's free count. */
  method ClaimTable(f: File, first: U32, end: U32, ghost e: GroupDescriptor, ghost m: Bits) returns (r: Claim)
    requires HasDesc(f.blocks, 0) && ReadDesc(f.blocks, 0) == e && 2 <= first <= end <= e.blockBitmap < |f.blocks|
             && end <= 32768
    requires f.blocks[e.blockBitmap] == Raw(m) && e.freeBlocks == Clear(m)
    modifies f`blocks
    ensures TableClaim(old(f.blocks), e, m, first, end, r, f.blocks)
  {
    var gd := ReadDesc(f.blocks, 0);
    ghost var bs := f.blocks;
    r := ClaimBlocks(f, gd.blockBitmap, first, end);
    if r.Claimed? {
      ClearClaim(m, first, end);
      gd := gd.(freeBlocks := Sub16(gd.freeBlocks, r.count));
      assert gd == e.(freeBlocks := Clear(Fill(m, first, end, true)));
      f.blocks := WriteDesc(f.blocks, 0, gd);
    }
  }

  /** What holds while the image bs grows: r has the bitmaps maps, and free is their clear bits. */
  ghost predicate Growing(bs: seq<Block>, ds: Descriptors, d: nat, ipg: nat, d': nat, maps: seq<Bits>, r: seq<Block>,
                          free: nat) {
    && TableAt(bs, d) && 1 <= |ds| <= |maps| < 0x2_0000 && |ds| <= 128 * d && ipg <= 32768
    && Apart(ds, |bs|, d') && d' < |bs| <= |ds| * 32768 && d' <= 1024
    && Grows(bs, ds, d, ipg, d', maps, r)
    && free == SumClear(maps)
  }

  /** One bitmap edit carries the growth on, the total moving by what the bitmap's count did and staying under 32 bits.
      */
  lemma {:induction false} GrowingEdit(bs: seq<Block>, ds: Descriptors, d: nat, ipg: nat, d': nat, maps: seq<Bits>,
                                       r: seq<Block>, free: nat, g: nat, m: Bits)
    requires Growing(bs, ds, d, ipg, d', maps, r, free) && g < |maps| && MapBlock(ds, g) < |r|
    ensures HasDesc(r, g) && d' < ReadDesc(r, g).blockBitmap == MapBlock(ds, g) && 1 + g / 128 <= d'
    ensures r[MapBlock(ds, g)] == Raw(maps[g]) && ReadDesc(r, g).freeBlocks == Clear(maps[g])
    ensures var free' := free + Clear(m) - Clear(maps[g]);
            0 <= free' < 0x1_0000_0000 && Growing(bs, ds, d, ipg, d', maps[g := m], EditMap(r, g, m), free')
  {
    GrowsPointer(bs, ds, d, ipg, d', maps, r, g);
    GrowsEdit(bs, ds, d, ipg, d', maps, r, g, m);
    SumClearEdit(maps, g, m);
    SumClearBound(maps[g := m]);
  }

  lemma EndMoves(bs: seq<Block>, ds: Descriptors, d: nat, ipg: nat, d': nat, maps: seq<Bits>, r: seq<Block>, free: nat,
                 n: nat, used: bool)
    requires Growing(bs, ds, d, ipg, d', maps, r, free) && n >= 1 && |maps| == Groups(n)
             && MapBlock(ds, |maps| - 1) < |r|
    ensures var g := |maps| - 1;
            var m' := Tail(maps[g], n % 32768, used);
            var free' := free + Clear(m') - Clear(maps[g]);
            && HasDesc(r, g) && d' < ReadDesc(r, g).blockBitmap < |r| && 1 + g / 128 <= d'
            && r[ReadDesc(r, g).blockBitmap] == Raw(maps[g]) && ReadDesc(r, g).freeBlocks == Clear(maps[g])
            && 0 <= free' < 0x1_0000_0000
            && Growing(bs, ds, d, ipg, d', TailMoved(maps, n, used), EditMap(r, g, m'), free')
  {
    var g := |maps| - 1;
    GrowingEdit(bs, ds, d, ipg, d', maps, r, free, g, Tail(maps[g], n % 32768, used));
    assert maps[g := Tail(maps[g], n % 32768, used)] == TailMoved(maps, n, used);
  }

  /** Set or clear the last group's bits from the end of an n-block disk on, descriptor and total following. */
  method MoveEnd(f: File, free: U32, n: U32, used: bool,
                 ghost bs: seq<Block>, ghost ds: Descriptors, ghost d: nat, ghost ipg: nat, ghost d': nat,
                 ghost maps: seq<Bits>)
    returns (free': U32)
    requires n >= 1 && |maps| == Groups(n) && Growing(bs, ds, d, ipg, d', maps, f.blocks, free)
    requires MapBlock(ds, |maps| - 1) < |f.blocks|
    modifies f`blocks
    ensures |f.blocks| == |old(f.blocks)| && Growing(bs, ds, d, ipg, d', TailMoved(maps, n, used), f.blocks, free')
  {
    var g := Groups(n) - 1;
    EndMoves(bs, ds, d, ipg, d', maps, f.blocks, free, n, used);
    ghost var m' := Tail(maps[g], n % 32768, used);
    var changed := MoveTail(f, g, n % 32768, used, ReadDesc(f.blocks, g), maps[g]);
    free' := if used then Sub32(free, changed) else Add32(free, changed);
    assert free' == free + Clear(m') - Clear(maps[g]);
  }

  /** Lay the new groups one after the other. */
  method LayGroups(f: File, free: U32, oldGroups: U32, newGroups: U32, inodesPerGroup: U32,
                   ghost bs: seq<Block>, ghost ds: Descriptors, ghost d: nat, ghost d': nat, ghost maps: seq<Bits>)
    returns (free': U32)
    requires |maps| == oldGroups <= newGroups < 0x2_0000 && newGroups <= 128 * d'
    requires Growing(bs, ds, d, inodesPerGroup, d', maps, f.blocks, free)
    requires oldGroups < newGroups ==> (newGroups - 1) * 32768 + 1 < |f.blocks|
    modifies f`blocks
    ensures |f.blocks| == |old(f.blocks)|
    ensures Growing(bs, ds, d, inodesPerGroup, d', GroupsLaid(maps, newGroups, Meta(inodesPerGroup)), f.blocks, free')
  {
    var g := oldGroups;
    free' := free;
    var meta := 2 + inodesPerGroup * 256 / 4096;
    ghost var laid := maps;
    while g < newGroups
      invariant oldGroups <= g <= newGroups && |f.blocks| == |old(f.blocks)|
      invariant laid == GroupsLaid(maps, g, Meta(inodesPerGroup))
      invariant Growing(bs, ds, d, inodesPerGroup, d', laid, f.blocks, free')
    {
      GrowsGroup(bs, ds, d, inodesPerGroup, d', laid, f.blocks);
      LayGroup(f, g, inodesPerGroup);
      free' := LaidFree(laid, free', meta, inodesPerGroup);
      laid := laid + [StartMap(Meta(inodesPerGroup))];
      g := g + 1;
    }
  }

  /** A new group adds its free blocks to the total, which stays under 32 bits. */
  function LaidFree(ghost maps: seq<Bits>, free: U32, meta: nat, ghost ipg: nat): (r: U32)
    requires free == SumClear(maps) && |maps| < 0x1_FFFF && meta == Meta(ipg) <= 32768
    ensures r == SumClear(maps + [StartMap(Meta(ipg))])
  {
    StartMapClear(meta);
    SumClearBound(maps);
    assert (maps + [StartMap(meta)])[..|maps|] == maps;
    Add32(free, 32768 - meta)
  }

  /** With the table's blocks claimed the growth is under way. */
  lemma {:induction false} ClaimGrowing(bs: seq<Block>, ds: Descriptors, d: nat, ipg: nat, d': nat, maps: seq<Bits>,
                                        m': Bits, r: seq<Block>)
    requires 1 <= d <= d' < |bs| <= |ds| * 32768 && ipg <= 32768 && d' <= 1024
    requires TableAt(bs, d) && 1 <= |ds| <= 128 * d && ds == Descs(bs, |ds|, d) && |ds| < 0x2_0000
    requires Mapped(bs, ds) && Counted(bs, ds) && Apart(ds, |bs|, d') && maps == Maps(bs, ds)
    requires r == WriteDesc(Zeroed(bs, 1 + d, 1 + d')[ds[0].blockBitmap := Raw(m')], 0, ds[0].(freeBlocks := Clear(m')))
    ensures Growing(bs, ds, d, ipg, d', maps[0 := m'], r, SumClear(maps[0 := m']))
  {
    OpenedGrows(bs, ds, d, ipg, d', maps, m', r);
  }

  /** With nothing to claim the image as it is starts the growth. */
  lemma {:induction false} StartGrowing(bs: seq<Block>, ds: Descriptors, d: nat, ipg: nat, maps: seq<Bits>)
    requires 1 <= d <= 1024 && d < |bs| <= |ds| * 32768 && ipg <= 32768
    requires TableAt(bs, d) && 1 <= |ds| <= 128 * d && ds == Descs(bs, |ds|, d) && |ds| < 0x2_0000
    requires Mapped(bs, ds) && Counted(bs, ds) && Apart(ds, |bs|, d) && maps == Maps(bs, ds)
    ensures Growing(bs, ds, d, ipg, d, maps[0 := Fill(maps[0], 1 + d, 1 + d, true)], bs, SumClear(maps))
  {
    hide Grows, SumClear, Clear, Fill;
    FillNone(maps[0], 1 + d, true);
    assert maps[0 := maps[0]] == maps;
    GrowsStart(bs, ds, d, ipg);
  }

  /** Holes at the end are part of a growth with no group laid yet. */
  lemma GrowingExtended(bs: seq<Block>, ds: Descriptors, d: nat, ipg: nat, d': nat, maps: seq<Bits>, r: seq<Block>,
                        free: nat, N: nat)
    requires Growing(bs, ds, d, ipg, d', maps, r, free) && |ds| == |maps| && |r| == |bs| <= N
    ensures Growing(bs, ds, d, ipg, d', maps, Extended(r, N), free)
    ensures ipg <= 32768 && d' < |bs| && d' <= 1024 && 1 <= |ds| && forall g | 0 <= g < |ds| :: ds[g].blockBitmap < |bs|
  {
    hide Grows, Extended, SumClear;
    GrowsExtended(bs, ds, d, ipg, d', maps, r, N);
  }

  /** Extend the file, give the old tail back, lay the new groups, and mark what lies past the new end. */
  method AddBlocks(f: File, free: U32, n: U32, N: U32, inodesPerGroup: U32,
                   ghost bs: seq<Block>, ghost ds: Descriptors, ghost d: nat, ghost d': nat, ghost maps: seq<Bits>,
                   ghost m1: seq<Bits>)
    returns (free': U32)
    requires 1 <= n < N && |bs| == n == |f.blocks| && |maps| == |ds| == Groups(n) && Groups(N) < 0x2_0000
    requires d == DescriptorBlocks(Groups(n)) && d' == DescriptorBlocks(Groups(N))
    requires m1 == maps[0 := Fill(maps[0], 1 + d, 1 + d', true)]
    requires Growing(bs, ds, d, inodesPerGroup, d', m1, f.blocks, free)
    requires Groups(N) > Groups(n) ==> (Groups(N) - 1) * 32768 + 1 < N
    modifies f`blocks
    ensures |f.blocks| == N
            && Growing(bs, ds, d, inodesPerGroup, d', GrowMaps(maps, inodesPerGroup, n, N), f.blocks, free')
  {
    hide Growing, GrowMaps, Clear, Fill, GroupsLaid;
    GrowingExtended(bs, ds, d, inodesPerGroup, d', m1, f.blocks, free, N);
    f.blocks := Extended(f.blocks, N);
    free' := MoveEnd(f, free, n, false, bs, ds, d, inodesPerGroup, d', m1);
    ghost var m2 := TailMoved(m1, n, false);
    free' := LayGroups(f, free', Groups(n), Groups(N), inodesPerGroup, bs, ds, d, d', m2);
    ghost var m3 := GroupsLaid(m2, Groups(N), Meta(inodesPerGroup));
    if N % 32768 != 0 {
      free' := MoveEnd(f, free', N, true, bs, ds, d, inodesPerGroup, d', m3);
    }
    StagesMakeGrowMaps(maps, inodesPerGroup, n, N, m1, m2, m3, TailMoved(m3, N, true));
  }

  /** What a growth to N blocks that passed the size checks did: nothing, for the first used block in the table's way,
      or all of it. */
  ghost predicate Enlarged(bs: seq<Block>, ds: Descriptors, maps: seq<Bits>, ipg: nat, N: nat, c: Claim, r: seq<Block>,
                           free: nat)
    requires 1 <= |bs| <= N && |maps| == Groups(|bs|) && DescriptorBlocks(Groups(N)) <= 1024
  {
    var d, d' := DescriptorBlocks(Groups(|bs|)), DescriptorBlocks(Groups(N));
    match c
    case Taken(block, max) =>
      && r == bs
      && 1 + d <= block <= d' && maps[0][block] && (forall j | 1 + d <= j < block :: !maps[0][j])
      && max == (block - 1) * 128 * 32768 * 4096
    case Claimed(_) =>
      && (forall j | 1 + d <= j < 1 + d' :: !maps[0][j])
      && |r| == N
      && Growing(bs, ds, d, ipg, d', GrowMaps(maps, ipg, |bs|, N), r, free)
  }

  /** What holds of the image a growth starts from. */
  ghost predicate Ready(bs: seq<Block>, ds: Descriptors, d: nat, ipg: nat, d': nat, maps: seq<Bits>) {
    && 1 <= d <= d' <= 1024 && d' < |bs| <= |ds| * 32768 && ipg <= 32768
    && TableAt(bs, d) && 1 <= |ds| <= 128 * d && ds == Descs(bs, |ds|, d) && |ds| < 0x2_0000
    && Mapped(bs, ds) && Counted(bs, ds) && maps == Maps(bs, ds)
    && d' < ds[0].blockBitmap
    && ((forall j | 1 + d <= j < 1 + d' :: !maps[0][j]) ==> Apart(ds, |bs|, d'))
  }

  lemma FirstGroup(bs: seq<Block>, ds: Descriptors, d: nat, ipg: nat, d': nat, maps: seq<Bits>)
    requires Ready(bs, ds, d, ipg, d', maps)
    ensures |ds| >= 1 && HasDesc(bs, 0) && ds[0] == ReadDesc(bs, 0) && d' < ds[0].blockBitmap < |bs|
    ensures |maps| >= 1 && bs[ds[0].blockBitmap] == Raw(maps[0]) && ds[0].freeBlocks == Clear(maps[0])
  {
    assert ds[0] == ReadDesc(bs, 0);
  }

  lemma {:induction false} ClaimedGrowing(bs: seq<Block>, ds: Descriptors, d: nat, ipg: nat, d': nat, maps: seq<Bits>,
                                          m': Bits, r: seq<Block>)
    requires Ready(bs, ds, d, ipg, d', maps) && m' == Fill(maps[0], 1 + d, 1 + d', true)
    requires Apart(ds, |bs|, d')
    requires ds[0].blockBitmap < |bs| && HasDesc(Zeroed(bs, 1 + d, 1 + d')[ds[0].blockBitmap := Raw(m')], 0)
    requires r == WriteDesc(Zeroed(bs, 1 + d, 1 + d')[ds[0].blockBitmap := Raw(m')], 0, ds[0].(freeBlocks := Clear(m')))
    ensures Growing(bs, ds, d, ipg, d', maps[0 := m'], r, SumClear(maps[0 := m']))
  {
    ClaimGrowing(bs, ds, d, ipg, d', maps, m', r);
  }

  lemma {:induction false} UnclaimedGrowing(bs: seq<Block>, ds: Descriptors, d: nat, ipg: nat, maps: seq<Bits>)
    requires Ready(bs, ds, d, ipg, d, maps)
    ensures Growing(bs, ds, d, ipg, d, maps[0 := Fill(maps[0], 1 + d, 1 + d, true)], bs, SumClear(maps))
  {
    assert Apart(ds, |bs|, d);
    StartGrowing(bs, ds, d, ipg, maps);
  }

  /** What claiming the table's blocks did: nothing, for the first used one, or the first stage of the growth. */
  ghost predicate Opened(bs: seq<Block>, ds: Descriptors, d: nat, ipg: nat, d': nat, maps: seq<Bits>, c: Claim,
                         r: seq<Block>, free: nat)
    requires |maps| >= 1 && d' <= 1024
  {
    match c
    case Taken(block, max) =>
      && r == bs
      && 1 + d <= block <= d' && maps[0][block] && (forall j | 1 + d <= j < block :: !maps[0][j])
      && max == (block - 1) * 128 * 32768 * 4096
    case Claimed(_) =>
      && (forall j | 1 + d <= j < 1 + d' :: !maps[0][j])
      && |r| == |bs|
      && Growing(bs, ds, d, ipg, d', maps[0 := Fill(maps[0], 1 + d, 1 + d', true)], r, free)
  }

  lemma ClaimedOpened(bs: seq<Block>, ds: Descriptors, d: nat, ipg: nat, d': nat, maps: seq<Bits>, c: Claim,
                      r: seq<Block>, free: nat)
    requires c.Claimed? && Ready(bs, ds, d, ipg, d', maps) && ds[0].blockBitmap < |bs| && HasDesc(bs, 0)
    requires TableClaim(bs, ds[0], maps[0], 1 + d, 1 + d', c, r)
    requires free == SumClear(maps[0 := Fill(maps[0], 1 + d, 1 + d', true)])
    ensures Opened(bs, ds, d, ipg, d', maps, c, r, free)
  {
    ClaimedGrowing(bs, ds, d, ipg, d', maps, Fill(maps[0], 1 + d, 1 + d', true), r);
  }

  /** The claimed blocks come off the total, which has them. */
  function ClaimedFree(ghost maps: seq<Bits>, free: U32, count: U16, ghost lo: nat, ghost hi: nat): (r: U32)
    requires |maps| >= 1 && free == SumClear(maps) && lo <= hi <= 32768 && count == hi - lo
    requires forall j | lo <= j < hi :: !maps[0][j]
    ensures r == SumClear(maps[0 := Fill(maps[0], lo, hi, true)])
  {
    ClaimClear(maps, lo, hi);
    Sub32(free, count)
  }

  lemma TakenOpened(bs: seq<Block>, ds: Descriptors, d: nat, ipg: nat, d': nat, maps: seq<Bits>, c: Claim,
                    r: seq<Block>, free: nat)
    requires c.Taken? && Ready(bs, ds, d, ipg, d', maps) && ds[0].blockBitmap < |bs| && HasDesc(bs, 0)
    requires TableClaim(bs, ds[0], maps[0], 1 + d, 1 + d', c, r)
    ensures Opened(bs, ds, d, ipg, d', maps, c, r, free)
  {
  }

  lemma ClaimedRange(bs: seq<Block>, e: GroupDescriptor, m: Bits, lo: nat, hi: nat, c: Claim, r: seq<Block>)
    requires HasDesc(bs, 0) && 2 <= lo <= hi <= e.blockBitmap < |bs| && hi <= 32768 && c.Claimed?
             && TableClaim(bs, e, m, lo, hi, c, r)
    ensures c.count == hi - lo && forall j | lo <= j < hi :: !m[j]
  {
  }

  lemma {:induction false} UnclaimedOpened(bs: seq<Block>, ds: Descriptors, d: nat, ipg: nat, maps: seq<Bits>)
    requires Ready(bs, ds, d, ipg, d, maps)
    ensures Opened(bs, ds, d, ipg, d, maps, Claimed(0), bs, SumClear(maps))
  {
    UnclaimedGrowing(bs, ds, d, ipg, maps);
  }

  /** Claim what the table needs, which starts the growth. */
  method Open(f: File, free: U32, oldGdBlocks: U32, newGdBlocks: U32, ghost ipg: nat, ghost ds: Descriptors,
              ghost maps: seq<Bits>) returns (c: Claim, free': U32)
    requires |maps| >= 1 && 1 <= oldGdBlocks <= newGdBlocks <= 1024
    requires Ready(f.blocks, ds, oldGdBlocks, ipg, newGdBlocks, maps) && free == SumClear(maps)
    modifies f`blocks
    ensures Opened(old(f.blocks), ds, oldGdBlocks, ipg, newGdBlocks, maps, c, f.blocks, free')
  {
    hide Ready, TableClaim, Opened, Growing, SumClear, Clear;
    ghost var bs := f.blocks;
    FirstGroup(bs, ds, oldGdBlocks, ipg, newGdBlocks, maps);
    if newGdBlocks == oldGdBlocks {
      UnclaimedOpened(bs, ds, oldGdBlocks, ipg, maps);
      return Claimed(0), free;
    }
    c := ClaimTable(f, 1 + oldGdBlocks, 1 + newGdBlocks, ds[0], maps[0]);
    if c.Taken? {
      TakenOpened(bs, ds, oldGdBlocks, ipg, newGdBlocks, maps, c, f.blocks, free);
      return c, free;
    }
    ClaimedRange(bs, ds[0], maps[0], 1 + oldGdBlocks, 1 + newGdBlocks, c, f.blocks);
    free' := ClaimedFree(maps, free, c.count, 1 + oldGdBlocks, 1 + newGdBlocks);
    ClaimedOpened(bs, ds, oldGdBlocks, ipg, newGdBlocks, maps, c, f.blocks, free');
  }

  lemma OpenedEnlarged(bs: seq<Block>, ds: Descriptors, maps: seq<Bits>, ipg: nat, N: nat, c: Claim, r: seq<Block>,
                       free: nat)
    requires 1 <= |bs| <= N && |maps| == Groups(|bs|) && DescriptorBlocks(Groups(N)) <= 1024 && c.Taken?
    requires Opened(bs, ds, DescriptorBlocks(Groups(|bs|)), ipg, DescriptorBlocks(Groups(N)), maps, c, r, free)
    ensures Enlarged(bs, ds, maps, ipg, N, c, r, free)
  {
  }

  lemma OpenedGrowing(bs: seq<Block>, ds: Descriptors, d: nat, ipg: nat, d': nat, maps: seq<Bits>, c: Claim,
                      r: seq<Block>, free: nat)
    requires |maps| >= 1 && d' <= 1024 && c.Claimed? && Opened(bs, ds, d, ipg, d', maps, c, r, free)
    ensures |r| == |bs| && (forall j | 1 + d <= j < 1 + d' :: !maps[0][j])
    ensures Growing(bs, ds, d, ipg, d', maps[0 := Fill(maps[0], 1 + d, 1 + d', true)], r, free)
  {
  }

  lemma GrowingEnlarged(bs: seq<Block>, ds: Descriptors, maps: seq<Bits>, ipg: nat, N: nat, c: Claim, r: seq<Block>,
                        free: nat)
    requires 1 <= |bs| <= N == |r| && |maps| == Groups(|bs|) && DescriptorBlocks(Groups(N)) <= 1024 && c.Claimed?
    requires forall j | 1 + DescriptorBlocks(Groups(|bs|)) <= j < 1 + DescriptorBlocks(Groups(N)) :: !maps[0][j]
    requires Growing(bs, ds, DescriptorBlocks(Groups(|bs|)), ipg, DescriptorBlocks(Groups(N)),
                     GrowMaps(maps, ipg, |bs|, N), r, free)
    ensures Enlarged(bs, ds, maps, ipg, N, c, r, free)
  {
  }

  method Enlarge(f: File, free: U32, n: U32, N: U32, inodesPerGroup: U32, ghost ds: Descriptors, ghost maps: seq<Bits>)
    returns (c: Claim, free': U32)
    requires 1 <= n == |f.blocks| < N && |maps| == |ds| == Groups(n) && Groups(N) < 0x2_0000
             && DescriptorBlocks(Groups(N)) <= 1024
    requires Groups(N) > Groups(n) ==> (Groups(N) - 1) * 32768 + 1 < N
    requires Ready(f.blocks, ds, DescriptorBlocks(Groups(n)), inodesPerGroup, DescriptorBlocks(Groups(N)), maps)
             && free == SumClear(maps)
    modifies f`blocks
    ensures Enlarged(old(f.blocks), ds, maps, inodesPerGroup, N, c, f.blocks, free')
  {
    hide Ready, Opened, Growing, Enlarged, SumClear, GrowMaps;
    var oldGdBlocks, newGdBlocks := DescriptorBlocks(Groups(n)), DescriptorBlocks(Groups(N));
    ghost var bs := f.blocks;
    c, free' := Open(f, free, oldGdBlocks, newGdBlocks, inodesPerGroup, ds, maps);
    if c.Taken? {
      OpenedEnlarged(bs, ds, maps, inodesPerGroup, N, c, f.blocks, free');
    } else {
      OpenedGrowing(bs, ds, oldGdBlocks, inodesPerGroup, newGdBlocks, maps, c, f.blocks, free');
      ghost var m1 := maps[0 := Fill(maps[0], 1 + oldGdBlocks, 1 + newGdBlocks, true)];
      free' := AddBlocks(f, free', n, N, inodesPerGroup, bs, ds, oldGdBlocks, newGdBlocks, maps, m1);
      GrowingEnlarged(bs, ds, maps, inodesPerGroup, N, c, f.blocks, free');
    }
  }

  /** max bytes is a size the checks accept, and no larger one is. */
  ghost predicate MaxExact(bs: seq<Block>, ipg: nat, max: nat)
    requires SoundBlocks(bs, ipg)
  {
    && max % 4096 == 0
    && Accepts(bs, ipg, max / 4096)
    && forall N: nat | Accepts(bs, ipg, N) :: N * 4096 <= max
  }

  /** A new last group would have no room for the metadata of 8192 inodes. */
  predicate ShortTail(n: nat, N: nat)
    requires 1 <= n <= N
  {
    Groups(N) > Groups(n) && N > 32768 && 0 < N % 32768 <= 514
  }

  /** Block `block` is the first one in use of those the larger descriptor table would take. */
  ghost predicate FirstUsed(bs: seq<Block>, ipg: nat, N: nat, block: nat)
    requires SoundBlocks(bs, ipg) && |bs| <= N
  {
    && 1 + DescriptorBlocks(Groups(|bs|)) <= block <= DescriptorBlocks(Groups(N)) && block < 32768
    && BlockMap(bs, DescsOf(bs), 0)[block]
    && forall j | 1 + DescriptorBlocks(Groups(|bs|)) <= j < block :: !BlockMap(bs, DescsOf(bs), 0)[j]
  }

  /** Why an image is not grown to N blocks, each answer exactly when: its descriptors would reach the first bitmap; the
      last group would be short; or a block they need is in use, and then which, and the largest size without it. */
  ghost predicate AddAnswered(bs: seq<Block>, ipg: nat, N: nat, r: Added)
    requires SoundBlocks(bs, ipg) && |bs| <= N
  {
    var fits := DescriptorBlocks(Groups(N)) < DescsOf(bs)[0].blockBitmap;
    && (r.TableExceeded? <==> !fits)
    && (r.ShortLastGroup? <==> fits && ShortTail(|bs|, N))
    && (r.DescriptorTaken? <==> fits && !ShortTail(|bs|, N) && exists block: nat :: FirstUsed(bs, ipg, N, block))
    && (r.DescriptorTaken? ==> FirstUsed(bs, ipg, N, r.block) && r.max == (r.block - 1) * 128 * 32768 * 4096)
  }

  /** There is no first block in use exactly where all are free. */
  lemma {:induction false} NoneUsed(bs: seq<Block>, ipg: nat, N: nat)
    requires SoundBlocks(bs, ipg) && |bs| <= N <= MAX_BLOCKS && DescriptorBlocks(Groups(N)) < DescsOf(bs)[0].blockBitmap
    requires Claimable(bs, ipg, N)
    ensures !exists block: nat :: FirstUsed(bs, ipg, N, block)
  {
  }

  lemma TailBySize(n: nat, N: nat)
    requires 1 <= n <= N
    ensures ShortTail(n, N) <==> Groups(N) > Groups(n) && !LastGroupFits(N * 4096)
  {
    assert N * 4096 / 4096 == N;
  }

  /** The disk sizes whose descriptors take b blocks end at b * 128 groups. */
  lemma TableHolds(b: nat, N: nat)
    requires b >= 1 && N >= 1
    ensures var M := b * 128 * 32768;
            && Groups(M) == b * 128 && DescriptorBlocks(Groups(M)) == b && M * 4096 / 4096 == M
            && LastGroupFits(M * 4096)
            && (DescriptorBlocks(Groups(N)) <= b <==> N <= M)
  {
  }

  /** The first used block after the table names the largest size exactly: the whole groups the blocks before it
      describe. */
  lemma TakenMaxExact(bs: seq<Block>, ipg: nat, d: nat, block: nat)
    requires SoundBlocks(bs, ipg) && d == DescriptorBlocks(Groups(|bs|))
    requires 1 + d <= block <= 1024 && block < DescsOf(bs)[0].blockBitmap
    requires BlockMap(bs, DescsOf(bs), 0)[block] && forall j | 1 + d <= j < block :: !BlockMap(bs, DescsOf(bs), 0)[j]
    ensures MaxExact(bs, ipg, (block - 1) * 128 * 32768 * 4096)
  {
    hide SoundWith, LastGroupFits, Groups, DescriptorBlocks, BlockMap;
    var M := (block - 1) * 128 * 32768;
    TableHolds(block - 1, |bs|);
    forall N: nat | Accepts(bs, ipg, N)
      ensures N <= M
    {
      TableHolds(block - 1, N);
    }
  }

  /** Enlarge a sound image whose table has room up to its first bitmap. */
  method EnlargeSound(f: File, sb: SuperBlock, N: U32) returns (c: Claim, free: U32)
    requires Sound(Image(sb, f.blocks)) && |f.blocks| < N <= MAX_BLOCKS
    requires DescriptorBlocks(Groups(N)) < DescsOf(f.blocks)[0].blockBitmap
    requires Groups(N) > Groups(|f.blocks|) ==> LastGroupFits(N * 4096)
    modifies f`blocks
    ensures c.Claimed? <==> Claimable(old(f.blocks), sb.inodesPerGroup, N)
    ensures c.Claimed? ==>
              GrownTo(old(f.blocks), sb.inodesPerGroup, N, f.blocks)
              && free == SumClear(GrownMaps(old(f.blocks), sb.inodesPerGroup, N))
    ensures c.Taken? ==>
              f.blocks == old(f.blocks) && MaxExact(old(f.blocks), sb.inodesPerGroup, c.max) && c.max < N * 4096
    ensures c.Taken? ==>
              FirstUsed(old(f.blocks), sb.inodesPerGroup, N, c.block) && c.max == (c.block - 1) * 128 * 32768 * 4096
  {
    ghost var bs, ds := f.blocks, DescsOf(f.blocks);
    ghost var maps := Maps(bs, ds);
    TableBound(N);
    SumFreeMaps(ds, maps);
    SafeToEnlarge(bs, sb.inodesPerGroup, N, ds, maps);
    LastGroupHasBitmaps(sb.blocksCount, N);
    c, free := Enlarge(f, sb.freeBlocks, sb.blocksCount, N, sb.inodesPerGroup, ds, maps);
    EnlargedMeans(bs, sb.inodesPerGroup, N, ds, maps, c, f.blocks, free);
  }

  lemma FirstDescriptor(sb: SuperBlock, bs: seq<Block>, N: nat)
    requires Sound(Image(sb, bs)) && |bs| <= N <= MAX_BLOCKS
    ensures HasDesc(bs, 0) && ReadDesc(bs, 0) == DescsOf(bs)[0] && sb.blocksCount == |bs|
    ensures 1 <= DescsOf(bs)[0].blockBitmap
    ensures Claimable(bs, sb.inodesPerGroup, N) ==> DescriptorBlocks(Groups(N)) < DescsOf(bs)[0].blockBitmap
  {
    hide TablesApart, MetaInUse, TailsSet, TablesRaw, Counted, Mapped;
  }

  /** Add the block groups between the image's current size and size; a refusal leaves the file as it was. */
  method AddGroups(f: File, sb: SuperBlock, size: nat) returns (r: Added)
    requires Sound(Image(sb, f.blocks)) && size % 4096 == 0 && |f.blocks| < size / 4096 <= MAX_BLOCKS
    modifies f`blocks
    ensures r.Grown? <==> Accepts(old(f.blocks), sb.inodesPerGroup, size / 4096)
    ensures !r.Grown? ==> f.blocks == old(f.blocks)
    ensures r.DescriptorTaken? ==> MaxExact(old(f.blocks), sb.inodesPerGroup, r.max) && r.max < size
    ensures AddAnswered(old(f.blocks), sb.inodesPerGroup, size / 4096, r)
    ensures r.Grown? ==> GrownTo(old(f.blocks), sb.inodesPerGroup, size / 4096, f.blocks)
    ensures r.Grown? ==>
              r.sb == GrownSuper(sb, size / 4096, Groups(sb.blocksCount), Groups(size / 4096), r.sb.freeBlocks)
    ensures r.Grown? ==> r.sb.freeBlocks == SumClear(GrownMaps(old(f.blocks), sb.inodesPerGroup, size / 4096))
  {
    hide SoundBlocks, GrownTo, GrownMaps, SumClear, MaxExact, LastGroupFits, Claimable, SumFree, SumFreeInodes,
         ReadDesc,
         Groups, DescriptorBlocks, InodesIn, InodesIn32, Add32, ShortTail, FirstUsed;
    FirstDescriptor(sb, f.blocks, size / 4096);
    TailBySize(|f.blocks|, size / 4096);
    if Claimable(f.blocks, sb.inodesPerGroup, size / 4096) {
      NoneUsed(f.blocks, sb.inodesPerGroup, size / 4096);
    }
    var newBlocks, oldGroups, newGroups := size / 4096, Groups(sb.blocksCount), Groups(size / 4096);
    assert newBlocks * 4096 == size;
    var gd := ReadDesc(f.blocks, 0);
    if DescriptorBlocks(newGroups) > gd.blockBitmap - 1 {
      return TableExceeded;
    }
    if newGroups > oldGroups && !LastGroupFits(size) {
      return ShortLastGroup;
    }
    var c, free := EnlargeSound(f, sb, newBlocks);
    if c.Taken? {
      return DescriptorTaken(c.block, c.max);
    }
    r := Grown(GrownSuper(sb, newBlocks, oldGroups, newGroups, free));
  }

  /** What the enlarging did, in terms of the invariant. */
  lemma EnlargedMeans(bs: seq<Block>, ipg: nat, N: nat, ds: Descriptors, maps: seq<Bits>, c: Claim, r: seq<Block>,
                      free: nat)
    requires SoundBlocks(bs, ipg) && |bs| < N <= MAX_BLOCKS && ds == DescsOf(bs) && maps == Maps(bs, ds)
    requires DescriptorBlocks(Groups(N)) <= 1024 && DescriptorBlocks(Groups(N)) < ds[0].blockBitmap
    requires Enlarged(bs, ds, maps, ipg, N, c, r, free)
    ensures c.Claimed? <==> Claimable(bs, ipg, N)
    ensures c.Claimed? ==> GrownTo(bs, ipg, N, r) && free == SumClear(GrownMaps(bs, ipg, N))
    ensures c.Taken? ==> r == bs && MaxExact(bs, ipg, c.max) && c.max < N * 4096
    ensures c.Taken? ==> FirstUsed(bs, ipg, N, c.block) && c.max == (c.block - 1) * 128 * 32768 * 4096
  {
    if c.Taken? {
      TakenMaxExact(bs, ipg, DescriptorBlocks(Groups(|bs|)), c.block);
    }
  }

  /** The invariant gives what the growth needs of the layout. */
  lemma SafeToEnlarge(bs: seq<Block>, ipg: nat, N: nat, ds: Descriptors, maps: seq<Bits>)
    requires SoundBlocks(bs, ipg) && |bs| < N <= MAX_BLOCKS && ds == DescsOf(bs) && maps == Maps(bs, ds)
    requires DescriptorBlocks(Groups(N)) < ds[0].blockBitmap
    ensures Ready(bs, ds, DescriptorBlocks(Groups(|bs|)), ipg, DescriptorBlocks(Groups(N)), maps)
  {
    TableBound(N);
    var d, d' := DescriptorBlocks(Groups(|bs|)), DescriptorBlocks(Groups(N));
    assert ds[0].blockBitmap < |bs|;
    if forall j | 1 + d <= j < 1 + d' :: !maps[0][j] {
      ClaimApart(bs, ds, d, d', TableBlocks(ipg));
    }
  }

  lemma LastGroupHasBitmaps(n: nat, N: nat)
    requires 1 <= n < N && (Groups(N) > Groups(n) ==> LastGroupFits(N * 4096))
    ensures Groups(N) > Groups(n) ==> (Groups(N) - 1) * 32768 + 1 < N
  {
    assert N == (Groups(N) - 1) * 32768 + if N % 32768 == 0 then 32768 else N % 32768;
    assert N * 4096 / 4096 == N;
  }
}
