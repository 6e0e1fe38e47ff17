/** Widening every group of a fresh image to a full share of inodes: the group count settles, and no inode or block
    changes meaning. */
module Ext4Inodes {
  import opened Bitmaps
  import opened Ext4Format
  import opened Ext4Layout
  import opened Ext4Grow
  import opened Ext4Journal
  import opened Ext4JournalFile

  // A full share is 8192 inodes a group, one per 16 KiB of disk, in a table of 512 blocks.

  // How many groups the wider tables need.

  /** The end of the metadata of g widened groups whose tables start at tableStart. */
  function MetaEnd(tableStart: nat, g: nat): nat { tableStart + 514 * g }

  /** The blocks of an image of at least size blocks with g widened groups. */
  function BlocksFor(tableStart: nat, size: nat, g: nat): nat {
    if MetaEnd(tableStart, g) >= size then MetaEnd(tableStart, g) else size
  }

  /** g groups hold the metadata g groups need. */
  predicate Covers(tableStart: nat, size: nat, g: nat) {
    BlocksFor(tableStart, size, g) <= g * 32768
  }

  datatype Widening = Widening(groups: U32, valid: U32, blocks: U32) | PastLimit

  /** More groups never need fewer. */
  lemma NeedGrows(tableStart: nat, size: nat, g: nat, h: nat)
    requires size >= 1 && g <= h
    ensures BlocksFor(tableStart, size, g) <= BlocksFor(tableStart, size, h)
    ensures Groups(BlocksFor(tableStart, size, g)) <= Groups(BlocksFor(tableStart, size, h))
  {
  }

  /** Settle the group count: the least one, from the image's own up, that covers its own metadata; none only if no
      count at all fits. */
  method Widen(groups: U32, tableStart: U32, size: U32) returns (r: Widening)
    requires size >= 1 && groups == Groups(size)
    ensures r.Widening? ==>
              && groups <= r.groups && Covers(tableStart, size, r.groups)
              && (forall h | groups <= h < r.groups :: !Covers(tableStart, size, h))
              && r.valid == MetaEnd(tableStart, r.groups)
              && r.blocks == BlocksFor(tableStart, size, r.groups) <= MAX_BLOCKS
              && r.groups == Groups(r.blocks)
    ensures r.PastLimit? ==>
              forall h: nat | groups <= h && Covers(tableStart, size, h) :: BlocksFor(tableStart, size, h) > MAX_BLOCKS
  {
    var g: nat := groups;
    while true
      invariant groups <= g <= Groups(BlocksFor(tableStart, size, g))
      invariant forall h | groups <= h < g :: h < Groups(BlocksFor(tableStart, size, h))
      decreases MAX_BLOCKS - g
    {
      var valid := tableStart + g * 512 + 2 * g;
      var blocks: nat := if valid >= size then valid else size;
      assert blocks == BlocksFor(tableStart, size, g);
      if blocks > MAX_BLOCKS {
        forall h: nat | groups <= h && Covers(tableStart, size, h)
          ensures BlocksFor(tableStart, size, h) > MAX_BLOCKS
        {
          if h >= g {
            NeedGrows(tableStart, size, g, h);
          }
        }
        return PastLimit;
      }
      var next := Groups(blocks);
      if next == g {
        return Widening(g, valid, blocks);
      }
      forall h | g <= h < next
        ensures h < Groups(BlocksFor(tableStart, size, h))
      {
        NeedGrows(tableStart, size, g, h);
      }
      NeedGrows(tableStart, size, g, next);
      g := next;
    }
  }

  // Inode numbers and the tables that hold them.

  lemma MulMono(a: nat, b: nat, c: nat)
    requires a <= b
    ensures a * c <= b * c
  {
  }

  lemma DivUnique(x: nat, d: nat, g: nat, k: nat)
    requires k < d && x == g * d + k
    ensures x / d == g && x % d == k
  {
    var q, r := x / d, x % d;
    assert x == q * d + r && 0 <= r < d;
    assert (q + 1) * d == q * d + d && (g + 1) * d == g * d + d;
    if q < g {
      MulMono(q + 1, g, d);
    } else if q > g {
      MulMono(g + 1, q, d);
    }
  }

  /** The blocks of groups tables of q blocks each. */
  function Span(groups: nat, q: nat): nat { groups * q }

  /** The group of an inode where groups have share inodes each, and its place there. */
  function GroupOf(ino: nat, share: nat): nat
    requires share >= 1
  {
    ino / share
  }

  function IndexIn(ino: nat, share: nat): (k: nat)
    requires share >= 1
    ensures k < share
  {
    ino % share
  }

  lemma Scaled(a: nat, q: nat, share: nat)
    requires share == 16 * q
    ensures a * share == 16 * (a * q)
  {
  }

  /** Inode ino is in table ino / 16 / q, in block ino / 16 % q of it. */
  lemma InodeSplit(ino: nat, q: nat, share: nat)
    requires q >= 1 && share == 16 * q
    ensures var t := ino / 16;
            && t == Span(t / q, q) + t % q && t % q < q
            && GroupOf(ino, share) == t / q && IndexIn(ino, share) == 16 * (t % q) + ino % 16
  {
    var t := ino / 16;
    var g, w := t / q, t % q;
    assert t == g * q + w;
    Scaled(g, q, share);
    DivUnique(ino, share, g, 16 * w + ino % 16);
  }

  /** In tables of q blocks laid end to end, so of share inodes each, inode ino lies in block ino / 16 of the whole. */
  lemma InodePlace(ino: nat, groups: nat, q: nat, share: nat)
    requires q >= 1 && share == 16 * q
    ensures ino < InodesIn(groups, share) <==> ino / 16 < Span(groups, q)
    ensures ino / 16 < Span(groups, q) ==> GroupOf(ino, share) < groups
    ensures IndexIn(ino, share) % 16 == ino % 16
    ensures Span(GroupOf(ino, share), q) + IndexIn(ino, share) / 16 == ino / 16
  {
    InodeSplit(ino, q, share);
    Scaled(groups, q, share);
    assert InodesIn(groups, share) == 16 * Span(groups, q);
    var g := ino / 16 / q;
    assert g >= groups ==> Span(g, q) >= Span(groups, q) by {
      if g >= groups {
        MulMono(groups, g, q);
      }
    }
    hide InodesIn, Span, GroupOf, IndexIn;
  }

  // What the widened image holds.

  /** The numbers of one widening: where the tables start, the blocks of an old table, the old group count, and the new
      layout. */
  datatype Plan = Plan(tableStart: nat, table: nat, oldGroups: nat, groups: nat, valid: nat, blocks: nat) {

    /** Where the old tables end and the old bitmaps start. */
    function OldBitmaps(): nat { tableStart + Span(oldGroups, table) }

    function NewBitmaps(): nat { tableStart + 512 * groups }

    /** Inodes of one old group. */
    function Share(): nat { 16 * table }
  }

  /** The image as the writer lays it: 1024 blocks kept for descriptors, then data, the tables end to end, the bitmaps.
      */
  ghost predicate Fresh(bs: seq<Block>, p: Plan) {
    && 1 <= |bs| <= p.blocks <= MAX_BLOCKS && p.oldGroups == Groups(|bs|) <= p.groups == Groups(p.blocks)
    && TableAt(bs, 1024) && (forall i | 1024 < i < |bs| :: bs[i].Raw?)
    && 1024 < p.tableStart && 1 <= p.table < 512
    && p.OldBitmaps() + 2 * p.oldGroups <= |bs|
    && p.valid == MetaEnd(p.tableStart, p.groups) <= p.blocks
  }

  /** The number names an inode of the old tables. */
  ghost predicate IsInode(p: Plan, ino: nat) {
    ino / 16 < Span(p.oldGroups, p.table)
  }

  /** The 256 bytes of an inode in the old tables, which number one array. */
  ghost function OldInode(bs: seq<Block>, p: Plan, ino: nat): (s: seq<bool>)
    requires Fresh(bs, p) && IsInode(p, ino)
    ensures |s| == 2048
  {
    InodeSlot(bs[p.tableStart + ino / 16].bits, ino % 16)
  }

  /** The inode's bit in the old bitmaps is set. */
  ghost predicate OldUsed(bs: seq<Block>, p: Plan, ino: nat)
    requires Fresh(bs, p)
  {
    IsInode(p, ino) && OldBit(bs, p, ino)
  }

  ghost predicate OldBit(bs: seq<Block>, p: Plan, ino: nat)
    requires Fresh(bs, p) && IsInode(p, ino)
  {
    InodePlace(ino, p.oldGroups, p.table, p.Share());
    bs[p.OldBitmaps() + 2 * GroupOf(ino, p.Share()) + 1].bits[IndexIn(ino, p.Share())]
  }

  predicate IsDir(inode: seq<bool>)
    requires |inode| == 2048
  {
    Mode(inode) / 0x1000 % 0x10 == 4
  }

  /** An inode is a directory exactly with bit 14 of its mode set and bits 12, 13 and 15 clear, which is how the kernel
      keeps a file's kind. */
  lemma {:induction false} DirBits(inode: seq<bool>)
    requires |inode| == 2048
    ensures IsDir(inode) <==> !inode[12] && !inode[13] && inode[14] && !inode[15]
  {
    var s := inode[..16];
    FromConcat(s[..12], s[12..]);
    assert s == s[..12] + s[12..];
    FromBitsBound(s[..12]);
    assert Pow2(4) == 16 && Pow2(12) == 0x1000;
    KindBits(s[12..]);
    KindOf(FromBits(s[..12]), FromBits(s[12..]), FromBits(s));
  }

  lemma KindOf(low: nat, kind: nat, mode: nat)
    requires low < 0x1000 && kind < 0x10 && mode == low + 0x1000 * kind
    ensures mode / 0x1000 % 0x10 == kind
  {
  }

  lemma {:induction false} KindBits(s: seq<bool>)
    requires |s| == 4
    ensures FromBits(s) < 0x10 && (FromBits(s) == 4 <==> !s[0] && !s[1] && s[2] && !s[3])
  {
    assert FromBits(s) == (if s[0] then 1 else 0) + 2 * FromBits(s[1..]);
    assert FromBits(s[1..]) == (if s[1] then 1 else 0) + 2 * FromBits(s[2..]);
    assert FromBits(s[2..]) == (if s[2] then 1 else 0) + 2 * FromBits(s[3..]);
    assert FromBits(s[3..]) == (if s[3] then 1 else 0) + 2 * FromBits(s[4..]);
    assert s[1..][1..] == s[2..] && s[2..][1..] == s[3..] && s[3..][1..] == s[4..];
  }

  /** Block b of the widened disk is used: as it was below the tables, then the metadata, nothing of the rest, and all
      past the end. */
  ghost predicate WideBit(bs: seq<Block>, p: Plan, g: nat, j: nat)
    requires Fresh(bs, p) && j < 32768
  {
    var b := g * 32768 + j;
    if b < p.tableStart then g < p.oldGroups && bs[p.OldBitmaps() + 2 * g].bits[j] else b < p.valid || b >= p.blocks
  }

  ghost function WideMap(bs: seq<Block>, p: Plan, g: nat): (m: Bits)
    requires Fresh(bs, p)
    ensures forall j | 0 <= j < 32768 :: m[j] == WideBit(bs, p, g, j)
  {
    seq(32768, j requires 0 <= j < 32768 => WideBit(bs, p, g, j))
  }

  ghost function WideInodeMap(bs: seq<Block>, p: Plan, g: nat): (m: Bits)
    requires Fresh(bs, p)
    ensures forall j | 0 <= j < 32768 :: m[j] == (j < 8192 && OldUsed(bs, p, g * 8192 + j))
  {
    seq(32768, j requires 0 <= j < 32768 => j < 8192 && OldUsed(bs, p, g * 8192 + j))
  }

  /** Which of group g's inodes are directories in use. */
  ghost function WideDirs(bs: seq<Block>, p: Plan, g: nat): (m: seq<bool>)
    requires Fresh(bs, p)
    ensures |m| == 8192
    ensures forall j | 0 <= j < 8192 :: m[j] == (OldUsed(bs, p, g * 8192 + j) && ReadsAsDir(bs, p, g * 8192 + j))
  {
    seq(8192, j requires 0 <= j < 8192 => OldUsed(bs, p, g * 8192 + j) && ReadsAsDir(bs, p, g * 8192 + j))
  }

  /** The inode whose mode is read for number ino: the byte offset is computed in 32 bits. */
  function ModeAt(ino: nat): (k: nat)
    ensures k <= ino && (ino < 0x100_0000 ==> k == ino)
  {
    ino % 0x100_0000
  }

  ghost predicate ReadsAsDir(bs: seq<Block>, p: Plan, ino: nat)
    requires Fresh(bs, p)
  {
    IsInode(p, ModeAt(ino)) && IsDir(OldInode(bs, p, ModeAt(ino)))
  }

  /** How many bits are set. */
  function Count(b: seq<bool>): (n: nat)
    ensures n <= |b|
  {
    |b| - Clear(b)
  }

  ghost function WideDesc(bs: seq<Block>, p: Plan, g: nat): GroupDescriptor
    requires Fresh(bs, p) && g < p.groups
  {
    GroupDescriptor(p.NewBitmaps() + 2 * g, p.NewBitmaps() + 2 * g + 1, p.tableStart + 512 * g,
                    Clear(WideMap(bs, p, g)), 8192 - Count(WideInodeMap(bs, p, g)[..8192]), Count(WideDirs(bs, p, g)),
                    0, 0, 0, 0, 0, 0)
  }

  /** A block of the widened image that no group's bitmaps take: the table, zeros after it, or what was there. */
  ghost function WideBlock(bs: seq<Block>, p: Plan, i: nat): Block
    requires Fresh(bs, p)
  {
    if i < p.tableStart then (if i < |bs| then bs[i] else Raw(ZeroBits()))
    else if i < p.NewBitmaps() then (if i < p.OldBitmaps() then bs[i] else Raw(ZeroBits()))
    else if i < |bs| then bs[i] else Raw(ZeroBits())
  }

  /** r is bs widened, its first done groups' descriptors and bitmaps written. */
  ghost predicate WidenedTo(bs: seq<Block>, p: Plan, done: nat, r: seq<Block>)
    requires Fresh(bs, p)
  {
    && |r| == p.blocks && done <= p.groups && TableAt(r, 1024) && r[0] == bs[0]
    && (forall k | 0 <= k < 128 * 1024 :: ReadDesc(r, k) == if k < done then WideDesc(bs, p, k) else ReadDesc(bs, k))
    && (forall i | 1024 < i < p.NewBitmaps() :: r[i] == WideBlock(bs, p, i))
    && (forall i | p.valid <= i < p.blocks :: r[i] == WideBlock(bs, p, i))
    && (forall g | 0 <= g < done ::
          r[p.NewBitmaps() + 2 * g] == Raw(WideMap(bs, p, g))
          && r[p.NewBitmaps() + 2 * g + 1] == Raw(WideInodeMap(bs, p, g)))
  }

  // Rebuilding one group's bitmaps.

  lemma CountStep(b: seq<bool>, j: nat)
    requires j < |b|
    ensures Count(b[..j + 1]) == Count(b[..j]) + if b[j] then 1 else 0
  {
    assert b[..j + 1][..j] == b[..j];
  }

  /** Rebuild a group's block bitmap from its old one, counting the used blocks as they are settled. */
  method WidenBlockMap(base: Bits, start: nat, tableStart: nat, valid: nat, blocks: nat) returns (bits: Bits, used: nat)
    ensures forall j | 0 <= j < 32768 ::
              bits[j] == if start + j < tableStart then base[j] else start + j < valid || start + j >= blocks
    ensures used == Count(bits)
  {
    var bitmap := new bool[32768](i requires 0 <= i < 32768 => base[i]);
    used := 0;
    for j := 0 to 32768
      invariant forall k | 0 <= k < j ::
                  bitmap[k] == if start + k < tableStart then base[k] else start + k < valid || start + k >= blocks
      invariant forall k | j <= k < 32768 :: bitmap[k] == base[k]
      invariant used == Count(bitmap[..j]) <= j
    {
      ghost var before := bitmap[..j];
      var b := start + j;
      if b >= tableStart {
        bitmap[j] := false;
        if b < valid || b >= blocks {
          bitmap[j] := true;
        }
      }
      if bitmap[j] {
        used := used + 1;
      }
      assert bitmap[..][..j] == before;
      CountStep(bitmap[..], j);
      assert bitmap[..][..j + 1] == bitmap[..j + 1];
    }
    assert bitmap[..32768] == bitmap[..];
    bits := bitmap[..];
  }

  /** What reading the old tables and bitmaps into memory gives. */
  ghost predicate InMemory(bs: seq<Block>, p: Plan, table: seq<Block>, oldBitmaps: seq<Block>)
    requires Fresh(bs, p)
  {
    table == bs[p.tableStart..p.OldBitmaps()] && oldBitmaps == bs[p.OldBitmaps()..p.OldBitmaps() + 2 * p.oldGroups]
  }

  /** Inode ino is marked used in the old bitmaps; a number past the old tables is not. */
  method InodeUsed(table: seq<Block>, oldBitmaps: seq<Block>, ino: nat, share: nat, oldGroups: nat,
                   ghost bs: seq<Block>, ghost p: Plan) returns (used: bool)
    requires Fresh(bs, p) && InMemory(bs, p, table, oldBitmaps) && share == p.Share() && oldGroups == p.oldGroups
    ensures used == OldUsed(bs, p, ino)
  {
    InodePlace(ino, oldGroups, p.table, share);
    if ino >= InodesIn(oldGroups, share) {
      return false;
    }
    hide InodesIn;
    var g, bit := GroupOf(ino, share), IndexIn(ino, share);
    assert oldBitmaps[2 * g + 1] == bs[p.OldBitmaps() + 2 * g + 1];
    used := oldBitmaps[2 * g + 1].bits[bit];
  }

  /** The 32-bit byte offset of an inode names a block and a place there: the inode's own below 2^24. */
  lemma ByteOffset(ino: nat)
    ensures var at := ino * 256 % 0x1_0000_0000; at / 4096 == ModeAt(ino) / 16 && at % 4096 / 256 == ModeAt(ino) % 16
  {
    var q, k := ino / 0x100_0000, ino % 0x100_0000;
    assert ino * 256 == q * 0x1_0000_0000 + k * 256;
    assert ino * 256 % 0x1_0000_0000 == k * 256;
  }

  /** Whether the inode at byte ino * 256 of the tables, an offset of 32 bits, is a directory. */
  method InodeIsDir(table: seq<Block>, ino: nat, ghost bs: seq<Block>, ghost p: Plan, ghost oldBitmaps: seq<Block>)
    returns (dir: bool)
    requires Fresh(bs, p) && InMemory(bs, p, table, oldBitmaps) && IsInode(p, ino)
    ensures dir == ReadsAsDir(bs, p, ino)
  {
    hide IsDir, InodeSlot;
    ByteOffset(ino);
    ghost var k := ModeAt(ino);
    hide ModeAt;
    assert k / 16 <= ino / 16;
    var at := ino * 256 % 0x1_0000_0000;
    assert table[k / 16] == bs[p.tableStart + k / 16];
    dir := IsDir(InodeSlot(table[at / 4096].bits, at % 4096 / 256));
  }

  /** Rebuild group g's inode bitmap at the wider share, counting the used inodes and the directories among them. */
  method WidenInodeMap(table: seq<Block>, oldBitmaps: seq<Block>, g: nat, share: nat, oldGroups: nat,
                       ghost bs: seq<Block>, ghost p: Plan)
    returns (bits: Bits, usedInodes: U16, dirs: U16)
    requires Fresh(bs, p) && InMemory(bs, p, table, oldBitmaps) && share == p.Share() && oldGroups == p.oldGroups
    ensures bits == WideInodeMap(bs, p, g)
    ensures usedInodes == Count(WideInodeMap(bs, p, g)[..8192]) && dirs == Count(WideDirs(bs, p, g))
  {
    hide Fresh, InMemory, Clear, OldBit, ReadsAsDir;
    var bitmap := new bool[32768](_ => false);
    ghost var wide, wideDirs := WideInodeMap(bs, p, g), WideDirs(bs, p, g);
    usedInodes, dirs := 0, 0;
    for j := 0 to 8192
      invariant forall k | 0 <= k < 32768 :: bitmap[k] == (k < j && wide[k])
      invariant usedInodes == Count(wide[..j]) && dirs == Count(wideDirs[..j])
    {
      CountStep(wide, j);
      CountStep(wideDirs, j);
      var ino := g * 8192 + j;
      var used := InodeUsed(table, oldBitmaps, ino, share, oldGroups, bs, p);
      if used {
        bitmap[j] := true;
        usedInodes := Add16(usedInodes, 1);
        var dir := InodeIsDir(table, ino, bs, p, oldBitmaps);
        if dir {
          dirs := Add16(dirs, 1);
        }
      }
    }
    assert wideDirs[..8192] == wideDirs;
    assert bitmap[..] == wide;
    bits := bitmap[..];
  }

  // Widening the image.

  datatype Reservation = Reserved(plan: Plan) | AlreadyWide | NotOurLayout | ReadPastEnd | NoRoom

  /** The tables rewritten in place: zeros over all the new metadata, then the old table back at its start. */
  lemma TablesRewritten(bs: seq<Block>, p: Plan, r: seq<Block>)
    requires Fresh(bs, p) && Span(p.oldGroups, p.table) <= 512 * p.groups && |r| == p.blocks
    requires forall i | 0 <= i < p.blocks ::
               r[i] == if p.tableStart <= i < p.OldBitmaps() then bs[i]
                       else if p.tableStart <= i < p.valid then Raw(ZeroBits())
                       else if i < |bs| then bs[i] else Raw(ZeroBits())
    ensures WidenedTo(bs, p, 0, r)
  {
    forall k | 0 <= k < 128 * 1024
      ensures HasDesc(r, k) && ReadDesc(r, k) == ReadDesc(bs, k)
    {
      assert 1 + k / 128 <= 1024 && r[1 + k / 128] == bs[1 + k / 128];
    }
  }

  /** A descriptor is written in the blocks kept for descriptors. */
  lemma WrittenElsewhere(bs: seq<Block>, g: nat, e: GroupDescriptor)
    requires TableAt(bs, 1024) && g < 128 * 1024 && HasDesc(bs, g)
    ensures var r := WriteDesc(bs, g, e);
            |r| == |bs| && TableAt(r, 1024) && r[0] == bs[0] && forall i | 1024 < i < |bs| :: r[i] == bs[i]
  {
  }

  /** Bitmaps written behind the blocks kept for descriptors change no descriptor. */
  lemma DescriptorsStay(r: seq<Block>, b: seq<Block>)
    requires |b| == |r| && TableAt(r, 1024) && forall i | 0 <= i <= 1024 < |r| :: b[i] == r[i]
    ensures forall k | 0 <= k < 128 * 1024 :: HasDesc(b, k) && HasDesc(r, k) && ReadDesc(b, k) == ReadDesc(r, k)
  {
    forall k | 0 <= k < 128 * 1024
      ensures HasDesc(b, k) && HasDesc(r, k) && ReadDesc(b, k) == ReadDesc(r, k)
    {
      assert 1 + k / 128 <= 1024;
    }
  }

  /** One more group's bitmaps and descriptor. */
  lemma GroupWidened(bs: seq<Block>, p: Plan, g: nat, r: seq<Block>, r': seq<Block>)
    requires Fresh(bs, p) && WidenedTo(bs, p, g, r) && g < p.groups
    requires p.NewBitmaps() + 2 * g + 1 < |r| && g < 128 * 1024
    requires var b2 := r[p.NewBitmaps() + 2 * g := Raw(WideMap(bs, p, g))]
                        [p.NewBitmaps() + 2 * g + 1 := Raw(WideInodeMap(bs, p, g))];
             HasDesc(b2, g) && r' == WriteDesc(b2, g, WideDesc(bs, p, g))
    ensures WidenedTo(bs, p, g + 1, r')
  {
    hide WideMap, WideInodeMap, WideDesc, WideBlock, Fresh;
    var b2 := r[p.NewBitmaps() + 2 * g := Raw(WideMap(bs, p, g))]
               [p.NewBitmaps() + 2 * g + 1 := Raw(WideInodeMap(bs, p, g))];
    assert 1024 < p.NewBitmaps() <= p.valid == p.NewBitmaps() + 2 * p.groups by { FreshNumbers(bs, p); }
    DescriptorsStay(r, b2);
    ReadWritten(b2, g, WideDesc(bs, p, g));
    WrittenElsewhere(b2, g, WideDesc(bs, p, g));
    hide WriteDesc, ReadDesc;
    assert forall i | 1024 < i < |r| && i != p.NewBitmaps() + 2 * g && i != p.NewBitmaps() + 2 * g + 1 :: r'[i] == r[i];
  }

  lemma FreshNumbers(bs: seq<Block>, p: Plan)
    requires Fresh(bs, p)
    ensures 1024 < p.tableStart && p.valid == p.NewBitmaps() + 2 * p.groups <= p.blocks && 1 <= p.groups < 0x2_0000
    ensures 1024 < p.NewBitmaps() && p.OldBitmaps() <= |bs| <= p.blocks <= MAX_BLOCKS
  {
  }

  /** Rebuild group g: its bitmaps, then its descriptor. */
  method WidenGroup(f: File, g: nat, table: seq<Block>, oldBitmaps: seq<Block>, share: nat, p: Plan,
                    ghost bs: seq<Block>)
    returns (freeBlocks: U16, freeInodes: U16)
    requires Fresh(bs, p) && InMemory(bs, p, table, oldBitmaps) && share == p.Share()
    requires g < p.groups && WidenedTo(bs, p, g, f.blocks)
    modifies f`blocks
    ensures WidenedTo(bs, p, g + 1, f.blocks)
    ensures freeBlocks == WideDesc(bs, p, g).freeBlocks && freeInodes == WideDesc(bs, p, g).freeInodes
  {
    hide Fresh, InMemory, WidenedTo, WideMap, WideInodeMap, WideDirs, Clear, MetaEnd;
    FreshNumbers(bs, p);
    ghost var r := f.blocks;
    OldMapRead(bs, p, table, oldBitmaps, g);
    var base := if g < p.oldGroups then oldBitmaps[2 * g].bits else ZeroBits();
    var bits, used := WidenBlockMap(base, g * 32768, p.tableStart, p.valid, p.blocks);
    BlockMapWide(bs, p, g, base, bits);
    var inodeBits, usedInodes, dirs := WidenInodeMap(table, oldBitmaps, g, share, p.oldGroups, bs, p);
    var start := p.NewBitmaps() + 2 * g;
    freeBlocks := Low16(32768 - used);
    freeInodes := Sub16(8192, usedInodes);
    var gd := GroupDescriptor(start, start + 1, p.tableStart + 512 * g, freeBlocks, freeInodes, dirs, 0, 0, 0, 0, 0, 0);
    assert gd == WideDesc(bs, p, g);
    WritableAt(bs, p, g, f.blocks, Raw(bits), Raw(inodeBits));
    f.blocks := f.blocks[start := Raw(bits)][start + 1 := Raw(inodeBits)];
    f.blocks := WriteDesc(f.blocks, g, gd);
    GroupWidened(bs, p, g, r, f.blocks);
  }

  lemma OldMapRead(bs: seq<Block>, p: Plan, table: seq<Block>, oldBitmaps: seq<Block>, g: nat)
    requires Fresh(bs, p) && InMemory(bs, p, table, oldBitmaps)
    ensures g < p.oldGroups ==>
              2 * g < |oldBitmaps| && oldBitmaps[2 * g] == bs[p.OldBitmaps() + 2 * g] && oldBitmaps[2 * g].Raw?
  {
  }

  lemma BlockMapWide(bs: seq<Block>, p: Plan, g: nat, base: Bits, bits: Bits)
    requires Fresh(bs, p)
    requires g < p.oldGroups ==> base == bs[p.OldBitmaps() + 2 * g].bits
    requires g >= p.oldGroups ==> base == ZeroBits()
    requires forall j | 0 <= j < 32768 ::
               bits[j] == if g * 32768 + j < p.tableStart then base[j]
                          else g * 32768 + j < p.valid || g * 32768 + j >= p.blocks
    ensures bits == WideMap(bs, p, g)
  {
  }

  lemma WritableAt(bs: seq<Block>, p: Plan, g: nat, r: seq<Block>, x: Block, y: Block)
    requires Fresh(bs, p) && g < p.groups && WidenedTo(bs, p, g, r)
    ensures 1024 < p.NewBitmaps() + 2 * g + 1 < |r| && g < 128 * 1024
    ensures HasDesc(r[p.NewBitmaps() + 2 * g := x][p.NewBitmaps() + 2 * g + 1 := y], g)
  {
  }

  ghost function WideDescs(bs: seq<Block>, p: Plan, n: nat): (ds: Descriptors)
    requires Fresh(bs, p) && n <= p.groups
    ensures |ds| == n && forall g | 0 <= g < n :: ds[g] == WideDesc(bs, p, g)
  {
    seq(n, g requires 0 <= g < n => WideDesc(bs, p, g))
  }

  /** The totals so far, which 32 bits hold. */
  lemma WideSums(bs: seq<Block>, p: Plan, g: nat)
    requires Fresh(bs, p) && g < p.groups
    ensures SumFree(WideDescs(bs, p, g + 1)) == SumFree(WideDescs(bs, p, g)) + WideDesc(bs, p, g).freeBlocks <
              0x1_0000_0000
    ensures SumFreeInodes(WideDescs(bs, p, g + 1)) ==
              SumFreeInodes(WideDescs(bs, p, g)) + WideDesc(bs, p, g).freeInodes < 0x1_0000_0000
  {
    FreshNumbers(bs, p);
    var ds := WideDescs(bs, p, g + 1);
    assert ds[..g] == WideDescs(bs, p, g);
    SumFreeBound(ds);
  }

  /** Rebuild every group, adding up what they leave free. */
  method WidenGroups(f: File, table: seq<Block>, oldBitmaps: seq<Block>, share: nat, p: Plan, ghost bs: seq<Block>)
    returns (freeBlocks: U32, freeInodes: U32)
    requires Fresh(bs, p) && InMemory(bs, p, table, oldBitmaps) && share == p.Share()
    requires WidenedTo(bs, p, 0, f.blocks)
    modifies f`blocks
    ensures WidenedTo(bs, p, p.groups, f.blocks)
    ensures freeBlocks == SumFree(WideDescs(bs, p, p.groups)) && freeInodes == SumFreeInodes(WideDescs(bs, p, p.groups))
  {
    hide Fresh, InMemory, WidenedTo, WideDesc, SumFree, SumFreeInodes;
    freeBlocks, freeInodes := 0, 0;
    EmptySums(bs, p);
    for g := 0 to p.groups
      invariant WidenedTo(bs, p, g, f.blocks)
      invariant freeBlocks == SumFree(WideDescs(bs, p, g)) && freeInodes == SumFreeInodes(WideDescs(bs, p, g))
    {
      var blocks, inodes := WidenGroup(f, g, table, oldBitmaps, share, p, bs);
      WideSums(bs, p, g);
      freeBlocks := Add32(freeBlocks, blocks);
      freeInodes := Add32(freeInodes, inodes);
    }
  }

  lemma EmptySums(bs: seq<Block>, p: Plan)
    requires Fresh(bs, p)
    ensures SumFree(WideDescs(bs, p, 0)) == 0 && SumFreeInodes(WideDescs(bs, p, 0)) == 0
  {
  }

  /** The descriptors are laid out as the writer lays them: tables end to end from tableStart, then the bitmaps in
      pairs. */
  ghost predicate WriterLayout(bs: seq<Block>, groups: nat, table: nat)
    requires TableAt(bs, 1024) && 1 <= groups <= 128 * 1024
  {
    var start, maps := ReadDesc(bs, 0).inodeTable, ReadDesc(bs, 0).blockBitmap;
    && maps == start + Span(groups, table)
    && forall g | 0 <= g < groups ::
         ReadDesc(bs, g).inodeTable == start + Span(g, table) && ReadDesc(bs, g).blockBitmap == maps + 2 * g
         && ReadDesc(bs, g).inodeBitmap == maps + 2 * g + 1
  }

  method CheckLayout(f: File, groups: nat, table: nat) returns (ok: bool)
    requires TableAt(f.blocks, 1024) && 1 <= groups <= 128 * 1024
    ensures ok <==> WriterLayout(f.blocks, groups, table)
  {
    hide Span;
    var tableStart, bitmapStart := ReadDesc(f.blocks, 0).inodeTable, ReadDesc(f.blocks, 0).blockBitmap;
    for g := 0 to groups
      invariant forall h | 0 <= h < g ::
                  ReadDesc(f.blocks, h).inodeTable == tableStart + Span(h, table)
                  && ReadDesc(f.blocks, h).blockBitmap == bitmapStart + 2 * h
                  && ReadDesc(f.blocks, h).inodeBitmap == bitmapStart + 2 * h + 1
    {
      var gd := ReadDesc(f.blocks, g);
      if || gd.inodeTable != tableStart + Span(g, table) || gd.blockBitmap != bitmapStart + 2 * g
         || gd.inodeBitmap != gd.blockBitmap + 1 {
        return false;
      }
    }
    return bitmapStart == tableStart + Span(groups, table);
  }

  /** What the writer of a fresh image promises: whole tables, and 1024 blocks for descriptors below everything else. */
  ghost predicate Written(img: Image) {
    var bs, ipg := img.blocks, img.super.inodesPerGroup;
    && 1 <= |bs| <= MAX_BLOCKS && img.super.blocksCount == |bs|
    && TableAt(bs, 1024) && (forall i | 1024 < i < |bs| :: bs[i].Raw?)
    && 16 <= ipg && ipg % 16 == 0 && 1024 < ReadDesc(bs, 0).inodeTable
  }

  /** The plan is the least widening of the image. */
  ghost predicate Planned(img: Image, p: Plan)
    requires Written(img)
  {
    && Fresh(img.blocks, p)
    && p.tableStart == ReadDesc(img.blocks, 0).inodeTable && p.Share() == img.super.inodesPerGroup
    && p.blocks == BlocksFor(p.tableStart, |img.blocks|, p.groups)
    && forall h | p.oldGroups <= h < p.groups :: !Covers(p.tableStart, |img.blocks|, h)
  }

  ghost function WideSuper(sb: SuperBlock, bs: seq<Block>, p: Plan, free: U32, freeInodes: U32): SuperBlock
    requires p.groups < 0x2_0000 && p.blocks < 0x1_0000_0000
  {
    sb.(inodesPerGroup := 8192, inodesCount := 8192 * p.groups, freeInodes := freeInodes, blocksCount := p.blocks,
        freeBlocks := free)
  }

  lemma SpanFits(p: Plan)
    requires p.table < 512 && p.oldGroups <= p.groups
    ensures Span(p.oldGroups, p.table) <= 512 * p.groups
  {
    MulMono(p.table, 512, p.oldGroups);
    assert p.table * p.oldGroups == p.oldGroups * p.table;
  }

  lemma WideningIsFresh(bs: seq<Block>, p: Plan, w: Widening)
    requires w.Widening? && 1 <= |bs| <= MAX_BLOCKS && p.oldGroups == Groups(|bs|)
    requires TableAt(bs, 1024) && (forall i | 1024 < i < |bs| :: bs[i].Raw?)
    requires 1024 < p.tableStart && 1 <= p.table < 512 && p.OldBitmaps() + 2 * p.oldGroups <= |bs|
    requires p.groups == w.groups && p.valid == w.valid == MetaEnd(p.tableStart, p.groups)
             && p.blocks == w.blocks == BlocksFor(p.tableStart, |bs|, p.groups) <= MAX_BLOCKS
    requires p.oldGroups <= p.groups && p.groups == Groups(p.blocks)
    ensures Fresh(bs, p)
  {
  }

  /** Extend the file, clear all the new metadata, and put the old table back at its start. */
  method RewriteTables(f: File, table: seq<Block>, p: Plan)
    requires Fresh(f.blocks, p) && table == f.blocks[p.tableStart..p.OldBitmaps()]
    modifies f`blocks
    ensures WidenedTo(old(f.blocks), p, 0, f.blocks)
  {
    ghost var bs := f.blocks;
    SpanFits(p);
    hide Span;
    var zero: Block := Raw(ZeroBits());
    f.blocks := f.blocks + seq(p.blocks - |f.blocks|, _ => zero);
    f.blocks := f.blocks[..p.tableStart] + seq(p.valid - p.tableStart, _ => zero) + f.blocks[p.valid..];
    f.blocks := f.blocks[..p.tableStart] + table + f.blocks[p.tableStart + |table|..];
    TablesRewritten(bs, p, f.blocks);
  }

  /** Some group count, from the image's own up, covers its own metadata within the largest disk. */
  ghost predicate HasCount(tableStart: nat, size: nat)
    requires size >= 1
  {
    exists h: nat | Groups(size) <= h :: Covers(tableStart, size, h) && BlocksFor(tableStart, size, h) <= MAX_BLOCKS
  }

  /** Why an image is not widened, in the order it is found out; nothing if it is. */
  datatype Obstacle = Wide | OtherLayout | PastEnd | TooLarge | NoObstacle

  ghost function ObstacleOf(img: Image): Obstacle
    requires Written(img)
  {
    var bs, groups := img.blocks, Groups(|img.blocks|);
    if img.super.inodesPerGroup >= 8192 then Wide
    else if !WriterLayout(bs, groups, img.super.inodesPerGroup / 16) then OtherLayout
    else if ReadDesc(bs, 0).blockBitmap + 2 * groups > |bs| then PastEnd
    else if !HasCount(ReadDesc(bs, 0).inodeTable, |bs|) then TooLarge
    else NoObstacle
  }

  /** Widen every group to 8192 inodes, exactly if nothing is in the way; an error comes before the first write. */
  method ReserveInodes(f: File) returns (r: Reservation)
    requires Written(f.Contents())
    modifies f
    ensures !r.Reserved? ==> f.Contents() == old(f.Contents())
    ensures match ObstacleOf(old(f.Contents()))
            case Wide => r == AlreadyWide
            case OtherLayout => r == NotOurLayout
            case PastEnd => r == ReadPastEnd
            case TooLarge => r == NoRoom
            case NoObstacle => r.Reserved?
    ensures r.Reserved? ==>
              && Planned(old(f.Contents()), r.plan)
              && WriterLayout(old(f.blocks), Groups(|old(f.blocks)|), old(f.super).inodesPerGroup / 16)
              && WidenedTo(old(f.blocks), r.plan, r.plan.groups, f.blocks)
              && f.super.freeBlocks == SumFree(WideDescs(old(f.blocks), r.plan, r.plan.groups))
              && f.super.freeInodes == SumFreeInodes(WideDescs(old(f.blocks), r.plan, r.plan.groups))
              && f.super == WideSuper(old(f.super), old(f.blocks), r.plan, f.super.freeBlocks, f.super.freeInodes)
  {
    hide WidenedTo, WriterLayout, SumFree, SumFreeInodes, HasCount;
    var sb := f.super;
    var share := sb.inodesPerGroup;
    if share >= 8192 {
      return AlreadyWide;
    }
    ghost var bs := f.blocks;
    var oldGroups, oldTable := Groups(sb.blocksCount), share * 256 / 4096;
    assert oldTable == share / 16;
    var ok := CheckLayout(f, oldGroups, oldTable);
    if !ok {
      return NotOurLayout;
    }
    var tableStart, bitmapStart := ReadDesc(f.blocks, 0).inodeTable, ReadDesc(f.blocks, 0).blockBitmap;
    LayoutStart(bs, oldGroups, oldTable);
    if bitmapStart + 2 * oldGroups > |f.blocks| {
      return ReadPastEnd;
    }
    var table := f.blocks[tableStart..bitmapStart];
    var oldBitmaps := f.blocks[bitmapStart..bitmapStart + 2 * oldGroups];
    var w := Widen(oldGroups, tableStart, sb.blocksCount);
    WidenMeans(oldGroups, tableStart, sb.blocksCount, w);
    if w.PastLimit? {
      return NoRoom;
    }
    var p := Plan(tableStart, oldTable, oldGroups, w.groups, w.valid, w.blocks);
    WideningIsFresh(bs, p, w);
    FreshNumbers(bs, p);
    assert Planned(f.Contents(), p) && InMemory(bs, p, table, oldBitmaps);
    hide Fresh, InMemory, Planned, Written, Span;
    RewriteTables(f, table, p);
    var freeBlocks, freeInodes := WidenGroups(f, table, oldBitmaps, share, p, bs);
    f.super := sb.(inodesPerGroup := 8192, inodesCount := 8192 * p.groups, freeInodes := freeInodes,
                   blocksCount := p.blocks, freeBlocks := freeBlocks);
    r := Reserved(p);
  }

  /** What the search for a group count found out. */
  lemma WidenMeans(groups: nat, tableStart: nat, size: nat, w: Widening)
    requires size >= 1 && groups == Groups(size)
    requires w.Widening? ==> groups <= w.groups && Covers(tableStart, size, w.groups)
    requires w.Widening? ==> BlocksFor(tableStart, size, w.groups) <= MAX_BLOCKS
    requires w.PastLimit? ==>
               forall h: nat | groups <= h && Covers(tableStart, size, h) :: BlocksFor(tableStart, size, h) > MAX_BLOCKS
    ensures w.Widening? <==> HasCount(tableStart, size)
  {
  }

  lemma LayoutStart(bs: seq<Block>, groups: nat, table: nat)
    requires TableAt(bs, 1024) && 1 <= groups <= 128 * 1024 && WriterLayout(bs, groups, table)
    ensures ReadDesc(bs, 0).blockBitmap == ReadDesc(bs, 0).inodeTable + Span(groups, table)
  {
  }
}
