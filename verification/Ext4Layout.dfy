/** Where the groups' metadata lies, what their counts claim, and how one bitmap edit leaves everything else alone. */
module Ext4Layout {
  import opened Bitmaps
  import opened Ext4Format

  type Descriptors = seq<GroupDescriptor>

  /** How many blocks an inode table of ipg inodes takes; an inode is 256 bytes. */
  function TableBlocks(ipg: nat): nat { ipg / 16 }

  /** Blocks 1 to d hold descriptors. */
  predicate TableAt(bs: seq<Block>, d: nat) {
    d < |bs| && forall i | 1 <= i <= d :: bs[i].Table?
  }

  /** The first groups descriptors of a table of d blocks. */
  function Descs(bs: seq<Block>, groups: nat, d: nat): (ds: Descriptors)
    requires TableAt(bs, d) && groups <= 128 * d
    ensures |ds| == groups
    ensures forall g {:trigger ds[g]} {:trigger ReadDesc(bs, g)} | 0 <= g < groups :: ds[g] == ReadDesc(bs, g)
  {
    seq(groups, g requires 0 <= g < groups => ReadDesc(bs, g))
  }

  /** Both bitmaps of every group lie on a disk of n blocks, past the d blocks of the table, each in a block of its own.
      */
  ghost predicate Apart(ds: Descriptors, n: nat, d: nat) {
    && (forall g | 0 <= g < |ds| :: d < ds[g].blockBitmap < n && d < ds[g].inodeBitmap < n)
    && (forall g, h | 0 <= g < h < |ds| ::
          ds[g].blockBitmap != ds[h].blockBitmap && ds[g].inodeBitmap != ds[h].inodeBitmap)
    && (forall g, h | 0 <= g < |ds| && 0 <= h < |ds| :: ds[g].blockBitmap != ds[h].inodeBitmap)
  }

  /** Every inode table lies on the disk past the descriptor table, holds no bitmap, and overlaps no other. */
  ghost predicate TablesApart(ds: Descriptors, n: nat, d: nat, table: nat) {
    && (forall g | 0 <= g < |ds| :: d < ds[g].inodeTable && ds[g].inodeTable + table <= n)
    && (forall g, h | 0 <= g < |ds| && 0 <= h < |ds| ::
          !(ds[h].inodeTable <= ds[g].blockBitmap < ds[h].inodeTable + table)
          && !(ds[h].inodeTable <= ds[g].inodeBitmap < ds[h].inodeTable + table))
    && (forall g, h | 0 <= g < |ds| && 0 <= h < |ds| && g != h ::
          ds[g].inodeTable + table <= ds[h].inodeTable || ds[h].inodeTable + table <= ds[g].inodeTable)
  }

  /** Both bitmaps of every group are blocks the disk has, none of them descriptors. */
  ghost predicate Mapped(bs: seq<Block>, ds: Descriptors) {
    forall g | 0 <= g < |ds| ::
      && ds[g].blockBitmap < |bs| && bs[ds[g].blockBitmap].Raw?
      && ds[g].inodeBitmap < |bs| && bs[ds[g].inodeBitmap].Raw?
  }

  ghost function BlockMap(bs: seq<Block>, ds: Descriptors, g: nat): Bits
    requires Mapped(bs, ds) && g < |ds|
  {
    bs[ds[g].blockBitmap].bits
  }

  ghost function InodeMap(bs: seq<Block>, ds: Descriptors, g: nat): Bits
    requires Mapped(bs, ds) && g < |ds|
  {
    bs[ds[g].inodeBitmap].bits
  }

  /** Each descriptor's free counts are the clear bits of its bitmaps. */
  ghost predicate Counted(bs: seq<Block>, ds: Descriptors)
    requires Mapped(bs, ds)
  {
    forall g | 0 <= g < |ds| ::
      ds[g].freeBlocks == Clear(BlockMap(bs, ds, g)) && ds[g].freeInodes == Clear(InodeMap(bs, ds, g))
  }

  /** Block i is marked used in its own group's bitmap. */
  ghost predicate InUse(bs: seq<Block>, ds: Descriptors, i: nat)
    requires Mapped(bs, ds)
  {
    i / 32768 < |ds| && BlockMap(bs, ds, i / 32768)[i % 32768]
  }

  /** Block 0, the descriptor table and every group's metadata are marked used, so no allocation lands on them. */
  ghost predicate MetaInUse(bs: seq<Block>, ds: Descriptors, d: nat, table: nat)
    requires Mapped(bs, ds)
  {
    && (forall i {:trigger InUse(bs, ds, i)} | 0 <= i <= d :: InUse(bs, ds, i))
    && (forall g {:trigger InUse(bs, ds, ds[g].blockBitmap)} | 0 <= g < |ds| :: InUse(bs, ds, ds[g].blockBitmap))
    && (forall g {:trigger InUse(bs, ds, ds[g].inodeBitmap)} | 0 <= g < |ds| :: InUse(bs, ds, ds[g].inodeBitmap))
    && (forall g, i {:trigger ds[g], InUse(bs, ds, i)}
          | 0 <= g < |ds| && ds[g].inodeTable <= i < ds[g].inodeTable + table :: InUse(bs, ds, i))
  }

  /** Every block past the end of the disk is marked used, and every inode past the group's share. */
  ghost predicate TailsSet(bs: seq<Block>, ds: Descriptors, ipg: nat)
    requires Mapped(bs, ds)
  {
    && (forall g, j | 0 <= g < |ds| && 0 <= j < 32768 && g * 32768 + j >= |bs| :: BlockMap(bs, ds, g)[j])
    && (forall g, j | 0 <= g < |ds| && ipg <= j < 32768 :: InodeMap(bs, ds, g)[j])
  }

  /** Every block of an inode table holds inodes. */
  ghost predicate TablesRaw(bs: seq<Block>, ds: Descriptors, table: nat) {
    forall g, i {:trigger ds[g], bs[i]} | 0 <= g < |ds| && ds[g].inodeTable <= i < ds[g].inodeTable + table ::
      i < |bs| && bs[i].Raw?
  }

  function SumFree(ds: Descriptors): nat {
    if ds == [] then 0 else SumFree(ds[..|ds| - 1]) + ds[|ds| - 1].freeBlocks
  }

  function SumFreeInodes(ds: Descriptors): nat {
    if ds == [] then 0 else SumFreeInodes(ds[..|ds| - 1]) + ds[|ds| - 1].freeInodes
  }

  /** The descriptors of an image whose table is all there. */
  ghost function DescsOf(bs: seq<Block>): Descriptors
    requires |bs| >= 1 && TableAt(bs, DescriptorBlocks(Groups(|bs|)))
  {
    Descs(bs, Groups(|bs|), DescriptorBlocks(Groups(|bs|)))
  }

  /** What blocks with these descriptors, in a table of d blocks, keep between two operations of the package. */
  ghost predicate SoundWith(bs: seq<Block>, ds: Descriptors, d: nat, ipg: nat) {
    && Apart(ds, |bs|, d) && TablesApart(ds, |bs|, d, TableBlocks(ipg))
    && Mapped(bs, ds)
    && Counted(bs, ds)
    && MetaInUse(bs, ds, d, TableBlocks(ipg))
    && TailsSet(bs, ds, ipg)
    && TablesRaw(bs, ds, TableBlocks(ipg))
  }

  ghost predicate SoundBlocks(bs: seq<Block>, ipg: nat) {
    && 1 <= |bs| <= MAX_BLOCKS
    && ipg % 16 == 0 && 16 <= ipg <= 32768
    && TableAt(bs, DescriptorBlocks(Groups(|bs|)))
    && SoundWith(bs, DescsOf(bs), DescriptorBlocks(Groups(|bs|)), ipg)
  }

  /** The accounting invariant: the superblock's totals are the sums of the descriptors', which are their bitmaps'. */
  ghost predicate Sound(img: Image) {
    var sb := img.super;
    && SoundBlocks(img.blocks, sb.inodesPerGroup)
    && sb.blocksCount == |img.blocks|
    && sb.inodesCount == InodesIn(Groups(|img.blocks|), sb.inodesPerGroup)
    && sb.freeBlocks == SumFree(DescsOf(img.blocks))
    && sb.freeInodes == SumFreeInodes(DescsOf(img.blocks))
  }

  // One bitmap edit.

  /** Group g's block bitmap becomes m, and its free count follows. */
  function EditMap(bs: seq<Block>, g: nat, m: Bits): (r: seq<Block>)
    requires HasDesc(bs, g) && ReadDesc(bs, g).blockBitmap < |bs| && ReadDesc(bs, g).blockBitmap != 1 + g / 128
    ensures |r| == |bs|
  {
    var d := ReadDesc(bs, g);
    WriteDesc(bs[d.blockBitmap := Raw(m)], g, d.(freeBlocks := Clear(m)))
  }

  /** An edit reads back as itself in bitmap g and its free count; every other block and descriptor is as it was. */
  lemma {:induction false} EditMapEffect(bs: seq<Block>, g: nat, m: Bits, d: nat)
    requires TableAt(bs, d) && g < 128 * d && d < ReadDesc(bs, g).blockBitmap < |bs|
    ensures var r := EditMap(bs, g, m);
            && TableAt(r, d)
            && r[0] == bs[0]
            && (forall i | d < i < |bs| :: r[i] == if i == ReadDesc(bs, g).blockBitmap then Raw(m) else bs[i])
            && (forall k | 0 <= k < 128 * d ::
                  ReadDesc(r, k) == if k == g then ReadDesc(bs, g).(freeBlocks := Clear(m)) else ReadDesc(bs, k))
  {
    var dg := ReadDesc(bs, g);
    var b1 := bs[dg.blockBitmap := Raw(m)];
    ReadWritten(b1, g, dg.(freeBlocks := Clear(m)));
    forall k | 0 <= k < 128 * d
      ensures HasDesc(b1, k) && ReadDesc(b1, k) == ReadDesc(bs, k)
    {
      assert 1 + k / 128 <= d;
    }
  }

  /** The sum over the descriptors moves by the one count that moved. */
  lemma {:induction false} SumFreeEdit(ds: Descriptors, g: nat, n: U16)
    requires g < |ds|
    ensures var ds' := ds[g := ds[g].(freeBlocks := n)];
            && SumFree(ds') == SumFree(ds) + n - ds[g].freeBlocks
            && SumFreeInodes(ds') == SumFreeInodes(ds)
    ensures ds[g].freeBlocks <= SumFree(ds)
  {
    var last := |ds| - 1;
    var ds' := ds[g := ds[g].(freeBlocks := n)];
    if g == last {
      assert ds'[..last] == ds[..last];
    } else {
      assert ds'[..last] == ds[..last][g := ds[g].(freeBlocks := n)];
      SumFreeEdit(ds[..last], g, n);
    }
  }

  lemma {:induction false} SumFreeBound(ds: Descriptors)
    requires forall k | 0 <= k < |ds| :: ds[k].freeBlocks <= 32768 && ds[k].freeInodes <= 32768
    ensures SumFree(ds) <= 32768 * |ds| && SumFreeInodes(ds) <= 32768 * |ds|
  {
    if ds != [] {
      SumFreeBound(ds[..|ds| - 1]);
    }
  }
}
