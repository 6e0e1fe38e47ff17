/** The on-disk structures of an ext4 image, and the descriptor table in its blocks. */
module Ext4Format {
  import opened Bitmaps

  type U16 = n: nat | n < 0x1_0000
  type U32 = n: nat | n < 0x1_0000_0000

  // A block is 4096 bytes. One bitmap block maps one group, so a group holds as many blocks as a block has bits: 32768.
  // A block of the table holds 128 descriptors of 32 bytes, and the writer leaves the table 1024 blocks. Sixteen inodes
  // of 256 bytes fill a block, so the 8192 inodes Write gives a group take 512 blocks, 514 with the two bitmaps.

  /** The last whole group a 32-bit block count holds. */
  const MAX_BLOCKS: nat := 0x1_0000_0000 - 32768

  /** A bitmap, or any block the package treats as bytes. */
  type Bits = b: seq<bool> | |b| == 32768 witness seq(32768, _ => false)

  /** What a block holds, by how the package reads it: descriptors, or bits. The twelve fields of a descriptor fill
      its 32 bytes, so either view is the whole block; reading one through the wrong view is what aliasing would be. */
  datatype BlockView = Raw(bits: Bits) | Table(descs: seq<GroupDescriptor>)
  type Block = b: BlockView | b.Table? ==> |b.descs| == 128 witness Raw(seq(32768, _ => false))

  function ZeroBits(): (b: Bits)
    ensures forall i | 0 <= i < 32768 :: !b[i]
  {
    seq(32768, _ => false)
  }

  function ZeroTable(): Block {
    Table(seq(128, _ => ZERO_DESCRIPTOR))
  }

  datatype GroupDescriptor = GroupDescriptor(
    blockBitmap: U32,
    inodeBitmap: U32,
    inodeTable: U32,
    freeBlocks: U16,
    freeInodes: U16,
    usedDirs: U16,
    flags: U16,
    excludeBitmap: U32,
    blockBitmapCsum: U16,
    inodeBitmapCsum: U16,
    itableUnused: U16,
    checksum: U16
  )

  const ZERO_DESCRIPTOR := GroupDescriptor(0, 0, 0, 0, 0, 0, 0, 0, 0, 0, 0, 0)

  type Uuid = u: seq<bool> | |u| == 128 witness seq(128, _ => false)

  /** The superblock fields the package reads or writes, a feature word as the bits it tests. */
  datatype SuperBlock = SuperBlock(
    magic: U16,
    logBlockSize: U32,
    blocksPerGroup: U32,
    inodesPerGroup: U32,
    blocksCount: U32,
    inodesCount: U32,
    freeBlocks: U32,
    freeInodes: U32,
    hasJournal: bool,
    needsRecovery: bool,
    metadataCsum: bool,
    readOnly: bool,
    uuid: Uuid,
    journalInum: U32,
    journalBackupType: U32,
    journalBlocks: seq<U32>
  )

  /** An image: the superblock's own cell of block 0, and every block of the file. */
  datatype Image = Image(super: SuperBlock, blocks: seq<Block>)

  /** The image file: the superblock it carries, and its blocks, as many as it is long. */
  class File {
    var super: SuperBlock
    var blocks: seq<Block>

    ghost function Contents(): Image
      reads this
    {
      Image(super, blocks)
    }
  }

  // Fixed-width arithmetic as the source does it, wrap-around written out.

  function Add16(a: U16, b: U16): (r: U16)
    ensures a + b < 0x1_0000 ==> r == a + b
  {
    (a + b) % 0x1_0000
  }

  function Sub16(a: U16, b: U16): (r: U16)
    ensures b <= a ==> r == a - b
  {
    (a - b) % 0x1_0000
  }

  function Low16(n: nat): (r: U16)
    ensures n < 0x1_0000 ==> r == n
  {
    n % 0x1_0000
  }

  function Add32(a: U32, b: U32): (r: U32)
    ensures a + b < 0x1_0000_0000 ==> r == a + b
  {
    (a + b) % 0x1_0000_0000
  }

  function Sub32(a: U32, b: U32): (r: U32)
    ensures b <= a ==> r == a - b
  {
    (a - b) % 0x1_0000_0000
  }

  /** The inodes of that many groups. */
  function InodesIn(groups: nat, ipg: nat): nat { groups * ipg }

  function InodesIn32(groups: U32, ipg: U32): (r: U32)
    ensures InodesIn(groups, ipg) < 0x1_0000_0000 ==> r == InodesIn(groups, ipg)
  {
    InodesIn(groups, ipg) % 0x1_0000_0000
  }

  lemma InodesBound(groups: nat, ipg: nat)
    requires ipg <= 32768
    ensures InodesIn(groups, ipg) <= 32768 * groups
  {
  }

  lemma InodesAdd(a: nat, b: nat, ipg: nat)
    ensures InodesIn(a + b, ipg) == InodesIn(a, ipg) + InodesIn(b, ipg)
    ensures InodesIn(1, ipg) == ipg && InodesIn(0, ipg) == 0
  {
  }

  /** How many groups n blocks take. */
  function Groups(n: nat): (g: nat)
    requires n >= 1
    ensures g >= 1 && (g - 1) * 32768 < n <= g * 32768
  {
    (n - 1) / 32768 + 1
  }

  /** How many descriptor blocks g groups take. */
  function DescriptorBlocks(g: nat): (d: nat)
    requires g >= 1
    ensures d >= 1 && (d - 1) * 128 < g <= d * 128
  {
    (g - 1) / 128 + 1
  }

  // The descriptor table, which runs from block 1.

  predicate HasDesc(bs: seq<Block>, g: nat) {
    1 + g / 128 < |bs| && bs[1 + g / 128].Table?
  }

  function ReadDesc(bs: seq<Block>, g: nat): GroupDescriptor
    requires HasDesc(bs, g)
  {
    bs[1 + g / 128].descs[g % 128]
  }

  function WriteDesc(bs: seq<Block>, g: nat, d: GroupDescriptor): (r: seq<Block>)
    requires HasDesc(bs, g)
    ensures |r| == |bs|
  {
    bs[1 + g / 128 := Table(bs[1 + g / 128].descs[g % 128 := d])]
  }

  /** A descriptor write is read back, every other descriptor reads as before, and no other block changes. */
  lemma ReadWritten(bs: seq<Block>, g: nat, d: GroupDescriptor)
    requires HasDesc(bs, g)
    ensures var r := WriteDesc(bs, g, d);
            && (forall h: nat :: HasDesc(r, h) <==> HasDesc(bs, h))
            && (forall h: nat | HasDesc(bs, h) :: ReadDesc(r, h) == if h == g then d else ReadDesc(bs, h))
            && (forall i | 0 <= i < |bs| && i != 1 + g / 128 :: r[i] == bs[i])
  {
  }

  /** A descriptor block is what its 128 descriptors say. */
  lemma SameTable(xs: seq<Block>, ys: seq<Block>, i: nat)
    requires 1 <= i < |xs| && i < |ys| && xs[i].Table? && ys[i].Table?
    requires forall g | 128 * (i - 1) <= g < 128 * i :: ReadDesc(xs, g) == ReadDesc(ys, g)
    ensures xs[i] == ys[i]
  {
    forall k | 0 <= k < 128
      ensures xs[i].descs[k] == ys[i].descs[k]
    {
      var g := 128 * (i - 1) + k;
      assert ReadDesc(xs, g) == ReadDesc(ys, g);
    }
  }
}
