/** What the journal's first block and its inode hold, bit by bit, and what a reader makes of them. */
module Ext4JournalFile {
  import opened Bitmaps
  import opened Ext4Format

  const JOURNAL_INODE: nat := 8
  const JOURNAL_MODE: nat := 0x8180
  const JBD2_MAGIC: nat := 0xc03b3998

  function Zeros(n: nat): (s: seq<bool>)
    ensures |s| == n
  {
    seq(n, _ => false)
  }

  /** 32-bit words as a block keeps them, little-endian. */
  function Words(ws: seq<U32>): (s: seq<bool>)
    ensures |s| == 32 * |ws|
  {
    if ws == [] then [] else ToBits(ws[0], 32) + Words(ws[1..])
  }

  /** A word with its bytes the other way round, as jbd2 keeps every field. */
  function BigEndian(w: U32): U32 {
    w % 0x100 * 0x100_0000 + w / 0x100 % 0x100 * 0x1_0000 + w / 0x1_0000 % 0x100 * 0x100 + w / 0x100_0000
  }

  /** An empty journal of n blocks: magic, type 4, block size, length, first log block 1, sequence 1, start 0, the uuid,
      one user. */
  function JournalSuper(n: U32, uuid: Uuid): (b: Bits) {
    var head := [BigEndian(JBD2_MAGIC), BigEndian(4), 0, BigEndian(4096), BigEndian(n), BigEndian(1), BigEndian(1), 0,
                 0, 0, 0, 0];
    Words(head) + uuid + Words([BigEndian(1)]) + Zeros(32224)
  }

  /** The i_block words of a file that is one extent of n blocks from phys. */
  function ExtentWords(n: U32, phys: U32): (ws: seq<U32>)
    ensures |ws| == 15
  {
    [0x1_f30a, 4, 0, 0, n, phys, 0, 0, 0, 0, 0, 0, 0, 0, 0]
  }

  /** The journal inode: a regular file 0600 of one link and one extent, its extra size copied from the root inode. */
  function JournalInodeWords(n: U32, phys: U32, extra: U16): (ws: seq<U32>)
    requires n <= 16384
    ensures |ws| == 64
  {
    [JOURNAL_MODE, n * 4096, 0, 0, 0, 0, 0x1_0000, n * 8, 0x8_0000, 0] + ExtentWords(n, phys) + seq(7, _ => 0)
    + [extra] + seq(31, _ => 0)
  }

  function JournalInode(n: U32, phys: U32, extra: U16): (s: seq<bool>)
    requires n <= 16384
    ensures |s| == 2048
  {
    Words(JournalInodeWords(n, phys, extra))
  }

  /** Inode k of a table block, 16 to a block. */
  function InodeSlot(b: Bits, k: nat): (s: seq<bool>)
    requires k < 16
    ensures |s| == 2048
  {
    b[2048 * k..2048 * k + 2048]
  }

  function PutInode(b: Bits, k: nat, s: seq<bool>): (r: Bits)
    requires k < 16 && |s| == 2048
  {
    b[..2048 * k] + s + b[2048 * k + 2048..]
  }

  lemma PutInodeEffect(b: Bits, k: nat, s: seq<bool>, j: nat)
    requires k < 16 && j < 16 && |s| == 2048
    ensures InodeSlot(PutInode(b, k, s), j) == if j == k then s else InodeSlot(b, j)
  {
    var r := PutInode(b, k, s);
    if j == k {
      assert r[2048 * j..2048 * j + 2048] == s;
    } else {
      assert r[2048 * j..2048 * j + 2048] == b[2048 * j..2048 * j + 2048];
    }
  }

  function Mode(inode: seq<bool>): nat
    requires |inode| == 2048
  {
    FromBits(inode[..16])
  }

  function ExtraSize(inode: seq<bool>): U16
    requires |inode| == 2048
  {
    FromBitsBound(inode[1024..1040]);
    Widths();
    FromBits(inode[1024..1040])
  }

  lemma {:induction false} WordAt(ws: seq<U32>, k: nat)
    requires k < |ws|
    ensures Words(ws)[32 * k..32 * k + 32] == ToBits(ws[k], 32)
    ensures FromBits(Words(ws)[32 * k..32 * k + 32]) == ws[k]
  {
    hide ToBits, FromBits;
    Widths();
    FromTo(ws[k], 32);
    if k > 0 {
      WordAt(ws[1..], k - 1);
      assert Words(ws)[32 * k..32 * k + 32] == Words(ws[1..])[32 * (k - 1)..32 * (k - 1) + 32];
    }
  }

  lemma {:induction false} ToBitsPrefix(n: nat, w: nat, v: nat)
    requires v <= w
    ensures ToBits(n, w)[..v] == ToBits(n, v)
  {
    if v > 0 {
      ToBitsPrefix(n / 2, w - 1, v - 1);
      assert ToBits(n, w)[..v] == [n % 2 == 1] + ToBits(n / 2, w - 1)[..v - 1];
    }
  }

  /** Word k of an inode, read back. */
  function WordOf(inode: seq<bool>, k: nat): nat
    requires |inode| == 2048 && k < 64
  {
    FromBits(inode[32 * k..32 * k + 32])
  }

  /** What an inode says of its file: kind and mode, size, links, 512-byte sectors, flags, the extent header, and the
      first extent's length and block. */
  datatype FileInode = FileInode(
    mode: nat, size: nat, links: nat, sectors: nat, flags: nat, header: nat, depth: nat, length: nat, start: nat,
    extra: nat)

  function ReadFile(inode: seq<bool>): FileInode
    requires |inode| == 2048
  {
    FileInode(Mode(inode), WordOf(inode, 1), WordOf(inode, 6) / 0x1_0000, WordOf(inode, 7), WordOf(inode, 8),
              WordOf(inode, 10), WordOf(inode, 11), WordOf(inode, 14), WordOf(inode, 15), ExtraSize(inode))
  }

  /** The journal as a file: 0600, one link, one extent of n blocks from phys, its size and sectors those of n blocks.
      */
  function JournalFile(n: nat, phys: nat, extra: nat): FileInode {
    FileInode(0x8180, n * 4096, 1, n * 8, 0x8_0000, 0x1_f30a, 4, n, phys, extra)
  }

  /** Reading the words of an inode back, field by field. */
  lemma {:induction false} ReadWords(ws: seq<U32>)
    requires |ws| == 64 && ws[0] < 0x1_0000 && ws[32] < 0x1_0000
    ensures ReadFile(Words(ws)) ==
            FileInode(ws[0], ws[1], ws[6] / 0x1_0000, ws[7], ws[8], ws[10], ws[11], ws[14], ws[15], ws[32])
  {
    hide Words, FromBits, ToBits;
    LowHalf(ws, 0);
    LowHalf(ws, 32);
    WordAt(ws, 1);
    WordAt(ws, 6);
    WordAt(ws, 7);
    WordAt(ws, 8);
    WordAt(ws, 10);
    WordAt(ws, 11);
    WordAt(ws, 14);
    WordAt(ws, 15);
    assert Words(ws)[..16] == Words(ws)[0..16];
  }

  /** The inode written reads back as that file. */
  lemma JournalInodeReads(n: U32, phys: U32, extra: U16)
    requires n <= 16384
    ensures ReadFile(JournalInode(n, phys, extra)) == JournalFile(n, phys, extra)
    ensures forall k | 0 <= k < 64 && k !in {0, 1, 6, 7, 8, 10, 11, 14, 15, 32} ::
              WordOf(JournalInode(n, phys, extra), k) == 0
  {
    hide Words, ReadFile, FromBits, ToBits;
    var ws := JournalInodeWords(n, phys, extra);
    ReadWords(ws);
    forall k | 0 <= k < 64 && k !in {0, 1, 6, 7, 8, 10, 11, 14, 15, 32} ensures WordOf(Words(ws), k) == 0 {
      WordAt(ws, k);
    }
  }

  lemma {:induction false} LowHalf(ws: seq<U32>, k: nat)
    requires k < |ws| && ws[k] < 0x1_0000
    ensures FromBits(Words(ws)[32 * k..32 * k + 16]) == ws[k]
  {
    WordAt(ws, k);
    ToBitsPrefix(ws[k], 32, 16);
    Widths();
    FromTo(ws[k], 16);
    assert Words(ws)[32 * k..32 * k + 16] == Words(ws)[32 * k..32 * k + 32][..16];
  }

  // The journal's first block, byte by byte.

  /** Byte k of a block. */
  function ByteAt(b: Bits, k: nat): nat
    requires k < 4096
  {
    FromBits(b[8 * k..8 * k + 8])
  }

  /** The number in the four bytes from k on, the first the highest. */
  function NumberAt(b: Bits, k: nat): nat
    requires k + 4 <= 4096
  {
    ByteAt(b, k) * 0x100_0000 + ByteAt(b, k + 1) * 0x1_0000 + ByteAt(b, k + 2) * 0x100 + ByteAt(b, k + 3)
  }

  /** A block that a reader of jbd2 takes for the superblock of an empty journal: the magic, version 2, blocks of 4096
      bytes, n of them, the log from block 1 on, commit 1 next, nothing to recover, the file system's uuid, one user. */
  ghost predicate EmptyJournal(b: Bits, n: nat, uuid: Uuid) {
    && ByteAt(b, 0) == 0xc0 && ByteAt(b, 1) == 0x3b && ByteAt(b, 2) == 0x39 && ByteAt(b, 3) == 0x98
    && NumberAt(b, 4) == 4 && NumberAt(b, 12) == 4096 && NumberAt(b, 16) == n
    && NumberAt(b, 20) == 1 && NumberAt(b, 24) == 1 && NumberAt(b, 28) == 0
    && b[384..512] == uuid && NumberAt(b, 64) == 1
    && forall k | 8 <= k < 12 || 28 <= k < 48 || 68 <= k < 4096 :: ByteAt(b, k) == 0
  }

  lemma {:induction false} FromConcat(a: seq<bool>, b: seq<bool>)
    ensures FromBits(a + b) == FromBits(a) + Pow2(|a|) * FromBits(b)
  {
    if a == [] {
      assert a + b == b;
    } else {
      FromConcat(a[1..], b);
      assert (a + b)[1..] == a[1..] + b;
      Doubled(Pow2(|a| - 1), FromBits(b), Pow2(|a|));
    }
  }

  lemma Doubled(p: nat, f: nat, q: nat)
    requires q == 2 * p
    ensures 2 * (p * f) == q * f
  {
  }

  lemma BytePower()
    ensures Pow2(8) == 0x100
  {
    assert Pow2(4) == 16;
  }

  /** The four bytes of a word make it up, the first the lowest. */
  lemma {:induction false} FourBytes(s: seq<bool>)
    requires |s| == 32
    ensures FromBits(s) == FromBits(s[..8]) + 0x100 * FromBits(s[8..16]) + 0x1_0000 * FromBits(s[16..24])
                           + 0x100_0000 * FromBits(s[24..32])
    ensures FromBits(s[..8]) < 0x100 && FromBits(s[8..16]) < 0x100
    ensures FromBits(s[16..24]) < 0x100 && FromBits(s[24..32]) < 0x100
  {
    hide FromBits;
    BytePower();
    FromConcat(s[..8], s[8..]);
    FromConcat(s[8..16], s[16..]);
    FromConcat(s[16..24], s[24..]);
    assert s == s[..8] + s[8..] && s[8..] == s[8..16] + s[16..] && s[16..] == s[16..24] + s[24..]
           && s[24..] == s[24..32];
    FromBitsBound(s[..8]);
    FromBitsBound(s[8..16]);
    FromBitsBound(s[16..24]);
    FromBitsBound(s[24..32]);
  }

  /** Four bytes make one word only. */
  lemma OneWay(a: nat, b: nat, c: nat, d: nat, a': nat, b': nat, c': nat, d': nat)
    requires a < 0x100 && b < 0x100 && c < 0x100 && a' < 0x100 && b' < 0x100 && c' < 0x100
    requires a + 0x100 * b + 0x1_0000 * c + 0x100_0000 * d == a' + 0x100 * b' + 0x1_0000 * c' + 0x100_0000 * d'
    ensures a == a' && b == b' && c == c' && d == d'
  {
  }

  /** A number by its bytes. */
  lemma NumberBytes(v: U32, a: nat, b: nat, c: nat, d: nat)
    requires a == v / 0x100_0000 && b == v / 0x1_0000 % 0x100 && c == v / 0x100 % 0x100 && d == v % 0x100
    ensures v == a * 0x100_0000 + b * 0x1_0000 + c * 0x100 + d && a < 0x100
    ensures BigEndian(v) == a + 0x100 * b + 0x1_0000 * c + 0x100_0000 * d
  {
    assert v / 0x100 / 0x100 == v / 0x1_0000 && v / 0x1_0000 / 0x100 == v / 0x100_0000;
  }

  /** A block that has a turned word at byte k reads as the number there. */
  lemma {:induction false} NumberReads(b: Bits, k: nat, v: U32)
    requires k + 4 <= 4096 && b[8 * k..8 * k + 32] == ToBits(BigEndian(v), 32)
    ensures NumberAt(b, k) == v
  {
    hide ToBits, FromBits, BigEndian, ByteAt;
    BytesRead(b, k, v);
    NumberBytes(v, v / 0x100_0000, v / 0x1_0000 % 0x100, v / 0x100 % 0x100, v % 0x100);
  }

  lemma SliceOf(s: seq<bool>, from: nat, to: nat, i: nat, j: nat)
    requires from <= to <= |s| && i <= j <= to - from
    ensures s[from..to][i..j] == s[from + i..from + j]
  {
    forall m | 0 <= m < j - i ensures s[from..to][i..j][m] == s[from + i..from + j][m] {
      assert s[from..to][i + m] == s[from + (i + m)];
    }
  }

  lemma ByteOf(b: Bits, k: nat, s: seq<bool>, j: nat)
    requires k + 4 <= 4096 && s == b[8 * k..8 * k + 32] && j < 4
    ensures FromBits(s[8 * j..8 * j + 8]) == ByteAt(b, k + j)
  {
    SliceOf(b, 8 * k, 8 * k + 32, 8 * j, 8 * j + 8);
    assert 8 * k + 8 * j == 8 * (k + j);
  }

  lemma {:induction false} BytesRead(b: Bits, k: nat, v: U32)
    requires k + 4 <= 4096 && b[8 * k..8 * k + 32] == ToBits(BigEndian(v), 32)
    ensures ByteAt(b, k) == v / 0x100_0000 && ByteAt(b, k + 1) == v / 0x1_0000 % 0x100
    ensures ByteAt(b, k + 2) == v / 0x100 % 0x100 && ByteAt(b, k + 3) == v % 0x100
  {
    hide ToBits, FromBits, BigEndian, ByteAt;
    var s := b[8 * k..8 * k + 32];
    Widths();
    FromTo(BigEndian(v), 32);
    FourBytes(s);
    assert s[..8] == s[0..8];
    ByteOf(b, k, s, 0);
    ByteOf(b, k, s, 1);
    ByteOf(b, k, s, 2);
    ByteOf(b, k, s, 3);
    NumberBytes(v, v / 0x100_0000, v / 0x1_0000 % 0x100, v / 0x100 % 0x100, v % 0x100);
    OneWay(FromBits(s[..8]), FromBits(s[8..16]), FromBits(s[16..24]), FromBits(s[24..32]),
           v / 0x100_0000, v / 0x1_0000 % 0x100, v / 0x100 % 0x100, v % 0x100);
  }

  /** Bits that are clear are bytes of zero. */
  lemma {:induction false} ZeroBytes(b: Bits, k: nat)
    requires k < 4096 && forall i | 8 * k <= i < 8 * k + 8 :: !b[i]
    ensures ByteAt(b, k) == 0
  {
    FromZeros(b[8 * k..8 * k + 8]);
  }

  /** The words of the block's head, each at its place. */
  lemma {:induction false} HeadAt(n: U32, uuid: Uuid, b: Bits, head: seq<U32>, j: nat)
    requires b == JournalSuper(n, uuid) && j < 12
    requires head ==
               [BigEndian(0xc03b3998), BigEndian(4), 0, BigEndian(4096), BigEndian(n), BigEndian(1), BigEndian(1), 0,
                      0, 0, 0, 0]
    ensures b[32 * j..32 * j + 32] == ToBits(head[j], 32)
  {
    hide Words, ToBits, FromBits, BigEndian;
    WordAt(head, j);
    assert b[..384] == Words(head);
    assert b[32 * j..32 * j + 32] == b[..384][32 * j..32 * j + 32];
  }

  lemma {:induction false} ZeroWord(i: nat)
    requires i < 32
    ensures !ToBits(0, 32)[i]
  {
    ZeroBitsOf(32, i);
  }

  lemma {:induction false} ZeroBitsOf(w: nat, i: nat)
    requires i < w
    ensures !ToBits(0, w)[i]
  {
    if i > 0 {
      ZeroBitsOf(w - 1, i - 1);
    }
  }

  /** What the block holds behind its head. */
  lemma {:induction false} BehindHead(n: U32, uuid: Uuid, b: Bits)
    requires b == JournalSuper(n, uuid)
    ensures b[384..512] == uuid && b[512..544] == ToBits(BigEndian(1), 32) && forall i | 544 <= i < 32768 :: !b[i]
  {
    hide ToBits, FromBits, BigEndian;
    WordAt([BigEndian(1)], 0);
    assert Words([BigEndian(1)])[0..32] == Words([BigEndian(1)]);
    hide Words;
    assert b[512..544] == Words([BigEndian(1)]);
  }

  /** The block written reads back as an empty journal of n blocks. */
  lemma {:induction false} JournalSuperReads(n: U32, uuid: Uuid)
    ensures EmptyJournal(JournalSuper(n, uuid), n, uuid)
  {
    hide JournalSuper, ToBits, FromBits, ByteAt, BigEndian;
    var b := JournalSuper(n, uuid);
    var head := [BigEndian(0xc03b3998), BigEndian(4), 0, BigEndian(4096), BigEndian(n), BigEndian(1), BigEndian(1), 0,
                 0, 0, 0, 0];
    forall j | 0 <= j < 12 ensures b[32 * j..32 * j + 32] == ToBits(head[j], 32) {
      HeadAt(n, uuid, b, head, j);
    }
    BehindHead(n, uuid, b);
    NumbersRead(n, uuid, b, head);
    forall k | 8 <= k < 12 || 28 <= k < 48 || 68 <= k < 4096 ensures ByteAt(b, k) == 0 {
      RestIsZero(b, head, k);
    }
    assert NumberAt(b, 28) == 0;
  }

  lemma {:induction false} MagicReads(b: Bits, w: U32, magic: U32)
    requires magic == 0xc03b3998 && w == BigEndian(magic) && b[0..32] == ToBits(w, 32)
    ensures ByteAt(b, 0) == 0xc0 && ByteAt(b, 1) == 0x3b && ByteAt(b, 2) == 0x39 && ByteAt(b, 3) == 0x98
  {
    hide ToBits, FromBits, ByteAt, BigEndian;
    BytesRead(b, 0, magic);
  }

  lemma {:induction false} NumbersRead(n: U32, uuid: Uuid, b: Bits, head: seq<U32>)
    requires |head| == 12 && forall j | 0 <= j < 12 :: b[32 * j..32 * j + 32] == ToBits(head[j], 32)
    requires head[0] == BigEndian(0xc03b3998) && head[1] == BigEndian(4) && head[3] == BigEndian(4096)
    requires head[4] == BigEndian(n) && head[5] == head[6] == BigEndian(1) && b[512..544] == ToBits(BigEndian(1), 32)
    ensures ByteAt(b, 0) == 0xc0 && ByteAt(b, 1) == 0x3b && ByteAt(b, 2) == 0x39 && ByteAt(b, 3) == 0x98
    ensures NumberAt(b, 4) == 4 && NumberAt(b, 12) == 4096 && NumberAt(b, 16) == n
    ensures NumberAt(b, 20) == 1 && NumberAt(b, 24) == 1 && NumberAt(b, 64) == 1
  {
    hide ToBits, FromBits, ByteAt, NumberAt, BigEndian;
    assert b[0..32] == ToBits(head[0], 32) && b[32..64] == ToBits(head[1], 32) && b[96..128] == ToBits(head[3], 32);
    assert b[128..160] == ToBits(head[4], 32) && b[160..192] == ToBits(head[5], 32)
           && b[192..224] == ToBits(head[6], 32);
    MagicReads(b, head[0], 0xc03b3998);
    NumberReads(b, 4, 4);
    NumberReads(b, 12, 4096);
    NumberReads(b, 16, n);
    NumberReads(b, 20, 1);
    NumberReads(b, 24, 1);
    NumberReads(b, 64, 1);
  }

  lemma {:induction false} RestIsZero(b: Bits, head: seq<U32>, k: nat)
    requires |head| == 12 && forall j | 0 <= j < 12 :: b[32 * j..32 * j + 32] == ToBits(head[j], 32)
    requires head[2] == 0 && (forall j | 7 <= j < 12 :: head[j] == 0) && (forall i | 544 <= i < 32768 :: !b[i])
    requires 8 <= k < 12 || 28 <= k < 48 || 68 <= k < 4096
    ensures ByteAt(b, k) == 0
  {
    hide ToBits, FromBits, ByteAt;
    forall i | 8 * k <= i < 8 * k + 8 ensures !b[i] {
      if k < 68 {
        var j := k / 4;
        assert head[j] == 0;
        ZeroWord(i - 32 * j);
        assert b[i] == b[32 * j..32 * j + 32][i - 32 * j];
      }
    }
    ZeroBytes(b, k);
  }
}
