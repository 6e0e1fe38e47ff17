/** What growing an image means, block by block: which bitmaps, descriptors and blocks a grown image has. */
module Ext4Growth {
  import opened Bitmaps
  import opened Ext4Format
  import opened Ext4Layout

  /** The blocks a new group spends on its bitmaps and inode table, which lie at its start. */
  function Meta(ipg: nat): nat { 2 + TableBlocks(ipg) }

  /** A new group's bitmap before the end of the disk is marked: its metadata used, the rest free. */
  function StartMap(meta: nat): (m: Bits)
    ensures forall j | 0 <= j < 32768 :: m[j] == (j < meta)
  {
    Fill(ZeroBits(), 0, meta, true)
  }

  function StartInodeMap(ipg: nat): (m: Bits)
    ensures forall j | 0 <= j < 32768 :: m[j] == (ipg <= j)
  {
    Fill(ZeroBits(), ipg, 32768, true)
  }

  function StartDesc(g: nat, ipg: nat, free: U16): GroupDescriptor
    requires g < 0x2_0000 && ipg <= 32768
  {
    GroupDescriptor(g * 32768, g * 32768 + 1, g * 32768 + 2, free, ipg, 0, 0, 0, 0, 0, 0, 0)
  }

  lemma StartMapClear(meta: nat)
    requires meta <= 32768
    ensures Clear(StartMap(meta)) == 32768 - meta
  {
    ClearAll(ZeroBits(), false);
    ClearClaim(ZeroBits(), 0, meta);
  }

  lemma StartInodeMapClear(ipg: nat)
    requires ipg <= 32768
    ensures Clear(StartInodeMap(ipg)) == ipg
  {
    ClearAll(ZeroBits(), false);
    ClearClaim(ZeroBits(), ipg, 32768);
  }

  /** The bitmap of a group the image had, once the disk of n blocks has N: past the new end everything is used,
      between the two ends everything is free, and the table's new descriptor blocks are used. */
  function GrownMap(m: Bits, g: nat, n: nat, N: nat): (r: Bits)
    requires 1 <= n <= N
  {
    var d, d' := DescriptorBlocks(Groups(n)), DescriptorBlocks(Groups(N));
    seq(32768, j requires 0 <= j < 32768 =>
      var b := g * 32768 + j;
      if b >= N then true else if b >= n then false else m[j] || 1 + d <= b < 1 + d')
  }

  /** The bitmap of a group the image did not have. */
  function FreshMap(g: nat, N: nat, meta: nat): (r: Bits) {
    seq(32768, j requires 0 <= j < 32768 => j < meta || g * 32768 + j >= N)
  }

  ghost function Maps(bs: seq<Block>, ds: Descriptors): (maps: seq<Bits>)
    requires Mapped(bs, ds)
    ensures |maps| == |ds|
    ensures forall g | 0 <= g < |ds| :: maps[g] == BlockMap(bs, ds, g)
  {
    seq(|ds|, g requires 0 <= g < |ds| => BlockMap(bs, ds, g))
  }

  function SumClear(maps: seq<Bits>): nat {
    if maps == [] then 0 else SumClear(maps[..|maps| - 1]) + Clear(maps[|maps| - 1])
  }

  /** Every group's bitmap once a disk of n blocks has N. */
  function GrowMaps(maps: seq<Bits>, ipg: nat, n: nat, N: nat): (r: seq<Bits>)
    requires 1 <= n <= N && |maps| == Groups(n)
    ensures |r| == Groups(N)
    ensures forall g | 0 <= g < |maps| :: r[g] == GrownMap(maps[g], g, n, N)
    ensures forall g | |maps| <= g < |r| :: r[g] == FreshMap(g, N, Meta(ipg))
  {
    seq(Groups(N), g requires 0 <= g < Groups(N) =>
          if g < |maps| then GrownMap(maps[g], g, n, N) else FreshMap(g, N, Meta(ipg)))
  }

  ghost function GrownMaps(bs: seq<Block>, ipg: nat, N: nat): (maps: seq<Bits>)
    requires SoundBlocks(bs, ipg) && |bs| <= N
    ensures |maps| == Groups(N)
    ensures forall g | 0 <= g < |DescsOf(bs)| :: maps[g] == GrownMap(BlockMap(bs, DescsOf(bs), g), g, |bs|, N)
    ensures forall g | |DescsOf(bs)| <= g < |maps| :: maps[g] == FreshMap(g, N, Meta(ipg))
  {
    GrowMaps(Maps(bs, DescsOf(bs)), ipg, |bs|, N)
  }

  /** What slot k of the descriptor table holds when the groups' bitmaps are maps. */
  ghost function SlotOf(bs: seq<Block>, ds: Descriptors, d: nat, ipg: nat, maps: seq<Bits>, k: nat): GroupDescriptor
    requires TableAt(bs, d) && |ds| <= |maps| <= 0x2_0000 && |ds| <= 128 * d && ipg <= 32768
  {
    if k < |ds| then ds[k].(freeBlocks := Clear(maps[k]))
    else if k < |maps| then StartDesc(k, ipg, Clear(maps[k]))
    else if k < 128 * d then ReadDesc(bs, k)
    else ZERO_DESCRIPTOR
  }

  /** A block past the old end: the head of a new group, or a hole of zeros. */
  ghost function TailBlock(ipg: nat, first: nat, maps: seq<Bits>, i: nat): Block {
    var g := i / 32768;
    if first <= g < |maps| && i % 32768 == 0 then Raw(maps[g])
    else if first <= g < |maps| && i % 32768 == 1 then Raw(StartInodeMap(ipg))
    else Raw(ZeroBits())
  }

  /** r is the image bs, whose descriptors are ds in a table of d blocks, on its way to more groups: the table has d'
      blocks, the groups so far have the bitmaps maps with counts to match, and every other block is what it was. */
  ghost predicate Grows(bs: seq<Block>, ds: Descriptors, d: nat, ipg: nat, d': nat, maps: seq<Bits>, r: seq<Block>)
    requires TableAt(bs, d) && |ds| <= |maps| <= 0x2_0000 && |ds| <= 128 * d && ipg <= 32768
  {
    && d <= d' && TableAt(r, d') && |bs| <= |r| && |maps| <= 128 * d'
    && r[0] == bs[0]
    && (forall k | 0 <= k < 128 * d' :: ReadDesc(r, k) == SlotOf(bs, ds, d, ipg, maps, k))
    && (forall g | 0 <= g < |ds| :: ds[g].blockBitmap < |r| && r[ds[g].blockBitmap] == Raw(maps[g]))
    && (forall i | d' < i < |bs| && (forall g | 0 <= g < |ds| :: ds[g].blockBitmap != i) :: r[i] == bs[i])
    && (forall i | |bs| <= i < |r| :: r[i] == TailBlock(ipg, |ds|, maps, i))
  }

  /** r is bs grown to N blocks. */
  ghost predicate GrownTo(bs: seq<Block>, ipg: nat, N: nat, r: seq<Block>)
    requires SoundBlocks(bs, ipg) && |bs| <= N <= MAX_BLOCKS
  {
    && |r| == N
    && Grows(bs, DescsOf(bs), DescriptorBlocks(Groups(|bs|)), ipg, DescriptorBlocks(Groups(N)), GrownMaps(bs, ipg, N),
             r)
  }

  /** The description is complete: two images that meet it are the same image. */
  lemma GrowsUnique(bs: seq<Block>, ds: Descriptors, d: nat, ipg: nat, d': nat, maps: seq<Bits>, r: seq<Block>,
                    s: seq<Block>)
    requires TableAt(bs, d) && |ds| <= |maps| <= 0x2_0000 && |ds| <= 128 * d && ipg <= 32768
    requires Grows(bs, ds, d, ipg, d', maps, r) && Grows(bs, ds, d, ipg, d', maps, s) && |r| == |s|
    ensures r == s
  {
    forall i | 0 <= i < |r|
      ensures r[i] == s[i]
    {
      if 1 <= i <= d' {
        assert r[i].Table? && s[i].Table?;
        forall g | 128 * (i - 1) <= g < 128 * i
          ensures ReadDesc(r, g) == ReadDesc(s, g)
        {
        }
        SameTable(r, s, i);
      }
    }
  }

  // The steps of a growth.

  /** The new descriptor blocks are zeroed. */
  function Zeroed(bs: seq<Block>, lo: nat, hi: nat): (r: seq<Block>)
    requires lo <= hi <= |bs|
    ensures |r| == |bs|
    ensures forall i | 0 <= i < |bs| :: r[i] == if lo <= i < hi then ZeroTable() else bs[i]
  {
    bs[..lo] + seq(hi - lo, _ => ZeroTable()) + bs[hi..]
  }

  /** The file is extended with a hole. */
  function Extended(bs: seq<Block>, N: nat): (r: seq<Block>)
    requires |bs| <= N
    ensures |r| == N
    ensures forall i | 0 <= i < N :: r[i] == if i < |bs| then bs[i] else Raw(ZeroBits())
  {
    bs + seq(N - |bs|, _ => Raw(ZeroBits()))
  }

  function WithGroup(bs: seq<Block>, g: nat, ipg: nat): (r: seq<Block>)
    requires HasDesc(bs, g) && 1 <= g < 0x2_0000 && g * 32768 + 1 < |bs| && ipg <= 32768 && g / 128 < 1025
    ensures |r| == |bs|
  {
    var start := g * 32768;
    WriteDesc(bs[start := Raw(StartMap(Meta(ipg)))][start + 1 := Raw(StartInodeMap(ipg))], g,
              StartDesc(g, ipg, Clear(StartMap(Meta(ipg)))))
  }

  /** The image itself is the start of its growth, the table not yet longer. */
  lemma GrowsStart(bs: seq<Block>, ds: Descriptors, d: nat, ipg: nat)
    requires TableAt(bs, d) && |ds| <= 128 * d && ds == Descs(bs, |ds|, d) && |ds| <= 0x2_0000 && ipg <= 32768
    requires Mapped(bs, ds) && Counted(bs, ds)
    ensures Grows(bs, ds, d, ipg, d, Maps(bs, ds), bs)
  {
  }

  /** Zeroing free blocks after the table makes them descriptor blocks. */
  lemma GrowsZeroed(bs: seq<Block>, ds: Descriptors, d: nat, ipg: nat, d': nat)
    requires TableAt(bs, d) && |ds| <= 128 * d && ds == Descs(bs, |ds|, d) && |ds| <= 0x2_0000 && ipg <= 32768
    requires Mapped(bs, ds) && Counted(bs, ds) && d <= d' < |bs|
    requires forall g | 0 <= g < |ds| :: d' < ds[g].blockBitmap
    ensures Grows(bs, ds, d, ipg, d', Maps(bs, ds), Zeroed(bs, 1 + d, 1 + d'))
  {
    var r := Zeroed(bs, 1 + d, 1 + d');
    forall k | 0 <= k < 128 * d'
      ensures HasDesc(r, k) && ReadDesc(r, k) == SlotOf(bs, ds, d, ipg, Maps(bs, ds), k)
    {
      if k < 128 * d {
        assert r[1 + k / 128] == bs[1 + k / 128];
      } else {
        assert r[1 + k / 128] == ZeroTable();
      }
    }
  }

  lemma GrowsExtended(bs: seq<Block>, ds: Descriptors, d: nat, ipg: nat, d': nat, maps: seq<Bits>, r: seq<Block>,
                      N: nat)
    requires TableAt(bs, d) && |ds| == |maps| <= 0x2_0000 && |ds| <= 128 * d && ipg <= 32768
    requires Grows(bs, ds, d, ipg, d', maps, r) && |r| == |bs| <= N
    ensures Grows(bs, ds, d, ipg, d', maps, Extended(r, N))
  {
    var s := Extended(r, N);
    assert forall k | 0 <= k < 128 * d' :: s[1 + k / 128] == r[1 + k / 128];
  }

  /** Where the bitmap of group g lies: where its descriptor says, or at the start of a new group. */
  ghost function MapBlock(ds: Descriptors, g: nat): nat {
    if g < |ds| then ds[g].blockBitmap else g * 32768
  }

  lemma TailBlockEdit(ipg: nat, first: nat, maps: seq<Bits>, g: nat, m: Bits, i: nat)
    requires g < |maps|
    ensures TailBlock(ipg, first, maps[g := m], i) ==
              if first <= g && i == g * 32768 then Raw(m) else TailBlock(ipg, first, maps, i)
  {
    assert i == i / 32768 * 32768 + i % 32768;
    assert (g * 32768) / 32768 == g && (g * 32768) % 32768 == 0;
  }

  lemma TailBlockGroup(ipg: nat, first: nat, maps: seq<Bits>, m: Bits, i: nat)
    requires first <= |maps|
    ensures TailBlock(ipg, first, maps + [m], i) ==
            if i == |maps| * 32768 then Raw(m)
            else if i == |maps| * 32768 + 1 then Raw(StartInodeMap(ipg)) else TailBlock(ipg, first, maps, i)
  {
    var start := |maps| * 32768;
    assert i == i / 32768 * 32768 + i % 32768;
    assert start / 32768 == |maps| && start % 32768 == 0;
    assert (start + 1) / 32768 == |maps| && (start + 1) % 32768 == 1;
  }

  /** Where a group's descriptor points while the image grows. */
  lemma GrowsPointer(bs: seq<Block>, ds: Descriptors, d: nat, ipg: nat, d': nat, maps: seq<Bits>, r: seq<Block>, g: nat)
    requires TableAt(bs, d) && |ds| <= |maps| <= 0x2_0000 && |ds| <= 128 * d && ipg <= 32768
    requires Grows(bs, ds, d, ipg, d', maps, r) && g < |maps|
    requires Apart(ds, |bs|, d') && d' < |bs| <= |ds| * 32768 && MapBlock(ds, g) < |r|
    ensures HasDesc(r, g) && ReadDesc(r, g).blockBitmap == MapBlock(ds, g) > d'
    ensures ReadDesc(r, g).freeBlocks == Clear(maps[g])
    ensures r[MapBlock(ds, g)] == Raw(maps[g])
  {
    assert ReadDesc(r, g) == SlotOf(bs, ds, d, ipg, maps, g);
    if g >= |ds| {
      var i := g * 32768;
      assert i / 32768 == g && i % 32768 == 0;
    }
  }

  /** Editing one group's bitmap moves that bitmap and its count, whether the group is old or new. */
  lemma GrowsEdit(bs: seq<Block>, ds: Descriptors, d: nat, ipg: nat, d': nat, maps: seq<Bits>, r: seq<Block>, g: nat,
                  m: Bits)
    requires TableAt(bs, d) && |ds| <= |maps| <= 0x2_0000 && |ds| <= 128 * d && ipg <= 32768
    requires Grows(bs, ds, d, ipg, d', maps, r) && g < |maps|
    requires Apart(ds, |bs|, d') && d' < |bs| <= |ds| * 32768 && MapBlock(ds, g) < |r|
    ensures HasDesc(r, g) && ReadDesc(r, g).blockBitmap == MapBlock(ds, g) > d'
    ensures Grows(bs, ds, d, ipg, d', maps[g := m], EditMap(r, g, m))
  {
    GrowsPointer(bs, ds, d, ipg, d', maps, r, g);
    EditMapEffect(r, g, m, d');
    var s, maps' := EditMap(r, g, m), maps[g := m];
    forall i | |bs| <= i < |r|
      ensures s[i] == TailBlock(ipg, |ds|, maps', i)
    {
      TailBlockEdit(ipg, |ds|, maps, g, m, i);
    }
    forall h | 0 <= h < |ds|
      ensures s[ds[h].blockBitmap] == Raw(maps'[h])
    {
      assert h != g ==> ds[h].blockBitmap != MapBlock(ds, g);
    }
  }

  /** What laying a group changes. */
  lemma WithGroupEffect(r: seq<Block>, g: nat, ipg: nat, d: nat)
    requires TableAt(r, d) && 1 <= g < 0x2_0000 && g < 128 * d && d < g * 32768 && g * 32768 + 1 < |r| && ipg <= 32768
             && d <= 1024
    ensures HasDesc(r, g) && g / 128 < 1025
    ensures var s := WithGroup(r, g, ipg);
            && TableAt(s, d) && s[0] == r[0]
            && (forall k | 0 <= k < 128 * d ::
                  ReadDesc(s, k) == if k == g then StartDesc(g, ipg, Clear(StartMap(Meta(ipg)))) else ReadDesc(r, k))
            && (forall i | d < i < |r| ::
                  s[i] == if i == g * 32768 then Raw(StartMap(Meta(ipg)))
                          else if i == g * 32768 + 1 then Raw(StartInodeMap(ipg)) else r[i])
  {
    var start := g * 32768;
    var b2 := r[start := Raw(StartMap(Meta(ipg)))][start + 1 := Raw(StartInodeMap(ipg))];
    forall k | 0 <= k < 128 * d
      ensures HasDesc(b2, k) && ReadDesc(b2, k) == ReadDesc(r, k)
    {
      assert 1 + k / 128 <= d;
    }
    ReadWritten(b2, g, StartDesc(g, ipg, Clear(StartMap(Meta(ipg)))));
  }

  /** A new group joins at the start of its own blocks, past the old end. */
  lemma GrowsGroup(bs: seq<Block>, ds: Descriptors, d: nat, ipg: nat, d': nat, maps: seq<Bits>, r: seq<Block>)
    requires TableAt(bs, d) && 1 <= |ds| <= |maps| < 0x2_0000 && |ds| <= 128 * d && ipg <= 32768
    requires Grows(bs, ds, d, ipg, d', maps, r)
    requires Apart(ds, |bs|, d') && d' < |bs| <= |ds| * 32768
    requires |maps| < 128 * d' && d' <= 1024 && |maps| * 32768 + 1 < |r|
    ensures HasDesc(r, |maps|) && |maps| / 128 < 1025
    ensures Grows(bs, ds, d, ipg, d', maps + [StartMap(Meta(ipg))], WithGroup(r, |maps|, ipg))
  {
    WithGroupEffect(r, |maps|, ipg, d');
    var s, maps' := WithGroup(r, |maps|, ipg), maps + [StartMap(Meta(ipg))];
    forall k | 0 <= k < 128 * d'
      ensures ReadDesc(s, k) == SlotOf(bs, ds, d, ipg, maps', k)
    {
      assert ReadDesc(r, k) == SlotOf(bs, ds, d, ipg, maps, k);
    }
    forall i | |bs| <= i < |r|
      ensures s[i] == TailBlock(ipg, |ds|, maps', i)
    {
      TailBlockGroup(ipg, |ds|, maps, StartMap(Meta(ipg)), i);
    }
  }

  // The totals.

  lemma {:induction false} SumClearEdit(maps: seq<Bits>, g: nat, m: Bits)
    requires g < |maps|
    ensures SumClear(maps[g := m]) == SumClear(maps) + Clear(m) - Clear(maps[g])
    ensures Clear(maps[g]) <= SumClear(maps)
  {
    var last := |maps| - 1;
    if g == last {
      assert maps[g := m][..last] == maps[..last];
    } else {
      assert maps[g := m][..last] == maps[..last][g := m];
      SumClearEdit(maps[..last], g, m);
    }
  }

  lemma {:induction false} SumClearBound(maps: seq<Bits>)
    ensures SumClear(maps) <= 32768 * |maps|
  {
    if maps != [] {
      SumClearBound(maps[..|maps| - 1]);
    }
  }

  /** The free counts add up to the clear bits. */
  lemma {:induction false} SumFreeMaps(ds: Descriptors, maps: seq<Bits>)
    requires |ds| == |maps| && forall g | 0 <= g < |ds| :: ds[g].freeBlocks == Clear(maps[g])
    ensures SumFree(ds) == SumClear(maps)
  {
    if ds != [] {
      SumFreeMaps(ds[..|ds| - 1], maps[..|maps| - 1]);
    }
  }

  /** Each new group brings its inodes, all free. */
  lemma {:induction false} SumFreeInodesGrown(ds: Descriptors, ds': Descriptors, ipg: nat)
    requires |ds| <= |ds'|
    requires forall g | 0 <= g < |ds| :: ds'[g].freeInodes == ds[g].freeInodes
    requires forall g | |ds| <= g < |ds'| :: ds'[g].freeInodes == ipg
    ensures SumFreeInodes(ds') == SumFreeInodes(ds) + InodesIn(|ds'| - |ds|, ipg)
    decreases |ds'|
  {
    if |ds'| == |ds| {
      if ds != [] {
        SumFreeInodesGrown(ds[..|ds| - 1], ds'[..|ds'| - 1], ipg);
      }
    } else {
      InodesAdd(|ds'| - 1 - |ds|, 1, ipg);
      SumFreeInodesGrown(ds, ds'[..|ds'| - 1], ipg);
    }
  }

  /** The edits a growth makes to one bitmap, taken together: the table's blocks, the old tail, the new tail. */
  lemma StepsMakeGrownMap(m: Bits, g: nat, n: nat, N: nat, m1: Bits, m2: Bits, m3: Bits)
    requires 1 <= n <= N && g < Groups(n)
    requires DescriptorBlocks(Groups(N)) < n && DescriptorBlocks(Groups(N)) <= 1024
    requires m1 == if g == 0 then Fill(m, 1 + DescriptorBlocks(Groups(n)), 1 + DescriptorBlocks(Groups(N)), true) else m
    requires m2 == if g == Groups(n) - 1 && n % 32768 != 0 then Fill(m1, n % 32768, 32768, false) else m1
    requires m3 == if g == Groups(N) - 1 && N % 32768 != 0 then Fill(m2, N % 32768, 32768, true) else m2
    ensures m3 == GrownMap(m, g, n, N)
  {
    assert n == (Groups(n) - 1) * 32768 + if n % 32768 == 0 then 32768 else n % 32768;
    assert N == (Groups(N) - 1) * 32768 + if N % 32768 == 0 then 32768 else N % 32768;
    var r := GrownMap(m, g, n, N);
    forall j | 0 <= j < 32768
      ensures m3[j] == r[j]
    {
      assert g < Groups(n) - 1 ==> g * 32768 + j < n;
      assert g < Groups(N) - 1 ==> g * 32768 + j < N;
    }
  }

  lemma StepsMakeFreshMap(g: nat, N: nat, meta: nat, m: Bits)
    requires N >= 1 && g < Groups(N)
    requires m ==
               if g == Groups(N) - 1 && N % 32768 != 0 then Fill(StartMap(meta), N % 32768, 32768, true)
               else StartMap(meta)
    ensures m == FreshMap(g, N, meta)
  {
    assert N == (Groups(N) - 1) * 32768 + if N % 32768 == 0 then 32768 else N % 32768;
    var r := FreshMap(g, N, meta);
    forall j | 0 <= j < 32768
      ensures m[j] == r[j]
    {
      assert g < Groups(N) - 1 ==> g * 32768 + j < N;
    }
  }

  /** The bitmaps with the last group's bits from the end of an n-block disk on set or cleared. */
  function TailMoved(maps: seq<Bits>, n: nat, used: bool): (r: seq<Bits>)
    requires |maps| >= 1
    ensures |r| == |maps|
  {
    var last := |maps| - 1;
    if n % 32768 == 0 then maps else maps[last := Fill(maps[last], n % 32768, 32768, used)]
  }

  function GroupsLaid(maps: seq<Bits>, groups: nat, meta: nat): (r: seq<Bits>)
    requires |maps| <= groups
    ensures |r| == groups
    ensures forall g | 0 <= g < groups :: r[g] == if g < |maps| then maps[g] else StartMap(meta)
  {
    maps + seq(groups - |maps|, _ => StartMap(meta))
  }

  /** The stages of a growth, one bitmap list after the other, end in the grown bitmaps. */
  lemma StagesMakeGrowMaps(maps: seq<Bits>, ipg: nat, n: nat, N: nat, m1: seq<Bits>, m2: seq<Bits>, m3: seq<Bits>,
                           m4: seq<Bits>)
    requires 1 <= n <= N && |maps| == Groups(n)
    requires DescriptorBlocks(Groups(N)) < n && DescriptorBlocks(Groups(N)) <= 1024
    requires m1 == maps[0 := Fill(maps[0], 1 + DescriptorBlocks(Groups(n)), 1 + DescriptorBlocks(Groups(N)), true)]
    requires m2 == TailMoved(m1, n, false)
    requires m3 == GroupsLaid(m2, Groups(N), Meta(ipg))
    requires m4 == TailMoved(m3, N, true)
    ensures m4 == GrowMaps(maps, ipg, n, N)
  {
    forall g | 0 <= g < Groups(N)
      ensures m4[g] == GrowMaps(maps, ipg, n, N)[g]
    {
      if g < |maps| {
        StepsMakeGrownMap(maps[g], g, n, N, m1[g], m2[g], m4[g]);
      } else {
        StepsMakeFreshMap(g, N, Meta(ipg), m4[g]);
      }
    }
  }
}
