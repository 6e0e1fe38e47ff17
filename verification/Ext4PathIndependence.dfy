/** Growing in two steps leaves the very image one step leaves. */
module Ext4PathIndependence {
  import opened Bitmaps
  import opened Ext4Format
  import opened Ext4Layout
  import opened Ext4Growth
  import opened Ext4GrowthSound

  /** What clears the first step's tail brings back the bits the tail covered. */
  lemma GrownMapTwice(m: Bits, g: nat, n: nat, a: nat, b: nat)
    requires 1 <= n <= a <= b && DescriptorBlocks(Groups(b)) < n
    ensures GrownMap(GrownMap(m, g, n, a), g, a, b) == GrownMap(m, g, n, b)
  {
    var x, y := GrownMap(GrownMap(m, g, n, a), g, a, b), GrownMap(m, g, n, b);
    forall j | 0 <= j < 32768
      ensures x[j] == y[j]
    {
    }
  }

  /** A new group's metadata lies below the first step's end, so clearing the tail never frees it. */
  lemma FreshMapGrown(g: nat, a: nat, b: nat, meta: nat)
    requires 1 <= a <= b && DescriptorBlocks(Groups(b)) <= 1024 && 1 <= g && g * 32768 + meta <= a
    ensures GrownMap(FreshMap(g, a, meta), g, a, b) == FreshMap(g, b, meta)
  {
    var x, y := GrownMap(FreshMap(g, a, meta), g, a, b), FreshMap(g, b, meta);
    forall j | 0 <= j < 32768
      ensures x[j] == y[j]
    {
    }
  }

  /** The descriptors of a growth of a growth. */
  lemma SlotComposes(bs: seq<Block>, ds: Descriptors, d: nat, ipg: nat, da: nat, mapsA: seq<Bits>, r1: seq<Block>,
                     ds1: Descriptors,
                     db: nat, mapsB: seq<Bits>, r2: seq<Block>, k: nat)
    requires TableAt(bs, d) && 1 <= |ds| <= |mapsA| <= |mapsB| <= 0x2_0000 && |ds| <= 128 * d && ipg <= 32768
    requires Grows(bs, ds, d, ipg, da, mapsA, r1) && ds1 == Descs(r1, |mapsA|, da)
    requires Grows(r1, ds1, da, ipg, db, mapsB, r2) && k < 128 * db
    ensures ReadDesc(r2, k) == SlotOf(bs, ds, d, ipg, mapsB, k)
    ensures k < |ds| ==> ds1[k].blockBitmap == ds[k].blockBitmap
    ensures |ds| <= k < |ds1| ==> ds1[k].blockBitmap == k * 32768
  {
    if k < 128 * da {
      assert ReadDesc(r1, k) == SlotOf(bs, ds, d, ipg, mapsA, k);
    }
  }

  /** A growth of a growth is a growth of the image both began from. */
  lemma GrowsCompose(bs: seq<Block>, ds: Descriptors, d: nat, ipg: nat,
                     da: nat, mapsA: seq<Bits>, r1: seq<Block>, ds1: Descriptors,
                     db: nat, mapsB: seq<Bits>, r2: seq<Block>)
    requires TableAt(bs, d) && 1 <= |ds| <= |mapsA| <= |mapsB| <= 0x2_0000 && |ds| <= 128 * d && ipg <= 32768
    requires Grows(bs, ds, d, ipg, da, mapsA, r1) && ds1 == Descs(r1, |mapsA|, da)
    requires Grows(r1, ds1, da, ipg, db, mapsB, r2)
    requires Apart(ds, |bs|, db) && db < |bs| <= |ds| * 32768 && |r1| <= |mapsA| * 32768
    requires NewGroupsFit(|ds|, |mapsA|, ipg, |r1|)
    ensures Grows(bs, ds, d, ipg, db, mapsB, r2)
  {
    hide SlotOf, TailBlock, Apart, NewGroupsFit;
    forall k | 0 <= k < 128 * db
      ensures ReadDesc(r2, k) == SlotOf(bs, ds, d, ipg, mapsB, k)
      ensures k < |ds| ==> ds1[k].blockBitmap == ds[k].blockBitmap
      ensures |ds| <= k < |ds1| ==> ds1[k].blockBitmap == k * 32768
    {
      SlotComposes(bs, ds, d, ipg, da, mapsA, r1, ds1, db, mapsB, r2, k);
    }
    assert forall g | 0 <= g < |ds| :: ds1[g].blockBitmap == ds[g].blockBitmap;
    assert forall g | |ds| <= g < |ds1| :: ds1[g].blockBitmap >= |bs|;
    forall i | |bs| <= i < |r2|
      ensures r2[i] == TailBlock(ipg, |ds|, mapsB, i)
    {
      TailComposes(bs, ds, d, ipg, da, mapsA, r1, ds1, db, mapsB, r2, i);
    }
  }

  lemma TailComposes(bs: seq<Block>, ds: Descriptors, d: nat, ipg: nat,
                     da: nat, mapsA: seq<Bits>, r1: seq<Block>, ds1: Descriptors,
                     db: nat, mapsB: seq<Bits>, r2: seq<Block>, i: nat)
    requires TableAt(bs, d) && 1 <= |ds| <= |mapsA| <= |mapsB| <= 0x2_0000 && |ds| <= 128 * d && ipg <= 32768
    requires Grows(bs, ds, d, ipg, da, mapsA, r1) && ds1 == Descs(r1, |mapsA|, da)
    requires Grows(r1, ds1, da, ipg, db, mapsB, r2)
    requires Apart(ds, |bs|, db) && db < |bs| <= |ds| * 32768 && |r1| <= |mapsA| * 32768
    requires NewGroupsFit(|ds|, |mapsA|, ipg, |r1|)
    requires |bs| <= i < |r2|
    ensures r2[i] == TailBlock(ipg, |ds|, mapsB, i)
  {
    var g := i / 32768;
    assert i == g * 32768 + i % 32768;
    if i >= |r1| {
      assert |ds| <= g < |mapsA| ==> g * 32768 + Meta(ipg) <= |r1|;
    } else if |ds| <= g < |ds1| && i % 32768 == 0 {
      assert ds1[g].blockBitmap == i;
    } else {
      assert r1[i] == TailBlock(ipg, |ds|, mapsA, i);
      forall h | 0 <= h < |ds1|
        ensures ds1[h].blockBitmap != i
      {
        if h < |ds| {
          assert ds1[h].blockBitmap == ds[h].blockBitmap;
        } else {
          assert ds1[h].blockBitmap == h * 32768;
          assert h * 32768 / 32768 == h && h * 32768 % 32768 == 0;
        }
      }
      assert r2[i] == r1[i];
    }
  }

  /** Two growths in a row: the second image is what growing the first image once to the second size gives. */
  lemma GrownTwice(bs: seq<Block>, ipg: nat, a: nat, b: nat, r1: seq<Block>, r2: seq<Block>)
    requires SoundBlocks(bs, ipg) && |bs| <= a <= b <= MAX_BLOCKS
    requires Fits(ipg, a) || Groups(a) == Groups(|bs|)
    requires Claimable(bs, ipg, a) && GrownTo(bs, ipg, a, r1)
    requires SoundBlocks(r1, ipg) && Claimable(r1, ipg, b) && GrownTo(r1, ipg, b, r2)
    ensures Claimable(bs, ipg, b) && GrownTo(bs, ipg, b, r2)
  {
    var ds, d := DescsOf(bs), DescriptorBlocks(Groups(|bs|));
    var ds1, da, db := DescsOf(r1), DescriptorBlocks(Groups(a)), DescriptorBlocks(Groups(b));
    TableBound(b);
    FitsEveryGroup(|bs|, a, ipg);
    ClaimTwice(bs, ipg, a, b, r1);
    ClaimApart(bs, ds, d, db, TableBlocks(ipg));
    assert db < ds[0].blockBitmap < |bs|;
    FirstStep(bs, ipg, a, r1);
    MapsTwice(Maps(bs, ds), ipg, |bs|, a, b);
    GrowsCompose(bs, ds, d, ipg, da, GrownMaps(bs, ipg, a), r1, ds1, db, GrownMaps(r1, ipg, b), r2);
  }

  /** The bitmaps and pointers of the image after the first step. */
  lemma FirstStep(bs: seq<Block>, ipg: nat, a: nat, r1: seq<Block>)
    requires SoundBlocks(bs, ipg) && |bs| <= a <= MAX_BLOCKS
    requires Fits(ipg, a) || Groups(a) == Groups(|bs|)
    requires Claimable(bs, ipg, a) && GrownTo(bs, ipg, a, r1)
    requires SoundBlocks(r1, ipg)
    ensures Maps(r1, DescsOf(r1)) == GrownMaps(bs, ipg, a)
    ensures DescsOf(r1)[0].blockBitmap == DescsOf(bs)[0].blockBitmap
  {
    var ds, d, da := DescsOf(bs), DescriptorBlocks(Groups(|bs|)), DescriptorBlocks(Groups(a));
    TableBound(a);
    FitsEveryGroup(|bs|, a, ipg);
    ClaimApart(bs, ds, d, da, TableBlocks(ipg));
    MetaFits(|ds|, Groups(a), ipg, a);
    GrownDescs(bs, ds, d, ipg, da, GrownMaps(bs, ipg, a), r1, DescsOf(r1));
  }

  /** Blocks the first step left free it found free. */
  lemma FreeBefore(m: Bits, n: nat, a: nat, db: nat)
    requires 1 <= n <= a && db < n && DescriptorBlocks(Groups(a)) <= db <= 1024
    requires forall j | 1 + DescriptorBlocks(Groups(a)) <= j < 1 + db :: !GrownMap(m, 0, n, a)[j]
    requires forall j | 1 + DescriptorBlocks(Groups(n)) <= j < 1 + DescriptorBlocks(Groups(a)) :: !m[j]
    ensures forall j | 1 + DescriptorBlocks(Groups(n)) <= j < 1 + db :: !m[j]
  {
    assert forall j | 1 + DescriptorBlocks(Groups(a)) <= j < 1 + db :: GrownMap(m, 0, n, a)[j] == m[j];
  }

  lemma ClaimTwice(bs: seq<Block>, ipg: nat, a: nat, b: nat, r1: seq<Block>)
    requires SoundBlocks(bs, ipg) && |bs| <= a <= b <= MAX_BLOCKS
    requires Fits(ipg, a) || Groups(a) == Groups(|bs|)
    requires Claimable(bs, ipg, a) && GrownTo(bs, ipg, a, r1)
    requires SoundBlocks(r1, ipg) && Claimable(r1, ipg, b)
    ensures Claimable(bs, ipg, b)
  {
    FirstStep(bs, ipg, a, r1);
    var ds := DescsOf(bs);
    assert Maps(r1, DescsOf(r1))[0] == BlockMap(r1, DescsOf(r1), 0);
    assert DescriptorBlocks(Groups(b)) < ds[0].blockBitmap < |bs|;
    FreeBefore(BlockMap(bs, ds, 0), |bs|, a, DescriptorBlocks(Groups(b)));
  }

  /** The bitmaps of two steps are the bitmaps of one. */
  lemma MapsTwice(maps: seq<Bits>, ipg: nat, n: nat, a: nat, b: nat)
    requires 1 <= n <= a <= b && |maps| == Groups(n)
    requires DescriptorBlocks(Groups(b)) < n && DescriptorBlocks(Groups(b)) <= 1024
    requires NewGroupsFit(Groups(n), Groups(a), ipg, a)
    ensures GrowMaps(GrowMaps(maps, ipg, n, a), ipg, a, b) == GrowMaps(maps, ipg, n, b)
  {
    var x, y := GrowMaps(GrowMaps(maps, ipg, n, a), ipg, a, b), GrowMaps(maps, ipg, n, b);
    forall g | 0 <= g < Groups(b)
      ensures x[g] == y[g]
    {
      if g < Groups(n) {
        GrownMapTwice(maps[g], g, n, a, b);
      } else if g < Groups(a) {
        FreshMapGrown(g, a, b, Meta(ipg));
      }
    }
  }
}
