/** A disk block seen as its bits: bit j of a block is bit j % 8 of its byte j / 8, which is how ext4
    numbers a bitmap and how a little-endian integer lies in memory. */
module Bitmaps {

  /** How many bits are clear, which is what a group descriptor's free count claims of its bitmap. */
  function Clear(b: seq<bool>): (n: nat)
    ensures n <= |b|
  {
    if b == [] then 0 else Clear(b[..|b| - 1]) + if b[|b| - 1] then 0 else 1
  }

  /** The bits of b with [lo, hi) all equal to v. */
  function Fill(b: seq<bool>, lo: nat, hi: nat, v: bool): (r: seq<bool>)
    ensures |r| == |b|
    ensures forall i {:trigger r[i]} | 0 <= i < |b| :: r[i] == if lo <= i < hi then v else b[i]
  {
    seq(|b|, i requires 0 <= i < |b| => if lo <= i < hi then v else b[i])
  }

  /** One flipped bit moves the count by one. */
  lemma {:induction false} ClearUpdate(b: seq<bool>, j: nat, v: bool)
    requires j < |b|
    ensures Clear(b[j := v]) == Clear(b) + (if b[j] then 1 else 0) - (if v then 1 else 0)
  {
    var last := |b| - 1;
    if j == last {
      assert b[j := v][..last] == b[..last];
    } else {
      assert b[j := v][..last] == b[..last][j := v];
      ClearUpdate(b[..last], j, v);
    }
  }

  /** Filling one more place is one update. */
  lemma FillStep(b: seq<bool>, lo: nat, hi: nat, v: bool)
    requires lo <= hi < |b|
    ensures Fill(b, lo, hi + 1, v) == Fill(b, lo, hi, v)[hi := v]
  {
  }

  lemma FillNone(b: seq<bool>, lo: nat, v: bool)
    ensures Fill(b, lo, lo, v) == b
  {
  }

  /** Marking a wholly free range used takes exactly its length off the count. */
  lemma {:induction false} ClearClaim(b: seq<bool>, lo: nat, hi: nat)
    requires lo <= hi <= |b|
    requires forall i | lo <= i < hi :: !b[i]
    ensures Clear(Fill(b, lo, hi, true)) == Clear(b) - (hi - lo)
  {
    if lo == hi {
      FillNone(b, lo, true);
    } else {
      FillStep(b, lo, hi - 1, true);
      ClearClaim(b, lo, hi - 1);
      ClearUpdate(Fill(b, lo, hi - 1, true), hi - 1, true);
    }
  }

  lemma {:induction false} ClearAll(b: seq<bool>, v: bool)
    requires forall i | 0 <= i < |b| :: b[i] == v
    ensures Clear(b) == if v then 0 else |b|
  {
    if b != [] {
      ClearAll(b[..|b| - 1], v);
    }
  }

  lemma {:induction false} ClearConcat(a: seq<bool>, b: seq<bool>)
    ensures Clear(a + b) == Clear(a) + Clear(b)
  {
    if b == [] {
      assert a + b == a;
    } else {
      var last := |b| - 1;
      assert (a + b)[..|a + b| - 1] == a + b[..last];
      ClearConcat(a, b[..last]);
    }
  }

  /** A bitmap with [lo, hi) clear has at least that many clear bits, so a count below it rules a run out. */
  lemma {:induction false} RunNeedsFree(b: seq<bool>, lo: nat, hi: nat)
    requires lo <= hi <= |b|
    requires forall i | lo <= i < hi :: !b[i]
    ensures hi - lo <= Clear(b)
  {
    ClearClaim(b, lo, hi);
  }

  // Little-endian integers, least significant bit first.

  function Pow2(w: nat): (p: nat)
    ensures p >= 1
  {
    if w == 0 then 1 else 2 * Pow2(w - 1)
  }

  function FromBits(s: seq<bool>): nat {
    if s == [] then 0 else (if s[0] then 1 else 0) + 2 * FromBits(s[1..])
  }

  function ToBits(n: nat, w: nat): (s: seq<bool>)
    ensures |s| == w
  {
    if w == 0 then [] else [n % 2 == 1] + ToBits(n / 2, w - 1)
  }

  lemma {:induction false} FromBitsBound(s: seq<bool>)
    ensures FromBits(s) < Pow2(|s|)
  {
    if s != [] {
      FromBitsBound(s[1..]);
    }
  }

  /** Reading back what was written. */
  lemma {:induction false} FromTo(n: nat, w: nat)
    requires n < Pow2(w)
    ensures FromBits(ToBits(n, w)) == n
  {
    if w > 0 {
      FromTo(n / 2, w - 1);
      assert ToBits(n, w)[1..] == ToBits(n / 2, w - 1);
    }
  }

  /** Two bit strings of one width that read the same are the same. */
  lemma {:induction false} FromBitsInjective(s: seq<bool>, t: seq<bool>)
    requires |s| == |t| && FromBits(s) == FromBits(t)
    ensures s == t
  {
    if s != [] {
      FromBitsInjective(s[1..], t[1..]);
      assert s == [s[0]] + s[1..] && t == [t[0]] + t[1..];
    }
  }

  lemma {:induction false} FromZeros(s: seq<bool>)
    requires forall i | 0 <= i < |s| :: !s[i]
    ensures FromBits(s) == 0
  {
    if s != [] {
      FromZeros(s[1..]);
    }
  }

  lemma Widths()
    ensures Pow2(16) == 0x1_0000 && Pow2(32) == 0x1_0000_0000
  {
    assert Pow2(4) == 16;
    assert Pow2(8) == 256;
    assert Pow2(12) == 4096;
    assert Pow2(16) == 0x1_0000;
    assert Pow2(20) == 0x10_0000;
    assert Pow2(24) == 0x100_0000;
    assert Pow2(28) == 0x1000_0000;
  }
}
