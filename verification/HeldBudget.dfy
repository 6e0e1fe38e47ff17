/** What the proxy holds of request bodies to put secrets in: the per-source budget, and every path that charges it and
    gives back. */
module HeldBudget {

  import opened Common

  type Source = nat

  /** The longest body that is held. */
  const BODY_CAP := 0x80_0000
  /** The first buffer of a body that names no length. */
  const HELD_CHUNK := 0x8000

  function Max(a: int, b: int): int {
    if a >= b then a else b
  }

  /** What a source holds; one the map does not name holds nothing. */
  function Get(counts: map<Source, int>, source: Source): int {
    if source in counts then counts[source] else 0
  }

  predicate NonNegative(counts: map<Source, int>) {
    forall s | s in counts :: counts[s] >= 0
  }

  function Reserved(counts: map<Source, int>, source: Source, n: int): map<Source, int> {
    counts[source := Get(counts, source) + n]
  }

  function Given(counts: map<Source, int>, source: Source, n: int): map<Source, int> {
    var left := Get(counts, source) - n;
    if left <= 0 then counts - {source} else counts[source := left]
  }

  /** `source` holds `n` more after than before, and every other source what it held. */
  ghost predicate Charged(before: map<Source, int>, after: map<Source, int>, source: Source, n: int) {
    NonNegative(after) && forall s: Source :: Get(after, s) == Get(before, s) + if s == source then n else 0
  }

  /** Giving back what was charged leaves every source with what it held before. */
  lemma GiveBack(before: map<Source, int>, after: map<Source, int>, source: Source, n: nat)
    requires NonNegative(before) && Charged(before, after, source, n)
    ensures Charged(before, Given(after, source, n), source, 0)
  {
    assert Get(after, source) == Get(before, source) + n;
  }

  class Budget {
    const limit: nat
    var counts: map<Source, int>

    ghost predicate Valid()
      reads this
    {
      NonNegative(counts) && forall s | s in counts :: counts[s] <= limit
    }

    constructor (limit: nat)
      ensures Valid() && this.limit == limit && counts == map[]
    {
      this.limit := limit;
      counts := map[];
    }

    method Reserve(source: Source, n: nat) returns (ok: bool)
      requires Valid()
      modifies this
      ensures Valid()
      ensures ok <==> Get(old(counts), source) + n <= limit
      ensures counts == if ok then Reserved(old(counts), source, n) else old(counts)
      ensures Charged(old(counts), counts, source, if ok then n else 0)
    {
      var held := if source in counts then counts[source] else 0;
      if held + n > limit {
        return false;
      }
      counts := counts[source := held + n];
      return true;
    }

    method Give(source: Source, n: nat)
      requires Valid()
      modifies this
      ensures Valid() && counts == Given(old(counts), source, n)
      ensures forall s: Source ::
                Get(counts, s) == if s == source then Max(0, Get(old(counts), s) - n) else Get(old(counts), s)
      ensures source in counts ==> counts[source] > 0
    {
      var held := if source in counts then counts[source] else 0;
      counts := counts[source := held - n];
      if held - n <= 0 {
        counts := counts - {source};
      }
    }
  }

  /** The guest's body: what is left of it to read. */
  class Body {
    var left: seq<Byte>

    constructor (bytes: seq<Byte>)
      ensures left == bytes
    {
      left := bytes;
    }

    /** One read into `space` bytes of room. The end of the body is told only once all of it was read. */
    method Read(space: nat, got: Got) returns (bytes: seq<Byte>, end: ReadEnd)
      modifies this
      ensures bytes + left == old(left) && |bytes| <= space
      ensures end.Eof? ==> left == []
      ensures end.Stalled? || end.Broken? ==> end == got.end
    {
      var n := Min(Min(got.n, space), |left|);
      bytes := left[..n];
      left := left[n..];
      end := if got.end.Eof? && left != [] then More else got.end;
    }
  }

  datatype ReadEnd = More | Eof | Stalled | Broken

  /** What one read of the body is about to do: how much it has, and how it ends. */
  datatype Got = Got(n: nat, end: ReadEnd)

  datatype Failure = OverBudget | BodyStalled | BodyBroken | Deadline | NotRewritten

  /** A buffer: its bytes, and the capacity that was charged for it. */
  datatype Buffer = Buffer(bytes: seq<Byte>, capacity: nat)

  /** The capacity after `capacity`: twice that, at least the first and at most the limit. */
  function Grown(capacity: nat, first: nat, limit: nat): (size: nat)
    ensures capacity < limit && 0 < first <= limit ==> capacity < size
    ensures size <= limit && (size == limit || (size >= first && size >= 2 * capacity))
    ensures size in {first, 2 * capacity, limit}
  {
    Min(Max(2 * capacity, first), limit)
  }

  /** Grows a full buffer toward `limit`, and takes the growth from the budget first. */
  method Room(b: Budget, buf: Buffer, first: nat, limit: nat, source: Source) returns (grown: Option<Buffer>)
    requires b.Valid() && |buf.bytes| <= buf.capacity <= limit && |buf.bytes| < limit && 0 < first <= limit
    modifies b
    ensures b.Valid()
    ensures grown.Some? ==>
              && grown.value.bytes == buf.bytes && |buf.bytes| < grown.value.capacity <= limit
              && Charged(old(b.counts), b.counts, source, grown.value.capacity - buf.capacity)
    ensures grown.Some? ==>
              grown.value.capacity ==
                if |buf.bytes| < buf.capacity then buf.capacity else Grown(buf.capacity, first, limit)
    ensures grown.None? <==> |buf.bytes| == buf.capacity &&
                             Get(old(b.counts), source) + Grown(buf.capacity, first, limit) - buf.capacity > b.limit
    ensures grown.None? ==> b.counts == old(b.counts)
  {
    if |buf.bytes| < buf.capacity {
      return Some(buf);
    }
    var size := Grown(buf.capacity, first, limit);
    var ok := b.Reserve(source, size - buf.capacity);
    if !ok {
      return None;
    }
    return Some(Buffer(buf.bytes, size));
  }

  /** Some read of the body ends so. */
  predicate Ends(gots: seq<Got>, end: ReadEnd) {
    exists i | 0 <= i < |gots| :: gots[i].end == end
  }

  /** Fills a buffer to the body's length, or to one byte past the cap when it names none. What is charged is the
      buffer's whole capacity, also when it fails, and no byte of the body is lost on the way. */
  method Read(b: Budget, body: Body, length: int, source: Source, gots: seq<Got>)
    returns (buf: Buffer, failure: Option<Failure>)
    requires b.Valid() && length <= BODY_CAP
    modifies b, body
    ensures b.Valid() && Charged(old(b.counts), b.counts, source, buf.capacity)
            && |buf.bytes| <= buf.capacity <= BODY_CAP + 1
    ensures buf.bytes + body.left == old(body.left)
    ensures failure.None? ==> body.left == [] || |buf.bytes| == if length >= 0 then length else BODY_CAP + 1
    ensures length >= 0 ==> buf.capacity <= length
    ensures failure.None? && length != 0 ==> buf.capacity > 0
    ensures failure == Some(OverBudget) ==>
              var limit := if length >= 0 then length else BODY_CAP + 1;
              var first := if length >= 0 then length else HELD_CHUNK;
              |buf.bytes| == buf.capacity
              && Get(b.counts, source) + Grown(buf.capacity, first, limit) - buf.capacity > b.limit
    ensures failure == Some(BodyStalled) ==> Ends(gots, Stalled) || |buf.bytes| < buf.capacity
    ensures failure == Some(BodyBroken) ==> Ends(gots, Broken)
    ensures failure.Some? ==> failure.value in {OverBudget, BodyStalled, BodyBroken}
  {
    var limit := if length >= 0 then length else BODY_CAP + 1;
    var first := if length >= 0 then length else HELD_CHUNK;
    buf := Buffer([], 0);
    var i := 0;
    while |buf.bytes| < limit
      invariant 0 <= i <= |gots| && b.Valid() && |buf.bytes| <= buf.capacity <= limit
      invariant Charged(old(b.counts), b.counts, source, buf.capacity)
      invariant buf.bytes + body.left == old(body.left)
      decreases |gots| - i
    {
      var grown := Room(b, buf, first, limit, source);
      if grown.None? {
        return buf, Some(OverBudget);
      }
      buf := grown.value;
      if i == |gots| {
        return buf, Some(BodyStalled);
      }
      var bytes, end := body.Read(buf.capacity - |buf.bytes|, gots[i]);
      i := i + 1;
      assert buf.bytes + bytes + body.left == buf.bytes + (bytes + body.left);
      buf := Buffer(buf.bytes + bytes, buf.capacity);
      match end {
        case More =>
        case Eof => return buf, None;
        case Stalled => return buf, Some(BodyStalled);
        case Broken => return buf, Some(BodyBroken);
      }
    }
    return buf, None;
  }

  /** What of the body is held: none, all of it, or its start with the rest still to stream. */
  datatype Hold = NotHeld | Whole(bytes: seq<Byte>) | Streams(start: seq<Byte>)

  /** Reads a body the director may put a secret in. A failure gives back all it took; a body past the cap loses no
      byte. */
  method HoldBody(b: Budget, body: Body, wanted: bool, length: int, setFails: bool, clearFails: bool, source: Source,
                  gots: seq<Got>)
    returns (held: Hold, charged: nat, failure: Option<Failure>)
    requires b.Valid()
    modifies b, body
    ensures b.Valid() && Charged(old(b.counts), b.counts, source, charged)
    ensures failure.Some? ==> charged == 0
    ensures failure.None? && held.NotHeld? ==> charged == 0 && body.left == old(body.left)
    ensures failure.None? && held.Whole? ==>
              |held.bytes| <= BODY_CAP && |held.bytes| <= charged && held.bytes + body.left == old(body.left)
    ensures failure.None? && held.Whole? ==> body.left == [] || |held.bytes| == length
    ensures failure.None? && held.Streams? ==>
              |held.start| == BODY_CAP + 1 == charged && held.start + body.left == old(body.left)
    ensures failure.None? ==> (held.Streams? <==> wanted && length < 0 && |old(body.left)| > BODY_CAP)
    ensures failure.None? ==> (held.NotHeld? <==> !wanted || length > BODY_CAP)
    ensures failure.None? && held.Whole? ==> (charged == 0 <==> length == 0)
    ensures failure.Some? ==>
              wanted && length <= BODY_CAP && failure.value in {OverBudget, BodyStalled, BodyBroken, Deadline}
    ensures failure == Some(Deadline) ==> setFails || clearFails
    ensures wanted && length <= BODY_CAP && (setFails || clearFails) ==> failure.Some?
    ensures failure == Some(BodyBroken) ==> Ends(gots, Broken)
  {
    if !wanted || length > BODY_CAP {
      return NotHeld, 0, None;
    }
    if setFails {
      return NotHeld, 0, Some(Deadline);
    }
    var buf, f := Read(b, body, length, source, gots);
    if f.Some? || clearFails {
      GiveBack(old(b.counts), b.counts, source, buf.capacity);
      b.Give(source, buf.capacity);
      return NotHeld, 0, if f.Some? then f else Some(Deadline);
    }
    assert |old(body.left)| == |buf.bytes| + |body.left|;
    if |buf.bytes| <= BODY_CAP {
      return Whole(buf.bytes), buf.capacity, None;
    }
    return Streams(buf.bytes), buf.capacity, None;
  }

  /** What the upstream reads: the guest's body as it comes, what was held and then the rest, or what the director made
      of it. */
  datatype Upstream = AsIs | Joined(start: seq<Byte>) | Rewritten(bytes: seq<Byte>)

  /** What the reservations that went through took. */
  function Taken(wants: seq<nat>, oks: seq<bool>): nat
    requires |oks| == |wants|
  {
    if wants == [] then 0
    else
      var n := |wants| - 1;
      Taken(wants[..n], oks[..n]) + if oks[n] then wants[n] else 0
  }

  /** The rewrite's reservations in turn: each goes through exactly if it fits beside what the source holds by then. */
  method ReserveAll(b: Budget, source: Source, wants: seq<nat>) returns (taken: nat, oks: seq<bool>)
    requires b.Valid()
    modifies b
    ensures b.Valid() && Charged(old(b.counts), b.counts, source, taken)
    ensures |oks| == |wants| && taken == Taken(wants, oks)
    ensures forall i | 0 <= i < |wants| ::
              oks[i] <==> Get(old(b.counts), source) + Taken(wants[..i], oks[..i]) + wants[i] <= b.limit
  {
    taken, oks := 0, [];
    for i := 0 to |wants|
      invariant b.Valid() && Charged(old(b.counts), b.counts, source, taken)
      invariant |oks| == i && taken == Taken(wants[..i], oks)
      invariant forall k | 0 <= k < i ::
                  oks[k] <==> Get(old(b.counts), source) + Taken(wants[..k], oks[..k]) + wants[k] <= b.limit
    {
      var ok := b.Reserve(source, wants[i]);
      assert wants[..i + 1][..i] == wants[..i] && (oks + [ok])[..i] == oks;
      assert forall k | 0 <= k < i :: (oks + [ok])[..k] == oks[..k];
      oks := oks + [ok];
      if ok {
        taken := taken + wants[i];
      }
    }
    assert wants[..|wants|] == wants;
  }

  /** Builds the request the upstream sees. The caller owes back exactly `charged`; a failure owes nothing. */
  method Outbound(b: Budget, body: Body, wanted: bool, length: int, setFails: bool, clearFails: bool, source: Source,
                  gots: seq<Got>,
                  wants: seq<nat>, rewrite: Option<seq<Byte>>)
    returns (out: Upstream, charged: nat, failure: Option<Failure>)
    requires b.Valid()
    modifies b, body
    ensures b.Valid() && Charged(old(b.counts), b.counts, source, charged)
    ensures failure.Some? ==> charged == 0
    ensures failure.None? && out.AsIs? ==> body.left == old(body.left)
    ensures failure.None? && out.Joined? ==> out.start + body.left == old(body.left)
    ensures failure.None? ==> (out.AsIs? <==> !wanted || length > BODY_CAP || length == 0)
    ensures failure.None? ==> (out.Joined? <==> wanted && length < 0 && |old(body.left)| > BODY_CAP)
    ensures failure.None? ==>
              (out.Rewritten? <==>
                 wanted && length <= BODY_CAP && length != 0 && (length > 0 || |old(body.left)| <= BODY_CAP))
    ensures failure.None? && out.Rewritten? ==> rewrite == Some(out.bytes)
    ensures rewrite.None? ==> failure.Some?
    ensures failure == Some(NotRewritten) ==> rewrite.None?
    ensures (!wanted || length > BODY_CAP) ==> failure == if rewrite.None? then Some(NotRewritten) else None
    ensures failure == Some(Deadline) ==> setFails || clearFails
    ensures failure == Some(BodyBroken) ==> Ends(gots, Broken)
  {
    var held, bytes, f := HoldBody(b, body, wanted, length, setFails, clearFails, source, gots);
    if f.Some? {
      return AsIs, 0, f;
    }
    var taken, _ := ReserveAll(b, source, wants);
    charged := bytes + taken;
    assert Charged(old(b.counts), b.counts, source, charged);
    if rewrite.None? {
      GiveBack(old(b.counts), b.counts, source, charged);
      b.Give(source, charged);
      return AsIs, 0, Some(NotRewritten);
    }
    match held {
      case Streams(start) => return Joined(start), charged, None;
      case NotHeld => return AsIs, charged, None;
      case Whole(whole) =>
        if |whole| == 0 && bytes == 0 {
          assert whole + body.left == body.left;
          return AsIs, charged, None;
        }
        return Rewritten(rewrite.value), charged, None;
    }
  }

  /** One request from start to end leaves every source with exactly what it held before. */
  method Handle(b: Budget, body: Body, wanted: bool, length: int, setFails: bool, clearFails: bool, source: Source,
                gots: seq<Got>,
                wants: seq<nat>, rewrite: Option<seq<Byte>>)
    returns (failure: Option<Failure>)
    requires b.Valid()
    modifies b, body
    ensures b.Valid() && forall s: Source :: Get(b.counts, s) == Get(old(b.counts), s)
  {
    var out, charged, f := Outbound(b, body, wanted, length, setFails, clearFails, source, gots, wants, rewrite);
    if f.Some? {
      return f;
    }
    GiveBack(old(b.counts), b.counts, source, charged);
    b.Give(source, charged);
    return None;
  }
}
