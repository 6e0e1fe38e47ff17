/** What the transport shows a host of every process: the last status of each name the guest holds, whatever order
    delayed ends land in. */
module StatusBoard {

  import opened Guest
  import opened GuestInvariant

  /** `shown` is what a new host hears, `live` the names kept last. `issued` are the statuses so far, `delayed` the ends
      that wait for their output, and `since` is the last status of each name since it was last let go of. */
  datatype Board = Board(shown: map<string, Report>, live: seq<string>, issued: seq<Report>, delayed: set<Report>,
                         since: map<string, Report>)

  const NEW_BOARD := Board(map[], [], [], {}, map[])

  /** A status replaces an older one of a name that is live. */
  function Show(shown: map<string, Report>, live: seq<string>, p: Report): map<string, Report> {
    if p.name in live && (p.name !in shown || shown[p.name].stamp < p.stamp) then shown[p.name := p] else shown
  }

  function Kept<T>(m: map<string, T>, names: seq<string>): map<string, T> {
    map name | name in m && name in names :: m[name]
  }

  datatype Step = Told(emit: Emit, late: bool) | Landed(report: Report)

  /** What the guest tells is numbered on from the last, and only of names it keeps; only an end is ever delayed. */
  predicate Enabled(b: Board, s: Step) {
    match s
    case Told(Keep(_), _) => true
    case Told(Status(r), late) => r.stamp == |b.issued| + 1 && r.name in b.live && (late ==> r.state.Ended())
    case Landed(r) => r in b.delayed
  }

  function Next(b: Board, s: Step): Board {
    match s
    case Told(Keep(names), _) => b.(shown := Kept(b.shown, names), live := names, since := Kept(b.since, names))
    case Told(Status(r), late) =>
      var c := b.(issued := b.issued + [r], since := b.since[r.name := r]);
      if late then c.(delayed := c.delayed + {r}) else c.(shown := Show(b.shown, b.live, r))
    case Landed(r) => b.(shown := Show(b.shown, b.live, r), delayed := b.delayed - {r})
  }

  function After(b: Board, steps: seq<Step>): Board
    decreases |steps|
  {
    if steps == [] then b else After(Next(b, steps[0]), steps[1..])
  }

  predicate IsRun(b: Board, steps: seq<Step>)
    decreases |steps|
  {
    steps == [] || (Enabled(b, steps[0]) && IsRun(Next(b, steps[0]), steps[1..]))
  }

  /** The status is one that was issued, under its own number. */
  predicate Issued(issued: seq<Report>, r: Report) {
    1 <= r.stamp <= |issued| && issued[r.stamp - 1] == r
  }

  /** Only live names are shown, and only statuses that were issued. A name's newest status is shown, or is an end that
      still waits; nothing newer is ever shown or waits. */
  ghost predicate Inv(b: Board) {
    && (forall k | 0 <= k < |b.issued| :: b.issued[k].stamp == k + 1)
    && (forall n | n in b.shown :: n in b.live && b.shown[n].name == n && Issued(b.issued, b.shown[n]))
    && (forall n | n in b.since :: n in b.live && b.since[n].name == n && Issued(b.issued, b.since[n]))
    && (forall r | r in b.delayed :: Issued(b.issued, r))
    && (forall r | r in b.delayed && r.name in b.since :: r.stamp <= b.since[r.name].stamp)
    && (forall n | n in b.since && n in b.shown :: b.shown[n].stamp <= b.since[n].stamp)
    && (forall n | n in b.since :: b.since[n] in b.delayed || (n in b.shown && b.shown[n] == b.since[n]))
  }

  lemma KeepKeeps(b: Board, names: seq<string>, late: bool)
    requires Inv(b)
    ensures Inv(Next(b, Told(Keep(names), late)))
  {
  }

  lemma IssuedGrows(issued: seq<Report>, r: Report)
    requires r.stamp == |issued| + 1
    ensures Issued(issued + [r], r) && forall x | Issued(issued, x) :: Issued(issued + [r], x)
  {
  }

  lemma ToldNowKeeps(b: Board, r: Report)
    requires Inv(b) && Enabled(b, Told(Status(r), false))
    ensures Inv(Next(b, Told(Status(r), false)))
  {
    IssuedGrows(b.issued, r);
    Below(b);
    var t := Next(b, Told(Status(r), false));
    assert t == Board(b.shown[r.name := r], b.live, b.issued + [r], b.delayed, b.since[r.name := r]);
    hide Issued, Next, Enabled;
    assert forall k | 0 <= k < |t.issued| :: t.issued[k].stamp == k + 1;
  }

  lemma ToldLateKeeps(b: Board, r: Report)
    requires Inv(b) && Enabled(b, Told(Status(r), true))
    ensures Inv(Next(b, Told(Status(r), true)))
  {
    IssuedGrows(b.issued, r);
    hide Issued;
    Below(b);
  }

  /** Everything on the board has a number given out so far. */
  lemma Below(b: Board)
    requires Inv(b)
    ensures forall n | n in b.shown :: b.shown[n].stamp <= |b.issued|
    ensures forall r | r in b.delayed :: r.stamp <= |b.issued|
  {
  }

  lemma LandedKeeps(b: Board, r: Report)
    requires Inv(b) && r in b.delayed
    ensures Inv(Next(b, Landed(r)))
  {
    var c := Next(b, Landed(r));
    forall n | n in c.since ensures c.since[n] in c.delayed || (n in c.shown && c.shown[n] == c.since[n]) {
      if b.since[n] == r {
        assert r.name == n;
      }
    }
  }

  lemma NextKeeps(b: Board, s: Step)
    requires Inv(b) && Enabled(b, s)
    ensures Inv(Next(b, s))
  {
    hide Inv, Next;
    match s {
      case Told(Keep(names), late) => KeepKeeps(b, names, late);
      case Told(Status(r), late) =>
        if late {
          ToldLateKeeps(b, r);
        } else {
          ToldNowKeeps(b, r);
        }
      case Landed(r) => LandedKeeps(b, r);
    }
  }

  /** Two names never share a number. */
  lemma NumbersDiffer(b: Board)
    requires Inv(b)
    ensures forall n, m | n in b.shown && m in b.shown && b.shown[n].stamp == b.shown[m].stamp :: n == m
  {
  }

  lemma {:induction false} RunsKeep(b: Board, steps: seq<Step>)
    requires Inv(b) && IsRun(b, steps)
    ensures Inv(After(b, steps))
    decreases |steps|
  {
    hide Inv, Next, Enabled;
    if steps != [] {
      NextKeeps(b, steps[0]);
      RunsKeep(Next(b, steps[0]), steps[1..]);
    }
  }

  /** With none of its ends waiting, a name's newest status is what a host reads. */
  lemma NewestIsShown(b: Board, n: string)
    requires Inv(b) && n in b.since && forall r | r in b.delayed :: r.name != n
    ensures n in b.shown && b.shown[n] == b.since[n]
  {
    assert b.since[n].name == n;
  }

  /** The names every `Keep` of the run holds on to. */
  predicate StaysLive(n: string, steps: seq<Step>) {
    forall s | s in steps && s.Told? && s.emit.Keep? :: n in s.emit.names
  }

  /** While a name stays live, what is shown of it never goes back to an older number, however late an end lands. */
  lemma {:induction false} NeverGoesBack(b: Board, steps: seq<Step>, n: string)
    requires n in b.shown && StaysLive(n, steps)
    ensures var c := After(b, steps); n in c.shown && c.shown[n].stamp >= b.shown[n].stamp
    decreases |steps|
  {
    if steps != [] {
      var c := Next(b, steps[0]);
      assert steps[0] in steps;
      assert n in c.shown && c.shown[n].stamp >= b.shown[n].stamp;
      assert StaysLive(n, steps[1..]);
      NeverGoesBack(c, steps[1..], n);
    }
  }

  // The guest as the one who tells.

  function Emits(steps: seq<Step>): seq<Emit> {
    if steps == [] then []
    else (match steps[0] case Told(e, _) => [e] case Landed(_) => []) + Emits(steps[1..])
  }

  /** Delays only of ends, and landings only of what waits. */
  predicate Lands(b: Board, steps: seq<Step>)
    decreases |steps|
  {
    steps == [] ||
    ((match steps[0]
      case Told(e, late) => e.Status? && late ==> e.report.state.Ended()
      case Landed(r) => r in b.delayed) &&
     Lands(Next(b, steps[0]), steps[1..]))
  }

  /** The board after what the guest emitted so far. */
  ghost predicate Follows(b: Board, emitted: seq<Emit>) {
    b.issued == Statuses(emitted) && b.live == LastKept(emitted)
  }

  /** Whatever a guest that keeps its invariant tells, with its ends delayed however, is a run of the board. */
  lemma {:induction false} GuestDrivesBoard(b: Board, emitted: seq<Emit>, steps: seq<Step>)
    requires Follows(b, emitted) && Lands(b, steps) && WellTold(emitted + Emits(steps))
    ensures IsRun(b, steps) && Follows(After(b, steps), emitted + Emits(steps))
    decreases |steps|
  {
    if steps == [] {
      assert emitted + Emits(steps) == emitted;
    } else {
      var all := emitted + Emits(steps);
      match steps[0] {
        case Told(e, late) =>
          assert all == emitted + [e] + Emits(steps[1..]);
          assert all[..|emitted|] == emitted && all[|emitted|] == e;
          StatusesOf(emitted, e);
          GuestDrivesBoard(Next(b, steps[0]), emitted + [e], steps[1..]);
        case Landed(r) =>
          assert all == emitted + Emits(steps[1..]);
          GuestDrivesBoard(Next(b, steps[0]), emitted, steps[1..]);
      }
    }
  }

  /** So the board of a guest that keeps its invariant keeps its own: it shows names the guest holds, under numbers that
      differ. */
  lemma {:induction false} BoardOfGuest(procs: seq<Proc>, stamp: nat, steps: seq<Step>)
    requires EmitsOk(procs, stamp, Emits(steps)) && Lands(NEW_BOARD, steps)
    ensures var b := After(NEW_BOARD, steps);
            && Inv(b) && b.live == Names(procs) && |b.issued| == stamp
            && (forall n, m | n in b.shown && m in b.shown && b.shown[n].stamp == b.shown[m].stamp :: n == m)
  {
    assert [] + Emits(steps) == Emits(steps);
    GuestDrivesBoard(NEW_BOARD, [], steps);
    RunsKeep(NEW_BOARD, steps);
    NumbersDiffer(After(NEW_BOARD, steps));
    hide After, Emits, Lands, IsRun;
  }

  // Replay.

  predicate Rising(r: seq<Report>) {
    forall i, j | 0 <= i < j < |r| :: r[i].stamp < r[j].stamp
  }

  ghost predicate Lists(r: seq<Report>, shown: map<string, Report>) {
    && (forall i | 0 <= i < |r| :: r[i].name in shown && shown[r[i].name] == r[i])
    && (forall n | n in shown :: shown[n] in r)
  }

  /** A strictly rising list of the board is the only one, and names each process once. */
  lemma {:induction false} RisingListIsUnique(r: seq<Report>, q: seq<Report>)
    requires Rising(r) && Rising(q) && (forall x :: x in r <==> x in q)
    ensures r == q
    decreases |r|
  {
    assert q != [] ==> q[0] in r;
    if r != [] {
      SameFirst(r, q);
      hide Rising;
      TailOf(r, q);
      TailOf(q, r);
      RisingTail(r);
      RisingTail(q);
      RisingListIsUnique(r[1..], q[1..]);
      assert r == [r[0]] + r[1..] && q == [q[0]] + q[1..];
    }
  }

  lemma RisingTail(r: seq<Report>)
    requires Rising(r) && r != []
    ensures Rising(r[1..])
  {
  }

  lemma SameFirst(r: seq<Report>, q: seq<Report>)
    requires Rising(r) && Rising(q) && r != [] && (forall x :: x in r <==> x in q)
    ensures q != [] && r[0] == q[0]
  {
    assert r[0] in q;
    assert q[0] in r;
    var i :| 0 <= i < |q| && q[i] == r[0];
    var j :| 0 <= j < |r| && r[j] == q[0];
  }

  lemma TailOf(r: seq<Report>, q: seq<Report>)
    requires Rising(r) && Rising(q) && r != [] && q != [] && r[0] == q[0] && (forall x | x in r :: x in q)
    ensures forall x | x in r[1..] :: x in q[1..]
  {
    forall x | x in r[1..] ensures x in q[1..] {
      var i :| 1 <= i < |r| && r[i] == x;
      assert x in r;
      var j :| 0 <= j < |q| && q[j] == x;
      assert j != 0;
      assert q[1..][j - 1] == x;
    }
  }

  lemma RisingNone()
    ensures Rising([])
  {
  }

  lemma RisingOn(r: seq<Report>, x: Report)
    requires Rising(r) && forall i | 0 <= i < |r| :: r[i].stamp < x.stamp
    ensures Rising(r + [x])
  {
  }

  class Shown {
    var shown: map<string, Report>
    var live: seq<string>

    method ShowStatus(p: Report)
      modifies this`shown
      ensures shown == Show(old(shown), live, p)
      ensures forall n | n != p.name :: (n in shown <==> n in old(shown)) && (n in shown ==> shown[n] == old(shown)[n])
      ensures if p.name in live && (p.name in old(shown) ==> old(shown)[p.name].stamp < p.stamp) then
                p.name in shown && shown[p.name] == p
              else shown == old(shown)
    {
      if p.name in live && (p.name !in shown || shown[p.name].stamp < p.stamp) {
        shown := shown[p.name := p];
      }
    }

    method KeepNames(names: seq<string>)
      modifies this
      ensures live == names && shown == Kept(old(shown), names)
    {
      live := names;
      var keys := shown.Keys;
      ghost var was := shown;
      while keys != {}
        invariant keys <= was.Keys && live == names
        invariant shown == map n | n in was && (n in names || n in keys) :: was[n]
        decreases keys
      {
        var n :| n in keys;
        keys := keys - {n};
        if n !in names {
          shown := shown - {n};
        }
      }
    }

    /** What a new host hears of every process, in the order the guest numbered them. */
    method Replay() returns (r: seq<Report>)
      requires forall n | n in shown :: shown[n].name == n
      requires forall n, m | n in shown && m in shown && shown[n].stamp == shown[m].stamp :: n == m
      ensures Rising(r) && Lists(r, shown)
    {
      hide Rising;
      r := [];
      RisingNone();
      var left := shown.Keys;
      while left != {}
        invariant left <= shown.Keys && Rising(r)
        invariant forall i | 0 <= i < |r| :: r[i].name in shown && shown[r[i].name] == r[i]
        invariant forall n | n in shown && n !in left :: shown[n] in r
        invariant forall i, n | 0 <= i < |r| && n in left :: r[i].stamp < shown[n].stamp
        decreases left
      {
        var n := First(left);
        left := left - {n};
        RisingOn(r, shown[n]);
        r := r + [shown[n]];
      }
    }

    /** The name with the lowest number. */
    method First(names: set<string>) returns (n: string)
      requires names != {} && names <= shown.Keys
      requires forall a, b | a in shown && b in shown && shown[a].stamp == shown[b].stamp :: a == b
      ensures n in names && forall m | m in names && m != n :: shown[n].stamp < shown[m].stamp
    {
      n :| n in names;
      var rest := names - {n};
      while rest != {}
        invariant rest <= names && n in names && n !in rest
        invariant forall m | m in names && m !in rest && m != n :: shown[n].stamp < shown[m].stamp
        decreases rest
      {
        var m :| m in rest;
        rest := rest - {m};
        if shown[m].stamp < shown[n].stamp {
          n := m;
        }
      }
    }
  }
}
