/** The log protocol of one name, over all its sinks and every connection any host ever opened: any interleaving of
    writes, copies, answers, acks, replacements, hang-ups and closes. */
module LogRuns {

  import opened Common
  import opened LogSink

  /** What a host says in place of an offset, or an offset. */
  datatype Word = LogStopped | At(at: nat)

  /** Where the sender of a connection stands: it offered a range, or sends on from byte `at` with `chunk` copied and
      not yet written, or is over. */
  datatype Phase = Offered | Sending(at: nat, chunk: seq<Byte>) | Gone

  /** One connection: the sink it was taken by, the range it was offered, the byte its host answered, and every byte it
      carried. */
  datatype Link = Link(sink: nat, from: nat, to: nat, phase: Phase, base: nat, wire: seq<Byte>)

  /** The end of a process, recorded when its sink's output reached byte `mark`. */
  datatype End = End(sink: nat, mark: nat)

  /** `stream` is all the output the name's sinks took in, by its numbers; sink `k` starts at `starts[k]`, and `sink` is
      the last. `written` is the number after the last byte the process wrote, and `acked` the last offset a live host's
      word let go of. */
  datatype State = State(stream: seq<Byte>, starts: seq<nat>, sink: Sink, pipe: seq<Byte>, written: nat, acked: nat,
                         links: map<Conn, Link>, ends: seq<End>)
  {
    function Current(): nat {
      if |starts| > 0 then |starts| - 1 else 0
    }
  }

  /** Where what sink `k` took in ends, so far. */
  function EndOf(starts: seq<nat>, stream: seq<Byte>, k: nat): nat {
    if k + 1 < |starts| then starts[k + 1] else |stream|
  }

  const INIT := State([], [0], NewSink(0), [], 0, 0, map[], [])

  datatype Step =
    | Write(bytes: seq<Byte>)
    | Copy(n: nat)
    | Take(conn: Conn)
    | Answer(conn: Conn, word: Word)
    | Turn(conn: Conn)
    | Put(conn: Conn, n: nat)
    | Ack(conn: Conn, word: Word)
    | Hang(conn: Conn)
    | Abandon
    | Close
    | Renew
    | RecordEnd

  predicate Enabled(s: State, step: Step) {
    match step
    case Write(_) => !s.sink.closed
    case Copy(n) => !s.sink.closed && n <= |s.pipe| && |s.sink.held| + n <= LOG_HOLD
    case Take(c) => c !in s.links
    case Answer(c, _) => c in s.links && s.links[c].phase.Offered?
    case Turn(c) =>
      c in s.links && s.links[c].phase.Sending? && s.links[c].phase.chunk == []
      && !NextTurn(s.sink, c, s.links[c].phase.at).Wait?
    case Put(c, n) =>
      c in s.links && s.links[c].phase.Sending? && s.links[c].phase.chunk != [] && n <= |s.links[c].phase.chunk|
    case Ack(c, _) => c in s.links && !s.links[c].phase.Offered?
    case Hang(c) => c in s.links
    case Abandon => true
    case Close => !s.sink.closed
    case Renew => s.sink.closed
    case RecordEnd => !s.sink.closed
  }

  function Relink(s: State, c: Conn, l: Link): State {
    s.(links := s.links[c := l])
  }

  /** The sender of `c` ends, and hangs up if `c` is still the live host. */
  function Over(s: State, c: Conn, l: Link): State {
    Relink(s, c, l.(phase := Gone)).(sink := Dropped(s.sink, c))
  }

  /** A word of `c` that lets go of the output before byte `at`. */
  function Let(s: State, c: Conn, at: nat): (State, bool) {
    var (sink, ok) := Released(s.sink, c, at);
    (s.(sink := sink, acked := if s.sink.Live(c) && ok then at else s.acked), ok)
  }

  function Answered(s: State, c: Conn, l: Link, word: Word): State {
    match word
    case LogStopped => Over(s.(sink := StoppedBy(s.sink, c)), c, l)
    case At(at) =>
      if at < l.from || at > l.to then Over(s, c, l)
      else
        var (t, ok) := Let(s, c, at);
        if ok then Relink(t, c, l.(phase := Sending(at, []), base := at)) else Over(t, c, l)
  }

  function Acked(s: State, c: Conn, word: Word): State {
    match word
    case LogStopped => s.(sink := Dropped(StoppedBy(s.sink, c), c))
    case At(at) =>
      var (t, ok) := Let(s, c, at);
      if ok then t else t.(sink := Dropped(t.sink, c))
  }

  function Next(s: State, step: Step): State
    requires Enabled(s, step)
  {
    match step
    case Write(bytes) => s.(pipe := s.pipe + bytes, written := s.written + |bytes|)
    case Copy(n) => s.(sink := Copied(s.sink, s.pipe[..n]), stream := s.stream + s.pipe[..n], pipe := s.pipe[n..])
    case Take(c) =>
      if s.sink.closed then s
      else
        Relink(s, c, Link(s.Current(), s.sink.from, s.sink.End(), Offered, s.sink.from, [])).(sink := Taken(s.sink, c))
    case Answer(c, word) => Answered(s, c, s.links[c], word)
    case Turn(c) =>
      var l := s.links[c];
      (match NextTurn(s.sink, c, l.phase.at)
       case Chunk(bytes) => Relink(s, c, l.(phase := Sending(l.phase.at, bytes)))
       case _ => Over(s, c, l))
    case Put(c, n) =>
      var l := s.links[c];
      var sent := l.(wire := l.wire + l.phase.chunk[..n]);
      if n == |l.phase.chunk| then Relink(s, c, sent.(phase := Sending(l.phase.at + n, []))) else Over(s, c, sent)
    case Ack(c, word) => Acked(s, c, word)
    case Hang(c) => s.(sink := Dropped(s.sink, c))
    case Abandon => s.(sink := Abandoned(s.sink))
    case Close => s.(sink := Closed(s.sink))
    case Renew =>
      var end := s.sink.End();
      s.(starts := s.starts + [end], sink := NewSink(end), pipe := [], written := end, acked := end)
    case RecordEnd => s.(ends := s.ends + [End(s.Current(), s.sink.End() + |s.pipe|)])
  }

  // What every step keeps.

  ghost predicate StartsOk(starts: seq<nat>, stream: seq<Byte>) {
    && |starts| > 0
    && (forall k | 0 <= k < |starts| :: starts[k] <= EndOf(starts, stream, k) <= |stream|)
  }

  lemma {:induction false} StartsRise(starts: seq<nat>, stream: seq<Byte>, j: nat, k: nat)
    requires StartsOk(starts, stream) && j < k < |starts|
    ensures EndOf(starts, stream, j) <= starts[k]
    decreases k - j
  {
    if j + 1 < k {
      StartsRise(starts, stream, j + 1, k);
    }
  }

  /** The hold is exactly the output from byte `from` on, within its bound, and only the live host's words moved it
      there. */
  ghost predicate SinkOk(sink: Sink, stream: seq<Byte>, start: nat, acked: nat) {
    && start <= sink.from <= |stream|
    && sink.held == stream[sink.from..] && |sink.held| <= LOG_HOLD
    && acked == sink.from
    && (sink.closed ==> sink.conn.None? && sink.stopped)
  }

  /** A connection carries a contiguous run of its sink's output, from the byte its host answered. */
  ghost predicate LinkOk(l: Link, stream: seq<Byte>, start: nat, end: nat) {
    && start <= l.from <= l.base <= l.to <= end <= |stream|
    && l.base + |l.wire| <= end && l.wire == stream[l.base..l.base + |l.wire|]
    && (l.phase.Offered? ==> l.wire == [])
    && (l.phase.Sending? ==>
          && l.phase.at == l.base + |l.wire| && l.phase.at + |l.phase.chunk| <= end
          && l.phase.chunk == stream[l.phase.at..l.phase.at + |l.phase.chunk|])
  }

  ghost predicate Linked(l: Link, stream: seq<Byte>, starts: seq<nat>) {
    l.sink < |starts| && LinkOk(l, stream, starts[l.sink], EndOf(starts, stream, l.sink))
  }

  ghost predicate LinksOk(links: map<Conn, Link>, stream: seq<Byte>, starts: seq<nat>) {
    forall c | c in links :: Linked(links[c], stream, starts)
  }

  /** The live host's connection is one of the current sink that is not over; while it was only offered a range, the
      range still holds. */
  ghost predicate LiveOk(sink: Sink, links: map<Conn, Link>, current: nat) {
    sink.conn.Some? ==>
      var c := sink.conn.value;
      && c in links && links[c].sink == current && !links[c].phase.Gone?
      && (links[c].phase.Offered? ==> links[c].from == sink.from)
  }

  ghost predicate Inv(s: State) {
    && StartsOk(s.starts, s.stream) && SinkOk(s.sink, s.stream, s.starts[s.Current()], s.acked)
    && LinksOk(s.links, s.stream, s.starts) && LiveOk(s.sink, s.links, s.Current())
    && (!s.sink.closed ==> s.written == |s.stream| + |s.pipe|)
  }

  lemma InitInv()
    ensures Inv(INIT)
  {
  }

  // Links, one at a time.

  lemma Relinked(links: map<Conn, Link>, stream: seq<Byte>, starts: seq<nat>, c: Conn, l: Link)
    requires LinksOk(links, stream, starts) && Linked(l, stream, starts)
    ensures LinksOk(links[c := l], stream, starts)
  {
    hide Linked;
  }

  lemma LinkAt(s: State, c: Conn)
    requires Inv(s) && c in s.links
    ensures Linked(s.links[c], s.stream, s.starts)
  {
  }

  /** More output, or a later sink, leaves what the connections carry as it was. */
  lemma LinksGrow(links: map<Conn, Link>, stream: seq<Byte>, starts: seq<nat>, stream': seq<Byte>, starts': seq<nat>)
    requires LinksOk(links, stream, starts) && |starts| <= |starts'| && stream <= stream'
    requires forall k | 0 <= k < |starts| ::
               starts'[k] == starts[k] && EndOf(starts, stream, k) <= EndOf(starts', stream', k) <= |stream'|
    ensures LinksOk(links, stream', starts')
  {
    forall c | c in links ensures Linked(links[c], stream', starts') {
      var l := links[c];
      assert Linked(l, stream, starts);
      LinkGrows(l, stream, stream', starts[l.sink], EndOf(starts, stream, l.sink), EndOf(starts', stream', l.sink));
    }
  }

  lemma LinkGrows(l: Link, stream: seq<Byte>, stream': seq<Byte>, start: nat, end: nat, end': nat)
    requires LinkOk(l, stream, start, end) && stream <= stream' && end <= end' <= |stream'|
    ensures LinkOk(l, stream', start, end')
  {
    assert forall a, b | 0 <= a <= b <= |stream| :: stream'[a..b] == stream[a..b];
  }

  lemma CopyKeeps(s: State, n: nat)
    requires Inv(s) && Enabled(s, Copy(n))
    ensures Inv(Next(s, Copy(n)))
  {
    hide LinksOk;
    var t := Next(s, Copy(n));
    LinksGrow(s.links, s.stream, s.starts, t.stream, t.starts);
    assert t.stream[t.sink.from..] == s.stream[s.sink.from..] + s.pipe[..n];
  }

  lemma TakeKeeps(s: State, c: Conn)
    requires Inv(s) && Enabled(s, Take(c))
    ensures Inv(Next(s, Take(c)))
  {
    hide LinksOk;
    if !s.sink.closed {
      var l := Link(s.Current(), s.sink.from, s.sink.End(), Offered, s.sink.from, []);
      assert s.stream[l.base..l.base] == [];
      Relinked(s.links, s.stream, s.starts, c, l);
    }
  }

  /** A word of the live host in range moves `from` there; nothing else moves it. */
  lemma LetKeeps(s: State, c: Conn, at: nat, start: nat)
    requires SinkOk(s.sink, s.stream, start, s.acked)
    ensures var (t, ok) := Let(s, c, at);
            && SinkOk(t.sink, s.stream, start, t.acked) && t == s.(sink := t.sink, acked := t.acked)
            && t.sink.conn == s.sink.conn && t.sink.closed == s.sink.closed
            && (!s.sink.Live(c) ==> ok && t == s) && (!ok ==> t == s)
            && (s.sink.Live(c) ==> (ok <==> s.sink.from <= at <= s.sink.End()))
            && (s.sink.Live(c) && ok ==> t.sink.from == at)
  {
  }

  lemma OverKeeps(s: State, c: Conn, l: Link)
    requires Inv(s) && Linked(l.(phase := Gone), s.stream, s.starts)
    ensures Inv(Over(s, c, l))
  {
    hide LinksOk, Linked, StartsOk;
    Relinked(s.links, s.stream, s.starts, c, l.(phase := Gone));
  }

  lemma GoneLinked(s: State, c: Conn)
    requires Inv(s) && c in s.links
    ensures Linked(s.links[c].(phase := Gone), s.stream, s.starts)
  {
    LinkAt(s, c);
  }

  lemma AnswerKeeps(s: State, c: Conn, word: Word)
    requires Inv(s) && Enabled(s, Answer(c, word))
    ensures Inv(Next(s, Answer(c, word)))
  {
    hide LinksOk, Linked, StartsOk;
    GoneLinked(s, c);
    var l := s.links[c];
    match word {
      case LogStopped => OverKeeps(s.(sink := StoppedBy(s.sink, c)), c, l);
      case At(at) =>
        if at < l.from || at > l.to {
          OverKeeps(s, c, l);
        } else {
          AnsweredKeeps(s, c, at);
        }
    }
  }

  /** While its connection is live the range a host was offered still holds, so an answer in it is never refused. */
  lemma AnswerFits(s: State, c: Conn, at: nat)
    requires Inv(s) && c in s.links && s.links[c].phase.Offered? && s.links[c].from <= at <= s.links[c].to
    ensures Let(s, c, at).1
    ensures Linked(s.links[c].(phase := Sending(at, []), base := at), s.stream, s.starts)
  {
    LinkAt(s, c);
    assert s.stream[at..at] == [];
  }

  lemma AnsweredKeeps(s: State, c: Conn, at: nat)
    requires Inv(s) && c in s.links && s.links[c].phase.Offered? && s.links[c].from <= at <= s.links[c].to
    ensures Inv(Answered(s, c, s.links[c], At(at)))
    ensures Answered(s, c, s.links[c], At(at)).links[c].phase == Sending(at, [])
  {
    AnswerFits(s, c, at);
    hide LinksOk, LinkOk, Linked, StartsOk, SinkOk, Let;
    LetKeeps(s, c, at, s.starts[s.Current()]);
    Relinked(s.links, s.stream, s.starts, c, s.links[c].(phase := Sending(at, []), base := at));
  }

  lemma TurnKeeps(s: State, c: Conn)
    requires Inv(s) && Enabled(s, Turn(c))
    ensures Inv(Next(s, Turn(c)))
  {
    hide LinksOk, LinkOk, NextTurn, Linked, StartsOk, SinkOk;
    var l := s.links[c];
    var turn := NextTurn(s.sink, c, l.phase.at);
    if turn.Chunk? {
      TurnLink(s, c, turn.bytes);
      SentKeeps(s, c, l.(phase := Sending(l.phase.at, turn.bytes)));
    } else {
      GoneLinked(s, c);
      OverKeeps(s, c, l);
    }
  }

  lemma TurnLink(s: State, c: Conn, bytes: seq<Byte>)
    requires Inv(s) && Enabled(s, Turn(c)) && NextTurn(s.sink, c, s.links[c].phase.at) == Chunk(bytes)
    ensures Linked(s.links[c].(phase := Sending(s.links[c].phase.at, bytes)), s.stream, s.starts)
  {
    LinkAt(s, c);
    var at, n := s.links[c].phase.at, |bytes|;
    assert s.stream[s.sink.from..][at - s.sink.from..][..n] == s.stream[at..at + n];
  }

  lemma PutKeeps(s: State, c: Conn, n: nat)
    requires Inv(s) && Enabled(s, Put(c, n))
    ensures Inv(Next(s, Put(c, n)))
  {
    hide Inv, Linked, Over, Relink;
    LinkAt(s, c);
    var l := s.links[c];
    PutLinked(l, s.stream, s.starts, n);
    if n < |l.phase.chunk| {
      OverKeeps(s, c, l.(wire := l.wire + l.phase.chunk[..n]));
    } else {
      SentKeeps(s, c, l.(wire := l.wire + l.phase.chunk[..n], phase := Sending(l.phase.at + n, [])));
    }
  }

  lemma SentKeeps(s: State, c: Conn, l: Link)
    requires Inv(s) && c in s.links && l.sink == s.links[c].sink && l.phase.Sending? && Linked(l, s.stream, s.starts)
    ensures Inv(Relink(s, c, l))
  {
    assert |s.starts| > 0;
    hide LinksOk, Linked, StartsOk, SinkOk;
    Relinked(s.links, s.stream, s.starts, c, l);
  }

  lemma PutLinked(l: Link, stream: seq<Byte>, starts: seq<nat>, n: nat)
    requires Linked(l, stream, starts) && l.phase.Sending? && n <= |l.phase.chunk|
    ensures var sent := l.(wire := l.wire + l.phase.chunk[..n]);
            && Linked(sent.(phase := Gone), stream, starts)
            && (n == |l.phase.chunk| ==> Linked(sent.(phase := Sending(l.phase.at + n, [])), stream, starts))
  {
    PutLink(l, stream, starts[l.sink], EndOf(starts, stream, l.sink), n);
  }

  lemma PutLink(l: Link, stream: seq<Byte>, start: nat, end: nat, n: nat)
    requires LinkOk(l, stream, start, end) && l.phase.Sending? && n <= |l.phase.chunk|
    ensures var sent := l.(wire := l.wire + l.phase.chunk[..n]);
            && LinkOk(sent.(phase := Gone), stream, start, end)
            && (n == |l.phase.chunk| ==> LinkOk(sent.(phase := Sending(l.phase.at + n, [])), stream, start, end))
  {
    var at := l.phase.at;
    assert l.phase.chunk[..n] == stream[at..at + n];
    assert stream[l.base..at] + stream[at..at + n] == stream[l.base..at + n];
    assert stream[at + n..at + n] == [];
  }

  lemma AckKeeps(s: State, c: Conn, word: Word)
    requires Inv(s) && Enabled(s, Ack(c, word))
    ensures Inv(Next(s, Ack(c, word)))
  {
    assert |s.starts| > 0;
    hide LinksOk, StartsOk;
    if word.At? {
      hide Let;
      LetKeeps(s, c, word.at, s.starts[s.Current()]);
    }
  }

  lemma RenewKeeps(s: State)
    requires Inv(s) && Enabled(s, Renew)
    ensures Inv(Next(s, Renew))
  {
    var t := Next(s, Renew);
    assert t.stream[t.sink.from..] == [];
    LinksGrow(s.links, s.stream, s.starts, t.stream, t.starts);
    hide LinksOk;
  }

  /** The steps that touch no connection and no number. */
  lemma PlainKeeps(s: State, step: Step)
    requires Inv(s) && Enabled(s, step)
    requires step.Write? || step.Hang? || step.Abandon? || step.Close? || step.RecordEnd?
    ensures Inv(Next(s, step))
  {
    hide LinksOk, StartsOk;
  }

  lemma NextKeeps(s: State, step: Step)
    requires Inv(s) && Enabled(s, step)
    ensures Inv(Next(s, step))
  {
    hide Inv, Next, Enabled;
    match step {
      case Copy(n) => CopyKeeps(s, n);
      case Take(c) => TakeKeeps(s, c);
      case Answer(c, word) => AnswerKeeps(s, c, word);
      case Turn(c) => TurnKeeps(s, c);
      case Put(c, n) => PutKeeps(s, c, n);
      case Ack(c, word) => AckKeeps(s, c, word);
      case Renew => RenewKeeps(s);
      case _ => PlainKeeps(s, step);
    }
  }

  // Whole runs, with any hosts.

  function After(s: State, steps: seq<Step>): State
    requires IsRun(s, steps)
    decreases |steps|
  {
    if steps == [] then s else After(Next(s, steps[0]), steps[1..])
  }

  predicate IsRun(s: State, steps: seq<Step>)
    decreases |steps|
  {
    steps == [] || (Enabled(s, steps[0]) && IsRun(Next(s, steps[0]), steps[1..]))
  }

  /** In every run, held is exactly the output from `from` on and each connection carries a contiguous run of it. */
  lemma {:induction false} RunsKeep(s: State, steps: seq<Step>)
    requires Inv(s) && IsRun(s, steps)
    ensures Inv(After(s, steps))
    decreases |steps|
  {
    hide Inv, Next, Enabled;
    if steps != [] {
      NextKeeps(s, steps[0]);
      RunsKeep(Next(s, steps[0]), steps[1..]);
    }
  }

  /** The offset a step's word names, and whose it is. */
  predicate SaysAt(step: Step, c: Conn, at: nat) {
    step == Answer(c, At(at)) || step == Ack(c, At(at))
  }

  /** Bytes leave the hold only by a word of the live host that names an offset the hold reaches, and then exactly those
      before it. */
  lemma OnlyLiveWordsRelease(s: State, step: Step)
    requires Inv(s) && Enabled(s, step)
    ensures var t := Next(s, step);
            t.sink.from == s.sink.from ||
            (step.Renew? && t.sink.from == s.sink.End() == |s.stream|) ||
            (exists c: Conn, at: nat :: SaysAt(step, c, at) && s.sink.Live(c) && s.sink.from <= at <= s.sink.End() &&
                             t.sink.from == at && t.sink.held == s.sink.held[at - s.sink.from..])
  {
    hide LinksOk, StartsOk, LiveOk, Linked;
    match step {
      case Answer(c, At(at)) => assert SaysAt(step, c, at);
      case Ack(c, At(at)) => assert SaysAt(step, c, at);
      case _ =>
    }
  }

  /** What is numbered keeps its number for good, over every sink of the name. */
  lemma {:induction false} NumbersAreKept(s: State, steps: seq<Step>)
    requires IsRun(s, steps)
    ensures s.stream <= After(s, steps).stream && s.starts <= After(s, steps).starts
    decreases |steps|
  {
    if steps != [] {
      NumbersAreKeptOnce(s, steps[0]);
      NumbersAreKept(Next(s, steps[0]), steps[1..]);
    }
  }

  lemma NumbersAreKeptOnce(s: State, step: Step)
    requires Enabled(s, step)
    ensures s.stream <= Next(s, step).stream && s.starts <= Next(s, step).starts
  {
  }

  /** A closed sink's end is fixed: no step moves it, and the next sink of the name starts there. */
  lemma ClosedEndIsFixed(s: State, step: Step)
    requires Inv(s) && Enabled(s, step) && s.sink.closed
    ensures var t := Next(s, step);
            && EndOf(t.starts, t.stream, s.Current()) == EndOf(s.starts, s.stream, s.Current()) == s.sink.End()
            && (if step.Renew? then t.sink == NewSink(s.sink.End()) else t.sink == s.sink)
  {
    hide LinksOk, LiveOk, Linked;
  }

  /** Nor does any later step of any run. */
  lemma {:induction false} ClosedEndIsFixedForever(s: State, steps: seq<Step>, k: nat)
    requires Inv(s) && IsRun(s, steps) && k < |s.starts| && (k + 1 < |s.starts| || s.sink.closed)
    ensures var t := After(s, steps); k < |t.starts| && EndOf(t.starts, t.stream, k) == EndOf(s.starts, s.stream, k)
    decreases |steps|
  {
    hide Inv;
    if steps != [] {
      NextKeeps(s, steps[0]);
      var t := Next(s, steps[0]);
      NumbersAreKeptOnce(s, steps[0]);
      if k + 1 == |s.starts| {
        ClosedEndIsFixed(s, steps[0]);
      }
      hide Next;
      ClosedEndIsFixedForever(t, steps[1..], k);
    }
  }

  // Ends.

  /** When the transport lets a recorded end go out. */
  predicate MayShow(s: State, e: End) {
    e.sink != s.Current() || s.sink.from >= e.mark || s.sink.stopped
  }

  predicate LetGo(s: State, k: nat) {
    k != s.Current() || s.sink.closed
  }

  lemma OutputIsKeptOnce(s: State, step: Step)
    requires |s.starts| > 0 && Enabled(s, step) && |Next(s, step).starts| == |s.starts|
    ensures var t := Next(s, step); s.stream + s.pipe <= t.stream + t.pipe && (s.sink.closed ==> t.sink.closed)
  {
    match step {
      case Copy(n) => assert s.stream + s.pipe[..n] + s.pipe[n..] == s.stream + s.pipe;
      case Write(bytes) => assert s.stream + (s.pipe + bytes) == s.stream + s.pipe + bytes;
      case _ =>
    }
  }

  /** Until its sink is let go of, what a process wrote stays where it was: in the stream, or behind it in the pipe. */
  lemma {:induction false} OutputIsKept(s: State, steps: seq<Step>)
    requires |s.starts| > 0 && IsRun(s, steps) && !LetGo(After(s, steps), s.Current())
    ensures var t := After(s, steps); s.stream + s.pipe <= t.stream + t.pipe && !s.sink.closed
    decreases |steps|
  {
    hide Next, Enabled;
    if steps != [] {
      var t := Next(s, steps[0]);
      NumbersAreKept(t, steps[1..]);
      NumbersAreKeptOnce(s, steps[0]);
      OutputIsKeptOnce(s, steps[0]);
      OutputIsKept(t, steps[1..]);
    }
  }

  /** An end is recorded at the number after the last byte its process wrote. */
  lemma EndIsAtWritten(s: State)
    requires Inv(s) && !s.sink.closed
    ensures Next(s, RecordEnd).ends[|s.ends|] == End(s.Current(), s.written)
  {
  }

  /** An end goes out only once a host acked every byte written before it was recorded, unless its sink was stopped or
      let go of. */
  lemma {:induction false} EndWaitsForItsOutput(s: State, steps: seq<Step>)
    requires Inv(s) && !s.sink.closed && IsRun(Next(s, RecordEnd), steps)
    ensures var e, t := Next(s, RecordEnd).ends[|s.ends|], After(Next(s, RecordEnd), steps);
            MayShow(t, e) ==>
              || LetGo(t, e.sink) || t.sink.stopped
              || (t.acked >= s.written && |t.stream| >= s.written && t.stream[..s.written] == s.stream + s.pipe)
  {
    NextKeeps(s, RecordEnd);
    var r := Next(s, RecordEnd);
    var e, t := r.ends[|s.ends|], After(r, steps);
    RunsKeep(r, steps);
    if MayShow(t, e) && !LetGo(t, e.sink) && !t.sink.stopped {
      OutputIsKept(r, steps);
      assert t.stream[..s.written] == (t.stream + t.pipe)[..s.written];
      assert (t.stream + t.pipe)[..s.written] == s.stream + s.pipe;
    }
  }
}
