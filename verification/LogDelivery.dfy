/** That nothing stands in the way of a host that comes back: from every state of every run it can bring its file to all
    the output there is, and the guest's hold to nothing. */
module LogDelivery {

  import opened Common
  import opened LogSink
  import opened LogRuns
  import opened LogHost

  lemma {:induction false} RunOn(w: World, h: HostStep, rest: seq<HostStep>)
    requires LogHost.Enabled(w, h) && LogHost.IsRun(LogHost.Next(w, h), rest)
    ensures LogHost.IsRun(w, [h] + rest) && LogHost.After(w, [h] + rest) == LogHost.After(LogHost.Next(w, h), rest)
  {
    assert ([h] + rest)[1..] == rest;
  }

  lemma {:induction false} NoSteps(w: World)
    ensures LogHost.IsRun(w, []) && LogHost.After(w, []) == w
  {
  }

  lemma {:induction false} RunsJoin(w: World, a: seq<HostStep>, b: seq<HostStep>)
    requires LogHost.IsRun(w, a) && LogHost.IsRun(LogHost.After(w, a), b)
    ensures LogHost.IsRun(w, a + b) && LogHost.After(w, a + b) == LogHost.After(LogHost.After(w, a), b)
    decreases |a|
  {
    if a == [] {
      assert a + b == b;
    } else {
      assert (a + b)[1..] == a[1..] + b;
      RunsJoin(LogHost.Next(w, a[0]), a[1..], b);
    }
  }

  /** The host follows the live connection `c` of an open sink, has read all it carried, and has no word on its way. */
  ghost predicate Following(w: World, c: Conn) {
    && HostInv(w) && !w.s.sink.closed && w.s.sink.Live(c) && c in w.s.links && Mail(w, c) == []
    && w.last == w.s.Current() < |w.parts|
    && var l := w.s.links[c];
       && l.sink == w.last && l.base <= w.s.sink.from && l.phase == Sending(w.parts[w.last], [])
       && w.session == Some(Reading(c, l.base, |l.wire|))
  }

  /** Only the last sink's part of the file grew, up to `at`. */
  ghost predicate GrewUpTo(w: World, t: World, at: nat) {
    && t.s.stream == w.s.stream && t.s.starts == w.s.starts
    && w.s.Current() < |w.parts| && t.parts == w.parts[w.s.Current() := at]
  }

  /** The bytes ahead of a sender of the live host, as many as one write carries, are its next turn. */
  lemma BytesAhead(s: State, c: Conn, at: nat) returns (bytes: seq<Byte>)
    requires Inv(s) && s.sink.Live(c) && s.sink.from <= at < |s.stream|
    ensures NextTurn(s.sink, c, at) == Chunk(bytes) && 0 < |bytes| == Min(32768, |s.stream| - at)
  {
    bytes := s.sink.held[at - s.sink.from..][..Min(CHUNK, s.sink.End() - at)];
  }

  lemma {:induction false} ReadAhead(w: World, c: Conn) returns (steps: seq<HostStep>, at: nat)
    requires Following(w, c) && w.parts[w.last] < |w.s.stream|
    ensures LogHost.IsRun(w, steps)
    ensures var t := LogHost.After(w, steps);
            Following(t, c) && w.parts[w.last] < at <= |w.s.stream| && GrewUpTo(w, t, at)
            && t.parts[t.last] == at
  {
    hide Landed, MailOk, SessionOk, Inv;
    assert w.s.sink.from <= w.parts[w.last];
    var l, from := w.s.links[c], w.parts[w.last];
    var bytes := BytesAhead(w.s, c, from);
    var a, b := Guest(Turn(c)), Guest(Put(c, |bytes|));
    var u := LogHost.Next(w, a);
    LogHost.NextKeeps(w, a);
    var v := LogHost.Next(u, b);
    LogHost.NextKeeps(u, b);
    assert bytes[..|bytes|] == bytes;
    assert v.s.links[c].wire == l.wire + bytes;
    var r := Read(|bytes|);
    var t := LogHost.Next(v, r);
    LogHost.NextKeeps(v, r);
    ReadsOn(v, |bytes|);
    at := from + |bytes|;
    hide LogHost.Next, LogHost.Enabled, HostInv;
    NoSteps(t);
    RunOn(v, r, []);
    RunOn(u, b, [r] + []);
    RunOn(w, a, [b] + ([r] + []));
    steps := [a] + ([b] + ([r] + []));
  }

  lemma {:induction false} CatchUp(w: World, c: Conn) returns (steps: seq<HostStep>)
    requires Following(w, c)
    ensures LogHost.IsRun(w, steps)
    ensures var t := LogHost.After(w, steps); Following(t, c) && GrewUpTo(w, t, |w.s.stream|)
    decreases |w.s.stream| - (if w.last < |w.parts| then w.parts[w.last] else 0)
  {
    hide Following, HostInv, LogHost.Next, LogHost.Enabled, LogHost.IsRun, LogHost.After;
    FollowsLast(w, c);
    if w.parts[w.last] < |w.s.stream| {
      var first, at := ReadAhead(w, c);
      var t := LogHost.After(w, first);
      FollowsLast(t, c);
      var rest := CatchUp(t, c);
      RunsJoin(w, first, rest);
      steps := first + rest;
    } else {
      WholePart(w);
      NoSteps(w);
      steps := [];
    }
  }

  lemma WholePart(w: World)
    requires HostInv(w) && w.last < |w.parts| && w.parts[w.last] >= |w.s.stream|
    ensures w.parts[w.last] == |w.s.stream|
  {
    hide Landed, MailOk, SessionOk, Inv;
  }

  /** Whatever connection the host had, it lets go of it, opens a new one and resumes, and then follows it. */
  lemma {:induction false} Connect(w: World, c: Conn) returns (steps: seq<HostStep>)
    requires HostInv(w) && !w.s.sink.closed && c !in w.s.links && c !in w.mail
    ensures LogHost.IsRun(w, steps)
    ensures var t := LogHost.After(w, steps);
            Following(t, c) && w.s.Current() < |w.parts| && GrewUpTo(w, t, w.parts[w.s.Current()])
  {
    hide Landed, MailOk;
    var a, b, d := Vanish, Open(c), Resume;
    var u := LogHost.Next(w, a);
    LogHost.NextKeeps(w, a);
    var v := LogHost.Next(u, b);
    LogHost.NextKeeps(u, b);
    ResumesWhereFileEnds(v, c);
    var x := LogHost.Next(v, d);
    LogHost.NextKeeps(v, d);
    var at := v.parts[v.s.Current()];
    var e := AnswerTaken(v, c, at);
    var t := LogHost.Next(x, e);
    hide LogHost.Next, LogHost.Enabled, HostInv, Following;
    NoSteps(t);
    RunOn(x, e, []);
    RunOn(v, d, [e] + []);
    RunOn(u, b, [d] + ([e] + []));
    RunOn(w, a, [b] + ([d] + ([e] + [])));
    steps := [a] + ([b] + ([d] + ([e] + [])));
  }

  /** The guest takes the answer, and sends from where the file ends. */
  lemma {:induction false} AnswerTaken(v: World, c: Conn, at: nat) returns (e: HostStep)
    requires HostInv(v) && v.session == Some(Opened(c)) && !v.s.sink.closed && v.s.sink.Live(c) && c in v.s.links
    requires v.s.links[c].sink == v.s.Current() < |v.parts| && at == v.parts[v.s.Current()]
    requires ResumeAt(v.cursor, v.s.links[c].from, v.s.links[c].to) == at
    requires v.s.links[c].phase.Offered? && v.s.links[c].wire == [] && v.s.links[c].from <= at <= v.s.links[c].to
    requires c !in v.mail
    ensures var x := LogHost.Next(v, Resume);
            LogHost.Enabled(x, e) && Following(LogHost.Next(x, e), c)
    ensures GrewUpTo(v, LogHost.Next(LogHost.Next(v, Resume), e), at)
  {
    hide Landed, MailOk, SessionOk, Inv, PartsOk;
    var x := LogHost.Next(v, Resume);
    LogHost.NextKeeps(v, Resume);
    e := Guest(Answer(c, At(at)));
    LogHost.NextKeeps(x, e);
    AnsweredKeeps(x.s, c, at);
    AnswerFits(x.s, c, at);
  }

  /** The guest holds nothing, and the file and all that was put out are as they were. */
  ghost predicate Emptied(w: World, t: World) {
    && HostInv(t) && t.s.sink.held == [] && t.s.sink.from == |w.s.stream|
    && t.file == w.file && t.parts == w.parts && t.s.stream == w.s.stream && t.s.starts == w.s.starts
  }

  /** With all of it read, an ack of all of it leaves the guest holding nothing. */
  lemma {:induction false} AckAll(w: World, c: Conn) returns (steps: seq<HostStep>)
    requires Following(w, c) && w.parts[w.last] == |w.s.stream|
    ensures LogHost.IsRun(w, steps) && Emptied(w, LogHost.After(w, steps))
  {
    hide Emptied, HostInv, LogHost.Next, LogHost.Enabled;
    if w.s.sink.from == |w.s.stream| {
      HoldsNothing(w, c);
      NoSteps(w);
      steps := [];
    } else {
      var a, e := SendAck, Guest(Ack(c, At(|w.s.stream|)));
      AckSent(w, c);
      var u := LogHost.Next(w, a);
      AckTaken(w, u, c);
      var t := LogHost.Next(u, e);
      NoSteps(t);
      RunOn(u, e, []);
      RunOn(w, a, [e] + []);
      steps := [a] + ([e] + []);
    }
  }

  lemma HoldsNothing(w: World, c: Conn)
    requires Following(w, c) && w.s.sink.from == |w.s.stream|
    ensures Emptied(w, w)
  {
    hide Landed, MailOk, PartsOk, SessionOk;
  }

  lemma AckSent(w: World, c: Conn)
    requires Following(w, c) && w.parts[w.last] == |w.s.stream| && w.s.sink.from != |w.s.stream|
    ensures LogHost.Enabled(w, SendAck) && HostInv(LogHost.Next(w, SendAck))
    ensures LogHost.Next(w, SendAck) == w.(mail := w.mail[c := [At(|w.s.stream|)]])
  {
    hide Landed, MailOk, PartsOk, Inv;
    assert w.s.sink.from <= w.parts[w.s.Current()];
    assert SessionOk(w.session.value, w.s.links, w.mail, w.s.starts, w.parts, w.last);
    LogHost.NextKeeps(w, SendAck);
    assert Mail(w, c) + [At(|w.s.stream|)] == [At(|w.s.stream|)];
  }

  lemma AckTaken(w: World, u: World, c: Conn)
    requires Following(w, c) && HostInv(u) && u == w.(mail := w.mail[c := [At(|w.s.stream|)]])
    ensures var e := Guest(Ack(c, At(|w.s.stream|)));
            LogHost.Enabled(u, e) && Emptied(w, LogHost.Next(u, e))
  {
    hide Landed, MailOk, PartsOk, SessionOk;
    LogHost.NextKeeps(u, Guest(Ack(c, At(|w.s.stream|))));
  }

  /** From every state with an open sink a host can open a connection, read all the output there is into its file, and
      ack it, after which the guest holds nothing. */
  lemma {:induction false} EveryByteCanLand(w: World, c: Conn) returns (steps: seq<HostStep>)
    requires HostInv(w) && !w.s.sink.closed && c !in w.s.links && c !in w.mail
    ensures LogHost.IsRun(w, steps)
    ensures var t := LogHost.After(w, steps);
            && t.s.stream == w.s.stream && t.s.starts == w.s.starts && t.s.sink.held == []
            && w.s.Current() < |w.parts| && w.parts[w.s.Current()] <= |w.s.stream|
            && t.file == w.file + w.s.stream[w.parts[w.s.Current()]..]
  {
    hide Following, HostInv, LogHost.Next;
    var a := Connect(w, c);
    var u := LogHost.After(w, a);
    var b := CatchUp(u, c);
    var v := LogHost.After(u, b);
    FollowsLast(u, c);
    FollowsLast(v, c);
    var d := AckAll(v, c);
    RunsJoin(u, b, d);
    RunsJoin(w, a, b + d);
    steps := a + (b + d);
    FileGrew(w, v);
  }

  lemma FollowsLast(w: World, c: Conn)
    requires Following(w, c)
    ensures HostInv(w) && w.last == w.s.Current() < |w.parts|
  {
  }

  /** A file whose last part grew to the end has the rest of the stream behind what it held. */
  lemma {:induction false} FileGrew(w: World, t: World)
    requires HostInv(w) && HostInv(t) && GrewUpTo(w, t, |w.s.stream|)
    ensures w.parts[w.s.Current()] <= |w.s.stream|
    ensures t.file == w.file + w.s.stream[w.parts[w.s.Current()]..]
  {
    hide MailOk, SessionOk, Inv, Landed;
    assert |w.s.starts| > 0 && w.s.Current() == |w.s.starts| - 1;
    var k := w.s.Current();
    LandedMore(w.s.stream, w.s.starts, w.parts, k, |w.s.stream| - w.parts[k], |w.parts|);
    assert w.s.stream[w.parts[k]..] == w.s.stream[w.parts[k]..|w.s.stream|];
  }

  /** So in every run from boot nothing of the open sink's output is lost for good. */
  lemma {:induction false} NothingIsLost(steps: seq<HostStep>, c: Conn) returns (more: seq<HostStep>)
    requires LogHost.IsRun(BOOT, steps)
    requires var w := LogHost.After(BOOT, steps); !w.s.sink.closed && c !in w.s.links && c !in w.mail
    ensures LogHost.IsRun(LogHost.After(BOOT, steps), more)
    ensures var w := LogHost.After(BOOT, steps);
            var t := LogHost.After(w, more);
            && t.s.stream == w.s.stream && t.s.sink.held == [] && w.s.Current() < |w.parts|
            && w.parts[w.s.Current()] <= |w.s.stream| && t.file == w.file + w.s.stream[w.parts[w.s.Current()]..]
  {
    hide HostInv, LogHost.Next, LogHost.After, LogHost.IsRun;
    BootInv();
    LogHost.RunsKeep(BOOT, steps);
    more := EveryByteCanLand(LogHost.After(BOOT, steps), c);
  }
}
