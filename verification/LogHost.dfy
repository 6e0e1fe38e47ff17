/** The log protocol with a host that keeps its word: it answers and acks only what its file holds. It may vanish and
    come back at any step, and its log may refuse output. */
module LogHost {

  import opened Common
  import opened LogSink
  import opened LogRuns

  /** One logs connection as the host follows it: waiting to answer, or landing what comes from byte `base` on. */
  datatype Session = Opened(conn: Conn) | Reading(conn: Conn, base: nat, read: nat)

  /** `cursor` is the output byte the file ends at, once there is one, and `mail` the words on their way to the guest.
      `parts[k]` is how far the file holds sink `k`'s output, and `last` the sink it last followed. */
  datatype World = World(s: State, file: seq<Byte>, cursor: Option<nat>, session: Option<Session>,
                         mail: map<Conn, seq<Word>>,
                         parts: seq<nat>, last: nat)

  const BOOT := World(INIT, [], None, None, map[], [0], 0)

  datatype HostStep =
    | Open(conn: Conn)
    | Resume
    | Read(n: nat)
    | SendAck
    | Refuse
    | Vanish
    | Guest(step: Step)

  /** The byte a host goes on from: where its file ends, or, if the guest does not hold that byte, the oldest the guest
      holds. */
  function ResumeAt(cursor: Option<nat>, from: nat, to: nat): nat {
    if cursor.Some? && from <= cursor.value <= to then cursor.value else from
  }

  function Mail(w: World, c: Conn): seq<Word> {
    if c in w.mail then w.mail[c] else []
  }

  predicate Enabled(w: World, h: HostStep) {
    match h
    case Open(c) => w.session.None? && LogRuns.Enabled(w.s, Take(c)) && c !in w.mail
    case Resume =>
      w.session.Some? && w.session.value.Opened? && w.session.value.conn in w.s.links
    case Read(n) =>
      && w.session.Some? && w.session.value.Reading? && w.session.value.conn in w.s.links
      && 0 < n && w.session.value.read + n <= |w.s.links[w.session.value.conn].wire| && w.last < |w.parts|
    case SendAck => w.session.Some? && w.session.value.Reading? && w.session.value.read > 0 && w.cursor.Some?
    case Refuse => w.session.Some?
    case Vanish => true
    case Guest(step) =>
      && LogRuns.Enabled(w.s, step) && !step.Take?
      && (step.Answer? || step.Ack? ==> Mail(w, step.conn) != [] && step.word == Mail(w, step.conn)[0])
  }

  function Post(w: World, c: Conn, word: Word): World {
    w.(mail := w.mail[c := Mail(w, c) + [word]])
  }

  function Next(w: World, h: HostStep): World
    requires Enabled(w, h)
  {
    match h
    case Open(c) => w.(s := LogRuns.Next(w.s, Take(c)), session := if w.s.sink.closed then None else Some(Opened(c)))
    case Resume =>
      var c := w.session.value.conn;
      var l := w.s.links[c];
      var at := ResumeAt(w.cursor, l.from, l.to);
      Post(w.(cursor := Some(at), session := Some(Reading(c, at, 0)), last := l.sink), c, At(at))
    case Read(n) =>
      var r := w.session.value;
      var bytes := w.s.links[r.conn].wire[r.read..r.read + n];
      w.(file := w.file + bytes, cursor := Some((if w.cursor.Some? then w.cursor.value else 0) + n),
      session := Some(r.(read := r.read + n)), parts := w.parts[w.last := w.parts[w.last] + n])
    case SendAck => Post(w, w.session.value.conn, At(w.cursor.value))
    case Refuse => Post(w.(session := None), w.session.value.conn, LogStopped)
    case Vanish => w.(session := None)
    case Guest(step) =>
      var v := if step.Answer? || step.Ack? then w.(mail := w.mail[step.conn := Mail(w, step.conn)[1..]]) else w;
      var t := LogRuns.Next(w.s, step);
      v.(s := t, parts := if step.Renew? then v.parts + [t.sink.from] else v.parts)
  }

  // The file.

  /** The first `n` sinks' output as far as the file holds each, one after the other. */
  function Landed(stream: seq<Byte>, starts: seq<nat>, parts: seq<nat>, n: nat): seq<Byte>
    requires n <= |starts| && n <= |parts|
    requires forall k | 0 <= k < n :: starts[k] <= parts[k] <= |stream|
  {
    if n == 0 then [] else Landed(stream, starts, parts, n - 1) + stream[starts[n - 1]..parts[n - 1]]
  }

  ghost predicate PartsOk(stream: seq<Byte>, starts: seq<nat>, parts: seq<nat>, last: nat) {
    && |parts| == |starts| && last < |starts|
    && (forall k | 0 <= k < |starts| :: starts[k] <= parts[k] <= EndOf(starts, stream, k) <= |stream|)
    && (forall k | last < k < |starts| :: parts[k] == starts[k])
  }

  lemma {:induction false} LandedGrows(stream: seq<Byte>, starts: seq<nat>, parts: seq<nat>, n: nat,
                                       stream': seq<Byte>, starts': seq<nat>,
                                       parts': seq<nat>)
    requires n <= |starts| && n <= |parts| && (forall k | 0 <= k < n :: starts[k] <= parts[k] <= |stream|)
    requires stream <= stream' && starts <= starts' && parts <= parts'
    ensures Landed(stream', starts', parts', n) == Landed(stream, starts, parts, n)
  {
    if n > 0 {
      LandedGrows(stream, starts, parts, n - 1, stream', starts', parts');
      assert stream'[starts[n - 1]..parts[n - 1]] == stream[starts[n - 1]..parts[n - 1]];
    }
  }

  /** More of the last sink followed lands at the end of the file. */
  lemma {:induction false} LandedMore(stream: seq<Byte>, starts: seq<nat>, parts: seq<nat>, last: nat, m: nat, n: nat)
    requires n <= |starts| && n <= |parts| && last < |parts|
             && (forall k | 0 <= k < n :: starts[k] <= parts[k] <= |stream|)
    requires (forall k | last < k < n :: parts[k] == starts[k]) && parts[last] + m <= |stream|
    ensures Landed(stream, starts, parts[last := parts[last] + m], n) ==
            Landed(stream, starts, parts, n) + (if last < n then stream[parts[last]..parts[last] + m] else [])
  {
    if n > 0 {
      LandedMore(stream, starts, parts, last, m, n - 1);
      if n - 1 == last {
        assert stream[starts[last]..parts[last]] + stream[parts[last]..parts[last] + m] ==
                 stream[starts[last]..parts[last] + m];
      } else if n - 1 > last {
        assert stream[starts[n - 1]..parts[n - 1]] == [];
      }
    }
  }

  // What every step keeps.

  predicate Within(words: seq<Word>, low: nat, high: nat) {
    forall i | 0 <= i < |words| && words[i].At? :: low <= words[i].at <= high
  }

  predicate Ordered(words: seq<Word>) {
    forall i, j | 0 <= i < j < |words| && words[i].At? && words[j].At? :: words[i].at <= words[j].at
  }

  /** A host's words name bytes its file holds, in order, and the live one's none the sink let go of. */
  ghost predicate MailOk(mail: map<Conn, seq<Word>>, links: map<Conn, Link>, parts: seq<nat>, sink: Sink) {
    forall c | c in mail ::
      && c in links && links[c].sink < |parts| && Ordered(mail[c])
      && Within(mail[c], if sink.Live(c) then sink.from else 0, parts[links[c].sink])
  }

  /** The connection the host follows: an offer it can answer, or one that carries on where its file ends. */
  ghost predicate SessionOk(session: Session, links: map<Conn, Link>, mail: map<Conn, seq<Word>>, starts: seq<nat>,
                            parts: seq<nat>,
                            last: nat) {
    session.conn in links &&
    var l := links[session.conn];
    && l.sink < |parts| && l.sink < |starts|
    && match session
       case Opened(c) =>
         && l.phase.Offered? && c !in mail && last <= l.sink && l.from <= parts[l.sink] <= l.to
         && (last < l.sink ==> parts[l.sink] == starts[l.sink] == l.from)
       case Reading(c, base, read) =>
         && l.sink == last && parts[last] == base + read && read <= |l.wire|
         && (if l.phase.Offered? then l.from <= base <= l.to && c in mail && mail[c] == [At(base)] else l.base == base)
  }

  ghost predicate HostInv(w: World) {
    && Inv(w.s) && PartsOk(w.s.stream, w.s.starts, w.parts, w.last)
    && w.file == Landed(w.s.stream, w.s.starts, w.parts, |w.parts|)
    && (if w.cursor.Some? then w.cursor.value == w.parts[w.last]
        else w.parts == w.s.starts && (w.session.Some? ==> w.session.value.Opened?))
    && w.s.sink.from <= w.parts[w.s.Current()]
    && MailOk(w.mail, w.s.links, w.parts, w.s.sink)
    && (w.session.Some? ==> SessionOk(w.session.value, w.s.links, w.mail, w.s.starts, w.parts, w.last))
  }

  // Host steps.

  lemma OpenKeeps(w: World, c: Conn)
    requires HostInv(w) && Enabled(w, Open(c))
    ensures HostInv(Next(w, Open(c)))
  {
    hide Inv, Landed;
    TakeKeeps(w.s, c);
    OpenFacts(w.s, c);
    if !w.s.sink.closed {
      var t := LogRuns.Next(w.s, Take(c));
      assert MailOk(w.mail, t.links, w.parts, t.sink);
    }
  }

  lemma OpenFacts(s: State, c: Conn)
    requires Inv(s) && LogRuns.Enabled(s, Take(c))
    ensures |s.starts| > 0 && s.Current() == |s.starts| - 1 && s.starts[s.Current()] <= s.sink.from
            && s.sink.End() == |s.stream|
    ensures EndOf(s.starts, s.stream, s.Current()) == |s.stream|
  {
  }

  /** Whatever the cursor says, the host goes on where its file holds the sink's output up to. */
  lemma ResumesWhereFileEnds(w: World, c: Conn)
    requires HostInv(w) && w.session == Some(Opened(c))
    ensures var l := w.s.links[c];
            c in w.s.links && l.sink < |w.parts| && ResumeAt(w.cursor, l.from, l.to) == w.parts[l.sink]
            && l.from <= w.parts[l.sink] <= l.to
  {
    hide Landed, MailOk, PartsOk, Inv;
    var l := w.s.links[c];
    assert SessionOk(w.session.value, w.s.links, w.mail, w.s.starts, w.parts, w.last);
    if w.last < l.sink {
      EarlierEnds(w, l.sink);
    } else if w.cursor.None? {
      FirstOffer(w, c);
    }
  }

  /** A file that holds an earlier sink's output ends no later than the next sink starts. */
  lemma EarlierEnds(w: World, k: nat)
    requires HostInv(w) && w.last < k < |w.s.starts|
    ensures w.parts[w.last] <= w.s.starts[k]
  {
    StartsRise(w.s.starts, w.s.stream, w.last, k);
  }

  /** With nothing landed yet, the oldest byte held is the sink's first. */
  lemma FirstOffer(w: World, c: Conn)
    requires HostInv(w) && w.session == Some(Opened(c)) && w.cursor.None?
    ensures c in w.s.links && w.s.links[c].sink < |w.parts| && w.parts[w.s.links[c].sink] == w.s.links[c].from
  {
    hide Landed, MailOk;
    assert SessionOk(w.session.value, w.s.links, w.mail, w.s.starts, w.parts, w.last);
    LinkAt(w.s, c);
  }

  lemma ResumeKeeps(w: World)
    requires HostInv(w) && Enabled(w, Resume)
    ensures HostInv(Next(w, Resume))
  {
    hide Inv, Landed, ResumeAt, MailOk, PartsOk, SessionOk;
    var c := w.session.value.conn;
    assert w.session == Some(Opened(c));
    ResumesWhereFileEnds(w, c);
    ResumeSession(w, c);
    var at := w.parts[w.s.links[c].sink];
    ResumeMail(w, c, at);
    assert Next(w, Resume).mail == w.mail[c := Mail(w, c) + [At(at)]];
    assert Mail(w, c) + [At(at)] == [At(at)];
  }

  lemma ResumeSession(w: World, c: Conn)
    requires HostInv(w) && w.session == Some(Opened(c))
    ensures c in w.s.links && w.s.links[c].sink < |w.parts| && c !in w.mail
    ensures var l := w.s.links[c];
            var at := w.parts[l.sink];
            && PartsOk(w.s.stream, w.s.starts, w.parts, l.sink)
            && SessionOk(Reading(c, at, 0), w.s.links, w.mail[c := [At(at)]], w.s.starts, w.parts, l.sink)
  {
    hide Inv, Landed, MailOk;
    assert SessionOk(w.session.value, w.s.links, w.mail, w.s.starts, w.parts, w.last);
  }

  lemma ResumeMail(w: World, c: Conn, at: nat)
    requires HostInv(w) && w.session == Some(Opened(c)) && c in w.s.links && w.s.links[c].sink < |w.parts|
    requires at == w.parts[w.s.links[c].sink]
    ensures MailOk(w.mail[c := [At(at)]], w.s.links, w.parts, w.s.sink)
  {
    hide Landed, PartsOk, LinksOk, SinkOk, StartsOk;
    assert w.s.sink.Live(c) ==> w.s.sink.from <= at;
  }

  /** What the host reads is the output right behind where its file ends. */
  lemma ReadsOn(w: World, n: nat)
    requires HostInv(w) && Enabled(w, Read(n))
    ensures var r, at := w.session.value, w.parts[w.last];
            && w.cursor == Some(at) && w.s.links[r.conn].sink == w.last < |w.s.starts|
            && at + n <= EndOf(w.s.starts, w.s.stream, w.last) <= |w.s.stream|
            && w.s.links[r.conn].wire[r.read..r.read + n] == w.s.stream[at..at + n]
            && SessionOk(r.(read := r.read + n), w.s.links, w.mail, w.s.starts, w.parts[w.last := at + n], w.last)
  {
    hide Landed, MailOk, Inv, LinkOk, Linked;
    var r := w.session.value;
    assert SessionOk(r, w.s.links, w.mail, w.s.starts, w.parts, w.last);
    var l := w.s.links[r.conn];
    LinkAt(w.s, r.conn);
    CursorThere(w);
    WireIs(l, w.s.stream, w.s.starts, r.read, n);
  }

  lemma WireIs(l: Link, stream: seq<Byte>, starts: seq<nat>, read: nat, n: nat)
    requires Linked(l, stream, starts) && 0 < n && read + n <= |l.wire|
    ensures !l.phase.Offered? && l.sink < |starts|
    ensures l.base + read + n <= EndOf(starts, stream, l.sink) <= |stream|
    ensures l.wire[read..read + n] == stream[l.base + read..l.base + read + n]
  {
    var a, b := l.wire[read..read + n], stream[l.base + read..l.base + read + n];
    forall i | 0 <= i < n ensures a[i] == b[i] {
      assert l.wire[read + i] == stream[l.base + read + i];
    }
  }

  /** A host that has read anything has a cursor. */
  lemma CursorThere(w: World)
    requires HostInv(w) && w.session.Some? && w.session.value.Reading?
    ensures w.cursor.Some?
  {
  }

  lemma ReadKeeps(w: World, n: nat)
    requires HostInv(w) && Enabled(w, Read(n))
    ensures HostInv(Next(w, Read(n)))
  {
    hide Inv, Landed, MailOk, SessionOk, EndOf;
    ReadsOn(w, n);
    LandedMore(w.s.stream, w.s.starts, w.parts, w.last, n, |w.parts|);
    ReadMail(w.mail, w.s.links, w.parts, w.s.sink, w.last, n);
  }

  lemma ReadMail(mail: map<Conn, seq<Word>>, links: map<Conn, Link>, parts: seq<nat>, sink: Sink, last: nat, n: nat)
    requires MailOk(mail, links, parts, sink) && last < |parts|
    ensures MailOk(mail, links, parts[last := parts[last] + n], sink)
  {
  }

  lemma SendAckKeeps(w: World)
    requires HostInv(w) && Enabled(w, SendAck)
    ensures HostInv(Next(w, SendAck))
  {
    hide Landed, PartsOk;
    var r := w.session.value;
    assert SessionOk(r, w.s.links, w.mail, w.s.starts, w.parts, w.last);
    LinkAt(w.s, r.conn);
    AckFits(w);
    hide Inv;
    PostKeeps(w.mail, w.s.links, w.parts, w.s.sink, r.conn, At(w.cursor.value));
  }

  lemma AckFits(w: World)
    requires HostInv(w) && Enabled(w, SendAck)
    ensures var c := w.session.value.conn;
            && c in w.s.links && w.s.links[c].sink == w.last < |w.parts| && w.cursor.value == w.parts[w.last]
            && !w.s.links[c].phase.Offered?
            && (w.s.sink.Live(c) ==> w.s.sink.from <= w.parts[w.last])
  {
    hide Landed, MailOk;
    var r := w.session.value;
    assert SessionOk(r, w.s.links, w.mail, w.s.starts, w.parts, w.last);
    LinkAt(w.s, r.conn);
  }

  /** A word that names where the file ends goes behind the others. */
  lemma PostKeeps(mail: map<Conn, seq<Word>>, links: map<Conn, Link>, parts: seq<nat>, sink: Sink, c: Conn, word: Word)
    requires MailOk(mail, links, parts, sink) && c in links && links[c].sink < |parts|
    requires word.At? ==> word.at == parts[links[c].sink] && (sink.Live(c) ==> sink.from <= word.at)
    ensures MailOk(mail[c := (if c in mail then mail[c] else []) + [word]], links, parts, sink)
  {
  }

  lemma RefuseKeeps(w: World)
    requires HostInv(w) && Enabled(w, Refuse)
    ensures HostInv(Next(w, Refuse))
  {
    hide Inv, Landed, PartsOk;
    var r := w.session.value;
    assert SessionOk(r, w.s.links, w.mail, w.s.starts, w.parts, w.last);
    PostKeeps(w.mail, w.s.links, w.parts, w.s.sink, r.conn, LogStopped);
  }

  // Guest steps.

  /** What the guest does on its own to a connection: the sender goes on, or ends. */
  ghost predicate Moved(links: map<Conn, Link>, links': map<Conn, Link>) {
    forall c | c in links ::
      && c in links' && links'[c].sink == links[c].sink && links'[c].from == links[c].from
      && links'[c].to == links[c].to
      && links'[c].base == links[c].base && |links[c].wire| <= |links'[c].wire|
      && (links'[c].phase.Offered? <==> links[c].phase.Offered?)
  }

  lemma MovedKeeps(w: World, t: State)
    requires HostInv(w) && Inv(t) && Moved(w.s.links, t.links)
    requires t.starts == w.s.starts && w.s.stream <= t.stream && t.sink.from == w.s.sink.from
    requires forall c | t.sink.Live(c) :: w.s.sink.Live(c)
    ensures HostInv(w.(s := t))
  {
    hide Inv, Landed;
    LandedGrows(w.s.stream, w.s.starts, w.parts, |w.parts|, t.stream, t.starts, w.parts);
    assert PartsOk(t.stream, t.starts, w.parts, w.last);
    assert MailOk(w.mail, t.links, w.parts, t.sink);
  }

  lemma AloneMoves(s: State, step: Step)
    requires Inv(s) && LogRuns.Enabled(s, step) && !step.Take? && !step.Answer? && !step.Ack? && !step.Renew?
    ensures var t := LogRuns.Next(s, step);
            && Moved(s.links, t.links) && t.starts == s.starts && s.stream <= t.stream && t.sink.from == s.sink.from
            && (forall c | t.sink.Live(c) :: s.sink.Live(c))
  {
    hide LinksOk, StartsOk, SinkOk, LiveOk;
  }

  lemma RenewWorldKeeps(w: World)
    requires HostInv(w) && Enabled(w, Guest(Renew))
    ensures HostInv(Next(w, Guest(Renew)))
  {
    hide Inv, Landed, PartsOk, MailOk, SessionOk;
    RenewKeeps(w.s);
    RenewFacts(w.s);
    var t := LogRuns.Next(w.s, Renew);
    var parts := w.parts + [t.sink.from];
    RenewParts(w.s.stream, w.s.starts, w.parts, w.last);
    RenewMail(w.mail, w.s.links, w.parts, w.s.sink, t.sink);
    RenewSession(w, parts);
    assert w.parts == w.s.starts ==> parts == t.starts;
  }

  lemma RenewFacts(s: State)
    requires Inv(s) && s.sink.closed
    ensures s.sink.End() == |s.stream|
  {
  }

  lemma {:induction false} RenewParts(stream: seq<Byte>, starts: seq<nat>, parts: seq<nat>, last: nat)
    requires PartsOk(stream, starts, parts, last)
    ensures var e := |stream|;
            && PartsOk(stream, starts + [e], parts + [e], last)
            && Landed(stream, starts + [e], parts + [e], |parts| + 1) == Landed(stream, starts, parts, |parts|)
            && |parts| == |starts| && last < |parts|
  {
    hide Landed;
    var e := |stream|;
    LandedGrows(stream, starts, parts, |parts|, stream, starts + [e], parts + [e]);
    LandedNone(stream, starts + [e], parts + [e], |parts|);
  }

  lemma RenewMail(mail: map<Conn, seq<Word>>, links: map<Conn, Link>, parts: seq<nat>, sink: Sink, next: Sink)
    requires MailOk(mail, links, parts, sink) && next.conn.None?
    ensures MailOk(mail, links, parts + [next.from], next)
  {
  }

  lemma RenewSession(w: World, parts: seq<nat>)
    requires w.parts <= parts
             && (w.session.Some? ==> SessionOk(w.session.value, w.s.links, w.mail, w.s.starts, w.parts, w.last))
    ensures forall e ::
              w.session.Some? ==> SessionOk(w.session.value, w.s.links, w.mail, w.s.starts + [e], parts, w.last)
  {
  }

  lemma {:induction false} LandedNone(stream: seq<Byte>, starts: seq<nat>, parts: seq<nat>, n: nat)
    requires n < |starts| && n < |parts| && (forall k | 0 <= k <= n :: starts[k] <= parts[k] <= |stream|)
             && starts[n] == parts[n]
    ensures Landed(stream, starts, parts, n + 1) == Landed(stream, starts, parts, n)
  {
    assert stream[starts[n]..parts[n]] == [];
  }

  /** The guest takes the first word of a connection: it never lets go of a byte the file does not hold. */
  lemma WordFits(w: World, c: Conn)
    requires HostInv(w) && Mail(w, c) != [] && Mail(w, c)[0].At?
    ensures var at := Mail(w, c)[0].at;
            && (w.s.sink.Live(c) ==> w.s.sink.from <= at <= w.s.sink.End() && at <= w.parts[w.s.Current()])
            && var (t, ok) := Let(w.s, c, at);
               ok && MailOk(w.mail[c := Mail(w, c)[1..]], w.s.links, w.parts, t.sink)
               && t.sink.from <= w.parts[w.s.Current()]
  {
    hide Landed, SessionOk, LinksOk;
    var words := w.mail[c];
    assert Ordered(words) && Within(words, if w.s.sink.Live(c) then w.s.sink.from else 0, w.parts[w.s.links[c].sink]);
    assert w.s.sink.End() == |w.s.stream|;
    var mail, t := w.mail[c := words[1..]], Let(w.s, c, words[0].at).0;
    forall d | d in mail
      ensures && d in w.s.links && w.s.links[d].sink < |w.parts| && Ordered(mail[d])
              && Within(mail[d], if t.sink.Live(d) then t.sink.from else 0, w.parts[w.s.links[d].sink]) {
      if d == c {
        assert forall i | 0 <= i < |mail[d]| :: mail[d][i] == words[i + 1];
      }
    }
  }

  lemma StopMail(w: World, c: Conn)
    requires MailOk(w.mail, w.s.links, w.parts, w.s.sink) && Mail(w, c) != []
    ensures MailOk(w.mail[c := Mail(w, c)[1..]], w.s.links, w.parts, w.s.sink)
  {
    assert forall i | 0 <= i < |w.mail[c]| - 1 :: w.mail[c][1..][i] == w.mail[c][i + 1];
  }

  lemma AckWorldKeeps(w: World, c: Conn, word: Word)
    requires HostInv(w) && Enabled(w, Guest(Ack(c, word)))
    ensures HostInv(Next(w, Guest(Ack(c, word))))
  {
    hide Inv, Landed, MailOk, SessionOk, PartsOk, Let, Acked;
    AckKeeps(w.s, c, word);
    StopMail(w, c);
    var mail := w.mail[c := Mail(w, c)[1..]];
    if word.At? {
      WordFits(w, c);
    }
    AckMail(w, c, word, mail);
    AckSession(w, c, mail);
  }

  lemma AckMail(w: World, c: Conn, word: Word, mail: map<Conn, seq<Word>>)
    requires MailOk(mail, w.s.links, w.parts, w.s.sink)
    requires word.At? ==> Let(w.s, c, word.at).1 && MailOk(mail, w.s.links, w.parts, Let(w.s, c, word.at).0.sink)
    ensures var t := Acked(w.s, c, word);
            && MailOk(mail, w.s.links, w.parts, t.sink) && t == w.s.(sink := t.sink, acked := t.acked)
            && t.sink.from == if word.At? then Let(w.s, c, word.at).0.sink.from else w.s.sink.from
  {
  }

  lemma AckSession(w: World, c: Conn, mail: map<Conn, seq<Word>>)
    requires HostInv(w) && c in w.s.links && !w.s.links[c].phase.Offered? && Mail(w, c) != []
             && mail == w.mail[c := Mail(w, c)[1..]]
    ensures w.session.Some? ==> SessionOk(w.session.value, w.s.links, mail, w.s.starts, w.parts, w.last)
  {
    hide Inv, Landed, MailOk, PartsOk;
  }

  lemma AnswerWorldKeeps(w: World, c: Conn, word: Word)
    requires HostInv(w) && Enabled(w, Guest(Answer(c, word)))
    ensures HostInv(Next(w, Guest(Answer(c, word))))
  {
    hide Inv, Landed, MailOk, SessionOk, PartsOk, Answered, Let;
    AnswerKeeps(w.s, c, word);
    StopMail(w, c);
    var mail := w.mail[c := Mail(w, c)[1..]];
    if word.At? {
      WordFits(w, c);
    }
    AnswerMail(w, c, word, mail);
    AnswerSession(w, c, word, mail);
  }

  /** What an answer leaves of the sink and of the connection that gave it. */
  lemma AnswerMail(w: World, c: Conn, word: Word, mail: map<Conn, seq<Word>>)
    requires HostInv(w) && c in w.s.links && MailOk(mail, w.s.links, w.parts, w.s.sink)
    requires word.At? ==> var (t, ok) := Let(w.s, c, word.at);
                          ok && MailOk(mail, w.s.links, w.parts, t.sink) && t.sink.from <= w.parts[w.s.Current()]
    ensures var t := Answered(w.s, c, w.s.links[c], word);
            && MailOk(mail, t.links, w.parts, t.sink) && t.stream == w.s.stream && t.starts == w.s.starts
            && t.sink.from <= w.parts[w.s.Current()]
  {
    hide Inv, Landed, PartsOk, SessionOk;
    var t := Answered(w.s, c, w.s.links[c], word);
    assert forall d | d in t.links :: d in w.s.links && t.links[d].sink == w.s.links[d].sink;
  }

  /** What an answer leaves of the connections. */
  lemma AnswerLinks(s: State, c: Conn, word: Word)
    requires c in s.links
    ensures var t, l := Answered(s, c, s.links[c], word), s.links[c];
            && t.links == s.links[c := t.links[c]] && t.links[c].sink == l.sink && t.links[c].wire == l.wire
            && !t.links[c].phase.Offered?
            && (word.At? && l.from <= word.at <= l.to && Let(s, c, word.at).1 ==> t.links[c].base == word.at)
  {
  }

  lemma AnswerSession(w: World, c: Conn, word: Word, mail: map<Conn, seq<Word>>)
    requires HostInv(w) && Enabled(w, Guest(Answer(c, word))) && mail == w.mail[c := Mail(w, c)[1..]]
    ensures w.session.Some? ==>
              SessionOk(w.session.value, Answered(w.s, c, w.s.links[c], word).links, mail, w.s.starts, w.parts, w.last)
  {
    hide Inv, Landed, MailOk, PartsOk, Answered, Let;
    AnswerLinks(w.s, c, word);
    if w.session.Some? {
      var r := w.session.value;
      assert SessionOk(r, w.s.links, w.mail, w.s.starts, w.parts, w.last);
      if r.conn == c {
        assert word == At(r.base);
        AnswerFits(w.s, c, r.base);
      }
    }
  }

  lemma AloneKeeps(w: World, step: Step)
    requires HostInv(w) && LogRuns.Enabled(w.s, step) && !step.Take? && !step.Answer? && !step.Ack? && !step.Renew?
    ensures HostInv(w.(s := LogRuns.Next(w.s, step)))
  {
    assert Inv(w.s);
    hide HostInv, Inv;
    LogRuns.NextKeeps(w.s, step);
    AloneMoves(w.s, step);
    MovedKeeps(w, LogRuns.Next(w.s, step));
  }

  lemma NextKeeps(w: World, h: HostStep)
    requires HostInv(w) && Enabled(w, h)
    ensures HostInv(Next(w, h))
  {
    match h {
      case Open(c) => OpenKeeps(w, c);
      case Resume => ResumeKeeps(w);
      case Read(n) => ReadKeeps(w, n);
      case SendAck => SendAckKeeps(w);
      case Refuse => RefuseKeeps(w);
      case Vanish =>
      case Guest(step) =>
        if step.Answer? {
          AnswerWorldKeeps(w, step.conn, step.word);
        } else if step.Ack? {
          AckWorldKeeps(w, step.conn, step.word);
        } else if step.Renew? {
          RenewWorldKeeps(w);
        } else {
          AloneKeeps(w, step);
        }
    }
  }

  // Whole runs.

  lemma BootInv()
    ensures HostInv(BOOT)
  {
    InitInv();
  }

  function After(w: World, steps: seq<HostStep>): World
    requires IsRun(w, steps)
    decreases |steps|
  {
    if steps == [] then w else After(Next(w, steps[0]), steps[1..])
  }

  predicate IsRun(w: World, steps: seq<HostStep>)
    decreases |steps|
  {
    steps == [] || (Enabled(w, steps[0]) && IsRun(Next(w, steps[0]), steps[1..]))
  }

  lemma {:induction false} RunsKeep(w: World, steps: seq<HostStep>)
    requires HostInv(w) && IsRun(w, steps)
    ensures HostInv(After(w, steps))
    decreases |steps|
  {
    hide HostInv, Next, Enabled;
    if steps != [] {
      NextKeeps(w, steps[0]);
      RunsKeep(Next(w, steps[0]), steps[1..]);
    }
  }

  /** In every run the file is, sink after sink, a gap-free and repeat-free prefix of what each sink took in, and it
      holds every byte the current sink let go of. */
  lemma {:induction false} FileIsPrefixes(steps: seq<HostStep>)
    requires IsRun(BOOT, steps)
    ensures var w := After(BOOT, steps);
            && |w.parts| == |w.s.starts|
            && (forall k | 0 <= k < |w.parts| ::
                  w.s.starts[k] <= w.parts[k] <= EndOf(w.s.starts, w.s.stream, k) <= |w.s.stream|)
            && w.file == Landed(w.s.stream, w.s.starts, w.parts, |w.parts|)
            && 0 < |w.parts| && w.s.starts[w.s.Current()] <= w.s.sink.from <= w.parts[w.s.Current()]
            && w.s.sink.held == w.s.stream[w.s.sink.from..]
  {
    BootInv();
    RunsKeep(BOOT, steps);
    hide After, IsRun, Landed;
  }

  /** And the guest never refuses a word of such a host. */
  lemma WordsAreTaken(w: World, c: Conn)
    requires HostInv(w) && Mail(w, c) != [] && Mail(w, c)[0].At?
    ensures Let(w.s, c, Mail(w, c)[0].at).1
  {
    WordFits(w, c);
  }
}
