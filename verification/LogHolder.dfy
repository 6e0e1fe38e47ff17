/** The sink as the class whose buffer is shifted in place: each method changes it as the value says, and its marks are
    those of the name's log. */
module LogHolder {

  import opened Common
  import opened LogSink
  import opened LogRuns

  class Holder {
    const buf: array<Byte>
    var n: nat
    var from: nat
    var conn: Option<Conn>
    var stopped: bool
    var closed: bool

    ghost predicate Valid()
      reads this
    {
      buf.Length == LOG_HOLD && n <= LOG_HOLD
    }

    ghost function Value(): Sink
      requires Valid()
      reads this, buf
    {
      Sink(buf[..n], from, conn, stopped, closed)
    }

    constructor (start: nat)
      ensures Valid() && fresh(buf) && Value() == NewSink(start)
      ensures Value() == Sink([], start, None, false, false) && buf.Length == 0x10_0000
    {
      buf := new Byte[LOG_HOLD];
      n, from, conn, stopped, closed := 0, start, None, false, false;
    }

    /** Says the range the new host is offered; none for a closed sink, which hangs up on it. */
    method Take(c: Conn) returns (offer: Option<(nat, nat)>)
      requires Valid()
      modifies this`conn, this`stopped
      ensures Valid() && Value() == Taken(old(Value()), c)
      ensures offer == if closed then None else Some((from, Value().End()))
      ensures if closed then conn == old(conn) && stopped == old(stopped) else conn == Some(c) && !stopped
    {
      if closed {
        return None;
      }
      conn := Some(c);
      stopped := false;
      return Some((from, from + n));
    }

    /** Says the output byte the next sink of the name starts at. */
    method Close() returns (end: nat)
      requires Valid()
      modifies this`conn, this`stopped, this`closed
      ensures Valid() && Value() == Closed(old(Value())) && end == Value().End()
      ensures closed && stopped && conn.None?
    {
      closed, stopped := true, true;
      conn := None;
      return from + n;
    }

    /** Reads what fits from the pipe behind what is held. */
    method Copy(pipe: seq<Byte>) returns (k: nat)
      requires Valid()
      modifies this`n, buf
      ensures Valid() && k == (if closed then 0 else Min(|pipe|, LOG_HOLD - |old(Value()).held|))
      ensures Value() == Copied(old(Value()), pipe[..k])
      ensures Value().held == old(Value()).held + pipe[..k]
      ensures !closed ==> k == |pipe| || |Value().held| == LOG_HOLD
    {
      if closed {
        return 0;
      }
      k := Min(|pipe|, LOG_HOLD - n);
      ghost var was := buf[..n];
      for i := 0 to k
        invariant n == old(n) && buf[..n] == was
        invariant buf[n..n + i] == pipe[..i]
      {
        buf[n + i] := pipe[i];
      }
      assert buf[..n + k] == was + pipe[..k];
      n := n + k;
    }

    /** The output byte after the last one written so far; `queued` is what the pipe still holds, if it can be measured.
        In the state `s` of the name's log that is the number after every byte the process wrote, until the sink is
        closed. */
    method End(queued: Option<nat>, ghost s: State) returns (mark: Option<nat>)
      requires Valid() && Inv(s) && s.sink == Value() && (queued.Some? && !closed ==> queued.value == |s.pipe|)
      ensures mark.Some? <==> queued.Some?
      ensures mark.Some? && !closed ==> mark.value == s.written
    {
      if queued.None? {
        return None;
      }
      return Some(from + n + queued.value);
    }

    /** Shifts the hold down to the acked byte. */
    method Release(c: Conn, ack: nat) returns (ok: bool)
      requires Valid()
      modifies this`n, this`from, buf
      ensures Valid() && (Value(), ok) == Released(old(Value()), c, ack)
      ensures ok <==> conn != Some(c) || old(from) <= ack <= old(Value()).End()
      ensures if conn == Some(c) && ok then from == ack && Value().held == old(Value()).held[ack - old(from)..]
              else Value() == old(Value())
    {
      if conn != Some(c) {
        return true;
      }
      if ack < from || ack > from + n {
        return false;
      }
      var d := ack - from;
      ghost var was := buf[..n];
      for i := 0 to n - d
        invariant n == old(n) && from == old(from) && |was| == n
        invariant buf[..i] == was[d..d + i]
        invariant buf[i..n] == was[i..]
      {
        assert buf[i + d] == buf[i..n][d] == was[i..][d] == was[i + d];
        assert buf[i + 1..n] == buf[i..n][1..];
        buf[i] := buf[i + d];
      }
      n := n - d;
      from := ack;
      assert buf[..n] == was[d..];
      return true;
    }

    method Stop(c: Conn)
      requires Valid()
      modifies this`stopped
      ensures Valid() && Value() == StoppedBy(old(Value()), c)
      ensures stopped <==> old(stopped) || conn == Some(c)
    {
      if conn == Some(c) {
        stopped := true;
      }
    }

    method Abandon()
      requires Valid()
      modifies this`stopped
      ensures Valid() && Value() == Abandoned(old(Value())) && stopped
    {
      stopped := true;
    }

    method Drop(c: Conn)
      requires Valid()
      modifies this`conn
      ensures Valid() && Value() == Dropped(old(Value()), c)
      ensures conn == if old(conn) == Some(c) then None else old(conn)
    {
      if conn == Some(c) {
        conn := None;
      }
    }

    /** What a sender at byte `at` does next: it waits only with nothing new for the live host, is over only once that
        host is gone or acked past it, and else gets the next bytes of the hold, all there are or a write's worth. */
    method Next(c: Conn, at: nat) returns (t: Turn)
      requires Valid() && at <= Value().End()
      ensures t == NextTurn(Value(), c, at)
      ensures t.Wait? <==> conn == Some(c) && at == Value().End()
      ensures t.Over? <==> conn != Some(c) || at < from
      ensures t.Chunk? <==> conn == Some(c) && from <= at < Value().End()
      ensures t.Chunk? ==> 0 < |t.bytes| == Min(32768, Value().End() - at) && t.bytes <= Value().held[at - from..]
    {
      if conn == Some(c) && at == from + n {
        return Wait;
      }
      if conn != Some(c) || at < from {
        return Over;
      }
      var k := Min(CHUNK, from + n - at);
      var a := at - from;
      assert buf[a..a + k] == buf[..n][a..a + k] == buf[..n][a..][..k];
      return Chunk(buf[a..a + k]);
    }

    /** This is sink `k` of the name: the last one, or one closed before it. */
    ghost predicate Holds(s: State, k: nat)
      requires Valid()
      reads this, buf
    {
      if k == s.Current() then s.sink == Value() else stopped && closed
    }

    /** Whether an end may go out that was recorded at `mark` when the name's log was `was`, `steps` before now: only
        with everything written before the end acked, or the sink stopped or let go of. */
    method Landed(mark: nat, ghost was: State, ghost steps: seq<Step>) returns (ok: bool)
      requires Valid() && LogRuns.Inv(was) && !was.sink.closed && mark == was.written
      requires IsRun(LogRuns.Next(was, RecordEnd), steps)
               && Holds(After(LogRuns.Next(was, RecordEnd), steps), was.Current())
      ensures var now := After(LogRuns.Next(was, RecordEnd), steps);
              && (ok <==> MayShow(now, LogRuns.Next(was, RecordEnd).ends[|was.ends|]))
              && (ok <==> now.Current() != was.Current() || now.sink.stopped || now.acked >= was.written)
              && (ok ==> || LetGo(now, was.Current()) || now.sink.stopped
                         || (now.acked >= was.written && was.written <= |now.stream|
                             && now.stream[..was.written] == was.stream + was.pipe))
    {
      LogRuns.NextKeeps(was, RecordEnd);
      RunsKeep(LogRuns.Next(was, RecordEnd), steps);
      EndWaitsForItsOutput(was, steps);
      EndIsAtWritten(was);
      return from >= mark || stopped;
    }
  }
}
