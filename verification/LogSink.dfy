/** One process's output, held until a host acks it: the sink as a value, and what each of its operations makes of it.
    */
module LogSink {

  import opened Common

  /** The most output held for a host that has not acked it. */
  const LOG_HOLD := 0x10_0000
  /** The most one write to a host carries. */
  const CHUNK := 0x8000

  /** `held` is what no host has acked, its first byte is output byte `from`, and `conn` is the live host. */
  datatype Sink = Sink(held: seq<Byte>, from: nat, conn: Option<Conn>, stopped: bool, closed: bool) {
    function End(): nat {
      from + |held|
    }

    predicate Live(c: Conn) {
      conn == Some(c)
    }
  }

  function NewSink(start: nat): Sink {
    Sink([], start, None, false, false)
  }

  /** A closed sink takes no host; else the new one replaces the old. */
  function Taken(s: Sink, c: Conn): Sink {
    if s.closed then s else s.(conn := Some(c), stopped := false)
  }

  function Closed(s: Sink): Sink {
    s.(conn := None, stopped := true, closed := true)
  }

  /** A closed sink drops what the pipe still holds. */
  function Copied(s: Sink, bytes: seq<Byte>): Sink {
    if s.closed then s else s.(held := s.held + bytes)
  }

  /** An ack of the live host lets go of the output before it; one outside the held range is refused, and any other
      host's ignored. */
  function Released(s: Sink, c: Conn, ack: nat): (Sink, bool) {
    if !s.Live(c) then (s, true)
    else if ack < s.from || ack > s.End() then (s, false)
    else (s.(held := s.held[ack - s.from..], from := ack), true)
  }

  function StoppedBy(s: Sink, c: Conn): Sink {
    if s.Live(c) then s.(stopped := true) else s
  }

  function Abandoned(s: Sink): Sink {
    s.(stopped := true)
  }

  function Dropped(s: Sink, c: Conn): Sink {
    if s.Live(c) then s.(conn := None) else s
  }

  /** What a sender at byte `at` finds: nothing new yet, that it is over, or the next bytes. */
  datatype Turn = Wait | Over | Chunk(bytes: seq<Byte>)

  function NextTurn(s: Sink, c: Conn, at: nat): Turn {
    if s.Live(c) && at == s.End() then Wait
    else if !s.Live(c) || at < s.from || at > s.End() then Over
    else Chunk(s.held[at - s.from..][..Min(CHUNK, s.End() - at)])
  }
}
