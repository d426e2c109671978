/**
 * The connection state of the client stream (`TlsState`) and the helpers the
 * client calls on it. The helpers are defined next to the state in a file this
 * model does not include, so their definitions here are assumptions: the
 * minimal total versions consistent with how the client uses them.
 */
module TlsStates {
  import opened Io

  /** Which directions of the stream are still open, and, while 0-RTT data may
      still need replaying, the buffered early data with its replay cursor. */
  datatype TlsState =
    | Stream
    | EarlyData(pos: nat, data: seq<Byte>)
    | ReadShutdown
    | WriteShutdown
    | FullyShutdown

  /** The read direction is open. */
  predicate Readable(s: TlsState)
  {
    !(s.ReadShutdown? || s.FullyShutdown?)
  }

  /** The write direction is open (close_notify not yet sent). */
  predicate Writeable(s: TlsState)
  {
    !(s.WriteShutdown? || s.FullyShutdown?)
  }

  /** The replay cursor of the early-data buffer lies inside the buffer. */
  predicate WellFormed(s: TlsState)
  {
    s.EarlyData? ==> s.pos <= |s.data|
  }

  /** Record that the read direction is closed (assumed definition). */
  function ShutdownRead(s: TlsState): (r: TlsState)
    ensures !Readable(r) && !r.EarlyData?
    ensures Writeable(r) == Writeable(s)
  {
    match s
    case WriteShutdown | FullyShutdown => FullyShutdown
    case _ => ReadShutdown
  }

  /** Record that the write direction is closed (assumed definition). */
  function ShutdownWrite(s: TlsState): (r: TlsState)
    ensures !Writeable(r) && !r.EarlyData?
    ensures Readable(r) == Readable(s)
  {
    match s
    case ReadShutdown | FullyShutdown => FullyShutdown
    case _ => WriteShutdown
  }

  /** `t` is a state `s` may evolve into: a closed direction stays closed,
      early data is never re-entered once left, and while it lasts the buffer
      only grows at its end and the replay cursor only advances. */
  predicate Reaches(s: TlsState, t: TlsState)
  {
    && (!Readable(s) ==> !Readable(t))
    && (!Writeable(s) ==> !Writeable(t))
    && (t.EarlyData? ==> s.EarlyData? && s.pos <= t.pos && s.data <= t.data)
  }

  lemma ReachesTransitive(s: TlsState, t: TlsState, u: TlsState)
    requires Reaches(s, t) && Reaches(t, u)
    ensures Reaches(s, u)
  {
  }

  /** Both directions closed is terminal: nothing is reachable from it but itself. */
  lemma FullyShutdownIsTerminal(t: TlsState)
    requires Reaches(FullyShutdown, t)
    ensures t == FullyShutdown
  {
  }
}
