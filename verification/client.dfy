/**
 * The client stream facade: `poll_read`, `poll_write`, `poll_write_vectored`,
 * `poll_flush` and `poll_shutdown` as pure transitions of the connection state,
 * each given the answers of the collaborators it may consult.
 *
 * The early-data feature is the boolean `feature`; with it off, the
 * `EarlyData` state does not exist.
 */
module Client {
  import opened Io
  import opened TlsStates
  import opened EarlyDataController

  /** The adapter's state together with what its collaborators have been handed:
      the plaintext given to the 0-RTT channel, the plaintext given to the normal
      write path (including any replay), and how many close_notify alerts were sent. */
  datatype Conn = Conn(state: TlsState, sentEarly: seq<Byte>, sentApp: seq<Byte>, closeNotifies: nat)

  /** The bridge's `poll_read` answer: its outcome, the room left in the
      caller's buffer afterwards, and the bridge's eof flag. */
  datatype ReadAnswer = ReadAnswer(out: Poll<()>, remainingAfter: nat, eof: bool)

  /** Every collaborator answer one poll call may consult. */
  datatype Env = Env(early: EarlyEnv, read: ReadAnswer, write: Poll<nat>, flush: Poll<()>, shutdown: Poll<()>)

  /** The outcome of a poll call and the adapter afterwards. */
  datatype Step<T> = Step(out: Poll<T>, conn: Conn)

  /** The `EarlyData` variant exists only in builds with the early-data feature. */
  predicate Admissible(feature: bool, s: TlsState)
  {
    s.EarlyData? ==> feature
  }

  /** A bridge write answer respects the write contract: at most the bytes offered. */
  predicate WriteFits(bufs: seq<seq<Byte>>, w: Poll<nat>)
  {
    w.IsReadyOk() ==> w.result.value <= |Flatten(bufs)|
  }

  /** The bytes a write outcome tells the caller were taken: a prefix of its input. */
  function Acked(bufs: seq<seq<Byte>>, out: Poll<nat>): seq<Byte>
    requires WriteFits(bufs, out)
  {
    if out.IsReadyOk() then Flatten(bufs)[..out.result.value] else []
  }

  /** The bookkeeping of one call from `c` to `c'` whose caller was told `acked`
      was written. While early data lasts, acknowledged bytes went to the 0-RTT
      channel and were buffered, and the normal path carried the replayed stretch
      `data[pos..pos']` (none when 0-RTT was accepted). When early data ends, the
      normal path carried the unreplayed rest of the buffer (unless 0-RTT was
      accepted) followed by the acknowledged bytes. Outside early data, the
      normal path carried exactly the acknowledged bytes. */
  predicate Accounted(c: Conn, c': Conn, accepted: bool, acked: seq<Byte>)
  {
    if c.state.EarlyData? && c'.state.EarlyData? then
      && c.state.pos <= c'.state.pos <= |c.state.data|
      && c'.state.data == c.state.data + acked
      && c'.sentEarly == c.sentEarly + acked
      && c'.sentApp == c.sentApp + c.state.data[c.state.pos..c'.state.pos]
      && (accepted ==> c'.state.pos == c.state.pos)
    else if c.state.EarlyData? then
      && c.state.pos <= |c.state.data|
      && c'.sentEarly == c.sentEarly
      && c'.sentApp == c.sentApp + (if accepted then [] else c.state.data[c.state.pos..]) + acked
    else
      && !c'.state.EarlyData?
      && c'.sentEarly == c.sentEarly
      && c'.sentApp == c.sentApp + acked
  }

  /** Run the early-data controller when the feature is compiled in. */
  function RunEarlyData(feature: bool, s: TlsState, bufs: seq<seq<Byte>>, env: EarlyEnv): EarlyStep
    requires EnvFits(s, bufs, env)
  {
    if feature then HandleEarlyDataCorrected(s, bufs, env) else EarlyStep(Ready(Ok(0)), s, [], [])
  }

  /** The adapter after a controller run: new state, both logs extended. */
  function Absorb(c: Conn, e: EarlyStep): Conn
  {
    c.(state := e.state, sentEarly := c.sentEarly + e.sentEarly, sentApp := c.sentApp + e.replayed)
  }

  /** `poll_flush`: settle early data first (handshake, then replay), then flush
      the bridge. Outside early data it only flushes the bridge. A successful
      flush never leaves the state in `EarlyData`. */
  function PollFlush(feature: bool, c: Conn, env: Env): (r: Step<()>)
    requires Admissible(feature, c.state) && EnvFits(c.state, [], env.early)
    ensures Reaches(c.state, r.conn.state)
    ensures Accounted(c, r.conn, env.early.accepted, [])
    ensures Writeable(r.conn.state) == Writeable(c.state) && Readable(r.conn.state) == Readable(c.state)
    ensures r.conn.closeNotifies == c.closeNotifies
    ensures !c.state.EarlyData? ==> r == Step(env.flush, c)
    ensures c.state.EarlyData? && r.out.IsReadyOk() ==> r.conn.state == Stream
    ensures r.conn.state.EarlyData? ==> !r.out.IsReadyOk()
    ensures c.state.EarlyData? && Settles(c.state, env.early) ==>
              r.out == env.flush && r.conn.state == Stream
    ensures c.state.EarlyData? && !DriveHandshake(env.early.handshaking, env.early.handshakeSteps).IsReadyOk() ==>
              r == Step(DriveHandshake(env.early.handshaking, env.early.handshakeSteps), c)
    ensures c.state.EarlyData? && DriveHandshake(env.early.handshaking, env.early.handshakeSteps).IsReadyOk() &&
            !env.early.accepted && !Replay(c.state.pos, c.state.data, env.early.replay).out.IsReadyOk() ==>
              && r.out == Replay(c.state.pos, c.state.data, env.early.replay).out
              && r.conn.state == EarlyData(Replay(c.state.pos, c.state.data, env.early.replay).pos, c.state.data)
  {
    var e := RunEarlyData(feature, c.state, [], env.early);
    assert Flatten([]) == [];
    var c1 := Absorb(c, e);
    if !e.out.IsReadyOk() then Step(Propagate(e.out), c1) else Step(env.flush, c1)
  }

  /** How a read on an open read side `s` turns the bridge's answer `a` into
      the caller's outcome `out` and the new state `s'`: a success reports the
      bytes filled and closes the read side exactly when it filled nothing or
      the bridge saw eof; a connection-aborted error is returned and closes the
      read side; any other outcome passes through with the state unchanged. */
  predicate ClassifiesRead(room: nat, a: ReadAnswer, s: TlsState, out: Poll<nat>, s': TlsState)
    requires a.remainingAfter <= room
  {
    && (a.out.IsReadyOk() ==>
          && out == Ready(Ok(room - a.remainingAfter))
          && (Readable(s') <==> a.remainingAfter < room && !a.eof)
          && (Readable(s') ==> s' == s))
    && (a.out == Ready(Err(ConnectionAborted)) ==> out == Ready(Err(ConnectionAborted)) && !Readable(s'))
    && (!a.out.IsReadyOk() && a.out != Ready(Err(ConnectionAborted)) ==>
          out == Propagate(a.out) && s' == s)
  }

  /** `poll_read`. In `EarlyData` it flushes first and reads only once the flush
      has left early data behind (so it recurses at most once). With the read
      side open it asks the bridge: a successful read closes the read side
      exactly when it filled nothing or the bridge saw eof; a connection-aborted
      error closes the read side and is still returned; anything else passes
      through with nothing changed. With the read side closed it reports end of
      stream (zero bytes) without consulting anything. */
  function PollRead(feature: bool, c: Conn, room: nat, env: Env): (r: Step<nat>)
    requires Admissible(feature, c.state) && EnvFits(c.state, [], env.early)
    requires env.read.remainingAfter <= room
    ensures Reaches(c.state, r.conn.state) && WellFormed(r.conn.state)
    ensures r.conn.state.EarlyData? ==> !r.out.IsReadyOk()
    ensures Accounted(c, r.conn, env.early.accepted, [])
    ensures Writeable(r.conn.state) == Writeable(c.state) && r.conn.closeNotifies == c.closeNotifies
    ensures r.out.IsReadyOk() ==> r.out.result.value <= room
    ensures !Readable(c.state) ==> r == Step(Ready(Ok(0)), c)
    ensures (c.state == Stream || c.state == WriteShutdown) ==>
              r.conn.(state := c.state) == c && ClassifiesRead(room, env.read, c.state, r.out, r.conn.state)
    ensures c.state.EarlyData? && !PollFlush(feature, c, env).out.IsReadyOk() ==>
              r == Step(Propagate(PollFlush(feature, c, env).out), PollFlush(feature, c, env).conn)
    ensures c.state.EarlyData? && PollFlush(feature, c, env).out.IsReadyOk() ==>
              && r.conn.(state := Stream) == PollFlush(feature, c, env).conn
              && ClassifiesRead(room, env.read, Stream, r.out, r.conn.state)
    decreases if c.state.EarlyData? then 1 else 0
  {
    match c.state
    case EarlyData(_, _) =>
      var f := PollFlush(feature, c, env);
      if !f.out.IsReadyOk() then Step(Propagate(f.out), f.conn)
      else PollRead(feature, f.conn, room, env)
    case Stream | WriteShutdown =>
      var a := env.read;
      if a.out.IsReadyOk() then
        var closed := room == a.remainingAfter || a.eof;
        Step(Ready(Ok(room - a.remainingAfter)), if closed then c.(state := ShutdownRead(c.state)) else c)
      else if a.out == Ready(Err(ConnectionAborted)) then
        Step(Ready(Err(ConnectionAborted)), c.(state := ShutdownRead(c.state)))
      else Step(Propagate(a.out), c)
    case ReadShutdown | FullyShutdown =>
      Step(Ready(Ok(0)), c)
  }

  /** `poll_write_vectored`. In `EarlyData` the controller runs first; if the
      0-RTT channel took bytes, that count is the answer and the bridge is not
      asked. Otherwise (after the controller completed, or outside early data)
      the bridge's write answers. The caller is told a prefix of its input was
      taken, and that prefix is exactly what reached a channel. */
  function PollWriteVectored(feature: bool, c: Conn, bufs: seq<seq<Byte>>, env: Env): (r: Step<nat>)
    requires Admissible(feature, c.state) && EnvFits(c.state, bufs, env.early)
    requires WriteFits(bufs, env.write)
    ensures WriteFits(bufs, r.out)
    ensures Reaches(c.state, r.conn.state) && WellFormed(r.conn.state)
    ensures Accounted(c, r.conn, env.early.accepted, Acked(bufs, r.out))
    ensures Writeable(r.conn.state) == Writeable(c.state) && Readable(r.conn.state) == Readable(c.state)
    ensures r.conn.closeNotifies == c.closeNotifies
    ensures !c.state.EarlyData? ==> r.out == env.write && r.conn.state == c.state
    ensures r.conn.state.EarlyData? && r.out.IsReadyOk() ==> r.out.result.value > 0
    ensures c.state.EarlyData? ==>
              var e := HandleEarlyDataCorrected(c.state, bufs, env.early);
              r.conn.state == e.state && r.out == (if e.state == Stream then env.write else e.out)
  {
    var e := RunEarlyData(feature, c.state, bufs, env.early);
    var c1 := Absorb(c, e);
    if !e.out.IsReadyOk() then Step(Propagate(e.out), c1)
    else if e.out.result.value != 0 then Step(e.out, c1)
    else Step(env.write, c1.(sentApp := c1.sentApp + Acked(bufs, env.write)))
  }

  /** `poll_write`: the same path with the caller's buffer as the only chunk. */
  function PollWrite(feature: bool, c: Conn, buf: seq<Byte>, env: Env): (r: Step<nat>)
    requires Admissible(feature, c.state) && EnvFits(c.state, [buf], env.early)
    requires WriteFits([buf], env.write)
    ensures Reaches(c.state, r.conn.state) && WellFormed(r.conn.state)
    ensures r.out.IsReadyOk() ==>
              r.out.result.value <= |buf| && Accounted(c, r.conn, env.early.accepted, buf[..r.out.result.value])
    ensures !r.out.IsReadyOk() ==> Accounted(c, r.conn, env.early.accepted, [])
    ensures Writeable(r.conn.state) == Writeable(c.state) && r.conn.closeNotifies == c.closeNotifies
    ensures !c.state.EarlyData? ==> r.out == env.write && r.conn.state == c.state
    ensures c.state.EarlyData? ==>
              var e := HandleEarlyDataCorrected(c.state, [buf], env.early);
              r.conn.state == e.state && r.out == (if e.state == Stream then env.write else e.out)
  {
    FlattenSingle(buf);
    PollWriteVectored(feature, c, [buf], env)
  }

  /** `poll_shutdown`. In `EarlyData` a full flush must succeed first. Then, only
      while the write side is open, close_notify is sent and the write side is
      closed; the bridge's shutdown answers. So close_notify is sent exactly when
      the write side closes, and never again once it is closed. */
  function PollShutdown(feature: bool, c: Conn, env: Env): (r: Step<()>)
    requires Admissible(feature, c.state) && EnvFits(c.state, [], env.early)
    ensures Reaches(c.state, r.conn.state) && WellFormed(r.conn.state)
    ensures Accounted(c, r.conn, env.early.accepted, [])
    ensures Readable(r.conn.state) == Readable(c.state)
    ensures r.conn.closeNotifies ==
              c.closeNotifies + (if Writeable(c.state) && !Writeable(r.conn.state) then 1 else 0)
    ensures !c.state.EarlyData? ==> !Writeable(r.conn.state) && r.out == env.shutdown
    ensures !Writeable(c.state) ==> r == Step(env.shutdown, c)
    ensures c.state.EarlyData? ==>
              (!Writeable(r.conn.state) <==> PollFlush(feature, c, env).out.IsReadyOk())
    ensures c.state.EarlyData? && !PollFlush(feature, c, env).out.IsReadyOk() ==>
              r == PollFlush(feature, c, env)
    ensures c.state.EarlyData? && PollFlush(feature, c, env).out.IsReadyOk() ==>
              && r.out == env.shutdown
              && r.conn.state == WriteShutdown
              && r.conn.(state := Stream, closeNotifies := c.closeNotifies) == PollFlush(feature, c, env).conn
  {
    var f := if c.state.EarlyData? then PollFlush(feature, c, env) else Step(Ready(Ok(())), c);
    if !f.out.IsReadyOk() then f
    else
      var c2 := if Writeable(f.conn.state)
                then f.conn.(state := ShutdownWrite(f.conn.state), closeNotifies := f.conn.closeNotifies + 1)
                else f.conn;
      Step(env.shutdown, c2)
  }

  /** Once the read side is closed, a read is end of stream whatever the
      transport would have answered, and every later read is too. */
  lemma ReadAfterCloseIgnoresTransport(feature: bool, c: Conn, room: nat, env1: Env, env2: Env)
    requires Admissible(feature, c.state) && !Readable(c.state)
    requires EnvFits(c.state, [], env1.early) && env1.read.remainingAfter <= room
    requires EnvFits(c.state, [], env2.early) && env2.read.remainingAfter <= room
    ensures PollRead(feature, c, room, env1) == PollRead(feature, c, room, env2) == Step(Ready(Ok(0)), c)
  {
  }

  /** A read that hits end of stream makes the next read end of stream too,
      immediately and without consulting the transport. */
  lemma EofIsSticky(feature: bool, c: Conn, room1: nat, env1: Env, room2: nat, env2: Env)
    requires Admissible(feature, c.state) && EnvFits(c.state, [], env1.early)
    requires env1.read.remainingAfter <= room1
    requires Readable(c.state) && !c.state.EarlyData?
    requires env1.read.out.IsReadyOk() && (env1.read.remainingAfter == room1 || env1.read.eof)
    requires EnvFits(PollRead(feature, c, room1, env1).conn.state, [], env2.early)
    requires env2.read.remainingAfter <= room2
    ensures var c1 := PollRead(feature, c, room1, env1).conn;
            PollRead(feature, c1, room2, env2) == Step(Ready(Ok(0)), c1)
  {
    var r1 := PollRead(feature, c, room1, env1);
    assert !Readable(r1.conn.state);
  }

  /** The read side is closed by any successful read that leaves the caller's
      room unchanged, including one whose buffer had no room to begin with. */
  lemma ZeroRoomReadCloses(c: Conn, env: Env)
    requires c.state == Stream && EnvFits(c.state, [], env.early)
    requires env.read == ReadAnswer(Ready(Ok(())), 0, false)
    ensures PollRead(false, c, 0, env) == Step(Ready(Ok(0)), c.(state := ReadShutdown))
  {
  }

  /** Shutting down twice sends close_notify at most once. */
  lemma ShutdownTwiceNotifiesOnce(feature: bool, c: Conn, env1: Env, env2: Env)
    requires Admissible(feature, c.state) && EnvFits(c.state, [], env1.early)
    requires EnvFits(PollShutdown(feature, c, env1).conn.state, [], env2.early)
    ensures var c1 := PollShutdown(feature, c, env1).conn;
            PollShutdown(feature, c1, env2).conn.closeNotifies <= c.closeNotifies + 1
  {
  }

  /** While 0-RTT bytes are being taken, the bridge's write answer is never
      consulted: the normal write path is skipped for that call. */
  lemma EarlyAcceptSkipsNormalWrite(c: Conn, bufs: seq<seq<Byte>>, env: Env, w: Poll<nat>)
    requires c.state.EarlyData? && EnvFits(c.state, bufs, env.early)
    requires WriteFits(bufs, env.write) && WriteFits(bufs, w)
    requires HandleEarlyDataAsWritten(c.state, bufs, env.early).sentEarly != []
    ensures PollWriteVectored(true, c, bufs, env) == PollWriteVectored(true, c, bufs, env.(write := w))
    ensures PollWriteVectored(true, c, bufs, env).conn.state.EarlyData?
  {
  }

  /** Outside early data the feature flag changes nothing: the controller is a
      no-op there, so every call behaves the same with the feature on or off. */
  lemma FeatureIrrelevantOutsideEarlyData(c: Conn, room: nat, bufs: seq<seq<Byte>>, env: Env)
    requires !c.state.EarlyData? && EnvFits(c.state, bufs, env.early) && EnvFits(c.state, [], env.early)
    requires env.read.remainingAfter <= room && WriteFits(bufs, env.write)
    ensures PollRead(true, c, room, env) == PollRead(false, c, room, env)
    ensures PollWriteVectored(true, c, bufs, env) == PollWriteVectored(false, c, bufs, env)
    ensures PollFlush(true, c, env) == PollFlush(false, c, env)
    ensures PollShutdown(true, c, env) == PollShutdown(false, c, env)
  {
  }
}
