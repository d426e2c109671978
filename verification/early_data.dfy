/**
 * The early-data (0-RTT) controller run by the client's write and flush paths
 * while the state is `EarlyData(pos, data)`: send the caller's chunks through
 * the session's early-data channel and buffer what it accepts, drive the
 * handshake to completion, replay `data[pos..]` through the normal write path
 * if the server rejected 0-RTT, and finally switch to `Stream`.
 *
 * Every collaborator call is an answer supplied in an `EarlyEnv`.
 */
module EarlyDataController {
  import opened Io
  import opened TlsStates

  // ---------------------------------------------------------------------------
  // Phase 1: the 0-RTT chunk loop
  // ---------------------------------------------------------------------------

  /** The early-data channel's `write` answers, by chunk index. The channel is
      synchronous (it never suspends) and never claims more than it was offered. */
  predicate ChunkAnswersFit(bufs: seq<seq<Byte>>, answers: seq<IoResult<nat>>)
  {
    && |bufs| <= |answers|
    && forall i :: 0 <= i < |bufs| && answers[i].Ok? ==> answers[i].value <= |bufs[i]|
  }

  /** What the chunk loop leaves behind: the bytes the channel accepted, which
      the loop appends to the buffer, and the error that ended it, if any. */
  datatype ChunkRun = ChunkRun(accepted: seq<Byte>, failure: Option<ErrorKind>)

  /** Reference definition of the chunk loop: empty chunks are skipped, a fully
      accepted chunk moves on to the next, and the first refused, partly accepted
      or failing chunk ends the loop. Whatever is accepted is a prefix of the
      caller's bytes. */
  function AcceptChunks(bufs: seq<seq<Byte>>, answers: seq<IoResult<nat>>): (r: ChunkRun)
    requires ChunkAnswersFit(bufs, answers)
    ensures r.accepted <= Flatten(bufs)
    decreases |bufs|
  {
    if |bufs| == 0 then ChunkRun([], None)
    else if |bufs[0]| == 0 then AcceptChunks(bufs[1..], answers[1..])
    else
      match answers[0]
      case Err(k) => ChunkRun([], Some(k))
      case Ok(n) =>
        if n == 0 then ChunkRun([], None)
        else if n < |bufs[0]| then ChunkRun(bufs[0][..n], None)
        else
          var rest := AcceptChunks(bufs[1..], answers[1..]);
          ChunkRun(bufs[0] + rest.accepted, rest.failure)
  }

  /** The loop takes everything, without error, exactly when the channel accepts
      every non-empty chunk in full. */
  lemma {:induction false} AcceptChunksWhole(bufs: seq<seq<Byte>>, answers: seq<IoResult<nat>>)
    requires ChunkAnswersFit(bufs, answers)
    ensures AcceptChunks(bufs, answers) == ChunkRun(Flatten(bufs), None)
        <==> (forall i :: 0 <= i < |bufs| && |bufs[i]| > 0 ==> answers[i] == Ok(|bufs[i]|))
    decreases |bufs|
  {
    if |bufs| == 0 {
    } else {
      var r := AcceptChunks(bufs, answers);
      var tail := AcceptChunks(bufs[1..], answers[1..]);
      AcceptChunksWhole(bufs[1..], answers[1..]);
      var allFull := forall i :: 0 <= i < |bufs| && |bufs[i]| > 0 ==> answers[i] == Ok(|bufs[i]|);
      var tailFull := forall i :: 0 <= i < |bufs[1..]| && |bufs[1..][i]| > 0 ==> answers[1..][i] == Ok(|bufs[1..][i]|);
      var headFull := |bufs[0]| > 0 ==> answers[0] == Ok(|bufs[0]|);
      assert allFull <==> headFull && tailFull by {
        if headFull && tailFull {
          forall i | 0 <= i < |bufs| && |bufs[i]| > 0
            ensures answers[i] == Ok(|bufs[i]|)
          {
            if i > 0 {
              assert bufs[1..][i - 1] == bufs[i];
            }
          }
        }
      }
      if |bufs[0]| == 0 {
        assert Flatten(bufs) == Flatten(bufs[1..]);
      } else if headFull {
        assert r == ChunkRun(bufs[0] + tail.accepted, tail.failure);
        if r == ChunkRun(Flatten(bufs), None) {
          assert bufs[0] + tail.accepted == bufs[0] + Flatten(bufs[1..]);
          assert tail.accepted == (bufs[0] + tail.accepted)[|bufs[0]|..];
          assert Flatten(bufs[1..]) == (bufs[0] + Flatten(bufs[1..]))[|bufs[0]|..];
        }
      } else {
        assert r != ChunkRun(Flatten(bufs), None) by {
          match answers[0]
          case Err(k) =>
          case Ok(n) =>
            assert n < |bufs[0]|;
            assert |r.accepted| < |bufs[0]| <= |Flatten(bufs)|;
        }
      }
    }
  }

  /** Where the loop stops: at the first non-empty chunk `k` not accepted in full,
      after the concatenation of the chunks before it, plus the accepted prefix
      of chunk `k` (nothing, when it was refused or the channel failed). */
  lemma {:induction false} AcceptChunksStopsAt(bufs: seq<seq<Byte>>, answers: seq<IoResult<nat>>, k: nat)
    requires ChunkAnswersFit(bufs, answers)
    requires k < |bufs| && |bufs[k]| > 0 && answers[k] != Ok(|bufs[k]|)
    requires forall i :: 0 <= i < k && |bufs[i]| > 0 ==> answers[i] == Ok(|bufs[i]|)
    ensures AcceptChunks(bufs, answers) ==
      match answers[k]
      case Ok(n) => ChunkRun(Flatten(bufs[..k]) + bufs[k][..n], None)
      case Err(e) => ChunkRun(Flatten(bufs[..k]), Some(e))
    decreases k
  {
    if k == 0 {
      assert Flatten(bufs[..0]) == [];
    } else {
      var tail := AcceptChunks(bufs[1..], answers[1..]);
      var before := Flatten(bufs[1..][..k - 1]);
      assert bufs[..k][0] == bufs[0];
      assert bufs[..k][1..] == bufs[1..][..k - 1];
      assert Flatten(bufs[..k]) == bufs[0] + before;
      assert bufs[1..][k - 1] == bufs[k] && answers[1..][k - 1] == answers[k];
      forall i | 0 <= i < k - 1 && |bufs[1..][i]| > 0
        ensures answers[1..][i] == Ok(|bufs[1..][i]|)
      {
        assert bufs[1..][i] == bufs[i + 1];
      }
      AcceptChunksStopsAt(bufs[1..], answers[1..], k - 1);
      if |bufs[0]| == 0 {
        assert AcceptChunks(bufs, answers) == tail;
        assert bufs[0] + before == before;
      } else {
        assert answers[0] == Ok(|bufs[0]|);
        assert AcceptChunks(bufs, answers) == ChunkRun(bufs[0] + tail.accepted, tail.failure);
        match answers[k]
        case Ok(n) =>
          assert bufs[0] + (before + bufs[k][..n]) == (bufs[0] + before) + bufs[k][..n];
        case Err(e) =>
      }
    }
  }

  /** The chunk loop as the client runs it: appends each accepted prefix to the
      buffer, counts it, and returns the count, or the channel's error. */
  method EarlyWriteLoop(bufs: seq<seq<Byte>>, answers: seq<IoResult<nat>>, data: seq<Byte>)
    returns (data': seq<Byte>, result: IoResult<nat>)
    requires ChunkAnswersFit(bufs, answers)
    ensures data' == data + AcceptChunks(bufs, answers).accepted
    ensures result == if AcceptChunks(bufs, answers).failure.Some?
                      then Err(AcceptChunks(bufs, answers).failure.value)
                      else Ok(|AcceptChunks(bufs, answers).accepted|)
  {
    data' := data;
    var written: nat := 0;
    var i := 0;
    while i < |bufs|
      invariant 0 <= i <= |bufs|
      invariant ChunkAnswersFit(bufs[i..], answers[i..])
      invariant data <= data' && written == |data'| - |data|
      invariant data + AcceptChunks(bufs, answers).accepted == data' + AcceptChunks(bufs[i..], answers[i..]).accepted
      invariant AcceptChunks(bufs, answers).failure == AcceptChunks(bufs[i..], answers[i..]).failure
    {
      assert bufs[i..][0] == bufs[i] && answers[i..][0] == answers[i];
      assert bufs[i..][1..] == bufs[i + 1..] && answers[i..][1..] == answers[i + 1..];
      var buf := bufs[i];
      if |buf| == 0 {
        i := i + 1;
        continue;
      }
      var len;
      match answers[i] {
        case Ok(n) =>
          if n == 0 {
            return data', Ok(written);
          }
          len := n;
        case Err(k) =>
          return data', Err(k);
      }
      written := written + len;
      data' := data' + buf[..len];
      if len < |buf| {
        return data', Ok(written);
      }
      assert buf[..len] == buf;
      i := i + 1;
    }
    result := Ok(written);
  }

  // ---------------------------------------------------------------------------
  // Phase 2: driving the handshake
  // ---------------------------------------------------------------------------

  /** The answers met by `while is_handshaking() { ready!(handshake())?; }`:
      `steps[i]` is the i-th `handshake` answer, and the payload of a successful
      one is the `is_handshaking` answer that follows it. The script ends the
      loop: the handshake completes, or a step suspends or fails. */
  predicate HandshakeScript(handshaking: bool, steps: seq<Poll<bool>>)
    decreases |steps|
  {
    !handshaking ||
    (|steps| > 0 && (!steps[0].IsReadyOk() || HandshakeScript(steps[0].result.value, steps[1..])))
  }

  /** The handshake loop: finishes successfully once the session stops
      handshaking, and otherwise passes on a step's suspension or error. */
  function DriveHandshake(handshaking: bool, steps: seq<Poll<bool>>): (r: Poll<()>)
    requires HandshakeScript(handshaking, steps)
    ensures !handshaking ==> r == Ready(Ok(()))
    ensures r.Pending? ==> exists i :: 0 <= i < |steps| && steps[i].Pending?
    ensures r.Ready? && r.result.Err? ==>
              exists i :: 0 <= i < |steps| && steps[i] == Ready(Err(r.result.kind))
    ensures r.IsReadyOk() ==> !handshaking || exists i :: 0 <= i < |steps| && steps[i] == Ready(Ok(false))
    decreases |steps|
  {
    if !handshaking then Ready(Ok(()))
    else if !steps[0].IsReadyOk() then Propagate(steps[0])
    else
      var r := DriveHandshake(steps[0].result.value, steps[1..]);
      assert r.Pending? ==> exists i :: 1 <= i < |steps| && steps[i].Pending? by {
        if r.Pending? {
          var j :| 0 <= j < |steps[1..]| && steps[1..][j].Pending?;
          assert steps[j + 1].Pending?;
        }
      }
      assert r.Ready? && r.result.Err? ==>
               exists i :: 1 <= i < |steps| && steps[i] == Ready(Err(r.result.kind)) by {
        if r.Ready? && r.result.Err? {
          var j :| 0 <= j < |steps[1..]| && steps[1..][j] == Ready(Err(r.result.kind));
          assert steps[j + 1] == Ready(Err(r.result.kind));
        }
      }
      assert r.IsReadyOk() ==> exists i :: 0 <= i < |steps| && steps[i] == Ready(Ok(false)) by {
        if r.IsReadyOk() {
          if steps[0].result.value {
            var j :| 0 <= j < |steps[1..]| && steps[1..][j] == Ready(Ok(false));
            assert steps[j + 1] == Ready(Ok(false));
          } else {
            assert steps[0] == Ready(Ok(false));
          }
        }
      }
      r
  }

  /** The handshake loop as the client runs it (`while is_handshaking()`). */
  method HandshakeLoop(handshaking: bool, steps: seq<Poll<bool>>) returns (out: Poll<()>)
    requires HandshakeScript(handshaking, steps)
    ensures out == DriveHandshake(handshaking, steps)
  {
    var busy := handshaking;
    var i := 0;
    while busy
      invariant 0 <= i <= |steps|
      invariant HandshakeScript(busy, steps[i..])
      invariant DriveHandshake(handshaking, steps) == DriveHandshake(busy, steps[i..])
      decreases |steps| - i
    {
      assert steps[i..][0] == steps[i] && steps[i..][1..] == steps[i + 1..];
      if !steps[i].IsReadyOk() {
        return Propagate(steps[i]);
      }
      busy := steps[i].result.value;
      i := i + 1;
    }
    out := Ready(Ok(()));
  }

  // ---------------------------------------------------------------------------
  // Phase 3: fallback replay
  // ---------------------------------------------------------------------------

  /** The bridge's `poll_write` answers during a replay of `remaining` bytes:
      each count is at most what was offered, and the script ends the loop
      (the buffer drains, or a write suspends or fails). */
  predicate ReplayScript(remaining: nat, script: seq<Poll<nat>>)
    decreases |script|
  {
    remaining == 0 ||
    (|script| > 0 &&
      match script[0]
      case Pending => true
      case Ready(Err(_)) => true
      case Ready(Ok(n)) => n <= remaining && ReplayScript(remaining - n, script[1..]))
  }

  /** Where one replay attempt ends: its outcome and the advanced cursor. */
  datatype ReplayRun = ReplayRun(out: Poll<()>, pos: nat)

  /** Replay of `data[pos..]`: the cursor only moves forward, never past the end,
      and the replay succeeds exactly when the whole buffer has been written.
      A suspension or an error keeps the progress made before it. */
  function Replay(pos: nat, data: seq<Byte>, script: seq<Poll<nat>>): (r: ReplayRun)
    requires pos <= |data|
    requires ReplayScript(|data| - pos, script)
    ensures pos <= r.pos <= |data|
    ensures r.out.IsReadyOk() <==> r.pos == |data|
    ensures r.out.Pending? ==> Pending in script
    decreases |script|
  {
    if pos == |data| then ReplayRun(Ready(Ok(())), pos)
    else
      match script[0]
      case Pending => ReplayRun(Pending, pos)
      case Ready(Err(k)) => ReplayRun(Ready(Err(k)), pos)
      case Ready(Ok(n)) =>
        var r := Replay(pos + n, data, script[1..]);
        assert r.out.Pending? ==> script[1..][0] in script;
        r
  }

  /** The replay loop as the client runs it (`while pos < data.len()`). */
  method ReplayLoop(pos0: nat, data: seq<Byte>, script: seq<Poll<nat>>) returns (out: Poll<()>, pos: nat)
    requires pos0 <= |data|
    requires ReplayScript(|data| - pos0, script)
    ensures ReplayRun(out, pos) == Replay(pos0, data, script)
  {
    pos := pos0;
    var i := 0;
    while pos < |data|
      invariant pos0 <= pos <= |data| && 0 <= i <= |script|
      invariant ReplayScript(|data| - pos, script[i..])
      invariant Replay(pos0, data, script) == Replay(pos, data, script[i..])
      decreases |script| - i
    {
      assert script[i..][0] == script[i] && script[i..][1..] == script[i + 1..];
      match script[i] {
        case Pending =>
          return Pending, pos;
        case Ready(Err(k)) =>
          return Ready(Err(k)), pos;
        case Ready(Ok(n)) =>
          pos := pos + n;
          i := i + 1;
      }
    }
    out := Ready(Ok(()));
  }

  // ---------------------------------------------------------------------------
  // The controller
  // ---------------------------------------------------------------------------

  /** The session's and the bridge's answers to one controller run:
      whether the session offers an early-data channel, that channel's answers,
      the handshake loop's answers, whether the server accepted 0-RTT, and the
      bridge's answers during a replay. */
  datatype EarlyEnv = EarlyEnv(
    channel: bool,
    chunkAnswers: seq<IoResult<nat>>,
    handshaking: bool,
    handshakeSteps: seq<Poll<bool>>,
    accepted: bool,
    replay: seq<Poll<nat>>)

  /** The answers respect the collaborators' contracts for state `s` and input `bufs`. */
  predicate EnvFits(s: TlsState, bufs: seq<seq<Byte>>, env: EarlyEnv)
  {
    && WellFormed(s)
    && (env.channel ==> ChunkAnswersFit(bufs, env.chunkAnswers))
    && HandshakeScript(env.handshaking, env.handshakeSteps)
    && (s.EarlyData? ==> ReplayScript(|s.data| - s.pos, env.replay))
  }

  /** The chunk loop as the controller meets it: nothing is sent when the
      session offers no early-data channel. */
  function ChannelRun(bufs: seq<seq<Byte>>, env: EarlyEnv): (r: ChunkRun)
    requires env.channel ==> ChunkAnswersFit(bufs, env.chunkAnswers)
    ensures !env.channel ==> r == ChunkRun([], None)
    ensures r.accepted <= Flatten(bufs)
  {
    if env.channel then AcceptChunks(bufs, env.chunkAnswers) else ChunkRun([], None)
  }

  /** The phases after the chunk loop both succeed: the handshake finishes and,
      unless the server accepted 0-RTT, the whole unreplayed buffer is written. */
  predicate Settles(s: TlsState, env: EarlyEnv)
    requires s.EarlyData? && WellFormed(s)
    requires HandshakeScript(env.handshaking, env.handshakeSteps)
    requires ReplayScript(|s.data| - s.pos, env.replay)
  {
    && DriveHandshake(env.handshaking, env.handshakeSteps).IsReadyOk()
    && (env.accepted || Replay(s.pos, s.data, env.replay).out.IsReadyOk())
  }

  /** One controller run: its outcome, the new state, the bytes handed to the
      0-RTT channel and the bytes replayed through the normal write path. */
  datatype EarlyStep = EarlyStep(out: Poll<nat>, state: TlsState, sentEarly: seq<Byte>, replayed: seq<Byte>)

  /** The controller as written. Outside `EarlyData` it does nothing and reports 0.
      In `EarlyData` it either stays there (after sending 0-RTT bytes, which are
      appended to the buffer, or after a suspension or error, keeping the replay
      progress), or it completes: the state becomes exactly `Stream`, and the
      buffer's unreplayed rest has gone through the normal write path unless the
      server accepted 0-RTT. */
  function HandleEarlyDataAsWritten(s: TlsState, bufs: seq<seq<Byte>>, env: EarlyEnv): (r: EarlyStep)
    requires EnvFits(s, bufs, env)
    ensures !s.EarlyData? ==> r == EarlyStep(Ready(Ok(0)), s, [], [])
    ensures s.EarlyData? ==> r.state == Stream || r.state.EarlyData?
    ensures r.sentEarly <= Flatten(bufs)
    ensures s.EarlyData? ==> r.sentEarly == ChannelRun(bufs, env).accepted
    ensures s.EarlyData? && ChannelRun(bufs, env).failure.Some? ==>
              r.out == Ready(Err(ChannelRun(bufs, env).failure.value))
    ensures s.EarlyData? && ChannelRun(bufs, env) != ChunkRun([], None) ==>
              r.state == EarlyData(s.pos, s.data + r.sentEarly) && r.replayed == []
    ensures s.EarlyData? && ChannelRun(bufs, env).failure.None? && r.sentEarly != [] ==>
              r.out == Ready(Ok(|r.sentEarly|))
    ensures s.EarlyData? && ChannelRun(bufs, env) == ChunkRun([], None) ==>
              (r.state == Stream <==> Settles(s, env))
    ensures s.EarlyData? && ChannelRun(bufs, env) == ChunkRun([], None) &&
            !DriveHandshake(env.handshaking, env.handshakeSteps).IsReadyOk() ==>
              r == EarlyStep(Propagate(DriveHandshake(env.handshaking, env.handshakeSteps)), s, [], [])
    ensures s.EarlyData? && ChannelRun(bufs, env) == ChunkRun([], None) &&
            DriveHandshake(env.handshaking, env.handshakeSteps).IsReadyOk() && !env.accepted &&
            !Replay(s.pos, s.data, env.replay).out.IsReadyOk() ==>
              && r.out == Propagate(Replay(s.pos, s.data, env.replay).out)
              && r.state == EarlyData(Replay(s.pos, s.data, env.replay).pos, s.data)
    ensures s.EarlyData? && r.state.EarlyData? ==>
              && r.state.data == s.data + r.sentEarly
              && s.pos <= r.state.pos <= |s.data|
              && r.replayed == s.data[s.pos..r.state.pos]
              && (env.accepted ==> r.state.pos == s.pos)
              && (r.sentEarly != [] ==> r.state.pos == s.pos)
    ensures s.EarlyData? && r.state == Stream ==>
              && r.out == Ready(Ok(0))
              && r.sentEarly == []
              && r.replayed == (if env.accepted then [] else s.data[s.pos..])
    ensures s.EarlyData? && r.out == Ready(Ok(0)) ==> r.state == Stream
    ensures r.out.IsReadyOk() && r.out.result.value != 0 ==>
              r.out.result.value == |r.sentEarly| && r.state.EarlyData?
    ensures r.out.Pending? ==> r.sentEarly == []
  {
    if !s.EarlyData? then EarlyStep(Ready(Ok(0)), s, [], [])
    else
      var run := ChannelRun(bufs, env);
      var buffered := EarlyData(s.pos, s.data + run.accepted);
      if run.failure.Some? then
        EarlyStep(Ready(Err(run.failure.value)), buffered, run.accepted, [])
      else if |run.accepted| != 0 then
        EarlyStep(Ready(Ok(|run.accepted|)), buffered, run.accepted, [])
      else
        var hs := DriveHandshake(env.handshaking, env.handshakeSteps);
        if !hs.IsReadyOk() then EarlyStep(Propagate(hs), s, [], [])
        else if env.accepted then EarlyStep(Ready(Ok(0)), Stream, [], [])
        else
          var rp := Replay(s.pos, s.data, env.replay);
          var replayed := s.data[s.pos..rp.pos];
          if rp.out.IsReadyOk() then EarlyStep(Ready(Ok(0)), Stream, [], replayed)
          else EarlyStep(Propagate(rp.out), EarlyData(rp.pos, s.data), [], replayed)
  }

  /** As written, a channel error on a later chunk of a vectored write is
      reported as an error although an earlier chunk was accepted, buffered and
      sent as early data: the caller is told nothing was written. */
  lemma ErrorAfterAcceptedChunk()
    ensures var env := EarlyEnv(true, [Ok(1), Err(OtherKind(0))], false, [], false, []);
            var r := HandleEarlyDataAsWritten(EarlyData(0, []), [[7], [8]], env);
            && r.out == Ready(Err(OtherKind(0)))
            && r.sentEarly == [7]
            && r.state == EarlyData(0, [7])
  {
    var env := EarlyEnv(true, [Ok(1), Err(OtherKind(0))], false, [], false, []);
    var bufs: seq<seq<Byte>> := [[7], [8]];
    assert bufs[1..] == [[8]];
    assert AcceptChunks(bufs[1..], env.chunkAnswers[1..]) == ChunkRun([], Some(OtherKind(0)));
    assert AcceptChunks(bufs, env.chunkAnswers) == ChunkRun([7], Some(OtherKind(0)));
  }

  /** The controller with the count reported faithfully: a channel error that
      follows accepted chunks ends the write with the accepted count, the way an
      error from a later chunk is reported by a partial vectored write; the
      error itself resurfaces on the caller's next attempt. Everything else is
      as written. The caller is told exactly which bytes were taken: a prefix of
      its input, of the reported length, and nothing at all on an error or a
      suspension. */
  function HandleEarlyDataCorrected(s: TlsState, bufs: seq<seq<Byte>>, env: EarlyEnv): (r: EarlyStep)
    requires EnvFits(s, bufs, env)
    ensures r.state == HandleEarlyDataAsWritten(s, bufs, env).state
    ensures r.sentEarly == HandleEarlyDataAsWritten(s, bufs, env).sentEarly
    ensures r.replayed == HandleEarlyDataAsWritten(s, bufs, env).replayed
    ensures r.out != HandleEarlyDataAsWritten(s, bufs, env).out ==>
              && HandleEarlyDataAsWritten(s, bufs, env).out.Ready?
              && HandleEarlyDataAsWritten(s, bufs, env).out.result.Err?
              && r.sentEarly != []
              && r.out == Ready(Ok(|r.sentEarly|))
    ensures r.out.IsReadyOk() ==>
              r.out.result.value <= |Flatten(bufs)| && r.sentEarly == Flatten(bufs)[..r.out.result.value]
    ensures !r.out.IsReadyOk() ==> r.sentEarly == []
  {
    var step := HandleEarlyDataAsWritten(s, bufs, env);
    if step.out.Ready? && step.out.result.Err? && step.sentEarly != [] then
      step.(out := Ready(Ok(|step.sentEarly|)))
    else step
  }

  /** The correction only matters for vectored writes: with at most one chunk a
      channel error comes before anything was accepted, so both controllers agree
      on every write of one buffer and on every flush. */
  lemma CorrectionNeedsTwoChunks(s: TlsState, bufs: seq<seq<Byte>>, env: EarlyEnv)
    requires EnvFits(s, bufs, env) && |bufs| <= 1
    ensures HandleEarlyDataCorrected(s, bufs, env) == HandleEarlyDataAsWritten(s, bufs, env)
  {
    var run := ChannelRun(bufs, env);
    if |bufs| == 1 && env.channel {
      assert AcceptChunks(bufs[1..], env.chunkAnswers[1..]) == ChunkRun([], None);
    }
    assert run.failure.Some? ==> run.accepted == [];
  }
}
