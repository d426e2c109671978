/**
 * Sequences of poll calls on one client stream, and the invariants that hold
 * along every such sequence: closed directions never reopen, early data is left
 * exactly once, close_notify is sent at most once, and the bytes handed to the session
 * for sending are exactly the bytes the caller was told were written, whether
 * the server accepted 0-RTT or the buffer was replayed. The calls run the
 * corrected early-data controller.
 */
module Traces {
  import opened Io
  import opened TlsStates
  import opened EarlyDataController
  import opened Client

  /** One poll call with the collaborator answers it meets. */
  datatype Call =
    | Read(room: nat, env: Env)
    | Write(buf: seq<Byte>, env: Env)
    | WriteVectored(bufs: seq<seq<Byte>>, env: Env)
    | Flush(env: Env)
    | Shutdown(env: Env)

  /** The adapter together with what its caller has been told: `acked` is the
      concatenation of the bytes every write reported as taken. */
  datatype World = World(conn: Conn, acked: seq<Byte>)

  /** A freshly connected stream: in early data when 0-RTT was offered (which
      needs the feature), otherwise a plain open stream. */
  function Start(feature: bool, offered: bool): World
  {
    World(Conn(if feature && offered then EarlyData(0, []) else Stream, [], [], 0), [])
  }

  /** The call's answers respect the collaborators' contracts in `c`. */
  predicate CallFits(c: Conn, call: Call)
  {
    match call
    case Read(room, env) => EnvFits(c.state, [], env.early) && env.read.remainingAfter <= room
    case Write(buf, env) => EnvFits(c.state, [buf], env.early) && WriteFits([buf], env.write)
    case WriteVectored(bufs, env) => EnvFits(c.state, bufs, env.early) && WriteFits(bufs, env.write)
    case Flush(env) => EnvFits(c.state, [], env.early)
    case Shutdown(env) => EnvFits(c.state, [], env.early)
  }

  /** Perform one call. */
  function Perform(feature: bool, w: World, call: Call): World
    requires Admissible(feature, w.conn.state) && CallFits(w.conn, call)
  {
    match call
    case Read(room, env) => World(PollRead(feature, w.conn, room, env).conn, w.acked)
    case Write(buf, env) =>
      var r := PollWrite(feature, w.conn, buf, env);
      World(r.conn, w.acked + (if r.out.IsReadyOk() then buf[..r.out.result.value] else []))
    case WriteVectored(bufs, env) =>
      var r := PollWriteVectored(feature, w.conn, bufs, env);
      World(r.conn, w.acked + Acked(bufs, r.out))
    case Flush(env) => World(PollFlush(feature, w.conn, env).conn, w.acked)
    case Shutdown(env) => World(PollShutdown(feature, w.conn, env).conn, w.acked)
  }

  /** Every call of the sequence meets answers that fit the state it is made in. */
  predicate Feasible(feature: bool, w: World, calls: seq<Call>)
    decreases |calls|
  {
    |calls| == 0 ||
    (Admissible(feature, w.conn.state) && CallFits(w.conn, calls[0]) &&
     Feasible(feature, Perform(feature, w, calls[0]), calls[1..]))
  }

  /** Whether the server accepted 0-RTT is one fact about the connection. */
  predicate SameAcceptance(accepted: bool, calls: seq<Call>)
  {
    forall i :: 0 <= i < |calls| ==> calls[i].env.early.accepted == accepted
  }

  /** The world after the whole sequence. */
  function Run(feature: bool, w: World, calls: seq<Call>): World
    requires Feasible(feature, w, calls)
    decreases |calls|
  {
    if |calls| == 0 then w else Run(feature, Perform(feature, w, calls[0]), calls[1..])
  }

  /** The states met along the sequence, starting with the initial one. */
  function States(feature: bool, w: World, calls: seq<Call>): (ts: seq<TlsState>)
    requires Feasible(feature, w, calls)
    ensures |ts| == |calls| + 1 && ts[0] == w.conn.state
    decreases |calls|
  {
    [w.conn.state] + (if |calls| == 0 then [] else States(feature, Perform(feature, w, calls[0]), calls[1..]))
  }

  /** The application data handed to the session for sending: the 0-RTT bytes
      if the server accepted them, then everything written through the normal
      path. A write does not by itself flush these bytes to the transport. */
  function Delivered(accepted: bool, c: Conn): seq<Byte>
  {
    (if accepted then c.sentEarly else []) + c.sentApp
  }

  /** The invariant of the stream. While early data lasts, the buffer holds
      exactly the bytes sent as 0-RTT, which are exactly the bytes acknowledged
      to the caller, and the normal path has carried the replayed part
      `data[..pos]` (nothing when 0-RTT was accepted). Afterwards the bytes
      handed to the session for sending are exactly the acknowledged bytes.
      A close_notify has been sent iff the write side is closed. */
  predicate Inv(feature: bool, accepted: bool, w: World)
  {
    var c := w.conn;
    && Admissible(feature, c.state)
    && WellFormed(c.state)
    && c.closeNotifies == (if Writeable(c.state) then 0 else 1)
    && (c.state.EarlyData? ==>
          && c.state.data == c.sentEarly == w.acked
          && c.sentApp == c.state.data[..c.state.pos]
          && (accepted ==> c.state.pos == 0))
    && (!c.state.EarlyData? ==> Delivered(accepted, c) == w.acked)
  }

  lemma StartSatisfiesInv(feature: bool, offered: bool, accepted: bool)
    ensures Inv(feature, accepted, Start(feature, offered))
  {
  }

  /** The bookkeeping of one call keeps the invariant. */
  lemma AccountedKeepsInv(feature: bool, accepted: bool, w: World, c': Conn, acked: seq<Byte>)
    requires Inv(feature, accepted, w)
    requires Accounted(w.conn, c', accepted, acked)
    requires Admissible(feature, c'.state) && WellFormed(c'.state)
    requires c'.closeNotifies == (if Writeable(c'.state) then 0 else 1)
    ensures Inv(feature, accepted, World(c', w.acked + acked))
  {
    var c := w.conn;
    if c.state.EarlyData? && c'.state.EarlyData? {
      var d, p, p' := c.state.data, c.state.pos, c'.state.pos;
      assert d[..p] + d[p..p'] == d[..p'];
      assert (d + acked)[..p'] == d[..p'];
    } else if c.state.EarlyData? {
      var d, p := c.state.data, c.state.pos;
      if accepted {
        assert c'.sentApp == acked;
      } else {
        assert d[..p] + d[p..] == d;
      }
    }
  }

  /** Every call keeps the invariant, and its state is reachable from the old one. */
  lemma PerformKeepsInv(feature: bool, accepted: bool, w: World, call: Call)
    requires Inv(feature, accepted, w) && CallFits(w.conn, call)
    requires call.env.early.accepted == accepted
    ensures Inv(feature, accepted, Perform(feature, w, call))
    ensures Reaches(w.conn.state, Perform(feature, w, call).conn.state)
  {
    var c := w.conn;
    match call
    case Read(room, env) =>
      var r := PollRead(feature, c, room, env);
      AccountedKeepsInv(feature, accepted, w, r.conn, []);
      assert w.acked + [] == w.acked;
    case Write(buf, env) =>
      var r := PollWrite(feature, c, buf, env);
      AccountedKeepsInv(feature, accepted, w, r.conn, if r.out.IsReadyOk() then buf[..r.out.result.value] else []);
    case WriteVectored(bufs, env) =>
      var r := PollWriteVectored(feature, c, bufs, env);
      AccountedKeepsInv(feature, accepted, w, r.conn, Acked(bufs, r.out));
    case Flush(env) =>
      var r := PollFlush(feature, c, env);
      AccountedKeepsInv(feature, accepted, w, r.conn, []);
      assert w.acked + [] == w.acked;
    case Shutdown(env) =>
      var r := PollShutdown(feature, c, env);
      AccountedKeepsInv(feature, accepted, w, r.conn, []);
      assert w.acked + [] == w.acked;
  }

  /** The invariant holds after every feasible sequence of calls, and the final
      state is reachable from the first. */
  lemma {:induction false} RunKeepsInv(feature: bool, accepted: bool, w: World, calls: seq<Call>)
    requires Inv(feature, accepted, w) && Feasible(feature, w, calls) && SameAcceptance(accepted, calls)
    ensures Inv(feature, accepted, Run(feature, w, calls))
    ensures Reaches(w.conn.state, Run(feature, w, calls).conn.state)
    decreases |calls|
  {
    if |calls| > 0 {
      var w1 := Perform(feature, w, calls[0]);
      PerformKeepsInv(feature, accepted, w, calls[0]);
      assert SameAcceptance(accepted, calls[1..]) by {
        forall i | 0 <= i < |calls[1..]|
          ensures calls[1..][i].env.early.accepted == accepted
        {
          assert calls[1..][i] == calls[i + 1];
        }
      }
      RunKeepsInv(feature, accepted, w1, calls[1..]);
      ReachesTransitive(w.conn.state, w1.conn.state, Run(feature, w1, calls[1..]).conn.state);
    }
  }

  /** Every later state of `ts` is reachable from every earlier one. */
  predicate Ordered(ts: seq<TlsState>)
  {
    forall i, j :: 0 <= i <= j < |ts| ==> Reaches(ts[i], ts[j])
  }

  /** Along any sequence of calls every later state is reachable from every
      earlier one: a closed direction never reopens, `FullyShutdown` is never
      left, and once early data is left it never comes back. */
  lemma {:induction false} StatesOrdered(feature: bool, accepted: bool, w: World, calls: seq<Call>)
    requires Inv(feature, accepted, w) && Feasible(feature, w, calls) && SameAcceptance(accepted, calls)
    ensures Ordered(States(feature, w, calls))
    decreases |calls|
  {
    var ts := States(feature, w, calls);
    if |calls| > 0 {
      var w1 := Perform(feature, w, calls[0]);
      PerformKeepsInv(feature, accepted, w, calls[0]);
      assert SameAcceptance(accepted, calls[1..]) by {
        forall i | 0 <= i < |calls[1..]|
          ensures calls[1..][i].env.early.accepted == accepted
        {
          assert calls[1..][i] == calls[i + 1];
        }
      }
      StatesOrdered(feature, accepted, w1, calls[1..]);
      var tail := States(feature, w1, calls[1..]);
      assert Ordered(tail);
      assert ts == [w.conn.state] + tail;
      forall i, j | 0 <= i <= j < |ts|
        ensures Reaches(ts[i], ts[j])
      {
        if i == 0 && j > 0 {
          assert ts[j] == tail[j - 1] && tail[0] == w1.conn.state;
          assert Reaches(tail[0], tail[j - 1]);
          ReachesTransitive(ts[0], tail[0], tail[j - 1]);
        } else if i > 0 {
          assert ts[i] == tail[i - 1] && ts[j] == tail[j - 1];
          assert Reaches(tail[i - 1], tail[j - 1]);
        }
      }
    }
  }

  /** Early data is left exactly once: in a sequence that starts in early data
      and ends outside it there is one and only one call that leaves it. */
  lemma {:induction false} EarlyDataLeftExactlyOnce(feature: bool, accepted: bool, w: World, calls: seq<Call>)
    requires Inv(feature, accepted, w) && Feasible(feature, w, calls) && SameAcceptance(accepted, calls)
    requires w.conn.state.EarlyData? && !Run(feature, w, calls).conn.state.EarlyData?
    ensures var ts := States(feature, w, calls);
            exists k :: 0 <= k < |calls| && ts[k].EarlyData? && !ts[k + 1].EarlyData?
    ensures var ts := States(feature, w, calls);
            forall k, l :: 0 <= k < l < |calls| && ts[k].EarlyData? && !ts[k + 1].EarlyData?
                     ==> !(ts[l].EarlyData? && !ts[l + 1].EarlyData?)
  {
    var ts := States(feature, w, calls);
    StatesOrdered(feature, accepted, w, calls);
    LastStateIsRun(feature, w, calls);
    var k := FirstExit(ts);
    assert ts[k].EarlyData? && !ts[k + 1].EarlyData?;
    forall k, l | 0 <= k < l < |calls| && ts[k].EarlyData? && !ts[k + 1].EarlyData?
      ensures !(ts[l].EarlyData? && !ts[l + 1].EarlyData?)
    {
      assert Reaches(ts[k + 1], ts[l]);
    }
  }

  /** An index where a sequence of states leaves early data, given that it
      starts in early data and ends outside it. */
  function FirstExit(ts: seq<TlsState>): (k: nat)
    requires |ts| >= 2 && ts[0].EarlyData? && !ts[|ts| - 1].EarlyData?
    ensures k < |ts| - 1 && ts[k].EarlyData? && !ts[k + 1].EarlyData?
    decreases |ts|
  {
    if !ts[1].EarlyData? then 0 else 1 + FirstExit(ts[1..])
  }

  /** The last state of the trace is the state the run ends in. */
  lemma {:induction false} LastStateIsRun(feature: bool, w: World, calls: seq<Call>)
    requires Feasible(feature, w, calls)
    ensures States(feature, w, calls)[|calls|] == Run(feature, w, calls).conn.state
    decreases |calls|
  {
    if |calls| > 0 {
      LastStateIsRun(feature, Perform(feature, w, calls[0]), calls[1..]);
    }
  }

  /** End-to-end delivery of early data: starting from a fresh stream, once
      early data has been settled, the bytes handed to the session for sending
      are exactly the bytes the caller was told were written, in order and
      without duplication, whether the server accepted the 0-RTT data or it
      was replayed. */
  lemma EarlyDataDelivery(feature: bool, offered: bool, accepted: bool, calls: seq<Call>)
    requires Feasible(feature, Start(feature, offered), calls) && SameAcceptance(accepted, calls)
    requires !Run(feature, Start(feature, offered), calls).conn.state.EarlyData?
    ensures var w := Run(feature, Start(feature, offered), calls);
            Delivered(accepted, w.conn) == w.acked
  {
    StartSatisfiesInv(feature, offered, accepted);
    RunKeepsInv(feature, accepted, Start(feature, offered), calls);
  }

  /** close_notify is sent at most once over any sequence of calls, and it has
      been sent exactly when the write side is closed. */
  lemma CloseNotifyAtMostOnce(feature: bool, offered: bool, accepted: bool, calls: seq<Call>)
    requires Feasible(feature, Start(feature, offered), calls) && SameAcceptance(accepted, calls)
    ensures var c := Run(feature, Start(feature, offered), calls).conn;
            c.closeNotifies <= 1 && (c.closeNotifies == 1 <==> !Writeable(c.state))
  {
    StartSatisfiesInv(feature, offered, accepted);
    RunKeepsInv(feature, accepted, Start(feature, offered), calls);
  }
}
