/**
 * The sending client: it connects to one server, optionally pings it, then
 * sends every dequeued chunk as an audio push, optionally waiting for a
 * 9-byte acknowledgement after each, and reports what happens through
 * signals.
 *
 * The connection is abstracted away: `incoming` is everything the server
 * sends back (its end is a short read), `chunks` is the sequence of chunks
 * the loop dequeues before the stop event is set, and a `Link` says which
 * writes fail.
 */
module Client {
  import opened Wire
  import opened Lifecycle

  /** The signals the client reports to its owner, in order. */
  datatype Signal =
    | NetConnected
    | NetConnectFail
    | NetPingOk(status: Byte)
    | NetSendFail
    | NetAckNonzero(status: Byte)
    | NetDisconnected

  /**
   * How the network behaves: whether connecting works, whether writing or
   * draining the ping fails, and which audio pushes (numbered from 0 in
   * dequeue order) fail to be written or drained.
   */
  datatype Link = Link(connects: bool, pingWriteFails: bool, failingFrames: set<nat>)

  /** The ping exchange: bytes delivered, signals, and what is left of the server's stream. */
  datatype PingRun = PingRun(wire: seq<Byte>, signals: seq<Signal>, rest: seq<Byte>)

  /** Why the send loop ends. */
  datatype LoopEnd =
    | StopRequested   // the stop event was set after the last chunk
    | SendFailed      // a write, drain or acknowledgement read failed
    | AckMismatch     // an acknowledgement carried another checkcode
    | PackFailed      // packing a header or size raised outside the loop's handler

  datatype LoopRun = LoopRun(wire: seq<Byte>, signals: seq<Signal>, end: LoopEnd)

  datatype SenderReport = SenderReport(wire: seq<Byte>, signals: seq<Signal>)

  /**
   * The optional ping: an 8-byte request, then a 9-byte acknowledgement of
   * which only the status byte is used. Any failure is reported and the
   * session goes on.
   */
  function Ping(check: int, writeFails: bool, incoming: seq<Byte>): (p: PingRun)
  {
    if !InInt32(check) || writeFails then PingRun([], [NetSendFail], incoming)
    else if |incoming| < 9 then PingRun(EncodeHeader(check, CmdPing), [NetSendFail], [])
    else PingRun(EncodeHeader(check, CmdPing), [NetPingOk(incoming[8])], incoming[9..])
  }

  function Then(wire: seq<Byte>, signals: seq<Signal>, r: LoopRun): (t: LoopRun) {
    LoopRun(wire + r.wire, signals + r.signals, r.end)
  }

  lemma ThenThen(w1: seq<Byte>, s1: seq<Signal>, w2: seq<Byte>, s2: seq<Signal>, r: LoopRun)
    ensures Then(w1, s1, Then(w2, s2, r)) == Then(w1 + w2, s1 + s2, r)
  {
    assert w1 + (w2 + r.wire) == (w1 + w2) + r.wire;
    assert s1 + (s2 + r.signals) == (s1 + s2) + r.signals;
  }

  /** The send loop as a reference definition; `sent` numbers the next push. */
  function SendLoop(check: int, waitAck: bool, incoming: seq<Byte>, chunks: seq<seq<Byte>>,
                    failingFrames: set<nat>, sent: nat): (l: LoopRun)
    decreases |chunks|
  {
    if chunks == [] then LoopRun([], [], StopRequested)
    else if !InInt32(check) || !InInt32(|chunks[0]|) then LoopRun([], [], PackFailed)
    else if sent in failingFrames then LoopRun([], [NetSendFail], SendFailed)
    else
      var frame := EncodeAudio(check, chunks[0]);
      if !waitAck then
        Then(frame, [], SendLoop(check, waitAck, incoming, chunks[1..], failingFrames, sent + 1))
      else if |incoming| < 9 then LoopRun(frame, [NetSendFail], SendFailed)
      else
        var ack := DecodeAck(incoming[..9]);
        if ack.check != check then LoopRun(frame, [NetSendFail], AckMismatch)
        else
          var nonzero := if ack.status != 0 then [NetAckNonzero(ack.status)] else [];
          Then(frame, nonzero, SendLoop(check, waitAck, incoming[9..], chunks[1..], failingFrames, sent + 1))
  }

  /** A whole session: connect, optional ping, send loop, and the closing signals. */
  function Sender(check: int, waitAck: bool, doPing: bool, link: Link, incoming: seq<Byte>,
                  chunks: seq<seq<Byte>>): (r: SenderReport)
  {
    if !link.connects then SenderReport([], [NetConnectFail])
    else
      var p := if doPing then Ping(check, link.pingWriteFails, incoming) else PingRun([], [], incoming);
      var l := SendLoop(check, waitAck, p.rest, chunks, link.failingFrames, 0);
      // a packing error escapes the session; the thread reports it after the session's own close
      var closing := if l.end == PackFailed then [NetDisconnected, NetSendFail] else [NetDisconnected];
      SenderReport(p.wire + l.wire, [NetConnected] + p.signals + l.signals + closing)
  }

  /** Reports of nonzero acknowledgement statuses, in order. */
  function NonzeroReports(statuses: seq<Byte>): (signals: seq<Signal>) {
    if statuses == [] then []
    else (if statuses[0] != 0 then [NetAckNonzero(statuses[0])] else []) + NonzeroReports(statuses[1..])
  }

  /** A server answering each push with an acknowledgement carrying the given status. */
  function AckStream(check: int, statuses: seq<Byte>): (acks: seq<Byte>)
    requires InInt32(check)
  {
    if statuses == [] then [] else EncodeAck(check, CmdAudio, statuses[0]) + AckStream(check, statuses[1..])
  }

  /** The loop never signals the end of the session itself, and fails to pack only on an unpackable chunk. */
  lemma {:induction false} LoopSignals(check: int, waitAck: bool, incoming: seq<Byte>, chunks: seq<seq<Byte>>,
                                       failingFrames: set<nat>, sent: nat)
    ensures NetDisconnected !in SendLoop(check, waitAck, incoming, chunks, failingFrames, sent).signals
    ensures SendLoop(check, waitAck, incoming, chunks, failingFrames, sent).end == PackFailed ==> !Packable(check, chunks)
    decreases |chunks|
  {
    if chunks != [] && InInt32(check) && InInt32(|chunks[0]|) && sent !in failingFrames {
      var rest := if waitAck && |incoming| >= 9 then incoming[9..] else incoming;
      LoopSignals(check, waitAck, rest, chunks[1..], failingFrames, sent + 1);
      if !Packable(check, chunks[1..]) {
        var i :| 0 <= i < |chunks[1..]| && !InInt32(|chunks[1..][i]|);
        assert chunks[i + 1] == chunks[1..][i];
      }
    }
  }

  /**
   * When the connection is made and every chunk can be packed,
   * `net_disconnected` is signalled exactly once, and last. A failed
   * connection signals only `net_connect_fail`.
   */
  lemma DisconnectSignalledLast(check: int, waitAck: bool, doPing: bool, link: Link, incoming: seq<Byte>,
                                chunks: seq<seq<Byte>>)
    ensures var r := Sender(check, waitAck, doPing, link, incoming, chunks);
            link.connects && Packable(check, chunks) ==>
              |r.signals| >= 2 && r.signals[0] == NetConnected && r.signals[|r.signals| - 1] == NetDisconnected
              && NetDisconnected !in r.signals[..|r.signals| - 1]
    ensures !link.connects ==> Sender(check, waitAck, doPing, link, incoming, chunks).signals == [NetConnectFail]
  {
    if link.connects {
      var p := if doPing then Ping(check, link.pingWriteFails, incoming) else PingRun([], [], incoming);
      LoopSignals(check, waitAck, p.rest, chunks, link.failingFrames, 0);
      var l := SendLoop(check, waitAck, p.rest, chunks, link.failingFrames, 0);
      var r := Sender(check, waitAck, doPing, link, incoming, chunks);
      if Packable(check, chunks) {
        assert r.signals[..|r.signals| - 1] == [NetConnected] + p.signals + l.signals;
      }
    }
  }

  /** The ping request is exactly the 8-byte header (checkcode, 99), sent first. */
  lemma PingRequestLayout(check: int, waitAck: bool, link: Link, incoming: seq<Byte>, chunks: seq<seq<Byte>>)
    requires link.connects && !link.pingWriteFails && InInt32(check)
    ensures var w := Sender(check, waitAck, true, link, incoming, chunks).wire;
            |w| >= 8 && w[..8] == EncodeHeader(check, CmdPing) && DecodeHeader(w[..8]) == Header(check, CmdPing)
  {
    HeaderRoundTrip(check, CmdPing);
  }

  /** Of the ping's acknowledgement only the status byte matters: its checkcode and command are not checked. */
  lemma PingAckStatusOnly(check: int, waitAck: bool, link: Link, a: seq<Byte>, b: seq<Byte>, chunks: seq<seq<Byte>>)
    requires InInt32(check) && !link.pingWriteFails
    requires |a| >= 9 && |b| >= 9 && a[8] == b[8] && a[9..] == b[9..]
    ensures Sender(check, waitAck, true, link, a, chunks) == Sender(check, waitAck, true, link, b, chunks)
  {
  }

  /** Without `wait_ack` nothing is read from the server during the loop. */
  lemma {:induction false} NoAckReadWithoutWaitAck(check: int, a: seq<Byte>, b: seq<Byte>, chunks: seq<seq<Byte>>,
                                                   failingFrames: set<nat>, sent: nat)
    ensures SendLoop(check, false, a, chunks, failingFrames, sent) == SendLoop(check, false, b, chunks, failingFrames, sent)
    decreases |chunks|
  {
    if chunks != [] {
      NoAckReadWithoutWaitAck(check, a, b, chunks[1..], failingFrames, sent + 1);
    }
  }

  /** With every write succeeding and no acknowledgements awaited, each dequeued chunk goes out as one audio push, in order. */
  lemma {:induction false} EveryChunkPushed(check: int, incoming: seq<Byte>, chunks: seq<seq<Byte>>, sent: nat)
    requires Packable(check, chunks)
    ensures SendLoop(check, false, incoming, chunks, {}, sent) == LoopRun(AudioStream(check, chunks), [], StopRequested)
    decreases |chunks|
  {
    if chunks != [] {
      assert Packable(check, chunks[1..]) by {
        forall i | 0 <= i < |chunks[1..]| ensures InInt32(|chunks[1..][i]|) {
          assert chunks[1..][i] == chunks[i + 1];
        }
      }
      EveryChunkPushed(check, incoming, chunks[1..], sent + 1);
    }
  }

  /**
   * Every way the ping can fail (the checkcode cannot be packed, the write or
   * drain raises, or fewer than 9 bytes come back) is reported with one
   * `net_send_fail`, and the send loop then runs as usual on what is left of
   * the server's stream: all of it when nothing was read, nothing after a
   * short read.
   */
  lemma FailedPingDoesNotEndSession(check: int, waitAck: bool, link: Link, incoming: seq<Byte>, chunks: seq<seq<Byte>>)
    requires link.connects
    requires !InInt32(check) || link.pingWriteFails || |incoming| < 9
    ensures var unsent := !InInt32(check) || link.pingWriteFails;
            var l := SendLoop(check, waitAck, if unsent then incoming else [], chunks, link.failingFrames, 0);
            var closing := if l.end == PackFailed then [NetDisconnected, NetSendFail] else [NetDisconnected];
            Sender(check, waitAck, true, link, incoming, chunks)
            == SenderReport((if unsent then [] else EncodeHeader(check, CmdPing)) + l.wire,
                            [NetConnected, NetSendFail] + l.signals + closing)
  {
  }

  /** After a failed ping, with no acknowledgements awaited and no push failing, every chunk is still pushed. */
  lemma FailedPingStillPushesEveryChunk(check: int, pingWriteFails: bool, incoming: seq<Byte>, chunks: seq<seq<Byte>>)
    requires Packable(check, chunks) && (pingWriteFails || |incoming| < 9)
    ensures Sender(check, false, true, Link(true, pingWriteFails, {}), incoming, chunks)
         == SenderReport((if pingWriteFails then [] else EncodeHeader(check, CmdPing)) + AudioStream(check, chunks),
                         [NetConnected, NetSendFail, NetDisconnected])
  {
    EveryChunkPushed(check, if pingWriteFails then incoming else [], chunks, 0);
  }

  /**
   * Without `wait_ack`, the first push whose write or drain raises ends the
   * loop: the pushes before it have gone out, `net_send_fail` is signalled,
   * and nothing is pushed after it.
   */
  lemma {:induction false} WriteFailureEndsLoop(check: int, incoming: seq<Byte>, chunks: seq<seq<Byte>>,
                                                failingFrames: set<nat>, sent: nat, k: nat)
    requires Packable(check, chunks) && sent <= k < sent + |chunks|
    requires k in failingFrames && forall j :: sent <= j < k ==> j !in failingFrames
    ensures SendLoop(check, false, incoming, chunks, failingFrames, sent)
         == LoopRun(AudioStream(check, chunks[..k - sent]), [NetSendFail], SendFailed)
    decreases |chunks|
  {
    if k > sent {
      PackableTail(check, chunks);
      WriteFailureEndsLoop(check, incoming, chunks[1..], failingFrames, sent + 1, k);
      AudioStreamPrefix(check, chunks, k - sent);
    } else {
      assert chunks[..0] == [];
    }
  }

  /** With `wait_ack`, one push answered by an acknowledgement with the right checkcode, and the loop goes on. */
  lemma AcknowledgedPush(check: int, status: Byte, rest: seq<Byte>, chunks: seq<seq<Byte>>, failingFrames: set<nat>, sent: nat)
    requires chunks != [] && InInt32(check) && InInt32(|chunks[0]|) && sent !in failingFrames
    ensures SendLoop(check, true, EncodeAck(check, CmdAudio, status) + rest, chunks, failingFrames, sent)
         == Then(EncodeAudio(check, chunks[0]), if status != 0 then [NetAckNonzero(status)] else [],
                 SendLoop(check, true, rest, chunks[1..], failingFrames, sent + 1))
  {
    var acks := EncodeAck(check, CmdAudio, status) + rest;
    assert acks[..9] == EncodeAck(check, CmdAudio, status);
    assert acks[9..] == rest;
    AckRoundTrip(check, CmdAudio, status);
  }

  /**
   * With `wait_ack`, the first push whose write or drain raises ends the
   * loop likewise: the pushes before it went out and were acknowledged, their
   * nonzero statuses are reported, then `net_send_fail`.
   */
  lemma {:induction false} WriteFailureAfterAcksEndsLoop(check: int, statuses: seq<Byte>, tail: seq<Byte>,
                                                         chunks: seq<seq<Byte>>, failingFrames: set<nat>, sent: nat)
    requires Packable(check, chunks) && |statuses| < |chunks|
    requires sent + |statuses| in failingFrames && forall j :: sent <= j < sent + |statuses| ==> j !in failingFrames
    ensures SendLoop(check, true, AckStream(check, statuses) + tail, chunks, failingFrames, sent)
         == LoopRun(AudioStream(check, chunks[..|statuses|]), NonzeroReports(statuses) + [NetSendFail], SendFailed)
    decreases |chunks|
  {
    if statuses == [] {
      assert AckStream(check, statuses) + tail == tail;
      assert chunks[..0] == [];
    } else {
      var rest := AckStream(check, statuses[1..]) + tail;
      assert AckStream(check, statuses) + tail == EncodeAck(check, CmdAudio, statuses[0]) + rest;
      var nonzero := if statuses[0] != 0 then [NetAckNonzero(statuses[0])] else [];
      AcknowledgedPush(check, statuses[0], rest, chunks, failingFrames, sent);
      PackableTail(check, chunks);
      WriteFailureAfterAcksEndsLoop(check, statuses[1..], tail, chunks[1..], failingFrames, sent + 1);
      AudioStreamPrefix(check, chunks, |statuses|);
      var later := AudioStream(check, chunks[1..][..|statuses| - 1]);
      assert SendLoop(check, true, rest, chunks[1..], failingFrames, sent + 1)
          == LoopRun(later, NonzeroReports(statuses[1..]) + [NetSendFail], SendFailed);
      assert nonzero + (NonzeroReports(statuses[1..]) + [NetSendFail]) == NonzeroReports(statuses) + [NetSendFail];
    }
  }

  /**
   * With `wait_ack`, when the server's acknowledgements run out (its stream
   * ends before 9 bytes), the push that waited for one is the last: the
   * loop signals `net_send_fail` and ends.
   */
  lemma {:induction false} ShortAckEndsLoop(check: int, statuses: seq<Byte>, tail: seq<Byte>, chunks: seq<seq<Byte>>, sent: nat)
    requires Packable(check, chunks) && |statuses| < |chunks| && |tail| < 9
    ensures SendLoop(check, true, AckStream(check, statuses) + tail, chunks, {}, sent)
         == LoopRun(AudioStream(check, chunks[..|statuses| + 1]), NonzeroReports(statuses) + [NetSendFail], SendFailed)
    decreases |chunks|
  {
    var acks := AckStream(check, statuses) + tail;
    if statuses == [] {
      assert acks == tail;
      assert chunks[..1] == [chunks[0]];
      assert AudioStream(check, chunks[..1]) == EncodeAudio(check, chunks[0]) + AudioStream(check, []);
    } else {
      assert acks[..9] == EncodeAck(check, CmdAudio, statuses[0]);
      assert acks[9..] == AckStream(check, statuses[1..]) + tail;
      AckRoundTrip(check, CmdAudio, statuses[0]);
      PackableTail(check, chunks);
      ShortAckEndsLoop(check, statuses[1..], tail, chunks[1..], sent + 1);
      AudioStreamPrefix(check, chunks, |statuses| + 1);
    }
  }

  /**
   * A checkcode that cannot be packed makes the first push raise outside the
   * loop's handler: the session's own close signals `net_disconnected`, and
   * the thread then reports `net_send_fail` after it, so `net_disconnected`
   * is not the last signal. Nothing reaches the wire.
   */
  lemma PackErrorReportedAfterDisconnect(check: int, waitAck: bool, doPing: bool, link: Link, incoming: seq<Byte>,
                                         chunks: seq<seq<Byte>>)
    requires link.connects && !InInt32(check) && chunks != []
    ensures Sender(check, waitAck, doPing, link, incoming, chunks)
         == SenderReport([], [NetConnected] + (if doPing then [NetSendFail] else []) + [NetDisconnected, NetSendFail])
  {
  }

  /**
   * With `wait_ack`, acknowledgements with the right checkcode keep the loop
   * going whatever their status; a nonzero status is only reported.
   */
  lemma {:induction false} NonzeroStatusOnlyReported(check: int, statuses: seq<Byte>, chunks: seq<seq<Byte>>, sent: nat)
    requires Packable(check, chunks) && |statuses| == |chunks|
    ensures SendLoop(check, true, AckStream(check, statuses), chunks, {}, sent)
         == LoopRun(AudioStream(check, chunks), NonzeroReports(statuses), StopRequested)
    decreases |chunks|
  {
    if chunks != [] {
      var acks := AckStream(check, statuses);
      assert acks[..9] == EncodeAck(check, CmdAudio, statuses[0]);
      assert acks[9..] == AckStream(check, statuses[1..]);
      AckRoundTrip(check, CmdAudio, statuses[0]);
      PackableTail(check, chunks);
      NonzeroStatusOnlyReported(check, statuses[1..], chunks[1..], sent + 1);
    }
  }

  /** With `wait_ack`, an acknowledgement carrying another checkcode ends the loop after that push. */
  lemma AckMismatchEndsLoop(check: int, c: int, cmd: int, status: Byte, rest: seq<Byte>, chunks: seq<seq<Byte>>, sent: nat)
    requires Packable(check, chunks) && chunks != [] && InInt32(c) && InInt32(cmd) && c != check
    ensures SendLoop(check, true, EncodeAck(c, cmd, status) + rest, chunks, {}, sent)
         == LoopRun(EncodeAudio(check, chunks[0]), [NetSendFail], AckMismatch)
  {
    var incoming := EncodeAck(c, cmd, status) + rest;
    assert incoming[..9] == EncodeAck(c, cmd, status);
    AckRoundTrip(c, cmd, status);
  }

  /** The send loop of `_net_sender`: one audio push per dequeued chunk, until a failure or the stop event. */
  method SendFrames(check: int, waitAck: bool, incoming: seq<Byte>, chunks: seq<seq<Byte>>, failingFrames: set<nat>)
    returns (wire: seq<Byte>, signals: seq<Signal>, end: LoopEnd)
    ensures LoopRun(wire, signals, end) == SendLoop(check, waitAck, incoming, chunks, failingFrames, 0)
  {
    wire, signals, end := [], [], StopRequested;
    var reader := incoming;
    var i := 0;
    var done := false;
    while i < |chunks| && !done
      invariant 0 <= i <= |chunks|
      invariant !done ==> SendLoop(check, waitAck, incoming, chunks, failingFrames, 0)
                          == Then(wire, signals, SendLoop(check, waitAck, reader, chunks[i..], failingFrames, i))
      invariant done ==> SendLoop(check, waitAck, incoming, chunks, failingFrames, 0) == LoopRun(wire, signals, end)
      invariant !done ==> end == StopRequested
      decreases |chunks| - i, if done then 0 else 1
    {
      var data := chunks[i];
      ghost var rest := SendLoop(check, waitAck, reader, chunks[i..], failingFrames, i);
      assert chunks[i..][0] == data && chunks[i..][1..] == chunks[i + 1..];
      if !InInt32(check) || !InInt32(|data|) {
        assert rest == LoopRun([], [], PackFailed);
        end, done := PackFailed, true;
      } else if i in failingFrames {
        assert rest == LoopRun([], [NetSendFail], SendFailed);
        signals, end, done := signals + [NetSendFail], SendFailed, true;
      } else {
        var frame := EncodeAudio(check, data);
        if !waitAck {
          ThenThen(wire, signals, frame, [], SendLoop(check, waitAck, reader, chunks[i + 1..], failingFrames, i + 1));
          wire := wire + frame;
          assert signals + [] == signals;
          i := i + 1;
        } else if |reader| < 9 {
          assert rest == LoopRun(frame, [NetSendFail], SendFailed);
          wire, signals, end, done := wire + frame, signals + [NetSendFail], SendFailed, true;
        } else {
          var ack := DecodeAck(reader[..9]);
          if ack.check != check {
            assert rest == LoopRun(frame, [NetSendFail], AckMismatch);
            wire, signals, end, done := wire + frame, signals + [NetSendFail], AckMismatch, true;
          } else {
            var nonzero := if ack.status != 0 then [NetAckNonzero(ack.status)] else [];
            ThenThen(wire, signals, frame, nonzero, SendLoop(check, waitAck, reader[9..], chunks[i + 1..], failingFrames, i + 1));
            wire, signals := wire + frame, signals + nonzero;
            reader := reader[9..];
            i := i + 1;
          }
        }
      }
    }
    assert !done ==> chunks[i..] == [] && wire + [] == wire && signals + [] == signals;
  }

  /** `_net_sender`: connect, optional ping, the send loop, and the closing signals. */
  method NetSender(check: int, waitAck: bool, doPing: bool, link: Link, incoming: seq<Byte>, chunks: seq<seq<Byte>>)
    returns (wire: seq<Byte>, signals: seq<Signal>)
    ensures SenderReport(wire, signals) == Sender(check, waitAck, doPing, link, incoming, chunks)
  {
    if !link.connects {
      return [], [NetConnectFail];
    }
    wire, signals := [], [NetConnected];
    var reader := incoming;
    if doPing {
      if !InInt32(check) || link.pingWriteFails {
        signals := signals + [NetSendFail];
      } else {
        wire := wire + EncodeHeader(check, CmdPing);
        if |reader| < 9 {
          signals := signals + [NetSendFail];
          reader := [];
        } else {
          signals := signals + [NetPingOk(reader[8])];
          reader := reader[9..];
        }
      }
    }
    ghost var p := if doPing then Ping(check, link.pingWriteFails, incoming) else PingRun([], [], incoming);
    assert wire == p.wire && signals == [NetConnected] + p.signals && reader == p.rest;
    var loopWire, loopSignals, end := SendFrames(check, waitAck, reader, chunks, link.failingFrames);
    wire := wire + loopWire;
    signals := signals + loopSignals + [NetDisconnected];
    if end == PackFailed {
      // the packing error propagates out of the session and the thread reports it
      signals := signals + [NetSendFail];
      assert signals == [NetConnected] + p.signals + loopSignals + [NetDisconnected, NetSendFail];
    }
  }

  /** What the client's thread is asked to run. */
  datatype SessionConfig = SessionConfig(check: int, waitAck: bool, doPing: bool)

  class NetClient {
    const worker: Worker
    var config: SessionConfig

    constructor ()
      ensures fresh(worker) && !worker.started && !worker.alive && !worker.stopRequested
    {
      worker := new Worker();
      config := SessionConfig(0, true, true);
    }

    /** `connect`: starts a session thread unless the current one is still running. */
    method Connect(cfg: SessionConfig) returns (launched: bool)
      modifies this, worker
      ensures launched == !old(worker.Running())
      ensures launched ==> worker.Running() && !worker.stopRequested && config == cfg
      ensures !launched ==> config == old(config) && worker.started == old(worker.started)
                            && worker.alive == old(worker.alive) && worker.stopRequested == old(worker.stopRequested)
    {
      launched := worker.Start();
      if launched {
        config := cfg;
      }
    }

    /** The session thread runs `_net_sender` with its arguments and then ends. */
    method Run(link: Link, incoming: seq<Byte>, chunks: seq<seq<Byte>>) returns (wire: seq<Byte>, signals: seq<Signal>)
      requires worker.Running()
      modifies worker
      ensures SenderReport(wire, signals) == Sender(config.check, config.waitAck, config.doPing, link, incoming, chunks)
      ensures !worker.alive && worker.started == old(worker.started) && worker.stopRequested == old(worker.stopRequested)
    {
      wire, signals := NetSender(config.check, config.waitAck, config.doPing, link, incoming, chunks);
      worker.Exit();
    }

    /** `disconnect`: sets the stop event, joins the thread with a timeout and drops it. */
    method Disconnect(exitsInTime: bool)
      modifies worker
      ensures worker.stopRequested && !worker.started
      ensures worker.alive == (old(worker.alive) && !(old(worker.started) && exitsInTime))
    {
      worker.Stop(exitsInTime);
    }
  }
}
