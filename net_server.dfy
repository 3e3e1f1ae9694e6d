/**
 * The audio server: one handler per accepted connection that answers pings,
 * a broadcast step that frames one queued chunk and writes it to every
 * registered client, the registry of clients, and start/stop.
 *
 * Sockets are abstracted away: what a connection sends is a finite byte
 * sequence (its end is a short read), what the server writes to a
 * connection is accumulated in `sentTo`, and the failure of a write or a
 * drain is an input chosen by the environment.
 */
module Server {
  import opened Wire
  import opened SendQueue
  import opened Lifecycle

  /** A connection's stream writer; connections are told apart by identity only. */
  type Writer = nat

  /** Why a connection handler leaves its read loop. */
  datatype CloseReason =
    | StopRequested            // the server's stop event was set
    | ShortRead                // fewer than 8 bytes before the end of the stream
    | BadCheckcode(received: int)
    | AckWriteFailed

  /** What a handler writes to its connection, and why it stops. */
  datatype Session = Session(out: seq<Byte>, reason: CloseReason)

  /**
   * The handler's read loop as a reference definition: `input` is what the
   * peer sends, `acked` counts the acknowledgements already written, and
   * the acknowledgement numbered k fails to be written when k is in
   * `failingAcks`.
   */
  function Serve(check: int, stop: bool, input: seq<Byte>, failingAcks: set<nat>, acked: nat): (s: Session)
    decreases |input|
  {
    if stop then Session([], StopRequested)
    else if |input| < 8 then Session([], ShortRead)
    else
      var h := DecodeHeader(input[..8]);
      if h.check != check then Session([], BadCheckcode(h.check))
      else if h.cmd == CmdPing then
        if acked in failingAcks then Session([], AckWriteFailed)
        else
          var s := Serve(check, stop, input[8..], failingAcks, acked + 1);
          Session(PingAck(check) + s.out, s.reason)
      else
        // any other command is ignored; no payload is skipped
        Serve(check, stop, input[8..], failingAcks, acked)
  }

  /** `out` is a run of the server's ping acknowledgements, one after another. */
  ghost predicate OnlyPingAcks(check: int, out: seq<Byte>)
    decreases |out|
  {
    out == [] || (InInt32(check) && |out| >= 9 && out[..9] == PingAck(check) && OnlyPingAcks(check, out[9..]))
  }

  /** `n` copies of `b`, back to back. */
  function Repeat(b: seq<Byte>, n: nat): (r: seq<Byte>)
    ensures |r| == n * |b|
  {
    if n == 0 then [] else b + Repeat(b, n - 1)
  }

  /** The handler writes nothing but ping acknowledgements (9 bytes each, status 0). */
  lemma {:induction false} ServeWritesOnlyPingAcks(check: int, stop: bool, input: seq<Byte>, failingAcks: set<nat>, acked: nat)
    ensures OnlyPingAcks(check, Serve(check, stop, input, failingAcks, acked).out)
    ensures |Serve(check, stop, input, failingAcks, acked).out| % 9 == 0
    decreases |input|
  {
    if !stop && |input| >= 8 {
      var h := DecodeHeader(input[..8]);
      if h.check == check {
        if h.cmd != CmdPing {
          ServeWritesOnlyPingAcks(check, stop, input[8..], failingAcks, acked);
        } else if acked !in failingAcks {
          ServeWritesOnlyPingAcks(check, stop, input[8..], failingAcks, acked + 1);
          PingAckThen(check, Serve(check, stop, input[8..], failingAcks, acked + 1).out);
        }
      }
    }
  }

  /** One more acknowledgement in front of a run of acknowledgements is still a run. */
  lemma PingAckThen(check: int, out: seq<Byte>)
    requires InInt32(check) && OnlyPingAcks(check, out) && |out| % 9 == 0
    ensures OnlyPingAcks(check, PingAck(check) + out) && |PingAck(check) + out| % 9 == 0
  {
    var r := PingAck(check) + out;
    assert r[9..] == out;
    assert r[..9] == PingAck(check);
  }

  /** A header whose checkcode is not the server's ends the loop with nothing written. */
  lemma MismatchedHeaderClosesSilently(check: int, c: int, cmd: int, rest: seq<Byte>, failingAcks: set<nat>, acked: nat)
    requires InInt32(c) && InInt32(cmd) && c != check
    ensures Serve(check, false, EncodeHeader(c, cmd) + rest, failingAcks, acked) == Session([], BadCheckcode(c))
  {
    var input := EncodeHeader(c, cmd) + rest;
    assert input[..8] == EncodeHeader(c, cmd);
    HeaderRoundTrip(c, cmd);
  }

  /** A ping with the right checkcode is answered by exactly one acknowledgement, and the loop goes on. */
  lemma PingIsAcknowledged(check: int, rest: seq<Byte>, failingAcks: set<nat>, acked: nat)
    requires InInt32(check) && acked !in failingAcks
    ensures var s := Serve(check, false, rest, failingAcks, acked + 1);
            Serve(check, false, EncodeHeader(check, CmdPing) + rest, failingAcks, acked)
            == Session(PingAck(check) + s.out, s.reason)
  {
    var input := EncodeHeader(check, CmdPing) + rest;
    assert input[..8] == EncodeHeader(check, CmdPing);
    assert input[8..] == rest;
    HeaderRoundTrip(check, CmdPing);
  }

  /** Any other command writes nothing and consumes only its 8 header bytes. */
  lemma UnknownCommandConsumesHeaderOnly(check: int, cmd: int, rest: seq<Byte>, failingAcks: set<nat>, acked: nat)
    requires InInt32(check) && InInt32(cmd) && cmd != CmdPing
    ensures Serve(check, false, EncodeHeader(check, cmd) + rest, failingAcks, acked)
         == Serve(check, false, rest, failingAcks, acked)
  {
    var input := EncodeHeader(check, cmd) + rest;
    assert input[..8] == EncodeHeader(check, cmd);
    assert input[8..] == rest;
    HeaderRoundTrip(check, cmd);
  }

  /** `n` correct pings followed by a partial header are answered by `n` acknowledgements, then a short read. */
  lemma {:induction false} PingsAnswered(check: int, n: nat, tail: seq<Byte>, acked: nat)
    requires InInt32(check) && |tail| < 8
    ensures Serve(check, false, Repeat(EncodeHeader(check, CmdPing), n) + tail, {}, acked)
         == Session(Repeat(PingAck(check), n), ShortRead)
  {
    if n > 0 {
      var rest := Repeat(EncodeHeader(check, CmdPing), n - 1) + tail;
      assert Repeat(EncodeHeader(check, CmdPing), n) + tail == EncodeHeader(check, CmdPing) + rest;
      PingIsAcknowledged(check, rest, {}, acked);
      PingsAnswered(check, n - 1, tail, acked + 1);
    }
  }

  /**
   * An audio push sent to the server is a known desynchronisation: the
   * server reads its 8-byte header as an unknown command, then takes the
   * size field and the first payload bytes as the next header, whose
   * checkcode is the payload length.
   */
  lemma AudioPushDesynchronises(check: int, data: seq<Byte>, rest: seq<Byte>, failingAcks: set<nat>, acked: nat)
    requires InInt32(check) && InInt32(|data|) && |data| >= 4 && |data| != check
    ensures Serve(check, false, EncodeAudio(check, data) + rest, failingAcks, acked)
         == Session([], BadCheckcode(|data|))
  {
    var input := EncodeAudio(check, data) + rest;
    assert input == EncodeHeader(check, CmdAudio) + (EncodeInt32(|data|) + data + rest);
    UnknownCommandConsumesHeaderOnly(check, CmdAudio, EncodeInt32(|data|) + data + rest, failingAcks, acked);
    var next := EncodeInt32(|data|) + data + rest;
    assert next[..8][..4] == EncodeInt32(|data|);
    Int32RoundTrip(|data|);
  }

  /** One turn of `Serve` at offset `pos` of the stream, with the offsets written out. */
  lemma ServeAt(check: int, input: seq<Byte>, pos: nat, failingAcks: set<nat>, acked: nat)
    requires pos + 8 <= |input|
    ensures var h := DecodeHeader(input[pos..pos + 8]);
            Serve(check, false, input[pos..], failingAcks, acked) ==
              if h.check != check then Session([], BadCheckcode(h.check))
              else if h.cmd == CmdPing then
                if acked in failingAcks then Session([], AckWriteFailed)
                else
                  var s := Serve(check, false, input[pos + 8..], failingAcks, acked + 1);
                  Session(PingAck(check) + s.out, s.reason)
              else Serve(check, false, input[pos + 8..], failingAcks, acked)
  {
    assert input[pos..][..8] == input[pos..pos + 8];
    assert input[pos..][8..] == input[pos + 8..];
  }

  lemma AckAppended(out: seq<Byte>, ack: seq<Byte>, later: seq<Byte>)
    ensures out + (ack + later) == (out + ack) + later
  {
  }

  /** The handler loop of one connection; it reads 8-byte headers until it has a reason to stop. */
  method ServeConnection(check: int, stop: bool, input: seq<Byte>, failingAcks: set<nat>)
    returns (out: seq<Byte>, reason: CloseReason)
    ensures Session(out, reason) == Serve(check, stop, input, failingAcks, 0)
  {
    var pos, acked := 0, 0;
    out := [];
    while !stop
      invariant 0 <= pos <= |input|
      invariant var s := Serve(check, stop, input[pos..], failingAcks, acked);
                Serve(check, stop, input, failingAcks, 0) == Session(out + s.out, s.reason)
      decreases |input| - pos
    {
      if |input| - pos < 8 {
        reason := ShortRead;
        return;
      }
      ServeAt(check, input, pos, failingAcks, acked);
      var h := DecodeHeader(input[pos..pos + 8]);
      if h.check != check {
        reason := BadCheckcode(h.check);
        return;
      }
      if h.cmd == CmdPing {
        if acked in failingAcks {
          reason := AckWriteFailed;
          return;
        }
        AckAppended(out, PingAck(check), Serve(check, false, input[pos + 8..], failingAcks, acked + 1).out);
        out := out + PingAck(check);
        acked := acked + 1;
      }
      pos := pos + 8;
    }
    reason := StopRequested;
  }

  /**
   * The write and drain passes of one broadcast over a snapshot of the
   * clients. A client whose write raises is marked dead; the clients whose
   * write succeeded are drained, and those whose drain raises are marked
   * dead too. Returns the clients written to and the dead list in the order
   * it is built.
   */
  method FanOut(snapshot: set<Writer>, writeFails: set<Writer>, drainFails: set<Writer>)
    returns (written: set<Writer>, dead: seq<Writer>)
    ensures written == snapshot - writeFails
    ensures forall w :: w in dead <==> w in snapshot && (w in writeFails || w in drainFails)
    ensures forall i, j :: 0 <= i < j < |dead| ==> dead[i] != dead[j]
    ensures forall i, j :: 0 <= i < j < |dead| && dead[j] in writeFails ==> dead[i] in writeFails
  {
    written, dead := {}, [];
    var pending := snapshot;
    while pending != {}
      invariant pending <= snapshot
      invariant written == (snapshot - pending) - writeFails
      invariant forall w :: w in dead <==> w in snapshot - pending && w in writeFails
      invariant forall i :: 0 <= i < |dead| ==> dead[i] in writeFails
      invariant forall i, j :: 0 <= i < j < |dead| ==> dead[i] != dead[j]
      decreases pending
    {
      var w :| w in pending;
      if w in writeFails {
        dead := dead + [w];
      } else {
        written := written + {w};
      }
      pending := pending - {w};
    }
    var k := |dead|;
    pending := snapshot;
    while pending != {}
      invariant pending <= snapshot
      invariant k <= |dead|
      invariant forall i :: 0 <= i < k ==> dead[i] in writeFails
      invariant forall i :: k <= i < |dead| ==> dead[i] !in writeFails
      invariant forall w :: w in dead <==> w in snapshot && (w in writeFails || (w !in pending && w in drainFails))
      invariant forall i, j :: 0 <= i < j < |dead| ==> dead[i] != dead[j]
      decreases pending
    {
      var w :| w in pending;
      if w !in dead && w in drainFails {
        dead := dead + [w];
      }
      pending := pending - {w};
    }
  }

  /** The connections' outputs after `packet` is written to each writer of `written`. */
  function Appended(sentTo: map<Writer, seq<Byte>>, written: set<Writer>, packet: seq<Byte>): map<Writer, seq<Byte>>
  {
    map w | w in sentTo :: if w in written then sentTo[w] + packet else sentTo[w]
  }

  /** What one turn of the broadcast loop did. */
  datatype Step =
    | Finished                 // the stop event was set; the loop ends
    | Idle                     // the queue was empty
    | Dropped                  // a chunk was taken while nobody was connected
    | Crashed                  // packing the frame raised; the broadcast task ends
    | Delivered(packet: seq<Byte>, pruned: seq<Writer>)

  class NetAudioServer {
    const check: int
    const sendQueue: ChunkQueue
    const worker: Worker
    /** The registry of connected clients. */
    var clients: set<Writer>
    /** Everything written so far to each connection the server has accepted. */
    var sentTo: map<Writer, seq<Byte>>
    /** The broadcast task is running. */
    var broadcasting: bool

    ghost predicate Valid()
      reads this, sendQueue
    {
      sendQueue.Valid() && clients <= sentTo.Keys
    }

    constructor (sendQueue: ChunkQueue, check: int)
      requires sendQueue.Valid()
      ensures Valid() && fresh(worker)
      ensures this.sendQueue == sendQueue && this.check == check
      ensures clients == {} && sentTo == map[] && !broadcasting
      ensures !worker.started && !worker.alive && !worker.stopRequested
    {
      this.sendQueue := sendQueue;
      this.check := check;
      worker := new Worker();
      clients, sentTo, broadcasting := {}, map[], false;
    }

    /** `start`: launches the server thread unless it is already running. */
    method Start() returns (launched: bool)
      modifies worker
      ensures launched == !old(worker.Running())
      ensures launched ==> worker.Running() && !worker.stopRequested
      ensures !launched ==> worker.started == old(worker.started) && worker.alive == old(worker.alive)
                            && worker.stopRequested == old(worker.stopRequested)
    {
      launched := worker.Start();
    }

    /** The server thread opens the listening socket; on success it starts the broadcast task, otherwise it ends. */
    method Listen(bindOk: bool)
      requires worker.alive
      modifies this, worker
      ensures clients == old(clients) && sentTo == old(sentTo)
      ensures broadcasting == (bindOk || old(broadcasting))
      ensures worker.alive == bindOk
      ensures worker.started == old(worker.started) && worker.stopRequested == old(worker.stopRequested)
    {
      if bindOk {
        broadcasting := true;
      } else {
        worker.Exit();
      }
    }

    /** The shutdown path of the server thread: cancel the broadcast task, close and forget every client. */
    method Shutdown()
      requires worker.alive && worker.stopRequested
      modifies this, worker
      ensures clients == {} && !broadcasting && !worker.alive
      ensures sentTo == old(sentTo)
      ensures worker.started == old(worker.started) && worker.stopRequested
    {
      broadcasting := false;
      clients := {};
      worker.Exit();
    }

    /**
     * `stop`: sets the stop event and joins the server thread with a timeout;
     * `exitsInTime` says whether the thread ran its shutdown path within it.
     */
    method Stop(exitsInTime: bool)
      modifies this, worker
      ensures worker.stopRequested && !worker.started
      ensures old(worker.Running()) && exitsInTime ==> clients == {} && !broadcasting && !worker.alive
      ensures !(old(worker.Running()) && exitsInTime) ==>
                clients == old(clients) && broadcasting == old(broadcasting) && worker.alive == old(worker.alive)
      ensures sentTo == old(sentTo)
    {
      if worker.Running() && exitsInTime {
        worker.stopRequested := true;
        Shutdown();
      }
      worker.Stop(exitsInTime);
    }

    /** Entry of a connection handler: the writer joins the registry. */
    method Register(w: Writer)
      requires Valid() && w !in sentTo
      modifies this
      ensures Valid()
      ensures clients == old(clients) + {w} && sentTo == old(sentTo)[w := []]
      ensures broadcasting == old(broadcasting)
    {
      clients := clients + {w};
      sentTo := sentTo[w := []];
    }

    /** Exit of a connection handler, on every path: the writer leaves the registry. */
    method Unregister(w: Writer)
      requires Valid()
      modifies this
      ensures Valid()
      ensures clients == old(clients) - {w} && sentTo == old(sentTo)
      ensures broadcasting == old(broadcasting)
    {
      clients := clients - {w};
    }

    /**
     * A whole connection handler run without interleaving: register, run the
     * read loop on what the peer sends, write its acknowledgements, unregister.
     */
    method HandleClient(w: Writer, input: seq<Byte>, failingAcks: set<nat>) returns (reason: CloseReason)
      requires Valid() && w !in sentTo
      modifies this
      ensures Valid()
      ensures clients == old(clients) && w !in clients && broadcasting == old(broadcasting)
      ensures var s := Serve(check, worker.stopRequested, input, failingAcks, 0);
              sentTo == old(sentTo)[w := s.out] && reason == s.reason
    {
      Register(w);
      var out;
      out, reason := ServeConnection(check, worker.stopRequested, input, failingAcks);
      assert sentTo[w] + out == out;
      sentTo := sentTo[w := sentTo[w] + out];
      Unregister(w);
    }

    /** Discards every dead client from the registry, one after another. */
    method Prune(dead: seq<Writer>)
      requires Valid()
      modifies this
      ensures Valid()
      ensures clients == old(clients) - (set i | 0 <= i < |dead| :: dead[i])
      ensures sentTo == old(sentTo) && broadcasting == old(broadcasting)
    {
      var i := 0;
      while i < |dead|
        invariant 0 <= i <= |dead|
        invariant clients == old(clients) - (set j | 0 <= j < i :: dead[j])
        invariant sentTo == old(sentTo) && broadcasting == old(broadcasting)
        invariant Valid()
      {
        clients := clients - {dead[i]};
        i := i + 1;
      }
    }

    /**
     * One turn of the broadcast loop: take one chunk; drop it when nobody is
     * connected; otherwise frame it once, write the same packet to every
     * client of a snapshot of the registry, and prune those whose write or
     * drain failed.
     */
    method BroadcastStep(writeFails: set<Writer>, drainFails: set<Writer>) returns (step: Step)
      requires Valid() && broadcasting
      modifies this, sendQueue
      ensures Valid()
      ensures worker.stopRequested ==>
                step == Finished && !broadcasting && clients == old(clients) && sentTo == old(sentTo)
                && sendQueue.items == old(sendQueue.items)
      ensures !worker.stopRequested && old(sendQueue.items) == [] ==>
                step == Idle && broadcasting && clients == old(clients) && sentTo == old(sentTo)
                && sendQueue.items == []
      ensures !worker.stopRequested && old(sendQueue.items) != [] ==>
                sendQueue.items == old(sendQueue.items)[1..]
      ensures !worker.stopRequested && old(sendQueue.items) != [] && old(clients) == {} ==>
                step == Dropped && broadcasting && clients == {} && sentTo == old(sentTo)
      ensures !worker.stopRequested && old(sendQueue.items) != [] && old(clients) != {} ==>
                var data := old(sendQueue.items)[0];
                if !InInt32(check) || !InInt32(|data|) then
                  step == Crashed && !broadcasting && clients == old(clients) && sentTo == old(sentTo)
                else
                  var packet := EncodeAudio(check, data);
                  && step.Delivered? && step.packet == packet && broadcasting
                  && clients == old(clients) - (writeFails + drainFails)
                  && (forall w :: w in step.pruned <==> w in old(clients) && (w in writeFails || w in drainFails))
                  && sentTo.Keys == old(sentTo).Keys
                  && (forall w :: w in old(clients) && w !in writeFails ==> sentTo[w] == old(sentTo)[w] + packet)
                  && (forall w :: w in sentTo && !(w in old(clients) && w !in writeFails) ==> sentTo[w] == old(sentTo)[w])
    {
      if worker.stopRequested {
        broadcasting := false;
        return Finished;
      }
      var item := sendQueue.GetNowait();
      if item.None? {
        return Idle;
      }
      var data := item.value;
      if clients == {} {
        return Dropped;
      }
      if !InInt32(check) || !InInt32(|data|) {
        broadcasting := false;
        return Crashed;
      }
      var packet := EncodeAudio(check, data);
      var written, dead := FanOut(clients, writeFails, drainFails);
      sentTo := Appended(sentTo, written, packet);
      Prune(dead);
      step := Delivered(packet, dead);
    }
  }
}
