/**
 * The recording client: it pings the server, checks the acknowledgement,
 * then parses the server's stream header by header and appends every
 * accepted audio payload to a WAV file, counting the bytes it saved.
 *
 * The socket is abstracted away: `incoming` is everything the server sends
 * (its end is the server closing the connection), and the WAV file is the
 * byte sequence of the payloads appended to it.
 */
module Recorder {
  import opened Wire
  import Server

  /** The acknowledgement of the ping is valid: right checkcode, command 99 and status 0. */
  predicate AckValid(check: int, ack: seq<Byte>)
    requires |ack| == 9
  {
    var a := DecodeAck(ack);
    a.check == check && a.cmd == CmdPing && a.status == 0
  }

  /** The valid acknowledgements are exactly the bytes of the server's ping answer. */
  lemma AckValidIsPingAck(check: int, ack: seq<Byte>)
    requires |ack| == 9
    ensures AckValid(check, ack) <==> InInt32(check) && ack == PingAck(check)
  {
    AckBytesRoundTrip(ack);
    if InInt32(check) {
      AckRoundTrip(check, CmdPing, 0);
    }
  }

  /** How the recording ends. */
  datatype RecvEnd =
    | ClosedByServer          // a read came up short (`IncompleteReadError`)
    | BadHeader(received: int)
    | PackError               // the ping could not be packed

  /** The payloads accepted, in order, and how the receive loop ended. */
  datatype Capture = Capture(frames: seq<seq<Byte>>, end: RecvEnd)

  /** The receive loop as a reference definition. */
  function Receive(check: int, input: seq<Byte>): (c: Capture)
    decreases |input|
  {
    if |input| < 8 then Capture([], ClosedByServer)
    else
      var h := DecodeHeader(input[..8]);
      if h.check != check then Capture([], BadHeader(h.check))
      else if h.cmd != CmdAudio then
        // another command: nothing more is read for it
        Receive(check, input[8..])
      else if |input| < 12 then Capture([], ClosedByServer)
      else
        var size := DecodeInt32(input[8..12]);
        if size <= 0 then Receive(check, input[12..])
        else if |input| < 12 + size then Capture([], ClosedByServer)
        else
          var c := Receive(check, input[12 + size..]);
          Capture([input[12..12 + size]] + c.frames, c.end)
  }

  /** The payloads back to back, as the WAV file receives them. */
  function Concat(frames: seq<seq<Byte>>): (wav: seq<Byte>) {
    if frames == [] then [] else frames[0] + Concat(frames[1..])
  }

  lemma {:induction false} ConcatAppend(a: seq<seq<Byte>>, b: seq<seq<Byte>>)
    ensures Concat(a + b) == Concat(a) + Concat(b)
    decreases |a|
  {
    if a != [] {
      assert (a + b)[1..] == a[1..] + b;
      ConcatAppend(a[1..], b);
    } else {
      assert a + b == b;
    }
  }

  /** Every accepted payload is non-empty. */
  lemma {:induction false} AcceptedFramesNonEmpty(check: int, input: seq<Byte>)
    ensures forall i :: 0 <= i < |Receive(check, input).frames| ==> |Receive(check, input).frames[i]| > 0
    decreases |input|
  {
    if |input| >= 8 {
      var h := DecodeHeader(input[..8]);
      if h.check == check {
        if h.cmd != CmdAudio {
          AcceptedFramesNonEmpty(check, input[8..]);
        } else if |input| >= 12 {
          var size := DecodeInt32(input[8..12]);
          if size <= 0 {
            AcceptedFramesNonEmpty(check, input[12..]);
          } else if |input| >= 12 + size {
            AcceptedFramesNonEmpty(check, input[12 + size..]);
          }
        }
      }
    }
  }

  /** A header with another checkcode stops the loop. */
  lemma MismatchedHeaderStops(check: int, c: int, cmd: int, rest: seq<Byte>)
    requires InInt32(c) && InInt32(cmd) && c != check
    ensures Receive(check, EncodeHeader(c, cmd) + rest) == Capture([], BadHeader(c))
  {
    assert (EncodeHeader(c, cmd) + rest)[..8] == EncodeHeader(c, cmd);
    HeaderRoundTrip(c, cmd);
  }

  /** A command other than 1 consumes its 8 header bytes and nothing else. */
  lemma UnknownCommandSkipsHeaderOnly(check: int, cmd: int, rest: seq<Byte>)
    requires InInt32(check) && InInt32(cmd) && cmd != CmdAudio
    ensures Receive(check, EncodeHeader(check, cmd) + rest) == Receive(check, rest)
  {
    var input := EncodeHeader(check, cmd) + rest;
    assert input[..8] == EncodeHeader(check, cmd) && input[8..] == rest;
    HeaderRoundTrip(check, cmd);
  }

  /** A size of zero or less is skipped without reading a payload and saves nothing. */
  lemma NonPositiveSizeSkipped(check: int, size: int, rest: seq<Byte>)
    requires InInt32(check) && InInt32(size) && size <= 0
    ensures Receive(check, EncodeHeader(check, CmdAudio) + EncodeInt32(size) + rest) == Receive(check, rest)
  {
    var input := EncodeHeader(check, CmdAudio) + EncodeInt32(size) + rest;
    assert input[..8] == EncodeHeader(check, CmdAudio);
    assert input[8..12] == EncodeInt32(size) && input[12..] == rest;
    HeaderRoundTrip(check, CmdAudio);
    Int32RoundTrip(size);
  }

  /**
   * A positive size reads exactly that many payload bytes, saves them as one
   * frame, and the loop goes on right after them.
   */
  lemma AudioFrameAccepted(check: int, data: seq<Byte>, rest: seq<Byte>)
    requires InInt32(check) && InInt32(|data|) && |data| > 0
    ensures var c := Receive(check, rest);
            Receive(check, EncodeAudio(check, data) + rest) == Capture([data] + c.frames, c.end)
  {
    var input := EncodeAudio(check, data) + rest;
    AudioFrameLayout(check, data);
    assert input[..8] == EncodeAudio(check, data)[..8];
    assert input[8..12] == EncodeAudio(check, data)[8..12];
    assert input[12..12 + |data|] == data;
    assert input[12 + |data|..] == rest;
  }

  /**
   * Round trip: the audio pushes the server frames for non-empty chunks,
   * followed by the server closing the connection, are recorded as exactly
   * those chunks in order.
   */
  lemma {:induction false} ReceiveRoundTrip(check: int, chunks: seq<seq<Byte>>, tail: seq<Byte>)
    requires Packable(check, chunks) && |tail| < 8
    requires forall i :: 0 <= i < |chunks| ==> |chunks[i]| > 0
    ensures Receive(check, AudioStream(check, chunks) + tail) == Capture(chunks, ClosedByServer)
    decreases |chunks|
  {
    if chunks != [] {
      var rest := AudioStream(check, chunks[1..]) + tail;
      assert AudioStream(check, chunks) + tail == EncodeAudio(check, chunks[0]) + rest;
      AudioFrameAccepted(check, chunks[0], rest);
      assert Packable(check, chunks[1..]) by {
        forall i | 0 <= i < |chunks[1..]| ensures InInt32(|chunks[1..][i]|) {
          assert chunks[1..][i] == chunks[i + 1];
        }
      }
      ReceiveRoundTrip(check, chunks[1..], tail);
      assert [chunks[0]] + chunks[1..] == chunks;
    }
  }

  /**
   * Across the two programs: the server answers the recorder's ping with a
   * valid acknowledgement, and the recorder then saves exactly the chunks
   * the server broadcasts after it.
   */
  lemma ServerStreamRecorded(check: int, chunks: seq<seq<Byte>>, tail: seq<Byte>)
    requires Packable(check, chunks) && |tail| < 8
    requires forall i :: 0 <= i < |chunks| ==> |chunks[i]| > 0
    ensures Server.Serve(check, false, EncodeHeader(check, CmdPing), {}, 0) == Server.Session(PingAck(check), Server.ShortRead)
    ensures var incoming := PingAck(check) + AudioStream(check, chunks) + tail;
            |incoming| >= 9 && AckValid(check, incoming[..9])
            && Receive(check, incoming[9..]) == Capture(chunks, ClosedByServer)
  {
    Server.PingsAnswered(check, 1, [], 0);
    assert Server.Repeat(EncodeHeader(check, CmdPing), 1) + [] == EncodeHeader(check, CmdPing);
    assert Server.Repeat(PingAck(check), 1) == PingAck(check);
    var incoming := PingAck(check) + AudioStream(check, chunks) + tail;
    assert incoming[..9] == PingAck(check);
    assert incoming[9..] == AudioStream(check, chunks) + tail;
    AckValidIsPingAck(check, PingAck(check));
    ReceiveRoundTrip(check, chunks, tail);
  }

  /**
   * The server registers a connection before it reads the ping, so a
   * broadcast can reach the recorder before the ping's answer. The recorder
   * then takes the first 9 bytes of that audio push as the acknowledgement
   * and finds it invalid (its command is 1, not 99).
   */
  lemma BroadcastBeforeAckRejected(check: int, data: seq<Byte>)
    requires InInt32(check) && InInt32(|data|)
    ensures var p := EncodeAudio(check, data);
            |p| >= 9 && !AckValid(check, p[..9])
  {
    var p := EncodeAudio(check, data);
    assert p[..9][..8] == EncodeHeader(check, CmdAudio);
    HeaderRoundTrip(check, CmdAudio);
  }

  /** One turn of `Receive` at offset `pos` of the stream, with the offsets written out. */
  lemma ReceiveAt(check: int, input: seq<Byte>, pos: nat)
    requires pos + 8 <= |input|
    ensures var h := DecodeHeader(input[pos..pos + 8]);
            Receive(check, input[pos..]) ==
              if h.check != check then Capture([], BadHeader(h.check))
              else if h.cmd != CmdAudio then Receive(check, input[pos + 8..])
              else if |input| < pos + 12 then Capture([], ClosedByServer)
              else
                var size := DecodeInt32(input[pos + 8..pos + 12]);
                if size <= 0 then Receive(check, input[pos + 12..])
                else if |input| < pos + 12 + size then Capture([], ClosedByServer)
                else
                  var c := Receive(check, input[pos + 12 + size..]);
                  Capture([input[pos + 12..pos + 12 + size]] + c.frames, c.end)
  {
    var s := input[pos..];
    assert s[..8] == input[pos..pos + 8];
    assert s[8..] == input[pos + 8..];
    if |s| >= 12 {
      assert s[8..12] == input[pos + 8..pos + 12];
      assert s[12..] == input[pos + 12..];
      var size := DecodeInt32(s[8..12]);
      if 0 < size && 12 + size <= |s| {
        assert s[12..12 + size] == input[pos + 12..pos + 12 + size];
        assert s[12 + size..] == input[pos + 12 + size..];
      }
    }
  }

  /** Saving one more payload extends both the frame list and the file. */
  lemma FrameSaved(saved: seq<seq<Byte>>, data: seq<Byte>, later: seq<seq<Byte>>)
    ensures Concat(saved + [data]) == Concat(saved) + data
    ensures (saved + [data]) + later == saved + ([data] + later)
  {
    ConcatAppend(saved, [data]);
    assert Concat([data]) == data + Concat([]);
  }

  /** The receive loop with its `total_bytes` accumulator. */
  method ReceiveAudio(check: int, input: seq<Byte>) returns (wav: seq<Byte>, totalBytes: int, end: RecvEnd)
    ensures wav == Concat(Receive(check, input).frames) && end == Receive(check, input).end
    ensures totalBytes == |wav|
  {
    wav, totalBytes := [], 0;
    ghost var saved: seq<seq<Byte>> := [];
    var pos := 0;
    while true
      invariant 0 <= pos <= |input|
      invariant wav == Concat(saved) && totalBytes == |wav|
      invariant var c := Receive(check, input[pos..]);
                Receive(check, input) == Capture(saved + c.frames, c.end)
      decreases |input| - pos
    {
      assert saved + [] == saved;
      if |input| - pos < 8 {
        return wav, totalBytes, ClosedByServer;
      }
      ReceiveAt(check, input, pos);
      var h := DecodeHeader(input[pos..pos + 8]);
      if h.check != check {
        return wav, totalBytes, BadHeader(h.check);
      }
      if h.cmd != CmdAudio {
        pos := pos + 8;
        continue;
      }
      if |input| - pos < 12 {
        return wav, totalBytes, ClosedByServer;
      }
      var size := DecodeInt32(input[pos + 8..pos + 12]);
      if size <= 0 {
        pos := pos + 12;
        continue;
      }
      if |input| - pos < 12 + size {
        return wav, totalBytes, ClosedByServer;
      }
      var data := input[pos + 12..pos + 12 + size];
      FrameSaved(saved, data, Receive(check, input[pos + 12 + size..]).frames);
      saved := saved + [data];
      wav := wav + data;
      totalBytes := totalBytes + |data|;
      pos := pos + 12 + size;
    }
  }

  /** What one run of the recorder did. */
  datatype SaveReport = SaveReport(pingSent: seq<Byte>, ackValid: Option<bool>, wav: seq<Byte>, totalBytes: int, end: RecvEnd)

  /**
   * `audio_client_save`: send the ping, read and check its acknowledgement
   * (an invalid one is only reported), then record until the stream ends.
   */
  method SaveSession(check: int, incoming: seq<Byte>) returns (r: SaveReport)
    ensures !InInt32(check) ==> r == SaveReport([], None, [], 0, PackError)
    ensures InInt32(check) ==> r.pingSent == EncodeHeader(check, CmdPing)
    ensures InInt32(check) && |incoming| < 9 ==> r == SaveReport(r.pingSent, None, [], 0, ClosedByServer)
    ensures InInt32(check) && |incoming| >= 9 ==>
              && r.ackValid == Some(AckValid(check, incoming[..9]))
              && r.wav == Concat(Receive(check, incoming[9..]).frames)
              && r.end == Receive(check, incoming[9..]).end
              && r.totalBytes == |r.wav|
  {
    if !InInt32(check) {
      return SaveReport([], None, [], 0, PackError);
    }
    var ping := EncodeHeader(check, CmdPing);
    if |incoming| < 9 {
      return SaveReport(ping, None, [], 0, ClosedByServer);
    }
    var valid := AckValid(check, incoming[..9]);
    var wav, totalBytes, end := ReceiveAudio(check, incoming[9..]);
    r := SaveReport(ping, Some(valid), wav, totalBytes, end);
  }
}
