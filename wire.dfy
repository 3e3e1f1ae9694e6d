/**
 * The binary layout shared by the audio server, the sending client and the
 * recording client: every integer is a signed 32-bit big-endian value
 * (network byte order) and the status of an acknowledgement is one
 * unsigned byte.
 */
module Wire {

  datatype Option<T> = None | Some(value: T)

  /** One octet on the wire. */
  type Byte = b: int | 0 <= b < 256

  /** Command numbers of the protocol. */
  const CmdAudio: int := 1
  const CmdPing: int := 99

  const Int32Min: int := -0x8000_0000
  const Int32Max: int := 0x7fff_ffff

  /** The values a signed 32-bit field can carry; packing anything else fails. */
  predicate InInt32(v: int) {
    Int32Min <= v <= Int32Max
  }

  /** A decoded (checkcode, command) header. */
  datatype Header = Header(check: int, cmd: int)

  /** A decoded (checkcode, command, status) acknowledgement. */
  datatype Ack = Ack(check: int, cmd: int, status: Byte)

  /** Two's-complement big-endian encoding of one 32-bit field. */
  function EncodeInt32(v: int): (b: seq<Byte>)
    requires InInt32(v)
    ensures |b| == 4
    ensures v < 0 <==> b[0] >= 0x80
  {
    var u := if v < 0 then v + 0x1_0000_0000 else v;
    [u / 0x100_0000, u / 0x1_0000 % 0x100, u / 0x100 % 0x100, u % 0x100]
  }

  /** Reads one 32-bit field; the top bit of the first byte is the sign. */
  function DecodeInt32(b: seq<Byte>): (v: int)
    requires |b| == 4
    ensures InInt32(v)
    ensures v < 0 <==> b[0] >= 0x80
  {
    var u := (b[0] as int) * 0x100_0000 + (b[1] as int) * 0x1_0000 + (b[2] as int) * 0x100 + (b[3] as int);
    if u > Int32Max then u - 0x1_0000_0000 else u
  }

  lemma Int32RoundTrip(v: int)
    requires InInt32(v)
    ensures DecodeInt32(EncodeInt32(v)) == v
  {
    var u := if v < 0 then v + 0x1_0000_0000 else v;
    var r0, q1 := u % 0x100, u / 0x100;
    var r1, q2 := q1 % 0x100, q1 / 0x100;
    var r2, q3 := q2 % 0x100, q2 / 0x100;
    DivModWide(u, q2, r1 * 0x100 + r0, 0x1_0000);
    DivModWide(u, q3, r2 * 0x1_0000 + r1 * 0x100 + r0, 0x100_0000);
    assert EncodeInt32(v) == [q3, r2, r1, r0];
  }

  /** Splitting off the low 16 or 24 bits of a non-negative number. */
  lemma DivModWide(u: int, q: int, r: int, d: int)
    requires d == 0x1_0000 || d == 0x100_0000
    requires 0 <= r < d && u == q * d + r
    ensures u / d == q && u % d == r
  {
    if d == 0x1_0000 {
      assert u == q * 0x1_0000 + r;
    } else {
      assert u == q * 0x100_0000 + r;
    }
  }

  lemma Int32BytesRoundTrip(b: seq<Byte>)
    requires |b| == 4
    ensures EncodeInt32(DecodeInt32(b)) == b
  {
    var b0, b1, b2, b3 := b[0] as int, b[1] as int, b[2] as int, b[3] as int;
    var u := b0 * 0x100_0000 + b1 * 0x1_0000 + b2 * 0x100 + b3;
    DivModByte(u, b0 * 0x1_0000 + b1 * 0x100 + b2, b3);
    DivModByte(b0 * 0x1_0000 + b1 * 0x100 + b2, b0 * 0x100 + b1, b2);
    DivModByte(b0 * 0x100 + b1, b0, b1);
    assert u / 0x1_0000 == b0 * 0x100 + b1;
    assert u / 0x100_0000 == b0;
    assert EncodeInt32(DecodeInt32(b)) == [b0, b1, b2, b3];
  }

  /** Splitting off the low byte of a non-negative number. */
  lemma DivModByte(u: int, q: int, r: int)
    requires 0 <= r < 0x100 && u == q * 0x100 + r
    ensures u / 0x100 == q && u % 0x100 == r
  {
  }

  /** The 8-byte header `!ii` that starts every message. */
  function EncodeHeader(check: int, cmd: int): (b: seq<Byte>)
    requires InInt32(check) && InInt32(cmd)
    ensures |b| == 8
  {
    EncodeInt32(check) + EncodeInt32(cmd)
  }

  function DecodeHeader(b: seq<Byte>): (h: Header)
    requires |b| == 8
    ensures InInt32(h.check) && InInt32(h.cmd)
  {
    Header(DecodeInt32(b[..4]), DecodeInt32(b[4..]))
  }

  lemma HeaderRoundTrip(check: int, cmd: int)
    requires InInt32(check) && InInt32(cmd)
    ensures DecodeHeader(EncodeHeader(check, cmd)) == Header(check, cmd)
  {
    var b := EncodeHeader(check, cmd);
    assert b[..4] == EncodeInt32(check);
    assert b[4..] == EncodeInt32(cmd);
    Int32RoundTrip(check);
    Int32RoundTrip(cmd);
  }

  /** Every 8 bytes are the encoding of the header they decode to. */
  lemma HeaderBytesRoundTrip(b: seq<Byte>)
    requires |b| == 8
    ensures EncodeHeader(DecodeHeader(b).check, DecodeHeader(b).cmd) == b
  {
    Int32BytesRoundTrip(b[..4]);
    Int32BytesRoundTrip(b[4..]);
    assert b == b[..4] + b[4..];
  }

  /** The 9-byte acknowledgement `!iiB`. */
  function EncodeAck(check: int, cmd: int, status: Byte): (b: seq<Byte>)
    requires InInt32(check) && InInt32(cmd)
    ensures |b| == 9 && b[8] == status
  {
    EncodeHeader(check, cmd) + [status]
  }

  function DecodeAck(b: seq<Byte>): (a: Ack)
    requires |b| == 9
    ensures InInt32(a.check) && InInt32(a.cmd) && a.status == b[8]
  {
    var h := DecodeHeader(b[..8]);
    Ack(h.check, h.cmd, b[8])
  }

  lemma AckRoundTrip(check: int, cmd: int, status: Byte)
    requires InInt32(check) && InInt32(cmd)
    ensures DecodeAck(EncodeAck(check, cmd, status)) == Ack(check, cmd, status)
  {
    assert EncodeAck(check, cmd, status)[..8] == EncodeHeader(check, cmd);
    HeaderRoundTrip(check, cmd);
  }

  lemma AckBytesRoundTrip(b: seq<Byte>)
    requires |b| == 9
    ensures EncodeAck(DecodeAck(b).check, DecodeAck(b).cmd, DecodeAck(b).status) == b
  {
    HeaderBytesRoundTrip(b[..8]);
    assert b == b[..8] + [b[8]];
  }

  /** The acknowledgement the server answers a ping with: status 0. */
  function PingAck(check: int): (b: seq<Byte>)
    requires InInt32(check)
  {
    EncodeAck(check, CmdPing, 0)
  }

  lemma PingAckLayout(check: int)
    requires InInt32(check)
    ensures |PingAck(check)| == 9
    ensures PingAck(check)[..4] == EncodeInt32(check)
    ensures DecodeAck(PingAck(check)) == Ack(check, CmdPing, 0)
  {
    AckRoundTrip(check, CmdPing, 0);
  }

  /** An audio push: header (checkcode, 1), then the payload size, then the payload. */
  function EncodeAudio(check: int, data: seq<Byte>): (p: seq<Byte>)
    requires InInt32(check) && InInt32(|data|)
    ensures |p| == 12 + |data|
    ensures p[12..] == data
  {
    EncodeHeader(check, CmdAudio) + EncodeInt32(|data|) + data
  }

  lemma AudioFrameLayout(check: int, data: seq<Byte>)
    requires InInt32(check) && InInt32(|data|)
    ensures DecodeHeader(EncodeAudio(check, data)[..8]) == Header(check, CmdAudio)
    ensures DecodeInt32(EncodeAudio(check, data)[8..12]) == |data|
  {
    var p := EncodeAudio(check, data);
    assert p[..8] == EncodeHeader(check, CmdAudio);
    assert p[8..12] == EncodeInt32(|data|);
    HeaderRoundTrip(check, CmdAudio);
    Int32RoundTrip(|data|);
  }

  /** Every chunk's length fits the size field, and the checkcode fits its field. */
  predicate Packable(check: int, chunks: seq<seq<Byte>>) {
    InInt32(check) && forall i :: 0 <= i < |chunks| ==> InInt32(|chunks[i]|)
  }

  lemma PackableTail(check: int, chunks: seq<seq<Byte>>)
    requires Packable(check, chunks) && chunks != []
    ensures Packable(check, chunks[1..])
  {
    forall i | 0 <= i < |chunks[1..]| ensures InInt32(|chunks[1..][i]|) {
      assert chunks[1..][i] == chunks[i + 1];
    }
  }

  /** The audio pushes of `chunks`, in order, back to back. */
  function AudioStream(check: int, chunks: seq<seq<Byte>>): (s: seq<Byte>)
    requires Packable(check, chunks)
  {
    if chunks == [] then [] else EncodeAudio(check, chunks[0]) + AudioStream(check, chunks[1..])
  }

  /** The pushes of the first n chunks: the first push, then the pushes of the next n - 1. */
  lemma AudioStreamPrefix(check: int, chunks: seq<seq<Byte>>, n: nat)
    requires Packable(check, chunks) && 0 < n <= |chunks|
    ensures Packable(check, chunks[..n]) && Packable(check, chunks[1..])
    ensures AudioStream(check, chunks[..n]) == EncodeAudio(check, chunks[0]) + AudioStream(check, chunks[1..][..n - 1])
  {
    PackableTail(check, chunks);
    assert chunks[..n][0] == chunks[0];
    assert chunks[..n][1..] == chunks[1..][..n - 1];
  }
}
