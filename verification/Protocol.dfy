/** The audio datagram formats: a fixed 12-byte RTP header (section 5.1 of RFC 3550), followed either by one encoded frame
    or by a 12-byte FEC header and one parity shard. */
module Protocol {

  import opened Wrappers
  import opened ByteField
  import opened AudioFec

  type u16 = x: int | 0 <= x < 0x1_0000
  type u32 = x: int | 0 <= x < 0x1_0000_0000

  const RTP_HEADER_LEN: nat := 12
  const AUDIO_FEC_HEADER_LEN: nat := 12
  const RTP_PAYLOAD_TYPE_AUDIO: byte := 97
  const RTP_PAYLOAD_TYPE_FEC: byte := 127
  const OOS_WAIT_TIME_MS: nat := 10

  datatype RtpHeader = RtpHeader(packetType: byte, sequenceNumber: u16, timestamp: u32, ssrc: u32)

  datatype AudioFecHeader = AudioFecHeader(
    fecShardIndex: byte, payloadType: byte, baseSequenceNumber: u16, baseTimestamp: u32, ssrc: u32)

  datatype ParsedPacket =
    | Audio(rtp: RtpHeader, payload: Bytes)
    | Fec(fec: AudioFecHeader, payload: Bytes)

  datatype ProtocolError =
    | ShorterThanRtpHeader
    | UnsupportedHeaderFlags
    | EmptyPayload
    | ShorterThanFecHeader
    | UnsupportedPayloadType(packetType: byte)

  // ---------- Serial numbers ----------

  function Wrap16(x: int): u16 {
    x % 0x1_0000
  }

  function Wrap32(x: int): u32 {
    x % 0x1_0000_0000
  }

  lemma WrapSum(x: int, y: int)
    ensures Wrap16(Wrap16(x) + y) == Wrap16(x + y)
    ensures Wrap16(x) % DATA_SHARDS == x % DATA_SHARDS
  {}

  lemma WrapSum32(x: int, y: int)
    ensures Wrap32(Wrap32(x) + y) == Wrap32(x + y)
  {}

  // The two's complement reading of a 16-bit value.
  function AsSigned16(x: u16): int {
    if x < 0x8000 then x else x - 0x1_0000
  }

  predicate IsBefore16(a: u16, b: u16) {
    a != b && AsSigned16(Wrap16(a - b)) < 0
  }

  // Serial number comparison is integer comparison for positions less than half the number space apart. At exactly half,
  // where section 3.2 of RFC 1982 leaves the order undefined, each number is before the other.
  lemma IsBefore16Unwrapped(x: int, y: int)
    requires -0x8000 <= x - y <= 0x8000
    ensures IsBefore16(Wrap16(x), Wrap16(y)) <==> x < y || x - y == 0x8000
  {}

  lemma IsBefore16BothWays(a: u16, b: u16)
    ensures IsBefore16(a, b) && IsBefore16(b, a) <==> Wrap16(a - b) == 0x8000
    ensures !IsBefore16(a, b) && !IsBefore16(b, a) <==> a == b
  {}

  // ---------- Big-endian integers ----------

  function U16Bytes(x: u16): (r: Bytes)
    ensures |r| == 2
  {
    [x / 0x100, x % 0x100]
  }

  function U32Bytes(x: u32): (r: Bytes)
    ensures |r| == 4
  {
    [x / 0x100_0000, x / 0x1_0000 % 0x100, x / 0x100 % 0x100, x % 0x100]
  }

  function U16FromBytes(b: Bytes): u16
    requires |b| == 2
  {
    var high: int := b[0];
    high * 0x100 + b[1]
  }

  function U32FromBytes(b: Bytes): u32
    requires |b| == 4
  {
    var b0: int, b1: int, b2: int := b[0], b[1], b[2];
    b0 * 0x100_0000 + b1 * 0x1_0000 + b2 * 0x100 + b[3]
  }

  lemma IntegerRoundTrip16(x: u16, b: Bytes)
    requires |b| == 2
    ensures U16FromBytes(U16Bytes(x)) == x && U16Bytes(U16FromBytes(b)) == b
  {}

  lemma IntegerRoundTrip32(x: u32)
    ensures U32FromBytes(U32Bytes(x)) == x
  {
    var n: int := x;
    assert n == n / 0x100 * 0x100 + n % 0x100;
    assert n / 0x100 == n / 0x1_0000 * 0x100 + n / 0x100 % 0x100;
    assert n / 0x1_0000 == n / 0x100_0000 * 0x100 + n / 0x1_0000 % 0x100;
  }

  lemma BytesRoundTrip32(b: Bytes)
    requires |b| == 4
    ensures U32Bytes(U32FromBytes(b)) == b
  {
    var n, b0: int, b1: int, b2: int := U32FromBytes(b), b[0], b[1], b[2];
    assert n / 0x100_0000 == b0;
    assert n / 0x1_0000 == b0 * 0x100 + b1;
    assert n / 0x100 == b0 * 0x1_0000 + b1 * 0x100 + b2;
  }

  // ---------- Parsing ----------

  function ParseRtpHeader(packet: Bytes): Result<RtpHeader, ProtocolError> {
    if |packet| < RTP_HEADER_LEN then Err(ShorterThanRtpHeader)
    else if packet[0] != 0x80 || packet[1] >= 0x80 then Err(UnsupportedHeaderFlags)
    else Ok(RtpHeader(packet[1], U16FromBytes(packet[2..4]), U32FromBytes(packet[4..8]), U32FromBytes(packet[8..12])))
  }

  function ParseDatagram(packet: Bytes): Result<ParsedPacket, ProtocolError> {
    if |packet| < RTP_HEADER_LEN then Err(ShorterThanRtpHeader) else
      var rtp :- ParseRtpHeader(packet);
      var body := packet[RTP_HEADER_LEN..];
      if body == [] then Err(EmptyPayload)
      else if rtp.packetType == RTP_PAYLOAD_TYPE_AUDIO then Ok(Audio(rtp, body))
      else if rtp.packetType == RTP_PAYLOAD_TYPE_FEC then
        if |body| <= AUDIO_FEC_HEADER_LEN then Err(ShorterThanFecHeader) else
          var fec := AudioFecHeader(
            body[0], body[1], U16FromBytes(body[2..4]), U32FromBytes(body[4..8]), U32FromBytes(body[8..12]));
          Ok(Fec(fec, body[AUDIO_FEC_HEADER_LEN..]))
      else Err(UnsupportedPayloadType(rtp.packetType))
  }

  // ---------- Writing ----------

  function RtpBytes(rtp: RtpHeader): (r: Bytes)
    ensures |r| == RTP_HEADER_LEN
  {
    [0x80, rtp.packetType] + U16Bytes(rtp.sequenceNumber) + U32Bytes(rtp.timestamp) + U32Bytes(rtp.ssrc)
  }

  function FecHeaderBytes(fec: AudioFecHeader): (r: Bytes)
    ensures |r| == AUDIO_FEC_HEADER_LEN
  {
    [fec.fecShardIndex, fec.payloadType] + U16Bytes(fec.baseSequenceNumber) + U32Bytes(fec.baseTimestamp) +
    U32Bytes(fec.ssrc)
  }

  method WriteRtpHeader(rtp: RtpHeader, buffer: Bytes) returns (out: Bytes)
    ensures out == buffer + RtpBytes(rtp)
  {
    out := buffer + [0x80];
    out := out + [rtp.packetType];
    out := out + U16Bytes(rtp.sequenceNumber);
    out := out + U32Bytes(rtp.timestamp);
    out := out + U32Bytes(rtp.ssrc);
  }

  method WriteAudioPacket(rtp: RtpHeader, payload: Bytes) returns (out: Bytes)
    ensures out == RtpBytes(rtp) + payload
    ensures rtp.packetType == RTP_PAYLOAD_TYPE_AUDIO && payload != [] ==> ParseDatagram(out) == Ok(Audio(rtp, payload))
  {
    out := WriteRtpHeader(rtp, []);
    out := out + payload;
    if rtp.packetType == RTP_PAYLOAD_TYPE_AUDIO {
      RtpRoundTrip(rtp, payload);
    }
  }

  method WriteFecPacket(rtp: RtpHeader, fec: AudioFecHeader, payload: Bytes) returns (out: Bytes)
    ensures out == RtpBytes(rtp) + FecHeaderBytes(fec) + payload
    ensures rtp.packetType == RTP_PAYLOAD_TYPE_FEC && payload != [] ==> ParseDatagram(out) == Ok(Fec(fec, payload))
  {
    out := WriteRtpHeader(rtp, []);
    out := out + [fec.fecShardIndex];
    out := out + [fec.payloadType];
    out := out + U16Bytes(fec.baseSequenceNumber);
    out := out + U32Bytes(fec.baseTimestamp);
    out := out + U32Bytes(fec.ssrc);
    out := out + payload;
    assert out == RtpBytes(rtp) + FecHeaderBytes(fec) + payload;
    if rtp.packetType == RTP_PAYLOAD_TYPE_FEC && payload != [] {
      FecRoundTrip(rtp, fec, payload);
    }
  }

  // ---------- The two formats are inverse to parsing ----------

  lemma RtpRoundTrip(rtp: RtpHeader, rest: Bytes)
    requires rtp.packetType < 0x80
    ensures ParseRtpHeader(RtpBytes(rtp) + rest) == Ok(rtp)
    ensures (RtpBytes(rtp) + rest)[RTP_HEADER_LEN..] == rest
  {
    var packet := RtpBytes(rtp) + rest;
    assert packet[2..4] == U16Bytes(rtp.sequenceNumber);
    assert packet[4..8] == U32Bytes(rtp.timestamp);
    assert packet[8..12] == U32Bytes(rtp.ssrc);
    IntegerRoundTrip16(rtp.sequenceNumber, [0, 0]);
    IntegerRoundTrip32(rtp.timestamp);
    IntegerRoundTrip32(rtp.ssrc);
  }

  lemma FecRoundTrip(rtp: RtpHeader, fec: AudioFecHeader, payload: Bytes)
    requires rtp.packetType == RTP_PAYLOAD_TYPE_FEC && payload != []
    ensures ParseDatagram(RtpBytes(rtp) + FecHeaderBytes(fec) + payload) == Ok(Fec(fec, payload))
  {
    var body := FecHeaderBytes(fec) + payload;
    assert RtpBytes(rtp) + FecHeaderBytes(fec) + payload == RtpBytes(rtp) + body;
    RtpRoundTrip(rtp, body);
    assert body[2..4] == U16Bytes(fec.baseSequenceNumber);
    assert body[4..8] == U32Bytes(fec.baseTimestamp);
    assert body[8..12] == U32Bytes(fec.ssrc);
    assert body[AUDIO_FEC_HEADER_LEN..] == payload;
    IntegerRoundTrip16(fec.baseSequenceNumber, [0, 0]);
    IntegerRoundTrip32(fec.baseTimestamp);
    IntegerRoundTrip32(fec.ssrc);
  }

  lemma ParsedHeaderIsWritten(packet: Bytes)
    requires ParseRtpHeader(packet).Ok?
    ensures packet == RtpBytes(ParseRtpHeader(packet).value) + packet[RTP_HEADER_LEN..]
  {
    IntegerRoundTrip16(0, packet[2..4]);
    BytesRoundTrip32(packet[4..8]);
    BytesRoundTrip32(packet[8..12]);
  }

  // The datagrams accepted as audio are exactly those written for a non-empty payload.
  lemma AcceptedAudioIsWritten(packet: Bytes, rtp: RtpHeader, payload: Bytes)
    ensures ParseDatagram(packet) == Ok(Audio(rtp, payload)) <==>
            rtp.packetType == RTP_PAYLOAD_TYPE_AUDIO && payload != [] && packet == RtpBytes(rtp) + payload
  {
    if rtp.packetType == RTP_PAYLOAD_TYPE_AUDIO && payload != [] && packet == RtpBytes(rtp) + payload {
      RtpRoundTrip(rtp, payload);
    }
    if ParseDatagram(packet) == Ok(Audio(rtp, payload)) {
      ParsedHeaderIsWritten(packet);
    }
  }

  // The datagrams accepted as parity are exactly those written for a non-empty shard, with any RTP header: parsing does
  // not keep the RTP header of a parity datagram.
  lemma AcceptedParityIsWritten(packet: Bytes, fec: AudioFecHeader, payload: Bytes)
    ensures ParseDatagram(packet) == Ok(Fec(fec, payload)) <==>
            payload != [] && exists rtp: RtpHeader ::
              rtp.packetType == RTP_PAYLOAD_TYPE_FEC && packet == RtpBytes(rtp) + FecHeaderBytes(fec) + payload
  {
    if payload != [] && exists rtp: RtpHeader ::
      rtp.packetType == RTP_PAYLOAD_TYPE_FEC && packet == RtpBytes(rtp) + FecHeaderBytes(fec) + payload
    {
      var rtp: RtpHeader :|
        rtp.packetType == RTP_PAYLOAD_TYPE_FEC && packet == RtpBytes(rtp) + FecHeaderBytes(fec) + payload;
      FecRoundTrip(rtp, fec, payload);
    }
    if ParseDatagram(packet) == Ok(Fec(fec, payload)) {
      ParsedParityIsWritten(packet, fec, payload);
    }
  }

  // Which datagrams are accepted, and why the others are refused: shorter than the header; flags other than version 2 alone;
  // nothing after the header; a payload type of neither kind; parity with nothing after its second header.
  lemma DatagramRefusals(packet: Bytes)
    ensures ParseDatagram(packet).Ok? <==>
      |packet| > 12 && packet[0] == 0x80 && (packet[1] == 97 || (packet[1] == 127 && |packet| > 24))
    ensures ParseDatagram(packet) == Err(ShorterThanRtpHeader) <==> |packet| < 12
    ensures ParseDatagram(packet) == Err(UnsupportedHeaderFlags) <==> |packet| >= 12 && (packet[0] != 0x80 || packet[1] >= 128)
    ensures ParseDatagram(packet) == Err(EmptyPayload) <==> |packet| == 12 && packet[0] == 0x80 && packet[1] < 128
    ensures ParseDatagram(packet) == Err(ShorterThanFecHeader) <==>
      12 < |packet| <= 24 && packet[0] == 0x80 && packet[1] == 127
  {
    hide U16FromBytes, U32FromBytes;
  }

  lemma ParsedParityIsWritten(packet: Bytes, fec: AudioFecHeader, payload: Bytes)
    requires ParseDatagram(packet) == Ok(Fec(fec, payload))
    ensures ParseRtpHeader(packet).Ok? && ParseRtpHeader(packet).value.packetType == RTP_PAYLOAD_TYPE_FEC
    ensures payload != [] && packet == RtpBytes(ParseRtpHeader(packet).value) + FecHeaderBytes(fec) + payload
  {
    hide RtpBytes, ParseRtpHeader;
    ParsedHeaderIsWritten(packet);
    var body := packet[RTP_HEADER_LEN..];
    IntegerRoundTrip16(0, body[2..4]);
    BytesRoundTrip32(body[4..8]);
    BytesRoundTrip32(body[8..12]);
    assert body == FecHeaderBytes(fec) + payload;
  }
}
