/** The BNO08x host driver: the receive and send buffers, the per-channel
    sequence numbers, frame assembly, the command encoders and the dispatch of
    a received frame by channel and report ID. */
module Driver {
  import opened Bytes
  import BnoConstants
  import opened BnoCommon
  import opened Packet
  import opened SensorParsing
  import opened Interface

  const NumChannels: nat := 6
  const PacketRecvBufLen: nat := 32766
  const PacketSendBufLen: nat := 256

  /** The driver's errors. A transport error is carried through unchanged. */
  datatype DriverError =
    | CommError(ComError)
    | NoDataAvailable
    | ParseError(BnoPacketParseError)
    | UnknownData

  /** `map_err(DriverError::CommError)` on a transport result. */
  function MapComError(o: Outcome<(), ComError>): (r: Outcome<(), DriverError>)
    ensures r.Ok? <==> o.Ok?
    ensures o.Err? ==> r == Err(CommError(o.error))
  {
    match o
    case Ok(u) => Ok(u)
    case Err(e) => Err(CommError(e))
    case Panic(i, n) => Panic(i, n)
  }

  /** `map_err(DriverError::ParseError)` on the sensor-report decoder's result. */
  function MapParseError(o: Outcome<BnoPacket, BnoPacketParseError>): (r: Outcome<BnoPacket, DriverError>)
    ensures o.Ok? ==> r == Ok(o.value)
    ensures o.Err? ==> r == Err(ParseError(o.error))
    ensures o.Panic? ==> r == Panic(o.index, o.length)
  {
    match o
    case Ok(p) => Ok(p)
    case Err(e) => Err(ParseError(e))
    case Panic(i, n) => Panic(i, n)
  }

  // ---------------------------------------------------------------------
  // Sequence numbers

  /** The counter after one more frame. The source's `+= 1` on a `u8` panics
      on overflow in a debug build; this model takes the wrapping reading. */
  function NextSequenceNumber(s: Byte): (t: Byte)
    ensures t == (s + 1) % 0x100
    ensures s < 0xFF ==> t == s + 1
  {
    if s == 0xFF then 0 else s + 1
  }

  /** The sequence-number table after a frame on `channel`. */
  function Bump(table: seq<Byte>, channel: nat): (t: seq<Byte>)
    requires channel < |table|
    ensures |t| == |table| && t[channel] == NextSequenceNumber(table[channel])
    ensures forall c :: 0 <= c < |table| && c != channel ==> t[c] == table[c]
  {
    table[channel := NextSequenceNumber(table[channel])]
  }

  predicate ValidChannels(table: seq<Byte>, channels: seq<Byte>) {
    forall i :: 0 <= i < |channels| ==> channels[i] < |table|
  }

  /** The table after frames on `channels`, in order. */
  function SendAll(table: seq<Byte>, channels: seq<Byte>): (t: seq<Byte>)
    requires ValidChannels(table, channels)
    ensures |t| == |table|
    decreases |channels|
  {
    if channels == [] then table else SendAll(Bump(table, channels[0]), channels[1..])
  }

  /** How many of `channels` are `c`. */
  function Count(channels: seq<Byte>, c: nat): nat
    decreases |channels|
  {
    if channels == [] then 0 else (if channels[0] == c then 1 else 0) + Count(channels[1..], c)
  }

  lemma ModAddOne(a: nat, b: nat)
    ensures ((a + 1) % 0x100 + b) % 0x100 == (a + 1 + b) % 0x100
  {
    var q := (a + 1) / 0x100;
    assert a + 1 == 0x100 * q + (a + 1) % 0x100;
    assert (a + 1 + b) == 0x100 * q + ((a + 1) % 0x100 + b);
  }

  /** After any sequence of sends, each channel's counter has advanced by the
      number of frames sent on that channel, modulo 256, and by nothing else. */
  lemma {:induction false} SequenceNumbersCount(table: seq<Byte>, channels: seq<Byte>, c: nat)
    requires ValidChannels(table, channels) && c < |table|
    ensures SendAll(table, channels)[c] == (table[c] + Count(channels, c)) % 0x100
    decreases |channels|
  {
    if channels != [] {
      var t := Bump(table, channels[0]);
      SequenceNumbersCount(t, channels[1..], c);
      if channels[0] == c {
        ModAddOne(table[c], Count(channels[1..], c));
      }
    }
  }

  /** From a freshly constructed driver, `n` frames on one channel leave its
      counter at `n mod 256` and every other counter at 0. */
  lemma FreshCounters(channels: seq<Byte>, c: nat)
    requires ValidChannels(seq(NumChannels, _ => 0), channels) && c < NumChannels
    ensures SendAll(seq(NumChannels, _ => 0), channels)[c] == Count(channels, c) % 0x100
  {
    SequenceNumbersCount(seq(NumChannels, _ => 0), channels, c);
  }

  // ---------------------------------------------------------------------
  // Frames and command bodies

  /** The frame `send_packet` assembles in the send buffer: the 4-byte header
      `[len & 0xFF, (len >> 8) as u8, channel, seqNum]`, then the body. */
  function Frame(channel: Byte, seqNum: Byte, body: seq<Byte>): (f: seq<Byte>)
    requires |body| + BnoConstants.PacketHeaderLength <= PacketSendBufLen
    ensures |f| == |body| + BnoConstants.PacketHeaderLength
    ensures LeU16(f[0], f[1]) == |f|
    ensures f[2] == channel && f[3] == seqNum && f[4..] == body
  {
    var len := |body| + BnoConstants.PacketHeaderLength;
    [len % 0x100, (len / 0x100) % 0x100, channel, seqNum] + body
  }

  /** The header parser reads back the length of every frame the driver sends,
      whatever its channel, sequence number and body. */
  lemma FrameHeaderRoundTrip(channel: Byte, seqNum: Byte, body: seq<Byte>)
    requires |body| + BnoConstants.PacketHeaderLength <= PacketSendBufLen
    ensures ParsePacketHeader(Frame(channel, seqNum, body)) == |body| + BnoConstants.PacketHeaderLength
  {
    var f := Frame(channel, seqNum, body);
    assert LeU16(f[0], f[1]) % 0x8000 == |f|;
  }

  /** The 17-byte set-feature command: command byte, report ID, zero feature
      flags and change sensitivity, the report interval and the batch interval
      in microseconds (little-endian `u32`), and zero sensor-specific config.
      Milliseconds below 2^16 times 1000 always fit in a `u32`. */
  function SetFeatureCommand(reportId: Byte, millisBetweenReports: U16, millisMaxDelay: U16): (body: seq<Byte>)
    ensures |body| == 17
    ensures body[0] == BnoConstants.ShubReportSetFeatureCmd && body[1] == reportId
    ensures forall i :: (2 <= i < 5 || 13 <= i < 17) ==> body[i] == 0
    ensures LeU32(body[5..9]) == millisBetweenReports * 1000
    ensures LeU32(body[9..13]) == millisMaxDelay * 1000
  {
    var microsBetweenReports: U32 := millisBetweenReports * 1000;
    var microsMaxDelay: U32 := millisMaxDelay * 1000;
    [BnoConstants.ShubReportSetFeatureCmd, reportId, 0, 0, 0]
      + U32Bytes(microsBetweenReports) + U32Bytes(microsMaxDelay) + [0, 0, 0, 0]
  }

  /** A soft reset is the 5-byte frame `[5, 0, 1, seq, 1]`. */
  lemma SoftResetFrame(seqNum: Byte)
    ensures Frame(BnoConstants.ChannelExecutable, seqNum, [BnoConstants.ExecutableDeviceCmdReset]) == [5, 0, 1, seqNum, 1]
  {
  }

  // ---------------------------------------------------------------------
  // Dispatch of a received frame

  /** Report IDs on the command channel. */
  function CommandData(reportId: Byte): (r: ChannelCommandData)
    ensures r == AdvertiseResponse <==> reportId == BnoConstants.CmdRespAdvertisement
    ensures r == ErrorList <==> reportId == BnoConstants.CmdRespErrorList
    ensures r.Unknown? ==> r.id == reportId
  {
    if reportId == BnoConstants.CmdRespAdvertisement then AdvertiseResponse
    else if reportId == BnoConstants.CmdRespErrorList then ErrorList
    else ChannelCommandData.Unknown(reportId)
  }

  /** Report IDs on the executable channel. */
  function ExecutableData(reportId: Byte): (r: ChannelExecutableData)
    ensures r == ResetComplete <==> reportId == BnoConstants.ExecutableDeviceRespResetComplete
    ensures r.Unknown? ==> r.id == reportId
  {
    if reportId == BnoConstants.ExecutableDeviceRespResetComplete then ResetComplete
    else ChannelExecutableData.Unknown(reportId)
  }

  /** Report IDs on the hub-control channel. */
  function HubControlData(reportId: Byte): (r: ChannelHubControlData)
    ensures r == CommandResponse <==> reportId == BnoConstants.ShubCommandResp
    ensures r == ProdIdResponse <==> reportId == BnoConstants.ShubProdIdResp
    ensures r == GetFeatureResponse <==> reportId == BnoConstants.ShubGetFeatureResp
    ensures r.Unknown? ==> r.id == reportId
  {
    if reportId == BnoConstants.ShubCommandResp then CommandResponse
    else if reportId == BnoConstants.ShubProdIdResp then ProdIdResponse
    else if reportId == BnoConstants.ShubGetFeatureResp then GetFeatureResponse
    else ChannelHubControlData.Unknown(reportId)
  }

  /** The report-ID byte of a received frame, 0 when the frame has no payload. */
  function ReportId(msg: seq<Byte>): (id: Byte)
    ensures |msg| > BnoConstants.PacketHeaderLength ==> id == msg[4]
    ensures |msg| <= BnoConstants.PacketHeaderLength ==> id == 0
  {
    if |msg| > BnoConstants.PacketHeaderLength then msg[4] else 0
  }

  /** The packet a control channel (0, 1 or 2) makes of a report ID; shared
      by `ProcessMessage` and the `process_packet` method. */
  function ControlPacket(channel: Byte, reportId: Byte): BnoPacket
    requires channel < BnoConstants.ChannelSensorReports
  {
    if channel == BnoConstants.ChannelCommand then BnoPacket.ChannelCommand(CommandData(reportId))
    else if channel == BnoConstants.ChannelExecutable then ChannelExec(ExecutableData(reportId))
    else BnoPacket.ChannelHubControl(HubControlData(reportId))
  }

  /** What `process_packet` makes of the received frame `msg`. Reading the
      channel byte of a frame shorter than 3 bytes panics. */
  function ProcessMessage(msg: seq<Byte>): (r: Outcome<BnoPacket, DriverError>)
    ensures |msg| < 3 ==> r == Panic(2, |msg|)
    ensures r.Ok? ==> (|msg| >= 3 &&
      (r.value.ChannelCommand? <==> msg[2] == BnoConstants.ChannelCommand) &&
      (r.value.ChannelExec? <==> msg[2] == BnoConstants.ChannelExecutable) &&
      (r.value.ChannelHubControl? <==> msg[2] == BnoConstants.ChannelHubControl) &&
      (r.value.SensorReports? <==> msg[2] == BnoConstants.ChannelSensorReports))
    ensures r.Err? ==> r.error == UnknownData || r.error.ParseError?
    ensures |msg| >= 3 && msg[2] == BnoConstants.ChannelCommand ==>
      r == Ok(BnoPacket.ChannelCommand(CommandData(ReportId(msg))))
    ensures |msg| >= 3 && msg[2] == BnoConstants.ChannelExecutable ==>
      r == Ok(ChannelExec(ExecutableData(ReportId(msg))))
    ensures |msg| >= 3 && msg[2] == BnoConstants.ChannelHubControl ==>
      r == Ok(BnoPacket.ChannelHubControl(HubControlData(ReportId(msg))))
    ensures |msg| >= 3 && msg[2] == BnoConstants.ChannelSensorReports ==>
      r == MapParseError(DecodeSensorReports(msg))
  {
    if |msg| < 3 then Panic(2, |msg|)
    else
      var channel := msg[2];
      if channel < BnoConstants.ChannelSensorReports then Ok(ControlPacket(channel, ReportId(msg)))
      else if channel == BnoConstants.ChannelSensorReports then MapParseError(DecodeSensorReports(msg))
      else Err(UnknownData)
  }

  /** Which frames end in which errors: an unknown channel is `UnknownData`,
      a parse error happens only on the sensor channel and exactly for frames
      under 23 bytes, and a panic only for frames under 3 bytes or a sensor
      batch that reads past its end. Control channels always decode. */
  lemma ProcessMessageErrors(msg: seq<Byte>)
    ensures ProcessMessage(msg) == Err(UnknownData) <==> |msg| >= 3 && msg[2] > BnoConstants.ChannelSensorReports
    ensures ProcessMessage(msg) == Err(ParseError(BnoPacketParseError.Unknown)) <==>
      |msg| >= 3 && msg[2] == BnoConstants.ChannelSensorReports && |msg| < ReportsStart + MinPayloadLength
    ensures ProcessMessage(msg).Panic? <==>
      |msg| < 3 || (msg[2] == BnoConstants.ChannelSensorReports && DecodeSensorReports(msg).Panic?)
    ensures |msg| >= 3 && msg[2] < BnoConstants.ChannelSensorReports ==> ProcessMessage(msg).Ok?
  {
    ShortFramesRejected(msg);
  }

  /** The whole control-channel table for a frame with a report-ID byte:
      each listed ID gives its response, and any other ID is kept raw in
      `Unknown`, for example 0x42 on the hub-control channel. */
  lemma ControlDispatchTable(msg: seq<Byte>)
    requires |msg| > BnoConstants.PacketHeaderLength
    ensures var id := msg[4]; msg[2] == BnoConstants.ChannelCommand ==>
      ProcessMessage(msg) == Ok(BnoPacket.ChannelCommand(
        if id == 0 then AdvertiseResponse else if id == 1 then ErrorList else ChannelCommandData.Unknown(id)))
    ensures var id := msg[4]; msg[2] == BnoConstants.ChannelExecutable ==>
      ProcessMessage(msg) == Ok(ChannelExec(
        if id == 1 then ResetComplete else ChannelExecutableData.Unknown(id)))
    ensures var id := msg[4]; msg[2] == BnoConstants.ChannelHubControl ==>
      ProcessMessage(msg) == Ok(BnoPacket.ChannelHubControl(
        if id == 0xF1 then CommandResponse else if id == 0xF8 then ProdIdResponse
        else if id == 0xFC then GetFeatureResponse else ChannelHubControlData.Unknown(id)))
    ensures msg[2] == BnoConstants.ChannelHubControl && msg[4] == 0x42 ==>
      ProcessMessage(msg) == Ok(BnoPacket.ChannelHubControl(ChannelHubControlData.Unknown(0x42)))
  {
  }

  /** A frame of 3 or 4 bytes has no report ID and is read as report ID 0:
      an advertisement on the command channel, `Unknown(0)` elsewhere. */
  lemma HeaderOnlyFrames(msg: seq<Byte>)
    requires 3 <= |msg| <= BnoConstants.PacketHeaderLength
    ensures msg[2] == BnoConstants.ChannelCommand ==> ProcessMessage(msg) == Ok(BnoPacket.ChannelCommand(AdvertiseResponse))
    ensures msg[2] == BnoConstants.ChannelExecutable ==> ProcessMessage(msg) == Ok(ChannelExec(ChannelExecutableData.Unknown(0)))
    ensures msg[2] == BnoConstants.ChannelHubControl ==> ProcessMessage(msg) == Ok(BnoPacket.ChannelHubControl(ChannelHubControlData.Unknown(0)))
  {
  }

  /** What `receive_packet` returns, given the transport's fault schedule and
      the bytes the device delivers: the header read, the length check, the
      read of the whole frame from offset 0, then `process_packet`. */
  function ReceiveResult(schedule: seq<Step>, input: seq<Byte>): (r: Outcome<BnoPacket, DriverError>)
    ensures ReadResult(schedule, input, BnoConstants.PacketHeaderLength).Err? ==>
      r == Err(CommError(ReadResult(schedule, input, BnoConstants.PacketHeaderLength).error))
    ensures r == Err(NoDataAvailable) <==>
      ReadResult(schedule, input, BnoConstants.PacketHeaderLength).Ok? &&
      ParsePacketHeader(input[..BnoConstants.PacketHeaderLength]) == 0
    ensures ReadResult(schedule, input, BnoConstants.PacketHeaderLength).Ok? ==>
      var len := ParsePacketHeader(input[..BnoConstants.PacketHeaderLength]);
      var rest := input[BnoConstants.PacketHeaderLength..];
      len != 0 ==>
        (ReadResult(Advance(schedule), rest, len).Err? ==>
           r == Err(CommError(ReadResult(Advance(schedule), rest, len).error))) &&
        (ReadResult(Advance(schedule), rest, len).Ok? ==> r == ProcessMessage(rest[..len]))
  {
    var header := ReadResult(schedule, input, BnoConstants.PacketHeaderLength);
    if header.Err? then Err(CommError(header.error))
    else
      var len := ParsePacketHeader(input[..BnoConstants.PacketHeaderLength]);
      var rest := input[BnoConstants.PacketHeaderLength..];
      if len == 0 then Err(NoDataAvailable)
      else
        var frame := ReadResult(Advance(schedule), rest, len);
        if frame.Err? then Err(CommError(frame.error))
        else ProcessMessage(rest[..len])
  }

  /** The all-ones header reads as "no data", not as a parse error, and no
      second read is attempted. */
  lemma GarbageHeaderNoData(schedule: seq<Step>, input: seq<Byte>)
    requires StepAt(schedule, 0) == Pass
    requires |input| >= 4 && input[..4] == [0xFF, 0xFF, 0xFF, 0xFF]
    ensures ReceiveResult(schedule, input) == Err(NoDataAvailable)
  {
    GarbageHeaderIsEmpty();
  }

  /** A header declaring a length of 1 or 2 gets past the header parser, and
      `process_packet` then indexes the channel byte of a frame that short. */
  lemma TinyDeclaredLengthPanics(schedule: seq<Step>, input: seq<Byte>)
    requires StepAt(schedule, 0) == Pass && StepAt(schedule, 1) == Pass
    requires |input| >= BnoConstants.PacketHeaderLength + 2
    requires input[1] == 0 && 1 <= input[0] <= 2
    ensures ReceiveResult(schedule, input) == Panic(2, input[0])
  {
    TinyLengthsAccepted(input[..BnoConstants.PacketHeaderLength]);
  }

  /** When the device answers the header read with a frame's header and the
      frame read with the whole frame, and neither transaction fails,
      `receive_packet` dispatches exactly that frame. */
  lemma ReceiveWholeFrame(schedule: seq<Step>, frame: seq<Byte>, more: seq<Byte>)
    requires StepAt(schedule, 0) == Pass && StepAt(schedule, 1) == Pass
    requires |frame| >= BnoConstants.PacketHeaderLength && ParsePacketHeader(frame) == |frame|
    ensures ReceiveResult(schedule, frame[..BnoConstants.PacketHeaderLength] + frame + more) == ProcessMessage(frame)
  {
    var h := frame[..BnoConstants.PacketHeaderLength];
    var input := h + frame + more;
    assert input[..BnoConstants.PacketHeaderLength] == h;
    OnlyLengthBytesMatter(h, frame);
    assert input[BnoConstants.PacketHeaderLength..][..|frame|] == frame;
  }

  /** A hub-control frame with report ID 0xF8, laid out as the driver lays
      out its own frames and delivered as described above, is dispatched as
      the product-ID response. */
  lemma EchoedHubControlFrame(schedule: seq<Step>, seqNum: Byte, more: seq<Byte>)
    requires StepAt(schedule, 0) == Pass && StepAt(schedule, 1) == Pass
    ensures var f := Frame(BnoConstants.ChannelHubControl, seqNum, [BnoConstants.ShubProdIdResp]);
      ReceiveResult(schedule, f[..BnoConstants.PacketHeaderLength] + f + more) ==
        Ok(BnoPacket.ChannelHubControl(ProdIdResponse))
  {
    var f := Frame(BnoConstants.ChannelHubControl, seqNum, [BnoConstants.ShubProdIdResp]);
    FrameHeaderRoundTrip(BnoConstants.ChannelHubControl, seqNum, [BnoConstants.ShubProdIdResp]);
    ReceiveWholeFrame(schedule, f, more);
  }

  // ---------------------------------------------------------------------
  // The driver

  class BnoDriver {
    const interface: Transport
    const recvBuffer: array<Byte>
    const sendBuf: array<Byte>
    const sequenceNumbers: array<Byte>

    ghost predicate Valid() {
      recvBuffer.Length == PacketRecvBufLen &&
      sendBuf.Length == PacketSendBufLen &&
      sequenceNumbers.Length == NumChannels
    }

    /** `new`: zeroed buffers and every sequence number 0. */
    constructor (interface: Transport)
      ensures Valid() && this.interface == interface
      ensures fresh(recvBuffer) && fresh(sendBuf) && fresh(sequenceNumbers)
      ensures recvBuffer[..] == seq(PacketRecvBufLen, _ => 0)
      ensures sendBuf[..] == seq(PacketSendBufLen, _ => 0)
      ensures sequenceNumbers[..] == seq(NumChannels, _ => 0)
    {
      this.interface := interface;
      recvBuffer := new Byte[PacketRecvBufLen](_ => 0);
      sendBuf := new Byte[PacketSendBufLen](_ => 0);
      sequenceNumbers := new Byte[NumChannels](_ => 0);
    }

    /** The state change of sending `body` on `channel`: the frame sits at the
        front of the send buffer, the channel's counter has advanced (also when
        the write fails), the transport saw one write, and on success the
        frame is in its log. */
    twostate predicate SentFrame(channel: Byte, body: seq<Byte>, new r: Outcome<(), DriverError>)
      reads this, sendBuf, sequenceNumbers, interface
      requires Valid() && channel < NumChannels
      requires |body| + BnoConstants.PacketHeaderLength <= PacketSendBufLen
    {
      var len := |body| + BnoConstants.PacketHeaderLength;
      var frame := Frame(channel, old(sequenceNumbers[channel]), body);
      sendBuf[..len] == frame && sendBuf[len..] == old(sendBuf[len..]) &&
      sequenceNumbers[..] == Bump(old(sequenceNumbers[..]), channel) &&
      r == MapComError(WriteResult(old(interface.schedule))) &&
      interface.schedule == Advance(old(interface.schedule)) &&
      interface.input == old(interface.input) &&
      interface.log == (if r.Ok? then old(interface.log) + [frame] else old(interface.log))
    }

    /** `send_packet`. The source panics for a channel of 6 or more and for a
        frame longer than the send buffer; callers must avoid both. */
    method SendPacket(channel: Byte, body: seq<Byte>) returns (r: Outcome<(), DriverError>)
      requires Valid()
      requires channel < NumChannels
      requires |body| + BnoConstants.PacketHeaderLength <= PacketSendBufLen
      modifies sendBuf, sequenceNumbers, interface
      ensures SentFrame(channel, body, r)
    {
      var packetLength := |body| + BnoConstants.PacketHeaderLength;
      var packetHeader := [packetLength % 0x100, (packetLength / 0x100) % 0x100, channel, sequenceNumbers[channel]];
      sequenceNumbers[channel] := NextSequenceNumber(sequenceNumbers[channel]);
      forall i | 0 <= i < BnoConstants.PacketHeaderLength {
        sendBuf[i] := packetHeader[i];
      }
      forall i | BnoConstants.PacketHeaderLength <= i < packetLength {
        sendBuf[i] := body[i - BnoConstants.PacketHeaderLength];
      }
      assert sendBuf[..packetLength] == Frame(channel, old(sequenceNumbers[channel]), body);
      assert forall i :: packetLength <= i < sendBuf.Length ==> sendBuf[i] == old(sendBuf[i]);
      assert sendBuf[packetLength..] == old(sendBuf[packetLength..]);
      var w := interface.WriteBytes(sendBuf[..packetLength]);
      r := MapComError(w);
    }

    /** `enable_report`: the set-feature command on the hub-control channel. */
    method EnableReport(reportId: Byte, millisBetweenReports: U16, millisMaxDelay: U16)
      returns (r: Outcome<(), DriverError>)
      requires Valid()
      modifies sendBuf, sequenceNumbers, interface
      ensures SentFrame(BnoConstants.ChannelHubControl, SetFeatureCommand(reportId, millisBetweenReports, millisMaxDelay), r)
    {
      var cmdBody := SetFeatureCommand(reportId, millisBetweenReports, millisMaxDelay);
      r := SendPacket(BnoConstants.ChannelHubControl, cmdBody);
    }

    /** `soft_reset`: the reset command on the executable channel. */
    method SoftReset() returns (r: Outcome<(), DriverError>)
      requires Valid()
      modifies sendBuf, sequenceNumbers, interface
      ensures SentFrame(BnoConstants.ChannelExecutable, [BnoConstants.ExecutableDeviceCmdReset], r)
    {
      r := SendPacket(BnoConstants.ChannelExecutable, [BnoConstants.ExecutableDeviceCmdReset]);
    }

    /** `process_packet`: dispatches the first `len` bytes of the receive
        buffer. Slicing past the buffer panics; callers must avoid it. */
    method ProcessPacket(len: nat) returns (r: Outcome<BnoPacket, DriverError>)
      requires Valid() && len <= PacketRecvBufLen
      ensures r == ProcessMessage(recvBuffer[..len])
    {
      var msg := recvBuffer[..len];
      if |msg| < 3 {
        return Panic(2, len);
      }
      var channel := msg[2];
      var reportId: Byte := if len > BnoConstants.PacketHeaderLength then msg[4] else 0;
      if channel < BnoConstants.ChannelSensorReports {
        r := Ok(ControlPacket(channel, reportId));
      } else if channel == BnoConstants.ChannelSensorReports {
        var p := ParseSensorReports(msg);
        r := MapParseError(p);
      } else {
        r := Err(UnknownData);
      }
    }

    /** `receive_packet`. A parsed length of 0 ends the call with
        `NoDataAvailable` after the header read alone. */
    method ReceivePacket() returns (r: Outcome<BnoPacket, DriverError>)
      requires Valid()
      modifies recvBuffer, interface
      ensures r == ReceiveResult(old(interface.schedule), old(interface.input))
      ensures interface.log == old(interface.log)
      ensures var s, input := old(interface.schedule), old(interface.input);
        if ReadResult(s, input, BnoConstants.PacketHeaderLength).Err? then
          interface.schedule == Advance(s) && interface.input == input
        else
          var len := ParsePacketHeader(input[..BnoConstants.PacketHeaderLength]);
          var rest := input[BnoConstants.PacketHeaderLength..];
          if len == 0 then
            interface.schedule == Advance(s) && interface.input == rest
          else
            interface.schedule == Advance(Advance(s)) &&
            (ReadResult(Advance(s), rest, len).Ok? ==>
               interface.input == rest[len..] && recvBuffer[..len] == rest[..len]) &&
            (ReadResult(Advance(s), rest, len).Err? ==> interface.input == rest)
      ensures var s, input := old(interface.schedule), old(interface.input);
        ReadResult(s, input, BnoConstants.PacketHeaderLength).Err? ==>
          recvBuffer[BnoConstants.PacketHeaderLength..] == old(recvBuffer[BnoConstants.PacketHeaderLength..])
      ensures var s, input := old(interface.schedule), old(interface.input);
        ReadResult(s, input, BnoConstants.PacketHeaderLength).Ok? ==>
          // the buffer as the header read leaves it
          var afterHeader := input[..BnoConstants.PacketHeaderLength] + old(recvBuffer[BnoConstants.PacketHeaderLength..]);
          var len := ParsePacketHeader(input[..BnoConstants.PacketHeaderLength]);
          if len == 0 then recvBuffer[..] == afterHeader
          else recvBuffer[len..] == afterHeader[len..]
    {
      ghost var before := recvBuffer[..];
      var header := interface.ReadBytes(recvBuffer, BnoConstants.PacketHeaderLength);
      if header.Err? {
        return Err(CommError(header.error));
      }
      assert recvBuffer[..] == recvBuffer[..BnoConstants.PacketHeaderLength] + recvBuffer[BnoConstants.PacketHeaderLength..];
      assert recvBuffer[BnoConstants.PacketHeaderLength..] == before[BnoConstants.PacketHeaderLength..];
      var packetLen := ParsePacketHeader(recvBuffer[..BnoConstants.PacketHeaderLength]);
      if packetLen == 0 {
        return Err(NoDataAvailable);
      }
      var frame := interface.ReadBytes(recvBuffer, packetLen);
      if frame.Err? {
        return Err(CommError(frame.error));
      }
      r := ProcessPacket(packetLen);
    }
  }
}
