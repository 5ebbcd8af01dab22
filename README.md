# BNO08x host driver in Dafny

This project models the core of a Rust host driver for the BNO08x sensor hub
and proves properties of the model. The hub talks SHTP (Sensor Hub Transport
Protocol), the vendor's framing. Every frame starts with a 4-byte header: a
little-endian 15-bit length with a continuation flag in bit 15, a channel
byte and a per-channel sequence number. The model covers these parts:

- `bytes.dfy` (`Bytes`): byte, `u16`, `u32` and `i16` types, with
  little-endian encodings and their round trips.
- `bno_constants.dfy` (`BnoConstants`): the protocol constants.
- `bno_common.dfy` (`BnoCommon`): the frame-header length parser.
- `bno_packet.dfy` (`Packet`): the decoded-packet datatypes.
  - It also defines `Outcome`, which is Rust's `Result` extended with the
    panics the driver can hit.
- `bno_sensor_parsing.dfy` (`SensorParsing`): the sensor-report batch decoder.
  - The imperative loop over the frame is the method `ParseSensorReports`,
    with its cursor helpers.
  - It is proved equal to the recursive reference decoder `DecodeSensorReports`.
  - Properties of that decoder are proved as lemmas: layout, order,
    exponents, the error and panic cases, and concrete frames.
- `interface.dfy` (`Interface`): the transport the driver reads from and
  writes to.
- `bno_driver.dfy` (`Driver`): the `BnoDriver` class.
  - Its state is the receive buffer, the send buffer and the six sequence
    numbers.
  - Its operations are `new`, `send_packet`, `enable_report`, `soft_reset`,
    `process_packet` and `receive_packet`, with the frame and command encoders
    and the dispatch by channel and report ID.

Modelling choices:

- **Bit operations are arithmetic.** `& 0x7F` is `% 0x80`, `<< 8` is `* 0x100`,
  `>> 8` is `/ 0x100`, and `as u8` is `% 0x100`. The two's-complement reading
  of `(lo as i16) | ((hi as i16) << 8)` is `Bytes.ToI16` on the unsigned value.
- **Panics are outcomes or preconditions.**
  - An index the device's data controls, past the end of a buffer, gives
    `Panic(index, length)`. This covers a record running past the frame end,
    and `msg[2]` of a frame declared 1 or 2 bytes long.
  - An index the caller controls is a `requires`. This covers a channel of 6
    or more, a body too long for the send buffer, and a length past the
    receive buffer.
- **The sequence counter wraps.** `sequence_numbers[channel] += 1` on a `u8`
  panics on overflow in a debug build and wraps in a release build. The model
  takes the wrapping reading, `(x + 1) % 256`, which is also what the
  protocol's description of the counter says.
- **The batch loop bound is as written.** The source loops while
  `cursor < received_len - 9` with the cursor starting at 9. It checks neither
  the record's fields nor the bound against the record's length. Proved
  consequences:
  - A record starting in the last 9 bytes of a frame is never decoded.
  - A frame holding nothing but one gravity record (15 bytes) is rejected as too short.
  - Only a rotation-vector record, 14 bytes long, can run past the end of the
    frame. That case is a panic, shown on a 30-byte frame.
- **Q-format values are exact.** A `QValue` is the raw `i16` and its exponent.
  Its value `raw / 2^q` is a `real`, not an `f32`.
- **The transport is a plain class.**
  - It holds the bytes the device will deliver (`input`) and a fault schedule
    that decides how each coming bus transaction ends (`schedule`).
  - It keeps a ghost log of the frames written.
  - A read of more bytes than the device holds fails with `Nack`.
  - Any transaction can fail with an error the driver passes on unchanged.
  - `input` is not ghost, because a read has to produce real bytes into the
    buffer.

## Model

| member | source | states |
|---|---|---|
| Bytes.ToI16 | src/bno_sensor_parsing.rs:21 | the `i16` is congruent to the unsigned 16-bit value modulo 2^16 and is negative exactly when bit 15 is set |
| Bytes.LeI16 | src/bno_sensor_parsing.rs:21 | the `i16` read from two bytes is congruent to `lo + 256*hi` modulo 2^16 and is negative exactly when bit 7 of the high byte is set |
| Bytes.I16RoundTrip | src/bno_sensor_parsing.rs:20-24 | decoding the little-endian bytes of any `i16` gives that `i16` back |
| Bytes.BytesRoundTrip | src/bno_sensor_parsing.rs:20-24 | encoding the `i16` read from any two bytes gives those two bytes back, so the reading is a bijection |
| Bytes.U32Bytes | src/bno_driver.rs:57-64 | the four bytes `(v >> 8k) & 0xFF` are the little-endian encoding of `v`: reading them back gives `v` |
| BnoCommon.RawPacketLength | src/bno_common.rs:4-12 | the raw length is below 2^15 and equals the 16-bit little-endian value with bit 15 cleared |
| BnoCommon.ParsePacketHeader | src/bno_common.rs:3-33 | the result is at most 32762; it is 0 for input under 4 bytes; otherwise it is 0 exactly when the raw length is 0 or above 32762, and is the raw length otherwise |
| BnoCommon.ContinuationFlagIgnored | src/bno_common.rs:4-12 | changing bit 7 of byte 1 does not change the parsed length |
| BnoCommon.OnlyLengthBytesMatter | src/bno_common.rs:11-12 | two headers with the same bytes 0 and 1 parse to the same length, whatever the channel, sequence number and payload |
| BnoCommon.TinyLengthsAccepted | src/bno_common.rs:14-20 | declared lengths 1 to 3, shorter than the header, are returned unchanged |
| BnoCommon.GarbageHeaderIsEmpty | src/bno_common.rs:15-18 | the all-ones header parses to length 0 |
| Packet.QValue.Real | src/bno_sensor_parsing.rs:26-49 | a field's value times 2^q is its raw `i16`, which is the exact meaning of the `qN_to_f32` scaling |
| Packet.SensorData.New | src/bno_packet.rs:34-36 | the new report stores id, sequence number, status and values unchanged |
| Packet.SensorData.GetVec | src/bno_packet.rs:38-40 | the vector has as many elements as the report's values, equal to them in order |
| Packet.SensorReportData.Data | src/bno_packet.rs:44-53 | a known report kind holds 3, 5 or 1 values as its kind demands |
| SensorParsing.DecodeRecord | src/bno_sensor_parsing.rs:73-141 | the record at an offset decodes to the kind its report ID selects, or to `Unknown(id)` when the ID is not one of 1 to 6; id, sequence number and status are copied, the delay byte is dropped, and field `i` is the little-endian `i16` at offset `4 + 2i` with exponent 8 (accel, linear accel, gravity), 9 (gyro), 4 (magnetometer), or 14 and then 12 for the fifth rotation field |
| SensorParsing.ReadU8 | src/bno_sensor_parsing.rs:14-18 | returns the byte at the cursor and advances the cursor by 1 |
| SensorParsing.ReadI16 | src/bno_sensor_parsing.rs:20-24 | returns the `i16` whose little-endian two's-complement encoding is the two bytes at the cursor, and advances the cursor by 2 |
| SensorParsing.ReadQ | src/bno_sensor_parsing.rs:26-49 | returns the field at the cursor with the given exponent, and advances the cursor by 2 |
| SensorParsing.ReadReport | src/bno_sensor_parsing.rs:78-141 | reads the fields of one record; it overruns the frame exactly when the record's length passes the frame end, which can only be a rotation vector, and otherwise returns the decoded record and the offset just past it |
| SensorParsing.DecodeBatch | src/bno_sensor_parsing.rs:70-145 | the batching queue from a cursor: a panic is always the read at index `len` of a `len`-byte frame, and the decoded reports take at least 4 bytes each between the cursor and the frame end |
| SensorParsing.DecodeSensorReports | src/bno_sensor_parsing.rs:51-146 | a successful decode is a frame of at least 23 bytes whose reports are exactly the batch the queue decodes from offset 9, taking at least 4 bytes each; a panic is the read at index `len`, and happens exactly when the frame has at least 23 bytes and the batch from offset 9 panics |
| SensorParsing.ParseSensorReports | src/bno_sensor_parsing.rs:51-146 | the batching loop computes exactly the reference decoder's outcome on the frame |
| SensorParsing.BatchNeverErrs | src/bno_sensor_parsing.rs:70-145 | once the length checks pass, the batch ends in reports or a panic, never in an error |
| SensorParsing.ShortFramesRejected | src/bno_sensor_parsing.rs:52-68 | a frame is rejected exactly when it is shorter than 23 bytes, and the rejection is `Err(Unknown)` |
| SensorParsing.DecodedFrameNotEmpty | src/bno_sensor_parsing.rs:61-145 | a decoded frame is a sensor-reports packet with at least one report |
| SensorParsing.BatchLayout | src/bno_sensor_parsing.rs:70-145 | the reports of a decoded batch are, in order, the records lying back to back from offset 9, each starting before the loop bound and each decoded from its own offset, and the offset after the last one is at or past the bound |
| SensorParsing.StopFollowsLastRecord | src/bno_sensor_parsing.rs:72-143 | the offset where the queue stops is the one right after the last record it decodes, or the starting cursor when it decodes none |
| SensorParsing.SensorFrameLayout | src/bno_sensor_parsing.rs:70-145 | the reports of a decoded frame are the records laid out back to back from offset 9, in stream order, each decoded at its own offset, the last ending at or past the loop bound |
| SensorParsing.SensorFramePanic | src/bno_sensor_parsing.rs:72-131 | a frame of at least 23 bytes panics exactly when the queue from offset 9 stops below the loop bound at a record that runs past the frame end, and that record is a rotation vector |
| SensorParsing.PanicOnlyOnRotation | src/bno_sensor_parsing.rs:72-131 | a batch panics exactly when the offset where the queue stops lies below the loop bound and the record there runs past the frame end; that record is a rotation vector |
| SensorParsing.RotationOverrunExample | src/bno_sensor_parsing.rs:72-131 | a 30-byte frame with an accel record and then a rotation record panics reading past the end |
| SensorParsing.TrailingRecordDroppedExample | src/bno_sensor_parsing.rs:61-72 | in a 25-byte frame with two accel records, the loop bound stops before the second record, which is dropped |
| SensorParsing.GravityExample | src/bno_sensor_parsing.rs:132-139 | a gravity field of raw 2048 decodes as 2048 at exponent 8, that is 8.0 |
| SensorParsing.LoneGravityRejectedExample | src/bno_sensor_parsing.rs:61-68 | a frame holding only one gravity record, 15 bytes long, is rejected as too short |
| SensorParsing.QuantizationWithinStep | src/bno_sensor_parsing.rs:26-49 | a value quantized down to Q format with exponent `q` is recovered to within one step `1/2^q` from below |
| Interface.Advance | src/interface/mod.rs:4-9 | after one transaction, the `k`-th coming transaction is the former `k+1`-th |
| Interface.Transport.constructor | src/interface/mod.rs:4-9 | a transport starts with its device bytes, its fault schedule and an empty write log |
| Interface.Transport.ReadBytes | src/interface/mod.rs:7 | a read of `n` bytes fails as scheduled or with `Nack` when fewer bytes remain; on success it fills the first `n` bytes of the buffer with the next device bytes and consumes them; the rest of the buffer is unchanged |
| Interface.Transport.WriteBytes | src/interface/mod.rs:8 | a write fails as scheduled; on success the frame is appended to the log; the device bytes are unchanged |
| Driver.MapComError | src/bno_driver.rs:107 | a transport error becomes `CommError` of the same error, and success stays success |
| Driver.MapParseError | src/bno_driver.rs:137 | a decoder error becomes `ParseError` of the same error; packets and panics pass through |
| Driver.NextSequenceNumber | src/bno_driver.rs:100 | the counter advances by one modulo 256 |
| Driver.Bump | src/bno_driver.rs:98-100 | a send changes the counter of its own channel and leaves the other five unchanged |
| Driver.SequenceNumbersCount | src/bno_driver.rs:98-100 | after any sequence of sends, each channel's counter has advanced by the number of sends on that channel, modulo 256 |
| Driver.FreshCounters | src/bno_driver.rs:31-33 | counters that start at zero, as in `new`, equal the number of sends on their channel modulo 256 |
| Driver.Frame | src/bno_driver.rs:91-105 | the frame is `|body| + 4` bytes: its first two bytes encode that length little-endian, then channel, sequence number and the body |
| Driver.FrameHeaderRoundTrip | src/bno_driver.rs:93-96 | the header parser reads back `|body| + 4` from any frame the driver builds |
| Driver.SetFeatureCommand | src/bno_driver.rs:47-69 | the body is 17 bytes: 0xFD, the report ID, three zeros, the report interval and the batch interval in microseconds as little-endian `u32`, and four zeros; the intervals never overflow |
| Driver.SoftResetFrame | src/bno_driver.rs:84-88 | a soft reset sends the 5-byte frame `[5, 0, 1, seq, 1]` |
| Driver.CommandData | src/bno_driver.rs:121-125 | on the command channel, ID 0 is the advertisement, ID 1 the error list, and any other ID `Unknown` of that ID |
| Driver.ExecutableData | src/bno_driver.rs:126-129 | on the executable channel, ID 1 is reset complete and any other ID `Unknown` of that ID |
| Driver.HubControlData | src/bno_driver.rs:130-136 | on the hub-control channel, 0xF1, 0xF8 and 0xFC are the command, product-ID and get-feature responses, and any other ID `Unknown` of that ID |
| Driver.ReportId | src/bno_driver.rs:115-119 | the report ID is byte 4 when the frame is longer than 4 bytes, and 0 otherwise |
| Driver.ProcessMessage | src/bno_driver.rs:111-142 | a frame under 3 bytes panics at index 2; on channels 0, 1 and 2 the packet is that channel's table applied to the report ID; on channel 3 the result is the sensor-report decoder's outcome on the frame with its error mapped to `ParseError`; a decoded packet is of the kind of the frame's channel byte; the only errors are `UnknownData` and `ParseError` |
| Driver.ProcessMessageErrors | src/bno_driver.rs:111-142 | `UnknownData` exactly for channels above 3; `ParseError` exactly for sensor frames under 23 bytes; a panic exactly for frames under 3 bytes or a sensor batch that panics; control channels always decode |
| Driver.ControlDispatchTable | src/bno_driver.rs:115-136 | for a frame with a report-ID byte, every row of the control-channel table: 0/0 advertisement, 0/1 error list, 1/1 reset complete, 2/0xF1, 2/0xF8 and 2/0xFC the hub responses, any other ID `Unknown` of that ID (such as 2/0x42) |
| Driver.HeaderOnlyFrames | src/bno_driver.rs:115-136 | a frame of 3 or 4 bytes dispatches with report ID 0 |
| Driver.ReceiveResult | src/bno_driver.rs:146-158 | a failed header read gives `CommError` of its error; `NoDataAvailable` comes exactly from a header that was read and parsed to length 0; after a nonzero length, a failed frame read gives `CommError` of its error and a successful one dispatches exactly the `len` bytes read |
| Driver.GarbageHeaderNoData | src/bno_driver.rs:146-153 | the all-ones header gives `NoDataAvailable` |
| Driver.TinyDeclaredLengthPanics | src/bno_driver.rs:146-158 | a header declaring 1 or 2 bytes passes the parser, and dispatch then panics reading the channel byte |
| Driver.ReceiveWholeFrame | src/bno_driver.rs:146-158 | when the device answers the header read with a frame's header and the second read with the whole frame, the frame is dispatched as it is |
| Driver.EchoedHubControlFrame | src/bno_driver.rs:146-158 | a hub-control frame with report ID 0xF8, laid out as the driver builds frames, is received as the product-ID response |
| Driver.BnoDriver.constructor | src/bno_driver.rs:31-33 | the buffers and the six sequence numbers start all zero |
| Driver.BnoDriver.SendPacket | src/bno_driver.rs:90-108 | the send buffer starts with the frame built with the channel's old counter, and its other bytes are unchanged; the channel's counter advances even when the write fails, and the other counters and the receive buffer are unchanged; one write is issued, with its error mapped to `CommError` |
| Driver.BnoDriver.EnableReport | src/bno_driver.rs:41-77 | sends the set-feature command on the hub-control channel, with the state change of `SendPacket` |
| Driver.BnoDriver.SoftReset | src/bno_driver.rs:84-88 | sends the reset command byte on the executable channel, with the state change of `SendPacket` |
| Driver.BnoDriver.ProcessPacket | src/bno_driver.rs:111-143 | the result is the dispatch of the first `len` bytes of the receive buffer; nothing changes |
| Driver.BnoDriver.ReceivePacket | src/bno_driver.rs:146-158 | the result is the header read, the length check, the frame read from offset 0 and the dispatch, each error passed on; a zero length ends after one transaction; nothing is written. The receive buffer: a successful header read leaves the header in bytes 0-3 and the rest as it was, which is the final state on a zero length; a frame read of `len` bytes leaves everything from `len` on as the header read left it, and on success the frame in bytes `0..len`; a failed header read leaves bytes 4 on unchanged; a failed frame read leaves the device bytes after the header unconsumed |

## Left out

- The transport's `setup` and the `unwrap` in `BnoDriver::setup`. Bus setup is outside this model.
- The I2C implementation of the transport (`src/interface/i2c/`) is not part of this model. It is a wrapper over foreign bus code; the transport here is the `Transport` class described above.
- Timing, blocking and concurrency of the bus calls. The model is sequential and each call returns at once.
- Logging with `println!` and `rprintln!`. It has no effect on results.
- The `f32` arithmetic of the `Q*_SCALE` constants is written as exact `real` arithmetic (`raw / 2^q`). Nothing is lost for these values: every `i16` fits in the 24-bit significand of an `f32`, and a scale factor `2^-q` with `q <= 14` changes only the exponent, so `(q_val as f32) * Qn_SCALE` is exactly `raw / 2^q`.
- The `DriverError` variants `InvalidChipId` and `InvalidFWVersion`. They are never constructed.
- The constants `SENSOR_REPORTID_TS_BASE` and `SENSOR_REPORTID_GAME_ROTATION_VECTOR`. They are unused, and report ID 0x08 decodes as `Unknown`.
- The element type parameter `T` of `SensorData`. It is always `f32` in the driver, and is fixed here to `QValue`.
- Packet.SensorData.GetVec: the `EL_COUNT` const generic is a length invariant on the subset types `SensorData1/3/5`, not a type parameter.
- Driver.BnoDriver.SendPacket: the debug-build panic when a counter overflows is not modelled. The counter wraps, as stated above.
- Interface.Transport.ReadBytes: nothing is promised about the filled part of the buffer after a failed read.
- Driver.BnoDriver.ReceivePacket: after a failed read, it promises nothing about the buffer bytes that read was filling (bytes 0-3 for the header read, `0..len` for the frame read).
