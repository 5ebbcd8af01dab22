/** Decoding of a sensor-reports frame: a batch of fixed-layout records, each
    selected by its report ID and carrying little-endian `i16` Q-format fields. */
module SensorParsing {
  import opened Bytes
  import opened BnoConstants
  import opened Packet

  /** Record header: report ID, sequence number, status, delay. */
  const RecordHeaderLength: nat := 4
  /** Records start after the frame header and a 5-byte batch timestamp. */
  const ReportsStart: nat := PacketHeaderLength + 5
  /** A frame whose bytes after `ReportsStart` number fewer than this is rejected. */
  const MinPayloadLength: nat := 14

  /** The number of `i16` fields of a record with this report ID; 0 for an
      unknown ID, whose fields are not consumed. */
  function FieldCount(id: Byte): nat {
    if id == SensorReportIdAccel || id == SensorReportIdGyroCalibrated
       || id == SensorReportIdMagCalibrated || id == SensorReportIdLinearAccel then 3
    else if id == SensorReportIdRotationVector then 5
    else if id == SensorReportIdGravity then 1
    else 0
  }

  /** The bytes a record with this report ID consumes. */
  function RecordLength(id: Byte): nat {
    RecordHeaderLength + 2 * FieldCount(id)
  }

  /** The Q exponent of field `i` of a record with this report ID. */
  function Exponent(id: Byte, i: nat): nat {
    if id == SensorReportIdAccel || id == SensorReportIdLinearAccel || id == SensorReportIdGravity then 8
    else if id == SensorReportIdGyroCalibrated then 9
    else if id == SensorReportIdMagCalibrated then 4
    else if id == SensorReportIdRotationVector then (if i < 4 then 14 else 12)
    else 0
  }

  /** The report ID a decoded record stands for. */
  function KindId(r: SensorReportData): Byte {
    match r
    case Acceleration(_) => SensorReportIdAccel
    case GyroCalibrated(_) => SensorReportIdGyroCalibrated
    case MagFieldCalibrated(_) => SensorReportIdMagCalibrated
    case LinearAcceleration(_) => SensorReportIdLinearAccel
    case Rotation(_) => SensorReportIdRotationVector
    case Gravity(_) => SensorReportIdGravity
    case Unknown(id) => id
  }

  /** `r` is what the record at offset `c` of `msg` holds: its kind is the one
      the ID selects, ID, sequence number and status are copied, the delay byte
      is dropped, and field `i` is the `i16` at `c + 4 + 2i` with its exponent. */
  predicate RecordAt(msg: seq<Byte>, c: nat, r: SensorReportData)
    requires c + RecordHeaderLength <= |msg|
    requires c + RecordLength(msg[c]) <= |msg|
  {
    var id := msg[c];
    KindId(r) == id &&
    (r.Unknown? <==> FieldCount(id) == 0) &&
    (!r.Unknown? ==>
       var d := r.Data();
       d.id == id && d.seqNumber == msg[c + 1] && d.status == msg[c + 2] &&
       |d.values| == FieldCount(id) &&
       forall i :: 0 <= i < |d.values| ==>
         d.values[i] == QValue(LeI16(msg[c + 4 + 2 * i], msg[c + 5 + 2 * i]), Exponent(id, i)))
  }

  /** The Q-format field at offset `c`. */
  function QAt(msg: seq<Byte>, c: nat, q: nat): QValue
    requires c + 1 < |msg|
  {
    QValue(LeI16(msg[c], msg[c + 1]), q)
  }

  /** The record that starts at offset `c`, when all its bytes are present. */
  function DecodeRecord(msg: seq<Byte>, c: nat): (r: SensorReportData)
    requires c + RecordHeaderLength <= |msg|
    requires c + RecordLength(msg[c]) <= |msg|
    ensures RecordAt(msg, c, r)
  {
    var id, sq, st, f := msg[c], msg[c + 1], msg[c + 2], c + RecordHeaderLength;
    if id == SensorReportIdAccel then
      Acceleration(SensorData.New(id, sq, st, [QAt(msg, f, 8), QAt(msg, f + 2, 8), QAt(msg, f + 4, 8)]))
    else if id == SensorReportIdGyroCalibrated then
      GyroCalibrated(SensorData.New(id, sq, st, [QAt(msg, f, 9), QAt(msg, f + 2, 9), QAt(msg, f + 4, 9)]))
    else if id == SensorReportIdMagCalibrated then
      MagFieldCalibrated(SensorData.New(id, sq, st, [QAt(msg, f, 4), QAt(msg, f + 2, 4), QAt(msg, f + 4, 4)]))
    else if id == SensorReportIdLinearAccel then
      LinearAcceleration(SensorData.New(id, sq, st, [QAt(msg, f, 8), QAt(msg, f + 2, 8), QAt(msg, f + 4, 8)]))
    else if id == SensorReportIdRotationVector then
      Rotation(SensorData.New(id, sq, st, [QAt(msg, f, 14), QAt(msg, f + 2, 14), QAt(msg, f + 4, 14),
                                           QAt(msg, f + 6, 14), QAt(msg, f + 8, 12)]))
    else if id == SensorReportIdGravity then
      Gravity(SensorData.New(id, sq, st, [QAt(msg, f, 8)]))
    else
      SensorReportData.Unknown(id)
  }

  /** `prefix` put in front of the reports of `o`; a panic stays a panic. */
  function Extend<E>(prefix: seq<SensorReportData>, o: Outcome<seq<SensorReportData>, E>): Outcome<seq<SensorReportData>, E> {
    match o
    case Ok(rs) => Ok(prefix + rs)
    case Err(e) => Err(e)
    case Panic(i, n) => Panic(i, n)
  }

  lemma ExtendNothing<E>(o: Outcome<seq<SensorReportData>, E>)
    ensures Extend([], o) == o
  {
    if o.Ok? {
      assert [] + o.value == o.value;
    }
  }

  lemma ExtendExtend<E>(a: seq<SensorReportData>, b: seq<SensorReportData>, o: Outcome<seq<SensorReportData>, E>)
    ensures Extend(a, Extend(b, o)) == Extend(a + b, o)
  {
    if o.Ok? {
      assert a + (b + o.value) == (a + b) + o.value;
    }
  }

  /** The batching queue from `cursor` on: records are decoded while the cursor
      is below `|data| - ReportsStart` (the bound as the source computes it).
      A record whose bytes run past the end of `data` panics at index `|data|`. */
  function DecodeBatch(data: seq<Byte>, cursor: nat): (r: Outcome<seq<SensorReportData>, BnoPacketParseError>)
    requires |data| >= ReportsStart
    ensures r.Panic? ==> r == Panic(|data|, |data|)
    ensures r.Ok? && r.value != [] ==> cursor + RecordHeaderLength * |r.value| <= |data|
    decreases |data| - cursor
  {
    if cursor >= |data| - ReportsStart then Ok([])
    else if cursor + RecordLength(data[cursor]) > |data| then Panic(|data|, |data|)
    else Extend([DecodeRecord(data, cursor)], DecodeBatch(data, cursor + RecordLength(data[cursor])))
  }

  /** What `parse_sensor_reports` returns for the frame `data`. */
  function DecodeSensorReports(data: seq<Byte>): (r: Outcome<BnoPacket, BnoPacketParseError>)
    ensures r.Ok? ==> r.value.SensorReports?
    ensures r.Ok? ==> ReportsStart + RecordHeaderLength * |r.value.reports| <= |data|
    ensures r.Panic? ==> r == Panic(|data|, |data|)
    ensures r.Panic? <==> |data| >= ReportsStart + MinPayloadLength && DecodeBatch(data, ReportsStart).Panic?
    ensures r.Ok? ==> |data| >= ReportsStart + MinPayloadLength && DecodeBatch(data, ReportsStart) == Ok(r.value.reports)
  {
    if |data| < ReportsStart then Err(BnoPacketParseError.Unknown)
    else if |data| - ReportsStart < MinPayloadLength then Err(BnoPacketParseError.Unknown)
    else
      match DecodeBatch(data, ReportsStart)
      case Ok(rs) => Ok(SensorReports(rs))
      case Err(e) => Err(e)
      case Panic(i, n) => Panic(i, n)
  }

  /** `read_u8_at_cursor`. */
  method ReadU8(msg: seq<Byte>, cursor: nat) returns (val: Byte, next: nat)
    requires cursor < |msg|
    ensures val == msg[cursor] && next == cursor + 1
  {
    val := msg[cursor];
    next := cursor + 1;
  }

  /** `read_i16_at_cursor`: the `i16` whose little-endian encoding is the two
      bytes at the cursor. */
  method ReadI16(msg: seq<Byte>, cursor: nat) returns (val: I16, next: nat)
    requires cursor + 1 < |msg|
    ensures I16Bytes(val) == msg[cursor..cursor + 2]
    ensures val == LeI16(msg[cursor], msg[cursor + 1])
    ensures next == cursor + 2
  {
    val := ToI16(msg[cursor] as int + 0x100 * (msg[cursor + 1] as int));
    BytesRoundTrip(msg[cursor], msg[cursor + 1]);
    next := cursor + 2;
  }

  /** The `qN_to_f32` helpers: the field at the cursor in Q format with exponent `q`. */
  method ReadQ(msg: seq<Byte>, cursor: nat, q: nat) returns (val: QValue, next: nat)
    requires cursor + 1 < |msg|
    ensures I16Bytes(val.raw) == msg[cursor..cursor + 2] && val.q == q
    ensures val == QAt(msg, cursor, q)
    ensures next == cursor + 2
  {
    var raw;
    raw, next := ReadI16(msg, cursor);
    val := QValue(raw, q);
  }

  /** The `match id` of the batching loop: reads the fields of the record whose
      4-byte header, at `start`, held `id`, `seqNum` and `status`. Every kind but
      the rotation vector fits, since the loop only starts records more than
      `ReportsStart` bytes before the end; `overrun` says that a rotation
      vector's fields run past the end of `data`. It reads field by field
      through the cursor, as the source does; `DecodeRecord` is the value it
      is proved to compute, which the lemmas about the batch use. */
  method ReadReport(data: seq<Byte>, ghost start: nat, id: Byte, seqNum: Byte, status: Byte, cursor: nat)
    returns (report: SensorReportData, overrun: bool, next: nat)
    requires start + ReportsStart < |data| && cursor == start + RecordHeaderLength
    requires id == data[start] && seqNum == data[start + 1] && status == data[start + 2]
    ensures overrun <==> start + RecordLength(id) > |data|
    ensures overrun ==> id == SensorReportIdRotationVector
    ensures !overrun ==> report == DecodeRecord(data, start) && next == start + RecordLength(id)
  {
    next := cursor;
    overrun := false;
    if id == SensorReportIdAccel {
      var x, y, z;
      x, next := ReadQ(data, next, 8);
      y, next := ReadQ(data, next, 8);
      z, next := ReadQ(data, next, 8);
      report := Acceleration(SensorData.New(id, seqNum, status, [x, y, z]));
    } else if id == SensorReportIdGyroCalibrated {
      var x, y, z;
      x, next := ReadQ(data, next, 9);
      y, next := ReadQ(data, next, 9);
      z, next := ReadQ(data, next, 9);
      report := GyroCalibrated(SensorData.New(id, seqNum, status, [x, y, z]));
    } else if id == SensorReportIdMagCalibrated {
      var x, y, z;
      x, next := ReadQ(data, next, 4);
      y, next := ReadQ(data, next, 4);
      z, next := ReadQ(data, next, 4);
      report := MagFieldCalibrated(SensorData.New(id, seqNum, status, [x, y, z]));
    } else if id == SensorReportIdLinearAccel {
      var x, y, z;
      x, next := ReadQ(data, next, 8);
      y, next := ReadQ(data, next, 8);
      z, next := ReadQ(data, next, 8);
      report := LinearAcceleration(SensorData.New(id, seqNum, status, [x, y, z]));
    } else if id == SensorReportIdRotationVector {
      if next + 2 * FieldCount(id) > |data| {
        return SensorReportData.Unknown(id), true, next;
      }
      var i, j, k, w, accuracy;
      i, next := ReadQ(data, next, 14);
      j, next := ReadQ(data, next, 14);
      k, next := ReadQ(data, next, 14);
      w, next := ReadQ(data, next, 14);
      accuracy, next := ReadQ(data, next, 12);
      report := Rotation(SensorData.New(id, seqNum, status, [i, j, k, w, accuracy]));
    } else if id == SensorReportIdGravity {
      var g;
      g, next := ReadQ(data, next, 8);
      report := Gravity(SensorData.New(id, seqNum, status, [g]));
    } else {
      report := SensorReportData.Unknown(id);
    }
  }

  /** `parse_sensor_reports`. Known record kinds other than the rotation
      vector always fit before the end of the frame; a rotation vector that
      starts in the last 13 bytes reads past it, which is the panic. */
  method ParseSensorReports(data: seq<Byte>) returns (r: Outcome<BnoPacket, BnoPacketParseError>)
    ensures r == DecodeSensorReports(data)
  {
    var receivedLen := |data|;
    var cursor: nat := PacketHeaderLength + 5;
    if receivedLen < cursor {
      return Err(BnoPacketParseError.Unknown);
    }
    var payloadLen := receivedLen - cursor;
    if payloadLen < MinPayloadLength {
      return Err(BnoPacketParseError.Unknown);
    }
    var reports: seq<SensorReportData> := [];
    ExtendNothing(DecodeBatch(data, cursor));
    while cursor < payloadLen
      invariant ReportsStart <= cursor <= |data|
      invariant Extend(reports, DecodeBatch(data, cursor)) == DecodeBatch(data, ReportsStart)
    {
      ghost var start := cursor;
      var id, seqNum, status, delay;
      id, cursor := ReadU8(data, cursor);
      seqNum, cursor := ReadU8(data, cursor);
      status, cursor := ReadU8(data, cursor);
      delay, cursor := ReadU8(data, cursor);
      var report, overrun;
      report, overrun, cursor := ReadReport(data, start, id, seqNum, status, cursor);
      if overrun {
        // The first field read that leaves the frame indexes `data[receivedLen]`.
        return Panic(receivedLen, receivedLen);
      }
      ExtendExtend(reports, [report], DecodeBatch(data, cursor));
      reports := reports + [report];
    }
    assert reports + [] == reports;
    return Ok(SensorReports(reports));
  }

  // Properties of the decoder.

  /** The batching queue never reports a parse error: only the length checks do. */
  lemma {:induction false} BatchNeverErrs(data: seq<Byte>, cursor: nat)
    requires |data| >= ReportsStart
    ensures !DecodeBatch(data, cursor).Err?
    decreases |data| - cursor
  {
    if cursor < |data| - ReportsStart && cursor + RecordLength(data[cursor]) <= |data| {
      BatchNeverErrs(data, cursor + RecordLength(data[cursor]));
    }
  }

  /** A frame is rejected with `Unknown` exactly when it is shorter than the
      header, the timestamp and the 14-byte minimum payload together. */
  lemma ShortFramesRejected(data: seq<Byte>)
    ensures DecodeSensorReports(data).Err? <==> |data| < ReportsStart + MinPayloadLength
    ensures DecodeSensorReports(data).Err? ==> DecodeSensorReports(data) == Err(BnoPacketParseError.Unknown)
  {
    if |data| >= ReportsStart {
      BatchNeverErrs(data, ReportsStart);
    }
  }

  /** A decoded frame is a batch of sensor reports with at least one report. */
  lemma DecodedFrameNotEmpty(data: seq<Byte>)
    requires DecodeSensorReports(data).Ok?
    ensures DecodeSensorReports(data).value.SensorReports?
    ensures |DecodeSensorReports(data).value.reports| >= 1
  {
    var c := ReportsStart;
    assert c < |data| - ReportsStart;
    assert c + RecordLength(data[c]) <= |data|;
  }

  /** The offsets at which the batching queue starts a record. */
  ghost function RecordStarts(data: seq<Byte>, cursor: nat): (os: seq<nat>)
    requires |data| >= ReportsStart
    ensures forall k :: 0 <= k < |os| ==> cursor <= os[k] && os[k] + ReportsStart < |data|
    decreases |data| - cursor
  {
    if cursor >= |data| - ReportsStart || cursor + RecordLength(data[cursor]) > |data| then []
    else [cursor] + RecordStarts(data, cursor + RecordLength(data[cursor]))
  }

  /** The offset at which the batching queue stops: the first one that is at
      or past the loop bound, or whose record does not fit in `data`. */
  ghost function StopOffset(data: seq<Byte>, cursor: nat): nat
    requires |data| >= ReportsStart
    decreases |data| - cursor
  {
    if cursor >= |data| - ReportsStart || cursor + RecordLength(data[cursor]) > |data| then cursor
    else StopOffset(data, cursor + RecordLength(data[cursor]))
  }

  /** The queue stops right after the last record it starts, or at `cursor`
      when it starts none. */
  lemma {:induction false} StopFollowsLastRecord(data: seq<Byte>, cursor: nat)
    requires |data| >= ReportsStart
    ensures var os := RecordStarts(data, cursor);
      StopOffset(data, cursor) ==
        if os == [] then cursor else os[|os| - 1] + RecordLength(data[os[|os| - 1]])
    decreases |data| - cursor
  {
    if cursor < |data| - ReportsStart && cursor + RecordLength(data[cursor]) <= |data| {
      var next := cursor + RecordLength(data[cursor]);
      StopFollowsLastRecord(data, next);
      var os := RecordStarts(data, next);
      assert RecordStarts(data, cursor) == [cursor] + os;
    }
  }

  /** `rs` are the records found at the offsets `os` of `data`, starting at
      `cursor`: back to back, in stream order, each wholly inside `data` and
      starting before the loop bound, the first at `cursor`, and the one after
      the last at or beyond the bound. */
  ghost predicate Layout(data: seq<Byte>, cursor: nat, rs: seq<SensorReportData>, os: seq<nat>)
    requires |data| >= ReportsStart
  {
    |os| == |rs| &&
    (forall k :: 0 <= k < |os| ==>
       cursor <= os[k] && os[k] + ReportsStart < |data| &&
       os[k] + RecordLength(data[os[k]]) <= |data| && RecordAt(data, os[k], rs[k])) &&
    (forall k :: 0 <= k < |os| - 1 ==> os[k + 1] == os[k] + RecordLength(data[os[k]])) &&
    (|os| == 0 ==> cursor + ReportsStart >= |data|) &&
    (|os| > 0 ==> os[0] == cursor && os[|os| - 1] + RecordLength(data[os[|os| - 1]]) + ReportsStart >= |data|)
  }

  /** A record in front of a laid-out batch gives a laid-out batch. */
  lemma LayoutCons(data: seq<Byte>, cursor: nat, r: SensorReportData, rs: seq<SensorReportData>, os: seq<nat>)
    requires |data| >= ReportsStart && cursor + ReportsStart < |data|
    requires cursor + RecordLength(data[cursor]) <= |data| && RecordAt(data, cursor, r)
    requires Layout(data, cursor + RecordLength(data[cursor]), rs, os)
    ensures Layout(data, cursor, [r] + rs, [cursor] + os)
  {
    var rs2, os2 := [r] + rs, [cursor] + os;
    forall k | 0 <= k < |os2|
      ensures cursor <= os2[k] && os2[k] + ReportsStart < |data|
      ensures os2[k] + RecordLength(data[os2[k]]) <= |data| && RecordAt(data, os2[k], rs2[k])
    {
      if k > 0 {
        assert os2[k] == os[k - 1] && rs2[k] == rs[k - 1];
      }
    }
    forall k | 0 <= k < |os2| - 1
      ensures os2[k + 1] == os2[k] + RecordLength(data[os2[k]])
    {
      if k > 0 {
        assert os2[k] == os[k - 1] && os2[k + 1] == os[k];
      }
    }
  }

  /** A batch that decodes is laid out record after record, each record
      decoded as `RecordAt` says, and the reports keep the records' order. */
  lemma {:induction false} BatchLayout(data: seq<Byte>, cursor: nat)
    requires |data| >= ReportsStart
    requires DecodeBatch(data, cursor).Ok?
    ensures Layout(data, cursor, DecodeBatch(data, cursor).value, RecordStarts(data, cursor))
    decreases |data| - cursor
  {
    if cursor < |data| - ReportsStart {
      var next := cursor + RecordLength(data[cursor]);
      BatchLayout(data, next);
      LayoutCons(data, cursor, DecodeRecord(data, cursor), DecodeBatch(data, next).value, RecordStarts(data, next));
    }
  }

  /** The batch panics exactly when the queue stops at an offset below the
      loop bound whose record runs past the end of `data`; that record is
      always a rotation vector. */
  lemma {:induction false} PanicOnlyOnRotation(data: seq<Byte>, cursor: nat)
    requires |data| >= ReportsStart
    ensures var o := StopOffset(data, cursor);
      DecodeBatch(data, cursor).Panic? <==>
        o + ReportsStart < |data| && o + RecordLength(data[o]) > |data|
    ensures var o := StopOffset(data, cursor);
      DecodeBatch(data, cursor).Panic? ==> data[o] == SensorReportIdRotationVector
    decreases |data| - cursor
  {
    if cursor >= |data| - ReportsStart {
    } else if cursor + RecordLength(data[cursor]) > |data| {
      assert data[cursor] == SensorReportIdRotationVector;
    } else {
      PanicOnlyOnRotation(data, cursor + RecordLength(data[cursor]));
    }
  }

  /** The reports of a decoded frame are the records laid out back to back
      from offset 9, in stream order, each decoded at its own offset. */
  lemma {:induction false} SensorFrameLayout(data: seq<Byte>)
    requires DecodeSensorReports(data).Ok?
    ensures Layout(data, ReportsStart, DecodeSensorReports(data).value.reports, RecordStarts(data, ReportsStart))
  {
    BatchLayout(data, ReportsStart);
  }

  /** A frame of at least 23 bytes panics exactly when the queue from offset 9
      stops below the loop bound at a record that overruns the frame, and that
      record is a rotation vector. */
  lemma {:induction false} SensorFramePanic(data: seq<Byte>)
    requires |data| >= ReportsStart + MinPayloadLength
    ensures var o := StopOffset(data, ReportsStart);
      DecodeSensorReports(data).Panic? <==>
        o + ReportsStart < |data| && o + RecordLength(data[o]) > |data|
    ensures DecodeSensorReports(data).Panic? ==>
      data[StopOffset(data, ReportsStart)] == SensorReportIdRotationVector
  {
    PanicOnlyOnRotation(data, ReportsStart);
  }

  /** An accelerometer record followed by a rotation vector in a 30-byte frame:
      the rotation vector starts at offset 19, below the bound 21, and its
      fields need bytes up to offset 32, so the decoder reads past the end. */
  lemma RotationOverrunExample()
    ensures DecodeSensorReports(
      [30, 0, 3, 0,  0xFB, 0, 0, 0, 0,
       1, 0, 0, 0,  0, 1, 0, 2, 0, 3,
       5, 0, 0, 0,  0, 0, 0, 0, 0, 0, 0]) == Panic(30, 30)
  {
    var data: seq<Byte> := [30, 0, 3, 0,  0xFB, 0, 0, 0, 0, 1, 0, 0, 0,  0, 1, 0, 2, 0, 3, 5, 0, 0, 0,  0, 0, 0, 0, 0, 0, 0];
    assert DecodeBatch(data, 19) == Panic(30, 30);
  }

  /** A record that starts in the last `ReportsStart` bytes is never decoded:
      here a gravity record after an accelerometer record is dropped. */
  lemma TrailingRecordDroppedExample()
    ensures DecodeSensorReports(
      [25, 0, 3, 0,  0xFB, 0, 0, 0, 0,
       1, 7, 0, 0,  0, 1, 0, 2, 0, 3,
       6, 8, 0, 0,  0, 8]) ==
      Ok(SensorReports([Acceleration(SensorData(1, 7, 0, [QValue(0x100, 8), QValue(0x200, 8), QValue(0x300, 8)]))]))
  {
    var data: seq<Byte> := [25, 0, 3, 0,  0xFB, 0, 0, 0, 0, 1, 7, 0, 0,  0, 1, 0, 2, 0, 3, 6, 8, 0, 0,  0, 8];
    assert DecodeBatch(data, 19) == Ok([]);
    assert DecodeRecord(data, 9) == Acceleration(SensorData(1, 7, 0, [QValue(0x100, 8), QValue(0x200, 8), QValue(0x300, 8)]));
    assert DecodeBatch(data, 9) == Extend([DecodeRecord(data, 9)], DecodeBatch(data, 19));
    assert [DecodeRecord(data, 9)] + [] == [DecodeRecord(data, 9)];
    assert DecodeBatch(data, 9) == Ok([DecodeRecord(data, 9)]);
    assert DecodeSensorReports(data) == Ok(SensorReports([DecodeRecord(data, 9)]));
  }

  /** One gravity record with raw value 2048 decodes to 2048 / 2^8 = 8.0, in a
      frame padded to the 23-byte minimum. */
  lemma GravityExample()
    ensures DecodeSensorReports(
      [23, 0, 3, 0,  0xFB, 0, 0, 0, 0,
       6, 1, 0, 0,  0x00, 0x08,
       0, 0, 0, 0,  0, 0, 0, 0]) ==
      Ok(SensorReports([Gravity(SensorData(6, 1, 0, [QValue(2048, 8)]))]))
    ensures QValue(2048, 8).Real() == 8.0
  {
    var data: seq<Byte> := [23, 0, 3, 0,  0xFB, 0, 0, 0, 0, 6, 1, 0, 0,  0x00, 0x08, 0, 0, 0, 0,  0, 0, 0, 0];
    assert DecodeBatch(data, 15) == Ok([]);
    assert DecodeRecord(data, 9) == Gravity(SensorData(6, 1, 0, [QValue(2048, 8)]));
    assert DecodeBatch(data, 9) == Extend([DecodeRecord(data, 9)], DecodeBatch(data, 15));
    assert [DecodeRecord(data, 9)] + [] == [DecodeRecord(data, 9)];
    assert DecodeBatch(data, 9) == Ok([DecodeRecord(data, 9)]);
    assert DecodeSensorReports(data) == Ok(SensorReports([DecodeRecord(data, 9)]));
    assert Pow2(8) == 256 by {
      assert Pow2(4) == 16;
    }
  }

  /** The same gravity record without the padding is a frame of 15 bytes,
      which the minimum-payload check rejects. */
  lemma LoneGravityRejectedExample()
    ensures DecodeSensorReports(
      [15, 0, 3, 0,  0xFB, 0, 0, 0, 0,
       6, 1, 0, 0,  0x00, 0x08]) == Err(BnoPacketParseError.Unknown)
  {
  }

  lemma ScaledBounds(f: real, p: real, v: real)
    requires p > 0.0 && f <= v * p < f + 1.0
    ensures f / p <= v < f / p + 1.0 / p
  {
    assert f / p * p == f;
    assert (f / p + 1.0 / p) * p == f + 1.0;
  }

  /** Quantizing a physical value down to a multiple of 2^-q and decoding it
      gives back the value to within one quantization step. */
  lemma QuantizationWithinStep(v: real, q: nat, raw: I16)
    requires raw == (v * Pow2(q) as real).Floor
    ensures QValue(raw, q).Real() <= v < QValue(raw, q).Real() + 1.0 / Pow2(q) as real
  {
    var p := Pow2(q) as real;
    assert raw as real <= v * p < raw as real + 1.0;
    ScaledBounds(raw as real, p, v);
  }
}
