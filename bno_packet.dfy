/** The values a received frame decodes to. */
module Packet {
  import opened Bytes

  /** What a driver operation ends in: Rust's `Ok` and `Err`, plus the panic
      that indexing or slicing past the end of a buffer raises, with the
      offending index and the length of the buffer it was applied to. */
  datatype Outcome<T, E> = Ok(value: T) | Err(error: E) | Panic(index: nat, length: nat)

  /** Outcomes on the command channel. */
  datatype ChannelCommandData = AdvertiseResponse | ErrorList | Unknown(id: Byte)

  /** Outcomes on the executable channel. */
  datatype ChannelExecutableData = ResetComplete | Unknown(id: Byte)

  /** Outcomes on the hub-control channel. */
  datatype ChannelHubControlData = CommandResponse | ProdIdResponse | GetFeatureResponse | Unknown(id: Byte)

  function Pow2(n: nat): (p: nat)
    ensures p >= 1
  {
    if n == 0 then 1 else 2 * Pow2(n - 1)
  }

  /** A quantized field: the raw `i16` in the hub's Q format with exponent `q`.
      Its physical value is `raw / 2^q`, kept exact instead of as `f32`. */
  datatype QValue = QValue(raw: I16, q: nat) {
    function Real(): (x: real)
      ensures x * (Pow2(q) as real) == raw as real
    {
      raw as real / Pow2(q) as real
    }
  }

  /** One decoded sensor report; `values` has as many elements as the report
      kind has fields (the Rust type's `EL_COUNT`). */
  datatype SensorData = SensorData(id: Byte, seqNumber: Byte, status: Byte, values: seq<QValue>) {

    /** `SensorData::new` stores its arguments unchanged. */
    static function New(id: Byte, seqNumber: Byte, status: Byte, values: seq<QValue>): (d: SensorData)
      ensures d.id == id && d.seqNumber == seqNumber && d.status == status && d.values == values
    {
      SensorData(id, seqNumber, status, values)
    }

    /** `get_vec` copies the values, in order. */
    function GetVec(): (v: seq<QValue>)
      ensures |v| == |values|
      ensures forall i :: 0 <= i < |v| ==> v[i] == values[i]
    {
      values[..]
    }
  }

  type SensorData1 = d: SensorData | |d.values| == 1
    witness SensorData(0, 0, 0, [QValue(0, 0)])
  type SensorData3 = d: SensorData | |d.values| == 3
    witness SensorData(0, 0, 0, [QValue(0, 0), QValue(0, 0), QValue(0, 0)])
  type SensorData5 = d: SensorData | |d.values| == 5
    witness SensorData(0, 0, 0, [QValue(0, 0), QValue(0, 0), QValue(0, 0), QValue(0, 0), QValue(0, 0)])

  /** One record of a sensor-report batch, by kind. */
  datatype SensorReportData =
    | Acceleration(SensorData3)
    | GyroCalibrated(SensorData3)
    | MagFieldCalibrated(SensorData3)
    | LinearAcceleration(SensorData3)
    | Rotation(SensorData5)
    | Gravity(SensorData1)
    | Unknown(id: Byte)
  {
    /** The number of fields the kind carries. */
    function ValueCount(): nat {
      match this
      case Rotation(_) => 5
      case Gravity(_) => 1
      case Unknown(_) => 0
      case _ => 3
    }

    /** The report stored in a known kind; its length is fixed by the kind. */
    function Data(): (d: SensorData)
      requires !Unknown?
      ensures |d.values| == ValueCount()
    {
      match this
      case Acceleration(d) => d
      case GyroCalibrated(d) => d
      case MagFieldCalibrated(d) => d
      case LinearAcceleration(d) => d
      case Rotation(d) => d
      case Gravity(d) => d
    }
  }

  /** A decoded frame: one outcome per control channel, or a batch of reports. */
  datatype BnoPacket =
    | ChannelCommand(ChannelCommandData)
    | ChannelExec(ChannelExecutableData)
    | ChannelHubControl(ChannelHubControlData)
    | SensorReports(reports: seq<SensorReportData>)

  datatype BnoPacketParseError = Unknown
}
