/** Protocol constants of the BNO08x sensor hub's SHTP framing. */
module BnoConstants {
  import opened Bytes

  /** Every SHTP frame starts with a 4-byte header. */
  const PacketHeaderLength: nat := 4
  /** The largest declared frame length that is not taken for garbage. */
  const MaxCargoDataLength: nat := 32766 - PacketHeaderLength

  // The channels of the hub.
  const ChannelCommand: Byte := 0
  const ChannelExecutable: Byte := 1
  const ChannelHubControl: Byte := 2
  const ChannelSensorReports: Byte := 3

  // Report IDs on the command channel.
  const CmdRespAdvertisement: Byte := 0
  const CmdRespErrorList: Byte := 1

  // Report IDs on the executable channel.
  const ExecutableDeviceRespResetComplete: Byte := 1

  // Report IDs on the hub-control channel.
  const ShubCommandResp: Byte := 0xF1
  const ShubProdIdResp: Byte := 0xF8
  const ShubGetFeatureResp: Byte := 0xFC

  // Commands the host writes.
  const ExecutableDeviceCmdReset: Byte := 1
  const ShubReportSetFeatureCmd: Byte := 0xFD

  // Report IDs of the sensor-report records.
  const SensorReportIdAccel: Byte := 0x01
  const SensorReportIdGyroCalibrated: Byte := 0x02
  const SensorReportIdMagCalibrated: Byte := 0x03
  const SensorReportIdLinearAccel: Byte := 0x04
  const SensorReportIdRotationVector: Byte := 0x05
  const SensorReportIdGravity: Byte := 0x06
}
