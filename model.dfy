/**
 * The shared entities: a calibration record (Cal) and one sensor sample
 * (Message), which the pipeline passes by pointer and mutates in place.
 */
module Model {
  import opened Types

  /** Go's zero time.Time (January 1, year 1, UTC) in milliseconds since the Unix epoch. */
  const GoZeroTimeMs: int := -62135596800000

  /** The calibration parameters of one electrochemical sensor channel. */
  datatype ChannelCal = ChannelCal(
    weE: I32,            // working electrode electronic zero, mV
    we0: I32,            // working electrode zero offset, mV
    aeE: I32,            // auxiliary electrode electronic zero, mV
    ae0: I32,            // auxiliary electrode zero offset, mV
    pcbGain: real,       // mV / nA
    weSensitivity: real  // mV / ppb
  )

  const ZeroChannel: ChannelCal := ChannelCal(0, 0, 0, 0, 0.0, 0.0)

  /**
   * One calibration snapshot. Time stamps are whole milliseconds since the
   * Unix epoch; sensor1..sensor3 hold the three channels' parameters.
   */
  datatype Cal = Cal(
    id: I64,
    deviceID: string,
    sysID: U64,
    collectionID: string,
    validFrom: int,
    circuitType: string,
    afeSerial: string,
    afeType: string,
    sensor1Serial: string,
    sensor2Serial: string,
    sensor3Serial: string,
    afeCalDate: int,
    vt20Offset: real,
    sensor1: ChannelCal,
    sensor2: ChannelCal,
    sensor3: ChannelCal
  )

  /** The zero value of the Go struct: what `var cal model.Cal` holds. */
  const ZeroCal: Cal := Cal(0, "", 0, "", GoZeroTimeMs, "", "", "", "", "", "",
                            GoZeroTimeMs, 0.0, ZeroChannel, ZeroChannel, ZeroChannel)

  /** The 24 histogram bins of the particulate sensor, narrowed to 16 bits. */
  type OpcBins = s: seq<U16> | |s| == 24 witness seq(24, i => 0)

  /** Board telemetry. */
  datatype Board = Board(firmwareVersion: U32, uptime: U32, boardTemp: real, boardRelHumidity: real, status: U32)

  /** GPS fix. */
  datatype Gps = Gps(timeStamp: real, lat: real, lon: real, alt: real)

  /** Raw ADC codes of the AFE3 board: three work/aux pairs and the temperature probe. */
  datatype Afe3Raw = Afe3Raw(
    sensor1Work: U32, sensor1Aux: U32,
    sensor2Work: U32, sensor2Aux: U32,
    sensor3Work: U32, sensor3Aux: U32,
    afe3TempRaw: U32)

  /** OPC-N3 particulate sensor readings and housekeeping. */
  datatype Opc = Opc(
    pmA: real, pmB: real, pmC: real,
    pm1: real, pm10: real, pm25: real,
    samplePeriod: U16, sampleFlowRate: U16, temp: U16, hum: U16,
    fanRevcount: U16, laserStatus: U16, sampleValid: U8,
    bins: OpcBins)

  /**
   * One sensor sample. The Go struct is flat; here the raw fields are
   * grouped as the source's comments group them. The last four fields are
   * the values the sensor transform derives.
   */
  datatype Message = Message(
    id: I64,
    deviceID: string,
    sysID: U64,
    receivedTime: I64,
    packetSize: I64,
    board: Board,
    gps: Gps,
    afe3: Afe3Raw,
    opc: Opc,
    afe3TempValue: real,
    no2PPB: Float,
    o3PPB: Float,
    noPPB: Float
  )

  /** A `*model.Message`: the stages share one message and update it in place. */
  class MessageRef {
    var value: Message

    constructor (m: Message)
      ensures value == m
    {
      value := m;
    }
  }
}
