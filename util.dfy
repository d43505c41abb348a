/**
 * Building a Message from a decoded protobuf Sample: a field-by-field copy
 * in which the particulate sensor's housekeeping fields and bins are
 * narrowed from 32 to 16 (or 8) bits.
 */
module ModelUtil {
  import opened Types
  import opened Model

  /** The sample's 24 histogram bins, as 32-bit protobuf fields. */
  type SampleBins = s: seq<U32> | |s| == 24 witness seq(24, i => 0)

  /** The fields of the protobuf Sample that the conversion reads. */
  datatype Sample = Sample(
    sysid: U64,
    firmwareVersion: U32,
    uptime: U32,
    boardTemp: real,
    boardRelHumidity: real,
    status: U32,
    gpsTimestamp: real,
    lat: real,
    lon: real,
    alt: real,
    sensor1Work: U32,
    sensor1Aux: U32,
    sensor2Work: U32,
    sensor2Aux: U32,
    sensor3Work: U32,
    sensor3Aux: U32,
    afe3TempRaw: U32,
    opcPmA: real,
    opcPmB: real,
    opcPmC: real,
    pm1: real,
    pm10: real,
    pm25: real,
    opcSamplePeriod: U32,
    opcSampleFlowRate: U32,
    opcTemp: U32,
    opcHum: U32,
    opcFanRevcount: U32,
    opcLaserStatus: U32,
    opcSampleValid: U32,
    opcBins: SampleBins
  )

  function NarrowBins(b: SampleBins): (r: OpcBins)
    ensures forall i :: 0 <= i < 24 ==> r[i] == Low16(b[i])
  {
    seq(24, i requires 0 <= i < 24 => Low16(b[i]))
  }

  /**
   * The Message for a sample. Identity, transport and derived fields are
   * left at their zero values; the caller fills DeviceID, ReceivedTime and
   * PacketSize afterwards.
   */
  function MessageFromProtobuf(s: Sample): (m: Message)
    ensures m.id == 0 && m.deviceID == "" && m.receivedTime == 0 && m.packetSize == 0
    ensures m.afe3TempValue == 0.0
    ensures m.no2PPB == Finite(0.0) && m.o3PPB == Finite(0.0) && m.noPPB == Finite(0.0)
  {
    Message(
      0, "", s.sysid, 0, 0,
      Board(s.firmwareVersion, s.uptime, s.boardTemp, s.boardRelHumidity, s.status),
      Gps(s.gpsTimestamp, s.lat, s.lon, s.alt),
      Afe3Raw(s.sensor1Work, s.sensor1Aux, s.sensor2Work, s.sensor2Aux,
              s.sensor3Work, s.sensor3Aux, s.afe3TempRaw),
      Opc(s.opcPmA, s.opcPmB, s.opcPmC, s.pm1, s.pm10, s.pm25,
          Low16(s.opcSamplePeriod), Low16(s.opcSampleFlowRate), Low16(s.opcTemp),
          Low16(s.opcHum), Low16(s.opcFanRevcount), Low16(s.opcLaserStatus),
          Low8(s.opcSampleValid),
          NarrowBins(s.opcBins)),
      0.0, Finite(0.0), Finite(0.0), Finite(0.0))
  }

  /**
   * The reverse mapping, from a Message back to the sample fields it was
   * built from (an independent reading of the field correspondence).
   */
  function SampleOf(m: Message): Sample
  {
    Sample(
      m.sysID, m.board.firmwareVersion, m.board.uptime, m.board.boardTemp,
      m.board.boardRelHumidity, m.board.status,
      m.gps.timeStamp, m.gps.lat, m.gps.lon, m.gps.alt,
      m.afe3.sensor1Work, m.afe3.sensor1Aux, m.afe3.sensor2Work, m.afe3.sensor2Aux,
      m.afe3.sensor3Work, m.afe3.sensor3Aux, m.afe3.afe3TempRaw,
      m.opc.pmA, m.opc.pmB, m.opc.pmC, m.opc.pm1, m.opc.pm10, m.opc.pm25,
      m.opc.samplePeriod, m.opc.sampleFlowRate, m.opc.temp,
      m.opc.hum, m.opc.fanRevcount, m.opc.laserStatus, m.opc.sampleValid,
      seq(24, i requires 0 <= i < 24 => m.opc.bins[i] as U32))
  }

  /** The sample with every narrowed field cut to the bits the Message keeps. */
  function Truncated(s: Sample): Sample
  {
    s.(opcSamplePeriod := Low16(s.opcSamplePeriod),
       opcSampleFlowRate := Low16(s.opcSampleFlowRate),
       opcTemp := Low16(s.opcTemp),
       opcHum := Low16(s.opcHum),
       opcFanRevcount := Low16(s.opcFanRevcount),
       opcLaserStatus := Low16(s.opcLaserStatus),
       opcSampleValid := Low8(s.opcSampleValid),
       opcBins := seq(24, i requires 0 <= i < 24 => Low16(s.opcBins[i]) as U32))
  }

  /** True when no narrowing conversion loses bits. */
  predicate FitsNarrowFields(s: Sample)
  {
    && s.opcSamplePeriod < TWO_16 && s.opcSampleFlowRate < TWO_16 && s.opcTemp < TWO_16
    && s.opcHum < TWO_16 && s.opcFanRevcount < TWO_16 && s.opcLaserStatus < TWO_16
    && s.opcSampleValid < TWO_8
    && forall i :: 0 <= i < 24 ==> s.opcBins[i] < TWO_16
  }

  /** Board, GPS, AFE3 and PM fields are copied verbatim. */
  lemma FromProtobufCopies(s: Sample)
    ensures var m := MessageFromProtobuf(s);
      && m.sysID == s.sysid
      && m.board == Board(s.firmwareVersion, s.uptime, s.boardTemp, s.boardRelHumidity, s.status)
      && m.gps == Gps(s.gpsTimestamp, s.lat, s.lon, s.alt)
      && m.afe3.sensor1Work == s.sensor1Work && m.afe3.sensor1Aux == s.sensor1Aux
      && m.afe3.sensor2Work == s.sensor2Work && m.afe3.sensor2Aux == s.sensor2Aux
      && m.afe3.sensor3Work == s.sensor3Work && m.afe3.sensor3Aux == s.sensor3Aux
      && m.afe3.afe3TempRaw == s.afe3TempRaw
      && m.opc.pmA == s.opcPmA && m.opc.pmB == s.opcPmB && m.opc.pmC == s.opcPmC
      && m.opc.pm1 == s.pm1 && m.opc.pm10 == s.pm10 && m.opc.pm25 == s.pm25
  {
  }

  /** The OPC housekeeping fields keep their low 16 bits, SampleValid its low 8 bits, each bin its low 16 bits. */
  lemma FromProtobufNarrows(s: Sample)
    ensures var o := MessageFromProtobuf(s).opc;
      && o.samplePeriod == s.opcSamplePeriod % TWO_16
      && o.sampleFlowRate == s.opcSampleFlowRate % TWO_16
      && o.temp == s.opcTemp % TWO_16
      && o.hum == s.opcHum % TWO_16
      && o.fanRevcount == s.opcFanRevcount % TWO_16
      && o.laserStatus == s.opcLaserStatus % TWO_16
      && o.sampleValid == s.opcSampleValid % TWO_8
      && forall i :: 0 <= i < 24 ==> o.bins[i] == s.opcBins[i] % TWO_16
  {
  }

  /** Reading the sample back from the Message gives the sample cut to the kept bits. */
  lemma FromProtobufRecoversTruncated(s: Sample)
    ensures SampleOf(MessageFromProtobuf(s)) == Truncated(s)
  {
    var back := SampleOf(MessageFromProtobuf(s));
    assert back.opcBins == Truncated(s).opcBins;
  }

  /** Nothing is lost when every narrowed field already fits. */
  lemma FromProtobufRoundTrip(s: Sample)
    requires FitsNarrowFields(s)
    ensures SampleOf(MessageFromProtobuf(s)) == s
  {
    FromProtobufRecoversTruncated(s);
    assert Truncated(s).opcBins == s.opcBins;
  }

  /** Two samples give the same Message exactly when they agree on the bits the Message keeps. */
  lemma FromProtobufSameMessage(s1: Sample, s2: Sample)
    ensures MessageFromProtobuf(s1) == MessageFromProtobuf(s2) <==> Truncated(s1) == Truncated(s2)
  {
    FromProtobufRecoversTruncated(s1);
    FromProtobufRecoversTruncated(s2);
    if Truncated(s1) == Truncated(s2) {
      assert NarrowBins(s1.opcBins) == NarrowBins(s2.opcBins) by {
        forall i | 0 <= i < 24
          ensures NarrowBins(s1.opcBins)[i] == NarrowBins(s2.opcBins)[i]
        {
          assert Truncated(s1).opcBins[i] == Truncated(s2).opcBins[i];
        }
      }
    }
  }
}
