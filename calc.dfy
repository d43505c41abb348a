/**
 * The sensor transform: raw AFE3 ADC codes plus a calibration record give
 * the corrected board temperature and three gas concentrations in ppb.
 *
 * The piecewise-linear interpolation library is not part of this model: it
 * enters as an `Interpolator`, the library's `f.At(t)` for a function with
 * breakpoints `x` and values `y`, left uninterpreted.
 */
module Calc {
  import opened Types
  import opened Model

  /** The AFE3 ADC's volts per code ("lsb" in the datasheet). */
  const AfeScalingFactor: real := 0.0000005960464478

  /** The temperatures (degrees C) at which the correction tables are given. */
  const LutTemperatures: seq<real> := [-30.0, -20.0, -10.0, 0.0, 10.0, 20.0, 30.0, 40.0, 50.0]

  /**
   * Temperature correction tables per sensor type (Alphasense AAN 803,
   * appendix 1), as the source spells them: in "CO-A4" and "CO2-B4" a
   * missing comma turns the last entries into one subtraction, so those
   * tables have 8 and 7 entries; the two O3 tables have 8.
   */
  const Luts: map<string, seq<real>> := map[
    "CO-A4"  := [1.0, 1.0, 1.0, 1.0, 1.0, -1.0, -0.76, -0.76 - 0.76],
    "CO2-B4" := [-1.0, -1.0, -1.0, -1.0, -1.0, -1.0, -3.8 - 3.8 - 3.8],
    "NO-A4"  := [1.48, 1.48, 1.48, 1.48, 1.48, 2.02, 1.72, 1.72, 1.72],
    "NO-B4"  := [1.04, 1.04, 1.04, 1.04, 1.04, 1.82, 2.0, 2.0, 2.0],
    "NO2-A4" := [1.09, 1.09, 1.09, 1.09, 1.09, 1.35, 3.0, 3.0, 3.0],
    "NO2-B4" := [0.76, 0.76, 0.76, 0.76, 0.76, 0.68, 0.23, 0.23, 0.23],
    "SO2-A4" := [1.15, 1.15, 1.15, 1.15, 1.15, 1.82, 3.93, 3.93, 3.93],
    "SO2-B4" := [0.96, 0.96, 0.96, 0.96, 0.96, 1.34, 1.10, 1.10, 1.10],
    "O3-A4"  := [0.75, 0.75, 0.75, 0.75, 1.28, 1.28, 1.28, 1.28],
    "O3-B4"  := [0.77, 0.77, 0.77, 0.77, 1.56, 1.56, 1.56, 2.85]
  ]

  /** A piecewise-linear function given by breakpoints x and values y. */
  datatype Piecewise = Piecewise(x: seq<real>, y: seq<real>)

  /** The library's evaluation `Piecewise.At(t)`, uninterpreted. */
  type Interpolator = (seq<real>, seq<real>, real) -> real

  predicate StrictlyAscending(s: seq<real>)
  {
    forall i, j :: 0 <= i < j < |s| ==> s[i] < s[j]
  }

  /**
   * The correction function for a sensor type: its table over the matching
   * prefix of the temperatures. An unknown name is a failure (a panic in
   * the source), and so is a table longer than the temperature list (Go's
   * slice bounds check).
   */
  function CorrectionFuncFromName(name: string): (r: Result<Piecewise>)
    ensures r.Ok? <==> name in Luts && |Luts[name]| <= |LutTemperatures|
    ensures name !in Luts ==> r == Err(SensorNameNotFound(name))
    ensures r.Ok? ==> r.value.y == Luts[name] && |r.value.x| == |r.value.y|
    ensures r.Ok? ==> StrictlyAscending(r.value.x)
    ensures r.Ok? ==> forall i :: 0 <= i < |r.value.x| ==> r.value.x[i] == LutTemperatures[i]
  {
    if name !in Luts then Err(SensorNameNotFound(name))
    else
      var lut := Luts[name];
      if |lut| > |LutTemperatures| then Err(SliceOutOfRange)
      else Ok(Piecewise(LutTemperatures[..|lut|], lut))
  }

  /** Every table fits the temperature list, so every known name resolves. */
  lemma KnownNamesResolve(name: string)
    ensures CorrectionFuncFromName(name).Ok? <==> name in Luts
  {
    if name in Luts {
      assert |Luts[name]| <= 9 by {
        assert Luts.Keys == {"CO-A4", "CO2-B4", "NO-A4", "NO-B4", "NO2-A4", "NO2-B4",
                             "SO2-A4", "SO2-B4", "O3-A4", "O3-B4"};
      }
    }
  }

  /** `correctSensor1`, the NO-A4 correction built when the package loads. */
  function CorrectSensor1(): (f: Piecewise)
    ensures CorrectionFuncFromName("NO-A4") == Ok(f)
    ensures |f.x| == |f.y| == 9
  {
    CorrectionFuncFromName("NO-A4").value
  }

  /** The three package-level correction functions all build without a panic. */
  lemma PackageInitSucceeds()
    ensures CorrectionFuncFromName("NO-A4").Ok?
    ensures CorrectionFuncFromName("NO2-A4").Ok?
    ensures CorrectionFuncFromName("O3-A4").Ok?
  {
    KnownNamesResolve("NO-A4");
    KnownNamesResolve("NO2-A4");
    KnownNamesResolve("O3-A4");
  }

  /** Calling the closure `correctSensor1(t)`. */
  function CorrectSensor1At(at: Interpolator, t: real): real
  {
    at(CorrectSensor1().x, CorrectSensor1().y, t)
  }

  /** The corrected AFE3 temperature, in degrees C times 1000. */
  function AfeTemperature(raw: U32, vt20Offset: real): (r: real)
    ensures (0.02 - vt20Offset) * 1000.0 <= r < (0.02 - vt20Offset) * 1000.0 + 2560000.0
  {
    ((raw as real * AfeScalingFactor) - vt20Offset + 0.02) * 1000.0
  }

  /**
   * A raw ADC code in millivolts less the two calibration terms; the two
   * int32 terms are added in int32 (wrapping) before the conversion.
   */
  function Voltage(w: U32, offset: I32, zero: I32): (r: real)
    ensures 0.0 <= r + WrapI32(offset + zero) as real < 2560000.0
    ensures -TWO_31 <= offset + zero < TWO_31 ==> r == w as real * AfeScalingFactor * 1000.0 - (offset + zero) as real
  {
    (w as real * AfeScalingFactor * 1000.0) - WrapI32(offset + zero) as real
  }

  /**
   * One sensor block: the working-electrode millivolts less the auxiliary
   * millivolts times the correction factor cf, over the sensitivity.
   */
  function ChannelPpb(work: U32, aux: U32, ch: ChannelCal, cf: real): (r: Float)
    ensures r.Finite? <==> ch.weSensitivity != 0.0
    ensures r.Finite? ==> r.v * ch.weSensitivity == Voltage(work, ch.weE, ch.we0) - Voltage(aux, ch.aeE, ch.ae0) * cf
  {
    Quotient(Voltage(work, ch.weE, ch.we0) - Voltage(aux, ch.aeE, ch.ae0) * cf, ch.weSensitivity)
  }

  /** The message after the transform: four fields computed, the rest as they were. */
  function Transformed(m: Message, cal: Cal, at: Interpolator): (r: Message)
    ensures r.(afe3TempValue := m.afe3TempValue, no2PPB := m.no2PPB, o3PPB := m.o3PPB, noPPB := m.noPPB) == m
  {
    var temp := AfeTemperature(m.afe3.afe3TempRaw, cal.vt20Offset);
    var cf := CorrectSensor1At(at, temp);
    var no2 := ChannelPpb(m.afe3.sensor1Work, m.afe3.sensor1Aux, cal.sensor1, cf);
    m.(afe3TempValue := temp,
       no2PPB := no2,
       o3PPB := Minus(ChannelPpb(m.afe3.sensor2Work, m.afe3.sensor2Aux, cal.sensor2, cf), no2),
       noPPB := ChannelPpb(m.afe3.sensor3Work, m.afe3.sensor3Aux, cal.sensor3, cf))
  }

  /**
   * CalculateSensorValues: writes the temperature, then the three
   * concentrations, into the shared message. Every channel is corrected with
   * the NO-A4 table, and O3 is channel 2 less the NO2 value just written.
   */
  method CalculateSensorValues(m: MessageRef, cal: Cal, at: Interpolator)
    modifies m
    ensures m.value == Transformed(old(m.value), cal, at)
  {
    m.value := m.value.(afe3TempValue := AfeTemperature(m.value.afe3.afe3TempRaw, cal.vt20Offset));

    var sensor1Cf := CorrectSensor1At(at, m.value.afe3TempValue);
    var sensor2Cf := CorrectSensor1At(at, m.value.afe3TempValue);
    var sensor3Cf := CorrectSensor1At(at, m.value.afe3TempValue);

    // sensor 1: NO2
    m.value := m.value.(no2PPB := ChannelPpb(m.value.afe3.sensor1Work, m.value.afe3.sensor1Aux, cal.sensor1, sensor1Cf));
    // sensor 2: O3 + NO2, less the NO2 value just written
    m.value := m.value.(o3PPB := Minus(ChannelPpb(m.value.afe3.sensor2Work, m.value.afe3.sensor2Aux, cal.sensor2, sensor2Cf),
                                       m.value.no2PPB));
    // sensor 3: NO
    m.value := m.value.(noPPB := ChannelPpb(m.value.afe3.sensor3Work, m.value.afe3.sensor3Aux, cal.sensor3, sensor3Cf));
  }

  /** A higher raw temperature code never gives a lower temperature, and a strictly higher one a strictly higher one. */
  lemma AfeTemperatureMonotonic(raw1: U32, raw2: U32, vt20Offset: real)
    requires raw1 <= raw2
    ensures AfeTemperature(raw1, vt20Offset) <= AfeTemperature(raw2, vt20Offset)
    ensures raw1 < raw2 ==> AfeTemperature(raw1, vt20Offset) < AfeTemperature(raw2, vt20Offset)
  {
  }

  /** The derived values depend only on the raw AFE3 codes, not on what the message held before. */
  lemma TransformDependsOnlyOnRaw(m1: Message, m2: Message, cal: Cal, at: Interpolator)
    requires m1.afe3.afe3TempRaw == m2.afe3.afe3TempRaw
    requires m1.afe3.sensor1Work == m2.afe3.sensor1Work && m1.afe3.sensor1Aux == m2.afe3.sensor1Aux
    requires m1.afe3.sensor2Work == m2.afe3.sensor2Work && m1.afe3.sensor2Aux == m2.afe3.sensor2Aux
    requires m1.afe3.sensor3Work == m2.afe3.sensor3Work && m1.afe3.sensor3Aux == m2.afe3.sensor3Aux
    ensures var r1, r2 := Transformed(m1, cal, at), Transformed(m2, cal, at);
      && r1.afe3TempValue == r2.afe3TempValue
      && r1.no2PPB == r2.no2PPB && r1.o3PPB == r2.o3PPB && r1.noPPB == r2.noPPB
  {
  }

  /** Running the transform twice with the same record is the same as running it once. */
  lemma TransformIdempotent(m: Message, cal: Cal, at: Interpolator)
    ensures Transformed(Transformed(m, cal, at), cal, at) == Transformed(m, cal, at)
  {
  }

  /**
   * Only the NO-A4 table matters: two interpolators that agree on it at the
   * computed temperature give the same message, whatever they do on the
   * NO2-A4 or O3-A4 tables.
   */
  lemma TransformUsesOnlyNoA4(m: Message, cal: Cal, at1: Interpolator, at2: Interpolator)
    requires var t := AfeTemperature(m.afe3.afe3TempRaw, cal.vt20Offset);
      at1(CorrectSensor1().x, CorrectSensor1().y, t) == at2(CorrectSensor1().x, CorrectSensor1().y, t)
    ensures Transformed(m, cal, at1) == Transformed(m, cal, at2)
  {
  }

  /** O3 plus the NO2 value gives back the combined channel-2 concentration. */
  lemma O3AddsBackToChannel2(m: Message, cal: Cal, at: Interpolator)
    ensures var r := Transformed(m, cal, at);
      var ch2 := ChannelPpb(m.afe3.sensor2Work, m.afe3.sensor2Aux, cal.sensor2, CorrectSensor1At(at, r.afe3TempValue));
      r.o3PPB.Finite? ==> r.no2PPB.Finite? && ch2.Finite? && r.o3PPB.v + r.no2PPB.v == ch2.v
  {
  }

  /** With the NO2 value at zero, O3 is the unadjusted channel-2 concentration. */
  lemma O3WhenNO2IsZero(m: Message, cal: Cal, at: Interpolator)
    requires Transformed(m, cal, at).no2PPB == Finite(0.0)
    ensures var r := Transformed(m, cal, at);
      r.o3PPB == ChannelPpb(m.afe3.sensor2Work, m.afe3.sensor2Aux, cal.sensor2, CorrectSensor1At(at, r.afe3TempValue))
  {
  }

  /**
   * Where the concentrations are finite: NO2 and NO need their own
   * sensitivity to be nonzero, O3 needs both channel 1's and channel 2's.
   */
  lemma TransformFiniteness(m: Message, cal: Cal, at: Interpolator)
    ensures var r := Transformed(m, cal, at);
      && (r.no2PPB.Finite? <==> cal.sensor1.weSensitivity != 0.0)
      && (r.o3PPB.Finite? <==> cal.sensor1.weSensitivity != 0.0 && cal.sensor2.weSensitivity != 0.0)
      && (r.noPPB.Finite? <==> cal.sensor3.weSensitivity != 0.0)
  {
  }

  /** With the zero-valued record (no calibration found) all three concentrations are Inf or NaN. */
  lemma ZeroCalGivesNonFinite(m: Message, at: Interpolator)
    ensures var r := Transformed(m, ZeroCal, at);
      r.no2PPB == NonFinite && r.o3PPB == NonFinite && r.noPPB == NonFinite
  {
    TransformFiniteness(m, ZeroCal, at);
  }

  /** An int32 overflow of the two calibration terms flips their sign. */
  lemma VoltageSumWraps()
    ensures Voltage(0, 0x7fff_ffff, 1) == 2147483648.0
  {
  }

  /**
   * A worked example: code 500000 with terms 100 and 0 is 198.0232239 mV
   * (500000 codes are 298.0232239 mV); with the auxiliary electrode at zero
   * and sensitivity 0.2 that is 990.1161195 ppb of NO2.
   */
  lemma WorkedExampleNO2(m: Message, cal: Cal, at: Interpolator)
    requires m.afe3.sensor1Work == 500000 && m.afe3.sensor1Aux == 0
    requires cal.sensor1 == ChannelCal(100, 0, 0, 0, 0.0, 0.2)
    ensures Voltage(500000, 100, 0) == 198.0232239
    ensures Transformed(m, cal, at).no2PPB == Finite(990.1161195)
  {
    assert Voltage(0, 0, 0) == 0.0;
  }
}
