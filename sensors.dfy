/** The MQ135 gas-sensor estimation engine of `AQS_ADS`: the raw ADC count
    becomes a sensor resistance, optionally corrected for temperature and
    humidity, and a power law turns the ratio of that resistance to the
    calibration baseline RZERO into a CO2 concentration in ppm.  Run
    backwards at the known atmospheric level, the same law yields a new RZERO. */
module Sensors {
  import opened Results
  import opened RealArith
  import opened RangeMap
  import opened PowerLaw

  /** The constants the sensor object is built with; none of them changes
      after construction. */
  datatype Config = Config(
    rLoad: real,   // load resistance on the board, kOhm
    rZero: real,   // calibration resistance at atmospheric CO2, kOhm
    parA: real,    // power-law scale
    parB: real,    // power-law exponent
    corA: real,    // correction model below 20 degC
    corB: real,
    corC: real,
    corD: real,
    corE: real,    // correction model from 20 degC up
    corF: real,
    corG: real,
    atmoCO2: real  // atmospheric CO2 level used for calibration, ppm
  )

  /** The values assigned when the sensor object is created. */
  const Factory := Config(
    4.2, 76.63, 116.6020682, 2.769034857,
    0.00035, 0.02718, 1.39538, 0.0018,
    -0.003333333, -0.001923077, 1.130128205,
    397.13)

  /** The raw range of the ADC channel and the 10-bit range it is mapped onto. */
  const RawMin: int := 110
  const RawMax: int := 23797
  const Scale: real := 1023.0

  // ---------------------------------------------------------------------------
  // Resistance

  /** The raw count remapped onto `[0, 1023]`.  It is zero exactly at and
      below the bottom of the raw range, 1023 exactly at and above the top,
      and strictly between the two inside.  The target range is ordered, so
      the remap clamped between its bounds is `map` as written. */
  function Mapped(raw: int): (m: real)
    ensures 0.0 <= m <= Scale
    ensures m == 0.0 <==> raw <= RawMin
    ensures m == Scale <==> RawMax <= raw
  {
    RemapBetweenAgrees(raw as real, RawMin as real, RawMax as real, 0.0, Scale);
    RemapIsClampedLine(raw as real, RawMin as real, RawMax as real, 0.0, Scale);
    RemapBetween(raw as real, RawMin as real, RawMax as real, 0.0, Scale).value
  }

  /** Inside the raw range the mapped count grows strictly with the raw count. */
  lemma MappedStrict(raw1: int, raw2: int)
    requires RawMin <= raw1 < raw2 <= RawMax
    ensures Mapped(raw1) < Mapped(raw2)
  {
    RemapBetweenAgrees(raw1 as real, RawMin as real, RawMax as real, 0.0, Scale);
    RemapBetweenAgrees(raw2 as real, RawMin as real, RawMax as real, 0.0, Scale);
    RemapIsClampedLine(raw1 as real, RawMin as real, RawMax as real, 0.0, Scale);
    RemapIsClampedLine(raw2 as real, RawMin as real, RawMax as real, 0.0, Scale);
  }

  /** Sensor resistance in kOhm for the raw count `raw` read from the ADC:
      the voltage divider gives `(1023 / mapped - 1) * RLOAD`.  At or below
      the bottom of the raw range the mapped count is zero and the division
      fails; at or above the top it is 1023 and the resistance is exactly
      zero; in between it is positive. */
  function Resistance(cfg: Config, raw: int): (r: Result<real>)
    ensures r.Err? <==> raw <= RawMin
    ensures r.Err? ==> r.error == DivideByZero
    ensures RawMax <= raw ==> r == Ok(0.0)
    ensures r.Ok? && 0.0 < cfg.rLoad && raw < RawMax ==> 0.0 < r.value
  {
    var mapped := Mapped(raw);
    var ratio :- Div(Scale, mapped - 0.0);
    QuotientAboveOne(Scale, mapped);
    MulPositive(ratio - 1.0, cfg.rLoad);
    Ok((ratio - 1.0) * cfg.rLoad)
  }

  /** The resistance of a count above the bottom of the raw range. */
  lemma ResistanceValue(cfg: Config, raw: int)
    requires RawMin < raw
    ensures Resistance(cfg, raw).Ok?
    ensures Resistance(cfg, raw).value == (Scale / Mapped(raw) - 1.0) * cfg.rLoad
  {
    assert Div(Scale, Mapped(raw) - 0.0) == Ok(Scale / Mapped(raw));
  }

  /** Within the raw range the resistance falls strictly as the count rises. */
  lemma ResistanceDecreasing(cfg: Config, raw1: int, raw2: int)
    requires 0.0 < cfg.rLoad && RawMin < raw1 < raw2 <= RawMax
    ensures Resistance(cfg, raw1).Ok? && Resistance(cfg, raw2).Ok?
    ensures Resistance(cfg, raw2).value < Resistance(cfg, raw1).value
  {
    ResistanceValue(cfg, raw1);
    ResistanceValue(cfg, raw2);
    var m1, m2 := Mapped(raw1), Mapped(raw2);
    MappedStrict(raw1, raw2);
    DivAntitone(Scale, m1, m2);
    var g1, g2 := Scale / m1 - 1.0, Scale / m2 - 1.0;
    MulStrict(g2, g1, cfg.rLoad);
  }

  // ---------------------------------------------------------------------------
  // Temperature and humidity correction

  /** The quadratic fit used below 20 degC, linear in the humidity around 33 %. */
  function ColdFactor(cfg: Config, t: real, h: real): real {
    cfg.corA * t * t - cfg.corB * t + cfg.corC - (h - 33.0) * cfg.corD
  }

  /** The linear fit used from 20 degC up. */
  function WarmFactor(cfg: Config, t: real, h: real): real {
    cfg.corE * t + cfg.corF * h + cfg.corG
  }

  /** The dimensionless factor that corrects the resistance for temperature
      `t` (degC) and relative humidity `h` (%). */
  function CorrectionFactor(cfg: Config, t: real, h: real): real {
    if t < 20.0 then ColdFactor(cfg, t, h) else WarmFactor(cfg, t, h)
  }

  /** At a fixed temperature the factor is affine in the humidity: its slope
      is `-CORD` below 20 degC and `CORF` from 20 degC up; below 20 degC the
      humidity term vanishes at the 33 % reference. */
  lemma HumidityAffine(cfg: Config, t: real, h1: real, h2: real)
    ensures CorrectionFactor(cfg, t, h1) - CorrectionFactor(cfg, t, h2)
         == (h1 - h2) * (if t < 20.0 then -cfg.corD else cfg.corF)
    ensures t < 20.0 ==> CorrectionFactor(cfg, t, 33.0) == cfg.corA * t * t - cfg.corB * t + cfg.corC
  {}

  /** With the factory constants the factor is positive for every humidity in
      `[0, 100]` and every temperature below 280 degC, so dividing by it never
      fails there. */
  lemma FactoryFactorPositive(t: real, h: real)
    requires 0.0 <= h <= 100.0 && t < 280.0
    ensures 0.0 < CorrectionFactor(Factory, t, h)
  {
    if t < 20.0 {
      MulMono(0.0, t * t, 0.00035);
    }
  }

  /** The two fits do not meet at 20 degC: with the factory constants the
      factor jumps by `0.012281545 - 0.000123077 * h` there, upwards for every
      humidity up to 99 %. */
  lemma FactoryDiscontinuity(h: real)
    ensures CorrectionFactor(Factory, 20.0, h) - ColdFactor(Factory, 20.0, h) == 0.012281545 - 0.000123077 * h
    ensures h <= 99.0 ==> ColdFactor(Factory, 20.0, h) < CorrectionFactor(Factory, 20.0, h)
  {}

  /** The resistance divided by the correction factor.  Fails when the
      resistance does or when the factor is zero; otherwise multiplying the
      result by the factor gives back the uncorrected resistance. */
  function CorrectedResistance(cfg: Config, raw: int, t: real, h: real): (r: Result<real>)
    ensures r.Err? <==> raw <= RawMin || CorrectionFactor(cfg, t, h) == 0.0
    ensures r.Err? ==> r.error == DivideByZero
    ensures r.Ok? ==> (Resistance(cfg, raw).Ok?
                       && r.value * CorrectionFactor(cfg, t, h) == Resistance(cfg, raw).value)
  {
    var resistance :- Resistance(cfg, raw);
    Div(resistance, CorrectionFactor(cfg, t, h))
  }

  // ---------------------------------------------------------------------------
  // Concentration

  /** The power law `PARA * (r / RZERO) ^ (-PARB)` at resistance `r`.  A zero
      RZERO divides by zero; a zero ratio with a positive exponent, or a
      negative ratio with a fractional exponent, is outside the domain of the
      power.  With positive constants and resistance the result is positive. */
  function PpmOf(cfg: Config, pow: PowFn, r: real): (p: Result<real>)
    ensures cfg.rZero == 0.0 ==> p == Err(DivideByZero)
    ensures cfg.rZero != 0.0 ==>
      (p.Err? <==> (r == 0.0 && 0.0 < cfg.parB) || (r / cfg.rZero < 0.0 && !IsIntegral(-cfg.parB)))
    ensures cfg.rZero != 0.0 && p.Err? ==> p.error == DomainError
    ensures Laws(pow) && 0.0 < cfg.parA && 0.0 < cfg.rZero && 0.0 < r ==> p.Ok? && 0.0 < p.value
  {
    var ratio :- Div(r, cfg.rZero);
    var power :- MathPow(pow, ratio, -cfg.parB);
    MulPositive(cfg.parA, power);
    Ok(cfg.parA * power)
  }

  /** On a positive ratio the power law is the plain formula. */
  lemma PpmOfValue(cfg: Config, pow: PowFn, r: real)
    requires 0.0 < cfg.rZero && 0.0 < r
    ensures PpmOf(cfg, pow, r).Ok?
    ensures PpmOf(cfg, pow, r).value == cfg.parA * pow(r / cfg.rZero, -cfg.parB)
  {
    var ratio := r / cfg.rZero;
    assert Div(r, cfg.rZero) == Ok(ratio);
    assert MathPow(pow, ratio, -cfg.parB) == Ok(pow(ratio, -cfg.parB));
  }

  /** Concentration in ppm from the raw count, uncorrected.  A reading at the
      top of the raw range has zero resistance, which the power law cannot
      raise to a negative exponent. */
  function Ppm(cfg: Config, pow: PowFn, raw: int): (p: Result<real>)
    ensures raw <= RawMin ==> p == Err(DivideByZero)
    ensures cfg.rZero == 0.0 ==> p == Err(DivideByZero)
    ensures RawMax <= raw && cfg.rZero != 0.0 && 0.0 < cfg.parB ==> p == Err(DomainError)
    ensures Laws(pow) && RawMin < raw < RawMax && 0.0 < cfg.rLoad && 0.0 < cfg.parA && 0.0 < cfg.rZero
      ==> p.Ok? && 0.0 < p.value
  {
    var resistance :- Resistance(cfg, raw);
    PpmOf(cfg, pow, resistance)
  }

  /** Concentration in ppm from the raw count, corrected for temperature and humidity. */
  function CorrectedPpm(cfg: Config, pow: PowFn, raw: int, t: real, h: real): (p: Result<real>)
    ensures raw <= RawMin || CorrectionFactor(cfg, t, h) == 0.0 ==> p == Err(DivideByZero)
    ensures cfg.rZero == 0.0 ==> p == Err(DivideByZero)
    ensures Laws(pow) && RawMin < raw < RawMax && 0.0 < cfg.rLoad && 0.0 < cfg.parA && 0.0 < cfg.rZero
            && 0.0 < CorrectionFactor(cfg, t, h)
      ==> p.Ok? && 0.0 < p.value
  {
    var resistance :- CorrectedResistance(cfg, raw, t, h);
    PositiveQuotient(Resistance(cfg, raw).value, CorrectionFactor(cfg, t, h), resistance);
    PpmOf(cfg, pow, resistance)
  }

  /** A number that times a positive factor gives a positive product is positive. */
  lemma PositiveQuotient(r: real, f: real, q: real)
    ensures 0.0 < r && 0.0 < f && q * f == r ==> 0.0 < q
  {
    if 0.0 < f && q <= 0.0 {
      MulMono(q, 0.0, f);
    }
  }

  /** Higher resistance means cleaner air: for a positive exponent the
      concentration falls strictly as the resistance rises. */
  lemma PpmDecreasing(cfg: Config, pow: PowFn, r1: real, r2: real)
    requires Laws(pow) && 0.0 < cfg.parA && 0.0 < cfg.parB && 0.0 < cfg.rZero && 0.0 < r1 < r2
    ensures PpmOf(cfg, pow, r1).Ok? && PpmOf(cfg, pow, r2).Ok?
    ensures PpmOf(cfg, pow, r2).value < PpmOf(cfg, pow, r1).value
  {
    DivStrict(0.0, r1, cfg.rZero);
    DivStrict(r1, r2, cfg.rZero);
    Antitone(pow, r1 / cfg.rZero, r2 / cfg.rZero, -cfg.parB);
    DecreasingArithmetic(cfg, pow, r1, r2);
  }

  /** The arithmetic of `PpmDecreasing`, given that the power reverses the
      order of the two ratios. */
  lemma DecreasingArithmetic(cfg: Config, pow: PowFn, r1: real, r2: real)
    requires 0.0 < cfg.parA && 0.0 < cfg.rZero && 0.0 < r1 < r2
    requires pow(r2 / cfg.rZero, -cfg.parB) < pow(r1 / cfg.rZero, -cfg.parB)
    ensures PpmOf(cfg, pow, r1).Ok? && PpmOf(cfg, pow, r2).Ok?
    ensures PpmOf(cfg, pow, r2).value < PpmOf(cfg, pow, r1).value
  {
    PpmOfValue(cfg, pow, r1);
    PpmOfValue(cfg, pow, r2);
    var p1, p2 := pow(r1 / cfg.rZero, -cfg.parB), pow(r2 / cfg.rZero, -cfg.parB);
    MulStrict(p2, p1, cfg.parA);
  }

  /** Inside the raw range the concentration rises strictly with the count. */
  lemma PpmIncreasingInRaw(cfg: Config, pow: PowFn, raw1: int, raw2: int)
    requires Laws(pow) && 0.0 < cfg.rLoad && 0.0 < cfg.parA && 0.0 < cfg.parB && 0.0 < cfg.rZero
    requires RawMin < raw1 < raw2 < RawMax
    ensures Ppm(cfg, pow, raw1).Ok? && Ppm(cfg, pow, raw2).Ok?
    ensures Ppm(cfg, pow, raw1).value < Ppm(cfg, pow, raw2).value
  {
    ResistanceDecreasing(cfg, raw1, raw2);
    var r1, r2 := Resistance(cfg, raw1).value, Resistance(cfg, raw2).value;
    PpmDecreasing(cfg, pow, r2, r1);
    assert Ppm(cfg, pow, raw1) == PpmOf(cfg, pow, r1);
    assert Ppm(cfg, pow, raw2) == PpmOf(cfg, pow, r2);
  }

  // ---------------------------------------------------------------------------
  // Calibration

  /** The baseline `r * (ATMOCO2 / PARA) ^ (1 / PARB)` that makes resistance
      `r` read as the atmospheric level.  A zero PARA or PARB divides by zero;
      with positive ATMOCO2 and PARA and a non-zero PARB it always succeeds,
      and a positive resistance gives a positive baseline. */
  function RZeroOf(cfg: Config, pow: PowFn, r: real): (z: Result<real>)
    ensures cfg.parA == 0.0 || cfg.parB == 0.0 ==> z == Err(DivideByZero)
    ensures Laws(pow) && 0.0 < cfg.atmoCO2 && 0.0 < cfg.parA && cfg.parB != 0.0
      ==> z.Ok? && (0.0 < r ==> 0.0 < z.value) && (r == 0.0 ==> z.value == 0.0)
  {
    var level :- Div(cfg.atmoCO2, cfg.parA);
    var root :- Div(1.0, cfg.parB);
    var scale :- MathPow(pow, level, root);
    MulPositive(r, scale);
    Ok(r * scale)
  }

  /** With a positive level and a non-zero exponent the baseline is the
      plain formula, whatever the resistance. */
  lemma RZeroOfValue(cfg: Config, pow: PowFn, r: real)
    requires 0.0 < cfg.atmoCO2 && 0.0 < cfg.parA && cfg.parB != 0.0
    ensures RZeroOf(cfg, pow, r).Ok?
    ensures RZeroOf(cfg, pow, r).value == r * pow(cfg.atmoCO2 / cfg.parA, 1.0 / cfg.parB)
  {
    var level, root := cfg.atmoCO2 / cfg.parA, 1.0 / cfg.parB;
    assert Div(cfg.atmoCO2, cfg.parA) == Ok(level);
    assert Div(1.0, cfg.parB) == Ok(root);
    assert MathPow(pow, level, root) == Ok(pow(level, root));
  }

  /** Calibration baseline from the raw count, uncorrected. */
  function RZero(cfg: Config, pow: PowFn, raw: int): (z: Result<real>)
    ensures raw <= RawMin ==> z == Err(DivideByZero)
    ensures Laws(pow) && 0.0 < cfg.atmoCO2 && 0.0 < cfg.parA && cfg.parB != 0.0 && RawMax <= raw
      ==> z == Ok(0.0)
    ensures Laws(pow) && 0.0 < cfg.atmoCO2 && 0.0 < cfg.parA && cfg.parB != 0.0
            && 0.0 < cfg.rLoad && RawMin < raw < RawMax
      ==> z.Ok? && 0.0 < z.value
  {
    var resistance :- Resistance(cfg, raw);
    RZeroOf(cfg, pow, resistance)
  }

  /** Calibration baseline from the raw count, corrected for temperature and humidity. */
  function CorrectedRZero(cfg: Config, pow: PowFn, raw: int, t: real, h: real): (z: Result<real>)
    ensures raw <= RawMin || CorrectionFactor(cfg, t, h) == 0.0 ==> z == Err(DivideByZero)
    ensures Laws(pow) && 0.0 < cfg.atmoCO2 && 0.0 < cfg.parA && cfg.parB != 0.0
            && 0.0 < cfg.rLoad && RawMin < raw < RawMax && 0.0 < CorrectionFactor(cfg, t, h)
      ==> z.Ok? && 0.0 < z.value
  {
    var resistance :- CorrectedResistance(cfg, raw, t, h);
    PositiveQuotient(Resistance(cfg, raw).value, CorrectionFactor(cfg, t, h), resistance);
    RZeroOf(cfg, pow, resistance)
  }

  /** Calibration round trip: the baseline computed from resistance `r` makes
      the power law read exactly the atmospheric level at `r`. */
  lemma CalibrationRoundTrip(cfg: Config, pow: PowFn, r: real)
    requires Laws(pow) && 0.0 < r && 0.0 < cfg.atmoCO2 && 0.0 < cfg.parA && cfg.parB != 0.0
    ensures RZeroOf(cfg, pow, r).Ok?
    ensures PpmOf(cfg.(rZero := RZeroOf(cfg, pow, r).value), pow, r) == Ok(cfg.atmoCO2)
  {
    var level := cfg.atmoCO2 / cfg.parA;
    DivStrict(0.0, cfg.atmoCO2, cfg.parA);
    RootRoundTrip(pow, level, cfg.parB);
    RoundTripArithmetic(cfg, pow, r);
  }

  /** The arithmetic of the round trip, given the two facts about the power
      that it needs: the root is positive, and raising its reciprocal to
      `-PARB` undoes it. */
  lemma RoundTripArithmetic(cfg: Config, pow: PowFn, r: real)
    requires 0.0 < r && 0.0 < cfg.atmoCO2 && 0.0 < cfg.parA && cfg.parB != 0.0
    requires 0.0 < pow(cfg.atmoCO2 / cfg.parA, 1.0 / cfg.parB)
    requires pow(1.0 / pow(cfg.atmoCO2 / cfg.parA, 1.0 / cfg.parB), -cfg.parB) == cfg.atmoCO2 / cfg.parA
    ensures RZeroOf(cfg, pow, r).Ok?
    ensures PpmOf(cfg.(rZero := RZeroOf(cfg, pow, r).value), pow, r) == Ok(cfg.atmoCO2)
  {
    var level := cfg.atmoCO2 / cfg.parA;
    var scale := pow(level, 1.0 / cfg.parB);
    RZeroOfValue(cfg, pow, r);
    var z := RZeroOf(cfg, pow, r).value;
    assert z == r * scale;
    CancelFactor(r, scale);
    var calibrated := cfg.(rZero := z);
    PpmOfValue(calibrated, pow, r);
    assert r / calibrated.rZero == 1.0 / scale;
    var reading := PpmOf(calibrated, pow, r);
    assert reading.value == cfg.parA * level;
    QuotientTimes(cfg.atmoCO2, cfg.parA);
    assert reading.Ok? && reading.value == cfg.atmoCO2;
  }

  /** The other direction: a resistance that already reads as the
      atmospheric level reproduces the current baseline on calibration. */
  lemma CalibrationFixedPoint(cfg: Config, pow: PowFn, r: real)
    requires Laws(pow) && 0.0 < r && 0.0 < cfg.rZero && 0.0 < cfg.parA && cfg.parB != 0.0
    requires PpmOf(cfg, pow, r) == Ok(cfg.atmoCO2)
    ensures RZeroOf(cfg, pow, r) == Ok(cfg.rZero)
  {
    DivStrict(0.0, r, cfg.rZero);
    PowerThenRoot(pow, r / cfg.rZero, cfg.parB);
    FixedPointArithmetic(cfg, pow, r);
  }

  /** The arithmetic of the fixed point, given that the `PARB`-th root of
      `(r / RZERO) ^ (-PARB)` is the reciprocal of `r / RZERO`. */
  lemma FixedPointArithmetic(cfg: Config, pow: PowFn, r: real)
    requires 0.0 < r && 0.0 < cfg.rZero && 0.0 < cfg.parA && cfg.parB != 0.0
    requires 0.0 < pow(r / cfg.rZero, -cfg.parB)
    requires pow(pow(r / cfg.rZero, -cfg.parB), 1.0 / cfg.parB) * (r / cfg.rZero) == 1.0
    requires PpmOf(cfg, pow, r) == Ok(cfg.atmoCO2)
    ensures RZeroOf(cfg, pow, r) == Ok(cfg.rZero)
  {
    var ratio := r / cfg.rZero;
    var power := pow(ratio, -cfg.parB);
    PpmOfValue(cfg, pow, r);
    assert cfg.parA * power == cfg.atmoCO2;
    MulPositive(cfg.parA, power);
    RZeroOfValue(cfg, pow, r);
    var level := cfg.atmoCO2 / cfg.parA;
    assert level == power;
    var inv := pow(power, 1.0 / cfg.parB);
    assert pow(level, 1.0 / cfg.parB) == inv;
    var z := RZeroOf(cfg, pow, r).value;
    assert z == r * inv;
    UndoRatio(r, cfg.rZero, inv);
  }

  /** Calibrating from a raw count and then reading the same count gives the
      atmospheric level, uncorrected. */
  lemma CalibrateThenRead(cfg: Config, pow: PowFn, raw: int)
    requires Laws(pow) && 0.0 < cfg.rLoad && 0.0 < cfg.atmoCO2 && 0.0 < cfg.parA && cfg.parB != 0.0
    requires RawMin < raw < RawMax
    ensures RZero(cfg, pow, raw).Ok?
    ensures Ppm(cfg.(rZero := RZero(cfg, pow, raw).value), pow, raw) == Ok(cfg.atmoCO2)
  {
    var r := Resistance(cfg, raw).value;
    CalibrationRoundTrip(cfg, pow, r);
    var calibrated := cfg.(rZero := RZero(cfg, pow, raw).value);
    BaselineIrrelevant(cfg, calibrated, raw, 0.0, 0.0);
  }

  /** The same for the corrected readings, at the same temperature and humidity. */
  lemma CalibrateThenReadCorrected(cfg: Config, pow: PowFn, raw: int, t: real, h: real)
    requires Laws(pow) && 0.0 < cfg.rLoad && 0.0 < cfg.atmoCO2 && 0.0 < cfg.parA && cfg.parB != 0.0
    requires RawMin < raw < RawMax && 0.0 < CorrectionFactor(cfg, t, h)
    ensures CorrectedRZero(cfg, pow, raw, t, h).Ok?
    ensures CorrectedPpm(cfg.(rZero := CorrectedRZero(cfg, pow, raw, t, h).value), pow, raw, t, h)
         == Ok(cfg.atmoCO2)
  {
    var r := CorrectedResistance(cfg, raw, t, h).value;
    PositiveQuotient(Resistance(cfg, raw).value, CorrectionFactor(cfg, t, h), r);
    CalibrationRoundTrip(cfg, pow, r);
    var calibrated := cfg.(rZero := CorrectedRZero(cfg, pow, raw, t, h).value);
    BaselineIrrelevant(cfg, calibrated, raw, t, h);
  }

  /** The resistance readings do not depend on the calibration baseline. */
  lemma BaselineIrrelevant(cfg: Config, other: Config, raw: int, t: real, h: real)
    requires other == cfg.(rZero := other.rZero)
    ensures Resistance(other, raw) == Resistance(cfg, raw)
    ensures CorrectionFactor(other, t, h) == CorrectionFactor(cfg, t, h)
    ensures CorrectedResistance(other, raw, t, h) == CorrectedResistance(cfg, raw, t, h)
  {
    assert other.rLoad == cfg.rLoad;
    if RawMin < raw {
      ResistanceValue(cfg, raw);
      ResistanceValue(other, raw);
      var r := Resistance(cfg, raw).value;
      assert Resistance(other, raw).value == r;
      assert Resistance(other, raw) == Ok(r);
      var f := CorrectionFactor(cfg, t, h);
      assert CorrectionFactor(other, t, h) == f;
      assert CorrectedResistance(cfg, raw, t, h) == Div(r, f);
      assert CorrectedResistance(other, raw, t, h) == Div(r, f);
    }
  }

  // ---------------------------------------------------------------------------
  // How the correction composes with the rest

  /** A unit correction factor changes nothing: corrected resistance,
      concentration and baseline equal the uncorrected ones. */
  lemma UnitCorrection(cfg: Config, pow: PowFn, raw: int, t: real, h: real)
    requires CorrectionFactor(cfg, t, h) == 1.0
    ensures CorrectedResistance(cfg, raw, t, h) == Resistance(cfg, raw)
    ensures CorrectedPpm(cfg, pow, raw, t, h) == Ppm(cfg, pow, raw)
    ensures CorrectedRZero(cfg, pow, raw, t, h) == RZero(cfg, pow, raw)
  {
  }

  /** Dividing the resistance by a non-zero factor `f` reads the same
      concentration as scaling the baseline RZERO by `f`. */
  lemma CorrectionScalesBaseline(cfg: Config, pow: PowFn, raw: int, t: real, h: real)
    requires CorrectionFactor(cfg, t, h) != 0.0
    ensures CorrectedPpm(cfg, pow, raw, t, h)
         == Ppm(cfg.(rZero := cfg.rZero * CorrectionFactor(cfg, t, h)), pow, raw)
  {
    var scaled := cfg.(rZero := cfg.rZero * CorrectionFactor(cfg, t, h));
    var f := CorrectionFactor(cfg, t, h);
    if RawMin < raw {
      var r := Resistance(cfg, raw).value;
      BaselineIrrelevant(cfg, scaled, raw, t, h);
      CorrectedUnfold(cfg, raw, t, h);
      PpmOfScaled(cfg, pow, r, f);
      assert cfg.(rZero := cfg.rZero * f) == scaled;
      assert PpmOf(cfg, pow, r / f) == PpmOf(scaled, pow, r);
      ReadingsUnfold(cfg, pow, raw, t, h);
      ReadingsUnfold(scaled, pow, raw, t, h);
      var corrected := CorrectedResistance(cfg, raw, t, h).value;
      assert corrected == r / f;
      assert CorrectedPpm(cfg, pow, raw, t, h) == PpmOf(cfg, pow, r / f);
      assert Resistance(scaled, raw).value == r;
      assert Ppm(scaled, pow, raw) == PpmOf(scaled, pow, r);
      assert CorrectedPpm(cfg, pow, raw, t, h) == Ppm(scaled, pow, raw);
    } else {
      assert CorrectedPpm(cfg, pow, raw, t, h) == Err(DivideByZero);
      assert Ppm(scaled, pow, raw) == Err(DivideByZero);
    }
  }

  /** Every reading of a count above the bottom of the raw range is the
      power law, or the calibration, applied to the matching resistance. */
  lemma ReadingsUnfold(cfg: Config, pow: PowFn, raw: int, t: real, h: real)
    requires RawMin < raw
    ensures Ppm(cfg, pow, raw) == PpmOf(cfg, pow, Resistance(cfg, raw).value)
    ensures RZero(cfg, pow, raw) == RZeroOf(cfg, pow, Resistance(cfg, raw).value)
    ensures CorrectionFactor(cfg, t, h) != 0.0 ==>
      CorrectedPpm(cfg, pow, raw, t, h) == PpmOf(cfg, pow, CorrectedResistance(cfg, raw, t, h).value)
    ensures CorrectionFactor(cfg, t, h) != 0.0 ==>
      CorrectedRZero(cfg, pow, raw, t, h) == RZeroOf(cfg, pow, CorrectedResistance(cfg, raw, t, h).value)
  {}

  /** The corrected resistance of a count above the bottom of the raw range,
      for a non-zero factor. */
  lemma CorrectedUnfold(cfg: Config, raw: int, t: real, h: real)
    requires RawMin < raw && CorrectionFactor(cfg, t, h) != 0.0
    ensures CorrectedResistance(cfg, raw, t, h)
         == Ok(Resistance(cfg, raw).value / CorrectionFactor(cfg, t, h))
  {
    var r, f := Resistance(cfg, raw).value, CorrectionFactor(cfg, t, h);
    assert Div(r, f) == Ok(r / f);
  }

  /** The power law at `r / f` is the power law at `r` against the baseline `RZERO * f`. */
  lemma PpmOfScaled(cfg: Config, pow: PowFn, r: real, f: real)
    requires f != 0.0
    ensures PpmOf(cfg, pow, r / f) == PpmOf(cfg.(rZero := cfg.rZero * f), pow, r)
  {
    var scaled := cfg.(rZero := cfg.rZero * f);
    if cfg.rZero != 0.0 {
      DivideThrough(r, 0.0, cfg.rZero, f);
      var ratio := r / scaled.rZero;
      assert (r / f) / cfg.rZero == ratio;
      PpmOfRatio(cfg, pow, r / f);
      PpmOfRatio(scaled, pow, r);
      var power := MathPow(pow, ratio, -cfg.parB);
      assert MathPow(pow, (r / f) / cfg.rZero, -cfg.parB) == power;
      assert MathPow(pow, r / scaled.rZero, -scaled.parB) == power;
      var a, b := PpmOf(cfg, pow, r / f), PpmOf(scaled, pow, r);
      if power.Ok? {
        assert a.Ok? && b.Ok? && a.value == b.value;
      }
    }
  }

  /** With a non-zero baseline the power law is the power of the ratio, or
      the error that the power raises. */
  lemma PpmOfRatio(cfg: Config, pow: PowFn, r: real)
    requires cfg.rZero != 0.0
    ensures MathPow(pow, r / cfg.rZero, -cfg.parB).Ok? ==>
      PpmOf(cfg, pow, r).Ok? && PpmOf(cfg, pow, r).value == cfg.parA * MathPow(pow, r / cfg.rZero, -cfg.parB).value
    ensures MathPow(pow, r / cfg.rZero, -cfg.parB).Err? ==> PpmOf(cfg, pow, r) == Err(DomainError)
  {
    var ratio := r / cfg.rZero;
    assert Div(r, cfg.rZero) == Ok(ratio);
  }

  /** Correcting the resistance divides the calibration baseline by the factor. */
  lemma CorrectionDividesBaseline(cfg: Config, pow: PowFn, raw: int, t: real, h: real)
    requires CorrectionFactor(cfg, t, h) != 0.0
    ensures RZero(cfg, pow, raw).Err? ==> CorrectedRZero(cfg, pow, raw, t, h) == RZero(cfg, pow, raw)
    ensures RZero(cfg, pow, raw).Ok? ==>
      CorrectedRZero(cfg, pow, raw, t, h) == Ok(RZero(cfg, pow, raw).value / CorrectionFactor(cfg, t, h))
  {
    var f := CorrectionFactor(cfg, t, h);
    if RawMin < raw {
      var r := Resistance(cfg, raw).value;
      CorrectedUnfold(cfg, raw, t, h);
      RZeroOfScaled(cfg, pow, r, f);
      ReadingsUnfold(cfg, pow, raw, t, h);
    }
  }

  /** The calibration at `r / f` is the calibration at `r` divided by `f`;
      whether it fails does not depend on the resistance. */
  lemma RZeroOfScaled(cfg: Config, pow: PowFn, r: real, f: real)
    requires f != 0.0
    ensures RZeroOf(cfg, pow, r).Err? ==> RZeroOf(cfg, pow, r / f) == RZeroOf(cfg, pow, r)
    ensures RZeroOf(cfg, pow, r).Ok? ==> RZeroOf(cfg, pow, r / f) == Ok(RZeroOf(cfg, pow, r).value / f)
  {
    if cfg.parA != 0.0 && cfg.parB != 0.0 {
      var level, root := cfg.atmoCO2 / cfg.parA, 1.0 / cfg.parB;
      assert Div(cfg.atmoCO2, cfg.parA) == Ok(level);
      assert Div(1.0, cfg.parB) == Ok(root);
      var scale := MathPow(pow, level, root);
      if scale.Ok? {
        var m := scale.value;
        DivideThrough(r, m, 1.0, f);
        var z, zf := RZeroOf(cfg, pow, r), RZeroOf(cfg, pow, r / f);
        assert z.Ok? && z.value == r * m;
        assert zf.Ok? && zf.value == (r / f) * m;
        assert zf.value == z.value / f;
      }
    }
  }
}
