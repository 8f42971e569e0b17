# MQ135 air-quality estimation, modelled in Dafny

This project models the estimation engine of the MQ135 air-quality sensor
driver (`AQS_ADS` in `app/core/sensors.py`). It covers six steps:

- A raw count from the ADS1115 analog-to-digital converter is remapped onto
  `[0, 1023]` by an Arduino-style `map`.
- The mapped count becomes a sensor resistance through the voltage divider
  with the load resistance `RLOAD`.
- Optionally, that resistance is divided by an empirical temperature and
  humidity correction factor.
- A power law turns the ratio of the resistance to the calibration baseline
  `RZERO` into a CO2 concentration in ppm.
- Run backwards at the known atmospheric level `ATMOCO2`, the same law gives
  a new `RZERO`.
- The driver's constants are kept as `Sensors.Factory`.

All of it is pure arithmetic, so every operation is a Dafny `function`, and
the properties are lemmas. The files are:

- `results.dfy` (module `Results`): the two exceptions the arithmetic can
  raise, modelled as values, and float division.
  - `ZeroDivisionError` becomes `DivideByZero`.
  - The `ValueError` of `math.pow` becomes `DomainError`.
- `arith.dfy` (module `RealArith`): small facts of ordered-field arithmetic
  that the proofs use.
- `remap.dfy` (module `RangeMap`): `map`, which is a scaled line clamped into
  the target range.
- `power.dfy` (module `PowerLaw`): `math.pow`. Its positive-base part is a
  function parameter `pow`. The predicate `Laws` states the laws of
  exponentiation that `pow` must obey:
  - positivity;
  - `pow(b, 1) == b`;
  - `pow(b, -1) * b == 1`;
  - composition of exponents;
  - strict growth in the base for positive exponents.

  A zero base and a negative base follow `math.pow`'s domain rules
  explicitly.
- `sensors.dfy` (module `Sensors`): the sensor constants and every
  `AQS_ADS` estimation method, plus the calibration and correction lemmas.

Python floats are modelled as exact reals. Every method of the sensor object
that reads the ADC takes the raw count as a parameter `raw` instead.

How the code fails, and what it leaves unchecked:

- **Only two exceptions.** The estimation raises `ZeroDivisionError` from a
  float division and `ValueError` from `math.pow`, and nothing else; no
  constant is validated.
  - `RZERO == 0` raises `ZeroDivisionError` (`DivideByZero`) in the
    concentration.
  - A negative `RZERO` makes the power's base negative. That is a
    `DomainError` when `-PARB` is fractional, and a value otherwise.
  - `PARB == 0` is not rejected by the concentration (`x ** -0` is 1, so the
    reading is `PARA`). Only the calibration divides by it.
- **Literal ADC range.** The range `[110, 23797]` is a literal in
  `getResistance` (`Sensors.RawMin`, `Sensors.RawMax`).
- **The factor can be zero.** The correction factor is not checked, so a zero
  factor makes the corrected readings raise `DivideByZero`.

## Model

| member | source | states |
|---|---|---|
| `RangeMap.Remap` | app/core/sensors.py:10-17 | fails (DivideByZero) exactly when `in_min == in_max`; otherwise the result lies in `[out_min, out_max]` whenever that range is well ordered |
| `RangeMap.RemapEndpoints` | app/core/sensors.py:11-17 | for any non-degenerate source range, increasing or decreasing, and an ordered target range, `in_min` maps to `out_min` and `in_max` to `out_max` |
| `RangeMap.RemapReversedTarget` | app/core/sensors.py:12-15 | as written, with the reversed target range `[10, 0]` the bottom of the source range `[0, 10]` maps to `out_max` (0), although the unclamped line gives `out_min` (10) there |
| `RangeMap.RemapBetween` | app/core/sensors.py:10-17 | `map` with the clamp taken between the two target bounds: fails (DivideByZero) exactly when `in_min == in_max`, and otherwise lies between the two target bounds, whichever is larger |
| `RangeMap.RemapBetweenEndpoints` | app/core/sensors.py:10-17 | with that clamp `in_min` maps to `out_min` and `in_max` to `out_max` for every orientation of both ranges |
| `RangeMap.RemapBetweenAgrees` | app/core/sensors.py:12-17 | on an ordered target range the clamp between the bounds is exactly the clamp as written |
| `RangeMap.RemapSaturates` | app/core/sensors.py:12-15 | inputs below the source range give `out_min` and inputs above it give `out_max`, with no failure |
| `RangeMap.RemapInterior` | app/core/sensors.py:11-17 | inside the source range nothing is clamped: the result is exactly on the line |
| `RangeMap.RemapMonotone` | app/core/sensors.py:10-17 | with increasing ranges the remap never decreases |
| `Sensors.Mapped` | app/core/sensors.py:81 | the remapped ADC count (through `RangeMap.RemapBetween`, equal to `map` here because `[0, 1023]` is ordered) is in `[0, 1023]`; it is 0 exactly at and below raw 110 and 1023 exactly at and above raw 23797 |
| `Sensors.MappedStrict` | app/core/sensors.py:81 | inside `[110, 23797]` the mapped count grows strictly with the raw count |
| `Sensors.Resistance` | app/core/sensors.py:79-82 | fails with DivideByZero exactly at and below raw 110; is exactly 0 at and above raw 23797; is positive in between when `RLOAD > 0` |
| `Sensors.ResistanceDecreasing` | app/core/sensors.py:80-82 | within the raw range the resistance falls strictly as the count rises |
| `Sensors.CorrectionFactor` | app/core/sensors.py:61-71 | the quadratic fit below 20 degC and the linear fit from 20 degC up; its properties are stated by `Sensors.HumidityAffine`, `Sensors.FactoryFactorPositive` and `Sensors.FactoryDiscontinuity` |
| `Sensors.Factory` | app/core/sensors.py:24-41 | the twelve constants set at construction, in the field order of `Config`; their consequences are stated by `Sensors.FactoryFactorPositive` and `Sensors.FactoryDiscontinuity` |
| `Sensors.HumidityAffine` | app/core/sensors.py:66-71 | at a fixed temperature the factor is affine in humidity, with slope `-CORD` below 20 degC and `CORF` from 20 degC up; below 20 degC the humidity term vanishes at 33 % |
| `Sensors.FactoryFactorPositive` | app/core/sensors.py:32-38 | with the constants set at construction, the factor is positive for humidity in `[0, 100]` and temperature below 280 degC |
| `Sensors.FactoryDiscontinuity` | app/core/sensors.py:32-38 | with those constants the two fits disagree at 20 degC: the factor jumps by `0.012281545 - 0.000123077 * h`, upwards for humidity up to 99 % |
| `Sensors.CorrectedResistance` | app/core/sensors.py:94-95 | fails (DivideByZero) exactly when the resistance fails or the factor is 0; otherwise the result times the factor is the uncorrected resistance |
| `Sensors.PpmOf` | app/core/sensors.py:104 | the power law `PARA * (r / RZERO) ^ (-PARB)` fails with DivideByZero when `RZERO == 0`, and otherwise with DomainError exactly when `r == 0` with `PARB > 0` or the ratio is negative with fractional `-PARB`; positive constants and resistance give a positive reading |
| `Sensors.Ppm` | app/core/sensors.py:103-104 | fails with DivideByZero at and below raw 110 or when `RZERO == 0`; fails with DomainError at and above raw 23797 (zero resistance) when `PARB > 0`; positive inside the raw range |
| `Sensors.CorrectedPpm` | app/core/sensors.py:116-120 | fails with DivideByZero at and below raw 110, for a zero factor or a zero `RZERO`; positive inside the raw range for a positive factor |
| `Sensors.PpmDecreasing` | app/core/sensors.py:104 | for `PARB > 0` the concentration falls strictly as the resistance rises |
| `Sensors.PpmIncreasingInRaw` | app/core/sensors.py:79-104 | inside the raw range the concentration rises strictly with the raw count |
| `Sensors.RZeroOf` | app/core/sensors.py:129-131 | `r * (ATMOCO2 / PARA) ^ (1 / PARB)` fails with DivideByZero when `PARA` or `PARB` is 0; with positive `ATMOCO2` and `PARA` and non-zero `PARB` it succeeds, is positive for positive `r` and is 0 for `r == 0` |
| `Sensors.RZero` | app/core/sensors.py:128-131 | fails with DivideByZero at and below raw 110; is 0 at and above raw 23797; is positive in between |
| `Sensors.CorrectedRZero` | app/core/sensors.py:143-146 | fails with DivideByZero at and below raw 110 or for a zero factor; positive inside the raw range for a positive factor |
| `Sensors.CalibrationRoundTrip` | app/core/sensors.py:103-131 | for any positive resistance `r`, taking `RZERO` from `r` and reading `r` against it gives exactly `ATMOCO2` |
| `Sensors.CalibrationFixedPoint` | app/core/sensors.py:103-131 | conversely, a resistance that already reads `ATMOCO2` recalibrates to the current `RZERO` |
| `Sensors.CalibrateThenRead` | app/core/sensors.py:103-131 | calibrating from a raw count and reading that count back gives `ATMOCO2` |
| `Sensors.CalibrateThenReadCorrected` | app/core/sensors.py:116-146 | the same for the corrected readings at the same temperature and humidity |
| `Sensors.BaselineIrrelevant` | app/core/sensors.py:61-95 | the resistance, the correction factor and the corrected resistance do not depend on `RZERO` |
| `Sensors.UnitCorrection` | app/core/sensors.py:94-146 | a factor of 1 makes every corrected reading equal the uncorrected one |
| `Sensors.CorrectionScalesBaseline` | app/core/sensors.py:94-120 | correcting by a non-zero factor `f` reads the same concentration as scaling `RZERO` by `f` |
| `Sensors.PpmOfScaled` | app/core/sensors.py:116-120 | the power law at `r / f` equals the power law at `r` against baseline `RZERO * f` |
| `Sensors.CorrectionDividesBaseline` | app/core/sensors.py:128-146 | correcting by a non-zero factor `f` divides the calibration baseline by `f`, and fails exactly when the uncorrected baseline does |
| `Sensors.RZeroOfScaled` | app/core/sensors.py:143-146 | the calibration at `r / f` is the calibration at `r` divided by `f` |
| `PowerLaw.MathPow` | app/core/sensors.py:104 | `math.pow` raises a domain error exactly for a zero base with a negative exponent or a negative base with a fractional exponent; it is `pow` on positive bases and 0 for a zero base with a positive exponent; it is positive on positive bases |
| `PowerLaw.Antitone` | app/core/sensors.py:104 | a negative exponent reverses the order of positive bases |
| `PowerLaw.RootRoundTrip` | app/core/sensors.py:129-131 | raising the reciprocal of the `e`-th root to `-e` gives back the base |
| `PowerLaw.PowerThenRoot` | app/core/sensors.py:129-131 | the `e`-th root of `x ^ (-e)` is the reciprocal of `x` |
| `Results.Div` | app/core/sensors.py:95 | float division fails exactly for a zero divisor; otherwise the quotient times the divisor is the dividend |

## Findings

| source | as written | input that shows it | evidently intended | confidence | as-written member | corrected member |
|---|---|---|---|---|---|---|
| app/core/sensors.py:12-15 | `map` clamps with `out < out_min` and `out > out_max`, which assumes `out_min <= out_max` | `map(0, 0, 10, 10, 0)` returns 0, not 10 | the documented behaviour (`app/core/sensors.py:148-150`) that `in_min` maps to `out_min` and `in_max` to `out_max`, so the clamp should run between the smaller and the larger target bound (proved as `RangeMap.RemapBetweenEndpoints`; `RangeMap.RemapBetweenAgrees` shows it changes nothing on an ordered range) | low; not executed; the driver only calls `map` with the ordered range `[0, 1023]`, where both agree | `RangeMap.RemapReversedTarget` | `RangeMap.RemapBetween` |

## Left out

- Hardware access is not part of this model (`app/core/sensors.py:2-7,22,159-161`). This covers the I2C bus, the ADS1115 channel and the HTU21D sensor. The ADC count, the temperature and the humidity are parameters.
- The `__getattribute__` override (`app/core/sensors.py:52-59`) is left out. It only makes `value` an alias for `getPPM` and raises `AttributeError` for other missing names.
- `app/main.py` is not part of this model. It is the presentation layer that reads the sensors and formats the results.
- Floating-point rounding, overflow to infinity and `OverflowError` are left out. Python floats are exact reals here, so equalities such as the calibration round trip hold exactly rather than within rounding.
- `math.pow` on positive bases is the parameter `pow`, constrained only by `PowerLaw.Laws`. No concrete value of a fractional power, such as a literal ppm figure for the constants, is computed. Underflow of a positive power to 0.0 is not modelled, because `Laws` keeps such powers positive.
- `Sensors.Mapped` takes the count as an unbounded integer. The ADS1115's 16-bit range is not imposed, because the clamp in `map` makes the result independent of it.
- The runtime update of `RZERO` is not modelled. The code never writes a computed baseline back; the lemmas `Sensors.CalibrateThenRead` and `Sensors.CalibrateThenReadCorrected` describe writing it back as building a new `Config` with the new `rZero`. Concurrent readers are not modelled either.
