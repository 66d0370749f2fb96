/** The Bosch BME280 temperature/pressure/humidity driver
  * (`bme280_sensor.cpp`): the register guards that apply before the sensor
  * is initialised, the decoding of the factory calibration registers and of
  * the raw 20-bit and 16-bit readings, and the integer compensation formulas
  * of section 4.2.3 of the BME280 datasheet. Compensated values are kept as
  * the integers those formulas produce (0.01 °C, Pa, 1/1024 %RH); the
  * conversion to floating point is not modelled. */
module Bme280 {
  import opened CTypes
  import Arith

  const RegChipId: u8 := 0xD0
  const RegReset: u8 := 0xE0
  const RegCtrlHum: u8 := 0xF2
  const RegCtrlMeas: u8 := 0xF4
  const RegConfig: u8 := 0xF5
  const RegPressMsb: u8 := 0xF7
  const RegCalibT1Lsb: u8 := 0x88
  const RegCalibH1: u8 := 0xA1
  const RegCalibH2Lsb: u8 := 0xE1

  const ChipId: u8 := 0x60
  const ResetWord: u8 := 0xB6
  /** Oversampling x1 for humidity. */
  const CtrlHumValue: u8 := 0x01
  /** Temperature and pressure oversampling x1, normal mode: `(1 << 5) | (1 << 2) | 3`. */
  const CtrlMeasValue: u8 := 0x27
  /** Filter x4 and 250 ms standby: `(2 << 2) | (3 << 5)`. */
  const ConfigValue: u8 := 0x68

  /** Upper clamp of the humidity accumulator: 100 %RH in Q22.10 before the
    * final shift by 12. */
  const HumidityCeiling: int := 419430400
  const HumidityMax: int := 102400

  // ------------------------------------------------------------ register guards

  /** Registers `readRegister` serves before initialisation: the chip id and
    * the calibration blocks. */
  predicate ReadableBeforeInit(reg: u8) {
    reg == RegChipId ||
    (RegCalibT1Lsb as int <= reg as int <= RegCalibT1Lsb as int + 26) ||
    (RegCalibH1 as int <= reg as int <= RegCalibH1 as int + 1) ||
    (RegCalibH2Lsb as int <= reg as int <= RegCalibH2Lsb as int + 7)
  }

  /** Registers `writeRegister` serves before initialisation: reset and the
    * three control registers. */
  predicate WritableBeforeInit(reg: u8) {
    reg == RegReset || reg == RegCtrlHum || reg == RegCtrlMeas || reg == RegConfig
  }

  /** The measurement registers 0xF7..0xFE cannot be read, and the registers
    * that are not reset or control registers cannot be written, before the
    * sensor is initialised; every register `init` touches is let through. */
  lemma GuardsBeforeInit(reg: u8)
    ensures RegPressMsb as int <= reg as int <= 0xFE ==> !ReadableBeforeInit(reg)
    ensures ReadableBeforeInit(RegChipId) && ReadableBeforeInit(RegCalibT1Lsb) &&
      ReadableBeforeInit(RegCalibH2Lsb)
    ensures WritableBeforeInit(reg) <==> reg in {0xE0, 0xF2, 0xF4, 0xF5}
  {
  }

  // ------------------------------------------------------------ calibration

  /** The factory calibration, in the datasheet's three groups. */
  datatype TCalib = TCalib(t1: u16, t2: i16, t3: i16)
  datatype PCalib = PCalib(p1: u16, p2: i16, p3: i16, p4: i16, p5: i16, p6: i16,
                           p7: i16, p8: i16, p9: i16)
  datatype HCalib = HCalib(h1: u8, h2: i16, h3: u8, h4: i16, h5: i16, h6: i8)
  datatype Calib = Calib(t: TCalib, p: PCalib, h: HCalib)

  /** The all-zero calibration of the constructor (`memset` to 0). */
  const ZeroCalib := Calib(TCalib(0, 0, 0), PCalib(0, 0, 0, 0, 0, 0, 0, 0, 0),
                           HCalib(0, 0, 0, 0, 0, 0))

  /** A little-endian 16-bit register pair. */
  function LeWord(lo: u8, hi: u8): (w: u16)
    ensures w % 256 == lo && w / 256 == hi
  {
    hi as int * 256 + lo as int
  }

  /** A signed little-endian register pair, as the cast to `int16_t`. */
  function LeSigned(lo: u8, hi: u8): i16 {
    ToI16(LeWord(lo, hi))
  }

  /** The calibration values are signed 12-bit numbers in the datasheet. */
  predicate Is12Bit(x: int) {
    -0x800 <= x < 0x800
  }

  /** `dig_H4` as written: register 0xE4 taken as unsigned, shifted left by
    * four, with the low nibble of 0xE5. */
  function DigH4AsWritten(e4: u8, e5: u8): (r: int)
    ensures 0 <= r < 0x1000
  {
    e4 as int * 16 + e5 as int % 16
  }

  /** `dig_H4` as the datasheet lays it out: register 0xE4 is the signed top
    * byte of a 12-bit value whose low nibble is bits 3:0 of 0xE5. */
  function DigH4(e4: u8, e5: u8): (r: i16)
    ensures Is12Bit(r)
    ensures r % 16 == e5 % 16
    ensures e4 < 0x80 ==> r == DigH4AsWritten(e4, e5)
  {
    ToI8(e4) * 16 + e5 % 16
  }

  /** `dig_H5` as written: register 0xE6 unsigned, shifted left by four, with
    * the high nibble of 0xE5. */
  function DigH5AsWritten(e6: u8, e5: u8): (r: int)
    ensures 0 <= r < 0x1000
  {
    e6 as int * 16 + e5 as int / 16
  }

  /** `dig_H5` as the datasheet lays it out: 0xE6 is the signed top byte, the
    * high nibble of 0xE5 the low four bits. */
  function DigH5(e6: u8, e5: u8): (r: i16)
    ensures Is12Bit(r)
    ensures r % 16 == e5 / 16
    ensures e6 < 0x80 ==> r == DigH5AsWritten(e6, e5)
  {
    ToI8(e6) * 16 + e5 / 16
  }

  /** As written, an all-ones 0xE4/0xE5 pair gives dig_H4 = 4095 where the
    * signed layout means -1 (and likewise for dig_H5): a sensor with a
    * negative factory value would be compensated with a large positive one. */
  lemma DigH4SignLost()
    ensures DigH4AsWritten(0xFF, 0xFF) == 4095 && DigH4(0xFF, 0xFF) == -1
    ensures DigH5AsWritten(0xFF, 0xFF) == 4095 && DigH5(0xFF, 0xFF) == -1
  {
  }

  function DecodeT(b: seq<u8>): TCalib
    requires |b| == 6
  {
    TCalib(LeWord(b[0], b[1]), LeSigned(b[2], b[3]), LeSigned(b[4], b[5]))
  }

  function DecodeP(b: seq<u8>): PCalib
    requires |b| == 18
  {
    PCalib(LeWord(b[0], b[1]), LeSigned(b[2], b[3]), LeSigned(b[4], b[5]),
           LeSigned(b[6], b[7]), LeSigned(b[8], b[9]), LeSigned(b[10], b[11]),
           LeSigned(b[12], b[13]), LeSigned(b[14], b[15]), LeSigned(b[16], b[17]))
  }

  /** `dig_H1` comes from 0xA1, the rest from the seven bytes at 0xE1. */
  function DecodeH(h1: u8, b: seq<u8>): (h: HCalib)
    requires |b| == 7
    ensures Is12Bit(h.h4) && Is12Bit(h.h5)
  {
    HCalib(h1, LeSigned(b[0], b[1]), b[2], DigH4(b[3], b[4]), DigH5(b[5], b[4]), ToI8(b[6]))
  }

  /** `readCalibrationData` after both reads succeeded: 26 bytes from 0x88
    * (0xA0 is unused, 0xA1 is dig_H1) and 7 bytes from 0xE1. */
  function DecodeCalib(buf: seq<u8>, hbuf: seq<u8>): (c: Calib)
    requires |buf| == 26 && |hbuf| == 7
    ensures Is12Bit(c.h.h4) && Is12Bit(c.h.h5)
  {
    Calib(DecodeT(buf[..6]), DecodeP(buf[6..24]), DecodeH(buf[25], hbuf))
  }

  /** The two's-complement bit pattern of a signed 16-bit value. */
  function Bits16(x: i16): (w: u16)
    ensures ToI16(w) == x
  {
    if x >= 0 then x else x + 0x1_0000
  }

  /** A word as its two registers, least significant first. */
  function Split(w: u16): (b: seq<u8>)
    ensures |b| == 2 && LeWord(b[0], b[1]) == w
  {
    [w % 256, w / 256]
  }

  function EncodeT(t: TCalib): (b: seq<u8>)
    ensures |b| == 6
  {
    Split(t.t1) + Split(Bits16(t.t2)) + Split(Bits16(t.t3))
  }

  function EncodeP(p: PCalib): (b: seq<u8>)
    ensures |b| == 18
  {
    Split(p.p1) + Split(Bits16(p.p2)) + Split(Bits16(p.p3)) + Split(Bits16(p.p4)) +
    Split(Bits16(p.p5)) + Split(Bits16(p.p6)) + Split(Bits16(p.p7)) + Split(Bits16(p.p8)) +
    Split(Bits16(p.p9))
  }

  /** The seven bytes at 0xE1: dig_H4 and dig_H5 share 0xE5. */
  function EncodeH(h: HCalib): (b: seq<u8>)
    requires Is12Bit(h.h4) && Is12Bit(h.h5)
    ensures |b| == 7
  {
    var e5 := h.h4 % 16 + (h.h5 % 16) * 16;
    Split(Bits16(h.h2)) + [h.h3, (h.h4 / 16) % 256, e5, (h.h5 / 16) % 256, h.h6 % 256]
  }

  /** The register image a sensor with calibration `c` holds, with the unused
    * register 0xA0 read as 0. */
  function EncodeCalib(c: Calib): (r: (seq<u8>, seq<u8>))
    requires Is12Bit(c.h.h4) && Is12Bit(c.h.h5)
    ensures |r.0| == 26 && |r.1| == 7
  {
    (EncodeT(c.t) + EncodeP(c.p) + [0, c.h.h1], EncodeH(c.h))
  }

  lemma DecodeTRoundTrip(t: TCalib)
    ensures DecodeT(EncodeT(t)) == t
  {
    var b := EncodeT(t);
    assert b[2..4] == Split(Bits16(t.t2)) && b[4..6] == Split(Bits16(t.t3));
  }

  lemma DecodePRoundTrip(p: PCalib)
    ensures DecodeP(EncodeP(p)) == p
  {
    var b := EncodeP(p);
    assert b[..2] == Split(p.p1);
    assert b[2..4] == Split(Bits16(p.p2)) && b[4..6] == Split(Bits16(p.p3));
    assert b[6..8] == Split(Bits16(p.p4)) && b[8..10] == Split(Bits16(p.p5));
    assert b[10..12] == Split(Bits16(p.p6)) && b[12..14] == Split(Bits16(p.p7));
    assert b[14..16] == Split(Bits16(p.p8)) && b[16..18] == Split(Bits16(p.p9));
  }

  lemma TwelveBitRoundTrip(h4: i16, h5: i16)
    requires Is12Bit(h4) && Is12Bit(h5)
    ensures var e5 := h4 % 16 + (h5 % 16) * 16;
      0 <= e5 < 256 &&
      DigH4((h4 / 16) % 256, e5) == h4 && DigH5((h5 / 16) % 256, e5) == h5
  {
    var e5 := h4 % 16 + (h5 % 16) * 16;
    assert e5 % 16 == h4 % 16 && e5 / 16 == h5 % 16;
    assert ToI8((h4 / 16) % 256) == h4 / 16;
    assert ToI8((h5 / 16) % 256) == h5 / 16;
  }

  lemma DecodeHRoundTrip(h: HCalib)
    requires Is12Bit(h.h4) && Is12Bit(h.h5)
    ensures DecodeH(h.h1, EncodeH(h)) == h
  {
    TwelveBitRoundTrip(h.h4, h.h5);
    assert ToI8(h.h6 % 256) == h.h6;
  }

  /** Decoding the register image of a calibration gives it back. */
  lemma CalibRoundTrip(c: Calib)
    requires Is12Bit(c.h.h4) && Is12Bit(c.h.h5)
    ensures DecodeCalib(EncodeCalib(c).0, EncodeCalib(c).1) == c
  {
    var buf := EncodeCalib(c).0;
    assert buf[..6] == EncodeT(c.t) && buf[6..24] == EncodeP(c.p) && buf[25] == c.h.h1;
    DecodeTRoundTrip(c.t);
    DecodePRoundTrip(c.p);
    DecodeHRoundTrip(c.h);
  }

  // ------------------------------------------------------------ raw readings

  /** A 20-bit reading from its MSB, LSB and the top nibble of its XLSB
    * register (`msb << 12 | lsb << 4 | xlsb >> 4`; the fields do not overlap,
    * so the OR is a sum). */
  function Raw20(msb: u8, lsb: u8, xlsb: u8): (r: int)
    ensures 0 <= r < 0x10_0000
  {
    msb as int * 0x1000 + lsb as int * 16 + xlsb as int / 16
  }

  /** Every 20-bit value is read back from the registers that hold it. */
  lemma Raw20RoundTrip(r: int)
    requires 0 <= r < 0x10_0000
    ensures Raw20(r / 0x1000, (r / 16) % 256, (r % 16) * 16) == r
  {
  }

  /** The three register fields are read back from the 20-bit value. */
  lemma Raw20Fields(msb: u8, lsb: u8, xlsb: u8)
    ensures var r := Raw20(msb, lsb, xlsb);
      r / 0x1000 == msb && (r / 16) % 256 == lsb && r % 16 == xlsb / 16
  {
    var r := Raw20(msb, lsb, xlsb);
    Arith.MulDivMod(msb, 0x1000, lsb as int * 16 + xlsb as int / 16);
    Arith.MulDivMod(msb as int * 256 + lsb as int, 16, xlsb as int / 16);
    Arith.MulDivMod(msb, 256, lsb);
  }

  /** The 16-bit humidity reading, most significant byte first. */
  function Raw16(msb: u8, lsb: u8): (r: int)
    ensures 0 <= r < 0x1_0000 && r / 256 == msb && r % 256 == lsb
  {
    msb as int * 256 + lsb as int
  }

  // ------------------------------------------------------------ compensation

  /** `t_fine` from the raw temperature (arithmetic right shifts are
    * divisions rounding toward minus infinity). */
  function TFine(c: Calib, adcT: int): int {
    var var1 := ((adcT / 8 - c.t.t1 as int * 2) * c.t.t2 as int) / 0x800;
    var d := adcT / 16 - c.t.t1 as int;
    var var2 := ((d * d) / 0x1000 * c.t.t3 as int) / 0x4000;
    var1 + var2
  }

  /** `dig_T1` is the raw reading at which `t_fine` is zero. */
  lemma TFineAtT1(c: Calib)
    ensures TFine(c, c.t.t1 as int * 16) == 0
  {
    var adcT := c.t.t1 as int * 16;
    assert adcT / 8 == c.t.t1 as int * 2;
    assert adcT / 16 == c.t.t1 as int;
  }

  /** The temperature in 0.01 °C: `(t_fine * 5 + 128) >> 8`, which is
    * `t_fine * 5 / 256` rounded to the nearest integer. */
  function TemperatureOf(tFine: int): (r: int)
    ensures r * 256 <= tFine * 5 + 128 < r * 256 + 256
  {
    (tFine * 5 + 128) / 256
  }

  /** A larger `t_fine` never gives a lower temperature. */
  lemma {:induction false} TemperatureMonotone(a: int, b: int)
    requires a <= b
    ensures TemperatureOf(a) <= TemperatureOf(b)
  {
    var ra, rb := TemperatureOf(a), TemperatureOf(b);
  }

  /** The divisor of the pressure formula: zero whenever `dig_P1` is. */
  function PressureDivisor(c: Calib, tFine: int): int {
    var v := tFine - 128000;
    var var1 := (v * v * c.p.p3 as int) / 0x100 + v * c.p.p2 as int * 0x1000;
    ((0x8000_0000_0000 + var1) * c.p.p1 as int) / 0x2_0000_0000
  }

  /** The pressure in Pa, in Q24.8 before the final shift, cast to `uint32_t`;
    * 0 instead of a division by zero. */
  function CompensatePressure(c: Calib, tFine: int, adcP: int): (r: u32)
    ensures PressureDivisor(c, tFine) == 0 ==> r == 0
  {
    var div := PressureDivisor(c, tFine);
    if div == 0 then 0
    else
      var v := tFine - 128000;
      var var2 := v * v * c.p.p6 as int + v * c.p.p5 as int * 0x2_0000 + c.p.p4 as int * 0x8_0000_0000;
      var p := Arith.CDiv(((1048576 - adcP) * 0x8000_0000 - var2) * 3125, div);
      var v1 := (c.p.p9 as int * (p / 0x2000) * (p / 0x2000)) / 0x200_0000;
      var v2 := (c.p.p8 as int * p) / 0x8_0000;
      WrapU32((p + v1 + v2) / 0x100 + c.p.p7 as int * 16)
  }

  /** A sensor with `dig_P1 == 0` reports pressure 0, never dividing by it. */
  lemma PressureWithoutP1(c: Calib, tFine: int, adcP: int)
    requires c.p.p1 == 0
    ensures CompensatePressure(c, tFine, adcP) == 0
  {
    assert PressureDivisor(c, tFine) == 0;
  }

  /** The humidity accumulator before it is clamped. */
  function HumidityAccumulator(c: Calib, tFine: int, adcH: int): int {
    var v := tFine - 76800;
    var x := ((adcH * 0x4000 - c.h.h4 as int * 0x10_0000 - c.h.h5 as int * v) + 16384) / 0x8000;
    var y := (((v * c.h.h6 as int) / 0x400 * ((v * c.h.h3 as int) / 0x800 + 32768)) / 0x400 + 2097152)
             * c.h.h2 as int + 8192;
    var acc := x * (y / 0x4000);
    acc - ((acc / 0x8000 * (acc / 0x8000)) / 0x80 * c.h.h1 as int) / 16
  }

  /** The clamp into `[0, 419430400]` and the shift by 12: the humidity in
    * 1/1024 %RH, never above 100 %RH, saturating at both ends. */
  function HumidityOf(acc: int): (r: u32)
    ensures 0 <= r <= HumidityMax
    ensures acc <= 0 ==> r == 0
    ensures acc >= HumidityCeiling ==> r == HumidityMax
    ensures 0 <= acc <= HumidityCeiling ==> r * 4096 <= acc < r * 4096 + 4096
  {
    Clamp(acc, 0, HumidityCeiling) / 4096
  }

  /** A larger accumulator never gives a lower humidity. */
  lemma {:induction false} HumidityMonotone(a: int, b: int)
    requires a <= b
    ensures HumidityOf(a) <= HumidityOf(b)
  {
    var ca, cb := Clamp(a, 0, HumidityCeiling), Clamp(b, 0, HumidityCeiling);
    assert ca <= cb;
  }

  function CompensateHumidity(c: Calib, tFine: int, adcH: int): (r: u32)
    ensures r <= HumidityMax
  {
    HumidityOf(HumidityAccumulator(c, tFine, adcH))
  }

  // ------------------------------------------------------------ the driver

  /** `t_fine` and the three compensated values. */
  datatype Reading = Reading(tFine: int, temperature: int, pressure: int, humidity: int)

  /** What `readRawData` computes from the 8 bytes at 0xF7: pressure (20
    * bits), temperature (20 bits), humidity (16 bits), each compensated, the
    * temperature first so that the two others use its `t_fine`. */
  function Compensate(c: Calib, data: seq<u8>): (r: Reading)
    requires |data| == 8
    ensures r.tFine == TFine(c, Raw20(data[3], data[4], data[5]))
    ensures r.temperature == TemperatureOf(r.tFine)
    ensures 0 <= r.pressure < 0x1_0000_0000 && 0 <= r.humidity <= HumidityMax
  {
    var tFine := TFine(c, Raw20(data[3], data[4], data[5]));
    Reading(tFine, TemperatureOf(tFine), CompensatePressure(c, tFine, Raw20(data[0], data[1], data[2])),
            CompensateHumidity(c, tFine, Raw16(data[6], data[7])))
  }

  /** One two-byte register write on the bus, `{reg, value}`. */
  datatype RegWrite = RegWrite(reg: u8, value: u8)

  /** The configuration `init` writes, in order: reset, humidity
    * oversampling, measurement control, filter and standby. */
  const InitWrites: seq<RegWrite> :=
    [RegWrite(RegReset, ResetWord), RegWrite(RegCtrlHum, CtrlHumValue),
     RegWrite(RegCtrlMeas, CtrlMeasValue), RegWrite(RegConfig, ConfigValue)]

  /** The part of `InitWrites` the configuration steps of `init` put on the
    * bus: nothing unless the chip id was read and is right; then the reset,
    * and, once both calibration reads succeeded, the control writes up to and
    * including the first one that fails. */
  function InitWritesMade(idOk: bool, resetErr: EspErr, calOk: bool, humErr: EspErr, measErr: EspErr)
    : (w: seq<RegWrite>)
    ensures w <= InitWrites
    ensures w == [] <==> !idOk
    ensures w == InitWrites <==> idOk && resetErr == OK && calOk && humErr == OK && measErr == OK
  {
    if !idOk then []
    else if resetErr != OK || !calOk then InitWrites[..1]
    else if humErr != OK then InitWrites[..2]
    else if measErr != OK then InitWrites[..3]
    else InitWrites
  }

  /** The calibration after only the first block read succeeded: temperature,
    * pressure and `dig_H1` from the block, the rest of the humidity
    * calibration as it was. */
  function FirstBlock(c: Calib, buf: seq<u8>): Calib
    requires |buf| == 26
  {
    Calib(DecodeT(buf[..6]), DecodeP(buf[6..24]), c.h.(h1 := buf[25]))
  }

  class Sensor {
    var initialized: bool
    var tFine: int
    var calib: Calib
    /** The compensated readings: 0.01 °C, Pa and 1/1024 %RH. */
    var temperature: int
    var pressure: int
    var humidity: int
    /** Every register write put on the bus. */
    var written: seq<RegWrite>

    function Current(): Reading
      reads this
    {
      Reading(tFine, temperature, pressure, humidity)
    }

    constructor ()
      ensures !initialized && tFine == 0 && calib == ZeroCalib && written == []
      ensures temperature == 0 && pressure == 0 && humidity == 0
    {
      initialized, tFine, calib, written := false, 0, ZeroCalib, [];
      temperature, pressure, humidity := 0, 0, 0;
    }

    /** `readRegister(reg, ...)`: `busErr` is what the I2C transfer returns. */
    method ReadRegister(reg: u8, busErr: EspErr) returns (err: EspErr)
      ensures !initialized && !ReadableBeforeInit(reg) ==> err == INVALID_STATE
      ensures initialized || ReadableBeforeInit(reg) ==> err == busErr
    {
      if !initialized && !ReadableBeforeInit(reg) {
        return INVALID_STATE;
      }
      err := busErr;
    }

    /** `writeRegister(reg, value)`: a write reaches the bus only when the
      * guard lets it through. */
    method WriteRegister(reg: u8, value: u8, busErr: EspErr) returns (err: EspErr)
      modifies this`written
      ensures !initialized && !WritableBeforeInit(reg) ==>
        err == INVALID_STATE && written == old(written)
      ensures initialized || WritableBeforeInit(reg) ==>
        err == busErr && written == old(written) + [RegWrite(reg, value)]
    {
      if !initialized && !WritableBeforeInit(reg) {
        return INVALID_STATE;
      }
      written := written + [RegWrite(reg, value)];
      err := busErr;
    }

    /** `readCalibrationData()`: the two block reads and the decoding. */
    method ReadCalibrationData(err1: EspErr, buf: seq<u8>, err2: EspErr, hbuf: seq<u8>)
      returns (err: EspErr)
      requires |buf| == 26 && |hbuf| == 7
      modifies this`calib
      ensures err == (if err1 != OK then err1 else err2)
      ensures err == OK ==> calib == DecodeCalib(buf, hbuf)
      ensures err1 != OK ==> calib == old(calib)
      ensures err1 == OK && err2 != OK ==> calib == FirstBlock(old(calib), buf)
    {
      err := ReadRegister(RegCalibT1Lsb, err1);
      if err != OK {
        return;
      }
      calib := FirstBlock(calib, buf);
      err := ReadRegister(RegCalibH2Lsb, err2);
      if err != OK {
        return;
      }
      calib := calib.(h := DecodeH(buf[25], hbuf));
    }

    /** `compensateTemperature(adc_T)`: records `t_fine` for the two other
      * formulas and returns the temperature. */
    method CompensateTemperature(adcT: int) returns (t: int)
      modifies this`tFine
      ensures tFine == TFine(calib, adcT)
      ensures t == TemperatureOf(tFine)
    {
      tFine := TFine(calib, adcT);
      t := TemperatureOf(tFine);
    }

    /** `readRawData()`: one 8-byte read from 0xF7, then the three
      * compensations, temperature first so that the others see its `t_fine`. */
    method ReadRawData(busErr: EspErr, data: seq<u8>) returns (err: EspErr)
      requires |data| == 8
      modifies this`tFine, this`temperature, this`pressure, this`humidity
      ensures err == (if initialized then busErr else INVALID_STATE)
      ensures err != OK ==>
        tFine == old(tFine) && temperature == old(temperature) && pressure == old(pressure) &&
        humidity == old(humidity)
      ensures err == OK ==> Current() == Compensate(calib, data)
    {
      err := ReadRegister(RegPressMsb, busErr);
      if err != OK {
        return;
      }
      var adcP := Raw20(data[0], data[1], data[2]);
      var adcT := Raw20(data[3], data[4], data[5]);
      var adcH := Raw16(data[6], data[7]);
      temperature := CompensateTemperature(adcT);
      pressure := CompensatePressure(calib, tFine, adcP);
      humidity := CompensateHumidity(calib, tFine, adcH);
    }

    /** The device steps of `init(bus)` after the device was added: the chip
      * id check, the reset, the calibration reads and the three control
      * writes. Before initialisation every one of them passes the guards. */
    method Configure(idErr: EspErr, id: u8, resetErr: EspErr,
                     calErr1: EspErr, buf: seq<u8>, calErr2: EspErr, hbuf: seq<u8>,
                     humErr: EspErr, measErr: EspErr, cfgErr: EspErr)
      returns (ok: bool)
      requires !initialized && |buf| == 26 && |hbuf| == 7
      modifies this`written, this`calib
      ensures ok == (idErr == OK && id == ChipId && resetErr == OK && calErr1 == OK &&
                     calErr2 == OK && humErr == OK && measErr == OK && cfgErr == OK)
      ensures ok ==> written == old(written) + InitWrites && calib == DecodeCalib(buf, hbuf)
      ensures written == old(written) + InitWritesMade(idErr == OK && id == ChipId, resetErr,
                                                        calErr1 == OK && calErr2 == OK, humErr, measErr)
      ensures !(idErr == OK && id == ChipId && resetErr == OK && calErr1 == OK) ==> calib == old(calib)
      ensures idErr == OK && id == ChipId && resetErr == OK && calErr1 == OK && calErr2 != OK ==>
        calib == FirstBlock(old(calib), buf)
      ensures idErr == OK && id == ChipId && resetErr == OK && calErr1 == OK && calErr2 == OK ==>
        calib == DecodeCalib(buf, hbuf)
    {
      var err := ReadRegister(RegChipId, idErr);
      if err != OK || id != ChipId {
        return false;
      }
      err := WriteRegister(RegReset, ResetWord, resetErr);
      if err != OK {
        return false;
      }
      err := ReadCalibrationData(calErr1, buf, calErr2, hbuf);
      if err != OK {
        return false;
      }
      ok := WriteControl(humErr, measErr, cfgErr);
    }

    /** The three control writes of `init`: humidity oversampling, then
      * measurement control, then filter and standby. */
    method WriteControl(humErr: EspErr, measErr: EspErr, cfgErr: EspErr) returns (ok: bool)
      requires !initialized
      modifies this`written
      ensures ok == (humErr == OK && measErr == OK && cfgErr == OK)
      ensures ok ==> written == old(written) + InitWrites[1..]
      ensures written == old(written) + InitWritesMade(true, OK, true, humErr, measErr)[1..]
    {
      var err := WriteRegister(RegCtrlHum, CtrlHumValue, humErr);
      if err != OK {
        return false;
      }
      err := WriteRegister(RegCtrlMeas, CtrlMeasValue, measErr);
      if err != OK {
        return false;
      }
      err := WriteRegister(RegConfig, ConfigValue, cfgErr);
      if err != OK {
        return false;
      }
      ok := true;
    }

    /** `init(bus)`. The arguments are, in order, whether the bus handle is
      * non-null and what each driver step returns: adding the device,
      * reading the chip id (and the id read), the reset write, the two
      * calibration reads (and their bytes), the three control writes, and
      * the first poll's read (and its bytes). */
    method Init(busOk: bool, addErr: EspErr, idErr: EspErr, id: u8, resetErr: EspErr,
                calErr1: EspErr, buf: seq<u8>, calErr2: EspErr, hbuf: seq<u8>,
                humErr: EspErr, measErr: EspErr, cfgErr: EspErr,
                pollErr: EspErr, data: seq<u8>)
      returns (ok: bool)
      requires |buf| == 26 && |hbuf| == 7 && |data| == 8
      modifies this
      ensures old(initialized) ==>
        ok && initialized && written == old(written) && calib == old(calib) && Current() == old(Current())
      ensures !old(initialized) ==>
        ok == (busOk && addErr == OK && idErr == OK && id == ChipId && resetErr == OK &&
               calErr1 == OK && calErr2 == OK && humErr == OK && measErr == OK && cfgErr == OK) &&
        initialized == ok
      ensures !old(initialized) && ok ==>
        written == old(written) + InitWrites && calib == DecodeCalib(buf, hbuf) &&
        (pollErr == OK ==> Current() == Compensate(calib, data)) &&
        (pollErr != OK ==> Current() == old(Current()))
      ensures !old(initialized) && !ok ==> Current() == old(Current())
      ensures !old(initialized) && !(busOk && addErr == OK) ==> written == old(written) && calib == old(calib)
      ensures !old(initialized) && busOk && addErr == OK ==>
        written == old(written) + InitWritesMade(idErr == OK && id == ChipId, resetErr,
                                                  calErr1 == OK && calErr2 == OK, humErr, measErr)
      ensures !old(initialized) && busOk && addErr == OK && !(idErr == OK && id == ChipId && resetErr == OK && calErr1 == OK) ==>
        calib == old(calib)
      ensures !old(initialized) && busOk && addErr == OK && idErr == OK && id == ChipId && resetErr == OK &&
              calErr1 == OK && calErr2 != OK ==>
        calib == FirstBlock(old(calib), buf)
      ensures !old(initialized) && busOk && addErr == OK && idErr == OK && id == ChipId && resetErr == OK &&
              calErr1 == OK && calErr2 == OK ==>
        calib == DecodeCalib(buf, hbuf)
    {
      if initialized {
        return true;
      }
      if !busOk || addErr != OK {
        return false;
      }
      ok := Configure(idErr, id, resetErr, calErr1, buf, calErr2, hbuf, humErr, measErr, cfgErr);
      if !ok {
        return;
      }
      initialized := true;
      Poll(pollErr, data);
    }

    /** `poll()`: nothing before initialisation. */
    method Poll(busErr: EspErr, data: seq<u8>)
      requires |data| == 8
      modifies this`tFine, this`temperature, this`pressure, this`humidity
      ensures !initialized || busErr != OK ==>
        tFine == old(tFine) && temperature == old(temperature) && pressure == old(pressure) &&
        humidity == old(humidity)
      ensures initialized && busErr == OK ==> Current() == Compensate(calib, data)
    {
      if !initialized {
        return;
      }
      var err := ReadRawData(busErr, data);
    }
  }
}
