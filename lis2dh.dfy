/** The LIS2DH12 accelerometer driver (`lis2dh.c`): read-modify-write updates
  * of the control registers, the success-only bookkeeping of the current
  * scale and mode, and the decoding of the acceleration registers. Register
  * contents are bytes (`bv8`); register addresses and enum codes are those
  * of the driver's header. The conversion of readings to floating-point g
  * is kept as an integer number of milli-g per least significant bit. */
module Lis2dh {
  import opened CTypes

  const RegWhoAmI: bv8 := 0x0F
  const RegCtrl1: bv8 := 0x20
  const RegCtrl2: bv8 := 0x21
  const RegCtrl4: bv8 := 0x23
  const RegStatus: bv8 := 0x27
  const RegOutXL: bv8 := 0x28
  const DeviceId: bv8 := 0x33

  /** `lis2dh12_odr_t`: power-down and the seven output data rates. */
  datatype DataRate = PowerDown | Odr1Hz | Odr10Hz | Odr25Hz | Odr50Hz | Odr100Hz | Odr200Hz | Odr400Hz

  function RateCode(r: DataRate): (c: bv8)
    ensures c < 8
  {
    match r
    case PowerDown => 0
    case Odr1Hz => 1
    case Odr10Hz => 2
    case Odr25Hz => 3
    case Odr50Hz => 4
    case Odr100Hz => 5
    case Odr200Hz => 6
    case Odr400Hz => 7
  }

  /** `lis2dh12_scale_t`. */
  datatype Scale = Scale2G | Scale4G | Scale8G | Scale16G

  function ScaleCode(s: Scale): (c: bv8)
    ensures c < 4
  {
    match s
    case Scale2G => 0
    case Scale4G => 1
    case Scale8G => 2
    case Scale16G => 3
  }

  /** `lis2dh12_mode_t`: high resolution, normal and low power. */
  datatype Mode = HighRes12 | Normal10 | LowPower8

  // ------------------------------------------------------------ register updates

  /** `set_data_rate`: clear the ODR bits 7:4 and insert the rate. */
  function WithDataRate(reg: bv8, r: DataRate): (out: bv8)
    ensures out >> 4 == RateCode(r)
    ensures out & 0x0F == reg & 0x0F
  {
    (reg & 0x0F) | (RateCode(r) << 4)
  }

  /** Setting a rate twice is setting it once, and the later rate wins. */
  lemma DataRateLastWins(reg: bv8, a: DataRate, b: DataRate)
    ensures WithDataRate(WithDataRate(reg, a), b) == WithDataRate(reg, b)
  {
  }

  /** `set_scale`: clear the full-scale bits 5:4, insert the scale, and set
    * BDU (bit 7) and HR (bit 3). */
  function WithScale(reg: bv8, s: Scale): (out: bv8)
    ensures (out >> 4) & 0x03 == ScaleCode(s)
    ensures out & 0x88 == 0x88
    ensures out & 0x47 == reg & 0x47
  {
    ((reg & 0xCF) | (ScaleCode(s) << 4)) | 0x88
  }

  /** The scale is read back from bits 5:4 whatever else the register held. */
  lemma ScaleCodeInjective(reg: bv8, s: Scale, t: Scale)
    requires WithScale(reg, s) == WithScale(reg, t)
    ensures s == t
  {
    assert ScaleCode(s) == (WithScale(reg, s) >> 4) & 0x03;
  }

  const LPen: bv8 := 0x08
  const HR: bv8 := 0x08

  /** `set_mode`: LPen (bit 3 of CTRL_REG1) is set only for low power, HR
    * (bit 3 of CTRL_REG4) only for high resolution; every other bit of the
    * two registers is kept. */
  function WithMode(reg1: bv8, reg4: bv8, m: Mode): (out: (bv8, bv8))
    ensures (out.0 & LPen != 0) <==> m == LowPower8
    ensures (out.1 & HR != 0) <==> m == HighRes12
    ensures out.0 & 0xF7 == reg1 & 0xF7 && out.1 & 0xF7 == reg4 & 0xF7
  {
    match m
    case HighRes12 => (reg1 & 0xF7, reg4 | 0x08)
    case Normal10 => (reg1 & 0xF7, reg4 & 0xF7)
    case LowPower8 => (reg1 | 0x08, reg4 & 0xF7)
  }

  /** The mode is read back from the two bits. */
  function ModeOf(reg1: bv8, reg4: bv8): Mode {
    if reg1 & LPen != 0 then LowPower8 else if reg4 & HR != 0 then HighRes12 else Normal10
  }

  lemma ModeRoundTrip(reg1: bv8, reg4: bv8, m: Mode)
    ensures ModeOf(WithMode(reg1, reg4, m).0, WithMode(reg1, reg4, m).1) == m
  {
  }

  // ------------------------------------------------------------ acceleration

  /** One axis: the left-justified 12-bit value of a little-endian register
    * pair, sign-extended by the arithmetic shift of the `int16_t`. */
  function Axis(lo: bv8, hi: bv8): (v: int)
    ensures -0x800 <= v < 0x800
  {
    ToI16(U8(hi) * 256 + U8(lo)) / 16
  }

  /** The registers a 12-bit reading `v` is left-justified into. */
  function AxisBytes(v: int): (b: (bv8, bv8))
    requires -0x800 <= v < 0x800
  {
    var w := if v >= 0 then v * 16 else v * 16 + 0x1_0000;
    ((w % 256) as bv8, (w / 256) as bv8)
  }

  lemma AxisRoundTrip(v: int)
    requires -0x800 <= v < 0x800
    ensures Axis(AxisBytes(v).0, AxisBytes(v).1) == v
  {
    var w := if v >= 0 then v * 16 else v * 16 + 0x1_0000;
    ByteBitsBack(w % 256);
    ByteBitsBack(w / 256);
    assert U8(AxisBytes(v).1) * 256 + U8(AxisBytes(v).0) == w;
  }

  /** Milli-g per least significant bit: defined only in high-resolution
    * mode (1, 2, 4 and 12 mg for the four scales). */
  function SensitivityMg(m: Mode, s: Scale): (r: Option<nat>)
    ensures r.Some? <==> m == HighRes12
    ensures r.Some? ==> r.value in {1, 2, 4, 12}
  {
    if m != HighRes12 then None
    else match s
      case Scale2G => Some(1)
      case Scale4G => Some(2)
      case Scale8G => Some(4)
      case Scale16G => Some(12)
  }

  /** A wider range never means a finer step. */
  lemma SensitivityGrowsWithScale(s: Scale, t: Scale)
    requires ScaleCode(s) <= ScaleCode(t)
    ensures SensitivityMg(HighRes12, s).value <= SensitivityMg(HighRes12, t).value
  {
  }

  datatype Accel = Accel(x: int, y: int, z: int, mgPerLsb: nat)

  /** One register write on the bus. */
  datatype RegWrite = RegWrite(reg: bv8, value: bv8)

  /** The driver's file-scope state: the device's register writes and the
    * statics `current_scale` and `current_mode`. */
  class Driver {
    var scale: Scale
    var mode: Mode
    var written: seq<RegWrite>

    /** The statics' initial values. */
    constructor ()
      ensures scale == Scale2G && mode == HighRes12 && written == []
    {
      scale, mode, written := Scale2G, HighRes12, [];
    }

    method WriteRegister(reg: bv8, value: bv8, busErr: EspErr) returns (err: EspErr)
      modifies this`written
      ensures err == busErr && written == old(written) + [RegWrite(reg, value)]
    {
      written := written + [RegWrite(reg, value)];
      err := busErr;
    }

    /** `lis2dh12_init`: `addErr` and `idErr` are the driver results of
      * adding the device and reading WHO_AM_I (which held `id`),
      * `w1`, `w4`, `w2` those of the three configuration writes. */
    method Init(addErr: EspErr, idErr: EspErr, id: bv8, w1: EspErr, w4: EspErr, w2: EspErr)
      returns (err: EspErr)
      modifies this`written
      ensures err == (if addErr != OK then addErr else if idErr != OK then idErr
                      else if id != DeviceId then INVALID_RESPONSE
                      else if w1 != OK then w1 else if w4 != OK then w4 else w2)
      ensures err == OK ==>
        written == old(written) +
          [RegWrite(RegCtrl1, 0x57), RegWrite(RegCtrl4, 0x88), RegWrite(RegCtrl2, 0x09)]
      ensures addErr != OK || idErr != OK || id != DeviceId ==> written == old(written)
      ensures addErr == OK && idErr == OK && id == DeviceId ==>
        written == old(written) +
          (if w1 != OK then [RegWrite(RegCtrl1, 0x57)]
           else if w4 != OK then [RegWrite(RegCtrl1, 0x57), RegWrite(RegCtrl4, 0x88)]
           else [RegWrite(RegCtrl1, 0x57), RegWrite(RegCtrl4, 0x88), RegWrite(RegCtrl2, 0x09)])
    {
      if addErr != OK {
        return addErr;
      }
      if idErr != OK {
        return idErr;
      }
      if id != DeviceId {
        return INVALID_RESPONSE;
      }
      err := WriteRegister(RegCtrl1, 0x57, w1);
      if err != OK {
        return;
      }
      err := WriteRegister(RegCtrl4, 0x88, w4);
      if err != OK {
        return;
      }
      err := WriteRegister(RegCtrl2, 0x09, w2);
    }

    /** `lis2dh12_set_data_rate`: CTRL_REG1 read (`readErr`, value `reg`),
      * updated and written back (`writeErr`). */
    method SetDataRate(r: DataRate, readErr: EspErr, reg: bv8, writeErr: EspErr)
      returns (err: EspErr)
      modifies this`written
      ensures err == (if readErr != OK then readErr else writeErr)
      ensures readErr != OK ==> written == old(written)
      ensures readErr == OK ==> written == old(written) + [RegWrite(RegCtrl1, WithDataRate(reg, r))]
    {
      if readErr != OK {
        return readErr;
      }
      err := WriteRegister(RegCtrl1, WithDataRate(reg, r), writeErr);
    }

    /** `lis2dh12_set_scale`: the stored scale changes only when the write
      * of CTRL_REG4 succeeded. */
    method SetScale(s: Scale, readErr: EspErr, reg: bv8, writeErr: EspErr)
      returns (err: EspErr)
      modifies this`written, this`scale
      ensures err == (if readErr != OK then readErr else writeErr)
      ensures scale == (if err == OK then s else old(scale))
      ensures readErr != OK ==> written == old(written)
      ensures readErr == OK ==> written == old(written) + [RegWrite(RegCtrl4, WithScale(reg, s))]
    {
      if readErr != OK {
        return readErr;
      }
      err := WriteRegister(RegCtrl4, WithScale(reg, s), writeErr);
      if err == OK {
        scale := s;
      }
    }

    /** `lis2dh12_set_mode`: both registers are read, then written back in
      * order; the stored mode changes only when both writes succeeded. */
    method SetMode(m: Mode, readErr1: EspErr, reg1: bv8, readErr4: EspErr, reg4: bv8,
                   writeErr1: EspErr, writeErr4: EspErr)
      returns (err: EspErr)
      modifies this`written, this`mode
      ensures err == (if readErr1 != OK then readErr1 else if readErr4 != OK then readErr4
                      else if writeErr1 != OK then writeErr1 else writeErr4)
      ensures mode == (if err == OK then m else old(mode))
      ensures err == OK ==>
        written == old(written) +
          [RegWrite(RegCtrl1, WithMode(reg1, reg4, m).0), RegWrite(RegCtrl4, WithMode(reg1, reg4, m).1)]
      ensures readErr1 != OK || readErr4 != OK ==> written == old(written)
      ensures readErr1 == OK && readErr4 == OK ==>
        written == old(written) +
          (if writeErr1 != OK then [RegWrite(RegCtrl1, WithMode(reg1, reg4, m).0)]
           else [RegWrite(RegCtrl1, WithMode(reg1, reg4, m).0), RegWrite(RegCtrl4, WithMode(reg1, reg4, m).1)])
    {
      if readErr1 != OK {
        return readErr1;
      }
      if readErr4 != OK {
        return readErr4;
      }
      var regs := WithMode(reg1, reg4, m);
      err := WriteRegister(RegCtrl1, regs.0, writeErr1);
      if err != OK {
        return;
      }
      err := WriteRegister(RegCtrl4, regs.1, writeErr4);
      if err == OK {
        mode := m;
      }
    }

    /** `lis2dh12_get_accel`: one six-byte read from OUT_X_L with the
      * auto-increment bit; a failed read wins over an unsupported mode. */
    method GetAccel(readErr: EspErr, data: seq<bv8>) returns (err: EspErr, a: Option<Accel>)
      requires |data| == 6
      ensures readErr != OK ==> err == readErr && a == None
      ensures readErr == OK && mode != HighRes12 ==> err == INVALID_STATE && a == None
      ensures readErr == OK && mode == HighRes12 ==>
        err == OK && a == Some(Accel(Axis(data[0], data[1]), Axis(data[2], data[3]),
                                     Axis(data[4], data[5]), SensitivityMg(mode, scale).value))
    {
      if readErr != OK {
        return readErr, None;
      }
      var x, y, z := Axis(data[0], data[1]), Axis(data[2], data[3]), Axis(data[4], data[5]);
      var sens := SensitivityMg(mode, scale);
      if sens.None? {
        return INVALID_STATE, None;
      }
      return OK, Some(Accel(x, y, z, sens.value));
    }

    /** `lis2dh12_data_ready`: the ZYXDA bit (bit 3) of the status register. */
    method DataReady(readErr: EspErr, status: bv8) returns (err: EspErr, available: Option<bool>)
      ensures err == readErr
      ensures readErr == OK ==> available == Some(status & 0x08 != 0)
      ensures readErr != OK ==> available == None
    {
      if readErr != OK {
        return readErr, None;
      }
      return OK, Some(status & 0x08 != 0);
    }
  }
}
