/** The I2C master helper layer of the LED amplifier firmware: binary
  * renderings of register values into static character buffers, and the
  * byte framing of register reads and writes over an abstract bus. */
module I2cExt {
  import opened CTypes
  import opened Arith

  // ------------------------------------------------------- binary strings

  /** The character `'0' + bit`. */
  function BitChar(bit: nat): (c: char)
    requires bit < 2
    ensures c == '0' || c == '1'
    ensures (c == '1') == (bit == 1)
  {
    if bit == 0 then '0' else '1'
  }

  predicate IsBinary(s: string) {
    forall i :: 0 <= i < |s| ==> s[i] == '0' || s[i] == '1'
  }

  /** The low `w` bits of `n`, most significant first. */
  function BinaryDigits(n: nat, w: nat): (s: string)
    ensures |s| == w && IsBinary(s)
  {
    if w == 0 then [] else BinaryDigits(n / 2, w - 1) + [BitChar(n % 2)]
  }

  /** The number a string of binary digits denotes, most significant first. */
  function BinaryValue(s: string): (v: nat)
    requires IsBinary(s)
    ensures v < Pow2(|s|)
  {
    if s == [] then 0
    else BinaryValue(s[..|s| - 1]) * 2 + (if s[|s| - 1] == '1' then 1 else 0)
  }

  /** Parsing a rendering gives back the number it renders. */
  lemma {:induction false} BinaryRoundTrip(n: nat, w: nat)
    requires n < Pow2(w)
    ensures BinaryValue(BinaryDigits(n, w)) == n
  {
    if w > 0 {
      BinaryRoundTrip(n / 2, w - 1);
      var s := BinaryDigits(n, w);
      assert s[..|s| - 1] == BinaryDigits(n / 2, w - 1);
    }
  }

  /** A rendering is determined by the value: distinct values below `2^w`
    * render differently. */
  lemma BinaryDigitsInjective(m: nat, n: nat, w: nat)
    requires m < Pow2(w) && n < Pow2(w) && BinaryDigits(m, w) == BinaryDigits(n, w)
    ensures m == n
  {
    BinaryRoundTrip(m, w);
    BinaryRoundTrip(n, w);
  }

  lemma DivDiv(x: nat, a: nat, b: nat)
    requires a > 0 && b > 0
    ensures x / a / b == x / (a * b)
  {
    var q, r := x / (a * b), x % (a * b);
    assert x == q * (a * b) + r;
    assert r == (r / a) * a + r % a;
    assert q * (a * b) == (q * b) * a;
    assert x == (q * b + r / a) * a + r % a;
    DivModUnique(x, a, q * b + r / a, r % a);
    assert (r / a) * a <= r < b * a;
    assert r / a < b;
    DivModUnique(x / a, b, q, r / a);
  }

  /** Character `i` of a rendering is bit `w - 1 - i` of the value. */
  lemma {:induction false} BinaryDigitAt(n: nat, w: nat, i: nat)
    requires i < w
    ensures BinaryDigits(n, w)[i] == BitChar(n / Pow2(w - 1 - i) % 2)
  {
    if i < w - 1 {
      BinaryDigitAt(n / 2, w - 1, i);
      DivDiv(n, 2, Pow2(w - 2 - i));
    }
  }

  /** One of the static `uintN_to_binary` buffers: `width` digit slots and
    * the terminator slot. */
  class BinaryBuffer {
    const width: nat
    const buf: array<char>

    constructor (width: nat)
      ensures this.width == width && buf.Length == width + 1 && fresh(buf)
    {
      this.width := width;
      buf := new char[width + 1];
    }

    /** `uint8_to_binary`, `uint16_to_binary` and `uint32_to_binary`: write
      * the terminator, then fill the slots from the last one down, one low
      * bit of `n` at a time. The returned text is the buffer's content; a
      * later call overwrites it. */
    method Render(n: nat) returns (s: string)
      requires n < Pow2(width) && buf.Length == width + 1
      modifies buf
      ensures buf[..] == BinaryDigits(n, width) + ['\0']
      ensures s == buf[..width] && BinaryValue(s) == n
    {
      buf[width] := '\0';
      var m := n;
      var i := width;
      while i > 0
        invariant 0 <= i <= width
        invariant m == n / Pow2(width - i)
        invariant buf[width] == '\0'
        invariant forall j :: i <= j < width ==> buf[j] == BinaryDigits(n, width)[j]
      {
        BinaryDigitAt(n, width, i - 1);
        DivDiv(n, Pow2(width - i), 2);
        buf[i - 1] := BitChar(m % 2);
        m := m / 2;
        i := i - 1;
      }
      assert buf[..width] == BinaryDigits(n, width);
      assert buf[..] == buf[..width] + [buf[width]];
      s := buf[..width];
      BinaryRoundTrip(n, width);
    }
  }

  // ------------------------------------------------------- byte packing

  /** A byte sequence read least significant byte first. */
  function LeValue(bytes: seq<u8>): (v: nat)
    ensures v < Pow2(8 * |bytes|)
  {
    if bytes == [] then 0
    else
      Pow2Add(8, 8 * (|bytes| - 1));
      assert Pow2(8) == 256;
      bytes[0] + 256 * LeValue(bytes[1..])
  }

  /** The `n` bytes of `v`, least significant first (the in-memory layout of
    * an integer on the little-endian target, as the `i2c_bytes_to_*`
    * unions expose it). */
  function LeBytes(v: nat, n: nat): (bytes: seq<u8>)
    ensures |bytes| == n
  {
    if n == 0 then [] else [v % 256] + LeBytes(v / 256, n - 1)
  }

  lemma {:induction false} LeRoundTrip(v: nat, n: nat)
    requires v < Pow2(8 * n)
    ensures LeValue(LeBytes(v, n)) == v
  {
    if n > 0 {
      Pow2Add(8, 8 * (n - 1));
      assert Pow2(8) == 256;
      assert v / 256 < Pow2(8 * (n - 1));
      LeRoundTrip(v / 256, n - 1);
      assert LeBytes(v, n)[1..] == LeBytes(v / 256, n - 1);
    }
  }

  lemma {:induction false} LeBytesRoundTrip(bytes: seq<u8>)
    ensures LeBytes(LeValue(bytes), |bytes|) == bytes
  {
    if bytes != [] {
      LeBytesRoundTrip(bytes[1..]);
      MulDivMod(LeValue(bytes[1..]), 256, bytes[0]);
    }
  }

  /** `rx[0] | (rx[1] << 8)`: the two bytes occupy disjoint bits, so the
    * `|` is a sum. */
  function Uint16Of(rx0: u8, rx1: u8): (v: u16)
    ensures v == LeValue([rx0, rx1])
    ensures v % 256 == rx0 && v / 256 == rx1
  {
    MulDivMod(rx1, 256, rx0);
    assert LeValue([rx0, rx1]) == rx0 + 256 * LeValue([rx1]);
    rx0 + rx1 * 256
  }

  /** `rx[0] | (rx[1] << 8) | (rx[2] << 16) | (rx[3] << 24)`. */
  function Uint32Of(rx: seq<u8>): (v: u32)
    requires |rx| == 4
    ensures v == LeValue(rx)
    ensures LeBytes(v, 4) == rx
  {
    var b0: int, b1: int, b2: int, b3: int := rx[0], rx[1], rx[2], rx[3];
    assert LeValue(rx[3..]) == b3 by { assert rx[3..][1..] == []; }
    assert LeValue(rx[2..]) == b2 + 256 * b3 by { assert rx[2..][1..] == rx[3..]; }
    assert LeValue(rx[1..]) == b1 + 256 * (b2 + 256 * b3) by { assert rx[1..][1..] == rx[2..]; }
    LeBytesRoundTrip(rx);
    b0 + b1 * 0x100 + b2 * 0x1_0000 + b3 * 0x100_0000
  }

  /** The frame of `write_uint8`: register, then value. */
  function WriteUint8Frame(reg: u8, data: u8): (tx: seq<u8>)
    ensures |tx| == 2 && tx[0] == reg && tx[1] == data
  {
    [reg, data]
  }

  /** The frame of `write_uint16`: register, low byte, high byte. */
  function WriteUint16Frame(reg: u8, data: u16): (tx: seq<u8>)
    ensures |tx| == 3 && tx[0] == reg
    ensures Uint16Of(tx[1], tx[2]) == data
  {
    [reg, data % 256, data / 256]
  }

  /** A 16-bit register address or command, sent as its in-memory bytes. */
  function Word16Frame(w: u16): (tx: seq<u8>)
    ensures |tx| == 2 && Uint16Of(tx[0], tx[1]) == w
  {
    [w % 256, w / 256]
  }

  // ------------------------------------------------------- transfers

  /** A bus operation issued through the ESP-IDF master driver. */
  datatype Transfer =
    | Transmit(tx: seq<u8>)
    | TransmitReceive(tx: seq<u8>, rxLen: nat)

  /** The bus as the helpers see it: the transfers issued on it. A driver
    * call's outcome (`busErr`) and the bytes it receives (`rx`) are inputs;
    * `hasHandle`/`hasData` say whether the handle or the output pointer is
    * non-NULL. */
  class Bus {
    var transfers: seq<Transfer>

    constructor ()
      ensures transfers == []
    {
      transfers := [];
    }

    method Issue(t: Transfer, busErr: EspErr) returns (err: EspErr)
      modifies this
      ensures transfers == old(transfers) + [t] && err == busErr
    {
      transfers := transfers + [t];
      err := busErr;
    }

    /** `i2c_master_bus_read_uint8`. `cur` is `*data` before the call. */
    method ReadUint8(hasHandle: bool, hasData: bool, reg: u8, busErr: EspErr, rx: u8, cur: u8)
      returns (err: EspErr, data: u8)
      modifies this
      ensures !(hasHandle && hasData) ==> err == INVALID_ARG && data == cur && transfers == old(transfers)
      ensures hasHandle && hasData ==>
        err == busErr && transfers == old(transfers) + [TransmitReceive([reg], 1)] &&
        data == (if busErr == OK then rx else cur)
    {
      if !(hasHandle && hasData) {
        return INVALID_ARG, cur;
      }
      err := Issue(TransmitReceive([reg], 1), busErr);
      data := if err == OK then rx else cur;
    }

    /** `i2c_master_bus_read_uint16`: the two received bytes, low first. */
    method ReadUint16(hasHandle: bool, hasData: bool, reg: u8, busErr: EspErr, rx0: u8, rx1: u8, cur: u16)
      returns (err: EspErr, data: u16)
      modifies this
      ensures !(hasHandle && hasData) ==> err == INVALID_ARG && data == cur && transfers == old(transfers)
      ensures hasHandle && hasData ==>
        err == busErr && transfers == old(transfers) + [TransmitReceive([reg], 2)] &&
        data == (if busErr == OK then LeValue([rx0, rx1]) else cur)
    {
      if !(hasHandle && hasData) {
        return INVALID_ARG, cur;
      }
      err := Issue(TransmitReceive([reg], 2), busErr);
      data := if err == OK then Uint16Of(rx0, rx1) else cur;
    }

    /** `i2c_master_bus_read_uint32`: the four received bytes, low first. */
    method ReadUint32(hasHandle: bool, hasData: bool, reg: u8, busErr: EspErr, rx: seq<u8>, cur: u32)
      returns (err: EspErr, data: u32)
      requires |rx| == 4
      modifies this
      ensures !(hasHandle && hasData) ==> err == INVALID_ARG && data == cur && transfers == old(transfers)
      ensures hasHandle && hasData ==>
        err == busErr && transfers == old(transfers) + [TransmitReceive([reg], 4)] &&
        data == (if busErr == OK then LeValue(rx) else cur)
    {
      if !(hasHandle && hasData) {
        return INVALID_ARG, cur;
      }
      err := Issue(TransmitReceive([reg], 4), busErr);
      data := if err == OK then Uint32Of(rx) else cur;
    }

    /** The `read_byteN` and `read16_byteN` helpers: the register address
      * `tx` (one byte, or a 16-bit address as its two in-memory bytes) and
      * `size` bytes received straight into the caller's array, which then
      * holds `rx` whatever the driver reports. */
    method ReadBlock(hasHandle: bool, hasData: bool, tx: seq<u8>, size: nat, busErr: EspErr,
                     rx: seq<u8>, cur: seq<u8>)
      returns (err: EspErr, data: seq<u8>)
      requires |rx| == size && |cur| == size
      modifies this
      ensures |data| == size
      ensures !(hasHandle && hasData) ==> err == INVALID_ARG && data == cur && transfers == old(transfers)
      ensures hasHandle && hasData ==>
        err == busErr && data == rx && transfers == old(transfers) + [TransmitReceive(tx, size)]
    {
      if !(hasHandle && hasData) {
        return INVALID_ARG, cur;
      }
      err := Issue(TransmitReceive(tx, size), busErr);
      data := rx;
    }

    /** `i2c_master_bus_write_cmd` (`wide` false, a one-byte command) and
      * `i2c_master_bus_write16_cmd` (`wide` true, a 16-bit command sent as
      * its in-memory bytes). */
    method WriteCmd(hasHandle: bool, wide: bool, command: u16, busErr: EspErr) returns (err: EspErr)
      requires !wide ==> command < 0x100
      modifies this
      ensures !hasHandle ==> err == INVALID_ARG && transfers == old(transfers)
      ensures hasHandle ==>
        err == busErr &&
        transfers == old(transfers) + [Transmit(if wide then Word16Frame(command) else [command])]
    {
      if !hasHandle {
        return INVALID_ARG;
      }
      err := Issue(Transmit(if wide then Word16Frame(command) else [command]), busErr);
    }

    /** `i2c_master_bus_write_uint8`. */
    method WriteUint8(hasHandle: bool, reg: u8, data: u8, busErr: EspErr) returns (err: EspErr)
      modifies this
      ensures !hasHandle ==> err == INVALID_ARG && transfers == old(transfers)
      ensures hasHandle ==> err == busErr && transfers == old(transfers) + [Transmit(WriteUint8Frame(reg, data))]
    {
      if !hasHandle {
        return INVALID_ARG;
      }
      err := Issue(Transmit(WriteUint8Frame(reg, data)), busErr);
    }

    /** `i2c_master_bus_write_uint16`. */
    method WriteUint16(hasHandle: bool, reg: u8, data: u16, busErr: EspErr) returns (err: EspErr)
      modifies this
      ensures !hasHandle ==> err == INVALID_ARG && transfers == old(transfers)
      ensures hasHandle ==> err == busErr && transfers == old(transfers) + [Transmit(WriteUint16Frame(reg, data))]
    {
      if !hasHandle {
        return INVALID_ARG;
      }
      err := Issue(Transmit(WriteUint16Frame(reg, data)), busErr);
    }
  }

  /** A 16-bit value written with `write_uint16` reads back with
    * `read_uint16` from the bytes after the register. */
  lemma WriteReadUint16(reg: u8, data: u16)
    ensures LeValue(WriteUint16Frame(reg, data)[1..]) == data
  {
    var tx := WriteUint16Frame(reg, data);
    assert tx[1..] == [tx[1], tx[2]];
  }
}
