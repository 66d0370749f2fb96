/** The Sensirion SEN55 particulate/environment sensor driver
  * (`sen55_sensor.cpp`): the CRC-8 of every 16-bit word on the wire, the
  * framing of commands and their arguments, and the decoding of the 24-byte
  * measurement frame into the sensor's stored readings. Readings are kept as
  * the raw integers the sensor sends; the division into floating-point
  * units is not modelled. */
module Sen55 {
  import opened CTypes

  const CmdStartMeasurement: u16 := 0x0021
  const CmdStopMeasurement: u16 := 0x0104
  const CmdReadMeasurement: u16 := 0x03C4
  const CmdReset: u16 := 0xD304

  /** The word a sensor sends for a particulate value it has not measured. */
  const PmUnavailable: u16 := 0xFFFF
  /** The signed word it sends for an unavailable temperature, humidity, VOC
    * or NOx value. */
  const Unavailable: i16 := 0x7FFF
  /** `_startup_readings_count` stops counting here. */
  const StartupReadings: nat := 5

  // ------------------------------------------------------------ CRC-8

  /** One bit step of `calculateCRC`: shift left, folding in the polynomial
    * x^8 + x^5 + x^4 + 1 (0x31) when the top bit falls out. */
  function CrcShift(c: bv8): bv8 {
    if c & 0x80 != 0 then (c << 1) ^ 0x31 else c << 1
  }

  /** The eight bit steps applied to each byte. */
  function CrcShift8(c: bv8): bv8 {
    CrcShift(CrcShift(CrcShift(CrcShift(CrcShift(CrcShift(CrcShift(CrcShift(c))))))))
  }

  /** Folding one data byte into the register: XOR it in, then eight steps. */
  function CrcByte(c: bv8, b: u8): bv8 {
    CrcShift8(c ^ (b as bv8))
  }

  function CrcFrom(c: bv8, data: seq<u8>): bv8
    decreases |data|
  {
    if data == [] then c else CrcFrom(CrcByte(c, data[0]), data[1..])
  }

  /** `calculateCRC(data, len)`: initial value 0xFF, most significant bit
    * first, no final XOR. */
  function Crc(data: seq<u8>): u8 {
    U8(CrcFrom(0xFF, data))
  }

  /** `n` bit steps. */
  function CrcShifts(c: bv8, n: nat): bv8 {
    if n == 0 then c else CrcShift(CrcShifts(c, n - 1))
  }

  lemma CrcShiftsEight(c: bv8)
    ensures CrcShifts(c, 8) == CrcShift8(c)
  {
    assert CrcShifts(c, 1) == CrcShift(c) by {
      assert CrcShifts(c, 0) == c;
    }
    assert CrcShifts(c, 2) == CrcShift(CrcShifts(c, 1));
    assert CrcShifts(c, 3) == CrcShift(CrcShifts(c, 2));
    assert CrcShifts(c, 4) == CrcShift(CrcShifts(c, 3));
    assert CrcShifts(c, 5) == CrcShift(CrcShifts(c, 4));
    assert CrcShifts(c, 6) == CrcShift(CrcShifts(c, 5));
    assert CrcShifts(c, 7) == CrcShift(CrcShifts(c, 6));
  }

  /** `calculateCRC` with its byte and bit loops. */
  method CalculateCrc(data: seq<u8>) returns (crc: u8)
    ensures crc == Crc(data)
  {
    var c: bv8 := 0xFF;
    var i := 0;
    while i < |data|
      invariant 0 <= i <= |data|
      invariant CrcFrom(c, data[i..]) == CrcFrom(0xFF, data)
    {
      c := c ^ (data[i] as bv8);
      ghost var start := c;
      var bit := 0;
      while bit < 8
        invariant 0 <= bit <= 8 && c == CrcShifts(start, bit)
      {
        if c & 0x80 != 0 {
          c := (c << 1) ^ 0x31;
        } else {
          c := c << 1;
        }
        bit := bit + 1;
      }
      CrcShiftsEight(start);
      assert data[i..][1..] == data[i + 1..];
      i := i + 1;
    }
    crc := U8(c);
  }

  /** The check value Sensirion's data sheets give for the word 0xBEEF. */
  lemma CrcOfBeef()
    ensures Crc([0xBE, 0xEF]) == 0x92
  {
    var c1 := CrcByte(0xFF, 0xBE);
    assert c1 == 0x0C by {
      assert 0xFF ^ (0xBE as bv8) == 0x41;
    }
    assert CrcByte(0x0C, 0xEF) == 0x92 by {
      assert 0x0C ^ (0xEF as bv8) == 0xE3;
    }
    assert CrcFrom(c1, [0xEF]) == CrcByte(c1, 0xEF);
  }

  /** A bit step loses no information: the result's low bit tells whether
    * the polynomial was folded in. */
  lemma CrcShiftInjective(x: bv8, y: bv8)
    requires CrcShift(x) == CrcShift(y)
    ensures x == y
  {
  }

  lemma CrcShift8Injective(x: bv8, y: bv8)
    requires CrcShift8(x) == CrcShift8(y)
    ensures x == y
  {
    var x1, y1 := CrcShift(x), CrcShift(y);
    var x2, y2 := CrcShift(x1), CrcShift(y1);
    var x3, y3 := CrcShift(x2), CrcShift(y2);
    var x4, y4 := CrcShift(x3), CrcShift(y3);
    var x5, y5 := CrcShift(x4), CrcShift(y4);
    var x6, y6 := CrcShift(x5), CrcShift(y5);
    var x7, y7 := CrcShift(x6), CrcShift(y6);
    CrcShiftInjective(x7, y7);
    CrcShiftInjective(x6, y6);
    CrcShiftInjective(x5, y5);
    CrcShiftInjective(x4, y4);
    CrcShiftInjective(x3, y3);
    CrcShiftInjective(x2, y2);
    CrcShiftInjective(x1, y1);
    CrcShiftInjective(x, y);
  }

  /** With the register fixed, different bytes give different registers;
    * with the byte fixed, different registers give different registers. */
  lemma CrcByteInjective(c: bv8, d: bv8, a: u8, b: u8)
    requires CrcByte(c, a) == CrcByte(d, b)
    ensures c == d ==> a == b
    ensures a == b ==> c == d
  {
    CrcShift8Injective(c ^ (a as bv8), d ^ (b as bv8));
    XorCancel(c, d, a as bv8, b as bv8);
    if a as bv8 == b as bv8 {
      ByteBitsInjective(a, b);
    }
  }

  lemma XorCancel(c: bv8, d: bv8, x: bv8, y: bv8)
    requires c ^ x == d ^ y
    ensures c == d ==> x == y
    ensures x == y ==> c == d
  {
  }

  lemma {:induction false} CrcFromSnoc(c: bv8, data: seq<u8>, x: u8)
    ensures CrcFrom(c, data + [x]) == CrcByte(CrcFrom(c, data), x)
    decreases |data|
  {
    if data != [] {
      assert (data + [x])[1..] == data[1..] + [x];
      CrcFromSnoc(CrcByte(c, data[0]), data[1..], x);
    } else {
      assert CrcFrom(CrcByte(c, x), []) == CrcByte(c, x);
    }
  }

  /** Running the CRC over the data followed by its own CRC leaves zero in
    * the register, as CRCs without a final XOR do. */
  lemma CrcOfCheckedIsZero(data: seq<u8>)
    ensures Crc(data + [Crc(data)]) == 0
  {
    var c := CrcFrom(0xFF, data);
    CrcFromSnoc(0xFF, data, Crc(data));
    assert c ^ (Crc(data) as bv8) == 0;
  }

  /** Any change to exactly one of the two bytes of a word changes its CRC. */
  lemma WordErrorDetected(w: seq<u8>, v: seq<u8>)
    requires |w| == 2 && |v| == 2 && w != v
    requires w[0] == v[0] || w[1] == v[1]
    ensures Crc(w) != Crc(v)
  {
    var cw := CrcFrom(0xFF, w[..1]);
    var cv := CrcFrom(0xFF, v[..1]);
    assert w == w[..1] + [w[1]] && v == v[..1] + [v[1]];
    CrcFromSnoc(0xFF, w[..1], w[1]);
    CrcFromSnoc(0xFF, v[..1], v[1]);
    assert cw == CrcByte(0xFF, w[0]) && cv == CrcByte(0xFF, v[0]);
    if Crc(w) == Crc(v) {
      assert CrcFrom(0xFF, w) == CrcFrom(0xFF, v);
      if w[0] == v[0] {
        CrcByteInjective(cw, cv, w[1], v[1]);
      } else {
        CrcByteInjective(cw, cv, w[1], v[1]);
        CrcByteInjective(0xFF, 0xFF, w[0], v[0]);
      }
    }
  }

  // ------------------------------------------------------------ framing

  /** The 16-bit value of a high and a low byte. */
  function Word(hi: u8, lo: u8): u16 {
    hi as int * 256 + lo as int
  }

  /** A 16-bit word on the wire, most significant byte first. */
  function WordBytes(w: u16): (b: seq<u8>)
    ensures |b| == 2 && Word(b[0], b[1]) == w
  {
    [w / 256, w % 256]
  }

  /** Argument bytes as they go on the wire: each pair followed by its
    * check byte. The framing does not depend on which check it is. */
  function FrameWith(check: seq<u8> -> u8, args: seq<u8>): (f: seq<u8>)
    requires |args| % 2 == 0
    ensures |f| == |args| + |args| / 2
    decreases |args|
  {
    if args == [] then [] else args[..2] + [check(args[..2])] + FrameWith(check, args[2..])
  }

  /** The argument framing of `sendCommandWithArgs`, with the CRC as check. */
  function ArgsFrame(args: seq<u8>): (f: seq<u8>)
    requires |args| % 2 == 0
    ensures |f| == |args| + |args| / 2
  {
    FrameWith(Crc, args)
  }

  /** The whole write of `sendCommandWithArgs`: the command word, then the
    * framed arguments. */
  function CommandFrame(cmd: u16, args: seq<u8>): (f: seq<u8>)
    requires |args| % 2 == 0
    ensures |f| == 2 + |args| + |args| / 2
  {
    WordBytes(cmd) + ArgsFrame(args)
  }

  lemma {:induction false} FrameWithSnoc(check: seq<u8> -> u8, args: seq<u8>, pair: seq<u8>)
    requires |args| % 2 == 0 && |pair| == 2
    ensures FrameWith(check, args + pair) == FrameWith(check, args) + pair + [check(pair)]
    decreases |args|
  {
    if args == [] {
      assert args + pair == pair;
      assert pair[..2] == pair && pair[2..] == [];
      assert FrameWith(check, pair) == pair + [check(pair)] + FrameWith(check, []);
    } else {
      var t := args + pair;
      assert t[..2] == args[..2] && t[2..] == args[2..] + pair;
      FrameWithSnoc(check, args[2..], pair);
    }
  }

  /** Extending the arguments by one pair extends the frame by one triple. */
  lemma ArgsFrameSnoc(args: seq<u8>, pair: seq<u8>)
    requires |args| % 2 == 0 && |pair| == 2
    ensures ArgsFrame(args + pair) == ArgsFrame(args) + pair + [Crc(pair)]
  {
    FrameWithSnoc(Crc, args, pair);
  }

  /** Word `k` of a received frame: bytes `3k` and `3k+1`, big-endian. */
  function WordAt(data: seq<u8>, k: nat): (w: u16)
    requires 3 * k + 2 <= |data|
  {
    Word(data[3 * k], data[3 * k + 1])
  }

  /** The CRC byte after word `k` matches it. */
  predicate CrcOk(data: seq<u8>, k: nat)
    requires 3 * k + 3 <= |data|
  {
    Crc(data[3 * k..3 * k + 2]) == data[3 * k + 2]
  }

  /** Every word of a frame of `n` words passes its check. */
  predicate AllCrcOk(data: seq<u8>, n: nat)
    requires 3 * n <= |data|
  {
    forall k :: 0 <= k < n ==> CrcOk(data, k)
  }

  /** Triple `k` of a frame is pair `k` of the arguments followed by its check. */
  lemma {:induction false} FrameWithAt(check: seq<u8> -> u8, args: seq<u8>, k: nat)
    requires |args| % 2 == 0 && k < |args| / 2
    ensures var f := FrameWith(check, args);
      f[3 * k..3 * k + 2] == args[2 * k..2 * k + 2] && check(f[3 * k..3 * k + 2]) == f[3 * k + 2]
    decreases k
  {
    var f := FrameWith(check, args);
    var rest := FrameWith(check, args[2..]);
    assert f == args[..2] + [check(args[..2])] + rest;
    if k == 0 {
      assert f[0..2] == args[..2];
    } else {
      FrameWithAt(check, args[2..], k - 1);
      var j := 3 * (k - 1);
      assert 3 * k == j + 3;
      assert f[j + 3..j + 5] == rest[j..j + 2];
      assert f[j + 5] == rest[j + 2];
      assert args[2 * k..2 * k + 2] == args[2..][2 * (k - 1)..2 * (k - 1) + 2];
    }
  }

  /** Every triple of a frame passes its check and carries the original pair. */
  lemma FrameWithChecks(check: seq<u8> -> u8, args: seq<u8>)
    requires |args| % 2 == 0
    ensures var f := FrameWith(check, args);
      forall k :: 0 <= k < |args| / 2 ==>
        f[3 * k..3 * k + 2] == args[2 * k..2 * k + 2] && check(f[3 * k..3 * k + 2]) == f[3 * k + 2]
  {
    forall k | 0 <= k < |args| / 2 {
      FrameWithAt(check, args, k);
    }
  }

  /** Framing is what the receiving side checks: every triple of a framed
    * argument list passes the CRC check and carries the original pair. */
  lemma ArgsFrameChecks(args: seq<u8>)
    requires |args| % 2 == 0
    ensures var f := ArgsFrame(args);
      AllCrcOk(f, |args| / 2) &&
      forall k :: 0 <= k < |args| / 2 ==> f[3 * k..3 * k + 2] == args[2 * k..2 * k + 2]
  {
    FrameWithChecks(Crc, args);
    var f := ArgsFrame(args);
    forall k | 0 <= k < |args| / 2
      ensures CrcOk(f, k)
    {
    }
  }

  /** A frame whose words all pass their check stops passing when any one
    * byte of it is changed: such a frame is answered with INVALID_CRC. */
  lemma SingleByteCorruptionDetected(data: seq<u8>, n: nat, p: nat, x: u8)
    requires 3 * n <= |data| && p < 3 * n && data[p] != x && AllCrcOk(data, n)
    ensures !AllCrcOk(data[p := x], n)
  {
    var k := p / 3;
    var d := data[p := x];
    var w := data[3 * k..3 * k + 2];
    var v := d[3 * k..3 * k + 2];
    assert CrcOk(data, k);
    if p % 3 == 2 {
      assert p == 3 * k + 2 && w == v;
      assert d[3 * k + 2] == x;
    } else {
      assert v == w[p - 3 * k := x];
      WordErrorDetected(w, v);
      assert d[3 * k + 2] == data[3 * k + 2];
    }
    assert !CrcOk(d, k);
  }

  /** How many bytes `sendCommandWithArgs` allocates, as written. */
  function BufferSize(n: nat): nat {
    2 + n + n / 2
  }

  /** How many bytes its loop writes, as written: one triple per started pair. */
  function BytesWrittenAsWritten(n: nat): nat {
    2 + 3 * ((n + 1) / 2)
  }

  /** As written, an odd argument count makes the loop write two bytes past
    * the allocation and read one byte past the arguments; the allocation
    * and the writes agree exactly for even counts. */
  lemma OddArgsOverrun(n: nat)
    ensures n % 2 == 1 ==> BytesWrittenAsWritten(n) == BufferSize(n) + 2
    ensures n % 2 == 0 ==> BytesWrittenAsWritten(n) == BufferSize(n)
  {
  }

  /** `sendCommand(cmd)`: the command word, most significant byte first;
    * `txErr` is what the I2C driver returns. */
  function SendCommand(cmd: u16, txErr: EspErr): (r: (EspErr, seq<u8>))
    ensures r.0 == txErr && |r.1| == 2 && Word(r.1[0], r.1[1]) == cmd
  {
    (txErr, WordBytes(cmd))
  }

  /** `sendCommandWithArgs(cmd, args, len)`, with odd argument counts
    * refused: `alloc` says whether the buffer could be allocated and `txErr`
    * is what the I2C driver returns. `sent` is what is handed to the driver. */
  method SendCommandWithArgs(cmd: u16, args: seq<u8>, alloc: bool, txErr: EspErr)
    returns (err: EspErr, sent: seq<u8>)
    ensures |args| % 2 == 1 ==> err == INVALID_ARG && sent == []
    ensures |args| % 2 == 0 && !alloc ==> err == NO_MEM && sent == []
    ensures |args| % 2 == 0 && alloc ==> err == txErr && sent == CommandFrame(cmd, args)
  {
    var n := |args|;
    if n % 2 == 1 {
      return INVALID_ARG, [];
    }
    if !alloc {
      return NO_MEM, [];
    }
    var framed := FrameArgs(args);
    sent := WordBytes(cmd) + framed;
    err := txErr;
  }

  /** The argument loop of `sendCommandWithArgs`: each pair, then its CRC. */
  method FrameArgs(args: seq<u8>) returns (out: seq<u8>)
    requires |args| % 2 == 0
    ensures out == ArgsFrame(args)
  {
    out := [];
    var i := 0;
    while i < |args|
      invariant 0 <= i <= |args| && i % 2 == 0
      invariant out == ArgsFrame(args[..i])
    {
      var pair := args[i..i + 2];
      out := out + [args[i], args[i + 1], Crc(pair)];
      assert args[..i + 2] == args[..i] + pair;
      ArgsFrameSnoc(args[..i], pair);
      i := i + 2;
    }
    assert args[..i] == args;
  }

  // ------------------------------------------------------------ readings

  /** The stored readings, as raw sensor words. */
  datatype Readings = Readings(pm1: u16, pm25: u16, pm4: u16, pm10: u16,
                               temperature: i16, humidity: i16, voc: i16, nox: i16)

  /** The measurement frame is eight words, each with its CRC byte. */
  const FrameWords: nat := 8

  /** Some particulate word says "not measured". */
  predicate PmInvalid(data: seq<u8>)
    requires |data| == 3 * FrameWords
  {
    WordAt(data, 0) == PmUnavailable || WordAt(data, 1) == PmUnavailable ||
    WordAt(data, 2) == PmUnavailable || WordAt(data, 3) == PmUnavailable
  }

  /** A signed reading replaces the old one unless the sensor reports it
    * unavailable. */
  function Update(old_: i16, word: u16): (r: i16)
    ensures ToI16(word) == Unavailable ==> r == old_
    ensures ToI16(word) != Unavailable ==> r == ToI16(word) && r % 0x1_0000 == word
  {
    if ToI16(word) == Unavailable then old_ else ToI16(word)
  }

  /** The readings after a frame that passed every check. */
  function Measured(prev: Readings, data: seq<u8>): (r: Readings)
    requires |data| == 3 * FrameWords
    ensures r.pm1 == WordAt(data, 0) && r.pm25 == WordAt(data, 1)
    ensures r.pm4 == WordAt(data, 2) && r.pm10 == WordAt(data, 3)
    ensures r.temperature == Update(prev.temperature, WordAt(data, 4))
    ensures r.humidity == Update(prev.humidity, WordAt(data, 5))
    ensures r.voc == Update(prev.voc, WordAt(data, 6))
    ensures r.nox == Update(prev.nox, WordAt(data, 7))
  {
    Readings(WordAt(data, 0), WordAt(data, 1), WordAt(data, 2), WordAt(data, 3),
             Update(prev.temperature, WordAt(data, 4)), Update(prev.humidity, WordAt(data, 5)),
             Update(prev.voc, WordAt(data, 6)), Update(prev.nox, WordAt(data, 7)))
  }

  /** The result of `readMeasurement`: the first driver error, then a CRC
    * mismatch, then an unmeasured particulate value, else success. */
  function Outcome(cmdErr: EspErr, rxErr: EspErr, data: seq<u8>): (e: EspErr)
    requires |data| == 3 * FrameWords
    ensures e == OK <==> cmdErr == OK && rxErr == OK && AllCrcOk(data, FrameWords) && !PmInvalid(data)
  {
    if cmdErr != OK then cmdErr
    else if rxErr != OK then rxErr
    else if !AllCrcOk(data, FrameWords) then INVALID_CRC
    else if PmInvalid(data) then INVALID_STATE
    else OK
  }

  /** A sensor answering with eight framed words is read back exactly: the
    * checks pass, and each stored particulate value is the word sent. */
  lemma FramedReadingsAccepted(words: seq<u8>)
    requires |words| == 2 * FrameWords
    ensures var data := ArgsFrame(words);
      AllCrcOk(data, FrameWords) &&
      forall k :: 0 <= k < FrameWords ==> WordAt(data, k) == Word(words[2 * k], words[2 * k + 1])
  {
    var data := ArgsFrame(words);
    ArgsFrameChecks(words);
    forall k | 0 <= k < FrameWords
      ensures WordAt(data, k) == Word(words[2 * k], words[2 * k + 1])
    {
      assert data[3 * k..3 * k + 2] == words[2 * k..2 * k + 2];
      assert data[3 * k] == data[3 * k..3 * k + 2][0];
      assert data[3 * k + 1] == data[3 * k..3 * k + 2][1];
    }
  }

  /** The CRC loop of `readMeasurement`: stops at the first word whose
    * check byte does not match. */
  method CheckFrame(data: seq<u8>) returns (ok: bool)
    requires |data| == 3 * FrameWords
    ensures ok == AllCrcOk(data, FrameWords)
  {
    var i := 0;
    while i < 3 * FrameWords
      invariant 0 <= i <= 3 * FrameWords && i % 3 == 0
      invariant AllCrcOk(data, i / 3)
    {
      if Crc(data[i..i + 2]) != data[i + 2] {
        assert !CrcOk(data, i / 3);
        return false;
      }
      i := i + 3;
    }
    return true;
  }

  class Sensor {
    var pm1: u16
    var pm25: u16
    var pm4: u16
    var pm10: u16
    var temperature: i16
    var humidity: i16
    var voc: i16
    var nox: i16
    var initialized: bool
    var startupReadings: nat

    function Current(): Readings
      reads this
    {
      Readings(pm1, pm25, pm4, pm10, temperature, humidity, voc, nox)
    }

    ghost predicate Valid()
      reads this
    {
      startupReadings <= StartupReadings
    }

    /** The constructor's defaults: 25.0 °C and 50.0 %RH as raw words
      * (scales 200 and 100), every other reading 0. */
    constructor ()
      ensures Valid() && !initialized && startupReadings == 0
      ensures Current() == Readings(0, 0, 0, 0, 5000, 5000, 0, 0)
    {
      pm1, pm25, pm4, pm10 := 0, 0, 0, 0;
      temperature, humidity, voc, nox := 5000, 5000, 0, 0;
      initialized := false;
      startupReadings := 0;
    }

    /** `init(bus)`: `busOk` is a non-null bus handle, the errors are those of
      * adding the device and sending reset and start, `tagsOk` whether the
      * tag collection was built. */
    method Init(busOk: bool, addErr: EspErr, resetErr: EspErr, startErr: EspErr, tagsOk: bool)
      returns (ok: bool)
      modifies this`initialized
      ensures old(initialized) ==> ok && initialized
      ensures !old(initialized) ==>
        ok == (busOk && addErr == OK && resetErr == OK && startErr == OK && tagsOk) &&
        initialized == ok
    {
      if initialized {
        return true;
      }
      if !busOk || addErr != OK || resetErr != OK || startErr != OK || !tagsOk {
        return false;
      }
      initialized := true;
      ok := true;
    }

    /** `readMeasurement()`: `cmdErr` and `rxErr` are the driver results of
      * sending the read command and receiving the 24-byte frame `data`. */
    method ReadMeasurement(cmdErr: EspErr, rxErr: EspErr, data: seq<u8>) returns (err: EspErr)
      requires |data| == 3 * FrameWords
      modifies this`pm1, this`pm25, this`pm4, this`pm10, this`temperature, this`humidity,
        this`voc, this`nox
      ensures err == Outcome(cmdErr, rxErr, data)
      ensures err == OK ==> Current() == Measured(old(Current()), data)
      ensures err != OK ==> Current() == old(Current())
    {
      if cmdErr != OK {
        return cmdErr;
      }
      if rxErr != OK {
        return rxErr;
      }
      var ok := CheckFrame(data);
      if !ok {
        return INVALID_CRC;
      }
      if PmInvalid(data) {
        return INVALID_STATE;
      }
      var next := Measured(Current(), data);
      pm1, pm25, pm4, pm10 := next.pm1, next.pm25, next.pm4, next.pm10;
      temperature, humidity, voc, nox := next.temperature, next.humidity, next.voc, next.nox;
      err := OK;
    }

    /** `poll()`: nothing before initialisation; after a good read the
      * start-up counter advances, saturating at five. */
    method Poll(cmdErr: EspErr, rxErr: EspErr, data: seq<u8>)
      requires Valid() && |data| == 3 * FrameWords
      modifies this
      ensures Valid() && initialized == old(initialized)
      ensures !old(initialized) ==> Current() == old(Current()) && startupReadings == old(startupReadings)
      ensures old(initialized) && Outcome(cmdErr, rxErr, data) == OK ==>
        Current() == Measured(old(Current()), data) &&
        startupReadings == Min(old(startupReadings) + 1, StartupReadings)
      ensures old(initialized) && Outcome(cmdErr, rxErr, data) != OK ==>
        Current() == old(Current()) && startupReadings == old(startupReadings)
    {
      if !initialized {
        return;
      }
      var err := ReadMeasurement(cmdErr, rxErr, data);
      if err != OK {
        return;
      }
      if startupReadings < StartupReadings {
        startupReadings := startupReadings + 1;
      }
    }
  }
}
