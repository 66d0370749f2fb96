/** `LEDStripRmt` of the air-quality device: the hardware strip driven over
  * the RMT peripheral. It keeps its own copy of the pixels (one byte per
  * flip-dot, else three or four bytes per LED), and a flush hands them to
  * the `led_strip` driver in the order the chip expects and starts a
  * transmission. The driver's `refresh` result is a parameter; the pixel
  * calls made before it are returned as a sequence. */
module LedStripRmt {
  import opened CTypes
  import opened LedTypes

  // ---------------------------------------------------------------- shape

  /** The normalised dimensions the constructor keeps. */
  datatype Shape = Shape(rows: u32, cols: u32, length: u32)

  /** The constructor: no rows means one row, no columns means as many as
    * the length needs, and the length becomes rows times columns, all in
    * the 32-bit `size_t`. */
  function Normalize(len: u32, rows: u32, cols: u32): (s: Shape)
    ensures s.rows >= 1 && (rows > 0 ==> s.rows == rows)
    ensures cols > 0 ==> s.cols == cols
    ensures s.rows as int * s.cols < 0x1_0000_0000 ==> s.length == s.rows * s.cols
  {
    var r: u32 := if rows == 0 then 1 else rows;
    var c: u32 := if cols == 0 then WrapU32(len + r - 1) / r else cols;
    Shape(r, c, WrapU32(r * c))
  }

  /** With the columns inferred, the strip is the smallest whole number of
    * columns that holds `len` LEDs. */
  lemma InferredColumns(len: u32, rows: u32)
    requires len as int + rows < 0x1_0000_0000
    ensures var s := Normalize(len, rows, 0);
      s.length == s.rows * s.cols && s.length >= len && s.length - len < s.rows
  {
    var s := Normalize(len, rows, 0);
    var r := s.rows;
    assert s.cols == (len + r - 1) / r;
    assert s.cols * r <= len + r - 1;
    assert s.cols * r > len - 1;
  }

  /** An explicit shape whose product fits is kept as it is. */
  lemma ExplicitShape(len: u32, rows: u32, cols: u32)
    requires rows > 0 && cols > 0 && rows as int * cols < 0x1_0000_0000
    ensures Normalize(len, rows, cols) == Shape(rows, cols, rows * cols)
  {
  }

  // ---------------------------------------------------------------- bytes

  /** Stored bytes per logical pixel. */
  function BytesPer(chip: LedChip): (n: nat)
    ensures chip == Flipdot ==> n == 1
    ensures chip != Flipdot ==> n == if HasWhite(chip) then 4 else 3
  {
    if chip == Flipdot then 1 else if HasWhite(chip) then 4 else 3
  }

  /** Where pixel `i`'s bytes start: `i * bytes_per`. */
  function Offset(chip: LedChip, i: nat): (off: nat)
    ensures off == BytesPer(chip) * i
  {
    if chip == Flipdot then i else if HasWhite(chip) then 4 * i else 3 * i
  }

  /** Pixel `i`'s bytes lie before pixel `j`'s. */
  lemma OffsetsApart(chip: LedChip, i: nat, j: nat)
    requires i < j
    ensures Offset(chip, i) + BytesPer(chip) <= Offset(chip, j)
  {
  }

  /** The bytes `set_pixel` stores for `p`. */
  function Stored(chip: LedChip, p: Rgbw): (q: seq<u8>)
    ensures |q| == BytesPer(chip)
  {
    if chip == Flipdot then [DotLevel(p)]
    else if HasWhite(chip) then [p.r, p.g, p.b, p.w]
    else [p.r, p.g, p.b]
  }

  /** What `get_pixel` reports for pixel `i`. */
  function Read(bytes: seq<u8>, i: nat, chip: LedChip): (p: Rgbw)
    requires Offset(chip, i) + BytesPer(chip) <= |bytes|
  {
    var off := Offset(chip, i);
    if chip == Flipdot then Rgbw(bytes[off], bytes[off], bytes[off], 0)
    else Rgbw(bytes[off], bytes[off + 1], bytes[off + 2], if HasWhite(chip) then bytes[off + 3] else 0)
  }

  /** `bytes` with the bytes from `off` on replaced by `q`. */
  function Put(bytes: seq<u8>, off: nat, q: seq<u8>): (r: seq<u8>)
    requires off + |q| <= |bytes|
    ensures |r| == |bytes|
    ensures forall k | 0 <= k < |r| :: r[k] == if off <= k < off + |q| then q[k - off] else bytes[k]
  {
    bytes[..off] + q + bytes[off + |q|..]
  }

  /** Get after set: a flip-dot reads back its on/off level in every colour
    * channel, a chip with a white channel reads back exactly what was set,
    * WS2812 reads white as 0; other pixels are untouched. */
  lemma GetAfterSet(bytes: seq<u8>, chip: LedChip, i: nat, j: nat, p: Rgbw)
    requires Offset(chip, i) + BytesPer(chip) <= |bytes| && Offset(chip, j) + BytesPer(chip) <= |bytes|
    ensures var r := Put(bytes, Offset(chip, i), Stored(chip, p));
      && (chip == Flipdot ==> Read(r, i, chip) == Rgbw(DotLevel(p), DotLevel(p), DotLevel(p), 0))
      && (HasWhite(chip) ==> Read(r, i, chip) == p)
      && (chip == Ws2812 ==> Read(r, i, chip) == p.(w := 0))
      && (j != i ==> Read(r, j, chip) == Read(bytes, j, chip))
  {
    if j < i {
      OffsetsApart(chip, j, i);
    } else if j > i {
      OffsetsApart(chip, i, j);
    }
  }

  /** A one-byte `Put` is a single update, and changes something exactly
    * when the byte differs. */
  lemma PutOne(bytes: seq<u8>, off: nat, a: u8)
    requires off + 1 <= |bytes|
    ensures Put(bytes, off, [a]) == bytes[off := a]
    ensures bytes[off..off + 1] != [a] <==> bytes[off] != a
  {
    assert bytes[off..off + 1] == [bytes[off]];
    var r := Put(bytes, off, [a]);
    forall k | 0 <= k < |r|
      ensures r[k] == bytes[off := a][k]
    {
    }
  }

  /** A three-byte `Put` is three updates. */
  lemma PutThree(bytes: seq<u8>, off: nat, a: u8, b: u8, c: u8)
    requires off + 3 <= |bytes|
    ensures Put(bytes, off, [a, b, c]) == bytes[off := a][off + 1 := b][off + 2 := c]
    ensures bytes[off..off + 3] != [a, b, c] <==> bytes[off] != a || bytes[off + 1] != b || bytes[off + 2] != c
  {
    assert bytes[off..off + 3] == [bytes[off], bytes[off + 1], bytes[off + 2]];
    var r := Put(bytes, off, [a, b, c]);
    var s := bytes[off := a][off + 1 := b][off + 2 := c];
    forall k | 0 <= k < |r|
      ensures r[k] == s[k]
    {
    }
  }

  /** A four-byte `Put` is four updates. */
  lemma PutFour(bytes: seq<u8>, off: nat, a: u8, b: u8, c: u8, d: u8)
    requires off + 4 <= |bytes|
    ensures Put(bytes, off, [a, b, c, d]) == bytes[off := a][off + 1 := b][off + 2 := c][off + 3 := d]
    ensures bytes[off..off + 4] != [a, b, c, d] <==>
      bytes[off] != a || bytes[off + 1] != b || bytes[off + 2] != c || bytes[off + 3] != d
  {
    assert bytes[off..off + 4] == [bytes[off], bytes[off + 1], bytes[off + 2], bytes[off + 3]];
    var r := Put(bytes, off, [a, b, c, d]);
    var s := bytes[off := a][off + 1 := b][off + 2 := c][off + 3 := d];
    forall k | 0 <= k < |r|
      ensures r[k] == s[k]
    {
    }
  }

  // ---------------------------------------------------------------- wire

  /** One pixel handed to the driver: `led_strip_set_pixel` or
    * `led_strip_set_pixel_rgbw`, in the driver's own argument order. */
  datatype DriverPixel = Rgb(r: u8, g: u8, b: u8) | Rgbw4(r: u8, g: u8, b: u8, w: u8)

  /** LEDs on the wire: a WS2812 carries three flip-dots. */
  function PhysicalLeds(chip: LedChip, length: u32): (n: nat)
  {
    if chip == Flipdot then WrapU32(length + 2) / 3 else length
  }

  /** A flip-dot's level, 0 past the end of the strip. */
  function Dot(bytes: seq<u8>, length: nat, i: nat): (v: u8)
    requires length <= |bytes|
  {
    if i < length then bytes[i] else 0
  }

  /** What `flush_if_dirty` hands to the driver, one call per physical LED:
    * three flip-dots packed into R, G and B; for WS2814 the arguments
    * re-ordered so that the driver's GRBW output arrives as WRGB. */
  function Wire(chip: LedChip, bytes: seq<u8>, length: u32): (w: seq<DriverPixel>)
    requires |bytes| == Offset(chip, length)
    ensures |w| == PhysicalLeds(chip, length)
  {
    if chip == Flipdot then
      seq(PhysicalLeds(chip, length), p requires 0 <= p =>
        Rgb(Dot(bytes, length, 3 * p), Dot(bytes, length, 3 * p + 1), Dot(bytes, length, 3 * p + 2)))
    else
      seq(length, i requires 0 <= i < length => WirePixel(chip, Read(bytes, i, chip)))
  }

  /** The arguments for one logical pixel on an RGB or RGBW chip. */
  function WirePixel(chip: LedChip, p: Rgbw): (d: DriverPixel)
  {
    if chip == Ws2814 then Rgbw4(p.r, p.w, p.g, p.b)
    else if HasWhite(chip) then Rgbw4(p.r, p.g, p.b, p.w)
    else Rgb(p.r, p.g, p.b)
  }

  /** Undoing the WS2814 re-ordering: arguments (a, b, c, d) carry the
    * pixel (a, c, d, b). */
  function Unwire(chip: LedChip, d: DriverPixel): (p: Rgbw)
  {
    match d
    case Rgb(r, g, b) => Rgbw(r, g, b, 0)
    case Rgbw4(a, b, c, e) => if chip == Ws2814 then Rgbw(a, c, e, b) else Rgbw(a, b, c, e)
  }

  /** The driver arguments determine the pixel: unwiring gives back what
    * `get_pixel` reports. */
  lemma UnwireWire(chip: LedChip, p: Rgbw)
    requires chip != Flipdot && (!HasWhite(chip) ==> p.w == 0)
    ensures Unwire(chip, WirePixel(chip, p)) == p
  {
  }

  /** WS2814 hands the driver (r, w, g, b) for a stored (r, g, b, w). */
  lemma Ws2814Order(bytes: seq<u8>, length: u32, i: nat)
    requires |bytes| == 4 * length && i < length
    ensures Wire(Ws2814, bytes, length)[i] == Rgbw4(bytes[4 * i], bytes[4 * i + 3], bytes[4 * i + 1], bytes[4 * i + 2])
  {
  }

  /** Flip-dot `j` travels in channel `j % 3` of physical LED `j / 3`, and
    * the channels past the last dot carry 0. */
  lemma FlipdotPacking(bytes: seq<u8>, length: u32, p: nat, k: nat)
    requires |bytes| == length && length as int + 2 < 0x1_0000_0000
    requires p < PhysicalLeds(Flipdot, length) && k < 3
    ensures var d := Wire(Flipdot, bytes, length)[p];
      var v := if k == 0 then d.r else if k == 1 then d.g else d.b;
      (3 * p + k < length ==> v == bytes[3 * p + k]) && (3 * p + k >= length ==> v == 0)
  {
  }

  /** Every flip-dot gets a slot: the packed LEDs cover the whole strip. */
  lemma FlipdotCovers(length: u32, j: nat)
    requires length as int + 2 < 0x1_0000_0000 && j < length
    ensures j / 3 < PhysicalLeds(Flipdot, length)
  {
  }

  // ---------------------------------------------------------------- timing

  /** `estimate_transmission_end`: 1.25 µs per bit, 24 bits per RGB LED or
    * 32 per RGBW LED, plus an 80 µs reset. */
  function DoneAt(nowUs: u64, chip: LedChip, length: u32): (t: u64)
  {
    var bits := if HasWhite(chip) then 32 else 24;
    WrapU64(nowUs + bits * PhysicalLeds(chip, length) * 1250 / 1000 + 80)
  }

  /** Without wrap-around the estimate lies at least the reset time, and
    * at most the full frame time plus it, after the flush. */
  lemma DoneAtBounds(nowUs: u64, chip: LedChip, length: u32)
    requires nowUs as int + 40 * PhysicalLeds(chip, length) + 80 < 0x1_0000_0000_0000_0000
    ensures nowUs + 80 <= DoneAt(nowUs, chip, length) <= nowUs + 40 * PhysicalLeds(chip, length) + 80
  {
    var n := PhysicalLeds(chip, length);
    var bits := if HasWhite(chip) then 32 else 24;
    assert bits * n * 1250 / 1000 <= 40 * n;
  }

  // ---------------------------------------------------------------- object

  class Strip {
    const chip: LedChip
    const rows: u32
    const cols: u32
    const length: u32
    var pixels: seq<u8>
    var dirty: bool
    var transmitting: bool
    var lastFlushUs: u64
    var expectedDoneUs: u64

    predicate Valid()
      reads this`pixels
    {
      |pixels| == Offset(chip, length)
    }

    /** The constructor: the shape normalised, every byte 0, idle. */
    constructor (len: u32, r: u32, c: u32, k: LedChip)
      ensures Shape(rows, cols, length) == Normalize(len, r, c) && chip == k
      ensures pixels == seq(Offset(k, length), _ => 0)
      ensures !dirty && !transmitting && lastFlushUs == 0 && expectedDoneUs == 0
      ensures Valid()
    {
      var s := Normalize(len, r, c);
      rows := s.rows;
      cols := s.cols;
      length := s.length;
      chip := k;
      pixels := seq(Offset(k, s.length), _ => 0);
      dirty := false;
      transmitting := false;
      lastFlushUs := 0;
      expectedDoneUs := 0;
    }

    /** `get_pixel`: none past the end. */
    function GetPixel(index: nat): (r: Option<Rgbw>)
      reads this`pixels
      requires Valid()
      ensures r.None? <==> index >= length
      ensures r.Some? ==> r.value == Read(pixels, index, chip)
    {
      if index >= length then None
      else
        OffsetsApart(chip, index, length);
        Some(Read(pixels, index, chip))
    }

    /** `set_pixel`: an index past the end is refused; otherwise the
      * pixel's bytes become `Stored(chip, p)` and the result (and the dirty
      * flag) says whether one of them changed. */
    method SetPixel(index: nat, p: Rgbw) returns (changed: bool)
      requires Valid()
      modifies this`pixels, this`dirty
      ensures Valid()
      ensures index >= length ==> !changed && pixels == old(pixels)
      ensures index < length ==> pixels == Put(old(pixels), Offset(chip, index), Stored(chip, p))
      ensures index < length ==> (changed <==>
        old(pixels)[Offset(chip, index)..Offset(chip, index) + BytesPer(chip)] != Stored(chip, p))
      ensures dirty == (old(dirty) || changed)
    {
      if index >= length {
        return false;
      }
      var n := BytesPer(chip);
      var off := Offset(chip, index);
      OffsetsApart(chip, index, length);
      ghost var was := pixels;
      var q := Stored(chip, p);
      var c0, c1, c2, c3 := false, false, false, false;
      if chip == Flipdot {
        c0 := SetByte(off, q[0]);
        PutOne(was, off, q[0]);
        assert q == [q[0]];
      } else if HasWhite(chip) {
        c0 := SetByte(off, q[0]);
        c1 := SetByte(off + 1, q[1]);
        c2 := SetByte(off + 2, q[2]);
        c3 := SetByte(off + 3, q[3]);
        PutFour(was, off, q[0], q[1], q[2], q[3]);
        assert q == [q[0], q[1], q[2], q[3]];
      } else {
        c0 := SetByte(off, q[0]);
        c1 := SetByte(off + 1, q[1]);
        c2 := SetByte(off + 2, q[2]);
        PutThree(was, off, q[0], q[1], q[2]);
        assert q == [q[0], q[1], q[2]];
      }
      changed := c0 || c1 || c2 || c3;
      if changed {
        dirty := true;
      }
    }

    /** One `if (pixels_[k] != v) { pixels_[k] = v; changed = true; }`. */
    method SetByte(k: nat, v: u8) returns (c: bool)
      requires k < |pixels|
      modifies this`pixels
      ensures pixels == old(pixels)[k := v]
      ensures c <==> old(pixels)[k] != v
    {
      c := pixels[k] != v;
      if c {
        pixels := pixels[k := v];
      }
    }

    /** `clear`: every byte becomes 0, and the strip turns dirty when one
      * was not 0 already. */
    method Clear()
      requires Valid()
      modifies this`pixels, this`dirty
      ensures Valid()
      ensures pixels == seq(|old(pixels)|, _ => 0)
      ensures dirty == (old(dirty) || exists k | 0 <= k < |old(pixels)| :: old(pixels)[k] != 0)
    {
      ghost var was := pixels;
      var any := false;
      var k := 0;
      while k < |pixels|
        invariant 0 <= k <= |pixels| == |was|
        invariant forall m | 0 <= m < k :: pixels[m] == 0
        invariant forall m | k <= m < |pixels| :: pixels[m] == was[m]
        invariant any <==> exists m | 0 <= m < k :: was[m] != 0
        invariant dirty == old(dirty)
      {
        if pixels[k] != 0 {
          pixels := pixels[k := 0];
          any := true;
        }
        k := k + 1;
      }
      if any {
        dirty := true;
      }
      assert pixels == seq(|was|, _ => 0);
    }

    /** `flush_if_dirty`. While a transmission is under way nothing is sent
      * (and the flag is dropped once its estimated end has passed); a clean
      * strip flushed again within `maxQuiescentUs` is skipped; otherwise the
      * pixels go to the driver and, when `refreshOk`, a transmission
      * starts. `calls` are the driver calls made. */
    method FlushIfDirty(nowUs: u64, maxQuiescentUs: u64, refreshOk: bool) returns (sent: bool, calls: seq<DriverPixel>)
      requires Valid()
      modifies this`dirty, this`transmitting, this`lastFlushUs, this`expectedDoneUs
      ensures old(transmitting) ==>
        (!sent && calls == [] && transmitting == !(nowUs > old(expectedDoneUs))
         && dirty == old(dirty) && lastFlushUs == old(lastFlushUs) && expectedDoneUs == old(expectedDoneUs))
      ensures !old(transmitting) && !old(dirty) && SubU64(nowUs, old(lastFlushUs)) < maxQuiescentUs ==>
        (!sent && calls == [] && !transmitting
         && !dirty && lastFlushUs == old(lastFlushUs) && expectedDoneUs == old(expectedDoneUs))
      ensures !old(transmitting) && (old(dirty) || SubU64(nowUs, old(lastFlushUs)) >= maxQuiescentUs) ==>
        calls == Wire(chip, pixels, length) && sent == refreshOk
      ensures !old(transmitting) && (old(dirty) || SubU64(nowUs, old(lastFlushUs)) >= maxQuiescentUs) && refreshOk ==>
        (transmitting && !dirty && lastFlushUs == nowUs && expectedDoneUs == DoneAt(nowUs, chip, length))
      ensures !old(transmitting) && (old(dirty) || SubU64(nowUs, old(lastFlushUs)) >= maxQuiescentUs) && !refreshOk ==>
        (!transmitting && dirty == old(dirty) && lastFlushUs == old(lastFlushUs) && expectedDoneUs == old(expectedDoneUs))
    {
      if transmitting {
        if nowUs > expectedDoneUs {
          transmitting := false;
        }
        return false, [];
      }
      if !dirty && SubU64(nowUs, lastFlushUs) < maxQuiescentUs {
        return false, [];
      }
      calls := Pack();
      if !refreshOk {
        return false, calls;
      }
      transmitting := true;
      lastFlushUs := nowUs;
      dirty := false;
      expectedDoneUs := DoneAt(nowUs, chip, length);
      sent := true;
    }

    /** The pixel loop of `flush_if_dirty`. */
    method Pack() returns (calls: seq<DriverPixel>)
      requires Valid()
      ensures calls == Wire(chip, pixels, length)
    {
      calls := [];
      if chip == Flipdot {
        var physical := WrapU32(length + 2) / 3;
        var p := 0;
        while p < physical
          invariant 0 <= p <= physical && |calls| == p
          invariant forall j | 0 <= j < p :: calls[j] == Wire(chip, pixels, length)[j]
        {
          var r := if 3 * p < length then pixels[3 * p] else 0;
          var g := if 3 * p + 1 < length then pixels[3 * p + 1] else 0;
          var b := if 3 * p + 2 < length then pixels[3 * p + 2] else 0;
          calls := calls + [Rgb(r, g, b)];
          p := p + 1;
        }
      } else {
        var i := 0;
        while i < length
          invariant 0 <= i <= length && |calls| == i
          invariant forall j | 0 <= j < i :: calls[j] == Wire(chip, pixels, length)[j]
        {
          var off := Offset(chip, i);
          OffsetsApart(chip, i, length);
          var d: DriverPixel;
          if HasWhite(chip) {
            if chip == Ws2814 {
              d := Rgbw4(pixels[off], pixels[off + 3], pixels[off + 1], pixels[off + 2]);
            } else {
              d := Rgbw4(pixels[off], pixels[off + 1], pixels[off + 2], pixels[off + 3]);
            }
          } else {
            d := Rgb(pixels[off], pixels[off + 1], pixels[off + 2]);
          }
          calls := calls + [d];
          i := i + 1;
        }
      }
    }

    /** `on_transmit_complete`: idle again, and the estimated end never lies
      * before the moment the driver reported completion. */
    method OnTransmitComplete(nowUs: u64)
      modifies this`transmitting, this`expectedDoneUs
      ensures !transmitting && expectedDoneUs == Max(old(expectedDoneUs), nowUs)
    {
      transmitting := false;
      if nowUs > expectedDoneUs {
        expectedDoneUs := nowUs;
      }
    }
  }
}
