/** The wire encoders that turn a logical RGBA frame (four bytes per pixel,
  * in chain order) into the bytes the LED driver sends: a flip-dot panel
  * packs three dots into one RGB pixel, a WS2814 strip reorders each pixel's
  * channels. */
module LedEncoders {
  import opened CTypes

  // ---------------------------------------------------------------- flip-dot

  /** `frame_size_for`: the dots rounded up to whole RGB triples. */
  function FlipdotFrameSize(rows: nat, cols: nat): (n: nat)
    ensures n % 3 == 0 && rows * cols <= n < rows * cols + 3
  {
    ((rows * cols + 2) / 3) * 3
  }

  /** `px[0] | px[1] | px[2] | px[3]`. */
  function Or4(a: u8, b: u8, c: u8, d: u8): (x: bv8) {
    a as bv8 | b as bv8 | c as bv8 | d as bv8
  }

  /** The bitwise or of the channels is non-zero exactly when some channel is. */
  lemma Or4Nonzero(a: u8, b: u8, c: u8, d: u8)
    ensures Or4(a, b, c, d) != 0 <==> (a != 0 || b != 0 || c != 0 || d != 0)
  {
    var x, y, z, w := a as bv8, b as bv8, c as bv8, d as bv8;
    assert a != 0 ==> x != 0;
    assert b != 0 ==> y != 0;
    assert c != 0 ==> z != 0;
    assert d != 0 ==> w != 0;
    assert x | y | z | w == 0 <==> x == 0 && y == 0 && z == 0 && w == 0;
  }

  /** A logical pixel with some non-zero channel. */
  predicate PixelOn(rgba: seq<u8>, li: nat)
    requires 4 * li + 4 <= |rgba|
  {
    rgba[4 * li] != 0 || rgba[4 * li + 1] != 0 || rgba[4 * li + 2] != 0 || rgba[4 * li + 3] != 0
  }

  /** The channel byte carrying logical dot `li`: 255 for a lit dot, 0 for a
    * dark one and for a padding slot past the last dot. */
  function DotChannel(rgba: seq<u8>, logical: nat, li: nat): (v: u8)
    requires 4 * logical <= |rgba|
  {
    if li < logical then
      (if Or4(rgba[4 * li], rgba[4 * li + 1], rgba[4 * li + 2], rgba[4 * li + 3]) != 0 then 255 else 0)
    else 0
  }

  /** A dot's channel is 255 exactly when the dot exists and is on, and 0
    * otherwise. */
  lemma DotChannelMeaning(rgba: seq<u8>, logical: nat, li: nat)
    requires 4 * logical <= |rgba|
    ensures DotChannel(rgba, logical, li) == 255 <==> li < logical && PixelOn(rgba, li)
    ensures DotChannel(rgba, logical, li) == 0 <==> !(li < logical && PixelOn(rgba, li))
  {
    if li < logical {
      Or4Nonzero(rgba[4 * li], rgba[4 * li + 1], rgba[4 * li + 2], rgba[4 * li + 3]);
    }
  }

  /** The encoded frame: every byte is 0 or 255, byte `k` is 255 exactly when
    * dot `k` exists and is on, and the padding after the last dot is 0. */
  lemma FlipdotFrameBytes(rgba: seq<u8>, rows: nat, cols: nat, k: nat)
    requires 4 * (rows * cols) <= |rgba|
    ensures var b := DotChannel(rgba, rows * cols, k);
      (b == 0 || b == 255)
      && (b == 255 <==> k < rows * cols && PixelOn(rgba, k))
      && (k >= rows * cols ==> b == 0)
  {
    DotChannelMeaning(rgba, rows * cols, k);
  }

  /** `WireEncoderFlipdot::encode_frame`: byte `k` of the frame carries
    * logical dot `k` (three per RGB triple), and the rest of `out` is left
    * alone. */
  method EncodeFlipdot(rgba: seq<u8>, rows: nat, cols: nat, out: array<u8>)
    requires 4 * (rows * cols) <= |rgba| && FlipdotFrameSize(rows, cols) <= out.Length
    modifies out
    ensures forall k | 0 <= k < FlipdotFrameSize(rows, cols) :: out[k] == DotChannel(rgba, rows * cols, k)
    ensures out[FlipdotFrameSize(rows, cols)..] == old(out[FlipdotFrameSize(rows, cols)..])
  {
    var logical := rows * cols;
    var physical := (logical + 2) / 3;
    assert 3 * physical == FlipdotFrameSize(rows, cols);
    var p := 0;
    while p < physical
      invariant 0 <= p <= physical
      invariant forall k | 0 <= k < 3 * p :: out[k] == DotChannel(rgba, logical, k)
      invariant out[3 * physical..] == old(out[3 * physical..])
    {
      out[3 * p] := DotChannel(rgba, logical, 3 * p);
      out[3 * p + 1] := DotChannel(rgba, logical, 3 * p + 1);
      out[3 * p + 2] := DotChannel(rgba, logical, 3 * p + 2);
      p := p + 1;
    }
  }

  // ---------------------------------------------------------------- WS2814

  /** `frame_size_for`: four bytes per pixel. */
  function Ws2814FrameSize(rows: nat, cols: nat): (n: nat)
    ensures n == 4 * (rows * cols)
  {
    rows * cols * 4
  }

  /** The first `count` encoded pixels: each logical (r, g, b, w) goes out as
    * (r, w, g, b), the order the driver's GRBW slots need for a WRGB chip. */
  function Ws2814Frame(rgba: seq<u8>, count: nat): (f: seq<u8>)
    requires 4 * count <= |rgba|
    ensures |f| == 4 * count
  {
    if count == 0 then []
    else
      var i := count - 1;
      Ws2814Frame(rgba, i) + [rgba[4 * i], rgba[4 * i + 3], rgba[4 * i + 1], rgba[4 * i + 2]]
  }

  /** Encoded pixel `i` is the reordered logical pixel `i`. */
  lemma {:induction false} Ws2814FrameAt(rgba: seq<u8>, count: nat, i: nat)
    requires 4 * count <= |rgba| && i < count
    ensures var f := Ws2814Frame(rgba, count);
      f[4 * i] == rgba[4 * i] && f[4 * i + 1] == rgba[4 * i + 3]
      && f[4 * i + 2] == rgba[4 * i + 1] && f[4 * i + 3] == rgba[4 * i + 2]
  {
    if i < count - 1 {
      Ws2814FrameAt(rgba, count - 1, i);
      var f := Ws2814Frame(rgba, count);
      var g := Ws2814Frame(rgba, count - 1);
      assert f[..4 * (count - 1)] == g;
      assert 4 * i + 3 < 4 * (count - 1);
    }
  }

  /** Encoded pixel `i` depends only on logical pixel `i`. */
  lemma Ws2814Local(x: seq<u8>, y: seq<u8>, count: nat, i: nat)
    requires 4 * count <= |x| && 4 * count <= |y| && i < count
    requires x[4 * i] == y[4 * i] && x[4 * i + 1] == y[4 * i + 1]
    requires x[4 * i + 2] == y[4 * i + 2] && x[4 * i + 3] == y[4 * i + 3]
    ensures var f, g := Ws2814Frame(x, count), Ws2814Frame(y, count);
      f[4 * i] == g[4 * i] && f[4 * i + 1] == g[4 * i + 1]
      && f[4 * i + 2] == g[4 * i + 2] && f[4 * i + 3] == g[4 * i + 3]
  {
    Ws2814FrameAt(x, count, i);
    Ws2814FrameAt(y, count, i);
  }

  /** The reverse reordering: each wire pixel (a, b, c, d) is the logical
    * (a, c, d, b). */
  function Ws2814Decode(f: seq<u8>, count: nat): (rgba: seq<u8>)
    requires 4 * count <= |f|
    ensures |rgba| == 4 * count
  {
    if count == 0 then []
    else
      var i := count - 1;
      Ws2814Decode(f, i) + [f[4 * i], f[4 * i + 2], f[4 * i + 3], f[4 * i + 1]]
  }

  /** Decoding the encoded frame gives back the logical pixels. */
  lemma {:induction false} Ws2814RoundTrip(rgba: seq<u8>, count: nat)
    requires 4 * count <= |rgba|
    ensures Ws2814Decode(Ws2814Frame(rgba, count), count) == rgba[..4 * count]
  {
    if count > 0 {
      var i := count - 1;
      var f := Ws2814Frame(rgba, count);
      var g := Ws2814Frame(rgba, i);
      assert f[..4 * i] == g;
      Ws2814DecodePrefix(f, g, i);
      Ws2814RoundTrip(rgba, i);
      assert rgba[..4 * count] == rgba[..4 * i] + [rgba[4 * i], rgba[4 * i + 1], rgba[4 * i + 2], rgba[4 * i + 3]];
    }
  }

  /** Decoding reads only the first `count` pixels. */
  lemma {:induction false} Ws2814DecodePrefix(f: seq<u8>, g: seq<u8>, count: nat)
    requires 4 * count <= |g| <= |f| && f[..|g|] == g
    ensures Ws2814Decode(f, count) == Ws2814Decode(g, count)
  {
    if count > 0 {
      Ws2814DecodePrefix(f, g, count - 1);
      var i := count - 1;
      assert f[4 * i] == g[4 * i] && f[4 * i + 1] == g[4 * i + 1];
      assert f[4 * i + 2] == g[4 * i + 2] && f[4 * i + 3] == g[4 * i + 3];
    }
  }

  /** `WireEncoderWS2814::encode_frame`: fills the frame and leaves the rest
    * of `out` alone. */
  method EncodeWs2814(rgba: seq<u8>, rows: nat, cols: nat, out: array<u8>)
    requires 4 * (rows * cols) <= |rgba| && Ws2814FrameSize(rows, cols) <= out.Length
    modifies out
    ensures out[..Ws2814FrameSize(rows, cols)] == Ws2814Frame(rgba, rows * cols)
    ensures out[Ws2814FrameSize(rows, cols)..] == old(out[Ws2814FrameSize(rows, cols)..])
  {
    var count := rows * cols;
    var i := 0;
    while i < count
      invariant 0 <= i <= count
      invariant out[..4 * i] == Ws2814Frame(rgba, i)
      invariant out[4 * count..] == old(out[4 * count..])
    {
      var r, g, b, w := rgba[4 * i], rgba[4 * i + 1], rgba[4 * i + 2], rgba[4 * i + 3];
      out[4 * i] := r;
      out[4 * i + 1] := w;
      out[4 * i + 2] := g;
      out[4 * i + 3] := b;
      assert out[..4 * i + 4] == out[..4 * i] + [r, w, g, b];
      i := i + 1;
    }
  }
}
