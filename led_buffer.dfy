/** `LEDBuffer`: an in-memory strip that patterns render into, four bytes
  * per pixel in R, G, B, W order whatever the chip, so that frames can be
  * composed before the hardware strip is written. */
module LedBuffer {
  import opened CTypes
  import opened LedTypes

  // ---------------------------------------------------------------- bytes

  /** The four bytes `set_pixel` stores for `p`: a flip-dot keeps one on/off
    * level in the three colour bytes, and a chip without a white channel
    * keeps 0 in the fourth. */
  function Stored(chip: LedChip, p: Rgbw): (q: seq<u8>)
    ensures |q| == 4
  {
    if chip == Flipdot then [DotLevel(p), DotLevel(p), DotLevel(p), 0]
    else [p.r, p.g, p.b, if HasWhite(chip) then p.w else 0]
  }

  /** What `get_pixel` reports for pixel `i`; the white byte reads 0 on a
    * chip without one. */
  function Read(bytes: seq<u8>, i: nat, chip: LedChip): (p: Rgbw)
    requires 4 * i + 4 <= |bytes|
    ensures p.r == bytes[4 * i] && p.g == bytes[4 * i + 1] && p.b == bytes[4 * i + 2]
    ensures p.w == if HasWhite(chip) then bytes[4 * i + 3] else 0
  {
    Rgbw(bytes[4 * i], bytes[4 * i + 1], bytes[4 * i + 2], if HasWhite(chip) then bytes[4 * i + 3] else 0)
  }

  /** `bytes` with pixel `i`'s four bytes replaced by `q`. */
  function Put(bytes: seq<u8>, i: nat, q: seq<u8>): (r: seq<u8>)
    requires 4 * i + 4 <= |bytes| && |q| == 4
    ensures |r| == |bytes|
    ensures forall k | 0 <= k < |r| :: r[k] == if 4 * i <= k < 4 * i + 4 then q[k - 4 * i] else bytes[k]
  {
    bytes[..4 * i] + q + bytes[4 * i + 4..]
  }

  /** The pixel a `set_pixel` of `p` makes `get_pixel` report. */
  function Shown(chip: LedChip, p: Rgbw): (s: Rgbw)
    ensures HasWhite(chip) ==> s == p
    ensures chip == Ws2812 ==> s == p.(w := 0)
    ensures chip == Flipdot ==> s == Rgbw(DotLevel(p), DotLevel(p), DotLevel(p), 0)
  {
    if chip == Flipdot then Rgbw(DotLevel(p), DotLevel(p), DotLevel(p), 0)
    else if HasWhite(chip) then p
    else p.(w := 0)
  }

  /** Pixel `j`'s bytes are ones `set_pixel` can leave: no white byte
    * without a white channel, and one 0/255 level for a flip-dot. */
  predicate PixelOk(bytes: seq<u8>, j: nat, chip: LedChip)
    requires 4 * j + 4 <= |bytes|
  {
    (!HasWhite(chip) ==> bytes[4 * j + 3] == 0)
    && (chip == Flipdot ==>
      bytes[4 * j] == bytes[4 * j + 1] == bytes[4 * j + 2] && (bytes[4 * j] == 0 || bytes[4 * j] == 255))
  }

  /** Some byte is not 0. */
  predicate AnySet(bytes: seq<u8>) {
    exists k | 0 <= k < |bytes| :: bytes[k] != 0
  }

  /** `n` pixels of bytes every one of which `set_pixel` can leave. */
  predicate Wellformed(bytes: seq<u8>, n: nat, chip: LedChip) {
    |bytes| == 4 * n && forall j | 0 <= j < n :: PixelOk(bytes, j, chip)
  }

  /** Get after set: the pixel reads back as `Shown`, so with a white
    * channel exactly as written, and every other pixel is untouched. */
  lemma GetAfterSet(bytes: seq<u8>, i: nat, j: nat, chip: LedChip, p: Rgbw)
    requires 4 * i + 4 <= |bytes| && 4 * j + 4 <= |bytes|
    ensures Read(Put(bytes, i, Stored(chip, p)), i, chip) == Shown(chip, p)
    ensures j != i ==> Read(Put(bytes, i, Stored(chip, p)), j, chip) == Read(bytes, j, chip)
  {
  }

  /** A flip-dot reads back 255 in every colour channel exactly when some
    * input channel was non-zero. */
  lemma FlipdotLevels(bytes: seq<u8>, i: nat, p: Rgbw)
    requires 4 * i + 4 <= |bytes|
    ensures var s := Read(Put(bytes, i, Stored(Flipdot, p)), i, Flipdot);
      (s.r == 255 && s.g == 255 && s.b == 255 <==> Lit(p)) &&
      (s.r == 0 && s.g == 0 && s.b == 0 <==> !Lit(p)) && s.w == 0
  {
    GetAfterSet(bytes, i, i, Flipdot, p);
  }

  /** Storing keeps the buffer well formed. */
  lemma PutKeepsWellformed(bytes: seq<u8>, n: nat, chip: LedChip, i: nat, p: Rgbw)
    requires Wellformed(bytes, n, chip) && i < n
    ensures Wellformed(Put(bytes, i, Stored(chip, p)), n, chip)
  {
    var r := Put(bytes, i, Stored(chip, p));
    forall j | 0 <= j < n
      ensures PixelOk(r, j, chip)
    {
      if j != i {
        assert PixelOk(bytes, j, chip);
      }
    }
  }

  /** Writing back what was read changes nothing: every well-formed pixel is
    * a stored one. */
  lemma StoreRead(bytes: seq<u8>, n: nat, chip: LedChip, i: nat)
    requires Wellformed(bytes, n, chip) && i < n
    ensures Stored(chip, Read(bytes, i, chip)) == bytes[4 * i..4 * i + 4]
  {
    assert PixelOk(bytes, i, chip);
    var q := Stored(chip, Read(bytes, i, chip));
    forall k | 0 <= k < 4
      ensures q[k] == bytes[4 * i + k]
    {
    }
  }

  /** The bytes of a run of pixels stored one after another. */
  function Filled(chip: LedChip, src: seq<Rgbw>): (r: seq<u8>)
    ensures |r| == 4 * |src|
  {
    if src == [] then [] else Filled(chip, src[..|src| - 1]) + Stored(chip, src[|src| - 1])
  }

  /** Reading a stored pixel gives what it shows. */
  lemma ReadStored(chip: LedChip, p: Rgbw, front: seq<u8>, j: nat)
    requires |front| == 4 * j
    ensures Read(front + Stored(chip, p), j, chip) == Shown(chip, p)
  {
  }

  /** Bytes appended after a pixel do not change how it reads. */
  lemma ReadPrefix(front: seq<u8>, rest: seq<u8>, j: nat, chip: LedChip)
    requires 4 * j + 4 <= |front|
    ensures Read(front + rest, j, chip) == Read(front, j, chip)
  {
  }

  /** Each pixel of a filled run reads back as it was shown. */
  lemma {:induction false} ReadFilled(chip: LedChip, src: seq<Rgbw>, j: nat)
    requires j < |src|
    ensures Read(Filled(chip, src), j, chip) == Shown(chip, src[j])
  {
    var last := |src| - 1;
    var front := Filled(chip, src[..last]);
    assert Filled(chip, src) == front + Stored(chip, src[last]);
    if j < last {
      ReadFilled(chip, src[..last], j);
      ReadPrefix(front, Stored(chip, src[last]), j, chip);
    } else {
      ReadStored(chip, src[last], front, j);
    }
  }

  /** `Put` of four bytes is four single-byte updates. */
  lemma PutBytes(bytes: seq<u8>, i: nat, a: u8, b: u8, c: u8, d: u8)
    requires 4 * i + 4 <= |bytes|
    ensures Put(bytes, i, [a, b, c, d]) == bytes[4 * i := a][4 * i + 1 := b][4 * i + 2 := c][4 * i + 3 := d]
  {
    var r := Put(bytes, i, [a, b, c, d]);
    var s := bytes[4 * i := a][4 * i + 1 := b][4 * i + 2 := c][4 * i + 3 := d];
    assert |r| == |s|;
    forall k | 0 <= k < |r|
      ensures r[k] == s[k]
    {
    }
  }

  /** A pixel's four bytes differ from `q` exactly when one of them does. */
  lemma SliceDiffers(bytes: seq<u8>, off: nat, q: seq<u8>)
    requires off + 4 <= |bytes| && |q| == 4
    ensures bytes[off..off + 4] != q <==>
      (bytes[off] != q[0] || bytes[off + 1] != q[1] || bytes[off + 2] != q[2] || bytes[off + 3] != q[3])
  {
    assert bytes[off..off + 4] == [bytes[off], bytes[off + 1], bytes[off + 2], bytes[off + 3]];
    assert q == [q[0], q[1], q[2], q[3]];
  }

  /** One more stored pixel extends the filled run. */
  lemma FillStep(chip: LedChip, src: seq<Rgbw>, i: nat, was: seq<u8>)
    requires i < |src| && 4 * i + 4 <= |was|
    ensures Put(Filled(chip, src[..i]) + was[4 * i..], i, Stored(chip, src[i])) == Filled(chip, src[..i + 1]) + was[4 * i + 4..]
  {
    assert src[..i + 1][..i] == src[..i];
    var a := Put(Filled(chip, src[..i]) + was[4 * i..], i, Stored(chip, src[i]));
    var b := Filled(chip, src[..i + 1]) + was[4 * i + 4..];
    assert |a| == |b|;
    forall k | 0 <= k < |a|
      ensures a[k] == b[k]
    {
    }
  }

  /** Two concatenations of equal-length parts differ exactly when a part
    * does. */
  lemma ConcatDiffers(a: seq<u8>, b: seq<u8>, c: seq<u8>, d: seq<u8>)
    requires |a| == |c|
    ensures a + b != c + d <==> a != c || b != d
  {
    if a + b == c + d {
      assert a == (a + b)[..|a|] && c == (c + d)[..|a|];
      assert b == (a + b)[|a|..] && d == (c + d)[|a|..];
    }
  }

  /** The copied prefix differs from the old one exactly when an earlier
    * pixel or the newly stored one does. */
  lemma CopyDiffers(chip: LedChip, src: seq<Rgbw>, i: nat, was: seq<u8>)
    requires i < |src| && 4 * i + 4 <= |was|
    ensures Filled(chip, src[..i + 1]) != was[..4 * i + 4] <==>
      (Filled(chip, src[..i]) != was[..4 * i] || was[4 * i..4 * i + 4] != Stored(chip, src[i]))
  {
    assert src[..i + 1][..i] == src[..i];
    assert was[..4 * i + 4] == was[..4 * i] + was[4 * i..4 * i + 4];
    ConcatDiffers(Filled(chip, src[..i]), Stored(chip, src[i]), was[..4 * i], was[4 * i..4 * i + 4]);
  }

  /** One pass of `copy_from`'s loop keeps its invariant. */
  lemma CopyStep(chip: LedChip, src: seq<Rgbw>, was: seq<u8>, i: nat, before: seq<u8>, after: seq<u8>,
                 d: bool, d0: bool, changed: bool, d1: bool)
    requires i < |src| && 4 * i + 4 <= |was|
    requires before == Filled(chip, src[..i]) + was[4 * i..]
    requires after == Put(before, i, Stored(chip, src[i]))
    requires changed <==> before[4 * i..4 * i + 4] != Stored(chip, src[i])
    requires d0 == (d || Filled(chip, src[..i]) != was[..4 * i])
    requires d1 == (d0 || changed)
    ensures after == Filled(chip, src[..i + 1]) + was[4 * (i + 1)..]
    ensures d1 == (d || Filled(chip, src[..i + 1]) != was[..4 * (i + 1)])
  {
    assert before[4 * i..4 * i + 4] == was[4 * i..4 * i + 4];
    FillStep(chip, src, i, was);
    CopyDiffers(chip, src, i, was);
  }

  /** After `copy_from`'s loop the buffer differs from the old one exactly
    * when the copied prefix does. */
  lemma CopyDone(chip: LedChip, src: seq<Rgbw>, was: seq<u8>, now: seq<u8>, d: bool, d1: bool)
    requires 4 * |src| <= |was|
    requires now == Filled(chip, src) + was[4 * |src|..]
    requires d1 == (d || Filled(chip, src) != was[..4 * |src|])
    ensures d1 == (d || now != was)
  {
    assert was == was[..4 * |src|] + was[4 * |src|..];
    ConcatDiffers(Filled(chip, src), was[4 * |src|..], was[..4 * |src|], was[4 * |src|..]);
  }

  /** The first `m` pixels of a well-formed buffer are well formed. */
  lemma WellformedPrefix(bytes: seq<u8>, n: nat, chip: LedChip, m: nat)
    requires Wellformed(bytes, n, chip) && m <= n
    ensures Wellformed(bytes[..4 * m], m, chip)
  {
    var front := bytes[..4 * m];
    forall j | 0 <= j < m
      ensures PixelOk(front, j, chip)
    {
      assert PixelOk(bytes, j, chip);
    }
  }

  // ---------------------------------------------------------------- object

  class Buffer {
    const chip: LedChip
    const length: nat
    const rows: nat
    const cols: nat
    var pixels: seq<u8>
    var dirty: bool

    predicate Valid()
      reads this`pixels
    {
      Wellformed(pixels, length, chip)
    }

    /** A buffer shaped like a strip: every byte starts at 0. */
    constructor (c: LedChip, len: nat, r: nat, k: nat)
      ensures chip == c && length == len && rows == r && cols == k
      ensures pixels == seq(4 * len, _ => 0) && !dirty
      ensures Valid()
    {
      chip := c;
      length := len;
      rows := r;
      cols := k;
      pixels := seq(4 * len, _ => 0);
      dirty := false;
    }

    /** `get_pixel`: none past the end. */
    function GetPixel(index: nat): (r: Option<Rgbw>)
      reads this`pixels
      requires Valid()
      ensures r.None? <==> index >= length
      ensures r.Some? ==> r.value == Read(pixels, index, chip)
    {
      if index >= length then None else Some(Read(pixels, index, chip))
    }

    /** `set_pixel`: an index past the end is refused and changes nothing;
      * otherwise the pixel's bytes become `Stored(chip, p)` and the result
      * (and the dirty flag) says whether any of them changed. */
    method SetPixel(index: nat, p: Rgbw) returns (changed: bool)
      requires Valid()
      modifies this`pixels, this`dirty
      ensures Valid()
      ensures index >= length ==> !changed && pixels == old(pixels)
      ensures index < length ==> pixels == Put(old(pixels), index, Stored(chip, p))
      ensures index < length ==> (changed <==> old(pixels)[4 * index..4 * index + 4] != Stored(chip, p))
      ensures dirty == (old(dirty) || changed)
    {
      if index >= length {
        return false;
      }
      var off := 4 * index;
      assert PixelOk(pixels, index, chip);
      ghost var was := pixels;
      // a flip-dot's level, or the colour channels, go to the first three
      // bytes; the fourth takes white only on a chip that has it
      var q := Stored(chip, p);
      var c0 := SetByte(off, q[0]);
      var c1 := SetByte(off + 1, q[1]);
      var c2 := SetByte(off + 2, q[2]);
      var c3 := false;
      if HasWhite(chip) {
        c3 := SetByte(off + 3, q[3]);
      } else {
        pixels := pixels[off + 3 := 0];
      }
      changed := c0 || c1 || c2 || c3;
      assert pixels == was[off := q[0]][off + 1 := q[1]][off + 2 := q[2]][off + 3 := q[3]];
      PutBytes(was, index, q[0], q[1], q[2], q[3]);
      assert q == [q[0], q[1], q[2], q[3]];
      SliceDiffers(was, off, q);
      PutKeepsWellformed(was, length, chip, index, p);
      if changed {
        dirty := true;
      }
    }

    /** One `if (pixels_[k] != v) { pixels_[k] = v; changed = true; }`. */
    method SetByte(k: nat, v: u8) returns (c: bool)
      requires k < |pixels|
      modifies this`pixels
      ensures pixels == old(pixels)[k := v]
      ensures c <==> old(pixels)[k] != v
    {
      c := pixels[k] != v;
      if c {
        pixels := pixels[k := v];
      }
    }

    /** `clear`: every byte becomes 0, and the buffer turns dirty when one
      * was not 0 already. */
    method Clear()
      requires Valid()
      modifies this`pixels, this`dirty
      ensures Valid()
      ensures pixels == seq(|old(pixels)|, _ => 0)
      ensures dirty == (old(dirty) || AnySet(old(pixels)))
    {
      ghost var was := pixels;
      var any := false;
      var k := 0;
      while k < |pixels|
        invariant 0 <= k <= |pixels| == |was|
        invariant forall m | 0 <= m < k :: pixels[m] == 0
        invariant forall m | k <= m < |pixels| :: pixels[m] == was[m]
        invariant any <==> exists m | 0 <= m < k :: was[m] != 0
        invariant dirty == old(dirty)
      {
        if pixels[k] != 0 {
          pixels := pixels[k := 0];
          any := true;
        }
        k := k + 1;
      }
      assert any <==> AnySet(was);
      if any {
        dirty := true;
      }
      assert pixels == seq(|was|, _ => 0);
      assert forall j | 0 <= j < length :: PixelOk(pixels, j, chip);
    }

    /** `copy_from`: the first `min(length, |src|)` pixels of the strip
      * whose pixels read `src` are stored here one by one; the rest stay. */
    method CopyFrom(src: seq<Rgbw>)
      requires Valid()
      modifies this`pixels, this`dirty
      ensures Valid()
      ensures pixels == Filled(chip, src[..Min(length, |src|)]) + old(pixels)[4 * Min(length, |src|)..]
      ensures dirty == (old(dirty) || pixels != old(pixels))
    {
      var n := Min(length, |src|);
      ghost var was := pixels;
      var i := 0;
      while i < n
        invariant 0 <= i <= n && Valid()
        invariant pixels == Filled(chip, src[..i]) + was[4 * i..]
        invariant dirty == (old(dirty) || Filled(chip, src[..i]) != was[..4 * i])
      {
        ghost var before := pixels;
        ghost var d0 := dirty;
        var changed := SetPixel(i, src[i]);
        CopyStep(chip, src, was, i, before, pixels, old(dirty), d0, changed, dirty);
        i := i + 1;
      }
      CopyDone(chip, src[..n], was, pixels, old(dirty), dirty);
    }

    /** `copy_to`: the pixels handed to a strip's `set_pixel`, the first
      * `min(length, targetLength)` as `get_pixel` reads them. */
    method CopyTo(targetLength: nat) returns (writes: seq<Rgbw>)
      requires Valid()
      ensures |writes| == Min(length, targetLength)
      ensures forall j | 0 <= j < |writes| :: GetPixel(j) == Some(writes[j])
    {
      var n := Min(length, targetLength);
      writes := [];
      var i := 0;
      while i < n
        invariant 0 <= i <= n && |writes| == i
        invariant forall j | 0 <= j < i :: GetPixel(j) == Some(writes[j])
      {
        var p := GetPixel(i);
        writes := writes + [p.value];
        i := i + 1;
      }
    }
  }

  /** Copying a buffer into a fresh one of the same chip reproduces it. */
  lemma {:induction false} CopyReproduces(bytes: seq<u8>, n: nat, chip: LedChip, src: seq<Rgbw>)
    requires Wellformed(bytes, n, chip) && |src| == n
    requires forall j | 0 <= j < n :: src[j] == Read(bytes, j, chip)
    ensures Filled(chip, src) == bytes
  {
    if n > 0 {
      var last := n - 1;
      var front := bytes[..4 * last];
      var tail := bytes[4 * last..];
      assert bytes == front + tail;
      WellformedPrefix(bytes, n, chip, last);
      forall j | 0 <= j < last
        ensures src[..last][j] == Read(front, j, chip)
      {
        ReadPrefix(front, tail, j, chip);
      }
      CopyReproduces(front, last, chip, src[..last]);
      StoreRead(bytes, n, chip, last);
      assert tail == bytes[4 * last..4 * last + 4];
      assert Filled(chip, src) == Filled(chip, src[..last]) + Stored(chip, src[last]);
    }
  }
}
