/** The solid-colour pattern of the air unit's strips. Below full
  * brightness only a share of the pixels is lit: an accumulator spreads
  * them as evenly as integers allow, and a chase offset rotates the
  * pattern along the strip at a speed-dependent rate. The strip's pixels
  * are an array and the clock is a parameter. */
module LedSolid {
  import opened CTypes
  import opened Arith
  import opened LedTypes

  // ---------------------------------------------------------------- counting

  /** The number of `true` entries. */
  function CountOn(m: seq<bool>): (k: nat)
    ensures k <= |m|
  {
    if m == [] then 0 else CountOn(m[..|m| - 1]) + (if m[|m| - 1] then 1 else 0)
  }

  lemma {:induction false} CountOnAppend(a: seq<bool>, b: seq<bool>)
    ensures CountOn(a + b) == CountOn(a) + CountOn(b)
    decreases |b|
  {
    if b == [] {
      assert a + b == a;
    } else {
      var b' := b[..|b| - 1];
      assert (a + b)[..|a + b| - 1] == a + b';
      CountOnAppend(a, b');
    }
  }

  /** A constant pattern counts none or all of its entries. */
  lemma {:induction false} CountOnConst(n: nat, v: bool)
    ensures CountOn(AllOf(n, v)) == if v then n else 0
  {
    if n > 0 {
      assert AllOf(n, v)[..n - 1] == AllOf(n - 1, v);
      CountOnConst(n - 1, v);
    }
  }

  // ---------------------------------------------------------------- the spread

  /** The accumulator of the spreading loop before step `i`: the running
    * sum of `on`, less `total` for every lit pixel. */
  function Acc(on: nat, total: nat, i: nat): (a: nat)
    requires on < total
    ensures a < total
  {
    if i == 0 then 0
    else
      var a := Acc(on, total, i - 1);
      if a + on >= total then a + on - total else a + on
  }

  /** Step `i` of the loop lights its pixel when the accumulator reaches
    * `total`. */
  predicate LitStep(on: nat, total: nat, i: nat)
    requires on < total
  {
    Acc(on, total, i) + on >= total
  }

  /** Which of the first `n` loop steps light their pixel. */
  function Spread(on: nat, total: nat, n: nat): (m: seq<bool>)
    requires on < total
    ensures |m| == n
  {
    seq(n, i requires 0 <= i < n => LitStep(on, total, i))
  }

  /** The accumulator's bookkeeping: after `n` steps, `n * on` is `total`
    * for each lit pixel plus what the accumulator holds (`Join(q, m, r)`
    * is `q * m + r`). */
  lemma {:induction false} SpreadBalance(on: nat, total: nat, n: nat)
    requires on < total
    ensures Join(n, on, 0) == Join(CountOn(Spread(on, total, n)), total, Acc(on, total, n))
  {
    if n > 0 {
      SpreadBalance(on, total, n - 1);
      var k := CountOn(Spread(on, total, n - 1));
      var a := Acc(on, total, n - 1);
      assert Spread(on, total, n)[..n - 1] == Spread(on, total, n - 1);
      if a + on >= total {
        JoinShift(k, total, a + on - total, total);
        JoinShift(k, total, a, on);
        assert Join(k + 1, total, a + on - total) == Join(k, total, a + on - total) + total;
      } else {
        JoinShift(k, total, a, on);
      }
    }
  }

  /** Among the first `n` steps exactly `n * on / total` are lit: the lit
    * pixels are spread as evenly as integers allow. */
  lemma SpreadPrefix(on: nat, total: nat, n: nat)
    requires on < total
    ensures CountOn(Spread(on, total, n)) == (n * on) / total
  {
    SpreadBalance(on, total, n);
    JoinValue(n, on, 0);
    JoinValue(CountOn(Spread(on, total, n)), total, Acc(on, total, n));
    DivModUnique(n * on, total, CountOn(Spread(on, total, n)), Acc(on, total, n));
  }

  /** A whole pass over the strip lights exactly `on` pixels. */
  lemma SpreadTotal(on: nat, total: nat)
    requires on < total
    ensures CountOn(Spread(on, total, total)) == on
  {
    SpreadPrefix(on, total, total);
    assert total * on == on * total + 0;
    DivModUnique(total * on, total, on, 0);
  }

  // ---------------------------------------------------------------- the chase

  /** The loop step that writes strip position `p`: step `i` writes
    * `(i + off) % total`. */
  function StepOf(total: nat, off: nat, p: nat): (i: nat)
    requires 0 < total
    ensures i < total
  {
    (p + total - off % total) % total
  }

  /** `(i + off) % total` is `(i + off % total) % total`, a position one
    * wrap at most away from `i + off % total`. */
  lemma ChaseWrap(total: nat, off: nat, i: nat)
    requires 0 < total && i < total
    ensures var o := off % total;
      (i + off) % total == if i + o < total then i + o else i + o - total
  {
    var o := off % total;
    ModAddMultiple(i + o, off / total, total);
    assert i + off == i + o + (off / total) * total;
    if i + o < total {
      DivModUnique(i + o, total, 0, i + o);
    } else {
      DivModUnique(i + o, total, 1, i + o - total);
    }
  }

  /** Step `i` writes a position of the strip, and that position is
    * written by step `i`. */
  lemma StepOfPosition(total: nat, off: nat, i: nat)
    requires 0 < total && i < total
    ensures (i + off) % total < total && StepOf(total, off, (i + off) % total) == i
  {
    var o := off % total;
    ChaseWrap(total, off, i);
    var p := (i + off) % total;
    if i + o < total {
      DivModUnique(p + total - o, total, 1, i);
    } else {
      DivModUnique(p + total - o, total, 0, i);
    }
  }

  /** Position `p` is the one its step writes. */
  lemma StepOfInverse(total: nat, off: nat, p: nat)
    requires 0 < total && p < total
    ensures (StepOf(total, off, p) + off) % total == p
  {
    var o := off % total;
    var i := StepOf(total, off, p);
    if p < o {
      DivModUnique(p + total - o, total, 0, p + total - o);
    } else {
      DivModUnique(p + total - o, total, 1, p - o);
    }
    ChaseWrap(total, off, i);
  }

  /** The lit pattern along the strip: position `p` shows step `StepOf(p)`. */
  function Rotated(m: seq<bool>, off: nat): (r: seq<bool>)
    requires |m| > 0
    ensures |r| == |m|
  {
    seq(|m|, p requires 0 <= p < |m| => m[StepOf(|m|, off, p)])
  }

  /** Rotating a pattern keeps its number of lit pixels. */
  lemma {:induction false} RotatedCount(m: seq<bool>, off: nat)
    requires |m| > 0
    ensures CountOn(Rotated(m, off)) == CountOn(m)
  {
    var n := |m|;
    var o := off % n;
    var r := Rotated(m, off);
    forall p | 0 <= p < n
      ensures r[p] == (m[n - o..] + m[..n - o])[p]
    {
      if p < o {
        DivModUnique(p + n - o, n, 0, p + n - o);
      } else {
        DivModUnique(p + n - o, n, 1, p - o);
      }
    }
    assert r == m[n - o..] + m[..n - o];
    CountOnAppend(m[n - o..], m[..n - o]);
    CountOnAppend(m[..n - o], m[n - o..]);
    assert m[..n - o] + m[n - o..] == m;
  }

  /** One chase step moves the whole pattern one position along the strip. */
  lemma ChaseShifts(m: seq<bool>, off: nat, p: nat)
    requires 0 < |m| && p < |m|
    ensures (p + 1) % |m| < |m| && Rotated(m, off + 1)[(p + 1) % |m|] == Rotated(m, off)[p]
  {
    var n := |m|;
    var i := StepOf(n, off, p);
    StepOfInverse(n, off, p);
    assert (i + off + 1) % n == ((i + off) % n + 1) % n by {
      ModAddMultiple((i + off) % n + 1, (i + off) / n, n);
      assert i + off + 1 == (i + off) % n + 1 + ((i + off) / n) * n;
    }
    StepOfPosition(n, off + 1, i);
  }

  // ---------------------------------------------------------------- state and one update

  /** The pattern's settings and chase state. */
  datatype SolidState = SolidState(
    colorSet: bool, color: Rgbw, brightness: int, speed: int,
    lastAdvanceUs: u64, chaseOffset: nat)

  /** The number of pixels lit below full brightness, `total * b / 100`,
    * fewer than the strip holds. */
  function OnCount(total: nat, brightness: int): (on: nat)
    requires 0 < brightness < 100
    ensures total > 0 ==> on < total
  {
    if total > 0 then
      MulAtLeast(100 - brightness, total);
      assert total * brightness < total * 100 by {
        assert total * 100 - total * brightness == (100 - brightness) * total;
      }
      DivBelow(total * brightness, 100, total);
      total * brightness / 100
    else 0
  }

  /** The least time between two chase steps for a speed of 1 to 99
    * percent: from 200 ms towards 10 ms. */
  function AdvanceIntervalUs(speed: int): (i: nat)
    requires 0 < speed < 100
    ensures 10000 <= i <= 200000
  {
    Max(200000 - (190000 * speed) / 100, 10000)
  }

  /** A higher speed never waits longer. */
  lemma IntervalShrinks(s1: int, s2: int)
    requires 0 < s1 <= s2 < 100
    ensures AdvanceIntervalUs(s2) <= AdvanceIntervalUs(s1)
  {
    assert 190000 * s1 <= 190000 * s2;
  }

  /** Whether this update moves the chase: never at speed 0, on every
    * update at speed 100, otherwise on the first or once the interval
    * has passed. */
  predicate Advances(s: SolidState, now: u64) {
    if s.speed <= 0 then false
    else if s.speed >= 100 then true
    else s.lastAdvanceUs == 0 || SubU64(now, s.lastAdvanceUs) >= AdvanceIntervalUs(s.speed)
  }

  /** The update lights a share of the strip rather than all or none. */
  predicate Spreads(s: SolidState, total: nat) {
    s.colorSet && 0 < s.brightness < 100 && 0 < OnCount(total, s.brightness) < total
  }

  /** The state after an update of a strip of `total` pixels. */
  function Chased(s: SolidState, total: nat, now: u64): (t: SolidState)
    ensures t.colorSet == s.colorSet && t.color == s.color
    ensures t.brightness == s.brightness && t.speed == s.speed
  {
    if Spreads(s, total) && Advances(s, now) then
      s.(chaseOffset := (s.chaseOffset + 1) % total, lastAdvanceUs := now)
    else s
  }

  /** `n` pixels all lit or all dark. */
  function AllOf(n: nat, v: bool): (m: seq<bool>)
    ensures |m| == n && forall p | 0 <= p < n :: m[p] == v
  {
    seq(n, _ => v)
  }

  /** Which pixels an update lights: none or all at the ends of the
    * brightness range, otherwise the rotated spread, which lights fewer
    * than `total`. */
  function Mask(s: SolidState, total: nat, now: u64): (m: seq<bool>)
    ensures |m| == total
  {
    if s.brightness <= 0 then AllOf(total, false)
    else if s.brightness >= 100 then AllOf(total, true)
    else
      var on := OnCount(total, s.brightness);
      if on == 0 then AllOf(total, false)
      else Rotated(Spread(on, total, total), Chased(s, total, now).chaseOffset)
  }

  /** The pixels of a lit pattern in one colour. */
  function Paint(m: seq<bool>, color: Rgbw): (px: seq<Rgbw>)
    ensures |px| == |m|
  {
    seq(|m|, p requires 0 <= p < |m| => if m[p] then color else Black)
  }

  /** At brightness 0 or below every pixel is off, at 100 or above every
    * pixel has the colour, and in between exactly `total * b / 100` are
    * lit. */
  lemma MaskCount(s: SolidState, total: nat, now: u64)
    ensures s.brightness <= 0 ==> CountOn(Mask(s, total, now)) == 0
    ensures s.brightness >= 100 ==> CountOn(Mask(s, total, now)) == total
    ensures 0 < s.brightness < 100 ==> CountOn(Mask(s, total, now)) == OnCount(total, s.brightness)
  {
    if s.brightness <= 0 || (s.brightness < 100 && OnCount(total, s.brightness) == 0) {
      CountOnConst(total, false);
    } else if s.brightness >= 100 {
      CountOnConst(total, true);
    } else {
      var on := OnCount(total, s.brightness);
      RotatedCount(Spread(on, total, total), Chased(s, total, now).chaseOffset);
      SpreadTotal(on, total);
    }
  }

  /** The chase offset: it moves by one position modulo the strip when the
    * update advances, never at speed 0 or below, and it stays within the
    * strip once it is. */
  lemma ChaseOffset(s: SolidState, total: nat, now: u64)
    ensures Spreads(s, total) && Advances(s, now) ==>
      Chased(s, total, now).chaseOffset == (s.chaseOffset + 1) % total < total
      && Chased(s, total, now).lastAdvanceUs == now
    ensures s.speed <= 0 ==> Chased(s, total, now) == s
    ensures s.chaseOffset < total ==> Chased(s, total, now).chaseOffset < total
  {
  }

  /** Painting a pattern lights the pixels it marks and clears the rest. */
  lemma PaintAt(m: seq<bool>, color: Rgbw, p: nat)
    requires p < |m|
    ensures Paint(m, color)[p] == if m[p] then color else Black
  {
  }

  // ---------------------------------------------------------------- the pattern object

  /** `SolidPattern`: the colour, the brightness and speed settings, and the
    * chase state. */
  class SolidPattern {
    var colorSet: bool
    var color: Rgbw
    var brightnessPercent: int
    var speedPercent: int
    var lastAdvanceUs: u64
    var chaseOffset: nat

    function State(): SolidState
      reads this
    {
      SolidState(colorSet, color, brightnessPercent, speedPercent, lastAdvanceUs, chaseOffset)
    }

    constructor ()
      ensures State() == SolidState(false, Black, 100, 100, 0, 0)
    {
      colorSet, color := false, Black;
      brightnessPercent, speedPercent := 100, 100;
      lastAdvanceUs, chaseOffset := 0, 0;
    }

    /** `set_solid_color`: from now on the pattern draws. */
    method SetSolidColor(r: u8, g: u8, b: u8, w: u8)
      modifies this`color, this`colorSet
      ensures color == Rgbw(r, g, b, w) && colorSet
    {
      color := Rgbw(r, g, b, w);
      colorSet := true;
    }

    /** `set_brightness_percent`, clamped to 0..100. */
    method SetBrightnessPercent(percent: int)
      modifies this`brightnessPercent
      ensures brightnessPercent == Clamp(percent, 0, 100)
    {
      var p := percent;
      if p < 0 {
        p := 0;
      }
      if p > 100 {
        p := 100;
      }
      brightnessPercent := p;
    }

    /** `set_speed_percent`, clamped to 0..100. */
    method SetSpeedPercent(percent: int)
      modifies this`speedPercent
      ensures speedPercent == Clamp(percent, 0, 100)
    {
      var p := percent;
      if p < 0 {
        p := 0;
      }
      if p > 100 {
        p := 100;
      }
      speedPercent := p;
    }

    /** `update`: nothing before a colour is set; otherwise every pixel is
      * written once, lit in the colour or cleared as `Mask` says, and the
      * chase state moves as `Chased` says. */
    method Update(px: array<Rgbw>, nowUs: u64)
      modifies this`lastAdvanceUs, this`chaseOffset, px
      ensures !old(colorSet) ==> px[..] == old(px[..]) && State() == old(State())
      ensures old(colorSet) ==> State() == Chased(old(State()), px.Length, nowUs)
      ensures old(colorSet) ==> px[..] == Paint(Mask(old(State()), px.Length, nowUs), color)
    {
      if !colorSet {
        return;
      }
      ghost var s := State();
      var total := px.Length;
      if brightnessPercent <= 0 {
        Fill(px, false, color);
        return;
      }
      if brightnessPercent >= 100 {
        Fill(px, true, color);
        return;
      }
      var onCount := (total * brightnessPercent) / 100;
      assert onCount == OnCount(total, s.brightness);
      if onCount == 0 {
        Fill(px, false, color);
        return;
      }
      if onCount >= total {
        // `total * b / 100` stays below `total` for b < 100
        assert false;
      }
      Advance(total, nowUs);
      assert State() == Chased(s, total, nowUs);
      ghost var writes := DrawSpread(px, onCount, chaseOffset, color);
    }

    /** The chase step of `update`, for a strip that lights a share of its
      * pixels. */
    method Advance(total: nat, nowUs: u64)
      requires Spreads(State(), total)
      modifies this`lastAdvanceUs, this`chaseOffset
      ensures State() == Chased(old(State()), total, nowUs)
    {
      var shouldAdvance := false;
      if speedPercent <= 0 {
        shouldAdvance := false;
      } else if speedPercent >= 100 {
        shouldAdvance := true;
      } else {
        var maxUs, minUs := 200000, 10000;
        var span := maxUs - minUs;
        var intervalUs := maxUs - (span * speedPercent / 100);
        if intervalUs < minUs {
          intervalUs := minUs;
        }
        if lastAdvanceUs == 0 || SubU64(nowUs, lastAdvanceUs) >= intervalUs {
          shouldAdvance := true;
        }
      }
      if shouldAdvance {
        chaseOffset := (chaseOffset + 1) % total;
        lastAdvanceUs := nowUs;
      }
    }
  }

  /** The loops that write every pixel on or every pixel off. */
  method Fill(px: array<Rgbw>, on: bool, color: Rgbw)
    modifies px
    ensures px[..] == Paint(AllOf(px.Length, on), color)
  {
    for i := 0 to px.Length
      invariant forall p | 0 <= p < i :: px[p] == if on then color else Black
    {
      px[i] := if on then color else Black;
    }
  }

  /** The spreading loop: step `i` adds `on` to the accumulator and lights
    * position `(i + off) % total` when it reaches `total`. Every position is
    * written exactly once; `writes` lists them in the order written. */
  method DrawSpread(px: array<Rgbw>, on: nat, off: nat, color: Rgbw) returns (ghost writes: seq<nat>)
    requires 0 < on < px.Length
    modifies px
    ensures px[..] == Paint(Rotated(Spread(on, px.Length, px.Length), off), color)
    ensures |writes| == px.Length && forall j | 0 <= j < |writes| :: writes[j] < px.Length
    ensures forall j, k | 0 <= j < k < |writes| :: writes[j] != writes[k]
  {
    var total := px.Length;
    ghost var m := Spread(on, total, total);
    var acc := 0;
    writes := [];
    for i := 0 to total
      invariant acc == Acc(on, total, i)
      invariant |writes| == i && forall j | 0 <= j < i :: writes[j] == (j + off) % total
      invariant forall p | 0 <= p < total ::
        px[p] == if StepOf(total, off, p) < i then (if m[StepOf(total, off, p)] then color else Black) else old(px[p])
    {
      var pos := (i + off) % total;
      acc := acc + on;
      var lit := false;
      if acc >= total {
        lit := true;
        acc := acc - total;
      }
      StepOfPosition(total, off, i);
      forall p | 0 <= p < total && StepOf(total, off, p) == i
        ensures p == pos
      {
        StepOfInverse(total, off, p);
      }
      if lit {
        px[pos] := color;
      } else {
        px[pos] := Black;
      }
      writes := writes + [pos];
    }
    forall j, k | 0 <= j < k < |writes|
      ensures writes[j] != writes[k]
    {
      StepOfPosition(total, off, j);
      StepOfPosition(total, off, k);
    }
  }
}
