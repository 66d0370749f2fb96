/** The strip transitions: sweep, backsweep, expand and contract. Each
  * blends the frame the outgoing pattern renders with the frame the
  * incoming one renders, pixel by pixel, as time passes. The two rendered
  * frames and the truncated float product that measures progress are
  * parameters; the strip is the sequence of pixels handed to its
  * `set_pixel`. */
module LedTransition {
  import opened CTypes
  import opened CStr
  import opened LedTypes

  datatype TransitionType = Sweep | Backsweep | Expand | Contract

  // ---------------------------------------------------------------- names

  /** `transition_type_to_string`. */
  function TypeName(t: TransitionType): (s: CString)
    ensures |s| > 0
  {
    match t
    case Sweep => "SWEEP"
    case Backsweep => "BACKSWEEP"
    case Expand => "EXPAND"
    case Contract => "CONTRACT"
  }

  /** `parse_transition_type`: the exact names, and SWEEP for NULL or any
    * other text. */
  function ParseType(s: Option<CString>): (t: TransitionType)
    ensures t != Sweep ==> s.Some? && s.value == TypeName(t)
  {
    if s.None? then Sweep
    else if s.value == "BACKSWEEP" then Backsweep
    else if s.value == "EXPAND" then Expand
    else if s.value == "CONTRACT" then Contract
    else Sweep
  }

  /** Parsing a type's name gives the type back. */
  lemma ParseTypeName(t: TransitionType)
    ensures ParseType(Some(TypeName(t))) == t
  {
  }

  /** The names are distinct, so a name names one type. */
  lemma TypeNameInjective(a: TransitionType, b: TransitionType)
    requires TypeName(a) == TypeName(b)
    ensures a == b
  {
    ParseTypeName(a);
    ParseTypeName(b);
  }

  /** NULL and text that is no type's name parse as SWEEP. */
  lemma ParseUnknown(s: Option<CString>)
    requires s.Some? ==> forall t: TransitionType :: s.value != TypeName(t)
    ensures ParseType(s) == Sweep
  {
  }

  // ---------------------------------------------------------------- timing

  /** `set_speed`'s range. */
  predicate ValidSpeed(speed: int) {
    1 <= speed <= 100
  }

  /** `calculate_duration_us`: `2000000 * (101 - speed) / 50` microseconds. */
  function Duration(speed: int): (d: nat)
    requires ValidSpeed(speed)
    ensures d == 40000 * (101 - speed)
    ensures 40000 <= d <= 4000000
  {
    2000000 * (101 - speed) / 50
  }

  /** A faster transition takes strictly less time. */
  lemma DurationDecreasing(s1: int, s2: int)
    requires ValidSpeed(s1) && ValidSpeed(s2) && s1 < s2
    ensures Duration(s1) > Duration(s2)
  {
  }

  // ---------------------------------------------------------------- geometry

  /** The farthest distance from the centre `len / 2` to an edge, computed
    * in `size_t` as the source does (`len - center - 1` wraps for an empty
    * strip). */
  function MaxRadius(len: nat): (m: nat)
  {
    var c := len / 2;
    if len % 2 == 0 then Max(c, WrapU32(len - c - 1)) else c
  }

  /** On a non-empty strip the largest radius is the centre index itself. */
  lemma MaxRadiusIsCenter(len: nat)
    requires 0 < len < 0x1_0000_0000
    ensures MaxRadius(len) == len / 2
  {
  }

  /** `distance_from_center`: how far pixel i lies from the centre, on
    * either side. */
  function Dist(i: nat, center: nat): (d: nat)
    ensures d == 0 <==> i == center
    ensures i == center + d || i + d == center
  {
    if i <= center then center - i else i - center
  }

  /** Every pixel of a non-empty strip lies within the centre index of the
    * centre. */
  lemma DistWithinCenter(len: nat, i: nat)
    requires i < len
    ensures Dist(i, len / 2) <= len / 2
  {
  }

  /** The sweeps clamp the truncated progress count to the strip length. */
  function Transitioned(len: nat, reach: nat): (n: nat)
    ensures n <= len && (reach <= len ==> n == reach)
  {
    Min(reach, len)
  }

  /** Contract's radius: `max_radius - reach` in `size_t`. */
  function ContractRadius(len: nat, reach: nat): (r: nat)
    ensures reach <= MaxRadius(len) < 0x1_0000_0000 ==> r == MaxRadius(len) - reach
  {
    WrapU32(MaxRadius(len) - reach)
  }

  /** Whether pixel `i` shows the incoming pattern part way through:
    * sweep fills from the top index down, backsweep from index 0 up,
    * expand grows outwards from the centre and contract closes inwards
    * from the edges. */
  predicate ShowsNew(kind: TransitionType, len: nat, center: nat, reach: nat, i: nat) {
    match kind
    case Sweep =>
      var n := Transitioned(len, reach);
      i >= (if n < len then len - n else 0)
    case Backsweep => i < Transitioned(len, reach)
    case Expand => Dist(i, center) <= reach
    case Contract => Dist(i, center) > ContractRadius(len, reach)
  }

  lemma SweepShowsNew(len: nat, center: nat, reach: nat, i: nat)
    requires i < len
    ensures ShowsNew(Sweep, len, center, reach, i) <==> i >= len - Transitioned(len, reach)
  {
  }

  /** Sweep is backsweep seen from the other end of the strip. */
  lemma SweepMirrorsBacksweep(len: nat, center: nat, reach: nat, i: nat)
    requires i < len
    ensures ShowsNew(Sweep, len, center, reach, i) <==> ShowsNew(Backsweep, len, center, reach, len - 1 - i)
  {
  }

  /** How many of the first `k` pixels show the incoming pattern. */
  function NewCount(kind: TransitionType, len: nat, center: nat, reach: nat, k: nat): (c: nat)
    ensures c <= k
  {
    if k == 0 then 0
    else NewCount(kind, len, center, reach, k - 1) + (if ShowsNew(kind, len, center, reach, k - 1) then 1 else 0)
  }

  /** Backsweep shows the incoming pattern on exactly the clamped progress
    * count of pixels. */
  lemma {:induction false} BacksweepCount(len: nat, center: nat, reach: nat, k: nat)
    requires k <= len
    ensures NewCount(Backsweep, len, center, reach, k) == Min(k, Transitioned(len, reach))
  {
    if k > 0 {
      BacksweepCount(len, center, reach, k - 1);
    }
  }

  /** Sweep does too: the top `Transitioned(len, reach)` pixels. */
  lemma {:induction false} SweepCount(len: nat, center: nat, reach: nat, k: nat)
    requires k <= len
    ensures NewCount(Sweep, len, center, reach, k) == Max(0, k - (len - Transitioned(len, reach)))
  {
    if k > 0 {
      SweepCount(len, center, reach, k - 1);
    }
  }

  /** As the progress count grows, a pixel that shows the incoming pattern
    * keeps showing it (for contract, until the radius would pass zero). */
  lemma Monotone(kind: TransitionType, len: nat, center: nat, r1: nat, r2: nat, i: nat)
    requires r1 <= r2 && ShowsNew(kind, len, center, r1, i)
    requires kind == Contract ==> r2 <= MaxRadius(len) < 0x1_0000_0000
    ensures ShowsNew(kind, len, center, r2, i)
  {
  }

  /** Expand at the full radius shows the incoming pattern everywhere;
    * contract at progress 0 shows it nowhere. */
  lemma ExpandContractEnds(len: nat, i: nat)
    requires i < len < 0x1_0000_0000
    ensures ShowsNew(Expand, len, len / 2, MaxRadius(len), i)
    ensures !ShowsNew(Contract, len, len / 2, 0, i)
  {
    MaxRadiusIsCenter(len);
  }

  /** Contract's radius computed past the largest radius wraps around, and
    * the strip falls back to the outgoing pattern everywhere. */
  lemma ContractOvershoot(len: nat, i: nat)
    requires i < len < 0x1_0000_0000
    ensures !ShowsNew(Contract, len, len / 2, MaxRadius(len) + 1, i)
  {
    MaxRadiusIsCenter(len);
  }

  /** The frame written to the strip part way through. */
  function Compose(kind: TransitionType, len: nat, center: nat, reach: nat, from: seq<Rgbw>, to: seq<Rgbw>): (f: seq<Rgbw>)
    requires |from| == len && |to| == len
    ensures |f| == len
    ensures forall i | 0 <= i < len :: f[i] == if ShowsNew(kind, len, center, reach, i) then to[i] else from[i]
  {
    seq(len, i requires 0 <= i < len => if ShowsNew(kind, len, center, reach, i) then to[i] else from[i])
  }

  // ---------------------------------------------------------------- objects

  /** What one `update` does to the strip. */
  datatype Outcome =
    | Empty                    // zero-length strip: complete, nothing drawn
    | Finished                 // complete: the incoming pattern draws the strip itself
    | Frame(pixels: seq<Rgbw>) // in progress: this composed frame is written

  /** `update`'s return value: the transition is complete. */
  predicate Complete(o: Outcome) {
    !o.Frame?
  }

  /** The four transition classes share their fields and their timing; they
    * differ in the starting marker and the composition, chosen by `kind`. */
  class Transition {
    const kind: TransitionType
    var speed: int
    var startUs: u64
    var length: nat
    var center: nat
    /** `last_transitioned_led_` for the sweeps, `last_transitioned_radius_`
      * for expand and contract. */
    var last: nat

    predicate Valid()
      reads this`speed
    {
      ValidSpeed(speed)
    }

    constructor (k: TransitionType)
      ensures kind == k && speed == 50 && startUs == 0 && length == 0 && center == 0 && last == 0
      ensures Valid()
    {
      kind := k;
      speed := 50;
      startUs := 0;
      length := 0;
      center := 0;
      last := 0;
    }

    /** `set_speed`: the speed is clamped to [1, 100]. */
    method SetSpeed(s: int)
      modifies this`speed
      ensures speed == Clamp(s, 1, 100) && Valid()
    {
      var v := s;
      if v < 1 {
        v := 1;
      }
      if v > 100 {
        v := 100;
      }
      speed := v;
    }

    /** `duration_us`. */
    function DurationUs(): (d: nat)
      reads this`speed
      requires Valid()
      ensures 40000 <= d <= 4000000
    {
      Duration(speed)
    }

    /** `start`: remember the time and the strip length; the sweeps start
      * with no pixel transitioned, expand at radius 0 and contract at the
      * largest radius. */
    method Start(len: nat, nowUs: u64)
      modifies this`startUs, this`length, this`center, this`last
      ensures startUs == nowUs && length == len
      ensures kind == Expand || kind == Contract ==> center == len / 2
      ensures kind == Sweep || kind == Backsweep ==> center == old(center)
      ensures last == match kind
        case Sweep => len
        case Backsweep => 0
        case Expand => 0
        case Contract => MaxRadius(len)
    {
      startUs := nowUs;
      length := len;
      match kind {
        case Sweep =>
          last := len;
        case Backsweep =>
          last := 0;
        case Expand =>
          center := len / 2;
          last := 0;
        case Contract =>
          center := len / 2;
          last := MaxRadius(len);
      }
    }

    /** The transition is complete once `Duration` has elapsed (the clock
      * difference is taken in `uint64_t`). */
    predicate Elapsed(nowUs: u64)
      reads this`speed, this`startUs
      requires Valid()
    {
      SubU64(nowUs, startUs) >= DurationUs()
    }

    /** `update`. `from` and `to` are the frames the two patterns render
      * into scratch buffers; `reach` is the truncated float product that
      * measures progress (pixels for the sweeps, radius for the others). */
    method Update(nowUs: u64, from: seq<Rgbw>, to: seq<Rgbw>, reach: nat) returns (out: Outcome)
      requires Valid() && |from| == length && |to| == length
      modifies this`last
      ensures length == 0 ==> out == Empty && last == old(last)
      ensures length > 0 && Elapsed(nowUs) ==> out == Finished && last == old(last)
      ensures length > 0 && !Elapsed(nowUs) ==>
        out == Frame(Compose(kind, length, center, reach, from, to))
      ensures length > 0 && !Elapsed(nowUs) ==> last == match kind
        case Sweep => Transitioned(length, reach)
        case Backsweep => Transitioned(length, reach)
        case Expand => reach
        case Contract => ContractRadius(length, reach)
    {
      if length == 0 {
        return Empty;
      }
      if SubU64(nowUs, startUs) >= DurationUs() {
        return Finished;
      }
      var frame: seq<Rgbw> := [];
      var i := 0;
      while i < length
        invariant 0 <= i <= length && |frame| == i
        invariant forall j | 0 <= j < i :: frame[j] == if ShowsNew(kind, length, center, reach, j) then to[j] else from[j]
      {
        if ShowsNew(kind, length, center, reach, i) {
          frame := frame + [to[i]];
        } else {
          frame := frame + [from[i]];
        }
        i := i + 1;
      }
      last := match kind
        case Sweep => Transitioned(length, reach)
        case Backsweep => Transitioned(length, reach)
        case Expand => reach
        case Contract => ContractRadius(length, reach);
      out := Frame(frame);
    }
  }
}
