/** The power and refresh policies of the LED surfaces: an LED strip's
  * supply is on exactly while some pixel is lit; a flip-dot panel's is on
  * for 30 seconds after the last change, and the panel is refreshed on a
  * change or every 5 seconds. Frames are the logical RGBA bytes, four per
  * pixel; the clock is a parameter. */
module LedPower {
  import opened CTypes

  /** `FrameView`: a possibly null RGBA buffer and its dimensions. */
  datatype FrameView = FrameView(rgba: Option<seq<u8>>, rows: nat, cols: nat)

  /** The bytes of a frame the policies read. */
  function FrameBytes(f: FrameView): nat
  {
    f.rows * f.cols * 4
  }

  /** A non-null buffer holds at least the frame's bytes. */
  predicate Readable(f: FrameView) {
    f.rgba.Some? ==> |f.rgba.value| >= FrameBytes(f)
  }

  /** Some byte of the frame is not 0. */
  predicate AnyOn(f: FrameView)
    requires Readable(f)
  {
    f.rgba.Some? && exists i | 0 <= i < FrameBytes(f) :: f.rgba.value[i] != 0
  }

  /** `frame_differs`: different dimensions or a null buffer count as a
    * change; otherwise some byte differs. */
  predicate Differs(a: FrameView, b: FrameView)
    requires Readable(a) && Readable(b)
  {
    a.rows != b.rows || a.cols != b.cols || a.rgba.None? || b.rgba.None?
    || exists i | 0 <= i < FrameBytes(a) :: a.rgba.value[i] != b.rgba.value[i]
  }

  /** A readable frame never differs from itself. */
  lemma SameFrameNoChange(f: FrameView)
    requires Readable(f) && f.rgba.Some?
    ensures !Differs(f, f)
  {
  }

  /** Differing is symmetric. */
  lemma DiffersSymmetric(a: FrameView, b: FrameView)
    requires Readable(a) && Readable(b)
    ensures Differs(a, b) <==> Differs(b, a)
  {
    if a.rows == b.rows && a.cols == b.cols && a.rgba.Some? && b.rgba.Some? {
      assert FrameBytes(a) == FrameBytes(b);
    }
  }

  /** `any_on`, with its early return. */
  method ScanAnyOn(f: FrameView) returns (on: bool)
    requires Readable(f)
    ensures on <==> AnyOn(f)
  {
    if f.rgba.None? {
      return false;
    }
    var px := f.rgba.value;
    var total := f.rows * f.cols * 4;
    var i := 0;
    while i < total
      invariant 0 <= i <= total
      invariant forall j | 0 <= j < i :: px[j] == 0
    {
      if px[i] != 0 {
        return true;
      }
      i := i + 1;
    }
    return false;
  }

  /** `frame_differs`, with its early returns. */
  method ScanDiffers(a: FrameView, b: FrameView) returns (d: bool)
    requires Readable(a) && Readable(b)
    ensures d <==> Differs(a, b)
  {
    if a.rows != b.rows || a.cols != b.cols || a.rgba.None? || b.rgba.None? {
      return true;
    }
    var x := a.rgba.value;
    var y := b.rgba.value;
    var n := a.rows * a.cols * 4;
    var i := 0;
    while i < n
      invariant 0 <= i <= n
      invariant forall j | 0 <= j < i :: x[j] == y[j]
    {
      if x[i] != y[i] {
        return true;
      }
      i := i + 1;
    }
    return false;
  }

  /** `LedPower`: the supply follows whether the latest frame lights
    * anything; the policy never asks for a refresh itself. */
  class LedPolicy {
    var enabled: bool

    constructor ()
      ensures !enabled
    {
      enabled := false;
    }

    method OnFrame(current: FrameView, previous: FrameView, nowUs: u64) returns (refresh: bool)
      requires Readable(current)
      modifies this`enabled
      ensures enabled == AnyOn(current) && !refresh
    {
      enabled := ScanAnyOn(current);
      refresh := false;
    }
  }

  /** The heartbeat: a flip-dot panel is refreshed at least this often. */
  const HeartbeatUs: u64 := 5 * 1000 * 1000

  /** The panel's supply goes off this long after the last change. */
  const OffAfterUs: u64 := 30 * 1000 * 1000

  /** The flip-dot policy's state. */
  datatype DotState = DotState(enabled: bool, lastChangeUs: u64, lastRefreshUs: u64)

  /** One `FlipDotPower::on_frame` given whether the frame changed: the new
    * state and whether to refresh. */
  function DotStep(s: DotState, changed: bool, nowUs: u64): (r: (DotState, bool))
  {
    var lastChange := if changed then nowUs else s.lastChangeUs;
    var refresh := changed || SubU64(nowUs, s.lastRefreshUs) >= HeartbeatUs;
    (DotState(SubU64(nowUs, lastChange) < OffAfterUs, lastChange, if refresh then nowUs else s.lastRefreshUs), refresh)
  }

  /** A change powers the panel and refreshes it at once. */
  lemma ChangeRefreshes(s: DotState, nowUs: u64)
    ensures DotStep(s, true, nowUs).0.enabled && DotStep(s, true, nowUs).1
    ensures DotStep(s, true, nowUs).0 == DotState(true, nowUs, nowUs)
  {
  }

  /** Without a change the panel is refreshed exactly when the heartbeat is
    * due, and it stays powered exactly while the last change is less than
    * 30 seconds old. */
  lemma QuietFrame(s: DotState, nowUs: u64)
    ensures DotStep(s, false, nowUs).1 <==> SubU64(nowUs, s.lastRefreshUs) >= HeartbeatUs
    ensures DotStep(s, false, nowUs).0.enabled <==> SubU64(nowUs, s.lastChangeUs) < OffAfterUs
    ensures DotStep(s, false, nowUs).0.lastChangeUs == s.lastChangeUs
  {
  }

  /** Two quiet frames within the heartbeat of a refresh do not refresh
    * again: a refresh, then nothing until 5 seconds have passed. */
  lemma {:induction false} HeartbeatSpacing(s: DotState, t1: u64, t2: u64)
    requires DotStep(s, false, t1).1
    requires t1 <= t2 && t2 - t1 < HeartbeatUs
    ensures !DotStep(DotStep(s, false, t1).0, false, t2).1
  {
    var s1 := DotStep(s, false, t1).0;
    assert s1.lastRefreshUs == t1;
    assert SubU64(t2, t1) == t2 - t1;
  }

  /** `FlipDotPower`. */
  class DotPolicy {
    var enabled: bool
    var lastChangeUs: u64
    var lastRefreshUs: u64

    constructor ()
      ensures !enabled && lastChangeUs == 0 && lastRefreshUs == 0
    {
      enabled := false;
      lastChangeUs := 0;
      lastRefreshUs := 0;
    }

    function State(): DotState
      reads this
    {
      DotState(enabled, lastChangeUs, lastRefreshUs)
    }

    /** `on_frame`: a changed frame records the time of the change; the
      * supply is on while that change is under 30 seconds old; a refresh
      * happens on a change or when 5 seconds have passed since the last. */
    method OnFrame(current: FrameView, previous: FrameView, nowUs: u64) returns (refresh: bool)
      requires Readable(current) && Readable(previous)
      modifies this
      ensures (State(), refresh) == DotStep(old(State()), Differs(current, previous), nowUs)
    {
      var changed := ScanDiffers(current, previous);
      if changed {
        lastChangeUs := nowUs;
      }
      enabled := SubU64(nowUs, lastChangeUs) < OffAfterUs;
      var dueHeartbeat := SubU64(nowUs, lastRefreshUs) >= HeartbeatUs;
      refresh := changed || dueHeartbeat;
      if refresh {
        lastRefreshUs := nowUs;
      }
    }
  }
}
