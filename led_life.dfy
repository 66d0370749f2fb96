/** The Game of Life pattern: a toroidal grid of 0/1 cells stored
  * column-major (`col * rows + row`), advanced by the B3/S23 rule at a
  * speed-dependent cadence, reseeded from a linear congruential generator
  * when the colony dies out or repeats for 10 seconds in random mode. The
  * clock, the strip's dimensions and its pin are parameters; drawing the
  * cells onto the strip is not modelled. */
module LedLife {
  import opened CTypes
  import opened Arith
  import CStr

  function Zeros(n: nat): (z: seq<u8>)
    ensures |z| == n && forall i | 0 <= i < n :: z[i] == 0
  {
    seq(n, _ => 0)
  }

  /** The column-major index of a cell. */
  function Idx(rows: nat, r: nat, c: nat): nat {
    Join(c, rows, r)
  }

  lemma IdxInGrid(rows: nat, cols: nat, r: nat, c: nat)
    requires r < rows && c < cols
    ensures Idx(rows, r, c) < rows * cols
  {
    JoinBelow(c, rows, r, cols);
    assert cols * rows == rows * cols;
  }

  // ---------------------------------------------------------------- neighbours

  /** `wrap(static_cast<size_t>(static_cast<int>(x) + d), max)` in the
    * target's 32-bit `size_t` arithmetic. */
  function WrapCoord(x: nat, d: int, max: nat): (v: nat)
    requires max > 0
    ensures v < max
  {
    WrapU32(WrapU32(x + d) + max) % max
  }

  /** For a step of at most one cell the wrap is the toroidal neighbour,
    * the Euclidean residue of `x + d`. */
  lemma WrapToroidal(x: nat, d: int, max: nat)
    requires x < max < 0x8000_0000 && -1 <= d <= 1
    ensures WrapCoord(x, d, max) == (x + d) % max
  {
    if x + d < 0 {
      assert WrapU32(x + d) == 0xFFFF_FFFF;
      assert WrapU32(0xFFFF_FFFF + max) == max - 1;
      DivModUnique(max - 1, max, 0, max - 1);
      DivModUnique(-1, max, -1, max - 1);
    } else {
      ModAddMultiple(x + d, 1, max);
    }
  }

  /** Whether the toroidal neighbour at offset (dr, dc) is live; the cell
    * itself never counts. */
  function OffsetLive(cur: seq<u8>, rows: nat, cols: nat, r: nat, c: nat, dr: int, dc: int): (n: nat)
    requires 0 < rows && 0 < cols && |cur| == rows * cols
    ensures n <= 1 && (dr == 0 && dc == 0 ==> n == 0)
  {
    if dr == 0 && dc == 0 then 0
    else
      var rr, cc := WrapCoord(r, dr, rows), WrapCoord(c, dc, cols);
      IdxInGrid(rows, cols, rr, cc);
      if cur[Idx(rows, rr, cc)] != 0 then 1 else 0
  }

  /** The live neighbours at row offset `dr` and column offsets -1 up to
    * (not including) `m`. */
  function RowLive(cur: seq<u8>, rows: nat, cols: nat, r: nat, c: nat, dr: int, m: int): (n: nat)
    requires 0 < rows && 0 < cols && |cur| == rows * cols && -1 <= m <= 2
    ensures n <= m + 1 && (dr == 0 && m >= 1 ==> n <= m)
    decreases m + 1
  {
    if m == -1 then 0
    else RowLive(cur, rows, cols, r, c, dr, m - 1) + OffsetLive(cur, rows, cols, r, c, dr, m - 1)
  }

  /** The live neighbours at row offsets -1 up to (not including) `m`. */
  function WindowLive(cur: seq<u8>, rows: nat, cols: nat, r: nat, c: nat, m: int): (n: nat)
    requires 0 < rows && 0 < cols && |cur| == rows * cols && -1 <= m <= 2
    ensures n <= 3 * (m + 1) && (m >= 1 ==> n < 3 * (m + 1))
    decreases m + 1
  {
    if m == -1 then 0
    else WindowLive(cur, rows, cols, r, c, m - 1) + RowLive(cur, rows, cols, r, c, m - 1, 2)
  }

  /** The number of live neighbours of (r, c): between 0 and 8. */
  function Neighbours(cur: seq<u8>, rows: nat, cols: nat, r: nat, c: nat): (n: nat)
    requires 0 < rows && 0 < cols && |cur| == rows * cols
    ensures n <= 8
  {
    WindowLive(cur, rows, cols, r, c, 2)
  }

  /** Each counted neighbour is the cell at the toroidal offset (dr, dc). */
  lemma OffsetToroidal(cur: seq<u8>, rows: nat, cols: nat, r: nat, c: nat, dr: int, dc: int)
    requires 0 < rows < 0x8000_0000 && 0 < cols < 0x8000_0000
    requires |cur| == rows * cols && r < rows && c < cols
    requires -1 <= dr <= 1 && -1 <= dc <= 1 && !(dr == 0 && dc == 0)
    ensures var rr, cc := (r + dr) % rows, (c + dc) % cols;
      rr < rows && cc < cols && Idx(rows, rr, cc) < |cur|
      && OffsetLive(cur, rows, cols, r, c, dr, dc) == (if cur[Idx(rows, rr, cc)] != 0 then 1 else 0)
  {
    WrapToroidal(r, dr, rows);
    WrapToroidal(c, dc, cols);
    IdxInGrid(rows, cols, (r + dr) % rows, (c + dc) % cols);
  }

  /** `count_live_neighbors`: the two nested offset loops. */
  method CountLiveNeighbors(cur: seq<u8>, rows: nat, cols: nat, r: nat, c: nat) returns (cnt: nat)
    requires 0 < rows && 0 < cols && |cur| == rows * cols
    ensures cnt == Neighbours(cur, rows, cols, r, c) && cnt <= 8
  {
    cnt := 0;
    for dr := -1 to 2
      invariant cnt == WindowLive(cur, rows, cols, r, c, dr)
    {
      for dc := -1 to 2
        invariant cnt == WindowLive(cur, rows, cols, r, c, dr) + RowLive(cur, rows, cols, r, c, dr, dc)
      {
        if !(dr == 0 && dc == 0) {
          var rr := WrapCoord(r, dr, rows);
          var cc := WrapCoord(c, dc, cols);
          IdxInGrid(rows, cols, rr, cc);
          if cur[Idx(rows, rr, cc)] != 0 {
            cnt := cnt + 1;
          }
        }
      }
    }
  }

  // ---------------------------------------------------------------- one generation

  /** B3/S23: a live cell survives with two or three neighbours, a dead
    * one is born with exactly three. */
  function NextCell(alive: bool, n: nat): (v: u8)
    ensures v == 0 || v == 1
  {
    if alive then (if n == 2 || n == 3 then 1 else 0)
    else (if n == 3 then 1 else 0)
  }

  /** The rule in one line: the next cell is live exactly when it has three
    * neighbours, or two and is live now. */
  lemma NextCellRule(alive: bool, n: nat)
    ensures NextCell(alive, n) == 1 <==> (n == 3 || (alive && n == 2))
  {
  }

  /** The next state of the cell at (r, c). */
  function StepCell(cur: seq<u8>, rows: nat, cols: nat, r: nat, c: nat): u8
    requires r < rows && c < cols && |cur| == rows * cols
  {
    IdxInGrid(rows, cols, r, c);
    NextCell(cur[Idx(rows, r, c)] != 0, Neighbours(cur, rows, cols, r, c))
  }

  /** The next state of the cell stored at index `i`. */
  function StepAt(cur: seq<u8>, rows: nat, cols: nat, i: nat): u8
    requires 0 < rows && |cur| == rows * cols && i < rows * cols
  {
    assert i < cols * rows;
    DivBelow(i, rows, cols);
    StepCell(cur, rows, cols, i % rows, i / rows)
  }

  /** The next generation of the whole grid. */
  function Stepped(cur: seq<u8>, rows: nat, cols: nat): (s: seq<u8>)
    requires 0 < rows && |cur| == rows * cols
    ensures |s| == rows * cols
  {
    seq(rows * cols, i requires 0 <= i < rows * cols => StepAt(cur, rows, cols, i))
  }

  /** The next generation holds at each cell's index that cell's B3/S23
    * successor, and only 0s and 1s. */
  lemma SteppedAt(cur: seq<u8>, rows: nat, cols: nat, r: nat, c: nat)
    requires r < rows && c < cols && |cur| == rows * cols
    ensures Idx(rows, r, c) < rows * cols
      && Stepped(cur, rows, cols)[Idx(rows, r, c)] == StepCell(cur, rows, cols, r, c)
    ensures StepCell(cur, rows, cols, r, c) == 0 || StepCell(cur, rows, cols, r, c) == 1
  {
    IdxInGrid(rows, cols, r, c);
    JoinSplit(c, rows, r);
  }

  /** Index `i` comes before cell (r, c) in the evolution loops' order:
    * rows in turn, columns within a row. */
  predicate Before(rows: nat, i: nat, r: nat, c: nat)
    requires rows > 0
  {
    i % rows < r || (i % rows == r && i / rows < c)
  }

  /** The evolution loops have written every cell of `target` before
    * (r, c) into `next`. */
  predicate Written(next: seq<u8>, target: seq<u8>, rows: nat, r: nat, c: nat)
    requires rows > 0
  {
    |next| == |target|
    && forall i | 0 <= i < |target| && Before(rows, i, r, c) :: next[i] == target[i]
  }

  lemma IdxInjective(rows: nat, r1: nat, c1: nat, r2: nat, c2: nat)
    requires r1 < rows && r2 < rows
    ensures Idx(rows, r1, c1) == Idx(rows, r2, c2) <==> r1 == r2 && c1 == c2
  {
    JoinSplit(c1, rows, r1);
    JoinSplit(c2, rows, r2);
  }

  /** Writing cell (r, c) extends the written part by that cell. */
  lemma EvolveCell(next: seq<u8>, target: seq<u8>, rows: nat, cols: nat, r: nat, c: nat)
    requires r < rows && c < cols && |target| == rows * cols
    requires Written(next, target, rows, r, c)
    ensures Idx(rows, r, c) < rows * cols
    ensures Written(next[Idx(rows, r, c) := target[Idx(rows, r, c)]], target, rows, r, c + 1)
  {
    IdxInGrid(rows, cols, r, c);
    var at := Idx(rows, r, c);
    JoinSplit(c, rows, r);
    var after := next[at := target[at]];
    forall i | 0 <= i < |target| && Before(rows, i, r, c + 1)
      ensures after[i] == target[i]
    {
      if i != at {
        assert !(i % rows == r && i / rows == c) by {
          SplitJoin(i, rows);
        }
      }
    }
  }

  /** Nothing is written before the first cell. */
  lemma EvolveStart(next: seq<u8>, target: seq<u8>, rows: nat)
    requires 0 < rows && |next| == |target|
    ensures Written(next, target, rows, 0, 0)
  {
  }

  lemma EvolveRow(next: seq<u8>, target: seq<u8>, rows: nat, cols: nat, r: nat)
    requires 0 < rows && |target| == rows * cols
    requires Written(next, target, rows, r, cols)
    ensures Written(next, target, rows, r + 1, 0)
  {
    forall i | 0 <= i < |target| && Before(rows, i, r + 1, 0)
      ensures next[i] == target[i]
    {
      assert i < cols * rows;
      DivBelow(i, rows, cols);
      assert Before(rows, i, r, cols);
    }
  }

  /** After the last row every cell is written. */
  lemma EvolveDone(next: seq<u8>, target: seq<u8>, rows: nat)
    requires 0 < rows && Written(next, target, rows, rows, 0)
    ensures next == target
  {
    forall i | 0 <= i < |target|
      ensures next[i] == target[i]
    {
      assert Before(rows, i, rows, 0);
    }
  }

  /** Some cell of `s` is live. */
  predicate AnyAlive(s: seq<u8>) {
    exists i | 0 <= i < |s| :: s[i] != 0
  }

  // ---------------------------------------------------------------- random seeding

  /** `x * 1664525 + 1013904223` in 32-bit arithmetic. */
  function LcgNext(x: u32): u32 {
    WrapU32(x * 1664525 + 1013904223)
  }

  /** The state after `n` generator steps. */
  function LcgAt(x0: u32, n: nat): u32 {
    if n == 0 then x0 else LcgNext(LcgAt(x0, n - 1))
  }

  /** A zero seed is replaced by 0xA5A5A5A5. */
  function SeedStart(seed: u32): (x: u32)
    ensures seed == 0 ==> x == 0xA5A5A5A5
    ensures seed != 0 ==> x == seed
  {
    if seed != 0 then seed else 0xA5A5A5A5
  }

  /** `((x >> 28) & 0xF) < 6`: about 35% of the cells start live. */
  function RandomCell(x: u32): (v: u8)
    ensures v == 0 || v == 1
  {
    if (x / 0x1000_0000) % 16 < 6 then 1 else 0
  }

  /** The grid `randomize_state` draws: cell `i` from the generator's
    * `i + 1`-th state. */
  function RandomGrid(seed: u32, total: nat): (g: seq<u8>)
    ensures |g| == total && forall i | 0 <= i < total :: g[i] == 0 || g[i] == 1
  {
    seq(total, i requires 0 <= i < total => RandomCell(LcgAt(SeedStart(seed), i + 1)))
  }

  /** A zero seed draws the same grid as 0xA5A5A5A5. */
  lemma RandomGridZeroSeed(n: nat)
    ensures RandomGrid(0, n) == RandomGrid(0xA5A5A5A5, n)
  {
    assert SeedStart(0) == SeedStart(0xA5A5A5A5);
    assert forall i | 0 <= i < n :: RandomGrid(0, n)[i] == RandomGrid(0xA5A5A5A5, n)[i];
  }

  /** The grid drawn for fewer cells is a prefix of the one drawn for more. */
  lemma RandomGridPrefix(seed: u32, m: nat, n: nat)
    requires m <= n
    ensures RandomGrid(seed, n)[..m] == RandomGrid(seed, m)
  {
    var a, b := RandomGrid(seed, n)[..m], RandomGrid(seed, m);
    assert forall i | 0 <= i < m :: a[i] == b[i];
  }

  /** The low 32 bits of `now ^ (now >> 32)`. */
  function FoldTime(now: u64): u32 {
    ((now % 0x1_0000_0000) as bv32 ^ (now / 0x1_0000_0000) as bv32) as int
  }

  /** The seed of `reset` and of a resize: the folded clock xor the pin
    * times 2654435761, all in 32 bits. */
  function PinSeed(now: u64, pin: int): u32 {
    (FoldTime(now) as bv32 ^ WrapU32(pin * 2654435761) as bv32) as int
  }

  /** The seed of a reseed: the folded clock plus 0x9E3779B9, in 32 bits. */
  function ReseedSeed(now: u64): u32 {
    WrapU32(FoldTime(now) + 0x9E3779B9)
  }

  // ---------------------------------------------------------------- cadence and history

  /** The time between generations: 800 ms at speed 0 down to 206 ms at
    * 99, and no wait at all from 100 on; the speed is clamped to [0, 100]. */
  function StepInterval(speed: int): (i: u64)
    ensures i == 0 <==> speed >= 100
    ensures speed < 100 ==> 206000 <= i <= 800000 && i == 800000 - 6000 * Clamp(speed, 0, 100)
  {
    var sp := Clamp(speed, 0, 100);
    if sp >= 100 then 0 else 800000 - sp * 6000
  }

  /** A faster setting never waits longer. */
  lemma StepIntervalDecreasing(a: int, b: int)
    requires a <= b
    ensures StepInterval(b) <= StepInterval(a)
  {
  }

  /** How long a repeating colony may live before it is reseeded. */
  const RepeatLimitUs: u64 := 10 * 1000 * 1000

  /** The next grid equals a non-empty grid one or two generations back. */
  predicate Repeats(next: seq<u8>, prev1: seq<u8>, prev2: seq<u8>) {
    (|prev1| > 0 && prev1 == next) || (|prev2| > 0 && prev2 == next)
  }

  /** The pattern's evolving state. */
  datatype LifeState = LifeState(
    current: seq<u8>, next: seq<u8>, prev1: seq<u8>, prev2: seq<u8>,
    lastStepUs: u64, repeatStartUs: u64)

  /** The cadence gate: not yet time for a generation. */
  predicate Waits(s: LifeState, speed: int, now: u64) {
    StepInterval(speed) > 0 && SubU64(now, s.lastStepUs) < StepInterval(speed)
  }

  /** A strip whose grid no longer matches the buffers gets fresh buffers,
    * a new random grid and no history. */
  function Resized(s: LifeState, rows: nat, cols: nat, now: u64, pin: int): (t: LifeState)
    ensures |t.current| == rows * cols
  {
    if |s.current| == rows * cols then s
    else s.(current := RandomGrid(PinSeed(now, pin), rows * cols), next := Zeros(rows * cols), prev1 := [], prev2 := [])
  }

  /** The state a reseed leaves: a fresh random grid and no history. */
  function Reseeded(s: LifeState, now: u64, total: nat): LifeState {
    s.(current := RandomGrid(ReseedSeed(now), total), next := Zeros(total), prev1 := [], prev2 := [], repeatStartUs := 0)
  }

  /** What follows the evolution, with the new generation in `s.next`:
    * in random mode a reseed on extinction or after 10 seconds of
    * repetition, otherwise the history shift and buffer swap. */
  function Settle(s: LifeState, simple: bool, now: u64, total: nat): LifeState {
    var repeating := !simple && Repeats(s.next, s.prev1, s.prev2);
    var since := if s.repeatStartUs == 0 then now else s.repeatStartUs;
    if !simple && !AnyAlive(s.next) then Reseeded(s, now, total)
    else if repeating && SubU64(now, since) >= RepeatLimitUs then Reseeded(s, now, total)
    else
      var rs := if simple then s.repeatStartUs else if repeating then since else 0;
      LifeState(s.next, s.current, s.current, s.prev1, s.lastStepUs, rs)
  }

  /** One `update` call on the state, given the speed, the mode, the clock
    * and the strip's dimensions and pin. */
  function Advance(s: LifeState, speed: int, simple: bool, now: u64, rows: nat, cols: nat, pin: int): LifeState {
    if Waits(s, speed, now) then s
    else
      var s1 := Gated(s, speed, now);
      if rows == 0 || cols == 0 then s1
      else
        var s2 := Resized(s1, rows, cols, now, pin);
        Settle(s2.(next := Stepped(s2.current, rows, cols)), simple, now, rows * cols)
  }

  /** The clock part of a generation: the time of the step is recorded
    * unless the speed steps on every call. */
  function Gated(s: LifeState, speed: int, now: u64): LifeState {
    s.(lastStepUs := if StepInterval(speed) > 0 then now else s.lastStepUs)
  }

  /** A generation on a non-empty grid is the gate, the resize, the
    * evolution and the settling, in that order. */
  lemma AdvanceStages(s: LifeState, speed: int, simple: bool, now: u64, rows: nat, cols: nat, pin: int)
    requires !Waits(s, speed, now) && rows > 0 && cols > 0
    ensures var s2 := Resized(Gated(s, speed, now), rows, cols, now, pin);
      Advance(s, speed, simple, now, rows, cols, pin)
      == Settle(s2.(next := Stepped(s2.current, rows, cols)), simple, now, rows * cols)
  {
  }

  /** Before the interval has passed nothing changes. */
  lemma AdvanceWaits(s: LifeState, speed: int, simple: bool, now: u64, rows: nat, cols: nat, pin: int)
    requires Waits(s, speed, now)
    ensures Advance(s, speed, simple, now, rows, cols, pin) == s
  {
  }

  /** In random mode a generation with no live cell is replaced at once by a
    * fresh random grid, and the history is cleared. */
  lemma AdvanceExtinct(s: LifeState, speed: int, now: u64, rows: nat, cols: nat, pin: int)
    requires !Waits(s, speed, now)
    requires rows > 0 && cols > 0 && |s.current| == rows * cols
    requires !AnyAlive(Stepped(s.current, rows, cols))
    ensures var t := Advance(s, speed, false, now, rows, cols, pin);
      t.current == RandomGrid(ReseedSeed(now), rows * cols)
      && t.prev1 == [] && t.prev2 == [] && t.repeatStartUs == 0
  {
  }

  /** A generation that is kept shifts the history: the grid two back is
    * the one that was one back, the one back is the old grid, and the new
    * grid is its B3/S23 successor. In simple mode every generation is kept. */
  lemma AdvanceShifts(s: LifeState, speed: int, simple: bool, now: u64, rows: nat, cols: nat, pin: int)
    requires !Waits(s, speed, now)
    requires rows > 0 && cols > 0 && |s.current| == rows * cols
    requires simple || (AnyAlive(Stepped(s.current, rows, cols))
      && !Repeats(Stepped(s.current, rows, cols), s.prev1, s.prev2))
    ensures var t := Advance(s, speed, simple, now, rows, cols, pin);
      t.current == Stepped(s.current, rows, cols) && t.prev1 == s.current
      && t.prev2 == s.prev1 && t.next == s.current
      && t.repeatStartUs == (if simple then s.repeatStartUs else 0)
  {
  }

  /** Every cell of a generation is 0 or 1. */
  lemma SteppedBinary(cur: seq<u8>, rows: nat, cols: nat)
    requires 0 < rows && |cur| == rows * cols
    ensures forall i | 0 <= i < rows * cols :: Stepped(cur, rows, cols)[i] == 0 || Stepped(cur, rows, cols)[i] == 1
  {
    forall i | 0 <= i < rows * cols
      ensures Stepped(cur, rows, cols)[i] == 0 || Stepped(cur, rows, cols)[i] == 1
    {
      assert i < cols * rows;
      DivBelow(i, rows, cols);
      SteppedAt(cur, rows, cols, i % rows, i / rows);
      SplitJoin(i, rows);
    }
  }

  /** `update` keeps both buffers the same size, and once the grid is
    * non-empty every cell is 0 or 1 when it started so. */
  lemma AdvanceKeepsShape(s: LifeState, speed: int, simple: bool, now: u64, rows: nat, cols: nat, pin: int)
    requires |s.next| == |s.current|
    requires forall i | 0 <= i < |s.current| :: s.current[i] == 0 || s.current[i] == 1
    ensures var t := Advance(s, speed, simple, now, rows, cols, pin);
      |t.next| == |t.current|
      && forall i | 0 <= i < |t.current| :: t.current[i] == 0 || t.current[i] == 1
  {
    if !Waits(s, speed, now) && rows > 0 && cols > 0 {
      SteppedBinary(Resized(Gated(s, speed, now), rows, cols, now, pin).current, rows, cols);
    }
  }

  // ---------------------------------------------------------------- reset

  /** The three-cell blinker `reset` places in simple mode: columns 1 to 3
    * of the middle row. */
  function Blinker(rows: nat, cols: nat): (g: seq<u8>)
    requires rows >= 1 && cols >= 5
    ensures |g| == rows * cols
  {
    var r := rows / 2;
    IdxInGrid(rows, cols, r, 1);
    IdxInGrid(rows, cols, r, 2);
    IdxInGrid(rows, cols, r, 3);
    Zeros(rows * cols)[Idx(rows, r, 1) := 1][Idx(rows, r, 2) := 1][Idx(rows, r, 3) := 1]
  }

  /** The blinker holds exactly those three live cells. */
  lemma BlinkerCells(rows: nat, cols: nat, r: nat, c: nat)
    requires rows >= 1 && cols >= 5 && r < rows && c < cols
    ensures Idx(rows, r, c) < rows * cols
      && Blinker(rows, cols)[Idx(rows, r, c)] == if r == rows / 2 && 1 <= c <= 3 then 1 else 0
  {
    var m := rows / 2;
    IdxInGrid(rows, cols, r, c);
    IdxInGrid(rows, cols, m, 1);
    IdxInGrid(rows, cols, m, 2);
    IdxInGrid(rows, cols, m, 3);
    IdxInjective(rows, r, c, m, 1);
    IdxInjective(rows, r, c, m, 2);
    IdxInjective(rows, r, c, m, 3);
    var i := Idx(rows, r, c);
    assert Blinker(rows, cols) == Zeros(rows * cols)[Idx(rows, m, 1) := 1][Idx(rows, m, 2) := 1][Idx(rows, m, 3) := 1];
    assert Zeros(rows * cols)[i] == 0;
  }

  /** The grid `reset` starts from. */
  function InitialGrid(rows: nat, cols: nat, simple: bool, now: u64, pin: int): (g: seq<u8>)
    ensures |g| == rows * cols
  {
    if simple && rows >= 1 && cols >= 5 then Blinker(rows, cols)
    else RandomGrid(PinSeed(now, pin), rows * cols)
  }

  /** `GameOfLifePattern`: the cell buffers, the history and the timers. */
  class Life {
    var current: seq<u8>
    var next: seq<u8>
    var prev1: seq<u8>
    var prev2: seq<u8>
    var lastStepUs: u64
    var repeatStartUs: u64
    var speedPercent: int
    var simpleMode: bool

    predicate Valid()
      reads this
    {
      |next| == |current|
    }

    function State(): LifeState
      reads this
    {
      LifeState(current, next, prev1, prev2, lastStepUs, repeatStartUs)
    }

    constructor ()
      ensures Valid() && State() == LifeState([], [], [], [], 0, 0)
      ensures speedPercent == 50 && !simpleMode
    {
      current, next, prev1, prev2 := [], [], [], [];
      lastStepUs, repeatStartUs := 0, 0;
      speedPercent := 50;
      simpleMode := false;
    }

    /** `set_speed_percent`: stored as given and clamped when used. */
    method SetSpeed(speed: int)
      modifies this`speedPercent
      ensures speedPercent == speed
    {
      speedPercent := speed;
    }

    /** `randomize_state`: both buffers resized, the grid drawn from the
      * generator, the scratch buffer cleared. */
    method Randomize(rows: nat, cols: nat, seed: u32)
      modifies this`current, this`next
      ensures current == RandomGrid(seed, rows * cols) && next == Zeros(rows * cols)
    {
      var total := rows * cols;
      current := Zeros(total);
      next := Zeros(total);
      var x := SeedStart(seed);
      for i := 0 to total
        invariant |current| == total && next == Zeros(total)
        invariant x == LcgAt(SeedStart(seed), i)
        invariant forall j | 0 <= j < i :: current[j] == RandomCell(LcgAt(SeedStart(seed), j + 1))
      {
        x := LcgNext(x);
        current := current[i := RandomCell(x)];
      }
    }

    /** The evolution loops of `update`: every cell of `next` receives its
      * B3/S23 successor. */
    method Evolve(rows: nat, cols: nat)
      requires 0 < rows && 0 < cols && |current| == rows * cols && |next| == rows * cols
      modifies this`next
      ensures next == Stepped(current, rows, cols)
    {
      ghost var target := Stepped(current, rows, cols);
      EvolveStart(next, target, rows);
      for r := 0 to rows
        invariant Written(next, target, rows, r, 0)
      {
        for c := 0 to cols
          invariant Written(next, target, rows, r, c)
        {
          var n := CountLiveNeighbors(current, rows, cols, r, c);
          EvolveCell(next, target, rows, cols, r, c);
          SteppedAt(current, rows, cols, r, c);
          var at := Idx(rows, r, c);
          next := next[at := NextCell(current[at] != 0, n)];
        }
        EvolveRow(next, target, rows, cols, r);
      }
      EvolveDone(next, target, rows);
    }

    /** The seeding part of `reset`. */
    method Seed(rows: nat, cols: nat, useSimple: bool, nowUs: u64, pin: int)
      modifies this`current, this`next
      ensures current == InitialGrid(rows, cols, useSimple, nowUs, pin) && next == Zeros(rows * cols)
    {
      var total := rows * cols;
      current := Zeros(total);
      next := Zeros(total);
      if useSimple && rows >= 1 && cols >= 5 {
        var r := rows / 2;
        IdxInGrid(rows, cols, r, 1);
        IdxInGrid(rows, cols, r, 2);
        IdxInGrid(rows, cols, r, 3);
        current := current[Idx(rows, r, 1) := 1];
        current := current[Idx(rows, r, 2) := 1];
        current := current[Idx(rows, r, 3) := 1];
      } else {
        Randomize(rows, cols, PinSeed(nowUs, pin));
      }
    }

    /** `reset`: fresh buffers seeded with the blinker (simple mode, for a
      * grid of at least one row and five columns) or a random grid; the
      * clock restarts and the history is cleared. */
    method Reset(rows: nat, cols: nat, nowUs: u64, pin: int, start: string)
      modifies this`current, this`next, this`prev1, this`prev2, this`lastStepUs, this`repeatStartUs, this`simpleMode
      ensures Valid() && simpleMode == CStr.CaseEq(start, "SIMPLE")
      ensures current == InitialGrid(rows, cols, simpleMode, nowUs, pin) && next == Zeros(rows * cols)
      ensures prev1 == [] && prev2 == [] && lastStepUs == nowUs && repeatStartUs == 0
    {
      // an empty name never matches "SIMPLE"
      var useSimple := CStr.CaseEq(start, "SIMPLE");
      Restart(rows, cols, useSimple, nowUs, pin);
    }

    /** `reset` once the start pattern is decided. */
    method Restart(rows: nat, cols: nat, useSimple: bool, nowUs: u64, pin: int)
      modifies this`current, this`next, this`prev1, this`prev2, this`lastStepUs, this`repeatStartUs, this`simpleMode
      ensures Valid() && simpleMode == useSimple
      ensures current == InitialGrid(rows, cols, useSimple, nowUs, pin) && next == Zeros(rows * cols)
      ensures prev1 == [] && prev2 == [] && lastStepUs == nowUs && repeatStartUs == 0
    {
      simpleMode := useSimple;
      lastStepUs := nowUs;
      prev1 := [];
      prev2 := [];
      repeatStartUs := 0;
      Seed(rows, cols, useSimple, nowUs, pin);
    }

    /** The end of `update`, with the new generation in `next`. */
    method Finish(nowUs: u64, rows: nat, cols: nat)
      requires |next| == rows * cols && |current| == rows * cols
      modifies this`current, this`next, this`prev1, this`prev2, this`repeatStartUs
      ensures Valid() && State() == Settle(old(State()), simpleMode, nowUs, rows * cols)
    {
      ghost var s := State();
      var anyAlive := exists i | 0 <= i < |next| :: next[i] != 0;
      if !simpleMode && !anyAlive {
        Reseed(nowUs, rows, cols);
        return;
      }
      if !simpleMode {
        var repeating := (|prev1| > 0 && prev1 == next) || (|prev2| > 0 && prev2 == next);
        assert repeating == Repeats(s.next, s.prev1, s.prev2);
        if repeating {
          if repeatStartUs == 0 {
            repeatStartUs := nowUs;
          }
          if SubU64(nowUs, repeatStartUs) >= RepeatLimitUs {
            Reseed(nowUs, rows, cols);
            return;
          }
        } else {
          repeatStartUs := 0;
        }
      }
      prev2 := prev1;
      prev1 := current;
      current, next := next, current;
    }

    /** A reseed: a random grid from the clock and no history. */
    method Reseed(nowUs: u64, rows: nat, cols: nat)
      modifies this`current, this`next, this`prev1, this`prev2, this`repeatStartUs
      ensures Valid() && State() == Reseeded(old(State()), nowUs, rows * cols)
    {
      Randomize(rows, cols, ReseedSeed(nowUs));
      prev1 := [];
      prev2 := [];
      repeatStartUs := 0;
    }

    /** The buffers `update` evolves: fresh ones, a new random grid and
      * no history when the strip's grid changed. */
    method Resize(rows: nat, cols: nat, nowUs: u64, pin: int)
      requires Valid()
      modifies this`current, this`next, this`prev1, this`prev2
      ensures Valid() && State() == Resized(old(State()), rows, cols, nowUs, pin)
    {
      var total := rows * cols;
      if |current| != total {
        prev1 := [];
        prev2 := [];
        Randomize(rows, cols, PinSeed(nowUs, pin));
      }
    }

    /** One generation of `update` on a non-empty grid: resize, evolve,
      * settle. */
    method Generation(nowUs: u64, rows: nat, cols: nat, pin: int)
      requires Valid() && rows > 0 && cols > 0
      modifies this`current, this`next, this`prev1, this`prev2, this`repeatStartUs
      ensures Valid()
      ensures var s2 := Resized(old(State()), rows, cols, nowUs, pin);
        State() == Settle(s2.(next := Stepped(s2.current, rows, cols)), simpleMode, nowUs, rows * cols)
    {
      Resize(rows, cols, nowUs, pin);
      ghost var s2 := State();
      Evolve(rows, cols);
      assert State() == s2.(next := Stepped(s2.current, rows, cols));
      Finish(nowUs, rows, cols);
    }

    /** `update`: wait for the interval, resize and reseed if the strip's
      * grid changed, evolve one generation, then reseed on extinction or a
      * long repeat (random mode) or shift the history. */
    method Update(nowUs: u64, rows: nat, cols: nat, pin: int)
      requires Valid()
      modifies this`current, this`next, this`prev1, this`prev2, this`lastStepUs, this`repeatStartUs
      ensures Valid()
      ensures State() == Advance(old(State()), speedPercent, simpleMode, nowUs, rows, cols, pin)
    {
      ghost var s0 := State();
      var interval := StepInterval(speedPercent);
      if interval > 0 {
        if SubU64(nowUs, lastStepUs) < interval {
          AdvanceWaits(s0, speedPercent, simpleMode, nowUs, rows, cols, pin);
          return;
        }
        lastStepUs := nowUs;
      }
      assert State() == Gated(s0, speedPercent, nowUs);
      if rows == 0 || cols == 0 {
        return;
      }
      Generation(nowUs, rows, cols, pin);
      AdvanceStages(s0, speedPercent, simpleMode, nowUs, rows, cols, pin);
    }
  }
}
