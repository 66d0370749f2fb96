/** The button puzzle: four coloured buttons fill four positions in turn,
  * each shown in its button's colour; when the fourth is filled the
  * sequence is matched against nine known patterns, each starting its own
  * light behaviour, and the next press starts a new sequence. The light
  * driver is not modelled: the behaviour in force is a value. */
module ButtonsPuzzle {
  import opened CTypes

  datatype Rgb = Rgb(r: u8, g: u8, b: u8)

  /** The light behaviours the puzzle switches between, with the colours it
    * gives the chasing and pulsing ones. */
  datatype Behavior =
    | FourColorLights
    | ChristmasLights
    | ChasingLights(first: Rgb, second: Rgb)
    | RainbowLights
    | RainbowChasing
    | FlashingLights
    | PulsingLights(color: Rgb)

  /** The button numbers `handleButtonPress` records. */
  const Green := 0
  const Blue := 1
  const Red := 2
  const Yellow := 3

  /** The colour each button shows, from `onButton1Pressed` to
    * `onButton4Pressed`. */
  function ButtonColor(button: nat): (c: Rgb)
    requires button < 4
    ensures c.r == 255 <==> button == Red || button == Yellow
    ensures c.g == 255 <==> button == Green || button == Yellow
    ensures c.b == 255 <==> button == Blue
  {
    if button == Green then Rgb(0, 255, 0)
    else if button == Blue then Rgb(0, 0, 255)
    else if button == Red then Rgb(255, 0, 0)
    else Rgb(255, 255, 0)
  }

  /** The four presses are `a`, `b`, `c`, `d`. */
  predicate Is(p: seq<int>, a: int, b: int, c: int, d: int)
    requires |p| == 4
  {
    p[0] == a && p[1] == b && p[2] == c && p[3] == d
  }

  /** `checkPattern`: the behaviour a complete sequence selects. */
  function Recognize(p: seq<int>): Behavior
    requires |p| == 4
  {
    if Is(p, Red, Green, Red, Green) then ChristmasLights
    else if Is(p, Green, Red, Green, Red) then ChasingLights(Rgb(0, 100, 0), Rgb(100, 0, 0))
    else if Is(p, Red, Yellow, Green, Blue) then RainbowLights
    else if Is(p, Blue, Green, Yellow, Red) then RainbowChasing
    else if Is(p, Red, Blue, Red, Blue) then FlashingLights
    else if Is(p, Red, Red, Red, Red) then PulsingLights(Rgb(255, 0, 0))
    else if Is(p, Green, Green, Green, Green) then PulsingLights(Rgb(0, 255, 0))
    else if Is(p, Blue, Blue, Blue, Blue) then PulsingLights(Rgb(0, 0, 255))
    else if Is(p, Yellow, Yellow, Yellow, Yellow) then PulsingLights(Rgb(255, 255, 0))
    else FourColorLights
  }

  /** The known sequences and what each starts, as a table. */
  const Known: seq<(seq<int>, Behavior)> := [
    ([Red, Green, Red, Green], ChristmasLights),
    ([Green, Red, Green, Red], ChasingLights(Rgb(0, 100, 0), Rgb(100, 0, 0))),
    ([Red, Yellow, Green, Blue], RainbowLights),
    ([Blue, Green, Yellow, Red], RainbowChasing),
    ([Red, Blue, Red, Blue], FlashingLights),
    ([Red, Red, Red, Red], PulsingLights(Rgb(255, 0, 0))),
    ([Green, Green, Green, Green], PulsingLights(Rgb(0, 255, 0))),
    ([Blue, Blue, Blue, Blue], PulsingLights(Rgb(0, 0, 255))),
    ([Yellow, Yellow, Yellow, Yellow], PulsingLights(Rgb(255, 255, 0)))]

  /** A sequence in the table starts the table's behaviour. */
  lemma RecognizeKnown(p: seq<int>, k: nat)
    requires k < |Known| && Known[k].0 == p
    ensures Recognize(p) == Known[k].1
  {
  }

  /** `checkPattern` is total: any sequence outside the table shows the
    * entered colours, and no sequence in it does. */
  lemma RecognizeOther(p: seq<int>)
    requires |p| == 4
    ensures Recognize(p) == FourColorLights <==> forall k | 0 <= k < |Known| :: Known[k].0 != p
  {
    if Recognize(p) != FourColorLights {
      var q := [p[0], p[1], p[2], p[3]];
      assert q == p;
      if Is(p, Red, Green, Red, Green) {
        assert Known[0].0 == q;
      } else if Is(p, Green, Red, Green, Red) {
        assert Known[1].0 == q;
      } else if Is(p, Red, Yellow, Green, Blue) {
        assert Known[2].0 == q;
      } else if Is(p, Blue, Green, Yellow, Red) {
        assert Known[3].0 == q;
      } else if Is(p, Red, Blue, Red, Blue) {
        assert Known[4].0 == q;
      } else if Is(p, Red, Red, Red, Red) {
        assert Known[5].0 == q;
      } else if Is(p, Green, Green, Green, Green) {
        assert Known[6].0 == q;
      } else if Is(p, Blue, Blue, Blue, Blue) {
        assert Known[7].0 == q;
      } else {
        assert Known[8].0 == q;
      }
    } else {
      forall k | 0 <= k < |Known|
        ensures Known[k].0 != p
      {
        if Known[k].0 == p {
          RecognizeKnown(p, k);
        }
      }
    }
  }

  /** The puzzle's state: the four recorded presses (-1 for none), the next
    * position, the colours shown by the four-colour behaviour and the
    * behaviour in force. */
  datatype PuzzleState = PuzzleState(presses: seq<int>, index: int, slots: seq<Option<Rgb>>, behavior: Behavior)

  predicate WellFormed(s: PuzzleState) {
    |s.presses| == 4 && |s.slots| == 4 && 0 <= s.index < 4
  }

  /** The state `resetState` leaves. */
  const Cleared := PuzzleState([-1, -1, -1, -1], 0, [None, None, None, None], FourColorLights)

  /** `handleButtonPress`: a press after a complete sequence clears it
    * first; the press is recorded and shown at the current position, the
    * position advances modulo 4, and filling the fourth position runs
    * `checkPattern`. */
  function Press(s: PuzzleState, button: int, c: Rgb): (t: PuzzleState)
    requires WellFormed(s)
    ensures WellFormed(t)
  {
    var s1 := if s.presses[3] != -1 then Cleared else s;
    var next := (s1.index + 1) % 4;
    var s2 := PuzzleState(s1.presses[s1.index := button], next, s1.slots[s1.index := Some(c)], FourColorLights);
    if next == 0 then s2.(behavior := Recognize(s2.presses)) else s2
  }

  /** A press records the button and its colour at the current position,
    * or at position 0 when it starts a new sequence, and moves on by one
    * position modulo 4. */
  lemma PressRecords(s: PuzzleState, button: int, c: Rgb)
    requires WellFormed(s)
    ensures var at := if s.presses[3] != -1 then 0 else s.index;
      var t := Press(s, button, c);
      t.presses[at] == button && t.slots[at] == Some(c) && t.index == (at + 1) % 4
    ensures s.presses[3] == -1 ==>
      forall k | 0 <= k < 4 && k != s.index ::
        Press(s, button, c).presses[k] == s.presses[k] && Press(s, button, c).slots[k] == s.slots[k]
  {
  }

  /** The first press after a complete sequence starts afresh: only its
    * own position is filled. */
  lemma PressAfterFull(s: PuzzleState, button: int, c: Rgb)
    requires WellFormed(s) && s.presses[3] != -1
    ensures Press(s, button, c)
      == PuzzleState([button, -1, -1, -1], 1, [Some(c), None, None, None], FourColorLights)
  {
  }

  /** The pattern is checked only when the position wraps to 0; until then
    * the entered colours are shown. */
  lemma CheckOnWrap(s: PuzzleState, button: int, c: Rgb)
    requires WellFormed(s)
    ensures var t := Press(s, button, c);
      (t.index != 0 ==> t.behavior == FourColorLights)
      && (t.index == 0 ==> t.behavior == Recognize(t.presses))
  {
  }

  /** Four presses from a cleared puzzle record the four buttons in order,
    * show their colours and start the behaviour their sequence selects. */
  lemma FourPresses(b: seq<int>, c: seq<Rgb>)
    requires |b| == 4 && |c| == 4
    ensures var t := Press(Press(Press(Press(Cleared, b[0], c[0]), b[1], c[1]), b[2], c[2]), b[3], c[3]);
      t.presses == b && t.index == 0 && t.behavior == Recognize(b)
      && t.slots == [Some(c[0]), Some(c[1]), Some(c[2]), Some(c[3])]
  {
    var t1 := Press(Cleared, b[0], c[0]);
    var t2 := Press(t1, b[1], c[1]);
    var t3 := Press(t2, b[2], c[2]);
    assert t3.presses == [b[0], b[1], b[2], -1];
    var t4 := Press(t3, b[3], c[3]);
    assert t4.presses == b;
  }

  /** The recording protocol: the positions before `index` hold presses
    * and the rest none, or a complete sequence waits with `index` 0. */
  predicate Protocol(s: PuzzleState)
    requires WellFormed(s)
  {
    (forall k | 0 <= k < 4 :: s.presses[k] != -1 <==> k < s.index)
    || (s.index == 0 && forall k | 0 <= k < 4 :: s.presses[k] != -1)
  }

  /** Presses of the four buttons keep the protocol. */
  lemma PressKeepsProtocol(s: PuzzleState, button: nat, c: Rgb)
    requires WellFormed(s) && Protocol(s) && button < 4
    ensures Protocol(Press(s, button, c))
  {
    var s1 := if s.presses[3] != -1 then Cleared else s;
    assert forall k | 0 <= k < 4 :: s1.presses[k] != -1 <==> k < s1.index;
  }

  /** `ButtonsPuzzleApp`: the recorded presses in a four-entry array, the
    * next position, the four-colour display and the behaviour in force. */
  class ButtonsPuzzleApp {
    var presses: array<int>
    var index: int
    var slots: seq<Option<Rgb>>
    var behavior: Behavior

    predicate Valid()
      reads this
    {
      presses.Length == 4 && 0 <= index < 4 && |slots| == 4
    }

    function State(): PuzzleState
      reads this, presses
    {
      PuzzleState(presses[..], index, slots, behavior)
    }

    /** The constructor shows the four-colour behaviour and clears the
      * puzzle. */
    constructor ()
      ensures Valid() && fresh(presses) && State() == Cleared
    {
      presses := new int[4];
      index := 0;
      slots := [None, None, None, None];
      behavior := FourColorLights;
      new;
      ResetState();
    }

    /** `resetState`. */
    method ResetState()
      requires presses.Length == 4
      modifies this`index, this`slots, this`behavior, presses
      ensures Valid() && State() == Cleared
    {
      index := 0;
      for i := 0 to 4
        invariant index == 0
        invariant forall k | 0 <= k < i :: presses[k] == -1
      {
        presses[i] := -1;
      }
      slots := [None, None, None, None];
      behavior := FourColorLights;
      assert presses[..] == [-1, -1, -1, -1];
    }

    /** `checkPattern`. */
    method CheckPattern()
      requires Valid()
      modifies this`behavior
      ensures behavior == Recognize(presses[..])
    {
      var p0, p1, p2, p3 := presses[0], presses[1], presses[2], presses[3];
      assert presses[..] == [p0, p1, p2, p3];
      if p0 == 2 && p1 == 0 && p2 == 2 && p3 == 0 {
        behavior := ChristmasLights;
      } else if p0 == 0 && p1 == 2 && p2 == 0 && p3 == 2 {
        behavior := ChasingLights(Rgb(0, 100, 0), Rgb(100, 0, 0));
      } else if p0 == 2 && p1 == 3 && p2 == 0 && p3 == 1 {
        behavior := RainbowLights;
      } else if p0 == 1 && p1 == 0 && p2 == 3 && p3 == 2 {
        behavior := RainbowChasing;
      } else if p0 == 2 && p1 == 1 && p2 == 2 && p3 == 1 {
        behavior := FlashingLights;
      } else if p0 == 2 && p1 == 2 && p2 == 2 && p3 == 2 {
        behavior := PulsingLights(Rgb(255, 0, 0));
      } else if p0 == 0 && p1 == 0 && p2 == 0 && p3 == 0 {
        behavior := PulsingLights(Rgb(0, 255, 0));
      } else if p0 == 1 && p1 == 1 && p2 == 1 && p3 == 1 {
        behavior := PulsingLights(Rgb(0, 0, 255));
      } else if p0 == 3 && p1 == 3 && p2 == 3 && p3 == 3 {
        behavior := PulsingLights(Rgb(255, 255, 0));
      } else {
        behavior := FourColorLights;
      }
    }

    /** `handleButtonPress`. */
    method HandleButtonPress(button: int, red: u8, green: u8, blue: u8)
      requires Valid()
      modifies this`index, this`slots, this`behavior, presses
      ensures Valid() && State() == Press(old(State()), button, Rgb(red, green, blue))
    {
      if presses[3] != -1 {
        ResetState();
      }
      presses[index] := button;
      slots := slots[index := Some(Rgb(red, green, blue))];
      behavior := FourColorLights;
      index := (index + 1) % 4;
      if index == 0 {
        CheckPattern();
      }
    }

    /** `onButton1Pressed` to `onButton4Pressed`, for buttons 0 to 3. */
    method OnButtonPressed(button: nat)
      requires Valid() && button < 4
      modifies this`index, this`slots, this`behavior, presses
      ensures Valid() && State() == Press(old(State()), button, ButtonColor(button))
    {
      var c := ButtonColor(button);
      HandleButtonPress(button, c.r, c.g, c.b);
    }
  }
}
