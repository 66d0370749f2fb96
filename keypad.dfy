/** The lock-keypad logic of an MCP23008 expander: switch pins named
  * `<door>.door.unlock` and `<door>.door.lock` follow their base state,
  * except while the SENSOR pin named `<door>.door.override` is closed, which
  * forces the door open. */
module Keypad {
  import opened CTypes
  import opened ConfigIo

  const UnlockSuffix: string := ".door.unlock"
  const LockSuffix: string := ".door.lock"
  const OverrideSuffix: string := ".door.override"

  /** `ends_with`: the last `|suffix|` characters of `s` are `suffix`. */
  predicate EndsWith(s: string, suffix: string) {
    |suffix| <= |s| && s[|s| - |suffix|..] == suffix
  }

  lemma DropAppend(a: string, b: string)
    ensures (a + b)[|a|..] == b
  {
  }

  /** Any string ends with what was appended to it, and a string that ends
    * with `suffix` is its front followed by `suffix`. */
  lemma EndsWithAppend(front: string, suffix: string, s: string)
    ensures EndsWith(front + suffix, suffix)
    ensures EndsWith(s, suffix) ==> s == s[..|s| - |suffix|] + suffix
  {
    DropAppend(front, suffix);
    if EndsWith(s, suffix) {
      assert s == s[..|s| - |suffix|] + s[|s| - |suffix|..];
    }
  }

  /** `extract_base`: the name without `suffix`, provided it ends with it and
    * something is left. */
  function ExtractBase(name: string, suffix: string): (r: Option<string>)
    ensures r.Some? ==> r.value != [] && r.value + suffix == name
    ensures r.None? <==> !EndsWith(name, suffix) || |name| == |suffix|
  {
    if |name| < |suffix| then None
    else if !EndsWith(name, suffix) then None
    else if |name| - |suffix| == 0 then None
    else
      var base := name[..|name| - |suffix|];
      EndsWithAppend(base, suffix, name);
      Some(base)
  }

  /** A base with a suffix appended is extracted back. */
  lemma ExtractBaseOf(base: string, suffix: string)
    requires base != []
    ensures ExtractBase(base + suffix, suffix) == Some(base)
  {
    EndsWithAppend(base, suffix, base + suffix);
    assert (base + suffix)[..|base|] == base;
  }

  /** The door a switch name belongs to, and whether it is the unlock
    * switch; the unlock suffix is tried before the lock suffix. */
  function DoorRole(name: string): (r: Option<(string, bool)>)
    ensures r.Some? ==> r.value.0 != []
    ensures r.Some? && r.value.1 ==> r.value.0 + UnlockSuffix == name
    ensures r.Some? && !r.value.1 ==> r.value.0 + LockSuffix == name
    ensures r.None? <==> ExtractBase(name, UnlockSuffix).None? && ExtractBase(name, LockSuffix).None?
  {
    var unlock := ExtractBase(name, UnlockSuffix);
    if unlock.Some? then Some((unlock.value, true))
    else
      var lock := ExtractBase(name, LockSuffix);
      if lock.Some? then Some((lock.value, false)) else None
  }

  /** A lock switch name is not also an unlock switch name. */
  lemma LockNameIsNotUnlock(base: string)
    requires base != []
    ensures DoorRole(base + LockSuffix) == Some((base, false))
  {
    var s := base + LockSuffix;
    assert s[|s| - 10] == '.' by { DropAppend(base, LockSuffix); assert s[|base|..][0] == '.'; }
    if |UnlockSuffix| <= |s| {
      assert s[|s| - 12..][2] == s[|s| - 10];
    }
    ExtractBaseOf(base, LockSuffix);
  }

  /** The three switch modes. */
  predicate IsSwitchMode(m: PinMode) {
    m == Switch || m == SwitchHigh || m == SwitchLow
  }

  /** Pin `p` is a closed override contact for door `base`. */
  predicate OverridePin(p: Pin, base: string) {
    p.mode == Sensor && p.name == base + OverrideSuffix && p.contact
  }

  /** `is_override_active_for_base`: some pin is a closed override contact
    * for the door. */
  predicate OverrideActive(pins: seq<Pin>, base: string) {
    exists j :: 0 <= j < |pins| && OverridePin(pins[j], base)
  }

  /** What a pin is other than its effective switch state. */
  function Layout(p: Pin): Pin {
    p.(on := false, onSet := false)
  }

  /** Two pin sets that differ at most in their effective switch states. */
  predicate SameLayout(p: seq<Pin>, q: seq<Pin>) {
    |p| == |q| && forall j :: 0 <= j < |p| ==> Layout(p[j]) == Layout(q[j])
  }

  /** The effective state a door switch should have: ON for unlock and OFF
    * for lock while the override is active, its base state otherwise, OFF
    * when it has none. */
  function Desired(p: Pin, isUnlock: bool, active: bool): (on: bool)
    ensures active ==> on == isUnlock
    ensures !active ==> (on <==> p.baseSet && p.baseOn)
  {
    if active then isUnlock else if p.baseSet then p.baseOn else false
  }

  /** Pin `k` of `pins` after `apply_lock_keypad_logic`. */
  function KeypadPin(pins: seq<Pin>, k: nat): (r: Pin)
    requires k < |pins|
    ensures Layout(r) == Layout(pins[k])
    ensures !IsSwitchMode(pins[k].mode) || DoorRole(pins[k].name).None? ==> r == pins[k]
    ensures IsSwitchMode(pins[k].mode) && DoorRole(pins[k].name).Some? ==> r.onSet
  {
    var p := pins[k];
    if !IsSwitchMode(p.mode) then p
    else
      var role := DoorRole(p.name);
      if role.None? then p
      else
        var (base, isUnlock) := role.value;
        p.(on := Desired(p, isUnlock, OverrideActive(pins, base)), onSet := true)
  }

  /** While a door's override contact is closed, its unlock switch is ON. */
  lemma OverrideOpensUnlock(pins: seq<Pin>, k: nat, base: string)
    requires k < |pins| && IsSwitchMode(pins[k].mode) && base != []
    requires pins[k].name == base + UnlockSuffix && OverrideActive(pins, base)
    ensures KeypadPin(pins, k).on && KeypadPin(pins, k).onSet
  {
    ExtractBaseOf(base, UnlockSuffix);
  }

  /** While a door's override contact is closed, its lock switch is OFF. */
  lemma OverrideReleasesLock(pins: seq<Pin>, k: nat, base: string)
    requires k < |pins| && IsSwitchMode(pins[k].mode) && base != []
    requires pins[k].name == base + LockSuffix && OverrideActive(pins, base)
    ensures !KeypadPin(pins, k).on && KeypadPin(pins, k).onSet
  {
    LockNameIsNotUnlock(base);
  }

  /** Without an active override a door switch mirrors its base state, and
    * is OFF when none was set. */
  lemma NoOverrideMirrorsBase(pins: seq<Pin>, k: nat)
    requires k < |pins| && IsSwitchMode(pins[k].mode)
    requires DoorRole(pins[k].name).Some? && !OverrideActive(pins, DoorRole(pins[k].name).value.0)
    ensures KeypadPin(pins, k).onSet
    ensures KeypadPin(pins, k).on <==> pins[k].baseSet && pins[k].baseOn
  {
  }

  /** The result for a pin depends on the other pins only through what the
    * logic does not change. */
  lemma {:induction false} KeypadPinStable(p: seq<Pin>, q: seq<Pin>, k: nat)
    requires SameLayout(p, q) && k < |p| && p[k] == q[k]
    ensures KeypadPin(p, k) == KeypadPin(q, k)
  {
    forall base: string
      ensures OverrideActive(p, base) <==> OverrideActive(q, base)
    {
      if OverrideActive(p, base) {
        var j :| 0 <= j < |p| && OverridePin(p[j], base);
        assert Layout(p[j]) == Layout(q[j]);
        assert OverridePin(q[j], base);
      }
      if OverrideActive(q, base) {
        var j :| 0 <= j < |q| && OverridePin(q[j], base);
        assert Layout(p[j]) == Layout(q[j]);
        assert OverridePin(p[j], base);
      }
    }
  }

  /** The scan `is_override_active_for_base` makes over pins 1..8. */
  method IsOverrideActiveForBase(cfg: IoConfig, base: string) returns (active: bool)
    requires cfg.Valid()
    ensures active == OverrideActive(cfg.pins, base)
  {
    var expected := base + OverrideSuffix;
    var j := 1;
    while j <= 8
      invariant 1 <= j <= 9
      invariant forall i :: 0 <= i < j - 1 ==> !OverridePin(cfg.pins[i], base)
    {
      var p := cfg.PinAt(j);
      if p.mode == Sensor && p.name == expected && p.contact {
        assert OverridePin(cfg.pins[j - 1], base);
        return true;
      }
      j := j + 1;
    }
    assert forall i :: 0 <= i < |cfg.pins| ==> !OverridePin(cfg.pins[i], base);
    return false;
  }

  /** One iteration of `apply_lock_keypad_logic`, for pin `i`. */
  method UpdateDoorSwitch(cfg: IoConfig, i: int) returns (changed: bool)
    requires cfg.Valid() && 1 <= i <= PinCount
    modifies cfg`pins
    ensures cfg.pins == old(cfg.pins)[i - 1 := KeypadPin(old(cfg.pins), i - 1)]
    ensures changed <==> KeypadPin(old(cfg.pins), i - 1) != old(cfg.pins[i - 1])
  {
    var p := cfg.PinAt(i);
    if !IsSwitchMode(p.mode) {
      return false;
    }
    var role := DoorRole(p.name);
    if role.None? {
      return false;
    }
    var (base, isUnlock) := role.value;
    var active := IsOverrideActiveForBase(cfg, base);
    var desired := Desired(p, isUnlock, active);
    changed := false;
    if !p.onSet || p.on != desired {
      cfg.SetSwitchState(i, desired);
      changed := true;
    }
  }

  /** After the first `n` iterations: those pins have their result, the rest
    * are as they were. */
  predicate Progress(cur: seq<Pin>, orig: seq<Pin>, n: nat) {
    |cur| == |orig| && n <= |orig|
    && (forall k :: 0 <= k < n ==> cur[k] == KeypadPin(orig, k))
    && (forall k :: n <= k < |orig| ==> cur[k] == orig[k])
  }

  /** One of the first `n` pins differs. */
  predicate Changed(cur: seq<Pin>, orig: seq<Pin>, n: nat)
    requires n <= |cur| && n <= |orig|
  {
    exists k :: 0 <= k < n && cur[k] != orig[k]
  }

  /** Iteration `n` computes on the partly updated pins what it would have
    * computed on the original ones, and extends the progress by one pin. */
  lemma {:induction false} ProgressStep(cur: seq<Pin>, orig: seq<Pin>, n: nat)
    requires Progress(cur, orig, n) && n < |orig|
    ensures KeypadPin(cur, n) == KeypadPin(orig, n)
    ensures Progress(cur[n := KeypadPin(orig, n)], orig, n + 1)
  {
    assert SameLayout(cur, orig);
    KeypadPinStable(cur, orig, n);
  }

  /** Whether anything changed, one pin further. */
  lemma {:induction false} ChangedStep(cur: seq<Pin>, orig: seq<Pin>, n: nat, p: Pin)
    requires |cur| == |orig| && n < |orig| && cur[n] == orig[n]
    ensures Changed(cur[n := p], orig, n + 1) <==> Changed(cur, orig, n) || p != orig[n]
  {
    var next := cur[n := p];
    if Changed(cur, orig, n) {
      var k :| 0 <= k < n && cur[k] != orig[k];
      assert next[k] != orig[k];
    }
    if Changed(next, orig, n + 1) {
      var k :| 0 <= k < n + 1 && next[k] != orig[k];
      if k < n { assert cur[k] != orig[k]; }
    }
  }

  lemma ChangedAll(cur: seq<Pin>, orig: seq<Pin>)
    requires |cur| == |orig|
    ensures Changed(cur, orig, |cur|) <==> cur != orig
  {
    if cur != orig {
      var k :| 0 <= k < |cur| && cur[k] != orig[k];
    }
  }

  /** `apply_lock_keypad_logic`: every door switch is set to its desired
    * state; the result says whether any switch state was set or changed. */
  method ApplyLockKeypadLogic(cfg: IoConfig) returns (anyChange: bool)
    requires cfg.Valid()
    modifies cfg`pins
    ensures cfg.Valid()
    ensures forall k :: 0 <= k < PinCount ==> cfg.pins[k] == KeypadPin(old(cfg.pins), k)
    ensures anyChange <==> cfg.pins != old(cfg.pins)
  {
    ghost var orig := cfg.pins;
    anyChange := false;
    var i := 1;
    while i <= 8
      invariant 1 <= i <= 9
      invariant Progress(cfg.pins, orig, i - 1)
      invariant anyChange <==> Changed(cfg.pins, orig, i - 1)
    {
      ghost var before := cfg.pins;
      ProgressStep(before, orig, i - 1);
      ChangedStep(before, orig, i - 1, KeypadPin(orig, i - 1));
      var changed := UpdateDoorSwitch(cfg, i);
      anyChange := anyChange || changed;
      i := i + 1;
    }
    ChangedAll(cfg.pins, orig);
  }
}
