/** The `io1` .. `io8` configuration modules: eight pins of a GPIO expander,
  * each with a mode, a name and a switch state, addressed by the keys
  * `pin<N>config`, `pin<N>name` and `switch<N>`. */
module ConfigIo {
  import opened CTypes
  import opened CStr
  import opened ConfigText

  /** `IOConfig::PinMode`. */
  datatype PinMode = InvalidMode | Switch | SwitchHigh | SwitchLow | Sensor

  /** `parse_pin_mode`: only `SWITCH` and `SENSOR` are recognised. */
  function ParsePinMode(value: Option<CString>): (m: PinMode)
    ensures m == Switch <==> IsKey(value, "SWITCH")
    ensures m == Sensor <==> IsKey(value, "SENSOR")
    ensures m == InvalidMode || m == Switch || m == Sensor
  {
    if value.None? then InvalidMode
    else if value.value == "SWITCH" then Switch
    else if value.value == "SENSOR" then Sensor
    else InvalidMode
  }

  /** `pin_mode_to_string`: the modes without a name print as `""`. */
  function PinModeName(m: PinMode): (s: CString)
    ensures s == "" <==> m != Switch && m != Sensor
  {
    match m
    case Switch => "SWITCH"
    case Sensor => "SENSOR"
    case _ => ""
  }

  /** The two conversions are inverse on the modes that have a name. */
  lemma PinModeRoundTrip(m: PinMode, value: Option<CString>)
    ensures m == Switch || m == Sensor ==> ParsePinMode(Some(PinModeName(m))) == m
    ensures ParsePinMode(value) != InvalidMode ==> value == Some(PinModeName(ParsePinMode(value)))
  {
  }

  /** What `IOConfig` keeps for one pin: each value with the flag saying it
    * was set. */
  datatype Pin = Pin(
    mode: PinMode, modeSet: bool,
    on: bool, onSet: bool,
    baseOn: bool, baseSet: bool,
    name: CString, nameSet: bool,
    contact: bool, contactSet: bool)

  /** A pin nobody configured, and what the accessors read outside 1..8. */
  const DefaultPin := Pin(InvalidMode, false, false, false, false, false, "", false, false, false)

  const PinCount := 8

  /** The three kinds of key, with the pin number `sscanf` read from the key
    * (`None` when its `%d` failed). */
  datatype IoKey = PinConfigKey(idx: Option<int>) | PinNameKey(idx: Option<int>) | SwitchStateKey(idx: Option<int>) | OtherKey

  /** The number `sscanf(key, "<prefix>%d...", &idx) == 1` reads after a
    * prefix of length `skip`; the literal after `%d` is not checked. */
  function IndexAfter(key: string, skip: nat): (idx: Option<int>)
    requires skip <= |key|
  {
    var n := ScanInt(key[skip..]);
    if n.None? then None else Some(n.value.0)
  }

  /** The order in which `apply_update` tests a key. */
  function Route(key: CString): (r: IoKey)
    ensures r.OtherKey? <==>
      !(HasPrefix(key, "pin") && (Contains(key, "config") || Contains(key, "name"))) && !HasPrefix(key, "switch")
  {
    if HasPrefix(key, "pin") && Contains(key, "config") then PinConfigKey(IndexAfter(key, 3))
    else if HasPrefix(key, "pin") && Contains(key, "name") then PinNameKey(IndexAfter(key, 3))
    else if HasPrefix(key, "switch") then SwitchStateKey(IndexAfter(key, 6))
    else OtherKey
  }

  /** `pinNconfig` on pin `p`. */
  function ApplyMode(p: Pin, value: Option<CString>): (r: Applied<Pin>)
    ensures r.err == OK || r.err == INVALID_ARG
    ensures r.err == OK <==> IsKey(value, "SWITCH") || IsKey(value, "SENSOR")
    ensures r.err != OK ==> r.state == p
    ensures r.err == OK ==> r.state.modeSet && PinModeName(r.state.mode) == value.value
    ensures r.state.(mode := p.mode, modeSet := p.modeSet) == p
  {
    var m := ParsePinMode(value);
    if m == InvalidMode then Applied(INVALID_ARG, p) else Applied(OK, p.(mode := m, modeSet := true))
  }

  /** `pinNname` on pin `p`: NULL clears the name and its flag. */
  function ApplyName(p: Pin, value: Option<CString>): (r: Applied<Pin>)
    ensures r.err == OK
    ensures r.state.name == TextOr(value) && (r.state.nameSet <==> value.Some?)
    ensures r.state.(name := p.name, nameSet := p.nameSet) == p
  {
    Applied(OK, p.(nameSet := value.Some?, name := TextOr(value)))
  }

  /** `switchN` on pin `p`: an ON or OFF word, or NULL for OFF. */
  function ApplySwitch(p: Pin, value: Option<CString>): (r: Applied<Pin>)
    ensures r.err == OK || r.err == INVALID_ARG
    ensures r.err == OK <==> value.None? || Truthy(value.value) || Falsy(value.value)
    ensures r.err != OK ==> r.state == p
    ensures r.err == OK ==> r.state.onSet && (r.state.on <==> value.Some? && Truthy(value.value))
    ensures r.state.(on := p.on, onSet := p.onSet) == p
  {
    if value.None? then Applied(OK, p.(on := false, onSet := true))
    else if Truthy(value.value) then Applied(OK, p.(on := true, onSet := true))
    else if Falsy(value.value) then Applied(OK, p.(on := false, onSet := true))
    else Applied(INVALID_ARG, p)
  }

  /** The update a routed key makes to the pin it addresses. */
  function ApplyToPin(p: Pin, route: IoKey, value: Option<CString>): (r: Applied<Pin>)
    requires !route.OtherKey?
  {
    match route
    case PinConfigKey(_) => ApplyMode(p, value)
    case PinNameKey(_) => ApplyName(p, value)
    case SwitchStateKey(_) => ApplySwitch(p, value)
  }

  /** A routed key names a pin in 1..8. */
  predicate InRange(route: IoKey) {
    !route.OtherKey? && route.idx.Some? && 1 <= route.idx.value <= PinCount
  }

  /** `IOConfig::apply_update` on the eight pins `pins`. */
  function Apply(pins: seq<Pin>, key: Option<CString>, value: Option<CString>): (r: Applied<seq<Pin>>)
    requires |pins| == PinCount
    ensures |r.state| == PinCount
    ensures key.None? ==> r.err == INVALID_ARG
    ensures r.err == NOT_FOUND <==> key.Some? && Route(key.value).OtherKey?
    ensures key.Some? && !Route(key.value).OtherKey? && !InRange(Route(key.value)) ==> r.err == INVALID_ARG
    ensures r.err != OK ==> r.state == pins
    ensures r.err == OK ==> key.Some? && InRange(Route(key.value))
    ensures r.err == OK ==>
      var route := Route(key.value);
      r.state == pins[route.idx.value - 1 := ApplyToPin(pins[route.idx.value - 1], route, value).state]
  {
    if key.None? then Applied(INVALID_ARG, pins)
    else
      var route := Route(key.value);
      if route.OtherKey? then Applied(NOT_FOUND, pins)
      else if !InRange(route) then Applied(INVALID_ARG, pins)
      else
        var i := route.idx.value - 1;
        var a := ApplyToPin(pins[i], route, value);
        if a.err == OK then Applied(OK, pins[i := a.state]) else Applied(a.err, pins)
  }

  /** Any update leaves the pins it does not address as they were. */
  lemma OnlyAddressedPin(pins: seq<Pin>, key: CString, value: Option<CString>, j: nat)
    requires |pins| == PinCount && j < PinCount
    requires !InRange(Route(key)) || Route(key).idx.value != j + 1
    ensures Apply(pins, Some(key), value).state[j] == pins[j]
  {
  }

  // ------------------------------------------------------------ descriptors

  /** `snprintf(.., "pin%dconfig", n)`. */
  function ConfigKeyOf(n: nat): (k: CString)
  {
    NumberedKey("pin", n, "config")
  }

  /** `snprintf(.., "pin%dname", n)`. */
  function NameKeyOf(n: nat): (k: CString)
  {
    NumberedKey("pin", n, "name")
  }

  /** `snprintf(.., "switch%d", n)`. */
  function SwitchKeyOf(n: nat): (k: CString)
  {
    NumberedKey("switch", n, "")
  }

  function NumberedKey(prefix: CString, n: nat, suffix: CString): (k: CString)
    ensures k == prefix + NatString(n) + suffix
  {
    var d := NatString(n);
    assert '\0' !in d by {
      forall i | 0 <= i < |d| ensures d[i] != '\0' { assert IsDigit(d[i]); }
    }
    prefix + d + suffix
  }

  lemma DropAppend(a: string, b: string)
    ensures (a + b)[|a|..] == b
  {
  }

  /** The number in a descriptor key is what `sscanf` reads back. */
  lemma {:induction false} IndexOfNumberedKey(prefix: CString, n: nat, suffix: CString)
    requires suffix == [] || !IsDigit(suffix[0])
    ensures IndexAfter(NumberedKey(prefix, n, suffix), |prefix|) == Some(n)
  {
    var d := NatString(n);
    var key := NumberedKey(prefix, n, suffix);
    assert key == prefix + (d + suffix);
    DropAppend(prefix, d + suffix);
    ScanIntNatString(n, suffix);
  }

  /** A key built from a one-digit number, spelled out. */
  lemma OneDigitKey(prefix: CString, n: nat, suffix: CString)
    requires 1 <= n <= 9
    ensures NumberedKey(prefix, n, suffix) == prefix + [DigitChar(n)] + suffix
  {
    assert NatString(n) == [DigitChar(n)];
  }

  /** `pin<N>config` routes to the mode of pin N. */
  lemma {:induction false} ConfigKeyRoute(n: nat)
    requires 1 <= n <= PinCount
    ensures Route(ConfigKeyOf(n)) == PinConfigKey(Some(n))
  {
    var c := ConfigKeyOf(n);
    OneDigitKey("pin", n, "config");
    assert OccursAt(c, "config", 4);
    IndexOfNumberedKey("pin", n, "config");
  }

  /** `pin<N>name` routes to the name of pin N. */
  lemma {:induction false} NameKeyRoute(n: nat)
    requires 1 <= n <= PinCount
    ensures Route(NameKeyOf(n)) == PinNameKey(Some(n))
  {
    var m := NameKeyOf(n);
    OneDigitKey("pin", n, "name");
    NoConfigInName(m);
    assert OccursAt(m, "name", 4);
    IndexOfNumberedKey("pin", n, "name");
  }

  /** `switch<N>` routes to the switch state of pin N. */
  lemma {:induction false} SwitchKeyRoute(n: nat)
    requires 1 <= n <= PinCount
    ensures Route(SwitchKeyOf(n)) == SwitchStateKey(Some(n))
  {
    var s := SwitchKeyOf(n);
    OneDigitKey("switch", n, "");
    assert s[0] == 's';
    IndexOfNumberedKey("switch", n, "");
  }

  /** `pin<N>name` with one digit does not contain `config`. */
  lemma NoConfigInName(m: string)
    requires |m| == 8 && m[..3] == "pin"
    ensures !Contains(m, "config")
  {
    forall j | 0 <= j <= |m|
      ensures !OccursAt(m, "config", j)
    {
      if j <= 2 {
        assert m[j] == m[..3][j] != 'c';
        assert m[j..j + 6][0] == m[j];
      }
    }
  }

  // ------------------------------------------------------------ accessors

  /** What the index-guarded accessors read: pin `i` for `i` in 1..8, the
    * defaults (`INVALID`, false, `""`) otherwise. */
  function PinView(pins: seq<Pin>, i: int): (p: Pin)
    requires |pins| == PinCount
    ensures 1 <= i <= PinCount ==> p == pins[i - 1]
    ensures !(1 <= i <= PinCount) ==>
      (p.mode == InvalidMode && !p.modeSet && !p.on && !p.onSet && p.name == "" && !p.nameSet
       && !p.baseOn && !p.baseSet && !p.contact && !p.contactSet)
  {
    if 1 <= i <= PinCount then pins[i - 1] else DefaultPin
  }

  /** An `IOConfig` object: the `pins_` array member, one `Pin` per index, and the
    * generation counter. */
  class IoConfig {
    const name: CString
    var pins: seq<Pin>
    var generation: u32

    predicate Valid()
      reads this`pins
    {
      |pins| == PinCount
    }

    /** A NULL instance name falls back to `io1`. */
    constructor (instanceName: Option<CString>)
      ensures Valid()
      ensures name == (if instanceName.Some? then instanceName.value else "io1") && generation == 0
      ensures pins == seq(PinCount, _ => DefaultPin)
    {
      name := if instanceName.Some? then instanceName.value else "io1";
      pins := seq(8, _ => DefaultPin);
      generation := 0;
    }

    method ApplyUpdate(key: Option<CString>, value: Option<CString>) returns (err: EspErr)
      requires Valid()
      modifies this`pins
      ensures Applied(err, pins) == Apply(old(pins), key, value)
    {
      if key.None? {
        return INVALID_ARG;
      }
      var route := Route(key.value);
      if route.OtherKey? {
        return NOT_FOUND;
      }
      if route.idx.None? || route.idx.value < 1 || route.idx.value > 8 {
        return INVALID_ARG;
      }
      err := UpdatePin(route.idx.value, route, value);
    }

    /** The change a routed key makes to pin `n` in place. */
    method UpdatePin(n: int, route: IoKey, value: Option<CString>) returns (err: EspErr)
      requires Valid() && 1 <= n <= PinCount && !route.OtherKey?
      modifies this`pins
      ensures var a := ApplyToPin(old(pins[n - 1]), route, value);
        Applied(err, pins)
          == if a.err == OK then Applied(OK, old(pins)[n - 1 := a.state]) else Applied(a.err, old(pins))
    {
      var applied := ApplyToPin(pins[n - 1], route, value);
      err := applied.err;
      if err == OK {
        pins := pins[n - 1 := applied.state];
      }
    }

    /** The accessors `pin_mode`, `is_pin_mode_set`, `switch_state`,
      * `pin_name` and the others, which all read one pin. */
    function PinAt(i: int): (p: Pin)
      requires Valid()
      reads this
      ensures p == PinView(pins, i)
    {
      if i < 1 || i > 8 then DefaultPin else pins[i - 1]
    }

    /** `set_switch_state`: the effective switch state of pin `i`. */
    method SetSwitchState(i: int, on: bool)
      requires Valid()
      modifies this`pins
      ensures 1 <= i <= PinCount ==> pins == old(pins)[i - 1 := old(pins[i - 1]).(on := on, onSet := true)]
      ensures !(1 <= i <= PinCount) ==> pins == old(pins)
    {
      if 1 <= i <= 8 {
        pins := pins[i - 1 := pins[i - 1].(on := on, onSet := true)];
      }
    }

    /** `set_contact_state`: the contact a SENSOR pin reports. */
    method SetContactState(i: int, closed: bool)
      requires Valid()
      modifies this`pins
      ensures 1 <= i <= PinCount ==> pins == old(pins)[i - 1 := old(pins[i - 1]).(contact := closed, contactSet := true)]
      ensures !(1 <= i <= PinCount) ==> pins == old(pins)
    {
      if 1 <= i <= 8 {
        pins := pins[i - 1 := pins[i - 1].(contact := closed, contactSet := true)];
      }
    }

    /** `mark_updated`: the generation counter is a `uint32_t`. */
    method MarkUpdated()
      modifies this`generation
      ensures generation == WrapU32(old(generation) + 1)
    {
      generation := WrapU32(generation + 1);
    }
  }
}
