/** The `led1` .. `led4` configuration modules: GPIOs, chip, geometry,
  * pattern, colour, brightness, speed, start text and the DMA claim of one
  * LED strip. */
module ConfigLed {
  import opened CTypes
  import opened CStr
  import opened ConfigText

  datatype Chip = InvalidChip | Ws2812 | Sk6812

  datatype Pattern = InvalidPattern | Off | Fade | Status | Solid | Rainbow | Life | Chase

  /** `parse_chip`: the exact chip names, anything else (or NULL) invalid. */
  function ParseChip(value: Option<CString>): (c: Chip)
    ensures c != InvalidChip ==> value == Some(ChipName(c))
  {
    if value.None? then InvalidChip
    else if value.value == "WS2812" then Ws2812
    else if value.value == "SK6812" then Sk6812
    else InvalidChip
  }

  /** `chip_to_string`: an invalid chip prints as the default WS2812. */
  function ChipName(c: Chip): (n: CString)
    ensures c == InvalidChip ==> n == "WS2812"
  {
    match c
    case Ws2812 => "WS2812"
    case Sk6812 => "SK6812"
    case InvalidChip => "WS2812"
  }

  /** Every valid chip's name parses back to it. */
  lemma ChipRoundTrip(c: Chip)
    requires c != InvalidChip
    ensures ParseChip(Some(ChipName(c))) == c
  {
  }

  /** `parse_pattern`: the seven exact pattern names. */
  function ParsePattern(value: Option<CString>): (p: Pattern)
    ensures p != InvalidPattern ==> value == Some(PatternName(p))
  {
    if value.None? then InvalidPattern
    else if value.value == "OFF" then Off
    else if value.value == "FADE" then Fade
    else if value.value == "STATUS" then Status
    else if value.value == "SOLID" then Solid
    else if value.value == "RAINBOW" then Rainbow
    else if value.value == "LIFE" then Life
    else if value.value == "CHASE" then Chase
    else InvalidPattern
  }

  /** `pattern_to_string`: an invalid pattern prints as OFF. */
  function PatternName(p: Pattern): (n: CString)
    ensures p == InvalidPattern ==> n == "OFF"
  {
    match p
    case InvalidPattern => "OFF"
    case Off => "OFF"
    case Fade => "FADE"
    case Status => "STATUS"
    case Solid => "SOLID"
    case Rainbow => "RAINBOW"
    case Life => "LIFE"
    case Chase => "CHASE"
  }

  /** Every valid pattern's name parses back to it. */
  lemma PatternRoundTrip(p: Pattern)
    requires p != InvalidPattern
    ensures ParsePattern(Some(PatternName(p))) == p
  {
  }

  datatype LedSettings = LedSettings(
    dataGpioSet: bool, dataGpio: int,
    enabledGpioSet: bool, enabledGpio: int,
    chip: CString, chipKind: Chip,
    columns: int, rows: int,
    patternSet: bool, pattern: CString, patternKind: Pattern,
    rSet: bool, r: int, gSet: bool, g: int, bSet: bool, b: int, wSet: bool, w: int,
    brightnessSet: bool, brightness: int,
    speedSet: bool, speed: int,
    startSet: bool, start: CString,
    dmaSet: bool, dma: bool)

  /** A freshly constructed module. */
  const Defaults := LedSettings(
    false, -1, false, -1, "WS2812", Ws2812, 1, 1, false, "", Off,
    false, 0, false, 0, false, 0, false, 0, false, 100, false, 100, false, "", false, false)

  const Keys: seq<string> := [
    "dataGPIO", "enabledGPIO", "chip", "num_columns", "num_rows", "pattern",
    "R", "G", "B", "W", "brightness", "speed", "start", "dma"]

  /** What a stored configuration always satisfies. */
  predicate Valid(s: LedSettings) {
    && s.columns >= 1 && s.rows >= 1
    && 0 <= s.brightness <= 100 && 0 <= s.speed <= 100
    && s.chipKind != InvalidChip && s.chip == ChipName(s.chipKind)
    && s.patternKind != InvalidPattern
    && (s.patternSet ==> s.pattern == PatternName(s.patternKind))
    && (s.dma ==> s.dmaSet)
  }

  /** `num_columns` / `num_rows`: `atoi`, 1 for NULL, and 1 for anything
    * not positive. */
  function Dimension(value: Option<CString>): (n: int)
    ensures n >= 1
    ensures value.None? ==> n == 1
    ensures value.Some? && Atoi(value.value) >= 1 ==> n == Atoi(value.value)
    ensures value.Some? && Atoi(value.value) <= 0 ==> n == 1
  {
    var n := IntOr(value, 1);
    if n <= 0 then 1 else n
  }

  /** `brightness` / `speed`: `atoi` clamped to [0, 100], 100 for NULL. */
  function Percent(value: Option<CString>): (n: int)
    ensures 0 <= n <= 100
    ensures value.None? ==> n == 100
    ensures value.Some? && 0 <= Atoi(value.value) <= 100 ==> n == Atoi(value.value)
    ensures value.Some? && Atoi(value.value) < 0 ==> n == 0
    ensures value.Some? && Atoi(value.value) > 100 ==> n == 100
  {
    Clamp(IntOr(value, 100), 0, 100)
  }

  /** `LEDConfig::apply_update` on the module's configuration `s`. */
  function Apply(s: LedSettings, key: Option<CString>, value: Option<CString>): (r: Applied<LedSettings>)
    ensures key.None? ==> r.err == INVALID_ARG
    ensures r.err == OK || r.err == INVALID_ARG || r.err == NOT_FOUND
    ensures r.err != OK ==> r.state == s
    ensures r.err == NOT_FOUND <==> key.Some? && key.value !in Keys
    ensures Valid(s) ==> Valid(r.state)
  {
    if key.None? then Applied(INVALID_ARG, s)
    else if key.value in HardwareKeys then ApplyHardware(s, key.value, value)
    else if key.value in LookKeys then ApplyLook(s, key.value, value)
    else if key.value == "dma" then ApplyDma(s, value)
    else Applied(NOT_FOUND, s)
  }

  const HardwareKeys: seq<string> := ["dataGPIO", "enabledGPIO", "chip", "num_columns", "num_rows"]

  const LookKeys: seq<string> := ["pattern", "R", "G", "B", "W", "brightness", "speed", "start"]

  lemma KeysSplit()
    ensures forall k :: k in Keys <==> k in HardwareKeys || k in LookKeys || k == "dma"
  {
  }

  /** The persisted keys: GPIOs, chip and geometry. */
  function ApplyHardware(s: LedSettings, k: CString, value: Option<CString>): (r: Applied<LedSettings>)
    requires k in HardwareKeys
    ensures r.err == OK || r.err == INVALID_ARG
    ensures r.err != OK ==> r.state == s
    ensures k == "dataGPIO" ==> r == Applied(OK, s.(dataGpioSet := value.Some?, dataGpio := IntOr(value, -1)))
    ensures k == "chip" ==> (r.err == OK <==> ParseChip(value) != InvalidChip)
    ensures k == "chip" && r.err == OK ==>
      r.state == s.(chipKind := ParseChip(value), chip := value.value)
    ensures k == "num_columns" ==> r == Applied(OK, s.(columns := Dimension(value)))
    ensures k == "num_rows" ==> r == Applied(OK, s.(rows := Dimension(value)))
    ensures Valid(s) ==> Valid(r.state)
  {
    if k == "dataGPIO" then
      Applied(OK, s.(dataGpioSet := value.Some?, dataGpio := IntOr(value, -1)))
    else if k == "enabledGPIO" then
      Applied(OK, s.(enabledGpioSet := value.Some?, enabledGpio := IntOr(value, -1)))
    else if k == "chip" then
      var parsed := ParseChip(value);
      if parsed != InvalidChip then Applied(OK, s.(chipKind := parsed, chip := ChipName(parsed)))
      else Applied(INVALID_ARG, s)
    else if k == "num_columns" then
      Applied(OK, s.(columns := Dimension(value)))
    else
      Applied(OK, s.(rows := Dimension(value)))
  }

  /** The runtime keys: pattern, colour, brightness, speed and start. */
  function ApplyLook(s: LedSettings, k: CString, value: Option<CString>): (r: Applied<LedSettings>)
    requires k in LookKeys
    ensures r.err == OK || r.err == INVALID_ARG
    ensures r.err != OK ==> r.state == s
    ensures k == "pattern" ==> (r.err == OK <==> ParsePattern(value) != InvalidPattern)
    ensures k == "pattern" && r.err == OK ==>
      r.state == s.(patternKind := ParsePattern(value), pattern := value.value, patternSet := true)
    ensures k == "R" ==> r == Applied(OK, s.(r := IntOr(value, 0), rSet := value.Some?))
    ensures k == "brightness" ==>
      r == Applied(OK, s.(brightness := Percent(value), brightnessSet := value.Some?))
    ensures k == "speed" ==>
      r == Applied(OK, s.(speed := Percent(value), speedSet := value.Some?))
    ensures k != "pattern" ==> r.err == OK
    ensures Valid(s) ==> Valid(r.state)
  {
    if k == "pattern" then
      var parsed := ParsePattern(value);
      if parsed != InvalidPattern then
        Applied(OK, s.(patternKind := parsed, pattern := PatternName(parsed), patternSet := true))
      else Applied(INVALID_ARG, s)
    else if k == "R" then Applied(OK, s.(r := IntOr(value, 0), rSet := value.Some?))
    else if k == "G" then Applied(OK, s.(g := IntOr(value, 0), gSet := value.Some?))
    else if k == "B" then Applied(OK, s.(b := IntOr(value, 0), bSet := value.Some?))
    else if k == "W" then Applied(OK, s.(w := IntOr(value, 0), wSet := value.Some?))
    else if k == "brightness" then
      Applied(OK, s.(brightness := Percent(value), brightnessSet := value.Some?))
    else if k == "speed" then
      Applied(OK, s.(speed := Percent(value), speedSet := value.Some?))
    else
      Applied(OK, s.(startSet := value.Some?, start := TextOr(value)))
  }

  /** The tri-state `dma` key: NULL or empty gives the claim up, a true word
    * claims the DMA channel, a false word refuses it explicitly. */
  function ApplyDma(s: LedSettings, value: Option<CString>): (r: Applied<LedSettings>)
    ensures r.err == OK || r.err == INVALID_ARG
    ensures r.err != OK ==> r.state == s
    ensures r.err == OK ==> r.state == s.(dmaSet := r.state.dmaSet, dma := r.state.dma)
    ensures r.err == OK ==> (r.state.dma ==> r.state.dmaSet)
    ensures value.Some? && value.value != "" ==>
      (r.err == OK <==> Truthy(value.value) || Falsy(value.value))
    ensures value.None? ==> r == Applied(OK, s.(dmaSet := false, dma := false))
  {
    if value.None? || value.value == "" then Applied(OK, s.(dmaSet := false, dma := false))
    else if Truthy(value.value) then Applied(OK, s.(dmaSet := true, dma := true))
    else if Falsy(value.value) then Applied(OK, s.(dmaSet := true, dma := false))
    else Applied(INVALID_ARG, s)
  }

  /** The truthy test above the falsy one is never shadowed: each accepted
    * word lands in exactly one state. */
  lemma DmaWords(s: LedSettings, v: CString)
    requires v != ""
    ensures Falsy(v) ==> ApplyDma(s, Some(v)) == Applied(OK, s.(dmaSet := true, dma := false))
    ensures Truthy(v) ==> ApplyDma(s, Some(v)) == Applied(OK, s.(dmaSet := true, dma := true))
  {
    TruthyFalsyDisjoint(v);
  }

  /** A `LEDConfig` object, named `led1` .. `led4` by the manager. Its
    * two dozen fields are kept together in one `LedSettings` record, which
    * `apply_update` updates one key at a time. */
  class LedConfig {
    const name: CString
    var settings: LedSettings
    var generation: u32

    /** A NULL instance name falls back to `led`. */
    constructor (instanceName: Option<CString>)
      ensures name == (if instanceName.Some? then instanceName.value else "led")
      ensures settings == Defaults && generation == 0
    {
      name := if instanceName.Some? then instanceName.value else "led";
      settings := Defaults;
      generation := 0;
    }

    /** `has_data_gpio`. */
    predicate HasDataGpio()
      reads this
    {
      settings.dataGpioSet
    }

    method ApplyUpdate(key: Option<CString>, value: Option<CString>) returns (err: EspErr)
      modifies this`settings
      ensures Applied(err, settings) == Apply(old(settings), key, value)
    {
      if key.None? {
        return INVALID_ARG;
      }
      var k := key.value;
      if k in HardwareKeys {
        err := UpdateHardware(k, value);
      } else if k in LookKeys {
        err := UpdateLook(k, value);
      } else if k == "dma" {
        err := UpdateDma(value);
      } else {
        err := NOT_FOUND;
      }
    }

    method UpdateHardware(k: CString, value: Option<CString>) returns (err: EspErr)
      requires k in HardwareKeys
      modifies this`settings
      ensures Applied(err, settings) == ApplyHardware(old(settings), k, value)
    {
      if k == "dataGPIO" {
        settings := settings.(dataGpioSet := value.Some?,
                              dataGpio := if value.Some? then Atoi(value.value) else -1);
        return OK;
      }
      if k == "enabledGPIO" {
        settings := settings.(enabledGpioSet := value.Some?,
                              enabledGpio := if value.Some? then Atoi(value.value) else -1);
        return OK;
      }
      if k == "chip" {
        var parsed := ParseChip(value);
        if parsed != InvalidChip {
          settings := settings.(chipKind := parsed, chip := ChipName(parsed));
          return OK;
        }
        return INVALID_ARG;
      }
      var n := if value.Some? then Atoi(value.value) else 1;
      if n <= 0 { n := 1; }
      if k == "num_columns" {
        settings := settings.(columns := n);
      } else {
        settings := settings.(rows := n);
      }
      return OK;
    }

    method UpdateLook(k: CString, value: Option<CString>) returns (err: EspErr)
      requires k in LookKeys
      modifies this`settings
      ensures Applied(err, settings) == ApplyLook(old(settings), k, value)
    {
      if k == "pattern" {
        var parsed := ParsePattern(value);
        if parsed != InvalidPattern {
          settings := settings.(patternKind := parsed, pattern := PatternName(parsed), patternSet := true);
          return OK;
        }
        return INVALID_ARG;
      }
      var n := IntOr(value, 0);
      if k == "R" { settings := settings.(r := n, rSet := value.Some?); return OK; }
      if k == "G" { settings := settings.(g := n, gSet := value.Some?); return OK; }
      if k == "B" { settings := settings.(b := n, bSet := value.Some?); return OK; }
      if k == "W" { settings := settings.(w := n, wSet := value.Some?); return OK; }
      if k == "brightness" || k == "speed" {
        var p := if value.Some? then Atoi(value.value) else 100;
        if p < 0 { p := 0; }
        if p > 100 { p := 100; }
        if k == "brightness" {
          settings := settings.(brightness := p, brightnessSet := value.Some?);
        } else {
          settings := settings.(speed := p, speedSet := value.Some?);
        }
        return OK;
      }
      settings := settings.(startSet := value.Some?, start := TextOr(value));
      return OK;
    }

    method UpdateDma(value: Option<CString>) returns (err: EspErr)
      modifies this`settings
      ensures Applied(err, settings) == ApplyDma(old(settings), value)
    {
      if value.None? || value.value == "" {
        settings := settings.(dmaSet := false, dma := false);
        return OK;
      }
      if Truthy(value.value) {
        settings := settings.(dmaSet := true, dma := true);
        return OK;
      }
      if Falsy(value.value) {
        settings := settings.(dmaSet := true, dma := false);
        return OK;
      }
      return INVALID_ARG;
    }

    /** `mark_updated`: the generation counter is a `uint32_t`. */
    method MarkUpdated()
      modifies this`generation
      ensures generation == WrapU32(old(generation) + 1)
    {
      generation := WrapU32(generation + 1);
    }
  }
}
